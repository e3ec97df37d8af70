/** The `oauth` block of an HTTP endpoint (oauth.go): an OAuth provider with optional
    e-mail and domain allow lists and scopes. */
module OAuth {
  import opened Common
  import opened Sdk

  datatype OAuthConfig = OAuthConfig(
    provider: string,
    allowEmails: seq<string>,
    allowDomains: seq<string>,
    scopes: seq<string>
  )

  const NoOAuth := OAuthConfig("", [], [], [])

  predicate IsList(name: string) {
    name in {"scopes", "allow_domains", "allow_emails"}
  }

  /** A block line the parser accepts: `provider` with one argument or a list
      subdirective with at least one, and no block of its own. */
  predicate LineOk(l: Line) {
    && (l.name == "provider" || IsList(l.name))
    && (l.name == "provider" ==> |l.args| == 1)
    && (IsList(l.name) ==> |l.args| > 0)
    && l.block.NoBlock?
  }

  /** The error reported for a rejected line. */
  function LineError(l: Line): Error {
    if !(l.name == "provider" || IsList(l.name)) then Unrecognized(l.name)
    else if (l.name == "provider" && |l.args| != 1) || (IsList(l.name) && l.args == []) then WrongArgs(l.name)
    else Unrecognized("{")
  }

  /** One subdirective of the `oauth` block. */
  function Step(o: OAuthConfig, l: Line): Result<OAuthConfig> {
    var o1 :- match l.name
      case "provider" => var v :- OneArg(l); Ok(o.(provider := v))
      case "scopes" => if l.args == [] then Err(WrongArgs(l.name)) else Ok(o.(scopes := o.scopes + l.args))
      case "allow_domains" => if l.args == [] then Err(WrongArgs(l.name)) else Ok(o.(allowDomains := o.allowDomains + l.args))
      case "allow_emails" => if l.args == [] then Err(WrongArgs(l.name)) else Ok(o.(allowEmails := o.allowEmails + l.args))
      case _ => Err(Unrecognized(l.name));
    if l.block.Braces? then Err(Unrecognized("{")) else Ok(o1)
  }

  /** The subdirective loop of `UnmarshalCaddyfile`: every line must be accepted; the
      last provider wins and the lists accumulate in occurrence order. */
  function ParseLines(o: OAuthConfig, lines: seq<Line>): (r: Result<OAuthConfig>)
    ensures r.Ok? <==> forall i | 0 <= i < |lines| :: LineOk(lines[i])
    ensures r.Err? <==> FirstBad(LineOk, lines) < |lines|
    ensures r.Err? ==> r.error == LineError(lines[FirstBad(LineOk, lines)])
    decreases lines
  {
    if lines == [] then Ok(o)
    else
      var o1 :- Step(o, lines[0]);
      ParseLines(o1, lines[1..])
  }

  /** An accepted subdirective sets the single value it names or appends to the list
      it names; everything else is kept. */
  lemma StepFields(o: OAuthConfig, l: Line)
    requires Step(o, l).Ok?
    ensures Step(o, l).value.provider == if l.name == "provider" && |l.args| > 0 then l.args[0] else o.provider
    ensures Step(o, l).value.scopes == o.scopes + (if l.name == "scopes" then l.args else [])
    ensures Step(o, l).value.allowDomains == o.allowDomains + (if l.name == "allow_domains" then l.args else [])
    ensures Step(o, l).value.allowEmails == o.allowEmails + (if l.name == "allow_emails" then l.args else [])
  {
  }

  /** An accepted block is its first subdirective followed by the rest. */
  lemma ParseLinesUnfold(o: OAuthConfig, lines: seq<Line>)
    requires lines != [] && ParseLines(o, lines).Ok?
    ensures Step(o, lines[0]).Ok?
    ensures ParseLines(Step(o, lines[0]).value, lines[1..]) == ParseLines(o, lines)
  {
  }

  /** In an accepted block the last provider wins and the scopes, domains and e-mails
      accumulate in occurrence order. */
  lemma {:induction false} ParsedFields(o: OAuthConfig, lines: seq<Line>)
    requires ParseLines(o, lines).Ok?
    ensures ParseLines(o, lines).value.provider == LastArg(lines, "provider").GetOr(o.provider)
    ensures ParseLines(o, lines).value.scopes == o.scopes + ArgsOf(lines, "scopes")
    ensures ParseLines(o, lines).value.allowDomains == o.allowDomains + ArgsOf(lines, "allow_domains")
    ensures ParseLines(o, lines).value.allowEmails == o.allowEmails + ArgsOf(lines, "allow_emails")
    decreases lines
  {
    if lines == [] {
      assert ParseLines(o, lines).value == o;
    } else {
      ParseLinesUnfold(o, lines);
      var o1 := Step(o, lines[0]).value;
      StepFields(o, lines[0]);
      ParsedFields(o1, lines[1..]);
      LastArgStep(lines, "provider", o.provider, o1.provider);
      ArgsOfStep(lines, "scopes", o.scopes, o1.scopes);
      ArgsOfStep(lines, "allow_domains", o.allowDomains, o1.allowDomains);
      ArgsOfStep(lines, "allow_emails", o.allowEmails, o1.allowEmails);
    }
  }

  /** `UnmarshalCaddyfile`, with the dispenser on the `oauth` token: no argument on that
      line, then its block. */
  function Parse(args: seq<string>, block: Block): (r: Result<OAuthConfig>)
    ensures args != [] ==> r == Err(WrongArgs("oauth"))
    ensures args == [] ==> r == ParseLines(NoOAuth, if block.Braces? then block.lines else [])
  {
    if args != [] then Err(WrongArgs("oauth"))
    else ParseLines(NoOAuth, if block.Braces? then block.lines else [])
  }

  /** `doReplace`: placeholders are replaced in every list element, keeping each list's
      length and order, and in the provider. */
  function Replace(env: Env, o: OAuthConfig): (r: OAuthConfig)
    ensures r.provider == env.replace(o.provider)
    ensures |r.allowEmails| == |o.allowEmails| && |r.allowDomains| == |o.allowDomains| && |r.scopes| == |o.scopes|
    ensures forall i | 0 <= i < |o.allowEmails| :: r.allowEmails[i] == env.replace(o.allowEmails[i])
    ensures forall i | 0 <= i < |o.allowDomains| :: r.allowDomains[i] == env.replace(o.allowDomains[i])
    ensures forall i | 0 <= i < |o.scopes| :: r.scopes[i] == env.replace(o.scopes[i])
  {
    OAuthConfig(env.replace(o.provider), MapStrings(env.replace, o.allowEmails),
                MapStrings(env.replace, o.allowDomains), MapStrings(env.replace, o.scopes))
  }

  function Rank(s: OAuthOpt): int {
    match s
    case AllowOAuthEmail(_) => 0
    case AllowOAuthDomain(_) => 1
    case OAuthScope(_) => 2
  }

  /** Each sub-option with the condition under which it is built. */
  function SubSlots(o: OAuthConfig): seq<(bool, OAuthOpt)> {
    [ (|o.allowEmails| > 0, AllowOAuthEmail(o.allowEmails)),
      (|o.allowDomains| > 0, AllowOAuthDomain(o.allowDomains)),
      (|o.scopes| > 0, OAuthScope(o.scopes)) ]
  }

  /** The sub-options come in the order e-mails, domains, scopes, each present exactly
      when its list is non-empty and carrying the whole list. */
  lemma SubOptsShape(o: OAuthConfig)
    ensures InRankOrder(Rank, Selected(SubSlots(o)))
    ensures AllowOAuthEmail(o.allowEmails) in Selected(SubSlots(o)) <==> o.allowEmails != []
    ensures AllowOAuthDomain(o.allowDomains) in Selected(SubSlots(o)) <==> o.allowDomains != []
    ensures OAuthScope(o.scopes) in Selected(SubSlots(o)) <==> o.scopes != []
    ensures forall s | s in Selected(SubSlots(o)) ::
              s == AllowOAuthEmail(o.allowEmails) || s == AllowOAuthDomain(o.allowDomains) || s == OAuthScope(o.scopes)
  {
    var s := SubSlots(o);
    assert forall k | 0 <= k < |s| :: Rank(s[k].1) == k;
    SelectedRanked(Rank, s, 0);
    assert s[0].1 == AllowOAuthEmail(o.allowEmails);
    assert s[1].1 == AllowOAuthDomain(o.allowDomains);
    assert s[2].1 == OAuthScope(o.scopes);
  }

  /** `Provision`: after replacement, a blank provider is an error; otherwise one OAuth
      option carries the replaced provider and the sub-options of the replaced lists. */
  function Provision(env: Env, o: OAuthConfig): (r: Result<EndpointOpt>)
    ensures r.Err? <==> Blank(env.replace(o.provider))
    ensures r.Err? ==> r.error == BlankField("provider")
    ensures r.Ok? ==> r.value.OAuthOption? && r.value.provider == env.replace(o.provider)
    ensures r.Ok? ==> r.value.oauthOpts == Selected(SubSlots(Replace(env, o)))
  {
    var o' := Replace(env, o);
    var subs := Selected(SubSlots(o'));
    if Blank(o'.provider) then Err(BlankField("provider"))
    else Ok(OAuthOption(o'.provider, subs))
  }

  /** After provisioning, the sub-options are built from the replaced lists: each is
      present exactly when its list was non-empty in the configuration, in the order
      e-mails, domains, scopes. */
  lemma ProvisionSubOpts(env: Env, o: OAuthConfig)
    requires Provision(env, o).Ok?
    ensures InRankOrder(Rank, Provision(env, o).value.oauthOpts)
    ensures AllowOAuthEmail(MapStrings(env.replace, o.allowEmails)) in Provision(env, o).value.oauthOpts <==> o.allowEmails != []
    ensures AllowOAuthDomain(MapStrings(env.replace, o.allowDomains)) in Provision(env, o).value.oauthOpts <==> o.allowDomains != []
    ensures OAuthScope(MapStrings(env.replace, o.scopes)) in Provision(env, o).value.oauthOpts <==> o.scopes != []
    ensures |Provision(env, o).value.oauthOpts| <= 3
  {
    SubOptsShape(Replace(env, o));
  }
}
