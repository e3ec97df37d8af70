/** The `oidc` block of an HTTP endpoint (oidc.go): an OpenID Connect provider given by
    issuer, client id and client secret, with optional e-mail and domain allow lists
    and scopes. */
module Oidc {
  import opened Common
  import opened Sdk

  datatype OidcConfig = OidcConfig(
    issuerUrl: string,
    clientId: string,
    clientSecret: string,
    allowEmails: seq<string>,
    allowDomains: seq<string>,
    scopes: seq<string>
  )

  const NoOidc := OidcConfig("", "", "", [], [], [])

  predicate IsSingle(name: string) {
    name in {"issuer_url", "client_id", "client_secret"}
  }

  predicate IsList(name: string) {
    name in {"scopes", "allow_domains", "allow_emails"}
  }

  /** A block line the parser accepts: a known subdirective with its arity and no block
      of its own. */
  predicate LineOk(l: Line) {
    && (IsSingle(l.name) || IsList(l.name))
    && (IsSingle(l.name) ==> |l.args| == 1)
    && (IsList(l.name) ==> |l.args| > 0)
    && l.block.NoBlock?
  }

  /** The error reported for a rejected line. */
  function LineError(l: Line): Error {
    if !(IsSingle(l.name) || IsList(l.name)) then Unrecognized(l.name)
    else if (IsSingle(l.name) && |l.args| != 1) || (IsList(l.name) && l.args == []) then WrongArgs(l.name)
    else Unrecognized("{")
  }

  /** One subdirective of the `oidc` block. */
  function Step(o: OidcConfig, l: Line): Result<OidcConfig> {
    var o1 :- match l.name
      case "issuer_url" => var v :- OneArg(l); Ok(o.(issuerUrl := v))
      case "client_id" => var v :- OneArg(l); Ok(o.(clientId := v))
      case "client_secret" => var v :- OneArg(l); Ok(o.(clientSecret := v))
      case "scopes" => if l.args == [] then Err(WrongArgs(l.name)) else Ok(o.(scopes := o.scopes + l.args))
      case "allow_domains" => if l.args == [] then Err(WrongArgs(l.name)) else Ok(o.(allowDomains := o.allowDomains + l.args))
      case "allow_emails" => if l.args == [] then Err(WrongArgs(l.name)) else Ok(o.(allowEmails := o.allowEmails + l.args))
      case _ => Err(Unrecognized(l.name));
    if l.block.Braces? then Err(Unrecognized("{")) else Ok(o1)
  }

  /** The subdirective loop of `UnmarshalCaddyfile`: every line must be accepted; the
      last issuer, client id and secret win and the lists accumulate in occurrence
      order. */
  function ParseLines(o: OidcConfig, lines: seq<Line>): (r: Result<OidcConfig>)
    ensures r.Ok? <==> forall i | 0 <= i < |lines| :: LineOk(lines[i])
    ensures r.Err? <==> FirstBad(LineOk, lines) < |lines|
    ensures r.Err? ==> r.error == LineError(lines[FirstBad(LineOk, lines)])
    decreases lines
  {
    if lines == [] then Ok(o)
    else
      var o1 :- Step(o, lines[0]);
      ParseLines(o1, lines[1..])
  }

  /** An accepted subdirective sets the single values it names and appends to the list
      it names; everything else is kept. */
  lemma StepFields(o: OidcConfig, l: Line)
    requires Step(o, l).Ok?
    ensures Step(o, l).value.issuerUrl == if l.name == "issuer_url" && |l.args| > 0 then l.args[0] else o.issuerUrl
    ensures Step(o, l).value.clientId == if l.name == "client_id" && |l.args| > 0 then l.args[0] else o.clientId
    ensures Step(o, l).value.clientSecret == if l.name == "client_secret" && |l.args| > 0 then l.args[0] else o.clientSecret
    ensures Step(o, l).value.scopes == o.scopes + (if l.name == "scopes" then l.args else [])
    ensures Step(o, l).value.allowDomains == o.allowDomains + (if l.name == "allow_domains" then l.args else [])
    ensures Step(o, l).value.allowEmails == o.allowEmails + (if l.name == "allow_emails" then l.args else [])
  {
  }

  /** An accepted block is its first subdirective followed by the rest. */
  lemma ParseLinesUnfold(o: OidcConfig, lines: seq<Line>)
    requires lines != [] && ParseLines(o, lines).Ok?
    ensures Step(o, lines[0]).Ok?
    ensures ParseLines(Step(o, lines[0]).value, lines[1..]) == ParseLines(o, lines)
  {
  }

  /** In an accepted block the last issuer, client id and secret win and the scopes,
      domains and e-mails accumulate in occurrence order. */
  lemma {:induction false} ParsedFields(o: OidcConfig, lines: seq<Line>)
    requires ParseLines(o, lines).Ok?
    ensures ParseLines(o, lines).value.issuerUrl == LastArg(lines, "issuer_url").GetOr(o.issuerUrl)
    ensures ParseLines(o, lines).value.clientId == LastArg(lines, "client_id").GetOr(o.clientId)
    ensures ParseLines(o, lines).value.clientSecret == LastArg(lines, "client_secret").GetOr(o.clientSecret)
    ensures ParseLines(o, lines).value.scopes == o.scopes + ArgsOf(lines, "scopes")
    ensures ParseLines(o, lines).value.allowDomains == o.allowDomains + ArgsOf(lines, "allow_domains")
    ensures ParseLines(o, lines).value.allowEmails == o.allowEmails + ArgsOf(lines, "allow_emails")
    decreases lines
  {
    if lines == [] {
      assert ParseLines(o, lines).value == o;
    } else {
      ParseLinesUnfold(o, lines);
      var o1 := Step(o, lines[0]).value;
      StepFields(o, lines[0]);
      ParsedFields(o1, lines[1..]);
      LastArgStep(lines, "issuer_url", o.issuerUrl, o1.issuerUrl);
      LastArgStep(lines, "client_id", o.clientId, o1.clientId);
      LastArgStep(lines, "client_secret", o.clientSecret, o1.clientSecret);
      ArgsOfStep(lines, "scopes", o.scopes, o1.scopes);
      ArgsOfStep(lines, "allow_domains", o.allowDomains, o1.allowDomains);
      ArgsOfStep(lines, "allow_emails", o.allowEmails, o1.allowEmails);
    }
  }

  /** `UnmarshalCaddyfile`, with the dispenser on the `oidc` token: no argument on that
      line, then its block. */
  function Parse(args: seq<string>, block: Block): (r: Result<OidcConfig>)
    ensures args != [] ==> r == Err(WrongArgs("oidc"))
    ensures args == [] ==> r == ParseLines(NoOidc, if block.Braces? then block.lines else [])
  {
    if args != [] then Err(WrongArgs("oidc"))
    else ParseLines(NoOidc, if block.Braces? then block.lines else [])
  }

  /** `doReplace`: placeholders are replaced in every list element, keeping each list's
      length and order, and in the issuer, client id and secret. */
  function Replace(env: Env, o: OidcConfig): (r: OidcConfig)
    ensures r.issuerUrl == env.replace(o.issuerUrl) && r.clientId == env.replace(o.clientId)
    ensures r.clientSecret == env.replace(o.clientSecret)
    ensures |r.allowEmails| == |o.allowEmails| && |r.allowDomains| == |o.allowDomains| && |r.scopes| == |o.scopes|
    ensures forall i | 0 <= i < |o.allowEmails| :: r.allowEmails[i] == env.replace(o.allowEmails[i])
    ensures forall i | 0 <= i < |o.allowDomains| :: r.allowDomains[i] == env.replace(o.allowDomains[i])
    ensures forall i | 0 <= i < |o.scopes| :: r.scopes[i] == env.replace(o.scopes[i])
  {
    OidcConfig(env.replace(o.issuerUrl), env.replace(o.clientId), env.replace(o.clientSecret),
               MapStrings(env.replace, o.allowEmails), MapStrings(env.replace, o.allowDomains),
               MapStrings(env.replace, o.scopes))
  }

  function Rank(s: OidcOpt): int {
    match s
    case AllowOidcEmail(_) => 0
    case AllowOidcDomain(_) => 1
    case OidcScope(_) => 2
  }

  /** Each sub-option with the condition under which it is built. */
  function SubSlots(o: OidcConfig): seq<(bool, OidcOpt)> {
    [ (|o.allowEmails| > 0, AllowOidcEmail(o.allowEmails)),
      (|o.allowDomains| > 0, AllowOidcDomain(o.allowDomains)),
      (|o.scopes| > 0, OidcScope(o.scopes)) ]
  }

  /** The sub-options come in the order e-mails, domains, scopes, each present exactly
      when its list is non-empty and carrying the whole list. */
  lemma SubOptsShape(o: OidcConfig)
    ensures InRankOrder(Rank, Selected(SubSlots(o)))
    ensures AllowOidcEmail(o.allowEmails) in Selected(SubSlots(o)) <==> o.allowEmails != []
    ensures AllowOidcDomain(o.allowDomains) in Selected(SubSlots(o)) <==> o.allowDomains != []
    ensures OidcScope(o.scopes) in Selected(SubSlots(o)) <==> o.scopes != []
    ensures forall s | s in Selected(SubSlots(o)) ::
              s == AllowOidcEmail(o.allowEmails) || s == AllowOidcDomain(o.allowDomains) || s == OidcScope(o.scopes)
  {
    var s := SubSlots(o);
    assert forall k | 0 <= k < |s| :: Rank(s[k].1) == k;
    SelectedRanked(Rank, s, 0);
    assert s[0].1 == AllowOidcEmail(o.allowEmails);
    assert s[1].1 == AllowOidcDomain(o.allowDomains);
    assert s[2].1 == OidcScope(o.scopes);
  }

  /** `Provision`: after replacement, a blank issuer, client id or client secret is an
      error, checked in that order; otherwise one OIDC option carries the three replaced
      values and the sub-options of the replaced lists. */
  function Provision(env: Env, o: OidcConfig): (r: Result<EndpointOpt>)
    ensures Blank(env.replace(o.issuerUrl)) ==> r == Err(BlankField("issuer_url"))
    ensures !Blank(env.replace(o.issuerUrl)) && Blank(env.replace(o.clientId)) ==> r == Err(BlankField("client_id"))
    ensures (!Blank(env.replace(o.issuerUrl)) && !Blank(env.replace(o.clientId)) && Blank(env.replace(o.clientSecret)))
            ==> r == Err(BlankField("client_secret"))
    ensures r.Ok? <==> !Blank(env.replace(o.issuerUrl)) && !Blank(env.replace(o.clientId)) && !Blank(env.replace(o.clientSecret))
    ensures r.Ok? ==> r.value.OidcOption?
    ensures r.Ok? ==> r.value.issuerUrl == env.replace(o.issuerUrl) && r.value.clientId == env.replace(o.clientId)
                      && r.value.clientSecret == env.replace(o.clientSecret)
    ensures r.Ok? ==> r.value.oidcOpts == Selected(SubSlots(Replace(env, o)))
  {
    var o' := Replace(env, o);
    var subs := Selected(SubSlots(o'));
    if Blank(o'.issuerUrl) then Err(BlankField("issuer_url"))
    else if Blank(o'.clientId) then Err(BlankField("client_id"))
    else if Blank(o'.clientSecret) then Err(BlankField("client_secret"))
    else Ok(OidcOption(o'.issuerUrl, o'.clientId, o'.clientSecret, subs))
  }

  /** After provisioning, the sub-options are built from the replaced lists: each is
      present exactly when its list was non-empty in the configuration, in the order
      e-mails, domains, scopes. */
  lemma ProvisionSubOpts(env: Env, o: OidcConfig)
    requires Provision(env, o).Ok?
    ensures InRankOrder(Rank, Provision(env, o).value.oidcOpts)
    ensures AllowOidcEmail(MapStrings(env.replace, o.allowEmails)) in Provision(env, o).value.oidcOpts <==> o.allowEmails != []
    ensures AllowOidcDomain(MapStrings(env.replace, o.allowDomains)) in Provision(env, o).value.oidcOpts <==> o.allowDomains != []
    ensures OidcScope(MapStrings(env.replace, o.scopes)) in Provision(env, o).value.oidcOpts <==> o.scopes != []
    ensures |Provision(env, o).value.oidcOpts| <= 3
  {
    SubOptsShape(Replace(env, o));
  }
}
