/** The `webhook_verification` block of an HTTP endpoint (webhook_verification.go): a
    webhook provider and the secret its signatures are checked with. */
module Webhook {
  import opened Common
  import opened Sdk

  datatype WebhookConfig = WebhookConfig(provider: string, secret: string)

  const NoWebhook := WebhookConfig("", "")

  /** A block line the parser accepts: `provider` or `secret` with exactly one argument
      and no block of its own. */
  predicate LineOk(l: Line) {
    l.name in {"provider", "secret"} && |l.args| == 1 && l.block.NoBlock?
  }

  /** The error reported for a rejected line. */
  function LineError(l: Line): Error {
    if l.name !in {"provider", "secret"} then Unrecognized(l.name)
    else if |l.args| != 1 then WrongArgs(l.name)
    else Unrecognized("{")
  }

  /** One subdirective of the `webhook_verification` block. */
  function Step(w: WebhookConfig, l: Line): Result<WebhookConfig> {
    var w1 :- match l.name
      case "provider" => var v :- OneArg(l); Ok(w.(provider := v))
      case "secret" => var v :- OneArg(l); Ok(w.(secret := v))
      case _ => Err(Unrecognized(l.name));
    if l.block.Braces? then Err(Unrecognized("{")) else Ok(w1)
  }

  /** The subdirective loop of `UnmarshalCaddyfile`: every line must be accepted and the
      last provider and secret win. */
  function ParseLines(w: WebhookConfig, lines: seq<Line>): (r: Result<WebhookConfig>)
    ensures r.Ok? <==> forall i | 0 <= i < |lines| :: LineOk(lines[i])
    ensures r.Err? <==> FirstBad(LineOk, lines) < |lines|
    ensures r.Err? ==> r.error == LineError(lines[FirstBad(LineOk, lines)])
    decreases lines
  {
    if lines == [] then Ok(w)
    else
      var w1 :- Step(w, lines[0]);
      ParseLines(w1, lines[1..])
  }

  /** An accepted subdirective sets the value it names; the other is kept. */
  lemma StepFields(w: WebhookConfig, l: Line)
    requires Step(w, l).Ok?
    ensures Step(w, l).value.provider == if l.name == "provider" && |l.args| > 0 then l.args[0] else w.provider
    ensures Step(w, l).value.secret == if l.name == "secret" && |l.args| > 0 then l.args[0] else w.secret
  {
  }

  /** An accepted block is its first subdirective followed by the rest. */
  lemma ParseLinesUnfold(w: WebhookConfig, lines: seq<Line>)
    requires lines != [] && ParseLines(w, lines).Ok?
    ensures Step(w, lines[0]).Ok?
    ensures ParseLines(Step(w, lines[0]).value, lines[1..]) == ParseLines(w, lines)
  {
  }

  /** In an accepted block the last provider and the last secret win. */
  lemma {:induction false} ParsedFields(w: WebhookConfig, lines: seq<Line>)
    requires ParseLines(w, lines).Ok?
    ensures ParseLines(w, lines).value.provider == LastArg(lines, "provider").GetOr(w.provider)
    ensures ParseLines(w, lines).value.secret == LastArg(lines, "secret").GetOr(w.secret)
    decreases lines
  {
    if lines == [] {
      assert ParseLines(w, lines).value == w;
    } else {
      ParseLinesUnfold(w, lines);
      var w1 := Step(w, lines[0]).value;
      StepFields(w, lines[0]);
      ParsedFields(w1, lines[1..]);
      LastArgStep(lines, "provider", w.provider, w1.provider);
      LastArgStep(lines, "secret", w.secret, w1.secret);
    }
  }

  /** `UnmarshalCaddyfile`, with the dispenser on the `webhook_verification` token: no
      argument on that line, then its block. */
  function Parse(args: seq<string>, block: Block): (r: Result<WebhookConfig>)
    ensures args != [] ==> r == Err(WrongArgs("webhook_verification"))
    ensures args == [] ==> r == ParseLines(NoWebhook, if block.Braces? then block.lines else [])
  {
    if args != [] then Err(WrongArgs("webhook_verification"))
    else ParseLines(NoWebhook, if block.Braces? then block.lines else [])
  }

  /** `Provision`: after replacement, a blank provider is an error, then a blank secret;
      otherwise one verification option carries both replaced values. */
  function Provision(env: Env, w: WebhookConfig): (r: Result<EndpointOpt>)
    ensures Blank(env.replace(w.provider)) ==> r == Err(BlankField("provider"))
    ensures !Blank(env.replace(w.provider)) && Blank(env.replace(w.secret)) ==> r == Err(BlankField("secret"))
    ensures r.Ok? <==> !Blank(env.replace(w.provider)) && !Blank(env.replace(w.secret))
    ensures r.Ok? ==> r.value == WebhookVerification(env.replace(w.provider), env.replace(w.secret))
  {
    var p := env.replace(w.provider);
    var s := env.replace(w.secret);
    if Blank(p) then Err(BlankField("provider"))
    else if Blank(s) then Err(BlankField("secret"))
    else Ok(WebhookVerification(p, s))
  }

  /** A block naming a provider and a secret yields that pair whichever comes first,
      and provisioning it yields one option with both values replaced unless either
      is blank after replacement. */
  lemma ProviderAndSecret(env: Env, p: string, s: string)
    ensures Parse([], Braces([Line("provider", [p], NoBlock), Line("secret", [s], NoBlock)])) == Ok(WebhookConfig(p, s))
    ensures Parse([], Braces([Line("secret", [s], NoBlock), Line("provider", [p], NoBlock)])) == Ok(WebhookConfig(p, s))
    ensures Provision(env, WebhookConfig(p, s)).Ok? <==> !Blank(env.replace(p)) && !Blank(env.replace(s))
  {
    var a := [Line("provider", [p], NoBlock), Line("secret", [s], NoBlock)];
    var b := [Line("secret", [s], NoBlock), Line("provider", [p], NoBlock)];
    assert a[1..] == [a[1]] && b[1..] == [b[1]];
    assert [a[1]][1..] == [] && [b[1]][1..] == [];
    assert Step(NoWebhook, a[0]) == Ok(WebhookConfig(p, ""));
    assert ParseLines(WebhookConfig(p, ""), [a[1]]) == Ok(WebhookConfig(p, s));
    assert Step(NoWebhook, b[0]) == Ok(WebhookConfig("", s));
    assert ParseLines(WebhookConfig("", s), [b[1]]) == Ok(WebhookConfig(p, s));
  }
}
