/** The `tls` tunnel (tls.go): a TLS endpoint with an optional domain and metadata,
    CIDR allow and deny lists, and optional TLS termination from a certificate and key
    read from disk. */
module TlsTunnel {
  import opened Common
  import opened Sdk

  datatype Tls = Tls(
    domain: string,
    metadata: string,
    allowCidr: seq<string>,
    denyCidr: seq<string>,
    certPem: string,     // path of the certificate file
    keyPem: string       // path of the key file
  )

  const NoTls := Tls("", "", [], [], "", "")

  /** Subdirectives that take exactly one argument. */
  predicate IsSingle(name: string) {
    name in {"domain", "metadata", "cert", "key"}
  }

  /** Subdirectives that take one or more arguments and accumulate them. */
  predicate IsList(name: string) {
    name in {"allow", "deny"}
  }

  /** A block line the parser accepts: a known subdirective with its arity and no block
      of its own (a block would be read as a subdirective named `{`). */
  predicate LineOk(l: Line) {
    && (IsSingle(l.name) || IsList(l.name))
    && (IsSingle(l.name) ==> |l.args| == 1)
    && (IsList(l.name) ==> |l.args| > 0)
    && l.block.NoBlock?
  }

  /** The error reported for a rejected line. */
  function LineError(l: Line): Error {
    if !(IsSingle(l.name) || IsList(l.name)) then Unrecognized(l.name)
    else if (IsSingle(l.name) && |l.args| != 1) || (IsList(l.name) && l.args == []) then WrongArgs(l.name)
    else Unrecognized("{")
  }

  /** One subdirective of the `tls` block. */
  function Step(t: Tls, l: Line): Result<Tls> {
    var t1 :- match l.name
      case "domain" => var v :- OneArg(l); Ok(t.(domain := v))
      case "metadata" => var v :- OneArg(l); Ok(t.(metadata := v))
      case "cert" => var v :- OneArg(l); Ok(t.(certPem := v))
      case "key" => var v :- OneArg(l); Ok(t.(keyPem := v))
      case "allow" => if l.args == [] then Err(WrongArgs(l.name)) else Ok(t.(allowCidr := t.allowCidr + l.args))
      case "deny" => if l.args == [] then Err(WrongArgs(l.name)) else Ok(t.(denyCidr := t.denyCidr + l.args))
      case _ => Err(Unrecognized(l.name));
    if l.block.Braces? then Err(Unrecognized("{")) else Ok(t1)
  }

  /** The subdirective loop of `UnmarshalCaddyfile`: every line must be accepted; the
      last `domain`, `metadata`, `cert` and `key` win and `allow`/`deny` arguments
      accumulate in occurrence order. */
  function ParseLines(t: Tls, lines: seq<Line>): (r: Result<Tls>)
    ensures r.Ok? <==> forall i | 0 <= i < |lines| :: LineOk(lines[i])
    ensures r.Err? <==> FirstBad(LineOk, lines) < |lines|
    ensures r.Err? ==> r.error == LineError(lines[FirstBad(LineOk, lines)])
    decreases lines
  {
    if lines == [] then Ok(t)
    else
      var t1 :- Step(t, lines[0]);
      ParseLines(t1, lines[1..])
  }

  /** An accepted subdirective sets the single value it names or appends to the list
      it names; everything else is kept. */
  lemma StepFields(t: Tls, l: Line)
    requires Step(t, l).Ok?
    ensures Step(t, l).value.domain == if l.name == "domain" && |l.args| > 0 then l.args[0] else t.domain
    ensures Step(t, l).value.metadata == if l.name == "metadata" && |l.args| > 0 then l.args[0] else t.metadata
    ensures Step(t, l).value.certPem == if l.name == "cert" && |l.args| > 0 then l.args[0] else t.certPem
    ensures Step(t, l).value.keyPem == if l.name == "key" && |l.args| > 0 then l.args[0] else t.keyPem
    ensures Step(t, l).value.allowCidr == t.allowCidr + (if l.name == "allow" then l.args else [])
    ensures Step(t, l).value.denyCidr == t.denyCidr + (if l.name == "deny" then l.args else [])
  {
  }

  /** An accepted block is its first subdirective followed by the rest. */
  lemma ParseLinesUnfold(t: Tls, lines: seq<Line>)
    requires lines != [] && ParseLines(t, lines).Ok?
    ensures Step(t, lines[0]).Ok?
    ensures ParseLines(Step(t, lines[0]).value, lines[1..]) == ParseLines(t, lines)
  {
  }

  /** In an accepted block the last `domain`, `metadata`, `cert` and `key` win and the
      `allow`/`deny` arguments accumulate in occurrence order. */
  lemma {:induction false} ParsedFields(t: Tls, lines: seq<Line>)
    requires ParseLines(t, lines).Ok?
    ensures ParseLines(t, lines).value.domain == LastArg(lines, "domain").GetOr(t.domain)
    ensures ParseLines(t, lines).value.metadata == LastArg(lines, "metadata").GetOr(t.metadata)
    ensures ParseLines(t, lines).value.certPem == LastArg(lines, "cert").GetOr(t.certPem)
    ensures ParseLines(t, lines).value.keyPem == LastArg(lines, "key").GetOr(t.keyPem)
    ensures ParseLines(t, lines).value.allowCidr == t.allowCidr + ArgsOf(lines, "allow")
    ensures ParseLines(t, lines).value.denyCidr == t.denyCidr + ArgsOf(lines, "deny")
    decreases lines
  {
    if lines == [] {
      assert ParseLines(t, lines).value == t;
    } else {
      ParseLinesUnfold(t, lines);
      var t1 := Step(t, lines[0]).value;
      StepFields(t, lines[0]);
      ParsedFields(t1, lines[1..]);
      LastArgStep(lines, "domain", t.domain, t1.domain);
      LastArgStep(lines, "metadata", t.metadata, t1.metadata);
      LastArgStep(lines, "cert", t.certPem, t1.certPem);
      LastArgStep(lines, "key", t.keyPem, t1.keyPem);
      ArgsOfStep(lines, "allow", t.allowCidr, t1.allowCidr);
      ArgsOfStep(lines, "deny", t.denyCidr, t1.denyCidr);
    }
  }

  /** `UnmarshalCaddyfile`: no argument on the `tls` line, then its block. */
  function Parse(args: seq<string>, block: Block): (r: Result<Tls>)
    ensures args != [] ==> r == Err(WrongArgs("tls"))
    ensures args == [] ==> r == ParseLines(NoTls, if block.Braces? then block.lines else [])
  {
    if args != [] then Err(WrongArgs("tls"))
    else ParseLines(NoTls, if block.Braces? then block.lines else [])
  }

  /** `doReplace`: placeholders are replaced in the metadata, domain, certificate and key
      paths and in every CIDR, keeping the lists' length and order. */
  function Replace(env: Env, t: Tls): (r: Tls)
    ensures r.domain == env.replace(t.domain) && r.metadata == env.replace(t.metadata)
    ensures r.certPem == env.replace(t.certPem) && r.keyPem == env.replace(t.keyPem)
    ensures |r.allowCidr| == |t.allowCidr| && |r.denyCidr| == |t.denyCidr|
    ensures forall i | 0 <= i < |t.allowCidr| :: r.allowCidr[i] == env.replace(t.allowCidr[i])
    ensures forall i | 0 <= i < |t.denyCidr| :: r.denyCidr[i] == env.replace(t.denyCidr[i])
  {
    Tls(env.replace(t.domain), env.replace(t.metadata),
        MapStrings(env.replace, t.allowCidr), MapStrings(env.replace, t.denyCidr),
        env.replace(t.certPem), env.replace(t.keyPem))
  }

  /** The fixed position of each option kind in the tls option list. */
  function Rank(o: EndpointOpt): int {
    match o
    case Domain(_) => 0
    case Metadata(_) => 1
    case AllowCidr(_) => 2
    case DenyCidr(_) => 3
    case TlsTermination(_, _) => 4
    case _ => 5
  }

  /** Each option with the condition under which it is emitted, in emission order. The
      termination option carries the bytes of both files. */
  function Slots(readFile: string -> Option<seq<byte>>, t: Tls): seq<(bool, EndpointOpt)> {
    [ (!Blank(t.domain), Domain(t.domain)),
      (!Blank(t.metadata), Metadata(t.metadata)),
      (t.allowCidr != [], AllowCidr(t.allowCidr)),
      (t.denyCidr != [], DenyCidr(t.denyCidr)),
      (!Blank(t.certPem), TlsTermination(readFile(t.certPem).GetOr([]), readFile(t.keyPem).GetOr([]))) ]
  }

  /** The certificate/key checks of `provisionOpts`: a certificate without a key, a key
      without a certificate, or a named file that cannot be read is an error. */
  function CheckTermination(readFile: string -> Option<seq<byte>>, t: Tls): (r: Result<()>)
    ensures !Blank(t.certPem) && Blank(t.keyPem) ==> r == Err(CertWithoutKey)
    ensures Blank(t.certPem) && !Blank(t.keyPem) ==> r == Err(KeyWithoutCert)
    ensures r.Err? <==>
              || (Blank(t.certPem) != Blank(t.keyPem))
              || (!Blank(t.certPem) && (readFile(t.certPem).None? || readFile(t.keyPem).None?))
  {
    if !Blank(t.certPem) && Blank(t.keyPem) then Err(CertWithoutKey)
    else if Blank(t.certPem) && !Blank(t.keyPem) then Err(KeyWithoutCert)
    else if !Blank(t.certPem) && !Blank(t.keyPem) then
      if readFile(t.certPem).None? then Err(ReadFailed(t.certPem))
      else if readFile(t.keyPem).None? then Err(ReadFailed(t.keyPem))
      else Ok(())
    else Ok(())
  }

  /** `provisionOpts`: the options whose conditions hold, once the certificate/key
      checks pass. */
  function ProvisionOpts(readFile: string -> Option<seq<byte>>, t: Tls): (r: Result<seq<EndpointOpt>>)
    ensures r.Err? <==> CheckTermination(readFile, t).Err?
    ensures r.Err? ==> r.error == CheckTermination(readFile, t).error
    ensures r.Ok? ==> |r.value| <= 5
  {
    var _ :- CheckTermination(readFile, t);
    Ok(Selected(Slots(readFile, t)))
  }

  /** The options come in the fixed order domain, metadata, allow, deny, termination. */
  lemma ProvisionOptsOrder(readFile: string -> Option<seq<byte>>, t: Tls)
    requires ProvisionOpts(readFile, t).Ok?
    ensures InRankOrder(Rank, ProvisionOpts(readFile, t).value)
  {
    var s := Slots(readFile, t);
    assert forall k | 0 <= k < |s| :: Rank(s[k].1) == k;
    SelectedRanked(Rank, s, 0);
  }

  /** Domain and metadata are present exactly when not blank, the CIDR lists exactly
      when not empty, and a termination option exactly when a certificate is named. */
  lemma ProvisionOptsPresence(readFile: string -> Option<seq<byte>>, t: Tls)
    requires ProvisionOpts(readFile, t).Ok?
    ensures Domain(t.domain) in ProvisionOpts(readFile, t).value <==> !Blank(t.domain)
    ensures Metadata(t.metadata) in ProvisionOpts(readFile, t).value <==> !Blank(t.metadata)
    ensures AllowCidr(t.allowCidr) in ProvisionOpts(readFile, t).value <==> t.allowCidr != []
    ensures DenyCidr(t.denyCidr) in ProvisionOpts(readFile, t).value <==> t.denyCidr != []
    ensures (exists o | o in ProvisionOpts(readFile, t).value :: o.TlsTermination?) <==> !Blank(t.certPem)
  {
    var s := Slots(readFile, t);
    assert ProvisionOpts(readFile, t).value == Selected(s);
    SelectedHas(s, 0);
    SelectedHas(s, 1);
    SelectedHas(s, 2);
    SelectedHas(s, 3);
    SelectedHasKind(s, 4, (o: EndpointOpt) => o.TlsTermination?);
  }

  /** A termination option carries the bytes of both named files. */
  lemma ProvisionOptsTermination(readFile: string -> Option<seq<byte>>, t: Tls)
    requires ProvisionOpts(readFile, t).Ok?
    ensures forall o | o in ProvisionOpts(readFile, t).value && o.TlsTermination? ::
              Some(o.certPem) == readFile(t.certPem) && Some(o.keyPem) == readFile(t.keyPem)
  {
    var s := Slots(readFile, t);
    assert forall k | 0 <= k < 4 :: !s[k].1.TlsTermination?;
    assert ProvisionOpts(readFile, t).value == Selected(s);
  }

  /** `Provision`: replacement runs before any option is built, so every option carries
      replaced values and the certificate/key check sees the replaced paths. */
  function Provision(env: Env, t: Tls): (r: Result<seq<EndpointOpt>>)
    ensures !Blank(env.replace(t.certPem)) && Blank(env.replace(t.keyPem)) ==> r == Err(CertWithoutKey)
    ensures Blank(env.replace(t.certPem)) && !Blank(env.replace(t.keyPem)) ==> r == Err(KeyWithoutCert)
    ensures r.Ok? ==> forall o | o in r.value ::
              && (o.Domain? ==> o.domain == env.replace(t.domain))
              && (o.Metadata? ==> o.metadata == env.replace(t.metadata))
              && (o.AllowCidr? ==> o.allowed == MapStrings(env.replace, t.allowCidr))
              && (o.DenyCidr? ==> o.denied == MapStrings(env.replace, t.denyCidr))
              && (o.TlsTermination? ==> Some(o.certPem) == env.readFile(env.replace(t.certPem)))
  {
    var t' := Replace(env, t);
    var r := ProvisionOpts(env.readFile, t');
    assert r.Ok? ==> forall o | o in r.value && o.TlsTermination? :: Some(o.certPem) == env.readFile(t'.certPem) by {
      if r.Ok? {
        ProvisionOptsTermination(env.readFile, t');
      }
    }
    r
  }
}
