/** The option modules of an HTTP endpoint (httpoptions.go). The `http` parser stores
    each option as raw JSON under its module name; when the endpoint is provisioned each
    raw value is decoded into its module, the module is provisioned and validated, and
    the module contributes at most one endpoint option. */
module HttpOptions {
  import opened Common
  import opened Sdk

  /** A stored CIDR list: a well-formed JSON array of the CIDRs, or text that is not
      valid JSON. */
  datatype CidrJson = Valid(cidrs: seq<string>) | Malformed

  /** The raw JSON stored for an option: a JSON string (domain, metadata, scheme), a
      CIDR array, or a bare literal copied verbatim from the Caddyfile (circuit breaker
      ratio, compression and websocket flags). */
  datatype RawOption = Str(text: string) | Cidrs(json: CidrJson) | Literal(literal: string)

  /** A decoded option module. */
  datatype Module =
    | AllowMod(allowed: seq<string>)
    | DenyMod(denied: seq<string>)
    | DomainMod(domain: string)
    | MetadataMod(metadata: string)
    | SchemeMod(scheme: string)
    | BreakerMod(ratio: string)
    | CompressionMod(on: bool)
    | WebsocketMod(enabled: bool)

  /** The names of the option modules. */
  const OptionNames: set<string> :=
    {"allow_cidr", "deny_cidr", "domain", "metadata", "scheme", "circuit_breaker",
     "compression", "websocket_tcp_conversion"}

  predicate IsDigit(c: char) {
    '0' <= c <= '9'
  }

  /** The length of the longest all-digit prefix of `s`. */
  function DigitRun(s: string): (n: nat)
    ensures n <= |s|
    ensures forall i | 0 <= i < n :: IsDigit(s[i])
    ensures n < |s| ==> !IsDigit(s[n])
  {
    if s != [] && IsDigit(s[0]) then 1 + DigitRun(s[1..]) else 0
  }

  /** An optional exponent: `e` or `E`, an optional sign, one or more digits. */
  predicate JsonExponent(s: string) {
    || s == []
    || (&& (s[0] == 'e' || s[0] == 'E')
        && var t := if |s| > 1 && (s[1] == '+' || s[1] == '-') then s[2..] else s[1..];
           t != [] && DigitRun(t) == |t|)
  }

  /** An optional fraction, a dot and one or more digits, then an optional exponent. */
  predicate JsonFraction(s: string) {
    if s != [] && s[0] == '.' then
      var n := DigitRun(s[1..]);
      n > 0 && JsonExponent(s[1 + n..])
    else JsonExponent(s)
  }

  /** The number grammar of JSON (section 6 of RFC 8259): an optional minus, an integer
      part without leading zeros, then the optional fraction and exponent. */
  predicate IsJsonNumber(s: string) {
    var t := if s != [] && s[0] == '-' then s[1..] else s;
    && t != []
    && IsDigit(t[0])
    && var n := if t[0] == '0' then 1 else DigitRun(t);
       JsonFraction(t[n..])
  }

  /** The stored text is a JSON document, as `json.Marshal` demands of a raw message: a
      quoted string or a well-formed CIDR array is one; a bare literal only when it is
      `true`, `false`, `null` or a JSON number. */
  predicate IsJson(raw: RawOption) {
    match raw
    case Str(_) => true
    case Cidrs(j) => j.Valid?
    case Literal(t) => t in {"true", "false", "null"} || IsJsonNumber(t)
  }

  /** Decoding the stored JSON into the module named `name`. A ratio decodes when it is a
      JSON number that also parses as a float; a flag decodes only from the JSON
      literals `true` and `false`. */
  function Decode(env: Env, name: string, raw: RawOption): (r: Result<Module>)
    ensures r.Ok? ==> name in OptionNames
    ensures name == "circuit_breaker" ==>
              (r.Ok? <==> raw.Literal? && IsJsonNumber(raw.literal) && env.isFloat(raw.literal))
    ensures name in {"compression", "websocket_tcp_conversion"} ==>
              (r.Ok? <==> raw.Literal? && raw.literal in {"true", "false"})
    ensures name in {"compression", "websocket_tcp_conversion"} && r.Ok? ==>
              (r.value in {CompressionMod(true), WebsocketMod(true)} <==> raw.literal == "true")
    ensures name in {"allow_cidr", "deny_cidr"} ==> (r.Ok? <==> raw.Cidrs? && raw.json.Valid?)
    ensures r.Err? ==> r.error == OptionDecode(name)
  {
    match (name, raw)
    case ("allow_cidr", Cidrs(Valid(l))) => Ok(AllowMod(l))
    case ("deny_cidr", Cidrs(Valid(l))) => Ok(DenyMod(l))
    case ("domain", Str(s)) => Ok(DomainMod(s))
    case ("metadata", Str(s)) => Ok(MetadataMod(s))
    case ("scheme", Str(s)) => Ok(SchemeMod(s))
    case ("circuit_breaker", Literal(t)) =>
      if IsJsonNumber(t) && env.isFloat(t) then Ok(BreakerMod(t)) else Err(OptionDecode(name))
    case ("compression", Literal(t)) =>
      if t == "true" then Ok(CompressionMod(true))
      else if t == "false" then Ok(CompressionMod(false))
      else Err(OptionDecode(name))
    case ("websocket_tcp_conversion", Literal(t)) =>
      if t == "true" then Ok(WebsocketMod(true))
      else if t == "false" then Ok(WebsocketMod(false))
      else Err(OptionDecode(name))
    case _ => Err(OptionDecode(name))
  }

  /** The `Provision` of each module. The CIDR lists replace placeholders element by
      element; domain, metadata and scheme provision a copy of themselves (value
      receivers), so their stored value is left as it was. */
  function ProvisionModule(env: Env, m: Module): (r: Module)
    ensures m.AllowMod? ==> r.AllowMod? && |r.allowed| == |m.allowed|
                            && forall i | 0 <= i < |m.allowed| :: r.allowed[i] == env.replace(m.allowed[i])
    ensures m.DenyMod? ==> r.DenyMod? && |r.denied| == |m.denied|
                           && forall i | 0 <= i < |m.denied| :: r.denied[i] == env.replace(m.denied[i])
    ensures !m.AllowMod? && !m.DenyMod? ==> r == m
  {
    match m
    case AllowMod(l) => AllowMod(MapStrings(env.replace, l))
    case DenyMod(l) => DenyMod(MapStrings(env.replace, l))
    case _ => m
  }

  /** The scheme after Go's `strings.ToLower(strings.TrimSpace(s))`; for the two
      accepted schemes lowering the ASCII letters is exact, as no other upper-case
      character lowers to one of their letters. */
  function Normalised(s: string): string {
    ToLowerAscii(TrimSpace(s))
  }

  /** `HTTPScheme.Validate`. */
  function ValidateScheme(s: string): (r: Result<()>)
    ensures r.Ok? <==> Normalised(s) == "http" || Normalised(s) == "https"
    ensures r.Err? ==> r.error == BadScheme(s)
  {
    match Normalised(s)
    case "http" => Ok(())
    case "https" => Ok(())
    case _ => Err(BadScheme(s))
  }

  /** `HTTPScheme.HTTPOption`: the scheme constant of the normalised value, the zero
      scheme when it is neither. */
  function SchemeOption(s: string): (r: EndpointOpt)
    ensures r.Scheme?
    ensures r.scheme == SchemeHttp <==> Normalised(s) == "http"
    ensures r.scheme == SchemeHttps <==> Normalised(s) == "https"
    ensures r.scheme == Unset <==> ValidateScheme(s).Err?
  {
    Scheme(match Normalised(s) case "http" => SchemeHttp case "https" => SchemeHttps case _ => Unset)
  }

  /** Leading and trailing white space and the case of ASCII letters do not matter to
      the scheme. */
  lemma SchemeIgnoresSpaceAndCase(pre: string, s: string, post: string)
    requires Blank(pre) && Blank(post)
    requires |s| > 0 && !IsSpace(s[0]) && !IsSpace(s[|s| - 1])
    ensures Normalised(pre + s + post) == ToLowerAscii(s)
  {
    PaddedLeft(pre, s, post);
    BlankSuffix(s, post);
  }

  lemma PaddedLeft(pre: string, s: string, post: string)
    requires Blank(pre)
    requires |s| > 0 && !IsSpace(s[0])
    ensures TrimLeftSpace(pre + s + post) == s + post
  {
    assert pre + s + post == pre + (s + post);
    BlankPrefix(pre, s + post);
  }

  lemma {:induction false} BlankPrefix(pre: string, s: string)
    requires Blank(pre)
    requires |s| > 0 && !IsSpace(s[0])
    ensures TrimLeftSpace(pre + s) == s
    decreases pre
  {
    if pre == [] {
      assert pre + s == s;
    } else {
      assert (pre + s)[1..] == pre[1..] + s;
      BlankPrefix(pre[1..], s);
    }
  }

  lemma {:induction false} BlankSuffix(s: string, post: string)
    requires Blank(post)
    requires |s| > 0 && !IsSpace(s[|s| - 1])
    ensures TrimRightSpace(s + post) == s
    decreases post
  {
    if post == [] {
      assert s + post == s;
    } else {
      var last := post[|post| - 1];
      BlankLast(post);
      assert (s + post)[..|s + post| - 1] == s + post[..|post| - 1];
      BlankSuffix(s, post[..|post| - 1]);
    }
  }

  /** Dropping the last character of a blank string leaves a blank string, and the last
      character is white space. */
  lemma {:induction false} BlankLast(s: string)
    requires Blank(s) && s != []
    ensures IsSpace(s[|s| - 1]) && Blank(s[..|s| - 1])
    decreases s
  {
    if |s| > 1 {
      BlankLast(s[1..]);
      assert s[1..][..|s| - 2] == s[..|s| - 1][1..];
    }
  }

  /** `HTTPOption` of each module: at most one endpoint option. */
  function ModuleOption(m: Module): (r: Option<EndpointOpt>)
    ensures m.AllowMod? ==> (r.Some? <==> m.allowed != []) && (r.Some? ==> r.value == AllowCidr(m.allowed))
    ensures m.DenyMod? ==> (r.Some? <==> m.denied != []) && (r.Some? ==> r.value == DenyCidr(m.denied))
    ensures m.DomainMod? ==> r == Some(Domain(m.domain))
    ensures m.MetadataMod? ==> r == Some(Metadata(m.metadata))
    ensures m.SchemeMod? ==> r == Some(SchemeOption(m.scheme))
    ensures m.BreakerMod? ==> r == Some(CircuitBreaker(m.ratio))
    ensures m.CompressionMod? ==> (r.Some? <==> m.on) && (r.Some? ==> r.value == Compression)
    ensures m.WebsocketMod? ==> (r.Some? <==> m.enabled) && (r.Some? ==> r.value == WebsocketTcpConversion)
  {
    match m
    case AllowMod(l) => if |l| <= 0 then None else Some(AllowCidr(l))
    case DenyMod(l) => if |l| <= 0 then None else Some(DenyCidr(l))
    case DomainMod(s) => Some(Domain(s))
    case MetadataMod(s) => Some(Metadata(s))
    case SchemeMod(s) => Some(SchemeOption(s))
    case BreakerMod(t) => Some(CircuitBreaker(t))
    case CompressionMod(b) => if b then Some(Compression) else None
    case WebsocketMod(b) => if b then Some(WebsocketTcpConversion) else None
  }

  /** Loading one stored option: decode, provision, then validate (only the scheme
      module validates). */
  function Load(env: Env, name: string, raw: RawOption): (r: Result<Module>)
    ensures r.Ok? ==> Decode(env, name, raw).Ok? && r.value == ProvisionModule(env, Decode(env, name, raw).value)
    ensures r.Err? <==> || Decode(env, name, raw).Err?
                        || (Decode(env, name, raw).value.SchemeMod? && ValidateScheme(Decode(env, name, raw).value.scheme).Err?)
  {
    match Decode(env, name, raw)
    case Err(e) => Err(e)
    case Ok(m) =>
      var m' := ProvisionModule(env, m);
      if m'.SchemeMod? && ValidateScheme(m'.scheme).Err? then Err(BadScheme(m'.scheme)) else Ok(m')
  }

  /** A loaded scheme module always yields one of the two schemes. */
  lemma LoadedSchemeIsSet(env: Env, raw: RawOption)
    requires Load(env, "scheme", raw).Ok?
    ensures ModuleOption(Load(env, "scheme", raw).value) == Some(Scheme(if Normalised(raw.text) == "http" then SchemeHttp else SchemeHttps))
  {
  }

  /** A loaded CIDR list carries the replaced CIDRs and yields an option exactly when
      it is not empty. */
  lemma LoadedCidrs(env: Env, raw: RawOption)
    requires raw.Cidrs? && raw.json.Valid?
    ensures Load(env, "allow_cidr", raw) == Ok(AllowMod(MapStrings(env.replace, raw.json.cidrs)))
    ensures Load(env, "deny_cidr", raw) == Ok(DenyMod(MapStrings(env.replace, raw.json.cidrs)))
    ensures ModuleOption(Load(env, "allow_cidr", raw).value) ==
              if raw.json.cidrs == [] then None else Some(AllowCidr(MapStrings(env.replace, raw.json.cidrs)))
  {
  }
}
