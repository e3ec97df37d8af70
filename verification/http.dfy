/** The `http` tunnel (http.go): an HTTP endpoint whose options are stored as raw JSON
    keyed by option-module name, plus basic-auth credentials. */
module HttpTunnel {
  import opened Common
  import opened Sdk
  import opened HttpOptions

  datatype Cred = Cred(username: string, password: string)

  datatype Http = Http(options: map<string, RawOption>, basicAuth: seq<Cred>)

  const NoHttp := Http(map[], [])

  /** The shortest password `basic_auth` accepts, in bytes. */
  const MinPasswordLength := 8

  function Get(m: map<string, RawOption>, k: string): Option<RawOption> {
    if k in m then Some(m[k]) else None
  }

  predicate IsToggle(name: string) {
    name in {"compression", "websocket_tcp_converter"}
  }

  /** The option a toggle directive stores; `websocket_tcp_converter` is stored as the
      `websocket_tcp_conversion` module. */
  function ToggleKey(name: string): string {
    if name == "compression" then "compression" else "websocket_tcp_conversion"
  }

  /** How many arguments the handler of a directive reads: a toggle reads at most one
      and leaves the others to the directive loop. */
  function Consumed(l: Line): nat {
    if IsToggle(l.name) then 1 else |l.args|
  }

  /** The literal stored by a toggle: `true` without argument, `false` for `off`, any
      other `strconv.ParseBool` literal verbatim. */
  function ToggleRaw(name: string, args: seq<string>): (r: Result<string>)
    ensures r.Ok? <==> args == [] || args[0] == "off" || IsBoolLiteral(args[0])
    ensures r.Ok? ==> r.value == ToggleText(args)
    ensures r.Err? ==> r.error == BadBool(name, args[0])
  {
    if args == [] then Ok("true")
    else if args[0] == "off" then Ok("false")
    else if IsBoolLiteral(args[0]) then Ok(args[0])
    else Err(BadBool(name, args[0]))
  }

  /** The text of the literal a toggle stores. */
  function ToggleText(args: seq<string>): string {
    if args == [] then "true" else if args[0] == "off" then "false" else args[0]
  }

  /** The stored CIDR array after an `allow`/`deny` line: the first line stores its
      arguments as a JSON array; a later line's arguments are spliced in before the
      closing bracket after one comma, which is well-formed only for a single
      argument. */
  function CidrAppend(cur: Option<RawOption>, args: seq<string>): RawOption {
    match cur
    case Some(Cidrs(Valid(l))) => if |args| == 1 then Cidrs(Valid(l + args)) else Cidrs(Malformed)
    case Some(Cidrs(Malformed)) => Cidrs(Malformed)
    case _ => Cidrs(Valid(args))
  }

  /** A password long enough, counted in bytes of its UTF-8 encoding. */
  predicate LongEnough(password: string) {
    Utf8Length(password) >= MinPasswordLength
  }

  /** A credential line of a `basic_auth` block: a user name and exactly one password,
      long enough, and no block. */
  predicate CredLineOk(b: Line) {
    |b.args| == 1 && LongEnough(b.args[0]) && b.block.NoBlock?
  }

  function CredLineError(b: Line): Error {
    if |b.args| != 1 then WrongArgs(b.name)
    else if !LongEnough(b.args[0]) then PasswordTooShort
    else WrongArgs("{")
  }

  /** The credentials of the lines of a `basic_auth` block. */
  function BlockCreds(lines: seq<Line>): (r: seq<Cred>)
    ensures |r| == |lines|
    ensures forall i | 0 <= i < |lines| && |lines[i].args| > 0 :: r[i] == Cred(lines[i].name, lines[i].args[0])
  {
    if lines == [] then []
    else [Cred(lines[0].name, if |lines[0].args| > 0 then lines[0].args[0] else "")] + BlockCreds(lines[1..])
  }

  function ParseCredLines(lines: seq<Line>): (r: Result<seq<Cred>>)
    ensures r.Ok? <==> forall i | 0 <= i < |lines| :: CredLineOk(lines[i])
    ensures r.Err? ==> r.error == CredLineError(lines[FirstBad(CredLineOk, lines)])
    ensures r.Ok? ==> r.value == BlockCreds(lines)
    decreases lines
  {
    if lines == [] then Ok([])
    else if !CredLineOk(lines[0]) then Err(CredLineError(lines[0]))
    else
      var rest :- ParseCredLines(lines[1..]);
      Ok([Cred(lines[0].name, lines[0].args[0])] + rest)
  }

  /** The credentials a `basic_auth` line gives, inline or from its block. */
  function LineCreds(l: Line): seq<Cred> {
    if |l.args| == 2 then [Cred(l.args[0], l.args[1])] else BlockCreds(BlockLines(l))
  }

  /** `unmarshalBasicAuth`: credentials inline (user and password) or one per block line,
      never both; every password at least eight bytes long; at least one credential. */
  function ParseBasicAuth(l: Line): (r: Result<seq<Cred>>)
    ensures l.args != [] && |l.args| != 2 ==> r == Err(WrongArgs("basic_auth"))
    ensures |l.args| == 2 && !LongEnough(l.args[1]) ==> r == Err(PasswordTooShort)
    ensures |l.args| == 2 && LongEnough(l.args[1]) && BlockLines(l) != [] ==> r == Err(CombinedForms("basic_auth"))
    ensures l.args == [] && BlockLines(l) == [] ==> r == Err(WrongArgs("basic_auth"))
    ensures r.Ok? <==>
              || (|l.args| == 2 && LongEnough(l.args[1]) && BlockLines(l) == [])
              || (l.args == [] && BlockLines(l) != [] && forall i | 0 <= i < |BlockLines(l)| :: CredLineOk(BlockLines(l)[i]))
    ensures r.Ok? ==> r.value == LineCreds(l) && |r.value| > 0
  {
    if l.args != [] then
      if |l.args| != 2 then Err(WrongArgs("basic_auth"))
      else if !LongEnough(l.args[1]) then Err(PasswordTooShort)
      else if BlockLines(l) != [] then Err(CombinedForms("basic_auth"))
      else Ok([Cred(l.args[0], l.args[1])])
    else if BlockLines(l) == [] then Err(WrongArgs("basic_auth"))
    else ParseCredLines(BlockLines(l))
  }

  predicate IsSingle(name: string) {
    name in {"domain", "metadata", "scheme"}
  }

  predicate IsKnown(name: string) {
    IsSingle(name) || IsToggle(name) || name in {"allow", "deny", "circuit_breaker", "basic_auth"}
  }

  /** A directive line the `http` parser accepts. */
  predicate LineOk(env: Env, l: Line) {
    && IsKnown(l.name)
    && (IsSingle(l.name) ==> |l.args| == 1)
    && (l.name in {"allow", "deny"} ==> l.args != [])
    && (l.name == "circuit_breaker" ==> |l.args| == 1 && env.isFloat(l.args[0]))
    && (IsToggle(l.name) ==> ToggleRaw(l.name, l.args).Ok?)
    && (l.name == "basic_auth" ==> ParseBasicAuth(l).Ok?)
    && (l.name != "basic_auth" ==> l.block.NoBlock?)
  }

  /** The error reported for a rejected line. */
  function LineError(env: Env, l: Line): Error {
    if !IsKnown(l.name) then Unrecognized(l.name)
    else if l.name == "basic_auth" then (if ParseBasicAuth(l).Err? then ParseBasicAuth(l).error else Unrecognized("{"))
    else if IsToggle(l.name) && ToggleRaw(l.name, l.args).Err? then ToggleRaw(l.name, l.args).error
    else if (IsSingle(l.name) || l.name == "circuit_breaker") && |l.args| != 1 then WrongArgs(l.name)
    else if l.name == "circuit_breaker" && !env.isFloat(l.args[0]) then WrongArgs(l.name)
    else if l.name in {"allow", "deny"} && l.args == [] then WrongArgs(l.name)
    else Unrecognized("{")
  }

  /** One directive of the `http` block. */
  function Step(env: Env, h: Http, l: Line): Result<Http> {
    var h1 :- match l.name
      case "domain" => var v :- OneArg(l); Ok(h.(options := h.options["domain" := Str(v)]))
      case "metadata" => var v :- OneArg(l); Ok(h.(options := h.options["metadata" := Str(v)]))
      case "scheme" => var v :- OneArg(l); Ok(h.(options := h.options["scheme" := Str(v)]))
      case "allow" =>
        if l.args == [] then Err(WrongArgs(l.name))
        else Ok(h.(options := h.options["allow_cidr" := CidrAppend(Get(h.options, "allow_cidr"), l.args)]))
      case "deny" =>
        if l.args == [] then Err(WrongArgs(l.name))
        else Ok(h.(options := h.options["deny_cidr" := CidrAppend(Get(h.options, "deny_cidr"), l.args)]))
      case "circuit_breaker" =>
        var v :- OneArg(l);
        if !env.isFloat(v) then Err(WrongArgs(l.name))
        else Ok(h.(options := h.options["circuit_breaker" := Literal(v)]))
      case "compression" =>
        var t :- ToggleRaw(l.name, l.args); Ok(h.(options := h.options["compression" := Literal(t)]))
      case "websocket_tcp_converter" =>
        var t :- ToggleRaw(l.name, l.args); Ok(h.(options := h.options["websocket_tcp_conversion" := Literal(t)]))
      case "basic_auth" =>
        var creds :- ParseBasicAuth(l); Ok(h.(basicAuth := h.basicAuth + creds))
      case _ => Err(Unrecognized(l.name));
    if l.name != "basic_auth" && l.block.Braces? then Err(Unrecognized("{")) else Ok(h1)
  }

  /** A single directive succeeds exactly when the line is accepted, reports the line's
      error otherwise, and adds credentials only for `basic_auth`. */
  lemma StepMeaning(env: Env, h: Http, l: Line)
    ensures Step(env, h, l).Ok? <==> LineOk(env, l)
    ensures Step(env, h, l).Err? ==> Step(env, h, l).error == LineError(env, l)
    ensures Step(env, h, l).Ok? ==>
              Step(env, h, l).value.basicAuth == h.basicAuth + Contributed(l)
  {
  }

  /** The credentials one directive line adds: those of a `basic_auth` line, none
      otherwise. */
  function Contributed(l: Line): seq<Cred> {
    if l.name == "basic_auth" then LineCreds(l) else []
  }

  /** The credentials of every `basic_auth` line, in occurrence order. */
  function CredsOf(lines: seq<Line>): seq<Cred> {
    if lines == [] then [] else Contributed(lines[0]) + CredsOf(lines[1..])
  }

  /** The directive loop over the lines as it reads them: every line must be accepted;
      credentials accumulate in occurrence order. */
  function ParseLines(env: Env, h: Http, lines: seq<Line>): (r: Result<Http>)
    ensures r.Ok? <==> forall i | 0 <= i < |lines| :: LineOk(env, lines[i])
    decreases lines
  {
    if lines == [] then Ok(h)
    else
      StepMeaning(env, h, lines[0]);
      match Step(env, h, lines[0])
      case Err(e) => Err(e)
      case Ok(h1) =>
        assert forall i | 1 <= i < |lines| :: lines[i] == lines[1..][i - 1];
        ParseLines(env, h1, lines[1..])
  }

  /** An accepted block appends the credentials of its `basic_auth` lines, in
      occurrence order. */
  lemma {:induction false} ParsedCreds(env: Env, h: Http, lines: seq<Line>)
    requires ParseLines(env, h, lines).Ok?
    ensures ParseLines(env, h, lines).value.basicAuth == h.basicAuth + CredsOf(lines)
    decreases lines
  {
    if lines != [] {
      ParseLinesUnfold(env, h, lines);
      var h1 := Step(env, h, lines[0]).value;
      ParsedCreds(env, h1, lines[1..]);
      AppendTwice(h.basicAuth, Contributed(lines[0]), CredsOf(lines[1..]));
    }
  }

  /** An accepted block is its first directive followed by the rest. */
  lemma ParseLinesUnfold(env: Env, h: Http, lines: seq<Line>)
    requires lines != [] && ParseLines(env, h, lines).Ok?
    ensures Step(env, h, lines[0]).Ok?
    ensures Step(env, h, lines[0]).value.basicAuth == h.basicAuth + Contributed(lines[0])
    ensures ParseLines(env, Step(env, h, lines[0]).value, lines[1..]) == ParseLines(env, h, lines)
  {
    StepMeaning(env, h, lines[0]);
  }

  /** A rejected block reports the error of its first rejected line. */
  lemma {:induction false} ParseLinesError(env: Env, h: Http, lines: seq<Line>)
    requires ParseLines(env, h, lines).Err?
    ensures ParseLines(env, h, lines).error == LineError(env, lines[FirstBad((l: Line) => LineOk(env, l), lines)])
    decreases lines
  {
    StepMeaning(env, h, lines[0]);
    if Step(env, h, lines[0]).Ok? {
      ParseLinesError(env, Step(env, h, lines[0]).value, lines[1..]);
    }
  }

  /** `UnmarshalCaddyfile`, with the dispenser on the `http` token: no argument on that
      line, then its block as the directive loop reads it. */
  function Parse(env: Env, args: seq<string>, block: Block): (r: Result<Http>)
    ensures args != [] ==> r == Err(WrongArgs("http"))
    ensures args == [] && (block.NoBlock? || block == Braces([])) ==> r == Ok(NoHttp)
  {
    if args != [] then Err(WrongArgs("http"))
    else ParseLines(env, NoHttp, Expand(Consumed, if block.Braces? then block.lines else []))
  }

  /** The option a directive writes, if any. */
  function KeyOf(name: string): Option<string> {
    match name
    case "domain" => Some("domain")
    case "metadata" => Some("metadata")
    case "scheme" => Some("scheme")
    case "allow" => Some("allow_cidr")
    case "deny" => Some("deny_cidr")
    case "circuit_breaker" => Some("circuit_breaker")
    case "compression" => Some("compression")
    case "websocket_tcp_converter" => Some("websocket_tcp_conversion")
    case _ => None
  }

  /** The raw value an accepted line stores under its option. */
  function Stored(h: Http, l: Line): RawOption {
    if IsSingle(l.name) then Str(if |l.args| > 0 then l.args[0] else "")
    else if l.name == "circuit_breaker" then Literal(if |l.args| > 0 then l.args[0] else "")
    else if IsToggle(l.name) then Literal(ToggleText(l.args))
    else CidrAppend(Get(h.options, KeyOf(l.name).GetOr("")), l.args)
  }

  /** An accepted line writes only its own option, and stores its value there. */
  lemma StepOptions(env: Env, h: Http, l: Line)
    requires Step(env, h, l).Ok?
    ensures KeyOf(l.name).Some? ==> Step(env, h, l).value.options == h.options[KeyOf(l.name).value := Stored(h, l)]
    ensures KeyOf(l.name).None? ==> Step(env, h, l).value.options == h.options
  {
  }

  /** Directives whose last occurrence decides their option. */
  predicate LastWins(name: string) {
    IsSingle(name) || IsToggle(name) || name == "circuit_breaker"
  }

  /** For `domain`, `metadata`, `scheme`, `circuit_breaker` and the toggles, the last
      line of the directive decides the stored option; without such a line the option is
      left as it was. */
  lemma {:induction false} ParsedLastWins(env: Env, h: Http, lines: seq<Line>, name: string)
    requires LastWins(name)
    requires ParseLines(env, h, lines).Ok?
    ensures Get(ParseLines(env, h, lines).value.options, KeyOf(name).value) ==
              if LastLine(lines, name).Some? then Some(Stored(h, LastLine(lines, name).value))
              else Get(h.options, KeyOf(name).value)
    decreases lines
  {
    if lines != [] {
      var l := lines[0];
      var h1 := Step(env, h, l).value;
      StepOptions(env, h, l);
      ParsedLastWins(env, h1, lines[1..], name);
      LastWinsStep(h, h1, lines, name);
    }
  }

  /** One step of `ParsedLastWins`: the option the remaining lines decide from `h1` is
      the one all lines decide from `h`. */
  lemma LastWinsStep(h: Http, h1: Http, lines: seq<Line>, name: string)
    requires LastWins(name) && lines != []
    requires KeyOf(lines[0].name).Some? ==> h1.options == h.options[KeyOf(lines[0].name).value := Stored(h, lines[0])]
    requires KeyOf(lines[0].name).None? ==> h1.options == h.options
    ensures (if LastLine(lines[1..], name).Some? then Some(Stored(h1, LastLine(lines[1..], name).value))
             else Get(h1.options, KeyOf(name).value))
         == (if LastLine(lines, name).Some? then Some(Stored(h, LastLine(lines, name).value))
             else Get(h.options, KeyOf(name).value))
  {
    var k := KeyOf(name).value;
    var l := lines[0];
    if LastLine(lines[1..], name).Some? {
      var last := LastLine(lines[1..], name).value;
      assert Stored(h1, last) == Stored(h, last);
    } else if l.name == name {
      assert Get(h1.options, k) == Some(Stored(h, l));
    } else {
      assert KeyOf(l.name) != KeyOf(name);
      assert Get(h1.options, k) == Get(h.options, k);
    }
  }

  /** Every line named `name` except the first, when `started` is false, has exactly
      one argument. */
  predicate SingleAfter(lines: seq<Line>, name: string, started: bool)
    decreases lines
  {
    lines == [] ||
    (if lines[0].name == name then (!started || |lines[0].args| == 1) && SingleAfter(lines[1..], name, true)
     else SingleAfter(lines[1..], name, started))
  }

  /** `allow`/`deny` lines build the stored CIDR array in occurrence order while every
      line after the first has a single argument; a later line with several arguments
      leaves text that is not valid JSON. */
  lemma {:induction false} ParsedCidrs(env: Env, h: Http, lines: seq<Line>, name: string, prev: seq<string>)
    requires name in {"allow", "deny"}
    requires ParseLines(env, h, lines).Ok?
    requires Get(h.options, KeyOf(name).value) == if prev == [] then None else Some(Cidrs(Valid(prev)))
    ensures SingleAfter(lines, name, prev != []) ==>
              Get(ParseLines(env, h, lines).value.options, KeyOf(name).value) ==
                if prev + ArgsOf(lines, name) == [] then None else Some(Cidrs(Valid(prev + ArgsOf(lines, name))))
    ensures !SingleAfter(lines, name, prev != []) ==>
              Get(ParseLines(env, h, lines).value.options, KeyOf(name).value) == Some(Cidrs(Malformed))
    decreases lines
  {
    if lines == [] {
      assert prev + [] == prev;
    } else {
      var l := lines[0];
      var h1 := Step(env, h, l).value;
      StepOptions(env, h, l);
      StepMeaning(env, h, l);
      CidrStep(h, h1, l, name, prev);
      if l.name == name {
        if prev == [] || |l.args| == 1 {
          assert prev + ArgsOf(lines, name) == (prev + l.args) + ArgsOf(lines[1..], name);
          ParsedCidrs(env, h1, lines[1..], name, prev + l.args);
        } else {
          MalformedStays(env, h1, lines[1..], name);
        }
      } else {
        assert ArgsOf(lines, name) == ArgsOf(lines[1..], name);
        assert SingleAfter(lines, name, prev != []) == SingleAfter(lines[1..], name, prev != []);
        ParsedCidrs(env, h1, lines[1..], name, prev);
      }
    }
  }

  /** The stored CIDR array after one accepted line. */
  lemma CidrStep(h: Http, h1: Http, l: Line, name: string, prev: seq<string>)
    requires name in {"allow", "deny"}
    requires l.name in {"allow", "deny"} ==> l.args != []
    requires Get(h.options, KeyOf(name).value) == if prev == [] then None else Some(Cidrs(Valid(prev)))
    requires KeyOf(l.name).Some? ==> h1.options == h.options[KeyOf(l.name).value := Stored(h, l)]
    requires KeyOf(l.name).None? ==> h1.options == h.options
    ensures l.name == name && (prev == [] || |l.args| == 1) ==>
              Get(h1.options, KeyOf(name).value) == Some(Cidrs(Valid(prev + l.args))) && prev + l.args != []
    ensures l.name == name && prev != [] && |l.args| != 1 ==> Get(h1.options, KeyOf(name).value) == Some(Cidrs(Malformed))
    ensures l.name != name ==> Get(h1.options, KeyOf(name).value) == Get(h.options, KeyOf(name).value)
  {
    if l.name == name && prev == [] {
      assert prev + l.args == l.args;
    }
  }

  /** Once the stored CIDR array is not valid JSON, it stays so. */
  lemma {:induction false} MalformedStays(env: Env, h: Http, lines: seq<Line>, name: string)
    requires name in {"allow", "deny"}
    requires ParseLines(env, h, lines).Ok?
    requires Get(h.options, KeyOf(name).value) == Some(Cidrs(Malformed))
    ensures Get(ParseLines(env, h, lines).value.options, KeyOf(name).value) == Some(Cidrs(Malformed))
    decreases lines
  {
    if lines != [] {
      StepOptions(env, h, lines[0]);
      MalformedStays(env, Step(env, h, lines[0]).value, lines[1..], name);
    }
  }

  /** A toggle with more than one argument leaves the second to the directive loop, so
      an unknown second argument is reported as an unknown subdirective. */
  lemma ToggleLeftover(env: Env, l: Line, rest: seq<Line>)
    requires IsToggle(l.name) && |l.args| >= 2 && ToggleRaw(l.name, l.args).Ok?
    requires !IsKnown(l.args[1])
    ensures Parse(env, [], Braces([l] + rest)) == Err(Unrecognized(l.args[1]))
  {
    var lines := [l] + rest;
    assert lines[0] == l && lines[1..] == rest;
    var e := Expand(Consumed, lines);
    var e2 := Expand(Consumed, [Leftover(l, 1)] + rest);
    assert e == [Line(l.name, l.args, NoBlock)] + e2;
    assert ([Leftover(l, 1)] + rest)[0] == Leftover(l, 1);
    assert e2[0] == Leftover(l, 1);
    StepMeaning(env, NoHttp, e[0]);
    assert e[1..] == e2;
    var h1 := Step(env, NoHttp, e[0]).value;
    StepMeaning(env, h1, e2[0]);
    assert ParseLines(env, h1, e2) == Err(Unrecognized(l.args[1]));
  }

  /** `doReplace`: placeholders are replaced in every user name and password, keeping
      the credentials' number and order. */
  function ReplaceCreds(env: Env, creds: seq<Cred>): (r: seq<Cred>)
    ensures |r| == |creds|
    ensures forall i | 0 <= i < |creds| ::
              r[i] == Cred(env.replace(creds[i].username), env.replace(creds[i].password))
  {
    if creds == [] then []
    else [Cred(env.replace(creds[0].username), env.replace(creds[0].password))] + ReplaceCreds(env, creds[1..])
  }

  /** `provisionOpts`: one basic-auth option per credential, in list order. */
  function CredOpts(creds: seq<Cred>): (r: seq<EndpointOpt>)
    ensures |r| == |creds|
    ensures forall i | 0 <= i < |creds| :: r[i] == BasicAuth(creds[i].username, creds[i].password)
  {
    if creds == [] then [] else [BasicAuth(creds[0].username, creds[0].password)] + CredOpts(creds[1..])
  }

  /** The option modules loaded in `order`, the order in which loading happens to visit
      the stored options; the first option that fails to load aborts. */
  function LoadAll(env: Env, options: map<string, RawOption>, order: seq<string>): (r: Result<map<string, Module>>)
    requires forall i | 0 <= i < |order| :: order[i] in options
    ensures r.Ok? <==> forall i | 0 <= i < |order| :: Load(env, order[i], options[order[i]]).Ok?
    ensures r.Ok? ==> forall k :: k in r.value <==> k in order
    ensures r.Ok? ==> forall k | k in r.value :: Load(env, k, options[k]) == Ok(r.value[k])
    ensures r.Err? ==> r.error == Load(env, order[FirstBad((k: string) => k in options && Load(env, k, options[k]).Ok?, order)], options[order[FirstBad((k: string) => k in options && Load(env, k, options[k]).Ok?, order)]]).error
    decreases order
  {
    if order == [] then Ok(map[])
    else
      var m :- Load(env, order[0], options[order[0]]);
      var rest :- LoadAll(env, options, order[1..]);
      Ok(rest[order[0] := m])
  }

  /** Every stored option loads. */
  predicate AllLoad(env: Env, options: map<string, RawOption>) {
    forall k | k in options :: Load(env, k, options[k]).Ok?
  }

  /** Loading in the order of an enumeration of the stored options succeeds exactly
      when every stored option loads, and then yields a module for each of them. */
  lemma LoadAllEnumerated(env: Env, options: map<string, RawOption>, order: seq<string>)
    requires IsEnumeration(order, options.Keys)
    ensures LoadAll(env, options, order).Ok? <==> AllLoad(env, options)
    ensures LoadAll(env, options, order).Ok? ==> LoadAll(env, options, order).value.Keys == options.Keys
  {
    var r := LoadAll(env, options, order);
    if r.Ok? {
      forall k | k in options ensures Load(env, k, options[k]).Ok? {
        var i :| 0 <= i < |order| && order[i] == k;
      }
    }
  }

  /** The options of the loaded modules, visited in `order`; a module whose option is
      nil contributes nothing. */
  function EmitModules(mods: map<string, Module>, order: seq<string>): (r: seq<EndpointOpt>)
    requires forall i | 0 <= i < |order| :: order[i] in mods
    ensures |r| <= |order|
    ensures forall o | o in r :: exists i | 0 <= i < |order| :: ModuleOption(mods[order[i]]) == Some(o)
    ensures forall i | 0 <= i < |order| && ModuleOption(mods[order[i]]).Some? :: ModuleOption(mods[order[i]]).value in r
  {
    if order == [] then []
    else
      (match ModuleOption(mods[order[0]]) case Some(o) => [o] case None => []) + EmitModules(mods, order[1..])
  }

  /** The keys among `keys` whose loaded module has an option. */
  ghost function Contributors(mods: map<string, Module>, keys: set<string>): set<string>
    requires keys <= mods.Keys
  {
    set k | k in keys && ModuleOption(mods[k]).Some?
  }

  /** Taking one key out of `keys` takes its module's option, if any, out of the
      contributors. */
  lemma ContributorsSplit(mods: map<string, Module>, keys: set<string>, k0: string)
    requires keys <= mods.Keys && k0 in keys
    ensures |Contributors(mods, keys)| ==
              |Contributors(mods, keys - {k0})| + (if ModuleOption(mods[k0]).Some? then 1 else 0)
  {
    var rest := keys - {k0};
    if ModuleOption(mods[k0]).Some? {
      assert Contributors(mods, keys) == Contributors(mods, rest) + {k0};
      assert k0 !in Contributors(mods, rest);
    } else {
      assert Contributors(mods, keys) == Contributors(mods, rest);
    }
  }

  /** The first visited module emits its option, if any, ahead of the others. */
  lemma EmitModulesHead(mods: map<string, Module>, order: seq<string>)
    requires order != [] && forall i | 0 <= i < |order| :: order[i] in mods
    ensures |EmitModules(mods, order)| ==
              (if ModuleOption(mods[order[0]]).Some? then 1 else 0) + |EmitModules(mods, order[1..])|
  {
  }

  /** Visiting an enumeration of the modules emits exactly one option for each module
      that has one. */
  lemma {:induction false} EmitModulesCount(mods: map<string, Module>, order: seq<string>, keys: set<string>)
    requires IsEnumeration(order, keys) && keys <= mods.Keys
    ensures |EmitModules(mods, order)| == |Contributors(mods, keys)|
    decreases order
  {
    if order == [] {
      EnumerationLength(order, keys);
      assert Contributors(mods, keys) <= keys;
    } else {
      EnumerationTail(order, keys);
      EmitModulesCount(mods, order[1..], keys - {order[0]});
      ContributorsSplit(mods, keys, order[0]);
      EmitModulesHead(mods, order);
    }
  }

  /** The stored options whose loaded module has an option. */
  ghost function Emitting(env: Env, options: map<string, RawOption>): set<string> {
    set k | k in options && Load(env, k, options[k]).Ok? && ModuleOption(Load(env, k, options[k]).value).Some?
  }

  /** Over modules loaded from every stored option, the contributors are the stored
      options whose module has an option. */
  lemma ContributorsOfLoaded(env: Env, options: map<string, RawOption>, mods: map<string, Module>)
    requires mods.Keys == options.Keys
    requires forall k | k in mods :: Load(env, k, options[k]) == Ok(mods[k])
    ensures Contributors(mods, options.Keys) == Emitting(env, options)
  {
    forall k | k in options
      ensures k in Contributors(mods, options.Keys) <==> k in Emitting(env, options)
    {
      assert Load(env, k, options[k]) == Ok(mods[k]);
    }
  }

  /** `Provision`: credentials are replaced, the stored options are loaded (any failure
      is the endpoint's failure), the non-nil module options come first and one
      basic-auth option per credential follows, in credential order. */
  function Provision(env: Env, h: Http, loadOrder: seq<string>, emitOrder: seq<string>): (r: Result<seq<EndpointOpt>>)
    requires IsEnumeration(loadOrder, h.options.Keys) && IsEnumeration(emitOrder, h.options.Keys)
    ensures r.Ok? <==> AllLoad(env, h.options)
  {
    LoadAllEnumerated(env, h.options, loadOrder);
    var mods :- LoadAll(env, h.options, loadOrder);
    Ok(EmitModules(mods, emitOrder) + CredOpts(ReplaceCreds(env, h.basicAuth)))
  }

  /** The options before the credentials are as many as the stored options whose
      loaded module has an option: with soundness and completeness below, each such
      option appears once, whatever order the map iteration takes. */
  lemma ProvisionedModulesCount(env: Env, h: Http, loadOrder: seq<string>, emitOrder: seq<string>)
    requires IsEnumeration(loadOrder, h.options.Keys) && IsEnumeration(emitOrder, h.options.Keys)
    requires Provision(env, h, loadOrder, emitOrder).Ok?
    ensures |Provision(env, h, loadOrder, emitOrder).value| - |h.basicAuth| == |Emitting(env, h.options)|
  {
    ProvisionedSplit(env, h, loadOrder, emitOrder);
    var mods := LoadAll(env, h.options, loadOrder).value;
    EmitModulesCount(mods, emitOrder, h.options.Keys);
    ContributorsOfLoaded(env, h.options, mods);
  }

  /** A list whose tail is the options of the replaced credentials ends with one
      replaced basic-auth option per credential. */
  lemma CredTail(env: Env, r: seq<EndpointOpt>, creds: seq<Cred>)
    requires |r| >= |creds| && r[|r| - |creds|..] == CredOpts(ReplaceCreds(env, creds))
    ensures forall i | 0 <= i < |creds| ::
              r[|r| - |creds| + i] == BasicAuth(env.replace(creds[i].username), env.replace(creds[i].password))
  {
    var c := CredOpts(ReplaceCreds(env, creds));
    forall i | 0 <= i < |creds|
      ensures r[|r| - |creds| + i] == BasicAuth(env.replace(creds[i].username), env.replace(creds[i].password))
    {
      assert r[|r| - |creds| + i] == c[i];
    }
  }

  /** The provisioned option list ends with one replaced basic-auth option per
      credential, in credential order. */
  lemma ProvisionedCreds(env: Env, h: Http, loadOrder: seq<string>, emitOrder: seq<string>)
    requires IsEnumeration(loadOrder, h.options.Keys) && IsEnumeration(emitOrder, h.options.Keys)
    requires Provision(env, h, loadOrder, emitOrder).Ok?
    ensures |Provision(env, h, loadOrder, emitOrder).value| >= |h.basicAuth|
    ensures forall i | 0 <= i < |h.basicAuth| ::
              Provision(env, h, loadOrder, emitOrder).value[|Provision(env, h, loadOrder, emitOrder).value| - |h.basicAuth| + i] ==
                BasicAuth(env.replace(h.basicAuth[i].username), env.replace(h.basicAuth[i].password))
  {
    ProvisionedSplit(env, h, loadOrder, emitOrder);
    CredTail(env, Provision(env, h, loadOrder, emitOrder).value, h.basicAuth);
  }

  /** The options before the credentials are the emitted module options. */
  lemma ProvisionedSplit(env: Env, h: Http, loadOrder: seq<string>, emitOrder: seq<string>)
    requires IsEnumeration(loadOrder, h.options.Keys) && IsEnumeration(emitOrder, h.options.Keys)
    requires Provision(env, h, loadOrder, emitOrder).Ok?
    ensures LoadAll(env, h.options, loadOrder).Ok?
    ensures LoadAll(env, h.options, loadOrder).value.Keys == h.options.Keys
    ensures |Provision(env, h, loadOrder, emitOrder).value| >= |h.basicAuth|
    ensures Provision(env, h, loadOrder, emitOrder).value[..|Provision(env, h, loadOrder, emitOrder).value| - |h.basicAuth|] ==
              EmitModules(LoadAll(env, h.options, loadOrder).value, emitOrder)
    ensures Provision(env, h, loadOrder, emitOrder).value[|Provision(env, h, loadOrder, emitOrder).value| - |h.basicAuth|..] ==
              CredOpts(ReplaceCreds(env, h.basicAuth))
  {
    LoadAllEnumerated(env, h.options, loadOrder);
    var emitted := EmitModules(LoadAll(env, h.options, loadOrder).value, emitOrder);
    var r := Provision(env, h, loadOrder, emitOrder).value;
    assert r == emitted + CredOpts(ReplaceCreds(env, h.basicAuth));
    assert r[..|emitted|] == emitted;
    assert r[|emitted|..] == CredOpts(ReplaceCreds(env, h.basicAuth));
  }

  /** Each option before the credentials is the non-nil option of some stored option's
      loaded module. */
  lemma ProvisionedModulesSound(env: Env, h: Http, loadOrder: seq<string>, emitOrder: seq<string>)
    requires IsEnumeration(loadOrder, h.options.Keys) && IsEnumeration(emitOrder, h.options.Keys)
    requires Provision(env, h, loadOrder, emitOrder).Ok?
    ensures forall k | k in h.options :: Load(env, k, h.options[k]).Ok?
    ensures forall i | 0 <= i < |Provision(env, h, loadOrder, emitOrder).value| - |h.basicAuth| ::
              exists k | k in h.options :: ModuleOption(Load(env, k, h.options[k]).value) == Some(Provision(env, h, loadOrder, emitOrder).value[i])
  {
    ProvisionedSplit(env, h, loadOrder, emitOrder);
    LoadAllEnumerated(env, h.options, loadOrder);
    var mods := LoadAll(env, h.options, loadOrder).value;
    var r := Provision(env, h, loadOrder, emitOrder).value;
    var emitted := r[..|r| - |h.basicAuth|];
    forall i | 0 <= i < |r| - |h.basicAuth|
      ensures exists k | k in h.options :: ModuleOption(Load(env, k, h.options[k]).value) == Some(r[i])
    {
      assert r[i] == emitted[i];
      assert r[i] in EmitModules(mods, emitOrder);
      var j :| 0 <= j < |emitOrder| && ModuleOption(mods[emitOrder[j]]) == Some(r[i]);
      assert Load(env, emitOrder[j], h.options[emitOrder[j]]).value == mods[emitOrder[j]];
    }
  }

  /** Each stored option whose loaded module has a non-nil option contributes it before
      the credentials. */
  lemma ProvisionedModulesComplete(env: Env, h: Http, loadOrder: seq<string>, emitOrder: seq<string>)
    requires IsEnumeration(loadOrder, h.options.Keys) && IsEnumeration(emitOrder, h.options.Keys)
    requires Provision(env, h, loadOrder, emitOrder).Ok?
    ensures forall k | k in h.options :: Load(env, k, h.options[k]).Ok?
    ensures forall k | k in h.options && ModuleOption(Load(env, k, h.options[k]).value).Some? ::
              ModuleOption(Load(env, k, h.options[k]).value).value in
                Provision(env, h, loadOrder, emitOrder).value[..|Provision(env, h, loadOrder, emitOrder).value| - |h.basicAuth|]
  {
    ProvisionedSplit(env, h, loadOrder, emitOrder);
    LoadAllEnumerated(env, h.options, loadOrder);
    var mods := LoadAll(env, h.options, loadOrder).value;
    forall k | k in h.options && ModuleOption(Load(env, k, h.options[k]).value).Some?
      ensures ModuleOption(Load(env, k, h.options[k]).value).value in EmitModules(mods, emitOrder)
    {
      var j :| 0 <= j < |emitOrder| && emitOrder[j] == k;
    }
  }

  /** A parsed toggle's stored literal loads only when it was written as nothing, `off`,
      `true` or `false`: the other literals `strconv.ParseBool` accepts (`1`, `t`,
      `True`, ...) pass the parser but are not JSON booleans. When it loads, the toggle
      is on exactly for no argument or `true`. */
  lemma ParsedToggleLoads(env: Env, name: string, args: seq<string>)
    requires IsToggle(name) && ToggleRaw(name, args).Ok?
    ensures Load(env, ToggleKey(name), Literal(ToggleText(args))).Ok? <==>
              args == [] || args[0] in {"off", "true", "false"}
    ensures Load(env, ToggleKey(name), Literal(ToggleText(args))).Ok? ==>
              (ModuleOption(Load(env, ToggleKey(name), Literal(ToggleText(args))).value).Some? <==>
                 args == [] || args[0] == "true")
  {
    var t := ToggleText(args);
    var key := ToggleKey(name);
    assert t in {"true", "false"} <==> args == [] || args[0] in {"off", "true", "false"};
    assert t == "true" <==> args == [] || args[0] == "true";
    var d := Decode(env, key, Literal(t));
    assert d.Ok? <==> t in {"true", "false"};
    if d.Ok? {
      assert !d.value.SchemeMod?;
      assert ProvisionModule(env, d.value) == d.value;
      assert d.value in {CompressionMod(true), WebsocketMod(true)} <==> t == "true";
    }
  }

  /** `json.Marshal` of the record succeeds: the credentials are plain strings, so
      exactly when every stored option is a JSON document. */
  predicate Encodes(h: Http) {
    forall k | k in h.options :: IsJson(h.options[k])
  }

  /** A parsed toggle's literal is a JSON document exactly when it was written as
      nothing, `off`, `true`, `false`, `1` or `0`: `t`, `T`, `TRUE`, `True`, `f`, `F`,
      `FALSE` and `False` pass the parser but are not JSON. */
  lemma ParsedToggleEncodes(name: string, args: seq<string>)
    requires ToggleRaw(name, args).Ok?
    ensures IsJson(Literal(ToggleText(args))) <==> args == [] || args[0] in {"off", "true", "false", "1", "0"}
  {
    assert DigitRun("1") == 1 by { assert "1"[1..] == []; }
    assert DigitRun("0") == 1 by { assert "0"[1..] == []; }
    assert IsJsonNumber("1") && IsJsonNumber("0");
  }

  /** A ratio the parser accepts loads exactly when it is also a JSON number. */
  lemma ParsedBreakerLoads(env: Env, ratio: string)
    requires env.isFloat(ratio)
    ensures Load(env, "circuit_breaker", Literal(ratio)).Ok? <==> IsJsonNumber(ratio)
  {
    BreakerDecodes(env, ratio);
    assert ProvisionModule(env, BreakerMod(ratio)) == BreakerMod(ratio);
  }

  /** A ratio decodes into its breaker module exactly when it is a JSON number and a
      float. */
  lemma BreakerDecodes(env: Env, ratio: string)
    ensures Decode(env, "circuit_breaker", Literal(ratio)) ==
              if IsJsonNumber(ratio) && env.isFloat(ratio) then Ok(BreakerMod(ratio)) else Err(OptionDecode("circuit_breaker"))
  {
  }

  /** Ratios on both sides of the JSON number grammar: `0.5` and `-1e+3` are JSON
      numbers; `.5`, `+1` and `01`, which a float parser accepts, are not. */
  lemma JsonNumberExamples()
    ensures IsJsonNumber("0.5") && IsJsonNumber("-1e+3")
    ensures !IsJsonNumber(".5") && !IsJsonNumber("+1") && !IsJsonNumber("01")
  {
    assert DigitRun("5") == 1 by { assert "5"[1..] == []; }
    assert DigitRun("3") == 1 by { assert "3"[1..] == []; }
    assert "0.5"[1..] == ".5" && ".5"[1..] == "5";
    assert JsonFraction(".5");
    assert "-1e+3"[1..] == "1e+3" && "1e+3"[1..] == "e+3" && "e+3"[2..] == "3";
    assert DigitRun("1e+3") == 1 by { assert "1e+3"[1..] == "e+3"; }
    assert JsonExponent("e+3");
    assert "01"[1..] == "1";
  }
}
