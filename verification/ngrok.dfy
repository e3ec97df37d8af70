/** The ngrok listener wrapper (ngrok.go): the session settings (auth token, metadata,
    region, server, heartbeat timings) and the one tunnel the listener serves, parsed
    from the `ngrok` Caddyfile block, provisioned into a loaded tunnel and turned into
    the options of the ngrok session. */
module Session {
  import opened Common
  import opened Sdk
  import TcpTunnel
  import TlsTunnel
  import HttpTunnel
  import HttpOptions
  import Labeled

  /** A parsed tunnel, one variant per tunnel module. */
  datatype TunnelConfig =
    | TcpConfig(tcp: TcpTunnel.Tcp)
    | TlsConfig(tls: TlsTunnel.Tls)
    | HttpConfig(http: HttpTunnel.Http)
    | LabeledConfig(labels: map<string, string>)

  /** The module name a tunnel is stored under. */
  function TypeName(t: TunnelConfig): string {
    match t
    case TcpConfig(_) => "tcp"
    case TlsConfig(_) => "tls"
    case HttpConfig(_) => "http"
    case LabeledConfig(_) => "labeled"
  }

  /** The listener wrapper's configuration; `tunnel` is `None` while no tunnel was
      configured. Durations are in nanoseconds. */
  datatype Ngrok = Ngrok(
    authToken: string,
    tunnel: Option<TunnelConfig>,
    metadata: string,
    region: string,
    server: string,
    heartbeatTolerance: int,
    heartbeatInterval: int
  )

  const NoNgrok := Ngrok("", None, "", "", "", 0, 0)

  predicate IsTunnelType(name: string) {
    name in {"tcp", "tls", "http", "labeled"}
  }

  /** The tunnel type a `tunnel` line names: its first argument, `tcp` without one. */
  function TunnelName(args: seq<string>): string {
    if args == [] then "tcp" else args[0]
  }

  /** `unmarshalTunnel`: the named tunnel module parses the rest of the line and its
      block; a type no tunnel module has is an error. */
  function ParseTunnel(env: Env, args: seq<string>, block: Block): (r: Result<TunnelConfig>)
    ensures !IsTunnelType(TunnelName(args)) ==> r == Err(UnknownTunnelType(TunnelName(args)))
    ensures r.Ok? ==> TypeName(r.value) == TunnelName(args)
  {
    var rest := if args == [] then [] else args[1..];
    match TunnelName(args)
    case "tcp" => var t :- TcpTunnel.Parse(rest, block); Ok(TcpConfig(t))
    case "tls" => var t :- TlsTunnel.Parse(rest, block); Ok(TlsConfig(t))
    case "http" => var h :- HttpTunnel.Parse(env, rest, block); Ok(HttpConfig(h))
    case "labeled" => var m :- Labeled.Parse(rest, block); Ok(LabeledConfig(m))
    case _ => Err(UnknownTunnelType(TunnelName(args)))
  }

  /** A `tunnel` line without a type is a `tunnel tcp` line; a typed line hands the
      arguments after the type to that tunnel's parser. */
  lemma TunnelDefaultsToTcp(env: Env, a: string, args: seq<string>, block: Block)
    ensures ParseTunnel(env, [], block) == ParseTunnel(env, ["tcp"], block)
    ensures ParseTunnel(env, [], block).Ok? <==> TcpTunnel.Parse([], block).Ok?
    ensures ParseTunnel(env, ["tcp", a] + args, block) == Err(WrongArgs("tcp"))
    ensures ParseTunnel(env, ["labeled", a] + args, block) == Err(WrongArgs("labeled"))
  {
    assert (["tcp", a] + args)[1..] == [a] + args;
    assert (["labeled", a] + args)[1..] == [a] + args;
  }

  /** How a parsed tunnel is kept. `unmarshalTunnel` stores it through
      `caddyconfig.JSONModuleObject` without a warnings list, so a tunnel that does not
      encode as JSON is stored as no tunnel and the failure is dropped (`Silent`, the
      code as written); `Reported` rejects the `tunnel` line with the failure instead. */
  datatype StoreMode = Silent | Reported

  /** The tunnel encodes as JSON: TCP, TLS and labeled tunnels hold only strings; an
      HTTP tunnel encodes exactly when its stored options are JSON documents. */
  predicate Encodes(t: TunnelConfig) {
    t.HttpConfig? ==> HttpTunnel.Encodes(t.http)
  }

  /** The tunnel setting a parsed tunnel leaves behind: the tunnel itself when it
      encodes, nil otherwise. */
  function Stored(t: TunnelConfig): Option<TunnelConfig> {
    if Encodes(t) then Some(t) else None
  }

  /** Storing a parsed tunnel: an encodable tunnel is kept as parsed; one that does not
      encode becomes nil when the failure is dropped, and an error naming its type when
      it is reported. */
  function StoreTunnel(mode: StoreMode, t: TunnelConfig): (r: Result<Option<TunnelConfig>>)
    ensures r.Ok? <==> Encodes(t) || mode.Silent?
    ensures r.Ok? ==> r.value == Stored(t)
    ensures r.Ok? && r.value.Some? ==> r.value.value == t
    ensures r.Err? ==> r.error == TunnelEncode(TypeName(t))
  {
    if Encodes(t) then Ok(Some(t))
    else if mode.Silent? then Ok(None)
    else Err(TunnelEncode(TypeName(t)))
  }

  /** How many arguments the handler of a directive reads: `authtoken` reads at most
      one and leaves the others to the directive loop. */
  function Consumed(l: Line): nat {
    if l.name == "authtoken" then 1 else |l.args|
  }

  predicate IsSingle(name: string) {
    name in {"metadata", "region", "server"}
  }

  predicate IsDuration(name: string) {
    name in {"heartbeat_tolerance", "heartbeat_interval"}
  }

  predicate IsKnown(name: string) {
    IsSingle(name) || IsDuration(name) || name in {"authtoken", "tunnel"}
  }

  /** The token an `authtoken` line sets: its argument when it has exactly one, the
      empty token otherwise. */
  function TokenOf(l: Line): string {
    if |l.args| == 1 then l.args[0] else ""
  }

  /** A heartbeat duration: exactly one argument, which must parse as a duration. */
  function Duration(env: Env, l: Line): (r: Result<int>)
    ensures r.Ok? <==> |l.args| == 1 && env.parseDuration(l.args[0]).Some?
    ensures r.Ok? ==> Some(r.value) == env.parseDuration(l.args[0])
    ensures |l.args| != 1 ==> r == Err(WrongArgs(l.name))
    ensures |l.args| == 1 && r.Err? ==> r.error == BadDuration(l.name, l.args[0])
  {
    var v :- OneArg(l);
    match env.parseDuration(v)
    case Some(d) => Ok(d)
    case None => Err(BadDuration(l.name, v))
  }

  /** A line of the `ngrok` block the parser accepts: a known directive, one argument
      for the single-valued ones, a parsable duration, a tunnel its module accepts and
      that can be stored, and no block except on `tunnel`. */
  predicate LineOk(env: Env, mode: StoreMode, l: Line) {
    && IsKnown(l.name)
    && (IsSingle(l.name) ==> |l.args| == 1)
    && (IsDuration(l.name) ==> Duration(env, l).Ok?)
    && (l.name == "tunnel" ==> ParseTunnel(env, l.args, l.block).Ok?)
    && (l.name == "tunnel" ==> StoreTunnel(mode, ParseTunnel(env, l.args, l.block).value).Ok?)
    && (l.name != "tunnel" ==> l.block.NoBlock?)
  }

  /** The error reported for a rejected line; every unknown directive is an argument
      error, a block being read as a directive named `{`. */
  function LineError(env: Env, mode: StoreMode, l: Line): Error {
    if !IsKnown(l.name) then WrongArgs(l.name)
    else if IsSingle(l.name) && |l.args| != 1 then WrongArgs(l.name)
    else if IsDuration(l.name) && Duration(env, l).Err? then Duration(env, l).error
    else if l.name == "tunnel" && ParseTunnel(env, l.args, l.block).Err? then ParseTunnel(env, l.args, l.block).error
    else if l.name == "tunnel" && StoreTunnel(mode, ParseTunnel(env, l.args, l.block).value).Err? then
      TunnelEncode(TypeName(ParseTunnel(env, l.args, l.block).value))
    else WrongArgs("{")
  }

  /** One directive of the `ngrok` block. */
  function Step(env: Env, mode: StoreMode, n: Ngrok, l: Line): Result<Ngrok> {
    var n1 :- match l.name
      case "authtoken" => Ok(n.(authToken := TokenOf(l)))
      case "metadata" => var v :- OneArg(l); Ok(n.(metadata := v))
      case "region" => var v :- OneArg(l); Ok(n.(region := v))
      case "server" => var v :- OneArg(l); Ok(n.(server := v))
      case "heartbeat_tolerance" => var d :- Duration(env, l); Ok(n.(heartbeatTolerance := d))
      case "heartbeat_interval" => var d :- Duration(env, l); Ok(n.(heartbeatInterval := d))
      case "tunnel" =>
        var t :- ParseTunnel(env, l.args, l.block);
        var stored :- StoreTunnel(mode, t);
        Ok(n.(tunnel := stored))
      case _ => Err(WrongArgs(l.name));
    if l.name != "tunnel" && l.block.Braces? then Err(WrongArgs("{")) else Ok(n1)
  }

  /** A single directive succeeds exactly when the line is accepted and reports the
      line's error otherwise. */
  lemma StepMeaning(env: Env, mode: StoreMode, n: Ngrok, l: Line)
    ensures Step(env, mode, n, l).Ok? <==> LineOk(env, mode, l)
    ensures Step(env, mode, n, l).Err? ==> Step(env, mode, n, l).error == LineError(env, mode, l)
  {
  }

  /** The directive loop of `UnmarshalCaddyfile`: every line must be accepted. */
  function ParseLines(env: Env, mode: StoreMode, n: Ngrok, lines: seq<Line>): (r: Result<Ngrok>)
    ensures r.Ok? <==> forall i | 0 <= i < |lines| :: LineOk(env, mode, lines[i])
    decreases lines
  {
    if lines == [] then Ok(n)
    else
      StepMeaning(env, mode, n, lines[0]);
      var n1 :- Step(env, mode, n, lines[0]);
      ParseLines(env, mode, n1, lines[1..])
  }

  /** A rejected block reports the error of its first rejected line. */
  lemma {:induction false} ParseLinesError(env: Env, mode: StoreMode, n: Ngrok, lines: seq<Line>)
    requires ParseLines(env, mode, n, lines).Err?
    ensures FirstBad((l: Line) => LineOk(env, mode, l), lines) < |lines|
    ensures ParseLines(env, mode, n, lines).error == LineError(env, mode, lines[FirstBad((l: Line) => LineOk(env, mode, l), lines)])
    decreases lines
  {
    StepMeaning(env, mode, n, lines[0]);
    if LineOk(env, mode, lines[0]) {
      ParseLinesError(env, mode, Step(env, mode, n, lines[0]).value, lines[1..]);
    }
  }

  /** The duration set by the last line called `name`, or `d` when there is none. */
  function LastDuration(env: Env, lines: seq<Line>, name: string, d: int): int {
    match LastLine(lines, name)
    case Some(l) => (match Duration(env, l) case Ok(v) => v case Err(_) => d)
    case None => d
  }

  /** The tunnel stored by the last `tunnel` line (nil when its tunnel does not
      encode), or `t` when there is none. */
  function LastTunnel(env: Env, lines: seq<Line>, t: Option<TunnelConfig>): Option<TunnelConfig> {
    match LastLine(lines, "tunnel")
    case Some(l) => (match ParseTunnel(env, l.args, l.block) case Ok(c) => Stored(c) case Err(_) => t)
    case None => t
  }

  /** The token set by the last `authtoken` line, or `t` when there is none. */
  function LastToken(lines: seq<Line>, t: string): string {
    match LastLine(lines, "authtoken")
    case Some(l) => TokenOf(l)
    case None => t
  }

  /** Every setting is the one of the last line that sets it: metadata, region and
      server take that line's argument, the heartbeats its parsed duration, the auth
      token its single argument or the empty token, and the tunnel what the last
      `tunnel` line stores: its parse when that encodes, nil otherwise; settings no line
      names keep their value. */
  lemma {:induction false} ParsedSettings(env: Env, mode: StoreMode, n: Ngrok, lines: seq<Line>)
    requires ParseLines(env, mode, n, lines).Ok?
    ensures ParseLines(env, mode, n, lines).value.metadata == LastArg(lines, "metadata").GetOr(n.metadata)
    ensures ParseLines(env, mode, n, lines).value.region == LastArg(lines, "region").GetOr(n.region)
    ensures ParseLines(env, mode, n, lines).value.server == LastArg(lines, "server").GetOr(n.server)
    ensures ParseLines(env, mode, n, lines).value.heartbeatTolerance == LastDuration(env, lines, "heartbeat_tolerance", n.heartbeatTolerance)
    ensures ParseLines(env, mode, n, lines).value.heartbeatInterval == LastDuration(env, lines, "heartbeat_interval", n.heartbeatInterval)
    ensures ParseLines(env, mode, n, lines).value.authToken == LastToken(lines, n.authToken)
    ensures ParseLines(env, mode, n, lines).value.tunnel == LastTunnel(env, lines, n.tunnel)
    decreases lines
  {
    if lines != [] {
      var l := lines[0];
      StepMeaning(env, mode, n, l);
      var n1 := Step(env, mode, n, l).value;
      SettingStep(env, mode, n, l);
      ParsedSettings(env, mode, n1, lines[1..]);
      assert forall i | 0 <= i < |lines[1..]| :: LineOk(env, mode, lines[1..][i]);
      LastSplitArgs(env, mode, n, n1, l, lines[1..]);
      LastSplitDurations(env, mode, n, n1, l, lines[1..]);
      LastSplitToken(env, mode, n, n1, l, lines[1..]);
      LastSplitTunnel(env, mode, n, n1, l, lines[1..]);
      assert [l] + lines[1..] == lines;
    }
  }

  /** What one accepted line sets. */
  lemma SettingStep(env: Env, mode: StoreMode, n: Ngrok, l: Line)
    requires LineOk(env, mode, l)
    ensures Step(env, mode, n, l).Ok?
    ensures Step(env, mode, n, l).value.metadata == (if l.name == "metadata" then l.args[0] else n.metadata)
    ensures Step(env, mode, n, l).value.region == (if l.name == "region" then l.args[0] else n.region)
    ensures Step(env, mode, n, l).value.server == (if l.name == "server" then l.args[0] else n.server)
    ensures Step(env, mode, n, l).value.heartbeatTolerance ==
              (if l.name == "heartbeat_tolerance" then env.parseDuration(l.args[0]).value else n.heartbeatTolerance)
    ensures Step(env, mode, n, l).value.heartbeatInterval ==
              (if l.name == "heartbeat_interval" then env.parseDuration(l.args[0]).value else n.heartbeatInterval)
    ensures Step(env, mode, n, l).value.authToken == (if l.name == "authtoken" then TokenOf(l) else n.authToken)
    ensures Step(env, mode, n, l).value.tunnel ==
              (if l.name == "tunnel" then Stored(ParseTunnel(env, l.args, l.block).value) else n.tunnel)
  {
    StepMeaning(env, mode, n, l);
  }

  /** The last argument over `[l] + rest` is the last one over `rest`, or `l`'s. */
  lemma LastArgCons(l: Line, rest: seq<Line>, name: string)
    ensures LastArg([l] + rest, name) ==
              if LastArg(rest, name).Some? then LastArg(rest, name)
              else if l.name == name && |l.args| > 0 then Some(l.args[0]) else None
  {
    assert ([l] + rest)[1..] == rest;
  }

  /** The last line over `[l] + rest` is the last one over `rest`, or `l`. */
  lemma LastLineCons(l: Line, rest: seq<Line>, name: string)
    ensures LastLine([l] + rest, name) ==
              if LastLine(rest, name).Some? then LastLine(rest, name)
              else if l.name == name then Some(l) else None
  {
    assert ([l] + rest)[1..] == rest;
  }

  /** The single-valued lookups over `[l] + rest`, given that `l` is accepted, in terms
      of the lookups over `rest` started from what `l` sets. */
  lemma LastSplitArgs(env: Env, mode: StoreMode, n: Ngrok, n1: Ngrok, l: Line, rest: seq<Line>)
    requires LineOk(env, mode, l) && Step(env, mode, n, l) == Ok(n1)
    ensures LastArg(rest, "metadata").GetOr(n1.metadata) == LastArg([l] + rest, "metadata").GetOr(n.metadata)
    ensures LastArg(rest, "region").GetOr(n1.region) == LastArg([l] + rest, "region").GetOr(n.region)
    ensures LastArg(rest, "server").GetOr(n1.server) == LastArg([l] + rest, "server").GetOr(n.server)
  {
    SettingStep(env, mode, n, l);
    LastArgCons(l, rest, "metadata");
    LastArgCons(l, rest, "region");
    LastArgCons(l, rest, "server");
  }

  /** The heartbeat lookups over `[l] + rest`, likewise. */
  lemma LastSplitDurations(env: Env, mode: StoreMode, n: Ngrok, n1: Ngrok, l: Line, rest: seq<Line>)
    requires LineOk(env, mode, l) && Step(env, mode, n, l) == Ok(n1)
    requires forall i | 0 <= i < |rest| :: LineOk(env, mode, rest[i])
    ensures LastDuration(env, rest, "heartbeat_tolerance", n1.heartbeatTolerance)
              == LastDuration(env, [l] + rest, "heartbeat_tolerance", n.heartbeatTolerance)
    ensures LastDuration(env, rest, "heartbeat_interval", n1.heartbeatInterval)
              == LastDuration(env, [l] + rest, "heartbeat_interval", n.heartbeatInterval)
  {
    SettingStep(env, mode, n, l);
    LastLineCons(l, rest, "heartbeat_tolerance");
    LastLineCons(l, rest, "heartbeat_interval");
    if LastLine(rest, "heartbeat_tolerance").Some? {
      assert LineOk(env, mode, LastLine(rest, "heartbeat_tolerance").value);
    }
    if LastLine(rest, "heartbeat_interval").Some? {
      assert LineOk(env, mode, LastLine(rest, "heartbeat_interval").value);
    }
  }

  /** The token lookup over `[l] + rest`, likewise. */
  lemma LastSplitToken(env: Env, mode: StoreMode, n: Ngrok, n1: Ngrok, l: Line, rest: seq<Line>)
    requires LineOk(env, mode, l) && Step(env, mode, n, l) == Ok(n1)
    ensures LastToken(rest, n1.authToken) == LastToken([l] + rest, n.authToken)
  {
    SettingStep(env, mode, n, l);
    LastLineCons(l, rest, "authtoken");
  }

  /** The tunnel lookup over `[l] + rest`, likewise. */
  lemma LastSplitTunnel(env: Env, mode: StoreMode, n: Ngrok, n1: Ngrok, l: Line, rest: seq<Line>)
    requires LineOk(env, mode, l) && Step(env, mode, n, l) == Ok(n1)
    requires forall i | 0 <= i < |rest| :: LineOk(env, mode, rest[i])
    ensures LastTunnel(env, rest, n1.tunnel) == LastTunnel(env, [l] + rest, n.tunnel)
  {
    SettingStep(env, mode, n, l);
    LastLineCons(l, rest, "tunnel");
    if LastLine(rest, "tunnel").Some? {
      assert LineOk(env, mode, LastLine(rest, "tunnel").value);
    }
  }

  /** Where the reported mode accepts a line, the silent mode stores the same; where
      only the silent mode accepts it, the line is a tunnel that does not encode. */
  lemma StepModes(env: Env, n: Ngrok, l: Line)
    ensures Step(env, Reported, n, l).Ok? ==> Step(env, Silent, n, l) == Step(env, Reported, n, l)
    ensures Step(env, Silent, n, l).Ok? && Step(env, Reported, n, l).Err? ==>
              && l.name == "tunnel"
              && !Encodes(ParseTunnel(env, l.args, l.block).value)
              && Step(env, Reported, n, l).error == TunnelEncode(TypeName(ParseTunnel(env, l.args, l.block).value))
  {
  }

  /** Reporting the encoding failure only turns some silently accepted blocks into
      errors: a block it accepts is parsed to the same settings as the code as written
      parses it, and a block only the silent mode accepts is rejected for a tunnel that
      does not encode. */
  lemma {:induction false} ReportedRefinesSilent(env: Env, n: Ngrok, lines: seq<Line>)
    ensures ParseLines(env, Reported, n, lines).Ok? ==> ParseLines(env, Silent, n, lines) == ParseLines(env, Reported, n, lines)
    ensures ParseLines(env, Silent, n, lines).Ok? && ParseLines(env, Reported, n, lines).Err? ==>
              ParseLines(env, Reported, n, lines).error.TunnelEncode?
    decreases lines
  {
    if lines != [] {
      StepModes(env, n, lines[0]);
      if Step(env, Reported, n, lines[0]).Ok? {
        ReportedRefinesSilent(env, Step(env, Reported, n, lines[0]).value, lines[1..]);
      }
    }
  }

  /** With the failure reported, an accepted block keeps the tunnel of its last
      `tunnel` line exactly as parsed: no configured tunnel is replaced by the default. */
  lemma ConfiguredTunnelKept(env: Env, n: Ngrok, lines: seq<Line>)
    requires ParseLines(env, Reported, n, lines).Ok?
    requires LastLine(lines, "tunnel").Some?
    ensures ParseTunnel(env, LastLine(lines, "tunnel").value.args, LastLine(lines, "tunnel").value.block).Ok?
    ensures ParseLines(env, Reported, n, lines).value.tunnel ==
              Some(ParseTunnel(env, LastLine(lines, "tunnel").value.args, LastLine(lines, "tunnel").value.block).value)
  {
    var l := LastLine(lines, "tunnel").value;
    assert LineOk(env, Reported, l);
    ParsedSettings(env, Reported, n, lines);
  }

  /** The `tunnel` line of `tunnel http { compression t }`: `t` is a literal
      `strconv.ParseBool` accepts and the `http` parser stores verbatim. */
  const HttpWithToggleT: Line := Line("tunnel", ["http"], Braces([Line("compression", ["t"], NoBlock)]))

  /** The `http` tunnel of that line parses, but does not encode as JSON. */
  lemma HttpWithToggleTParses(env: Env)
    ensures ParseTunnel(env, HttpWithToggleT.args, HttpWithToggleT.block) ==
              Ok(HttpConfig(HttpTunnel.Http(map["compression" := HttpOptions.Literal("t")], [])))
    ensures !Encodes(HttpConfig(HttpTunnel.Http(map["compression" := HttpOptions.Literal("t")], [])))
  {
    var inner := [Line("compression", ["t"], NoBlock)];
    ExpandPlain(HttpTunnel.Consumed, inner);
    var h := HttpTunnel.Http(map["compression" := HttpOptions.Literal("t")], []);
    assert HttpTunnel.Step(env, HttpTunnel.NoHttp, inner[0]) == Ok(h);
    assert HttpTunnel.ParseLines(env, HttpTunnel.NoHttp, inner) == HttpTunnel.ParseLines(env, h, []);
    assert !HttpOptions.IsJson(h.options["compression"]);
  }

  /** As written, `ngrok { tunnel http { compression t } }` is accepted with no tunnel
      at all, and so is the same block after a `tunnel tcp` line, whose tunnel is
      overwritten: provisioning then loads the default TCP tunnel instead of failing. */
  lemma SilentTcpFallback(env: Env, o: MapOrders)
    ensures Parse(env, Silent, [], Braces([HttpWithToggleT])) == Ok(NoNgrok)
    ensures Parse(env, Silent, [], Braces([Line("tunnel", ["tcp"], NoBlock), HttpWithToggleT])) == Ok(NoNgrok)
    ensures Provision(env, NoNgrok, o).Ok? ==>
              Provision(env, NoNgrok, o).value.loaded == Some(Loaded("tcp", TcpTunnel.Provision(env, TcpTunnel.NoTcp)))
  {
    HttpWithToggleTParses(env);
    var lines := [Line("tunnel", ["tcp"], NoBlock), HttpWithToggleT];
    ExpandPlain(Consumed, lines);
    var n1 := NoNgrok.(tunnel := Some(TcpConfig(TcpTunnel.NoTcp)));
    assert Step(env, Silent, NoNgrok, lines[0]) == Ok(n1);
    assert Step(env, Silent, n1, lines[1]) == Ok(NoNgrok);
    assert ParseLines(env, Silent, NoNgrok, lines) == ParseLines(env, Silent, n1, lines[1..]);
    assert ParseLines(env, Silent, n1, lines[1..]) == ParseLines(env, Silent, NoNgrok, []);
    ExpandPlain(Consumed, lines[1..]);
    assert Step(env, Silent, NoNgrok, lines[1]) == Ok(NoNgrok);
    assert ParseLines(env, Silent, NoNgrok, lines[1..]) == ParseLines(env, Silent, NoNgrok, []);
  }

  /** Reporting the failure rejects the same block with an encoding error naming the
      `http` tunnel. */
  lemma ReportedRejects(env: Env)
    ensures Parse(env, Reported, [], Braces([Line("tunnel", ["tcp"], NoBlock), HttpWithToggleT])) == Err(TunnelEncode("http"))
  {
    HttpWithToggleTParses(env);
    var lines := [Line("tunnel", ["tcp"], NoBlock), HttpWithToggleT];
    ExpandPlain(Consumed, lines);
    var n1 := NoNgrok.(tunnel := Some(TcpConfig(TcpTunnel.NoTcp)));
    assert Step(env, Reported, NoNgrok, lines[0]) == Ok(n1);
    assert Step(env, Reported, n1, lines[1]) == Err(TunnelEncode("http"));
    assert ParseLines(env, Reported, NoNgrok, lines) == ParseLines(env, Reported, n1, lines[1..]);
  }

  /** `UnmarshalCaddyfile`: no argument on the `ngrok` line, then its block, read
      with the arguments `authtoken` leaves unread handed back to the loop. */
  function Parse(env: Env, mode: StoreMode, args: seq<string>, block: Block): (r: Result<Ngrok>)
    ensures args != [] ==> r == Err(WrongArgs("ngrok"))
    ensures args == [] && (block.NoBlock? || block.lines == []) ==> r == Ok(NoNgrok)
  {
    if args != [] then Err(WrongArgs("ngrok"))
    else ParseLines(env, mode, NoNgrok, Expand(Consumed, if block.Braces? then block.lines else []))
  }

  /** An `authtoken` line with more than one argument sets the empty token and its
      second argument is read as the next directive: `authtoken t region eu` sets the
      empty token and the region `eu`. */
  lemma AuthtokenLeftover(env: Env, mode: StoreMode, t: string, r: string)
    ensures Parse(env, mode, [], Braces([Line("authtoken", [t, "region", r], NoBlock)])) ==
              Ok(NoNgrok.(region := r))
  {
    var l := Line("authtoken", [t, "region", r], NoBlock);
    var left := Leftover(l, 1);
    assert left == Line("region", [r], NoBlock);
    assert Expand(Consumed, [left]) == [left] by {
      assert Expand(Consumed, [left])[1..] == Expand(Consumed, []);
    }
    assert ([l] + [])[1..] == [];
    assert Expand(Consumed, [l]) == [Line("authtoken", [t, "region", r], NoBlock)] + Expand(Consumed, [left] + []);
    var lines := [Line("authtoken", [t, "region", r], NoBlock), left];
    assert Expand(Consumed, [l]) == lines;
    var n1 := NoNgrok.(authToken := "");
    assert Step(env, mode, NoNgrok, lines[0]) == Ok(n1);
    assert ParseLines(env, mode, NoNgrok, lines) == ParseLines(env, mode, n1, lines[1..]);
    assert Step(env, mode, n1, left) == Ok(n1.(region := r));
    assert ParseLines(env, mode, n1, lines[1..]) == ParseLines(env, mode, n1.(region := r), []);
  }

  /** A tunnel loaded by its module: its type and the endpoint options it built. */
  datatype Loaded = Loaded(kind: string, opts: seq<EndpointOpt>)

  /** The orders in which Go's map iteration visits the stored HTTP options when it
      loads them and when it emits them, and the labels of a labeled tunnel. */
  datatype MapOrders = MapOrders(httpLoad: seq<string>, httpEmit: seq<string>, labels: seq<string>)

  /** The orders are admissible iteration orders of the tunnel's maps. */
  ghost predicate OrdersFit(t: TunnelConfig, o: MapOrders) {
    && (t.HttpConfig? ==> IsEnumeration(o.httpLoad, t.http.options.Keys) && IsEnumeration(o.httpEmit, t.http.options.Keys))
    && (t.LabeledConfig? ==> IsEnumeration(o.labels, t.labels.Keys))
  }

  /** `ctx.LoadModule` on the stored tunnel: the tunnel module provisions itself. */
  function LoadTunnel(env: Env, t: TunnelConfig, o: MapOrders): (r: Result<Loaded>)
    requires OrdersFit(t, o)
    ensures r.Ok? ==> r.value.kind == TypeName(t)
    ensures t.TcpConfig? ==> r == Ok(Loaded("tcp", TcpTunnel.Provision(env, t.tcp)))
    ensures t.TlsConfig? ==> (r.Ok? <==> TlsTunnel.Provision(env, t.tls).Ok?)
    ensures t.HttpConfig? ==>
              (r.Ok? <==> forall k | k in t.http.options :: HttpOptions.Load(env, k, t.http.options[k]).Ok?)
    ensures t.LabeledConfig? ==> r.Ok? && |r.value.opts| == |t.labels|
  {
    match t
    case TcpConfig(c) => Ok(Loaded("tcp", TcpTunnel.Provision(env, c)))
    case TlsConfig(c) => var opts :- TlsTunnel.Provision(env, c); Ok(Loaded("tls", opts))
    case HttpConfig(c) => var opts :- HttpTunnel.Provision(env, c, o.httpLoad, o.httpEmit); Ok(Loaded("http", opts))
    case LabeledConfig(m) =>
      EnumerationLength(o.labels, m.Keys);
      Ok(Loaded("labeled", Labeled.Provision(m, o.labels)))
  }

  /** Replaces one field with `replaceOrErr`, naming the field on failure. */
  function ReplaceField(env: Env, field: string, v: string): (r: Result<string>)
    ensures r.Ok? <==> env.replaceOrErr(v).Some?
    ensures r.Ok? ==> Some(r.value) == env.replaceOrErr(v)
    ensures r.Err? ==> r.error == ReplaceFailed(field)
  {
    match env.replaceOrErr(v)
    case Some(s) => Ok(s)
    case None => Err(ReplaceFailed(field))
  }

  /** `DoReplace`: the auth token, metadata, region and server are replaced in that
      order, strictly (an unknown placeholder is an error); the first failure is
      reported and the other settings are never touched. */
  function DoReplace(env: Env, n: Ngrok): (r: Result<Ngrok>)
    ensures r.Ok? <==> && env.replaceOrErr(n.authToken).Some? && env.replaceOrErr(n.metadata).Some?
                       && env.replaceOrErr(n.region).Some? && env.replaceOrErr(n.server).Some?
    ensures env.replaceOrErr(n.authToken).None? ==> r == Err(ReplaceFailed("authtoken"))
    ensures env.replaceOrErr(n.authToken).Some? && env.replaceOrErr(n.metadata).None? ==> r == Err(ReplaceFailed("metadata"))
    ensures (env.replaceOrErr(n.authToken).Some? && env.replaceOrErr(n.metadata).Some? && env.replaceOrErr(n.region).None?)
            ==> r == Err(ReplaceFailed("region"))
    ensures r.Err? ==> r.error in {ReplaceFailed("authtoken"), ReplaceFailed("metadata"), ReplaceFailed("region"), ReplaceFailed("server")}
    ensures r.Ok? ==> && Some(r.value.authToken) == env.replaceOrErr(n.authToken)
                      && Some(r.value.metadata) == env.replaceOrErr(n.metadata)
                      && Some(r.value.region) == env.replaceOrErr(n.region)
                      && Some(r.value.server) == env.replaceOrErr(n.server)
    ensures r.Ok? ==> && r.value.tunnel == n.tunnel
                      && r.value.heartbeatTolerance == n.heartbeatTolerance
                      && r.value.heartbeatInterval == n.heartbeatInterval
  {
    var a :- ReplaceField(env, "authtoken", n.authToken);
    var m :- ReplaceField(env, "metadata", n.metadata);
    var g :- ReplaceField(env, "region", n.region);
    var s :- ReplaceField(env, "server", n.server);
    Ok(n.(authToken := a, metadata := m, region := g, server := s))
  }

  /** The provisioned wrapper: its settings and the loaded tunnel, if any. */
  datatype Provisioned = Provisioned(config: Ngrok, loaded: Option<Loaded>)

  /** The tunnel `Provision` loads: the configured one, or a TCP tunnel with nothing
      set when none was configured. */
  function TunnelOrDefault(n: Ngrok): TunnelConfig {
    n.tunnel.GetOr(TcpConfig(TcpTunnel.NoTcp))
  }

  /** `Provision`: the tunnel (a default TCP tunnel when none was configured) is loaded
      first, and its failure is the wrapper's failure; then the context's replacer, if
      there is one, replaces placeholders in the auth token, and `DoReplace` runs. */
  function Provision(env: Env, n: Ngrok, o: MapOrders): (r: Result<Provisioned>)
    requires OrdersFit(TunnelOrDefault(n), o)
    ensures LoadTunnel(env, TunnelOrDefault(n), o).Err? ==> r == Err(LoadTunnel(env, TunnelOrDefault(n), o).error)
    ensures r.Ok? ==> r.value.loaded == Some(LoadTunnel(env, TunnelOrDefault(n), o).value)
    ensures r.Ok? ==> r.value.config.tunnel == Some(TunnelOrDefault(n))
    ensures n.tunnel.None? && r.Ok? ==> r.value.loaded == Some(Loaded("tcp", TcpTunnel.Provision(env, TcpTunnel.NoTcp)))
    ensures r.Ok? ==> (Some(r.value.config.authToken) ==
              env.replaceOrErr(if env.contextReplace.Some? then env.contextReplace.value(n.authToken) else n.authToken))
    ensures r.Ok? ==> Some(r.value.config.metadata) == env.replaceOrErr(n.metadata)
  {
    var t := TunnelOrDefault(n);
    var loaded :- LoadTunnel(env, t, o);
    var token := if env.contextReplace.Some? then env.contextReplace.value(n.authToken) else n.authToken;
    var n' :- DoReplace(env, n.(authToken := token, tunnel := Some(t)));
    Ok(Provisioned(n', Some(loaded)))
  }

  /** `Validate`: a wrapper without a loaded tunnel is rejected. */
  function Validate(p: Provisioned): (r: Result<()>)
    ensures r.Err? <==> p.loaded.None?
    ensures r.Err? ==> r.error == MissingTunnel
  {
    if p.loaded.None? then Err(MissingTunnel) else Ok(())
  }

  /** Validation never fails after a successful `Provision`, since provisioning always
      loads a tunnel, the default one when none was configured. */
  lemma ProvisionedIsValid(env: Env, n: Ngrok, o: MapOrders)
    requires OrdersFit(TunnelOrDefault(n), o)
    requires Provision(env, n, o).Ok?
    ensures Validate(Provision(env, n, o).value).Ok?
    ensures Provision(env, n, o).value.loaded.value.kind == TypeName(TunnelOrDefault(n))
  {
  }

  /** The fixed position of each option kind in the session option list. */
  function Rank(s: SessionOpt): int {
    match s
    case Logger => 0
    case AuthtokenFromEnv => 1
    case Authtoken(_) => 1
    case SessionMetadata(_) => 2
    case Region(_) => 3
    case Server(_) => 4
    case HeartbeatInterval(_) => 5
    case HeartbeatTolerance(_) => 6
  }

  /** Each option with the condition under which `ProvisionOpts` appends it. */
  function Slots(n: Ngrok): seq<(bool, SessionOpt)> {
    [ (true, Logger),
      (true, if n.authToken == "" then AuthtokenFromEnv else Authtoken(n.authToken)),
      (n.metadata != "", SessionMetadata(n.metadata)),
      (n.region != "", Region(n.region)),
      (n.server != "", Server(n.server)),
      (n.heartbeatInterval != 0, HeartbeatInterval(n.heartbeatInterval)),
      (n.heartbeatTolerance != 0, HeartbeatTolerance(n.heartbeatTolerance)) ]
  }

  /** `ProvisionOpts`: the session options; it cannot fail. */
  function ProvisionOpts(n: Ngrok): (r: seq<SessionOpt>)
    ensures 2 <= |r| <= 7
  {
    var s := Slots(n);
    assert s[0].0 && s[1].0;
    assert s[0].1 in Selected(s) && s[1].1 in Selected(s);
    assert s[0].1 != s[1].1;
    Selected(s)
  }

  /** The logger comes first and exactly one auth option second: the configured token,
      or the token from the environment when none is configured; the other options
      follow in the fixed order metadata, region, server, heartbeat interval,
      heartbeat tolerance. */
  lemma ProvisionOptsOrder(n: Ngrok)
    ensures ProvisionOpts(n)[0] == Logger
    ensures ProvisionOpts(n)[1] == (if n.authToken == "" then AuthtokenFromEnv else Authtoken(n.authToken))
    ensures InRankOrder(Rank, ProvisionOpts(n))
    ensures forall s | s in ProvisionOpts(n) && s.Authtoken? :: s.token != ""
  {
    var s := Slots(n);
    assert forall k | 0 <= k < |s| :: Rank(s[k].1) == k;
    SelectedRanked(Rank, s, 0);
    var r := ProvisionOpts(n);
    assert s[1..][1..] == s[2..];
    assert Selected(s[1..]) == [s[1].1] + Selected(s[2..]);
    assert r == [s[0].1] + Selected(s[1..]);
    assert forall k | 0 <= k < |s| && s[k].1.Authtoken? :: k == 1 && s[k].1.token != "";
  }

  /** Metadata, region and server are sent exactly when non-empty and the heartbeat
      interval and tolerance exactly when non-zero. */
  lemma ProvisionOptsPresence(n: Ngrok)
    ensures SessionMetadata(n.metadata) in ProvisionOpts(n) <==> n.metadata != ""
    ensures Region(n.region) in ProvisionOpts(n) <==> n.region != ""
    ensures Server(n.server) in ProvisionOpts(n) <==> n.server != ""
    ensures HeartbeatInterval(n.heartbeatInterval) in ProvisionOpts(n) <==> n.heartbeatInterval != 0
    ensures HeartbeatTolerance(n.heartbeatTolerance) in ProvisionOpts(n) <==> n.heartbeatTolerance != 0
  {
    var s := Slots(n);
    assert s[2].1 == SessionMetadata(n.metadata) && s[3].1 == Region(n.region) && s[4].1 == Server(n.server);
    assert s[5].1 == HeartbeatInterval(n.heartbeatInterval) && s[6].1 == HeartbeatTolerance(n.heartbeatTolerance);
  }
}
