/** The `tcp` tunnel (tcp.go), the default tunnel: a TCP endpoint with an optional
    remote address, metadata and CIDR allow and deny lists. */
module TcpTunnel {
  import opened Common
  import opened Sdk

  /** The CIDR lists distinguish a nil slice (`None`) from a present one. */
  datatype Tcp = Tcp(
    remoteAddr: string,
    metadata: string,
    allowCidr: Option<seq<string>>,
    denyCidr: Option<seq<string>>
  )

  const NoTcp := Tcp("", "", None, None)

  predicate IsSingle(name: string) {
    name in {"metadata", "remote_addr"}
  }

  predicate IsList(name: string) {
    name in {"allow", "deny"}
  }

  /** A block line the parser accepts: a known subdirective with its arity and no block
      of its own. */
  predicate LineOk(l: Line) {
    && (IsSingle(l.name) || IsList(l.name))
    && (IsSingle(l.name) ==> |l.args| == 1)
    && (IsList(l.name) ==> |l.args| > 0)
    && l.block.NoBlock?
  }

  /** The error reported for a rejected line: every rejection is an argument error, a
      block being read as a subdirective named `{`. */
  function LineError(l: Line): Error {
    if !(IsSingle(l.name) || IsList(l.name)) then WrongArgs(l.name)
    else if (IsSingle(l.name) && |l.args| != 1) || (IsList(l.name) && l.args == []) then WrongArgs(l.name)
    else WrongArgs("{")
  }

  /** Appends to a CIDR list, creating it when it is nil. */
  function AppendCidrs(list: Option<seq<string>>, args: seq<string>): Option<seq<string>> {
    Some(list.GetOr([]) + args)
  }

  /** A list after `args` were appended to it by zero or more `allow`/`deny` lines: nil
      stays nil when nothing was appended. */
  function Accumulated(list: Option<seq<string>>, args: seq<string>): Option<seq<string>> {
    if args == [] then list else Some(list.GetOr([]) + args)
  }

  /** Appending in two steps is appending the concatenation. */
  lemma AccumulatedAppend(list: Option<seq<string>>, a: seq<string>, b: seq<string>)
    ensures Accumulated(Accumulated(list, a), b) == Accumulated(list, a + b)
  {
    if a == [] {
      assert a + b == b;
    } else if b == [] {
      assert a + b == a;
    } else {
      assert list.GetOr([]) + a + b == list.GetOr([]) + (a + b);
    }
  }

  /** One subdirective of the `tcp` block. */
  function Step(t: Tcp, l: Line): Result<Tcp> {
    var t1 :- match l.name
      case "metadata" => var v :- OneArg(l); Ok(t.(metadata := v))
      case "remote_addr" => var v :- OneArg(l); Ok(t.(remoteAddr := v))
      case "allow" => if l.args == [] then Err(WrongArgs(l.name)) else Ok(t.(allowCidr := AppendCidrs(t.allowCidr, l.args)))
      case "deny" => if l.args == [] then Err(WrongArgs(l.name)) else Ok(t.(denyCidr := AppendCidrs(t.denyCidr, l.args)))
      case _ => Err(WrongArgs(l.name));
    if l.block.Braces? then Err(WrongArgs("{")) else Ok(t1)
  }

  /** The subdirective loop of `UnmarshalCaddyfile`: every line must be accepted; the
      last `metadata` and `remote_addr` win; `allow`/`deny` arguments accumulate in
      occurrence order, and a list stays nil when no line names it. */
  function ParseLines(t: Tcp, lines: seq<Line>): (r: Result<Tcp>)
    ensures r.Ok? <==> forall i | 0 <= i < |lines| :: LineOk(lines[i])
    ensures r.Err? <==> FirstBad(LineOk, lines) < |lines|
    ensures r.Err? ==> r.error == LineError(lines[FirstBad(LineOk, lines)])
    decreases lines
  {
    if lines == [] then Ok(t)
    else
      var t1 :- Step(t, lines[0]);
      ParseLines(t1, lines[1..])
  }

  /** An accepted subdirective sets the single value it names or appends to the list
      it names; everything else is kept. */
  lemma StepFields(t: Tcp, l: Line)
    requires Step(t, l).Ok?
    ensures Step(t, l).value.metadata == if l.name == "metadata" && |l.args| > 0 then l.args[0] else t.metadata
    ensures Step(t, l).value.remoteAddr == if l.name == "remote_addr" && |l.args| > 0 then l.args[0] else t.remoteAddr
    ensures Step(t, l).value.allowCidr == Accumulated(t.allowCidr, if l.name == "allow" then l.args else [])
    ensures Step(t, l).value.denyCidr == Accumulated(t.denyCidr, if l.name == "deny" then l.args else [])
  {
  }

  /** An accepted block is its first subdirective followed by the rest. */
  lemma ParseLinesUnfold(t: Tcp, lines: seq<Line>)
    requires lines != [] && ParseLines(t, lines).Ok?
    ensures Step(t, lines[0]).Ok?
    ensures ParseLines(Step(t, lines[0]).value, lines[1..]) == ParseLines(t, lines)
  {
  }

  /** In an accepted block the last `metadata` and `remote_addr` win; `allow`/`deny`
      arguments accumulate in occurrence order, and a list stays nil when no line
      names it. */
  lemma {:induction false} ParsedFields(t: Tcp, lines: seq<Line>)
    requires ParseLines(t, lines).Ok?
    ensures ParseLines(t, lines).value.metadata == LastArg(lines, "metadata").GetOr(t.metadata)
    ensures ParseLines(t, lines).value.remoteAddr == LastArg(lines, "remote_addr").GetOr(t.remoteAddr)
    ensures ParseLines(t, lines).value.allowCidr == Accumulated(t.allowCidr, ArgsOf(lines, "allow"))
    ensures ParseLines(t, lines).value.denyCidr == Accumulated(t.denyCidr, ArgsOf(lines, "deny"))
    decreases lines
  {
    if lines == [] {
      assert ParseLines(t, lines).value == t;
    } else {
      ParseLinesUnfold(t, lines);
      var t1 := Step(t, lines[0]).value;
      StepFields(t, lines[0]);
      ParsedFields(t1, lines[1..]);
      LastArgStep(lines, "metadata", t.metadata, t1.metadata);
      LastArgStep(lines, "remote_addr", t.remoteAddr, t1.remoteAddr);
      AccumulatedAppend(t.allowCidr, if lines[0].name == "allow" then lines[0].args else [], ArgsOf(lines[1..], "allow"));
      AccumulatedAppend(t.denyCidr, if lines[0].name == "deny" then lines[0].args else [], ArgsOf(lines[1..], "deny"));
    }
  }

  /** `UnmarshalCaddyfile`: no argument on the `tcp` line, then its block. */
  function Parse(args: seq<string>, block: Block): (r: Result<Tcp>)
    ensures args != [] ==> r == Err(WrongArgs("tcp"))
    ensures args == [] ==> r == ParseLines(NoTcp, if block.Braces? then block.lines else [])
  {
    if args != [] then Err(WrongArgs("tcp"))
    else ParseLines(NoTcp, if block.Braces? then block.lines else [])
  }

  /** `doReplace`: placeholders are replaced in the metadata and in every CIDR; both
      CIDR lists come out present, a nil list as an empty one; the remote address is
      left as written. */
  function Replace(env: Env, t: Tcp): (r: Tcp)
    ensures r.remoteAddr == t.remoteAddr
    ensures r.metadata == env.replace(t.metadata)
    ensures r.allowCidr.Some? && r.denyCidr.Some?
    ensures |r.allowCidr.value| == |t.allowCidr.GetOr([])| && |r.denyCidr.value| == |t.denyCidr.GetOr([])|
    ensures forall i | 0 <= i < |t.allowCidr.GetOr([])| :: r.allowCidr.value[i] == env.replace(t.allowCidr.GetOr([])[i])
    ensures forall i | 0 <= i < |t.denyCidr.GetOr([])| :: r.denyCidr.value[i] == env.replace(t.denyCidr.GetOr([])[i])
  {
    Tcp(t.remoteAddr, env.replace(t.metadata),
        Some(MapStrings(env.replace, t.allowCidr.GetOr([]))),
        Some(MapStrings(env.replace, t.denyCidr.GetOr([]))))
  }

  /** The fixed position of each option kind in the tcp option list. */
  function Rank(o: EndpointOpt): int {
    match o
    case RemoteAddr(_) => 0
    case Metadata(_) => 1
    case AllowCidr(_) => 2
    case DenyCidr(_) => 3
    case _ => 4
  }

  /** Each option with the condition under which `provisionOpts` emits it. */
  function Slots(t: Tcp): seq<(bool, EndpointOpt)> {
    [ (true, RemoteAddr(t.remoteAddr)),
      (t.metadata != "", Metadata(t.metadata)),
      (t.allowCidr.Some?, AllowCidr(t.allowCidr.GetOr([]))),
      (t.denyCidr.Some?, DenyCidr(t.denyCidr.GetOr([]))) ]
  }

  /** `provisionOpts`: it cannot fail. */
  function ProvisionOpts(t: Tcp): (r: seq<EndpointOpt>)
    ensures 1 <= |r| <= 4
  {
    Selected(Slots(t))
  }

  /** The remote address always comes first, even when empty; metadata follows exactly
      when non-empty, untrimmed; each CIDR list is emitted exactly when present, even
      when empty; the order is fixed. */
  lemma ProvisionOptsShape(t: Tcp)
    ensures ProvisionOpts(t)[0] == RemoteAddr(t.remoteAddr)
    ensures InRankOrder(Rank, ProvisionOpts(t))
    ensures Metadata(t.metadata) in ProvisionOpts(t) <==> t.metadata != ""
    ensures AllowCidr(t.allowCidr.GetOr([])) in ProvisionOpts(t) <==> t.allowCidr.Some?
    ensures DenyCidr(t.denyCidr.GetOr([])) in ProvisionOpts(t) <==> t.denyCidr.Some?
    ensures forall o | o in ProvisionOpts(t) ::
              o.RemoteAddr? || o.Metadata? || o.AllowCidr? || o.DenyCidr?
  {
    var s := Slots(t);
    assert forall k | 0 <= k < |s| :: Rank(s[k].1) == k;
    SelectedRanked(Rank, s, 0);
    assert s[0].1 == RemoteAddr(t.remoteAddr) && s[1].1 == Metadata(t.metadata);
    assert s[2].1 == AllowCidr(t.allowCidr.GetOr([])) && s[3].1 == DenyCidr(t.denyCidr.GetOr([]));
    var r := ProvisionOpts(t);
    assert s[0].1 in r;
    var i :| 0 <= i < |r| && r[i] == RemoteAddr(t.remoteAddr);
    assert 0 <= Rank(r[0]);
    assert i == 0;
  }

  /** `Provision`: after replacement the options are exactly the remote address, the
      replaced metadata when it is non-empty, and both replaced CIDR lists. */
  function Provision(env: Env, t: Tcp): (r: seq<EndpointOpt>)
    ensures r == [RemoteAddr(t.remoteAddr)]
                 + (if env.replace(t.metadata) != "" then [Metadata(env.replace(t.metadata))] else [])
                 + [AllowCidr(MapStrings(env.replace, t.allowCidr.GetOr([]))),
                    DenyCidr(MapStrings(env.replace, t.denyCidr.GetOr([])))]
  {
    var s := Slots(Replace(env, t));
    assert s[1..][1..] == s[2..] && s[2..][1..] == s[3..] && s[3..][1..] == [];
    assert Selected(s[3..]) == [s[3].1];
    assert Selected(s[2..]) == [s[2].1] + Selected(s[3..]);
    assert Selected(s[1..]) == (if s[1].0 then [s[1].1] else []) + Selected(s[2..]);
    assert Selected(s) == [s[0].1] + Selected(s[1..]);
    ProvisionOpts(Replace(env, t))
  }
}
