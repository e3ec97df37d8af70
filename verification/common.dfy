/** Shared vocabulary of the model: failure-compatible results, the error kinds the
    plugin reports, the lexed Caddyfile line, the outside collaborators (placeholder
    replacer, number and duration parsers, file reader) and the few string
    functions of Go's `strings` package the plugin relies on. */
module Common {

  datatype Option<+T> = None | Some(value: T) {
    function GetOr(default: T): T {
      match this
      case Some(v) => v
      case None => default
    }
  }

  /** The error kinds the plugin returns; each is fatal to the configuration load. */
  datatype Error =
    | WrongArgs(directive: string)            // Dispenser.ArgErr
    | Unrecognized(subdirective: string)      // "unrecognized subdirective ..."
    | DefaultHeaderUnsupported                // header field starting with `?`
    | CombinedForms(directive: string)        // inline arguments and a block in one directive
    | PasswordTooShort                        // basic_auth password under eight bytes
    | BadBool(directive: string, value: string)
    | BadDuration(directive: string, value: string)
    | UnknownTunnelType(name: string)
    | BadScheme(value: string)
    | BlankField(field: string)
    | CertWithoutKey
    | KeyWithoutCert
    | ReadFailed(path: string)
    | ReplaceFailed(field: string)
    | OptionDecode(option: string)            // a stored option fails to decode when loaded
    | MissingTunnel
    | TunnelEncode(kind: string)              // a parsed tunnel that does not encode as JSON

  datatype Result<+T> = Ok(value: T) | Err(error: Error) {
    predicate IsFailure() {
      Err?
    }

    function PropagateFailure<U>(): Result<U>
      requires Err?
    {
      Err(error)
    }

    function Extract(): T
      requires Ok?
    {
      value
    }
  }

  type byte = x: int | 0 <= x < 256

  /** One lexed Caddyfile line: the directive token, the argument tokens that follow
      it on the same line, and the block opened at the end of the line, if any.
      An argument is never the opening brace of a block. */
  datatype Line = Line(name: string, args: seq<string>, block: Block)

  /** The block a line opens: none, or the lines between its braces. */
  datatype Block = NoBlock | Braces(lines: seq<Line>)

  function BlockLines(l: Line): seq<Line> {
    if l.block.Braces? then l.block.lines else []
  }

  /** The number of tokens on the top level of `lines`: one per directive and one per
      argument. It decreases when a line's unread arguments are handed back to the
      enclosing loop. */
  function Weight(lines: seq<Line>): nat {
    if lines == [] then 0 else 1 + |lines[0].args| + Weight(lines[1..])
  }

  /** What the enclosing loop reads after a handler consumed the first `k` arguments of
      `l` and stopped: the next argument, taken as a directive with the arguments after
      it and the line's block. */
  function Leftover(l: Line, k: nat): (r: Line)
    requires k < |l.args|
    ensures r.name == l.args[k] && r.block == l.block
    ensures |r.args| + k + 1 == |l.args| && forall i | 0 <= i < |r.args| :: r.args[i] == l.args[k + 1 + i]
  {
    Line(l.args[k], l.args[k + 1..], l.block)
  }

  /** Handing leftover arguments back lowers the weight. */
  lemma LeftoverLighter(l: Line, k: nat, rest: seq<Line>)
    requires k < |l.args|
    ensures Weight([Leftover(l, k)] + rest) < Weight([l] + rest)
  {
    assert ([Leftover(l, k)] + rest)[1..] == rest;
    assert ([l] + rest)[1..] == rest;
  }

  /** The collaborators the plugin calls but does not implement. */
  datatype Env = Env(
    replace: string -> string,                // caddy.Replacer.ReplaceKnown(s, "")
    replaceOrErr: string -> Option<string>,   // caddy.Replacer.ReplaceOrErr(s, false, true)
    contextReplace: Option<string -> string>, // the replacer stored in the context, if any
    isFloat: string -> bool,                  // strconv.ParseFloat(s, 64) succeeds
    parseDuration: string -> Option<int>,     // caddy.ParseDuration, in nanoseconds
    readFile: string -> Option<seq<byte>>     // os.ReadFile
  )

  /** `order` lists every element of `keys` exactly once: one admissible order in which
      Go's `range` visits the keys of a map. */
  ghost predicate IsEnumeration<K>(order: seq<K>, keys: set<K>) {
    && (forall i | 0 <= i < |order| :: order[i] in keys)
    && (forall k | k in keys :: k in order)
    && (forall i, j | 0 <= i < j < |order| :: order[i] != order[j])
  }

  /** An enumeration without its first entry enumerates the other keys. */
  lemma EnumerationTail<K>(order: seq<K>, keys: set<K>)
    requires IsEnumeration(order, keys) && order != []
    ensures IsEnumeration(order[1..], keys - {order[0]})
  {
    var rest := keys - {order[0]};
    forall i | 0 <= i < |order[1..]|
      ensures order[1..][i] in rest
    {
      assert order[1..][i] == order[i + 1];
    }
    forall k | k in rest
      ensures k in order[1..]
    {
      var j :| 0 <= j < |order| && order[j] == k;
      assert j != 0;
      assert order[1..][j - 1] == k;
    }
  }

  /** An enumeration has exactly one entry per key. */
  lemma {:induction false} EnumerationLength<K>(order: seq<K>, keys: set<K>)
    requires IsEnumeration(order, keys)
    ensures |order| == |keys|
  {
    if order != [] {
      EnumerationTail(order, keys);
      EnumerationLength(order[1..], keys - {order[0]});
    }
  }

  /** The white-space characters outside the range U+2000..U+200A. */
  const SpaceChars: set<char> :=
    {'\t', '\n', '\U{000B}', '\U{000C}', '\r', ' ', '\U{0085}', '\U{00A0}', '\U{1680}',
     '\U{2028}', '\U{2029}', '\U{202F}', '\U{205F}', '\U{3000}'}

  /** Go's `unicode.IsSpace`. */
  predicate IsSpace(c: char) {
    c in SpaceChars || '\U{2000}' <= c <= '\U{200A}'
  }

  function TrimLeftSpace(s: string): (r: string)
    ensures |r| <= |s| && r == s[|s| - |r|..]
    ensures |r| > 0 ==> !IsSpace(r[0])
    ensures forall i | 0 <= i < |s| - |r| :: IsSpace(s[i])
  {
    if |s| > 0 && IsSpace(s[0]) then TrimLeftSpace(s[1..]) else s
  }

  function TrimRightSpace(s: string): (r: string)
    ensures |r| <= |s| && r == s[..|r|]
    ensures |r| > 0 ==> !IsSpace(r[|r| - 1])
    ensures forall i | |r| <= i < |s| :: IsSpace(s[i])
  {
    if |s| > 0 && IsSpace(s[|s| - 1]) then TrimRightSpace(s[..|s| - 1]) else s
  }

  /** Go's `strings.TrimSpace`. */
  function TrimSpace(s: string): string {
    TrimRightSpace(TrimLeftSpace(s))
  }

  /** Every character of `s` is white space. */
  predicate Blank(s: string) {
    s == [] || (IsSpace(s[0]) && Blank(s[1..]))
  }

  /** `Blank` is Go's `strings.TrimSpace(s) == ""`. */
  lemma {:induction false} BlankIffTrimmedEmpty(s: string)
    ensures Blank(s) <==> TrimSpace(s) == ""
  {
    if s != [] && IsSpace(s[0]) {
      BlankIffTrimmedEmpty(s[1..]);
      assert TrimLeftSpace(s) == TrimLeftSpace(s[1..]);
      TrimRightOfTrimmedLeft(s[1..]);
      TrimRightOfTrimmedLeft(s);
    } else {
      TrimRightOfTrimmedLeft(s);
    }
  }

  /** Trimming the right end of a left-trimmed string leaves nothing only when the
      left trim already did. */
  lemma TrimRightOfTrimmedLeft(s: string)
    ensures TrimSpace(s) == "" <==> TrimLeftSpace(s) == ""
  {
    var l := TrimLeftSpace(s);
    if l != [] {
      assert !IsSpace(l[0]);
      assert |TrimRightSpace(l)| > 0;
    }
  }

  /** Go's `strings.ToLower`, on the ASCII letters. */
  function ToLowerAscii(s: string): (r: string)
    ensures |r| == |s|
    ensures forall i | 0 <= i < |s| :: r[i] == LowerChar(s[i])
  {
    if s == [] then [] else [LowerChar(s[0])] + ToLowerAscii(s[1..])
  }

  function LowerChar(c: char): char {
    if 'A' <= c <= 'Z' then (c as int + 32) as char else c
  }

  /** Go's `strings.HasPrefix(s, string(c))`. */
  predicate StartsWith(s: string, c: char) {
    |s| > 0 && s[0] == c
  }

  /** Go's `strings.TrimSuffix(s, ":")`: removes at most one trailing colon. */
  function TrimColonSuffix(s: string): (r: string)
    ensures |s| > 0 && s[|s| - 1] == ':' ==> r + ":" == s
    ensures !(|s| > 0 && s[|s| - 1] == ':') ==> r == s
  {
    if |s| > 0 && s[|s| - 1] == ':' then s[..|s| - 1] else s
  }

  /** Go's `len(s)`: the number of bytes of the UTF-8 encoding of `s`. */
  function Utf8Length(s: string): (n: nat)
    ensures |s| <= n <= 4 * |s|
  {
    if s == [] then 0
    else
      var c := s[0] as int;
      (if c < 0x80 then 1 else if c < 0x800 then 2 else if c < 0x10000 then 3 else 4)
      + Utf8Length(s[1..])
  }

  /** `strconv.ParseBool` succeeds on exactly these literals. */
  predicate IsBoolLiteral(s: string) {
    s in {"1", "t", "T", "TRUE", "true", "True", "0", "f", "F", "FALSE", "false", "False"}
  }

  /** Applies `f` to every element, keeping length and order. */
  function MapStrings(f: string -> string, s: seq<string>): (r: seq<string>)
    ensures |r| == |s|
    ensures forall i | 0 <= i < |s| :: r[i] == f(s[i])
  {
    if s == [] then [] else [f(s[0])] + MapStrings(f, s[1..])
  }

  /** The arguments of every line called `name`, concatenated in occurrence order. */
  function ArgsOf(lines: seq<Line>, name: string): seq<string> {
    if lines == [] then []
    else (if lines[0].name == name then lines[0].args else []) + ArgsOf(lines[1..], name)
  }

  /** The first argument of the last line called `name`, if such a line exists and has one. */
  function LastArg(lines: seq<Line>, name: string): Option<string> {
    if lines == [] then None
    else
      match LastArg(lines[1..], name)
      case Some(v) => Some(v)
      case None =>
        if lines[0].name == name && |lines[0].args| > 0 then Some(lines[0].args[0]) else None
  }

  /** Reading the last `name` over `lines` from default `d` is reading it over the tail
      from what the head line leaves behind. */
  lemma LastArgStep(lines: seq<Line>, name: string, d: string, d1: string)
    requires lines != []
    requires d1 == if lines[0].name == name && |lines[0].args| > 0 then lines[0].args[0] else d
    ensures LastArg(lines[1..], name).GetOr(d1) == LastArg(lines, name).GetOr(d)
  {
  }

  /** Accumulating the arguments of `name` over `lines` onto `acc` is accumulating them
      over the tail onto what the head line leaves behind. */
  lemma ArgsOfStep(lines: seq<Line>, name: string, acc: seq<string>, acc1: seq<string>)
    requires lines != []
    requires acc1 == acc + (if lines[0].name == name then lines[0].args else [])
    ensures acc1 + ArgsOf(lines[1..], name) == acc + ArgsOf(lines, name)
  {
    AppendTwice(acc, if lines[0].name == name then lines[0].args else [], ArgsOf(lines[1..], name));
  }

  /** The elements of `a + b`: those of `a`, then those of `b`. */
  lemma ConcatIndex<T>(a: seq<T>, b: seq<T>)
    ensures forall i | 0 <= i < |a| :: (a + b)[i] == a[i]
    ensures forall i | 0 <= i < |b| :: (a + b)[|a| + i] == b[i]
  {
  }

  /** Appending two pieces one after the other is appending their concatenation. */
  lemma AppendTwice<T>(a: seq<T>, b: seq<T>, c: seq<T>)
    ensures a + b + c == a + (b + c)
  {
  }

  /** The index of the first element `ok` rejects, or `|s|` when it accepts them all. */
  function FirstBad<T>(ok: T -> bool, s: seq<T>): (n: nat)
    ensures n <= |s|
    ensures forall j | 0 <= j < n :: ok(s[j])
    ensures n < |s| ==> !ok(s[n])
  {
    if s == [] || !ok(s[0]) then 0 else 1 + FirstBad(ok, s[1..])
  }

  /** The last line called `name`, if any. */
  function LastLine(lines: seq<Line>, name: string): (r: Option<Line>)
    ensures r.Some? ==> r.value in lines && r.value.name == name
    ensures r.None? <==> forall i | 0 <= i < |lines| :: lines[i].name != name
  {
    if lines == [] then None
    else
      match LastLine(lines[1..], name)
      case Some(l) => Some(l)
      case None => if lines[0].name == name then Some(lines[0]) else None
  }

  /** The lines as the enclosing directive loop reads them when the handler of a line
      `l` reads only its first `consumed(l)` arguments: the line keeps its arguments but
      not its block, and the next unread argument becomes a directive of its own,
      carrying the remaining arguments and the block. */
  function Expand(consumed: Line -> nat, lines: seq<Line>): (r: seq<Line>)
    ensures |r| >= |lines|
    decreases Weight(lines)
  {
    if lines == [] then []
    else
      var l := lines[0];
      if consumed(l) < |l.args| then
        LeftoverLighter(l, consumed(l), lines[1..]);
        assert [l] + lines[1..] == lines;
        [Line(l.name, l.args, NoBlock)] + Expand(consumed, [Leftover(l, consumed(l))] + lines[1..])
      else
        [l] + Expand(consumed, lines[1..])
  }

  /** Lines whose handlers read all their arguments are read as written. */
  lemma {:induction false} ExpandPlain(consumed: Line -> nat, lines: seq<Line>)
    requires forall i | 0 <= i < |lines| :: consumed(lines[i]) >= |lines[i].args|
    ensures Expand(consumed, lines) == lines
    decreases lines
  {
    if lines != [] {
      ExpandPlain(consumed, lines[1..]);
    }
  }

  /** Every element of `s` ranks strictly below every later one: a fixed emission
      order in which each rank occurs at most once. */
  ghost predicate InRankOrder<T>(rank: T -> int, s: seq<T>) {
    forall i, j | 0 <= i < j < |s| :: rank(s[i]) < rank(s[j])
  }

  /** Two ranked lists stay ranked when joined if every rank of the first lies below
      `k` and every rank of the second at or above it. */
  lemma RankedConcat<T>(rank: T -> int, a: seq<T>, b: seq<T>, k: int)
    requires InRankOrder(rank, a) && InRankOrder(rank, b)
    requires forall i | 0 <= i < |a| :: rank(a[i]) < k
    requires forall j | 0 <= j < |b| :: k <= rank(b[j])
    ensures InRankOrder(rank, a + b)
  {
    forall i, j | 0 <= i < j < |a + b| ensures rank((a + b)[i]) < rank((a + b)[j]) {
      if i < |a| && j >= |a| {
        assert rank(a[i]) < k <= rank(b[j - |a|]);
      }
    }
  }

  /** The values of the switched-on slots, in slot order: how the plugin appends an
      option only when its condition holds, one condition after another. */
  function Selected<T>(slots: seq<(bool, T)>): (r: seq<T>)
    ensures |r| <= |slots|
    ensures forall k | 0 <= k < |slots| && slots[k].0 :: slots[k].1 in r
    ensures forall x | x in r :: exists k | 0 <= k < |slots| :: slots[k].0 && slots[k].1 == x
  {
    if slots == [] then []
    else (if slots[0].0 then [slots[0].1] else []) + Selected(slots[1..])
  }

  /** A slot value that no other slot carries is selected exactly when its slot is on. */
  lemma SelectedHas<T>(slots: seq<(bool, T)>, k: nat)
    requires k < |slots|
    requires forall j | 0 <= j < |slots| && j != k :: slots[j].1 != slots[k].1
    ensures slots[k].1 in Selected(slots) <==> slots[k].0
  {
    if slots[k].1 in Selected(slots) {
      var j :| 0 <= j < |slots| && slots[j].0 && slots[j].1 == slots[k].1;
    }
  }

  /** When only slot `k` carries a value of some kind, a value of that kind is selected
      exactly when slot `k` is on. */
  lemma SelectedHasKind<T>(slots: seq<(bool, T)>, k: nat, kind: T -> bool)
    requires k < |slots| && kind(slots[k].1)
    requires forall j | 0 <= j < |slots| && j != k :: !kind(slots[j].1)
    ensures (exists x | x in Selected(slots) :: kind(x)) <==> slots[k].0
  {
    if exists x | x in Selected(slots) :: kind(x) {
      var x :| x in Selected(slots) && kind(x);
      var j :| 0 <= j < |slots| && slots[j].0 && slots[j].1 == x;
    }
    if slots[k].0 {
      assert slots[k].1 in Selected(slots);
    }
  }

  /** When the slot at position `k` has rank `lo + k`, the selected values come out in
      strictly increasing rank. */
  lemma {:induction false} SelectedRanked<T>(rank: T -> int, slots: seq<(bool, T)>, lo: int)
    requires forall k | 0 <= k < |slots| :: rank(slots[k].1) == lo + k
    ensures InRankOrder(rank, Selected(slots))
    ensures forall i | 0 <= i < |Selected(slots)| :: lo <= rank(Selected(slots)[i]) < lo + |slots|
  {
    if slots != [] {
      SelectedRanked(rank, slots[1..], lo + 1);
      var head := if slots[0].0 then [slots[0].1] else [];
      RankedConcat(rank, head, Selected(slots[1..]), lo + 1);
    }
  }

  /** `Dispenser.AllArgs(&v)`: exactly one argument. */
  function OneArg(l: Line): (r: Result<string>)
    ensures r.Ok? <==> |l.args| == 1
    ensures r.Ok? ==> r.value == l.args[0]
  {
    if |l.args| == 1 then Ok(l.args[0]) else Err(WrongArgs(l.name))
  }
}
