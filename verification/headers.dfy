/** Header rewriting for HTTP endpoints: the `header` directive in its inline and block
    forms, the placeholder pass over the collected edits, and the request- and
    response-header options assembled from them. */
module Headers {
  import opened Common
  import opened Sdk

  /** The collected edits: headers to set (name to value) and headers to remove,
      in the order the remove operations were written. */
  datatype HeaderEdit = HeaderEdit(added: map<string, string>, removed: seq<string>)

  const NoEdits := HeaderEdit(map[], [])

  /** One header operation as written: the field token and its value. */
  datatype HeaderOp = HeaderOp(field: string, value: string)

  /** The header a set operation writes: the field without its `+` marker. */
  function SetName(field: string): string {
    if StartsWith(field, '+') then field[1..] else field
  }

  predicate IsRemove(op: HeaderOp) {
    StartsWith(op.field, '-')
  }

  predicate IsDefault(op: HeaderOp) {
    StartsWith(op.field, '?')
  }

  /** A `+` field or a bare field sets a header, a `-` field removes one, a `?` field
      (set only when absent) is not supported by ngrok. */
  function ApplyHeaderOp(h: HeaderEdit, op: HeaderOp): (r: Result<HeaderEdit>)
    ensures r.Err? <==> IsDefault(op)
    ensures r.Err? ==> r.error == DefaultHeaderUnsupported
    ensures IsRemove(op) ==> r == Ok(HeaderEdit(h.added, h.removed + [op.field[1..]]))
    ensures r.Ok? && !IsRemove(op) ==>
              && r.value.removed == h.removed
              && r.value.added.Keys == h.added.Keys + {SetName(op.field)}
              && r.value.added[SetName(op.field)] == op.value
              && forall k | k in h.added && k != SetName(op.field) :: r.value.added[k] == h.added[k]
  {
    if StartsWith(op.field, '+') then Ok(h.(added := h.added[op.field[1..] := op.value]))
    else if StartsWith(op.field, '-') then Ok(h.(removed := h.removed + [op.field[1..]]))
    else if StartsWith(op.field, '?') then Err(DefaultHeaderUnsupported)
    else Ok(h.(added := h.added[op.field := op.value]))
  }

  /** The value token of an operation: the one argument left, or "" when none is. */
  function ValueOf(rest: seq<string>): string {
    if |rest| > 0 then rest[0] else ""
  }

  /** Parses a sequence of `header` directives (the directive name itself is not
      inspected). */
  function ParseHeaders(h: HeaderEdit, lines: seq<Line>): (r: Result<HeaderEdit>)
    decreases lines
  {
    if lines == [] then Ok(h)
    else
      var h1 :- ParseHeaderDirective(h, lines[0]);
      ParseHeaders(h1, lines[1..])
  }

  /** One `header` directive: an inline `field [value]`, or a block of such lines, but
      not both. An empty block next to inline arguments is accepted, since the
      Dispenser never enters it. */
  function ParseHeaderDirective(h: HeaderEdit, l: Line): (r: Result<HeaderEdit>)
    decreases l, 1
    ensures |l.args| > 2 ==> r == Err(WrongArgs(l.name))
    ensures 0 < |l.args| <= 2 && BlockLines(l) != [] && !IsDefault(HeaderOp(l.args[0], ValueOf(l.args[1..])))
            ==> r == Err(CombinedForms(l.name))
  {
    if |l.args| > 2 then Err(WrongArgs(l.name))
    else if |l.args| > 0 then
      var h1 :- ApplyHeaderOp(h, HeaderOp(l.args[0], ValueOf(l.args[1..])));
      if BlockLines(l) != [] then Err(CombinedForms(l.name)) else Ok(h1)
    else ApplyBlockLines(h, BlockLines(l))
  }

  /** The lines of a header block. The field loses one trailing colon, as users often
      write `Name: value`. A block nested under a line is not a structure to the
      Dispenser: its braces are read as two more fields, `{` before and `}` after the
      nested lines. */
  function ApplyBlockLines(h: HeaderEdit, lines: seq<Line>): (r: Result<HeaderEdit>)
    decreases lines, 0
  {
    if lines == [] then Ok(h)
    else
      var h2 :- ApplyBlockLine(h, lines[0]);
      ApplyBlockLines(h2, lines[1..])
  }

  /** One line of a header block, with its nested block if it has one. */
  function ApplyBlockLine(h: HeaderEdit, l: Line): (r: Result<HeaderEdit>)
    decreases l, 1
  {
    var h1 :- if |l.args| > 1 then Err(WrongArgs(l.name))
              else ApplyHeaderOp(h, HeaderOp(TrimColonSuffix(l.name), ValueOf(l.args)));
    if l.block.NoBlock? then Ok(h1)
    else
      var a := ApplyHeaderOp(h1, HeaderOp("{", "")).value;
      var b :- ApplyBlockLines(a, l.block.lines);
      ApplyHeaderOp(b, HeaderOp("}", ""))
  }

  /** The header operations written in `lines`, in occurrence order, whether or not
      the lines are well-formed. */
  function HeaderOps(lines: seq<Line>): seq<HeaderOp>
    decreases lines
  {
    if lines == [] then []
    else DirectiveOps(lines[0]) + HeaderOps(lines[1..])
  }

  function DirectiveOps(l: Line): seq<HeaderOp>
    decreases l, 1
  {
    (if |l.args| > 0 then [HeaderOp(l.args[0], ValueOf(l.args[1..]))] else [])
    + BlockOps(BlockLines(l))
  }

  function BlockOps(lines: seq<Line>): seq<HeaderOp>
    decreases lines, 0
  {
    if lines == [] then [] else LineOps(lines[0]) + BlockOps(lines[1..])
  }

  /** The operations of one block line: its own field, then its nested block. */
  function LineOps(l: Line): seq<HeaderOp>
    decreases l, 1
  {
    [HeaderOp(TrimColonSuffix(l.name), ValueOf(l.args))]
    + (if l.block.NoBlock? then [] else NestedOps(l.block.lines))
  }

  /** A nested block read as fields: `{`, the nested lines, `}`. */
  function NestedOps(lines: seq<Line>): seq<HeaderOp>
    decreases lines, 1
  {
    [HeaderOp("{", "")] + BlockOps(lines) + [HeaderOp("}", "")]
  }

  /** Applies operations in order, stopping at the first failure. */
  function ApplyOps(h: HeaderEdit, ops: seq<HeaderOp>): (r: Result<HeaderEdit>)
    decreases ops
  {
    if ops == [] then Ok(h)
    else
      var h1 :- ApplyHeaderOp(h, ops[0]);
      ApplyOps(h1, ops[1..])
  }

  /** The names the remove operations of `ops` remove, in order. */
  function RemovedNames(ops: seq<HeaderOp>): seq<string> {
    if ops == [] then []
    else (if IsRemove(ops[0]) then [ops[0].field[1..]] else []) + RemovedNames(ops[1..])
  }

  /** The value the last set operation on header `k` writes, if any operation sets it. */
  function LastSet(ops: seq<HeaderOp>, k: string): Option<string> {
    if ops == [] then None
    else
      match LastSet(ops[1..], k)
      case Some(v) => Some(v)
      case None =>
        if !IsRemove(ops[0]) && !IsDefault(ops[0]) && SetName(ops[0].field) == k
        then Some(ops[0].value) else None
  }

  /** Applying operations fails exactly when one of them is a `?` operation. */
  lemma {:induction false} ApplyOpsOk(h: HeaderEdit, ops: seq<HeaderOp>)
    ensures ApplyOps(h, ops).Ok? <==> forall i | 0 <= i < |ops| :: !IsDefault(ops[i])
    decreases ops
  {
    if ops != [] {
      var r1 := ApplyHeaderOp(h, ops[0]);
      if r1.Ok? {
        ApplyOpsOk(r1.value, ops[1..]);
        assert forall i | 0 <= i < |ops[1..]| :: ops[1..][i] == ops[i + 1];
      }
    }
  }

  /** Successful operations are the first one followed by the rest. */
  lemma ApplyOpsUnfold(h: HeaderEdit, ops: seq<HeaderOp>)
    requires ops != [] && ApplyOps(h, ops).Ok?
    ensures ApplyHeaderOp(h, ops[0]).Ok?
    ensures ApplyOps(ApplyHeaderOp(h, ops[0]).value, ops[1..]) == ApplyOps(h, ops)
  {
  }

  /** Successful operations append the removed names in operation order. */
  lemma {:induction false} ApplyOpsRemoved(h: HeaderEdit, ops: seq<HeaderOp>)
    requires ApplyOps(h, ops).Ok?
    ensures ApplyOps(h, ops).value.removed == h.removed + RemovedNames(ops)
    decreases ops
  {
    if ops != [] {
      ApplyOpsUnfold(h, ops);
      var h1 := ApplyHeaderOp(h, ops[0]).value;
      ApplyOpsRemoved(h1, ops[1..]);
      var named := if IsRemove(ops[0]) then [ops[0].field[1..]] else [];
      assert h1.removed == h.removed + named;
      AppendTwice(h.removed, named, RemovedNames(ops[1..]));
    }
  }

  /** How one set-or-remove operation in front of `rest` changes what is known about
      header `k` after `rest`. */
  lemma AddedStep(h: HeaderEdit, op: HeaderOp, h1: HeaderEdit, r: HeaderEdit, rest: seq<HeaderOp>, k: string)
    requires ApplyHeaderOp(h, op) == Ok(h1)
    requires k in r.added <==> k in h1.added || LastSet(rest, k).Some?
    requires k in r.added ==> r.added[k] == if LastSet(rest, k).Some? then LastSet(rest, k).value else h1.added[k]
    ensures k in r.added <==> k in h.added || LastSet([op] + rest, k).Some?
    ensures k in r.added ==> r.added[k] == if LastSet([op] + rest, k).Some? then LastSet([op] + rest, k).value else h.added[k]
  {
    assert ([op] + rest)[0] == op && ([op] + rest)[1..] == rest;
  }

  /** After successful operations a header is set exactly when it was set before or
      some operation sets it, and then to the value of the last such operation. */
  lemma {:induction false} ApplyOpsAdded(h: HeaderEdit, ops: seq<HeaderOp>)
    requires ApplyOps(h, ops).Ok?
    ensures forall k ::
              && (k in ApplyOps(h, ops).value.added <==> k in h.added || LastSet(ops, k).Some?)
              && (k in ApplyOps(h, ops).value.added ==>
                    ApplyOps(h, ops).value.added[k] == if LastSet(ops, k).Some? then LastSet(ops, k).value else h.added[k])
    decreases ops
  {
    if ops != [] {
      ApplyOpsUnfold(h, ops);
      var h1 := ApplyHeaderOp(h, ops[0]).value;
      ApplyOpsAdded(h1, ops[1..]);
      var r := ApplyOps(h, ops).value;
      assert ops == [ops[0]] + ops[1..];
      forall k
        ensures k in r.added <==> k in h.added || LastSet(ops, k).Some?
        ensures k in r.added ==> r.added[k] == if LastSet(ops, k).Some? then LastSet(ops, k).value else h.added[k]
      {
        AddedStep(h, ops[0], h1, r, ops[1..], k);
      }
    }
  }

  /** Applying `a + b` is applying `a`, then `b`. */
  lemma {:induction false} ApplyOpsAppend(h: HeaderEdit, a: seq<HeaderOp>, b: seq<HeaderOp>)
    ensures ApplyOps(h, a + b) ==
              (match ApplyOps(h, a) case Err(e) => Err(e) case Ok(h1) => ApplyOps(h1, b))
    decreases a
  {
    if a != [] {
      assert (a + b)[0] == a[0];
      assert (a + b)[1..] == a[1..] + b;
      var r1 := ApplyHeaderOp(h, a[0]);
      if r1.Ok? {
        ApplyOpsAppend(r1.value, a[1..], b);
      }
    } else {
      assert a + b == b;
    }
  }

  /** Parsing header directives applies exactly the operations they write, in
      occurrence order: a successful parse equals applying `HeaderOps(lines)`. */
  lemma {:induction false} ParseAppliesOps(h: HeaderEdit, lines: seq<Line>)
    requires ParseHeaders(h, lines).Ok?
    ensures ApplyOps(h, HeaderOps(lines)) == ParseHeaders(h, lines)
    decreases lines
  {
    if lines != [] {
      var h1 := ParseHeaderDirective(h, lines[0]).value;
      DirectiveAppliesOps(h, lines[0]);
      ParseAppliesOps(h1, lines[1..]);
      ApplyOpsAppend(h, DirectiveOps(lines[0]), HeaderOps(lines[1..]));
    }
  }

  lemma {:induction false} DirectiveAppliesOps(h: HeaderEdit, l: Line)
    requires ParseHeaderDirective(h, l).Ok?
    ensures ApplyOps(h, DirectiveOps(l)) == ParseHeaderDirective(h, l)
    decreases l, 1
  {
    if |l.args| > 0 {
      var op := HeaderOp(l.args[0], ValueOf(l.args[1..]));
      assert BlockLines(l) == [];
      assert DirectiveOps(l) == [op];
      var r1 := ApplyHeaderOp(h, op);
      assert ApplyOps(h, [op]) == (match r1 case Err(e) => Err(e) case Ok(h1) => ApplyOps(h1, []));
    } else {
      assert DirectiveOps(l) == BlockOps(BlockLines(l));
      BlockAppliesOps(h, BlockLines(l));
    }
  }

  lemma {:induction false} BlockAppliesOps(h: HeaderEdit, lines: seq<Line>)
    requires ApplyBlockLines(h, lines).Ok?
    ensures ApplyOps(h, BlockOps(lines)) == ApplyBlockLines(h, lines)
    decreases lines, 0
  {
    if lines != [] {
      var h2 := ApplyBlockLine(h, lines[0]).value;
      LineAppliesOps(h, lines[0]);
      BlockAppliesOps(h2, lines[1..]);
      ApplyOpsAppend(h, LineOps(lines[0]), BlockOps(lines[1..]));
    }
  }

  lemma {:induction false} LineAppliesOps(h: HeaderEdit, l: Line)
    requires ApplyBlockLine(h, l).Ok?
    ensures ApplyOps(h, LineOps(l)) == ApplyBlockLine(h, l)
    decreases l, 1
  {
    var op := HeaderOp(TrimColonSuffix(l.name), ValueOf(l.args));
    var h1 := ApplyHeaderOp(h, op).value;
    var nested := if l.block.NoBlock? then [] else NestedOps(l.block.lines);
    assert LineOps(l) == [op] + nested;
    ApplyOpsAppend(h, [op], nested);
    SingleOp(h, op);
    if l.block.NoBlock? {
      assert ApplyOps(h1, nested) == Ok(h1);
    } else {
      var a := ApplyHeaderOp(h1, HeaderOp("{", "")).value;
      BlockAppliesOps(a, l.block.lines);
      NestedAppliesOps(h1, l.block.lines);
    }
  }

  lemma SingleOp(h: HeaderEdit, op: HeaderOp)
    ensures ApplyOps(h, [op]) == ApplyHeaderOp(h, op)
  {
    assert [op][1..] == [];
  }

  /** The braces of a nested block are applied around its lines. */
  lemma {:induction false} NestedAppliesOps(h1: HeaderEdit, inner: seq<Line>)
    requires ApplyBlockLines(ApplyHeaderOp(h1, HeaderOp("{", "")).value, inner).Ok?
    requires ApplyOps(ApplyHeaderOp(h1, HeaderOp("{", "")).value, BlockOps(inner))
             == ApplyBlockLines(ApplyHeaderOp(h1, HeaderOp("{", "")).value, inner)
    ensures ApplyOps(h1, NestedOps(inner)) ==
              ApplyHeaderOp(ApplyBlockLines(ApplyHeaderOp(h1, HeaderOp("{", "")).value, inner).value, HeaderOp("}", ""))
  {
    var open := HeaderOp("{", "");
    var close := HeaderOp("}", "");
    var a := ApplyHeaderOp(h1, open).value;
    var b := ApplyBlockLines(a, inner).value;
    assert NestedOps(inner) == [open] + (BlockOps(inner) + [close]);
    ApplyOpsAppend(h1, [open], BlockOps(inner) + [close]);
    SingleOp(h1, open);
    ApplyOpsAppend(a, BlockOps(inner), [close]);
    SingleOp(b, close);
  }

  /** The headers a sequence of directives removes, in occurrence order across inline
      and block forms alike. */
  lemma RemovedInOccurrenceOrder(lines: seq<Line>)
    requires ParseHeaders(NoEdits, lines).Ok?
    ensures ParseHeaders(NoEdits, lines).value.removed == RemovedNames(HeaderOps(lines))
    ensures forall k | k in ParseHeaders(NoEdits, lines).value.added ::
              LastSet(HeaderOps(lines), k) == Some(ParseHeaders(NoEdits, lines).value.added[k])
  {
    ParseAppliesOps(NoEdits, lines);
    ApplyOpsRemoved(NoEdits, HeaderOps(lines));
    ApplyOpsAdded(NoEdits, HeaderOps(lines));
  }

  /** Replaces placeholders in every key and value of `m`, visiting the keys in
      `order`; when two keys become equal, the one visited last wins. */
  function ReplaceAdded(f: string -> string, m: map<string, string>, order: seq<string>): (r: map<string, string>)
    requires forall i | 0 <= i < |order| :: order[i] in m
    ensures r.Keys == set i | 0 <= i < |order| :: f(order[i])
    ensures forall k' | k' in r :: exists i | 0 <= i < |order| :: f(order[i]) == k' && r[k'] == f(m[order[i]])
  {
    if order == [] then map[]
    else
      var last := order[|order| - 1];
      var r0 := ReplaceAdded(f, m, order[..|order| - 1]);
      assert forall i | 0 <= i < |order| - 1 :: order[..|order| - 1][i] == order[i];
      r0[f(last) := f(m[last])]
  }

  /** `doReplace`: placeholders are replaced in every added name and value and in every
      removed name. */
  function ReplaceHeaders(env: Env, h: HeaderEdit, order: seq<string>): (r: HeaderEdit)
    requires IsEnumeration(order, h.added.Keys)
    ensures |r.removed| == |h.removed|
    ensures forall i | 0 <= i < |h.removed| :: r.removed[i] == env.replace(h.removed[i])
    ensures r.added.Keys == set k | k in h.added :: env.replace(k)
    ensures forall k' | k' in r.added ::
              exists k | k in h.added :: env.replace(k) == k' && r.added[k'] == env.replace(h.added[k])
  {
    var added := ReplaceAdded(env.replace, h.added, order);
    assert added.Keys == set k | k in h.added :: env.replace(k) by {
      forall k' | k' in added ensures exists k | k in h.added :: env.replace(k) == k' {
        var i :| 0 <= i < |order| && env.replace(order[i]) == k';
        assert order[i] in h.added;
      }
    }
    HeaderEdit(added, MapStrings(env.replace, h.removed))
  }

  /** When the replacer keeps distinct names distinct, no added header is lost. */
  lemma ReplaceKeepsDistinctNames(env: Env, h: HeaderEdit, order: seq<string>)
    requires IsEnumeration(order, h.added.Keys)
    requires forall a, b | a in h.added && b in h.added && a != b :: env.replace(a) != env.replace(b)
    ensures forall k | k in h.added ::
              env.replace(k) in ReplaceHeaders(env, h, order).added
              && ReplaceHeaders(env, h, order).added[env.replace(k)] == env.replace(h.added[k])
  {
  }

  datatype Direction = Request | Response

  function AddOpt(dir: Direction, name: string, value: string): EndpointOpt {
    match dir
    case Request => RequestHeader(name, value)
    case Response => ResponseHeader(name, value)
  }

  function RemoveOpt(dir: Direction, name: string): EndpointOpt {
    match dir
    case Request => RemoveRequestHeader(name)
    case Response => RemoveResponseHeader(name)
  }

  /** `o` is a set or remove option of direction `dir`. */
  predicate OfDirection(dir: Direction, o: EndpointOpt) {
    match dir
    case Request => o.RequestHeader? || o.RemoveRequestHeader?
    case Response => o.ResponseHeader? || o.RemoveResponseHeader?
  }

  /** One set option per key of `order`, in that order. */
  function AddOpts(dir: Direction, m: map<string, string>, order: seq<string>): (r: seq<EndpointOpt>)
    requires forall i | 0 <= i < |order| :: order[i] in m
    ensures |r| == |order|
    ensures forall i | 0 <= i < |order| :: r[i] == AddOpt(dir, order[i], m[order[i]])
  {
    if order == [] then [] else [AddOpt(dir, order[0], m[order[0]])] + AddOpts(dir, m, order[1..])
  }

  /** One remove option per name, in order. */
  function RemoveOpts(dir: Direction, names: seq<string>): (r: seq<EndpointOpt>)
    ensures |r| == |names|
    ensures forall i | 0 <= i < |names| :: r[i] == RemoveOpt(dir, names[i])
  {
    if names == [] then [] else [RemoveOpt(dir, names[0])] + RemoveOpts(dir, names[1..])
  }

  /** The options for already-replaced edits: one set option per added header, visited
      in `order`, then one remove option per removed header, in order. */
  function AssembleHeaders(dir: Direction, h: HeaderEdit, order: seq<string>): (opts: seq<EndpointOpt>)
    requires IsEnumeration(order, h.added.Keys)
    ensures |order| == |h.added|
    ensures |opts| == |h.added| + |h.removed|
    ensures forall i | 0 <= i < |h.added| :: opts[i] == AddOpt(dir, order[i], h.added[order[i]])
    ensures forall i | 0 <= i < |h.removed| :: opts[|h.added| + i] == RemoveOpt(dir, h.removed[i])
  {
    EnumerationLength(order, h.added.Keys);
    var adds := AddOpts(dir, h.added, order);
    var rems := RemoveOpts(dir, h.removed);
    ConcatIndex(adds, rems);
    adds + rems
  }

  /** Every added header has its set option among the first `|h.added|` options. */
  lemma AssembledCoversAdded(dir: Direction, h: HeaderEdit, order: seq<string>)
    requires IsEnumeration(order, h.added.Keys)
    ensures forall k | k in h.added ::
              exists i | 0 <= i < |h.added| :: AssembleHeaders(dir, h, order)[i] == AddOpt(dir, k, h.added[k])
  {
    var opts := AssembleHeaders(dir, h, order);
    forall k | k in h.added
      ensures exists i | 0 <= i < |h.added| :: opts[i] == AddOpt(dir, k, h.added[k])
    {
      var i :| 0 <= i < |order| && order[i] == k;
      assert opts[i] == AddOpt(dir, order[i], h.added[order[i]]);
    }
  }

  /** Assembled options all belong to the one direction. */
  lemma AssembledDirection(dir: Direction, h: HeaderEdit, order: seq<string>)
    requires IsEnumeration(order, h.added.Keys)
    ensures forall i | 0 <= i < |AssembleHeaders(dir, h, order)| :: OfDirection(dir, AssembleHeaders(dir, h, order)[i])
  {
    var opts := AssembleHeaders(dir, h, order);
    forall i | 0 <= i < |opts| ensures OfDirection(dir, opts[i]) {
      if i < |h.added| {
        var k := order[i];
        assert opts[i] == AddOpt(dir, k, h.added[k]);
        OptsOfDirection(dir, k, h.added[k]);
      } else {
        var j := i - |h.added|;
        assert opts[|h.added| + j] == RemoveOpt(dir, h.removed[j]);
        OptsOfDirection(dir, h.removed[j], "");
      }
    }
  }

  lemma OptsOfDirection(dir: Direction, name: string, value: string)
    ensures OfDirection(dir, AddOpt(dir, name, value)) && OfDirection(dir, RemoveOpt(dir, name))
  {
  }

  /** `Provision` of request or response headers: replacement first, then the options
      built from the replaced edits, the set options in `emitOrder`. It cannot fail. */
  function ProvisionHeaders(dir: Direction, env: Env, h: HeaderEdit, replaceOrder: seq<string>, emitOrder: seq<string>)
    : (opts: seq<EndpointOpt>)
    requires IsEnumeration(replaceOrder, h.added.Keys)
    requires IsEnumeration(emitOrder, ReplaceHeaders(env, h, replaceOrder).added.Keys)
    ensures |opts| == |emitOrder| + |h.removed|
    ensures forall i | 0 <= i < |opts| :: OfDirection(dir, opts[i])
    ensures forall i | 0 <= i < |emitOrder| :: opts[i] == AddOpt(dir, emitOrder[i], ReplaceHeaders(env, h, replaceOrder).added[emitOrder[i]])
    ensures forall i | 0 <= i < |h.removed| :: opts[|emitOrder| + i] == RemoveOpt(dir, env.replace(h.removed[i]))
  {
    var replaced := ReplaceHeaders(env, h, replaceOrder);
    AssembledDirection(dir, replaced, emitOrder);
    AssembleHeaders(dir, replaced, emitOrder)
  }

  /** Every set option carries a configured header with placeholders replaced in both
      its name and its value. */
  lemma ProvisionedHeadersComeFromConfig(dir: Direction, env: Env, h: HeaderEdit, replaceOrder: seq<string>, emitOrder: seq<string>)
    requires IsEnumeration(replaceOrder, h.added.Keys)
    requires IsEnumeration(emitOrder, ReplaceHeaders(env, h, replaceOrder).added.Keys)
    ensures forall i | 0 <= i < |emitOrder| :: exists k | k in h.added ::
              ProvisionHeaders(dir, env, h, replaceOrder, emitOrder)[i] == AddOpt(dir, env.replace(k), env.replace(h.added[k]))
  {
    var replaced := ReplaceHeaders(env, h, replaceOrder);
    var opts := ProvisionHeaders(dir, env, h, replaceOrder, emitOrder);
    forall i | 0 <= i < |emitOrder|
      ensures exists k | k in h.added :: opts[i] == AddOpt(dir, env.replace(k), env.replace(h.added[k]))
    {
      var k' := emitOrder[i];
      var k :| k in h.added && env.replace(k) == k' && replaced.added[k'] == env.replace(h.added[k]);
      assert opts[i] == AddOpt(dir, env.replace(k), env.replace(h.added[k]));
    }
  }

  /** http_request_headers.go: only request-header options, as many as the replaced
      edits hold. */
  function ProvisionRequestHeaders(env: Env, h: HeaderEdit, replaceOrder: seq<string>, emitOrder: seq<string>)
    : (opts: seq<EndpointOpt>)
    requires IsEnumeration(replaceOrder, h.added.Keys)
    requires IsEnumeration(emitOrder, ReplaceHeaders(env, h, replaceOrder).added.Keys)
    ensures forall i | 0 <= i < |opts| :: opts[i].RequestHeader? || opts[i].RemoveRequestHeader?
    ensures |opts| == |emitOrder| + |h.removed|
    ensures forall i | 0 <= i < |h.removed| ::
              opts[|emitOrder| + i] == RemoveRequestHeader(env.replace(h.removed[i]))
  {
    ProvisionHeaders(Request, env, h, replaceOrder, emitOrder)
  }

  /** http_response_headers.go: only response-header options, as many as the replaced
      edits hold. */
  function ProvisionResponseHeaders(env: Env, h: HeaderEdit, replaceOrder: seq<string>, emitOrder: seq<string>)
    : (opts: seq<EndpointOpt>)
    requires IsEnumeration(replaceOrder, h.added.Keys)
    requires IsEnumeration(emitOrder, ReplaceHeaders(env, h, replaceOrder).added.Keys)
    ensures forall i | 0 <= i < |opts| :: opts[i].ResponseHeader? || opts[i].RemoveResponseHeader?
    ensures |opts| == |emitOrder| + |h.removed|
    ensures forall i | 0 <= i < |h.removed| ::
              opts[|emitOrder| + i] == RemoveResponseHeader(env.replace(h.removed[i]))
  {
    ProvisionHeaders(Response, env, h, replaceOrder, emitOrder)
  }
}
