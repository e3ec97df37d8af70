/** The `labeled` tunnel (labeled.go): a tunnel identified by a set of labels instead of
    a URL, each label a name/value pair given as `label <name> <value>` inside a
    `labels` block. */
module Labeled {
  import opened Common
  import opened Sdk

  /** A line of a `labels` block the parser accepts. */
  predicate LabelOk(l: Line) {
    l.name == "label" && |l.args| == 2 && l.block.NoBlock?
  }

  /** The error reported for a rejected line of a `labels` block: always an argument
      error, a block being read as a directive named `{`. */
  function LabelError(l: Line): Error {
    if l.name == "label" && |l.args| == 2 then WrongArgs("{") else WrongArgs(l.name)
  }

  /** The value the last `label` line for `name` gives it, if any. */
  function LastLabel(lines: seq<Line>, name: string): Option<string> {
    if lines == [] then None
    else
      match LastLabel(lines[1..], name)
      case Some(v) => Some(v)
      case None =>
        if lines[0].name == "label" && |lines[0].args| == 2 && lines[0].args[0] == name
        then Some(lines[0].args[1]) else None
  }

  /** The lines of one `labels` block: every line must be `label <name> <value>`; a later
      line for the same name overwrites the value of an earlier one. */
  function ParseLabels(m: map<string, string>, lines: seq<Line>): (r: Result<map<string, string>>)
    ensures r.Ok? <==> forall i | 0 <= i < |lines| :: LabelOk(lines[i])
    ensures r.Err? ==> r.error == LabelError(lines[FirstBad(LabelOk, lines)])
    ensures r.Ok? ==> forall name | name in r.value :: name in m || LastLabel(lines, name).Some?
    ensures r.Ok? ==> forall name | LastLabel(lines, name).Some? :: name in r.value && r.value[name] == LastLabel(lines, name).value
    ensures r.Ok? ==> forall name | name in m && LastLabel(lines, name).None? :: name in r.value && r.value[name] == m[name]
    decreases lines
  {
    if lines == [] then Ok(m)
    else if !LabelOk(lines[0]) then Err(LabelError(lines[0]))
    else ParseLabels(m[lines[0].args[0] := lines[0].args[1]], lines[1..])
  }

  /** How many arguments the handler of a directive reads: the `labels` handler reads
      none, so a `labels` line with arguments leaves them to the directive loop. */
  function Consumed(l: Line): nat {
    if l.name == "labels" then 0 else |l.args|
  }

  /** The directive loop of the `labeled` block, over the lines as it reads them. Only
      `labels` is known; a `labels` line opens its block only when it has no argument. */
  function ParseDirectives(m: map<string, string>, lines: seq<Line>): (r: Result<map<string, string>>)
    ensures r.Ok? ==> forall i | 0 <= i < |lines| :: lines[i].name == "labels"
    decreases lines
  {
    if lines == [] then Ok(m)
    else
      var l := lines[0];
      if l.name != "labels" then Err(WrongArgs(l.name))
      else
        var m1 :- ParseLabels(m, if l.args == [] then BlockLines(l) else []);
        ParseDirectives(m1, lines[1..])
  }

  /** The `label` lines of a sequence of `labels` blocks, in order. */
  function LabelLines(lines: seq<Line>): seq<Line> {
    if lines == [] then [] else BlockLines(lines[0]) + LabelLines(lines[1..])
  }

  /** A `labels` line without arguments that opens its block. */
  predicate PlainLabels(l: Line) {
    l.name == "labels" && l.args == []
  }

  /** The first two lines of a `ParseLabels` run can be split into two runs. */
  lemma {:induction false} ParseLabelsAppend(m: map<string, string>, a: seq<Line>, b: seq<Line>)
    ensures ParseLabels(m, a + b) ==
              (match ParseLabels(m, a)
               case Ok(m1) => ParseLabels(m1, b)
               case Err(e) => Err(e))
    decreases a
  {
    if a == [] {
      assert a + b == b;
    } else {
      assert (a + b)[0] == a[0] && (a + b)[1..] == a[1..] + b;
      if LabelOk(a[0]) {
        ParseLabelsAppend(m[a[0].args[0] := a[0].args[1]], a[1..], b);
      }
    }
  }

  /** When every directive is a plain `labels` block, parsing the block is parsing all
      their `label` lines in one run: labels from different blocks merge, a later one
      overwriting an earlier one with the same name. */
  lemma {:induction false} PlainLabelsMerge(m: map<string, string>, lines: seq<Line>)
    requires forall i | 0 <= i < |lines| :: PlainLabels(lines[i])
    ensures ParseDirectives(m, lines) == ParseLabels(m, LabelLines(lines))
    decreases lines
  {
    if lines != [] {
      ParseLabelsAppend(m, BlockLines(lines[0]), LabelLines(lines[1..]));
      match ParseLabels(m, BlockLines(lines[0])) {
        case Ok(m1) => PlainLabelsMerge(m1, lines[1..]);
        case Err(_) =>
      }
    }
  }

  /** `UnmarshalCaddyfile`, with the dispenser on the `labeled` token: no argument on
      that line, then its block. */
  function Parse(args: seq<string>, block: Block): (r: Result<map<string, string>>)
    ensures args != [] ==> r == Err(WrongArgs("labeled"))
    ensures args == [] && (block.NoBlock? || block == Braces([])) ==> r == Ok(map[])
  {
    if args != [] then Err(WrongArgs("labeled"))
    else ParseDirectives(map[], Expand(Consumed, if block.Braces? then block.lines else []))
  }

  /** A block of plain `labels` blocks yields exactly the labels their `label` lines
      give, the last value for a name winning. */
  lemma ParsePlain(lines: seq<Line>)
    requires forall i | 0 <= i < |lines| :: PlainLabels(lines[i])
    ensures Parse([], Braces(lines)) == ParseLabels(map[], LabelLines(lines))
  {
    ExpandPlain(Consumed, lines);
    PlainLabelsMerge(map[], lines);
  }

  /** A directive other than `labels` is an argument error, and so is a `labels` line
      whose first argument is not `labels`: that argument is read as the next
      directive. */
  lemma OtherDirectiveRejected(l: Line, rest: seq<Line>)
    ensures l.name != "labels" ==> Parse([], Braces([l] + rest)) == Err(WrongArgs(l.name))
    ensures l.name == "labels" && l.args != [] && l.args[0] != "labels" ==>
              Parse([], Braces([l] + rest)) == Err(WrongArgs(l.args[0]))
  {
    var lines := [l] + rest;
    assert lines[0] == l && lines[1..] == rest;
    if l.name == "labels" && l.args != [] {
      var e := Expand(Consumed, lines);
      assert e[0] == Line(l.name, l.args, NoBlock);
      var e2 := Expand(Consumed, [Leftover(l, 0)] + rest);
      assert e == [e[0]] + e2;
      assert ([Leftover(l, 0)] + rest)[0] == Leftover(l, 0);
      if l.args[0] != "labels" {
        assert e2[0] == Leftover(l, 0);
        assert ParseLabels(map[], []) == Ok(map[]);
        assert e[1..] == e2;
        assert ParseDirectives(map[], e2) == Err(WrongArgs(l.args[0]));
        assert ParseDirectives(map[], e) == ParseDirectives(map[], e[1..]);
      }
    }
  }

  /** `Provision`: one label option per configured label, in the order Go's map
      iteration happens to visit them (`order`); it cannot fail and replaces no
      placeholders. */
  function Provision(labels: map<string, string>, order: seq<string>): (r: seq<EndpointOpt>)
    requires forall i | 0 <= i < |order| :: order[i] in labels
    ensures |r| == |order|
    ensures forall i | 0 <= i < |order| :: r[i] == Label(order[i], labels[order[i]])
  {
    if order == [] then [] else [Label(order[0], labels[order[0]])] + Provision(labels, order[1..])
  }

  /** With `order` an enumeration of the labels, the options are exactly the labels:
      one option per label, carrying its value. */
  lemma ProvisionExact(labels: map<string, string>, order: seq<string>)
    requires IsEnumeration(order, labels.Keys)
    ensures |Provision(labels, order)| == |labels|
    ensures forall o | o in Provision(labels, order) :: o.Label? && o.labelName in labels && labels[o.labelName] == o.labelValue
    ensures forall name | name in labels :: Label(name, labels[name]) in Provision(labels, order)
  {
    EnumerationLength(order, labels.Keys);
    ProvisionSound(labels, order);
    ProvisionComplete(labels, order);
  }

  lemma ProvisionSound(labels: map<string, string>, order: seq<string>)
    requires forall i | 0 <= i < |order| :: order[i] in labels
    ensures forall o | o in Provision(labels, order) :: o.Label? && o.labelName in labels && labels[o.labelName] == o.labelValue
  {
    var r := Provision(labels, order);
    forall o | o in r ensures o.Label? && o.labelName in labels && labels[o.labelName] == o.labelValue {
      var i :| 0 <= i < |r| && r[i] == o;
      assert o == Label(order[i], labels[order[i]]);
    }
  }

  lemma ProvisionComplete(labels: map<string, string>, order: seq<string>)
    requires IsEnumeration(order, labels.Keys)
    ensures forall name | name in labels :: Label(name, labels[name]) in Provision(labels, order)
  {
    var r := Provision(labels, order);
    forall name | name in labels ensures Label(name, labels[name]) in r {
      var i :| 0 <= i < |order| && order[i] == name;
      assert r[i] == Label(name, labels[name]);
    }
  }
}
