/** The d2 diagram engine seen as a fallible operation log, and the
    sequence of operations the diagram synthesis asks of it. */
module Diagram {
  import opened SchemaModel

  /** `Edge(src, dst)` is the engine's create call with the key
      `src -> dst`. */
  datatype Op = Create(key: string) | Set(path: string, value: string) | Edge(src: string, dst: string)

  /** Whether the engine accepts an operation, given the operations it has
      been given before. */
  type Acceptor = (seq<Op>, Op) -> bool

  /** The key under which a create call files a new object; its renaming
      rules are not modelled. */
  type Namer = (seq<Op>, string) -> string

  const Shape: string := "sql_table"

  datatype DiagramError = EngineFailure

  /** The engine: every call is logged, and the acceptor decides whether it
      succeeded. */
  class Engine {
    var log: seq<Op>
    const accepts: Acceptor
    const namer: Namer

    constructor (accepts: Acceptor, namer: Namer)
      ensures log == [] && this.accepts == accepts && this.namer == namer
    {
      this.accepts := accepts;
      this.namer := namer;
      log := [];
    }

    method Create(key: string) returns (newKey: string, ok: bool)
      modifies this`log
      ensures log == old(log) + [Op.Create(key)]
      ensures ok == accepts(old(log), Op.Create(key))
      ensures newKey == namer(old(log), key)
    {
      ok := accepts(log, Op.Create(key));
      newKey := namer(log, key);
      log := log + [Op.Create(key)];
    }

    method Set(path: string, value: string) returns (ok: bool)
      modifies this`log
      ensures log == old(log) + [Op.Set(path, value)]
      ensures ok == accepts(old(log), Op.Set(path, value))
    {
      ok := accepts(log, Op.Set(path, value));
      log := log + [Op.Set(path, value)];
    }

    method CreateEdge(src: string, dst: string) returns (ok: bool)
      modifies this`log
      ensures log == old(log) + [Edge(src, dst)]
      ensures ok == accepts(old(log), Edge(src, dst))
    {
      ok := accepts(log, Edge(src, dst));
      log := log + [Edge(src, dst)];
    }
  }

  // ----- running a plan -----

  datatype Transcript = Transcript(emitted: seq<Op>, ok: bool)

  /** The engine accepts each of `ops` in turn, starting from `log`. */
  ghost predicate AllAccepted(acc: Acceptor, log: seq<Op>, ops: seq<Op>)
    decreases |ops|
  {
    ops == [] || (acc(log, ops[0]) && AllAccepted(acc, log + [ops[0]], ops[1..]))
  }

  /** Issue the operations of `plan` in order until the engine rejects one. */
  function Run(acc: Acceptor, log: seq<Op>, plan: seq<Op>): (t: Transcript)
    ensures t.emitted <= plan
    ensures t.ok ==> t.emitted == plan
    ensures !t.ok ==> t.emitted != []
    decreases |plan|
  {
    if plan == [] then Transcript([], true)
    else if !acc(log, plan[0]) then Transcript([plan[0]], false)
    else
      var rest := Run(acc, log + [plan[0]], plan[1..]);
      Transcript([plan[0]] + rest.emitted, rest.ok)
  }

  /** A plan the engine accepts throughout is emitted in full. */
  lemma {:induction false} RunAccepted(acc: Acceptor, log: seq<Op>, plan: seq<Op>)
    requires AllAccepted(acc, log, plan)
    ensures Run(acc, log, plan) == Transcript(plan, true)
    decreases |plan|
  {
    if plan != [] {
      RunAccepted(acc, log + [plan[0]], plan[1..]);
      assert [plan[0]] + plan[1..] == plan;
    }
  }

  lemma {:induction false} RunOkAccepted(acc: Acceptor, log: seq<Op>, plan: seq<Op>)
    requires Run(acc, log, plan).ok
    ensures AllAccepted(acc, log, plan)
    decreases |plan|
  {
    if plan != [] {
      RunOkAccepted(acc, log + [plan[0]], plan[1..]);
    }
  }

  lemma {:induction false} RunFailureLast(acc: Acceptor, log: seq<Op>, plan: seq<Op>)
    requires !Run(acc, log, plan).ok
    ensures var e := Run(acc, log, plan).emitted;
      AllAccepted(acc, log, e[..|e| - 1]) && !acc(log + e[..|e| - 1], e[|e| - 1])
    decreases |plan|
  {
    assert plan != [];
    if !acc(log, plan[0]) {
      assert Run(acc, log, plan).emitted == [plan[0]];
      assert log + [plan[0]][..0] == log;
    } else {
      var rest := Run(acc, log + [plan[0]], plan[1..]);
      RunFailureLast(acc, log + [plan[0]], plan[1..]);
      ConsFailure(acc, log, plan[0], rest.emitted);
    }
  }

  lemma ConsFailure(acc: Acceptor, log: seq<Op>, x: Op, re: seq<Op>)
    requires re != [] && acc(log, x)
    requires AllAccepted(acc, log + [x], re[..|re| - 1]) && !acc(log + [x] + re[..|re| - 1], re[|re| - 1])
    ensures var e := [x] + re;
      AllAccepted(acc, log, e[..|e| - 1]) && !acc(log + e[..|e| - 1], e[|e| - 1])
  {
    var e := [x] + re;
    var pe := e[..|e| - 1];
    assert pe == [x] + re[..|re| - 1];
    assert pe[0] == x && pe[1..] == re[..|re| - 1];
    assert log + pe == log + [x] + re[..|re| - 1];
  }

  /** Run stops exactly at the first rejection: it succeeds iff every
      operation of the plan is accepted, and otherwise emits an accepted
      prefix followed by the one operation that was rejected. */
  lemma RunStopsAtFirstRejection(acc: Acceptor, log: seq<Op>, plan: seq<Op>)
    ensures var t := Run(acc, log, plan);
      (t.ok <==> AllAccepted(acc, log, plan)) &&
      (!t.ok ==> AllAccepted(acc, log, t.emitted[..|t.emitted| - 1]) &&
                 !acc(log + t.emitted[..|t.emitted| - 1], t.emitted[|t.emitted| - 1]))
  {
    if Run(acc, log, plan).ok {
      RunOkAccepted(acc, log, plan);
    } else {
      RunFailureLast(acc, log, plan);
      if AllAccepted(acc, log, plan) { RunAccepted(acc, log, plan); }
    }
  }

  /** `done`, then what the transcript `t` emitted. */
  function Prepend(done: seq<Op>, t: Transcript): (r: Transcript)
    ensures r.ok == t.ok && |r.emitted| == |done| + |t.emitted|
  {
    Transcript(done + t.emitted, t.ok)
  }

  /** Running `a + b` runs `a`, and then `b` only when all of `a` was
      accepted. */
  lemma {:induction false} RunAppend(acc: Acceptor, log: seq<Op>, a: seq<Op>, b: seq<Op>)
    ensures Run(acc, log, a + b) ==
      (var ta := Run(acc, log, a); if ta.ok then Prepend(a, Run(acc, log + a, b)) else ta)
    decreases |a|
  {
    if a == [] {
      assert a + b == b && log + a == log;
    } else {
      assert (a + b)[0] == a[0] && (a + b)[1..] == a[1..] + b;
      if acc(log, a[0]) {
        RunAppend(acc, log + [a[0]], a[1..], b);
        assert log + [a[0]] + a[1..] == log + a;
        assert [a[0]] + a[1..] == a;
      }
    }
  }

  /** The engine's log went from `before` to `after` by issuing `ops` in
      order until the first rejection, and `ok` says whether none was
      rejected: the contract of every synthesis step. */
  ghost predicate Ran(acc: Acceptor, before: seq<Op>, after: seq<Op>, ok: bool, ops: seq<Op>)
  {
    var t := Run(acc, before, ops);
    after == before + t.emitted && ok == t.ok
  }

  lemma RanOne(acc: Acceptor, log: seq<Op>, op: Op)
    ensures Ran(acc, log, log + [op], acc(log, op), [op])
  {
    assert [op][1..] == [];
  }

  /** Proof helper: regrouping a log, for RanThen. */
  lemma SeqAssoc(x: seq<Op>, y: seq<Op>, z: seq<Op>)
    ensures (x + y) + z == x + (y + z)
  {
  }

  /** A step that ran to the end, followed by another step. */
  lemma RanThen(acc: Acceptor, l0: seq<Op>, l1: seq<Op>, l2: seq<Op>, ok: bool, a: seq<Op>, b: seq<Op>)
    requires Ran(acc, l0, l1, true, a) && Ran(acc, l1, l2, ok, b)
    ensures Ran(acc, l0, l2, ok, a + b)
  {
    RunAppend(acc, l0, a, b);
    var e := Run(acc, l1, b).emitted;
    assert l2 == (l0 + a) + e;
    SeqAssoc(l0, a, e);
  }

  /** A step that was cut short ends the run. */
  lemma RanStop(acc: Acceptor, l0: seq<Op>, l1: seq<Op>, a: seq<Op>, b: seq<Op>)
    requires Ran(acc, l0, l1, false, a)
    ensures Ran(acc, l0, l1, false, a + b)
  {
    RunAppend(acc, l0, a, b);
  }

  /** The next step of a run that has been accepted so far: either the run
      goes on, or it ends here whatever was still to come. */
  lemma RanStep(acc: Acceptor, l0: seq<Op>, l1: seq<Op>, l2: seq<Op>, ok: bool,
                full: seq<Op>, done: seq<Op>, b: seq<Op>, rest: seq<Op>)
    requires full == done + (b + rest)
    requires Ran(acc, l0, l1, true, done) && Ran(acc, l1, l2, ok, b)
    ensures ok ==> Ran(acc, l0, l2, true, done + b) && full == (done + b) + rest
    ensures !ok ==> Ran(acc, l0, l2, false, full)
  {
    RanThen(acc, l0, l1, l2, ok, done, b);
    if !ok {
      RanStop(acc, l0, l2, done + b, rest);
      assert (done + b) + rest == full;
    }
  }

  // ----- the plan of operations for a schema -----

  /** One edge per reference, from `src` to the reference's table and
      column. */
  function EdgeOps(src: string, refs: seq<RefV>): seq<Op>
    decreases |refs|
  {
    if refs == [] then []
    else [Edge(src, refs[0].table + "." + refs[0].column)] + EdgeOps(src, refs[1..])
  }

  function RowOps(tname: string, c: ColumnV, rowLabel: ColumnV -> string): seq<Op>
  {
    [Set(tname + "." + c.name, rowLabel(c))] + EdgeOps(tname + "." + c.name, c.refs)
  }

  function ColumnsOps(tname: string, cs: seq<ColumnV>, rowLabel: ColumnV -> string): seq<Op>
    decreases |cs|
  {
    if cs == [] then [] else RowOps(tname, cs[0], rowLabel) + ColumnsOps(tname, cs[1..], rowLabel)
  }

  /** The operations for one table whose node was filed under `key`. */
  function Block(t: TableV, key: string, rowLabel: ColumnV -> string): seq<Op>
  {
    [Create(t.name), Set(key + ".shape", Shape)] + ColumnsOps(t.name, t.columns, rowLabel)
  }

  /** The operations for the tables `ts`, given the engine's log so far. */
  function Plan(ts: seq<TableV>, rowLabel: ColumnV -> string, namer: Namer, log: seq<Op>): seq<Op>
    decreases |ts|
  {
    if ts == [] then []
    else
      var b := Block(ts[0], namer(log, ts[0].name), rowLabel);
      b + Plan(ts[1..], rowLabel, namer, log + b)
  }

  // The plans unfolded at position `i`, as the synthesis loops walk them.

  lemma EdgeOpsAt(src: string, refs: seq<RefV>, i: nat)
    requires i < |refs|
    ensures EdgeOps(src, refs[i..]) == [Edge(src, refs[i].table + "." + refs[i].column)] + EdgeOps(src, refs[i + 1..])
  {
    assert refs[i..][1..] == refs[i + 1..];
  }

  lemma ColumnsOpsAt(tname: string, cs: seq<ColumnV>, rowLabel: ColumnV -> string, i: nat)
    requires i < |cs|
    ensures ColumnsOps(tname, cs[i..], rowLabel) == RowOps(tname, cs[i], rowLabel) + ColumnsOps(tname, cs[i + 1..], rowLabel)
  {
    assert cs[i..][1..] == cs[i + 1..];
  }

  lemma PlanAt(ts: seq<TableV>, rowLabel: ColumnV -> string, namer: Namer, log: seq<Op>, i: nat)
    requires i < |ts|
    ensures var b := Block(ts[i], namer(log, ts[i].name), rowLabel);
      Plan(ts[i..], rowLabel, namer, log) == b + Plan(ts[i + 1..], rowLabel, namer, log + b)
  {
    assert ts[i..][1..] == ts[i + 1..];
  }

  // ----- what a plan contains -----

  /** The keys of the create calls, in order. */
  function CreatedNodes(ops: seq<Op>): seq<string>
    decreases |ops|
  {
    if ops == [] then [] else (if ops[0].Create? then [ops[0].key] else []) + CreatedNodes(ops[1..])
  }

  function NumEdges(ops: seq<Op>): nat
    decreases |ops|
  {
    if ops == [] then 0 else (if ops[0].Edge? then 1 else 0) + NumEdges(ops[1..])
  }

  function NumRefs(cs: seq<ColumnV>): nat
    decreases |cs|
  {
    if cs == [] then 0 else |cs[0].refs| + NumRefs(cs[1..])
  }

  function SchemaRefs(ts: seq<TableV>): nat
    decreases |ts|
  {
    if ts == [] then 0 else NumRefs(ts[0].columns) + SchemaRefs(ts[1..])
  }

  lemma {:induction false} CountsAppend(a: seq<Op>, b: seq<Op>)
    ensures CreatedNodes(a + b) == CreatedNodes(a) + CreatedNodes(b)
    ensures NumEdges(a + b) == NumEdges(a) + NumEdges(b)
    decreases |a|
  {
    if a == [] {
      assert a + b == b;
    } else {
      assert (a + b)[0] == a[0];
      assert (a + b)[1..] == a[1..] + b;
      CountsAppend(a[1..], b);
    }
  }

  lemma {:induction false} EdgeOpsCounts(src: string, refs: seq<RefV>)
    ensures CreatedNodes(EdgeOps(src, refs)) == [] && NumEdges(EdgeOps(src, refs)) == |refs|
    decreases |refs|
  {
    if refs != [] {
      EdgeOpsCounts(src, refs[1..]);
      CountsAppend([Edge(src, refs[0].table + "." + refs[0].column)], EdgeOps(src, refs[1..]));
    }
  }

  lemma {:induction false} ColumnsOpsCounts(tname: string, cs: seq<ColumnV>, rowLabel: ColumnV -> string)
    ensures CreatedNodes(ColumnsOps(tname, cs, rowLabel)) == []
    ensures NumEdges(ColumnsOps(tname, cs, rowLabel)) == NumRefs(cs)
    decreases |cs|
  {
    if cs != [] {
      var c := cs[0];
      ColumnsOpsCounts(tname, cs[1..], rowLabel);
      EdgeOpsCounts(tname + "." + c.name, c.refs);
      CountsAppend([Set(tname + "." + c.name, rowLabel(c))], EdgeOps(tname + "." + c.name, c.refs));
      CountsAppend(RowOps(tname, c, rowLabel), ColumnsOps(tname, cs[1..], rowLabel));
    }
  }

  /** Whatever the labels and the engine's keys, the plan creates one node
      per table, named after the table, in schema order, and one edge per
      foreign-key reference. */
  lemma {:induction false} PlanNodesAndEdges(ts: seq<TableV>, rowLabel: ColumnV -> string, namer: Namer, log: seq<Op>)
    ensures CreatedNodes(Plan(ts, rowLabel, namer, log)) == TableNames(ts)
    ensures NumEdges(Plan(ts, rowLabel, namer, log)) == SchemaRefs(ts)
    decreases |ts|
  {
    if ts != [] {
      var t := ts[0];
      var key := namer(log, t.name);
      var b := Block(t, key, rowLabel);
      PlanNodesAndEdges(ts[1..], rowLabel, namer, log + b);
      ColumnsOpsCounts(t.name, t.columns, rowLabel);
      CountsAppend([Create(t.name), Set(key + ".shape", Shape)], ColumnsOps(t.name, t.columns, rowLabel));
      CountsAppend(b, Plan(ts[1..], rowLabel, namer, log + b));
    }
  }
}
