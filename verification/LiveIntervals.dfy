/** How live intervals are collected from the code, and what they cover. */
module LiveIntervals {
  import opened Cfg
  import opened Components
  import opened ScanTheory
  import opened BlockOrder

  /** An instruction: its own value (which may have no name, for a store or a branch) and its operands. */
  datatype Instr = Instr(val: Value, named: bool, alloca: bool, operands: seq<Value>)

  type Code = seq<seq<Instr>>

  /** The blocks in the order of their numbers. */
  datatype Layout = Layout(back: map<int, Block>, code: Code) {
    ghost predicate Line(p: Point) {
      p.bb in back && back[p.bb] < |code| && 1 <= p.line <= |code[back[p.bb]]|
    }

    ghost function At(p: Point): Instr
      requires Line(p)
    {
      code[back[p.bb]][p.line - 1]
    }

    /** The instruction at p defines v. Stack slots do not count. */
    ghost predicate Defines(p: Point, v: Value) {
      Line(p) && At(p).named && !At(p).alloca && At(p).val == v
    }

    ghost predicate Allocates(p: Point, v: Value) {
      Line(p) && At(p).alloca && At(p).val == v
    }

    ghost predicate Uses(p: Point, v: Value) {
      Line(p) && !At(p).alloca && v in At(p).operands
    }
  }

  /** Every instruction has a value of its own, different from the parameters. */
  ghost predicate CodeOk(code: Code, params: set<Value>) {
    && (forall b, l, b', l' {:trigger code[b][l], code[b'][l']} ::
          0 <= b < |code| && 0 <= l < |code[b]| && 0 <= b' < |code| && 0 <= l' < |code[b']| &&
          code[b][l].val == code[b'][l'].val ==>
            b == b' && l == l')
    && (forall b, l {:trigger code[b][l]} :: 0 <= b < |code| && 0 <= l < |code[b]| ==> code[b][l].val !in params)
  }

  type Intervals = map<Value, Interval>

  const ORIGIN := Point(0, 0)

  /** The constructor that takes four numbers uses the first line number for both ends; it is only called
      with zeros. */
  function MakeInterval(v: Value, bbStart: int, lineStart: int, bbEnd: int, lineEnd: int): Interval {
    Interval(Point(bbStart, lineStart), Point(bbEnd, lineStart), v)
  }

  /** The interval starts where its value comes into being and ends there or at a later use. */
  ghost predicate IntervalOk(y: Layout, params: set<Value>, v: Value, i: Interval) {
    && i.val == v && i.start.AtMost(i.end)
    && (if v in params then i.start == ORIGIN else y.Defines(i.start, v))
    && (i.end == i.start || y.Uses(i.end, v))
  }

  /** What has been collected once the lines up to p have been read. */
  ghost predicate Built(y: Layout, params: set<Value>, m: Intervals, p: Point) {
    && (forall v {:trigger m[v]} {:trigger v in m} :: v in m ==> IntervalOk(y, params, v, m[v]) && m[v].end.AtMost(p))
    && (forall v {:trigger v in params} :: v in params ==> v in m)
    && (forall d, v {:trigger y.Defines(d, v)} :: y.Defines(d, v) && d.AtMost(p) ==> v in m)
    && (forall u, v {:trigger y.Uses(u, v)} :: y.Uses(u, v) && v in m && m[v].start.AtMost(u) && u.AtMost(p) ==>
         u.AtMost(m[v].end))
  }

  /** No line lies after p and not after q. */
  ghost predicate Gapless(y: Layout, p: Point, q: Point) {
    p.AtMost(q) && forall u {:trigger y.Line(u)} :: y.Line(u) && u.AtMost(q) ==> u.AtMost(p)
  }

  lemma BuiltSkip(y: Layout, params: set<Value>, m: Intervals, p: Point, q: Point)
    requires Built(y, params, m, p) && Gapless(y, p, q)
    ensures Built(y, params, m, q)
  {
    hide IntervalOk;
  }

  lemma BuiltVals(y: Layout, params: set<Value>, m: Intervals, p: Point)
    requires Built(y, params, m, p)
    ensures forall v {:trigger m[v]} :: v in m ==> m[v].val == v
  {
  }

  lemma BuiltStart(y: Layout, params: set<Value>, m: Intervals)
    requires m.Keys == params && forall v {:trigger m[v]} :: v in m ==> m[v] == Interval(ORIGIN, ORIGIN, v)
    requires forall k {:trigger k in y.back} :: k in y.back ==> k >= 1
    ensures Built(y, params, m, ORIGIN)
  {
  }

  function Inserted(m: Intervals, v: Value, q: Point): Intervals {
    if v in m then m else m[v := Interval(q, q, v)]
  }

  function Touched(m: Intervals, ops: seq<Value>, q: Point): Intervals {
    map v | v in m :: if v in ops then m[v].(end := q) else m[v]
  }

  /** q is the line right after p. */
  ghost predicate NextLine(y: Layout, p: Point, q: Point) {
    && y.Line(q) && p.Less(q)
    && forall u {:trigger y.Line(u)} :: y.Line(u) && u.Less(q) ==> u.AtMost(p)
  }

  ghost predicate BackOk(back: map<int, Block>) {
    forall k, l {:trigger back[k], back[l]} :: k in back && l in back && back[k] == back[l] ==> k == l
  }

  lemma SameDefinition(y: Layout, params: set<Value>, d: Point, q: Point, v: Value)
    requires y.Defines(d, v) && y.Defines(q, v) && CodeOk(y.code, params) && BackOk(y.back)
    ensures d == q && v !in params
  {
    assert y.code[y.back[d.bb]][d.line - 1].val == y.code[y.back[q.bb]][q.line - 1].val;
  }

  lemma NewValueAt(y: Layout, params: set<Value>, m: Intervals, p: Point, q: Point, v: Value)
    requires Built(y, params, m, p) && p.Less(q) && y.Defines(q, v) && CodeOk(y.code, params) && BackOk(y.back)
    ensures v !in m && v !in params
  {
    forall d | y.Defines(d, v)
      ensures d == q && v !in params
    {
      SameDefinition(y, params, d, q, v);
    }
  }

  /** Reading one line: a new value gets an interval, and the operands' intervals are extended to here. */
  lemma BuiltLine(y: Layout, params: set<Value>, m: Intervals, p: Point, q: Point, m': Intervals)
    requires Built(y, params, m, p) && NextLine(y, p, q) && CodeOk(y.code, params)
    requires BackOk(y.back)
    requires var ins := y.At(q);
             m' == if ins.alloca then m else Touched(if ins.named then Inserted(m, ins.val, q) else m, ins.operands, q)
    ensures Built(y, params, m', q)
  {
    var ins := y.At(q);
    if ins.named && !ins.alloca {
      NewValueAt(y, params, m, p, q, ins.val);
    }
    forall v | v in m'
      ensures IntervalOk(y, params, v, m'[v]) && m'[v].end.AtMost(q)
    {
      LineInterval(y, params, m, p, q, m', v);
    }
    forall d, v | y.Defines(d, v) && d.AtMost(q)
      ensures v in m'
    {
      assert d == q || d.Less(q);
    }
    forall u, v | y.Uses(u, v) && v in m' && m'[v].start.AtMost(u) && u.AtMost(q)
      ensures u.AtMost(m'[v].end)
    {
      assert u == q || u.Less(q);
      LineInterval(y, params, m, p, q, m', v);
    }
  }

  lemma LineInterval(y: Layout, params: set<Value>, m: Intervals, p: Point, q: Point, m': Intervals, v: Value)
    requires Built(y, params, m, p) && NextLine(y, p, q)
    requires var ins := y.At(q);
             m' == if ins.alloca then m else Touched(if ins.named then Inserted(m, ins.val, q) else m, ins.operands, q)
    requires v in m' && (y.Defines(q, v) ==> v !in m && v !in params)
    ensures IntervalOk(y, params, v, m'[v]) && m'[v].end.AtMost(q)
    ensures v in m ==> m'[v].start == m[v].start && m[v].end.AtMost(m'[v].end)
    ensures v !in m ==> m'[v].start == q
    ensures y.Uses(q, v) ==> m'[v].end == q
  {
    if v in m {
      assert IntervalOk(y, params, v, m[v]);
    }
  }

  // ----- stack slots -----

  /** The values with a slot are those of the allocas in the lines up to p. */
  ghost predicate SlotsRead(y: Layout, slots: set<Value>, p: Point) {
    && (forall v {:trigger v in slots} :: v in slots ==> exists u :: y.Allocates(u, v) && u.AtMost(p))
    && (forall u, v {:trigger y.Allocates(u, v)} :: y.Allocates(u, v) && u.AtMost(p) ==> v in slots)
  }

  lemma SlotsSkip(y: Layout, slots: set<Value>, p: Point, q: Point)
    requires SlotsRead(y, slots, p) && Gapless(y, p, q)
    ensures SlotsRead(y, slots, q)
  {
  }

  lemma SameAlloca(y: Layout, params: set<Value>, u: Point, q: Point, v: Value)
    requires y.Allocates(u, v) && y.Allocates(q, v) && CodeOk(y.code, params) && BackOk(y.back)
    ensures u == q
  {
    assert y.code[y.back[u.bb]][u.line - 1].val == y.code[y.back[q.bb]][q.line - 1].val;
  }

  /** Reading one line: an alloca is a new value, and gets a slot. */
  lemma SlotsLine(y: Layout, params: set<Value>, slots: set<Value>, p: Point, q: Point)
    requires SlotsRead(y, slots, p) && NextLine(y, p, q) && CodeOk(y.code, params) && BackOk(y.back)
    ensures y.At(q).alloca ==> y.At(q).val !in slots
    ensures SlotsRead(y, slots + if y.At(q).alloca then {y.At(q).val} else {}, q)
  {
    var v := y.At(q).val;
    if y.At(q).alloca {
      assert y.Allocates(q, v);
      forall u | y.Allocates(u, v)
        ensures u == q
      {
        SameAlloca(y, params, u, q, v);
      }
    }
    forall u, x | y.Allocates(u, x) && u.AtMost(q)
      ensures x in slots || (y.At(q).alloca && x == v)
    {
      assert u == q || u.Less(q);
    }
  }

  // ----- coverage -----

  /** q lies on the path, not before d in its first block and not after u in its last. */
  ghost predicate Between(num: map<Block, int>, p: seq<Block>, i: nat, q: Point, d: Point, u: Point) {
    && i < |p| && p[i] in num && q.bb == num[p[i]]
    && (i == 0 ==> d.line <= q.line) && (i == |p| - 1 ==> q.line <= u.line)
  }

  /** In an acyclic graph a value's interval covers all points on all paths from its definition to its
      uses. */
  lemma IntervalCovers(e: Adj, num: map<Block, int>, y: Layout, params: set<Value>, m: Intervals, last: Point,
                       v: Value, d: Point, u: Point, p: seq<Block>, i: nat, q: Point)
    requires Upward(e, num) && Built(y, params, m, last) && v in m && y.Uses(u, v) && u.AtMost(last)
    requires m[v].start.AtMost(d) && IsPath(e, p) && p[0] in num && p[|p| - 1] in num && num[p[0]] == d.bb
    requires num[p[|p| - 1]] == u.bb
    requires Between(num, p, i, q, d, u) && (|p| == 1 ==> d.line <= u.line)
    ensures m[v].Contains(q)
  {
    PathUpward(e, num, p, 0, i);
    PathUpward(e, num, p, i, |p| - 1);
    PathUpward(e, num, p, 0, |p| - 1);
    assert d.AtMost(u) && d.AtMost(q) && q.AtMost(u);
    assert u.AtMost(m[v].end);
  }

  /** v is live at q: a path leads from its definition (for a parameter, from anywhere) through q to a
      use of it. Definitions and uses dominate nothing here; any such path counts. */
  ghost predicate LiveOn(e: Adj, num: map<Block, int>, y: Layout, params: set<Value>, v: Value, q: Point,
                         d: Point, u: Point, p: seq<Block>, i: nat) {
    && (y.Defines(d, v) || (v in params && d.line == 0 && d.bb >= 1)) && y.Uses(u, v)
    && IsPath(e, p) && p[0] in num && p[|p| - 1] in num && num[p[0]] == d.bb && num[p[|p| - 1]] == u.bb
    && Between(num, p, i, q, d, u) && (|p| == 1 ==> d.line <= u.line)
  }

  ghost predicate LiveAt(e: Adj, num: map<Block, int>, y: Layout, params: set<Value>, v: Value, q: Point) {
    exists d, u, p, i :: LiveOn(e, num, y, params, v, q, d, u, p, i)
  }

  lemma LiveInside(e: Adj, num: map<Block, int>, y: Layout, params: set<Value>, m: Intervals, last: Point, v: Value,
                   q: Point)
    requires Upward(e, num) && Built(y, params, m, last) && CodeOk(y.code, params) && BackOk(y.back)
    requires forall u {:trigger y.Line(u)} :: y.Line(u) ==> u.AtMost(last)
    requires LiveAt(e, num, y, params, v, q)
    ensures v in m && m[v].Contains(q)
  {
    var d, u, p, i :| LiveOn(e, num, y, params, v, q, d, u, p, i);
    assert v in m;
    assert IntervalOk(y, params, v, m[v]);
    if y.Defines(d, v) {
      SameDefinition(y, params, d, d, v);
      SameDefinition(y, params, d, m[v].start, v);
    }
    hide Built, CodeOk, Upward, BackOk, IntervalOk;
    IntervalCovers(e, num, y, params, m, last, v, d, u, p, i, q);
  }

  lemma ContainedOverlap(i: Interval, j: Interval, q: Point)
    requires i.Contains(q) && j.Contains(q)
    ensures i.Overlaps(j)
  {
  }
}
