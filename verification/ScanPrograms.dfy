/** Straight-line functions on which the allocator runs out of registers, or mixes the classes. */
module ScanPrograms {
  import opened Cfg
  import opened Components
  import opened BlockOrder
  import opened LiveIntervals
  import opened ScanTheory
  import opened RegisterTheory
  import opened ScanLimits
  import opened ScanTrace
  import opened RegisterAllocation

  // ----- functions of one block -----

  function OneBlock(): Graph {
    Graph(0, [[]], [[]])
  }

  lemma OneBlockGraph()
    ensures OneBlock().Valid() && AdjOf(OneBlock()) == map[0 := {}] && Reach(AdjOf(OneBlock()), 0, 0)
  {
    var g := OneBlock();
    assert forall a: Block, b: Block :: !g.Edge(a, b);
    assert AdjOf(g)[0] == {};
    ReachSelf(AdjOf(g), 0);
  }

  /** Its lines are numbered from one, in block one. */
  function Lines(xs: seq<Instr>): Layout {
    Layout(map[1 := 0], [xs])
  }

  lemma OneNumber(visited: set<Block>, num: map<Block, int>, back: map<int, Block>, c: int)
    requires Exploring(AdjOf(OneBlock()), 0, visited, num, {}) && Inverse(1, num, back, c) && 0 in num
    ensures back == map[1 := 0]
  {
    OneBlockGraph();
    assert num.Keys == {0};
    assert |num| == |num.Keys| == 1;
    assert forall k {:trigger k in back} :: k in back <==> k == 1;
    assert back[1] in num;
  }

  lemma OneLayout(alloc: RegAlloc)
    requires alloc.g == OneBlock() && alloc.g.Valid() && alloc.Numbering({})
    requires forall b {:trigger b in alloc.bb2int} :: b in alloc.bb2int <==> Reach(AdjOf(alloc.g), alloc.g.entry, b)
    ensures alloc.int2bb == map[1 := 0]
  {
    OneBlockGraph();
    OneNumber(alloc.visited, alloc.bb2int, alloc.int2bb, alloc.counter);
  }

  lemma StraightInput(alloc: RegAlloc, xs: seq<Instr>)
    requires alloc.g == OneBlock() && alloc.code == [xs] && Numbered(xs)
    requires FormalsOk(alloc.formals, alloc.floats, UsedOf(alloc.formals))
    requires forall k {:trigger Among(alloc.formals, k)} :: 0 <= k < |xs| ==> !Among(alloc.formals, k)
    ensures alloc.InputOk()
  {
    OneBlockGraph();
    hide FormalsOk, Among;
    forall b, l | 0 <= b < |alloc.code| && 0 <= l < |alloc.code[b]|
      ensures !alloc.IsFormal(alloc.code[b][l].val)
    {
      assert xs[l].val == l;
    }
  }

  /** The allocation of a function of one block. */
  method Allocate(xs: seq<Instr>, formals: seq<Formal>, floats: set<Value>) returns (alloc: RegAlloc)
    requires Numbered(xs) && FormalsOk(formals, floats, UsedOf(formals))
    requires forall k {:trigger Among(formals, k)} :: 0 <= k < |xs| ==> !Among(formals, k)
    ensures alloc.formals == formals && alloc.floats == floats && Collected(alloc, xs)
    ensures NO_REG in alloc.regMappings.Values <==> alloc.Verdict().Shortage?
    ensures alloc.Verdict().Placed? ==>
      alloc.Verdict() == Placed(alloc.NonFormals(alloc.Unspilled()), TagsIn(alloc.regMappings, alloc.argMap))
  {
    hide *;
    alloc := new RegAlloc(OneBlock(), [xs], formals, floats, _ => 4, false);
    StraightInput(alloc, xs);
    alloc.Run();
    OneBlockGraph();
    OneLayout(alloc);
    assert OneBlock().succs == [[]] by {
      BlockCount();
    }
    CollectedNow(alloc, xs);
  }

  lemma BlockCount()
    ensures OneBlock().succs == [[]]
  {
  }

  /** The intervals are those of the straight-line code. */
  ghost predicate Collected(alloc: RegAlloc, xs: seq<Instr>)
    reads alloc
  {
    && Built(Lines(xs), alloc.Params(), alloc.val2interval, Point(2, 0))
    && forall i {:trigger i in alloc.intervals} :: i in alloc.intervals <==>
         i.val in alloc.val2interval && alloc.val2interval[i.val] == i
  }

  lemma CollectedNow(alloc: RegAlloc, xs: seq<Instr>)
    requires alloc.code == [xs] && alloc.int2bb == map[1 := 0]
    requires Built(alloc.Order(), alloc.Params(), alloc.val2interval, Point(2, 0))
    requires forall i {:trigger i in alloc.intervals} :: i in alloc.intervals <==>
      i.val in alloc.val2interval && alloc.val2interval[i.val] == i
    ensures Collected(alloc, xs)
  {
    hide Built;
    assert alloc.Order() == Lines(xs);
  }

  /** Values are named after the lines that define them. */
  predicate Numbered(xs: seq<Instr>) {
    forall k {:trigger xs[k]} :: 0 <= k < |xs| ==> xs[k].val == k && !xs[k].alloca
  }

  /** A value that is used after its definition lives until its last use. */
  lemma LineInterval(xs: seq<Instr>, params: set<Value>, m: Intervals, p: Point, v: Value, last: int)
    requires Numbered(xs) && Built(Lines(xs), params, m, p) && p.bb > 1 && v !in params
    requires v < |xs| && xs[v].named && v + 1 < last <= |xs| && v in xs[last - 1].operands
    requires forall k {:trigger xs[k]} :: last <= k < |xs| ==> v !in xs[k].operands
    ensures v in m && m[v] == Interval(Point(1, v + 1), Point(1, last), v)
  {
    var y := Lines(xs);
    assert y.Defines(Point(1, v + 1), v) && y.Uses(Point(1, last), v);
    assert IntervalOk(y, params, v, m[v]);
    assert y.Defines(m[v].start, v);
    assert m[v].start == Point(1, v + 1);
  }

  /** Only named values have intervals. */
  lemma NamedOnly(xs: seq<Instr>, params: set<Value>, m: Intervals, p: Point, v: Value)
    requires Numbered(xs) && Built(Lines(xs), params, m, p) && v in m && v !in params
    ensures v < |xs| && xs[v].named
  {
    assert IntervalOk(Lines(xs), params, v, m[v]);
  }

  function Upto(n: nat): (vs: seq<Value>)
    ensures |vs| == n && forall k {:trigger vs[k]} :: 0 <= k < n ==> vs[k] == k
  {
    seq(n, k requires 0 <= k < n => k)
  }

  function Definition(v: Value): Instr {
    Instr(v, true, false, [])
  }

  // ----- out of registers -----

  /** n values are defined, and the next line uses them all, and all parameters. */
  function RowCode(n: nat, args: nat): (xs: seq<Instr>)
    ensures |xs| == n + 1 && Numbered(xs)
    ensures forall k {:trigger xs[k]} :: 0 <= k < n ==> xs[k] == Definition(k)
    ensures xs[n] == Instr(n, false, false, Upto(n) + ParamNames(n, args))
  {
    seq(n, k requires 0 <= k < n => Definition(k)) + [Instr(n, false, false, Upto(n) + ParamNames(n, args))]
  }

  function ParamNames(n: nat, args: nat): seq<Value> {
    seq(args, k requires 0 <= k < args => n + 1 + k)
  }

  function RowFormals(n: nat, args: nat): (ps: seq<Formal>)
    ensures |ps| == args && forall k {:trigger ps[k]} :: 0 <= k < args ==> ps[k] == Formal(n + 1 + k, true)
  {
    seq(args, k requires 0 <= k < args => Formal(n + 1 + k, true))
  }

  lemma {:induction false} RowCounts(n: nat, args: nat, used: set<Value>, f: bool)
    requires forall v {:trigger v in used} :: n < v <= n + args ==> v in used
    ensures var c := if f then 0 else args;
            CountUsed(RowFormals(n, args), {}, used, f) == c && CountClass(RowFormals(n, args), {}, f) == c
  {
    if args > 0 {
      RowCounts(n, args - 1, used, f);
      assert RowFormals(n, args)[..args - 1] == RowFormals(n, args - 1);
      assert n + args in used;
    }
  }

  lemma RowIntervals(n: nat, args: nat, params: set<Value>, m: Intervals, p: Point, i: Interval)
    requires Built(Lines(RowCode(n, args)), params, m, p) && p.bb > 1 && forall v: Value :: v in params <==>
      n < v <= n + args
    ensures i.val in m && m[i.val] == i && i.val !in params <==> i in Row(n, n + 1)
  {
    var xs := RowCode(n, args);
    hide Built, RowCode;
    if i.val < n {
      assert xs[n].operands[i.val] == i.val;
      LineInterval(xs, params, m, p, i.val, n + 1);
    } else if i.val in m && i.val !in params {
      NamedOnly(xs, params, m, p, i.val);
    }
  }

  lemma RowInput(n: nat, args: nat)
    requires args <= 8
    ensures FormalsOk(RowFormals(n, args), {}, UsedOf(RowFormals(n, args))) && CodeOk([RowCode(n, args)], {})
    ensures forall v: Value {:trigger Among(RowFormals(n, args), v)} :: Among(RowFormals(n, args), v) <==>
      n < v <= n + args
  {
    RowCodeOk(n, args);
    hide RowCode, CodeOk;
    var formals := RowFormals(n, args);
    forall k | 0 <= k < args
      ensures CountClass(formals[..k], {}, formals[k].val in {}) < 8
    {
      assert formals[..k] == RowFormals(n, k);
      RowCounts(n, k, BlocksBelow(n + k + 1), false);
    }
    forall v: Value | n < v <= n + args
      ensures Among(formals, v)
    {
      assert formals[v - n - 1].val == v;
    }
  }

  lemma RowCodeOk(n: nat, args: nat)
    ensures CodeOk([RowCode(n, args)], {})
  {
    hide RowCode;
  }

  /** Some value is left without a register exactly if there are two or more parameters and, with them,
      more than fifteen values. */
  method AllocateRow(n: nat, args: nat) returns (missing: bool)
    requires args <= 8
    ensures missing <==> args >= 2 && n + args > 15
  {
    RowInput(n, args);
    hide *;
    var alloc := Allocate(RowCode(n, args), RowFormals(n, args), {});
    missing := NO_REG in alloc.regMappings.Values;
    RowVerdict(alloc, n, args);
  }

  lemma RowVerdict(alloc: RegAlloc, n: nat, args: nat)
    requires args <= 8 && alloc.formals == RowFormals(n, args) && alloc.floats == {}
    requires Collected(alloc, RowCode(n, args))
    ensures alloc.Verdict().Shortage? <==> args >= 2 && n + args > 15
  {
    RowInput(n, args);
    RowUsed(alloc, n, args);
    RowShort(n, args);
    hide RowCode, RowFormals, Built, Outcomes, Row, CountUsed;
    forall i
      ensures i in alloc.NonFormals(alloc.intervals) <==> i in Row(n, n + 1)
    {
      RowIntervals(n, args, alloc.Params(), alloc.val2interval, Point(2, 0), i);
    }
    assert alloc.NonFormals(alloc.intervals) == Row(n, n + 1);
  }

  lemma RowUsed(alloc: RegAlloc, n: nat, args: nat)
    requires alloc.formals == RowFormals(n, args) && alloc.floats == {} && Collected(alloc, RowCode(n, args))
    ensures forall v: Value :: v in alloc.Params() <==> n < v <= n + args
    ensures alloc.TakenNow() == Taken(args, 0)
  {
    forall v: Value | n < v <= n + args
      ensures v in alloc.Params() && v in alloc.val2interval
    {
      assert alloc.formals[v - n - 1] == Formal(v, true);
      assert v in alloc.Params();
    }
    RowCounts(n, args, alloc.val2interval.Keys, false);
    RowCounts(n, args, alloc.val2interval.Keys, true);
  }

  // ----- a float in an integer register -----

  /** Fourteen integers, a float that the next line uses for the last time, and a line with all integers. */
  function MixedCode(): (xs: seq<Instr>)
    ensures |xs| == 17 && Numbered(xs)
    ensures forall k {:trigger xs[k]} :: 0 <= k < 15 ==> xs[k] == Definition(k)
    ensures xs[15] == Instr(15, false, false, [14]) && xs[16] == Instr(16, false, false, Upto(14))
  {
    seq(15, k requires 0 <= k < 15 => Definition(k))
      + [Instr(15, false, false, [14]), Instr(16, false, false, Upto(14))]
  }

  lemma MixedIntervals(m: Intervals, p: Point, i: Interval, n: nat)
    requires Built(Lines(MixedCode()), {}, m, p) && p.bb > 1 && n == 14
    ensures i.val in m && m[i.val] == i <==> i in Row(n, 17) + {ShortFloat()}
  {
    hide MixedCode, Row, Built, Upto;
    var xs := MixedCode();
    if i.val < 14 {
      assert xs[16].operands[i.val] == i.val;
      LineInterval(xs, {}, m, p, i.val, 17);
    } else if i.val == 14 {
      LineInterval(xs, {}, m, p, 14, 16);
    } else if i.val in m {
      NamedOnly(xs, {}, m, p, i.val);
    }
  }

  lemma MixedVerdict(alloc: RegAlloc, n: nat)
    requires alloc.formals == [] && alloc.floats == {14} && Collected(alloc, MixedCode()) && n == 14
    ensures alloc.Verdict() == Outcomes({14}, Taken(0, 0), Row(n, 17) + {ShortFloat()})
    ensures !alloc.IsFormal(14)
  {
    hide MixedCode, Row, Built, Outcomes;
    assert alloc.Params() == {};
    forall i
      ensures i in alloc.NonFormals(alloc.intervals) <==> i in Row(n, 17) + {ShortFloat()}
    {
      MixedIntervals(alloc.val2interval, Point(2, 0), i, n);
    }
    assert alloc.NonFormals(alloc.intervals) == Row(n, 17) + {ShortFloat()};
  }

  lemma NoFormals()
    ensures FormalsOk([], {14}, UsedOf([])) && forall v {:trigger Among([], v)} :: !Among([], v)
  {
  }

  /** Value 14, a float, keeps an integer register. */
  method AllocateMixed() returns (regs: Mapping, spilled: set<Value>)
    ensures 14 !in spilled && 14 in regs && regs[14] != NO_REG && !regs[14].isFloat
  {
    hide *;
    NoFormals();
    var alloc := Allocate(MixedCode(), [], {14});
    regs, spilled := alloc.regMappings, alloc.stackMappings.Keys;
    MixedRegister(alloc);
  }

  lemma MixedRegister(alloc: RegAlloc)
    requires alloc.formals == [] && alloc.floats == {14} && Collected(alloc, MixedCode())
    requires NO_REG in alloc.regMappings.Values <==> alloc.Verdict().Shortage?
    requires alloc.Verdict().Placed? ==>
      alloc.Verdict() == Placed(alloc.NonFormals(alloc.Unspilled()), TagsIn(alloc.regMappings, alloc.argMap))
    ensures 14 !in alloc.stackMappings && 14 in alloc.regMappings && alloc.regMappings[14] != NO_REG
    ensures !alloc.regMappings[14].isFloat
  {
    hide Row, Outcomes, MixedCode, Collected, RegAlloc.Verdict;
    MixedVerdict(alloc, 14);
    FloatInIntRegister();
    assert ShortFloat() in alloc.NonFormals(alloc.Unspilled());
    assert 14 in TagsIn(alloc.regMappings, alloc.argMap);
    assert alloc.regMappings[14] in alloc.regMappings.Values;
  }
}
