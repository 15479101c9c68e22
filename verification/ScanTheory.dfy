/** Live intervals, and why dropping the interval with the furthest end keeps as many as possible. */
module ScanTheory {
  import opened Sizes

  type Value = nat

  /** A position in the code: a block's number and a line inside the block. */
  datatype Point = Point(bb: int, line: int) {
    predicate Less(q: Point) {
      bb < q.bb || (bb == q.bb && line < q.line)
    }

    predicate AtMost(q: Point) {
      !q.Less(this)
    }
  }

  /** Both ends are inclusive. */
  datatype Interval = Interval(start: Point, end: Point, val: Value) {
    predicate Contains(p: Point) {
      start.AtMost(p) && p.AtMost(end)
    }

    predicate Overlaps(j: Interval) {
      start.AtMost(j.end) && j.start.AtMost(end)
    }
  }

  /** The order of the active set. */
  predicate ActiveLess(l: Interval, r: Interval) {
    l.end.Less(r.end) || (!r.end.Less(l.end) && l.val < r.val)
  }

  /** The order in which intervals are scanned. */
  predicate IntervalLess(l: Interval, r: Interval) {
    l.start.Less(r.start) || (!r.start.Less(l.start) && l.val < r.val)
  }

  /** One interval per value, none that ends before it starts. */
  ghost predicate IntervalsOk(all: set<Interval>) {
    && (forall i {:trigger i in all} :: i in all ==> i.start.AtMost(i.end))
    && (forall i, j {:trigger i in all, j in all} :: i in all && j in all && i.val == j.val ==> i == j)
  }

  /** The number of registers the scan counts on: seven of each class. */
  const LIMIT := 14

  ghost function At(s: set<Interval>, p: Point): set<Interval> {
    set i | i in s && i.Contains(p)
  }

  /** Nowhere do more than LIMIT intervals overlap. */
  ghost predicate Feasible(s: set<Interval>) {
    forall p {:trigger At(s, p)} :: |At(s, p)| <= LIMIT
  }

  /** Avoiding the dropped intervals costs nothing: every feasible choice has an equally large one that
      does without them. */
  ghost predicate NothingLost(all: set<Interval>, dropped: set<Interval>) {
    forall f {:trigger Feasible(f)} :: f <= all && Feasible(f) ==> Replaceable(all, dropped, |f|)
  }

  ghost predicate Replaceable(all: set<Interval>, dropped: set<Interval>, n: nat) {
    exists f {:trigger Feasible(f)} :: f <= all - dropped && Feasible(f) && |f| >= n
  }

  // ----- the exchange argument -----

  /** What f has before p0, it shares with kept. */
  ghost predicate SharesBefore(f: set<Interval>, kept: set<Interval>, p0: Point) {
    forall z {:trigger z in f} :: z in f && z.start.Less(p0) ==> z in kept
  }

  /** Replacing x by y, which also covers p0 and does not end later, keeps the choice feasible. */
  lemma ExchangeAt(kept: set<Interval>, p0: Point, f: set<Interval>, x: Interval, y: Interval, p: Point)
    requires Feasible(f) && Feasible(kept) && SharesBefore(f, kept, p0)
    requires x in f && y !in f && x.Contains(p0) && y.Contains(p0) && y.end.AtMost(x.end)
    requires (y.start.Less(p0) ==> y in kept)
    ensures |At(f - {x} + {y}, p)| <= LIMIT
  {
    var f' := f - {x} + {y};
    if !y.Contains(p) {
      assert At(f', p) <= At(f, p);
      SubsetSize(At(f', p), At(f, p));
    } else if x.Contains(p) {
      assert At(f', p) == At(f, p) - {x} + {y};
      assert x in At(f, p);
    } else {
      assert p.Less(p0);
      forall z | z in At(f', p)
        ensures z in At(kept, p)
      {
        assert z.start.Less(p0);
      }
      SubsetSize(At(f', p), At(kept, p));
    }
  }

  lemma ExchangeFeasible(kept: set<Interval>, p0: Point, f: set<Interval>, x: Interval, y: Interval)
    requires Feasible(f) && Feasible(kept) && SharesBefore(f, kept, p0)
    requires x in f && y !in f && x.Contains(p0) && y.Contains(p0) && y.end.AtMost(x.end)
    requires (y.start.Less(p0) ==> y in kept)
    ensures Feasible(f - {x} + {y}) && |f - {x} + {y}| == |f|
  {
    forall p
      ensures |At(f - {x} + {y}, p)| <= LIMIT
    {
      ExchangeAt(kept, p0, f, x, y, p);
    }
  }

  /** A feasible choice misses one of LIMIT + 1 intervals that share a point. */
  lemma OneMissing(crowd: set<Interval>, p: Point, f: set<Interval>) returns (y: Interval)
    requires Feasible(f) && |crowd| > LIMIT && forall j {:trigger j in crowd} :: j in crowd ==> j.Contains(p)
    ensures y in crowd && y !in f
  {
    if crowd <= f {
      assert crowd <= At(f, p);
      SubsetSize(crowd, At(f, p));
    }
    y :| y in crowd && y !in f;
  }

  // ----- the scan, as far as the intervals go -----

  ghost predicate Split(all: set<Interval>, kept: set<Interval>, dropped: set<Interval>, rest: set<Interval>) {
    kept + dropped + rest == all && kept !! dropped && kept !! rest && dropped !! rest
  }

  /** Intervals come in the order of their starts, and what is kept but no longer active has ended. */
  ghost predicate Ordered(kept: set<Interval>, active: set<Interval>, rest: set<Interval>) {
    && active <= kept
    && (forall j, k {:trigger j in kept, k in rest} :: j in kept && k in rest ==> j.start.AtMost(k.start))
    && (forall j, k {:trigger j in kept, k in rest} :: j in kept && j !in active && k in rest ==> j.end.Less(k.start))
  }

  /** The intervals (of values that are not arguments) while they are scanned: the rest is still to
      come; of the others some were dropped, and of the kept ones the active ones may still overlap
      what is to come. */
  ghost predicate Scanning(all: set<Interval>, kept: set<Interval>, active: set<Interval>, dropped: set<Interval>,
                           rest: set<Interval>) {
    && IntervalsOk(all) && Split(all, kept, dropped, rest) && Ordered(kept, active, rest)
    && |active| <= LIMIT && Feasible(kept) && NothingLost(all, dropped)
  }

  /** i comes next, and what ended before it has expired. */
  ghost predicate Next(active: set<Interval>, rest: set<Interval>, i: Interval) {
    && i in rest
    && (forall k {:trigger k in rest} :: k in rest ==> i.start.AtMost(k.start))
    && (forall j {:trigger j in active} :: j in active ==> i.start.AtMost(j.end))
  }

  /** x ends last. */
  ghost predicate Furthest(s: set<Interval>, x: Interval) {
    x in s && forall j {:trigger j in s} :: j in s ==> j.end.AtMost(x.end)
  }

  lemma ScanStart(all: set<Interval>)
    requires IntervalsOk(all)
    ensures Scanning(all, {}, {}, {}, all)
  {
    forall p
      ensures |At({}, p)| <= LIMIT
    {
      assert At({}, p) == {};
    }
    forall f | f <= all && Feasible(f)
      ensures Replaceable(all, {}, |f|)
    {
      assert f <= all - {};
    }
  }

  lemma ScanExpire(all: set<Interval>, kept: set<Interval>, active: set<Interval>, dropped: set<Interval>,
                   rest: set<Interval>, p: Point, active': set<Interval>)
    requires Scanning(all, kept, active, dropped, rest) && forall k {:trigger k in rest} :: k in rest ==>
      p.AtMost(k.start)
    requires active' <= active && forall j :: j in active - active' ==> j.end.Less(p)
    ensures Scanning(all, kept, active', dropped, rest)
  {
    hide Feasible, NothingLost, IntervalsOk, Split;
    SubsetSize(active', active);
  }

  lemma OrderedNext(kept: set<Interval>, active: set<Interval>, rest: set<Interval>, i: Interval, kept': set<Interval>)
    requires Ordered(kept, active, rest) && Next(active, rest, i) && kept' <= kept + {i}
    ensures Ordered(kept', (active + {i}) * kept', rest - {i})
  {
    forall j, k | j in kept' && k in rest - {i}
      ensures j.start.AtMost(k.start) && (j !in active + {i} ==> j.end.Less(k.start))
    {
      if j != i {
        assert j in kept && k in rest;
      }
    }
  }

  lemma FeasibleNext(kept: set<Interval>, active: set<Interval>, rest: set<Interval>, i: Interval, kept': set<Interval>)
    requires Ordered(kept, active, rest) && Next(active, rest, i) && Feasible(kept)
    requires kept' <= kept + {i} && |(active + {i}) * kept'| <= LIMIT
    ensures Feasible(kept')
  {
    var active' := (active + {i}) * kept';
    forall p
      ensures |At(kept', p)| <= LIMIT
    {
      if p.Less(i.start) {
        assert At(kept', p) <= At(kept, p);
        SubsetSize(At(kept', p), At(kept, p));
      } else {
        forall j | j in At(kept', p)
          ensures j in active'
        {
          if j != i {
            assert j in kept && i in rest;
          }
        }
        SubsetSize(At(kept', p), active');
      }
    }
  }

  /** One step: i joins, and of it and the active intervals those in kept' stay. */
  lemma ScanNext(all: set<Interval>, kept: set<Interval>, active: set<Interval>, dropped: set<Interval>,
                 rest: set<Interval>, i: Interval, kept': set<Interval>, dropped': set<Interval>,
                 active': set<Interval>)
    requires Scanning(all, kept, active, dropped, rest) && Next(active, rest, i)
    requires kept' <= kept + {i} && Split(all, kept', dropped', rest - {i}) && NothingLost(all, dropped')
    requires active' == (active + {i}) * kept' && |active'| <= LIMIT
    ensures Scanning(all, kept', active', dropped', rest - {i})
  {
    hide Feasible, NothingLost, IntervalsOk, Split, Ordered, Next;
    OrderedNext(kept, active, rest, i, kept');
    FeasibleNext(kept, active, rest, i, kept');
  }

  /** The next interval is kept when a place is free. */
  lemma ScanAdd(all: set<Interval>, kept: set<Interval>, active: set<Interval>, dropped: set<Interval>,
                rest: set<Interval>, i: Interval)
    requires Scanning(all, kept, active, dropped, rest) && Next(active, rest, i) && |active| < LIMIT
    ensures Scanning(all, kept + {i}, active + {i}, dropped, rest - {i})
  {
    hide Feasible, NothingLost, IntervalsOk;
    assert active + {i} == (active + {i}) * (kept + {i});
    ScanNext(all, kept, active, dropped, rest, i, kept + {i}, dropped, active + {i});
  }

  lemma CrowdAt(kept: set<Interval>, active: set<Interval>, rest: set<Interval>, i: Interval)
    requires Ordered(kept, active, rest) && Next(active, rest, i) && |active| == LIMIT && i !in kept
    requires i.start.AtMost(i.end)
    ensures |active + {i}| > LIMIT && forall j {:trigger j in active + {i}} :: j in active + {i} ==> j.Contains(i.start)
  {
    forall j | j in active + {i}
      ensures j.Contains(i.start)
    {
      if j != i {
        assert j in kept && i in rest;
      }
    }
  }

  lemma CrowdMember(all: set<Interval>, kept: set<Interval>, active: set<Interval>, dropped: set<Interval>,
                    rest: set<Interval>, i: Interval, y: Interval)
    requires Split(all, kept, dropped, rest) && active <= kept && i in rest && y in active + {i}
    ensures y in all && y !in dropped && (y.start.Less(i.start) ==> y in kept)
  {
  }

  lemma ReplacedSets(all: set<Interval>, dropped: set<Interval>, f: set<Interval>, x: Interval, y: Interval)
    requires f <= all - dropped && y in all && y !in dropped && y != x
    ensures f - {x} + {y} <= all - (dropped + {x})
  {
  }

  lemma SharesNext(all: set<Interval>, kept: set<Interval>, dropped: set<Interval>, rest: set<Interval>,
                   active: set<Interval>, i: Interval, f: set<Interval>)
    requires Split(all, kept, dropped, rest) && Next(active, rest, i) && f <= all - dropped
    ensures SharesBefore(f, kept, i.start)
  {
    forall z | z in f && z.start.Less(i.start)
      ensures z in kept
    {
      assert z !in rest;
    }
  }

  /** The exchange argument: a feasible choice that uses the interval with the furthest end can use
      another of the overlapping ones instead. */
  lemma Exchange(all: set<Interval>, kept: set<Interval>, active: set<Interval>, dropped: set<Interval>,
                 rest: set<Interval>, i: Interval, x: Interval, f: set<Interval>)
    requires Scanning(all, kept, active, dropped, rest) && Next(active, rest, i) && |active| == LIMIT
    requires Furthest(active + {i}, x) && f <= all - dropped && Feasible(f)
    ensures Replaceable(all, dropped + {x}, |f|)
  {
    if x !in f {
      assert f <= all - (dropped + {x});
      return;
    }
    assert i in all && i !in kept;
    CrowdAt(kept, active, rest, i);
    var y := OneMissing(active + {i}, i.start, f);
    SharesNext(all, kept, dropped, rest, active, i, f);
    CrowdMember(all, kept, active, dropped, rest, i, y);
    hide Feasible, NothingLost, IntervalsOk, Next, SharesBefore, Split, Ordered;
    ExchangeFeasible(kept, i.start, f, x, y);
    ReplacedSets(all, dropped, f, x, y);
  }

  lemma DropLosesNothing(all: set<Interval>, kept: set<Interval>, active: set<Interval>, dropped: set<Interval>,
                         rest: set<Interval>, i: Interval, x: Interval)
    requires Scanning(all, kept, active, dropped, rest) && Next(active, rest, i) && |active| == LIMIT
    requires Furthest(active + {i}, x)
    ensures NothingLost(all, dropped + {x})
  {
    hide Feasible, IntervalsOk, Ordered, Next, Furthest, Split;
    forall f | f <= all && Feasible(f)
      ensures Replaceable(all, dropped + {x}, |f|)
    {
      assert Replaceable(all, dropped, |f|);
      var f0 :| f0 <= all - dropped && Feasible(f0) && |f0| >= |f|;
      Exchange(all, kept, active, dropped, rest, i, x, f0);
      var f1 :| f1 <= all - (dropped + {x}) && Feasible(f1) && |f1| >= |f0|;
    }
  }

  lemma SwapSets(all: set<Interval>, kept: set<Interval>, active: set<Interval>, dropped: set<Interval>,
                 rest: set<Interval>, i: Interval, x: Interval)
    requires Split(all, kept, dropped, rest) && active <= kept && x in active && i in rest
    ensures var kept', active' := kept - {x} + {i}, active - {x} + {i};
            active' == (active + {i}) * kept' && |active'| == |active| && Split(all, kept', dropped + {x}, rest - {i})
  {
    assert i !in kept && x in kept;
    var kept' := kept - {x} + {i};
    assert kept' + (dropped + {x}) + (rest - {i}) == kept + dropped + rest;
  }

  /** The next interval takes the place of the active one with the furthest end. */
  lemma ScanSwap(all: set<Interval>, kept: set<Interval>, active: set<Interval>, dropped: set<Interval>,
                 rest: set<Interval>, i: Interval, x: Interval)
    requires Scanning(all, kept, active, dropped, rest) && Next(active, rest, i) && |active| == LIMIT
    requires Furthest(active, x) && i.end.Less(x.end)
    ensures Scanning(all, kept - {x} + {i}, active - {x} + {i}, dropped + {x}, rest - {i})
  {
    hide Feasible, NothingLost, IntervalsOk;
    DropLosesNothing(all, kept, active, dropped, rest, i, x);
    var kept', active' := kept - {x} + {i}, active - {x} + {i};
    SwapSets(all, kept, active, dropped, rest, i, x);
    ScanNext(all, kept, active, dropped, rest, i, kept', dropped + {x}, active');
  }

  /** The next interval ends last itself and is dropped. */
  lemma ScanDrop(all: set<Interval>, kept: set<Interval>, active: set<Interval>, dropped: set<Interval>,
                 rest: set<Interval>, i: Interval, x: Interval)
    requires Scanning(all, kept, active, dropped, rest) && Next(active, rest, i) && |active| == LIMIT
    requires Furthest(active, x) && !i.end.Less(x.end)
    ensures Scanning(all, kept, active, dropped + {i}, rest - {i})
  {
    hide Feasible, NothingLost, IntervalsOk;
    DropLosesNothing(all, kept, active, dropped, rest, i, i);
    assert i !in kept && active <= kept;
    assert active == (active + {i}) * kept;
    assert Split(all, kept, dropped + {i}, rest - {i});
    ScanNext(all, kept, active, dropped, rest, i, kept, dropped + {i}, active);
  }

  /** What the scan ends with: a feasible choice, and none is larger. */
  lemma ScanOptimal(all: set<Interval>, kept: set<Interval>, active: set<Interval>, dropped: set<Interval>)
    requires Scanning(all, kept, active, dropped, {})
    ensures Feasible(kept) && kept <= all && forall f {:trigger Feasible(f)} :: f <= all && Feasible(f) ==>
      |f| <= |kept|
  {
    hide Feasible, IntervalsOk, Ordered;
    forall f | f <= all && Feasible(f)
      ensures |f| <= |kept|
    {
      assert Replaceable(all, dropped, |f|);
      var f0 :| f0 <= all - dropped && Feasible(f0) && |f0| >= |f|;
      SubsetSize(f0, kept);
    }
  }
}
