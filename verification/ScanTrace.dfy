/** The scan with registers does what the scan without them predicts, as long as no register is missing. */
module ScanTrace {
  import opened ScanTheory
  import opened RegisterTheory
  import opened ScanLimits
  import opened ScanOrigins

  /** The classes of the registers given to values that are not arguments. */
  ghost function TagsIn(regs: Mapping, args: Mapping): map<Value, bool> {
    map v | v in regs && v !in args :: regs[v].isFloat
  }

  ghost function PlacesOf(q: Sorted, t: ScanState, args: Mapping): Places {
    Places(t.active, q.kept, TagsIn(t.regs, args))
  }

  lemma TagsMore(regs: Mapping, args: Mapping, v: Value, r: Reg)
    requires v !in args
    ensures TagsIn(regs[v := r], args) == TagsIn(regs, args)[v := r.isFloat]
  {
  }

  lemma TagAt(regs: Mapping, args: Mapping, v: Value)
    requires v in regs && v !in args
    ensures v in TagsIn(regs, args) && TagsIn(regs, args)[v] == regs[v].isFloat
  {
  }

  /** Counting the values with registers of a class counts the registers. */
  lemma HeldTagged(q: Sorted, t: ScanState, args: set<Reg>, argMap: Mapping, f: bool)
    requires ScanOk(q, t, args, argMap) && Equipped(q.kept, t.regs, t.free)
    ensures |Tagged(t.active, TagsIn(t.regs, argMap), f)| == |Held(t.active, t.regs) * Class(f)|
  {
    hide ScanOk, Equipped, AllRegs, Held, Class;
    ActiveFacts(q, t, args, argMap);
    var part := Tagged(t.active, TagsIn(t.regs, argMap), f);
    assert part == Holders(part, t.regs);
    assert part <= t.active;
    hide Holders, Tagged, TagsIn;
    InjectivePart(t.active, t.regs, part);
    HeldSize(part, t.regs);
    HeldPart(t.active, t.regs, part, f);
  }

  lemma InjectivePart(active: set<Interval>, regs: Mapping, part: set<Interval>)
    requires Injective(active, regs) && part <= active
    ensures Injective(part, regs)
  {
    assert Holders(part, regs) <= Holders(active, regs);
  }

  lemma ActiveFacts(q: Sorted, t: ScanState, args: set<Reg>, argMap: Mapping)
    requires ScanOk(q, t, args, argMap) && Equipped(q.kept, t.regs, t.free)
    ensures Injective(t.active, t.regs) && Held(t.active, t.regs) <= AllRegs()
    ensures forall j {:trigger j in t.active} :: j in t.active ==>
      j.val in t.regs && t.regs[j.val] != NO_REG && j.val !in argMap
  {
    hide Feasible, NothingLost, IntervalsOk, NoConflict, AllRegs;
    forall j | j in t.active
      ensures j.val !in argMap
    {
      assert j in q.kept && j in q.all;
    }
  }

  lemma HeldPart(active: set<Interval>, regs: Mapping, part: set<Interval>, f: bool)
    requires Held(active, regs) <= AllRegs() && part <= active
    requires forall j {:trigger j in active} :: j in active ==>
      j.val in regs && regs[j.val] != NO_REG && (j in part <==> regs[j.val].isFloat == f)
    ensures Held(part, regs) == Held(active, regs) * Class(f)
  {
    AllSize();
    hide AllRegs, Class;
    ClassSize(f);
    forall r | r in Held(active, regs) * Class(f)
      ensures r in Held(part, regs)
    {
      var j :| j in Holders(active, regs) && regs[j.val] == r;
      assert j in Holders(part, regs);
    }
    forall r | r in Held(part, regs)
      ensures r in Held(active, regs) * Class(f)
    {
      var j :| j in Holders(part, regs) && regs[j.val] == r;
      assert j in Holders(active, regs);
      assert r in AllRegs();
    }
  }

  lemma NextAlive(q: Sorted, t: ScanState, args: set<Reg>, argMap: Mapping, i: Interval)
    requires ScanOk(q, t, args, argMap) && Next(t.active, q.rest, i)
    ensures Alive(t.active, i.start) == t.active && IntervalsOk(q.all) && q.rest <= q.all && i.val !in argMap
    ensures i.val !in t.regs && t.active <= q.all
  {
    hide Feasible, NothingLost, IntervalsOk, NoConflict, Holding;
    assert i in q.all;
  }

  /** Expiry changes nothing about the outcome. */
  lemma TraceExpire(q: Sorted, t: ScanState, args: set<Reg>, argMap: Mapping, floats: set<Value>, taken: Taken,
                    p: Point, active: set<Interval>)
    requires ScanOk(q, t, args, argMap) && forall k {:trigger k in q.rest} :: k in q.rest ==> p.AtMost(k.start)
    requires forall j {:trigger j in active} :: j in active <==> j in t.active && p.AtMost(j.end)
    ensures Scan(floats, taken, PlacesOf(q, t.(active := active), argMap), q.rest) ==
      Scan(floats, taken, PlacesOf(q, t, argMap), q.rest)
  {
    hide Feasible, NothingLost, IntervalsOk, NoConflict, Holding, Recorded, Scan;
    assert active == Alive(t.active, p);
    ScanExpired(q.all, floats, taken, PlacesOf(q, t, argMap), q.rest, p);
  }

  /** A free place: the register that is found, or not, is the one foreseen. */
  lemma TracePlace(q: Sorted, t: ScanState, args: set<Reg>, argMap: Mapping, floats: set<Value>, taken: Taken,
                   i: Interval, r: Reg)
    requires ScanOk(q, t, args, argMap) && Next(t.active, q.rest, i) && IsFirst(q.rest, i) && |t.active| < LIMIT
    requires Equipped(q.kept, t.regs, t.free) && taken.Of(i.val in floats) == |args * Class(i.val in floats)|
    requires r == NO_REG <==> Load(t.active, t.regs, args, i.val in floats) >= 15
    requires r == NO_REG || r.isFloat == (i.val in floats)
    ensures var now, later := PlacesOf(q, t, argMap), PlacesOf(Added(q, i), Assigned(t, i, r), argMap);
            if r == NO_REG then Scan(floats, taken, now, q.rest).Shortage?
            else Scan(floats, taken, now, q.rest) == Scan(floats, taken, later, q.rest - {i})
  {
    hide ScanOk, Equipped, Next, IsFirst, Held, Class, Alive, Tagged, TagsIn, Scan, IntervalsOk;
    NextAlive(q, t, args, argMap, i);
    HeldTagged(q, t, args, argMap, i.val in floats);
    TagsMore(t.regs, argMap, i.val, r);
    ScanStep(q.all, floats, taken, PlacesOf(q, t, argMap), q.rest, i);
  }

  /** No place: the interval with the furthest end goes, and its register with its class passes on. */
  lemma TraceSpill(q: Sorted, t: ScanState, args: set<Reg>, argMap: Mapping, floats: set<Value>, taken: Taken,
                   i: Interval, t1: ScanState, q1: Sorted)
    requires ScanOk(q, t, args, argMap) && Next(t.active, q.rest, i) && IsFirst(q.rest, i) && |t.active| == LIMIT
    requires Spills(t, q.kept, i, t1, q1.kept) && q1.all == q.all && q1.rest == q.rest - {i}
    ensures Scan(floats, taken, PlacesOf(q, t, argMap), q.rest) ==
      Scan(floats, taken, PlacesOf(q1, t1, argMap), q1.rest)
    ensures t1.regs.Values == t.regs.Values && t.regs.Keys <= t1.regs.Keys <= t.regs.Keys + {i.val}
  {
    hide ScanOk, Next, IsFirst, IsLast, Alive, Tagged, Scan, IntervalsOk, TagsIn;
    var x :| IsLast(t.active, x) && SpillsOne(t, q.kept, i, x, t1, q1.kept);
    NextAlive(q, t, args, argMap, i);
    LastIs(q.all, t.active, x);
    LastIn(t.active);
    SpilledFacts(q, t, args, argMap, x);
    TagsMore(t.regs, argMap, i.val, t.regs[x.val]);
    TagAt(t.regs, argMap, x.val);
    FreshValue(t.regs, i.val, t.regs[x.val]);
    ScanStep(q.all, floats, taken, PlacesOf(q, t, argMap), q.rest, i);
  }

  lemma FreshValue(m: Mapping, v: Value, r: Reg)
    requires v !in m
    ensures m[v := r].Values == m.Values + {r}
  {
    assert m[v := r][v] == r;
    forall q | q in m.Values
      ensures q in m[v := r].Values
    {
      var u :| u in m && m[u] == q;
      assert m[v := r][u] == q;
    }
  }

  lemma SpilledFacts(q: Sorted, t: ScanState, args: set<Reg>, argMap: Mapping, x: Interval)
    requires ScanOk(q, t, args, argMap) && x in t.active
    ensures x.val in t.regs && x.val !in argMap
  {
    hide Feasible, NothingLost, IntervalsOk, NoConflict, Holding;
    assert x in q.kept && x in q.all;
  }

  /** What spilling at i does: of i and the last of the active intervals, x, one is spilled, and i gets the
      register of x if that is x. */
  ghost predicate Spills(t: ScanState, kept: set<Interval>, i: Interval, t1: ScanState, kept1: set<Interval>) {
    exists x :: IsLast(t.active, x) && SpillsOne(t, kept, i, x, t1, kept1)
  }

  ghost predicate SpillsOne(t: ScanState, kept: set<Interval>, i: Interval, x: Interval, t1: ScanState,
                            kept1: set<Interval>) {
    if i.end.Less(x.end) then x.val in t.regs && t1 == TakenOver(t, i, x) && kept1 == kept - {x} + {i}
    else t1 == Spilled(t, i) && kept1 == kept
  }

  /** As long as no value got "no register", all outcomes are as foreseen; later ones do not matter. */
  ghost predicate Foreseen(q: Sorted, t: ScanState, argMap: Mapping, floats: set<Value>, taken: Taken, short: bool) {
    if short then Outcomes(floats, taken, q.all).Shortage?
    else Scan(floats, taken, PlacesOf(q, t, argMap), q.rest) == Outcomes(floats, taken, q.all)
  }

  lemma ForeseenStart(q: Sorted, t: ScanState, argMap: Mapping, floats: set<Value>, taken: Taken)
    requires q.kept == t.active == {} && q.rest == q.all && t.regs == argMap
    ensures Foreseen(q, t, argMap, floats, taken, false)
  {
    assert PlacesOf(q, t, argMap) == NOTHING;
  }

  // ----- also when registers are missing -----

  /** A free place: i is kept, with or without a register. */
  lemma KeepPlace(q: Sorted, t: ScanState, args: set<Reg>, argMap: Mapping, i: Interval)
    requires ScanOk(q, t, args, argMap) && Next(t.active, q.rest, i) && IsFirst(q.rest, i) && |t.active| < LIMIT
    ensures WillKeep(t.active, q.kept, q.rest) == WillKeep(t.active + {i}, q.kept + {i}, q.rest - {i})
  {
    hide ScanOk, Next, IsFirst, Alive, WillKeep, IntervalsOk;
    NextAlive(q, t, args, argMap, i);
    WillKeepNext(q.all, t.active, q.kept, q.rest, i);
  }

  lemma KeepSpill(q: Sorted, t: ScanState, args: set<Reg>, argMap: Mapping, i: Interval, t1: ScanState,
                  kept1: set<Interval>)
    requires ScanOk(q, t, args, argMap) && Next(t.active, q.rest, i) && IsFirst(q.rest, i) && |t.active| == LIMIT
    requires Spills(t, q.kept, i, t1, kept1)
    ensures WillKeep(t.active, q.kept, q.rest) == WillKeep(t1.active, kept1, q.rest - {i})
  {
    hide ScanOk, Next, IsFirst, IsLast, Alive, WillKeep, IntervalsOk;
    var x :| IsLast(t.active, x) && SpillsOne(t, q.kept, i, x, t1, kept1);
    NextAlive(q, t, args, argMap, i);
    LastIs(q.all, t.active, x);
    WillKeepNext(q.all, t.active, q.kept, q.rest, i);
  }

  lemma KeepExpire(q: Sorted, t: ScanState, args: set<Reg>, argMap: Mapping, p: Point, active: set<Interval>)
    requires ScanOk(q, t, args, argMap) && forall k {:trigger k in q.rest} :: k in q.rest ==> p.AtMost(k.start)
    requires forall j {:trigger j in active} :: j in active <==> j in t.active && p.AtMost(j.end)
    ensures WillKeep(active, q.kept, q.rest) == WillKeep(t.active, q.kept, q.rest)
  {
    hide Feasible, NothingLost, IntervalsOk, NoConflict, Holding, Recorded, Finish;
    assert active == Alive(t.active, p);
    FinishExpired(q.all, Course(t.active, q.kept, map[]), q.rest, p);
  }

  /** Some kept interval has no register. */
  ghost predicate Lacking(kept: set<Interval>, regs: Mapping) {
    exists j :: j in kept && j.val in regs && regs[j.val] == NO_REG
  }

  /** Having no register is passed on like a register. */
  lemma LackingSpill(q: Sorted, t: ScanState, args: set<Reg>, argMap: Mapping, i: Interval, t1: ScanState,
                     kept1: set<Interval>)
    requires ScanOk(q, t, args, argMap) && Next(t.active, q.rest, i) && Spills(t, q.kept, i, t1, kept1)
    requires Lacking(q.kept, t.regs)
    ensures Lacking(kept1, t1.regs)
  {
    hide ScanOk, Next, IsLast, IntervalsOk;
    NextAlive(q, t, args, argMap, i);
    var x :| IsLast(t.active, x) && SpillsOne(t, q.kept, i, x, t1, kept1);
    var j :| j in q.kept && j.val in t.regs && t.regs[j.val] == NO_REG;
    assert j.val != i.val;
    if j == x {
      assert i.end.Less(x.end) ==> i in kept1 && t1.regs[i.val] == NO_REG;
    }
    assert !i.end.Less(x.end) || j != x ==> j in kept1 && t1.regs[j.val] == NO_REG;
  }
}
