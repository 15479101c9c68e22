/** The register pools of the linear scan, and who holds what. */
module RegisterTheory {
  import opened ScanTheory
  import opened Sizes

  /** A machine register; -1 is the id of no register. */
  datatype Reg = Reg(id: int, isFloat: bool)

  const NO_REG := Reg(-1, false)

  /** The registers of one class with ids from lo to hi - 1. */
  function Bank(lo: int, hi: int, f: bool): set<Reg> {
    set id: int | lo <= id < hi :: Reg(id, f)
  }

  /** Seven temporaries: t0 to t2 and t3 to t6. */
  function Temps(f: bool): set<Reg> {
    Bank(5, 8, f) + Bank(28, 32, f)
  }

  /** Eight argument registers. */
  function Args(f: bool): set<Reg> {
    Bank(10, 18, f)
  }

  function Class(f: bool): set<Reg> {
    Temps(f) + Args(f)
  }

  function AllRegs(): set<Reg> {
    Class(false) + Class(true)
  }

  lemma {:induction false} BankSize(lo: int, hi: int, f: bool)
    requires lo <= hi
    ensures |Bank(lo, hi, f)| == hi - lo
    decreases hi - lo
  {
    if lo < hi {
      BankSize(lo, hi - 1, f);
      assert Bank(lo, hi, f) == Bank(lo, hi - 1, f) + {Reg(hi - 1, f)};
    }
  }

  lemma ClassSize(f: bool)
    ensures |Class(f)| == 15 && |Args(f)| == 8 && NO_REG !in Class(f)
    ensures forall r {:trigger r in Class(f)} :: r in Class(f) ==> r.isFloat == f
  {
    BankSize(5, 8, f);
    BankSize(28, 32, f);
    BankSize(10, 18, f);
    Disjoint(Bank(5, 8, f), Bank(28, 32, f));
    Disjoint(Temps(f), Args(f));
  }

  lemma AllSize()
    ensures |AllRegs()| == 30 && NO_REG !in AllRegs() && |Args(false) + Args(true)| == 16
    ensures forall r {:trigger r in AllRegs()} :: r in AllRegs() <==> r in Class(r.isFloat)
    ensures forall r, f {:trigger r in Class(f)} :: r in Class(f) ==> r in AllRegs()
  {
    ClassSize(false);
    ClassSize(true);
    Disjoint(Class(false), Class(true));
    assert Args(false) !! Args(true);
    Disjoint(Args(false), Args(true));
    hide Class, Args, Temps, Bank;
    forall r, f | r in Class(f)
      ensures r in AllRegs()
    {
      assert f || !f;
    }
  }

  type Mapping = map<Value, Reg>

  /** The active intervals that got a register at all. */
  ghost function Holders(active: set<Interval>, regs: Mapping): set<Interval> {
    set i | i in active && i.val in regs && regs[i.val] != NO_REG
  }

  ghost function Held(active: set<Interval>, regs: Mapping): set<Reg> {
    set i | i in Holders(active, regs) :: regs[i.val]
  }

  /** No two active intervals hold the same register. */
  ghost predicate Injective(active: set<Interval>, regs: Mapping) {
    forall i, j {:trigger i in active, j in active} ::
      i in Holders(active, regs) && j in Holders(active, regs) && regs[i.val] == regs[j.val] ==> i == j
  }

  ghost predicate Partition(free: set<Reg>, held: set<Reg>, args: set<Reg>) {
    && (free - {NO_REG}) + held + args == AllRegs()
    && free !! held && free !! args && held !! args
  }

  /** The free registers, those held by active intervals and those of used arguments are exactly the
      thirty registers, each in one place. */
  ghost predicate Holding(active: set<Interval>, regs: Mapping, free: set<Reg>, args: set<Reg>) {
    && (forall i {:trigger i in active} :: i in active ==> i.val in regs)
    && Injective(active, regs) && Partition(free, Held(active, regs), args)
  }

  lemma {:induction false} HeldSize(active: set<Interval>, regs: Mapping)
    requires Injective(active, regs)
    ensures |Held(active, regs)| == |Holders(active, regs)| <= |active|
    decreases active
  {
    SubsetSize(Holders(active, regs), active);
    if i :| i in active {
      HeldWithout(active, regs, i);
      hide Held, Holders, Injective;
      HeldSize(active - {i}, regs);
    }
  }

  lemma HeldWithout(active: set<Interval>, regs: Mapping, i: Interval)
    requires Injective(active, regs) && i in active
    ensures var rest := active - {i};
            && Injective(rest, regs)
            && if i in Holders(active, regs) then
                 Holders(active, regs) == Holders(rest, regs) + {i} && i !in Holders(rest, regs) && i.val in regs
                 && Held(active, regs) == Held(rest, regs) + {regs[i.val]} && regs[i.val] !in Held(rest, regs)
               else
                 Holders(active, regs) == Holders(rest, regs) && Held(active, regs) == Held(rest, regs)
  {
    var rest := active - {i};
    if i in Holders(active, regs) {
      assert Holders(active, regs) == Holders(rest, regs) + {i};
    } else {
      assert Holders(active, regs) == Holders(rest, regs);
    }
  }

  lemma ClassParts(free: set<Reg>, held: set<Reg>, args: set<Reg>, f: bool)
    requires Partition(free, held, args)
    ensures var a, b, c := free * Class(f), held * Class(f), args * Class(f);
            a + b + c == Class(f) && a !! b && a + b !! c
  {
    ClassSize(f);
    AllSize();
    hide Class, AllRegs;
    forall r | r in Class(f)
      ensures r in free || r in held || r in args
    {
      assert r in AllRegs();
    }
  }

  /** In each class the places add up. */
  lemma ClassSum(free: set<Reg>, held: set<Reg>, args: set<Reg>, f: bool)
    requires Partition(free, held, args)
    ensures |free * Class(f)| + |held * Class(f)| + |args * Class(f)| == 15
  {
    ClassSize(f);
    AllSize();
    ClassParts(free, held, args, f);
    hide Class, AllRegs, Partition;
    var a, b, c := free * Class(f), held * Class(f), args * Class(f);
    Disjoint(a, b);
    Disjoint(a + b, c);
  }

  ghost predicate HasFree(free: set<Reg>, f: bool) {
    exists r :: r in free && r in Class(f)
  }

  /** How many registers of a class are held or belong to used arguments. */
  ghost function Load(active: set<Interval>, regs: Mapping, args: set<Reg>, f: bool): nat {
    |Held(active, regs) * Class(f)| + |args * Class(f)|
  }

  /** Whether a free register of a class exists depends only on how many are held or used by arguments. */
  lemma SomeFree(free: set<Reg>, held: set<Reg>, args: set<Reg>, f: bool)
    requires Partition(free, held, args)
    ensures HasFree(free, f) <==> |held * Class(f)| + |args * Class(f)| < 15
  {
    ClassSum(free, held, args, f);
    var a := free * Class(f);
    hide Class, Partition;
    assert forall r :: r in a <==> r in free && r in Class(f);
    if |a| > 0 {
      var r :| r in a;
    }
  }

  /** With at most thirteen holders and one used argument of the class, a register is left. */
  lemma Supply(active: set<Interval>, regs: Mapping, free: set<Reg>, args: set<Reg>, f: bool)
    requires Holding(active, regs, free, args) && |active| < LIMIT && |args * Class(f)| <= 1
    ensures HasFree(free, f)
  {
    HeldSize(active, regs);
    SubsetSize(Held(active, regs) * Class(f), Held(active, regs));
    SomeFree(free, Held(active, regs), args, f);
  }

  /** Some register is always left while fewer than LIMIT intervals are active. */
  lemma NeverEmpty(active: set<Interval>, regs: Mapping, free: set<Reg>, args: set<Reg>)
    requires Holding(active, regs, free, args) && |active| < LIMIT && args <= Args(false) + Args(true)
    ensures free != {}
  {
    HeldSize(active, regs);
    var held := Held(active, regs);
    AllSize();
    SubsetSize(args, Args(false) + Args(true));
    hide Class, AllRegs, Args, Held, Injective;
    Disjoint(held, args);
    var r := Outside(held + args, AllRegs());
    assert r in (free - {NO_REG}) + held + args;
  }

  // ----- what each step does to the holdings -----

  lemma HoldMore(active: set<Interval>, regs: Mapping, free: set<Reg>, args: set<Reg>, i: Interval, r: Reg)
    requires Holding(active, regs, free, args) && i !in active && forall j {:trigger j in active} :: j in active ==>
      j.val != i.val
    requires r == NO_REG || r in free
    ensures Holding(active + {i}, regs[i.val := r], free - {r}, args)
  {
    var regs' := regs[i.val := r];
    if r == NO_REG {
      assert Holders(active + {i}, regs') == Holders(active, regs);
      assert Held(active + {i}, regs') == Held(active, regs);
    } else {
      assert Holders(active + {i}, regs') == Holders(active, regs) + {i};
      HeldMore(active, regs, i, r);
    }
    InjectiveMore(active, regs, i, r);
  }

  lemma HeldMore(active: set<Interval>, regs: Mapping, i: Interval, r: Reg)
    requires i !in active && forall j {:trigger j in active} :: j in active ==> j.val != i.val
    requires r != NO_REG
    ensures Held(active + {i}, regs[i.val := r]) == Held(active, regs) + {r}
  {
    var regs' := regs[i.val := r];
    assert i in Holders(active + {i}, regs');
    forall q | q in Held(active, regs)
      ensures q in Held(active + {i}, regs')
    {
      var j :| j in Holders(active, regs) && regs[j.val] == q;
      assert j in Holders(active + {i}, regs');
    }
  }

  lemma InjectiveMore(active: set<Interval>, regs: Mapping, i: Interval, r: Reg)
    requires Injective(active, regs) && forall j {:trigger j in active} :: j in active ==> j.val != i.val
    requires r !in Held(active, regs) || r == NO_REG
    ensures Injective(active + {i}, regs[i.val := r])
  {
    assert forall j {:trigger j in active} :: j in Holders(active, regs) ==> regs[j.val] in Held(active, regs);
  }

  lemma HoldLess(active: set<Interval>, regs: Mapping, free: set<Reg>, args: set<Reg>, j: Interval)
    requires Holding(active, regs, free, args) && j in active && NO_REG !in args
    ensures Holding(active - {j}, regs, free + {regs[j.val]}, args)
  {
    HeldLess(active, regs, j);
    InjectiveLess(active, regs, j);
    var r, held := regs[j.val], Held(active, regs);
    assert r != NO_REG ==> r in held by {
      assert r != NO_REG ==> j in Holders(active, regs);
    }
    hide Held, Injective, AllRegs;
    PartitionLess(free, held, args, r);
  }

  lemma PartitionLess(free: set<Reg>, held: set<Reg>, args: set<Reg>, r: Reg)
    requires Partition(free, held, args) && (r == NO_REG || r in held) && NO_REG !in held && NO_REG !in args
    ensures Partition(free + {r}, held - {r}, args)
  {
    hide AllRegs;
    if r != NO_REG {
      assert (free + {r} - {NO_REG}) + (held - {r}) == (free - {NO_REG}) + held;
    } else {
      assert free + {r} - {NO_REG} == free - {NO_REG} && held - {r} == held;
    }
  }

  lemma InjectiveLess(active: set<Interval>, regs: Mapping, j: Interval)
    requires Injective(active, regs)
    ensures Injective(active - {j}, regs)
  {
    assert Holders(active - {j}, regs) <= Holders(active, regs);
  }

  lemma HeldLess(active: set<Interval>, regs: Mapping, j: Interval)
    requires Injective(active, regs) && j in active && j.val in regs
    ensures Held(active - {j}, regs) == Held(active, regs) - {regs[j.val]}
  {
    var r := regs[j.val];
    forall q | q in Held(active - {j}, regs)
      ensures q in Held(active, regs) && q != r
    {
      var k :| k in Holders(active - {j}, regs) && regs[k.val] == q;
      assert k in Holders(active, regs);
      assert r != NO_REG ==> j in Holders(active, regs);
    }
    forall q | q in Held(active, regs) && q != r
      ensures q in Held(active - {j}, regs)
    {
      var k :| k in Holders(active, regs) && regs[k.val] == q;
      assert k in Holders(active - {j}, regs);
    }
  }

  // ----- no conflicts -----

  /** Kept intervals that overlap hold different registers, none of them a used argument's. */
  ghost predicate NoConflict(kept: set<Interval>, regs: Mapping, args: set<Reg>) {
    && (forall i {:trigger i in kept} :: i in kept ==>
         i.val in regs && (regs[i.val] == NO_REG || regs[i.val] in AllRegs() - args))
    && (forall i, j {:trigger i.Overlaps(j)} :: i in kept && j in kept && i != j && i.Overlaps(j) ==> Apart(regs, i, j))
  }

  ghost predicate Apart(regs: Mapping, i: Interval, j: Interval) {
    i.val in regs && j.val in regs && (regs[i.val] == regs[j.val] ==> regs[i.val] == NO_REG)
  }

  /** i gets a register that no active interval holds. */
  lemma ConflictFree(kept: set<Interval>, active: set<Interval>, rest: set<Interval>, regs: Mapping, args: set<Reg>,
                     i: Interval, r: Reg)
    requires NoConflict(kept, regs, args) && Ordered(kept, active, rest) && i in rest && i !in kept
    requires forall j {:trigger j in kept} :: j in kept ==> j.val != i.val
    requires r == NO_REG || (r !in Held(active, regs) && r in AllRegs() - args)
    ensures NoConflict(kept + {i}, regs[i.val := r], args)
  {
    var regs' := regs[i.val := r];
    forall j | j in kept && (i.Overlaps(j) || j.Overlaps(i))
      ensures Apart(regs', i, j)
    {
      OverlapIsActive(kept, active, rest, i, j);
      assert j in Holders(active, regs) ==> regs[j.val] in Held(active, regs);
    }
    forall j, k | j in kept + {i} && k in kept + {i} && j != k && j.Overlaps(k)
      ensures Apart(regs', j, k)
    {
      if j != i && k != i {
        assert Apart(regs, j, k);
      }
    }
  }

  lemma OverlapIsActive(kept: set<Interval>, active: set<Interval>, rest: set<Interval>, i: Interval, j: Interval)
    requires Ordered(kept, active, rest) && i in rest && j in kept && (i.Overlaps(j) || j.Overlaps(i))
    ensures j in active
  {
  }

  // ----- the whole state of the scan -----

  /** The scan's variables; regs and spilled still name values whose registers were taken away. */
  datatype ScanState = ScanState(active: set<Interval>, free: set<Reg>, regs: Mapping, spilled: set<Value>)

  /** What has become of the intervals of values that are not arguments. */
  datatype Sorted = Sorted(all: set<Interval>, kept: set<Interval>, dropped: set<Interval>, rest: set<Interval>)

  /** The spilled values are those of the dropped intervals; arguments keep their registers. */
  ghost predicate Recorded(q: Sorted, t: ScanState, argMap: Mapping) {
    && (forall i {:trigger i in q.rest} :: i in q.rest ==> i.val !in t.regs && i.val !in t.spilled)
    && (forall i {:trigger i in q.kept} :: i in q.kept ==> i.val in t.regs && i.val !in t.spilled)
    && (forall i {:trigger i in q.dropped} :: i in q.dropped ==> i.val in t.spilled)
    && (forall i {:trigger i in q.all} :: i in q.all ==> i.val !in argMap)
    && (forall v {:trigger t.regs[v]} {:trigger argMap[v]} :: v in argMap ==>
         v in t.regs && t.regs[v] == argMap[v] && v !in t.spilled)
  }

  ghost predicate ScanOk(q: Sorted, t: ScanState, args: set<Reg>, argMap: Mapping) {
    && Scanning(q.all, q.kept, t.active, q.dropped, q.rest)
    && Holding(t.active, t.regs, t.free, args) && args <= Args(false) + Args(true)
    && NoConflict(q.kept, t.regs, args)
    && Recorded(q, t, argMap)
  }

  lemma ArgsAreRegs(args: set<Reg>)
    requires args <= Args(false) + Args(true)
    ensures NO_REG !in args && args <= AllRegs()
  {
    AllSize();
  }

  function Expired(t: ScanState, j: Interval): ScanState
    requires j.val in t.regs
  {
    t.(active := t.active - {j}, free := t.free + {t.regs[j.val]})
  }

  lemma OkExpire(q: Sorted, t: ScanState, args: set<Reg>, argMap: Mapping, j: Interval, p: Point)
    requires ScanOk(q, t, args, argMap) && j in t.active && j.val in t.regs && j.end.Less(p)
    requires forall k {:trigger k in q.rest} :: k in q.rest ==> p.AtMost(k.start)
    ensures ScanOk(q, Expired(t, j), args, argMap)
  {
    hide Scanning, Holding, NoConflict, Args, AllRegs;
    ArgsAreRegs(args);
    HoldLess(t.active, t.regs, t.free, args, j);
    assert t.active - (t.active - {j}) <= {j};
    ScanExpire(q.all, q.kept, t.active, q.dropped, q.rest, p, t.active - {j});
  }

  function Added(q: Sorted, i: Interval): Sorted {
    q.(kept := q.kept + {i}, rest := q.rest - {i})
  }

  function Assigned(t: ScanState, i: Interval, r: Reg): ScanState {
    t.(active := t.active + {i}, free := t.free - {r}, regs := t.regs[i.val := r])
  }

  lemma NewValue(q: Sorted, t: ScanState, args: set<Reg>, argMap: Mapping, i: Interval)
    requires ScanOk(q, t, args, argMap) && i in q.rest
    ensures i in q.all && i !in q.kept && i !in t.active && t.active <= q.kept && i.val !in argMap && i.val !in t.regs
    ensures forall j {:trigger j in q.kept} :: j in q.kept ==> j.val != i.val
    ensures forall j {:trigger j in t.active} :: j in t.active ==> j.val != i.val
  {
    hide Holding, NoConflict, Feasible, NothingLost;
    forall j | j in q.kept
      ensures j.val != i.val
    {
      assert j in q.all && i in q.all && j != i;
    }
  }

  lemma HeldInside(active: set<Interval>, regs: Mapping, free: set<Reg>, args: set<Reg>, r: Reg)
    requires Holding(active, regs, free, args) && r in free && r != NO_REG
    ensures r !in Held(active, regs) && r in AllRegs() - args
  {
    hide AllRegs, Held, Injective;
    assert r in (free - {NO_REG}) + Held(active, regs) + args;
  }

  /** Giving the next value a register, or the mark of being spilled, keeps the records. */
  lemma RecordedAdd(q: Sorted, t: ScanState, args: set<Reg>, argMap: Mapping, i: Interval, r: Reg)
    requires ScanOk(q, t, args, argMap) && i in q.rest
    ensures Recorded(Added(q, i), Assigned(t, i, r), argMap)
  {
    hide Scanning, Holding, NoConflict, Args, AllRegs;
    NewValue(q, t, args, argMap, i);
    RestDiffers(q, t, args, argMap, i);
  }

  lemma ConflictFreeAdd(q: Sorted, t: ScanState, args: set<Reg>, argMap: Mapping, i: Interval, r: Reg)
    requires ScanOk(q, t, args, argMap) && i in q.rest && (r == NO_REG || r in t.free)
    ensures NoConflict(q.kept + {i}, t.regs[i.val := r], args)
  {
    NewValue(q, t, args, argMap, i);
    if r != NO_REG {
      HeldInside(t.active, t.regs, t.free, args, r);
    }
    assert Ordered(q.kept, t.active, q.rest);
    hide NoConflict, Holding, Args, AllRegs, Held, Scanning, Recorded;
    ConflictFree(q.kept, t.active, q.rest, t.regs, args, i, r);
  }

  lemma OkAdd(q: Sorted, t: ScanState, args: set<Reg>, argMap: Mapping, i: Interval, r: Reg)
    requires ScanOk(q, t, args, argMap) && Next(t.active, q.rest, i) && |t.active| < LIMIT
    requires r == NO_REG || r in t.free
    ensures ScanOk(Added(q, i), Assigned(t, i, r), args, argMap)
  {
    hide Scanning, Holding, NoConflict, Args, AllRegs, Recorded, Next;
    NextIs(t.active, q.rest, i);
    NewValue(q, t, args, argMap, i);
    ScanAdd(q.all, q.kept, t.active, q.dropped, q.rest, i);
    HoldMore(t.active, t.regs, t.free, args, i, r);
    ConflictFreeAdd(q, t, args, argMap, i, r);
    RecordedAdd(q, t, args, argMap, i, r);
  }

  lemma RestDiffers(q: Sorted, t: ScanState, args: set<Reg>, argMap: Mapping, i: Interval)
    requires ScanOk(q, t, args, argMap) && i in q.all
    ensures forall k {:trigger k in q.all} :: k in q.all && k != i ==> k.val != i.val
    ensures forall k {:trigger k in q.rest} :: k in q.rest ==> k in q.all
    ensures forall k {:trigger k in q.kept} :: k in q.kept ==> k in q.all
    ensures forall k {:trigger k in q.dropped} :: k in q.dropped ==> k in q.all
  {
    hide Holding, NoConflict, Feasible, NothingLost, Recorded;
  }

  // ----- spilling -----

  function Swapped(q: Sorted, i: Interval, x: Interval): Sorted {
    q.(kept := q.kept - {x} + {i}, dropped := q.dropped + {x}, rest := q.rest - {i})
  }

  /** i takes over the register of x. */
  function TakenOver(t: ScanState, i: Interval, x: Interval): ScanState
    requires x.val in t.regs
  {
    t.(active := t.active - {x} + {i}, regs := t.regs[i.val := t.regs[x.val]], spilled := t.spilled + {x.val})
  }

  function Dropped(q: Sorted, i: Interval): Sorted {
    q.(dropped := q.dropped + {i}, rest := q.rest - {i})
  }

  function Spilled(t: ScanState, i: Interval): ScanState {
    t.(spilled := t.spilled + {i.val})
  }

  lemma RecordedDrop(q: Sorted, t: ScanState, args: set<Reg>, argMap: Mapping, i: Interval)
    requires ScanOk(q, t, args, argMap) && i in q.rest
    ensures Recorded(Dropped(q, i), Spilled(t, i), argMap)
  {
    hide Scanning, Holding, NoConflict, Args, AllRegs;
    NewValue(q, t, args, argMap, i);
    RestDiffers(q, t, args, argMap, i);
  }

  lemma NextIs(active: set<Interval>, rest: set<Interval>, i: Interval)
    requires Next(active, rest, i)
    ensures i in rest
  {
  }

  lemma OkDrop(q: Sorted, t: ScanState, args: set<Reg>, argMap: Mapping, i: Interval, x: Interval)
    requires ScanOk(q, t, args, argMap) && Next(t.active, q.rest, i) && |t.active| == LIMIT
    requires Furthest(t.active, x) && !i.end.Less(x.end)
    ensures ScanOk(Dropped(q, i), Spilled(t, i), args, argMap)
  {
    hide Scanning, Holding, NoConflict, Args, AllRegs, Next, Furthest, Recorded;
    NextIs(t.active, q.rest, i);
    RecordedDrop(q, t, args, argMap, i);
    ScanDrop(q.all, q.kept, t.active, q.dropped, q.rest, i, x);
  }

  lemma SwapHolding(active: set<Interval>, regs: Mapping, free: set<Reg>, args: set<Reg>, i: Interval, x: Interval)
    requires Holding(active, regs, free, args) && x in active && NO_REG !in args
    requires i !in active && forall j {:trigger j in active} :: j in active ==> j.val != i.val
    ensures Holding(active - {x} + {i}, regs[i.val := regs[x.val]], free, args)
  {
    var r := regs[x.val];
    HoldLess(active, regs, free, args, x);
    hide Held, Injective, AllRegs;
    if r != NO_REG {
      assert r in Held(active, regs) by {
        HolderHeld(active, regs, x);
      }
      assert free + {r} - {r} == free;
      HoldMore(active - {x}, regs, free + {r}, args, i, r);
    } else {
      SameFree(active - {x}, regs, free, args);
      HoldMore(active - {x}, regs, free, args, i, r);
      SameFree(active - {x} + {i}, regs[i.val := r], free, args);
    }
  }

  lemma HolderHeld(active: set<Interval>, regs: Mapping, x: Interval)
    requires x in active && x.val in regs && regs[x.val] != NO_REG
    ensures regs[x.val] in Held(active, regs)
  {
    assert x in Holders(active, regs);
  }

  /** Whether NO_REG is among the free registers makes no difference. */
  lemma SameFree(active: set<Interval>, regs: Mapping, free: set<Reg>, args: set<Reg>)
    requires NO_REG !in args
    ensures Holding(active, regs, free + {NO_REG}, args) <==> Holding(active, regs, free, args)
    ensures Holding(active, regs, free - {NO_REG}, args) <==> Holding(active, regs, free, args)
  {
    hide AllRegs, Injective;
    assert free + {NO_REG} - {NO_REG} == free - {NO_REG} == free - {NO_REG} - {NO_REG};
  }

  lemma SwapConflict(q: Sorted, t: ScanState, args: set<Reg>, argMap: Mapping, i: Interval, x: Interval)
    requires ScanOk(q, t, args, argMap) && i in q.rest && x in t.active
    ensures x.val in t.regs && NoConflict(q.kept - {x} + {i}, t.regs[i.val := t.regs[x.val]], args)
  {
    NewValue(q, t, args, argMap, i);
    var r := t.regs[x.val];
    assert x in q.kept;
    HoldLess(t.active, t.regs, t.free, args, x) by {
      ArgsAreRegs(args);
    }
    HeldLess(t.active, t.regs, x);
    assert r == NO_REG || r in AllRegs() - args;
    OrderedLess(q.kept, t.active, q.rest, x);
    NoConflictLess(q.kept, t.regs, args, x);
    hide NoConflict, Holding, Args, AllRegs, Held, Scanning, Recorded, Ordered;
    ConflictFree(q.kept - {x}, t.active - {x}, q.rest, t.regs, args, i, r);
  }

  lemma OrderedLess(kept: set<Interval>, active: set<Interval>, rest: set<Interval>, x: Interval)
    requires Ordered(kept, active, rest)
    ensures Ordered(kept - {x}, active - {x}, rest)
  {
  }

  lemma NoConflictLess(kept: set<Interval>, regs: Mapping, args: set<Reg>, x: Interval)
    requires NoConflict(kept, regs, args)
    ensures NoConflict(kept - {x}, regs, args)
  {
    hide AllRegs;
  }

  lemma SwapRecorded(q: Sorted, t: ScanState, args: set<Reg>, argMap: Mapping, i: Interval, x: Interval)
    requires ScanOk(q, t, args, argMap) && i in q.rest && x in t.active && x.val in t.regs
    ensures Recorded(Swapped(q, i, x), TakenOver(t, i, x), argMap)
  {
    hide Scanning, Holding, NoConflict, Args, AllRegs;
    NewValue(q, t, args, argMap, i);
    assert x in q.kept;
    RestDiffers(q, t, args, argMap, i);
    RestDiffers(q, t, args, argMap, x);
  }

  lemma OkSwap(q: Sorted, t: ScanState, args: set<Reg>, argMap: Mapping, i: Interval, x: Interval)
    requires ScanOk(q, t, args, argMap) && Next(t.active, q.rest, i) && |t.active| == LIMIT
    requires Furthest(t.active, x) && i.end.Less(x.end)
    ensures x.val in t.regs && ScanOk(Swapped(q, i, x), TakenOver(t, i, x), args, argMap)
  {
    assert i in q.rest && x in t.active;
    NewValue(q, t, args, argMap, i);
    ArgsAreRegs(args);
    hide Scanning, Holding, NoConflict, Args, AllRegs, Next, Furthest, Recorded;
    SwapConflict(q, t, args, argMap, i, x);
    ScanSwap(q.all, q.kept, t.active, q.dropped, q.rest, i, x);
    SwapHolding(t.active, t.regs, t.free, args, i, x);
    SwapRecorded(q, t, args, argMap, i, x);
  }

  lemma OkFacts(q: Sorted, t: ScanState, args: set<Reg>, argMap: Mapping)
    requires ScanOk(q, t, args, argMap)
    ensures t.active <= q.kept && |t.active| <= LIMIT
    ensures forall j {:trigger j in t.active} :: j in t.active ==> j.val in t.regs
    ensures forall j {:trigger j in q.kept} :: j in q.kept ==> j.val in t.regs
    ensures forall r {:trigger r in t.free} :: r in t.free ==> r == NO_REG || r in AllRegs()
  {
    hide NoConflict, Feasible, NothingLost, Injective, Held, AllRegs;
    assert forall r {:trigger r in t.free} :: r in t.free && r != NO_REG ==>
      r in (t.free - {NO_REG}) + Held(t.active, t.regs) + args;
  }

  lemma AllIds()
    ensures forall r {:trigger r in AllRegs()} :: r in AllRegs() ==> 5 <= r.id < 32
    ensures forall r, f {:trigger r in Class(f)} :: r in Class(f) ==> r.isFloat == f && 5 <= r.id < 32
  {
  }

  lemma OkPlace(q: Sorted, t: ScanState, args: set<Reg>, argMap: Mapping, i: Interval)
    requires ScanOk(q, t, args, argMap) && i in q.rest && |t.active| < LIMIT
    ensures t.free != {} && i.val !in t.regs
    ensures forall f :: HasFree(t.free, f) <==> Load(t.active, t.regs, args, f) < 15
  {
    NewValue(q, t, args, argMap, i);
    NeverEmpty(t.active, t.regs, t.free, args);
    assert Partition(t.free, Held(t.active, t.regs), args);
    hide ScanOk, Held, Partition, HasFree, Class;
    forall f
      ensures HasFree(t.free, f) <==> Load(t.active, t.regs, args, f) < 15
    {
      SomeFree(t.free, Held(t.active, t.regs), args, f);
    }
  }

  /** Every kept interval has a register, and there are no others to give away. */
  ghost predicate Equipped(kept: set<Interval>, regs: Mapping, free: set<Reg>) {
    NO_REG !in free && forall i {:trigger i in kept} :: i in kept ==> i.val in regs && regs[i.val] != NO_REG
  }

  lemma EquippedExpire(kept: set<Interval>, regs: Mapping, free: set<Reg>, active: set<Interval>, j: Interval)
    requires active <= kept && j in active
    ensures Equipped(kept, regs, free) ==> j.val in regs && Equipped(kept, regs, free + {regs[j.val]})
  {
  }

  lemma EquippedAdd(kept: set<Interval>, regs: Mapping, free: set<Reg>, i: Interval)
    ensures Equipped(kept, regs, free) ==> NO_REG !in free
    ensures Equipped(kept, regs, free) ==> forall r {:trigger regs[i.val := r]} :: r != NO_REG ==>
      Equipped(kept + {i}, regs[i.val := r], free - {r})
  {
  }

  lemma EquippedSwap(kept: set<Interval>, regs: Mapping, free: set<Reg>, active: set<Interval>, i: Interval,
                     x: Interval)
    requires active <= kept && x in active && x.val in regs
    ensures Equipped(kept, regs, free) ==> Equipped(kept - {x} + {i}, regs[i.val := regs[x.val]], free)
  {
  }

  lemma OkFresh(q: Sorted, t: ScanState, args: set<Reg>, argMap: Mapping, i: Interval)
    requires ScanOk(q, t, args, argMap) && i in q.rest
    ensures t.active <= q.kept && i.val !in t.regs
    ensures forall j {:trigger j in t.active} :: j in t.active ==> j.val in t.regs
  {
    NewValue(q, t, args, argMap, i);
  }

  /** Neither the next interval nor an active one is spilled yet. */
  lemma OkUnspilled(q: Sorted, t: ScanState, args: set<Reg>, argMap: Mapping, i: Interval)
    requires ScanOk(q, t, args, argMap) && i in q.rest
    ensures i in q.all && i.val !in t.spilled
    ensures forall j {:trigger j in t.active} :: j in t.active ==> j in q.all && j.val !in t.spilled
  {
    hide Holding, NoConflict, IntervalsOk, AllRegs, Args;
    OkFresh(q, t, args, argMap, i);
  }

  lemma AnyActive(active: set<Interval>)
    ensures |active| == LIMIT ==> active != {}
  {
  }

  lemma ArgKept(q: Sorted, t: ScanState, args: set<Reg>, argMap: Mapping, v: Value)
    requires ScanOk(q, t, args, argMap) && v in argMap
    ensures v in t.regs && t.regs[v] == argMap[v] && v !in t.spilled
  {
    hide Scanning, Holding, NoConflict, Args, AllRegs;
  }

  lemma StartHolding(regs: Mapping, free: set<Reg>, args: set<Reg>)
    requires free == AllRegs() - args && args <= Args(false) + Args(true)
    ensures Holding({}, regs, free, args) && NoConflict({}, regs, args) && NO_REG !in free
  {
    hide AllRegs, Args, Class, Held, Injective;
    ArgsAreRegs(args);
    NoneHeld(regs);
    AllSize();
    Complement(free, args, AllRegs(), NO_REG);
  }

  lemma NoneHeld(regs: Mapping)
    ensures Held({}, regs) == {} && Injective({}, regs)
  {
    assert Holders({}, regs) == {};
  }

  lemma Complement<T>(s: set<T>, t: set<T>, all: set<T>, x: T)
    requires t <= all && s == all - t && x !in all
    ensures x !in s && (s - {x}) + {} + t == all && s !! t
  {
  }

  lemma StartOk(all: set<Interval>, t: ScanState, args: set<Reg>)
    requires IntervalsOk(all) && t.active == {} && t.free == AllRegs() - args && args <= Args(false) + Args(true)
    requires forall i {:trigger i in all} :: i in all ==> i.val !in t.regs && i.val !in t.spilled
    requires forall v {:trigger v in t.regs} :: v in t.regs ==> v !in t.spilled
    ensures ScanOk(Sorted(all, {}, {}, all), t, args, t.regs) && Equipped({}, t.regs, t.free)
  {
    hide Scanning, AllRegs, Args, Holding, NoConflict, IntervalsOk;
    ScanStart(all);
    StartHolding(t.regs, t.free, args);
  }
}
