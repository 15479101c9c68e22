/** The register allocator: linear scan over live intervals with expiry and furthest-end spilling. */
module RegisterAllocation {
  import opened Cfg
  import opened Components
  import opened BlockOrder
  import opened LiveIntervals
  import opened ScanTheory
  import opened Sizes
  import opened RegisterTheory
  import opened ScanLimits
  import opened ScanOrigins
  import opened ScanTrace
  import opened StackFrame

  /** A parameter of the function; the list of its uses may be empty. */
  datatype Formal = Formal(val: Value, hasUses: bool)

  /** How many of the parameters belong to a class. */
  ghost function CountClass(formals: seq<Formal>, floats: set<Value>, f: bool): nat {
    if formals == [] then 0
    else CountClass(formals[..|formals| - 1], floats, f) + if (formals[|formals| - 1].val in floats) == f then 1 else 0
  }

  /** How many of the parameters belong to a class and are used. */
  ghost function CountUsed(formals: seq<Formal>, floats: set<Value>, used: set<Value>, f: bool): nat {
    if formals == [] then 0
    else
      var last := formals[|formals| - 1].val;
      CountUsed(formals[..|formals| - 1], floats, used, f) + if last in used && (last in floats) == f then 1 else 0
  }

  /** The positions before n of the parameters of a class. */
  ghost function ClassPositions(formals: seq<Formal>, floats: set<Value>, n: nat, f: bool): set<nat>
    requires n <= |formals|
  {
    set j | 0 <= j < n && (formals[j].val in floats) == f
  }

  lemma {:induction false} CountIsSize(formals: seq<Formal>, floats: set<Value>, n: nat, f: bool)
    requires n <= |formals|
    ensures CountClass(formals[..n], floats, f) == |ClassPositions(formals, floats, n, f)|
  {
    if n == 0 {
      assert ClassPositions(formals, floats, n, f) == {};
    } else {
      CountIsSize(formals, floats, n - 1, f);
      assert formals[..n][..n - 1] == formals[..n - 1];
      PositionsMore(formals, floats, n - 1, f);
      hide ClassPositions;
    }
  }

  lemma PositionsMore(formals: seq<Formal>, floats: set<Value>, n: nat, f: bool)
    requires n < |formals|
    ensures |ClassPositions(formals, floats, n + 1, f)| ==
      |ClassPositions(formals, floats, n, f)| + if (formals[n].val in floats) == f then 1 else 0
  {
    var before := ClassPositions(formals, floats, n, f);
    if (formals[n].val in floats) == f {
      assert ClassPositions(formals, floats, n + 1, f) == before + {n};
    } else {
      assert ClassPositions(formals, floats, n + 1, f) == before;
    }
  }

  /** The register of the parameter at position k in the calling convention: the arguments of each class are
      counted from 10 on, whether they are used or not. */
  ghost function ArgReg(formals: seq<Formal>, floats: set<Value>, k: nat): Reg
    requires k < |formals|
  {
    var f := formals[k].val in floats;
    Reg(10 + |ClassPositions(formals, floats, k, f)|, f)
  }

  /** The parameters have different values, and before a used one there are fewer than eight of its class. */
  ghost predicate FormalsOk(formals: seq<Formal>, floats: set<Value>, used: set<Value>) {
    && (forall k, l {:trigger formals[k], formals[l]} :: 0 <= k < l < |formals| ==> formals[k].val != formals[l].val)
    && (forall k {:trigger formals[k]} :: 0 <= k < |formals| && formals[k].val in used ==>
          CountClass(formals[..k], floats, formals[k].val in floats) < 8)
  }

  function UsedOf(formals: seq<Formal>): set<Value> {
    set k | 0 <= k < |formals| && formals[k].hasUses :: formals[k].val
  }

  predicate Among(formals: seq<Formal>, v: Value) {
    exists k :: 0 <= k < |formals| && formals[k].val == v
  }

  lemma IsAmong(formals: seq<Formal>, k: nat)
    requires k < |formals|
    ensures Among(formals, formals[k].val)
  {
  }

  lemma AmongNext(formals: seq<Formal>, k: nat)
    requires k < |formals|
    ensures forall v {:trigger Among(formals[..k + 1], v)} :: Among(formals[..k + 1], v) <==>
      Among(formals[..k], v) || v == formals[k].val
  {
    var init, more := formals[..k], formals[..k + 1];
    forall v
      ensures Among(more, v) <==> Among(init, v) || v == formals[k].val
    {
      assert more[k] == formals[k];
      if j :| 0 <= j < |more| && more[j].val == v {
        assert j < k ==> init[j] == more[j];
      }
      if j :| 0 <= j < |init| && init[j].val == v {
        assert init[j] == more[j];
      }
    }
  }

  /** Exactly the used ones of the parameters have registers, all different. */
  ghost predicate ArgsMapped(formals: seq<Formal>, used: set<Value>, regs: Mapping, args: set<Reg>) {
    && (forall v {:trigger v in regs} :: v in regs <==> v in used && Among(formals, v))
    && (forall v {:trigger v in regs} :: v in regs ==> regs[v] in args)
    && (forall u, v {:trigger u in regs, v in regs} :: u in regs && v in regs && u != v ==> regs[u] != regs[v])
  }

  ghost predicate ArgIds(formals: seq<Formal>, floats: set<Value>, args: set<Reg>) {
    forall r {:trigger r in args} :: r in args ==> 10 <= r.id < 10 + CountClass(formals, floats, r.isFloat)
  }

  ghost predicate ArgCounts(formals: seq<Formal>, floats: set<Value>, used: set<Value>, args: set<Reg>) {
    forall f :: |args * Class(f)| == CountUsed(formals, floats, used, f)
  }

  /** Of the parameters the used ones have the argument registers of their positions. */
  ghost predicate ArgsPlaced(formals: seq<Formal>, floats: set<Value>, used: set<Value>, regs: Mapping,
                             args: set<Reg>) {
    ArgsMapped(formals, used, regs, args) && ArgIds(formals, floats, args) && ArgCounts(formals, floats, used, args)
  }

  lemma NonePlaced(floats: set<Value>, used: set<Value>)
    ensures ArgsPlaced([], floats, used, map[], {})
  {
    var none: set<Reg> := {};
    forall f
      ensures |none * Class(f)| == 0
    {
      assert none * Class(f) == {};
    }
  }

  lemma SkipPlaced(formals: seq<Formal>, floats: set<Value>, used: set<Value>, regs: Mapping, args: set<Reg>, k: nat)
    requires k < |formals| && ArgsPlaced(formals[..k], floats, used, regs, args) && formals[k].val !in used
    ensures ArgsPlaced(formals[..k + 1], floats, used, regs, args)
  {
    AmongNext(formals, k);
    hide Among, Class;
    assert formals[..k + 1][..k] == formals[..k];
  }

  lemma CountPlaced(formals: seq<Formal>, floats: set<Value>, used: set<Value>, args: set<Reg>, k: nat, r: Reg, f: bool)
    requires k < |formals| && |args * Class(f)| == CountUsed(formals[..k], floats, used, f)
    requires formals[k].val in used && r !in args && r.isFloat == (formals[k].val in floats) && r in Class(r.isFloat)
    ensures |(args + {r}) * Class(f)| == CountUsed(formals[..k + 1], floats, used, f)
  {
    hide Class;
    assert formals[..k + 1][..k] == formals[..k];
    ClassSize(f);
    OneMore(args, Class(f), r);
  }

  lemma OneMore<T>(s: set<T>, c: set<T>, x: T)
    requires x !in s
    ensures |(s + {x}) * c| == |s * c| + if x in c then 1 else 0
  {
    if x in c {
      assert (s + {x}) * c == s * c + {x};
    } else {
      assert (s + {x}) * c == s * c;
    }
  }

  lemma OneMapped(formals: seq<Formal>, used: set<Value>, regs: Mapping, args: set<Reg>, k: nat, v: Value, r: Reg)
    requires k < |formals| && ArgsMapped(formals[..k], used, regs, args) && formals[k].val == v && v in used
    requires r !in args
    ensures ArgsMapped(formals[..k + 1], used, regs[v := r], args + {r})
  {
    AmongNext(formals, k);
    hide Among;
  }

  lemma OneId(formals: seq<Formal>, floats: set<Value>, used: set<Value>, args: set<Reg>, k: nat, r: Reg)
    requires k < |formals| && ArgIds(formals[..k], floats, args) && FormalsOk(formals, floats, used)
    requires formals[k].val in used
    requires var f := formals[k].val in floats; r == Reg(10 + CountClass(formals[..k], floats, f), f)
    ensures ArgIds(formals[..k + 1], floats, args + {r}) && r !in args && r in Args(r.isFloat) && r in Class(r.isFloat)
  {
    assert formals[..k + 1][..k] == formals[..k];
  }

  lemma OnePlaced(formals: seq<Formal>, floats: set<Value>, used: set<Value>, regs: Mapping, args: set<Reg>, k: nat,
                  v: Value, r: Reg)
    requires k < |formals| && ArgsPlaced(formals[..k], floats, used, regs, args) && formals[k].val == v && v in used
    requires FormalsOk(formals, floats, used)
    requires r == Reg(10 + CountClass(formals[..k], floats, v in floats), v in floats)
    ensures ArgsPlaced(formals[..k + 1], floats, used, regs[v := r], args + {r}) && r !in args && r in Args(r.isFloat)
  {
    hide ArgsMapped, ArgIds, Among, Class, Args, FormalsOk;
    OneId(formals, floats, used, args, k, r);
    OneMapped(formals, used, regs, args, k, v, r);
    forall f
      ensures |(args + {r}) * Class(f)| == CountUsed(formals[..k + 1], floats, used, f)
    {
      CountPlaced(formals, floats, used, args, k, r, f);
    }
  }

  ghost function BlocksBelow(n: nat): (s: set<Block>)
    ensures |s| == n && forall b: Block :: b in s <==> b < n
  {
    if n == 0 then {} else BlocksBelow(n - 1) + {n - 1}
  }

  /** Both values have an entry, and if it is the same, it names no register. */
  ghost predicate Differ(regs: Mapping, v: Value, w: Value) {
    v in regs && w in regs && (regs[v] == regs[w] ==> regs[v] == NO_REG)
  }

  class RegAlloc {
    const g: Graph
    const code: Code
    const formals: seq<Formal>
    const floats: set<Value> // the values of type float
    var visited: set<Block>
    var counter: int
    var bb2int: map<Block, int>
    var int2bb: map<int, Block>
    var intervals: set<Interval>
    var val2interval: map<Value, Interval>
    var active: set<Interval>
    var available: set<Reg>
    var regMappings: Mapping
    const size: SizeOf // of what an alloca makes room for, or of the value
    const calls: bool // whether the function calls others
    var stackMappings: Offsets
    var stackSize: int
    ghost var argRegs: set<Reg> // the registers of used parameters
    ghost var argMap: Mapping
    ghost var kept: set<Interval>
    ghost var dropped: set<Interval>
    ghost var short: bool // some value was given no register at all

    constructor (g: Graph, code: Code, formals: seq<Formal>, floats: set<Value>, size: SizeOf, calls: bool)
      ensures this.g == g && this.code == code && this.formals == formals && this.floats == floats
      ensures this.size == size && this.calls == calls
    {
      this.g, this.code, this.formals, this.floats, this.size, this.calls := g, code, formals, floats, size, calls;
      visited, counter, bb2int, int2bb := {}, 0, map[], map[];
      intervals, val2interval, active, available, regMappings, stackMappings, stackSize := {}, map[], {}, {}, map[],
        map[], 0;
      argRegs, argMap, kept, dropped, short := {}, map[], {}, {}, false;
    }

    predicate IsFormal(v: Value) {
      Among(formals, v)
    }

    ghost function NonFormals(s: set<Interval>): set<Interval> {
      set i | i in s && !IsFormal(i.val)
    }

    ghost function Progress(todo: set<Interval>): Sorted
      reads this`intervals, this`kept, this`dropped
    {
      Sorted(NonFormals(intervals), kept, dropped, NonFormals(todo))
    }

    ghost function State(): ScanState
      reads this`active, this`available, this`regMappings, this`stackMappings
    {
      ScanState(active, available, regMappings, stackMappings.Keys)
    }

    /** The invariant of the scan; todo holds the intervals still to come. */
    ghost predicate Ok(todo: set<Interval>)
      reads this
    {
      ScanOk(Progress(todo), State(), argRegs, argMap)
    }

    /** As long as every value got a register, no interval lacks one. */
    ghost predicate NoneMissing()
      reads this
    {
      !short ==> Equipped(kept, regMappings, available)
    }

    /** As long as nothing was spilled, every register is of its value's class. */
    ghost predicate ClassesRight()
      reads this`kept, this`dropped, this`regMappings
    {
      dropped == {} ==> forall i {:trigger i in kept} :: i in kept && i.val in regMappings ==>
        regMappings[i.val] == NO_REG || regMappings[i.val].isFloat == (i.val in floats)
    }

    /** Registers of used arguments, by class. */
    ghost function TakenNow(): Taken
      reads this`val2interval
    {
      Taken(CountUsed(formals, floats, val2interval.Keys, false), CountUsed(formals, floats, val2interval.Keys, true))
    }

    /** What the scan without registers says of all intervals of values that are not parameters. */
    ghost function Verdict(): Outcome
      reads this`val2interval, this`intervals
    {
      Outcomes(floats, TakenNow(), NonFormals(intervals))
    }

    /** So far it has been right. */
    ghost predicate AsForeseen(todo: set<Interval>)
      reads this
    {
      && Foreseen(Progress(todo), State(), argMap, floats, TakenNow(), short)
      && (short <==> NO_REG in regMappings.Values)
      && (forall v {:trigger v in regMappings} :: v in regMappings && IsFormal(v) ==> v in argMap)
    }

    /** With or without enough registers, what is kept is what the intervals alone decide; and once a
        register was missing, some kept interval has none. */
    ghost predicate OnCourse(todo: set<Interval>)
      reads this`intervals, this`active, this`kept, this`regMappings, this`short
    {
      && WillKeep(active, kept, NonFormals(todo)) == Kept(NonFormals(intervals))
      && (short ==> Lacking(kept, regMappings))
    }

    /** The bytes in which registers are saved. */
    function Base(): int {
      if calls then 16 else 8
    }

    ghost function AllocaSet(): set<Value> {
      set b, l | 0 <= b < |code| && 0 <= l < |code[b]| && code[b][l].alloca :: code[b][l].val
    }

    /** The slots are those of all allocas in numbered blocks, and of spilled values. */
    ghost predicate StackOk()
      reads this`stackMappings, this`stackSize, this`intervals, this`int2bb
    {
      && FrameOk(size, Base(), AllocaSet(), stackMappings, stackSize)
      && (forall v {:trigger v in stackMappings} :: v in stackMappings ==>
           v in AllocaSet() || exists i :: i in NonFormals(intervals) && i.val == v)
      && (forall u, v {:trigger Order().Allocates(u, v)} :: Order().Allocates(u, v) ==> v in stackMappings)
    }

    /** The next interval in the order of the interval set. */
    method First(todo: set<Interval>) returns (i: Interval)
      requires todo != {}
      ensures IsFirst(todo, i)
    {
      i :| i in todo;
      var rest := todo - {i};
      while rest != {}
        invariant rest <= todo && i in todo - rest
        invariant forall k {:trigger k in todo} :: k in todo && k !in rest ==> !IntervalLess(k, i)
      {
        var k :| k in rest;
        if IntervalLess(k, i) {
          i := k;
        }
        rest := rest - {k};
      }
    }

    /** The first interval in the order of the active set. */
    method FirstActive(s: set<Interval>) returns (j: Interval)
      requires s != {}
      ensures j in s && forall k {:trigger k in s} :: k in s ==> !ActiveLess(k, j)
    {
      j :| j in s;
      var rest := s - {j};
      while rest != {}
        invariant rest <= s && j in s - rest
        invariant forall k {:trigger k in s} :: k in s && k !in rest ==> !ActiveLess(k, j)
      {
        var k :| k in rest;
        if ActiveLess(k, j) {
          j := k;
        }
        rest := rest - {k};
      }
    }

    /** The last interval in the order of the active set: the one with the furthest end. */
    method LastActive() returns (j: Interval)
      requires active != {}
      ensures IsLast(active, j) && Furthest(active, j)
    {
      j :| j in active;
      var rest := active - {j};
      while rest != {}
        invariant rest <= active && j in active - rest
        invariant forall k {:trigger k in active} :: k in active && k !in rest ==> !ActiveLess(j, k)
      {
        var k :| k in rest;
        if ActiveLess(j, k) {
          j := k;
        }
        rest := rest - {k};
      }
    }

    method FreeReg(j: Interval)
      requires j.val in regMappings
      modifies this`available
      ensures available == old(available) + {regMappings[j.val]}
    {
      available := available + {regMappings[j.val]};
    }

    /** The active intervals that end before i starts, in the order of the active set. */
    method Outdated(i: Interval) returns (list: seq<Interval>)
      ensures forall j {:trigger j in list} :: j in list <==> j in active && j.end.Less(i.start)
      ensures forall k, l {:trigger list[k], list[l]} :: 0 <= k < l < |list| ==> list[k] != list[l]
    {
      list := [];
      var rest := active;
      while rest != {}
        invariant rest <= active && forall j {:trigger j in list} :: j in list <==> j in active && j !in rest
        invariant forall j {:trigger j in list} :: j in list ==> j.end.Less(i.start)
        invariant forall k, l {:trigger list[k], list[l]} :: 0 <= k < l < |list| ==> list[k] != list[l]
      {
        var j := FirstActive(rest);
        if i.start.AtMost(j.end) {
          break;
        }
        assert forall k {:trigger list[k]} :: 0 <= k < |list| ==> list[k] in list;
        list := list + [j];
        rest := rest - {j};
      }
    }

    /** Frees the registers of the intervals that end before i starts. */
    method ExpireOldIntervals(i: Interval, ghost todo: set<Interval>)
      requires Ok(todo) && NoneMissing() && forall k {:trigger k in todo} :: k in todo ==> i.start.AtMost(k.start)
      modifies this`active, this`available
      ensures Ok(todo) && NoneMissing()
      ensures forall j {:trigger j in active} :: j in active <==> j in old(active) && i.start.AtMost(j.end)
    {
      hide ScanOk;
      var list := Outdated(i);
      for n := 0 to |list|
        invariant Ok(todo) && NoneMissing()
        invariant forall j {:trigger j in active} :: j in active <==> j in old(active) && j !in list[..n]
      {
        var j := list[n];
        assert j in list && j !in list[..n];
        OkFacts(Progress(todo), State(), argRegs, argMap);
        OkExpire(Progress(todo), State(), argRegs, argMap, j, i.start);
        EquippedExpire(kept, regMappings, available, active, j);
        active := active - {j};
        FreeReg(j);
        assert list[..n + 1] == list[..n] + [j];
      }
      assert list[..|list|] == list;
    }

    /** Gives i the first available register of its class, or no register if there is none. */
    method AssignReg(i: Interval) returns (r: Reg)
      requires available != {} && i.val !in regMappings
      requires forall q {:trigger q in available} :: q in available ==> q == NO_REG || q in AllRegs()
      modifies this`available, this`regMappings, this`short
      ensures regMappings == old(regMappings)[i.val := r] && available == old(available) - {r}
      ensures r == NO_REG || (r in old(available) && r.isFloat == (i.val in floats))
      ensures r != NO_REG ==>
        forall q {:trigger q in old(available)} :: q in old(available) && q.isFloat == r.isFloat ==> r.id <= q.id
      ensures NO_REG !in old(available) ==> (r != NO_REG <==> HasFree(old(available), i.val in floats))
      ensures short <==> old(short) || r == NO_REG
    {
      var f := i.val in floats;
      r := NO_REG;
      for id := -1 to 32
        invariant r == NO_REG
        invariant forall q {:trigger q in available} :: q in available && q.isFloat == f ==> q.id >= id
      {
        if Reg(id, f) in available {
          r := Reg(id, f);
          break;
        }
      }
      AllIds();
      assert NO_REG !in available ==> (r != NO_REG <==> HasFree(available, f)) by {
        if r in AllRegs() {
          assert r in Class(f);
        }
      }
      regMappings := regMappings[i.val := r];
      available := available - {r};
      short := short || r == NO_REG;
    }

    /** The slot of a spilled value; it begins the value's own size below the frame pointer, wherever the
        others are. */
    method GiveSlot(i: Interval)
      requires StackOk() && i in NonFormals(intervals) && i.val !in stackMappings && i.val !in AllocaSet()
      modifies this`stackMappings, this`stackSize
      ensures StackOk() && stackMappings.Keys == old(stackMappings).Keys + {i.val}
      ensures stackMappings == old(stackMappings)[i.val := 0 - size(i.val)]
      ensures stackSize == old(stackSize) + size(i.val)
    {
      hide FrameOk;
      FrameSpill(size, Base(), AllocaSet(), stackMappings, stackSize, i.val);
      stackSize := stackSize + size(i.val);
      stackMappings := stackMappings[i.val := 0 - size(i.val)];
    }

    /** All places taken: the interval with the furthest end goes to the stack. Its register passes to i
        whatever class it is of. */
    method SpillAtInterval(i: Interval, ghost todo: set<Interval>)
      requires Ok(todo) && NoneMissing() && |active| == LIMIT && Next(active, NonFormals(todo), i)
      requires StackOk() && forall j {:trigger j in NonFormals(intervals)} :: j in NonFormals(intervals) ==>
        j.val !in AllocaSet()
      modifies this`active, this`regMappings, this`stackMappings, this`stackSize, this`kept, this`dropped
      ensures Ok(todo - {i}) && NoneMissing() && ClassesRight() && StackOk()
      ensures Spills(old(State()), old(kept), i, State(), kept)
    {
      hide ScanOk, Furthest, IsLast, Next, Equipped, AllRegs, StackOk, AllocaSet, Among, NonFormals;
      SpillFacts(i, todo);
      var spill := LastActive();
      if i.end.Less(spill.end) {
        TakeOver(i, spill, todo);
      } else {
        LeaveOut(i, spill, todo);
      }
    }

    /** The active interval leaves, and i has its register. */
    method TakeOver(i: Interval, spill: Interval, ghost todo: set<Interval>)
      requires Ok(todo) && NoneMissing() && |active| == LIMIT && Next(active, NonFormals(todo), i) && StackOk()
      requires IsLast(active, spill) && Furthest(active, spill) && i.end.Less(spill.end) && spill.val !in AllocaSet()
      modifies this`active, this`regMappings, this`stackMappings, this`stackSize, this`kept, this`dropped
      ensures Ok(todo - {i}) && NoneMissing() && ClassesRight() && StackOk()
      ensures SpillsOne(old(State()), old(kept), i, spill, State(), kept)
    {
      hide ScanOk, Furthest, Next, Equipped, AllRegs, StackOk, AllocaSet, Among, NonFormals;
      SpillFacts(i, todo);
      ghost var q0, t := Progress(todo), State();
      EquippedSwap(kept, regMappings, available, active, i, spill);
      OkSwap(q0, t, argRegs, argMap, i, spill);
      regMappings := regMappings[i.val := regMappings[spill.val]];
      GiveSlot(spill);
      active := active - {spill} + {i};
      kept, dropped := kept - {spill} + {i}, dropped + {spill};
      assert State() == TakenOver(t, i, spill) && Progress(todo - {i}) == Swapped(q0, i, spill);
    }

    /** i itself goes to the stack. */
    method LeaveOut(i: Interval, ghost spill: Interval, ghost todo: set<Interval>)
      requires Ok(todo) && NoneMissing() && |active| == LIMIT && Next(active, NonFormals(todo), i) && StackOk()
      requires Furthest(active, spill) && !i.end.Less(spill.end) && i.val !in AllocaSet()
      modifies this`stackMappings, this`stackSize, this`dropped
      ensures Ok(todo - {i}) && NoneMissing() && ClassesRight() && StackOk()
      ensures SpillsOne(old(State()), old(kept), i, spill, State(), kept)
    {
      hide ScanOk, Furthest, Next, Equipped, AllRegs, StackOk, AllocaSet, Among, NonFormals;
      SpillFacts(i, todo);
      ghost var q0, t := Progress(todo), State();
      OkDrop(q0, t, argRegs, argMap, i, spill);
      GiveSlot(i);
      dropped := dropped + {i};
      assert State() == Spilled(t, i) && Progress(todo - {i}) == Dropped(q0, i);
    }

    lemma SpillFacts(i: Interval, todo: set<Interval>)
      requires Ok(todo) && |active| == LIMIT && Next(active, NonFormals(todo), i)
      ensures NonFormals(todo - {i}) == NonFormals(todo) - {i} && active != {} && active <= kept
      ensures i in NonFormals(intervals) && i.val !in stackMappings && i.val !in regMappings
      ensures forall j {:trigger j in active} :: j in active ==>
        j in NonFormals(intervals) && j.val !in stackMappings && j.val in regMappings
    {
      hide ScanOk, Next, NonFormals;
      NextIs(active, NonFormals(todo), i);
      RestWithout(todo, i);
      OkUnspilled(Progress(todo), State(), argRegs, argMap, i);
      OkFresh(Progress(todo), State(), argRegs, argMap, i);
      AnyActive(active);
    }

    lemma NotAllocas()
      requires ArgsReady()
      ensures forall i {:trigger i in NonFormals(intervals)} :: i in NonFormals(intervals) ==> i.val !in AllocaSet()
    {
    }

    lemma RestWithout(todo: set<Interval>, i: Interval)
      ensures NonFormals(todo - {i}) == NonFormals(todo) - {i}
    {
    }

    /** A place is free: i becomes active. */
    method Place(i: Interval, ghost todo: set<Interval>)
      requires Ok(todo) && NoneMissing() && ClassesRight() && |active| < LIMIT && Next(active, NonFormals(todo), i)
      modifies this`active, this`available, this`regMappings, this`kept, this`short
      ensures Ok(todo - {i}) && NoneMissing() && ClassesRight() && kept == old(kept) + {i}
      ensures active == old(active) + {i}
      ensures i.val in regMappings && regMappings == old(regMappings)[i.val := regMappings[i.val]]
      ensures regMappings[i.val] == NO_REG || regMappings[i.val].isFloat == (i.val in floats)
      ensures short <==> old(short) || regMappings[i.val] == NO_REG
      ensures !old(short) ==> (short <==> Load(old(active), old(regMappings), argRegs, i.val in floats) >= 15)
    {
      hide ScanOk, Next, Equipped, AllRegs, Load, HasFree;
      NextIs(active, NonFormals(todo), i);
      RestWithout(todo, i);
      OkFacts(Progress(todo), State(), argRegs, argMap);
      EquippedAdd(kept, regMappings, available, i);
      OkPlace(Progress(todo), State(), argRegs, argMap, i);
      ghost var t := State();
      var r := AssignReg(i);
      active := active + {i};
      OkAdd(Progress(todo), t, argRegs, argMap, i, r);
      kept := kept + {i};
    }

    /** Of the first n parameters the used ones have the registers of their positions in the calling convention. */
    ghost predicate ArgsAt(n: nat, m: Mapping)
      requires n <= |formals|
      reads this`val2interval
    {
      forall k {:trigger formals[k]} :: 0 <= k < n && formals[k].val in val2interval ==>
        formals[k].val in m && m[formals[k].val] == ArgReg(formals, floats, k)
    }

    lemma NextArg(k: nat, m: Mapping, r: Reg)
      requires k < |formals| && ArgsAt(k, m) && FormalsOk(formals, floats, val2interval.Keys)
      requires var f := formals[k].val in floats; r == Reg(10 + CountClass(formals[..k], floats, f), f)
      ensures ArgsAt(k + 1, m[formals[k].val := r])
    {
      CountIsSize(formals, floats, k, formals[k].val in floats);
      hide ClassPositions;
    }

    /** Used parameters get the argument registers of their positions in the calling convention. */
    method PreAllocateArgs()
      requires FormalsOk(formals, floats, val2interval.Keys) && available == AllRegs() && regMappings == map[]
      modifies this`available, this`regMappings, this`argRegs, this`argMap
      ensures ArgsPlaced(formals, floats, val2interval.Keys, regMappings, argRegs) && argMap == regMappings
      ensures available == AllRegs() - argRegs && argRegs <= Args(false) + Args(true)
      ensures ArgsAt(|formals|, regMappings)
    {
      hide ArgsPlaced, FormalsOk, AllRegs, Args;
      var intArgs, floatArgs := 0, 0;
      argRegs := {};
      NonePlaced(floats, val2interval.Keys);
      for k := 0 to |formals|
        invariant intArgs == CountClass(formals[..k], floats, false)
        invariant floatArgs == CountClass(formals[..k], floats, true)
        invariant ArgsPlaced(formals[..k], floats, val2interval.Keys, regMappings, argRegs)
        invariant available == AllRegs() - argRegs && argRegs <= Args(false) + Args(true)
        invariant ArgsAt(k, regMappings)
      {
        var v := formals[k].val;
        assert formals[..k + 1][..k] == formals[..k];
        var used := v in val2interval;
        var r := if v in floats then Reg(10 + floatArgs, true) else Reg(10 + intArgs, false);
        if used {
          NextArg(k, regMappings, r);
          OnePlaced(formals, floats, val2interval.Keys, regMappings, argRegs, k, v, r);
          regMappings := regMappings[v := r];
          available := available - {r};
          argRegs := argRegs + {r};
        } else {
          SkipPlaced(formals, floats, val2interval.Keys, regMappings, argRegs, k);
        }
        if v in floats {
          floatArgs := floatArgs + 1;
        } else {
          intArgs := intArgs + 1;
        }
      }
      assert formals[..|formals|] == formals;
      argMap := regMappings;
    }

    method PreAllocated(i: Interval) returns (found: bool)
      ensures found <==> IsFormal(i.val)
    {
      for k := 0 to |formals|
        invariant forall j :: 0 <= j < k ==> formals[j].val != i.val
      {
        if formals[k].val == i.val {
          return true;
        }
      }
      return false;
    }

    /** Intervals of values without a stack slot. */
    ghost function Unspilled(): set<Interval>
      reads this`intervals, this`stackMappings
    {
      set i | i in intervals && i.val !in stackMappings
    }

    /** At most one used parameter of each class. */
    ghost predicate FewArgs()
      reads this`val2interval
    {
      CountUsed(formals, floats, val2interval.Keys, false) <= 1
        && CountUsed(formals, floats, val2interval.Keys, true) <= 1
    }

    /** The parameters have their registers, and the scan may begin. */
    ghost predicate ArgsReady()
      reads this`intervals, this`val2interval, this`argRegs, this`argMap
    {
      && IntervalsOk(intervals) && argRegs <= Args(false) + Args(true)
      && (forall i {:trigger i in intervals} :: i in intervals ==> i.val !in AllocaSet())
      && ArgsPlaced(formals, floats, val2interval.Keys, argMap, argRegs) && ArgsAt(|formals|, argMap)
      && (forall i {:trigger i in intervals} :: i in intervals ==> i.val in val2interval)
      && (forall v {:trigger v in val2interval} :: v in val2interval ==>
           val2interval[v] in intervals && val2interval[v].val == v)
    }

    lemma ScanStarts()
      requires ArgsReady() && kept == {} && dropped == {} && active == {} && available == AllRegs() - argRegs
      requires argMap == regMappings
      requires forall i {:trigger i in intervals} :: i in intervals ==> i.val !in stackMappings
      ensures Ok(intervals) && NoneMissing()
    {
      hide AllRegs, Args;
      StartOk(NonFormals(intervals), State(), argRegs);
    }

    lemma FormalSkipped(todo: set<Interval>, i: Interval)
      requires Ok(todo) && IsFormal(i.val)
      ensures Ok(todo - {i}) && Progress(todo - {i}) == Progress(todo)
    {
      hide ScanOk;
      assert NonFormals(todo - {i}) == NonFormals(todo);
    }

    lemma NextReady(todo: set<Interval>, i: Interval)
      requires IsFirst(todo, i) && !IsFormal(i.val)
      requires forall j {:trigger j in active} :: j in active ==> i.start.AtMost(j.end)
      ensures Next(active, NonFormals(todo), i)
    {
    }

    lemma EnoughFree(todo: set<Interval>, f: bool)
      requires Ok(todo) && ArgsReady() && |active| < LIMIT
      ensures FewArgs() ==> Load(active, regMappings, argRegs, f) < 15
    {
      hide NoConflict, Scanning, Recorded, AllRegs, Args, ArgsMapped, ArgIds, IntervalsOk, Injective, Held;
      if FewArgs() {
        assert |argRegs * Class(f)| == CountUsed(formals, floats, val2interval.Keys, f) <= 1;
        Supply(active, regMappings, available, argRegs, f);
        SomeFree(available, Held(active, regMappings), argRegs, f);
      }
    }

    lemma TakenAreArgs(f: bool)
      requires ArgsReady()
      ensures TakenNow().Of(f) == |argRegs * Class(f)| <= 15
    {
      assert |argRegs * Class(f)| == CountUsed(formals, floats, val2interval.Keys, f);
      ClassSize(f);
      SubsetSize(argRegs * Class(f), Class(f));
    }

    lemma FirstStarts(todo: set<Interval>, i: Interval)
      requires IsFirst(todo, i)
      ensures i in todo && forall k {:trigger k in todo} :: k in todo ==> i.start.AtMost(k.start)
    {
    }

    lemma NoneMapped()
      requires ArgsReady() && argMap == regMappings
      ensures NO_REG !in regMappings.Values
    {
      ArgsAreRegs(argRegs);
    }

    lemma NonFormalFirst(todo: set<Interval>, i: Interval)
      requires IsFirst(todo, i) && !IsFormal(i.val)
      ensures IsFirst(NonFormals(todo), i)
    {
    }

    lemma ExpireForeseen(t0: ScanState, todo: set<Interval>, i: Interval)
      requires ScanOk(Progress(todo), t0, argRegs, argMap) && IsFirst(todo, i)
      requires forall j {:trigger j in active} :: j in active <==> j in t0.active && i.start.AtMost(j.end)
      requires regMappings == t0.regs && Foreseen(Progress(todo), t0, argMap, floats, TakenNow(), short)
      ensures Foreseen(Progress(todo), State(), argMap, floats, TakenNow(), short)
    {
      hide ScanOk, Scan, TagsIn, Outcomes;
      assert forall k :: k in NonFormals(todo) ==> i.start.AtMost(k.start);
      TraceExpire(Progress(todo), t0, argRegs, argMap, floats, TakenNow(), i.start, active);
    }

    lemma CourseBegins()
      requires active == kept == {} && !short
      ensures OnCourse(intervals)
    {
    }

    lemma ExpireCourse(t0: ScanState, todo: set<Interval>, i: Interval)
      requires ScanOk(Progress(todo), t0, argRegs, argMap) && IsFirst(todo, i)
      requires forall j {:trigger j in active} :: j in active <==> j in t0.active && i.start.AtMost(j.end)
      ensures WillKeep(active, kept, NonFormals(todo)) == WillKeep(t0.active, kept, NonFormals(todo))
    {
      hide ScanOk, WillKeep;
      assert forall k :: k in NonFormals(todo) ==> i.start.AtMost(k.start);
      KeepExpire(Progress(todo), t0, argRegs, argMap, i.start, active);
    }

    lemma PlaceCourse(q0: Sorted, t0: ScanState, todo: set<Interval>, i: Interval, short0: bool)
      requires ScanOk(q0, t0, argRegs, argMap) && Next(t0.active, q0.rest, i) && |t0.active| < LIMIT
      requires IsFirst(todo, i) && !IsFormal(i.val) && q0.rest == NonFormals(todo) && i.val !in t0.regs
      requires WillKeep(t0.active, q0.kept, q0.rest) == Kept(NonFormals(intervals))
      requires (short0 ==> Lacking(q0.kept, t0.regs))
      requires kept == q0.kept + {i} && active == t0.active + {i}
      requires i.val in regMappings && regMappings == t0.regs[i.val := regMappings[i.val]]
      requires short <==> short0 || regMappings[i.val] == NO_REG
      ensures OnCourse(todo - {i})
    {
      hide ScanOk, Next, WillKeep, Kept, IsFirst, Among;
      RestWithout(todo, i);
      NonFormalFirst(todo, i);
      KeepPlace(q0, t0, argRegs, argMap, i);
      if short0 {
        var j :| j in q0.kept && j.val in t0.regs && t0.regs[j.val] == NO_REG;
        assert j.val in regMappings && regMappings[j.val] == NO_REG;
      }
    }

    lemma SpillCourse(q0: Sorted, t0: ScanState, todo: set<Interval>, i: Interval)
      requires ScanOk(q0, t0, argRegs, argMap) && Next(t0.active, q0.rest, i) && |t0.active| == LIMIT
      requires IsFirst(todo, i) && !IsFormal(i.val) && q0.rest == NonFormals(todo)
      requires WillKeep(t0.active, q0.kept, q0.rest) == Kept(NonFormals(intervals))
      requires (short ==> Lacking(q0.kept, t0.regs))
      requires Spills(t0, q0.kept, i, State(), kept)
      ensures OnCourse(todo - {i})
    {
      hide ScanOk, Next, WillKeep, Kept, IsFirst, Among, Spills, Lacking;
      RestWithout(todo, i);
      NonFormalFirst(todo, i);
      KeepSpill(q0, t0, argRegs, argMap, i, State(), kept);
      if short {
        LackingSpill(q0, t0, argRegs, argMap, i, State(), kept);
      }
    }

    lemma PlaceForeseen(q0: Sorted, t0: ScanState, todo: set<Interval>, i: Interval, short0: bool)
      requires ScanOk(q0, t0, argRegs, argMap) && Next(t0.active, q0.rest, i) && |t0.active| < LIMIT && IsFirst(todo, i)
      requires !IsFormal(i.val)
      requires q0 == Sorted(NonFormals(intervals), q0.kept, dropped, NonFormals(todo)) && ArgsReady()
      requires (!short0 ==> Equipped(q0.kept, t0.regs, t0.free)) && Foreseen(q0, t0, argMap, floats, TakenNow(), short0)
      requires kept == q0.kept + {i} && active == t0.active + {i} && i.val in regMappings
      requires regMappings == t0.regs[i.val := regMappings[i.val]]
      requires regMappings[i.val] == NO_REG || regMappings[i.val].isFloat == (i.val in floats)
      requires short <==> short0 || regMappings[i.val] == NO_REG
      requires !short0 ==> (short <==> Load(t0.active, t0.regs, argRegs, i.val in floats) >= 15)
      ensures Foreseen(Progress(todo - {i}), State(), argMap, floats, TakenNow(), short)
    {
      hide ScanOk, Next, Equipped, Load, ScanLimits.Scan, TagsIn, Outcomes, IsFirst, ArgsReady, TakenNow, Class, Among;
      RestWithout(todo, i);
      NonFormalFirst(todo, i);
      TakenAreArgs(i.val in floats);
      if !short0 {
        TracePlace(q0, t0, argRegs, argMap, floats, TakenNow(), i, regMappings[i.val]);
      }
    }

    lemma PlaceEntries(t0: ScanState, i: Interval, short0: bool)
      requires i.val in regMappings && i.val !in t0.regs && regMappings == t0.regs[i.val := regMappings[i.val]]
      requires !IsFormal(i.val)
      requires short <==> short0 || regMappings[i.val] == NO_REG
      requires (short0 <==> NO_REG in t0.regs.Values) && forall v {:trigger v in t0.regs} ::
        v in t0.regs && IsFormal(v) ==> v in argMap
      ensures (short <==> NO_REG in regMappings.Values) && forall v {:trigger v in regMappings} ::
        v in regMappings && IsFormal(v) ==> v in argMap
    {
      hide Among;
      FreshValue(t0.regs, i.val, regMappings[i.val]);
    }

    lemma SpillForeseen(q0: Sorted, t0: ScanState, todo: set<Interval>, i: Interval)
      requires ScanOk(q0, t0, argRegs, argMap) && Next(t0.active, q0.rest, i) && |t0.active| == LIMIT
      requires IsFirst(todo, i) && !IsFormal(i.val)
      requires q0.all == NonFormals(intervals) && q0.rest == NonFormals(todo)
      requires Foreseen(q0, t0, argMap, floats, TakenNow(), short)
      requires Spills(t0, q0.kept, i, State(), kept)
      requires (short <==> NO_REG in t0.regs.Values) && forall v {:trigger v in t0.regs} ::
        v in t0.regs && IsFormal(v) ==> v in argMap
      ensures AsForeseen(todo - {i})
    {
      hide ScanOk, Next, ScanLimits.Scan, TagsIn, Outcomes, IsFirst, Spills, TakenNow, PlacesOf, Among;
      RestWithout(todo, i);
      NonFormalFirst(todo, i);
      TraceSpill(q0, t0, argRegs, argMap, floats, TakenNow(), i, State(), Progress(todo - {i}));
    }

    /** Every register ever given to a value that is not a parameter is one, and of the value's class. */
    ghost predicate RegistersRight()
      reads this`regMappings
    {
      forall v {:trigger v in regMappings} :: v in regMappings && !IsFormal(v) ==>
        regMappings[v] != NO_REG && regMappings[v].isFloat == (v in floats)
    }

    /** Every value that is not a parameter and not spilled has a register, and one of its own class. */
    ghost predicate UnspilledRight()
      reads this`intervals, this`stackMappings, this`regMappings
    {
      forall i {:trigger i in NonFormals(Unspilled())} :: i in NonFormals(Unspilled()) ==>
        i.val in regMappings && regMappings[i.val] != NO_REG && regMappings[i.val].isFloat == (i.val in floats)
    }

    /** What is kept, where its registers come from, and when they are right. */
    lemma OriginsEnd()
      requires Ok({}) && ArgsReady() && AsForeseen({}) && OnCourse({})
      requires !short ==> forall i {:trigger i in Unspilled()} :: i in Unspilled() ==>
        i.val in regMappings && regMappings[i.val] != NO_REG
      ensures NonFormals(Unspilled()) == Kept(NonFormals(intervals))
      ensures short <==> AnyStarved(NonFormals(intervals), floats, TakenNow())
      ensures !short ==> forall i {:trigger i in NonFormals(Unspilled())} :: i in NonFormals(Unspilled()) ==>
        i.val in regMappings && regMappings[i.val].isFloat == (Origin(NonFormals(intervals), i).val in floats)
      ensures UnspilledRight() <==> !short && SameClass(NonFormals(intervals), floats, Kept(NonFormals(intervals)))
    {
      hide ScanOk, ArgsPlaced, IntervalsOk, Passed, WithinClasses, TagsRight, TagsIn, AnyStarved, Origin, Among,
        Outcomes, TakenNow;
      UnspilledKept();
      ForeseenEnds();
      AllOk({});
      var all := NonFormals(intervals);
      assert NonFormals({}) == {};
      ShortWhenStarved(all, floats, TakenNow());
      OriginsDecide(all, floats, TakenNow());
      if short {
        var j :| j in kept && j.val in regMappings && regMappings[j.val] == NO_REG;
        assert j in NonFormals(Unspilled());
      } else {
        OriginClasses(all);
      }
    }

    lemma OriginClasses(all: set<Interval>)
      requires OriginTags(all, floats, NonFormals(Unspilled()), TagsIn(regMappings, argMap))
      requires forall i {:trigger i in Unspilled()} :: i in Unspilled() ==>
        i.val in regMappings && regMappings[i.val] != NO_REG
      ensures forall i {:trigger i in NonFormals(Unspilled())} :: i in NonFormals(Unspilled()) ==>
        i.val in regMappings && regMappings[i.val].isFloat == (Origin(all, i).val in floats)
      ensures UnspilledRight() <==> SameClass(all, floats, NonFormals(Unspilled()))
    {
      hide Origin, Among;
      forall i | i in NonFormals(Unspilled())
        ensures i.val in regMappings && regMappings[i.val].isFloat == (Origin(all, i).val in floats)
      {
        var o := Origin(all, i);
        assert TagsIn(regMappings, argMap)[i.val] == regMappings[i.val].isFloat;
      }
    }

    lemma ForeseenEnds()
      requires Ok({}) && ArgsReady() && AsForeseen({})
      ensures short <==> Verdict().Shortage?
      ensures !short ==> Verdict() == Placed(NonFormals(Unspilled()), TagsIn(regMappings, argMap))
      ensures RegistersRight() <==> Verdict().Placed? && WithinClasses(Passed(NonFormals(intervals)), floats)
    {
      UnspilledKept();
      RegistersTagged();
      hide ScanOk, ArgsPlaced, IntervalsOk, Passed, WithinClasses, TagsRight, TagsIn, RegistersRight;
      assert NonFormals({}) == {};
      if !short {
        AllOk({});
        RightClasses(NonFormals(intervals), floats, TakenNow());
      }
    }

    /** Shortage in terms of the intervals and the arguments. */
    lemma ShortageWhen()
      requires ArgsReady() && IntervalsOk(NonFormals(intervals))
      ensures Feasible(NonFormals(intervals)) ==>
        (Verdict().Shortage? <==> !Bounded(NonFormals(intervals), floats, TakenNow()))
      ensures forall f {:trigger OneClass(NonFormals(intervals), floats, f)} ::
        OneClass(NonFormals(intervals), floats, f) ==>
        (Verdict().Shortage? <==> TooMany(NonFormals(intervals), TakenNow().Of(f)))
      ensures forall f {:trigger OneClass(NonFormals(intervals), floats, f)} ::
        OneClass(NonFormals(intervals), floats, f) ==>
        Verdict().Shortage? || AllTags(Verdict().tags, f)
    {
      TakenAreArgs(false);
      TakenAreArgs(true);
      hide ArgsReady, Outcomes, OneClass, Feasible, Bounded, AllTags, TakenNow, IntervalsOk;
      var all := NonFormals(intervals);
      if Feasible(all) {
        FitsShort(all, floats, TakenNow());
      }
      forall f | OneClass(all, floats, f)
        ensures Verdict().Shortage? <==> TooMany(all, TakenNow().Of(f))
        ensures Verdict().Shortage? || AllTags(Verdict().tags, f)
      {
        assert TakenNow().Of(f) == TakenNow().Of(false) || TakenNow().Of(f) == TakenNow().Of(true);
        OneClassShort(all, floats, f, TakenNow());
        OneClassRight(all, floats, f, TakenNow());
      }
    }

    /** No value that is not a parameter has a used parameter's register. */
    lemma NotArguments()
      requires Ok({}) && ArgsReady()
      ensures forall i {:trigger i in NonFormals(Unspilled())} :: i in NonFormals(Unspilled()) ==>
        i.val in regMappings && (regMappings[i.val] == NO_REG || regMappings[i.val] !in argRegs)
    {
      hide Holding, Scanning, Recorded, AllRegs, ArgsPlaced, IntervalsOk;
      UnspilledKept();
    }

    lemma AllOk(todo: set<Interval>)
      requires Ok(todo)
      ensures IntervalsOk(NonFormals(intervals))
    {
    }

    lemma RegistersTagged()
      requires Ok({}) && ArgsReady() && AsForeseen({})
      ensures RegistersRight() <==> !short && TagsRight(TagsIn(regMappings, argMap), floats)
    {
      hide Scanning, Holding, NoConflict, IntervalsOk, Foreseen, ArgIds, ArgCounts;
      ArgsAreRegs(argRegs);
      var tags := TagsIn(regMappings, argMap);
      forall v | v in regMappings
        ensures v in argMap ==> IsFormal(v) && regMappings[v] != NO_REG
      {
        assert v in argMap ==> regMappings[v] == argMap[v] && argMap[v] in argRegs;
      }
      if RegistersRight() {
        assert forall v :: v in regMappings ==> regMappings[v] != NO_REG;
      }
      assert forall v :: v in tags ==> tags[v] == regMappings[v].isFloat;
    }

    lemma ScanEnds()
      requires Ok({}) && ArgsReady() && NoneMissing()
      ensures forall i, j {:trigger i.Overlaps(j)} ::
        i in Unspilled() && j in Unspilled() && i != j && i.Overlaps(j) ==> Apart(regMappings, i, j)
      ensures NonFormals(Unspilled()) == kept
      ensures Feasible(kept) && forall s {:trigger Feasible(s)} :: s <= NonFormals(intervals) && Feasible(s) ==>
        |s| <= |kept|
      ensures Holding(active, regMappings, available, argRegs)
      ensures !short ==> forall i {:trigger i in Unspilled()} :: i in Unspilled() ==>
        i.val in regMappings && regMappings[i.val] != NO_REG
    {
      hide Feasible, IntervalsOk, AllRegs, Args, Ordered, NothingLost, Class;
      assert NonFormals({}) == {};
      ScanOptimal(NonFormals(intervals), kept, active, dropped);
      UnspilledKept();
      forall i, j | i in Unspilled() && j in Unspilled() && i != j && i.Overlaps(j)
        ensures Apart(regMappings, i, j)
      {
        UnspilledApart(i, j);
      }
      forall i | !short && i in Unspilled()
        ensures i.val in regMappings && regMappings[i.val] != NO_REG
      {
        UnspilledArg(i);
      }
    }

    /** Nothing is spilled when the intervals of values that are not parameters fit. */
    lemma NothingSpilled()
      requires Ok({}) && ClassesRight() && Feasible(NonFormals(intervals))
      ensures dropped == {} && NonFormals(Unspilled()) == NonFormals(intervals)
      ensures forall i {:trigger i in NonFormals(intervals)} :: i in NonFormals(intervals) && i.val in regMappings ==>
        regMappings[i.val] == NO_REG || regMappings[i.val].isFloat == (i.val in floats)
    {
      hide Feasible, IntervalsOk, AllRegs, Args, Ordered, NothingLost, Class, Holding, NoConflict, Recorded;
      assert NonFormals({}) == {};
      ScanOptimal(NonFormals(intervals), kept, active, dropped);
      assert kept + dropped == NonFormals(intervals) && kept !! dropped;
      Disjoint(kept, dropped);
      UnspilledKept();
    }

    lemma UnspilledKept()
      requires Ok({})
      ensures NonFormals(Unspilled()) == kept
    {
      hide Feasible, NothingLost, IntervalsOk, AllRegs, Args, Ordered, Holding, NoConflict;
      assert NonFormals({}) == {};
      forall i | i in NonFormals(intervals)
        ensures i in kept <==> i.val !in stackMappings
      {
        assert i in kept || i in dropped;
      }
    }

    lemma UnspilledArg(i: Interval)
      requires Ok({}) && ArgsReady() && i in Unspilled()
      ensures i in kept
        || (IsFormal(i.val) && i.val in argMap && i.val in regMappings && regMappings[i.val] == argMap[i.val])
      ensures IsFormal(i.val) ==> regMappings[i.val] in argRegs && regMappings[i.val] != NO_REG
    {
      hide Scanning, IntervalsOk, AllRegs, Args, Ordered, Holding, NoConflict, ArgIds, ArgCounts;
      UnspilledKept();
      ArgsAreRegs(argRegs);
      if IsFormal(i.val) {
        ArgKept(Progress({}), State(), argRegs, argMap, i.val);
      } else {
        assert i in NonFormals(Unspilled());
      }
    }

    lemma UnspilledApart(i: Interval, j: Interval)
      requires Ok({}) && ArgsReady() && i in Unspilled() && j in Unspilled() && i != j && i.Overlaps(j)
      ensures Apart(regMappings, i, j)
    {
      UnspilledArg(i);
      UnspilledArg(j);
      assert i.val != j.val;
      hide Scanning, IntervalsOk, AllRegs, Args, Ordered, Holding, ArgIds, ArgCounts, Recorded;
    }

    /** Every used parameter has the register of its position in the calling convention, and no stack slot. */
    ghost predicate ArgsRight()
      reads this`val2interval, this`regMappings, this`stackMappings
    {
      forall k {:trigger formals[k]} :: 0 <= k < |formals| && formals[k].val in val2interval ==>
        && formals[k].val in regMappings && regMappings[formals[k].val] == ArgReg(formals, floats, k)
        && formals[k].val !in stackMappings
    }

    lemma ArgsStay()
      requires Ok({}) && ArgsReady()
      ensures ArgsRight()
    {
      hide ScanOk, ArgsPlaced, IntervalsOk, ArgReg;
      forall k | 0 <= k < |formals| && formals[k].val in val2interval
        ensures formals[k].val in regMappings && regMappings[formals[k].val] == ArgReg(formals, floats, k)
        ensures formals[k].val !in stackMappings
      {
        ArgKept(Progress({}), State(), argRegs, argMap, formals[k].val);
      }
    }

    /** The frame is sound exactly if every interval is kept. */
    lemma FrameEnds()
      requires Ok({}) && ArgsReady() && StackOk() && NonFormals(Unspilled()) == Kept(NonFormals(intervals))
      ensures FrameSound(size, Base(), stackMappings) <==> Kept(NonFormals(intervals)) == NonFormals(intervals)
    {
      hide ScanOk, ArgsPlaced, ArgsAt, IntervalsOk, Kept, FrameOk, FrameSound, Among;
      SoundWhen(size, Base(), AllocaSet(), stackMappings, stackSize);
      if stackMappings.Keys <= AllocaSet() {
        assert forall i :: i in intervals ==> i.val !in stackMappings;
        assert Unspilled() == intervals;
      }
      if NonFormals(Unspilled()) == NonFormals(intervals) {
        assert forall i :: i in NonFormals(intervals) ==> i in NonFormals(Unspilled()) && i.val !in stackMappings;
      }
    }

    method LinearScanRegisterAllocation()
      requires ArgsReady() && active == {} && available == AllRegs() - argRegs && argMap == regMappings
      requires StackOk() && forall i {:trigger i in intervals} :: i in intervals ==> i.val !in stackMappings
      modifies this`active, this`available, this`regMappings, this`stackMappings, this`stackSize, this`kept,
        this`dropped, this`short
      ensures forall i, j {:trigger i.Overlaps(j)} ::
        i in Unspilled() && j in Unspilled() && i != j && i.Overlaps(j) ==> Apart(regMappings, i, j)
      ensures Feasible(NonFormals(Unspilled()))
      ensures forall s {:trigger Feasible(s)} :: s <= NonFormals(intervals) && Feasible(s) ==>
        |s| <= |NonFormals(Unspilled())|
      ensures Holding(active, regMappings, available, argRegs)
      ensures !short ==> forall i {:trigger i in Unspilled()} :: i in Unspilled() ==>
        i.val in regMappings && regMappings[i.val] != NO_REG
      ensures FewArgs() ==> !short
      ensures Feasible(NonFormals(intervals)) ==> NonFormals(Unspilled()) == NonFormals(intervals)
      ensures Feasible(NonFormals(intervals)) ==> forall i {:trigger i in NonFormals(intervals)} ::
        i in NonFormals(intervals) ==>
        i.val !in stackMappings
          && (i.val in regMappings ==> regMappings[i.val] == NO_REG || regMappings[i.val].isFloat == (i.val in floats))
      ensures NonFormals(Unspilled()) == Kept(NonFormals(intervals))
      ensures short <==> AnyStarved(NonFormals(intervals), floats, TakenNow())
      ensures !short ==> forall i {:trigger i in NonFormals(Unspilled())} :: i in NonFormals(Unspilled()) ==>
        i.val in regMappings && regMappings[i.val].isFloat == (Origin(NonFormals(intervals), i).val in floats)
      ensures UnspilledRight() <==>
        !AnyStarved(NonFormals(intervals), floats, TakenNow())
          && SameClass(NonFormals(intervals), floats, Kept(NonFormals(intervals)))
      ensures short <==> NO_REG in regMappings.Values
      ensures short <==> Verdict().Shortage?
      ensures !short ==> Verdict() == Placed(NonFormals(Unspilled()), TagsIn(regMappings, argMap))
      ensures RegistersRight() <==> Verdict().Placed? && WithinClasses(Passed(NonFormals(intervals)), floats)
      ensures Feasible(NonFormals(intervals)) ==> (short <==> !Bounded(NonFormals(intervals), floats, TakenNow()))
      ensures forall f {:trigger OneClass(NonFormals(intervals), floats, f)} ::
        OneClass(NonFormals(intervals), floats, f) ==>
        (short <==> TooMany(NonFormals(intervals), TakenNow().Of(f))) && (short || AllTags(Verdict().tags, f))
      ensures forall i {:trigger i in NonFormals(Unspilled())} :: i in NonFormals(Unspilled()) ==>
        i.val in regMappings && (regMappings[i.val] == NO_REG || regMappings[i.val] !in argRegs)
      ensures ArgsRight()
      ensures StackOk()
      ensures FrameSound(size, Base(), stackMappings) <==> Kept(NonFormals(intervals)) == NonFormals(intervals)
    {
      hide ScanOk, IntervalsOk, Equipped, ArgsPlaced, FormalsOk, AllRegs, Args, Feasible, Holding, CountUsed, Foreseen,
        RegistersRight, Passed, WithinClasses, TagsIn, Outcomes, IsFirst, OneClass, Bounded, TooMany, AllTags, TakenNow,
        Kept, Origin, AnyStarved, SameClass, UnspilledRight, OnCourse, ArgsAt, ArgsRight, StackOk,
        FrameSound;
      kept, dropped, short := {}, {}, false;
      ScanStarts();
      ForeseenStart(Progress(intervals), State(), argMap, floats, TakenNow());
      NoneMapped();
      CourseBegins();
      var todo := intervals;
      while todo != {}
        invariant todo <= intervals && InScan(todo)
      {
        var i := First(todo);
        ScanInterval(i, todo);
        todo := todo - {i};
      }
      ScanEnds();
      ForeseenEnds();
      OriginsEnd();
      AllOk({});
      ShortageWhen();
      NotArguments();
      ArgsStay();
      FrameEnds();
      if Feasible(NonFormals(intervals)) {
        NothingSpilled();
      }
    }

    /** All that the scan keeps. */
    ghost predicate InScan(todo: set<Interval>)
      reads this
    {
      && Ok(todo) && NoneMissing() && ClassesRight() && ArgsReady() && (FewArgs() ==> !short)
      && AsForeseen(todo) && OnCourse(todo) && StackOk()
    }

    /** Deals with one interval: registers of ended ones become free, and it gets one if it can. */
    method ScanInterval(i: Interval, ghost todo: set<Interval>)
      requires InScan(todo) && IsFirst(todo, i)
      modifies this`active, this`available, this`regMappings, this`stackMappings, this`stackSize, this`kept,
        this`dropped, this`short
      ensures InScan(todo - {i})
    {
      hide ScanOk, IntervalsOk, Equipped, ArgsPlaced, ArgsAt, Args, Foreseen, Next, Load, CountUsed, WillKeep, Lacking,
        Kept, StackOk;
      FirstStarts(todo, i);
      ghost var t := State();
      assert ScanOk(Progress(todo), t, argRegs, argMap);
      ExpireOldIntervals(i, todo);
      ExpireForeseen(t, todo, i);
      ExpireCourse(t, todo, i);
      var pre := PreAllocated(i);
      if pre {
        FormalSkipped(todo, i);
        return;
      }
      NextReady(todo, i);
      Allocate(i, todo);
    }

    /** A register for i, or a spill when all places are taken. */
    method Allocate(i: Interval, ghost todo: set<Interval>)
      requires InScan(todo) && Next(active, NonFormals(todo), i) && IsFirst(todo, i) && !IsFormal(i.val)
      modifies this`active, this`available, this`regMappings, this`stackMappings, this`stackSize, this`kept,
        this`dropped, this`short
      ensures InScan(todo - {i})
    {
      hide ScanOk, ArgsReady, Equipped, AllRegs, Foreseen, Next, Load, CountUsed, WillKeep, Lacking, Kept, IsFirst,
        Spills, Among, TakenNow, StackOk;
      OkFacts(Progress(todo), State(), argRegs, argMap);
      NotAllocas();
      if |active| == LIMIT {
        ghost var q0, t0 := Progress(todo), State();
        SpillAtInterval(i, todo);
        SpillForeseen(q0, t0, todo, i);
        SpillCourse(q0, t0, todo, i);
      } else {
        AllocateFree(i, todo);
      }
    }

    method AllocateFree(i: Interval, ghost todo: set<Interval>)
      requires InScan(todo) && Next(active, NonFormals(todo), i) && IsFirst(todo, i) && !IsFormal(i.val)
      requires |active| < LIMIT
      modifies this`active, this`available, this`regMappings, this`kept, this`short
      ensures InScan(todo - {i})
    {
      hide ScanOk, ArgsReady, Equipped, AllRegs, Foreseen, Next, Load, CountUsed, WillKeep, Lacking, Kept, IsFirst,
        Among, TakenNow, StackOk;
      NextIs(active, NonFormals(todo), i);
      OkFresh(Progress(todo), State(), argRegs, argMap, i);
      EnoughFree(todo, i.val in floats);
      ghost var q0, t0, short0 := Progress(todo), State(), short;
      Place(i, todo);
      PlaceForeseen(q0, t0, todo, i, short0);
      PlaceEntries(t0, i, short0);
      PlaceCourse(q0, t0, todo, i, short0);
    }

    // ----- numbering the blocks and collecting the intervals -----

    ghost predicate InputOk() {
      && g.Valid() && |code| == |g.succs| && FormalsOk(formals, floats, Params())
      && (forall b, l {:trigger code[b][l]} :: 0 <= b < |code| && 0 <= l < |code[b]| ==> !IsFormal(code[b][l].val))
      && CodeOk(code, {})
    }

    ghost predicate Numbering(gray: set<Block>)
      requires g.Valid()
      reads this`visited, this`bb2int, this`int2bb, this`counter
    {
      Exploring(AdjOf(g), g.entry, visited, bb2int, gray) && Inverse(|g.succs|, bb2int, int2bb, counter)
    }

    /** Visits s and what can be reached from it; a block is numbered, downwards, when it is left. */
    method Dfs(s: Block, ghost gray: set<Block>)
      requires g.Valid() && Numbering(gray) && s in AdjOf(g) && s !in visited && Reach(AdjOf(g), g.entry, s)
      requires forall x {:trigger Reach(AdjOf(g), x, s)} :: x in gray ==> Reach(AdjOf(g), x, s)
      modifies this`visited, this`bb2int, this`int2bb, this`counter
      ensures Numbering(gray) && old(visited) + {s} <= visited
      decreases AdjOf(g).Keys - visited
    {
      hide Exploring, Inverse, Reach;
      ghost var e := AdjOf(g);
      OrderEnter(e, g.entry, visited, bb2int, gray, s);
      visited := visited + {s};
      ReachSelf(e, s);
      for k := 0 to |g.succs[s]|
        invariant Numbering(gray + {s}) && old(visited) + {s} <= visited
        invariant forall j :: 0 <= j < k ==> g.succs[s][j] in visited
      {
        var suc := g.succs[s][k];
        assert Arc(e, s, suc);
        if suc !in visited {
          DfsReach(e, gray + {s}, s, suc);
          Dfs(suc, gray + {s});
        }
      }
      OrderFinish(e, g.entry, visited, bb2int, gray, s, |g.succs|, int2bb, counter);
      int2bb := int2bb[counter := s];
      bb2int := bb2int[s := counter];
      counter := counter - 1;
    }

    lemma DfsReach(e: Adj, gray: set<Block>, s: Block, suc: Block)
      requires Arc(e, s, suc) && Reach(e, g.entry, s) && forall x {:trigger Reach(e, x, s)} :: x in gray ==>
        Reach(e, x, s)
      ensures Reach(e, g.entry, suc) && forall x {:trigger Reach(e, x, suc)} :: x in gray ==> Reach(e, x, suc)
    {
      ReachSnoc(e, g.entry, s, suc);
      forall x | x in gray
        ensures Reach(e, x, suc)
      {
        ReachSnoc(e, x, s, suc);
      }
    }

    ghost function Order(): Layout
      reads this`int2bb
    {
      Layout(int2bb, code)
    }

    /** The parameters with uses. */
    ghost function Params(): set<Value> {
      UsedOf(formals)
    }

    method CollectParams()
      requires FormalsOk(formals, floats, Params()) && val2interval == map[]
      modifies this`val2interval
      ensures val2interval.Keys == Params() && forall v {:trigger val2interval[v]} :: v in val2interval ==>
        val2interval[v] == Interval(ORIGIN, ORIGIN, v)
    {
      for k := 0 to |formals|
        invariant forall v {:trigger v in val2interval} :: v in val2interval <==>
          exists j :: 0 <= j < k && formals[j].hasUses && formals[j].val == v
        invariant forall v {:trigger val2interval[v]} :: v in val2interval ==>
          val2interval[v] == Interval(ORIGIN, ORIGIN, v)
      {
        var arg := formals[k];
        if arg.hasUses {
          val2interval := val2interval[arg.val := MakeInterval(arg.val, 0, 0, 0, 0)];
        }
      }
    }

    /** Extends the intervals of the operands that have one to the current line. */
    method Touch(operands: seq<Value>, q: Point)
      modifies this`val2interval
      ensures val2interval == Touched(old(val2interval), operands, q)
    {
      for k := 0 to |operands|
        invariant val2interval.Keys == old(val2interval).Keys
        invariant forall v {:trigger val2interval[v]} :: v in val2interval ==>
          val2interval[v] == if v in operands[..k] then old(val2interval)[v].(end := q) else old(val2interval)[v]
      {
        var rand := operands[k];
        assert operands[..k + 1] == operands[..k] + [rand];
        if rand in val2interval {
          val2interval := val2interval[rand := val2interval[rand].(end := q)];
        }
      }
      assert operands[..|operands|] == operands;
    }

    /** Reads one line: an alloca gets a stack slot; any other named value gets an interval, and the
        operands' intervals are extended. */
    method ReadLine(ins: Instr, q: Point)
      modifies this`val2interval, this`stackMappings, this`stackSize
      ensures val2interval == if ins.alloca then old(val2interval)
                else Touched(if ins.named then Inserted(old(val2interval), ins.val, q)
                  else old(val2interval), ins.operands, q)
      ensures if ins.alloca
        then stackSize == old(stackSize) + size(ins.val)
          && stackMappings == old(stackMappings)[ins.val := 0 - stackSize]
              else stackSize == old(stackSize) && stackMappings == old(stackMappings)
    {
      if ins.alloca {
        stackSize := stackSize + size(ins.val);
        stackMappings := stackMappings[ins.val := 0 - stackSize];
        return;
      }
      if ins.named && ins.val !in val2interval {
        val2interval := val2interval[ins.val := Interval(q, q, ins.val)];
      }
      Touch(ins.operands, q);
    }

    /** Stack slots so far are those of the allocas in the lines up to p. */
    ghost predicate SlotsAt(off: Offsets, frame: int, p: Point)
      reads this`int2bb
    {
      && SlotsRead(Order(), off.Keys, p) && off.Keys <= AllocaSet()
      && FrameOk(size, Base(), AllocaSet(), off, frame)
    }

    ghost predicate SlotsOk(p: Point)
      reads this`int2bb, this`stackMappings, this`stackSize
    {
      SlotsAt(stackMappings, stackSize, p)
    }

    lemma OrderFacts()
      requires InputOk() && Numbering({})
      ensures BackOk(int2bb) && 0 <= counter <= |g.succs|
      ensures forall k {:trigger k in int2bb} :: k in int2bb <==> counter < k <= |g.succs|
      ensures forall k {:trigger int2bb[k]} :: k in int2bb ==> int2bb[k] < |code|
    {
      var e := AdjOf(g);
      assert bb2int.Keys <= BlocksBelow(|g.succs|);
      SubsetSize(bb2int.Keys, BlocksBelow(|g.succs|));
      hide Exploring, FormalsOk, CodeOk;
    }

    lemma FirstBlock(y: Layout, m: Intervals)
      requires InputOk() && Numbering({}) && y == Order() && Built(y, Params(), m, ORIGIN)
      ensures Built(y, Params(), m, Point(counter + 1, 0))
    {
      hide Built, Exploring, FormalsOk, CodeOk;
      OrderFacts();
      BuiltSkip(y, Params(), m, ORIGIN, Point(counter + 1, 0));
    }

    lemma LineRead(m: Intervals, m': Intervals, k: int, l: nat)
      requires InputOk() && Numbering({}) && k in int2bb && int2bb[k] < |code| && l < |code[int2bb[k]]|
      requires Built(Order(), Params(), m, Point(k, l))
      requires var ins := code[int2bb[k]][l];
        m' == if ins.alloca then m
          else Touched(if ins.named then Inserted(m, ins.val, Point(k, l + 1)) else m, ins.operands, Point(k, l + 1))
      ensures Built(Order(), Params(), m', Point(k, l + 1))
    {
      hide Built, Exploring, FormalsOk, CodeOk, Inverse;
      OrderFacts();
      CodeParams();
      BuiltLine(Order(), Params(), m, Point(k, l), Point(k, l + 1), m');
    }

    lemma CodeParams()
      requires InputOk()
      ensures CodeOk(code, Params())
    {
      forall b, l | 0 <= b < |code| && 0 <= l < |code[b]|
        ensures code[b][l].val !in Params()
      {
        assert !IsFormal(code[b][l].val);
      }
    }

    lemma BlockRead(m: Intervals, k: int)
      requires InputOk() && Numbering({}) && k in int2bb && int2bb[k] < |code|
      requires Built(Order(), Params(), m, Point(k, |code[int2bb[k]]|))
      ensures Built(Order(), Params(), m, Point(k + 1, 0))
    {
      hide Built, Exploring, FormalsOk, CodeOk, Inverse;
      BuiltSkip(Order(), Params(), m, Point(k, |code[int2bb[k]]|), Point(k + 1, 0));
    }

    /** No slots yet. */
    lemma SlotsStart()
      requires InputOk() && Numbering({})
      ensures SlotsAt(map[], Base(), ORIGIN)
    {
      hide CodeOk, FormalsOk, Exploring;
      OrderFacts();
      FrameStart(size, Base(), AllocaSet());
      var none: Offsets := map[];
      assert none.Keys == {};
    }

    lemma SlotsFirst(off: Offsets, frame: int)
      requires InputOk() && Numbering({}) && SlotsAt(off, frame, ORIGIN)
      ensures SlotsAt(off, frame, Point(counter + 1, 0))
    {
      hide CodeOk, FormalsOk, Exploring, FrameOk, SlotsRead;
      OrderFacts();
      SlotsSkip(Order(), off.Keys, ORIGIN, Point(counter + 1, 0));
    }

    lemma SlotRead(off: Offsets, frame: int, off': Offsets, frame': int, k: int, l: nat)
      requires InputOk() && Numbering({}) && k in int2bb && int2bb[k] < |code| && l < |code[int2bb[k]]|
      requires SlotsAt(off, frame, Point(k, l))
      requires var ins := code[int2bb[k]][l];
        if ins.alloca then frame' == frame + size(ins.val) && off' == off[ins.val := 0 - frame']
        else frame' == frame && off' == off
      ensures SlotsAt(off', frame', Point(k, l + 1))
    {
      hide CodeOk, FormalsOk, Exploring, Inverse, FrameOk, SlotsRead;
      OrderFacts();
      CodeParams();
      var ins := code[int2bb[k]][l];
      SlotsLine(Order(), Params(), off.Keys, Point(k, l), Point(k, l + 1));
      assert Order().At(Point(k, l + 1)) == ins;
      if ins.alloca {
        FrameAlloca(size, Base(), AllocaSet(), off, frame, ins.val);
        assert off'.Keys == off.Keys + {ins.val};
      } else {
        assert off.Keys + {} == off.Keys;
      }
    }

    lemma SlotsBlock(off: Offsets, frame: int, k: int)
      requires InputOk() && Numbering({}) && k in int2bb && int2bb[k] < |code|
      requires SlotsAt(off, frame, Point(k, |code[int2bb[k]]|))
      ensures SlotsAt(off, frame, Point(k + 1, 0))
    {
      hide CodeOk, FormalsOk, Exploring, Inverse, FrameOk, SlotsRead;
      SlotsSkip(Order(), off.Keys, Point(k, |code[int2bb[k]]|), Point(k + 1, 0));
    }

    method CollectIntervals()
      requires InputOk() && Numbering({}) && Built(Order(), Params(), val2interval, ORIGIN) && SlotsOk(ORIGIN)
      modifies this`val2interval, this`stackMappings, this`stackSize
      ensures Built(Order(), Params(), val2interval, Point(|g.succs| + 1, 0)) && SlotsOk(Point(|g.succs| + 1, 0))
    {
      hide Built, CodeOk, FormalsOk, Exploring, Inverse, Touched, Inserted, SlotsAt;
      OrderFacts();
      FirstBlock(Order(), val2interval);
      SlotsFirst(stackMappings, stackSize);
      for k := counter + 1 to |g.succs| + 1
        invariant Built(Order(), Params(), val2interval, Point(k, 0)) && SlotsOk(Point(k, 0))
      {
        var bb := int2bb[k];
        for l := 0 to |code[bb]|
          invariant Built(Order(), Params(), val2interval, Point(k, l)) && SlotsOk(Point(k, l))
        {
          ghost var m, off, frame := val2interval, stackMappings, stackSize;
          ReadLine(code[bb][l], Point(k, l + 1));
          LineRead(m, val2interval, k, l);
          SlotRead(off, frame, stackMappings, stackSize, k, l);
        }
        BlockRead(val2interval, k);
        SlotsBlock(stackMappings, stackSize, k);
      }
    }

    /** Forgets the previous function. */
    method Clear()
      requires g.Valid()
      modifies this`visited, this`bb2int, this`int2bb, this`counter, this`intervals, this`val2interval, this`active,
        this`available,
               this`regMappings, this`stackMappings, this`stackSize
      ensures Numbering({}) && visited == {} && val2interval == map[] && stackMappings == map[] && stackSize == Base()
      ensures active == {} && available == AllRegs() && regMappings == map[]
    {
      hide Exploring, Inverse;
      regMappings, stackMappings, val2interval, active, intervals := map[], map[], map[], {}, {};
      stackSize := Base();
      available := Temps(false) + Temps(true) + Args(false) + Args(true);
      assert available == AllRegs();
      int2bb, bb2int, visited := map[], map[], {};
      counter := |g.succs|;
      OrderStart(AdjOf(g), g.entry, |g.succs|);
    }

    /** Numbers the blocks and collects the intervals. */
    method InitFunc()
      requires InputOk()
      modifies this`visited, this`bb2int, this`int2bb, this`counter, this`intervals, this`val2interval, this`active,
        this`available,
               this`regMappings, this`stackMappings, this`stackSize
      ensures Numbering({}) && forall b {:trigger b in bb2int} :: b in bb2int <==> Reach(AdjOf(g), g.entry, b)
      ensures Built(Order(), Params(), val2interval, Point(|g.succs| + 1, 0)) && SlotsOk(Point(|g.succs| + 1, 0))
      ensures forall i {:trigger i in intervals} :: i in intervals <==>
        i.val in val2interval && val2interval[i.val] == i
      ensures active == {} && available == AllRegs() && regMappings == map[]
    {
      hide Exploring, Inverse, Reach, Built, CodeOk, FormalsOk, AllRegs, SlotsAt;
      Clear();
      ReachSelf(AdjOf(g), g.entry);
      Dfs(g.entry, {});
      NumberedAll();
      CollectParams();
      OrderFacts();
      BuiltStart(Order(), Params(), val2interval);
      SlotsStart();
      CollectIntervals();
      BuiltVals(Order(), Params(), val2interval, Point(|g.succs| + 1, 0));
      intervals := set v | v in val2interval :: val2interval[v];
    }

    lemma NumberedAll()
      requires g.Valid() && Numbering({}) && g.entry in visited
      ensures forall b {:trigger b in bb2int} :: b in bb2int <==> Reach(AdjOf(g), g.entry, b)
    {
      hide Acyclic, Upward, Inverse;
      OrderEnd(AdjOf(g), g.entry, visited, bb2int);
    }

    /** Of the parameters only those with uses have intervals. */
    lemma ParamsUsed()
      requires InputOk() && Built(Order(), Params(), val2interval, Point(|g.succs| + 1, 0))
      ensures FormalsOk(formals, floats, val2interval.Keys)
    {
      hide CodeOk, Among, Built;
      forall k | 0 <= k < |formals| && formals[k].val in val2interval
        ensures formals[k].val in Params()
      {
        IsAmong(formals, k);
        NamedInCode(formals[k].val);
      }
    }

    lemma NamedInCode(v: Value)
      requires InputOk() && Built(Order(), Params(), val2interval, Point(|g.succs| + 1, 0)) && v in val2interval
      ensures v in Params() || !IsFormal(v)
    {
      hide CodeOk, Among;
      assert IntervalOk(Order(), Params(), v, val2interval[v]);
    }

    /** The state in which the scan begins. */
    lemma Ready()
      requires InputOk() && Numbering({}) && Built(Order(), Params(), val2interval, Point(|g.succs| + 1, 0))
      requires SlotsOk(Point(|g.succs| + 1, 0))
      requires forall i {:trigger i in intervals} :: i in intervals <==>
        i.val in val2interval && val2interval[i.val] == i
      ensures IntervalsOk(intervals)
      ensures forall v {:trigger v in val2interval} :: v in val2interval ==>
        val2interval[v] in intervals && val2interval[v].val == v
      ensures forall i {:trigger i in intervals} :: i in intervals ==> i.val !in stackMappings && i.val !in AllocaSet()
      ensures StackOk()
    {
      AllSlots();
      forall i | i in intervals
        ensures i.val !in stackMappings && i.val !in AllocaSet() && i.start.AtMost(i.end)
      {
        NoSlot(i);
      }
      BuiltVals(Order(), Params(), val2interval, Point(|g.succs| + 1, 0));
      hide Built, CodeOk, FormalsOk;
    }

    lemma AllSlots()
      requires InputOk() && Numbering({}) && SlotsOk(Point(|g.succs| + 1, 0))
      ensures StackOk()
    {
      hide CodeOk, FormalsOk, Exploring, Inverse, FrameOk;
      OrderFacts();
      var last := Point(|g.succs| + 1, 0);
      assert forall u, v {:trigger Order().Allocates(u, v)} :: Order().Allocates(u, v) ==> u.AtMost(last);
    }

    lemma NoSlot(i: Interval)
      requires InputOk() && Built(Order(), Params(), val2interval, Point(|g.succs| + 1, 0))
      requires SlotsOk(Point(|g.succs| + 1, 0))
      requires i.val in val2interval && val2interval[i.val] == i
      ensures i.val !in stackMappings && i.val !in AllocaSet() && i.start.AtMost(i.end)
    {
      hide FrameOk, SlotsRead;
      var y := Order();
      assert IntervalOk(y, Params(), i.val, i);
      CodeParams();
      forall b, l | 0 <= b < |code| && 0 <= l < |code[b]| && code[b][l].alloca
        ensures code[b][l].val != i.val
      {
        if i.val !in Params() {
          assert code[y.back[i.start.bb]][i.start.line - 1].val == i.val;
        }
      }
    }

    /** Two unspilled values are live at q. */
    ghost predicate Together(v: Value, w: Value, q: Point)
      requires g.Valid()
      reads this`bb2int, this`int2bb, this`stackMappings
    {
      && v != w && v !in stackMappings && w !in stackMappings
      && LiveAt(AdjOf(g), bb2int, Order(), Params(), v, q) && LiveAt(AdjOf(g), bb2int, Order(), Params(), w, q)
    }

    lemma ScanMayBegin()
      requires IntervalsOk(intervals) && argRegs <= Args(false) + Args(true)
      requires ArgsPlaced(formals, floats, val2interval.Keys, argMap, argRegs) && ArgsAt(|formals|, argMap)
      requires forall i {:trigger i in intervals} :: i in intervals ==> i.val !in AllocaSet()
      requires forall i {:trigger i in intervals} :: i in intervals <==>
        i.val in val2interval && val2interval[i.val] == i
      requires forall v {:trigger v in val2interval} :: v in val2interval ==>
        val2interval[v] in intervals && val2interval[v].val == v
      ensures ArgsReady()
    {
      hide IntervalsOk, ArgsPlaced, ArgsAt, Args;
    }

    /** The allocation for one function. Whatever the result, no interval is lost and the kept ones are as
        many as can be; in an acyclic function no two values that are live together share a register. */
    method Run()
      requires InputOk()
      modifies this
      ensures Numbering({}) && forall b {:trigger b in bb2int} :: b in bb2int <==> Reach(AdjOf(g), g.entry, b)
      ensures Built(Order(), Params(), val2interval, Point(|g.succs| + 1, 0))
      ensures forall i {:trigger i in intervals} :: i in intervals <==>
        i.val in val2interval && val2interval[i.val] == i
      ensures Acyclic(AdjOf(g)) ==> forall v, w, q {:trigger Together(v, w, q)} :: Together(v, w, q) ==>
        Differ(regMappings, v, w)
      ensures Feasible(NonFormals(Unspilled()))
      ensures forall s {:trigger Feasible(s)} :: s <= NonFormals(intervals) && Feasible(s) ==>
        |s| <= |NonFormals(Unspilled())|
      ensures Holding(active, regMappings, available, argRegs)
      ensures FewArgs() ==> forall v :: v in val2interval && v !in stackMappings ==>
        v in regMappings && regMappings[v] != NO_REG
      ensures forall i {:trigger i in NonFormals(Unspilled())} :: i in NonFormals(Unspilled()) ==>
        i.val in regMappings && (regMappings[i.val] == NO_REG || regMappings[i.val] !in argRegs)
      ensures ArgsRight() && StackOk()
      ensures FrameSound(size, Base(), stackMappings) <==> Kept(NonFormals(intervals)) == NonFormals(intervals)
      ensures NonFormals(Unspilled()) == Kept(NonFormals(intervals))
      ensures NO_REG in regMappings.Values <==> AnyStarved(NonFormals(intervals), floats, TakenNow())
      ensures NO_REG !in regMappings.Values ==>
        forall i {:trigger i in NonFormals(Unspilled())} :: i in NonFormals(Unspilled()) ==>
        i.val in regMappings && regMappings[i.val].isFloat == (Origin(NonFormals(intervals), i).val in floats)
      ensures UnspilledRight() <==>
        !AnyStarved(NonFormals(intervals), floats, TakenNow())
          && SameClass(NonFormals(intervals), floats, Kept(NonFormals(intervals)))
      ensures NO_REG in regMappings.Values <==> Verdict().Shortage?
      ensures Verdict().Placed? ==> Verdict() == Placed(NonFormals(Unspilled()), TagsIn(regMappings, argMap))
      ensures RegistersRight() <==> Verdict().Placed? && WithinClasses(Passed(NonFormals(intervals)), floats)
      ensures Feasible(NonFormals(intervals)) ==>
        (Verdict().Shortage? <==> !Bounded(NonFormals(intervals), floats, TakenNow()))
      ensures forall f {:trigger OneClass(NonFormals(intervals), floats, f)} ::
        OneClass(NonFormals(intervals), floats, f) ==>
        (Verdict().Shortage? <==> TooMany(NonFormals(intervals), TakenNow().Of(f)))
          && (Verdict().Shortage? || AllTags(Verdict().tags, f))
      ensures Feasible(NonFormals(intervals)) ==>
        forall i {:trigger i in NonFormals(intervals)} :: i in NonFormals(intervals) ==>
        i.val !in stackMappings
          && (i.val in regMappings ==> regMappings[i.val] == NO_REG || regMappings[i.val].isFloat == (i.val in floats))
    {
      hide Numbering, Built, IntervalsOk, ArgsPlaced, FormalsOk, AllRegs, Args, Feasible, Holding, RegistersRight,
        Passed, WithinClasses, TagsIn, Outcomes, OneClass, Bounded, TooMany, AllTags, TakenNow, CodeOk, LiveAt, Acyclic,
        Kept, Origin, AnyStarved, SameClass, UnspilledRight, ArgsAt, ArgsRight, StackOk,
        FrameSound, SlotsOk, ArgsReady, AllocaSet, Together, Differ, Unspilled, NonFormals, Verdict, Apart;
      InitFunc();
      Ready();
      ParamsUsed();
      PreAllocateArgs();
      ScanMayBegin();
      LinearScanRegisterAllocation();
      AllEquipped();
      AllApart();
    }

    lemma AllEquipped()
      requires forall i {:trigger i in intervals} :: i in intervals <==>
        i.val in val2interval && val2interval[i.val] == i
      requires forall v {:trigger v in val2interval} :: v in val2interval ==>
        val2interval[v] in intervals && val2interval[v].val == v
      requires !short ==> forall i {:trigger i in Unspilled()} :: i in Unspilled() ==>
        i.val in regMappings && regMappings[i.val] != NO_REG
      ensures !short ==> forall v :: v in val2interval && v !in stackMappings ==>
        v in regMappings && regMappings[v] != NO_REG
    {
      assert forall v :: v in val2interval && v !in stackMappings ==> val2interval[v] in Unspilled();
    }

    lemma AllApart()
      requires InputOk() && Numbering({}) && Built(Order(), Params(), val2interval, Point(|g.succs| + 1, 0))
      requires forall i {:trigger i in intervals} :: i in intervals <==>
        i.val in val2interval && val2interval[i.val] == i
      requires forall i, j {:trigger i.Overlaps(j)} ::
        i in Unspilled() && j in Unspilled() && i != j && i.Overlaps(j) ==> Apart(regMappings, i, j)
      ensures Acyclic(AdjOf(g)) ==> forall v, w, q {:trigger Together(v, w, q)} :: Together(v, w, q) ==>
        Differ(regMappings, v, w)
    {
      hide Built, Numbering, Acyclic, Together, Differ, CodeOk, FormalsOk;
      if Acyclic(AdjOf(g)) {
        forall v, w, q | Together(v, w, q)
          ensures Differ(regMappings, v, w)
        {
          LiveTogether(v, w, q);
        }
      }
    }

    lemma LiveTogether(v: Value, w: Value, q: Point)
      requires InputOk() && Numbering({}) && Acyclic(AdjOf(g))
      requires Built(Order(), Params(), val2interval, Point(|g.succs| + 1, 0))
      requires Together(v, w, q)
      requires forall i {:trigger i in intervals} :: i in intervals <==>
        i.val in val2interval && val2interval[i.val] == i
      requires forall i, j {:trigger i.Overlaps(j)} ::
        i in Unspilled() && j in Unspilled() && i != j && i.Overlaps(j) ==> Apart(regMappings, i, j)
      ensures Differ(regMappings, v, w)
    {
      hide Built, CodeOk, FormalsOk, LiveAt, Acyclic, Upward, Inverse, BackOk;
      OrderFacts();
      CodeParams();
      var last := Point(|g.succs| + 1, 0);
      assert forall u {:trigger Order().Line(u)} :: Order().Line(u) ==> u.AtMost(last);
      LiveInside(AdjOf(g), bb2int, Order(), Params(), val2interval, last, v, q);
      LiveInside(AdjOf(g), bb2int, Order(), Params(), val2interval, last, w, q);
      BuiltVals(Order(), Params(), val2interval, last);
      var i, j := val2interval[v], val2interval[w];
      assert i in Unspilled() && j in Unspilled();
      ContainedOverlap(i, j, q);
      assert Apart(regMappings, i, j);
    }
  }
}
