/** The loop search: Tarjan's algorithm, wrapped in a loop that removes the base of every component it
    finds and searches again for the loops nested inside. */
module LoopSearchPass {
  import opened Cfg
  import opened Components
  import opened LoopNest
  import opened TarjanTheory

  class LoopSearch {
    var nodes: set<Block>
    var succs: Adj
    var prevs: Adj
    var index: map<Block, int>
    var lowlink: map<Block, int>
    var onStack: map<Block, bool>
    var stack: seq<Block>
    var indexCount: nat
    var sccs: set<set<Block>>
    // results: the loops, their bases both ways, and for each block in a loop the innermost one's base
    var loopSet: set<set<Block>>
    var base2loop: Loops
    var loop2base: map<set<Block>, Block>
    var bb2base: map<Block, Block>

    constructor ()
      ensures loopSet == {} && base2loop == map[] && loop2base == map[] && bb2base == map[]
    {
      nodes, succs, prevs, index, lowlink, onStack := {}, map[], map[], map[], map[], map[];
      stack, indexCount, sccs := [], 0, {};
      loopSet, base2loop, loop2base, bb2base := {}, map[], map[], map[];
    }

    ghost function State(): Search
      reads this`index, this`stack, this`indexCount, this`sccs
    {
      Search(index, stack, indexCount, sccs)
    }

    /** The flag of a node says whether it is on the stack. */
    ghost predicate FlagsOk()
      reads this`nodes, this`lowlink, this`onStack, this`stack
    {
      && lowlink.Keys == onStack.Keys == nodes
      && forall x {:trigger onStack[x]} :: x in onStack ==> (onStack[x] <==> x in stack)
    }

    /** a is the graph being searched. */
    ghost predicate Searching(a: Adj)
      reads this`nodes, this`succs
    {
      a.Keys == nodes && nodes <= succs.Keys && forall x {:trigger a[x]} {:trigger succs[x]} :: x in a ==>
        succs[x] == a[x]
    }

    ghost function Unvisited(): set<Block>
      reads this`index
    {
      UnvisitedIn(index)
    }

    /** Gives n its index and puts it on the stack. */
    method Number(n: Block)
      requires FlagsOk() && n in nodes
      modifies this`index, this`lowlink, this`onStack, this`stack, this`indexCount
      ensures FlagsOk() && State() == Entered(old(State()), n) && lowlink == old(lowlink)[n := old(indexCount)]
    {
      index := index[n := indexCount];
      indexCount := indexCount + 1;
      lowlink := lowlink[n := index[n]];
      stack := stack + [n];
      onStack := onStack[n := true];
    }

    /** Visits n: numbers it, explores its successors, and pops its component if it is complete. */
    method Traverse(n: Block, ghost a: Adj, ghost gray: set<Block>)
      requires Searching(a) && FlagsOk() && Inv(a, State(), gray)
      requires n in a && index[n] == -1 && forall g :: g in gray ==> Reach(a, g, n)
      modifies this`index, this`lowlink, this`onStack, this`stack, this`indexCount, this`sccs
      ensures FlagsOk() && Inv(a, State(), gray)
      ensures n in lowlink && VisitedWell(a, old(State()), State(), n, lowlink[n])
      ensures KeepsLow(old(State()), old(lowlink), lowlink)
      decreases Unvisited(), 0
    {
      hide Inv, VisitedWell, Exploring, Extends, Reach, Complete, KeepsLow, FlagsOk;
      ghost var t0 := State();
      Explore(a, t0, gray, n);
      EnterUnvisited(a, t0, gray, n);
      KeepsLowStart(t0, lowlink);
      KeepsLowSelf(t0, lowlink, lowlink, n, indexCount);
      Number(n);
      var todo := succs[n];
      assert succs[n] - todo == {};
      while todo != {}
        invariant todo <= succs[n] && FlagsOk()
        invariant n in lowlink && Exploring(a, t0, State(), gray, n, lowlink[n], succs[n] - todo)
        invariant KeepsLow(t0, old(lowlink), lowlink)
        invariant Unvisited() < old(Unvisited())
        decreases todo
      {
        var su :| su in todo;
        assert succs[n] - (todo - {su}) == succs[n] - todo + {su};
        VisitSuccessor(n, su, a, gray, t0, succs[n] - todo, old(lowlink));
        todo := todo - {su};
      }
      assert succs[n] - todo == succs[n];
      Finish(n, a, gray, t0, succs[n]);
    }

    /** Deals with one successor of n: visits it if it is new, and lowers the lowlink of n. */
    method VisitSuccessor(n: Block, su: Block, ghost a: Adj, ghost gray: set<Block>, ghost t0: Search,
                          ghost seen: set<Block>, ghost low0: map<Block, int>)
      requires Searching(a) && FlagsOk() && n in lowlink && Exploring(a, t0, State(), gray, n, lowlink[n], seen)
      requires Arc(a, n, su) && !Visited(t0, n) && forall g :: g in gray ==> Reach(a, g, n)
      requires KeepsLow(t0, low0, lowlink)
      modifies this`index, this`lowlink, this`onStack, this`stack, this`indexCount, this`sccs
      ensures FlagsOk() && n in lowlink && Exploring(a, t0, State(), gray, n, lowlink[n], seen + {su})
      ensures KeepsLow(t0, low0, lowlink)
      ensures Unvisited() <= old(Unvisited())
      decreases Unvisited(), 1
    {
      hide Inv, VisitedWell, Exploring, Extends, Reach, KeepsLow;
      ExploringFacts(a, t0, State(), gray, n, lowlink[n], seen, su);
      ghost var t, low, lows := State(), lowlink[n], lowlink;
      if index[su] == -1 {
        Traverse(su, a, gray + {n});
        SeenNew(a, t0, t, State(), gray, n, low, seen, su, lowlink[su]);
        UnvisitedShrinks(a, t, State(), gray + {n}, su, lowlink[su]);
        KeepsLowMore(t0, t, low0, lows, lowlink, n);
        KeepsLowSelf(t0, low0, lowlink, n, if lowlink[su] < lowlink[n] then lowlink[su] else lowlink[n]);
        lowlink := lowlink[n := if lowlink[su] < lowlink[n] then lowlink[su] else lowlink[n]];
      } else if onStack[su] {
        SeenStacked(a, t0, State(), gray, n, lowlink[n], seen, su);
        KeepsLowSelf(t0, low0, lowlink, n, if index[su] < lowlink[n] then index[su] else lowlink[n]);
        lowlink := lowlink[n := if index[su] < lowlink[n] then index[su] else lowlink[n]];
      } else {
        SeenDone(a, t0, State(), gray, n, lowlink[n], seen, su);
      }
    }

    method PopOne(ghost full: seq<Block>) returns (tmp: Block)
      requires 0 < |stack| <= |full| && stack == full[..|stack|] && FlagsOk()
      requires forall i {:trigger full[i]} :: 0 <= i < |full| ==> full[i] !in full[..i]
      requires stack[|stack| - 1] in nodes
      modifies this`onStack, this`stack
      ensures FlagsOk() && |stack| == |old(stack)| - 1 && stack == full[..|stack|] && tmp == full[|stack|]
    {
      tmp := stack[|stack| - 1];
      onStack := onStack[tmp := false];
      assert full[|stack| - 1] !in full[..|stack| - 1];
      assert stack[..|stack| - 1] == full[..|stack| - 1];
      assert forall x :: x in stack ==> x == tmp || x in stack[..|stack| - 1];
      stack := stack[..|stack| - 1];
    }

    /** Pops down to n. */
    method PopMembers(n: Block, ghost full: seq<Block>, ghost k: nat) returns (members: set<Block>)
      requires k < |full| && stack == full && full[k] == n && FlagsOk()
      requires forall i {:trigger full[i]} :: 0 <= i < |full| ==> full[i] !in full[..i] && full[i] in nodes
      modifies this`onStack, this`stack
      ensures FlagsOk() && stack == full[..k] && forall x :: x in members <==> x in full[k..]
    {
      hide FlagsOk;
      members := {};
      var tmp := PopOne(full);
      members := members + {tmp};
      while tmp != n
        invariant k <= |stack| < |full| && stack == full[..|stack|] && tmp == full[|stack|]
        invariant forall x :: x in members <==> x in full[|stack|..]
        invariant FlagsOk()
        decreases |stack|
      {
        assert full[k] == n;
        tmp := PopOne(full);
        assert full[|stack|..] == [tmp] + full[|stack| + 1..];
        members := members + {tmp};
      }
    }

    /** All successors dealt with: if n is the first of its component on the stack, the component is
        popped, and recorded unless n is alone. */
    method Finish(n: Block, ghost a: Adj, ghost gray: set<Block>, ghost t0: Search, ghost seen: set<Block>)
      requires Searching(a) && FlagsOk() && n in lowlink && Exploring(a, t0, State(), gray, n, lowlink[n], seen)
      requires n in a && !Visited(t0, n) && Inv(a, t0, gray) && forall y :: Arc(a, n, y) ==> y in seen
      modifies this`onStack, this`stack, this`sccs
      ensures FlagsOk() && Inv(a, State(), gray) && VisitedWell(a, t0, State(), n, lowlink[n])
    {
      hide Inv, VisitedWell, Exploring, Extends, Reach, Complete;
      ghost var t := State();
      FinishFacts(a, t0, t, gray, n, lowlink[n], seen);
      if index[n] == lowlink[n] {
        var members := PopMembers(n, t.stack, |t0.stack|);
        if |members| != 1 {
          sccs := sccs + {members};
        }
        CompleteNow(a, t0, t, gray, n, seen, members);
        PopInv(a, t0, t, gray, n, seen, members);
        PopVisited(a, t0, t, gray, n, seen, members);
        assert State() == PopTo(t, |t0.stack|, members);
      } else {
        Stay(a, t0, t, gray, n, lowlink[n], seen);
      }
    }

    /** Every node unvisited and off the stack. */
    ghost predicate Fresh()
      reads this`nodes, this`index, this`lowlink, this`onStack
    {
      && index.Keys == lowlink.Keys == onStack.Keys == nodes
      && (forall x :: x in index ==> index[x] == -1)
      && (forall x :: x in onStack ==> !onStack[x])
    }

    /** Tarjan's algorithm: collects exactly the components with two or more nodes. */
    method StronglyConnectedComponents(ghost a: Adj) returns (found: bool)
      requires Searching(a) && Closed(a) && Fresh() && sccs == {}
      modifies this`index, this`lowlink, this`onStack, this`stack, this`indexCount, this`sccs
      ensures forall s {:trigger s in sccs} {:trigger IsLoop(a, s)} :: s in sccs <==> IsLoop(a, s)
      ensures stack == [] && index.Keys == lowlink.Keys == onStack.Keys == nodes
      ensures found <==> sccs != {}
    {
      hide Inv, Reach, IsLoop, VisitedWell, Extends;
      indexCount := 0;
      stack := [];
      SearchStart(a, index);
      var todo := nodes;
      while todo != {}
        invariant todo <= nodes && FlagsOk() && Inv(a, State(), {})
        invariant forall x :: x in nodes - todo ==> Visited(State(), x)
      {
        var n :| n in todo;
        ghost var t := State();
        SearchKeys(a, t);
        if index[n] == -1 {
          Traverse(n, a, {});
          VisitedStays(a, t, State(), n, lowlink[n]);
        }
        todo := todo - {n};
      }
      SearchKeys(a, State());
      SearchEnd(a, State());
      found := sccs != {};
    }

    /** A member with a predecessor outside: found through the predecessors, or, when all outside
        predecessors have been removed before, through the successors of the removed ones. */
    method FindLoopBase(s: set<Block>, reserved: set<Block>, ghost e: Adj) returns (base: Option<Block>)
      requires Edges(e, nodes, succs, prevs) && s <= nodes && reserved == e.Keys - nodes
      ensures base.Some? ==> IsBase(e, s, base.value)
      ensures base.None? ==> !HasEntry(e, s)
    {
      base := None;
      var todo := s;
      while todo != {}
        invariant todo <= s && (base.Some? ==> IsBase(e, s, base.value))
        invariant base.None? ==> forall n, p {:trigger p in prevs[n]} :: n in s - todo && p in prevs[n] ==> p in s
      {
        var n :| n in todo;
        var ps := prevs[n];
        while ps != {}
          invariant ps <= prevs[n] && (base.Some? ==> IsBase(e, s, base.value))
          invariant base.None? ==> forall x, p {:trigger p in prevs[x]} :: x in s - todo && p in prevs[x] ==> p in s
          invariant base.None? ==> forall p :: p in prevs[n] - ps ==> p in s
        {
          var prev :| prev in ps;
          if prev !in s {
            assert Arc(e, prev, n);
            base := Some(n);
          }
          ps := ps - {prev};
        }
        todo := todo - {n};
      }
      if base.Some? {
        return;
      }
      base := FindReservedBase(s, reserved, e);
    }

    method FindReservedBase(s: set<Block>, reserved: set<Block>, ghost e: Adj) returns (base: Option<Block>)
      requires Edges(e, nodes, succs, prevs) && s <= nodes && reserved == e.Keys - nodes
      requires forall n, p {:trigger p in prevs[n]} :: n in s && p in prevs[n] ==> p in s
      ensures base.Some? ==> IsBase(e, s, base.value)
      ensures base.None? ==> !HasEntry(e, s)
    {
      base := None;
      var todo := reserved;
      while todo != {}
        invariant todo <= reserved && (base.Some? ==> IsBase(e, s, base.value))
        invariant base.None? ==> forall r, x {:trigger x in succs[r]} :: r in reserved - todo && x in succs[r] ==>
          x !in s
      {
        var res :| res in todo;
        var xs := succs[res];
        while xs != {}
          invariant xs <= succs[res] && (base.Some? ==> IsBase(e, s, base.value))
          invariant base.None? ==> forall r, x {:trigger x in succs[r]} :: r in reserved - todo && x in succs[r] ==>
            x !in s
          invariant base.None? ==> forall x :: x in succs[res] - xs ==> x !in s
        {
          var succ :| succ in xs;
          if succ in s {
            assert Arc(e, res, succ);
            base := Some(succ);
          }
          xs := xs - {succ};
        }
        todo := todo - {res};
      }
      if base.None? {
        forall b, p | b in s && Arc(e, p, b)
          ensures p in s
        {
          EdgesKept(e, nodes, succs, prevs, p, b);
        }
      }
    }

    /** Removes a base from the graph; it keeps its own successors. */
    method RemoveBase(base: Block, ghost e: Adj)
      requires Edges(e, nodes, succs, prevs) && base in nodes
      modifies this`nodes, this`succs, this`prevs
      ensures nodes == old(nodes) - {base} && Edges(e, nodes, succs, prevs)
    {
      hide Edges, Without;
      EdgesKeys(e, nodes, succs, prevs, base);
      EdgesWithout(e, nodes, succs, prevs, base);
      nodes := nodes - {base};
      ErasePrevs(base);
      EraseSuccs(base);
    }

    /** Takes base out of the predecessors of its successors. */
    method ErasePrevs(base: Block)
      requires base in succs && succs[base] <= prevs.Keys
      modifies this`prevs
      ensures prevs == Without(old(prevs), succs[base], base)
    {
      var todo := succs[base];
      while todo != {}
        invariant todo <= succs[base] && prevs.Keys == old(prevs).Keys
        invariant forall x {:trigger prevs[x]} :: x in prevs ==>
          prevs[x] == if x in succs[base] - todo then old(prevs)[x] - {base} else old(prevs)[x]
      {
        var su :| su in todo;
        prevs := prevs[su := prevs[su] - {base}];
        todo := todo - {su};
      }
    }

    /** Takes base out of the successors of its predecessors. */
    method EraseSuccs(base: Block)
      requires base in prevs && prevs[base] <= succs.Keys
      modifies this`succs
      ensures succs == Without(old(succs), prevs[base], base)
    {
      var todo := prevs[base];
      while todo != {}
        invariant todo <= prevs[base] && succs.Keys == old(succs).Keys
        invariant forall x {:trigger succs[x]} :: x in succs ==>
          succs[x] == if x in prevs[base] - todo then old(succs)[x] - {base} else old(succs)[x]
      {
        var prev :| prev in todo;
        succs := succs[prev := succs[prev] - {base}];
        todo := todo - {prev};
      }
    }

    /** Stores one loop, and makes it the innermost one of its blocks. */
    method StoreLoop(s: set<Block>, base: Block)
      requires base !in base2loop && s !in loop2base
      modifies this`loopSet, this`base2loop, this`loop2base, this`bb2base
      ensures loopSet == old(loopSet) + {s} && base2loop == old(base2loop)[base := s]
      ensures loop2base == old(loop2base)[s := base] && bb2base == WithBase(old(bb2base), s, base)
    {
      loopSet := loopSet + {s};
      base2loop := base2loop[base := s];
      loop2base := loop2base[s := base];
      SetInnermost(s, base);
    }

    method SetInnermost(s: set<Block>, base: Block)
      modifies this`bb2base
      ensures bb2base == WithBase(old(bb2base), s, base)
    {
      var todo := s;
      while todo != {}
        invariant todo <= s && bb2base.Keys == old(bb2base).Keys + (s - todo)
        invariant forall x {:trigger bb2base[x]} :: x in bb2base ==>
          bb2base[x] == if x in s - todo then base else old(bb2base)[x]
      {
        var bb :| bb in todo;
        bb2base := bb2base[bb := base];
        todo := todo - {bb};
      }
    }

    /** Records one component: finds its base, stores it, and removes the base. */
    method RecordLoop(s: set<Block>, reserved: set<Block>, ghost e: Adj, ghost start: set<Block>)
      returns (base: Option<Block>)
      requires Recording(e, start, nodes, base2loop, bb2base) && Tables(loopSet, base2loop, loop2base)
      requires Edges(e, nodes, succs, prevs) && reserved == e.Keys - nodes
      requires IsLoop(Restrict(e, start), s) && s <= nodes
      modifies this`nodes, this`succs, this`prevs, this`loopSet, this`base2loop, this`loop2base, this`bb2base
      ensures base.Some? <==> HasEntry(e, s)
      ensures base.Some? ==>
        base.value in s && nodes == old(nodes) - {base.value} && base2loop == old(base2loop)[base.value := s]
      ensures base.Some? ==> Recording(e, start, nodes, base2loop, bb2base) && Tables(loopSet, base2loop, loop2base)
      ensures base.Some? ==> Edges(e, nodes, succs, prevs)
    {
      hide Recording, Edges, IsLoop, Tables, IsBase;
      base := FindLoopBase(s, reserved, e);
      if base.None? {
        return;
      }
      ghost var b := base.value;
      NewLoopFacts(e, start, nodes, base2loop, bb2base, s, b);
      RecordOne(e, start, nodes, base2loop, bb2base, s, b);
      NewTables(loopSet, base2loop, loop2base, s, b);
      StoreLoop(s, base.value);
      RemoveBase(base.value, e);
    }

    /** One round: all components of the remaining graph are recorded and lose their bases. */
    method RecordAll(reserved0: set<Block>, ghost e: Adj) returns (ok: bool, reserved: set<Block>)
      requires Recording(e, nodes, nodes, base2loop, bb2base) && Tables(loopSet, base2loop, loop2base)
      requires Edges(e, nodes, succs, prevs) && reserved0 == e.Keys - nodes
      requires forall s {:trigger s in sccs} {:trigger IsLoop(Restrict(e, nodes), s)} :: s in sccs <==>
        IsLoop(Restrict(e, nodes), s)
      modifies this`nodes, this`succs, this`prevs, this`loopSet, this`base2loop, this`loop2base, this`bb2base
      ensures ok <==> forall s :: s in sccs ==> HasEntry(e, s)
      ensures ok ==> Recording(e, nodes, nodes, base2loop, bb2base) && Tables(loopSet, base2loop, loop2base)
      ensures ok ==> Edges(e, nodes, succs, prevs) && reserved == e.Keys - nodes
      ensures ok && sccs != {} ==> nodes < old(nodes)
    {
      hide Recording, Edges, IsLoop, Tables, HasEntry;
      ghost var start := nodes;
      RecordingFacts(e, start, nodes, base2loop, bb2base);
      reserved := reserved0;
      var todo := sccs;
      while todo != {}
        invariant todo <= sccs && nodes <= start <= e.Keys && reserved == e.Keys - nodes
        invariant Recording(e, start, nodes, base2loop, bb2base) && Tables(loopSet, base2loop, loop2base)
        invariant Edges(e, nodes, succs, prevs)
        invariant forall s :: s in todo ==> s <= nodes
        invariant forall s {:trigger s in sccs} :: s in sccs && s !in todo ==> HasEntry(e, s) && AtBase(base2loop, s)
        invariant todo == sccs || nodes < start
        decreases todo
      {
        var scc :| scc in todo;
        ghost var loops := base2loop;
        RecordingFacts(e, start, nodes, base2loop, bb2base);
        var base := RecordLoop(scc, reserved, e, start);
        if base.None? {
          return false, reserved;
        }
        reserved := reserved + {base.value};
        forall s | s in todo - {scc}
          ensures base.value !in s
        {
          LoopsApart(Restrict(e, start), scc, s, base.value);
        }
        StillAtBase(loops, base.value, scc);
        todo := todo - {scc};
      }
      RoundEnd(e, start, nodes, base2loop, bb2base);
      ok := true;
    }

    /** Forgets the previous search. */
    method Reset()
      modifies this`index, this`lowlink, this`onStack, this`sccs
      ensures Fresh() && sccs == {}
    {
      sccs := {};
      index := map n | n in nodes :: -1;
      lowlink := map n | n in nodes :: -1;
      onStack := map n | n in nodes :: false;
    }

    /** One node per block, with the block's successors and predecessors. */
    method BuildCfg(g: Graph)
      requires g.Valid()
      modifies this`nodes, this`succs, this`prevs, this`index, this`lowlink, this`onStack, this`sccs
      ensures nodes == AdjOf(g).Keys && Edges(AdjOf(g), nodes, succs, prevs)
      ensures Fresh() && sccs == {}
    {
      ghost var e := AdjOf(g);
      nodes, succs, prevs := {}, map[], map[];
      for b := 0 to |g.succs|
        invariant nodes == succs.Keys == prevs.Keys && forall x: Block {:trigger x in nodes} :: x in nodes <==> x < b
        invariant forall x: Block {:trigger succs[x]} :: x < b ==> succs[x] == set y | y in g.succs[x]
        invariant forall x: Block {:trigger prevs[x]} :: x < b ==> prevs[x] == set y | y in g.preds[x]
      {
        nodes := nodes + {b};
        succs := succs[b := set y | y in g.succs[b]];
        prevs := prevs[b := set y | y in g.preds[b]];
      }
      CfgEdges(g, nodes, succs, prevs);
      Reset();
    }

    /** The collected sets are the components with two or more nodes of the remaining graph. */
    ghost predicate Found(e: Adj)
      reads this`nodes, this`sccs
    {
      forall s {:trigger s in sccs} {:trigger IsLoop(Restrict(e, nodes), s)} :: s in sccs <==>
        IsLoop(Restrict(e, nodes), s)
    }

    ghost predicate Results(e: Adj)
      reads this`nodes, this`loopSet, this`base2loop, this`loop2base, this`bb2base
    {
      Recording(e, nodes, nodes, base2loop, bb2base) && Tables(loopSet, base2loop, loop2base)
    }

    method SearchRest(ghost e: Adj) returns (found: bool)
      requires Edges(e, nodes, succs, prevs) && Closed(e) && Fresh() && sccs == {}
      modifies this`index, this`lowlink, this`onStack, this`stack, this`indexCount, this`sccs
      ensures Found(e) && (found <==> sccs != {})
    {
      hide Edges, IsLoop;
      SearchedGraph(e, nodes, succs, prevs);
      found := StronglyConnectedComponents(Restrict(e, nodes));
    }

    /** Records what one search has found, and searches again. */
    method Round(reserved0: set<Block>, ghost e: Adj) returns (ok: bool, reserved: set<Block>, found: bool)
      requires Results(e) && Found(e) && Edges(e, nodes, succs, prevs) && reserved0 == e.Keys - nodes && sccs != {}
      requires nodes == e.Keys || AllEntered(e)
      modifies this
      ensures ok ==> Results(e) && Found(e) && Edges(e, nodes, succs, prevs) && reserved == e.Keys - nodes
      ensures ok ==> (found <==> sccs != {}) && nodes < old(nodes)
      ensures ok <==> AllEntered(e)
    {
      hide Recording, Edges, Tables, IsLoop, HasEntry, AllEntered, Closed, Restrict;
      ghost var before := nodes;
      RecordingFacts(e, nodes, nodes, base2loop, bb2base);
      found := false;
      ok, reserved := RecordAll(reserved0, e);
      if !ok {
        NotEntered(e, before, sccs);
        return;
      }
      RoundEntered(e, before, sccs);
      Reset();
      found := SearchRest(e);
    }

    /** The whole pass over one function. A component without a base, which the caller dereferences
        all the same, is reported as a failure. On success every cycle through two or more blocks goes
        through the base of a recorded loop around it, so that loops inside loops are found as well. */
    method Run(g: Graph) returns (ok: bool)
      requires g.Valid()
      requires loopSet == {} && base2loop == map[] && loop2base == map[] && bb2base == map[]
      modifies this
      ensures ok <==> AllEntered(AdjOf(g))
      ensures ok ==> Tables(loopSet, base2loop, loop2base) && AllNested(base2loop) && InnerOk(base2loop, bb2base)
      ensures ok ==> forall b :: b in base2loop ==> LoopOk(AdjOf(g), nodes, b, base2loop[b])
      ensures ok ==> forall c :: Strong(AdjOf(g), c) && |c| >= 2 ==> Recorded(base2loop, c)
    {
      hide Recording, Edges, Tables, IsLoop, HasEntry, Strong, Recorded, AllNested, InnerOk, LoopOk, AllEntered, AdjOf,
        Closed, Restrict;
      ghost var e := AdjOf(g);
      BuildCfg(g);
      RecordNone(e);
      NoTables();
      var reserved := {};
      var found := SearchRest(e);
      while found
        invariant Results(e) && Found(e) && Edges(e, nodes, succs, prevs) && reserved == e.Keys - nodes
        invariant found <==> sccs != {}
        invariant nodes <= e.Keys && (nodes == e.Keys || AllEntered(e))
        decreases nodes
      {
        ok, reserved, found := Round(reserved, e);
        if !ok {
          return;
        }
      }
      ok := true;
      RoundEntered(e, nodes, sccs);
      FinalResults(e, nodes, base2loop, bb2base);
    }

    /** The smallest recorded loop around a block, if there is one. */
    method GetInnerLoop(bb: Block) returns (loop: Option<set<Block>>)
      requires InnerOk(base2loop, bb2base)
      ensures loop.None? <==> forall b {:trigger base2loop[b]} :: b in base2loop ==> bb !in base2loop[b]
      ensures loop.Some? ==> bb in loop.value && AtBase(base2loop, loop.value)
      ensures loop.Some? ==> forall b {:trigger base2loop[b]} :: b in base2loop && bb in base2loop[b] ==>
        loop.value <= base2loop[b]
    {
      if bb !in bb2base {
        return None;
      }
      assert Innermost(base2loop, bb, bb2base[bb]);
      return Some(base2loop[bb2base[bb]]);
    }
  }
}
