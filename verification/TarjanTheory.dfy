/** The invariant of Tarjan's algorithm. */
module TarjanTheory {
  import opened Cfg
  import opened Components

  /** The algorithm's variables; -1 is the index of a node not yet visited. */
  datatype Search = Search(index: map<Block, int>, stack: seq<Block>, count: int, sccs: set<set<Block>>)

  predicate Visited(t: Search, x: Block) {
    x in t.index && t.index[x] != -1
  }

  /** Visited and popped: its component has been completed. */
  predicate Done(t: Search, x: Block) {
    Visited(t, x) && x !in t.stack
  }

  /** The stack holds visited nodes in increasing order of index. */
  ghost predicate StackOk(t: Search) {
    && (forall x {:trigger t.index[x]} :: x in t.index ==> -1 <= t.index[x] < t.count)
    && (forall i {:trigger t.stack[i]} :: 0 <= i < |t.stack| ==> Visited(t, t.stack[i]))
    && (forall i, j {:trigger t.stack[i], t.stack[j]} :: 0 <= i < j < |t.stack| ==>
         t.index[t.stack[i]] < t.index[t.stack[j]])
  }

  /** Outside the gray nodes, whose visit is under way, no arc leads to an unvisited node, and done
      nodes only lead to done nodes. */
  ghost predicate ArcsOk(a: Adj, t: Search, gray: set<Block>) {
    && (forall x, y {:trigger Arc(a, x, y)} :: Visited(t, x) && x !in gray && Arc(a, x, y) ==> Visited(t, y))
    && (forall x, y {:trigger Arc(a, x, y)} :: Done(t, x) && Arc(a, x, y) ==> Done(t, y))
  }

  /** Each stacked node reaches all later ones, and some earlier gray one. */
  ghost predicate ReachOk(a: Adj, t: Search, gray: set<Block>) {
    && (forall i, j {:trigger t.stack[i], t.stack[j]} :: 0 <= i <= j < |t.stack| ==> Reach(a, t.stack[i], t.stack[j]))
    && (forall x {:trigger Anchored(a, t, gray, x)} :: x in t.stack && Visited(t, x) ==> Anchored(a, t, gray, x))
  }

  ghost predicate Anchored(a: Adj, t: Search, gray: set<Block>, x: Block) {
    x in t.index && exists g {:trigger Reach(a, x, g)} ::
      g in gray && g in t.index && t.index[g] <= t.index[x] && Reach(a, x, g)
  }

  /** Exactly the completed components with two or more nodes have been recorded. */
  ghost predicate SccsOk(a: Adj, t: Search) {
    forall s {:trigger s in t.sccs} {:trigger IsLoop(a, s)} :: s in t.sccs <==> IsLoop(a, s) && forall x :: x in s ==>
      Done(t, x)
  }

  ghost predicate Inv(a: Adj, t: Search, gray: set<Block>) {
    && Closed(a) && t.index.Keys == a.Keys && t.count >= 0
    && StackOk(t) && ArcsOk(a, t, gray) && ReachOk(a, t, gray) && SccsOk(a, t)
    && (forall g :: g in gray ==> g in t.stack)
  }

  // ----- beginning a visit -----

  function Entered(t: Search, n: Block): Search {
    Search(t.index[n := t.count], t.stack + [n], t.count + 1, t.sccs)
  }

  lemma EnterReach(a: Adj, t: Search, gray: set<Block>, n: Block, x: Block)
    requires Inv(a, t, gray) && x in t.stack && forall g :: g in gray ==> Reach(a, g, n)
    ensures Reach(a, x, n)
  {
    assert Visited(t, x);
    assert Anchored(a, t, gray, x);
    var g :| g in gray && g in t.index && Reach(a, x, g);
    ReachTrans(a, x, g, n);
  }

  lemma Enter(a: Adj, t: Search, gray: set<Block>, n: Block)
    requires Inv(a, t, gray) && n in a && !Visited(t, n) && forall g :: g in gray ==> Reach(a, g, n)
    ensures Inv(a, Entered(t, n), gray + {n})
  {
    var t1 := Entered(t, n);
    ReachSelf(a, n);
    forall i, j | 0 <= i <= j < |t1.stack|
      ensures Reach(a, t1.stack[i], t1.stack[j])
    {
      if j < |t.stack| {
        assert Reach(a, t.stack[i], t.stack[j]);
      } else if i < |t.stack| {
        EnterReach(a, t, gray, n, t.stack[i]);
      }
    }
    forall x | x in t1.stack && Visited(t1, x)
      ensures Anchored(a, t1, gray + {n}, x)
    {
      if x != n {
        assert x in t.stack && Anchored(a, t, gray, x);
      }
    }
    assert forall x :: Done(t1, x) <==> Done(t, x);
    hide Reach, IsLoop;
  }

  // ----- what a visit establishes -----

  /** A later state: the old stack is still there, and nothing that was visited or done is forgotten. */
  ghost predicate Extends(t0: Search, t: Search) {
    && t0.count <= t.count
    && t0.stack <= t.stack
    && (forall x {:trigger Visited(t0, x)} {:trigger t.index[x]} :: Visited(t0, x) ==>
         Visited(t, x) && t.index[x] == t0.index[x])
    && (forall x {:trigger Done(t0, x)} :: Done(t0, x) ==> Done(t, x))
  }

  lemma ExtendsTrans(t0: Search, t1: Search, t2: Search)
    requires Extends(t0, t1) && Extends(t1, t2)
    ensures Extends(t0, t2)
  {
  }

  /** low is the index of a node y on the given stack that n reaches. */
  ghost predicate LowIs(a: Adj, t: Search, ys: seq<Block>, n: Block, low: int) {
    exists y {:trigger Reach(a, n, y)} :: y in ys && y in t.index && low == t.index[y] && Reach(a, n, y)
  }

  /** No arc from the part of the stack above `upto` to a lower node goes below low. */
  ghost predicate LowCovers(a: Adj, t: Search, lower: seq<Block>, upto: seq<Block>, low: int) {
    forall x, y {:trigger Arc(a, x, y)} :: x in t.stack && x !in upto && y in lower && Arc(a, x, y) && y in t.index ==>
      low <= t.index[y]
  }

  /** After the visit of n: either its component is complete, or n stays stacked and its lowlink is the
      smallest index of an older stacked node that the new part of the stack has an arc to. */
  ghost predicate VisitedWell(a: Adj, t0: Search, t: Search, n: Block, low: int) {
    && Extends(t0, t) && Visited(t, n) && t.index[n] >= t0.count
    && LowCovers(a, t, t0.stack, t0.stack, low)
    && (if Done(t, n) then t.stack == t0.stack && low == t.index[n] else LowIs(a, t, t0.stack, n, low))
  }

  /** During the visit of n: the successors in seen have been dealt with. */
  ghost predicate Exploring(a: Adj, t0: Search, t: Search, gray: set<Block>, n: Block, low: int, seen: set<Block>) {
    && Inv(a, t, gray + {n}) && Extends(Entered(t0, n), t)
    && low <= t.index[n] == t0.count
    && LowIs(a, t, t0.stack + [n], n, low)
    && LowCovers(a, t, t0.stack, t0.stack + [n], low)
    && (forall y {:trigger Visited(t, y)} :: y in seen ==> Visited(t, y))
    && (forall y {:trigger y in seen} :: y in seen && y in t0.stack && y in t.index ==> low <= t.index[y])
  }

  lemma Explore(a: Adj, t0: Search, gray: set<Block>, n: Block)
    requires Inv(a, t0, gray) && n in a && !Visited(t0, n) && forall g :: g in gray ==> Reach(a, g, n)
    ensures Exploring(a, t0, Entered(t0, n), gray, n, t0.count, {})
  {
    Enter(a, t0, gray, n);
    ReachSelf(a, n);
    var t := Entered(t0, n);
    assert n in t0.stack + [n] && t.index[n] == t0.count;
    hide Inv, Reach;
  }

  /** A stacked node with a smaller index than n was stacked before n. */
  lemma Below(a: Adj, t0: Search, t: Search, gray: set<Block>, n: Block, y: Block)
    requires Inv(a, t, gray) && Extends(Entered(t0, n), t) && y in t.stack && Visited(t, n) && t.index[n] == t0.count
    requires t.index[y] <= t.index[n]
    ensures y in t0.stack + [n]
  {
    var base := t0.stack + [n];
    var i :| 0 <= i < |t.stack| && t.stack[i] == y;
    assert t.stack[|base| - 1] == base[|base| - 1] == n;
    assert base[i] == t.stack[i];
  }

  lemma ExploringFacts(a: Adj, t0: Search, t: Search, gray: set<Block>, n: Block, low: int, seen: set<Block>, su: Block)
    requires Exploring(a, t0, t, gray, n, low, seen) && Arc(a, n, su) && forall g :: g in gray ==> Reach(a, g, n)
    ensures su in a && su in t.index && Visited(t, n) && Inv(a, t, gray + {n})
    ensures forall g :: g in gray + {n} ==> Reach(a, g, su)
    ensures forall x :: Visited(t0, x) ==> Visited(t, x) && x in t.index
  {
    SeenVisited(t0, t, n);
    ReachArc(a, n, su);
    assert forall x :: Visited(t0, x) ==> Visited(Entered(t0, n), x);
    forall g | g in gray + {n}
      ensures Reach(a, g, su)
    {
      if g in gray {
        ReachSnoc(a, g, n, su);
      }
    }
  }

  // ----- one successor -----

  lemma SeenStacked(a: Adj, t0: Search, t: Search, gray: set<Block>, n: Block, low: int, seen: set<Block>, su: Block)
    requires Exploring(a, t0, t, gray, n, low, seen) && Arc(a, n, su) && su in t.stack && Visited(t, su)
    ensures Exploring(a, t0, t, gray, n, if t.index[su] < low then t.index[su] else low, seen + {su})
  {
    if t.index[su] < low {
      Below(a, t0, t, gray + {n}, n, su);
      ReachArc(a, n, su);
    }
    hide Inv, Reach;
  }

  lemma StillStacked(t0: Search, t: Search, n: Block)
    requires Extends(Entered(t0, n), t)
    ensures n in t.stack && forall y :: y in t0.stack ==> y in t.stack && y in t0.stack + [n]
  {
    var base := t0.stack + [n];
    assert base <= t.stack;
    assert base[|base| - 1] == n;
    forall y | y in t0.stack
      ensures y in t.stack && y in base
    {
      var i :| 0 <= i < |t0.stack| && t0.stack[i] == y;
      assert base[i] == y && t.stack[i] == y;
    }
  }

  lemma SeenDone(a: Adj, t0: Search, t: Search, gray: set<Block>, n: Block, low: int, seen: set<Block>, su: Block)
    requires Exploring(a, t0, t, gray, n, low, seen) && Done(t, su)
    ensures Exploring(a, t0, t, gray, n, low, seen + {su})
  {
    StillStacked(t0, t, n);
    hide Inv, Reach, LowIs, LowCovers, Extends;
  }

  lemma SeenNew(a: Adj, t0: Search, t: Search, t': Search, gray: set<Block>, n: Block, low: int, seen: set<Block>,
                su: Block, low': int)
    requires Exploring(a, t0, t, gray, n, low, seen) && Arc(a, n, su) && !Visited(t, su)
    requires Inv(a, t', gray + {n}) && VisitedWell(a, t, t', su, low')
    ensures Exploring(a, t0, t', gray, n, if low' < low then low' else low, seen + {su})
  {
    ExtendsTrans(Entered(t0, n), t, t');
    SeenVisited(t0, t, n);
    NewLow(a, t0, t, t', gray, n, low, seen, su, low');
    NewCovers(a, t0, t, t', gray, n, low, seen, su, low');
    NewSeen(a, t0, t, t', gray, n, low, seen, su, low');
    hide Inv, Reach, LowCovers, LowIs, Arc;
  }

  lemma SeenVisited(t0: Search, t: Search, n: Block)
    requires Extends(Entered(t0, n), t) && t0.count >= 0
    ensures Visited(t, n) && t.index[n] == t0.count
  {
    assert Visited(Entered(t0, n), n);
  }

  lemma NewCovers(a: Adj, t0: Search, t: Search, t': Search, gray: set<Block>, n: Block, low: int, seen: set<Block>,
                  su: Block, low': int)
    requires Exploring(a, t0, t, gray, n, low, seen) && VisitedWell(a, t, t', su, low') && StackOk(t)
    ensures LowCovers(a, t', t0.stack, t0.stack + [n], if low' < low then low' else low)
  {
    StillStacked(t0, t, n);
    hide Inv, Reach, LowIs;
    forall x, y | x in t'.stack && x !in t0.stack + [n] && y in t0.stack && Arc(a, x, y) && y in t'.index
      ensures low <= t'.index[y] || low' <= t'.index[y]
    {
      assert y in t.stack && Visited(t, y) && t'.index[y] == t.index[y];
    }
  }

  lemma NewSeen(a: Adj, t0: Search, t: Search, t': Search, gray: set<Block>, n: Block, low: int, seen: set<Block>,
                su: Block, low': int)
    requires Exploring(a, t0, t, gray, n, low, seen) && VisitedWell(a, t, t', su, low') && StackOk(t) && StackOk(t')
    requires !Visited(t, su)
    ensures forall y {:trigger Visited(t', y)} :: y in seen + {su} ==> Visited(t', y)
    ensures forall y {:trigger y in seen + {su}} :: y in seen + {su} && y in t0.stack && y in t'.index ==>
      low <= t'.index[y]
  {
    hide Inv, Reach, LowIs, LowCovers, StackOk;
    StillStacked(t0, t, n);
    StackedVisited(t);
    forall y | y in seen + {su}
      ensures Visited(t', y)
    {
      assert y == su || Visited(t, y);
    }
    forall y | y in seen + {su} && y in t0.stack && y in t'.index
      ensures low <= t'.index[y]
    {
      assert y in t.stack && Visited(t, y);
    }
  }

  lemma NewLow(a: Adj, t0: Search, t: Search, t': Search, gray: set<Block>, n: Block, low: int, seen: set<Block>,
               su: Block, low': int)
    requires Exploring(a, t0, t, gray, n, low, seen) && Arc(a, n, su)
    requires Inv(a, t', gray + {n}) && VisitedWell(a, t, t', su, low')
    ensures LowIs(a, t', t0.stack + [n], n, if low' < low then low' else low)
  {
    if low' < low {
      assert !Done(t', su) by {
        assert Visited(t, n) && t.index[n] == t0.count;
      }
      var y :| y in t.stack && y in t'.index && low' == t'.index[y] && Reach(a, su, y);
      assert Extends(Entered(t0, n), t') by {
        ExtendsTrans(Entered(t0, n), t, t');
      }
      assert y in t'.stack && t'.index[n] == t0.count && Visited(t', n);
      Below(a, t0, t', gray + {n}, n, y);
      ReachArc(a, n, su);
      ReachTrans(a, n, su, y);
    } else {
      var y :| y in t0.stack + [n] && y in t.index && low == t.index[y] && Reach(a, n, y);
      assert y in t.stack && Visited(t, y);
      assert t'.index[y] == t.index[y];
    }
  }

  // ----- ending a visit: n stays on the stack -----

  lemma Stay(a: Adj, t0: Search, t: Search, gray: set<Block>, n: Block, low: int, seen: set<Block>)
    requires Exploring(a, t0, t, gray, n, low, seen) && low < t.index[n] && !Visited(t0, n) && n in a
    requires forall y :: Arc(a, n, y) ==> y in seen
    requires Inv(a, t0, gray)
    ensures Inv(a, t, gray) && VisitedWell(a, t0, t, n, low)
  {
    StayReach(a, t0, t, gray, n, low, seen);
    StayExtends(t0, t, n);
    StayCovers(a, t0, t, gray, n, low, seen);
    StillStacked(t0, t, n);
    SeenVisited(t0, t, n);
    StayArcs(a, t0, t, gray, n, low, seen);
    GrayStays(a, t0, t, gray, n, low, seen);
    hide StackOk, ArcsOk, ReachOk, SccsOk, Closed, LowCovers, Extends, LowIs;
  }

  lemma GrayStays(a: Adj, t0: Search, t: Search, gray: set<Block>, n: Block, low: int, seen: set<Block>)
    requires Exploring(a, t0, t, gray, n, low, seen)
    ensures Closed(a) && t.index.Keys == a.Keys && t.count >= 0 && StackOk(t) && SccsOk(a, t)
    ensures forall g :: g in gray ==> g in t.stack
  {
    hide StackOk, ArcsOk, ReachOk, SccsOk, Closed, LowCovers, Extends, LowIs;
  }

  lemma StayReach(a: Adj, t0: Search, t: Search, gray: set<Block>, n: Block, low: int, seen: set<Block>)
    requires Exploring(a, t0, t, gray, n, low, seen) && low < t.index[n]
    ensures ReachOk(a, t, gray) && LowIs(a, t, t0.stack, n, low)
  {
    hide ArcsOk, SccsOk, LowCovers, Anchored, Extends, Reach, StackOk;
    var y0 :| y0 in t0.stack + [n] && y0 in t.index && low == t.index[y0] && Reach(a, n, y0);
    assert y0 in t0.stack;
    StillStacked(t0, t, n);
    StackedVisited(t);
    TopIsN(t0, t, n);
    forall x | x in t.stack && Visited(t, x)
      ensures Anchored(a, t, gray, x)
    {
      StayAnchored(a, t0, t, gray, n, x, y0);
    }
  }

  lemma StackedVisited(t: Search)
    requires StackOk(t)
    ensures forall x :: x in t.stack ==> Visited(t, x)
  {
  }

  lemma StayArcs(a: Adj, t0: Search, t: Search, gray: set<Block>, n: Block, low: int, seen: set<Block>)
    requires Exploring(a, t0, t, gray, n, low, seen)
    requires forall y :: Arc(a, n, y) ==> y in seen
    ensures ArcsOk(a, t, gray)
  {
    hide ReachOk, SccsOk, StackOk, LowIs, LowCovers, Extends;
  }

  lemma StayAnchored(a: Adj, t0: Search, t: Search, gray: set<Block>, n: Block, x: Block, y0: Block)
    requires Inv(a, t, gray + {n}) && x in t.stack && Visited(t, x) && y0 in t.stack && Visited(t, y0)
    requires Reach(a, n, y0) && Visited(t, n) && t.index[y0] < t.index[n]
    ensures Anchored(a, t, gray, x)
  {
    assert Anchored(a, t, gray + {n}, x) && Anchored(a, t, gray + {n}, y0);
    var g :| g in gray + {n} && g in t.index && t.index[g] <= t.index[x] && Reach(a, x, g);
    if g == n {
      var h :| h in gray + {n} && h in t.index && t.index[h] <= t.index[y0] && Reach(a, y0, h);
      ReachTrans(a, x, n, y0);
      ReachTrans(a, x, y0, h);
    }
  }

  lemma StayExtends(t0: Search, t: Search, n: Block)
    requires Extends(Entered(t0, n), t) && !Visited(t0, n)
    ensures Extends(t0, t)
  {
    var t1 := Entered(t0, n);
    assert forall x :: Visited(t0, x) ==> Visited(t1, x) && t1.index[x] == t0.index[x];
    assert forall x :: Done(t0, x) ==> Done(t1, x);
    assert t0.stack <= t1.stack <= t.stack;
  }

  lemma StayCovers(a: Adj, t0: Search, t: Search, gray: set<Block>, n: Block, low: int, seen: set<Block>)
    requires Exploring(a, t0, t, gray, n, low, seen)
    requires forall y :: Arc(a, n, y) ==> y in seen
    ensures LowCovers(a, t, t0.stack, t0.stack, low)
  {
    hide Inv, Extends, Reach;
    forall x, y | x in t.stack && x !in t0.stack && y in t0.stack && Arc(a, x, y) && y in t.index
      ensures low <= t.index[y]
    {
      assert x in t0.stack + [n] ==> x == n;
    }
  }

  // ----- ending a visit: the component of n is popped -----

  function PopTo(t: Search, k: nat, members: set<Block>): Search
    requires k <= |t.stack|
  {
    t.(stack := t.stack[..k], sccs := if |members| == 1 then t.sccs else t.sccs + {members})
  }

  ghost predicate TopPart(t: Search, k: nat, members: set<Block>) {
    k < |t.stack| && forall x {:trigger x in members} :: x in members <==> x in t.stack[k..]
  }

  lemma TopIndex(t: Search, k: nat, members: set<Block>, x: Block)
    requires StackOk(t) && TopPart(t, k, members)
    ensures x in members <==> Visited(t, x) && x in t.stack && t.index[x] >= t.index[t.stack[k]]
    ensures x in t.stack[..k] <==> Visited(t, x) && x in t.stack && t.index[x] < t.index[t.stack[k]]
  {
    if x in members {
      var i :| 0 <= i < |t.stack[k..]| && t.stack[k..][i] == x;
      assert t.stack[k + i] == x;
      assert i > 0 ==> t.index[t.stack[k]] < t.index[t.stack[k + i]];
    }
    if x in t.stack[..k] {
      var i :| 0 <= i < k && t.stack[i] == x;
      assert t.index[t.stack[i]] < t.index[t.stack[k]];
    }
    if x in t.stack {
      var i :| 0 <= i < |t.stack| && t.stack[i] == x;
      if i < k {
        assert t.stack[..k][i] == x;
      } else {
        assert t.stack[k..][i - k] == x;
      }
    }
  }

  lemma TopIsN(t0: Search, t: Search, n: Block)
    requires Extends(Entered(t0, n), t)
    ensures |t0.stack| < |t.stack| && t.stack[|t0.stack|] == n && t.stack[..|t0.stack|] == t0.stack
  {
    var base := t0.stack + [n];
    assert base <= t.stack;
    assert t.stack[|t0.stack|] == base[|t0.stack|];
    assert forall i :: 0 <= i < |t0.stack| ==> t.stack[i] == base[i];
  }

  /** The state when all successors of n have been dealt with and its lowlink is its own index. */
  ghost predicate Complete(a: Adj, t0: Search, t: Search, gray: set<Block>, n: Block, seen: set<Block>,
                           members: set<Block>) {
    && Inv(a, t0, gray) && n in a && !Visited(t0, n)
    && Exploring(a, t0, t, gray, n, t0.count, seen)
    && TopPart(t, |t0.stack|, members)
    && (forall z :: Arc(a, n, z) ==> z in seen)
  }

  /** The members are closed, together with the done nodes, under arcs. */
  lemma MembersClosed(a: Adj, t0: Search, t: Search, gray: set<Block>, n: Block, seen: set<Block>, members: set<Block>,
                      x: Block, y: Block)
    requires Complete(a, t0, t, gray, n, seen, members)
    requires (x in members || Done(t, x)) && Arc(a, x, y)
    ensures y in members || Done(t, y)
  {
    var k := |t0.stack|;
    TopIsN(t0, t, n);
    SeenVisited(t0, t, n);
    TopIndex(t, k, members, x);
    TopIndex(t, k, members, y);
    StillStacked(t0, t, n);
    hide ReachOk, SccsOk, StackOk, Extends, LowIs, TopPart;
    if x in members {
      assert x !in gray;
      assert Visited(t, y);
      assert x != n ==> x !in t0.stack + [n];
    }
  }

  lemma MemberReaches(a: Adj, t0: Search, t: Search, gray: set<Block>, n: Block, seen: set<Block>, members: set<Block>,
                      x: Block)
    requires Complete(a, t0, t, gray, n, seen, members) && x in members
    ensures Mutual(a, n, x)
  {
    var k := |t0.stack|;
    TopIsN(t0, t, n);
    TopIndex(t, k, members, x);
    StackReaches(a, t, gray + {n}, k, n, x);
    assert Anchored(a, t, gray + {n}, x);
    var g :| g in gray + {n} && g in t.index && t.index[g] <= t.index[x] && Reach(a, x, g);
    if g != n {
      StillStacked(t0, t, n);
      LowerReaches(a, t0, t, gray + {n}, n, g);
      ReachTrans(a, x, g, n);
    }
  }

  lemma StackReaches(a: Adj, t: Search, gray: set<Block>, k: nat, n: Block, x: Block)
    requires ReachOk(a, t, gray) && k < |t.stack| && t.stack[k] == n && x in t.stack[k..]
    ensures Reach(a, n, x)
  {
    var i :| 0 <= i < |t.stack[k..]| && t.stack[k..][i] == x;
    assert t.stack[k + i] == x;
  }

  lemma LowerReaches(a: Adj, t0: Search, t: Search, gray: set<Block>, n: Block, g: Block)
    requires ReachOk(a, t, gray) && Extends(Entered(t0, n), t) && g in t0.stack
    ensures Reach(a, g, n)
  {
    TopIsN(t0, t, n);
    var j :| 0 <= j < |t0.stack| && t0.stack[j] == g;
    assert t.stack[..|t0.stack|][j] == g;
    assert Reach(a, t.stack[j], t.stack[|t0.stack|]);
  }

  /** The popped nodes are exactly the component of n. */
  lemma MembersAreComponent(a: Adj, t0: Search, t: Search, gray: set<Block>, n: Block, seen: set<Block>,
                            members: set<Block>)
    requires Complete(a, t0, t, gray, n, seen, members)
    ensures ComponentOf(a, members, n)
  {
    TopIsN(t0, t, n);
    TopIndex(t, |t0.stack|, members, n);
    assert n in t.stack[|t0.stack|..] by {
      assert t.stack[|t0.stack|..][0] == n;
    }
    forall x
      ensures x in members <==> Mutual(a, n, x)
    {
      if x in members {
        MemberReaches(a, t0, t, gray, n, seen, members, x);
      }
      if Mutual(a, n, x) {
        var both := (set y | y in t.index && Done(t, y)) + members;
        forall u, v | u in both && Arc(a, u, v)
          ensures v in both
        {
          MembersClosed(a, t0, t, gray, n, seen, members, u, v);
        }
        ClosedHolds(a, both, n, x);
        if Done(t, x) {
          DoneClosed(a, t, gray + {n}, x, n);
        }
      }
    }
  }

  lemma DoneClosed(a: Adj, t: Search, gray: set<Block>, x: Block, y: Block)
    requires Inv(a, t, gray) && Done(t, x) && Reach(a, x, y)
    ensures Done(t, y)
  {
    var done := set z | z in t.index && Done(t, z);
    ClosedHolds(a, done, x, y);
  }

  lemma PopInv(a: Adj, t0: Search, t: Search, gray: set<Block>, n: Block, seen: set<Block>, members: set<Block>)
    requires Complete(a, t0, t, gray, n, seen, members)
    ensures Inv(a, PopTo(t, |t0.stack|, members), gray)
  {
    var k := |t0.stack|;
    var t' := PopTo(t, k, members);
    TopIsN(t0, t, n);
    SeenVisited(t0, t, n);
    PopDone(a, t0, t, gray, n, seen, members);
    PopStack(t, k, members);
    PopArcs(a, t0, t, gray, n, seen, members);
    PopReach(a, t0, t, gray, n, seen, members);
    PopSccs(a, t0, t, gray, n, seen, members);
  }

  lemma PopStack(t: Search, k: nat, members: set<Block>)
    requires StackOk(t) && k <= |t.stack|
    ensures StackOk(PopTo(t, k, members))
  {
    assert forall i :: 0 <= i < k ==> t.stack[..k][i] == t.stack[i];
  }

  lemma PopDone(a: Adj, t0: Search, t: Search, gray: set<Block>, n: Block, seen: set<Block>, members: set<Block>)
    requires Complete(a, t0, t, gray, n, seen, members)
    ensures |t0.stack| <= |t.stack|
    ensures forall x {:trigger Done(PopTo(t, |t0.stack|, members), x)} :: Done(PopTo(t, |t0.stack|, members), x) <==>
      Done(t, x) || x in members
  {
    TopIsN(t0, t, n);
    forall x
      ensures Done(PopTo(t, |t0.stack|, members), x) <==> Done(t, x) || x in members
    {
      TopIndex(t, |t0.stack|, members, x);
    }
  }

  lemma PopArcs(a: Adj, t0: Search, t: Search, gray: set<Block>, n: Block, seen: set<Block>, members: set<Block>)
    requires Complete(a, t0, t, gray, n, seen, members) && |t0.stack| <= |t.stack|
    ensures ArcsOk(a, PopTo(t, |t0.stack|, members), gray)
  {
    var t' := PopTo(t, |t0.stack|, members);
    PopDone(a, t0, t, gray, n, seen, members);
    forall x, y | Visited(t', x) && x !in gray && Arc(a, x, y)
      ensures Visited(t', y)
    {
      assert Visited(t, x);
      assert x != n ==> Visited(t, y);
      assert x == n ==> Visited(t, y);
    }
    forall x, y | Done(t', x) && Arc(a, x, y)
      ensures Done(t', y)
    {
      MembersClosed(a, t0, t, gray, n, seen, members, x, y);
    }
  }

  lemma PopReach(a: Adj, t0: Search, t: Search, gray: set<Block>, n: Block, seen: set<Block>, members: set<Block>)
    requires Complete(a, t0, t, gray, n, seen, members) && |t0.stack| <= |t.stack|
    ensures ReachOk(a, PopTo(t, |t0.stack|, members), gray)
  {
    var k := |t0.stack|;
    var t' := PopTo(t, k, members);
    TopIsN(t0, t, n);
    forall i, j | 0 <= i <= j < |t'.stack|
      ensures Reach(a, t'.stack[i], t'.stack[j])
    {
      assert Reach(a, t.stack[i], t.stack[j]);
    }
    forall x | x in t'.stack && Visited(t', x)
      ensures Anchored(a, t', gray, x)
    {
      TopIndex(t, k, members, x);
      assert Anchored(a, t, gray + {n}, x);
    }
  }

  lemma PopSccs(a: Adj, t0: Search, t: Search, gray: set<Block>, n: Block, seen: set<Block>, members: set<Block>)
    requires Complete(a, t0, t, gray, n, seen, members) && |t0.stack| <= |t.stack|
    ensures SccsOk(a, PopTo(t, |t0.stack|, members))
  {
    hide IsLoop, ComponentOf, StackOk, ArcsOk, ReachOk, TopPart;
    PopDone(a, t0, t, gray, n, seen, members);
    MembersAreComponent(a, t0, t, gray, n, seen, members);
    MembersSize(a, members, n);
    assert SccsOk(a, t);
    hide Complete;
    RecordedNow(a, t, PopTo(t, |t0.stack|, members), n, members);
  }

  lemma MembersSize(a: Adj, members: set<Block>, n: Block)
    requires ComponentOf(a, members, n)
    ensures n in members && (|members| == 1 || IsLoop(a, members))
  {
    assert {n} <= members;
    assert |members - {n}| == |members| - 1;
  }

  /** A completed component has been recorded unless it is a single node. */
  lemma RecordedNow(a: Adj, t: Search, t': Search, n: Block, members: set<Block>)
    requires SccsOk(a, t) && ComponentOf(a, members, n) && (|members| == 1 || IsLoop(a, members))
    requires t'.sccs == if |members| == 1 then t.sccs else t.sccs + {members}
    requires forall x {:trigger Done(t', x)} :: Done(t', x) <==> Done(t, x) || x in members
    ensures SccsOk(a, t')
  {
    hide IsLoop, ComponentOf, Done;
    forall s
      ensures s in t'.sccs <==> IsLoop(a, s) && forall x :: x in s ==> Done(t', x)
    {
      if IsLoop(a, s) && (forall x :: x in s ==> Done(t', x)) {
        if x :| x in s && x in members {
          LoopMeets(a, s, members, n, x);
        } else {
          assert forall x :: x in s ==> Done(t, x);
        }
      }
      if s in t.sccs {
        assert forall x :: x in s ==> Done(t, x);
      }
    }
  }

  lemma LoopMeets(a: Adj, s: set<Block>, members: set<Block>, n: Block, x: Block)
    requires IsLoop(a, s) && ComponentOf(a, members, n) && x in s && x in members
    ensures s == members && |members| >= 2
  {
    ComponentsMeet(a, s, members, x);
  }

  lemma PopVisited(a: Adj, t0: Search, t: Search, gray: set<Block>, n: Block, seen: set<Block>, members: set<Block>)
    requires Complete(a, t0, t, gray, n, seen, members) && |t0.stack| <= |t.stack|
    ensures VisitedWell(a, t0, PopTo(t, |t0.stack|, members), n, t0.count)
  {
    var t' := PopTo(t, |t0.stack|, members);
    TopIsN(t0, t, n);
    SeenVisited(t0, t, n);
    StayExtends(t0, t, n);
    PopDone(a, t0, t, gray, n, seen, members);
    TopIndex(t, |t0.stack|, members, n);
    assert n in members by {
      assert t.stack[|t0.stack|..][0] == n;
    }
    hide Inv, ReachOk, LowIs;
  }

  // ----- the whole search -----

  lemma SearchStart(a: Adj, index: map<Block, int>)
    requires Closed(a) && index.Keys == a.Keys && forall x :: x in index ==> index[x] == -1
    ensures Inv(a, Search(index, [], 0, {}), {})
  {
    forall s | IsLoop(a, s)
      ensures exists x :: x in s
    {
      var r :| ComponentOf(a, s, r);
    }
  }

  lemma NotAnchored(a: Adj, t: Search, x: Block)
    ensures !Anchored(a, t, {}, x)
  {
  }

  lemma SearchEnd(a: Adj, t: Search)
    requires Inv(a, t, {}) && forall x :: x in a ==> Visited(t, x)
    ensures t.stack == [] && forall s :: s in t.sccs <==> IsLoop(a, s)
  {
    if t.stack != [] {
      var x := t.stack[0];
      assert x in t.stack && Visited(t, x);
      NotAnchored(a, t, x);
    }
    forall s, x | IsLoop(a, s) && x in s
      ensures Done(t, x)
    {
      var r :| ComponentOf(a, s, r);
      assert Mutual(a, r, x);
      var p :| PathBetween(a, p, x, r);
      PathStart(a, p);
    }
  }

  lemma {:induction false} PathStart(a: Adj, p: seq<Block>)
    requires IsPath(a, p)
    ensures p[0] in a
  {
    if |p| > 1 {
      PathStart(a, p[..|p| - 1]);
    }
  }

  // ----- for the methods -----

  ghost function UnvisitedIn(index: map<Block, int>): set<Block> {
    set x | x in index && index[x] == -1
  }

  lemma UnvisitedShrinks(a: Adj, t0: Search, t: Search, gray: set<Block>, n: Block, low: int)
    requires Inv(a, t0, gray) && Inv(a, t, gray) && VisitedWell(a, t0, t, n, low)
    ensures UnvisitedIn(t.index) <= UnvisitedIn(t0.index)
  {
    assert forall x :: x in UnvisitedIn(t.index) ==> !Visited(t0, x);
  }

  /** Nodes visited before keep their lowlink. */
  ghost predicate KeepsLow(t0: Search, before: map<Block, int>, after: map<Block, int>) {
    forall x {:trigger Visited(t0, x)} :: Visited(t0, x) && x in before ==> x in after && after[x] == before[x]
  }

  lemma KeepsLowStart(t0: Search, low: map<Block, int>)
    ensures KeepsLow(t0, low, low)
  {
  }

  lemma KeepsLowMore(t0: Search, t: Search, low0: map<Block, int>, low1: map<Block, int>, low2: map<Block, int>,
                     n: Block)
    requires KeepsLow(t0, low0, low1) && KeepsLow(t, low1, low2) && Visited(t, n) && n in low1
    requires forall x :: Visited(t0, x) ==> Visited(t, x)
    ensures KeepsLow(t0, low0, low2) && n in low2 && low2[n] == low1[n]
  {
  }

  lemma KeepsLowSelf(t0: Search, low0: map<Block, int>, low: map<Block, int>, n: Block, v: int)
    requires KeepsLow(t0, low0, low) && !Visited(t0, n)
    ensures KeepsLow(t0, low0, low[n := v])
  {
  }

  lemma FinishFacts(a: Adj, t0: Search, t: Search, gray: set<Block>, n: Block, low: int, seen: set<Block>)
    requires Exploring(a, t0, t, gray, n, low, seen)
    ensures n in t.index && low <= t.index[n] == t0.count
    ensures |t0.stack| < |t.stack| && t.stack[|t0.stack|] == n && t.stack[..|t0.stack|] == t0.stack
    ensures StackOk(t) && forall i :: 0 <= i < |t.stack| && t.stack[i] == n ==> i == |t0.stack|
    ensures forall i {:trigger t.stack[i]} :: 0 <= i < |t.stack| ==> t.stack[i] !in t.stack[..i] && t.stack[i] in a
  {
    TopIsN(t0, t, n);
    hide ReachOk, ArcsOk, SccsOk, LowIs, LowCovers;
    forall i, j | 0 <= j < i < |t.stack|
      ensures t.stack[i] != t.stack[j]
    {
      assert t.index[t.stack[j]] < t.index[t.stack[i]];
    }
  }

  lemma CompleteNow(a: Adj, t0: Search, t: Search, gray: set<Block>, n: Block, seen: set<Block>, members: set<Block>)
    requires Inv(a, t0, gray) && n in a && !Visited(t0, n) && Exploring(a, t0, t, gray, n, t0.count, seen)
    requires |t0.stack| < |t.stack| && forall x :: x in members <==> x in t.stack[|t0.stack|..]
    requires forall z :: Arc(a, n, z) ==> z in seen
    ensures Complete(a, t0, t, gray, n, seen, members)
  {
    hide Inv, Exploring;
  }

  lemma EnterUnvisited(a: Adj, t: Search, gray: set<Block>, n: Block)
    requires Inv(a, t, gray) && n in a && !Visited(t, n)
    ensures UnvisitedIn(t.index[n := t.count]) < UnvisitedIn(t.index)
  {
    assert n in UnvisitedIn(t.index) && n !in UnvisitedIn(t.index[n := t.count]);
  }

  lemma SearchKeys(a: Adj, t: Search)
    requires Inv(a, t, {})
    ensures t.index.Keys == a.Keys
  {
  }

  lemma VisitedStays(a: Adj, t0: Search, t: Search, n: Block, low: int)
    requires VisitedWell(a, t0, t, n, low)
    ensures Visited(t, n) && forall x {:trigger Visited(t, x)} :: Visited(t0, x) ==> Visited(t, x)
  {
  }
}
