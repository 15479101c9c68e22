/** Nested loops: what is recorded while the bases of components are removed round by round. */
module LoopNest {
  import opened Cfg
  import opened Components
  import opened Sizes

  /** The graph on the remaining nodes. */
  ghost function Restrict(e: Adj, nodes: set<Block>): Adj {
    map x | x in e && x in nodes :: e[x] * nodes
  }

  /** Some arc leads from outside s to its member b. */
  ghost predicate IsBase(e: Adj, s: set<Block>, b: Block) {
    b in s && exists p {:trigger Arc(e, p, b)} :: p !in s && Arc(e, p, b)
  }

  ghost predicate HasEntry(e: Adj, s: set<Block>) {
    exists b :: IsBase(e, s, b)
  }

  ghost predicate AllEntered(e: Adj) {
    forall s {:trigger IsLoop(e, s)} :: IsLoop(e, s) ==> HasEntry(e, s)
  }

  /** Inside c alone, every member reaches every other: the node set of a closed walk, for example. */
  ghost predicate Strong(e: Adj, c: set<Block>) {
    forall x, y {:trigger Reach(Restrict(e, c), x, y)} :: x in c && y in c ==> Reach(Restrict(e, c), x, y)
  }

  // ----- restriction and reachability -----

  lemma {:induction false} PathWider(e: Adj, inner: set<Block>, outer: set<Block>, p: seq<Block>)
    requires IsPath(Restrict(e, inner), p) && inner <= outer
    ensures IsPath(Restrict(e, outer), p) && IsPath(e, p)
  {
    if |p| > 1 {
      PathWider(e, inner, outer, p[..|p| - 1]);
    }
  }

  lemma ReachWider(e: Adj, inner: set<Block>, outer: set<Block>, x: Block, y: Block)
    requires Reach(Restrict(e, inner), x, y) && inner <= outer
    ensures Reach(Restrict(e, outer), x, y) && Reach(e, x, y)
  {
    var p :| PathBetween(Restrict(e, inner), p, x, y);
    PathWider(e, inner, outer, p);
    assert PathBetween(Restrict(e, outer), p, x, y) && PathBetween(e, p, x, y);
  }

  lemma MutualWider(e: Adj, inner: set<Block>, outer: set<Block>, x: Block, y: Block)
    requires Mutual(Restrict(e, inner), x, y) && inner <= outer
    ensures Mutual(Restrict(e, outer), x, y) && Mutual(e, x, y)
  {
    ReachWider(e, inner, outer, x, y);
    ReachWider(e, inner, outer, y, x);
  }

  lemma RestrictClosed(e: Adj, nodes: set<Block>)
    requires Closed(e)
    ensures Closed(Restrict(e, nodes))
  {
  }

  lemma RestrictAll(e: Adj)
    requires Closed(e)
    ensures Restrict(e, e.Keys) == e
  {
    assert forall x :: x in e ==> e[x] * e.Keys == e[x];
  }

  /** A path from outside s into s takes an arc that enters s. */
  lemma {:induction false} PathEnters(e: Adj, s: set<Block>, p: seq<Block>)
    requires IsPath(e, p) && p[0] !in s && p[|p| - 1] in s
    ensures HasEntry(e, s)
  {
    if p[|p| - 2] in s {
      PathEnters(e, s, p[..|p| - 1]);
    } else {
      assert Arc(e, p[|p| - 2], p[|p| - 1]);
      assert IsBase(e, s, p[|p| - 1]);
    }
  }

  lemma ReachEnters(e: Adj, s: set<Block>, x: Block, y: Block)
    requires Reach(e, x, y) && x !in s && y in s
    ensures HasEntry(e, s)
  {
    var p :| PathBetween(e, p, x, y);
    PathEnters(e, s, p);
  }

  lemma LoopMembers(a: Adj, s: set<Block>, x: Block)
    requires IsLoop(a, s) && x in s
    ensures ComponentOf(a, s, x) && Reach(a, x, x)
  {
    var r :| ComponentOf(a, s, r);
    ComponentFrom(a, s, r, x);
    assert Mutual(a, x, x);
  }

  lemma {:induction false} PathNodes(a: Adj, p: seq<Block>)
    requires IsPath(a, p) && Closed(a)
    ensures p[0] in a && p[|p| - 1] in a
  {
    if |p| > 1 {
      PathNodes(a, p[..|p| - 1]);
    }
  }

  lemma LoopInGraph(a: Adj, s: set<Block>)
    requires IsLoop(a, s) && Closed(a)
    ensures s <= a.Keys && s != {}
  {
    forall x | x in s
      ensures x in a
    {
      LoopMembers(a, s, x);
      var p :| PathBetween(a, p, x, x);
      PathNodes(a, p);
    }
  }

  /** A strong set of two or more remaining nodes lies in one component of the remaining graph. */
  lemma StrongInLoop(e: Adj, nodes: set<Block>, c: set<Block>) returns (s: set<Block>)
    requires Strong(e, c) && |c| >= 2 && c <= nodes && nodes <= e.Keys && Closed(e)
    ensures IsLoop(Restrict(e, nodes), s) && c <= s
  {
    var a := Restrict(e, nodes);
    var r :| r in c;
    RestrictClosed(e, nodes);
    s := set x | x in nodes && Mutual(a, r, x);
    forall x | Mutual(a, r, x)
      ensures x in s
    {
      var p :| PathBetween(a, p, x, r);
      PathNodes(a, p);
    }
    ReachSelf(a, r);
    assert ComponentOf(a, s, r);
    forall x | x in c
      ensures x in s
    {
      assert Reach(Restrict(e, c), r, x) && Reach(Restrict(e, c), x, r);
      MutualWider(e, c, nodes, r, x);
    }
    SubsetSize(c, s);
  }

  /** If every loop of the whole graph is entered from outside, so is every loop of what remains. */
  lemma InnerEntered(e: Adj, nodes: set<Block>, s: set<Block>)
    requires Closed(e) && nodes <= e.Keys && IsLoop(Restrict(e, nodes), s)
    requires AllEntered(e)
    ensures HasEntry(e, s)
  {
    var a := Restrict(e, nodes);
    RestrictClosed(e, nodes);
    LoopInGraph(a, s);
    var r :| r in s;
    LoopMembers(a, s, r);
    var t := set x | x in e && Mutual(e, r, x);
    forall x | Mutual(e, r, x)
      ensures x in t
    {
      var p :| PathBetween(e, p, x, r);
      PathNodes(e, p);
    }
    ReachSelf(e, r);
    assert ComponentOf(e, t, r);
    forall x | x in s
      ensures x in t
    {
      assert Mutual(a, r, x);
      MutualWider(e, nodes, e.Keys, r, x);
    }
    SubsetSize(s, t);
    assert IsLoop(e, t);
    if s != t {
      var z :| z in t && z !in s;
      ReachEnters(e, s, z, r);
    }
  }

  /** Every member of a loop is the end of an arc. */
  lemma LoopHasArcs(e: Adj, s: set<Block>, x: Block)
    requires Closed(e) && IsLoop(e, s) && x in s
    ensures exists z {:trigger Arc(e, z, x)} :: Arc(e, z, x)
  {
    assert s != {x};
    var y :| y in s && y != x;
    LoopMembers(e, s, x);
    assert Mutual(e, x, y);
    var p :| PathBetween(e, p, y, x);
    assert Arc(e, p[|p| - 2], x);
  }

  /** In particular if all nodes can be reached from an entry that no arc leads to. */
  lemma ReachableLoopsEntered(e: Adj, entry: Block, s: set<Block>)
    requires Closed(e) && IsLoop(e, s)
    requires forall x {:trigger x in e} :: x in e ==> Reach(e, entry, x)
    requires forall x {:trigger Arc(e, x, entry)} :: !Arc(e, x, entry)
    ensures HasEntry(e, s)
  {
    LoopInGraph(e, s);
    var r :| r in s;
    if entry in s {
      LoopHasArcs(e, s, entry);
    }
    ReachEnters(e, s, entry, r);
  }

  // ----- the recorded loops -----

  type Loops = map<Block, set<Block>>

  /** s keeps mutually reachable remaining nodes together. */
  ghost predicate Separates(a: Adj, s: set<Block>) {
    forall x, y {:trigger Mutual(a, x, y)} :: Mutual(a, x, y) ==> (x in s <==> y in s)
  }

  ghost predicate Nested(s: set<Block>, t: set<Block>) {
    s !! t || s < t || t < s
  }

  /** The loop with base b: a component with two or more nodes of the graph that some set of nodes
      remaining at its time spans, entered from outside at its base. */
  ghost predicate LoopOk(e: Adj, nodes: set<Block>, b: Block, s: set<Block>) {
    && IsBase(e, s, b)
    && exists n {:trigger Restrict(e, n)} :: nodes <= n <= e.Keys && IsLoop(Restrict(e, n), s)
  }

  /** b names the smallest recorded loop that contains x. */
  ghost predicate Innermost(loops: Loops, x: Block, b: Block) {
    b in loops && x in loops[b] && forall c {:trigger loops[c]} :: c in loops && x in loops[c] ==> loops[b] <= loops[c]
  }

  /** Every recorded set is a loop, and no cycle of the round's graph leaves it. */
  ghost predicate LoopsOk(e: Adj, start: set<Block>, nodes: set<Block>, loops: Loops) {
    forall b {:trigger loops[b]} :: b in loops ==>
      LoopOk(e, nodes, b, loops[b]) && Separates(Restrict(e, start), loops[b])
  }

  /** Any two recorded loops are disjoint or strictly nested. */
  ghost predicate AllNested(loops: Loops) {
    forall b, c {:trigger loops[b], loops[c]} :: b in loops && c in loops && b != c ==> Nested(loops[b], loops[c])
  }

  /** inner is defined on the members of recorded loops, and names the smallest one. */
  ghost predicate InnerOk(loops: Loops, inner: map<Block, Block>) {
    && (forall x {:trigger x in inner} :: x in inner ==> Innermost(loops, x, inner[x]))
    && (forall b, x {:trigger x in loops[b]} :: b in loops && x in loops[b] ==> x in inner)
  }

  /** What holds while the components of the graph on `start` are recorded one by one; the bases, no
      longer among the nodes, are the keys of the recorded loops. */
  ghost predicate Recording(e: Adj, start: set<Block>, nodes: set<Block>, loops: Loops, inner: map<Block, Block>) {
    && Closed(e) && nodes <= start <= e.Keys && loops.Keys == e.Keys - nodes
    && LoopsOk(e, start, nodes, loops) && AllNested(loops) && InnerOk(loops, inner)
    && (forall b {:trigger loops[b]} :: b in loops && b in start ==> IsLoop(Restrict(e, start), loops[b]))
    && forall c {:trigger Strong(e, c)} :: Strong(e, c) && |c| >= 2 ==> c <= start || Recorded(loops, c)
  }

  /** c goes through the base of a recorded loop, and stays inside that loop. */
  ghost predicate Recorded(loops: Loops, c: set<Block>) {
    exists b :: b in loops && b in c && c <= loops[b]
  }

  // ----- recording preserves all this -----

  lemma RecordNone(e: Adj)
    requires Closed(e)
    ensures Recording(e, e.Keys, e.Keys, map[], map[])
  {
    forall c | Strong(e, c) && |c| >= 2
      ensures c <= e.Keys
    {
      forall x | x in c
        ensures x in e
      {
        assert Reach(Restrict(e, c), x, x);
        var p :| PathBetween(Restrict(e, c), p, x, x);
        RestrictClosed(e, c);
        PathNodes(Restrict(e, c), p);
      }
    }
  }

  /** A component of the round's graph lies inside every recorded loop it meets: the base of that loop
      is gone, so it lies strictly inside. */
  lemma NewInside(e: Adj, start: set<Block>, nodes: set<Block>, loops: Loops, s: set<Block>, c: Block)
    requires IsLoop(Restrict(e, start), s) && s <= nodes && c in loops && c !in nodes
    requires Separates(Restrict(e, start), loops[c]) && c in loops[c]
    ensures s !! loops[c] || s < loops[c]
  {
    if x :| x in s && x in loops[c] {
      forall y | y in s
        ensures y in loops[c]
      {
        LoopMembers(Restrict(e, start), s, x);
        assert Mutual(Restrict(e, start), x, y);
      }
    }
  }

  lemma LoopSeparates(a: Adj, s: set<Block>)
    requires IsLoop(a, s)
    ensures Separates(a, s)
  {
    forall x, y | Mutual(a, x, y)
      ensures x in s <==> y in s
    {
      if x in s {
        LoopMembers(a, s, x);
      }
      if y in s {
        LoopMembers(a, s, y);
        assert Mutual(a, y, x);
      }
    }
  }

  function WithBase(inner: map<Block, Block>, s: set<Block>, b: Block): map<Block, Block> {
    map x | x in inner.Keys + s :: if x in s then b else inner[x]
  }

  lemma NewLoopOk(e: Adj, start: set<Block>, nodes: set<Block>, loops: Loops, s: set<Block>, b: Block)
    requires nodes <= start <= e.Keys && b in nodes && b !in loops && LoopsOk(e, start, nodes, loops)
    requires IsLoop(Restrict(e, start), s) && IsBase(e, s, b)
    ensures LoopsOk(e, start, nodes - {b}, loops[b := s])
  {
    hide IsLoop, Reach, Separates;
    LoopSeparates(Restrict(e, start), s);
    assert LoopOk(e, nodes - {b}, b, s);
    forall c | c in loops
      ensures LoopOk(e, nodes - {b}, c, loops[c])
    {
      assert LoopOk(e, nodes, c, loops[c]);
      var n :| nodes <= n <= e.Keys && IsLoop(Restrict(e, n), loops[c]);
    }
  }

  ghost predicate InsideAll(loops: Loops, s: set<Block>) {
    forall c {:trigger loops[c]} :: c in loops ==> s !! loops[c] || s < loops[c]
  }

  lemma NewInsideAll(e: Adj, start: set<Block>, nodes: set<Block>, loops: Loops, inner: map<Block, Block>,
                     s: set<Block>)
    requires Recording(e, start, nodes, loops, inner) && IsLoop(Restrict(e, start), s) && s <= nodes
    ensures InsideAll(loops, s)
  {
    hide IsLoop, Reach, Separates, Strong, Recorded, InnerOk, AllNested;
    forall c | c in loops
      ensures s !! loops[c] || s < loops[c]
    {
      assert LoopOk(e, nodes, c, loops[c]);
      NewInside(e, start, nodes, loops, s, c);
    }
  }

  lemma NewNested(loops: Loops, s: set<Block>, b: Block)
    requires AllNested(loops) && InsideAll(loops, s) && b !in loops
    ensures AllNested(loops[b := s])
  {
    var loops' := loops[b := s];
    forall c, d | c in loops' && d in loops' && c != d
      ensures Nested(loops'[c], loops'[d])
    {
      if c != b && d != b {
        assert Nested(loops[c], loops[d]);
      } else {
        assert InsideAll(loops, s);
      }
    }
  }

  lemma NewInner(loops: Loops, inner: map<Block, Block>, s: set<Block>, b: Block)
    requires InnerOk(loops, inner) && InsideAll(loops, s) && b !in loops && b in s
    ensures InnerOk(loops[b := s], WithBase(inner, s, b))
  {
    var loops', inner' := loops[b := s], WithBase(inner, s, b);
    forall x | x in inner'
      ensures Innermost(loops', x, inner'[x])
    {
      if x in s {
        forall c | c in loops' && x in loops'[c]
          ensures s <= loops'[c]
        {
          if c != b {
            assert s !! loops[c] || s < loops[c];
          }
        }
      } else {
        assert Innermost(loops, x, inner[x]);
      }
    }
  }

  lemma RecordOne(e: Adj, start: set<Block>, nodes: set<Block>, loops: Loops, inner: map<Block, Block>, s: set<Block>,
                  b: Block)
    requires Recording(e, start, nodes, loops, inner)
    requires IsLoop(Restrict(e, start), s) && s <= nodes && IsBase(e, s, b)
    ensures Recording(e, start, nodes - {b}, loops[b := s], WithBase(inner, s, b))
  {
    hide IsLoop, Reach, Strong, LoopsOk, AllNested, InnerOk;
    NewLoopOk(e, start, nodes, loops, s, b);
    NewInsideAll(e, start, nodes, loops, inner, s);
    NewNested(loops, s, b);
    NewInner(loops, inner, s, b);
    forall c | Strong(e, c) && |c| >= 2
      ensures c <= start || Recorded(loops[b := s], c)
    {
      if !(c <= start) {
        var d :| d in loops && d in c && c <= loops[d];
        assert loops[b := s][d] == loops[d];
      }
    }
  }

  /** A base that was removed in this round, and all strong sets of the round's graph through it. */
  lemma BaseHolds(e: Adj, start: set<Block>, nodes: set<Block>, loops: Loops, inner: map<Block, Block>, c: set<Block>,
                  b: Block)
    requires Recording(e, start, nodes, loops, inner) && Strong(e, c) && |c| >= 2 && c <= start && b in c && b !in nodes
    ensures b in loops && c <= loops[b]
  {
    hide Strong, AllNested, InnerOk, Separates, Reach;
    var s := StrongInLoop(e, start, c);
    assert LoopOk(e, nodes, b, loops[b]);
    if loops[b] != s {
      LoopsApart(Restrict(e, start), loops[b], s, b);
    }
  }

  /** When all components are recorded, every strong set of the round's graph has either lost the base of
      its component, which has been recorded, or remains. */
  lemma RoundEnd(e: Adj, start: set<Block>, nodes: set<Block>, loops: Loops, inner: map<Block, Block>)
    requires Recording(e, start, nodes, loops, inner)
    requires forall s :: IsLoop(Restrict(e, start), s) ==> AtBase(loops, s)
    ensures Recording(e, nodes, nodes, loops, inner)
  {
    hide IsLoop, Reach, HasEntry, LoopOk, Innermost;
    forall b | b in loops
      ensures Separates(Restrict(e, nodes), loops[b])
    {
      forall x, y | Mutual(Restrict(e, nodes), x, y)
        ensures x in loops[b] <==> y in loops[b]
      {
        MutualWider(e, nodes, start, x, y);
      }
    }
    forall c | Strong(e, c) && |c| >= 2
      ensures c <= nodes || Recorded(loops, c)
    {
      if c <= start && !(c <= nodes) {
        var b :| b in c && b !in nodes;
        BaseHolds(e, start, nodes, loops, inner, c, b);
      }
    }
  }

  /** Once the remaining graph has no loop, every strong set of two or more nodes is in a recorded one. */
  lemma AllRecorded(e: Adj, nodes: set<Block>, loops: Loops, inner: map<Block, Block>, c: set<Block>)
    requires Recording(e, nodes, nodes, loops, inner) && Strong(e, c) && |c| >= 2
    requires forall s :: !IsLoop(Restrict(e, nodes), s)
    ensures Recorded(loops, c)
  {
    if c <= nodes {
      var s := StrongInLoop(e, nodes, c);
    }
  }

  // ----- cycles -----

  lemma {:induction false} PathInside(e: Adj, p: seq<Block>, c: set<Block>)
    requires IsPath(e, p) && forall i {:trigger p[i]} :: 0 <= i < |p| ==> p[i] in c
    ensures IsPath(Restrict(e, c), p)
  {
    if |p| > 1 {
      PathInside(e, p[..|p| - 1], c);
    }
  }

  lemma {:induction false} PathPrefix(a: Adj, p: seq<Block>, k: nat)
    requires IsPath(a, p) && k < |p|
    ensures Reach(a, p[0], p[k])
  {
    if k == |p| - 1 {
      assert PathBetween(a, p, p[0], p[k]);
    } else {
      PathPrefix(a, p[..|p| - 1], k);
    }
  }

  lemma {:induction false} PathSuffix(a: Adj, p: seq<Block>, k: nat)
    requires IsPath(a, p) && k < |p| && Closed(a)
    ensures Reach(a, p[k], p[|p| - 1])
  {
    if k == |p| - 1 {
      PathNodes(a, p);
      ReachSelf(a, p[k]);
    } else {
      PathSuffix(a, p[..|p| - 1], k);
      ReachSnoc(a, p[k], p[|p| - 2], p[|p| - 1]);
    }
  }

  /** The blocks of a cycle form a strong set. */
  lemma CycleIsStrong(e: Adj, p: seq<Block>, c: set<Block>)
    requires Closed(e) && IsPath(e, p) && p[0] == p[|p| - 1] && c == set x | x in p
    ensures Strong(e, c)
  {
    PathInside(e, p, c);
    var a := Restrict(e, c);
    RestrictClosed(e, c);
    forall x, y | x in c && y in c
      ensures Reach(a, x, y)
    {
      var i :| 0 <= i < |p| && p[i] == x;
      var j :| 0 <= j < |p| && p[j] == y;
      PathSuffix(a, p, i);
      PathPrefix(a, p, j);
      ReachTrans(a, x, p[0], y);
    }
  }

  // ----- the mutable copy of the CFG -----

  /** When every block can be reached from an entry without predecessors, every loop has a base. */
  lemma ReachableGraphEntered(g: Graph)
    requires g.Valid() && g.preds[g.entry] == [] && forall b: Block :: g.HasBlock(b) ==> g.Reachable(b)
    ensures AllEntered(AdjOf(g))
  {
    var e := AdjOf(g);
    forall b | b in e
      ensures Reach(e, g.entry, b)
    {
      var p :| g.TrailTo(p, b);
      TrailIsPath(g, p);
      assert PathBetween(e, p, g.entry, b);
    }
    forall x
      ensures !Arc(e, x, g.entry)
    {
      assert !g.Edge(x, g.entry);
    }
    forall s | IsLoop(e, s)
      ensures HasEntry(e, s)
    {
      ReachableLoopsEntered(e, g.entry, s);
    }
  }

  /** The remaining nodes keep exactly the arcs among themselves; a removed node keeps at least its arcs
      to them, and gains none. */
  ghost predicate Edges(e: Adj, nodes: set<Block>, succs: Adj, prevs: Adj) {
    && nodes <= e.Keys && e.Keys == succs.Keys == prevs.Keys
    && (forall n {:trigger succs[n]} :: n in nodes ==> succs[n] == e[n] * nodes)
    && (forall n, p {:trigger p in prevs[n]} :: n in nodes ==> (p in prevs[n] <==> p in nodes && Arc(e, p, n)))
    && (forall r {:trigger succs[r]} :: r in e.Keys - nodes ==> e[r] * nodes <= succs[r] <= e[r])
  }

  /** An arc to a remaining node is still visible from one of its ends. */
  lemma EdgesKept(e: Adj, nodes: set<Block>, succs: Adj, prevs: Adj, p: Block, b: Block)
    requires Edges(e, nodes, succs, prevs) && Arc(e, p, b) && b in nodes
    ensures if p in nodes then p in prevs[b] else b in succs[p]
  {
  }

  function Without(m: Adj, at: set<Block>, b: Block): Adj {
    map x | x in m :: if x in at then m[x] - {b} else m[x]
  }

  lemma EdgesKeys(e: Adj, nodes: set<Block>, succs: Adj, prevs: Adj, b: Block)
    requires Edges(e, nodes, succs, prevs) && b in nodes
    ensures b in succs && b in prevs && succs[b] <= prevs.Keys && prevs[b] - {b} <= prevs[b] <= succs.Keys
    ensures b in Without(prevs, succs[b], b) && Without(prevs, succs[b], b)[b] <= succs.Keys
  {
  }

  /** Removing a node from its neighbours keeps all this. */
  lemma EdgesWithout(e: Adj, nodes: set<Block>, succs: Adj, prevs: Adj, b: Block)
    requires Edges(e, nodes, succs, prevs) && b in nodes && b in succs && b in Without(prevs, succs[b], b)
    ensures var prevs' := Without(prevs, succs[b], b); Edges(e, nodes - {b}, Without(succs, prevs'[b], b), prevs')
  {
    var prevs' := Without(prevs, succs[b], b);
    var succs' := Without(succs, prevs'[b], b);
    var nodes' := nodes - {b};
    forall n | n in nodes'
      ensures succs'[n] == e[n] * nodes'
    {
      assert n in prevs[b] <==> Arc(e, n, b);
    }
    forall n, p | n in nodes'
      ensures p in prevs'[n] <==> p in nodes' && Arc(e, p, n)
    {
      assert n in succs[b] <==> Arc(e, b, n);
      assert p in prevs[n] <==> p in nodes && Arc(e, p, n);
    }
  }

  // ----- the result tables -----

  /** loop2base and base2loop are inverse to each other, and hold exactly the loops in loopSet. */
  ghost predicate Tables(loopSet: set<set<Block>>, base2loop: Loops, loop2base: map<set<Block>, Block>) {
    && loopSet == loop2base.Keys
    && (forall s {:trigger s in loop2base} :: s in loop2base ==>
         loop2base[s] in base2loop && base2loop[loop2base[s]] == s)
    && (forall b {:trigger base2loop[b]} :: b in base2loop ==>
         base2loop[b] in loop2base && loop2base[base2loop[b]] == b)
  }

  lemma NewTables(loopSet: set<set<Block>>, base2loop: Loops, loop2base: map<set<Block>, Block>, s: set<Block>,
                  b: Block)
    requires Tables(loopSet, base2loop, loop2base) && b !in base2loop
    requires forall c {:trigger base2loop[c]} :: c in base2loop ==> base2loop[c] != s
    ensures s !in loop2base && Tables(loopSet + {s}, base2loop[b := s], loop2base[s := b])
  {
  }

  lemma NewLoopFacts(e: Adj, start: set<Block>, nodes: set<Block>, loops: Loops, inner: map<Block, Block>,
                     s: set<Block>, b: Block)
    requires Recording(e, start, nodes, loops, inner) && IsLoop(Restrict(e, start), s) && s <= nodes && IsBase(e, s, b)
    ensures b in s && b in nodes && b !in loops && HasEntry(e, s)
    ensures forall c {:trigger loops[c]} :: c in loops ==> loops[c] != s
  {
    NewInsideAll(e, start, nodes, loops, inner, s);
    hide IsLoop, LoopsOk, AllNested, InnerOk, Strong, Recorded;
    assert b in s;
    assert InsideAll(loops, s);
  }

  lemma RecordingFacts(e: Adj, start: set<Block>, nodes: set<Block>, loops: Loops, inner: map<Block, Block>)
    requires Recording(e, start, nodes, loops, inner)
    ensures nodes <= start <= e.Keys && loops.Keys == e.Keys - nodes && Closed(e)
    ensures forall s {:trigger IsLoop(Restrict(e, start), s)} :: IsLoop(Restrict(e, start), s) ==> s <= start
  {
    forall s | IsLoop(Restrict(e, start), s)
      ensures s <= start
    {
      RestrictClosed(e, start);
      LoopInGraph(Restrict(e, start), s);
    }
  }

  ghost predicate AtBase(loops: Loops, s: set<Block>) {
    exists b :: b in loops && loops[b] == s
  }

  lemma StillAtBase(loops: Loops, b: Block, s: set<Block>)
    requires b !in loops
    ensures AtBase(loops[b := s], s) && forall t {:trigger AtBase(loops, t)} :: AtBase(loops, t) ==>
      AtBase(loops[b := s], t)
  {
    assert loops[b := s][b] == s;
    forall t | AtBase(loops, t)
      ensures AtBase(loops[b := s], t)
    {
      var c :| c in loops && loops[c] == t;
      assert loops[b := s][c] == t;
    }
  }

  lemma LoopsApart(a: Adj, s: set<Block>, t: set<Block>, x: Block)
    requires IsLoop(a, s) && IsLoop(a, t) && s != t && x in s
    ensures x !in t
  {
    if x in t {
      ComponentsMeet(a, s, t, x);
    }
  }

  // ----- for the pass -----

  lemma CfgEdges(g: Graph, nodes: set<Block>, succs: Adj, prevs: Adj)
    requires g.Valid() && nodes == succs.Keys == prevs.Keys && forall x: Block {:trigger x in nodes} :: x in nodes <==>
      x < |g.succs|
    requires forall x: Block {:trigger succs[x]} :: x < |g.succs| ==> succs[x] == set y | y in g.succs[x]
    requires forall x: Block {:trigger prevs[x]} :: x < |g.succs| ==> prevs[x] == set y | y in g.preds[x]
    ensures nodes == AdjOf(g).Keys && Edges(AdjOf(g), nodes, succs, prevs)
  {
    var e := AdjOf(g);
    assert forall x :: x in e <==> x in nodes;
    forall n | n in nodes
      ensures succs[n] == e[n] * nodes
    {
      assert forall y :: y in e[n] ==> y in nodes;
    }
    forall n, p | n in nodes
      ensures p in prevs[n] <==> p in nodes && Arc(e, p, n)
    {
      assert g.Edge(p, n) <==> p in g.preds[n];
    }
  }

  lemma NoTables()
    ensures Tables({}, map[], map[])
  {
  }

  lemma SearchedGraph(e: Adj, nodes: set<Block>, succs: Adj, prevs: Adj)
    requires Edges(e, nodes, succs, prevs) && Closed(e)
    ensures var a := Restrict(e, nodes); Closed(a) && a.Keys == nodes && nodes <= succs.Keys
    ensures var a := Restrict(e, nodes); forall x {:trigger a[x]} {:trigger succs[x]} :: x in a ==> succs[x] == a[x]
  {
  }

  lemma NotEntered(e: Adj, nodes: set<Block>, sccs: set<set<Block>>)
    requires Closed(e) && nodes <= e.Keys && forall s {:trigger s in sccs} :: s in sccs ==>
      IsLoop(Restrict(e, nodes), s)
    requires exists s :: s in sccs && !HasEntry(e, s)
    ensures !AllEntered(e)
  {
    var s :| s in sccs && !HasEntry(e, s);
    if AllEntered(e) {
      InnerEntered(e, nodes, s);
    }
  }

  lemma RoundEntered(e: Adj, nodes: set<Block>, sccs: set<set<Block>>)
    requires Closed(e) && nodes <= e.Keys && (nodes == e.Keys || AllEntered(e))
    requires forall s {:trigger IsLoop(Restrict(e, nodes), s)} :: IsLoop(Restrict(e, nodes), s) ==> s in sccs
    requires forall s {:trigger s in sccs} :: s in sccs ==> HasEntry(e, s)
    ensures AllEntered(e)
  {
    RestrictAll(e);
    if nodes == e.Keys {
      forall s | IsLoop(e, s)
        ensures HasEntry(e, s)
      {
        assert IsLoop(Restrict(e, nodes), s);
      }
    }
  }

  lemma FinalResults(e: Adj, nodes: set<Block>, loops: Loops, inner: map<Block, Block>)
    requires Recording(e, nodes, nodes, loops, inner)
    requires forall s {:trigger IsLoop(Restrict(e, nodes), s)} :: !IsLoop(Restrict(e, nodes), s)
    ensures AllNested(loops) && InnerOk(loops, inner)
    ensures forall b :: b in loops ==> LoopOk(e, nodes, b, loops[b])
    ensures forall c :: Strong(e, c) && |c| >= 2 ==> Recorded(loops, c)
  {
    hide IsLoop, LoopOk, AllNested, InnerOk, Strong, Recorded;
    forall c | Strong(e, c) && |c| >= 2
      ensures Recorded(loops, c)
    {
      AllRecorded(e, nodes, loops, inner, c);
    }
  }

  // ----- a loop without an entry -----

  /** The entry block in a loop with the only other block. */
  lemma NoBase()
    ensures BackEdge().Valid() && IsLoop(AdjOf(BackEdge()), {0, 1}) && !HasEntry(AdjOf(BackEdge()), {0, 1})
  {
    BackEdgeArcs();
    var e := AdjOf(BackEdge());
    assert Arc(e, 0, 1) && Arc(e, 1, 0);
    ReachArc(e, 0, 1);
    ReachArc(e, 1, 0);
    ReachSelf(e, 0);
    forall x | Mutual(e, 0, x)
      ensures x in {0, 1}
    {
      var p :| PathBetween(e, p, 0, x);
      PathNodes(e, p);
    }
    assert ComponentOf(e, {0, 1}, 0);
  }

  lemma BackEdgeArcs()
    ensures BackEdge().Valid() && AdjOf(BackEdge()) == map[0 := {1}, 1 := {0}]
  {
    BackEdges();
    var g := BackEdge();
    assert AdjOf(g)[0] == {1} && AdjOf(g)[1] == {0};
  }
}
