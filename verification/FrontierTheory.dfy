/** What the runner walks of the dominance-frontier construction visit. */
module FrontierTheory {
  import opened Cfg
  import opened IdomTheory
  import opened PostOrder

  /** A null entry reads as None, and so does the entry of null. */
  function GetIdom(w: Links, b: Block): Option<Block> {
    if b in w then Some(w[b]) else None
  }

  /** The blocks a runner still has to visit before it stops at the idom of b. */
  ghost function Ahead(t: Numbering, w: Links, b: Block, runner: Option<Block>): set<Block> {
    match runner
    case None => {}
    case Some(r) => if b in w then Chain(t, w, r) - Chain(t, w, w[b]) else {r}
  }

  /** The blocks the walk from predecessor p of b adds b to. */
  ghost function Walked(t: Numbering, w: Links, b: Block, p: Block): set<Block> {
    Ahead(t, w, b, Some(p))
  }

  ghost predicate RunnerOk(g: Graph, t: Numbering, w: Links, b: Block, runner: Option<Block>) {
    match runner
    case None => b !in w
    case Some(r) =>
      && r < |g.succs|
      && if b in w then r in w && w[b] in Chain(t, w, r) else r !in w
  }

  lemma WalkEnd(t: Numbering, w: Links, b: Block)
    ensures Ahead(t, w, b, GetIdom(w, b)) == {}
  {
  }

  lemma WalkStart(g: Graph, t: Numbering, w: Links, b: Block, p: Block)
    requires ValidNumbering(g, t) && Rising(g, t, w) && Exact(g, t, w) && g.Edge(p, b) && (p in w <==> b in w)
    ensures RunnerOk(g, t, w, b, Some(p)) && Walked(t, w, b, p) == Ahead(t, w, b, Some(p))
  {
    if b in w && b != g.entry {
      assert Up(t, w, b);
      assert w[b] in Chain(t, w, b);
      DominatesPred(g, w[b], p, b);
    } else if b in w {
      ChainReachesEntry(g, t, w, p);
    }
  }

  lemma NotAbove(t: Numbering, w: Links, b: Block)
    requires Up(t, w, b)
    ensures b !in Chain(t, w, w[b])
  {
    if b in Chain(t, w, w[b]) {
      ChainAbove(t, w, w[b], b);
    }
  }

  lemma WalkStep(g: Graph, t: Numbering, w: Links, b: Block, runner: Option<Block>)
    requires ValidNumbering(g, t) && Rising(g, t, w) && RunnerOk(g, t, w, b, runner) && runner != GetIdom(w, b)
    ensures runner.Some? && RunnerOk(g, t, w, b, GetIdom(w, runner.value)) && runner.value < |g.succs|
    ensures runner.value !in Ahead(t, w, b, GetIdom(w, runner.value))
    ensures Ahead(t, w, b, runner) == Ahead(t, w, b, GetIdom(w, runner.value)) + {runner.value}
  {
    var r := runner.value;
    if b in w {
      ChainAbove(t, w, r, w[b]);
      assert w[r] in t.id;
      NotAbove(t, w, r);
      ChainTransitive(t, w, w[r], w[b]);
    }
  }

  type Frontiers = map<Block, set<Block>>

  /** F is F0 with b added to the frontier of every block in s. */
  ghost predicate Added(g: Graph, f0: Frontiers, f: Frontiers, b: Block, s: set<Block>) {
    && f0.Keys == f.Keys == Blocks(g)
    && forall x {:trigger f[x]} :: x in f ==> f[x] == f0[x] + if x in s then {b} else {}
  }

  lemma AddedNone(g: Graph, f: Frontiers, b: Block)
    requires f.Keys == Blocks(g)
    ensures Added(g, f, f, b, {})
  {
  }

  lemma AddedMore(g: Graph, f0: Frontiers, f: Frontiers, b: Block, s: set<Block>, x: Block, s': set<Block>)
    requires Added(g, f0, f, b, s) && x < |g.succs| && s' == s + {x}
    ensures x in f && Added(g, f0, f[x := f[x] + {b}], b, s')
  {
    assert x in Blocks(g);
  }

  /** Some listed predecessor's walk visits x. */
  ghost predicate SomeWalk(t: Numbering, w: Links, b: Block, ps: seq<Block>, x: Block) {
    exists i :: 0 <= i < |ps| && x in Walked(t, w, b, ps[i])
  }

  lemma SomeWalkMore(t: Numbering, w: Links, b: Block, ps: seq<Block>, p: Block, x: Block)
    ensures SomeWalk(t, w, b, ps + [p], x) <==> SomeWalk(t, w, b, ps, x) || x in Walked(t, w, b, p)
  {
    assert (ps + [p])[|ps|] == p;
    if SomeWalk(t, w, b, ps, x) {
      var i :| 0 <= i < |ps| && x in Walked(t, w, b, ps[i]);
      assert (ps + [p])[i] == ps[i];
    }
  }

  /** What the construction computes once it has dealt with the blocks below n and, of block n, with
      the predecessors ps. */
  ghost predicate Constructed(g: Graph, t: Numbering, w: Links, f: Frontiers, n: Block, ps: seq<Block>) {
    && f.Keys == Blocks(g)
    && forall x, b: Block {:trigger b in f[x]} :: x in f ==>
         (b in f[x] <==>
            if b < n && b < |g.preds| then |g.preds[b]| >= 2 && SomeWalk(t, w, b, g.preds[b], x)
            else b == n && SomeWalk(t, w, b, ps, x))
  }

  ghost predicate AllEmpty(g: Graph, f: Frontiers) {
    f.Keys == Blocks(g) && forall b :: b in f ==> f[b] == {}
  }

  lemma ConstructedStart(g: Graph, t: Numbering, w: Links, f: Frontiers)
    requires AllEmpty(g, f)
    ensures Constructed(g, t, w, f, 0, [])
  {
  }

  lemma ConstructedMore(g: Graph, t: Numbering, w: Links, f0: Frontiers, f: Frontiers, n: Block, ps: seq<Block>,
                        p: Block)
    requires Constructed(g, t, w, f0, n, ps) && Added(g, f0, f, n, Walked(t, w, n, p))
    ensures Constructed(g, t, w, f, n, ps + [p])
  {
    hide Walked, Blocks, SomeWalk;
    forall x, b: Block | x in f
      ensures b in f[x] <==>
        if b < n && b < |g.preds| then |g.preds[b]| >= 2 && SomeWalk(t, w, b, g.preds[b], x)
        else b == n && SomeWalk(t, w, b, ps + [p], x)
    {
      SomeWalkMore(t, w, n, ps, p, x);
      assert b in f[x] <==> b in f0[x] || (b == n && x in Walked(t, w, n, p));
    }
  }

  lemma ConstructedNext(g: Graph, t: Numbering, w: Links, f: Frontiers, n: Block, ps: seq<Block>)
    requires Constructed(g, t, w, f, n, ps) && n < |g.preds|
    requires ps == if |g.preds[n]| >= 2 then g.preds[n] else []
    ensures Constructed(g, t, w, f, n + 1, [])
  {
    hide Walked, Blocks;
  }

  // ----- the constructed frontier is the dominance frontier -----

  /** Where the construction and the textbook definition can differ: only at the entry block, which
      is its own idom and is looked at only if it is a join. */
  predicate FrontierGuard(g: Graph, x: Block, b: Block)
    requires b < |g.preds|
  {
    b == g.entry ==> x != g.entry && |g.preds[b]| >= 2
  }

  /** No reachable join block has an unreachable predecessor. */
  ghost predicate NoStrayPreds(g: Graph) {
    forall p: Block, b: Block {:trigger g.Edge(p, b)} ::
      g.Edge(p, b) && b < |g.preds| && |g.preds[b]| >= 2 && g.Reachable(b) ==> g.Reachable(p)
  }

  lemma {:induction false} ChainMinusRoot(g: Graph, t: Numbering, w: Links, b: Block)
    requires ValidNumbering(g, t) && Rising(g, t, w) && b in w && b != g.entry
    ensures Up(t, w, b) && b !in Chain(t, w, w[b]) && Chain(t, w, b) == {b} + Chain(t, w, w[b])
  {
    assert Up(t, w, b);
    NotAbove(t, w, b);
  }

  /** A reachable block other than the entry has a reachable predecessor, and if that is its only
      one, every dominator of the predecessor strictly dominates the block. */
  lemma OnlyPred(g: Graph, x: Block, p: Block, b: Block)
    requires g.Valid() && b != g.entry && g.Edge(p, b) && |g.preds[b]| < 2 && g.Dominates(x, p) && g.Reachable(p)
    ensures g.StrictlyDominates(x, b)
  {
    forall q | g.TrailTo(q, b)
      ensures x in q[..|q| - 1]
    {
      assert g.Edge(q[|q| - 2], b);
      assert g.preds[b] == [p];
      assert g.TrailTo(q[..|q| - 1], p);
    }
    if x == b {
      var q :| g.TrailTo(q, p);
      TrailSnoc(g, q, b);
      NoTrailThroughItself(g, q, b, p);
    }
  }

  lemma {:induction false} NoTrailThroughItself(g: Graph, q: seq<Block>, b: Block, p: Block)
    requires g.IsTrail(q) && b in q
    requires forall r :: g.TrailTo(r, b) ==> b in r[..|r| - 1]
    ensures false
  {
    if q[|q| - 1] == b {
      assert g.TrailTo(q, b);
    }
    if |q| > 1 {
      NoTrailThroughItself(g, q[..|q| - 1], b, p);
    }
  }

  lemma FrontierExact(g: Graph, t: Numbering, w: Links, f: Frontiers, x: Block, b: Block)
    requires ValidNumbering(g, t) && Rising(g, t, w) && Exact(g, t, w) && NoStrayPreds(g)
    requires Constructed(g, t, w, f, |g.succs|, []) && x in w && b < |g.succs|
    ensures x in f && (b in f[x] <==> g.InFrontier(x, b) && FrontierGuard(g, x, b))
  {
    assert x in Blocks(g);
    if b in f[x] {
      var i :| 0 <= i < |g.preds[b]| && x in Walked(t, w, b, g.preds[b][i]);
      var p := g.preds[b][i];
      assert g.Edge(p, b);
      WalkedDominates(g, t, w, b, p, x);
    }
    if g.InFrontier(x, b) && FrontierGuard(g, x, b) {
      var p :| g.Edge(p, b) && g.Reachable(p) && g.Dominates(x, p);
      ReachableStep(g, p, b);
      if |g.preds[b]| < 2 {
        OnlyPred(g, x, p, b);
      }
      DominatesWalked(g, t, w, b, p, x);
      var i :| 0 <= i < |g.preds[b]| && g.preds[b][i] == p;
    }
  }

  lemma WalkedDominates(g: Graph, t: Numbering, w: Links, b: Block, p: Block, x: Block)
    requires ValidNumbering(g, t) && Rising(g, t, w) && Exact(g, t, w) && NoStrayPreds(g)
    requires g.Edge(p, b) && |g.preds[b]| >= 2 && x in w && x in Walked(t, w, b, p)
    ensures g.InFrontier(x, b) && FrontierGuard(g, x, b)
  {
    assert g.Reachable(b) <==> b in w;
    assert g.Reachable(p) <==> p in w;
    if b !in w {
      ReachableStep(g, p, b);
    }
    if b != g.entry {
      ChainMinusRoot(g, t, w, b);
    } else {
      EntryOnlyDominator(g, x);
    }
  }

  lemma DominatesWalked(g: Graph, t: Numbering, w: Links, b: Block, p: Block, x: Block)
    requires ValidNumbering(g, t) && Rising(g, t, w) && Exact(g, t, w) && g.Reachable(b)
    requires g.Edge(p, b) && g.Reachable(p) && g.Dominates(x, p) && !g.StrictlyDominates(x, b)
    requires b == g.entry ==> x != g.entry
    ensures x in Walked(t, w, b, p)
  {
    assert b in w && p in w;
    if b != g.entry {
      ChainMinusRoot(g, t, w, b);
    }
  }

  // ----- when the walk stops at all -----

  /** The runner after k steps. */
  ghost function RunnerAfter(w: Links, runner: Option<Block>, k: nat): Option<Block>
    decreases k
  {
    if k == 0 then runner
    else match runner
      case None => None
      case Some(r) => RunnerAfter(w, GetIdom(w, r), k - 1)
  }

  lemma {:induction false} WalkReaches(g: Graph, t: Numbering, w: Links, p: Block, e: Block) returns (k: nat)
    requires Rising(g, t, w) && e in Chain(t, w, p)
    ensures RunnerAfter(w, Some(p), k) == Some(e)
    decreases if p in t.id then t.top - t.id[p] else 0
  {
    if e == p {
      k := 0;
    } else {
      k := WalkReaches(g, t, w, w[p], e);
      k := k + 1;
    }
  }

  /** The walk from predecessor p reaches the idom of b exactly when p and b are both reachable or
      both not: a reachable join with an unreachable predecessor makes it run for ever. */
  lemma WalkStopsIff(g: Graph, t: Numbering, w: Links, b: Block, p: Block)
    requires ValidNumbering(g, t) && Rising(g, t, w) && Exact(g, t, w) && g.Edge(p, b)
    ensures (exists k: nat :: RunnerAfter(w, Some(p), k) == GetIdom(w, b)) <==> (g.Reachable(p) <==> g.Reachable(b))
  {
    assert g.Reachable(b) <==> b in w;
    assert g.Reachable(p) <==> p in w;
    if p in w && b in w {
      WalkStart(g, t, w, b, p);
      var k := WalkReaches(g, t, w, p, w[b]);
    } else if p in w {
      ReachableStep(g, p, b);
    } else {
      assert RunnerAfter(w, Some(p), 1) == RunnerAfter(w, None, 0) == None;
      if b in w {
        assert b == g.entry || Up(t, w, b);
        forall k: nat
          ensures RunnerAfter(w, Some(p), k) != Some(w[b])
        {
          if k > 0 {
            assert RunnerAfter(w, None, k - 1) == None;
          }
        }
      }
    }
  }

  lemma ConstructedKeys(g: Graph, t: Numbering, w: Links, f: Frontiers, n: Block, ps: seq<Block>)
    requires Constructed(g, t, w, f, n, ps)
    ensures f.Keys == Blocks(g)
  {
  }

  lemma PredsAreEdges(g: Graph, b: Block)
    requires g.Valid() && b < |g.preds|
    ensures forall i :: 0 <= i < |g.preds[b]| ==> g.Edge(g.preds[b][i], b)
  {
  }

  lemma StraySides(g: Graph, t: Numbering, w: Links, b: Block, p: Block)
    requires ValidNumbering(g, t) && Exact(g, t, w) && NoStrayPreds(g) && g.Edge(p, b) && b < |g.preds|
    requires |g.preds[b]| >= 2
    ensures p in w <==> b in w
  {
    assert g.Reachable(b) <==> b in w;
    assert g.Reachable(p) <==> p in w;
    if p in w {
      ReachableStep(g, p, b);
    }
  }

  // ----- the three results, in terms of the graph alone -----

  /** Reachable blocks and no others have an entry: their immediate dominator. */
  ghost predicate IdomCorrect(g: Graph, w: Links) {
    && (forall b: Block {:trigger g.Reachable(b)} :: b in w <==> g.Reachable(b))
    && g.entry in w && w[g.entry] == g.entry
    && (forall b {:trigger g.IsImmediateDominator(w[b], b)} :: b in w && b != g.entry ==>
         g.IsImmediateDominator(w[b], b))
  }

  /** The blocks with several predecessors. */
  ghost function Joins(g: Graph): set<Block> {
    set b | b in Blocks(g) && b < |g.preds| && |g.preds[b]| >= 2
  }

  /** Reachable blocks have their dominance frontiers; the others the joins they lead to. */
  ghost predicate FrontierCorrect(g: Graph, f: Frontiers) {
    && f.Keys == Blocks(g)
    && (forall x {:trigger f[x]} :: x in f ==> f[x] <= Joins(g))
    && (forall x, b {:trigger b in f[x]} :: x in f && !g.Reachable(x) ==>
         (b in f[x] <==> g.Edge(x, b) && b in Joins(g)))
    && forall x: Block, b: Block {:trigger g.InFrontier(x, b)} :: g.Reachable(x) && b < |g.succs| && b < |g.preds| ==>
      x in f && (b in f[x] <==> g.InFrontier(x, b) && FrontierGuard(g, x, b))
  }

  ghost predicate TreeCorrect(g: Graph, w: Links, succ: Frontiers) {
    && succ.Keys == Blocks(g)
    && forall a, b: Block {:trigger b in succ[a]} :: a in succ ==>
         (b in succ[a] <==> b != g.entry && b in w && w[b] == a)
  }

  lemma ResultsCorrect(g: Graph, t: Numbering, w: Links, f: Frontiers)
    requires ValidNumbering(g, t) && Rising(g, t, w) && Exact(g, t, w) && NoStrayPreds(g)
    requires Constructed(g, t, w, f, |g.succs|, [])
    ensures IdomCorrect(g, w) && FrontierCorrect(g, f)
    ensures forall b :: b in w ==> b < |g.succs| && w[b] < |g.succs|
    ensures forall b {:trigger w[b]} :: b in w && b != g.entry ==> w[b] != b
  {
    ExactFacts(g, t, w);
    RootLink(g, t, w);
    FrontiersExact(g, t, w, f);
    hide *;
  }

  lemma FrontiersExact(g: Graph, t: Numbering, w: Links, f: Frontiers)
    requires ValidNumbering(g, t) && Rising(g, t, w) && Exact(g, t, w) && NoStrayPreds(g)
    requires Constructed(g, t, w, f, |g.succs|, [])
    ensures FrontierCorrect(g, f)
  {
    hide Constructed, SomeWalk, Exact, Rising, ValidNumbering;
    ExactFacts(g, t, w);
    ConstructedInRange(g, t, w, f);
    forall x: Block, b: Block | g.Reachable(x) && b < |g.succs| && b < |g.preds|
      ensures x in f && (b in f[x] <==> g.InFrontier(x, b) && FrontierGuard(g, x, b))
    {
      FrontierExact(g, t, w, f, x, b);
    }
    forall x, b | x in f && !g.Reachable(x)
      ensures b in f[x] <==> g.Edge(x, b) && b in Joins(g)
    {
      UnreachableFrontier(g, t, w, f, x, b);
    }
  }

  /** The walk from an unreachable predecessor ends after one step. */
  lemma StrayWalk(g: Graph, t: Numbering, w: Links, b: Block, p: Block, x: Block)
    requires ValidNumbering(g, t) && Rising(g, t, w) && Exact(g, t, w) && x !in w && (p in w <==> b in w)
    ensures x in Walked(t, w, b, p) <==> x == p
  {
    if p in w && x in Chain(t, w, p) {
      ChainInLinks(g, t, w, p, x);
    }
  }

  lemma {:induction false} ChainInLinks(g: Graph, t: Numbering, w: Links, p: Block, x: Block)
    requires Rising(g, t, w) && p in w && x in Chain(t, w, p)
    ensures x in w
    decreases if p in t.id then t.top - t.id[p] else 0
  {
    if x != p {
      ChainInLinks(g, t, w, w[p], x);
    }
  }

  lemma UnreachableFrontier(g: Graph, t: Numbering, w: Links, f: Frontiers, x: Block, b: Block)
    requires ValidNumbering(g, t) && Rising(g, t, w) && Exact(g, t, w) && NoStrayPreds(g)
    requires Constructed(g, t, w, f, |g.succs|, []) && x in f && !g.Reachable(x)
    ensures b in f[x] <==> g.Edge(x, b) && b in Joins(g)
  {
    ExactFacts(g, t, w);
    assert g.Reachable(x) <==> x in w;
    if b in Joins(g) {
      PredsAreEdges(g, b);
      forall i | 0 <= i < |g.preds[b]|
        ensures x in Walked(t, w, b, g.preds[b][i]) <==> x == g.preds[b][i]
      {
        StraySides(g, t, w, b, g.preds[b][i]);
        StrayWalk(g, t, w, b, g.preds[b][i], x);
      }
      hide Walked;
      assert SomeWalk(t, w, b, g.preds[b], x) <==> x in g.preds[b];
      assert g.Edge(x, b) <==> x in g.preds[b];
    }
  }

  lemma ConstructedInRange(g: Graph, t: Numbering, w: Links, f: Frontiers)
    requires Constructed(g, t, w, f, |g.succs|, [])
    ensures f.Keys == Blocks(g) && forall x {:trigger f[x]} :: x in f ==> f[x] <= Joins(g)
  {
    forall x, b: Block | x in f && b in f[x]
      ensures b in Joins(g)
    {
      assert g.HasBlock(b);
    }
  }

  lemma RootLink(g: Graph, t: Numbering, w: Links)
    requires Rising(g, t, w)
    ensures g.entry in w && w[g.entry] == g.entry
  {
  }

  // ----- graphs on which the construction goes wrong -----

  /** Block 2, which nothing reaches, leads to block 1, which the entry leads to as well. */
  function StrayJoin(): Graph {
    Graph(0, [[1], [], [1]], [[], [0, 2], []])
  }

  /** With its idoms, which are these, the walk from block 2 never meets that of block 1. */
  lemma StrayRunsForEver(t: Numbering, w: Links, k: nat)
    requires t == Numbering(map[0 := 1, 1 := 0], 1, map[0 := 0, 1 := 0]) && w == map[0 := 0, 1 := 0]
    ensures var g := StrayJoin();
            ValidNumbering(g, t) && Rising(g, t, w) && Exact(g, t, w) && g.Edge(2, 1) && |g.preds[1]| >= 2
    ensures RunnerAfter(w, Some(2), k) != GetIdom(w, 1)
  {
    var g := StrayJoin();
    StrayEdges();
    StrayReachable();
    assert Up(t, w, 1) && !Up(t, w, 0);
    StrayExact(t, w);
    hide Exact;
    WalkStopsIff(g, t, w, 1, 2);
  }

  lemma StrayExact(t: Numbering, w: Links)
    requires t == Numbering(map[0 := 1, 1 := 0], 1, map[0 := 0, 1 := 0]) && w == map[0 := 0, 1 := 0]
    ensures Exact(StrayJoin(), t, w)
  {
    var g := StrayJoin();
    assert Chain(t, w, 0) == {0} && Chain(t, w, 1) == {0, 1};
    TrailSnoc(g, [0], 1);
    assert g.TrailTo([0], 0) && g.TrailTo([0, 1], 1);
    hide Chain;
    forall p | g.TrailTo(p, 1)
      ensures 0 in p && 1 in p
    {
      EntryOnTrail(g, p);
    }
    forall p | g.TrailTo(p, 0)
      ensures 0 in p
    {
    }
  }

  lemma StrayReachable()
    ensures forall b: Block {:trigger StrayJoin().Reachable(b)} :: StrayJoin().Reachable(b) <==> b < 2
  {
    var g := StrayJoin();
    StrayEdges();
    EntryReachable(g);
    ReachableStep(g, 0, 1);
    forall b: Block | g.Reachable(b)
      ensures b < 2
    {
      var p :| g.TrailTo(p, b);
      ClosedHoldsTrail(g, {0, 1}, p);
    }
  }

  lemma StrayEdges()
    ensures StrayJoin().Valid() && forall a: Block, b: Block :: StrayJoin().Edge(a, b) <==>
      (a, b) == (0, 1) || (a, b) == (2, 1)
  {
    var g := StrayJoin();
    forall a: Block, b: Block
      ensures g.Edge(a, b) <==> (a, b) == (0, 1) || (a, b) == (2, 1)
      ensures g.Edge(a, b) <==> b < |g.preds| && a in g.preds[b]
    {
    }
  }

  /** The same with a loop of the entry on itself: now it is a join. */
  function EntryLoop(): Graph {
    Graph(0, [[0, 1], [0]], [[0, 1], [0]])
  }

  /** The entry block is in the dominance frontier of both blocks, but missing in what is computed for
      block 1 if it is no join, and for itself in any case. */
  lemma EntryMissing(f: Frontiers, f': Frontiers)
    requires FrontierCorrect(BackEdge(), f) && FrontierCorrect(EntryLoop(), f')
    ensures BackEdge().Valid() && NoStrayPreds(BackEdge()) && BackEdge().InFrontier(1, 0) && 1 in f && 0 !in f[1]
    ensures EntryLoop().Valid() && NoStrayPreds(EntryLoop()) && EntryLoop().InFrontier(0, 0) && 0 in f' && 0 !in f'[0]
  {
    BackEdges();
    EntryLoopEdges();
    LoopInFrontier(BackEdge());
    LoopInFrontier(EntryLoop());
  }

  lemma EntryLoopEdges()
    ensures EntryLoop().Valid()
    ensures forall a: Block, b: Block :: EntryLoop().Edge(a, b) <==>
      (a, b) == (0, 0) || (a, b) == (0, 1) || (a, b) == (1, 0)
  {
    var g := EntryLoop();
    forall a: Block, b: Block
      ensures g.Edge(a, b) <==> (a, b) == (0, 0) || (a, b) == (0, 1) || (a, b) == (1, 0)
      ensures g.Edge(a, b) <==> b < |g.preds| && a in g.preds[b]
    {
    }
  }

  lemma LoopInFrontier(g: Graph)
    requires g.entry == 0 && g.Edge(0, 1) && g.Edge(1, 0) && forall a: Block, b: Block :: g.Edge(a, b) ==> a < 2
    ensures NoStrayPreds(g) && g.Reachable(0) && g.Reachable(1) && g.InFrontier(0, 0) && g.InFrontier(1, 0)
  {
    EntryReachable(g);
    ReachableStep(g, 0, 1);
    forall p | g.TrailTo(p, 1)
      ensures 0 in p
    {
      EntryOnTrail(g, p);
    }
    assert g.TrailTo([0], 0);
    assert !g.Dominates(1, 0);
  }

  lemma {:induction false} EntryOnTrail(g: Graph, p: seq<Block>)
    requires g.IsTrail(p)
    ensures g.entry in p
  {
    if |p| > 1 {
      EntryOnTrail(g, p[..|p| - 1]);
    }
  }
}
