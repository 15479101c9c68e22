/** Reachability and strongly connected components of a finite directed graph. */
module Components {
  import opened Cfg

  /** For each node its successors, all of them nodes again. */
  type Adj = map<Block, set<Block>>

  ghost predicate Closed(a: Adj) {
    forall x, y {:trigger y in a[x]} :: x in a && y in a[x] ==> y in a
  }

  predicate Arc(a: Adj, x: Block, y: Block) {
    x in a && y in a[x]
  }

  ghost predicate IsPath(a: Adj, p: seq<Block>) {
    && |p| > 0
    && if |p| == 1 then p[0] in a else IsPath(a, p[..|p| - 1]) && Arc(a, p[|p| - 2], p[|p| - 1])
  }

  ghost predicate PathBetween(a: Adj, p: seq<Block>, x: Block, y: Block) {
    IsPath(a, p) && p[0] == x && p[|p| - 1] == y
  }

  ghost predicate Reach(a: Adj, x: Block, y: Block) {
    exists p :: PathBetween(a, p, x, y)
  }

  lemma ReachSelf(a: Adj, x: Block)
    requires x in a
    ensures Reach(a, x, x)
  {
    assert PathBetween(a, [x], x, x);
  }

  lemma ReachSnoc(a: Adj, x: Block, y: Block, z: Block)
    requires Reach(a, x, y) && Arc(a, y, z)
    ensures Reach(a, x, z)
  {
    var p :| PathBetween(a, p, x, y);
    assert (p + [z])[..|p|] == p;
    assert PathBetween(a, p + [z], x, z);
  }

  lemma {:induction false} ReachPath(a: Adj, x: Block, y: Block, p: seq<Block>)
    requires Reach(a, x, y) && IsPath(a, p) && p[0] == y
    ensures Reach(a, x, p[|p| - 1])
  {
    if |p| > 1 {
      ReachPath(a, x, y, p[..|p| - 1]);
      ReachSnoc(a, x, p[|p| - 2], p[|p| - 1]);
    }
  }

  lemma ReachTrans(a: Adj, x: Block, y: Block, z: Block)
    requires Reach(a, x, y) && Reach(a, y, z)
    ensures Reach(a, x, z)
  {
    var p :| PathBetween(a, p, y, z);
    ReachPath(a, x, y, p);
  }

  lemma ReachArc(a: Adj, x: Block, y: Block)
    requires Arc(a, x, y)
    ensures Reach(a, x, y)
  {
    ReachSelf(a, x);
    ReachSnoc(a, x, x, y);
  }

  /** What is reached from a set closed under arcs lies in the set. */
  lemma {:induction false} ClosedHoldsPath(a: Adj, s: set<Block>, p: seq<Block>)
    requires IsPath(a, p) && p[0] in s
    requires forall x, y {:trigger Arc(a, x, y)} :: x in s && Arc(a, x, y) ==> y in s
    ensures p[|p| - 1] in s
  {
    if |p| > 1 {
      ClosedHoldsPath(a, s, p[..|p| - 1]);
    }
  }

  lemma ClosedHolds(a: Adj, s: set<Block>, x: Block, y: Block)
    requires Reach(a, x, y) && x in s
    requires forall u, v {:trigger Arc(a, u, v)} :: u in s && Arc(a, u, v) ==> v in s
    ensures y in s
  {
    var p :| PathBetween(a, p, x, y);
    ClosedHoldsPath(a, s, p);
  }

  ghost predicate Mutual(a: Adj, x: Block, y: Block) {
    Reach(a, x, y) && Reach(a, y, x)
  }

  lemma MutualTrans(a: Adj, x: Block, y: Block, z: Block)
    requires Mutual(a, x, y) && Mutual(a, y, z)
    ensures Mutual(a, x, z)
  {
    ReachTrans(a, x, y, z);
    ReachTrans(a, z, y, x);
  }

  /** s is the strongly connected component of r. */
  ghost predicate ComponentOf(a: Adj, s: set<Block>, r: Block) {
    r in s && forall x {:trigger x in s} {:trigger Mutual(a, r, x)} :: x in s <==> Mutual(a, r, x)
  }

  ghost predicate IsComponent(a: Adj, s: set<Block>) {
    exists r :: ComponentOf(a, s, r)
  }

  /** A component with at least two nodes. */
  ghost predicate IsLoop(a: Adj, s: set<Block>) {
    IsComponent(a, s) && |s| >= 2
  }

  lemma ComponentFrom(a: Adj, s: set<Block>, r: Block, x: Block)
    requires ComponentOf(a, s, r) && x in s
    ensures ComponentOf(a, s, x)
  {
    forall y
      ensures y in s <==> Mutual(a, x, y)
    {
      assert Mutual(a, r, x) && Mutual(a, x, r);
      if y in s {
        MutualTrans(a, x, r, y);
      }
      if Mutual(a, x, y) {
        MutualTrans(a, r, x, y);
      }
    }
  }

  /** Two components that share a node are equal. */
  lemma ComponentsMeet(a: Adj, s: set<Block>, t: set<Block>, x: Block)
    requires IsComponent(a, s) && IsComponent(a, t) && x in s && x in t
    ensures s == t
  {
    var r :| ComponentOf(a, s, r);
    var q :| ComponentOf(a, t, q);
    ComponentFrom(a, s, r, x);
    ComponentFrom(a, t, q, x);
  }

  // ----- the CFG as such a graph -----

  function AdjOf(g: Graph): (e: Adj)
    requires g.Valid()
    ensures Closed(e)
  {
    assert forall a: Block, b: Block :: g.Edge(a, b) ==> b < |g.succs|;
    assert forall a: Block, b: Block :: a < |g.succs| && b in g.succs[a] ==> g.Edge(a, b);
    map b: Block | b < |g.succs| && g.HasBlock(b) :: set x | x in g.succs[b]
  }

  lemma {:induction false} TrailIsPath(g: Graph, p: seq<Block>)
    requires g.Valid() && g.IsTrail(p)
    ensures IsPath(AdjOf(g), p) && p[0] == g.entry
  {
    if |p| > 1 {
      TrailIsPath(g, p[..|p| - 1]);
      assert g.Edge(p[|p| - 2], p[|p| - 1]);
    }
  }
}
