/** Control-flow graphs, trails from the entry block, reachability and dominance. */
module Cfg {

  /** A basic block, named by its position in the function's block list. */
  type Block = nat

  datatype Option<T> = None | Some(value: T)

  /** The CFG of one function: the successor and predecessor lists of its basic blocks. A list may
      name a block twice (both arms of a branch may have the same target). */
  datatype Graph = Graph(entry: Block, succs: seq<seq<Block>>, preds: seq<seq<Block>>) {

    predicate HasBlock(b: Block) {
      b < |succs|
    }

    predicate Edge(a: Block, b: Block) {
      a < |succs| && b in succs[a]
    }

    /** What the IR builder keeps: both lists describe the same edges between existing blocks. */
    ghost predicate Valid() {
      && |succs| == |preds|
      && entry < |succs|
      && (forall a: Block, b: Block :: Edge(a, b) ==> b < |succs|)
      && (forall a: Block, b: Block :: Edge(a, b) <==> b < |preds| && a in preds[b])
    }

    /** A finite walk that starts in the entry block. */
    ghost predicate IsTrail(p: seq<Block>) {
      && |p| > 0
      && if |p| == 1 then p[0] == entry
         else IsTrail(p[..|p| - 1]) && Edge(p[|p| - 2], p[|p| - 1])
    }

    ghost predicate TrailTo(p: seq<Block>, b: Block) {
      IsTrail(p) && p[|p| - 1] == b
    }

    ghost predicate Reachable(b: Block) {
      exists p :: TrailTo(p, b)
    }

    /** Every walk from the entry to b meets a. */
    ghost predicate Dominates(a: Block, b: Block) {
      forall p :: TrailTo(p, b) ==> a in p
    }

    ghost predicate StrictlyDominates(a: Block, b: Block) {
      a != b && Dominates(a, b)
    }

    ghost predicate IsImmediateDominator(i: Block, b: Block) {
      && StrictlyDominates(i, b)
      && forall d :: StrictlyDominates(d, b) ==> Dominates(d, i)
    }

    /** The textbook dominance frontier: x dominates a reachable predecessor of b
        without strictly dominating b. */
    ghost predicate InFrontier(x: Block, b: Block) {
      && !StrictlyDominates(x, b)
      && exists p :: Edge(p, b) && Reachable(p) && Dominates(x, p)
    }
  }

  lemma TrailSnoc(g: Graph, p: seq<Block>, b: Block)
    requires g.IsTrail(p) && g.Edge(p[|p| - 1], b)
    ensures g.TrailTo(p + [b], b)
  {
    assert (p + [b])[..|p|] == p;
  }

  lemma ReachableStep(g: Graph, a: Block, b: Block)
    requires g.Reachable(a) && g.Edge(a, b)
    ensures g.Reachable(b)
  {
    var p :| g.TrailTo(p, a);
    TrailSnoc(g, p, b);
  }

  lemma EntryReachable(g: Graph)
    ensures g.Reachable(g.entry)
  {
    assert g.TrailTo([g.entry], g.entry);
  }

  /** A dominator of b other than b itself dominates every predecessor of b. */
  lemma DominatesPred(g: Graph, d: Block, p: Block, b: Block)
    requires g.Edge(p, b) && g.StrictlyDominates(d, b)
    ensures g.Dominates(d, p)
  {
    forall t | g.TrailTo(t, p)
      ensures d in t
    {
      TrailSnoc(g, t, b);
    }
  }

  /** Everything on a trail is reachable. */
  lemma {:induction false} TrailReachable(g: Graph, p: seq<Block>, i: nat)
    requires g.IsTrail(p) && i < |p|
    ensures g.Reachable(p[i])
  {
    if i == |p| - 1 {
      assert g.TrailTo(p, p[i]);
    } else {
      TrailReachable(g, p[..|p| - 1], i);
    }
  }

  /** A set that holds the entry and is closed under edges holds every reachable block. */
  lemma {:induction false} ClosedHoldsTrail(g: Graph, s: set<Block>, p: seq<Block>)
    requires g.IsTrail(p) && g.entry in s
    requires forall a, b :: a in s && g.Edge(a, b) ==> b in s
    ensures p[|p| - 1] in s
  {
    if |p| > 1 {
      ClosedHoldsTrail(g, s, p[..|p| - 1]);
    }
  }

  // ----- a small graph -----

  /** Two blocks in a loop; the back edge is the only edge into the entry. */
  function BackEdge(): Graph {
    Graph(0, [[1], [0]], [[1], [0]])
  }

  lemma BackEdges()
    ensures BackEdge().Valid() && forall a: Block, b: Block :: BackEdge().Edge(a, b) <==>
      (a, b) == (0, 1) || (a, b) == (1, 0)
  {
    var g := BackEdge();
    forall a: Block, b: Block
      ensures g.Edge(a, b) <==> (a, b) == (0, 1) || (a, b) == (1, 0)
      ensures g.Edge(a, b) <==> b < |g.preds| && a in g.preds[b]
    {
    }
  }
}
