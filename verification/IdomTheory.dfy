/** The mathematics behind the iterative immediate-dominator algorithm: numbered depth-first trees,
    partial idom maps and the chains they induce. */
module IdomTheory {
  import opened Cfg

  type Links = map<Block, Block>

  /** A depth-first tree over the reachable blocks with its post-order numbers. */
  datatype Numbering = Numbering(id: map<Block, nat>, top: nat, parent: Links)

  /** A parent is a predecessor with a higher number; the root is its own parent and numbered `top`. */
  ghost predicate ValidNumbering(g: Graph, t: Numbering) {
    && g.Valid()
    && t.id.Keys == t.parent.Keys
    && g.entry in t.id && t.id[g.entry] == t.top
    && Rising(g, t, t.parent)
    && (forall b {:trigger g.Reachable(b)} :: b in t.id <==> g.Reachable(b))
    && (forall b {:trigger Up(t, t.parent, b)} :: b in t.parent && b != g.entry ==> g.Edge(t.parent[b], b))
    && (forall b {:trigger t.id[b]} :: b in t.id ==> t.id[b] <= t.top && b < |g.succs|)
  }

  /** No two blocks share a number. */
  ghost predicate Injective(t: Numbering) {
    forall a, b {:trigger t.id[a], t.id[b]} :: a in t.id && b in t.id && t.id[a] == t.id[b] ==> a == b
  }

  /** The link of b leads upwards. */
  predicate Up(t: Numbering, w: Links, b: Block) {
    b in w && w[b] in w && b in t.id && w[b] in t.id && t.id[b] < t.id[w[b]] <= t.top
  }

  /** A partial idom map (an absent key is a null entry) whose links rise up to the root. */
  ghost predicate Rising(g: Graph, t: Numbering, w: Links) {
    && g.entry in w && w[g.entry] == g.entry
    && w.Keys <= t.id.Keys
    && (forall b {:trigger Up(t, w, b)} :: b in w && b != g.entry ==> Up(t, w, b))
  }

  lemma RisingNumbers(g: Graph, t: Numbering, w: Links)
    requires ValidNumbering(g, t) && Injective(t) && Rising(g, t, w)
    ensures forall b :: b in w ==> b in t.id && t.id[b] <= t.top
    ensures forall a, b {:trigger t.id[a], t.id[b]} :: a in w && b in w && t.id[a] == t.id[b] ==> a == b
    ensures t.id[g.entry] == t.top
  {
  }

  /** The blocks met by following links upwards from b. */
  ghost function Chain(t: Numbering, w: Links, b: Block): (c: set<Block>)
    ensures b in c
    decreases if b in t.id then t.top - t.id[b] else 0
  {
    if Up(t, w, b) then {b} + Chain(t, w, w[b]) else {b}
  }

  lemma {:induction false} ChainAbove(t: Numbering, w: Links, b: Block, e: Block)
    requires e in Chain(t, w, b) && e != b
    ensures Up(t, w, b) && e in t.id && t.id[e] > t.id[b]
    decreases if b in t.id then t.top - t.id[b] else 0
  {
    if e != w[b] {
      ChainAbove(t, w, w[b], e);
    }
  }

  lemma {:induction false} ChainTransitive(t: Numbering, w: Links, b: Block, e: Block)
    requires e in Chain(t, w, b)
    ensures Chain(t, w, e) <= Chain(t, w, b)
    decreases if b in t.id then t.top - t.id[b] else 0
  {
    if e != b {
      ChainTransitive(t, w, w[b], e);
    }
  }

  /** A chain is totally ordered: of two members, the higher lies on the chain of the lower. */
  lemma {:induction false} ChainOrdered(t: Numbering, w: Links, b: Block, e: Block, f: Block)
    requires e in Chain(t, w, b) && f in Chain(t, w, b)
    requires e in t.id && f in t.id && t.id[e] <= t.id[f]
    ensures f in Chain(t, w, e)
    decreases if b in t.id then t.top - t.id[b] else 0
  {
    if f == b && e != b {
      ChainAbove(t, w, b, e);
    } else if e != b {
      ChainOrdered(t, w, w[b], e, f);
    }
  }

  /** Links that agree from b's number upwards give b the same chain. */
  lemma {:induction false} ChainAgree(t: Numbering, w: Links, v: Links, b: Block)
    requires b in t.id
    requires forall x :: x in t.id && t.id[x] >= t.id[b] ==> (x in w <==> x in v) && (x in w ==> w[x] == v[x])
    ensures Chain(t, w, b) == Chain(t, v, b)
    decreases t.top - t.id[b]
  {
    if Up(t, w, b) {
      ChainAgree(t, w, v, w[b]);
    }
  }

  lemma {:induction false} ChainInMap(g: Graph, t: Numbering, w: Links, b: Block, e: Block)
    requires Rising(g, t, w) && b in w && e in Chain(t, w, b)
    ensures e in w
    decreases if b in t.id then t.top - t.id[b] else 0
  {
    if e != b {
      ChainInMap(g, t, w, w[b], e);
    }
  }

  lemma {:induction false} ChainReachesEntry(g: Graph, t: Numbering, w: Links, b: Block)
    requires Rising(g, t, w) && b in w
    ensures g.entry in Chain(t, w, b)
    decreases if b in t.id then t.top - t.id[b] else 0
  {
    if b != g.entry {
      assert Up(t, w, b);
      ChainReachesEntry(g, t, w, w[b]);
    }
  }

  // ----- the nearest common ancestor -----

  /** e is on the chain of every non-null predecessor of b. */
  ghost predicate OnAll(g: Graph, t: Numbering, w: Links, b: Block, e: Block) {
    forall p :: g.Edge(p, b) && p in w ==> e in Chain(t, w, p)
  }

  /** The chain of n is what the chains of the non-null predecessors of b have in common. */
  ghost predicate IsMeet(g: Graph, t: Numbering, w: Links, b: Block, n: Block) {
    && n in w
    && forall e :: OnAll(g, t, w, b, e) <==> e in Chain(t, w, n)
  }

  // ----- every dominator stays on the chain -----

  /** Every link leads to a proper ancestor in the depth-first tree. */
  ghost predicate Ancestral(g: Graph, t: Numbering, w: Links) {
    forall b {:trigger Up(t, w, b)} :: b in w && b in t.parent && b != g.entry ==>
      w[b] in Chain(t, t.parent, t.parent[b])
  }

  /** No true dominator is ever lost. */
  ghost predicate Sound(g: Graph, t: Numbering, w: Links) {
    forall b, d :: b in w && g.Dominates(d, b) ==> d in Chain(t, w, b)
  }

  lemma {:induction false} ChainInTree(g: Graph, t: Numbering, w: Links, b: Block)
    requires ValidNumbering(g, t) && Rising(g, t, w) && Ancestral(g, t, w) && b in w
    ensures Chain(t, w, b) <= Chain(t, t.parent, b)
    decreases if b in t.id then t.top - t.id[b] else 0
  {
    if b != g.entry {
      assert Up(t, w, b) && Up(t, t.parent, b);
      ChainInTree(g, t, w, w[b]);
      ChainTransitive(t, t.parent, t.parent[b], w[b]);
    }
  }

  /** A dominator of x above a tree ancestor y of x dominates y. */
  lemma {:induction false} DominatesAncestor(g: Graph, t: Numbering, d: Block, x: Block, y: Block)
    requires ValidNumbering(g, t) && x in t.id && g.Dominates(d, x)
    requires y in Chain(t, t.parent, x) && d in Chain(t, t.parent, y)
    ensures g.Dominates(d, y)
    decreases if x in t.id then t.top - t.id[x] else 0
  {
    if x != y {
      if d == x { ChainAbove(t, t.parent, x, y); ChainAbove(t, t.parent, y, d); }
      DominatesPred(g, d, t.parent[x], x);
      DominatesAncestor(g, t, d, t.parent[x], y);
    }
  }

  lemma EntryOnlyDominator(g: Graph, d: Block)
    ensures g.Dominates(d, g.entry) ==> d == g.entry
  {
    assert g.TrailTo([g.entry], g.entry);
  }

  /** Re-linking b to i keeps all dominators on all chains. */
  lemma {:induction false} SoundUpdate(g: Graph, t: Numbering, w: Links, b: Block, i: Block, x: Block, d: Block)
    requires ValidNumbering(g, t) && Rising(g, t, w) && Ancestral(g, t, w) && Sound(g, t, w)
    requires b in t.id && b != g.entry && i in w && t.id[b] < t.id[i]
    requires forall e :: g.StrictlyDominates(e, b) ==> e in Chain(t, w, i)
    requires x in w[b := i] && g.Dominates(d, x)
    ensures d in Chain(t, w[b := i], x)
    decreases if x in t.id then t.top - t.id[x] else 0
  {
    var v := w[b := i];
    EntryOnlyDominator(g, d);
    if d == x {
    } else if x == b {
      ChainAgree(t, w, v, i);
    } else {
      var y := w[x];
      assert Up(t, w, x) && Up(t, v, x);
      assert d in Chain(t, w, y);
      ChainInTree(g, t, w, x);
      ChainInTree(g, t, w, y);
      DominatesAncestor(g, t, d, x, y);
      SoundUpdate(g, t, w, b, i, y, d);
    }
  }

  // ----- a fixpoint is exact -----

  ghost predicate Fixpoint(g: Graph, t: Numbering, w: Links) {
    && w.Keys == t.id.Keys
    && forall b, p {:trigger g.Edge(p, b)} :: b in w && b != g.entry && p in w && g.Edge(p, b) ==>
         w[b] in Chain(t, w, p)
  }

  lemma {:induction false} TrailHasEntry(g: Graph, p: seq<Block>)
    requires g.IsTrail(p)
    ensures g.entry in p
  {
    if |p| > 1 {
      TrailHasEntry(g, p[..|p| - 1]);
    }
  }

  lemma {:induction false} FixpointChainOnTrail(g: Graph, t: Numbering, w: Links, p: seq<Block>, e: Block)
    requires ValidNumbering(g, t) && Rising(g, t, w) && Fixpoint(g, t, w) && g.IsTrail(p)
    requires e in Chain(t, w, p[|p| - 1])
    ensures e in p
  {
    var b := p[|p| - 1];
    assert g.TrailTo(p, b);
    if e == g.entry {
      TrailHasEntry(g, p);
    } else if e != b {
      var q := p[..|p| - 1];
      ChainAbove(t, w, b, e);
      if |p| == 1 {
        assert false;
      }
      assert g.TrailTo(q, p[|p| - 2]);
      assert g.Reachable(b) && g.Reachable(p[|p| - 2]);
      ChainTransitive(t, w, p[|p| - 2], w[b]);
      FixpointChainOnTrail(g, t, w, q, e);
    }
  }

  /** The chain of every block is exactly the set of its dominators. */
  ghost predicate Exact(g: Graph, t: Numbering, w: Links) {
    && w.Keys == t.id.Keys
    && forall b, d :: b in w ==> (d in Chain(t, w, b) <==> g.Dominates(d, b))
  }

  lemma FixpointExact(g: Graph, t: Numbering, w: Links)
    requires ValidNumbering(g, t) && Rising(g, t, w) && Fixpoint(g, t, w) && Sound(g, t, w)
    ensures Exact(g, t, w)
  {
    forall b, d, p | b in w && d in Chain(t, w, b) && g.TrailTo(p, b)
      ensures d in p
    {
      FixpointChainOnTrail(g, t, w, p, d);
    }
  }

  /** So the entry stored for b is the immediate dominator of b. */
  lemma ExactIsImmediate(g: Graph, t: Numbering, w: Links, b: Block)
    requires ValidNumbering(g, t) && Rising(g, t, w) && Exact(g, t, w) && b in w && b != g.entry
    ensures g.IsImmediateDominator(w[b], b)
  {
    assert Up(t, w, b);
    assert w[b] in Chain(t, w, b);
    forall d | g.StrictlyDominates(d, b)
      ensures g.Dominates(d, w[b])
    {
      assert d in Chain(t, w, b);
    }
  }

  lemma ImmediateUnique(g: Graph, t: Numbering, w: Links, a: Block, b: Block)
    requires ValidNumbering(g, t) && Rising(g, t, w) && Exact(g, t, w) && b in w && b != g.entry
    requires g.IsImmediateDominator(a, b)
    ensures a == w[b]
  {
    ExactIsImmediate(g, t, w, b);
    assert Up(t, w, b) && a in Chain(t, w, b);
    ChainInMap(g, t, w, b, a);
    if a != w[b] {
      assert a in Chain(t, w, w[b]) && w[b] in Chain(t, w, a);
      ChainAbove(t, w, w[b], a);
      ChainAbove(t, w, a, w[b]);
    }
  }

  /** What the stored map says, in terms of the graph alone. */
  lemma ExactFacts(g: Graph, t: Numbering, w: Links)
    requires ValidNumbering(g, t) && Rising(g, t, w) && Exact(g, t, w)
    ensures forall b {:trigger g.Reachable(b)} :: b in w <==> g.Reachable(b)
    ensures forall b :: b in w ==> b < |g.succs| && w[b] < |g.succs|
    ensures forall b {:trigger w[b]} :: b in w && b != g.entry ==> w[b] != b && g.IsImmediateDominator(w[b], b)
    ensures forall a, b {:trigger g.IsImmediateDominator(a, b)} ::
      b in w && b != g.entry && g.IsImmediateDominator(a, b) ==> a == w[b]
  {
    forall b | b in w
      ensures b < |g.succs| && w[b] < |g.succs|
      ensures b != g.entry ==> w[b] != b && g.IsImmediateDominator(w[b], b)
    {
      assert b in t.id && t.id[b] <= t.top;
      if b != g.entry {
        assert Up(t, w, b) && t.id[w[b]] <= t.top;
        ExactIsImmediate(g, t, w, b);
      }
    }
    forall a, b | b in w && b != g.entry && g.IsImmediateDominator(a, b)
      ensures a == w[b]
    {
      ImmediateUnique(g, t, w, a, b);
    }
  }
}
