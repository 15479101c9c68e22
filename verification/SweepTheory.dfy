/** Why the sweeps of the immediate-dominator algorithm terminate: between two sweeps every link can
    only move upwards. The argument compares the state in the middle of a sweep (blocks above the
    current one already re-linked, the others as the previous sweep left them) with both ends. */
module SweepTheory {
  import opened Cfg
  import opened IdomTheory

  /** The link of b skips only part of its parent's chain. */
  ghost predicate NestedAt(g: Graph, t: Numbering, w: Links, b: Block) {
    b in w && b in t.parent && t.parent[b] in w && w[b] in Chain(t, w, t.parent[b])
  }

  ghost predicate NestedAbove(g: Graph, t: Numbering, w: Links, lim: int) {
    forall b {:trigger NestedAt(g, t, w, b)} :: b in t.id && t.id[b] > lim && b != g.entry && b in w ==>
      NestedAt(g, t, w, b)
  }

  /** The links of v are nowhere below those of w. */
  ghost predicate LaterAbove(g: Graph, t: Numbering, w: Links, v: Links, lim: int) {
    forall b {:trigger Up(t, v, b)} {:trigger Up(t, w, b)} :: b in w && b in t.id && t.id[b] > lim && b != g.entry ==>
      Up(t, w, b) && Up(t, v, b) && t.id[w[b]] <= t.id[v[b]]
  }

  /** The link of every block is at or below everything its predecessors' chains share. */
  ghost predicate Settled(g: Graph, t: Numbering, w: Links) {
    forall b, e {:trigger OnAll(g, t, w, b, e)} ::
      b in w && b != g.entry && OnAll(g, t, w, b, e) && b in t.id && e in t.id && t.id[e] > t.id[b] ==>
        Up(t, w, b) && t.id[w[b]] <= t.id[e]
  }

  /** The state while b is being processed: w above b, the previous w0 at and below it. */
  ghost function Mix(t: Numbering, w: Links, w0: Links, b: Block): Links
    requires b in t.id
  {
    map x | x in t.id && (if t.id[x] > t.id[b] then x in w else x in w0) :: if t.id[x] > t.id[b] then w[x] else w0[x]
  }

  /** What holds between sweeps. */
  ghost predicate Good(g: Graph, t: Numbering, w: Links) {
    && Rising(g, t, w) && Ancestral(g, t, w) && Sound(g, t, w)
    && NestedAbove(g, t, w, -1) && Settled(g, t, w)
    && (w.Keys == {g.entry} || w.Keys == t.id.Keys)
  }

  /** What holds inside a sweep that started in w0, once all blocks numbered above lim are done. */
  ghost predicate Mid(g: Graph, t: Numbering, w0: Links, w: Links, lim: int) {
    && Rising(g, t, w) && Ancestral(g, t, w) && Sound(g, t, w)
    && NestedAbove(g, t, w, lim) && LaterAbove(g, t, w0, w, lim)
    && Untouched(t, w0, w, lim)
    && MeetsAbove(g, t, w0, w, lim)
  }

  /** Blocks up to lim have the link they had before the sweep; all others have one. */
  ghost predicate Untouched(t: Numbering, w0: Links, w: Links, lim: int) {
    && (forall x {:trigger x in w} {:trigger x in w0} :: x in t.id && t.id[x] <= lim ==>
         (x in w <==> x in w0) && (x in w ==> w[x] == w0[x]))
    && (forall x :: x in t.id && t.id[x] > lim ==> x in w)
  }

  /** Every processed block was linked to the meet of its predecessors at that time. */
  ghost predicate MeetsAbove(g: Graph, t: Numbering, w0: Links, w: Links, lim: int) {
    forall b {:trigger Mix(t, w, w0, b)} :: b in t.id && t.id[b] > lim && b != g.entry ==>
      b in w && IsMeet(g, t, Mix(t, w, w0, b), b, w[b])
  }

  // ----- chains shrink when links rise -----

  lemma {:induction false} ChainAntitone(g: Graph, t: Numbering, w: Links, v: Links, lim: int, b: Block)
    requires ValidNumbering(g, t) && Rising(g, t, w) && Rising(g, t, v)
    requires NestedAbove(g, t, w, lim) && NestedAbove(g, t, v, lim) && LaterAbove(g, t, w, v, lim)
    requires b in w && b in v && t.id[b] > lim
    ensures Chain(t, v, b) <= Chain(t, w, b)
    decreases t.top - t.id[b]
  {
    if b != g.entry {
      assert Up(t, v, b) && Up(t, w, b) && Up(t, t.parent, b);
      assert NestedAt(g, t, w, b) && NestedAt(g, t, v, b);
      var p := t.parent[b];
      ChainAntitone(g, t, w, v, lim, p);
      ChainTransitive(t, v, p, v[b]);
      forall e | e in Chain(t, v, b) && e != b
        ensures e in Chain(t, w, b)
      {
        ChainAbove(t, v, b, e);
        if e != v[b] { ChainAbove(t, v, v[b], e); }
        ChainOrdered(t, w, p, w[b], e);
      }
    }
  }

  /** Climbing a nested map cannot lose what is above a tree ancestor. */
  lemma {:induction false} ChainSkip(g: Graph, t: Numbering, v: Links, q: Block, a: Block, e: Block)
    requires ValidNumbering(g, t) && Rising(g, t, v) && NestedAbove(g, t, v, -1)
    requires q in v && a in Chain(t, t.parent, q) && e in Chain(t, v, q)
    requires a in t.id && e in t.id && t.id[a] <= t.id[e]
    ensures e in Chain(t, v, a)
    decreases if q in t.id then t.top - t.id[q] else 0
  {
    if a != q {
      ChainAbove(t, t.parent, q, a);
      assert Up(t, t.parent, q) && Up(t, v, q) && NestedAt(g, t, v, q);
      ChainTransitive(t, v, t.parent[q], v[q]);
      ChainSkip(g, t, v, t.parent[q], a, e);
    }
  }

  // ----- one step: the new link of b is not below the old one -----

  lemma {:induction false} MixedChainInOld(g: Graph, t: Numbering, w0: Links, w: Links, lim: int, q: Block, e: Block)
    requires ValidNumbering(g, t) && Good(g, t, w0) && w0.Keys == t.id.Keys && Mid(g, t, w0, w, lim)
    requires q in w && e in Chain(t, w, q) && e in t.id && t.id[e] > lim
    ensures e in Chain(t, w0, q)
    decreases if q in t.id then t.top - t.id[q] else 0
  {
    if t.id[q] > lim {
      assert NestedAbove(g, t, w0, lim);
      ChainAntitone(g, t, w0, w, lim, q);
    } else {
      assert Up(t, w, q) && Up(t, w0, q);
      MixedChainInOld(g, t, w0, w, lim, w[q], e);
    }
  }

  lemma LinkRises(g: Graph, t: Numbering, w0: Links, w: Links, b: Block, i: Block)
    requires ValidNumbering(g, t) && Good(g, t, w0) && b in t.id && b != g.entry && Mid(g, t, w0, w, t.id[b])
    requires IsMeet(g, t, w, b, i) && t.id[i] > t.id[b] && b in w0
    ensures Up(t, w0, b) && t.id[w0[b]] <= t.id[i]
  {
    assert OnAll(g, t, w, b, i);
    forall p | g.Edge(p, b) && p in w0
      ensures i in Chain(t, w0, p)
    {
      MixedChainInOld(g, t, w0, w, t.id[b], p, i);
    }
    assert OnAll(g, t, w0, b, i);
  }

  lemma MeetIsAboveParent(g: Graph, t: Numbering, w: Links, b: Block, i: Block)
    requires ValidNumbering(g, t) && Rising(g, t, w) && Ancestral(g, t, w)
    requires b in t.id && b != g.entry && t.parent[b] in w && IsMeet(g, t, w, b, i)
    ensures i in Chain(t, w, t.parent[b]) && i in t.id && t.id[i] > t.id[b]
    ensures i in Chain(t, t.parent, t.parent[b]) && i in w
  {
    assert Up(t, t.parent, b);
    assert OnAll(g, t, w, b, i);
    ChainInTree(g, t, w, t.parent[b]);
    if i != t.parent[b] { ChainAbove(t, w, t.parent[b], i); }
  }

  lemma MeetKeepsDominators(g: Graph, t: Numbering, w: Links, b: Block, i: Block)
    requires ValidNumbering(g, t) && Sound(g, t, w) && IsMeet(g, t, w, b, i)
    ensures forall e :: g.StrictlyDominates(e, b) ==> e in Chain(t, w, i)
  {
    forall e, p | g.StrictlyDominates(e, b) && g.Edge(p, b) && p in w
      ensures e in Chain(t, w, p)
    {
      DominatesPred(g, e, p, b);
    }
  }

  lemma MixUpdate(t: Numbering, w: Links, w0: Links, b: Block, i: Block, x: Block)
    requires b in t.id && x in t.id && t.id[b] <= t.id[x]
    ensures Mix(t, w[b := i], w0, x) == Mix(t, w, w0, x)
  {
  }

  lemma NestedUpdate(g: Graph, t: Numbering, w: Links, b: Block, i: Block, x: Block)
    requires ValidNumbering(g, t) && Rising(g, t, w) && b in t.id && x in t.id && t.id[x] > t.id[b]
    requires x != g.entry && NestedAt(g, t, w, x)
    ensures NestedAt(g, t, w[b := i], x)
  {
    assert Up(t, t.parent, x);
    ChainAgree(t, w, w[b := i], t.parent[x]);
  }

  /** Re-linking the next block to the meet of its predecessors keeps the sweep invariant. */
  lemma MidStep(g: Graph, t: Numbering, w0: Links, w: Links, b: Block, i: Block, lim: int)
    requires ValidNumbering(g, t) && Injective(t) && Good(g, t, w0)
    requires b in t.id && b != g.entry && lim == t.id[b] && Mid(g, t, w0, w, lim) && IsMeet(g, t, w, b, i)
    ensures Mid(g, t, w0, w[b := i], lim - 1)
  {
    hide *;
    MidParts(g, t, w0, w, b, lim);
    GoodFacts(g, t, w0);
    MeetIsAboveParent(g, t, w, b, i);
    RisingUpdate(g, t, w, b, i);
    SoundStep(g, t, w, b, i);
    NestedStep(g, t, w, b, i, lim);
    LaterStep(g, t, w0, w, b, i, lim);
    MeetsStep(g, t, w0, w, b, i, lim);
    UntouchedStep(t, w0, w, b, i, lim);
    MidWhole(g, t, w0, w[b := i], lim - 1);
  }

  lemma MidParts(g: Graph, t: Numbering, w0: Links, w: Links, b: Block, lim: int)
    requires ValidNumbering(g, t) && b in t.id && b != g.entry && lim == t.id[b] && Mid(g, t, w0, w, lim)
    ensures Rising(g, t, w) && Ancestral(g, t, w) && Sound(g, t, w)
    ensures NestedAbove(g, t, w, lim) && LaterAbove(g, t, w0, w, lim)
    ensures Untouched(t, w0, w, lim) && MeetsAbove(g, t, w0, w, lim)
    ensures b in t.parent && t.parent[b] in w
    ensures w.Keys <= t.id.Keys
  {
    assert Up(t, t.parent, b);
  }

  lemma MidWhole(g: Graph, t: Numbering, w0: Links, w: Links, lim: int)
    requires Rising(g, t, w) && Ancestral(g, t, w) && Sound(g, t, w)
    requires NestedAbove(g, t, w, lim) && LaterAbove(g, t, w0, w, lim)
    requires Untouched(t, w0, w, lim) && MeetsAbove(g, t, w0, w, lim)
    ensures Mid(g, t, w0, w, lim)
  {
  }

  lemma UntouchedStep(t: Numbering, w0: Links, w: Links, b: Block, i: Block, lim: int)
    requires Injective(t) && b in t.id && lim == t.id[b] && Untouched(t, w0, w, lim)
    ensures Untouched(t, w0, w[b := i], lim - 1)
  {
  }

  lemma SoundStep(g: Graph, t: Numbering, w: Links, b: Block, i: Block)
    requires ValidNumbering(g, t) && Rising(g, t, w) && Ancestral(g, t, w) && Sound(g, t, w)
    requires b in t.id && b != g.entry && IsMeet(g, t, w, b, i) && i in t.id && t.id[b] < t.id[i]
    ensures Sound(g, t, w[b := i])
  {
    MeetKeepsDominators(g, t, w, b, i);
    forall x, d | x in w[b := i] && g.Dominates(d, x)
      ensures d in Chain(t, w[b := i], x)
    {
      SoundUpdate(g, t, w, b, i, x, d);
    }
  }

  lemma NestedStep(g: Graph, t: Numbering, w: Links, b: Block, i: Block, lim: int)
    requires ValidNumbering(g, t) && Injective(t) && Rising(g, t, w) && b in t.id && b != g.entry
    requires lim == t.id[b] && NestedAbove(g, t, w, lim)
    requires t.parent[b] in w && i in Chain(t, w, t.parent[b])
    ensures NestedAbove(g, t, w[b := i], lim - 1)
  {
    forall x | x in t.id && t.id[x] > lim - 1 && x != g.entry && x in w[b := i]
      ensures NestedAt(g, t, w[b := i], x)
    {
      if x == b {
        assert Up(t, t.parent, b);
        ChainAgree(t, w, w[b := i], t.parent[b]);
      } else {
        NestedUpdate(g, t, w, b, i, x);
      }
    }
  }

  lemma MeetsStep(g: Graph, t: Numbering, w0: Links, w: Links, b: Block, i: Block, lim: int)
    requires Injective(t) && b in t.id && lim == t.id[b] && IsMeet(g, t, w, b, i)
    requires MeetsAbove(g, t, w0, w, lim) && Untouched(t, w0, w, lim) && w.Keys <= t.id.Keys && w0.Keys <= t.id.Keys
    ensures MeetsAbove(g, t, w0, w[b := i], lim - 1)
  {
    hide IsMeet;
    forall x | x in t.id && t.id[x] > lim - 1 && x != g.entry
      ensures x in w[b := i] && IsMeet(g, t, Mix(t, w[b := i], w0, x), x, w[b := i][x])
    {
      MixUpdate(t, w, w0, b, i, x);
      if x == b {
        assert Mix(t, w, w0, b) == w;
      } else {
        assert IsMeet(g, t, Mix(t, w, w0, x), x, w[x]);
      }
    }
  }

  lemma RisingUpdate(g: Graph, t: Numbering, w: Links, b: Block, i: Block)
    requires ValidNumbering(g, t) && Rising(g, t, w) && Ancestral(g, t, w)
    requires b in t.id && b != g.entry && i in w && i in t.id && t.id[i] > t.id[b]
    requires i in Chain(t, t.parent, t.parent[b])
    ensures Rising(g, t, w[b := i]) && Ancestral(g, t, w[b := i])
  {
    var v := w[b := i];
    forall x | x in v && x != g.entry
      ensures Up(t, v, x)
    {
      assert x != b ==> Up(t, w, x);
    }
    forall x | x in v && x in t.parent && x != g.entry
      ensures v[x] in Chain(t, t.parent, t.parent[x])
    {
      assert x != b ==> Up(t, w, x);
    }
  }

  lemma LaterStep(g: Graph, t: Numbering, w0: Links, w: Links, b: Block, i: Block, lim: int)
    requires ValidNumbering(g, t) && Injective(t) && Good(g, t, w0)
    requires b in t.id && b != g.entry && lim == t.id[b] && Mid(g, t, w0, w, lim) && IsMeet(g, t, w, b, i)
    requires Rising(g, t, w[b := i]) && i in t.id && t.id[i] > t.id[b]
    ensures LaterAbove(g, t, w0, w[b := i], lim - 1)
  {
    assert Up(t, w[b := i], b);
    if b in w0 {
      LinkRises(g, t, w0, w, b, i);
    }
    LaterUpdate(g, t, w0, w, b, i, lim);
  }

  lemma LaterUpdate(g: Graph, t: Numbering, w0: Links, w: Links, b: Block, i: Block, lim: int)
    requires Injective(t) && b in t.id && lim == t.id[b] && LaterAbove(g, t, w0, w, lim)
    requires Up(t, w[b := i], b) && (b in w0 ==> Up(t, w0, b) && t.id[w0[b]] <= t.id[i])
    ensures LaterAbove(g, t, w0, w[b := i], lim - 1)
  {
    forall x | x in w0 && x in t.id && t.id[x] > lim - 1 && x != g.entry
      ensures Up(t, w0, x) && Up(t, w[b := i], x) && t.id[w0[x]] <= t.id[w[b := i][x]]
    {
      assert x != b ==> Up(t, w0, x) && Up(t, w, x);
    }
  }

  // ----- the end of a sweep -----

  lemma {:induction false} FinalChainInMix(g: Graph, t: Numbering, w0: Links, w: Links, b: Block, q: Block, y: Block,
                                           e: Block)
    requires ValidNumbering(g, t) && Good(g, t, w0) && Mid(g, t, w0, w, -1) && b in t.id
    requires q in w && q in w0 && q in t.id && t.id[q] <= t.id[b]
    requires y in Chain(t, w0, q) && e in Chain(t, w0, y) && e in Chain(t, w, q)
    requires e in t.id && t.id[e] > t.id[b] && y in t.id
    ensures e in Chain(t, Mix(t, w, w0, b), y)
    decreases t.top - t.id[y]
  {
    var m := Mix(t, w, w0, b);
    if t.id[y] > t.id[b] {
      ChainInTree(g, t, w0, q);
      ChainAbove(t, w0, q, y);
      ChainInTree(g, t, w0, y);
      if e != y { ChainAbove(t, w0, y, e); }
      ChainSkip(g, t, w, q, y, e);
      ChainAgree(t, w, m, y);
    } else {
      assert Up(t, w0, y);
      ChainInMap(g, t, w0, q, y);
      MixLink(g, t, w0, w, b, y);
      ChainTransitive(t, w0, q, y);
      FinalChainInMix(g, t, w0, w, b, q, w0[y], e);
    }
  }

  lemma MixLink(g: Graph, t: Numbering, w0: Links, w: Links, b: Block, y: Block)
    requires ValidNumbering(g, t) && Rising(g, t, w0) && Mid(g, t, w0, w, -1)
    requires b in t.id && y in t.id && t.id[y] <= t.id[b] && Up(t, w0, y)
    ensures Up(t, Mix(t, w, w0, b), y) && Mix(t, w, w0, b)[y] == w0[y]
  {
  }

  lemma SettledAtEnd(g: Graph, t: Numbering, w0: Links, w: Links, b: Block, e: Block)
    requires ValidNumbering(g, t) && Good(g, t, w0) && Mid(g, t, w0, w, -1) && w.Keys == t.id.Keys
    requires b in w && b != g.entry && OnAll(g, t, w, b, e) && e in t.id && t.id[e] > t.id[b]
    ensures Up(t, w, b) && t.id[w[b]] <= t.id[e]
  {
    var m := Mix(t, w, w0, b);
    forall p | g.Edge(p, b) && p in m
      ensures e in Chain(t, m, p)
    {
      if t.id[p] > t.id[b] {
        ChainAgree(t, w, m, p);
      } else {
        ChainAntitone(g, t, w0, w, -1, p);
        FinalChainInMix(g, t, w0, w, b, p, p, e);
      }
    }
    assert OnAll(g, t, m, b, e);
    assert Up(t, w, b);
    if e != w[b] {
      ChainAbove(t, m, w[b], e);
    }
  }

  /** A finished sweep re-establishes what holds between sweeps; one that changed nothing is a fixpoint. */
  lemma MidEnd(g: Graph, t: Numbering, w0: Links, w: Links)
    requires ValidNumbering(g, t) && Good(g, t, w0) && Mid(g, t, w0, w, -1)
    ensures Good(g, t, w) && w.Keys == t.id.Keys
    ensures w == w0 ==> Fixpoint(g, t, w)
  {
    assert w.Keys == t.id.Keys;
    forall b, e | b in w && b != g.entry && OnAll(g, t, w, b, e) && e in t.id && t.id[e] > t.id[b]
      ensures Up(t, w, b) && t.id[w[b]] <= t.id[e]
    {
      SettledAtEnd(g, t, w0, w, b, e);
    }
    if w == w0 {
      forall b, p | b in w && b != g.entry && p in w && g.Edge(p, b)
        ensures w[b] in Chain(t, w, p)
      {
        assert Mix(t, w, w0, b) == w;
        assert IsMeet(g, t, w, b, w[b]);
        assert OnAll(g, t, w, b, w[b]);
      }
    }
  }

  // ----- the termination measure -----

  /** How far the links of the listed blocks still are from the top; a null entry counts most. */
  ghost function Gap(t: Numbering, w: Links, order: seq<Block>): nat {
    if order == [] then 0
    else
      var b := order[0];
      (if b !in w then t.top + 1 else if w[b] in t.id && t.id[w[b]] <= t.top then t.top - t.id[w[b]] else 0)
        + Gap(t, w, order[1..])
  }

  lemma {:induction false} GapShrinks(g: Graph, t: Numbering, w: Links, v: Links, order: seq<Block>)
    requires ValidNumbering(g, t) && Rising(g, t, w) && Rising(g, t, v) && w.Keys <= v.Keys && Injective(t)
    requires LaterAbove(g, t, w, v, -1)
    ensures Gap(t, v, order) <= Gap(t, w, order)
    ensures (exists b :: b in order && b in v && (b !in w || w[b] != v[b])) ==> Gap(t, v, order) < Gap(t, w, order)
  {
    if order != [] {
      var b := order[0];
      assert b in w && b != g.entry ==> Up(t, w, b) && Up(t, v, b);
      assert b in v && b != g.entry ==> Up(t, v, b);
      GapShrinks(g, t, w, v, order[1..]);
      assert forall x :: x in order ==> x == b || x in order[1..];
    }
  }

  // ----- the start of the algorithm, and what the meet loop computes -----

  lemma RootAloneIsGood(g: Graph, t: Numbering)
    requires ValidNumbering(g, t)
    ensures Good(g, t, map[g.entry := g.entry])
  {
    var w: Links := map[g.entry := g.entry];
    forall d | g.Dominates(d, g.entry)
      ensures d in Chain(t, w, g.entry)
    {
      EntryOnlyDominator(g, d);
    }
  }

  lemma GoodFacts(g: Graph, t: Numbering, w: Links)
    requires Good(g, t, w)
    ensures Rising(g, t, w) && Sound(g, t, w) && w.Keys <= t.id.Keys
  {
  }

  lemma MidStart(g: Graph, t: Numbering, w: Links)
    requires ValidNumbering(g, t) && Good(g, t, w)
    ensures Mid(g, t, w, w, t.top) && Mid(g, t, w, w, t.top - 1)
  {
    forall x | x in t.id && x != g.entry
      ensures t.id[x] < t.top
    {
      assert Up(t, t.parent, x);
    }
  }

  /** e is on the chain of every listed block that has a link. */
  ghost predicate OnListed(t: Numbering, w: Links, ps: seq<Block>, e: Block) {
    forall i :: 0 <= i < |ps| && ps[i] in w ==> e in Chain(t, w, ps[i])
  }

  /** The chain of n is what the chains of the listed blocks share. */
  ghost predicate MeetsListed(t: Numbering, w: Links, ps: seq<Block>, n: Block) {
    n in w && forall e :: OnListed(t, w, ps, e) <==> e in Chain(t, w, n)
  }

  /** n is on both chains, and so is exactly what is on its own chain. */
  ghost predicate NearestCommon(t: Numbering, w: Links, a: Block, b: Block, n: Block) {
    n in w && forall e :: e in Chain(t, w, a) && e in Chain(t, w, b) <==> e in Chain(t, w, n)
  }

  /** What two chains share is not lost when the lower block steps to its idom. */
  lemma ClimbStep(g: Graph, t: Numbering, w: Links, a: Block, b: Block)
    requires Rising(g, t, w) && a in w && b in w && a in t.id && b in t.id && t.id[a] < t.id[b] <= t.top
    requires t.id[g.entry] == t.top
    ensures w[a] in w && w[a] in t.id && t.id[a] < t.id[w[a]] <= t.top
    ensures forall e :: e in Chain(t, w, a) && e in Chain(t, w, b) <==> e in Chain(t, w, w[a]) && e in Chain(t, w, b)
  {
    assert Up(t, w, a);
    forall e | e in Chain(t, w, b)
      ensures e != a
    {
      if e != b { ChainAbove(t, w, b, e); }
    }
  }

  /** Sharing a chain with a, restated for the two blocks reached so far. */
  ghost predicate SameCommon(t: Numbering, w: Links, x: Block, y: Block, a: Block, b: Block) {
    forall e :: e in Chain(t, w, x) && e in Chain(t, w, y) <==> e in Chain(t, w, a) && e in Chain(t, w, b)
  }

  lemma ClimbCommon(g: Graph, t: Numbering, w: Links, x: Block, y: Block, a: Block, b: Block)
    requires SameCommon(t, w, x, y, a, b) || SameCommon(t, w, x, y, b, a)
    requires Rising(g, t, w) && a in w && b in w && a in t.id && b in t.id && t.id[a] < t.id[b] <= t.top
    requires t.id[g.entry] == t.top
    ensures w[a] in w && w[a] in t.id && t.id[a] < t.id[w[a]] <= t.top
    ensures SameCommon(t, w, x, y, a, b) ==> SameCommon(t, w, x, y, w[a], b)
    ensures SameCommon(t, w, x, y, b, a) ==> SameCommon(t, w, x, y, b, w[a])
  {
    ClimbStep(g, t, w, a, b);
    hide Chain, Rising;
  }

  lemma CommonStart(t: Numbering, w: Links, x: Block, y: Block)
    ensures SameCommon(t, w, x, y, x, y)
  {
  }

  /** When both have climbed to the same block, that is the nearest common one. */
  lemma CommonEnd(t: Numbering, w: Links, x: Block, y: Block, n: Block)
    requires SameCommon(t, w, x, y, n, n)
    ensures n in w ==> NearestCommon(t, w, x, y, n)
  {
  }

  lemma MeetsMore(t: Numbering, w: Links, ps: seq<Block>, p: Block, n: Block, m: Block)
    requires MeetsListed(t, w, ps, n)
    requires if p in w then NearestCommon(t, w, p, n, m) else m == n
    ensures MeetsListed(t, w, ps + [p], m)
  {
    forall e
      ensures OnListed(t, w, ps + [p], e) <==> e in Chain(t, w, m)
    {
      assert OnListed(t, w, ps + [p], e) <==> OnListed(t, w, ps, e) && (p in w ==> e in Chain(t, w, p)) by {
        assert (ps + [p])[|ps|] == p;
        assert forall i :: 0 <= i < |ps| ==> (ps + [p])[i] == ps[i];
      }
    }
  }

  lemma MeetsRepeat(t: Numbering, w: Links, ps: seq<Block>, p: Block, n: Block)
    requires MeetsListed(t, w, ps, n) && p in ps
    ensures MeetsListed(t, w, ps + [p], n)
  {
    forall e
      ensures OnListed(t, w, ps + [p], e) <==> OnListed(t, w, ps, e)
    {
      assert forall i :: 0 <= i < |ps| ==> (ps + [p])[i] == ps[i];
    }
  }

  lemma ListedIsAll(g: Graph, t: Numbering, w: Links, ps: seq<Block>, b: Block, n: Block)
    requires g.Valid() && MeetsListed(t, w, ps, n)
    requires forall p :: p in ps <==> g.Edge(p, b)
    ensures IsMeet(g, t, w, b, n)
  {
    forall e
      ensures OnAll(g, t, w, b, e) <==> OnListed(t, w, ps, e)
    {
      if OnListed(t, w, ps, e) {
        forall p | g.Edge(p, b) && p in w
          ensures e in Chain(t, w, p)
        {
          var i :| 0 <= i < |ps| && ps[i] == p;
        }
      }
    }
  }

  lemma MeetsOne(t: Numbering, w: Links, p: Block)
    requires p in w
    ensures MeetsListed(t, w, [p], p) && [p] + [] == [p]
  {
    forall e
      ensures OnListed(t, w, [p], e) <==> e in Chain(t, w, p)
    {
      assert [p][0] == p;
    }
  }

  /** The parent of the block being processed has been processed. */
  lemma MidFacts(g: Graph, t: Numbering, w0: Links, w: Links, b: Block, lim: int)
    requires ValidNumbering(g, t) && b in t.id && b != g.entry && lim == t.id[b] && Mid(g, t, w0, w, lim)
    ensures g.Valid() && Rising(g, t, w)
    ensures t.parent[b] in w && g.Edge(t.parent[b], b)
    ensures forall p :: p in g.preds[b] <==> g.Edge(p, b)
    ensures (b in w <==> b in w0) && (b in w ==> w[b] == w0[b])
  {
    assert Up(t, t.parent, b);
    assert g.Edge(t.parent[b], b);
  }

  /** A sweep that changed the map brought it closer to the top. */
  lemma SweepGap(g: Graph, t: Numbering, w0: Links, w: Links, order: seq<Block>)
    requires ValidNumbering(g, t) && Injective(t) && Good(g, t, w0) && Mid(g, t, w0, w, -1)
    requires forall b :: b in t.id ==> b in order
    ensures w != w0 ==> Gap(t, w, order) < Gap(t, w0, order)
  {
    assert w.Keys == t.id.Keys;
    hide Gap, Chain, IsMeet, NestedAt, Sound, Ancestral, OnAll;
    GapShrinks(g, t, w0, w, order);
    if forall b :: b in w ==> b in w0 && w0[b] == w[b] {
      assert w == w0;
    }
  }
}
