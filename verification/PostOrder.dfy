/** The invariant of the recursive post-order visit. */
module PostOrder {
  import opened Cfg
  import opened IdomTheory

  ghost function Blocks(g: Graph): set<Block> {
    set b: Block | b < |g.succs| && g.HasBlock(b)
  }

  /** The visit's variables: the list of numbered blocks, their numbers, and the tree. */
  datatype Visit = Visit(order: seq<Block>, id: map<Block, nat>, parent: Links)

  /** The list and the number map are inverse to each other. */
  ghost predicate Numbered(v: Visit) {
    && (forall i {:trigger v.order[i]} :: 0 <= i < |v.order| ==> v.order[i] in v.id && v.id[v.order[i]] == i)
    && (forall b {:trigger v.id[b]} :: b in v.id ==> v.id[b] < |v.order| && v.order[v.id[b]] == b)
  }

  ghost predicate ParentOk(g: Graph, v: Visit, gray: set<Block>, b: Block) {
    && b in v.parent && v.parent[b] in v.parent
    && (if b == g.entry then v.parent[b] == b
        else
          && v.parent[b] != b && g.Edge(v.parent[b], b)
          && (b in gray ==> v.parent[b] in gray)
          && (v.parent[b] in v.id ==> b in v.id && v.id[b] < v.id[v.parent[b]]))
  }

  /** gray holds the blocks whose visit has begun but not ended; every other visited block has a
      number, and no edge leads from a numbered block to an unvisited one. */
  ghost predicate Visiting(g: Graph, v: Visit, visited: set<Block>, gray: set<Block>) {
    && visited == v.id.Keys + gray && v.id.Keys !! gray
    && v.parent.Keys == visited && visited <= Blocks(g)
    && Numbered(v)
    && EdgesStay(g, v.id.Keys, visited)
    && (forall b {:trigger ParentOk(g, v, gray, b)} :: b in visited ==> ParentOk(g, v, gray, b))
    && (forall b {:trigger g.Reachable(b)} :: b in visited ==> g.Reachable(b))
  }

  ghost predicate EdgesStay(g: Graph, done: set<Block>, visited: set<Block>) {
    forall a: Block, b: Block {:trigger g.Edge(a, b)} :: a in done && g.Edge(a, b) ==> b in visited
  }

  lemma Begin(g: Graph, v: Visit, visited: set<Block>, gray: set<Block>, b: Block, from: Block)
    requires Visiting(g, v, visited, gray) && b !in visited && g.Reachable(b) && b < |g.succs|
    requires if b == g.entry then from == b else from in gray && g.Edge(from, b)
    ensures Visiting(g, v.(parent := v.parent[b := from]), visited + {b}, gray + {b})
  {
    var w := v.(parent := v.parent[b := from]);
    forall x | x in visited + {b}
      ensures ParentOk(g, w, gray + {b}, x)
    {
      assert x != b ==> ParentOk(g, v, gray, x);
    }
  }

  lemma End(g: Graph, v: Visit, visited: set<Block>, gray: set<Block>, b: Block)
    requires Visiting(g, v, visited, gray + {b}) && b !in gray
    requires forall c :: g.Edge(b, c) ==> c in visited
    requires forall x :: x in gray && x != g.entry ==> x in v.parent && v.parent[x] in gray
    ensures Visiting(g, v.(order := v.order + [b], id := v.id[b := |v.order|]), visited, gray)
  {
    hide Numbered, Blocks, EdgesStay, ParentOk;
    var w := v.(order := v.order + [b], id := v.id[b := |v.order|]);
    assert b in visited && b !in v.id && visited == w.id.Keys + gray && w.id.Keys !! gray;
    NumberedEnd(v, b);
    NumberedBound(v);
    EdgesEnd(g, v.id.Keys, b, visited, w.id.Keys);
    forall x | x in visited
      ensures ParentOk(g, w, gray, x)
    {
      assert ParentOk(g, v, gray + {b}, x);
      ParentEnd(g, v, gray, b, x);
    }
  }

  lemma NumberedBound(v: Visit)
    requires Numbered(v)
    ensures forall x {:trigger v.id[x]} :: x in v.id ==> v.id[x] < |v.order|
  {
  }

  lemma EdgesEnd(g: Graph, done: set<Block>, b: Block, visited: set<Block>, done': set<Block>)
    requires EdgesStay(g, done, visited) && done' == done + {b} && forall c :: g.Edge(b, c) ==> c in visited
    ensures EdgesStay(g, done', visited)
  {
  }

  lemma ParentEnd(g: Graph, v: Visit, gray: set<Block>, b: Block, x: Block)
    requires ParentOk(g, v, gray + {b}, x) && b !in gray && b !in v.id && v.id.Keys !! gray
    requires x in v.id || x in gray + {b}
    requires x in gray && x != g.entry ==> v.parent[x] in gray
    requires x in v.id ==> v.id[x] < |v.order|
    ensures ParentOk(g, v.(order := v.order + [b], id := v.id[b := |v.order|]), gray, x)
  {
  }

  lemma NumberedEnd(v: Visit, b: Block)
    requires Numbered(v) && b !in v.id
    ensures Numbered(v.(order := v.order + [b], id := v.id[b := |v.order|]))
  {
    var w := v.(order := v.order + [b], id := v.id[b := |v.order|]);
    forall i | 0 <= i < |w.order|
      ensures w.order[i] in w.id && w.id[w.order[i]] == i
    {
      assert i < |v.order| ==> w.order[i] == v.order[i];
    }
  }

  lemma VisitingFacts(g: Graph, v: Visit, visited: set<Block>, gray: set<Block>)
    requires Visiting(g, v, visited, gray)
    ensures visited <= Blocks(g) && v.parent.Keys == visited && gray <= visited
    ensures forall x :: x in gray && x != g.entry ==> x in v.parent && v.parent[x] in gray
  {
    assert forall x :: x in gray ==> ParentOk(g, v, gray, x);
  }

  /** When the visit of the entry is over, every reachable block is numbered, the entry highest. */
  lemma AllNumbered(g: Graph, v: Visit, visited: set<Block>)
    requires g.Valid() && Visiting(g, v, visited, {}) && |v.order| > 0 && v.order[|v.order| - 1] == g.entry
    ensures Numbered(v)
    ensures ValidNumbering(g, Numbering(v.id, |v.order| - 1, v.parent))
    ensures Injective(Numbering(v.id, |v.order| - 1, v.parent))
  {
    hide ParentOk, Numbered, Blocks, ValidNumbering;
    var t := Numbering(v.id, |v.order| - 1, v.parent);
    NumberedInjective(v);
    assert v.id.Keys + {} == v.id.Keys;
    ReachedNumbered(g, v.id.Keys, visited);
    forall b | b in v.parent
      ensures ParentOk(g, v, {}, b)
    {
    }
    NumberingValid(g, v, t);
  }

  lemma NumberedInjective(v: Visit)
    requires Numbered(v) && |v.order| > 0
    ensures Injective(Numbering(v.id, |v.order| - 1, v.parent)) && forall x {:trigger v.id[x]} :: x in v.id ==>
      v.id[x] < |v.order|
    ensures v.order[|v.order| - 1] in v.id && v.id[v.order[|v.order| - 1]] == |v.order| - 1
  {
  }

  lemma ReachedNumbered(g: Graph, done: set<Block>, visited: set<Block>)
    requires EdgesStay(g, done, visited) && visited == done && g.entry in done
    ensures forall b :: g.Reachable(b) ==> b in done
  {
    forall b | g.Reachable(b)
      ensures b in done
    {
      var p :| g.TrailTo(p, b);
      ClosedHoldsTrail(g, done, p);
    }
  }

  lemma NumberingValid(g: Graph, v: Visit, t: Numbering)
    requires g.Valid() && |v.order| > 0 && t == Numbering(v.id, |v.order| - 1, v.parent) && v.parent.Keys == v.id.Keys
    requires g.entry in v.id && v.id[g.entry] == t.top && forall x {:trigger v.id[x]} :: x in v.id ==> v.id[x] <= t.top
    requires forall b {:trigger ParentOk(g, v, {}, b)} :: b in v.parent ==> ParentOk(g, v, {}, b)
    requires forall b {:trigger g.Reachable(b)} :: b in v.id <==> g.Reachable(b)
    ensures ValidNumbering(g, t)
  {
    forall b | b in v.parent && b != g.entry
      ensures Up(t, v.parent, b) && g.Edge(v.parent[b], b)
    {
      assert ParentOk(g, v, {}, b);
    }
    assert ParentOk(g, v, {}, g.entry);
  }

  function Reversed(s: seq<Block>): (r: seq<Block>)
    ensures |r| == |s| && forall i :: 0 <= i < |s| ==> r[i] == s[|s| - 1 - i]
  {
    if s == [] then [] else Reversed(s[1..]) + [s[0]]
  }

  /** The list holds every numbered block once, in descending order of number. */
  ghost predicate Descending(order: seq<Block>, id: map<Block, nat>) {
    && (forall k {:trigger order[k]} :: 0 <= k < |order| ==> order[k] in id && id[order[k]] == |order| - 1 - k)
    && (forall b {:trigger id[b]} :: b in id ==> b in order)
  }

  lemma ReversedDescends(v: Visit)
    requires Numbered(v)
    ensures Descending(Reversed(v.order), v.id)
  {
    forall b | b in v.id
      ensures b in Reversed(v.order)
    {
      assert Reversed(v.order)[|v.order| - 1 - v.id[b]] == b;
    }
  }

  lemma DescendingFacts(g: Graph, v: Visit, t: Numbering, k: nat)
    requires Descending(v.order, v.id) && ValidNumbering(g, t) && t.id == v.id && t.top == |v.order| - 1
    requires k < |v.order|
    ensures v.order[k] in v.id && v.id[v.order[k]] == |v.order| - 1 - k
    ensures v.order[k] == g.entry ==> k == 0
  {
  }

  lemma AllListed(v: Visit)
    requires Descending(v.order, v.id)
    ensures forall b :: b in v.id ==> b in v.order
  {
  }
}
