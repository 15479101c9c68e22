/** The dominator analysis of one function, as the source runs it: a depth-first numbering, the
    iterative idom computation, dominance frontiers and the dominator tree. */
module DominatorAnalysis {
  import opened Cfg
  import opened IdomTheory
  import opened SweepTheory
  import opened PostOrder
  import opened FrontierTheory

  class Dominators {
    const g: Graph
    var reversePostOrder: seq<Block>
    var postOrderId: map<Block, nat>
    var idom: Links
    var domFrontier: map<Block, set<Block>>
    var domTreeSucc: map<Block, set<Block>>
    var nullTreeSucc: set<Block>
    ghost var parent: Links

    constructor (g: Graph)
      ensures this.g == g
      ensures reversePostOrder == [] && postOrderId == map[] && idom == map[] && parent == map[]
      ensures AllEmpty(g, domFrontier) && AllEmpty(g, domTreeSucc) && nullTreeSucc == {}
    {
      this.g := g;
      domTreeSucc, nullTreeSucc := map b: Block | b < |g.succs| && g.HasBlock(b) :: {}, {};
      domFrontier := map b: Block | b < |g.succs| && g.HasBlock(b) :: {};
      reversePostOrder, postOrderId, idom, parent := [], map[], map[], map[];
    }

    // ----- the depth-first numbering -----

    ghost function Progress(): Visit
      reads this`reversePostOrder, this`postOrderId, this`parent
    {
      Visit(reversePostOrder, postOrderId, parent)
    }

    method PostOrderVisit(b: Block, visited0: set<Block>, ghost from: Block, ghost gray: set<Block>)
      returns (visited: set<Block>)
      requires g.Valid() && Visiting(g, Progress(), visited0, gray) && b !in visited0 && g.Reachable(b)
      requires if b == g.entry then from == b else from in gray && g.Edge(from, b) && g.entry in visited0
      requires b < |g.succs|
      modifies this`reversePostOrder, this`postOrderId, this`parent
      ensures Visiting(g, Progress(), visited, gray)
      ensures visited0 <= visited && b in visited
      ensures |reversePostOrder| > 0 && reversePostOrder[|reversePostOrder| - 1] == b
      ensures forall x :: x in old(parent) ==> x in parent && parent[x] == old(parent[x])
      decreases Blocks(g) - visited0
    {
      hide Visiting;
      visited := visited0 + {b};
      VisitingFacts(g, Progress(), visited0, gray);
      Begin(g, Progress(), visited0, gray, b, from);
      parent := parent[b := from];
      var i := 0;
      while i < |g.succs[b]|
        invariant 0 <= i <= |g.succs[b]|
        invariant Visiting(g, Progress(), visited, gray + {b})
        invariant visited0 + {b} <= visited
        invariant forall x :: x in old(parent) ==> x in parent && parent[x] == old(parent[x])
        invariant forall j :: 0 <= j < i ==> g.succs[b][j] in visited
      {
        var c := g.succs[b][i];
        assert g.Edge(b, c);
        if c !in visited {
          VisitingFacts(g, Progress(), visited, gray + {b});
          ReachableStep(g, b, c);
          visited := PostOrderVisit(c, visited, b, gray + {b});
        }
        i := i + 1;
      }
      End(g, Progress(), visited, gray, b);
      postOrderId := postOrderId[b := |reversePostOrder|];
      reversePostOrder := reversePostOrder + [b];
    }

    ghost function Tree(): Numbering
      requires |reversePostOrder| > 0
      reads this`reversePostOrder, this`postOrderId, this`parent
    {
      Numbering(postOrderId, |reversePostOrder| - 1, parent)
    }

    ghost predicate Ordered()
      reads this`reversePostOrder, this`postOrderId, this`parent
    {
      && |reversePostOrder| > 0
      && ValidNumbering(g, Tree()) && Injective(Tree())
      && Descending(reversePostOrder, postOrderId)
    }

    method CreateReversePostOrder()
      requires g.Valid()
      modifies this`reversePostOrder, this`postOrderId, this`parent
      ensures Ordered()
    {
      reversePostOrder, postOrderId, parent := [], map[], map[];
      EntryReachable(g);
      var _ := PostOrderVisit(g.entry, {}, g.entry, {});
      hide ValidNumbering, Injective, Descending, Visiting, Numbered;
      AllNumbered(g, Progress(), postOrderId.Keys);
      ReversedDescends(Progress());
      reversePostOrder := Reversed(reversePostOrder);
    }

    // ----- immediate dominators -----

    /** The closest block on both idom chains. */
    method Intersect(x: Block, y: Block) returns (n: Block)
      requires Ordered() && Rising(g, Tree(), idom) && x in idom && y in idom
      ensures NearestCommon(Tree(), idom, x, y, n)
    {
      hide Chain, Rising, Descending, ValidNumbering, Injective, Ordered, Up, SameCommon, NearestCommon;
      OrderedFacts();
      RisingNumbers(g, Tree(), idom);
      ghost var top: int := postOrderId[g.entry];
      var b1, b2 := x, y;
      CommonStart(Tree(), idom, x, y);
      while b1 != b2
        invariant b1 in idom && b2 in idom && SameCommon(Tree(), idom, x, y, b1, b2)
        decreases top - Number(b1) + top - Number(b2)
      {
        while postOrderId[b1] < postOrderId[b2]
          invariant b1 in idom && SameCommon(Tree(), idom, x, y, b1, b2)
          decreases top - Number(b1)
        {
          ClimbCommon(g, Tree(), idom, x, y, b1, b2);
          b1 := idom[b1];
        }
        while postOrderId[b2] < postOrderId[b1]
          invariant b2 in idom && SameCommon(Tree(), idom, x, y, b1, b2)
          decreases top - Number(b2)
        {
          ClimbCommon(g, Tree(), idom, x, y, b2, b1);
          b2 := idom[b2];
        }
      }
      n := b1;
      CommonEnd(Tree(), idom, x, y, n);
    }

    ghost function Number(b: Block): int
      requires b in postOrderId
      reads this`postOrderId
    {
      postOrderId[b]
    }

    /** The body of the sweep: the first predecessor with an idom, intersected with the others. */
    method NewIdom(b: Block, ghost w0: Links) returns (newIdom: Block)
      requires Ordered() && b in postOrderId && b != g.entry
      requires Mid(g, Tree(), w0, idom, postOrderId[b])
      ensures IsMeet(g, Tree(), idom, b, newIdom)
    {
      hide ValidNumbering, Injective, Descending, Mid, Chain, Rising, NearestCommon, MeetsListed;
      MidFacts(g, Tree(), w0, idom, b, postOrderId[b]);
      var preds := g.preds[b];
      var k := 0;
      while k < |preds| && preds[k] !in idom
        invariant 0 <= k <= |preds|
        invariant forall i :: 0 <= i < k ==> preds[i] !in idom
      {
        k := k + 1;
      }
      assert k < |preds|;
      var pred := preds[k];
      newIdom := pred;
      MeetsOne(Tree(), idom, pred);
      var j := 0;
      while j < |preds|
        invariant 0 <= j <= |preds|
        invariant newIdom in idom && MeetsListed(Tree(), idom, [pred] + preds[..j], newIdom)
      {
        var p := preds[j];
        ghost var seen := [pred] + preds[..j];
        if p == pred {
          MeetsRepeat(Tree(), idom, seen, p, newIdom);
        } else {
          var next := newIdom;
          if p in idom {
            next := Intersect(p, newIdom);
          }
          MeetsMore(Tree(), idom, seen, p, newIdom, next);
          newIdom := next;
        }
        assert [pred] + preds[..j + 1] == seen + [p];
        j := j + 1;
      }
      ListedIsAll(g, Tree(), idom, [pred] + preds[..j], b, newIdom);
    }

    /** One pass over the blocks in reverse post-order. */
    method Sweep() returns (changed: bool)
      requires Ordered() && Good(g, Tree(), idom)
      modifies this`idom
      ensures Good(g, Tree(), idom) && idom.Keys == postOrderId.Keys
      ensures changed <==> idom != old(idom)
      ensures changed ==> Gap(Tree(), idom, reversePostOrder) < Gap(Tree(), old(idom), reversePostOrder)
      ensures !changed ==> Fixpoint(g, Tree(), idom)
    {
      hide ValidNumbering, Injective, Mid, Good, Chain, Rising, IsMeet, Gap, Descending;
      ghost var w0 := idom;
      MidStart(g, Tree(), idom);
      ghost var moved := g.entry;
      changed := false;
      var k := 0;
      while k < |reversePostOrder|
        invariant 0 <= k <= |reversePostOrder|
        invariant Mid(g, Tree(), w0, idom, |reversePostOrder| - 1 - k)
        invariant k == 0 ==> Mid(g, Tree(), w0, idom, |reversePostOrder| - 2)
        invariant !changed ==> idom == w0
        invariant changed ==> moved in idom && moved in postOrderId && postOrderId[moved] > |reversePostOrder| - 1 - k
        invariant changed ==> moved !in w0 || w0[moved] != idom[moved]
      {
        var b := reversePostOrder[k];
        DescendingFacts(g, Progress(), Tree(), k);
        if b != g.entry {
          var newIdom := NewIdom(b, w0);
          MidStep(g, Tree(), w0, idom, b, newIdom, postOrderId[b]);
          assert b in idom && idom[b] == newIdom ==> idom[b := newIdom] == idom;
          if b !in idom || idom[b] != newIdom {
            MidFacts(g, Tree(), w0, idom, b, postOrderId[b]);
            idom := idom[b := newIdom];
            moved, changed := b, true;
          }
        }
        k := k + 1;
      }
      MidEnd(g, Tree(), w0, idom);
      AllListed(Progress());
      SweepGap(g, Tree(), w0, idom, reversePostOrder);
    }

    /** The whole algorithm: sweeps until nothing changes. */
    method CreateIdom()
      requires Ordered()
      modifies this`idom
      ensures Rising(g, Tree(), idom) && Exact(g, Tree(), idom)
    {
      hide ValidNumbering, Injective, Good, Gap, Exact, Rising, Descending;
      idom := map[];
      idom := idom[g.entry := g.entry];
      RootAloneIsGood(g, Tree());
      var changed := true;
      while changed
        invariant Good(g, Tree(), idom)
        invariant !changed ==> Fixpoint(g, Tree(), idom)
        decreases Gap(Tree(), idom, reversePostOrder), if changed then 1 else 0
      {
        changed := Sweep();
      }
      GoodFacts(g, Tree(), idom);
      FixpointExact(g, Tree(), idom);
    }

    // ----- dominance frontiers and the dominator tree -----

    /** Both loops below need the exact idom map. */
    ghost predicate Analysed()
      reads this`reversePostOrder, this`postOrderId, this`parent, this`idom
    {
      Ordered() && Rising(g, Tree(), idom) && Exact(g, Tree(), idom)
    }

    /** One runner walk: from p up the idom chain until the idom of b, adding b on the way. The walk
        is total: an unreachable block has no idom, and the null entry is its own. */
    method WalkFrontier(b: Block, p: Block)
      requires Analysed() && g.Edge(p, b) && (p in idom <==> b in idom)
      requires domFrontier.Keys == Blocks(g)
      modifies this`domFrontier
      ensures Added(g, old(domFrontier), domFrontier, b, Walked(Tree(), idom, b, p))
    {
      hide Ordered, ValidNumbering, Exact, Rising, Chain, Added, Ahead, RunnerOk, Walked, Blocks;
      OrderedFacts();
      ghost var t := Tree();
      WalkStart(g, t, idom, b, p);
      var stop := GetIdom(idom, b);
      var runner := Some(p);
      ghost var done := {};
      AddedNone(g, domFrontier, b);
      while runner != stop
        invariant RunnerOk(g, t, idom, b, runner)
        invariant Walked(t, idom, b, p) == done + Ahead(t, idom, b, runner)
        invariant Added(g, old(domFrontier), domFrontier, b, done)
        decreases Ahead(t, idom, b, runner)
      {
        WalkStep(g, t, idom, b, runner);
        var r := runner.value;
        AddedMore(g, old(domFrontier), domFrontier, b, done, r, done + {r});
        domFrontier := domFrontier[r := domFrontier[r] + {b}];
        runner := GetIdom(idom, r);
        done := done + {r};
      }
      WalkEnd(t, idom, b);
    }

    lemma OrderedFacts()
      requires Ordered()
      ensures |reversePostOrder| > 0 && ValidNumbering(g, Tree()) && Injective(Tree())
      ensures Tree().id == postOrderId && Tree().top == |reversePostOrder| - 1
    {
    }

    method CreateDominanceFrontier()
      requires Analysed() && NoStrayPreds(g)
      requires AllEmpty(g, domFrontier)
      modifies this`domFrontier
      ensures Analysed() && Constructed(g, Tree(), idom, domFrontier, |g.succs|, [])
    {
      AnalysedFacts();
      ghost var t := Tree();
      ConstructedStart(g, t, idom, domFrontier);
      hide Ordered, ValidNumbering, Exact, Rising, Constructed, Added, Blocks, AllEmpty, SomeWalk, NoStrayPreds;
      var b := 0;
      while b < |g.succs|
        invariant 0 <= b <= |g.succs|
        invariant Constructed(g, t, idom, domFrontier, b, [])
      {
        if |g.preds[b]| >= 2 {
          JoinFrontier(b);
          ConstructedNext(g, t, idom, domFrontier, b, g.preds[b]);
        } else {
          ConstructedNext(g, t, idom, domFrontier, b, []);
        }
        b := b + 1;
      }
    }

    /** The loop over the predecessors of a join block. */
    method JoinFrontier(b: Block)
      requires Analysed() && NoStrayPreds(g) && b < |g.succs| && b < |g.preds| && |g.preds[b]| >= 2
      requires Constructed(g, Tree(), idom, domFrontier, b, [])
      modifies this`domFrontier
      ensures Analysed() && Constructed(g, Tree(), idom, domFrontier, b, g.preds[b])
    {
      hide *;
      AnalysedFacts();
      ghost var t := Tree();
      PredsAreEdges(g, b);
      var i := 0;
      assert g.preds[b][..i] == [];
      while i < |g.preds[b]|
        invariant 0 <= i <= |g.preds[b]|
        invariant Constructed(g, t, idom, domFrontier, b, g.preds[b][..i])
      {
        var p := g.preds[b][i];
        StraySides(g, t, idom, b, p);
        ghost var before := domFrontier;
        ConstructedKeys(g, t, idom, domFrontier, b, g.preds[b][..i]);
        WalkFrontier(b, p);
        ConstructedMore(g, t, idom, before, domFrontier, b, g.preds[b][..i], p);
        assert g.preds[b][..i + 1] == g.preds[b][..i] + [p];
        i := i + 1;
      }
      assert g.preds[b][..i] == g.preds[b];
    }

    lemma AnalysedFacts()
      requires Analysed()
      ensures Ordered() && |reversePostOrder| > 0 && ValidNumbering(g, Tree()) && g.Valid()
      ensures Rising(g, Tree(), idom) && Exact(g, Tree(), idom)
    {
    }

    /** Inverts the idom map; blocks without an idom hang below the null entry. */
    method CreateDomTreeSucc()
      requires AllEmpty(g, domTreeSucc) && nullTreeSucc == {} && g.entry in idom && idom[g.entry] == g.entry
      requires forall b :: b in idom ==> b < |g.succs| && idom[b] < |g.succs|
      requires forall b {:trigger idom[b]} :: b in idom && b != g.entry ==> idom[b] != b
      modifies this`domTreeSucc, this`nullTreeSucc
      ensures TreeCorrect(g, idom, domTreeSucc)
      ensures forall b: Block :: b in nullTreeSucc <==> b < |g.succs| && b !in idom
    {
      var b := 0;
      while b < |g.succs|
        invariant 0 <= b <= |g.succs|
        invariant domTreeSucc.Keys == Blocks(g)
        invariant forall a, c: Block {:trigger c in domTreeSucc[a]} :: a in domTreeSucc ==>
                    (c in domTreeSucc[a] <==> c < b && c != g.entry && c in idom && idom[c] == a)
        invariant forall c: Block :: c in nullTreeSucc <==> c < b && c !in idom
      {
        match GetIdom(idom, b) {
          case None =>
            nullTreeSucc := nullTreeSucc + {b};
          case Some(i) =>
            if i != b {
              assert g.HasBlock(i);
              domTreeSucc := domTreeSucc[i := domTreeSucc[i] + {b}];
            }
        }
        b := b + 1;
      }
    }

    /** The whole analysis of a function. */
    method Run()
      requires g.Valid() && NoStrayPreds(g)
      requires AllEmpty(g, domFrontier) && AllEmpty(g, domTreeSucc) && nullTreeSucc == {}
      modifies this
      ensures Analysed()
      ensures IdomCorrect(g, idom) && FrontierCorrect(g, domFrontier) && TreeCorrect(g, idom, domTreeSucc)
    {
      hide AllEmpty, NoStrayPreds, Ordered, ValidNumbering, Exact, Rising, Constructed, Descending, Injective;
      CreateReversePostOrder();
      CreateIdom();
      CreateDominanceFrontier();
      AnalysedFacts();
      ResultsCorrect(g, Tree(), idom, domFrontier);
      CreateDomTreeSucc();
    }
  }
}
