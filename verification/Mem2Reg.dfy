/** The pass that promotes variables to registers: phi placement, then renaming. */
module Mem2RegPass {
  import opened Cfg
  import opened IdomTheory
  import opened PostOrder
  import opened FrontierTheory
  import opened Ssa
  import opened RenameSpec
  import opened PhiPlacement
  import opened RenameTheory
  import opened RenameOrder

  class Mem2Reg {
    const f: Func
    const frontier: Frontiers
    const tree: Frontiers
    const address: Addresses // of the blocks
    var phis: seq<seq<Phi>>
    var code: seq<Code>
    var varValStack: map<Slot, seq<Operand>>
    var replaced: map<Reg, Operand>

    /** f is the function to promote, frontier and tree what the dominator analysis found. */
    constructor (f: Func, frontier: Frontiers, tree: Frontiers, address: Addresses)
      ensures this.f == f && this.frontier == frontier && this.tree == tree && this.address == address
      ensures phis == f.phis && code == f.code && varValStack == map[] && replaced == map[]
    {
      this.f, this.frontier, this.tree, this.address := f, frontier, tree, address;
      phis, code, varValStack, replaced := f.phis, f.code, map[], map[];
    }

    // ----- phi placement -----

    /** The worklist for one variable. */
    method PlacePhis(v: Slot, stores: set<Block>)
      requires |phis| == |f.g.succs| && frontier.Keys == Blocks(f.g) && forall x {:trigger frontier[x]} ::
        x in frontier ==> frontier[x] <= Blocks(f.g)
      modifies this`phis
      ensures |phis| == old(|phis|)
      ensures forall b {:trigger phis[b]} :: 0 <= b < |phis| ==>
                phis[b] == if Iterated(frontier, stores, b) then [Phi(v, [])] + old(phis[b]) else old(phis[b])
    {
      var workList: seq<Block> := ListOf(stores);
      var hasPhi: set<Block> := {};
      var i := 0;
      while i < |workList|
        invariant Working(frontier, stores, workList, i, hasPhi)
        invariant hasPhi <= Blocks(f.g)
        invariant PlacedFor(old(phis), phis, v, hasPhi)
        decreases Blocks(f.g) - hasPhi, |workList| - i
      {
        var b := workList[i];
        if b in frontier {
          var todo := frontier[b];
          ghost var had, len := hasPhi, |workList|;
          while todo != {}
            invariant todo <= frontier[b] && frontier[b] - todo <= hasPhi
            invariant i < |workList| && workList[i] == b
            invariant Working(frontier, stores, workList, i, hasPhi)
            invariant hasPhi <= Blocks(f.g) && had <= hasPhi
            invariant hasPhi == had ==> |workList| == len
            invariant PlacedFor(old(phis), phis, v, hasPhi)
            decreases todo
          {
            var x :| x in todo;
            todo := todo - {x};
            if x !in hasPhi {
              assert x in Blocks(f.g);
              WorkMore(frontier, stores, workList, i, hasPhi, x);
              PlacedMore(old(phis), phis, v, hasPhi, x);
              phis := phis[x := [Phi(v, [])] + phis[x]];
              workList := workList + [x];
              hasPhi := hasPhi + {x};
            }
          }
        }
        i := i + 1;
      }
      forall b: Block
        ensures b in hasPhi <==> Iterated(frontier, stores, b)
      {
        WorkDone(frontier, stores, workList, hasPhi, b);
      }
    }

    /** Which variables are stored to, and in which blocks. */
    method CollectStores() returns (blocks: map<Slot, set<Block>>)
      ensures forall v :: v in blocks ==> blocks[v] == StoreBlocks(f, v)
      ensures forall v :: v !in blocks ==> StoreBlocks(f, v) == {}
    {
      hide Collected, StoreBlocks;
      blocks := map[];
      CollectedStart(f);
      var b := 0;
      while b < |f.code|
        invariant 0 <= b <= |f.code|
        invariant Collected(f, blocks, b, 0)
      {
        var i := 0;
        while i < |f.code[b].instrs|
          invariant 0 <= i <= |f.code[b].instrs|
          invariant Collected(f, blocks, b, i)
        {
          CollectedMore(f, blocks, b, i);
          var x := f.code[b].instrs[i];
          if x.Store? {
            blocks := blocks[x.slot := (if x.slot in blocks then blocks[x.slot] else {}) + {b}];
          }
          i := i + 1;
        }
        CollectedNext(f, blocks, b);
        b := b + 1;
      }
      CollectedAll(f, blocks);
    }

    method GeneratePhi() returns (ghost vars: set<Slot>)
      requires |phis| == |f.g.succs| && forall b {:trigger phis[b]} :: 0 <= b < |phis| ==> phis[b] == []
      requires frontier.Keys == Blocks(f.g) && forall x {:trigger frontier[x]} :: x in frontier ==>
        frontier[x] <= Blocks(f.g)
      modifies this`phis
      ensures PhisFor(f, frontier, phis, vars)
      ensures forall v :: v !in vars ==> StoreBlocks(f, v) == {}
    {
      var blocks := CollectStores();
      vars := blocks.Keys;
      var todo := blocks.Keys;
      while todo != {}
        invariant todo <= blocks.Keys
        invariant PhisFor(f, frontier, phis, blocks.Keys - todo)
      {
        var v :| v in todo;
        ghost var before := phis;
        PlacePhis(v, blocks[v]);
        PhisForMore(f, frontier, before, phis, blocks.Keys - todo, v);
        assert blocks.Keys - (todo - {v}) == blocks.Keys - todo + {v};
        todo := todo - {v};
      }
    }

    // ----- renaming -----

    /** The context the theory speaks about belongs to this pass. */
    ghost predicate For(c: Ctx, b: Block)
      reads this`code
    {
      c.f == f && WellFormed(c) && b in c.w && b < |code| && |code| == |f.code| && code[b] == f.code[b]
    }

    /** Steps 4 and 5: loads are replaced by the top of their variable's stack, stores push. Fails on
        an existing but empty stack. */
    method RenameBlock(b: Block, ghost c: Ctx, ghost base: Stacks, ghost done: set<Block>)
      returns (ok: bool, kept: seq<Instr>)
      requires For(c, b) && b !in done && Subtree(c, b) !! done && EmptiesMet(c, varValStack, done)
      requires StacksAt(c, base, varValStack, b, 0) && TopsAre(varValStack, InfoIn(c, b).tops)
      requires Agrees(c, replaced, b, 0) && OnlyMet(c, replaced, done, b, 0)
      modifies this`varValStack, this`replaced
      ensures ok ==> StacksAt(c, base, varValStack, b, |c.Instrs(b)|) && TopsAre(varValStack, InfoOut(c, b).tops)
      ensures ok ==> Agrees(c, replaced, b, |c.Instrs(b)|) && OnlyMet(c, replaced, done, b, |c.Instrs(b)|)
      ensures ok ==> OnlyAdds(c, old(replaced), replaced, {b}) && EmptiesMet(c, varValStack, done)
      ensures ok ==> kept == RenamedOf(c.Instrs(b), InfoIn(c, b))
      ensures ok <==> LoadsClear(c, b, done, |c.Instrs(b)|)
    {
      hide WellFormed, StacksAt, TopsAre, Agrees, OnlyMet, InfoAt, InfoIn, InfoOut, RenamedOf, LoadsClear, DefinedIn,
        OnlyAdds, EmptiesMet, Subtree;
      InfoEnds(c, b);
      ok, kept := true, [];
      RenamedNone(c, b);
      OnlyAddsRefl(c, replaced, {b});
      NoLoads(c, b, done);
      var i := 0;
      while i < |code[b].instrs|
        invariant 0 <= i <= |c.Instrs(b)|
        invariant StacksAt(c, base, varValStack, b, i) && TopsAre(varValStack, InfoAt(c, b, i).tops)
        invariant Agrees(c, replaced, b, i) && OnlyMet(c, replaced, done, b, i)
        invariant OnlyAdds(c, old(replaced), replaced, {b}) && EmptiesMet(c, varValStack, done)
        invariant kept == RenamedOf(c.Instrs(b)[..i], InfoIn(c, b)) && LoadsClear(c, b, done, i)
      {
        var x := code[b].instrs[i];
        assert x == c.Instrs(b)[i];
        AgreesOnInstr(c, replaced, b, i);
        AgreesNext(c, replaced, done, b, i);
        OnlyMetNext(c, replaced, done, b, i);
        InfoNext(c, b, i);
        LoadsNext(c, b, done, i);
        match x {
          case Load(d, v) =>
            TopOf(varValStack, InfoAt(c, b, i).tops, v);
            EmptyWhen(c, varValStack, InfoAt(c, b, i).tops, done, v);
            OtherPush(c, base, varValStack, b, i);
            if v in varValStack {
              if varValStack[v] == [] {
                ok := false;
                return;
              }
              OnlyAddsLoad(c, old(replaced), replaced, done, b, i, varValStack[v][|varValStack[v]| - 1]);
              replaced := replaced[d := varValStack[v][|varValStack[v]| - 1]];
            } else {
              kept := kept + [x];
            }
          case Store(src, v) =>
            StorePush(c, base, varValStack, b, i, Resolve(replaced, src));
            EmptiesPush(c, varValStack, done, v, Resolve(replaced, src));
            varValStack := Push(varValStack, v, Resolve(replaced, src));
          case Op(d, op, args) =>
            OtherPush(c, base, varValStack, b, i);
            kept := kept + [Op(d, op, ResolveAll(replaced, args))];
          case Alloca(_, _) =>
            OtherPush(c, base, varValStack, b, i);
            kept := kept + [x];
        }
        i := i + 1;
      }
      assert c.Instrs(b)[..i] == c.Instrs(b);
    }

    /** Step 3: the block's phis become the latest definitions of their variables. */
    method PushBlockPhis(b: Block, ghost c: Ctx, ghost above: map<Slot, Operand>, ghost done: set<Block>)
      requires EmptiesMet(c, varValStack, done)
      requires b < |phis| && SlotsAre(phis[b], c.Placed(b)) && Distinct(c.Placed(b)) && TopsAre(varValStack, above)
      modifies this`varValStack
      ensures EmptiesMet(c, varValStack, done)
      ensures StacksAt(c, old(varValStack), varValStack, b, 0) && TopsAre(varValStack, PushPhis(above, b, c.Placed(b)))
    {
      hide StacksAt, TopsAre, Distinct, EmptiesMet;
      PhisNotPushed(c, varValStack, b);
      var k := 0;
      while k < |phis[b]|
        invariant 0 <= k <= |phis[b]|
        invariant PhisPushed(c, old(varValStack), varValStack, b, k) && EmptiesMet(c, varValStack, done)
      {
        EmptiesPush(c, varValStack, done, phis[b][k].slot, Use(PhiAt(b, phis[b][k].slot)));
        PhiPush(c, old(varValStack), varValStack, b, k);
        varValStack := Push(varValStack, phis[b][k].slot, Use(PhiAt(b, phis[b][k].slot)));
        k := k + 1;
      }
      PhisDone(c, old(varValStack), varValStack, b, above);
    }

    /** Step 6 for one successor: each of its phis gets the top of its variable's stack, if there is a
        stack. Fails on an existing but empty one. */
    method FillBlock(b: Block, y: Block, ghost c: Ctx, ghost done: set<Block>, ghost ys: set<Block>) returns (ok: bool)
      requires b in c.w && c.f.g.Edge(b, y) && y < |phis| && b !in done
      requires Subtree(c, b) !! done && EmptiesMet(c, varValStack, done)
      requires TopsAre(varValStack, InfoOut(c, b).tops) && Filled(c, phis, done, b, ys)
      modifies this`phis
      ensures ok ==> Filled(c, phis, done, b, ys + {y})
      ensures ok <==> EdgeClear(c, b, y, done)
    {
      hide TopsAre, InfoOut, Filled, DefinedIn, EmptiesMet, Subtree;
      FilledShape(c, phis, done, b, ys, y);
      ok := true;
      var i := 0;
      while i < |phis[y]|
        invariant |phis| == |old(phis)| && 0 <= i <= |phis[y]| == |old(phis)[y]|
        invariant forall z :: 0 <= z < |phis| && z != y ==> phis[z] == old(phis)[z]
        invariant forall j :: 0 <= j < i ==> phis[y][j] == FillOne(old(phis)[y][j], InfoOut(c, b).tops, b)
        invariant forall j :: i <= j < |phis[y]| ==> phis[y][j] == old(phis)[y][j]
        invariant forall j :: 0 <= j < i && c.Placed(y)[j] !in InfoOut(c, b).tops ==>
          !DefinedIn(c, done, c.Placed(y)[j])
      {
        var phi := phis[y][i];
        assert phi.slot == c.Placed(y)[i] && c.Placed(y)[i] in c.Placed(y);
        TopOf(varValStack, InfoOut(c, b).tops, phi.slot);
        EmptyWhen(c, varValStack, InfoOut(c, b).tops, done, phi.slot);
        if phi.slot in varValStack {
          if varValStack[phi.slot] == [] {
            ok := false;
            return;
          }
          var top := varValStack[phi.slot][|varValStack[phi.slot]| - 1];
          phis := phis[y := phis[y][i := phi.(pairs := phi.pairs + [(top, b)])]];
        }
        i := i + 1;
      }
      FilledBlock(c, old(phis), phis, done, b, ys, y);
    }

    /** Step 6: all successors. */
    method FillSuccessors(b: Block, ghost c: Ctx, ghost done: set<Block>) returns (ok: bool)
      requires For(c, b) && b !in done && |phis| == |f.g.succs| && f.g.Valid()
      requires Subtree(c, b) !! done && EmptiesMet(c, varValStack, done)
      requires TopsAre(varValStack, InfoOut(c, b).tops) && Filled(c, phis, done, b, {})
      modifies this`phis
      ensures ok ==> |phis| == old(|phis|) && Filled(c, phis, done + {b}, b, {})
      ensures ok <==> forall y: Block {:trigger c.f.g.Edge(b, y)} :: c.f.g.Edge(b, y) ==> EdgeClear(c, b, y, done)
    {
      SuccessorFacts(c, b);
      hide TopsAre, InfoOut, Filled, EdgeClear, WellFormed, EmptiesMet, Subtree;
      ok := true;
      ghost var ys: set<Block> := {};
      var i := 0;
      while i < |f.g.succs[b]|
        invariant 0 <= i <= |f.g.succs[b]|
        invariant Filled(c, phis, done, b, ys)
        invariant |phis| == |f.g.succs|
        invariant forall y :: y in ys <==> y in f.g.succs[b][..i]
        invariant forall y {:trigger y in ys} :: y in ys ==> EdgeClear(c, b, y, done)
      {
        var y := f.g.succs[b][i];
        assert c.f.g.Edge(b, y);
        ok := FillBlock(b, y, c, done, ys);
        if !ok {
          return;
        }
        FilledSize(c, phis, done, b, ys + {y});
        assert f.g.succs[b][..i + 1] == f.g.succs[b][..i] + [y];
        ys := ys + {y};
        i := i + 1;
      }
      assert f.g.succs[b][..i] == f.g.succs[b];
      FilledAll(c, phis, done, b, ys, b);
    }

    /** Step 7: pop what block b pushed. */
    method PopBlock(b: Block, ghost c: Ctx, ghost base: Stacks, ghost full: Stacks, ghost done: set<Block>)
      requires b in done && EmptiesMet(c, varValStack, done)
      requires For(c, b) && b < |phis| && SlotsAre(phis[b], c.Placed(b)) && Distinct(c.Placed(b))
      requires StacksAt(c, base, full, b, |c.Instrs(b)|) && SameStacks(varValStack, full)
      modifies this`varValStack
      ensures SameStacks(varValStack, base) && EmptiesMet(c, varValStack, done)
    {
      hide WellFormed, StacksAt, SameStacks, PhisPopped, Popped, Distinct, EmptiesMet;
      PopStart(c, base, full, varValStack, b);
      var k := 0;
      while k < |phis[b]|
        invariant 0 <= k <= |phis[b]|
        invariant PhisPopped(c, base, varValStack, b, k) && EmptiesMet(c, varValStack, done)
      {
        PhiPop(c, base, varValStack, b, k);
        assert phis[b][k].slot in c.Placed(b);
        EmptiesPop(c, varValStack, done, b, phis[b][k].slot);
        varValStack := Pop(varValStack, phis[b][k].slot);
        k := k + 1;
      }
      PhisAllPopped(c, base, varValStack, b);
      var j := 0;
      while j < |code[b].instrs|
        invariant 0 <= j <= |c.Instrs(b)|
        invariant Popped(c, base, varValStack, b, j) && EmptiesMet(c, varValStack, done)
      {
        var x := code[b].instrs[j];
        assert x == c.Instrs(b)[j];
        if x.Store? {
          StorePop(c, base, varValStack, b, j);
          StoreDefines(c, b, j);
          EmptiesPop(c, varValStack, done, b, x.slot);
          varValStack := Pop(varValStack, x.slot);
        } else {
          OtherPop(c, base, varValStack, b, j);
        }
        j := j + 1;
      }
      PopDone(c, base, varValStack, b);
    }

    /** The recursion over the dominator tree. On success exactly the blocks of b's subtree have been
        rewritten, the edges out of them filled, and the stacks are what they were; it fails exactly if a
        variable of the subtree is uncovered and defined in a block that was entered before. */
    method ReName(b: Block, ghost c: Ctx, ghost done: set<Block>) returns (ok: bool)
      requires For(c, b) && DominatorInfo(c) && TreeCorrect(f.g, c.w, tree)
      requires PlacesDistinct(c) && Subtree(c, b) !! done && Different(address) && done == Before(c, address, b)
      requires |phis| == |f.g.succs| && Filled(c, phis, done, b, {})
      requires Pristine(c, code, Subtree(c, b))
      requires EmptiesMet(c, varValStack, done)
      requires TopsAre(varValStack, Above(c, b).tops) && Agrees(c, replaced, b, 0) && OnlyMet(c, replaced, done, b, 0)
      modifies this`phis, this`code, this`varValStack, this`replaced
      ensures ok ==> |phis| == |f.g.succs|
      ensures ok ==> SameStacks(varValStack, old(varValStack)) && EmptiesMet(c, varValStack, done + Subtree(c, b))
      ensures ok ==>
        OnlyAdds(c, old(replaced), replaced, Subtree(c, b)) && OnlyMet(c, replaced, done + Subtree(c, b), b, 0)
      ensures ok ==> Filled(c, phis, done + Subtree(c, b), b, {})
      ensures ok ==> CodeRenamed(c, old(code), code, Subtree(c, b))
      ensures ok <==> AllClear(c, address, Subtree(c, b))
      decreases if b in c.t.id then c.t.id[b] else 0
    {
      hide WellFormed, DominatorInfo, TreeCorrect, PlacesDistinct, Subtree, Subtrees, Filled, Pristine, TopsAre, Agrees,
        OnlyMet, StacksAt, SameStacks, OnlyAdds, CodeRenamed, ChildState, InfoIn, InfoOut, Above, Chain, SlotsAre,
        Distinct, EmptiesMet, BlockClear, AllClear, LoadsClear, EdgeClear, Before, Different;
      ghost var base, code0, replaced0 := varValStack, code, replaced;
      EnterFacts(c, phis, done, b);
      ChildrenFacts(c, tree, b);
      ClearParts(c, b, done);
      ClearSubtree(c, address, b, tree[b]);
      PushBlockPhis(b, c, Above(c, b).tops, done);
      var kept;
      ok, kept := RenameBlock(b, c, base, done);
      if !ok {
        return;
      }
      AgreesOnTerm(c, replaced, b);
      var term := ResolveTerm(replaced, code[b].term);
      ok := FillSuccessors(b, c, done);
      if !ok {
        return;
      }
      ghost var full := varValStack;
      OnlyMetBlock(c, replaced, done, b, |c.Instrs(b)|);
      ChildrenStart(c, b, done, full, phis, code, replaced0, replaced);
      ok := ReNameChildren(b, c, done, full, code0, replaced0);
      if !ok {
        return;
      }
      AfterChildren(c, tree, b, done, full, varValStack, code0, code, phis, replaced0, replaced);
      PopBlock(b, c, base, full, done + Subtree(c, b));
      code := code[b := Code(kept, term)];
    }

    /** The children in the order of their addresses. */
    method ReNameChildren(b: Block, ghost c: Ctx, ghost done: set<Block>, ghost full: Stacks, ghost code0: seq<Code>,
                          ghost replaced0: map<Reg, Operand>) returns (ok: bool)
      requires c.f == f && WellFormed(c) && b in c.w && b < |f.g.succs| && DominatorInfo(c)
      requires TreeCorrect(f.g, c.w, tree)
      requires PlacesDistinct(c) && Subtree(c, b) !! done && Different(address) && done == Before(c, address, b)
      requires ChildState(c, b, done, {}, full, varValStack, code0, code, phis, replaced0, replaced)
      requires Pristine(c, code0, Subtree(c, b)) && TopsAre(full, InfoOut(c, b).tops)
      modifies this`phis, this`code, this`varValStack, this`replaced
      ensures b in tree
      ensures (ok ==> ChildState(c, b, done, tree[b], full, varValStack, code0, code, phis, replaced0, replaced))
      ensures ok <==> AllClear(c, address, Subtrees(c, tree[b]))
      decreases if b in c.t.id then c.t.id[b] else 0, 1
    {
      hide WellFormed, DominatorInfo, TreeCorrect, PlacesDistinct, Subtree, Subtrees, Pristine, TopsAre, ChildState,
        InfoOut, AllClear, Before, Different;
      ok := true;
      ChildrenFacts(c, tree, b);
      var todo := tree[b];
      assert tree[b] - todo == {};
      NoneClear(c, address);
      while todo != {}
        invariant todo <= tree[b]
        invariant forall j, k {:trigger address(j), address(k)} :: j in tree[b] - todo && k in todo ==>
          address(j) < address(k)
        invariant ChildState(c, b, done, tree[b] - todo, full, varValStack, code0, code, phis, replaced0, replaced)
        invariant AllClear(c, address, Subtrees(c, tree[b] - todo))
      {
        var k := First(todo);
        FirstComes(todo, tree[b], k);
        ok := ReNameChild(b, k, c, done, tree[b] - todo, full, code0, replaced0);
        assert tree[b] - (todo - {k}) == (tree[b] - todo) + {k};
        if !ok {
          ClearParents(c, tree[b] - (todo - {k}), tree[b]);
          return;
        }
        todo := todo - {k};
      }
      assert tree[b] - todo == tree[b];
    }

    method ReNameChild(b: Block, k: Block, ghost c: Ctx, ghost done: set<Block>, ghost ks: set<Block>,
                       ghost full: Stacks, ghost code0: seq<Code>,
                       ghost replaced0: map<Reg, Operand>) returns (ok: bool)
      requires c.f == f && WellFormed(c) && b in c.w && b < |f.g.succs| && DominatorInfo(c)
      requires TreeCorrect(f.g, c.w, tree)
      requires PlacesDistinct(c) && Subtree(c, b) !! done && Different(address) && done == Before(c, address, b)
      requires IsChild(c, b, k) && forall j :: j in ks <==> IsChild(c, b, j) && address(j) < address(k)
      requires ChildState(c, b, done, ks, full, varValStack, code0, code, phis, replaced0, replaced)
      requires AllClear(c, address, Subtrees(c, ks))
      requires Pristine(c, code0, Subtree(c, b)) && TopsAre(full, InfoOut(c, b).tops)
      modifies this`phis, this`code, this`varValStack, this`replaced
      ensures ok ==> ChildState(c, b, done, ks + {k}, full, varValStack, code0, code, phis, replaced0, replaced)
      ensures ok <==> AllClear(c, address, Subtrees(c, ks + {k}))
      decreases if b in c.t.id then c.t.id[b] else 0, 0
    {
      hide WellFormed, DominatorInfo, TreeCorrect, PlacesDistinct, Subtree, Subtrees, Filled, Pristine, TopsAre, Agrees,
        OnlyMet, SameStacks, OnlyAdds, CodeRenamed, ChildState, InfoOut, Above, Chain, EmptiesMet, AllClear, Before,
        Different;
      EnteredBefore(c, address, b, ks, k);
      BeforeChild(c, b, done, ks, k, full, varValStack, code0, code, phis, replaced0, replaced);
      ChildStateParts(c, b, done, ks, full, varValStack, code0, code, phis, replaced0, replaced);
      ghost var code1, replaced1, stack1 := code, replaced, varValStack;
      ClearChildren(c, address, ks, k);
      SuccessorCount(c);
      ok := ReName(k, c, done + {b} + Subtrees(c, ks));
      if ok {
        AfterChild(c, b, done, ks, k, full, stack1, varValStack, code0, code1, code, phis, replaced0, replaced1,
          replaced);
      }
    }

    lemma SuccessorCount(c: Ctx)
      requires WellFormed(c)
      ensures |c.place| == |c.f.g.succs| == |c.f.code|
    {
    }

    lemma ClearParents(c: Ctx, ks: set<Block>, all: set<Block>)
      requires ks <= all
      ensures AllClear(c, address, Subtrees(c, all)) ==> AllClear(c, address, Subtrees(c, ks))
    {
      assert Subtrees(c, ks) <= Subtrees(c, all);
      hide Subtrees, BlockClear;
    }

    lemma FirstComes(todo: set<Block>, all: set<Block>, k: Block)
      requires Different(address) && todo <= all && k in todo && forall j :: j in todo ==> address(k) <= address(j)
      requires forall j, k {:trigger address(j), address(k)} :: j in all - todo && k in todo ==> address(j) < address(k)
      ensures forall j :: j in all - todo <==> j in all && address(j) < address(k)
      ensures forall j, m {:trigger address(j), address(m)} :: j in all - (todo - {k}) && m in todo - {k} ==>
        address(j) < address(m)
    {
      forall j, m | j in all - (todo - {k}) && m in todo - {k}
        ensures address(j) < address(m)
      {
        assert j == k ==> address(k) <= address(m) && address(k) != address(m);
      }
    }

    /** The block with the lowest address. */
    method First(s: set<Block>) returns (k: Block)
      requires s != {}
      ensures k in s && forall j :: j in s ==> address(k) <= address(j)
    {
      k :| k in s;
      var rest := s - {k};
      while rest != {}
        invariant rest <= s && k in s && forall j :: j in s - rest ==> address(k) <= address(j)
      {
        var j :| j in rest;
        if address(j) < address(k) {
          k := j;
        }
        rest := rest - {j};
      }
    }

    /** The allocas of int and float variables are deleted everywhere. */
    method RemoveAlloca()
      modifies this`code
      ensures |code| == old(|code|)
      ensures forall b {:trigger code[b]} :: 0 <= b < |code| ==>
                code[b] == old(code[b]).(instrs := DropScalars(old(code[b]).instrs))
    {
      var b := 0;
      while b < |code|
        invariant 0 <= b <= |code| == |old(code)|
        invariant forall x {:trigger code[x]} :: 0 <= x < b ==>
                    code[x] == old(code)[x].(instrs := DropScalars(old(code)[x].instrs))
        invariant forall x {:trigger code[x]} :: b <= x < |code| ==> code[x] == old(code)[x]
      {
        var kept := [];
        var i := 0;
        var xs := code[b].instrs;
        while i < |xs|
          invariant 0 <= i <= |xs|
          invariant kept == DropScalars(xs[..i])
        {
          assert xs[..i + 1][..i] == xs[..i];
          if !(xs[i].Alloca? && xs[i].scalar) {
            kept := kept + [xs[i]];
          }
          i := i + 1;
        }
        assert xs[..i] == xs;
        code := code[b := code[b].(instrs := kept)];
        b := b + 1;
      }
    }
  }

  /** The members of a set in some order. */
  method ListOf(s: set<Block>) returns (q: seq<Block>)
    ensures forall x :: x in q <==> x in s
  {
    q := [];
    var todo := s;
    while todo != {}
      invariant todo <= s && forall x :: x in q <==> x in s - todo
    {
      var x :| x in todo;
      todo := todo - {x};
      q := q + [x];
    }
  }
}
