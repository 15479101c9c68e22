/** The order in which the renaming visits the dominator tree, and when it meets an empty stack. */
module RenameOrder {
  import opened Cfg
  import opened IdomTheory
  import opened FrontierTheory
  import opened Ssa
  import opened RenameSpec
  import opened RenameTheory

  /** Where each block lies in memory: children are visited in the order of their addresses. */
  type Addresses = Block -> nat

  ghost predicate Different(address: Addresses) {
    forall a, b {:trigger address(a), address(b)} :: address(a) == address(b) ==> a == b
  }

  ghost predicate IsChild(c: Ctx, p: Block, k: Block) {
    Up(c.t, c.w, k) && c.w[k] == p
  }

  /** The children visited before x. */
  ghost function Siblings(c: Ctx, address: Addresses, x: Block): set<Block>
    requires x in c.w
  {
    set k | k in c.w && IsChild(c, c.w[x], k) && address(k) < address(x)
  }

  /** All blocks entered before x. */
  ghost function Before(c: Ctx, address: Addresses, x: Block): set<Block>
    decreases if x in c.t.id then c.t.top - c.t.id[x] else 0
  {
    if Up(c.t, c.w, x) then Before(c, address, c.w[x]) + {c.w[x]} + Subtrees(c, Siblings(c, address, x)) else {}
  }

  /** No uncovered variable of b is defined in a block entered before. */
  ghost predicate BlockClear(c: Ctx, b: Block, done: set<Block>) {
    forall s {:trigger Uncovered(c, b, s)} :: Uncovered(c, b, s) ==> !DefinedIn(c, done, s)
  }

  ghost predicate AllClear(c: Ctx, address: Addresses, blocks: set<Block>) {
    forall x {:trigger Before(c, address, x)} :: x in blocks ==> BlockClear(c, x, Before(c, address, x))
  }

  /** The whole visit meets no empty stack. */
  ghost predicate Clear(c: Ctx, address: Addresses) {
    AllClear(c, address, c.w.Keys)
  }

  // ----- clear for every order -----

  lemma {:induction false} BeforeApart(c: Ctx, address: Addresses, b: Block, x: Block)
    requires x in Before(c, address, b)
    ensures b !in Chain(c.t, c.w, x) && x in c.w
    decreases if b in c.t.id then c.t.top - c.t.id[b] else 0
  {
    var p := c.w[b];
    NotAbove(c.t, c.w, b);
    if x in Before(c, address, p) {
      BeforeApart(c, address, p, x);
      if b in Chain(c.t, c.w, x) {
        ChainTransitive(c.t, c.w, x, b);
      }
    } else if x != p {
      SubtreesApart(c, p, Siblings(c, address, b), b);
    }
  }

  lemma {:induction false} BeforeDown(c: Ctx, address: Addresses, k: Block, b: Block)
    requires k in Chain(c.t, c.w, b)
    ensures Before(c, address, k) <= Before(c, address, b)
    decreases if b in c.t.id then c.t.top - c.t.id[b] else 0
  {
    if k != b {
      BeforeDown(c, address, k, c.w[b]);
    }
  }

  /** A definition in the block or above it covers all its uses. */
  lemma {:induction false} AboveCovers(c: Ctx, b: Block, x: Block, s: Slot)
    requires x in Chain(c.t, c.w, b) && DefBlock(c, x, s)
    ensures s in InfoOut(c, b).tops && (x != b ==> s in InfoIn(c, b).tops)
    decreases if b in c.t.id then c.t.top - c.t.id[b] else 0
  {
    if x == b {
      DefinitionOnTop(c, b, s);
    } else {
      AboveCovers(c, c.w[b], x, s);
      ScanTopsGrow(c.Instrs(b), InfoIn(c, b), s);
    }
  }

  lemma UncoveredAbove(c: Ctx, b: Block, x: Block, s: Slot)
    requires Uncovered(c, b, s) && DefBlock(c, x, s) && x != b
    ensures x !in Chain(c.t, c.w, b)
  {
    if x in Chain(c.t, c.w, b) {
      AboveCovers(c, b, x, s);
      forall i | 0 <= i <= |c.Instrs(b)|
        ensures s in InfoAt(c, b, i).tops
      {
        ScanTopsGrow(c.Instrs(b)[..i], InfoIn(c, b), s);
      }
    }
  }

  /** Two blocks of which none dominates the other lie below different children of one block. */
  lemma {:induction false} Fork(c: Ctx, x: Block, b: Block) returns (kx: Block, kb: Block)
    requires DominatorInfo(c) && x in c.w && b in c.w && x !in Chain(c.t, c.w, b) && b !in Chain(c.t, c.w, x)
    ensures Up(c.t, c.w, kx) && IsChild(c, c.w[kx], kb) && kx != kb
    ensures kx in Chain(c.t, c.w, x) && kb in Chain(c.t, c.w, b)
    decreases if x in c.t.id then c.t.top - c.t.id[x] else 0
  {
    ChainReachesEntry(c.f.g, c.t, c.w, b);
    assert Up(c.t, c.w, x);
    var p := c.w[x];
    if p in Chain(c.t, c.w, b) {
      kx := x;
      kb := ChildTowards(c, p, b);
    } else {
      kx, kb := Fork(c, p, b);
    }
  }

  /** Some order of the children fails if an uncovered block does not dominate a definition. */
  lemma FailingOrder(c: Ctx, b: Block, s: Slot, x: Block) returns (address: Addresses)
    requires DominatorInfo(c) && b in c.w && Uncovered(c, b, s) && x in c.w && DefBlock(c, x, s)
    requires b !in Chain(c.t, c.w, x)
    ensures Different(address) && !Clear(c, address)
  {
    UncoveredAbove(c, b, x, s);
    var kx, kb := Fork(c, x, b);
    address := y => if y == kx then 0 else y + 1;
    assert kx in Siblings(c, address, kb);
    assert x in Subtrees(c, Siblings(c, address, kb));
    BeforeDown(c, address, kb, b);
    assert DefinedIn(c, Before(c, address, b), s);
    assert !BlockClear(c, b, Before(c, address, b));
  }

  /** The renaming meets no empty stack in any order if and only if it is safe. */
  lemma SafeWhen(c: Ctx)
    requires DominatorInfo(c)
    ensures Safe(c) <==> forall address: Addresses {:trigger Clear(c, address)} :: Different(address) ==>
      Clear(c, address)
  {
    if Safe(c) {
      forall address: Addresses
        ensures Clear(c, address)
      {
        SafeClear(c, address);
      }
    } else {
      var b, s, x :| b in c.w && Uncovered(c, b, s) && x in c.w && DefBlock(c, x, s) && b !in Chain(c.t, c.w, x);
      var address := FailingOrder(c, b, s, x);
    }
  }

  lemma SafeClear(c: Ctx, address: Addresses)
    requires Safe(c)
    ensures Clear(c, address)
  {
    forall b, s | b in c.w && Uncovered(c, b, s)
      ensures !DefinedIn(c, Before(c, address, b), s)
    {
      if DefinedIn(c, Before(c, address, b), s) {
        var x :| x in Before(c, address, b) && x in c.w && DefBlock(c, x, s);
        BeforeApart(c, address, b, x);
      }
    }
  }

  // ----- block by block -----

  /** The loads before instruction n. */
  ghost predicate LoadsClear(c: Ctx, b: Block, done: set<Block>, n: nat)
    requires n <= |c.Instrs(b)|
  {
    forall i {:trigger c.Instrs(b)[i]} ::
      0 <= i < n && c.Instrs(b)[i].Load? && c.Instrs(b)[i].slot !in InfoAt(c, b, i).tops ==>
      !DefinedIn(c, done, c.Instrs(b)[i].slot)
  }

  lemma LoadsNext(c: Ctx, b: Block, done: set<Block>, i: nat)
    requires i < |c.Instrs(b)|
    ensures var x := c.Instrs(b)[i];
            LoadsClear(c, b, done, i + 1) <==>
              LoadsClear(c, b, done, i) && (x.Load? && x.slot !in InfoAt(c, b, i).tops ==> !DefinedIn(c, done, x.slot))
    ensures LoadsClear(c, b, done, |c.Instrs(b)|) ==> LoadsClear(c, b, done, i + 1)
  {
  }

  ghost predicate EdgeClear(c: Ctx, b: Block, y: Block, done: set<Block>) {
    forall s {:trigger s in c.Placed(y)} :: s in c.Placed(y) && s !in InfoOut(c, b).tops ==> !DefinedIn(c, done, s)
  }

  lemma ClearParts(c: Ctx, b: Block, done: set<Block>)
    ensures BlockClear(c, b, done) <==>
              LoadsClear(c, b, done, |c.Instrs(b)|) && forall y: Block {:trigger c.f.g.Edge(b, y)} ::
                c.f.g.Edge(b, y) ==> EdgeClear(c, b, y, done)
  {
    if BlockClear(c, b, done) {
      forall i | 0 <= i < |c.Instrs(b)| && c.Instrs(b)[i].Load? && c.Instrs(b)[i].slot !in InfoAt(c, b, i).tops
        ensures !DefinedIn(c, done, c.Instrs(b)[i].slot)
      {
        assert Uncovered(c, b, c.Instrs(b)[i].slot);
      }
      forall y: Block, s | c.f.g.Edge(b, y) && s in c.Placed(y) && s !in InfoOut(c, b).tops
        ensures !DefinedIn(c, done, s)
      {
        assert Uncovered(c, b, s);
      }
    }
  }

  /** What is entered before child k: what was before b, b itself, and the subtrees of the children that
      come before k. */
  lemma EnteredBefore(c: Ctx, address: Addresses, b: Block, ks: set<Block>, k: Block)
    requires IsChild(c, b, k) && forall j :: j in ks <==> IsChild(c, b, j) && address(j) < address(k)
    ensures Before(c, address, k) == Before(c, address, b) + {b} + Subtrees(c, ks)
  {
    assert Siblings(c, address, k) == ks;
  }

  lemma ClearChildren(c: Ctx, address: Addresses, ks: set<Block>, k: Block)
    ensures AllClear(c, address, Subtrees(c, ks + {k})) <==>
      AllClear(c, address, Subtrees(c, ks)) && AllClear(c, address, Subtree(c, k))
  {
    SubtreesMore(c, ks, k);
    hide BlockClear;
  }

  lemma ClearSubtree(c: Ctx, address: Addresses, b: Block, ks: set<Block>)
    requires b in c.w && forall k :: k in ks <==> IsChild(c, b, k)
    ensures AllClear(c, address, Subtree(c, b)) <==>
      BlockClear(c, b, Before(c, address, b)) && AllClear(c, address, Subtrees(c, ks))
  {
    SubtreeSplit(c, b, ks);
    hide BlockClear;
  }

  lemma NoLoads(c: Ctx, b: Block, done: set<Block>)
    ensures LoadsClear(c, b, done, 0)
  {
  }

  lemma NoneClear(c: Ctx, address: Addresses)
    ensures AllClear(c, address, Subtrees(c, {}))
  {
  }
}
