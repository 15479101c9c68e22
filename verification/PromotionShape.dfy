/** What promotion leaves in the code of each block, whatever is executed: the operations and the storage
    of arrays stay, and accesses to memory go. */
module PromotionShape {
  import opened Cfg
  import opened IdomTheory
  import opened FrontierTheory
  import opened Ssa
  import opened RenameSpec
  import opened RenameTheory
  import opened RenameOrder

  // ----- operations and the storage of arrays -----

  /** An operation without its operands, or an alloca of something other than an int or float variable. */
  function Bare(x: Instr): seq<Instr> {
    match x
    case Op(d, op, args) => [Op(d, op, seq(|args|, _ => Const(0)))]
    case Alloca(_, scalar) => if scalar then [] else [x]
    case _ => []
  }

  function Skeleton(xs: seq<Instr>): seq<Instr> {
    if xs == [] then [] else Skeleton(xs[..|xs| - 1]) + Bare(xs[|xs| - 1])
  }

  lemma SkeletonOne(x: Instr)
    ensures Skeleton([x]) == Bare(x)
  {
    assert [x][..0] == [];
  }

  lemma {:induction false} SkeletonAppend(xs: seq<Instr>, ys: seq<Instr>)
    ensures Skeleton(xs + ys) == Skeleton(xs) + Skeleton(ys)
  {
    if ys == [] {
      assert xs + ys == xs;
    } else {
      assert (xs + ys)[..|xs + ys| - 1] == xs + ys[..|ys| - 1];
      SkeletonAppend(xs, ys[..|ys| - 1]);
    }
  }

  lemma BareRenamed(info: Info, x: Instr)
    ensures Skeleton(Renamed(info, x)) == Bare(x)
  {
    if Renamed(info, x) != [] {
      SkeletonOne(Renamed(info, x)[0]);
    }
  }

  lemma {:induction false} SkeletonRenamed(xs: seq<Instr>, info: Info)
    ensures Skeleton(RenamedOf(xs, info)) == Skeleton(xs)
  {
    if xs != [] {
      hide Renamed, Bare;
      var init, x := xs[..|xs| - 1], xs[|xs| - 1];
      SkeletonRenamed(init, info);
      BareRenamed(Scan(init, info), x);
      SkeletonAppend(RenamedOf(init, info), Renamed(Scan(init, info), x));
    }
  }

  lemma {:induction false} SkeletonDropped(xs: seq<Instr>)
    ensures Skeleton(DropScalars(xs)) == Skeleton(xs)
  {
    if xs != [] {
      var init, x := xs[..|xs| - 1], xs[|xs| - 1];
      SkeletonDropped(init);
      SkeletonOne(x);
      SkeletonAppend(DropScalars(init), [x]);
      assert DropScalars(xs) == DropScalars(init) + if Bare(x) == [] && x.Alloca? then [] else [x];
      assert DropScalars(init) + [] == DropScalars(init);
    }
  }

  lemma BareCount(x: Instr, s: Slot)
    ensures multiset(Bare(x))[Alloca(s, false)] == if x == Alloca(s, false) then 1 else 0
  {
  }

  lemma {:induction false} ArraysInSkeleton(xs: seq<Instr>, s: Slot)
    ensures multiset(Skeleton(xs))[Alloca(s, false)] == multiset(xs)[Alloca(s, false)]
  {
    if xs != [] {
      var init, x := xs[..|xs| - 1], xs[|xs| - 1];
      hide Bare;
      ArraysInSkeleton(init, s);
      BareCount(x, s);
      assert xs == init + [x];
    }
  }

  lemma {:induction false} DroppedFrom(xs: seq<Instr>, x: Instr)
    ensures x in DropScalars(xs) <==> x in xs && !(x.Alloca? && x.scalar)
  {
    if xs != [] {
      DroppedFrom(xs[..|xs| - 1], x);
      assert xs == xs[..|xs| - 1] + [xs[|xs| - 1]];
    }
  }

  /** Every block keeps its operations and the storage of its arrays, in order, and loses the storage of
      int and float variables. */
  ghost predicate StorageKept(f: Func, h: Func) {
    && |h.code| == |f.code|
    && forall b: Block {:trigger h.code[b]} :: b < |h.code| ==>
         && Skeleton(h.code[b].instrs) == Skeleton(f.code[b].instrs)
         && (forall s :: multiset(h.code[b].instrs)[Alloca(s, false)] == multiset(f.code[b].instrs)[Alloca(s, false)])
         && (forall s :: Alloca(s, true) !in h.code[b].instrs)
  }

  // ----- loads and stores -----

  /** A definition of s comes before position i of block b, in it or in a block that dominates it. */
  ghost predicate Covered(c: Ctx, b: Block, i: nat, s: Slot) {
    || (i <= |c.Instrs(b)| && StoresTo(c.Instrs(b)[..i], s))
    || s in c.Placed(b)
    || exists d :: d != b && c.f.g.Dominates(d, b) && DefBlock(c, d, s)
  }

  lemma {:induction false} ScanTopsFrom(xs: seq<Instr>, info: Info, s: Slot)
    ensures s in Scan(xs, info).tops <==> s in info.tops || StoresTo(xs, s)
  {
    if xs != [] {
      var ys, last := xs[..|xs| - 1], xs[|xs| - 1];
      ScanTopsFrom(ys, info, s);
      assert forall i :: 0 <= i < |ys| ==> ys[i] == xs[i];
      assert StoresTo(xs, s) <==> StoresTo(ys, s) || (last.Store? && last.slot == s);
    }
  }

  /** On the stack at the head of b lies what b's phis or the blocks above define. */
  lemma {:induction false} TopsFrom(c: Ctx, b: Block, s: Slot)
    ensures s in InfoIn(c, b).tops <==>
      s in c.Placed(b) || exists d :: d != b && d in Chain(c.t, c.w, b) && DefBlock(c, d, s)
    decreases if b in c.t.id then c.t.top - c.t.id[b] else 0
  {
    if Up(c.t, c.w, b) {
      var p := c.w[b];
      NotAbove(c.t, c.w, b);
      TopsFrom(c, p, s);
      ScanTopsFrom(c.Instrs(p), InfoIn(c, p), s);
      assert Chain(c.t, c.w, b) == {b} + Chain(c.t, c.w, p);
      if s in InfoOut(c, p).tops {
        var d :| d in Chain(c.t, c.w, p) && DefBlock(c, d, s);
        assert d != b;
      }
    }
  }

  /** A load finds a value exactly if a definition comes before it. */
  lemma CoveredWhen(c: Ctx, b: Block, i: nat, s: Slot)
    requires DominatorInfo(c) && b in c.w && i <= |c.Instrs(b)|
    ensures s in InfoAt(c, b, i).tops <==> Covered(c, b, i, s)
  {
    ScanTopsFrom(c.Instrs(b)[..i], InfoIn(c, b), s);
    TopsFrom(c, b, s);
    hide InfoIn, DefBlock, StoresTo;
    assert forall d {:trigger d in Chain(c.t, c.w, b)} :: d in Chain(c.t, c.w, b) <==> c.f.g.Dominates(d, b);
  }

  lemma {:induction false} RenamedFrom(xs: seq<Instr>, info: Info, x: Instr)
    requires x in RenamedOf(xs, info) && !x.Op?
    ensures !x.Store? && x in xs
    ensures x.Load? ==> exists i :: 0 <= i < |xs| && xs[i] == x && x.slot !in Scan(xs[..i], info).tops
  {
    var init, last := xs[..|xs| - 1], xs[|xs| - 1];
    if x in RenamedOf(init, info) {
      RenamedFrom(init, info, x);
      if x.Load? {
        var i :| 0 <= i < |init| && init[i] == x && x.slot !in Scan(init[..i], info).tops;
        assert init[..i] == xs[..i] && xs[i] == x;
      }
    } else {
      assert x == last;
    }
  }

  lemma {:induction false} StaysRenamed(xs: seq<Instr>, info: Info, i: nat)
    requires i < |xs| && xs[i].Load? && xs[i].slot !in Scan(xs[..i], info).tops
    ensures xs[i] in RenamedOf(xs, info)
  {
    var init := xs[..|xs| - 1];
    if i < |init| {
      assert init[..i] == xs[..i];
      StaysRenamed(init, info, i);
    }
  }

  /** In reachable blocks no store is left, and of the loads exactly those before which no definition
      comes; unreachable blocks keep everything but allocas of int and float variables. */
  ghost predicate MemoryGone(c: Ctx, h: Func) {
    && |h.code| == |c.f.code|
    && (forall b: Block, x {:trigger x in InstrsOf(h, b)} :: b in c.w && x in InstrsOf(h, b) ==> !x.Store?)
    && (forall b: Block, i {:trigger c.Instrs(b)[i]} :: b in c.w && 0 <= i < |c.Instrs(b)| && c.Instrs(b)[i].Load? ==>
          (c.Instrs(b)[i] in InstrsOf(h, b) <==> !Covered(c, b, i, c.Instrs(b)[i].slot)))
    && (forall b: Block, x {:trigger x in InstrsOf(h, b)} :: b in c.w && x in InstrsOf(h, b) && x.Load? ==>
          x in c.Instrs(b))
    && (forall b: Block {:trigger h.code[b]} :: b < |h.code| && b !in c.w ==>
          h.code[b].term == c.f.code[b].term
            && forall x {:trigger x in h.code[b].instrs} :: x in h.code[b].instrs <==>
                 x in c.f.code[b].instrs && !(x.Alloca? && x.scalar))
  }

  /** The code that renaming and the removal of allocas leave. */
  ghost predicate Cleared(c: Ctx, h: Func) {
    && |h.code| == |c.f.code|
    && forall b: Block {:trigger h.code[b]} :: b < |h.code| ==>
         var code := if b in c.w then RenamedCode(c, b) else c.f.code[b];
         h.code[b] == code.(instrs := DropScalars(code.instrs))
  }

  lemma StorageStays(c: Ctx, h: Func)
    requires Cleared(c, h)
    ensures StorageKept(c.f, h)
  {
    hide DropScalars, RenamedOf, Skeleton;
    forall b: Block | b < |h.code|
      ensures Skeleton(h.code[b].instrs) == Skeleton(c.f.code[b].instrs)
      ensures forall s :: multiset(h.code[b].instrs)[Alloca(s, false)] == multiset(c.f.code[b].instrs)[Alloca(s, false)]
      ensures forall s :: Alloca(s, true) !in h.code[b].instrs
    {
      var xs := c.f.code[b].instrs;
      var ys := if b in c.w then RenamedOf(xs, InfoIn(c, b)) else xs;
      assert h.code[b].instrs == DropScalars(ys);
      SkeletonRenamed(xs, InfoIn(c, b));
      SkeletonDropped(ys);
      forall s
        ensures multiset(h.code[b].instrs)[Alloca(s, false)] == multiset(xs)[Alloca(s, false)]
        ensures Alloca(s, true) !in h.code[b].instrs
      {
        ArraysInSkeleton(xs, s);
        ArraysInSkeleton(h.code[b].instrs, s);
        DroppedFrom(ys, Alloca(s, true));
      }
    }
  }

  /** A load has the only definition of its register, so that it stands in one place. */
  lemma LoadPlace(c: Ctx, b: Block, i: nat, j: nat)
    requires WellFormed(c) && i < |c.Instrs(b)| && j < |c.Instrs(b)| && c.Instrs(b)[i].Load?
    requires c.Instrs(b)[i] == c.Instrs(b)[j]
    ensures i == j
  {
    var r := c.Instrs(b)[i].dst;
    assert Defines(c.Instrs(b)[i], r) && Defines(c.Instrs(b)[j], r);
  }

  lemma LoadKept(xs: seq<Instr>, info: Info, i: nat)
    requires i < |xs| && xs[i].Load? && forall j {:trigger xs[j]} :: 0 <= j < |xs| && xs[j] == xs[i] ==> j == i
    ensures xs[i] in DropScalars(RenamedOf(xs, info)) <==> xs[i].slot !in Scan(xs[..i], info).tops
  {
    hide RenamedOf, DropScalars, Scan;
    DroppedFrom(RenamedOf(xs, info), xs[i]);
    if xs[i] in RenamedOf(xs, info) {
      RenamedFrom(xs, info, xs[i]);
    }
    if xs[i].slot !in Scan(xs[..i], info).tops {
      StaysRenamed(xs, info, i);
    }
  }

  lemma LoadStays(c: Ctx, h: Func, b: Block, i: nat)
    requires WellFormed(c) && DominatorInfo(c) && Cleared(c, h) && b in c.w && i < |c.Instrs(b)| && c.Instrs(b)[i].Load?
    ensures c.Instrs(b)[i] in InstrsOf(h, b) <==> !Covered(c, b, i, c.Instrs(b)[i].slot)
  {
    var xs := c.Instrs(b);
    assert InstrsOf(h, b) == DropScalars(RenamedOf(xs, InfoIn(c, b)));
    hide Covered, InfoIn, RenamedOf, DropScalars, WellFormed, DominatorInfo, Scan;
    CoveredWhen(c, b, i, xs[i].slot);
    forall j | 0 <= j < |xs| && xs[j] == xs[i]
      ensures j == i
    {
      LoadPlace(c, b, i, j);
    }
    LoadKept(xs, InfoIn(c, b), i);
  }

  lemma MemoryGoes(c: Ctx, h: Func)
    requires WellFormed(c) && DominatorInfo(c) && Cleared(c, h)
    ensures MemoryGone(c, h)
  {
    hide WellFormed, DominatorInfo, Covered, InfoIn, RenamedOf, DropScalars;
    forall b: Block, x | b in c.w && x in InstrsOf(h, b)
      ensures !x.Store? && (x.Load? ==> x in c.Instrs(b))
    {
      DroppedFrom(RenamedOf(c.Instrs(b), InfoIn(c, b)), x);
      if !x.Op? {
        RenamedFrom(c.Instrs(b), InfoIn(c, b), x);
      }
    }
    forall b: Block, i | b in c.w && 0 <= i < |c.Instrs(b)| && c.Instrs(b)[i].Load?
      ensures c.Instrs(b)[i] in InstrsOf(h, b) <==> !Covered(c, b, i, c.Instrs(b)[i].slot)
    {
      LoadStays(c, h, b, i);
    }
    forall b: Block | b < |h.code| && b !in c.w
      ensures h.code[b].term == c.f.code[b].term
      ensures forall x {:trigger x in h.code[b].instrs} :: x in h.code[b].instrs <==>
        x in c.f.code[b].instrs && !(x.Alloca? && x.scalar)
    {
      assert h.code[b] == c.f.code[b].(instrs := DropScalars(c.f.code[b].instrs));
      forall x
        ensures x in h.code[b].instrs <==> x in c.f.code[b].instrs && !(x.Alloca? && x.scalar)
      {
        DroppedFrom(c.f.code[b].instrs, x);
      }
    }
  }
}
