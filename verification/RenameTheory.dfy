/** The bookkeeping of the renaming recursion: stacks that are restored, replacements that only grow,
    phi operands filled in one predecessor at a time. */
module RenameTheory {
  import opened Cfg
  import opened IdomTheory
  import opened FrontierTheory
  import opened Ssa
  import opened PostOrder
  import opened RenameSpec

  type Stacks = map<Slot, seq<Operand>>

  function Get(st: Stacks, s: Slot): seq<Operand> {
    if s in st then st[s] else []
  }

  function Push(st: Stacks, s: Slot, o: Operand): Stacks {
    st[s := Get(st, s) + [o]]
  }

  function Pop(st: Stacks, s: Slot): Stacks
    requires Get(st, s) != []
  {
    st[s := Get(st, s)[..|Get(st, s)| - 1]]
  }

  /** The tops of the stacks; an absent and an empty stack have none. */
  ghost predicate TopsAre(st: Stacks, tops: map<Slot, Operand>) {
    forall s {:trigger Get(st, s)} ::
      (s in tops <==> Get(st, s) != []) && (s in tops ==> Get(st, s)[|Get(st, s)| - 1] == tops[s])
  }

  ghost predicate SameStacks(st: Stacks, base: Stacks) {
    forall s {:trigger Get(st, s)} {:trigger Get(base, s)} :: Get(st, s) == Get(base, s)
  }

  /** The operands that block b pushes for s up to position i: its phi first, then its stores. */
  ghost function Pushed(c: Ctx, b: Block, i: nat, s: Slot): seq<Operand>
    requires i <= |c.Instrs(b)|
  {
    if i == 0 then
      if s in c.Placed(b) then [Use(PhiAt(b, s))] else []
    else
      Pushed(c, b, i - 1, s) + PushOf(c, b, i - 1, s)
  }

  ghost predicate StacksAt(c: Ctx, base: Stacks, st: Stacks, b: Block, i: nat)
    requires i <= |c.Instrs(b)|
  {
    forall s {:trigger Get(st, s)} :: Get(st, s) == Get(base, s) + Pushed(c, b, i, s)
  }

  /** After the first k phis have been pushed. */
  ghost predicate PhisPushed(c: Ctx, base: Stacks, st: Stacks, b: Block, k: nat)
    requires k <= |c.Placed(b)|
  {
    forall s {:trigger Get(st, s)} ::
      Get(st, s) == Get(base, s) + if s in c.Placed(b)[..k] then [Use(PhiAt(b, s))] else []
  }

  ghost predicate Distinct(ss: seq<Slot>) {
    forall i, j {:trigger ss[i], ss[j]} :: 0 <= i < j < |ss| ==> ss[i] != ss[j]
  }

  lemma PhiPush(c: Ctx, base: Stacks, st: Stacks, b: Block, k: nat)
    requires k < |c.Placed(b)| && PhisPushed(c, base, st, b, k) && Distinct(c.Placed(b))
    ensures PhisPushed(c, base, Push(st, c.Placed(b)[k], Use(PhiAt(b, c.Placed(b)[k]))), b, k + 1)
  {
    var ss := c.Placed(b);
    assert ss[..k + 1] == ss[..k] + [ss[k]];
    assert ss[k] !in ss[..k];
    var st' := Push(st, ss[k], Use(PhiAt(b, ss[k])));
    GetPushed(st, ss[k], Use(PhiAt(b, ss[k])));
    hide Get, Push, Distinct;
    forall s
      ensures Get(st', s) == Get(base, s) + if s in ss[..k + 1] then [Use(PhiAt(b, s))] else []
    {
      assert Get(st, s) == Get(base, s) + if s in ss[..k] then [Use(PhiAt(b, s))] else [];
      assert Get(base, s) + [] == Get(base, s);
    }
  }

  lemma GetPushed(st: Stacks, s: Slot, o: Operand)
    ensures forall t {:trigger Get(Push(st, s, o), t)} :: Get(Push(st, s, o), t) == if t == s then Get(st, t) + [o]
      else Get(st, t)
  {
  }

  /** All phis pushed: the stacks stand for the block's head. */
  lemma PhisDone(c: Ctx, base: Stacks, st: Stacks, b: Block, tops: map<Slot, Operand>)
    requires PhisPushed(c, base, st, b, |c.Placed(b)|) && TopsAre(base, tops)
    ensures StacksAt(c, base, st, b, 0) && TopsAre(st, PushPhis(tops, b, c.Placed(b)))
  {
    var ss := c.Placed(b);
    assert ss[..|ss|] == ss;
    forall s
      ensures Get(st, s) == Get(base, s) + Pushed(c, b, 0, s)
      ensures (s in PushPhis(tops, b, ss) <==> Get(st, s) != [])
      ensures s in PushPhis(tops, b, ss) ==> Get(st, s)[|Get(st, s)| - 1] == PushPhis(tops, b, ss)[s]
    {
      assert Get(base, s) == Get(base, s);
    }
  }

  lemma PushTops(st: Stacks, tops: map<Slot, Operand>, v: Slot, o: Operand)
    requires TopsAre(st, tops)
    ensures TopsAre(Push(st, v, o), tops[v := o])
  {
    GetPushed(st, v, o);
    hide Get, Push;
  }

  lemma StorePush(c: Ctx, base: Stacks, st: Stacks, b: Block, i: nat, o: Operand)
    requires i < |c.Instrs(b)| && c.Instrs(b)[i].Store? && o == Resolve(InfoAt(c, b, i).sub, c.Instrs(b)[i].src)
    requires StacksAt(c, base, st, b, i) && TopsAre(st, InfoAt(c, b, i).tops)
    ensures StacksAt(c, base, Push(st, c.Instrs(b)[i].slot, o), b, i + 1)
    ensures TopsAre(Push(st, c.Instrs(b)[i].slot, o), InfoAt(c, b, i + 1).tops)
  {
    InfoNext(c, b, i);
    PushTops(st, InfoAt(c, b, i).tops, c.Instrs(b)[i].slot, o);
    hide *;
    StorePushStacks(c, base, st, b, i, o);
    StoreTops(c, b, i);
  }

  lemma StoreTops(c: Ctx, b: Block, i: nat)
    requires i < |c.Instrs(b)| && c.Instrs(b)[i].Store?
    ensures InfoAt(c, b, i + 1).tops ==
      InfoAt(c, b, i).tops[c.Instrs(b)[i].slot := Resolve(InfoAt(c, b, i).sub, c.Instrs(b)[i].src)]
  {
    InfoNext(c, b, i);
  }

  lemma StorePushStacks(c: Ctx, base: Stacks, st: Stacks, b: Block, i: nat, o: Operand)
    requires i < |c.Instrs(b)| && c.Instrs(b)[i].Store? && o == Resolve(InfoAt(c, b, i).sub, c.Instrs(b)[i].src)
    requires StacksAt(c, base, st, b, i)
    ensures StacksAt(c, base, Push(st, c.Instrs(b)[i].slot, o), b, i + 1)
  {
    hide InfoAt, Pushed, Push, Resolve;
    forall s
      ensures Get(Push(st, c.Instrs(b)[i].slot, o), s) == Get(base, s) + Pushed(c, b, i + 1, s)
    {
      assert Get(st, s) == Get(base, s) + Pushed(c, b, i, s);
      StorePushSlot(c, base, st, b, i, o, s);
    }
  }

  lemma StorePushSlot(c: Ctx, base: Stacks, st: Stacks, b: Block, i: nat, o: Operand, s: Slot)
    requires i < |c.Instrs(b)| && c.Instrs(b)[i].Store? && o == Resolve(InfoAt(c, b, i).sub, c.Instrs(b)[i].src)
    requires Get(st, s) == Get(base, s) + Pushed(c, b, i, s)
    ensures Get(Push(st, c.Instrs(b)[i].slot, o), s) == Get(base, s) + Pushed(c, b, i + 1, s)
  {
    PushedNext(c, b, i, s);
    hide Pushed, InfoAt;
    var tail := PushOf(c, b, i, s);
    assert Get(base, s) + Pushed(c, b, i, s) + tail == Get(base, s) + (Pushed(c, b, i, s) + tail);
  }

  lemma PushedNext(c: Ctx, b: Block, i: nat, s: Slot)
    requires i < |c.Instrs(b)|
    ensures Pushed(c, b, i + 1, s) == Pushed(c, b, i, s) + PushOf(c, b, i, s)
  {
  }

  /** What instruction i itself pushes for s. */
  ghost function PushOf(c: Ctx, b: Block, i: nat, s: Slot): seq<Operand>
    requires i < |c.Instrs(b)|
  {
    var x := c.Instrs(b)[i];
    if x.Store? && x.slot == s then [Resolve(InfoAt(c, b, i).sub, x.src)] else []
  }

  lemma OtherPush(c: Ctx, base: Stacks, st: Stacks, b: Block, i: nat)
    requires i < |c.Instrs(b)| && !c.Instrs(b)[i].Store?
    requires StacksAt(c, base, st, b, i) && TopsAre(st, InfoAt(c, b, i).tops)
    ensures StacksAt(c, base, st, b, i + 1) && TopsAre(st, InfoAt(c, b, i + 1).tops)
  {
    InfoNext(c, b, i);
    hide InfoAt, TopsAre;
    forall s
      ensures Get(st, s) == Get(base, s) + Pushed(c, b, i + 1, s)
    {
      PushedNext(c, b, i, s);
      hide Pushed;
      assert Get(st, s) == Get(base, s) + Pushed(c, b, i, s);
    }
  }

  lemma InfoEnds(c: Ctx, b: Block)
    ensures InfoAt(c, b, 0) == InfoIn(c, b) && InfoAt(c, b, |c.Instrs(b)|) == InfoOut(c, b)
  {
    assert c.Instrs(b)[..0] == [];
    assert c.Instrs(b)[..|c.Instrs(b)|] == c.Instrs(b);
  }

  lemma InfoNext(c: Ctx, b: Block, i: nat)
    requires i < |c.Instrs(b)|
    ensures InfoAt(c, b, i + 1) == StepInfo(InfoAt(c, b, i), c.Instrs(b)[i])
    ensures RenamedOf(c.Instrs(b)[..i + 1], InfoIn(c, b)) ==
              RenamedOf(c.Instrs(b)[..i], InfoIn(c, b)) + Renamed(InfoAt(c, b, i), c.Instrs(b)[i])
  {
    assert c.Instrs(b)[..i + 1][..i] == c.Instrs(b)[..i];
  }

  // ----- popping -----

  lemma {:induction false} PushedPrefix(c: Ctx, b: Block, i: nat, j: nat, s: Slot)
    requires i <= j <= |c.Instrs(b)|
    ensures |Pushed(c, b, i, s)| <= |Pushed(c, b, j, s)|
    decreases j
  {
    if i < j {
      PushedPrefix(c, b, i, j - 1, s);
    }
  }

  /** The stack of s, pushed full by block b, after n pops. */
  ghost predicate Shortened(c: Ctx, base: Stacks, st: Stacks, b: Block, s: Slot, n: nat) {
    var full := Get(base, s) + Pushed(c, b, |c.Instrs(b)|, s);
    n <= |full| && Get(st, s) == full[..|full| - n]
  }

  ghost predicate PoppedFor(c: Ctx, base: Stacks, st: Stacks, b: Block, j: nat, s: Slot)
    requires j <= |c.Instrs(b)|
  {
    Shortened(c, base, st, b, s, |Pushed(c, b, j, s)|)
  }

  /** Block b's phis and the stores among its first j instructions have been popped off. */
  ghost predicate Popped(c: Ctx, base: Stacks, st: Stacks, b: Block, j: nat)
    requires j <= |c.Instrs(b)|
  {
    forall s :: PoppedFor(c, base, st, b, j, s)
  }

  ghost predicate PhiPoppedFor(c: Ctx, base: Stacks, st: Stacks, b: Block, k: nat, s: Slot)
    requires k <= |c.Placed(b)|
  {
    Shortened(c, base, st, b, s, if s in c.Placed(b)[..k] then 1 else 0)
  }

  ghost predicate PhisPopped(c: Ctx, base: Stacks, st: Stacks, b: Block, k: nat)
    requires k <= |c.Placed(b)|
  {
    forall s :: PhiPoppedFor(c, base, st, b, k, s)
  }

  lemma ShortenedMore(c: Ctx, base: Stacks, st: Stacks, b: Block, s: Slot, n: nat)
    requires Shortened(c, base, st, b, s, n) && n < |Pushed(c, b, |c.Instrs(b)|, s)|
    ensures Get(st, s) != [] && Shortened(c, base, Pop(st, s), b, s, n + 1)
  {
  }

  lemma ShortenedOther(c: Ctx, base: Stacks, st: Stacks, b: Block, s: Slot, n: nat, v: Slot)
    requires Shortened(c, base, st, b, s, n) && Get(st, v) != [] && v != s
    ensures Shortened(c, base, Pop(st, v), b, s, n)
  {
  }

  lemma PhiPop(c: Ctx, base: Stacks, st: Stacks, b: Block, k: nat)
    requires k < |c.Placed(b)| && PhisPopped(c, base, st, b, k) && Distinct(c.Placed(b))
    ensures Get(st, c.Placed(b)[k]) != []
    ensures PhisPopped(c, base, Pop(st, c.Placed(b)[k]), b, k + 1)
  {
    var ss := c.Placed(b);
    assert ss[..k + 1] == ss[..k] + [ss[k]];
    assert ss[k] !in ss[..k];
    PushedPrefix(c, b, 0, |c.Instrs(b)|, ss[k]);
    assert |Pushed(c, b, 0, ss[k])| == 1;
    hide Shortened, Pushed;
    assert PhiPoppedFor(c, base, st, b, k, ss[k]);
    ShortenedMore(c, base, st, b, ss[k], 0);
    var k1 := k + 1;
    forall s
      ensures PhiPoppedFor(c, base, Pop(st, ss[k]), b, k1, s)
    {
      assert PhiPoppedFor(c, base, st, b, k, s);
      if s != ss[k] {
        ShortenedOther(c, base, st, b, s, if s in ss[..k] then 1 else 0, ss[k]);
      }
    }
  }

  lemma PopStart(c: Ctx, base: Stacks, st: Stacks, st': Stacks, b: Block)
    requires StacksAt(c, base, st, b, |c.Instrs(b)|) && SameStacks(st', st)
    ensures PhisPopped(c, base, st', b, 0)
  {
    hide Pushed;
    forall s
      ensures PhiPoppedFor(c, base, st', b, 0, s)
    {
      assert Get(st', s) == Get(st, s);
    }
  }

  lemma PhisAllPopped(c: Ctx, base: Stacks, st: Stacks, b: Block)
    requires PhisPopped(c, base, st, b, |c.Placed(b)|)
    ensures Popped(c, base, st, b, 0)
  {
    assert c.Placed(b)[..|c.Placed(b)|] == c.Placed(b);
    hide Shortened;
    forall s
      ensures PoppedFor(c, base, st, b, 0, s)
    {
      assert PhiPoppedFor(c, base, st, b, |c.Placed(b)|, s);
    }
  }

  lemma StorePop(c: Ctx, base: Stacks, st: Stacks, b: Block, j: nat)
    requires j < |c.Instrs(b)| && c.Instrs(b)[j].Store? && Popped(c, base, st, b, j)
    ensures Get(st, c.Instrs(b)[j].slot) != []
    ensures Popped(c, base, Pop(st, c.Instrs(b)[j].slot), b, j + 1)
  {
    var v := c.Instrs(b)[j].slot;
    PushedNext(c, b, j, v);
    PushedPrefix(c, b, j + 1, |c.Instrs(b)|, v);
    hide Shortened, Pushed, InfoAt;
    assert PoppedFor(c, base, st, b, j, v);
    assert |Pushed(c, b, j + 1, v)| == |Pushed(c, b, j, v)| + 1;
    ShortenedMore(c, base, st, b, v, |Pushed(c, b, j, v)|);
    var j1 := j + 1;
    forall s
      ensures PoppedFor(c, base, Pop(st, v), b, j1, s)
    {
      assert PoppedFor(c, base, st, b, j, s);
      if s != v {
        PushedNext(c, b, j, s);
        assert Pushed(c, b, j + 1, s) == Pushed(c, b, j, s);
        ShortenedOther(c, base, st, b, s, |Pushed(c, b, j, s)|, v);
      }
    }
  }

  lemma OtherPop(c: Ctx, base: Stacks, st: Stacks, b: Block, j: nat)
    requires j < |c.Instrs(b)| && !c.Instrs(b)[j].Store? && Popped(c, base, st, b, j)
    ensures Popped(c, base, st, b, j + 1)
  {
    hide Shortened, Pushed, InfoAt;
    var j1 := j + 1;
    forall s
      ensures PoppedFor(c, base, st, b, j1, s)
    {
      assert PoppedFor(c, base, st, b, j, s);
      PushedNext(c, b, j, s);
      assert Pushed(c, b, j + 1, s) == Pushed(c, b, j, s);
    }
  }

  lemma PopDone(c: Ctx, base: Stacks, st: Stacks, b: Block)
    requires Popped(c, base, st, b, |c.Instrs(b)|)
    ensures SameStacks(st, base)
  {
    forall s
      ensures Get(st, s) == Get(base, s)
    {
      assert PoppedFor(c, base, st, b, |c.Instrs(b)|, s);
    }
  }

  // ----- replacements -----

  /** The pending replacements agree with the dominator-tree information on every register known at
      position i of b. */
  ghost predicate Agrees(c: Ctx, replaced: map<Reg, Operand>, b: Block, i: nat)
    requires i <= |c.Instrs(b)|
  {
    forall r: Reg {:trigger Known(c, b, i, r)} :: r.Temp? && Known(c, b, i, r) ==>
      Resolve(replaced, Use(r)) == Resolve(InfoAt(c, b, i).sub, Use(r))
  }

  /** Only results of the loads met so far have been replaced: those of the finished blocks and of the
      first i instructions of b. */
  ghost predicate OnlyMet(c: Ctx, replaced: map<Reg, Operand>, done: set<Block>, b: Block, i: nat) {
    forall r {:trigger r in replaced} :: r in replaced ==>
      r in c.site && (c.site[r].0 in done || (c.site[r].0 == b && c.site[r].1 < i))
  }

  function ReplaceAt(replaced: map<Reg, Operand>, tops: map<Slot, Operand>, x: Instr): map<Reg, Operand> {
    if x.Load? && x.slot in tops then replaced[x.dst := tops[x.slot]] else replaced
  }

  lemma OnlyMetNext(c: Ctx, replaced: map<Reg, Operand>, done: set<Block>, b: Block, i: nat)
    requires WellFormed(c) && i < |c.Instrs(b)| && OnlyMet(c, replaced, done, b, i)
    ensures OnlyMet(c, ReplaceAt(replaced, InfoAt(c, b, i).tops, c.Instrs(b)[i]), done, b, i + 1)
  {
    var x := c.Instrs(b)[i];
    assert x.Load? ==> Defines(x, x.dst) && c.site[x.dst] == (b, i);
    hide InfoAt;
  }

  lemma KnownNext(c: Ctx, b: Block, i: nat, r: Reg)
    requires WellFormed(c) && i < |c.Instrs(b)| && r.Temp? && Known(c, b, i + 1, r) && !Known(c, b, i, r)
    ensures r in c.site && c.site[r] == (b, i) && Defines(c.Instrs(b)[i], r)
  {
    assert c.site[r] == (b, i);
  }

  lemma AgreesNext(c: Ctx, replaced: map<Reg, Operand>, done: set<Block>, b: Block, i: nat)
    requires WellFormed(c) && b in c.w && i < |c.Instrs(b)| && b !in done
    requires Agrees(c, replaced, b, i) && OnlyMet(c, replaced, done, b, i)
    ensures Agrees(c, ReplaceAt(replaced, InfoAt(c, b, i).tops, c.Instrs(b)[i]), b, i + 1)
  {
    InfoNext(c, b, i);
    StableBefore(c, b, i);
    var x := c.Instrs(b)[i];
    var next := ReplaceAt(replaced, InfoAt(c, b, i).tops, x);
    forall r: Reg | r.Temp? && Known(c, b, i + 1, r)
      ensures Resolve(next, Use(r)) == Resolve(InfoAt(c, b, i + 1).sub, Use(r))
    {
      if Known(c, b, i, r) {
        NotDefinedTwice(c, b, i, r);
      } else {
        KnownNext(c, b, i, r);
      }
      hide WellFormed, InfoAt, Known;
    }
  }

  lemma NotDefinedTwice(c: Ctx, b: Block, i: nat, r: Reg)
    requires WellFormed(c) && i < |c.Instrs(b)| && r.Temp? && Known(c, b, i, r)
    ensures !Defines(c.Instrs(b)[i], r)
  {
  }

  /** Nothing known later is replaced yet. */
  lemma StableBefore(c: Ctx, b: Block, i: nat)
    requires WellFormed(c) && b in c.w && i < |c.Instrs(b)|
    ensures forall r {:trigger r in InfoAt(c, b, i).sub} :: r in InfoAt(c, b, i).sub ==>
      r in c.site && c.site[r] != (b, i)
  {
    SubSites(c, b, i);
  }

  lemma {:induction false} SubSites(c: Ctx, b: Block, i: nat)
    requires WellFormed(c) && i <= |c.Instrs(b)|
    ensures forall r {:trigger r in InfoAt(c, b, i).sub} :: r in InfoAt(c, b, i).sub ==>
              r in c.site && c.site[r].0 in Chain(c.t, c.w, b) && (c.site[r].0 == b ==> c.site[r].1 < i)
    decreases if b in c.t.id then c.t.top - c.t.id[b] else 0, i
  {
    if i > 0 {
      SubSites(c, b, i - 1);
      InfoNext(c, b, i - 1);
      if c.Instrs(b)[i - 1].Load? {
        LoadSite(c, b, i - 1);
      }
      hide WellFormed, Chain, InfoAt;
    } else if Up(c.t, c.w, b) {
      var a := c.w[b];
      SubSites(c, a, |c.Instrs(a)|);
      hide WellFormed;
      InfoEnds(c, a);
      InfoEnds(c, b);
      NotAbove(c.t, c.w, b);
      assert Chain(c.t, c.w, b) == {b} + Chain(c.t, c.w, a);
    } else {
      hide WellFormed;
      InfoEnds(c, b);
    }
  }

  lemma LoadSite(c: Ctx, b: Block, i: nat)
    requires WellFormed(c) && i < |c.Instrs(b)| && c.Instrs(b)[i].Load?
    ensures var d := c.Instrs(b)[i].dst; d in c.site && c.site[d] == (b, i)
  {
    assert Defines(c.Instrs(b)[i], c.Instrs(b)[i].dst);
  }

  /** A use at position i resolves the same way with the pending replacements. */
  lemma {:induction false} AgreesOnArgs(c: Ctx, replaced: map<Reg, Operand>, b: Block, i: nat, args: seq<Operand>)
    requires i <= |c.Instrs(b)| && Agrees(c, replaced, b, i)
    requires forall r: Reg :: Use(r) in args ==> r.Temp? && Known(c, b, i, r)
    ensures ResolveAll(replaced, args) == ResolveAll(InfoAt(c, b, i).sub, args)
  {
    if args != [] {
      assert args[|args| - 1] in args;
      if args[|args| - 1].Use? {
        assert Use(args[|args| - 1].r) in args;
      }
      AgreesOnArgs(c, replaced, b, i, args[..|args| - 1]);
    }
  }

  lemma AgreesOnInstr(c: Ctx, replaced: map<Reg, Operand>, b: Block, i: nat)
    requires WellFormed(c) && b in c.w && i < |c.Instrs(b)| && Agrees(c, replaced, b, i)
    ensures var x := c.Instrs(b)[i];
            && (x.Op? ==> ResolveAll(replaced, x.args) == ResolveAll(InfoAt(c, b, i).sub, x.args))
            && (x.Store? ==> Resolve(replaced, x.src) == Resolve(InfoAt(c, b, i).sub, x.src))
  {
    var x := c.Instrs(b)[i];
    if x.Op? {
      assert forall r: Reg :: Use(r) in x.args ==> Uses(x, r);
      AgreesOnArgs(c, replaced, b, i, x.args);
    }
    if x.Store? && x.src.Use? {
      assert Uses(x, x.src.r);
    }
  }

  lemma AgreesOnTerm(c: Ctx, replaced: map<Reg, Operand>, b: Block)
    requires WellFormed(c) && b in c.w && b < |c.f.code| && Agrees(c, replaced, b, |c.Instrs(b)|)
    ensures ResolveTerm(replaced, c.f.code[b].term) == ResolveTerm(InfoOut(c, b).sub, c.f.code[b].term)
  {
    assert c.Instrs(b)[..|c.Instrs(b)|] == c.Instrs(b);
    var t := c.f.code[b].term;
    if t.CondBr? && t.c.Use? {
      assert TermUses(t, t.c.r);
    }
    if t.Ret? && t.v.Some? && t.v.value.Use? {
      assert TermUses(t, t.v.value.r);
    }
  }

  /** From a block to a child in the dominator tree. */
  lemma AgreesChild(c: Ctx, replaced: map<Reg, Operand>, b: Block, k: Block)
    requires Up(c.t, c.w, k) && c.w[k] == b && Agrees(c, replaced, b, |c.Instrs(b)|) && WellFormed(c)
    ensures Agrees(c, replaced, k, 0)
  {
    var n := |c.Instrs(b)|;
    InfoEnds(c, b);
    InfoEnds(c, k);
    assert InfoAt(c, k, 0).sub == InfoAt(c, b, n).sub;
    NotAbove(c.t, c.w, k);
    forall r: Reg | r.Temp? && Known(c, k, 0, r)
      ensures Resolve(replaced, Use(r)) == Resolve(InfoAt(c, k, 0).sub, Use(r))
    {
      assert r in c.site ==> Defines(c.Instrs(c.site[r].0)[c.site[r].1], r);
      assert Known(c, b, n, r);
    }
  }

  // ----- subtrees of the dominator tree -----

  ghost function Subtree(c: Ctx, b: Block): set<Block> {
    set x | x in c.w && b in Chain(c.t, c.w, x)
  }

  /** The subtrees of several children together. */
  ghost function Subtrees(c: Ctx, ks: set<Block>): set<Block> {
    set x, k | x in c.w && k in ks && k in Chain(c.t, c.w, x) :: x
  }

  lemma SubtreesMore(c: Ctx, ks: set<Block>, k: Block)
    ensures Subtrees(c, ks + {k}) == Subtrees(c, ks) + Subtree(c, k)
  {
  }

  /** The subtree of b is b and the subtrees of its children. */
  lemma SubtreeSplit(c: Ctx, b: Block, ks: set<Block>)
    requires b in c.w && forall k :: k in ks <==> Up(c.t, c.w, k) && c.w[k] == b
    ensures Subtree(c, b) == {b} + Subtrees(c, ks)
  {
    forall x | x in c.w && b in Chain(c.t, c.w, x) && x != b
      ensures x in Subtrees(c, ks)
    {
      var k := ChildTowards(c, b, x);
    }
    forall x | x in Subtrees(c, ks)
      ensures b in Chain(c.t, c.w, x)
    {
      var k :| k in ks && k in Chain(c.t, c.w, x);
      ChainTransitive(c.t, c.w, x, k);
    }
  }

  lemma {:induction false} ChildTowards(c: Ctx, b: Block, x: Block) returns (k: Block)
    requires b in Chain(c.t, c.w, x) && x != b
    ensures Up(c.t, c.w, k) && c.w[k] == b && k in Chain(c.t, c.w, x)
    decreases if x in c.t.id then c.t.top - c.t.id[x] else 0
  {
    if c.w[x] == b {
      k := x;
    } else {
      k := ChildTowards(c, b, c.w[x]);
    }
  }

  /** Different children have disjoint subtrees, and b is in none of them. */
  lemma SubtreesApart(c: Ctx, b: Block, ks: set<Block>, k: Block)
    requires forall j :: j in ks ==> Up(c.t, c.w, j) && c.w[j] == b
    requires Up(c.t, c.w, k) && c.w[k] == b && k !in ks
    ensures Subtree(c, k) !! Subtrees(c, ks) + {b}
  {
    NotAbove(c.t, c.w, k);
    forall x, j | k in Chain(c.t, c.w, x) && j in ks && j in Chain(c.t, c.w, x)
      ensures false
    {
      NotAbove(c.t, c.w, j);
      if c.t.id[j] <= c.t.id[k] {
        ChainOrdered(c.t, c.w, x, j, k);
      } else {
        ChainOrdered(c.t, c.w, x, k, j);
      }
      SiblingNotOnChain(c, b, j, k);
      SiblingNotOnChain(c, b, k, j);
    }
  }

  lemma SiblingNotOnChain(c: Ctx, b: Block, j: Block, k: Block)
    requires Up(c.t, c.w, j) && Up(c.t, c.w, k) && c.w[j] == b && c.w[k] == b && j != k
    ensures k !in Chain(c.t, c.w, j)
  {
    NotAbove(c.t, c.w, k);
  }

  // ----- filling phi operands -----

  /** The phis take, from every finished predecessor and along the given edges out of b, what stands
      for their variable at its end. */
  ghost predicate Filled(c: Ctx, phis: seq<seq<Phi>>, done: set<Block>, b: Block, ys: set<Block>) {
    && |phis| == |c.place|
    && forall y {:trigger phis[y]} :: 0 <= y < |phis| ==> FilledFor(c, y, phis[y], done, b, y in ys)
  }

  ghost predicate FilledFor(c: Ctx, y: Block, ps: seq<Phi>, done: set<Block>, b: Block, also: bool) {
    && SlotsAre(ps, c.Placed(y))
    && forall i {:trigger ps[i]} :: 0 <= i < |ps| ==> PairsFor(c, y, ps[i], done, b, also)
  }

  predicate SlotsAre(ps: seq<Phi>, ss: seq<Slot>) {
    |ps| == |ss| && forall i {:trigger ps[i]} :: 0 <= i < |ps| ==> ps[i].slot == ss[i]
  }

  ghost predicate PairsFor(c: Ctx, y: Block, phi: Phi, done: set<Block>, b: Block, also: bool) {
    && NoConflict(phi.pairs)
    && forall x {:trigger Incoming(phi.pairs, x)} ::
         Incoming(phi.pairs, x) ==
           if ((x in done && c.f.g.Edge(x, y)) || (x == b && also)) && phi.slot in InfoOut(c, x).tops
           then Some(InfoOut(c, x).tops[phi.slot]) else None
  }

  /** Pairs for the same block (of an edge that is there twice) have the same operand. */
  ghost predicate NoConflict(pairs: seq<(Operand, Block)>) {
    forall o, x {:trigger (o, x) in pairs} :: (o, x) in pairs ==> Incoming(pairs, x) == Some(o)
  }

  function FillOne(phi: Phi, tops: map<Slot, Operand>, b: Block): Phi {
    if phi.slot in tops then phi.(pairs := phi.pairs + [(tops[phi.slot], b)]) else phi
  }

  lemma {:induction false} IncomingAppend(pairs: seq<(Operand, Block)>, o: Operand, b: Block, x: Block)
    ensures Incoming(pairs + [(o, b)], x) ==
              if Incoming(pairs, x).Some? then Incoming(pairs, x) else if x == b then Some(o) else None
  {
    if pairs == [] {
      assert pairs + [(o, b)] == [(o, b)];
    } else {
      assert (pairs + [(o, b)])[1..] == pairs[1..] + [(o, b)];
      IncomingAppend(pairs[1..], o, b, x);
    }
  }

  lemma PairsFilled(c: Ctx, y: Block, phi: Phi, done: set<Block>, b: Block, also: bool)
    requires PairsFor(c, y, phi, done, b, also) && b !in done
    ensures PairsFor(c, y, FillOne(phi, InfoOut(c, b).tops, b), done, b, true)
  {
    var tops := InfoOut(c, b).tops;
    forall x: Block
      ensures Incoming(FillOne(phi, tops, b).pairs, x) ==
                if ((x in done && c.f.g.Edge(x, y)) || x == b) && phi.slot in InfoOut(c, x).tops
                then Some(InfoOut(c, x).tops[phi.slot]) else None
    {
      if phi.slot in tops {
        IncomingAppend(phi.pairs, tops[phi.slot], b, x);
      }
      assert Incoming(phi.pairs, x) == Incoming(phi.pairs, x);
    }
    if phi.slot in tops {
      PairAdded(phi.pairs, tops[phi.slot], b);
    }
  }

  lemma PairAdded(pairs: seq<(Operand, Block)>, o: Operand, b: Block)
    requires NoConflict(pairs) && (Incoming(pairs, b) == None || Incoming(pairs, b) == Some(o))
    ensures NoConflict(pairs + [(o, b)])
  {
    forall o', x | (o', x) in pairs + [(o, b)]
      ensures Incoming(pairs + [(o, b)], x) == Some(o')
    {
      IncomingAppend(pairs, o, b, x);
      assert (o', x) in pairs || (o', x) == (o, b);
    }
  }

  /** All edges out of b filled: b is finished. */
  lemma FilledAll(c: Ctx, phis: seq<seq<Phi>>, done: set<Block>, b: Block, ys: set<Block>, b': Block)
    requires Filled(c, phis, done, b, ys)
    requires forall y: Block :: y in ys <==> c.f.g.Edge(b, y)
    ensures Filled(c, phis, done + {b}, b', {})
  {
    forall y | 0 <= y < |phis|
      ensures FilledFor(c, y, phis[y], done + {b}, b', false)
    {
      assert FilledFor(c, y, phis[y], done, b, y in ys);
    }
  }

  lemma FilledBlock(c: Ctx, before: seq<seq<Phi>>, after: seq<seq<Phi>>, done: set<Block>, b: Block, ys: set<Block>,
                    y: Block)
    requires Filled(c, before, done, b, ys) && b !in done && y < |before|
    requires |after| == |before| && (forall z :: 0 <= z < |before| && z != y ==> after[z] == before[z])
    requires |after[y]| == |before[y]|
    requires forall i :: 0 <= i < |before[y]| ==> after[y][i] == FillOne(before[y][i], InfoOut(c, b).tops, b)
    ensures Filled(c, after, done, b, ys + {y})
  {
    hide PairsFor;
    forall z | 0 <= z < |after|
      ensures FilledFor(c, z, after[z], done, b, z in ys + {y})
    {
      assert FilledFor(c, z, before[z], done, b, z in ys);
      if z == y {
        forall i | 0 <= i < |after[y]|
          ensures PairsFor(c, y, after[y][i], done, b, true)
        {
          PairsFilled(c, y, before[y][i], done, b, y in ys);
        }
      }
    }
  }

  // ----- when a stack can be empty -----

  /** A load of s in block b, or an edge from b to a phi for s, that no definition of s dominates. */
  ghost predicate Uncovered(c: Ctx, b: Block, s: Slot) {
    || (exists i ::
      0 <= i < |c.Instrs(b)| && c.Instrs(b)[i].Load? && c.Instrs(b)[i].slot == s && s !in InfoAt(c, b, i).tops)
    || (s !in InfoOut(c, b).tops && exists y: Block :: c.f.g.Edge(b, y) && s in c.Placed(y))
  }

  /** Every reachable block with such a place dominates all definitions of the variable, so that none
      of them is visited before it. */
  ghost predicate Safe(c: Ctx) {
    forall b, s, x {:trigger Uncovered(c, b, s), DefBlock(c, x, s)} ::
      b in c.w && Uncovered(c, b, s) && x in c.w && DefBlock(c, x, s) ==> b in Chain(c.t, c.w, x)
  }

  ghost predicate DefinedIn(c: Ctx, blocks: set<Block>, s: Slot) {
    exists x {:trigger DefBlock(c, x, s)} :: x in blocks && x in c.w && DefBlock(c, x, s)
  }

  /** A stack that exists but is empty belongs to a variable defined in a finished block, and all variables
      defined there have stacks. */
  ghost predicate EmptiesMet(c: Ctx, st: Stacks, done: set<Block>) {
    && (forall s {:trigger s in st} :: s in st && st[s] == [] ==> DefinedIn(c, done, s))
    && (forall s {:trigger DefinedIn(c, done, s)} :: DefinedIn(c, done, s) ==> s in st)
  }

  /** Where nothing above defines the variable, its stack exists, empty, exactly if a finished block does. */
  lemma EmptyWhen(c: Ctx, st: Stacks, tops: map<Slot, Operand>, done: set<Block>, s: Slot)
    requires TopsAre(st, tops) && EmptiesMet(c, st, done)
    ensures s in st && st[s] == [] <==> s !in tops && DefinedIn(c, done, s)
  {
    TopOf(st, tops, s);
  }

  lemma EmptiesPush(c: Ctx, st: Stacks, done: set<Block>, v: Slot, o: Operand)
    requires EmptiesMet(c, st, done)
    ensures EmptiesMet(c, Push(st, v, o), done)
  {
  }

  lemma EmptiesPop(c: Ctx, st: Stacks, done: set<Block>, b: Block, v: Slot)
    requires EmptiesMet(c, st, done) && b in done && b in c.w && DefBlock(c, b, v) && Get(st, v) != []
    ensures EmptiesMet(c, Pop(st, v), done)
  {
  }

  /** What a block defines has a stack at its end. */
  lemma EmptiesMore(c: Ctx, st: Stacks, done: set<Block>, b: Block)
    requires EmptiesMet(c, st, done) && TopsAre(st, InfoOut(c, b).tops)
    ensures EmptiesMet(c, st, done + {b})
  {
    forall s | DefinedIn(c, done + {b}, s)
      ensures s in st
    {
      var x :| x in done + {b} && x in c.w && DefBlock(c, x, s);
      if x == b {
        DefinitionOnTop(c, b, s);
        TopOf(st, InfoOut(c, b).tops, s);
      } else {
        assert DefinedIn(c, done, s);
      }
    }
    forall s | s in st && st[s] == []
      ensures DefinedIn(c, done + {b}, s)
    {
      assert DefinedIn(c, done, s);
    }
  }

  lemma {:induction false} ScanTopsGrow(xs: seq<Instr>, info: Info, s: Slot)
    requires s in info.tops || StoresTo(xs, s)
    ensures s in Scan(xs, info).tops
  {
    if xs != [] {
      var ys, last := xs[..|xs| - 1], xs[|xs| - 1];
      if StoresTo(xs, s) && !(last.Store? && last.slot == s) {
        var i :| 0 <= i < |xs| && xs[i].Store? && xs[i].slot == s;
        assert ys[i] == xs[i];
      }
      if s in info.tops || StoresTo(ys, s) {
        ScanTopsGrow(ys, info, s);
      }
    }
  }

  lemma DefinitionOnTop(c: Ctx, b: Block, s: Slot)
    requires DefBlock(c, b, s)
    ensures s in InfoOut(c, b).tops
  {
    ScanTopsGrow(c.Instrs(b), InfoIn(c, b), s);
  }

  /** New replacements concern loads of the given blocks only. */
  ghost predicate OnlyAdds(c: Ctx, before: map<Reg, Operand>, after: map<Reg, Operand>, blocks: set<Block>) {
    && (forall r {:trigger r in before} :: r in before ==> r in after && after[r] == before[r])
    && (forall r {:trigger r in after} :: r in after && r !in before ==> r in c.site && c.site[r].0 in blocks)
  }

  /** Renaming a child's subtree does not disturb what is known at the end of b. */
  lemma AgreesAfterChild(c: Ctx, before: map<Reg, Operand>, after: map<Reg, Operand>, b: Block, k: Block)
    requires Agrees(c, before, b, |c.Instrs(b)|) && OnlyAdds(c, before, after, Subtree(c, k))
    requires WellFormed(c) && Up(c.t, c.w, k) && c.w[k] == b
    ensures Agrees(c, after, b, |c.Instrs(b)|)
  {
    var n := |c.Instrs(b)|;
    forall r: Reg | r.Temp? && Known(c, b, n, r)
      ensures Resolve(after, Use(r)) == Resolve(InfoAt(c, b, n).sub, Use(r))
    {
      if r in after && r !in before {
        assert r !in c.f.args;
        assert k in Chain(c.t, c.w, c.site[r].0);
        ChainTransitive(c.t, c.w, b, c.site[r].0);
        NotAbove(c.t, c.w, k);
      }
    }
  }

  lemma RenamedNone(c: Ctx, b: Block)
    ensures RenamedOf(c.Instrs(b)[..0], InfoIn(c, b)) == []
  {
  }

  lemma OnlyAddsRefl(c: Ctx, m: map<Reg, Operand>, blocks: set<Block>)
    ensures OnlyAdds(c, m, m, blocks)
  {
  }

  lemma OnlyAddsLoad(c: Ctx, before: map<Reg, Operand>, now: map<Reg, Operand>, done: set<Block>, b: Block, i: nat,
                     o: Operand)
    requires WellFormed(c) && i < |c.Instrs(b)| && c.Instrs(b)[i].Load? && OnlyAdds(c, before, now, {b})
    requires OnlyMet(c, before, done, b, 0) && b !in done
    ensures OnlyAdds(c, before, now[c.Instrs(b)[i].dst := o], {b})
  {
    assert Defines(c.Instrs(b)[i], c.Instrs(b)[i].dst);
  }

  lemma TopOf(st: Stacks, tops: map<Slot, Operand>, v: Slot)
    requires TopsAre(st, tops)
    ensures v in tops <==> v in st && st[v] != []
    ensures v in tops ==> st[v][|st[v]| - 1] == tops[v]
  {
    assert Get(st, v) == Get(st, v);
  }

  lemma StoreDefines(c: Ctx, b: Block, i: nat)
    requires i < |c.Instrs(b)| && c.Instrs(b)[i].Store?
    ensures DefBlock(c, b, c.Instrs(b)[i].slot)
  {
  }

  lemma FilledShape(c: Ctx, phis: seq<seq<Phi>>, done: set<Block>, b: Block, ys: set<Block>, y: Block)
    requires Filled(c, phis, done, b, ys) && y < |phis|
    ensures SlotsAre(phis[y], c.Placed(y))
  {
    assert FilledFor(c, y, phis[y], done, b, y in ys);
  }

  lemma FilledNone(c: Ctx, phis: seq<seq<Phi>>, done: set<Block>, b: Block, b': Block)
    requires Filled(c, phis, done, b, {})
    ensures Filled(c, phis, done, b', {})
  {
    forall y | 0 <= y < |phis|
      ensures FilledFor(c, y, phis[y], done, b', false)
    {
      assert FilledFor(c, y, phis[y], done, b, y in {});
    }
  }

  lemma FilledSize(c: Ctx, phis: seq<seq<Phi>>, done: set<Block>, b: Block, ys: set<Block>)
    requires Filled(c, phis, done, b, ys)
    ensures |phis| == |c.place|
  {
  }

  lemma SuccessorFacts(c: Ctx, b: Block)
    requires WellFormed(c) && c.f.g.Valid() && b < |c.f.g.succs|
    ensures |c.place| == |c.f.g.succs|
    ensures forall y: Block :: y in c.f.g.succs[b] <==> c.f.g.Edge(b, y)
    ensures forall y: Block :: c.f.g.Edge(b, y) ==> y < |c.f.g.succs|
  {
  }

  /** What the immediate dominator of b left. */
  ghost function Above(c: Ctx, b: Block): Info {
    if Up(c.t, c.w, b) then InfoOut(c, c.w[b]) else Info(map[], map[])
  }

  ghost predicate PlacesDistinct(c: Ctx) {
    forall b {:trigger c.place[b]} :: 0 <= b < |c.place| ==> Distinct(c.place[b])
  }

  ghost function RenamedCode(c: Ctx, b: Block): Code
    requires b < |c.f.code|
  {
    Code(RenamedOf(c.Instrs(b), InfoIn(c, b)), ResolveTerm(InfoOut(c, b).sub, c.f.code[b].term))
  }

  lemma PhisNotPushed(c: Ctx, st: Stacks, b: Block)
    ensures PhisPushed(c, st, st, b, 0)
  {
  }

  // ----- the recursion over the children -----

  /** Where the recursion stands in block b when the children ks have been dealt with. */
  ghost predicate ChildState(c: Ctx, b: Block, done: set<Block>, ks: set<Block>, full: Stacks, st: Stacks,
                             code0: seq<Code>, code: seq<Code>, phis: seq<seq<Phi>>,
                             replaced0: map<Reg, Operand>, replaced: map<Reg, Operand>) {
    var d := done + {b} + Subtrees(c, ks);
    && SameStacks(st, full) && EmptiesMet(c, st, d)
    && Agrees(c, replaced, b, |c.Instrs(b)|)
    && OnlyMet(c, replaced, d, b, 0)
    && OnlyAdds(c, replaced0, replaced, {b} + Subtrees(c, ks))
    && Filled(c, phis, d, b, {})
    && CodeRenamed(c, code0, code, Subtrees(c, ks))
  }

  ghost predicate CodeRenamed(c: Ctx, code0: seq<Code>, code: seq<Code>, blocks: set<Block>) {
    && |code| == |code0| == |c.f.code|
    && forall x {:trigger code[x]} :: 0 <= x < |code| ==>
         code[x] == if x in blocks then RenamedCode(c, x) else code0[x]
  }

  /** The code of the given blocks is still the original one. */
  ghost predicate Pristine(c: Ctx, code: seq<Code>, blocks: set<Block>) {
    |code| == |c.f.code| && forall x {:trigger code[x]} :: x in blocks && 0 <= x < |code| ==> code[x] == c.f.code[x]
  }

  lemma EnterFacts(c: Ctx, phis: seq<seq<Phi>>, done: set<Block>, b: Block)
    requires WellFormed(c) && b in c.w && b < |c.f.code| && PlacesDistinct(c) && Subtree(c, b) !! done
    requires Filled(c, phis, done, b, {}) && DominatorInfo(c)
    ensures |c.place| == |c.f.g.succs| && c.f.g.Valid()
    ensures b !in done && b < |phis| && SlotsAre(phis[b], c.Placed(b)) && Distinct(c.Placed(b))
    ensures InfoIn(c, b).tops == PushPhis(Above(c, b).tops, b, c.Placed(b))
  {
    assert b in Subtree(c, b);
    FilledShape(c, phis, done, b, {}, b);
  }

  lemma OnlyMetBlock(c: Ctx, replaced: map<Reg, Operand>, done: set<Block>, b: Block, i: nat)
    requires OnlyMet(c, replaced, done, b, i)
    ensures OnlyMet(c, replaced, done + {b}, b, 0)
  {
  }

  lemma OnlyMetElsewhere(c: Ctx, replaced: map<Reg, Operand>, done: set<Block>, b: Block, k: Block)
    requires OnlyMet(c, replaced, done, b, 0)
    ensures OnlyMet(c, replaced, done, k, 0)
  {
  }

  lemma ChildrenStart(c: Ctx, b: Block, done: set<Block>, full: Stacks, phis: seq<seq<Phi>>, code: seq<Code>,
                      replaced0: map<Reg, Operand>, replaced: map<Reg, Operand>)
    requires Agrees(c, replaced, b, |c.Instrs(b)|) && OnlyMet(c, replaced, done + {b}, b, 0)
    requires OnlyAdds(c, replaced0, replaced, {b}) && Filled(c, phis, done + {b}, b, {}) && |code| == |c.f.code|
    requires EmptiesMet(c, full, done) && TopsAre(full, InfoOut(c, b).tops)
    ensures ChildState(c, b, done, {}, full, full, code, code, phis, replaced0, replaced)
  {
    EmptiesMore(c, full, done, b);
    hide Agrees, OnlyMet, OnlyAdds, Filled, EmptiesMet;
    assert Subtrees(c, {}) == {};
    assert done + {b} + {} == done + {b};
    assert {b} + {} == {b};
  }

  lemma ChildrenFacts(c: Ctx, tree: Frontiers, b: Block)
    requires DominatorInfo(c) && TreeCorrect(c.f.g, c.w, tree) && b in c.w && b < |c.f.g.succs|
    ensures b in tree && forall k :: k in tree[b] <==> Up(c.t, c.w, k) && c.w[k] == b
  {
    assert c.f.g.HasBlock(b) ==> b in Blocks(c.f.g);
    forall k
      ensures k in tree[b] <==> Up(c.t, c.w, k) && c.w[k] == b
    {
      assert k in c.w && k != c.f.g.entry ==> Up(c.t, c.w, k);
    }
  }

  lemma TopsSame(st: Stacks, full: Stacks, tops: map<Slot, Operand>)
    requires TopsAre(full, tops) && SameStacks(st, full)
    ensures TopsAre(st, tops)
  {
  }

  lemma SameTransitive(a: Stacks, b: Stacks, e: Stacks)
    requires SameStacks(a, b) && SameStacks(b, e)
    ensures SameStacks(a, e)
  {
  }

  lemma SubtreeOfChild(c: Ctx, b: Block, k: Block)
    requires Up(c.t, c.w, k) && c.w[k] == b
    ensures Subtree(c, k) <= Subtree(c, b) && k in Subtree(c, k)
  {
    forall x | x in Subtree(c, k)
      ensures b in Chain(c.t, c.w, x)
    {
      ChainTransitive(c.t, c.w, x, k);
    }
  }

  lemma PristineChild(c: Ctx, code0: seq<Code>, code: seq<Code>, b: Block, ks: set<Block>, k: Block)
    requires Pristine(c, code0, Subtree(c, b)) && CodeRenamed(c, code0, code, Subtrees(c, ks))
    requires Subtree(c, k) <= Subtree(c, b) && Subtree(c, k) !! Subtrees(c, ks)
    ensures Pristine(c, code, Subtree(c, k))
  {
    hide Subtree, Subtrees, RenamedCode;
  }

  /** Everything the recursive call on child k asks for. */
  lemma BeforeChild(c: Ctx, b: Block, done: set<Block>, ks: set<Block>, k: Block, full: Stacks, st: Stacks,
                    code0: seq<Code>, code: seq<Code>, phis: seq<seq<Phi>>,
                    replaced0: map<Reg, Operand>, replaced: map<Reg, Operand>)
    requires ChildState(c, b, done, ks, full, st, code0, code, phis, replaced0, replaced)
    requires WellFormed(c) && DominatorInfo(c) && Subtree(c, b) !! done && Pristine(c, code0, Subtree(c, b))
    requires forall j :: j in ks ==> Up(c.t, c.w, j) && c.w[j] == b
    requires Up(c.t, c.w, k) && c.w[k] == b && k !in ks && TopsAre(full, InfoOut(c, b).tops)
    ensures k in c.w && k in c.t.id && b in c.t.id && c.t.id[k] < c.t.id[b]
    ensures k < |code| == |c.f.code| && code[k] == c.f.code[k]
    ensures Subtree(c, k) !! done + {b} + Subtrees(c, ks)
    ensures |phis| == |c.place| && Filled(c, phis, done + {b} + Subtrees(c, ks), k, {})
    ensures Pristine(c, code, Subtree(c, k))
    ensures TopsAre(st, Above(c, k).tops) && Agrees(c, replaced, k, 0)
    ensures OnlyMet(c, replaced, done + {b} + Subtrees(c, ks), k, 0)
    ensures EmptiesMet(c, st, done + {b} + Subtrees(c, ks))
  {
    SubtreeOfChild(c, b, k);
    SubtreesApart(c, b, ks, k);
    assert c.t.id[k] <= c.t.top && k < |c.f.g.succs|;
    PristineChild(c, code0, code, b, ks, k);
    TopsSame(st, full, InfoOut(c, b).tops);
    AgreesChild(c, replaced, b, k);
    var d := done + {b} + Subtrees(c, ks);
    OnlyMetElsewhere(c, replaced, d, b, k);
    FilledNone(c, phis, d, b, k);
    hide Agrees, OnlyMet, OnlyAdds, Filled, EmptiesMet, Chain, WellFormed, TopsAre, SameStacks, InfoOut, ValidNumbering,
      Rising, Exact;
  }

  lemma OnlyAddsTrans(c: Ctx, m0: map<Reg, Operand>, m1: map<Reg, Operand>, m2: map<Reg, Operand>, s: set<Block>,
                      t: set<Block>)
    requires OnlyAdds(c, m0, m1, s) && OnlyAdds(c, m1, m2, t)
    ensures OnlyAdds(c, m0, m2, s + t)
  {
  }

  lemma CodeRenamedMore(c: Ctx, code0: seq<Code>, code1: seq<Code>, code2: seq<Code>, s: set<Block>, t: set<Block>)
    requires CodeRenamed(c, code0, code1, s) && CodeRenamed(c, code1, code2, t)
    ensures CodeRenamed(c, code0, code2, s + t)
  {
    hide RenamedCode;
  }

  lemma AfterChild(c: Ctx, b: Block, done: set<Block>, ks: set<Block>, k: Block, full: Stacks, st1: Stacks, st: Stacks,
                   code0: seq<Code>, code1: seq<Code>, code: seq<Code>, phis: seq<seq<Phi>>,
                   replaced0: map<Reg, Operand>, replaced1: map<Reg, Operand>, replaced: map<Reg, Operand>)
    requires Agrees(c, replaced1, b, |c.Instrs(b)|) && SameStacks(st1, full)
    requires OnlyAdds(c, replaced0, replaced1, {b} + Subtrees(c, ks)) && CodeRenamed(c, code0, code1, Subtrees(c, ks))
    requires WellFormed(c) && Up(c.t, c.w, k) && c.w[k] == b
    requires SameStacks(st, st1) && OnlyAdds(c, replaced1, replaced, Subtree(c, k))
    requires OnlyMet(c, replaced, done + {b} + Subtrees(c, ks) + Subtree(c, k), k, 0)
    requires Filled(c, phis, done + {b} + Subtrees(c, ks) + Subtree(c, k), k, {})
    requires CodeRenamed(c, code1, code, Subtree(c, k))
    requires EmptiesMet(c, st, done + {b} + Subtrees(c, ks) + Subtree(c, k))
    ensures ChildState(c, b, done, ks + {k}, full, st, code0, code, phis, replaced0, replaced)
  {
    SubtreesMore(c, ks, k);
    SameTransitive(st, st1, full);
    AgreesAfterChild(c, replaced1, replaced, b, k);
    OnlyAddsTrans(c, replaced0, replaced1, replaced, {b} + Subtrees(c, ks), Subtree(c, k));
    CodeRenamedMore(c, code0, code1, code, Subtrees(c, ks), Subtree(c, k));
    var d := done + {b} + Subtrees(c, ks) + Subtree(c, k);
    OnlyMetElsewhere(c, replaced, d, k, b);
    FilledNone(c, phis, d, k, b);
    hide *;
    assert done + {b} + Subtrees(c, ks + {k}) == d;
    assert {b} + Subtrees(c, ks) + Subtree(c, k) == {b} + Subtrees(c, ks + {k});
    ChildStateIntro(c, b, done, ks + {k}, full, st, code0, code, phis, replaced0, replaced);
  }

  lemma ChildStateIntro(c: Ctx, b: Block, done: set<Block>, ks: set<Block>, full: Stacks, st: Stacks,
                        code0: seq<Code>, code: seq<Code>, phis: seq<seq<Phi>>,
                        replaced0: map<Reg, Operand>, replaced: map<Reg, Operand>)
    requires SameStacks(st, full) && Agrees(c, replaced, b, |c.Instrs(b)|)
    requires EmptiesMet(c, st, done + {b} + Subtrees(c, ks))
    requires OnlyMet(c, replaced, done + {b} + Subtrees(c, ks), b, 0)
    requires OnlyAdds(c, replaced0, replaced, {b} + Subtrees(c, ks))
    requires Filled(c, phis, done + {b} + Subtrees(c, ks), b, {})
    requires CodeRenamed(c, code0, code, Subtrees(c, ks))
    ensures ChildState(c, b, done, ks, full, st, code0, code, phis, replaced0, replaced)
  {
  }

  lemma ChildStateParts(c: Ctx, b: Block, done: set<Block>, ks: set<Block>, full: Stacks, st: Stacks,
                        code0: seq<Code>, code: seq<Code>, phis: seq<seq<Phi>>,
                        replaced0: map<Reg, Operand>, replaced: map<Reg, Operand>)
    requires ChildState(c, b, done, ks, full, st, code0, code, phis, replaced0, replaced)
    ensures SameStacks(st, full) && Agrees(c, replaced, b, |c.Instrs(b)|)
    ensures EmptiesMet(c, st, done + {b} + Subtrees(c, ks))
    ensures OnlyMet(c, replaced, done + {b} + Subtrees(c, ks), b, 0)
    ensures OnlyAdds(c, replaced0, replaced, {b} + Subtrees(c, ks))
    ensures Filled(c, phis, done + {b} + Subtrees(c, ks), b, {})
    ensures CodeRenamed(c, code0, code, Subtrees(c, ks))
  {
  }

  /** All children done: what is left is to pop and to write block b itself. */
  lemma AfterChildren(c: Ctx, tree: Frontiers, b: Block, done: set<Block>, full: Stacks, st: Stacks,
                      code0: seq<Code>, code: seq<Code>, phis: seq<seq<Phi>>,
                      replaced0: map<Reg, Operand>, replaced: map<Reg, Operand>)
    requires b in tree && b in c.w && b < |c.f.code| && WellFormed(c)
    requires forall k :: k in tree[b] <==> Up(c.t, c.w, k) && c.w[k] == b
    requires ChildState(c, b, done, tree[b], full, st, code0, code, phis, replaced0, replaced)
    requires code0[b] == c.f.code[b] && |code0| == |c.f.code|
    ensures SameStacks(st, full) && OnlyAdds(c, replaced0, replaced, Subtree(c, b))
    ensures EmptiesMet(c, st, done + Subtree(c, b)) && b in done + Subtree(c, b)
    ensures OnlyMet(c, replaced, done + Subtree(c, b), b, 0)
    ensures Filled(c, phis, done + Subtree(c, b), b, {}) && |phis| == |c.place| && SlotsAre(phis[b], c.Placed(b))
    ensures |code| == |c.f.code| && code[b] == c.f.code[b]
    ensures CodeRenamed(c, code0, code[b := RenamedCode(c, b)], Subtree(c, b))
  {
    ChildStateParts(c, b, done, tree[b], full, st, code0, code, phis, replaced0, replaced);
    SubtreeSplit(c, b, tree[b]);
    assert done + {b} + Subtrees(c, tree[b]) == done + Subtree(c, b);
    FilledShape(c, phis, done + Subtree(c, b), b, {}, b);
    SubtreeRoot(c, b, tree[b]);
    CodeRenamedRoot(c, code0, code, b, Subtrees(c, tree[b]));
  }

  lemma SubtreeRoot(c: Ctx, b: Block, ks: set<Block>)
    requires forall k :: k in ks ==> Up(c.t, c.w, k) && c.w[k] == b
    ensures b !in Subtrees(c, ks)
  {
    if b in Subtrees(c, ks) {
      var k :| k in ks && k in Chain(c.t, c.w, b);
      ChainAbove(c.t, c.w, b, k);
    }
  }

  lemma CodeRenamedRoot(c: Ctx, code0: seq<Code>, code: seq<Code>, b: Block, s: set<Block>)
    requires CodeRenamed(c, code0, code, s) && b !in s && b < |code|
    ensures code[b] == code0[b] && CodeRenamed(c, code0, code[b := RenamedCode(c, b)], {b} + s)
  {
    hide RenamedCode;
  }
}
