/** The pass that turns phis into stack slots, as it edits the blocks. */
module PhiElimPass {
  import opened Cfg
  import opened Ssa
  import opened PhiElimTheory

  /** m names a phi of the first n blocks, or one of the first k of block n. */
  ghost predicate Listed(f: Func, m: PhiName, n: nat, k: nat) {
    m.0 < |f.phis| && exists i ::
      0 <= i < |f.phis[m.0]| && f.phis[m.0][i].slot == m.1 && (m.0 < n || (m.0 == n && i < k))
  }

  /** The listed phis have slots, all different, from low up. */
  ghost predicate SlotsGiven(f: Func, at: SlotMap, low: Slot, next: Slot, n: nat, k: nat) {
    && low <= next
    && (forall m {:trigger m in at} {:trigger Listed(f, m, n, k)} :: m in at <==> Listed(f, m, n, k))
    && (forall m {:trigger at[m]} :: m in at ==> low <= at[m] < next)
    && (forall m, m' {:trigger at[m], at[m']} :: m in at && m' in at && at[m] == at[m'] ==> m == m')
  }

  lemma NewSlot(f: Func, at: SlotMap, low: Slot, s: Slot, b: Block, i: nat)
    requires FuncOk(f) && b < |f.phis| && i < |f.phis[b]| && SlotsGiven(f, at, low, s, b, i)
    ensures var m := (b, f.phis[b][i].slot); m !in at && SlotsGiven(f, at[m := s], low, s + 1, b, i + 1)
  {
    var m := (b, f.phis[b][i].slot);
    assert Distinct(f.phis[b]);
    assert !Listed(f, m, b, i);
    var j := i + 1;
    forall n
      ensures Listed(f, n, b, j) <==> n == m || Listed(f, n, b, i)
    {
    }
  }

  lemma BlockListed(f: Func, at: SlotMap, low: Slot, next: Slot, b: Block)
    requires b < |f.phis| && SlotsGiven(f, at, low, next, b, |f.phis[b]|)
    ensures SlotsGiven(f, at, low, next, b + 1, 0)
    ensures forall i {:trigger f.phis[b][i]} :: 0 <= i < |f.phis[b]| ==> (b, f.phis[b][i].slot) in at
  {
    var n := b + 1;
    forall m
      ensures Listed(f, m, n, 0) <==> Listed(f, m, b, |f.phis[b]|)
    {
    }
    forall i | 0 <= i < |f.phis[b]|
      ensures (b, f.phis[b][i].slot) in at
    {
      assert Listed(f, (b, f.phis[b][i].slot), b, |f.phis[b]|);
    }
  }

  lemma {:induction false} LoadsStable(b: Block, phis: seq<Phi>, at: SlotMap, at': SlotMap)
    requires forall i {:trigger phis[i]} :: 0 <= i < |phis| ==> (b, phis[i].slot) in at
    requires forall m {:trigger at[m]} :: m in at ==> m in at' && at'[m] == at[m]
    ensures Loads(b, phis, at') == Loads(b, phis, at)
  {
    if phis != [] {
      LoadsStable(b, phis[..|phis| - 1], at, at');
      var m := (b, phis[|phis| - 1].slot);
      assert m in at && at[m] == at'[m];
    }
  }

  // ----- the code while loads are put in -----

  function WithLoads(f: Func, b: Block, at: SlotMap, allocas: seq<Instr>, replaced: bool): Code
    requires b < |f.code| && b < |f.phis|
  {
    Code((if replaced then Loads(b, f.phis[b], at) else [])
      + (f.code[b].instrs + if b == f.g.entry then allocas else []), f.code[b].term)
  }

  /** The blocks before n have loads in place of their phis, and the allocas made so far stand at the end
      of the entry block. */
  ghost predicate LoadsIn(f: Func, code: seq<Code>, at: SlotMap, n: nat, allocas: seq<Instr>) {
    && |code| == |f.code| == |f.phis| && AllocasOk(at, allocas)
    && forall b: Block {:trigger code[b]} :: b < |code| ==> code[b] == WithLoads(f, b, at, allocas, b < n)
  }

  lemma OneMoreAlloca(at: SlotMap, m: PhiName, s: Slot, allocas: seq<Instr>)
    requires AllocasOk(at, allocas) && m !in at && s !in at.Values
    ensures AllocasOk(at[m := s], allocas + [Alloca(s, true)])
  {
    var at', x0, xs := at[m := s], Alloca(s, true), allocas + [Alloca(s, true)];
    assert at'.Values == at.Values + {s} by {
      assert at'[m] == s;
      forall v | v in at.Values
        ensures v in at'.Values
      {
        var n :| n in at && at[n] == v;
        assert at'[n] == v;
      }
    }
    assert x0 !in allocas;
    assert forall x :: x in xs <==> x in allocas || x == x0;
  }

  lemma NewAlloca(f: Func, code: seq<Code>, at: SlotMap, low: Slot, s: Slot, b: Block, i: nat, m: PhiName,
                  allocas: seq<Instr>)
    requires FuncOk(f) && LoadsIn(f, code, at, b, allocas) && SlotsGiven(f, at, low, s, b, i) && m !in at
    requires f.g.entry < |code|
    ensures var e := f.g.entry; var code' := code[e := Code(code[e].instrs + [Alloca(s, true)], code[e].term)];
            LoadsIn(f, code', at[m := s], b, allocas + [Alloca(s, true)])
  {
    var e, at', allocas' := f.g.entry, at[m := s], allocas + [Alloca(s, true)];
    OneMoreAlloca(at, m, s, allocas);
    assert code[e] == WithLoads(f, e, at, allocas, e < b);
    var code' := code[e := Code(code[e].instrs + [Alloca(s, true)], code[e].term)];
    forall c: Block | c < |code'|
      ensures code'[c] == WithLoads(f, c, at', allocas', c < b)
    {
      assert code[c] == WithLoads(f, c, at, allocas, c < b);
      if c < b {
        forall j | 0 <= j < |f.phis[c]|
          ensures (c, f.phis[c][j].slot) in at
        {
          assert Listed(f, (c, f.phis[c][j].slot), b, i);
        }
        LoadsStable(c, f.phis[c], at, at');
      }
    }
  }

  lemma LoadsPut(f: Func, code: seq<Code>, at: SlotMap, b: Block, allocas: seq<Instr>)
    requires LoadsIn(f, code, at, b, allocas) && b < |f.code|
    ensures LoadsIn(f, code[b := Code(Loads(b, f.phis[b], at) + code[b].instrs, code[b].term)], at, b + 1, allocas)
  {
    assert code[b] == WithLoads(f, b, at, allocas, false);
  }

  // ----- the code while stores are added -----

  /** The pairs dealt with: those of the phis in done, and the first k of the phi called now. */
  ghost function Counted(b: Block, phi: Phi, done: set<PhiName>, now: PhiName, k: nat): seq<(Operand, Block)> {
    if (b, phi.slot) in done then phi.pairs
    else if (b, phi.slot) == now && k <= |phi.pairs| then phi.pairs[..k]
    else []
  }

  /** Behind base stands one store for each pair dealt with that names p, and nothing else. */
  ghost predicate StoresAdded(f: Func, base: seq<Instr>, xs: seq<Instr>, at: SlotMap, p: Block, done: set<PhiName>,
                              now: PhiName, k: nat) {
    && base <= xs && OnlyStores(f, at, p, xs[|base|..])
    && (forall b: Block, phi, o
          {:trigger StoredFor(at, p, xs[|base|..], b, phi, o, Counted(b, phi, done, now, k))} ::
          HasPhi(f, b, phi) && (b, phi.slot) in at ==>
          StoredFor(at, p, xs[|base|..], b, phi, o, Counted(b, phi, done, now, k)))
  }

  ghost predicate StoresIn(f: Func, base: seq<Code>, code: seq<Code>, at: SlotMap, done: set<PhiName>, now: PhiName,
                           k: nat) {
    && |code| == |base| == |f.code|
    && forall p: Block {:trigger code[p]} :: p < |code| ==>
         code[p].term == base[p].term && StoresAdded(f, base[p].instrs, code[p].instrs, at, p, done, now, k)
  }

  lemma NoStores(f: Func, base: seq<Code>, at: SlotMap, now: PhiName)
    requires |base| == |f.code|
    ensures StoresIn(f, base, base, at, {}, now, 0)
  {
    forall p: Block | p < |base|
      ensures StoresAdded(f, base[p].instrs, base[p].instrs, at, p, {}, now, 0)
    {
      assert base[p].instrs[|base[p].instrs|..] == [];
      assert forall b: Block, phi :: Counted(b, phi, {}, now, 0) == [];
    }
  }

  ghost predicate OwnSlots(at: SlotMap) {
    forall m, n {:trigger at[m], at[n]} :: m in at && n in at && at[m] == at[n] ==> m == n
  }

  /** What the pair counts for any phi and operand. */
  lemma PairCounts(at: SlotMap, p: Block, xs: seq<Instr>, done: set<PhiName>, b: Block, phi: Phi, k: nat, c: Block,
                   phi': Phi, o: Operand)
    requires OwnSlots(at) && (b, phi.slot) in at && (b, phi.slot) !in done && k < |phi.pairs|
    requires (c, phi'.slot) == (b, phi.slot) ==> phi' == phi
    requires StoredFor(at, p, xs, c, phi', o, Counted(c, phi', done, (b, phi.slot), k))
    ensures var (v, q) := phi.pairs[k];
            StoredFor(at, p, if q == p then xs + [Store(v, at[(b, phi.slot)])] else xs, c, phi', o,
              Counted(c, phi', done, (b, phi.slot), k + 1))
  {
    var (v, q) := phi.pairs[k];
    assert phi.pairs[..k + 1] == phi.pairs[..k] + [phi.pairs[k]];
    assert at[(c, phi'.slot)] == at[(b, phi.slot)] ==> phi' == phi;
  }

  /** One more store. */
  lemma MoreStored(f: Func, base: seq<Instr>, xs: seq<Instr>, xs': seq<Instr>, at: SlotMap, p: Block,
                   done: set<PhiName>, b: Block, phi: Phi, k: nat)
    requires FuncOk(f) && OwnSlots(at) && HasPhi(f, b, phi) && (b, phi.slot) in at && (b, phi.slot) !in done
    requires k < |phi.pairs| && StoresAdded(f, base, xs, at, p, done, (b, phi.slot), k)
    requires xs' == if phi.pairs[k].1 == p then xs + [Store(phi.pairs[k].0, at[(b, phi.slot)])] else xs
    ensures StoresAdded(f, base, xs', at, p, done, (b, phi.slot), k + 1)
  {
    var m, x, j, added := (b, phi.slot), Store(phi.pairs[k].0, at[(b, phi.slot)]), k + 1, xs[|base|..];
    if phi.pairs[k].1 == p {
      added := added + [x];
      assert Pairs(phi, phi.pairs[k].0, p);
      assert IsStore(f, at, p, b, phi, phi.pairs[k].0, x);
      assert SomeStore(f, at, p, x);
    }
    assert xs'[|base|..] == added;
    hide StoredFor, OwnSlots, Counted;
    forall c: Block, phi', o | HasPhi(f, c, phi') && (c, phi'.slot) in at
      ensures StoredFor(at, p, added, c, phi', o, Counted(c, phi', done, m, j))
    {
      if (c, phi'.slot) == m {
        SamePhi(f.phis[b], phi, phi');
      }
      assert StoredFor(at, p, xs[|base|..], c, phi', o, Counted(c, phi', done, m, k));
      PairCounts(at, p, xs[|base|..], done, b, phi, k, c, phi', o);
    }
  }

  lemma StoreAdded(f: Func, base: seq<Code>, code: seq<Code>, at: SlotMap, done: set<PhiName>, b: Block, phi: Phi,
                   k: nat)
    requires FuncOk(f) && OwnSlots(at) && HasPhi(f, b, phi) && (b, phi.slot) in at && (b, phi.slot) !in done
    requires k < |phi.pairs| && StoresIn(f, base, code, at, done, (b, phi.slot), k)
    ensures phi.pairs[k].1 < |code|
    ensures var (o, p) := phi.pairs[k];
            StoresIn(f, base, code[p := Code(code[p].instrs + [Store(o, at[(b, phi.slot)])], code[p].term)], at, done,
              (b, phi.slot), k + 1)
  {
    var (o, p) := phi.pairs[k];
    assert PhiOk(f, phi) && Pairs(phi, o, p);
    var code' := code[p := Code(code[p].instrs + [Store(o, at[(b, phi.slot)])], code[p].term)];
    hide FuncOk, PhiOk, StoresAdded, Pairs, OwnSlots;
    forall q: Block | q < |code'|
      ensures code'[q].term == base[q].term
      ensures StoresAdded(f, base[q].instrs, code'[q].instrs, at, q, done, (b, phi.slot), k + 1)
    {
      assert code[q].term == base[q].term;
      MoreStored(f, base[q].instrs, code[q].instrs, code'[q].instrs, at, q, done, b, phi, k);
    }
  }

  /** Only what is counted matters. */
  lemma SameCounts(f: Func, base: seq<Code>, code: seq<Code>, at: SlotMap, done: set<PhiName>, now: PhiName, k: nat,
                   done': set<PhiName>, now': PhiName, k': nat)
    requires StoresIn(f, base, code, at, done, now, k)
    requires forall b: Block, phi {:trigger HasPhi(f, b, phi)} :: HasPhi(f, b, phi) ==>
      Counted(b, phi, done, now, k) == Counted(b, phi, done', now', k')
    ensures StoresIn(f, base, code, at, done', now', k')
  {
    hide Counted, StoredFor;
    forall p: Block | p < |code|
      ensures StoresAdded(f, base[p].instrs, code[p].instrs, at, p, done', now', k')
    {
      assert code[p].term == base[p].term;
      var added := code[p].instrs[|base[p].instrs|..];
      forall b: Block, phi, o | HasPhi(f, b, phi) && (b, phi.slot) in at
        ensures StoredFor(at, p, added, b, phi, o, Counted(b, phi, done', now', k'))
      {
        assert StoredFor(at, p, added, b, phi, o, Counted(b, phi, done, now, k));
      }
    }
  }

  lemma PhiStored(f: Func, base: seq<Code>, code: seq<Code>, at: SlotMap, done: set<PhiName>, b: Block, phi: Phi,
                  next: PhiName)
    requires FuncOk(f) && HasPhi(f, b, phi) && StoresIn(f, base, code, at, done, (b, phi.slot), |phi.pairs|)
    ensures StoresIn(f, base, code, at, done + {(b, phi.slot)}, next, 0)
  {
    hide StoresIn;
    forall c: Block, phi' | HasPhi(f, c, phi')
      ensures Counted(c, phi', done, (b, phi.slot), |phi.pairs|) == Counted(c, phi', done + {(b, phi.slot)}, next, 0)
    {
      if (c, phi'.slot) == (b, phi.slot) {
        SamePhi(f.phis[b], phi, phi');
        assert phi.pairs[..|phi.pairs|] == phi.pairs;
      }
    }
    SameCounts(f, base, code, at, done, (b, phi.slot), |phi.pairs|, done + {(b, phi.slot)}, next, 0);
  }

  lemma NowIsFree(f: Func, base: seq<Code>, code: seq<Code>, at: SlotMap, done: set<PhiName>, now: PhiName,
                  next: PhiName)
    requires StoresIn(f, base, code, at, done, now, 0)
    ensures StoresIn(f, base, code, at, done, next, 0)
  {
    hide StoresIn;
    SameCounts(f, base, code, at, done, now, 0, done, next, 0);
  }

  // ----- the result -----

  lemma ResultEliminated(f: Func, h: Func, base: seq<Code>, at: SlotMap, low: Slot, next: Slot, allocas: seq<Instr>,
                         now: PhiName)
    requires FuncOk(f) && SlotsBelow(f, low) && SlotsGiven(f, at, low, next, |f.phis|, 0)
    requires LoadsIn(f, base, at, |f.code|, allocas) && StoresIn(f, base, h.code, at, at.Keys, now, 0)
    requires h.g == f.g && h.args == f.args && |h.phis| == |f.phis| && forall b {:trigger h.phis[b]} ::
      0 <= b < |h.phis| ==> h.phis[b] == []
    ensures Eliminated(f, h, at)
  {
    SlotsAreOk(f, at, low, next);
    hide FuncOk, SlotsBelow, SlotsGiven, SlotsOk, AllocasOk, Loads, OnlyStores, StoresAdded, BlockOk, WithLoads;
    forall b: Block | b < |h.code|
      ensures h.code[b].term == f.code[b].term && BlockOk(f, at, b, h.code[b].instrs)
    {
      assert base[b] == WithLoads(f, b, at, allocas, true) && h.code[b].term == base[b].term;
      ResultBlock(f, b, base[b], h.code[b], at, allocas, now);
    }
  }

  lemma IsPrefix(f: Func, at: SlotMap, p: Block, base: seq<Instr>, xs: seq<Instr>, now: PhiName)
    requires StoresAdded(f, base, xs, at, p, at.Keys, now, 0)
    ensures base <= xs
  {
  }

  lemma AllStored(f: Func, at: SlotMap, p: Block, base: seq<Instr>, xs: seq<Instr>, now: PhiName)
    requires StoresAdded(f, base, xs, at, p, at.Keys, now, 0)
    ensures StoresOk(f, at, p, xs[|base|..])
  {
    hide OnlyStores, StoredFor;
    forall b: Block, phi, o | HasPhi(f, b, phi) && (b, phi.slot) in at
      ensures StoredFor(at, p, xs[|base|..], b, phi, o, phi.pairs)
    {
      assert StoredFor(at, p, xs[|base|..], b, phi, o, Counted(b, phi, at.Keys, now, 0));
    }
  }

  lemma ResultBlock(f: Func, b: Block, base: Code, code: Code, at: SlotMap, allocas: seq<Instr>, now: PhiName)
    requires b < |f.code| && b < |f.phis| && base == WithLoads(f, b, at, allocas, true) && AllocasOk(at, allocas)
    requires StoresAdded(f, base.instrs, code.instrs, at, b, at.Keys, now, 0)
    ensures base.term == f.code[b].term && BlockOk(f, at, b, code.instrs)
  {
    hide Loads, OnlyStores, StoresAdded, StoresOk, AllocasOk;
    AllStored(f, at, b, base.instrs, code.instrs, now);
    assert base.instrs <= code.instrs by {
      IsPrefix(f, at, b, base.instrs, code.instrs, now);
    }
    var mine := if b == f.g.entry then allocas else [];
    var stores := code.instrs[|base.instrs|..];
    assert code.instrs == Loads(b, f.phis[b], at) + InstrsOf(f, b) + mine + stores;
    assert BlockElim(f, at, b, code.instrs, mine, stores);
  }

  lemma SlotsAreOk(f: Func, at: SlotMap, low: Slot, next: Slot)
    requires SlotsBelow(f, low) && SlotsGiven(f, at, low, next, |f.phis|, 0)
    ensures SlotsOk(f, at)
  {
    forall b: Block, phi | HasPhi(f, b, phi)
      ensures (b, phi.slot) in at
    {
      assert Listed(f, (b, phi.slot), |f.phis|, 0);
    }
  }

  lemma NamedPhi(f: Func, at: SlotMap, low: Slot, next: Slot, m: PhiName)
    requires SlotsGiven(f, at, low, next, |f.phis|, 0) && m in at
    ensures m.0 < |f.phis| && exists phi :: phi in f.phis[m.0] && phi.slot == m.1
    ensures forall phi {:trigger HasPhi(f, m.0, phi)} :: phi in f.phis[m.0] ==> HasPhi(f, m.0, phi)
  {
    assert Listed(f, m, |f.phis|, 0);
  }

  /** The same behaviour on the same arguments, for any meaning of the operations and any run length,
      unless an undefined value is used; if no phi lacks a pair, then as well. */
  ghost predicate BehavesAlike(f: Func, h: Func) {
    forall sem: Semantics, k: nat, args: map<Reg, Val>, world: World {:trigger Behave(h, sem, k, args, world)} ::
      Complete(f) || Behave(f, sem, k, args, world) != Stuck ==>
        Behave(h, sem, k, args, world) == Behave(f, sem, k, args, world)
  }

  lemma AlikeEliminated(f: Func, h: Func, at: SlotMap)
    requires FuncOk(f) && Eliminated(f, h, at)
    ensures BehavesAlike(f, h)
  {
    forall sem: Semantics, k: nat, args: map<Reg, Val>, world: World | Complete(f)
      || Behave(f, sem, k, args, world) != Stuck
      ensures Behave(h, sem, k, args, world) == Behave(f, sem, k, args, world)
    {
      EliminationPreservesMeaning(f, h, at, sem, k, args, world);
    }
  }

  class PhiElim {
    var code: seq<Code>
    var phi2alloca: SlotMap
    var nextSlot: Slot

    constructor ()
      ensures code == [] && phi2alloca == map[] && nextSlot == 0
    {
      code, phi2alloca, nextSlot := [], map[], 0;
    }

    /** A new alloca at the end of the entry block (before its terminator). */
    method CreateAlloca(entry: Block) returns (s: Slot)
      requires entry < |code|
      modifies this`code, this`nextSlot
      ensures s == old(nextSlot) && nextSlot == s + 1
      ensures code == old(code)[entry := Code(old(code)[entry].instrs + [Alloca(s, true)], old(code)[entry].term)]
    {
      s := nextSlot;
      nextSlot := nextSlot + 1;
      code := code[entry := code[entry].(instrs := code[entry].instrs + [Alloca(s, true)])];
    }

    /** Gives every phi of block b a slot, and puts a load in its place that takes over its name. */
    method ReplacePhis(f: Func, b: Block, ghost low: Slot, ghost allocas0: seq<Instr>)
      returns (ghost allocas: seq<Instr>)
      requires FuncOk(f) && b < |f.code| && SlotsGiven(f, phi2alloca, low, nextSlot, b, 0)
      requires LoadsIn(f, code, phi2alloca, b, allocas0)
      modifies this`code, this`phi2alloca, this`nextSlot
      ensures SlotsGiven(f, phi2alloca, low, nextSlot, b + 1, 0) && LoadsIn(f, code, phi2alloca, b + 1, allocas)
    {
      assert |f.phis| == |f.code| && f.g.entry < |f.code|;
      hide FuncOk, SlotsGiven, Listed, Loads;
      allocas := allocas0;
      var phis := f.phis[b];
      for i := 0 to |phis|
        invariant SlotsGiven(f, phi2alloca, low, nextSlot, b, i) && LoadsIn(f, code, phi2alloca, b, allocas)
      {
        var m := (b, phis[i].slot);
        NewSlot(f, phi2alloca, low, nextSlot, b, i);
        NewAlloca(f, code, phi2alloca, low, nextSlot, b, i, m, allocas);
        var s := CreateAlloca(f.g.entry);
        phi2alloca := phi2alloca[m := s];
        allocas := allocas + [Alloca(s, true)];
      }
      BlockListed(f, phi2alloca, low, nextSlot, b);
      LoadsPut(f, code, phi2alloca, b, allocas);
      var loads := MakeLoads(b, phis);
      code := code[b := code[b].(instrs := loads + code[b].instrs)];
    }

    method MakeLoads(b: Block, phis: seq<Phi>) returns (loads: seq<Instr>)
      requires forall i {:trigger phis[i]} :: 0 <= i < |phis| ==> (b, phis[i].slot) in phi2alloca
      ensures loads == Loads(b, phis, phi2alloca)
    {
      loads := [];
      for i := 0 to |phis|
        invariant loads == Loads(b, phis[..i], phi2alloca)
      {
        assert phis[..i + 1][..i] == phis[..i];
        loads := loads + [Load(PhiAt(b, phis[i].slot), phi2alloca[(b, phis[i].slot)])];
      }
      assert phis[..|phis|] == phis;
    }

    /** For every pair of the phi a store at the end of the block it names (before its terminator). */
    method StoreOperands(f: Func, b: Block, phi: Phi, ghost base: seq<Code>, ghost done: set<PhiName>)
      requires FuncOk(f) && HasPhi(f, b, phi) && (b, phi.slot) in phi2alloca && OwnSlots(phi2alloca)
      requires (b, phi.slot) !in done && StoresIn(f, base, code, phi2alloca, done, (b, phi.slot), 0)
      modifies this`code
      ensures StoresIn(f, base, code, phi2alloca, done + {(b, phi.slot)}, (b, phi.slot), 0)
    {
      hide FuncOk, StoresIn, HasPhi, OwnSlots;
      for k := 0 to |phi.pairs|
        invariant StoresIn(f, base, code, phi2alloca, done, (b, phi.slot), k)
      {
        StoreAdded(f, base, code, phi2alloca, done, b, phi, k);
        var (val, bb) := phi.pairs[k];
        code := code[bb := code[bb].(instrs := code[bb].instrs + [Store(val, phi2alloca[(b, phi.slot)])])];
      }
      PhiStored(f, base, code, phi2alloca, done, b, phi, (b, phi.slot));
    }

    /** Loads for all phis, block by block. */
    method ReplaceAll(f: Func, low: Slot) returns (ghost allocas: seq<Instr>)
      requires FuncOk(f)
      modifies this
      ensures SlotsGiven(f, phi2alloca, low, nextSlot, |f.phis|, 0) && LoadsIn(f, code, phi2alloca, |f.code|, allocas)
    {
      code, phi2alloca, nextSlot := f.code, map[], low;
      allocas := [];
      for b := 0 to |f.code|
        invariant SlotsGiven(f, phi2alloca, low, nextSlot, b, 0) && LoadsIn(f, code, phi2alloca, b, allocas)
      {
        allocas := ReplacePhis(f, b, low, allocas);
      }
    }

    /** The stores for all phis; these come up in any order. */
    method StoreAll(f: Func, ghost low: Slot) returns (ghost now: PhiName)
      requires FuncOk(f) && SlotsGiven(f, phi2alloca, low, nextSlot, |f.phis|, 0) && |code| == |f.code|
      modifies this`code
      ensures StoresIn(f, old(code), code, phi2alloca, phi2alloca.Keys, now, 0)
    {
      assert OwnSlots(phi2alloca);
      hide FuncOk, StoresIn, SlotsGiven, OwnSlots;
      now := (0, 0);
      NoStores(f, code, phi2alloca, now);
      var todo: set<PhiName> := phi2alloca.Keys;
      assert phi2alloca.Keys - todo == {};
      while todo != {}
        invariant todo <= phi2alloca.Keys
        invariant StoresIn(f, old(code), code, phi2alloca, phi2alloca.Keys - todo, now, 0)
      {
        var m: PhiName :| m in todo;
        NamedPhi(f, phi2alloca, low, nextSlot, m);
        var phi :| phi in f.phis[m.0] && phi.slot == m.1;
        NowIsFree(f, old(code), code, phi2alloca, phi2alloca.Keys - todo, now, m);
        StoreOperands(f, m.0, phi, old(code), phi2alloca.Keys - todo);
        assert phi2alloca.Keys - todo + {m} == phi2alloca.Keys - (todo - {m});
        todo, now := todo - {m}, m;
      }
      assert phi2alloca.Keys - todo == phi2alloca.Keys;
    }

    /** The whole pass on one function. */
    method Run(f: Func, low: Slot) returns (h: Func)
      requires FuncOk(f) && SlotsBelow(f, low)
      modifies this
      ensures Eliminated(f, h, phi2alloca) && BehavesAlike(f, h) && AllocatedOnWalks(h, phi2alloca)
    {
      assert |f.phis| == |f.code|;
      hide FuncOk, SlotsBelow, StoresIn, SlotsGiven, Eliminated, BehavesAlike, AllocatedOnWalks;
      ghost var allocas := ReplaceAll(f, low);
      ghost var base := code;
      ghost var now := StoreAll(f, low);
      h := Func(f.g, f.args, seq(|f.phis|, _ => []), code);
      ResultEliminated(f, h, base, phi2alloca, low, nextSlot, allocas, now);
      AlikeEliminated(f, h, phi2alloca);
      WalkAllocates(f, h, phi2alloca);
    }
  }
}
