/** Promotion of variables to registers, followed by the removal of the phis. */
module Passes {
  import opened Cfg
  import opened Ssa
  import opened RenameSpec
  import opened RenameTheory
  import opened RenameOrder
  import opened Promotion
  import opened PromotionShape
  import E = PhiElimTheory
  import opened PhiElimPass

  lemma SameAfterBoth(f: Func, g: Func, h: Func)
    requires SameBehaviour(f, g) && BehavesAlike(g, h)
    ensures SameBehaviour(f, h)
  {
    forall sem: Semantics, k: nat, args: map<Reg, Val>, world: World | args.Keys <= f.args
      && Behave(f, sem, k, args, world) != Stuck
      ensures Behave(h, sem, k, args, world) == Behave(f, sem, k, args, world)
    {
      assert Behave(g, sem, k, args, world) == Behave(f, sem, k, args, world);
    }
  }

  /** h comes from f by promotion to p, whose phis then got slots. */
  ghost predicate Lowered(c: Ctx, p: Func, h: Func, at: E.SlotMap) {
    && StorageKept(c.f, p) && MemoryGone(c, p) && Filled(c, p.phis, c.w.Keys, c.f.g.entry, {})
    && E.Eliminated(p, h, at) && E.AllocatedOnWalks(h, at)
  }

  /** Both passes. It succeeds exactly if the renaming meets no empty stack; then the result has no phis,
      and does what the original function does; what is left of memory are the slots of phis and of what
      promotion does not touch. */
  method PromoteAndEliminate(f: Func, address: Addresses, low: Slot, ghost site: map<Reg, (Block, nat)>)
    returns (ok: bool, h: Func, ghost c: Ctx, ghost promoted: Func, ghost at: E.SlotMap)
    requires SsaInput(f, site) && Different(address) && E.SlotsBelow(f, low)
    ensures c.f == f && DominatorInfo(c) && (ok <==> Clear(c, address))
    ensures EntryInitialises(f) ==> ok
    ensures ok ==> SameBehaviour(f, h) && forall b {:trigger h.phis[b]} :: 0 <= b < |h.phis| ==> h.phis[b] == []
    ensures ok ==> Lowered(c, promoted, h, at)
  {
    hide SsaInput, EntryInitialises, SameBehaviour, BehavesAlike, Different, Clear, DominatorInfo, E.SlotsBelow,
      E.FuncOk, StorageKept, MemoryGone, Filled, E.AllocatedOnWalks;
    ghost var frontier;
    var p;
    ok, p, c, frontier := Promote(f, address, site);
    h, promoted, at := p, p, map[];
    if ok {
      var pass := new PhiElim();
      h := pass.Run(p, low);
      at := pass.phi2alloca;
      SameAfterBoth(f, p, h);
    }
  }
}
