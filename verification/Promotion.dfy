/** The promotion pass end to end: from an SSA function to one without promotable memory. */
module Promotion {
  import opened Cfg
  import opened IdomTheory
  import opened PostOrder
  import opened FrontierTheory
  import opened Ssa
  import opened RenameSpec
  import opened RenameTheory
  import opened RenameOrder
  import opened PromotionProof
  import opened PromotionShape
  import opened PhiPlacement
  import opened DominatorAnalysis
  import opened Mem2RegPass
  import E = PhiElimTheory

  // ----- what the pass expects of its input -----

  /** The definition of r, at the given site, comes before position i of block b on every path. */
  ghost predicate DefinedBefore(f: Func, site: map<Reg, (Block, nat)>, b: Block, i: nat, r: Reg) {
    || r in f.args
    || (r in site && if site[r].0 == b then site[r].1 < i else f.g.Dominates(site[r].0, b))
  }

  /** SSA form without phis: single definitions, which dominate their uses. */
  ghost predicate SsaInput(f: Func, site: map<Reg, (Block, nat)>) {
    && f.g.Valid() && NoStrayPreds(f.g)
    && |f.code| == |f.phis| == |f.g.succs|
    && (forall b: Block, x: Block {:trigger f.g.Edge(b, x)} :: f.g.Edge(b, x) ==> x != f.g.entry)
    && (forall b: Block, x: Block {:trigger x in Targets(f.code[b].term)} ::
          b < |f.code| && x in Targets(f.code[b].term) ==> f.g.Edge(b, x))
    && (forall b {:trigger f.phis[b]} :: 0 <= b < |f.phis| ==> f.phis[b] == [])
    && (forall r {:trigger r in f.args} :: r in f.args ==> r.Temp?)
    && (forall b: Block, i, r {:trigger Defines(InstrsOf(f, b)[i], r)} ::
          0 <= i < |InstrsOf(f, b)| && Defines(InstrsOf(f, b)[i], r) ==>
            r.Temp? && r !in f.args && r in site && site[r] == (b, i))
    && (forall r {:trigger site[r]} :: r in site ==>
          site[r].1 < |InstrsOf(f, site[r].0)| && Defines(InstrsOf(f, site[r].0)[site[r].1], r))
    && (forall b: Block, i, r {:trigger Uses(InstrsOf(f, b)[i], r)} ::
          f.g.Reachable(b) && 0 <= i < |InstrsOf(f, b)| && Uses(InstrsOf(f, b)[i], r) ==>
            r.Temp? && DefinedBefore(f, site, b, i, r))
    && (forall b: Block, r {:trigger TermUses(f.code[b].term, r)} ::
          f.g.Reachable(b) && b < |f.code| && TermUses(f.code[b].term, r) ==>
            r.Temp? && DefinedBefore(f, site, b, |InstrsOf(f, b)|, r))
  }

  /** Every variable that is accessed anywhere is stored in the entry block, before any load there. */
  ghost predicate EntryInitialises(f: Func) {
    && (forall b: Block, i {:trigger InstrsOf(f, b)[i]} ::
          0 <= i < |InstrsOf(f, b)| && (InstrsOf(f, b)[i].Load? || InstrsOf(f, b)[i].Store?) ==>
            StoresTo(InstrsOf(f, f.g.entry), InstrsOf(f, b)[i].slot))
    && (forall i {:trigger InstrsOf(f, f.g.entry)[i]} ::
          0 <= i < |InstrsOf(f, f.g.entry)| && InstrsOf(f, f.g.entry)[i].Load? ==>
            StoresTo(InstrsOf(f, f.g.entry)[..i], InstrsOf(f, f.g.entry)[i].slot))
  }

  lemma KnownFrom(c: Ctx, b: Block, i: nat, r: Reg)
    requires DominatorInfo(c) && b in c.w && DefinedBefore(c.f, c.site, b, i, r) && r.Temp?
    ensures Known(c, b, i, r)
  {
  }

  lemma UseKnown(c: Ctx, b: Block, i: nat, r: Reg)
    requires DominatorInfo(c) && SsaInput(c.f, c.site) && b in c.w && i < |c.Instrs(b)| && Uses(c.Instrs(b)[i], r)
    ensures r.Temp? && Known(c, b, i, r)
  {
    hide DefinedBefore, Known;
    assert c.f.g.Reachable(b);
    assert Uses(InstrsOf(c.f, b)[i], r);
    KnownFrom(c, b, i, r);
  }

  lemma TermUseKnown(c: Ctx, b: Block, r: Reg)
    requires DominatorInfo(c) && SsaInput(c.f, c.site) && b in c.w && b < |c.f.code| && TermUses(c.f.code[b].term, r)
    ensures r.Temp? && Known(c, b, |c.Instrs(b)|, r)
  {
    hide DefinedBefore, Known;
    assert c.f.g.Reachable(b);
    KnownFrom(c, b, |c.Instrs(b)|, r);
  }

  lemma InputWellFormed(c: Ctx)
    requires DominatorInfo(c) && SsaInput(c.f, c.site) && |c.place| == |c.f.g.succs|
    ensures WellFormed(c)
  {
    hide DominatorInfo, Known, DefinedBefore;
    forall b: Block, i, r | b in c.w && 0 <= i < |c.Instrs(b)| && Uses(c.Instrs(b)[i], r)
      ensures r.Temp? && Known(c, b, i, r)
    {
      UseKnown(c, b, i, r);
    }
    forall b: Block, r | b in c.w && b < |c.f.code| && TermUses(c.f.code[b].term, r)
      ensures r.Temp? && Known(c, b, |c.Instrs(b)|, r)
    {
      TermUseKnown(c, b, r);
    }
    assert forall b: Block, i, r {:trigger Defines(c.Instrs(b)[i], r)} ::
        0 <= i < |c.Instrs(b)| && Defines(c.Instrs(b)[i], r) ==> Defines(InstrsOf(c.f, b)[i], r);
  }

  // ----- enough phis -----

  function PlaceOf(phis: seq<seq<Phi>>): (place: seq<seq<Slot>>)
    ensures |place| == |phis|
  {
    seq(|phis|, b requires 0 <= b < |phis| => SlotsOf(phis[b]))
  }

  lemma {:induction false} WaveHasStart(f: Frontiers, s: set<Block>, q: seq<Block>)
    requires Wave(f, s, q)
    ensures s != {}
  {
    if |q| > 1 {
      WaveHasStart(f, s, q[..|q| - 1]);
    }
  }

  lemma GeneratedPhisSuffice(c: Ctx, frontier: Frontiers, phis: seq<seq<Phi>>, vars: set<Slot>)
    requires WellFormed(c) && DominatorInfo(c) && FrontierCorrect(c.f.g, frontier)
    requires PhisFor(c.f, frontier, phis, vars) && c.place == PlaceOf(phis)
    requires forall v :: v !in vars ==> StoreBlocks(c.f, v) == {}
    ensures PhisSuffice(c)
  {
    forall x, b: Block, s | x in c.w && DefBlock(c, x, s) && c.f.g.InFrontier(x, b)
      ensures s in c.Placed(b)
    {
      var p :| c.f.g.Edge(p, b);
      assert FrontierGuard(c.f.g, x, b) && c.f.g.Reachable(x);
      var stores := StoreBlocks(c.f, s);
      if s in c.Placed(x) {
        assert PhisOfBlock(c.f, frontier, phis[x], x, vars);
        assert Iterated(frontier, stores, x);
      } else {
        assert x in stores;
      }
      IteratedStep(frontier, stores, x, b);
      var q :| Wave(frontier, stores, q);
      WaveHasStart(frontier, stores, q);
      assert PhisOfBlock(c.f, frontier, phis[b], b, vars);
      assert s in SlotsOf(phis[b]);
    }
  }

  lemma PlacesAreDistinct(c: Ctx, frontier: Frontiers, phis: seq<seq<Phi>>, vars: set<Slot>)
    requires PhisFor(c.f, frontier, phis, vars) && c.place == PlaceOf(phis)
    ensures PlacesDistinct(c)
  {
    forall b | 0 <= b < |c.place|
      ensures Distinct(c.place[b])
    {
      assert PhisOfBlock(c.f, frontier, phis[b], b, vars);
      var ss, ps := c.place[b], phis[b];
      assert forall i :: 0 <= i < |ss| ==> ss[i] == ps[i].slot;
    }
  }

  lemma NothingFilledYet(c: Ctx, frontier: Frontiers, phis: seq<seq<Phi>>, vars: set<Slot>)
    requires PhisFor(c.f, frontier, phis, vars) && c.place == PlaceOf(phis)
    ensures Filled(c, phis, {}, c.f.g.entry, {})
  {
    forall y | 0 <= y < |phis|
      ensures FilledFor(c, y, phis[y], {}, c.f.g.entry, false)
    {
      assert PhisOfBlock(c.f, frontier, phis[y], y, vars);
    }
  }

  // ----- the result -----

  lemma WholeTree(c: Ctx)
    requires DominatorInfo(c)
    ensures Subtree(c, c.f.g.entry) == c.w.Keys
  {
    forall x | x in c.w
      ensures c.f.g.entry in Chain(c.t, c.w, x)
    {
      ChainReachesEntry(c.f.g, c.t, c.w, x);
    }
  }

  lemma FilledMeansPhisFilled(c: Ctx, phis: seq<seq<Phi>>, b: Block, e: Block)
    requires Filled(c, phis, c.w.Keys, e, {}) && b < |phis| && Distinct(c.Placed(b))
    ensures PhisFilled(c, b, phis[b])
  {
    assert FilledFor(c, b, phis[b], c.w.Keys, e, false);
    var ps := phis[b];
    forall i, j | 0 <= i < j < |ps|
      ensures ps[i].slot != ps[j].slot
    {
      assert c.Placed(b)[i] != c.Placed(b)[j];
    }
    forall i, p | 0 <= i < |ps| && p in c.w && c.f.g.Edge(p, b)
      ensures Incoming(ps[i].pairs, p) ==
                if ps[i].slot in InfoOut(c, p).tops then Some(InfoOut(c, p).tops[ps[i].slot]) else None
    {
      assert PairsFor(c, b, ps[i], c.w.Keys, e, false);
    }
  }

  lemma RenamedIsPromoted(c: Ctx, code0: seq<Code>, code1: seq<Code>, code2: seq<Code>, phis: seq<seq<Phi>>)
    requires WellFormed(c) && PlacesDistinct(c) && Filled(c, phis, c.w.Keys, c.f.g.entry, {})
    requires CodeRenamed(c, code0, code1, c.w.Keys) && |code2| == |code1|
    requires forall b {:trigger code2[b]} :: 0 <= b < |code2| ==>
      code2[b] == code1[b].(instrs := DropScalars(code1[b].instrs))
    ensures Promoted(c, c.f.(phis := phis, code := code2))
  {
    var h := c.f.(phis := phis, code := code2);
    forall b | b in c.w && b < |h.code|
      ensures h.code[b].instrs == KeptOf(c.Instrs(b), InfoIn(c, b))
      ensures h.code[b].term == ResolveTerm(InfoOut(c, b).sub, c.f.code[b].term)
      ensures PhisFilled(c, b, h.phis[b])
    {
      assert code1[b] == RenamedCode(c, b);
      FilledMeansPhisFilled(c, phis, b, c.f.g.entry);
    }
  }

  // ----- when the renaming cannot fail -----

  lemma {:induction false} TopsGrowDown(c: Ctx, p: Block, s: Slot)
    requires DominatorInfo(c) && p in c.w && StoresTo(c.Instrs(c.f.g.entry), s)
    ensures s in InfoOut(c, p).tops && (p != c.f.g.entry ==> s in InfoIn(c, p).tops)
    decreases if p in c.t.id then c.t.top - c.t.id[p] else 0
  {
    if p != c.f.g.entry {
      assert Up(c.t, c.w, p);
      TopsGrowDown(c, c.w[p], s);
    }
    ScanTopsGrow(c.Instrs(p), InfoIn(c, p), s);
  }

  /** If the entry initialises every variable, every load and every phi edge finds a value. */
  lemma EntryCovers(c: Ctx, frontier: Frontiers, phis: seq<seq<Phi>>, vars: set<Slot>)
    requires DominatorInfo(c) && EntryInitialises(c.f) && PhisFor(c.f, frontier, phis, vars) && c.place == PlaceOf(phis)
    ensures Safe(c)
  {
    forall b: Block, i | b in c.w && 0 <= i < |c.Instrs(b)| && c.Instrs(b)[i].Load?
      ensures c.Instrs(b)[i].slot in InfoAt(c, b, i).tops
    {
      var s := c.Instrs(b)[i].slot;
      assert InstrsOf(c.f, b)[i].Load?;
      TopsGrowDown(c, b, s);
      ScanTopsGrow(c.Instrs(b)[..i], InfoIn(c, b), s);
    }
    forall x: Block, y: Block, s | x in c.w && c.f.g.Edge(x, y) && s in c.Placed(y)
      ensures s in InfoOut(c, x).tops
    {
      assert PhisOfBlock(c.f, frontier, phis[y], y, vars);
      var q :| Wave(frontier, StoreBlocks(c.f, s), q);
      WaveHasStart(frontier, StoreBlocks(c.f, s), q);
      var z :| z in StoreBlocks(c.f, s);
      var i :| 0 <= i < |InstrsOf(c.f, z)| && InstrsOf(c.f, z)[i].Store? && InstrsOf(c.f, z)[i].slot == s;
      TopsGrowDown(c, x, s);
    }
    assert forall b, s :: b in c.w ==> !Uncovered(c, b, s);
  }

  /** The promoted function does what the original does, on every run that never works with an
      undefined value. */
  ghost predicate SameBehaviour(f: Func, h: Func) {
    forall sem: Semantics, k: nat, args: map<Reg, Val>, world: World {:trigger Behave(h, sem, k, args, world)} ::
      args.Keys <= f.args && Behave(f, sem, k, args, world) != Stuck ==>
        Behave(h, sem, k, args, world) == Behave(f, sem, k, args, world)
  }

  lemma PromotedSame(c: Ctx, h: Func)
    requires WellFormed(c) && DominatorInfo(c) && PhisSuffice(c) && Promoted(c, h)
    ensures SameBehaviour(c.f, h)
  {
    forall sem: Semantics, k: nat, args: map<Reg, Val>, world: World | args.Keys <= c.f.args
      && Behave(c.f, sem, k, args, world) != Stuck
      ensures Behave(h, sem, k, args, world) == Behave(c.f, sem, k, args, world)
    {
      PromotionPreservesMeaning(c, h, sem, k, args, world);
    }
  }

  lemma InputFacts(f: Func, site: map<Reg, (Block, nat)>)
    requires SsaInput(f, site)
    ensures f.g.Valid() && NoStrayPreds(f.g) && |f.code| == |f.phis| == |f.g.succs|
    ensures forall b {:trigger f.phis[b]} :: 0 <= b < |f.phis| ==> f.phis[b] == []
  {
  }

  lemma FrontierFacts(g: Graph, f: Frontiers)
    requires FrontierCorrect(g, f)
    ensures f.Keys == Blocks(g) && forall x {:trigger f[x]} :: x in f ==> f[x] <= Blocks(g)
  {
    assert Joins(g) <= Blocks(g);
  }

  lemma AtEntry(c: Ctx)
    requires WellFormed(c) && DominatorInfo(c)
    ensures TopsAre(map[], Above(c, c.f.g.entry).tops) && Agrees(c, map[], c.f.g.entry, 0)
    ensures OnlyMet(c, map[], {}, c.f.g.entry, 0) && EmptiesMet(c, map[], {})
    ensures c.f.g.entry in c.w && c.f.g.entry < |c.f.code| && forall address: Addresses ::
      Before(c, address, c.f.g.entry) == {}
  {
    assert !Up(c.t, c.w, c.f.g.entry);
    InfoEnds(c, c.f.g.entry);
  }

  /** What generate_phi has established is what the renaming starts from. */
  lemma BeforeRenaming(c: Ctx, frontier: Frontiers, phis: seq<seq<Phi>>, vars: set<Slot>)
    requires SsaInput(c.f, c.site) && DominatorInfo(c) && FrontierCorrect(c.f.g, frontier)
    requires PhisFor(c.f, frontier, phis, vars) && c.place == PlaceOf(phis)
    requires forall v :: v !in vars ==> StoreBlocks(c.f, v) == {}
    ensures WellFormed(c) && PhisSuffice(c) && PlacesDistinct(c)
    ensures |phis| == |c.f.g.succs| && Filled(c, phis, {}, c.f.g.entry, {})
    ensures Pristine(c, c.f.code, Subtree(c, c.f.g.entry)) && Subtree(c, c.f.g.entry) == c.w.Keys
    ensures TopsAre(map[], Above(c, c.f.g.entry).tops) && Agrees(c, map[], c.f.g.entry, 0)
    ensures OnlyMet(c, map[], {}, c.f.g.entry, 0) && EmptiesMet(c, map[], {})
    ensures c.f.g.entry in c.w && c.f.g.entry < |c.f.code| && forall address: Addresses ::
      Before(c, address, c.f.g.entry) == {}
  {
    InputWellFormed(c);
    hide SsaInput, DominatorInfo, FrontierCorrect, WellFormed;
    GeneratedPhisSuffice(c, frontier, phis, vars);
    PlacesAreDistinct(c, frontier, phis, vars);
    NothingFilledYet(c, frontier, phis, vars);
    WholeTree(c);
    AtEntry(c);
  }

  /** A block has a phi for v exactly if it is in the iterated dominance frontier of the blocks storing v. */
  ghost predicate PhisInFrontiers(c: Ctx, frontier: Frontiers) {
    && |c.place| == |c.f.g.succs|
    && forall b: Block, v {:trigger v in c.Placed(b)} :: b < |c.place| ==>
         (v in c.Placed(b) <==> Iterated(frontier, StoreBlocks(c.f, v), b))
  }

  lemma PhisPlaced(c: Ctx, frontier: Frontiers, phis: seq<seq<Phi>>, vars: set<Slot>)
    requires PhisFor(c.f, frontier, phis, vars) && c.place == PlaceOf(phis)
    requires forall v :: v !in vars ==> StoreBlocks(c.f, v) == {}
    ensures PhisInFrontiers(c, frontier)
  {
    forall b: Block, v | b < |c.place|
      ensures v in c.Placed(b) <==> Iterated(frontier, StoreBlocks(c.f, v), b)
    {
      assert PhisOfBlock(c.f, frontier, phis[b], b, vars);
      assert c.Placed(b) == SlotsOf(phis[b]);
      if Iterated(frontier, StoreBlocks(c.f, v), b) {
        var q :| Wave(frontier, StoreBlocks(c.f, v), q);
        WaveHasStart(frontier, StoreBlocks(c.f, v), q);
      }
    }
  }

  lemma InitialisedClear(c: Ctx, address: Addresses, frontier: Frontiers, phis: seq<seq<Phi>>, vars: set<Slot>)
    requires DominatorInfo(c) && PhisFor(c.f, frontier, phis, vars) && c.place == PlaceOf(phis)
    ensures EntryInitialises(c.f) ==> Safe(c)
    ensures Safe(c) ==> Clear(c, address)
  {
    if EntryInitialises(c.f) {
      EntryCovers(c, frontier, phis, vars);
    }
    if Safe(c) {
      SafeClear(c, address);
    }
  }

  // ----- the result is well-formed again -----

  lemma InitBelow(xs: seq<Instr>, low: Slot)
    requires E.AllBelow(xs, low) && xs != []
    ensures E.AllBelow(xs[..|xs| - 1], low)
  {
    var ys := xs[..|xs| - 1];
    forall x | x in ys && !x.Op?
      ensures x.slot < low
    {
      var i :| 0 <= i < |ys| && ys[i] == x;
      assert xs[i] in xs;
    }
  }

  lemma {:induction false} RenamedBelow(xs: seq<Instr>, info: Info, low: Slot)
    requires E.AllBelow(xs, low)
    ensures E.AllBelow(RenamedOf(xs, info), low)
  {
    if xs != [] {
      InitBelow(xs, low);
      RenamedBelow(xs[..|xs| - 1], info, low);
      assert xs[|xs| - 1] in xs;
    }
  }

  lemma {:induction false} KeptBelow(xs: seq<Instr>, low: Slot)
    requires E.AllBelow(xs, low)
    ensures E.AllBelow(DropScalars(xs), low)
  {
    if xs != [] {
      InitBelow(xs, low);
      KeptBelow(xs[..|xs| - 1], low);
      assert xs[|xs| - 1] in xs;
    }
  }

  lemma StillBelow(c: Ctx, code1: seq<Code>, h: Func, low: Slot)
    requires CodeRenamed(c, c.f.code, code1, c.w.Keys) && |h.code| == |code1|
    requires forall b {:trigger h.code[b]} :: 0 <= b < |h.code| ==>
      h.code[b] == code1[b].(instrs := DropScalars(code1[b].instrs))
    requires E.SlotsBelow(c.f, low)
    ensures E.SlotsBelow(h, low)
  {
    forall b: Block
      ensures E.AllBelow(InstrsOf(h, b), low)
    {
      if b < |h.code| {
        assert code1[b] == if b in c.w.Keys then RenamedCode(c, b) else c.f.code[b];
        RenamedBelow(InstrsOf(c.f, b), InfoIn(c, b), low);
        KeptBelow(code1[b].instrs, low);
      }
    }
  }

  lemma JoinEntered(g: Graph, b: Block)
    requires g.Valid() && b in Joins(g)
    ensures exists p: Block :: g.Edge(p, b)
  {
    assert g.preds[b][0] in g.preds[b];
    assert g.Edge(g.preds[b][0], b);
  }

  lemma IteratedJoin(g: Graph, frontier: Frontiers, stores: set<Block>, b: Block)
    requires FrontierCorrect(g, frontier) && Iterated(frontier, stores, b)
    ensures b in Joins(g)
  {
    var q :| Wave(frontier, stores, q) && |q| > 1 && q[|q| - 1] == b;
    assert frontier[q[|q| - 2]] <= Joins(g);
  }

  lemma EntryHasNoPhi(c: Ctx, frontier: Frontiers)
    requires SsaInput(c.f, c.site) && FrontierCorrect(c.f.g, frontier) && PhisInFrontiers(c, frontier)
    ensures c.Placed(c.f.g.entry) == []
  {
    var e := c.f.g.entry;
    if c.Placed(e) != [] {
      assert c.Placed(e)[0] in c.Placed(e);
      IteratedJoin(c.f.g, frontier, StoreBlocks(c.f, c.Placed(e)[0]), e);
      JoinEntered(c.f.g, e);
      assert false;
    }
  }

  lemma PhiStillOk(c: Ctx, h: Func, y: Block, phi: Phi, e: Block)
    requires PairsFor(c, y, phi, c.w.Keys, e, false) && forall x {:trigger x in c.w} :: x in c.w ==> x < |h.code|
    ensures E.PhiOk(h, phi)
  {
    forall o, p: Block | E.Pairs(phi, o, p)
      ensures p < |h.code| && Incoming(phi.pairs, p) == Some(o)
    {
    }
  }

  lemma ResolvedTargets(sub: map<Reg, Operand>, t: Term)
    ensures Targets(ResolveTerm(sub, t)) == Targets(t)
  {
  }

  lemma ReachableBlocks(c: Ctx)
    requires DominatorInfo(c)
    ensures forall x {:trigger x in c.w} :: x in c.w ==> x < |c.f.g.succs|
  {
    forall x | x in c.w
      ensures x < |c.f.g.succs|
    {
      assert c.t.id[x] <= c.t.top;
    }
  }

  lemma TargetIsEdge(c: Ctx, b: Block, t: Block)
    requires SsaInput(c.f, c.site) && b < |c.f.code| && t in Targets(c.f.code[b].term)
    ensures c.f.g.Edge(b, t)
  {
  }

  lemma SlotsDiffer(c: Ctx, phis: seq<Phi>, b: Block)
    requires PlacesDistinct(c) && SlotsAre(phis, c.Placed(b)) && b < |c.place|
    ensures E.Distinct(phis)
  {
    assert Distinct(c.place[b]);
    forall i, j | 0 <= i < |phis| && 0 <= j < |phis| && phis[i].slot == phis[j].slot
      ensures i == j
    {
      assert c.place[b][i] == c.place[b][j];
    }
  }

  lemma OutputOk(c: Ctx, frontier: Frontiers, code1: seq<Code>, h: Func)
    requires SsaInput(c.f, c.site) && FrontierCorrect(c.f.g, frontier) && PhisInFrontiers(c, frontier)
    requires PlacesDistinct(c)
    requires DominatorInfo(c) && Filled(c, h.phis, c.w.Keys, c.f.g.entry, {})
    requires CodeRenamed(c, c.f.code, code1, c.w.Keys) && |h.code| == |code1| && h.g == c.f.g
    requires forall b {:trigger h.code[b]} :: 0 <= b < |h.code| ==>
      h.code[b] == code1[b].(instrs := DropScalars(code1[b].instrs))
    ensures E.FuncOk(h)
  {
    var e := c.f.g.entry;
    EntryHasNoPhi(c, frontier);
    assert forall y: Block :: y < |h.phis| ==> FilledFor(c, y, h.phis[y], c.w.Keys, e, false);
    ReachableBlocks(c);
    hide SsaInput, FrontierCorrect, PhisInFrontiers, DominatorInfo, PairsFor;
    forall b: Block, phi | E.HasPhi(h, b, phi)
      ensures E.PhiOk(h, phi)
    {
      var i :| 0 <= i < |h.phis[b]| && h.phis[b][i] == phi;
      PhiStillOk(c, h, b, phi, e);
    }
    forall b: Block, t: Block | b < |h.code| && t in Targets(h.code[b].term)
      ensures h.g.Edge(b, t)
    {
      assert code1[b] == if b in c.w.Keys then RenamedCode(c, b) else c.f.code[b];
      ResolvedTargets(InfoOut(c, b).sub, c.f.code[b].term);
      TargetIsEdge(c, b, t);
    }
    forall b: Block | b < |h.phis|
      ensures E.Distinct(h.phis[b])
    {
      SlotsDiffer(c, h.phis[b], b);
    }
  }

  /** h mentions no slots that f does not. */
  ghost predicate SlotsKept(f: Func, h: Func) {
    forall low: Slot {:trigger E.SlotsBelow(h, low)} :: E.SlotsBelow(f, low) ==> E.SlotsBelow(h, low)
  }

  lemma AfterRenaming(c: Ctx, frontier: Frontiers, code1: seq<Code>, code2: seq<Code>, phis: seq<seq<Phi>>)
    requires WellFormed(c) && DominatorInfo(c) && PhisSuffice(c) && PlacesDistinct(c)
    requires Filled(c, phis, {} + c.w.Keys, c.f.g.entry, {}) && CodeRenamed(c, c.f.code, code1, c.w.Keys)
    requires |code2| == |code1|
    requires forall b {:trigger code2[b]} :: 0 <= b < |code2| ==>
      code2[b] == code1[b].(instrs := DropScalars(code1[b].instrs))
    requires SsaInput(c.f, c.site) && FrontierCorrect(c.f.g, frontier) && PhisInFrontiers(c, frontier)
    ensures var h := c.f.(phis := phis, code := code2);
            SameBehaviour(c.f, h) && E.FuncOk(h) && SlotsKept(c.f, h) && StorageKept(c.f, h) && MemoryGone(c, h)
    ensures Filled(c, phis, c.w.Keys, c.f.g.entry, {})
  {
    assert {} + c.w.Keys == c.w.Keys;
    var h := c.f.(phis := phis, code := code2);
    OutputOk(c, frontier, code1, h);
    forall low: Slot | E.SlotsBelow(c.f, low)
      ensures E.SlotsBelow(h, low)
    {
      StillBelow(c, code1, h, low);
    }
    RenamedIsPromoted(c, c.f.code, code1, code2, phis);
    PromotedSame(c, c.f.(phis := phis, code := code2));
    IsCleared(c, code1, h);
    StorageStays(c, h);
    MemoryGoes(c, h);
  }

  lemma IsCleared(c: Ctx, code1: seq<Code>, h: Func)
    requires CodeRenamed(c, c.f.code, code1, c.w.Keys) && |h.code| == |code1|
    requires forall b {:trigger h.code[b]} :: 0 <= b < |h.code| ==>
      h.code[b] == code1[b].(instrs := DropScalars(code1[b].instrs))
    ensures Cleared(c, h)
  {
    hide DropScalars, RenamedCode;
    forall b: Block | b < |h.code|
      ensures var code := if b in c.w then RenamedCode(c, b) else c.f.code[b];
              h.code[b] == code.(instrs := DropScalars(code.instrs))
    {
      assert code1[b] == if b in c.w.Keys then RenamedCode(c, b) else c.f.code[b];
    }
  }

  /** The pass on one function whose blocks lie at the given addresses: dominators, phi placement,
      renaming, removal of the allocas. */
  method Promote(f: Func, address: Addresses, ghost site: map<Reg, (Block, nat)>)
    returns (ok: bool, h: Func, ghost c: Ctx, ghost frontier: Frontiers)
    requires SsaInput(f, site) && Different(address)
    ensures c.f == f && DominatorInfo(c) && FrontierCorrect(f.g, frontier) && PhisInFrontiers(c, frontier)
    ensures ok ==> SameBehaviour(f, h) && E.FuncOk(h) && SlotsKept(f, h)
    ensures ok ==> StorageKept(f, h) && MemoryGone(c, h) && Filled(c, h.phis, c.w.Keys, f.g.entry, {})
    ensures ok <==> Clear(c, address)
    ensures Safe(c) ==> ok
    ensures EntryInitialises(f) ==> ok
  {
    hide SsaInput, EntryInitialises, SameBehaviour, FrontierCorrect, TreeCorrect, IdomCorrect, PhisFor, PhisSuffice,
      WellFormed, PlacesDistinct, Filled, Pristine, TopsAre, Agrees, OnlyMet, EmptiesMet, CodeRenamed, Safe, SameStacks,
      OnlyAdds, Subtree, NoStrayPreds, PhisInFrontiers, BlockClear, AllClear, Before, Different, SlotsKept, E.FuncOk,
      StorageKept, MemoryGone;
    h := f;
    InputFacts(f, site);
    var dominators := new Dominators(f.g);
    dominators.Run();
    dominators.AnalysedFacts();
    FrontierFacts(f.g, dominators.domFrontier);
    var pass := new Mem2Reg(f, dominators.domFrontier, dominators.domTreeSucc, address);
    ghost var vars := pass.GeneratePhi();
    c := Ctx(f, dominators.Tree(), dominators.idom, PlaceOf(pass.phis), site);
    assert DominatorInfo(c);
    hide DominatorInfo, ValidNumbering, Rising, Exact;
    frontier := dominators.domFrontier;
    PhisPlaced(c, frontier, pass.phis, vars);
    BeforeRenaming(c, dominators.domFrontier, pass.phis, vars);
    ghost var phis := pass.phis;
    ok := pass.ReName(f.g.entry, c, {});
    InitialisedClear(c, address, frontier, phis, vars);
    if !ok {
      return;
    }
    ghost var renamed := pass.code;
    pass.RemoveAlloca();
    h := f.(phis := pass.phis, code := pass.code);
    AfterRenaming(c, frontier, renamed, pass.code, pass.phis);
  }

  // ----- a function on which the order decides -----

  /** Variable 0 is stored in block 1 and loaded in block 2, the two branches of the entry block. */
  function Branches(): Func {
    Func(Graph(0, [[1, 2], [], []], [[], [0], [0]]), {}, [[], [], []],
         [Code([Op(Temp(0), 0, [])], CondBr(Use(Temp(0)), 1, 2)),
          Code([Store(Const(1), 0)], Ret(None)),
          Code([Load(Temp(1), 0)], Ret(None))])
  }

  lemma BranchEdges()
    ensures Branches().g.Valid() && forall a: Block, b: Block :: Branches().g.Edge(a, b) <==>
      (a, b) == (0, 1) || (a, b) == (0, 2)
    ensures forall b: Block {:trigger Branches().g.Reachable(b)} :: Branches().g.Reachable(b) <==> b < 3
  {
    var g := Branches().g;
    forall a: Block, b: Block
      ensures g.Edge(a, b) <==> (a, b) == (0, 1) || (a, b) == (0, 2)
      ensures g.Edge(a, b) <==> b < |g.preds| && a in g.preds[b]
    {
    }
    EntryReachable(g);
    ReachableStep(g, 0, 1);
    ReachableStep(g, 0, 2);
    forall b: Block | g.Reachable(b)
      ensures b < 3
    {
      var p :| g.TrailTo(p, b);
      ClosedHoldsTrail(g, {0, 1, 2}, p);
    }
  }

  lemma BranchCode()
    ensures var f := Branches();
            forall b: Block, i, r {:trigger Defines(InstrsOf(f, b)[i], r)} ::
              0 <= i < |InstrsOf(f, b)| && Defines(InstrsOf(f, b)[i], r) ==>
              (b, i, r) == (0, 0, Temp(0)) || (b, i, r) == (2, 0, Temp(1))
    ensures var f := Branches();
            forall b: Block, i, r {:trigger Uses(InstrsOf(f, b)[i], r)} :: 0 <= i < |InstrsOf(f, b)| ==>
              !Uses(InstrsOf(f, b)[i], r)
    ensures var f := Branches();
            forall b: Block, r {:trigger TermUses(f.code[b].term, r)} ::
              b < |f.code| && TermUses(f.code[b].term, r) ==> (b, r) == (0, Temp(0))
    ensures var f := Branches(); forall b: Block, x: Block {:trigger x in Targets(f.code[b].term)} ::
              b < |f.code| && x in Targets(f.code[b].term) ==> b == 0 && (x == 1 || x == 2)
    ensures var f := Branches();
            && |InstrsOf(f, 0)| == 1 && Defines(InstrsOf(f, 0)[0], Temp(0)) && |InstrsOf(f, 2)| == 1
            && Defines(InstrsOf(f, 2)[0], Temp(1))
    ensures var f := Branches();
            f.g.entry == 0 && f.args == {} && |f.code| == |f.phis| == |f.g.succs| == 3
              && forall b {:trigger f.phis[b]} :: 0 <= b < 3 ==> f.phis[b] == []
  {
  }

  lemma NoStrays(g: Graph)
    requires forall a: Block, b: Block {:trigger g.Edge(a, b)} :: g.Edge(a, b) ==> g.Reachable(a)
    ensures NoStrayPreds(g)
  {
  }

  lemma BranchesInput(site: map<Reg, (Block, nat)>)
    requires site == map[Temp(0) := (0, 0), Temp(1) := (2, 0)]
    ensures SsaInput(Branches(), site)
  {
    BranchEdges();
    BranchCode();
    NoStrays(Branches().g);
    hide Branches, InstrsOf, Defines, Uses, TermUses, Targets, NoStrayPreds, Graph.Valid, Graph.Edge, Graph.Reachable,
      Graph.Dominates;
  }

  lemma BranchIdoms(c: Ctx)
    requires c.f == Branches() && DominatorInfo(c)
    ensures c.w == map[0 := 0, 1 := 0, 2 := 0] && !Up(c.t, c.w, 0) && Up(c.t, c.w, 1) && Up(c.t, c.w, 2)
  {
    BranchEdges();
    assert c.f.g.entry == 0;
    hide Branches;
    ForkIdoms(c.f.g, c.t, c.w);
  }

  lemma ForkIdoms(g: Graph, t: Numbering, w: Links)
    requires ValidNumbering(g, t) && Rising(g, t, w) && Exact(g, t, w) && g.entry == 0 && g.Edge(0, 1) && g.Edge(0, 2)
    requires forall b: Block {:trigger g.Reachable(b)} :: g.Reachable(b) <==> b < 3
    ensures w == map[0 := 0, 1 := 0, 2 := 0] && !Up(t, w, 0) && Up(t, w, 1) && Up(t, w, 2)
  {
    assert forall b: Block {:trigger g.Reachable(b)} :: b in w <==> g.Reachable(b);
    assert g.Reachable(1) && g.Reachable(2);
    ForkIdom(g, t, w, 1);
    ForkIdom(g, t, w, 2);
    forall b: Block
      ensures b in w <==> b in {0, 1, 2}
    {
      assert g.Reachable(b) <==> b < 3;
    }
  }

  lemma ForkIdom(g: Graph, t: Numbering, w: Links, b: Block)
    requires Rising(g, t, w) && Exact(g, t, w) && g.entry == 0 && g.Edge(0, b) && b in w && b != 0
    ensures Up(t, w, b) && w[b] == 0
  {
    assert Up(t, w, b);
    assert w[b] in Chain(t, w, b);
    TrailSnoc(g, [0], b);
    assert g.TrailTo([0, b], b);
    assert g.Dominates(w[b], b);
    assert w[b] in [0, b];
  }

  lemma BranchPhis(c: Ctx, frontier: Frontiers, b: Block)
    requires c.f == Branches() && FrontierCorrect(c.f.g, frontier) && PhisInFrontiers(c, frontier)
    ensures c.Placed(b) == []
  {
    if c.Placed(b) != [] {
      assert c.Placed(b)[0] in c.Placed(b);
      IteratedJoin(c.f.g, frontier, StoreBlocks(c.f, c.Placed(b)[0]), b);
      assert false;
    }
  }

  lemma BranchUncovered(c: Ctx, b: Block, s: Slot)
    requires c.f == Branches() && !Up(c.t, c.w, 0) && Up(c.t, c.w, 2) && c.w[2] == 0
    requires forall x {:trigger c.Placed(x)} :: c.Placed(x) == []
    ensures Uncovered(c, b, s) <==> b == 2 && s == 0
    ensures DefBlock(c, b, s) <==> b == 1 && s == 0
  {
    assert c.Instrs(0)[..0] == [] && c.Instrs(2)[..0] == [];
    assert InfoIn(c, 0).tops == map[];
    assert InfoOut(c, 0).tops == map[];
    assert InfoIn(c, 2).tops == map[];
    if b == 1 && s == 0 {
      assert c.Instrs(b)[0].Store? && c.Instrs(b)[0].slot == s;
    }
    if b == 2 && s == 0 {
      assert c.Instrs(b)[0].Load? && c.Instrs(b)[0].slot == s && s !in InfoAt(c, b, 0).tops;
    }
  }

  lemma BranchOrder(c: Ctx, address: Addresses)
    requires c.w == map[0 := 0, 1 := 0, 2 := 0] && !Up(c.t, c.w, 0) && Up(c.t, c.w, 1) && Up(c.t, c.w, 2)
    ensures 1 in Before(c, address, 2) <==> address(1) < address(2)
  {
    assert Before(c, address, 0) == {};
    assert Chain(c.t, c.w, 1) == {0, 1} && Chain(c.t, c.w, 2) == {0, 2} && Chain(c.t, c.w, 0) == {0};
    assert 1 in Siblings(c, address, 2) <==> address(1) < address(2);
  }

  /** The renaming of this function succeeds exactly if block 2 comes first. */
  lemma OrderDecides(c: Ctx, frontier: Frontiers, address: Addresses)
    requires c.f == Branches() && DominatorInfo(c) && FrontierCorrect(c.f.g, frontier) && PhisInFrontiers(c, frontier)
    requires Different(address)
    ensures Clear(c, address) <==> address(2) < address(1)
  {
    BranchIdoms(c);
    forall b: Block
      ensures c.Placed(b) == []
    {
      BranchPhis(c, frontier, b);
    }
    hide DominatorInfo, FrontierCorrect, PhisInFrontiers, Branches, Before, Uncovered, DefBlock;
    forall b: Block, s
      ensures Uncovered(c, b, s) <==> b == 2 && s == 0
      ensures DefBlock(c, b, s) <==> b == 1 && s == 0
    {
      BranchUncovered(c, b, s);
    }
    BranchOrder(c, address);
    assert address(1) != address(2);
    assert BlockClear(c, 2, Before(c, address, 2)) <==> 1 !in Before(c, address, 2) by {
      assert Uncovered(c, 2, 0) && DefBlock(c, 1, 0);
    }
  }

  method PromoteBranches(address: Addresses) returns (ok: bool, h: Func)
    requires Different(address)
    ensures ok <==> address(2) < address(1)
  {
    ghost var site := map[Temp(0) := (0, 0), Temp(1) := (2, 0)];
    BranchesInput(site);
    hide SsaInput, Branches, Clear;
    ghost var c, frontier;
    ok, h, c, frontier := Promote(Branches(), address, site);
    OrderDecides(c, frontier, address);
  }
}
