/** Promoting variables to registers preserves the meaning of every function. */
module PromotionProof {
  import opened Cfg
  import opened IdomTheory
  import opened FrontierTheory
  import opened Ssa
  import opened RenameSpec

  /** What the pass is meant to leave behind, for every reachable block: the kept instructions with
      replaced operands, and one phi per placed variable that takes, from each predecessor, what
      stands for the variable at its end (undef if nothing does). */
  ghost predicate Promoted(c: Ctx, h: Func) {
    && h.g == c.f.g && |h.code| == |h.phis| == |c.f.code|
    && (forall b {:trigger c.Instrs(b)} :: b in c.w && b < |h.code| ==>
          && h.code[b].instrs == KeptOf(c.Instrs(b), InfoIn(c, b))
          && h.code[b].term == ResolveTerm(InfoOut(c, b).sub, c.f.code[b].term)
          && PhisFilled(c, b, h.phis[b]))
  }

  ghost predicate PhisFilled(c: Ctx, b: Block, phis: seq<Phi>) {
    && |phis| == |c.Placed(b)|
    && (forall i {:trigger phis[i]} :: 0 <= i < |phis| ==> phis[i].slot == c.Placed(b)[i])
    && (forall i, j {:trigger phis[i], phis[j]} :: 0 <= i < j < |phis| ==> phis[i].slot != phis[j].slot)
    && (forall i, p {:trigger Incoming(phis[i].pairs, p)} :: 0 <= i < |phis| && p in c.w && c.f.g.Edge(p, b) ==>
          Incoming(phis[i].pairs, p) ==
            if phis[i].slot in InfoOut(c, p).tops then Some(InfoOut(c, p).tops[phis[i].slot]) else None)
  }

  /** The simulation relation at position i of block b: equal worlds; every known register has the
      value of the operand that replaces it; every initialised variable has the value of its top. */
  ghost predicate Sim(c: Ctx, b: Block, i: nat, info: Info, o: State, n: State) {
    && o.world == n.world
    && (forall r: Reg {:trigger Resolve(info.sub, Use(r))} :: r.Temp? && Known(c, b, i, r) && r in o.env ==>
          Eval(n.env, Resolve(info.sub, Use(r))) == Some(o.env[r]))
    && (forall s {:trigger s in o.mem} :: s in o.mem ==> s in info.tops && Eval(n.env, info.tops[s]) == Some(o.mem[s]))
  }

  // ----- one instruction -----

  lemma {:induction false} ResolveArgs(c: Ctx, b: Block, i: nat, info: Info, o: State, n: State, args: seq<Operand>)
    requires Sim(c, b, i, info, o, n)
    requires forall r: Reg :: Use(r) in args ==> r.Temp? && Known(c, b, i, r)
    requires EvalAll(o.env, args).Some?
    ensures EvalAll(n.env, ResolveAll(info.sub, args)) == EvalAll(o.env, args)
  {
    if args != [] {
      var last := args[|args| - 1];
      ResolveArgs(c, b, i, info, o, n, args[..|args| - 1]);
      assert last in args;
      if last.Use? {
        assert Use(last.r) in args;
      }
    }
  }

  /** Assigning a register that is not known leaves all known operands alone. */
  lemma FreshAssign(c: Ctx, b: Block, i: nat, env: map<Reg, Val>, d: Reg, v: Option<Val>, x: Operand)
    requires KnownOperand(c, b, i, x) && !Known(c, b, i, d)
    ensures Eval(Put(env, d, v), x) == Eval(env, x)
  {
  }

  lemma NotYetKnown(c: Ctx, b: Block, i: nat)
    requires WellFormed(c) && i < |c.Instrs(b)| && (c.Instrs(b)[i].Load? || c.Instrs(b)[i].Op?)
    ensures !Known(c, b, i, c.Instrs(b)[i].dst) && c.Instrs(b)[i].dst.Temp?
    ensures forall r: Reg :: Known(c, b, i + 1, r) && r != c.Instrs(b)[i].dst && r.Temp? ==> Known(c, b, i, r)
  {
    var x := c.Instrs(b)[i];
    assert Defines(x, x.dst);
    forall r: Reg | Known(c, b, i + 1, r) && r != x.dst && r.Temp?
      ensures Known(c, b, i, r)
    {
    }
  }

  /** A load of a variable that has a top goes: the top stands for it. */
  lemma SimLoad(c: Ctx, b: Block, i: nat, info: Info, o: State, n: State)
    requires WellFormed(c) && i < |c.Instrs(b)| && Stable(c, b, i, info) && Sim(c, b, i, info, o, n)
    requires c.Instrs(b)[i].Load? && c.Instrs(b)[i].slot in info.tops
    ensures Renamed(info, c.Instrs(b)[i]) == []
    ensures var x := c.Instrs(b)[i];
            Sim(c, b, i + 1, StepInfo(info, x), o.(env := Put(o.env, x.dst, Content(o.mem, x.slot))), n)
  {
    var x := c.Instrs(b)[i];
    NotYetKnown(c, b, i);
    var env := Put(o.env, x.dst, Content(o.mem, x.slot));
    forall r: Reg | r.Temp? && Known(c, b, i + 1, r) && r in env
      ensures Eval(n.env, Resolve(StepInfo(info, x).sub, Use(r))) == Some(env[r])
    {
      assert r != x.dst ==> Resolve(StepInfo(info, x).sub, Use(r)) == Resolve(info.sub, Use(r));
    }
  }

  /** A load of any other variable stays; in the original it finds nothing. */
  lemma SimLateLoad(c: Ctx, b: Block, i: nat, info: Info, o: State, n: State)
    requires WellFormed(c) && i < |c.Instrs(b)| && Stable(c, b, i, info) && Sim(c, b, i, info, o, n)
    requires c.Instrs(b)[i].Load? && c.Instrs(b)[i].slot !in info.tops
    ensures var x := c.Instrs(b)[i];
            Sim(c, b, i + 1, info, o.(env := Put(o.env, x.dst, Content(o.mem, x.slot))),
              n.(env := Put(n.env, x.dst, Content(n.mem, x.slot))))
  {
    var x := c.Instrs(b)[i];
    AssignBoth(c, b, i, info, o, n, Content(o.mem, x.slot), Content(n.mem, x.slot), o.world);
  }

  lemma SimStore(c: Ctx, b: Block, i: nat, info: Info, o: State, n: State)
    requires WellFormed(c) && b in c.w && i < |c.Instrs(b)| && Stable(c, b, i, info) && Sim(c, b, i, info, o, n)
    requires c.Instrs(b)[i].Store?
    ensures var x := c.Instrs(b)[i];
            Sim(c, b, i + 1, StepInfo(info, x), o.(mem := Put(o.mem, x.slot, Eval(o.env, x.src))), n)
  {
    var x := c.Instrs(b)[i];
    if x.src.Use? {
      assert Uses(x, x.src.r);
    }
    SameKnown(c, b, i);
  }

  lemma SameKnown(c: Ctx, b: Block, i: nat)
    requires WellFormed(c) && i < |c.Instrs(b)| && !c.Instrs(b)[i].Load? && !c.Instrs(b)[i].Op?
    ensures forall r: Reg :: Known(c, b, i + 1, r) ==> Known(c, b, i, r)
  {
    forall r: Reg | Known(c, b, i + 1, r)
      ensures Known(c, b, i, r)
    {
      assert r in c.site && c.site[r] == (b, i) ==> Defines(c.Instrs(b)[i], r);
    }
  }

  /** Both assign the instruction's register, the original an undefined value or the same. */
  lemma AssignBoth(c: Ctx, b: Block, i: nat, info: Info, o: State, n: State, u: Option<Val>, v: Option<Val>,
                   world: World)
    requires WellFormed(c) && i < |c.Instrs(b)| && Stable(c, b, i, info) && Sim(c, b, i, info, o, n)
    requires (c.Instrs(b)[i].Op? || c.Instrs(b)[i].Load?) && (u == None || u == v)
    ensures var d := c.Instrs(b)[i].dst;
            Sim(c, b, i + 1, info, o.(env := Put(o.env, d, u), world := world),
              n.(env := Put(n.env, d, v), world := world))
  {
    var d := c.Instrs(b)[i].dst;
    NotYetKnown(c, b, i);
    forall r: Reg | r.Temp? && Known(c, b, i + 1, r) && r in Put(o.env, d, u)
      ensures Eval(Put(n.env, d, v), Resolve(info.sub, Use(r))) == Some(Put(o.env, d, u)[r])
    {
      if r != d && r in info.sub {
        FreshAssign(c, b, i, n.env, d, v, info.sub[r]);
      }
    }
    forall s | s in o.mem
      ensures s in info.tops && Eval(Put(n.env, d, v), info.tops[s]) == Some(o.mem[s])
    {
      FreshAssign(c, b, i, n.env, d, v, info.tops[s]);
    }
  }

  /** One instruction of the input against what is kept of it. */
  lemma SimStep(c: Ctx, sem: Semantics, b: Block, i: nat, info: Info, o: State, n: State)
    requires WellFormed(c) && b in c.w && i < |c.Instrs(b)| && Stable(c, b, i, info) && Sim(c, b, i, info, o, n)
    requires Step(sem, o, c.Instrs(b)[i]).Some?
    ensures var x := c.Instrs(b)[i];
            var kept := DropScalars(Renamed(info, x));
            Exec(sem, n, kept).Some? &&
            Sim(c, b, i + 1, StepInfo(info, x), Step(sem, o, x).value, Exec(sem, n, kept).value)
  {
    var x := c.Instrs(b)[i];
    match x
    case Alloca(s, _) =>
      SameKnown(c, b, i);
      DropOne(x);
      ExecOne(sem, n, x);
    case Load(d, s) =>
      if s in info.tops {
        SimLoad(c, b, i, info, o, n);
      } else {
        SimLateLoad(c, b, i, info, o, n);
        DropOne(x);
        ExecOne(sem, n, x);
      }
    case Store(src, s) =>
      SimStore(c, b, i, info, o, n);
    case Op(d, op, args) =>
      SimOpStep(c, sem, b, i, info, o, n);
  }

  lemma SimOpStep(c: Ctx, sem: Semantics, b: Block, i: nat, info: Info, o: State, n: State)
    requires WellFormed(c) && b in c.w && i < |c.Instrs(b)| && Stable(c, b, i, info) && Sim(c, b, i, info, o, n)
    requires c.Instrs(b)[i].Op? && Step(sem, o, c.Instrs(b)[i]).Some?
    ensures var x := c.Instrs(b)[i];
            var kept := DropScalars(Renamed(info, x));
            Exec(sem, n, kept).Some? &&
            Sim(c, b, i + 1, StepInfo(info, x), Step(sem, o, x).value, Exec(sem, n, kept).value)
  {
    var x := c.Instrs(b)[i];
    assert forall r: Reg :: Use(r) in x.args ==> Uses(x, r);
    ResolveArgs(c, b, i, info, o, n, x.args);
    var vs := EvalAll(o.env, x.args).value;
    var (v, world) := sem(x.op, vs, o.world);
    AssignBoth(c, b, i, info, o, n, Some(v), Some(v), world);
    hide Sim, Stable, WellFormed, Known;
    var y := Op(x.dst, x.op, ResolveAll(info.sub, x.args));
    DropOne(y);
    ExecOne(sem, n, y);
  }

  /** A whole block body against its kept part. */
  lemma {:induction false} SimBody(c: Ctx, sem: Semantics, b: Block, i: nat, o: State, n: State)
    requires WellFormed(c) && DominatorInfo(c) && b in c.w && i <= |c.Instrs(b)|
    requires Sim(c, b, 0, InfoIn(c, b), o, n)
    requires Exec(sem, o, c.Instrs(b)[..i]).Some?
    ensures var kept := KeptOf(c.Instrs(b)[..i], InfoIn(c, b));
            Exec(sem, n, kept).Some? &&
            Sim(c, b, i, InfoAt(c, b, i), Exec(sem, o, c.Instrs(b)[..i]).value, Exec(sem, n, kept).value)
  {
    if i > 0 {
      var xs := c.Instrs(b)[..i];
      assert xs[..|xs| - 1] == c.Instrs(b)[..i - 1];
      SimBody(c, sem, b, i - 1, o, n);
      StableAt(c, b, i - 1);
      var info := InfoAt(c, b, i - 1);
      var kept := KeptOf(c.Instrs(b)[..i - 1], InfoIn(c, b));
      SimStep(c, sem, b, i - 1, info, Exec(sem, o, c.Instrs(b)[..i - 1]).value, Exec(sem, n, kept).value);
      KeptSnoc(xs, InfoIn(c, b));
      ExecAppend(sem, n, kept, DropScalars(Renamed(info, c.Instrs(b)[i - 1])));
    }
  }

  // ----- along the dominator tree -----

  lemma {:induction false} ScanKeepsSub(xs: seq<Instr>, info: Info, r: Reg)
    requires forall i :: 0 <= i < |xs| ==> !Defines(xs[i], r)
    ensures r in Scan(xs, info).sub <==> r in info.sub
    ensures r in info.sub ==> Scan(xs, info).sub[r] == info.sub[r]
  {
    if xs != [] {
      ScanKeepsSub(xs[..|xs| - 1], info, r);
      assert !Defines(xs[|xs| - 1], r);
    }
  }

  lemma {:induction false} ScanKeepsTop(xs: seq<Instr>, info: Info, s: Slot)
    requires !StoresTo(xs, s)
    ensures s in Scan(xs, info).tops <==> s in info.tops
    ensures s in info.tops ==> Scan(xs, info).tops[s] == info.tops[s]
  {
    if xs != [] {
      var ys := xs[..|xs| - 1];
      assert forall i :: 0 <= i < |ys| ==> ys[i] == xs[i];
      ScanKeepsTop(ys, info, s);
    }
  }

  /** Below a dominator a of p nothing changes the replacement of a register known at the end of a. */
  lemma {:induction false} SubBelow(c: Ctx, p: Block, a: Block, r: Reg)
    requires WellFormed(c) && DominatorInfo(c) && p in c.w && a in Chain(c.t, c.w, p)
    requires r.Temp? && Known(c, a, |c.Instrs(a)|, r)
    ensures Resolve(InfoOut(c, p).sub, Use(r)) == Resolve(InfoOut(c, a).sub, Use(r))
    decreases if p in c.t.id then c.t.top - c.t.id[p] else 0
  {
    if p != a {
      ChainAbove(c.t, c.w, p, a);
      var q := c.w[p];
      SubBelow(c, q, a, r);
      if p in Chain(c.t, c.w, a) {
        ChainAbove(c.t, c.w, a, p);
      }
      ScanKeepsSub(c.Instrs(p), InfoIn(c, p), r);
    }
  }

  /** Nor, if no block in between defines s, the top of s. */
  lemma {:induction false} TopBelow(c: Ctx, p: Block, a: Block, s: Slot)
    requires WellFormed(c) && DominatorInfo(c) && p in c.w && a in Chain(c.t, c.w, p)
    requires forall x {:trigger DefBlock(c, x, s)} :: x in Chain(c.t, c.w, p) && x !in Chain(c.t, c.w, a) ==>
      !DefBlock(c, x, s)
    ensures s in InfoOut(c, p).tops <==> s in InfoOut(c, a).tops
    ensures s in InfoOut(c, p).tops ==> InfoOut(c, p).tops[s] == InfoOut(c, a).tops[s]
    decreases if p in c.t.id then c.t.top - c.t.id[p] else 0
  {
    if p != a {
      ChainAbove(c.t, c.w, p, a);
      if p in Chain(c.t, c.w, a) {
        ChainAbove(c.t, c.w, a, p);
      }
      assert !DefBlock(c, p, s);
      TopBelow(c, c.w[p], a, s);
      ScanKeepsTop(c.Instrs(p), InfoIn(c, p), s);
    }
  }

  /** A definition of s between the immediate dominator of b and a predecessor of b puts a phi in b. */
  lemma DefinitionMeansPhi(c: Ctx, p: Block, b: Block, x: Block, s: Slot)
    requires WellFormed(c) && DominatorInfo(c) && PhisSuffice(c) && p in c.w && b in c.w && c.f.g.Edge(p, b)
    requires x in Chain(c.t, c.w, p) && x !in Chain(c.t, c.w, c.w[b]) && DefBlock(c, x, s)
    ensures s in c.Placed(b)
  {
    assert c.f.g.Reachable(p);
    ChainInMap(c.f.g, c.t, c.w, p, x);
    assert b != c.f.g.entry;
    ChainMinusRoot(c.f.g, c.t, c.w, b);
    assert c.f.g.InFrontier(x, b);
  }

  lemma IdomOnPredChain(c: Ctx, p: Block, b: Block)
    requires WellFormed(c) && DominatorInfo(c) && p in c.w && b in c.w && c.f.g.Edge(p, b)
    ensures Up(c.t, c.w, b) && c.w[b] in Chain(c.t, c.w, p) && c.w[b] in c.w
    ensures Chain(c.t, c.w, b) == {b} + Chain(c.t, c.w, c.w[b]) && b !in Chain(c.t, c.w, c.w[b])
  {
    assert b != c.f.g.entry;
    ChainMinusRoot(c.f.g, c.t, c.w, b);
    assert c.w[b] in Chain(c.t, c.w, b);
    DominatesPred(c.f.g, c.w[b], p, b);
  }

  // ----- one edge -----

  lemma {:induction false} AssignPhisKeeps(phis: seq<Phi>, b: Block, p: Block, env: map<Reg, Val>, o: Operand)
    requires o.Use? && o.r.PhiAt? ==> o.r.b != b
    ensures Eval(AssignPhis(phis, b, p, env), o) == Eval(env, o)
  {
    if phis != [] {
      AssignPhisKeeps(phis[..|phis| - 1], b, p, env, o);
    }
  }

  /** All phis are assigned from the old environment, whatever they read. */
  lemma {:induction false} AssignPhisAssigns(phis: seq<Phi>, b: Block, p: Block, env: map<Reg, Val>, i: nat, v: Val)
    requires i < |phis| && IncomingValue(env, phis[i], p) == Some(v)
    requires forall i, j {:trigger phis[i], phis[j]} :: 0 <= i < j < |phis| ==> phis[i].slot != phis[j].slot
    ensures Eval(AssignPhis(phis, b, p, env), Use(PhiAt(b, phis[i].slot))) == Some(v)
  {
    var init := phis[..|phis| - 1];
    if i < |phis| - 1 {
      assert init[i] == phis[i];
      AssignPhisAssigns(init, b, p, env, i, v);
      assert phis[i].slot != phis[|phis| - 1].slot;
    }
  }

  lemma EnterReg(c: Ctx, h: Func, p: Block, b: Block, o: State, n: State, r: Reg)
    requires WellFormed(c) && DominatorInfo(c) && p in c.w && b in c.w && c.f.g.Edge(p, b) && b < |h.phis|
    requires Sim(c, p, |c.Instrs(p)|, InfoOut(c, p), o, n)
    requires r.Temp? && Known(c, b, 0, r) && r in o.env
    ensures Eval(AssignPhis(h.phis[b], b, p, n.env), Resolve(InfoIn(c, b).sub, Use(r))) == Some(o.env[r])
  {
    IdomOnPredChain(c, p, b);
    var a := c.w[b];
    var k := |c.Instrs(a)|;
    assert r in c.site ==> Defines(c.Instrs(c.site[r].0)[c.site[r].1], r);
    assert Known(c, a, k, r);
    ChainTransitive(c.t, c.w, p, a);
    assert Known(c, p, |c.Instrs(p)|, r) by {
      if r !in c.f.args && c.site[r].0 == p {
        assert c.site[r].1 < |c.Instrs(p)|;
      }
    }
    SubBelow(c, p, a, r);
    StableAt(c, a, k);
    assert c.Instrs(a)[..k] == c.Instrs(a);
    AssignPhisKeeps(h.phis[b], b, p, n.env, Resolve(InfoOut(c, a).sub, Use(r)));
  }

  lemma EnterSlot(c: Ctx, h: Func, p: Block, b: Block, o: State, n: State, s: Slot)
    requires WellFormed(c) && DominatorInfo(c) && PhisSuffice(c) && p in c.w && b in c.w && c.f.g.Edge(p, b)
    requires b < |h.phis| && PhisFilled(c, b, h.phis[b])
    requires Sim(c, p, |c.Instrs(p)|, InfoOut(c, p), o, n) && s in o.mem
    ensures s in InfoIn(c, b).tops
    ensures Eval(AssignPhis(h.phis[b], b, p, n.env), InfoIn(c, b).tops[s]) == Some(o.mem[s])
  {
    IdomOnPredChain(c, p, b);
    if s in c.Placed(b) {
      var i :| 0 <= i < |c.Placed(b)| && c.Placed(b)[i] == s;
      assert h.phis[b][i].slot == s;
      assert Incoming(h.phis[b][i].pairs, p) == Some(InfoOut(c, p).tops[s]);
      AssignPhisAssigns(h.phis[b], b, p, n.env, i, o.mem[s]);
    } else {
      var a := c.w[b];
      forall x | x in Chain(c.t, c.w, p) && x !in Chain(c.t, c.w, a)
        ensures !DefBlock(c, x, s)
      {
        if DefBlock(c, x, s) {
          DefinitionMeansPhi(c, p, b, x, s);
        }
      }
      TopBelow(c, p, a, s);
      var k := |c.Instrs(a)|;
      StableAt(c, a, k);
      assert c.Instrs(a)[..k] == c.Instrs(a);
      AssignPhisKeeps(h.phis[b], b, p, n.env, InfoOut(c, a).tops[s]);
    }
  }

  lemma SimEnter(c: Ctx, h: Func, p: Block, b: Block, o: State, n: State)
    requires WellFormed(c) && DominatorInfo(c) && PhisSuffice(c) && p in c.w && b in c.w && c.f.g.Edge(p, b)
    requires b < |h.phis| && PhisFilled(c, b, h.phis[b])
    requires Sim(c, p, |c.Instrs(p)|, InfoOut(c, p), o, n)
    ensures Sim(c, b, 0, InfoIn(c, b), o, n.(env := AssignPhis(h.phis[b], b, p, n.env)))
  {
    forall r: Reg | r.Temp? && Known(c, b, 0, r) && r in o.env
      ensures Eval(AssignPhis(h.phis[b], b, p, n.env), Resolve(InfoIn(c, b).sub, Use(r))) == Some(o.env[r])
    {
      EnterReg(c, h, p, b, o, n, r);
    }
    forall s | s in o.mem
      ensures s in InfoIn(c, b).tops
      ensures Eval(AssignPhis(h.phis[b], b, p, n.env), InfoIn(c, b).tops[s]) == Some(o.mem[s])
    {
      EnterSlot(c, h, p, b, o, n, s);
    }
  }

  // ----- whole runs -----

  lemma SimLeave(c: Ctx, b: Block, o: State, n: State)
    requires WellFormed(c) && b in c.w && b < |c.f.code|
    requires Sim(c, b, |c.Instrs(b)|, InfoOut(c, b), o, n)
    requires Leave(o.env, c.f.code[b].term) != NoExit
    ensures Leave(n.env, ResolveTerm(InfoOut(c, b).sub, c.f.code[b].term)) == Leave(o.env, c.f.code[b].term)
  {
    var t := c.f.code[b].term;
    if t.CondBr? && t.c.Use? {
      assert TermUses(t, t.c.r);
    }
    if t.Ret? && t.v.Some? && t.v.value.Use? {
      assert TermUses(t, t.v.value.r);
    }
  }

  /** One block: the promoted body runs through, leaves the same way, and the states at the head of
      the next block are related again. */
  lemma SimBlock(c: Ctx, h: Func, sem: Semantics, b: Block, o: State, n: State) returns (n1: State)
    requires WellFormed(c) && DominatorInfo(c) && PhisSuffice(c) && Promoted(c, h) && b in c.w && b < |c.f.code|
    requires Sim(c, b, 0, InfoIn(c, b), o, n)
    requires Exec(sem, o, c.f.code[b].instrs).Some?
    requires Leave(Exec(sem, o, c.f.code[b].instrs).value.env, c.f.code[b].term) != NoExit
    ensures Exec(sem, n, h.code[b].instrs) == Some(n1)
    ensures var o1 := Exec(sem, o, c.f.code[b].instrs).value;
            var exit := Leave(o1.env, c.f.code[b].term);
            && n1.world == o1.world
            && Leave(n1.env, h.code[b].term) == exit
            && (exit.Goto? ==>
                  && exit.b in c.w && exit.b < |c.f.code|
                  && Sim(c, exit.b, 0, InfoIn(c, exit.b), o1, n1.(env := EnterBlock(h, exit.b, Some(b), n1.env))))
  {
    var len := |c.Instrs(b)|;
    assert c.Instrs(b)[..len] == c.Instrs(b) == c.f.code[b].instrs;
    SimBody(c, sem, b, len, o, n);
    var o1 := Exec(sem, o, c.f.code[b].instrs).value;
    n1 := Exec(sem, n, h.code[b].instrs).value;
    SimLeave(c, b, o1, n1);
    var exit := Leave(o1.env, c.f.code[b].term);
    if exit.Goto? {
      NextBlock(c, h, b, exit.b);
      SimEnter(c, h, b, exit.b, o1, n1);
    }
  }

  lemma NextBlock(c: Ctx, h: Func, b: Block, next: Block)
    requires WellFormed(c) && DominatorInfo(c) && Promoted(c, h) && b in c.w && b < |c.f.code|
    requires next in Targets(c.f.code[b].term)
    ensures c.f.g.Edge(b, next) && next in c.w && next < |c.f.code| && PhisFilled(c, next, h.phis[next])
  {
    assert c.f.g.Reachable(b) && c.f.g.Edge(b, next);
    ReachableStep(c.f.g, b, next);
    assert c.f.g.Reachable(next);
    assert next in c.t.id && c.t.id[next] <= c.t.top;
    assert c.Instrs(next) == c.Instrs(next);
  }

  lemma {:induction false} RunPreserved(c: Ctx, h: Func, sem: Semantics, k: nat, b: Block, from: Option<Block>,
                                        o: State, n: State)
    requires WellFormed(c) && DominatorInfo(c) && PhisSuffice(c) && Promoted(c, h) && b in c.w && b < |c.f.code|
    requires Sim(c, b, 0, InfoIn(c, b), o, n.(env := EnterBlock(h, b, from, n.env))) && o.world == n.world
    requires Run(c.f, sem, k, b, from, o) != Stuck
    ensures Run(h, sem, k, b, from, n) == Run(c.f, sem, k, b, from, o)
    decreases k
  {
    hide *;
    RunUnfold(h, sem, k, b, from, n);
    RunUnfold(c.f, sem, k, b, from, o);
    if k > 0 {
      NoPhisBefore(c, b, from, o.env);
      Sizes(c, h, b);
      var o1 := Exec(sem, o, c.f.code[b].instrs).value;
      var n1 := SimBlock(c, h, sem, b, o, n.(env := EnterBlock(h, b, from, n.env)));
      var exit := Leave(o1.env, c.f.code[b].term);
      if exit.Goto? {
        PrependStuck(b, Run(c.f, sem, k - 1, exit.b, Some(b), o1));
        RunPreserved(c, h, sem, k - 1, exit.b, Some(b), o1, n1);
      }
    }
  }

  lemma Sizes(c: Ctx, h: Func, b: Block)
    requires WellFormed(c) && Promoted(c, h)
    ensures |h.code| == |h.phis| == |c.f.code| == |c.f.phis|
  {
  }

  lemma NoPhisBefore(c: Ctx, b: Block, from: Option<Block>, env: map<Reg, Val>)
    requires WellFormed(c) && b < |c.f.code|
    ensures EnterBlock(c.f, b, from, env) == env
  {
    assert c.f.phis[b] == [];
  }

  /** Main theorem: a run of the original function that never works with an undefined value is, block
      for block and with the same effects and result, a run of the promoted function. */
  lemma PromotionPreservesMeaning(c: Ctx, h: Func, sem: Semantics, k: nat, args: map<Reg, Val>, world: World)
    requires WellFormed(c) && DominatorInfo(c) && PhisSuffice(c) && Promoted(c, h)
    requires args.Keys <= c.f.args
    requires Behave(c.f, sem, k, args, world) != Stuck
    ensures Behave(h, sem, k, args, world) == Behave(c.f, sem, k, args, world)
  {
    var st := State(args, map[], world);
    var e := c.f.g.entry;
    assert !Up(c.t, c.w, e);
    assert InfoIn(c, e).sub == map[];
    RunPreserved(c, h, sem, k, e, None, st, st);
  }
}
