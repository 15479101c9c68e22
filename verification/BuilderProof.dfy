/** Running the emitted code does what the source means. */
module BuilderProof {
  import opened Cfg
  import opened Cminus
  import opened BlockCode
  import opened BuilderSpec
  import opened BuilderGrowth

  /** p continues the code: its blocks begin with what has been emitted, and closed ones are final. */
  ghost predicate Within(bs: Blocks, p: Blocks) {
    forall l {:trigger l in bs} :: l in bs && (bs[l].instrs != [] || bs[l].term != Open) ==>
      l in p && bs[l].instrs <= p[l].instrs && (bs[l].term != Open ==> p[l] == bs[l])
  }

  lemma WithinTrans(a: Blocks, b: Blocks, p: Blocks)
    requires Within(a, b) && Within(b, p)
    ensures Within(a, p)
  {
    forall l | l in a && (a[l].instrs != [] || a[l].term != Open)
      ensures l in p && a[l].instrs <= p[l].instrs && (a[l].term != Open ==> p[l] == a[l])
    {
      assert l in b;
    }
  }

  lemma GrowsWithin(s: Emit, r: Emit, p: Blocks)
    requires Grows(s, r) && Within(r.blocks, p)
    ensures Within(s.blocks, p)
  {
    hide Sane;
    assert Within(s.blocks, r.blocks) by {
      forall l | l in s.blocks
        ensures l in r.blocks && s.blocks[l].instrs <= r.blocks[l].instrs
        ensures (s.blocks[l].term != Open ==> r.blocks[l] == s.blocks[l])
      {
      }
    }
    WithinTrans(s.blocks, r.blocks, p);
  }

  // ----- registers and scopes -----

  type Regs = map<Reg, Val>

  ghost predicate Agree(a: Regs, b: Regs, n: nat) {
    forall r: Reg {:trigger r in a} {:trigger r in b} :: r < n ==> (r in a <==> r in b) && (r in a ==> a[r] == b[r])
  }

  lemma ReadAgree(a: Regs, b: Regs, n: nat, o: Operand)
    requires Agree(a, b, n) && Bound(o, n)
    ensures Read(b, o) == Read(a, o)
  {
  }

  lemma {:induction false} ReadAllAgree(a: Regs, b: Regs, n: nat, os: seq<Operand>)
    requires Agree(a, b, n) && AllBound(os, n)
    ensures ReadAll(b, os) == ReadAll(a, os)
  {
    if os != [] {
      assert forall i :: 0 <= i < |os| - 1 ==> Bound(os[i], n);
      ReadAllAgree(a, b, n, os[..|os| - 1]);
      assert Bound(os[|os| - 1], n);
      ReadAgree(a, b, n, os[|os| - 1]);
    }
  }

  lemma ReadOne(regs: Regs, o: Operand)
    ensures ReadAll(regs, [o]) == match Read(regs, o) case Some(v) => Some([v]) case None => None
  {
    assert [o][..0] == [];
    assert ReadAll(regs, []) == Some([]);
    if Read(regs, o).Some? {
      assert [] + [Read(regs, o).value] == [Read(regs, o).value];
    }
  }

  lemma ReadTwo(regs: Regs, a: Operand, b: Operand)
    ensures ReadAll(regs, [a, b]) == match (Read(regs, a), Read(regs, b)) case (Some(v), Some(u)) => Some([v, u])
      case _ => None
  {
    assert [a, b][..1] == [a];
    ReadOne(regs, a);
    if Read(regs, a).Some? && Read(regs, b).Some? {
      assert [Read(regs, a).value] + [Read(regs, b).value] == [Read(regs, a).value, Read(regs, b).value];
    }
  }

  ghost predicate Related(sc: Names, env: Scopes<Val>, regs: Regs) {
    && |sc| == |env|
    && (forall i {:trigger sc[i]} {:trigger env[i]} :: 0 <= i < |sc| ==> sc[i].Keys == env[i].Keys)
    && forall i: int, id: Id {:trigger sc[i][id]} {:trigger env[i][id]} ::
         0 <= i < |sc| && id in sc[i] && id in env[i] ==>
         sc[i][id].ty == env[i][id].ty && Read(regs, sc[i][id].at) == Some(env[i][id].at)
  }

  lemma RelatedAgree(sc: Names, env: Scopes<Val>, a: Regs, b: Regs, n: nat)
    requires Related(sc, env, a) && ScopeBound(sc, n) && Agree(a, b, n)
    ensures Related(sc, env, b)
  {
    forall i: int, id: Id | 0 <= i < |sc| && id in sc[i] && id in env[i]
      ensures sc[i][id].ty == env[i][id].ty && Read(b, sc[i][id].at) == Some(env[i][id].at)
    {
      assert Bound(sc[i][id].at, n);
      ReadAgree(a, b, n, sc[i][id].at);
    }
  }

  lemma {:induction false} FindRelated(sc: Names, env: Scopes<Val>, regs: Regs, id: Id)
    requires Related(sc, env, regs)
    ensures Find(sc, id).Some? <==> Find(env, id).Some?
    ensures Find(sc, id).Some? ==>
      Find(sc, id).value.ty == Find(env, id).value.ty
      && Read(regs, Find(sc, id).value.at) == Some(Find(env, id).value.at)
  {
    if sc != [] {
      var n := |sc| - 1;
      assert sc[n].Keys == env[n].Keys;
      if id in sc[n] {
        assert sc[n][id].ty == env[n][id].ty;
      } else {
        RelatedInit(sc, env, regs);
        FindRelated(sc[..n], env[..n], regs, id);
      }
    }
  }

  lemma RelatedInit(sc: Names, env: Scopes<Val>, regs: Regs)
    requires Related(sc, env, regs) && sc != []
    ensures Related(sc[..|sc| - 1], env[..|sc| - 1], regs)
  {
    var sc': Names, env': Scopes<Val> := sc[..|sc| - 1], env[..|sc| - 1];
    forall i: int, id: Id | 0 <= i < |sc'| && id in sc'[i] && id in env'[i]
      ensures sc'[i][id].ty == env'[i][id].ty && Read(regs, sc'[i][id].at) == Some(env'[i][id].at)
    {
      assert sc[i][id].ty == env[i][id].ty;
    }
  }

  lemma {:induction false} TysRelated(sc: Names, env: Scopes<Val>, regs: Regs)
    requires Related(sc, env, regs)
    ensures TysOf(sc) == TysOf(env)
  {
    if sc != [] {
      var n := |sc| - 1;
      RelatedInit(sc, env, regs);
      TysRelated(sc[..n], env[..n], regs);
      assert sc[n].Keys == env[n].Keys;
      assert forall id :: id in sc[n] ==> sc[n][id].ty == env[n][id].ty;
      assert LevelTys(sc[n]) == LevelTys(env[n]);
    }
  }

  // ----- runs of emitted code -----

  function Point(s: Emit, regs: Regs, w: World): Conf {
    At(s.cur, s.Here(), regs, w)
  }

  /** From the end of s to the end of r, keeping the registers that s already used. */
  ghost predicate Runs(sem: Sem, p: Blocks, s: Emit, regs: Regs, w: World, r: Emit, regs': Regs, w': World) {
    Reaches(sem, p, Point(s, regs, w), Point(r, regs', w')) && Agree(regs, regs', s.regs) && s.regs <= r.regs
  }

  ghost predicate Halts(sem: Sem, p: Blocks, s: Emit, regs: Regs, w: World, v: Option<Val>, w': World) {
    Reaches(sem, p, Point(s, regs, w), Halted(v, w'))
  }

  lemma RunsSelf(sem: Sem, p: Blocks, s: Emit, regs: Regs, w: World)
    ensures Runs(sem, p, s, regs, w, s, regs, w)
  {
    ReachesSelf(sem, p, Point(s, regs, w));
  }

  lemma RunsTrans(sem: Sem, p: Blocks, s: Emit, a: Regs, w: World, r: Emit, b: Regs, w1: World, z: Emit, c: Regs,
                  w2: World)
    requires Runs(sem, p, s, a, w, r, b, w1) && Runs(sem, p, r, b, w1, z, c, w2)
    ensures Runs(sem, p, s, a, w, z, c, w2)
  {
    ReachesTrans(sem, p, Point(s, a, w), Point(r, b, w1), Point(z, c, w2));
    hide Reaches;
  }

  lemma RunsHalts(sem: Sem, p: Blocks, s: Emit, a: Regs, w: World, r: Emit, b: Regs, w1: World, v: Option<Val>,
                  w2: World)
    requires Runs(sem, p, s, a, w, r, b, w1) && Halts(sem, p, r, b, w1, v, w2)
    ensures Halts(sem, p, s, a, w, v, w2)
  {
    ReachesTrans(sem, p, Point(s, a, w), Point(r, b, w1), Halted(v, w2));
  }

  lemma PutRuns(sem: Sem, p: Blocks, s: Emit, op: Op, args: seq<Operand>, regs: Regs, w: World, vs: seq<Val>)
    returns (regs': Regs, v: Val, w': World)
    requires Sane(s) && Within(s.Put(op, args).blocks, p) && ReadAll(regs, args) == Some(vs)
    ensures (v, w') == sem(op, vs, w) && Runs(sem, p, s, regs, w, s.Put(op, args), regs', w')
    ensures Read(regs', R(s.regs)) == Some(v)
    ensures regs' == regs[s.regs := v]
  {
    var r := s.Put(op, args);
    assert s.cur in r.blocks && r.blocks[s.cur].instrs == s.blocks[s.cur].instrs + [Instr(s.regs, op, args)];
    var x := p[s.cur].instrs[s.Here()];
    assert x == r.blocks[s.cur].instrs[s.Here()];
    v, w' := sem(op, vs, w).0, sem(op, vs, w).1;
    regs' := regs[s.regs := v];
    ReachesSelf(sem, p, Point(s, regs, w));
    ReachesStep(sem, p, Point(s, regs, w), Point(s, regs, w));
    assert Step(sem, p, Point(s, regs, w)) == Point(r, regs', w');
  }

  lemma ConvertRuns(sem: Sem, p: Blocks, s: Emit, from: Ty, to: Ty, a: Operand, regs: Regs, w: World, v: Val)
    returns (regs': Regs)
    requires Sane(s) && Within(CompConvert(s, from, to, a).0.blocks, p) && Read(regs, a) == Some(v)
    ensures var (r, o) := CompConvert(s, from, to, a); var (v', w') := Convert(sem, from, to, v, w);
            Runs(sem, p, s, regs, w, r, regs', w') && Read(regs', o) == Some(v')
  {
    hide Runs, Within, Sane;
    ReadOne(regs, a);
    if from == to || from.PtrT? {
      regs' := regs;
      RunsSelf(sem, p, s, regs, w);
    } else {
      var u, w1;
      regs', u, w1 := PutRuns(sem, p, s, if from == IntT then SiToFp else FpToSi, [a], regs, w, [v]);
    }
  }

  /** One more instruction after a run. */
  lemma RunsPut(sem: Sem, p: Blocks, s: Emit, regs: Regs, w: World, r: Emit, regs1: Regs, w1: World, op: Op,
                args: seq<Operand>, vs: seq<Val>)
    returns (regs': Regs)
    requires Runs(sem, p, s, regs, w, r, regs1, w1) && Sane(r) && Within(r.Put(op, args).blocks, p)
    requires ReadAll(regs1, args) == Some(vs)
    ensures var (v, w') := sem(op, vs, w1);
            Runs(sem, p, s, regs, w, r.Put(op, args), regs', w') && Read(regs', R(r.regs)) == Some(v)
    ensures Agree(regs1, regs', r.regs)
  {
    var v, w2;
    regs', v, w2 := PutRuns(sem, p, r, op, args, regs1, w1, vs);
    RunsTrans(sem, p, s, regs, w, r, regs1, w1, r.Put(op, args), regs', w2);
  }

  lemma PutWithin(s: Emit, op: Op, args: seq<Operand>, p: Blocks)
    requires Sane(s) && s.IsOpen() && Within(s.Put(op, args).blocks, p)
    ensures Within(s.blocks, p)
  {
    PutGrows(s, op, args);
    GrowsWithin(s, s.Put(op, args), p);
  }

  lemma OperateRuns(sem: Sem, p: Blocks, s: Emit, op: BinOp, lt: Ty, rt: Ty, l: Operand, r: Operand, regs: Regs,
                    w: World, a: Val, b: Val)
    returns (regs': Regs)
    requires Sane(s) && s.IsOpen() && Bound(l, s.regs) && Bound(r, s.regs)
    requires Within(CompOperate(s, op, lt, rt, l, r).0.blocks, p)
    requires Read(regs, l) == Some(a) && Read(regs, r) == Some(b)
    ensures var (z, o) := CompOperate(s, op, lt, rt, l, r); var (v', w') := Operate(sem, op, lt, rt, a, b, w);
            Runs(sem, p, s, regs, w, z, regs', w') && Read(regs', o) == Some(v')
  {
    var common := if lt == rt then lt else FloatT;
    ConvertGrows(s, lt, common, l);
    var (s1, l') := CompConvert(s, lt, common, l);
    GrowsSane(s, s1);
    ConvertGrows(s1, rt, common, r);
    var (s2, r') := CompConvert(s1, rt, common, r);
    GrowsSane(s1, s2);
    var (a', w1) := Convert(sem, lt, common, a, w);
    var (b', w2) := Convert(sem, rt, common, b, w1);
    var op1 := if op.ArithOp? then Compute(common == IntT, op.a) else Compare(common == IntT, op.r);
    var s3 := s2.Put(op1, [l', r']);
    PutGrows(s2, op1, [l', r']);
    GrowsSane(s2, s3);
    if op.RelOp? {
      PutWithin(s3, Zext, [R(s2.regs)], p);
    }
    PutWithin(s2, op1, [l', r'], p);
    GrowsWithin(s1, s2, p);
    hide Runs, Within, Sane, Grows, Agree, CompConvert, Convert, Read;
    var regs1 := ConvertRuns(sem, p, s, lt, common, l, regs, w, a);
    RunsKeep(sem, p, s, regs, w, s1, regs1, w1, r);
    var regs2 := ConvertRuns(sem, p, s1, rt, common, r, regs1, w1, b);
    RunsKeep(sem, p, s1, regs1, w1, s2, regs2, w2, l');
    RunsTrans(sem, p, s, regs, w, s1, regs1, w1, s2, regs2, w2);
    ReadTwo(regs2, l', r');
    regs' := RunsPut(sem, p, s, regs, w, s2, regs2, w2, op1, [l', r'], [a', b']);
    if op.RelOp? {
      var (c, w3) := sem(op1, [a', b'], w2);
      ReadOne(regs', R(s2.regs));
      regs' := RunsPut(sem, p, s, regs, w, s3, regs', w3, Zext, [R(s2.regs)], [c]);
    }
  }

  /** An operand that existed before a run still has its value. */
  lemma RunsKeep(sem: Sem, p: Blocks, s: Emit, regs: Regs, w: World, r: Emit, regs': Regs, w': World, o: Operand)
    requires Runs(sem, p, s, regs, w, r, regs', w') && Bound(o, s.regs)
    ensures Read(regs', o) == Read(regs, o)
  {
    ReadAgree(regs, regs', s.regs, o);
  }

  /** The guard lets a non-negative index through, and stops at a negative one. */
  lemma GuardRuns(sem: Sem, p: Blocks, s: Emit, ret: Ty, n: Operand, regs: Regs, w: World, v: Val) returns (regs': Regs)
    requires Sane(s) && s.IsOpen() && Within(CompGuard(s, ret, n).blocks, p) && Read(regs, n) == Some(v)
    ensures var (neg, w') := sem(Compare(true, Lt), [v, 0], w);
            if neg != 0 then Halts(sem, p, s, regs, w, Default(ret), sem(CallF(NEG_IDX_EXCEPT), [], w').1)
            else Runs(sem, p, s, regs, w, CompGuard(s, ret, n), regs', w')
  {
    var bad, ok := s.labels, s.labels + 1;
    var s0 := s.NewBlock().NewBlock();
    var args := [n, Const(0)];
    var s1 := s0.Put(Compare(true, Lt), args);
    var r := CompGuard(s, ret, n);
    assert r.blocks[s.cur] == s1.blocks[s.cur].(term := CondBr(R(s.regs), bad, ok));
    assert s.cur in p && p[s.cur] == r.blocks[s.cur];
    assert r.blocks[bad] == BB([Instr(s.regs + 1, CallF(NEG_IDX_EXCEPT), [])], DefaultRet(ret));
    assert bad in p && p[bad] == r.blocks[bad];
    ReadTwo(regs, n, Const(0));
    var (neg, w1) := sem(Compare(true, Lt), [v, 0], w);
    regs' := regs[s.regs := neg];
    var a := Point(s, regs, w);
    ReachesSelf(sem, p, a);
    ReachesStep(sem, p, a, a);
    var b := At(s.cur, s.Here() + 1, regs', w1);
    assert Step(sem, p, a) == b;
    ReachesStep(sem, p, a, b);
    if neg != 0 {
      FaultRuns(sem, p, a, bad, regs', w1, s.regs + 1, ret);
    }
  }

  lemma FaultRuns(sem: Sem, p: Blocks, a: Conf, bad: Label, regs: Regs, w: World, n: Reg, ret: Ty)
    requires Reaches(sem, p, a, At(bad, 0, regs, w)) && bad in p
    requires p[bad] == BB([Instr(n, CallF(NEG_IDX_EXCEPT), [])], DefaultRet(ret))
    ensures Reaches(sem, p, a, Halted(Default(ret), sem(CallF(NEG_IDX_EXCEPT), [], w).1))
  {
    var b := At(bad, 0, regs, w);
    ReachesStep(sem, p, a, b);
    assert ReadAll(regs, []) == Some([]);
    var (v, w1) := sem(CallF(NEG_IDX_EXCEPT), [], w);
    var c := At(bad, 1, regs[n := v], w1);
    assert Step(sem, p, b) == c;
    ReachesStep(sem, p, a, c);
  }

  lemma ElemRuns(sem: Sem, p: Blocks, x: Entry<Operand>, n: Operand, s: Emit, regs: Regs, w: World, at: Val, v: Val)
    returns (regs': Regs)
    requires Sane(s) && s.IsOpen() && Within(CompElem(x, n, s).0.blocks, p) && Read(regs, x.at) == Some(at)
    requires Read(regs, n) == Some(v) && Bound(n, s.regs)
    ensures var (r, o) := CompElem(x, n, s);
            var (base, w1) := if x.ty.PtrT? then sem(Load(x.ty), [at], w) else (at, w);
            var (q, w') := sem(Elem(x.ty), [base, v], w1);
            Runs(sem, p, s, regs, w, r, regs', w') && Read(regs', o) == Some(q)
  {
    if x.ty.PtrT? {
      var s1 := s.Put(Load(x.ty), [x.at]);
      PutGrows(s, Load(x.ty), [x.at]);
      GrowsSane(s, s1);
      PutWithin(s1, Elem(x.ty), [R(s.regs), n], p);
      hide Runs, Within, Sane, Grows, Agree, Read;
      ReadOne(regs, x.at);
      var regs1, b, w1 := PutRuns(sem, p, s, Load(x.ty), [x.at], regs, w, [at]);
      RunsKeep(sem, p, s, regs, w, s1, regs1, w1, n);
      ReadTwo(regs1, R(s.regs), n);
      regs' := RunsPut(sem, p, s, regs, w, s1, regs1, w1, Elem(x.ty), [R(s.regs), n], [b, v]);
    } else {
      hide Runs, Within, Sane;
      ReadTwo(regs, x.at, n);
      var q, w1;
      regs', q, w1 := PutRuns(sem, p, s, Elem(x.ty), [x.at, n], regs, w, [at, v]);
    }
  }

  // ----- expressions -----

  /** The state in which code for an expression may be emitted and run. */
  ghost predicate Ready(s: Emit, sc: Names, env: Scopes<Val>, regs: Regs) {
    Sane(s) && s.IsOpen() && ScopeBound(sc, s.regs) && Related(sc, env, regs)
  }

  lemma ReadyNext(sem: Sem, p: Blocks, s: Emit, sc: Names, env: Scopes<Val>, regs: Regs, w: World, r: Emit, regs': Regs,
                  w': World)
    requires Ready(s, sc, env, regs) && Runs(sem, p, s, regs, w, r, regs', w') && Sane(r) && r.IsOpen()
    ensures Ready(r, sc, env, regs')
  {
    RelatedAgree(sc, env, regs, regs', s.regs);
    BoundMore(sc, s.regs, r.regs);
  }

  /** The emitted code does what evaluation says: it comes to its end with the value in the operand, or
      stops at a negative index. */
  ghost predicate Means(sem: Sem, p: Blocks, s: Emit, regs: Regs, w: World, r: Emit, o: Operand, regs': Regs, res: Res,
                        ret: Ty) {
    match res
    case V(v, w') => Runs(sem, p, s, regs, w, r, regs', w') && Read(regs', o) == Some(v)
    case Fault(w') => Halts(sem, p, s, regs, w, Default(ret), w')
  }

  lemma ReadyFacts(s: Emit, sc: Names, env: Scopes<Val>, regs: Regs)
    requires Ready(s, sc, env, regs)
    ensures Sane(s) && s.IsOpen() && ScopeBound(sc, s.regs) && TysOf(sc) == TysOf(env)
  {
    TysRelated(sc, env, regs);
  }

  /** A variable's entries on both sides. */
  lemma VarFacts(s: Emit, sc: Names, env: Scopes<Val>, regs: Regs, id: Id)
    requires Ready(s, sc, env, regs) && FindTy(TysOf(sc), id).Some?
    ensures Find(sc, id).Some? && Find(env, id).Some?
    ensures Find(sc, id).value.ty == Find(env, id).value.ty == FindTy(TysOf(sc), id).value
    ensures Read(regs, Find(sc, id).value.at) == Some(Find(env, id).value.at) && Bound(Find(sc, id).value.at, s.regs)
  {
    FindTys(sc, id);
    FindRelated(sc, env, regs, id);
    FindBound(sc, id, s.regs);
  }

  lemma {:induction false} SimExpr(sem: Sem, p: Blocks, sig: Sig, sc: Names, env: Scopes<Val>, e: Expr, s: Emit,
                                   regs: Regs, w: World)
    returns (regs': Regs)
    requires Ready(s, sc, env, regs) && ExprOk(sig, TysOf(sc), e) && Within(CompExpr(sig, sc, e, s).0.blocks, p)
    ensures var (r, o) := CompExpr(sig, sc, e, s);
            Means(sem, p, s, regs, w, r, o, regs', Eval(sem, sig, env, e, w), sig.ret)
    decreases e, 1
  {
    hide Ready, Within, Runs, Halts, CompAddress, Address;
    regs' := regs;
    match e {
      case NumI(_) => RunsSelf(sem, p, s, regs, w);
      case NumF(_) => RunsSelf(sem, p, s, regs, w);
      case Var(id, idx) => regs' := SimVar(sem, p, sig, sc, env, e, s, regs, w);
      case Assign(id, idx, rhs) => regs' := SimAssign(sem, p, sig, sc, env, e, s, regs, w);
      case Bin(op, l, r) => regs' := SimBin(sem, p, sig, sc, env, e, s, regs, w);
      case Call(id, args) => regs' := SimCall(sem, p, sig, sc, env, e, s, regs, w);
    }
  }

  lemma {:induction false} SimVar(sem: Sem, p: Blocks, sig: Sig, sc: Names, env: Scopes<Val>, e: Expr, s: Emit,
                                  regs: Regs, w: World)
    returns (regs': Regs)
    requires Ready(s, sc, env, regs) && ExprOk(sig, TysOf(sc), e) && Within(CompExpr(sig, sc, e, s).0.blocks, p)
    requires e.Var?
    ensures var (r, o) := CompExpr(sig, sc, e, s);
            Means(sem, p, s, regs, w, r, o, regs', Eval(sem, sig, env, e, w), sig.ret)
    decreases e, 0
  {
    hide Ready, Within, Runs, Halts, CompAddress, Address, Sane, Grows, ScopeBound;
    ReadyFacts(s, sc, env, regs);
    VarFacts(s, sc, env, regs, e.id);
    var x, y := Find(sc, e.id).value, Find(env, e.id).value;
    if e.idx.None? && x.ty.ArrT? {
      ReadTwo(regs, x.at, Const(0));
      var v, w1;
      regs', v, w1 := PutRuns(sem, p, s, Elem(x.ty), [x.at, Const(0)], regs, w, [y.at, 0]);
    } else {
      AddressGrows(sig, sc, x, e.idx, s);
      var (s1, q) := CompAddress(sig, sc, x, e.idx, s);
      GrowsSane(s, s1);
      var op := Load(VarTy(x.ty, e.idx.Some?));
      PutWithin(s1, op, [q], p);
      regs' := SimAddress(sem, p, sig, sc, env, x, y, e.idx, s, regs, w);
      match Address(sem, sig, env, y, e.idx, w) {
        case Fault(_) =>
        case V(a, w1) =>
          ReadOne(regs', q);
          regs' := RunsPut(sem, p, s, regs, w, s1, regs', w1, op, [q], [a]);
      }
    }
  }

  lemma {:induction false} SimAddress(sem: Sem, p: Blocks, sig: Sig, sc: Names, env: Scopes<Val>, x: Entry<Operand>,
                                      y: Entry<Val>, idx: Option<Expr>, s: Emit, regs: Regs,
                                      w: World) returns (regs': Regs)
    requires Ready(s, sc, env, regs) && IndexOk(sig, TysOf(sc), idx)
    requires Within(CompAddress(sig, sc, x, idx, s).0.blocks, p)
    requires x.ty == y.ty && Read(regs, x.at) == Some(y.at) && Bound(x.at, s.regs)
    ensures var (r, o) := CompAddress(sig, sc, x, idx, s);
            Means(sem, p, s, regs, w, r, o, regs', Address(sem, sig, env, y, idx, w), sig.ret)
    decreases idx, 0
  {
    hide Ready, Within, Runs, Halts, Sane, Grows, ScopeBound, Agree, Read, CompGuard, CompElem, CompConvert, Convert,
      CompExpr, Eval;
    ReadyFacts(s, sc, env, regs);
    regs' := regs;
    if idx.None? {
      RunsSelf(sem, p, s, regs, w);
      return;
    }
    var i := idx.value;
    var ty := TypeOf(sig, TysOf(sc), i);
    ExprGrows(sig, sc, i, s);
    var (s1, n) := CompExpr(sig, sc, i, s);
    GrowsSane(s, s1);
    ConvertGrows(s1, ty, IntT, n);
    var (s2, n') := CompConvert(s1, ty, IntT, n);
    GrowsSane(s1, s2);
    GuardGrows(s2, sig.ret, n');
    var s3 := CompGuard(s2, sig.ret, n');
    GrowsSane(s2, s3);
    ElemGrows(x, n', s3);
    GrowsWithin(s3, CompElem(x, n', s3).0, p);
    GrowsWithin(s2, s3, p);
    GrowsWithin(s1, s2, p);
    var regs1 := SimExpr(sem, p, sig, sc, env, i, s, regs, w);
    match Eval(sem, sig, env, i, w) {
      case Fault(_) =>
      case V(v, w1) =>
        regs' := SimIndex(sem, p, sig, x, y, ty, s, regs, w, s1, n, regs1, w1, v);
    }
  }

  /** What follows the evaluation of an index. */
  lemma SimIndex(sem: Sem, p: Blocks, sig: Sig, x: Entry<Operand>, y: Entry<Val>, ty: Ty, s: Emit, regs: Regs, w: World,
                 s1: Emit, n: Operand, regs1: Regs, w1: World, v: Val) returns (regs': Regs)
    requires Runs(sem, p, s, regs, w, s1, regs1, w1) && Sane(s1) && s1.IsOpen() && Read(regs1, n) == Some(v)
    requires Bound(n, s1.regs)
    requires x.ty == y.ty && Read(regs, x.at) == Some(y.at) && Bound(x.at, s.regs)
    requires var (s2, n') := CompConvert(s1, ty, IntT, n);
             Within(s2.blocks, p) && Within(CompGuard(s2, sig.ret, n').blocks, p)
    requires var (s2, n') := CompConvert(s1, ty, IntT, n);
             Within(CompElem(x, n', CompGuard(s2, sig.ret, n')).0.blocks, p)
    ensures var (s2, n') := CompConvert(s1, ty, IntT, n); var (r, o) := CompElem(x, n', CompGuard(s2, sig.ret, n'));
            Means(sem, p, s, regs, w, r, o, regs', Element(sem, y, ty, v, w1), sig.ret)
  {
    ConvertGrows(s1, ty, IntT, n);
    var (s2, n') := CompConvert(s1, ty, IntT, n);
    GrowsSane(s1, s2);
    GuardGrows(s2, sig.ret, n');
    var s3 := CompGuard(s2, sig.ret, n');
    GrowsSane(s2, s3);
    hide Within, Runs, Halts, Sane, Grows, Agree, Read, CompGuard, CompElem, CompConvert, Convert;
    var (u, w2) := Convert(sem, ty, IntT, v, w1);
    var regs2 := ConvertRuns(sem, p, s1, ty, IntT, n, regs1, w1, v);
    RunsTrans(sem, p, s, regs, w, s1, regs1, w1, s2, regs2, w2);
    var regs3 := GuardRuns(sem, p, s2, sig.ret, n', regs2, w2, u);
    var (neg, w3) := sem(Compare(true, Lt), [u, 0], w2);
    regs' := regs;
    if neg != 0 {
      RunsHalts(sem, p, s, regs, w, s2, regs2, w2, Default(sig.ret), sem(CallF(NEG_IDX_EXCEPT), [], w3).1);
    } else {
      RunsKeep(sem, p, s2, regs2, w2, s3, regs3, w3, n');
      RunsTrans(sem, p, s, regs, w, s2, regs2, w2, s3, regs3, w3);
      RunsKeep(sem, p, s, regs, w, s3, regs3, w3, x.at);
      BoundLater(n', s2.regs, s3.regs);
      regs' := ElemRuns(sem, p, x, n', s3, regs3, w3, y.at, u);
      var (base, w4) := if y.ty.PtrT? then sem(Load(y.ty), [y.at], w3) else (y.at, w3);
      var (q, w5) := sem(Elem(y.ty), [base, u], w4);
      RunsTrans(sem, p, s, regs, w, s3, regs3, w3, CompElem(x, n', s3).0, regs', w5);
    }
  }

  lemma BoundLater(o: Operand, m: nat, n: nat)
    requires Bound(o, m) && m <= n
    ensures Bound(o, n)
  {
  }

  /** What follows the evaluation of both sides of an assignment. */
  lemma SimStore(sem: Sem, p: Blocks, s: Emit, regs: Regs, w: World, s2: Emit, regs2: Regs, w2: World, from: Ty, ty: Ty,
                 a: Operand, q: Operand, v: Val, t: Val) returns (regs': Regs)
    requires Runs(sem, p, s, regs, w, s2, regs2, w2) && Sane(s2) && s2.IsOpen() && Bound(a, s2.regs)
    requires Bound(q, s2.regs)
    requires Read(regs2, a) == Some(v) && Read(regs2, q) == Some(t)
    requires var (s3, a') := CompConvert(s2, from, ty, a); Within(s3.Put(Store(ty), [a', q]).blocks, p)
    ensures var (s3, a') := CompConvert(s2, from, ty, a); var (v', w3) := Convert(sem, from, ty, v, w2);
            Means(sem, p, s, regs, w, s3.Put(Store(ty), [a', q]), a', regs', V(v', sem(Store(ty), [v', t], w3).1), ty)
  {
    hide Within, Runs, Halts, Sane, Grows, CompConvert, Convert;
    ConvertGrows(s2, from, ty, a);
    var (s3, a') := CompConvert(s2, from, ty, a);
    GrowsSane(s2, s3);
    PutWithin(s3, Store(ty), [a', q], p);
    var regs3 := ConvertRuns(sem, p, s2, from, ty, a, regs2, w2, v);
    var (v', w3) := Convert(sem, from, ty, v, w2);
    RunsKeep(sem, p, s2, regs2, w2, s3, regs3, w3, q);
    RunsTrans(sem, p, s, regs, w, s2, regs2, w2, s3, regs3, w3);
    ReadTwo(regs3, a', q);
    regs' := RunsPut(sem, p, s, regs, w, s3, regs3, w3, Store(ty), [a', q], [v', t]);
    ReadAgree(regs3, regs', s3.regs, a');
  }

  lemma {:induction false} SimAssign(sem: Sem, p: Blocks, sig: Sig, sc: Names, env: Scopes<Val>, e: Expr, s: Emit,
                                     regs: Regs, w: World)
    returns (regs': Regs)
    requires Ready(s, sc, env, regs) && ExprOk(sig, TysOf(sc), e) && Within(CompExpr(sig, sc, e, s).0.blocks, p)
    requires e.Assign?
    ensures var (r, o) := CompExpr(sig, sc, e, s);
            Means(sem, p, s, regs, w, r, o, regs', Eval(sem, sig, env, e, w), sig.ret)
    decreases e, 0
  {
    hide Ready, Within, Runs, Halts, CompAddress, Address, Sane, Grows, ScopeBound, CompConvert, Convert;
    ReadyFacts(s, sc, env, regs);
    VarFacts(s, sc, env, regs, e.id);
    var x, y := Find(sc, e.id).value, Find(env, e.id).value;
    var from, ty := TypeOf(sig, TysOf(sc), e.rhs), VarTy(x.ty, e.idx.Some?);
    ExprGrows(sig, sc, e.rhs, s);
    var (s1, a) := CompExpr(sig, sc, e.rhs, s);
    GrowsSane(s, s1);
    BoundMore(sc, s.regs, s1.regs);
    BoundLater(x.at, s.regs, s1.regs);
    AddressGrows(sig, sc, x, e.idx, s1);
    var (s2, q) := CompAddress(sig, sc, x, e.idx, s1);
    GrowsSane(s1, s2);
    BoundLater(a, s1.regs, s2.regs);
    ConvertGrows(s2, from, ty, a);
    var (s3, a') := CompConvert(s2, from, ty, a);
    GrowsSane(s2, s3);
    PutWithin(s3, Store(ty), [a', q], p);
    GrowsWithin(s2, s3, p);
    GrowsWithin(s1, s2, p);
    regs' := SimExpr(sem, p, sig, sc, env, e.rhs, s, regs, w);
    match Eval(sem, sig, env, e.rhs, w) {
      case Fault(_) =>
      case V(v, w1) =>
        var regs1 := regs';
        ReadyNext(sem, p, s, sc, env, regs, w, s1, regs1, w1);
        RunsKeep(sem, p, s, regs, w, s1, regs1, w1, x.at);
        var regs2 := SimAddress(sem, p, sig, sc, env, x, y, e.idx, s1, regs1, w1);
        match Address(sem, sig, env, y, e.idx, w1) {
          case Fault(w2) => RunsHalts(sem, p, s, regs, w, s1, regs1, w1, Default(sig.ret), w2);
          case V(t, w2) =>
            RunsKeep(sem, p, s1, regs1, w1, s2, regs2, w2, a);
            RunsTrans(sem, p, s, regs, w, s1, regs1, w1, s2, regs2, w2);
            regs' := SimStore(sem, p, s, regs, w, s2, regs2, w2, from, ty, a, q, v, t);
        }
    }
  }

  lemma {:induction false} SimBin(sem: Sem, p: Blocks, sig: Sig, sc: Names, env: Scopes<Val>, e: Expr, s: Emit,
                                  regs: Regs, w: World)
    returns (regs': Regs)
    requires Ready(s, sc, env, regs) && ExprOk(sig, TysOf(sc), e) && Within(CompExpr(sig, sc, e, s).0.blocks, p)
    requires e.Bin?
    ensures var (r, o) := CompExpr(sig, sc, e, s);
            Means(sem, p, s, regs, w, r, o, regs', Eval(sem, sig, env, e, w), sig.ret)
    decreases e, 0
  {
    hide Ready, Within, Runs, Halts, Sane, Grows, ScopeBound, CompOperate, Operate;
    ReadyFacts(s, sc, env, regs);
    var lt, rt := TypeOf(sig, TysOf(sc), e.l), TypeOf(sig, TysOf(sc), e.r);
    ExprGrows(sig, sc, e.l, s);
    var (s1, a) := CompExpr(sig, sc, e.l, s);
    GrowsSane(s, s1);
    BoundMore(sc, s.regs, s1.regs);
    ExprGrows(sig, sc, e.r, s1);
    var (s2, b) := CompExpr(sig, sc, e.r, s1);
    GrowsSane(s1, s2);
    BoundLater(a, s1.regs, s2.regs);
    OperateGrows(s2, e.op, lt, rt, a, b);
    var z := CompOperate(s2, e.op, lt, rt, a, b).0;
    GrowsWithin(s2, z, p);
    GrowsWithin(s1, s2, p);
    regs' := SimExpr(sem, p, sig, sc, env, e.l, s, regs, w);
    match Eval(sem, sig, env, e.l, w) {
      case Fault(_) =>
      case V(v, w1) =>
        var regs1 := regs';
        ReadyNext(sem, p, s, sc, env, regs, w, s1, regs1, w1);
        var regs2 := SimExpr(sem, p, sig, sc, env, e.r, s1, regs1, w1);
        match Eval(sem, sig, env, e.r, w1) {
          case Fault(w2) => RunsHalts(sem, p, s, regs, w, s1, regs1, w1, Default(sig.ret), w2);
          case V(u, w2) =>
            RunsKeep(sem, p, s1, regs1, w1, s2, regs2, w2, a);
            RunsTrans(sem, p, s, regs, w, s1, regs1, w1, s2, regs2, w2);
            regs' := OperateRuns(sem, p, s2, e.op, lt, rt, a, b, regs2, w2, v, u);
            RunsTrans(sem, p, s, regs, w, s2, regs2, w2, z, regs', Operate(sem, e.op, lt, rt, v, u, w2).1);
        }
    }
  }

  lemma {:induction false} SimCall(sem: Sem, p: Blocks, sig: Sig, sc: Names, env: Scopes<Val>, e: Expr, s: Emit,
                                   regs: Regs, w: World)
    returns (regs': Regs)
    requires Ready(s, sc, env, regs) && ExprOk(sig, TysOf(sc), e) && Within(CompExpr(sig, sc, e, s).0.blocks, p)
    requires e.Call?
    ensures var (r, o) := CompExpr(sig, sc, e, s);
            Means(sem, p, s, regs, w, r, o, regs', Eval(sem, sig, env, e, w), sig.ret)
    decreases e, 0
  {
    hide Ready, Within, Runs, Halts, Sane, Grows, ScopeBound, CompArgs, EvalArgs;
    ReadyFacts(s, sc, env, regs);
    var params := sig.funs[e.id].params;
    ArgsGrow(sig, sc, params, e.args, s);
    var (s1, os) := CompArgs(sig, sc, params, e.args, s);
    GrowsSane(s, s1);
    PutWithin(s1, CallF(e.id), os, p);
    regs' := SimArgs(sem, p, sig, sc, env, params, e.args, s, regs, w);
    match EvalArgs(sem, sig, env, params, e.args, w) {
      case FaultArgs(_) =>
      case Vs(vs, w1) =>
        regs' := RunsPut(sem, p, s, regs, w, s1, regs', w1, CallF(e.id), os, vs);
    }
  }

  ghost predicate MeansAll(sem: Sem, p: Blocks, s: Emit, regs: Regs, w: World, r: Emit, os: seq<Operand>, regs': Regs,
                           res: ResArgs, ret: Ty) {
    match res
    case Vs(vs, w') => Runs(sem, p, s, regs, w, r, regs', w') && ReadAll(regs', os) == Some(vs)
    case FaultArgs(w') => Halts(sem, p, s, regs, w, Default(ret), w')
  }

  lemma {:induction false} SimArgs(sem: Sem, p: Blocks, sig: Sig, sc: Names, env: Scopes<Val>, params: seq<Ty>,
                                   args: Args, s: Emit, regs: Regs, w: World) returns (regs': Regs)
    requires Ready(s, sc, env, regs) && ArgsOk(sig, TysOf(sc), params, args)
    requires Within(CompArgs(sig, sc, params, args, s).0.blocks, p)
    ensures var (r, os) := CompArgs(sig, sc, params, args, s);
            MeansAll(sem, p, s, regs, w, r, os, regs', EvalArgs(sem, sig, env, params, args, w), sig.ret)
    decreases args, 0
  {
    hide Ready, Within, Runs, Halts, Sane, Grows, ScopeBound, CompConvert, Convert, Agree, AllBound, Bound;
    ReadyFacts(s, sc, env, regs);
    regs' := regs;
    if args.NoArgs? {
      RunsSelf(sem, p, s, regs, w);
      assert ReadAll(regs, []) == Some([]);
      return;
    }
    var init, last := params[..|params| - 1], params[|params| - 1];
    var ty := TypeOf(sig, TysOf(sc), args.last);
    ArgsGrow(sig, sc, init, args.init, s);
    var (s1, os) := CompArgs(sig, sc, init, args.init, s);
    GrowsSane(s, s1);
    BoundMore(sc, s.regs, s1.regs);
    ExprGrows(sig, sc, args.last, s1);
    var (s2, o) := CompExpr(sig, sc, args.last, s1);
    GrowsSane(s1, s2);
    ConvertGrows(s2, ty, last, o);
    var (s3, o') := CompConvert(s2, ty, last, o);
    GrowsWithin(s2, s3, p);
    GrowsWithin(s1, s2, p);
    regs' := SimArgs(sem, p, sig, sc, env, init, args.init, s, regs, w);
    match EvalArgs(sem, sig, env, init, args.init, w) {
      case FaultArgs(_) =>
      case Vs(vs, w1) =>
        var regs1 := regs';
        ReadyNext(sem, p, s, sc, env, regs, w, s1, regs1, w1);
        var regs2 := SimExpr(sem, p, sig, sc, env, args.last, s1, regs1, w1);
        match Eval(sem, sig, env, args.last, w1) {
          case Fault(w2) => RunsHalts(sem, p, s, regs, w, s1, regs1, w1, Default(sig.ret), w2);
          case V(v, w2) =>
            RunsTrans(sem, p, s, regs, w, s1, regs1, w1, s2, regs2, w2);
            regs' := ConvertRuns(sem, p, s2, ty, last, o, regs2, w2, v);
            var (v', w3) := Convert(sem, ty, last, v, w2);
            RunsTrans(sem, p, s1, regs1, w1, s2, regs2, w2, s3, regs', w3);
            RunsTrans(sem, p, s, regs, w, s2, regs2, w2, s3, regs', w3);
            RunsKeepAll(sem, p, s1, regs1, w1, s3, regs', w3, os);
            assert (os + [o'])[..|os + [o']| - 1] == os;
        }
    }
  }

  lemma RunsKeepAll(sem: Sem, p: Blocks, s: Emit, regs: Regs, w: World, r: Emit, regs': Regs, w': World,
                    os: seq<Operand>)
    requires Runs(sem, p, s, regs, w, r, regs', w') && AllBound(os, s.regs)
    ensures ReadAll(regs', os) == ReadAll(regs, os)
  {
    ReadAllAgree(regs, regs', s.regs, os);
  }
}
