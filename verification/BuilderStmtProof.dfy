/** The same for statements and whole functions. */
module BuilderStmtProof {
  import opened Cfg
  import opened Cminus
  import opened BlockCode
  import opened BuilderSpec
  import opened BuilderGrowth
  import opened BuilderProof

  /** The machine runs for n steps or more without halting. */
  ghost predicate LongRun(sem: Sem, p: Blocks, a: Conf, n: nat) {
    exists m: nat :: m >= n && Steps(sem, p, m, a).At?
  }

  lemma LongAfter(sem: Sem, p: Blocks, a: Conf, b: Conf, n: nat)
    requires Reaches(sem, p, a, b) && LongRun(sem, p, b, n)
    ensures LongRun(sem, p, a, n)
  {
    var i: nat :| Steps(sem, p, i, a) == b;
    var m: nat :| m >= n && Steps(sem, p, m, b).At?;
    StepsAdd(sem, p, i, m, a);
    assert Steps(sem, p, i + m, a).At?;
  }

  lemma LongStep(sem: Sem, p: Blocks, a: Conf, n: nat)
    requires a.At? && LongRun(sem, p, Step(sem, p, a), n)
    ensures LongRun(sem, p, a, n + 1)
  {
    var m: nat :| m >= n && Steps(sem, p, m, Step(sem, p, a)).At?;
    assert Steps(sem, p, 1, a) == Step(sem, p, Steps(sem, p, 0, a));
    StepsAdd(sem, p, 1, m, a);
    assert Steps(sem, p, 1 + m, a).At?;
  }

  lemma LongHere(sem: Sem, p: Blocks, a: Conf)
    requires a.At?
    ensures LongRun(sem, p, a, 0)
  {
    assert Steps(sem, p, 0, a).At?;
  }

  /** The emitted code follows the outcome of a statement; one that takes more turns than allowed keeps
      the machine running for more steps than that. */
  ghost predicate Ends(sem: Sem, p: Blocks, s: Emit, regs: Regs, w: World, r: Emit, regs': Regs, out: Outcome,
                       fuel: nat) {
    match out
    case Next(w') => r.IsOpen() && Runs(sem, p, s, regs, w, r, regs', w')
    case Left(v, w') => Halts(sem, p, s, regs, w, v, w')
    case Later => LongRun(sem, p, Point(s, regs, w), fuel + 1)
  }

  lemma EndsTrans(sem: Sem, p: Blocks, s: Emit, a: Regs, w: World, r: Emit, b: Regs, w1: World, z: Emit, c: Regs,
                  out: Outcome, fuel: nat)
    requires Runs(sem, p, s, a, w, r, b, w1) && Ends(sem, p, r, b, w1, z, c, out, fuel)
    ensures Ends(sem, p, s, a, w, z, c, out, fuel)
  {
    hide Halts, Reaches, LongRun;
    match out {
      case Next(w2) => RunsTrans(sem, p, s, a, w, r, b, w1, z, c, w2);
      case Left(v, w2) => RunsHalts(sem, p, s, a, w, r, b, w1, v, w2);
      case Later => LongAfter(sem, p, Point(s, a, w), Point(r, b, w1), fuel + 1);
    }
  }

  // ----- single steps -----

  lemma RetRuns(sem: Sem, p: Blocks, s: Emit, o: Option<Operand>, regs: Regs, w: World, v: Option<Val>)
    requires Sane(s) && s.IsOpen() && Within(s.Terminate(Ret(o)).blocks, p)
    requires match (o, v) case (None, None) => true case (Some(x), Some(u)) => Read(regs, x) == Some(u) case _ => false
    ensures Halts(sem, p, s, regs, w, v, w)
  {
    var r := s.Terminate(Ret(o));
    assert s.cur in r.blocks && p[s.cur] == r.blocks[s.cur];
    ReachesSelf(sem, p, Point(s, regs, w));
    ReachesStep(sem, p, Point(s, regs, w), Point(s, regs, w));
  }

  lemma JumpRuns(sem: Sem, p: Blocks, s: Emit, l: Label, regs: Regs, w: World)
    requires Sane(s) && s.IsOpen() && Within(s.JumpIfOpen(l).blocks, p)
    ensures Reaches(sem, p, Point(s, regs, w), At(l, 0, regs, w))
    ensures Step(sem, p, Point(s, regs, w)) == At(l, 0, regs, w)
  {
    var r := s.JumpIfOpen(l);
    assert s.cur in r.blocks && p[s.cur] == r.blocks[s.cur];
    ReachesSelf(sem, p, Point(s, regs, w));
    ReachesStep(sem, p, Point(s, regs, w), Point(s, regs, w));
  }

  /** The test of a condition, at the end of block s.cur of a code that p continues. */
  lemma TestRuns(sem: Sem, p: Blocks, s: Emit, ty: Ty, o: Operand, yes: Label, no: Label, regs: Regs, w: World, v: Val)
    returns (regs': Regs)
    requires TestCode(p, s, ty, o, yes, no) && Read(regs, o) == Some(v)
    ensures var (b, w') := Test(sem, ty, v, w);
            Reaches(sem, p, Point(s, regs, w), At(if b != 0 then yes else no, 0, regs', w'))
    ensures Agree(regs, regs', s.regs)
  {
    ReadTwo(regs, o, if ty == IntT then Const(0) else ConstF(FLOAT_ZERO));
    var (b, w1) := Test(sem, ty, v, w);
    regs' := regs[s.regs := b];
    var a := Point(s, regs, w);
    ReachesSelf(sem, p, a);
    ReachesStep(sem, p, a, a);
    var c := At(s.cur, s.Here() + 1, regs', w1);
    assert Step(sem, p, a) == c;
    ReachesStep(sem, p, a, c);
  }

  // ----- declarations -----

  lemma PushRelated(sc: Names, env: Scopes<Val>, regs: Regs, id: Id, ty: Ty, o: Operand, a: Val)
    requires Related(sc, env, regs) && sc != [] && Read(regs, o) == Some(a)
    ensures Related(Push(sc, id, Entry(ty, o)), Push(env, id, Entry(ty, a)), regs)
  {
    var sc': Names, env': Scopes<Val> := Push(sc, id, Entry(ty, o)), Push(env, id, Entry(ty, a));
    var n := |sc| - 1;
    assert sc[n].Keys == env[n].Keys;
    forall i: int, x: Id | 0 <= i < |sc'| && x in sc'[i] && x in env'[i]
      ensures sc'[i][x].ty == env'[i][x].ty && Read(regs, sc'[i][x].at) == Some(env'[i][x].at)
    {
      if x in sc[i] && (i < n || x != id || id in sc[n]) {
        assert sc[i][x].ty == env[i][x].ty;
      }
    }
  }

  lemma LevelRelated(sc: Names, env: Scopes<Val>, regs: Regs)
    requires Related(sc, env, regs)
    ensures Related(sc + [map[]], env + [map[]], regs)
  {
    var sc': Names, env': Scopes<Val> := sc + [map[]], env + [map[]];
    forall i: int, x: Id | 0 <= i < |sc'| && x in sc'[i] && x in env'[i]
      ensures sc'[i][x].ty == env'[i][x].ty && Read(regs, sc'[i][x].at) == Some(env'[i][x].at)
    {
      assert sc[i][x].ty == env[i][x].ty;
    }
  }

  lemma {:induction false} SimDecls(sem: Sem, p: Blocks, sc: Names, env: Scopes<Val>, decls: seq<Decl>, s: Emit,
                                    regs: Regs, w: World)
    returns (regs': Regs)
    requires Ready(s, sc, env, regs) && sc != [] && env != [] && Within(CompDecls(sc, decls, s).0.blocks, p)
    ensures var (r, sc1) := CompDecls(sc, decls, s); var (env1, w1) := DeclareAll(sem, env, decls, w);
            Runs(sem, p, s, regs, w, r, regs', w1) && Ready(r, sc1, env1, regs')
  {
    hide Runs, Within, Sane, Grows, ScopeBound, Related, Agree;
    ReadyFacts(s, sc, env, regs);
    if decls == [] {
      regs' := regs;
      RunsSelf(sem, p, s, regs, w);
    } else {
      var init, d := decls[..|decls| - 1], decls[|decls| - 1];
      DeclsGrow(sc, decls, s);
      DeclsGrow(sc, init, s);
      var (s1, sc1) := CompDecls(sc, init, s);
      GrowsSane(s, s1);
      GrowsSane(s, CompDecls(sc, decls, s).0);
      PutWithin(s1, Alloca(d.ty), [], p);
      var regs1 := SimDecls(sem, p, sc, env, init, s, regs, w);
      var (env1, w1) := DeclareAll(sem, env, init, w);
      assert ReadAll(regs1, []) == Some([]);
      regs' := RunsPut(sem, p, s, regs, w, s1, regs1, w1, Alloca(d.ty), [], []);
      RelatedAgree(sc1, env1, regs1, regs', s1.regs);
      PushRelated(sc1, env1, regs', d.id, d.ty, R(s1.regs), sem(Alloca(d.ty), [], w1).0);
    }
  }

  // ----- what the pieces of a statement leave in the final code -----

  lemma JumpWithin(s: Emit, l: Label, p: Blocks)
    requires Sane(s) && Within(s.JumpIfOpen(l).blocks, p)
    ensures Within(s.blocks, p)
  {
    assert Within(s.blocks, s.JumpIfOpen(l).blocks);
    WithinTrans(s.blocks, s.JumpIfOpen(l).blocks, p);
  }

  lemma EraseWithin(s: Emit, f: Label, p: Blocks)
    requires f in s.blocks && s.blocks[f] == BB([], Open) && Within(s.Erase(f).blocks, p)
    ensures Within(s.blocks, p)
  {
    assert Within(s.blocks, s.Erase(f).blocks);
    WithinTrans(s.blocks, s.Erase(f).blocks, p);
  }

  /** In the final code the block s.cur of s goes on with the test of a condition and ends. */
  ghost predicate TestCode(p: Blocks, s: Emit, ty: Ty, v: Operand, yes: Label, no: Label) {
    && s.cur in p
    && p[s.cur].instrs == s.Get(s.cur).instrs
         + [Instr(s.regs, Compare(ty == IntT, Ne), [v, if ty == IntT then Const(0) else ConstF(FLOAT_ZERO)])]
    && p[s.cur].term == CondBr(R(s.regs), yes, no)
  }

  lemma IfHeadCode(s: Emit, ty: Ty, v: Operand, hasElse: bool, p: Blocks)
    requires Sane(s) && s.IsOpen() && Within(CompIfHead(s, ty, v, hasElse).blocks, p)
    ensures Within(s.blocks, p) && TestCode(p, s, ty, v, s.labels, if hasElse then s.labels + 1 else s.labels + 2)
    ensures CompIfHead(s, ty, v, hasElse).Here() == 0
  {
    var r := CompIfHead(s, ty, v, hasElse);
    IfHeadShape(s, ty, v, hasElse);
    assert s.cur in r.blocks && p[s.cur] == r.blocks[s.cur];
    hide CompIfHead, TestCode;
    MidWithin(s, r, {s.labels + 1, s.labels + 2}, p);
  }

  lemma MidWithin(s: Emit, r: Emit, ls: set<Label>, p: Blocks)
    requires IfMid(s, r, ls) && Within(r.blocks, p)
    ensures Within(s.blocks, p)
  {
    hide Sane;
    assert Within(s.blocks, r.blocks);
    WithinTrans(s.blocks, r.blocks, p);
  }

  lemma LoopHeadCode(s: Emit, ty: Ty, v: Operand, p: Blocks)
    requires Sane(s) && s.IsOpen() && Within(CompLoopHead(s, ty, v).blocks, p)
    ensures Within(s.blocks, p) && TestCode(p, s, ty, v, s.labels, s.labels + 1)
    ensures CompLoopHead(s, ty, v).Here() == 0
  {
    var r := CompLoopHead(s, ty, v);
    assert s.cur in r.blocks && p[s.cur] == r.blocks[s.cur];
    assert Within(s.blocks, r.blocks);
    WithinTrans(s.blocks, r.blocks, p);
  }

  /** An `if` without `else`: what the final code has of its pieces. */
  lemma IfCode(s1: Emit, h: Emit, b: Emit, f: Label, k: Label, p: Blocks)
    requires IfMid(s1, h, {f, k}) && Grows(h, b) && f != k
    requires Within(b.JumpIfOpen(k).Erase(f).MoveTo(k).blocks, p)
    ensures var r := b.JumpIfOpen(k).Erase(f).MoveTo(k); r.IsOpen() && r.Here() == 0
    ensures Within(b.JumpIfOpen(k).blocks, p) && Within(b.blocks, p) && Within(h.blocks, p)
  {
    MidGrows(s1, h, b, {f, k});
    assert f in {f, k} && k in {f, k};
    hide IfMid, Within, Grows;
    EraseWithin(b.JumpIfOpen(k), f, p);
    JumpWithin(b, k, p);
    GrowsWithin(h, b, p);
  }

  /** Any piece that jumps away: what the final code has of it. */
  lemma PieceCode(a: Emit, b: Emit, l: Label, p: Blocks)
    requires Grows(a, b) && Within(b.JumpIfOpen(l).blocks, p)
    ensures Within(b.blocks, p) && Within(a.blocks, p)
  {
    GrowsSane(a, b);
    JumpWithin(b, l, p);
    GrowsWithin(a, b, p);
  }

  /** A piece of a statement, from h to b, that the final code has in full: it begins an empty block, and
      jumps to l at its end. */
  ghost predicate Piece(p: Blocks, sc: Names, h: Emit, b: Emit, l: Label) {
    && Sane(h) && h.IsOpen() && h.Here() == 0 && ScopeBound(sc, h.regs) && Within(b.blocks, p)
    && Sane(b) && h.regs <= b.regs && Within(b.JumpIfOpen(l).blocks, p)
  }

  /** Where a statement ends: at the start of an empty block. */
  ghost predicate EndPoint(r: Emit, l: Label, n: nat) {
    r.cur == l && r.IsOpen() && r.Here() == 0 && n <= r.regs
  }

  /** A test has been passed, and the run goes on at the start of a piece. */
  lemma StartPiece(sem: Sem, p: Blocks, s: Emit, regs: Regs, w: World, s1: Emit, regs1: Regs, w1: World, h: Emit,
                   regs2: Regs, w2: World, sc: Names, env: Scopes<Val>, b: Emit, l: Label)
    requires Ready(s, sc, env, regs) && Runs(sem, p, s, regs, w, s1, regs1, w1) && Agree(regs1, regs2, s1.regs)
    requires s1.regs <= h.regs
    requires Reaches(sem, p, Point(s1, regs1, w1), At(h.cur, 0, regs2, w2)) && Piece(p, sc, h, b, l)
    ensures Runs(sem, p, s, regs, w, h, regs2, w2) && Ready(h, sc, env, regs2)
  {
    assert Runs(sem, p, s1, regs1, w1, h, regs2, w2);
    RunsTrans(sem, p, s, regs, w, s1, regs1, w1, h, regs2, w2);
    hide Runs, Sane;
    ReadyNext(sem, p, s, sc, env, regs, w, h, regs2, w2);
  }

  /** A piece ends and jumps to the end of the statement. */
  lemma EndPiece(sem: Sem, p: Blocks, s: Emit, regs: Regs, w: World, h: Emit, regs2: Regs, w2: World, b: Emit,
                 regs3: Regs, out: Outcome, k: Label, r: Emit, sc: Names, fuel: nat)
    requires Runs(sem, p, s, regs, w, h, regs2, w2) && Ends(sem, p, h, regs2, w2, b, regs3, out, fuel)
    requires Piece(p, sc, h, b, k) && EndPoint(r, k, b.regs)
    ensures Ends(sem, p, s, regs, w, r, regs3, out, fuel)
  {
    EndsTrans(sem, p, s, regs, w, h, regs2, w2, b, regs3, out, fuel);
    if out.Next? {
      JumpRuns(sem, p, b, k, regs3, out.w);
      ReachesTrans(sem, p, Point(s, regs, w), Point(b, regs3, out.w), Point(r, regs3, out.w));
    }
    hide Reaches, Sane, Within;
  }

  // ----- statements -----

  lemma {:induction false} SimStmt(sem: Sem, p: Blocks, sig: Sig, sc: Names, env: Scopes<Val>, fuel: nat, st: Stmt,
                                   s: Emit, regs: Regs, w: World)
    returns (regs': Regs)
    requires Ready(s, sc, env, regs) && sc != [] && env != [] && StmtOk(sig, TysOf(sc), st)
    requires Within(CompStmt(sig, sc, st, s).blocks, p)
    ensures Ends(sem, p, s, regs, w, CompStmt(sig, sc, st, s), regs', Exec(sem, sig, fuel, env, st, w), fuel)
    decreases fuel, st, 3
  {
    hide Ready, Within, Runs, Halts, Reaches, CompConvert, Convert, Grows, Sane, ScopeBound;
    regs' := regs;
    ReadyFacts(s, sc, env, regs);
    match st {
      case ExprS(None) => RunsSelf(sem, p, s, regs, w);
      case ExprS(Some(e)) =>
        ExprGrows(sig, sc, e, s);
        regs' := SimExpr(sem, p, sig, sc, env, e, s, regs, w);
      case If(_, _, _) => regs' := SimIf(sem, p, sig, sc, env, fuel, st, s, regs, w);
      case While(_, _) => regs' := SimWhile(sem, p, sig, sc, env, fuel, st, s, regs, w);
      case Return(None) => RetRuns(sem, p, s, None, regs, w, None);
      case Return(Some(e)) => regs' := SimReturn(sem, p, sig, sc, env, fuel, st, s, regs, w);
      case Block(decls, body) => regs' := SimCompound(sem, p, sig, sc, env, fuel, st, s, regs, w);
    }
  }

  lemma SimReturn(sem: Sem, p: Blocks, sig: Sig, sc: Names, env: Scopes<Val>, fuel: nat, st: Stmt, s: Emit, regs: Regs,
                  w: World)
    returns (regs': Regs)
    requires Ready(s, sc, env, regs) && StmtOk(sig, TysOf(sc), st) && Within(CompStmt(sig, sc, st, s).blocks, p)
    requires st.Return? && st.v.Some?
    ensures Ends(sem, p, s, regs, w, CompStmt(sig, sc, st, s), regs', Exec(sem, sig, fuel, env, st, w), fuel)
  {
    hide Ready, Within, Runs, Halts, CompConvert, Convert, Grows, Sane, ScopeBound;
    ReadyFacts(s, sc, env, regs);
    var e, ty := st.v.value, TypeOf(sig, TysOf(sc), st.v.value);
    ExprGrows(sig, sc, e, s);
    var (s1, o) := CompExpr(sig, sc, e, s);
    GrowsSane(s, s1);
    ConvertGrows(s1, ty, sig.ret, o);
    var (s2, o') := CompConvert(s1, ty, sig.ret, o);
    GrowsSane(s1, s2);
    TerminateGrows(s2, Ret(Some(o')));
    GrowsWithin(s2, s2.Terminate(Ret(Some(o'))), p);
    GrowsWithin(s1, s2, p);
    regs' := SimExpr(sem, p, sig, sc, env, e, s, regs, w);
    match Eval(sem, sig, env, e, w) {
      case Fault(_) =>
      case V(v, w1) =>
        var regs1 := regs';
        regs' := ConvertRuns(sem, p, s1, ty, sig.ret, o, regs1, w1, v);
        var (v', w2) := Convert(sem, ty, sig.ret, v, w1);
        RunsTrans(sem, p, s, regs, w, s1, regs1, w1, s2, regs', w2);
        RetRuns(sem, p, s2, Some(o'), regs', w2, Some(v'));
        RunsHalts(sem, p, s, regs, w, s2, regs', w2, Some(v'), w2);
    }
  }

  lemma {:induction false} SimCompound(sem: Sem, p: Blocks, sig: Sig, sc: Names, env: Scopes<Val>, fuel: nat, st: Stmt,
                                       s: Emit, regs: Regs, w: World)
    returns (regs': Regs)
    requires Ready(s, sc, env, regs) && StmtOk(sig, TysOf(sc), st) && Within(CompStmt(sig, sc, st, s).blocks, p)
    requires st.Block?
    ensures Ends(sem, p, s, regs, w, CompStmt(sig, sc, st, s), regs', Exec(sem, sig, fuel, env, st, w), fuel)
    decreases fuel, st, 1
  {
    ReadyFacts(s, sc, env, regs);
    var sc0, env0 := sc + [map[]], env + [map[]];
    LevelBound(sc, s.regs);
    LevelReady(s, sc, env, regs);
    hide Ready, Within, Runs, Halts, Ends, Grows, Sane, ScopeBound;
    DeclsGrow(sc0, st.decls, s);
    var (s1, sc1) := CompDecls(sc0, st.decls, s);
    var (env1, w1) := DeclareAll(sem, env0, st.decls, w);
    GrowsSane(s, s1);
    StmtsGrow(sig, sc1, st.body, s1);
    GrowsWithin(s1, CompStmts(sig, sc1, st.body, s1), p);
    DeclTys(sc, st.decls, s);
    var regs1 := SimDecls(sem, p, sc0, env0, st.decls, s, regs, w);
    regs' := SimStmts(sem, p, sig, sc1, env1, fuel, st.body, s1, regs1, w1);
    EndsTrans(sem, p, s, regs, w, s1, regs1, w1, CompStmts(sig, sc1, st.body, s1), regs',
      ExecAll(sem, sig, fuel, env1, st.body, w1), fuel);
  }

  lemma LevelReady(s: Emit, sc: Names, env: Scopes<Val>, regs: Regs)
    requires Ready(s, sc, env, regs)
    ensures Ready(s, sc + [map[]], env + [map[]], regs)
  {
    LevelBound(sc, s.regs);
    LevelRelated(sc, env, regs);
  }

  lemma NewLevel<T>(sc: Scopes<T>)
    ensures TysOf(sc + [map[]]) == TysOf(sc) + [map[]]
  {
    var sc1 := sc + [map[]];
    assert sc1[..|sc1| - 1] == sc;
    assert LevelTys(sc1[|sc1| - 1]) == map[];
  }

  lemma {:induction false} DeclsTyped(sc: Names, decls: seq<Decl>, s: Emit)
    requires sc != []
    ensures TysOf(CompDecls(sc, decls, s).1) == DeclareTys(TysOf(sc), decls)
  {
    if decls != [] {
      DeclsTyped(sc, decls[..|decls| - 1], s);
      var (s1, sc1) := CompDecls(sc, decls[..|decls| - 1], s);
      PushTys(sc1, decls[|decls| - 1].id, Entry(decls[|decls| - 1].ty, R(s1.regs)));
    }
  }

  lemma DeclTys(sc: Names, decls: seq<Decl>, s: Emit)
    ensures TysOf(CompDecls(sc + [map[]], decls, s).1) == DeclareTys(TysOf(sc) + [map[]], decls)
  {
    NewLevel(sc);
    DeclsTyped(sc + [map[]], decls, s);
  }

  lemma {:induction false} SimStmts(sem: Sem, p: Blocks, sig: Sig, sc: Names, env: Scopes<Val>, fuel: nat, ss: Stmts,
                                    s: Emit, regs: Regs, w: World)
    returns (regs': Regs)
    requires Ready(s, sc, env, regs) && sc != [] && env != [] && StmtsOk(sig, TysOf(sc), ss)
    requires Within(CompStmts(sig, sc, ss, s).blocks, p)
    ensures Ends(sem, p, s, regs, w, CompStmts(sig, sc, ss, s), regs', ExecAll(sem, sig, fuel, env, ss, w), fuel)
    decreases fuel, ss, 2
  {
    hide Ready, Within, Runs, Halts, Grows, Sane, ScopeBound;
    ReadyFacts(s, sc, env, regs);
    regs' := regs;
    if ss.Done? {
      RunsSelf(sem, p, s, regs, w);
      return;
    }
    StmtGrows(sig, sc, ss.head, s);
    var s1 := CompStmt(sig, sc, ss.head, s);
    GrowsSane(s, s1);
    if s1.IsOpen() {
      BoundMore(sc, s.regs, s1.regs);
      StmtsGrow(sig, sc, ss.tail, s1);
      GrowsWithin(s1, CompStmts(sig, sc, ss.tail, s1), p);
    }
    regs' := SimStmt(sem, p, sig, sc, env, fuel, ss.head, s, regs, w);
    match Exec(sem, sig, fuel, env, ss.head, w) {
      case Next(w1) =>
        var regs1 := regs';
        ReadyNext(sem, p, s, sc, env, regs, w, s1, regs1, w1);
        regs' := SimStmts(sem, p, sig, sc, env, fuel, ss.tail, s1, regs1, w1);
        EndsTrans(sem, p, s, regs, w, s1, regs1, w1, CompStmts(sig, sc, ss.tail, s1), regs',
          ExecAll(sem, sig, fuel, env, ss.tail, w1), fuel);
      case _ =>
    }
  }

  lemma {:induction false} SimIf(sem: Sem, p: Blocks, sig: Sig, sc: Names, env: Scopes<Val>, fuel: nat, st: Stmt,
                                 s: Emit, regs: Regs, w: World)
    returns (regs': Regs)
    requires Ready(s, sc, env, regs) && sc != [] && env != [] && StmtOk(sig, TysOf(sc), st)
    requires Within(CompStmt(sig, sc, st, s).blocks, p) && st.If?
    ensures Ends(sem, p, s, regs, w, CompStmt(sig, sc, st, s), regs', Exec(sem, sig, fuel, env, st, w), fuel)
    decreases fuel, st, 1
  {
    if st.no.None? {
      regs' := SimIfOnly(sem, p, sig, sc, env, fuel, st, s, regs, w);
    } else {
      regs' := SimIfElse(sem, p, sig, sc, env, fuel, st, s, regs, w);
    }
  }

  // ----- one level of the definitions -----

  lemma JumpRegs(b: Emit, l: Label, k: Label, f: Label)
    ensures b.JumpIfOpen(l).MoveTo(k).regs == b.regs && b.JumpIfOpen(l).MoveTo(k).cur == k
    ensures b.JumpIfOpen(l).MoveTo(k).blocks == b.JumpIfOpen(l).blocks
    ensures b.JumpIfOpen(l).Erase(f).MoveTo(k).regs == b.regs && b.JumpIfOpen(l).Erase(f).MoveTo(k).cur == k
  {
  }

  lemma CompIfIs(sig: Sig, sc: Names, st: Stmt, s: Emit)
    requires st.If?
    ensures var (s1, o) := CompExpr(sig, sc, st.c, s); var f, k := s1.labels + 1, s1.labels + 2;
            var b := CompStmt(sig, sc, st.yes, CompIfHead(s1, TypeOf(sig, TysOf(sc), st.c), o, st.no.Some?));
            CompStmt(sig, sc, st, s) ==
              if st.no.None? then b.JumpIfOpen(k).Erase(f).MoveTo(k)
              else CompStmt(sig, sc, st.no.value, b.JumpIfOpen(k).MoveTo(f)).JumpIfOpen(k).MoveTo(k)
  {
    hide CompExpr, CompIfHead, Emit.JumpIfOpen, Emit.Erase, Emit.MoveTo;
  }

  lemma CompLoopIs(sig: Sig, sc: Names, st: Stmt, s: Emit)
    requires st.While?
    ensures var l := s.labels; var (s1, o) := CompExpr(sig, sc, st.c, s.NewBlock().JumpIfOpen(l).MoveTo(l));
            CompStmt(sig, sc, st, s) ==
              CompStmt(sig, sc, st.loop,
                CompLoopHead(s1, TypeOf(sig, TysOf(sc), st.c), o)).JumpIfOpen(l).MoveTo(s1.labels + 1)
  {
    hide CompExpr, CompLoopHead, Emit.JumpIfOpen, Emit.NewBlock, Emit.MoveTo;
  }

  lemma ExecIfIs(sem: Sem, sig: Sig, fuel: nat, env: Scopes<Val>, st: Stmt, w: World)
    requires st.If?
    ensures Exec(sem, sig, fuel, env, st, w) ==
      match Eval(sem, sig, env, st.c, w)
      case Fault(w1) => Left(Default(sig.ret), w1)
      case V(v, w1) =>
        var (b, w2) := Test(sem, TypeOf(sig, TysOf(env), st.c), v, w1);
        if b != 0 then Exec(sem, sig, fuel, env, st.yes, w2)
        else if st.no.Some? then Exec(sem, sig, fuel, env, st.no.value, w2) else Next(w2)
  {
    hide Eval, Test;
  }

  lemma IfOnlyCode(p: Blocks, sig: Sig, sc: Names, st: Stmt, s: Emit)
    requires Sane(s) && s.IsOpen() && ScopeBound(sc, s.regs) && sc != [] && st.If? && st.no.None?
    requires Within(CompStmt(sig, sc, st, s).blocks, p)
    ensures var (s1, o) := CompExpr(sig, sc, st.c, s); var k, ty := s1.labels + 2, TypeOf(sig, TysOf(sc), st.c);
            var h := CompIfHead(s1, ty, o, false); var b := CompStmt(sig, sc, st.yes, h);
            && Within(s1.blocks, p) && TestCode(p, s1, ty, o, h.cur, k) && s1.regs <= h.regs && Piece(p, sc, h, b, k)
            && EndPoint(CompStmt(sig, sc, st, s), k, b.regs)
  {
    hide Within, Grows, Sane, ScopeBound, CompIfHead, IfMid, Unused, TestCode, CompExpr, CompStmt, Emit.JumpIfOpen,
      Emit.NewBlock, Emit.Erase, Emit.MoveTo;
    CompIfIs(sig, sc, st, s);
    var ty := TypeOf(sig, TysOf(sc), st.c);
    ExprGrows(sig, sc, st.c, s);
    var (s1, o) := CompExpr(sig, sc, st.c, s);
    GrowsSane(s, s1);
    var f, k := s1.labels + 1, s1.labels + 2;
    IfHeadShape(s1, ty, o, false);
    var h := CompIfHead(s1, ty, o, false);
    MidSane(s1, h, {f, k});
    BoundMore(sc, s.regs, h.regs);
    StmtGrows(sig, sc, st.yes, h);
    var b := CompStmt(sig, sc, st.yes, h);
    GrowsSane(h, b);
    IfCode(s1, h, b, f, k, p);
    IfHeadCode(s1, ty, o, false, p);
    JumpRegs(b, k, k, f);
  }

  lemma IfElseCode(p: Blocks, sig: Sig, sc: Names, st: Stmt, s: Emit)
    requires Sane(s) && s.IsOpen() && ScopeBound(sc, s.regs) && sc != [] && st.If? && st.no.Some?
    requires Within(CompStmt(sig, sc, st, s).blocks, p)
    ensures var (s1, o) := CompExpr(sig, sc, st.c, s);
            var f, k, ty := s1.labels + 1, s1.labels + 2, TypeOf(sig, TysOf(sc), st.c);
            var h := CompIfHead(s1, ty, o, true); var b := CompStmt(sig, sc, st.yes, h);
            var h2 := b.JumpIfOpen(k).MoveTo(f); var b2 := CompStmt(sig, sc, st.no.value, h2);
            && Within(s1.blocks, p) && TestCode(p, s1, ty, o, h.cur, h2.cur) && s1.regs <= h.regs
            && Piece(p, sc, h, b, k)
            && s1.regs <= h2.regs && Piece(p, sc, h2, b2, k) && EndPoint(CompStmt(sig, sc, st, s), k, b2.regs)
            && b.regs <= b2.regs
  {
    hide Within, Grows, Sane, ScopeBound, CompIfHead, IfMid, Unused, TestCode, CompExpr, CompStmt, Emit.JumpIfOpen,
      Emit.NewBlock, Emit.Erase, Emit.MoveTo;
    CompIfIs(sig, sc, st, s);
    var ty := TypeOf(sig, TysOf(sc), st.c);
    ExprGrows(sig, sc, st.c, s);
    var (s1, o) := CompExpr(sig, sc, st.c, s);
    GrowsSane(s, s1);
    var f, k := s1.labels + 1, s1.labels + 2;
    IfHeadShape(s1, ty, o, true);
    var h := CompIfHead(s1, ty, o, true);
    MidSane(s1, h, {f, k});
    BoundMore(sc, s.regs, h.regs);
    StmtGrows(sig, sc, st.yes, h);
    var b := CompStmt(sig, sc, st.yes, h);
    GrowsSane(h, b);
    MidHas(s1, h, b, {f, k}, k);
    MidNext(s1, h, b, {f, k}, k, f);
    assert {f, k} - {f} == {k};
    var h2 := b.JumpIfOpen(k).MoveTo(f);
    MidSane(s1, h2, {k});
    BoundMore(sc, s.regs, h2.regs);
    StmtGrows(sig, sc, st.no.value, h2);
    var b2 := CompStmt(sig, sc, st.no.value, h2);
    GrowsSane(h2, b2);
    MidHas(s1, h2, b2, {k}, k);
    MidNext(s1, h2, b2, {k}, k, k);
    JumpRegs(b, k, f, f);
    JumpRegs(b2, k, k, f);
    PieceCode(h2, b2, k, p);
    PieceCode(h, b, k, p);
    IfHeadCode(s1, ty, o, true, p);
  }

  lemma {:induction false} SimIfOnly(sem: Sem, p: Blocks, sig: Sig, sc: Names, env: Scopes<Val>, fuel: nat, st: Stmt,
                                     s: Emit, regs: Regs, w: World)
    returns (regs': Regs)
    requires Ready(s, sc, env, regs) && sc != [] && env != [] && StmtOk(sig, TysOf(sc), st)
    requires Within(CompStmt(sig, sc, st, s).blocks, p)
    requires st.If? && st.no.None?
    ensures Ends(sem, p, s, regs, w, CompStmt(sig, sc, st, s), regs', Exec(sem, sig, fuel, env, st, w), fuel)
    decreases fuel, st, 0
  {
    hide Ready, Within, Runs, Halts, Reaches, Sane, ScopeBound, CompIfHead, Agree, Test, TestCode, Piece, EndPoint,
      Read, CompExpr, CompStmt, Exec, Eval, Emit.JumpIfOpen, Emit.MoveTo;
    ReadyFacts(s, sc, env, regs);
    IfOnlyCode(p, sig, sc, st, s);
    ExecIfIs(sem, sig, fuel, env, st, w);
    var ty := TypeOf(sig, TysOf(sc), st.c);
    var (s1, o) := CompExpr(sig, sc, st.c, s);
    var k, h := s1.labels + 2, CompIfHead(s1, ty, o, false);
    var b, r := CompStmt(sig, sc, st.yes, h), CompStmt(sig, sc, st, s);
    PieceFacts(p, sc, h, b, k);
    regs' := SimExpr(sem, p, sig, sc, env, st.c, s, regs, w);
    match Eval(sem, sig, env, st.c, w) {
      case Fault(_) =>
      case V(v, w1) =>
        var regs1 := regs';
        var regs2 := TestRuns(sem, p, s1, ty, o, h.cur, k, regs1, w1, v);
        var (t, w2) := Test(sem, ty, v, w1);
        if t != 0 {
          StartPiece(sem, p, s, regs, w, s1, regs1, w1, h, regs2, w2, sc, env, b, k);
          regs' := SimStmt(sem, p, sig, sc, env, fuel, st.yes, h, regs2, w2);
          EndPiece(sem, p, s, regs, w, h, regs2, w2, b, regs', Exec(sem, sig, fuel, env, st.yes, w2), k, r, sc, fuel);
        } else {
          regs' := regs2;
          EndLater(r, k, b.regs, s1.regs);
          Arrive(sem, p, s, regs, w, s1, regs1, w1, regs2, w2, r, k);
        }
    }
  }

  lemma PieceFacts(p: Blocks, sc: Names, h: Emit, b: Emit, l: Label)
    requires Piece(p, sc, h, b, l)
    ensures Within(b.blocks, p) && h.regs <= b.regs
  {
  }

  /** The test has failed, and the run is at the end of the statement. */
  lemma Arrive(sem: Sem, p: Blocks, s: Emit, regs: Regs, w: World, s1: Emit, regs1: Regs, w1: World, regs2: Regs,
               w2: World, r: Emit, k: Label)
    requires Runs(sem, p, s, regs, w, s1, regs1, w1) && Agree(regs1, regs2, s1.regs)
    requires Reaches(sem, p, Point(s1, regs1, w1), At(k, 0, regs2, w2)) && EndPoint(r, k, s1.regs)
    ensures Ends(sem, p, s, regs, w, r, regs2, Next(w2), 0)
  {
    assert Runs(sem, p, s1, regs1, w1, r, regs2, w2);
    RunsTrans(sem, p, s, regs, w, s1, regs1, w1, r, regs2, w2);
  }

  lemma {:induction false} SimIfElse(sem: Sem, p: Blocks, sig: Sig, sc: Names, env: Scopes<Val>, fuel: nat, st: Stmt,
                                     s: Emit, regs: Regs, w: World)
    returns (regs': Regs)
    requires Ready(s, sc, env, regs) && sc != [] && env != [] && StmtOk(sig, TysOf(sc), st)
    requires Within(CompStmt(sig, sc, st, s).blocks, p)
    requires st.If? && st.no.Some?
    ensures Ends(sem, p, s, regs, w, CompStmt(sig, sc, st, s), regs', Exec(sem, sig, fuel, env, st, w), fuel)
    decreases fuel, st, 0
  {
    hide Ready, Within, Runs, Halts, Reaches, Sane, ScopeBound, CompIfHead, Agree, Test, TestCode, Piece, EndPoint,
      Read, CompExpr, CompStmt, Exec, Eval, Emit.JumpIfOpen, Emit.MoveTo;
    ReadyFacts(s, sc, env, regs);
    IfElseCode(p, sig, sc, st, s);
    ExecIfIs(sem, sig, fuel, env, st, w);
    var ty := TypeOf(sig, TysOf(sc), st.c);
    var (s1, o) := CompExpr(sig, sc, st.c, s);
    var f, k, h := s1.labels + 1, s1.labels + 2, CompIfHead(s1, ty, o, true);
    var b := CompStmt(sig, sc, st.yes, h);
    var h2 := b.JumpIfOpen(k).MoveTo(f);
    var b2, r := CompStmt(sig, sc, st.no.value, h2), CompStmt(sig, sc, st, s);
    PieceFacts(p, sc, h, b, k);
    PieceFacts(p, sc, h2, b2, k);
    regs' := SimExpr(sem, p, sig, sc, env, st.c, s, regs, w);
    match Eval(sem, sig, env, st.c, w) {
      case Fault(_) =>
      case V(v, w1) =>
        var regs1 := regs';
        var regs2 := TestRuns(sem, p, s1, ty, o, h.cur, h2.cur, regs1, w1, v);
        var (t, w2) := Test(sem, ty, v, w1);
        if t != 0 {
          StartPiece(sem, p, s, regs, w, s1, regs1, w1, h, regs2, w2, sc, env, b, k);
          regs' := SimStmt(sem, p, sig, sc, env, fuel, st.yes, h, regs2, w2);
          EndLater(r, k, b2.regs, b.regs);
          EndPiece(sem, p, s, regs, w, h, regs2, w2, b, regs', Exec(sem, sig, fuel, env, st.yes, w2), k, r, sc, fuel);
        } else {
          StartPiece(sem, p, s, regs, w, s1, regs1, w1, h2, regs2, w2, sc, env, b2, k);
          regs' := SimStmt(sem, p, sig, sc, env, fuel, st.no.value, h2, regs2, w2);
          EndPiece(sem, p, s, regs, w, h2, regs2, w2, b2, regs', Exec(sem, sig, fuel, env, st.no.value, w2), k, r, sc,
            fuel);
        }
    }
  }

  lemma {:induction false} SimWhile(sem: Sem, p: Blocks, sig: Sig, sc: Names, env: Scopes<Val>, fuel: nat, st: Stmt,
                                    s: Emit, regs: Regs, w: World)
    returns (regs': Regs)
    requires Ready(s, sc, env, regs) && sc != [] && env != [] && StmtOk(sig, TysOf(sc), st)
    requires Within(CompStmt(sig, sc, st, s).blocks, p) && st.While?
    ensures Ends(sem, p, s, regs, w, CompStmt(sig, sc, st, s), regs', Exec(sem, sig, fuel, env, st, w), fuel)
    decreases fuel, st, 2
  {
    hide Within, Runs, Halts, Reaches, Grows, ScopeBound, CompLoopHead, IfMid, Ends, Related;
    ReadyFacts(s, sc, env, regs);
    var s0 := s.NewBlock().JumpIfOpen(s.labels).MoveTo(s.labels);
    LoopStart(s);
    GrowsSane(s, s0);
    BoundMore(sc, s.regs, s0.regs);
    LoopCode(p, sig, sc, st, s);
    EnterLoop(sem, p, s, regs, w);
    regs' := SimLoop(sem, p, sig, sc, env, fuel, st, s, regs, w);
    EndsTrans(sem, p, s, regs, w, s0, regs, w, CompStmt(sig, sc, st, s), regs', Exec(sem, sig, fuel, env, st, w), fuel);
  }

  lemma EnterLoop(sem: Sem, p: Blocks, s: Emit, regs: Regs, w: World)
    requires Sane(s) && s.IsOpen()
    requires var s0 := s.NewBlock().JumpIfOpen(s.labels).MoveTo(s.labels); Within(s0.blocks, p)
    ensures var s0 := s.NewBlock().JumpIfOpen(s.labels).MoveTo(s.labels); Runs(sem, p, s, regs, w, s0, regs, w)
  {
    var s0 := s.NewBlock().JumpIfOpen(s.labels).MoveTo(s.labels);
    assert s.cur in s0.blocks && p[s.cur] == s0.blocks[s.cur] == s.blocks[s.cur].(term := Br(s.labels));
    ReachesSelf(sem, p, Point(s, regs, w));
    ReachesStep(sem, p, Point(s, regs, w), Point(s, regs, w));
    assert Step(sem, p, Point(s, regs, w)) == Point(s0, regs, w);
  }

  /** What the final code has of the pieces of a loop. */
  lemma LoopCode(p: Blocks, sig: Sig, sc: Names, st: Stmt, s: Emit)
    requires Sane(s) && s.IsOpen() && ScopeBound(sc, s.regs) && sc != [] && st.While?
    requires Within(CompStmt(sig, sc, st, s).blocks, p)
    ensures var s0 := s.NewBlock().JumpIfOpen(s.labels).MoveTo(s.labels); var (s1, o) := CompExpr(sig, sc, st.c, s0);
            var k, ty := s1.labels + 1, TypeOf(sig, TysOf(sc), st.c);
            var h := CompLoopHead(s1, ty, o);
            var b := CompStmt(sig, sc, st.loop, h);
            && Within(s0.blocks, p) && Within(s1.blocks, p) && TestCode(p, s1, ty, o, h.cur, k) && s1.regs <= h.regs
            && Piece(p, sc, h, b, s.labels)
            && EndPoint(CompStmt(sig, sc, st, s), k, b.regs)
  {
    hide Grows, Sane, ScopeBound, CompLoopHead, IfMid, Within, TestCode, CompExpr, CompStmt, Emit.JumpIfOpen,
      Emit.NewBlock, Emit.Erase, Emit.MoveTo;
    CompLoopIs(sig, sc, st, s);
    LoopStart(s);
    var l := s.labels;
    var s0 := s.NewBlock().JumpIfOpen(l).MoveTo(l);
    GrowsSane(s, s0);
    BoundMore(sc, s.regs, s0.regs);
    ExprGrows(sig, sc, st.c, s0);
    var (s1, o) := CompExpr(sig, sc, st.c, s0);
    GrowsSane(s0, s1);
    GrowsTrans(s, s0, s1);
    var ty := TypeOf(sig, TysOf(sc), st.c);
    LoopHeadShape(s1, ty, o);
    var h, k := CompLoopHead(s1, ty, o), s1.labels + 1;
    MidSane(s1, h, {k});
    BoundMore(sc, s.regs, h.regs);
    StmtGrows(sig, sc, st.loop, h);
    var b := CompStmt(sig, sc, st.loop, h);
    GrowsSane(h, b);
    StillThere(s0, s1, h, b, {k});
    MidFrom(s, s1, h, {k});
    MidNext(s, h, b, {k}, l, k);
    JumpRegs(b, l, k, k);
    PieceCode(h, b, l, p);
    LoopHeadCode(s1, ty, o, p);
    GrowsWithin(s0, s1, p);
  }

  /** A loop, from its first block, by induction on the number of turns allowed. */
  lemma {:induction false} SimLoop(sem: Sem, p: Blocks, sig: Sig, sc: Names, env: Scopes<Val>, fuel: nat, st: Stmt,
                                   s: Emit, regs: Regs, w: World)
    returns (regs': Regs)
    requires Sane(s) && s.IsOpen() && ScopeBound(sc, s.regs) && sc != [] && env != [] && st.While?
    requires StmtOk(sig, TysOf(sc), st)
    requires Within(CompStmt(sig, sc, st, s).blocks, p)
    requires Ready(s.NewBlock().JumpIfOpen(s.labels).MoveTo(s.labels), sc, env, regs)
    ensures var s0 := s.NewBlock().JumpIfOpen(s.labels).MoveTo(s.labels);
            Ends(sem, p, s0, regs, w, CompStmt(sig, sc, st, s), regs', Exec(sem, sig, fuel, env, st, w), fuel)
    decreases fuel, st, 1
  {
    var l := s.labels;
    var s0, r := s.NewBlock().JumpIfOpen(l).MoveTo(l), CompStmt(sig, sc, st, s);
    hide Ready, Within, Runs, Halts, Reaches, Sane, ScopeBound, CompLoopHead, Agree, Test, TestCode, Piece, EndPoint,
      Read, CompExpr, CompStmt, Eval, Emit.JumpIfOpen, Emit.MoveTo, Emit.NewBlock;
    ReadyFacts(s0, sc, env, regs);
    LoopCode(p, sig, sc, st, s);
    var ty := TypeOf(sig, TysOf(sc), st.c);
    var (s1, o) := CompExpr(sig, sc, st.c, s0);
    var h, k := CompLoopHead(s1, ty, o), s1.labels + 1;
    var b := CompStmt(sig, sc, st.loop, h);
    PieceFacts(p, sc, h, b, l);
    regs' := SimExpr(sem, p, sig, sc, env, st.c, s0, regs, w);
    match Eval(sem, sig, env, st.c, w) {
      case Fault(_) =>
      case V(v, w1) =>
        var regs1 := regs';
        var regs2 := TestRuns(sem, p, s1, ty, o, h.cur, k, regs1, w1, v);
        var (t, w2) := Test(sem, ty, v, w1);
        if t == 0 {
          regs' := regs2;
          EndLater(r, k, b.regs, s1.regs);
          Arrive(sem, p, s0, regs, w, s1, regs1, w1, regs2, w2, r, k);
        } else {
          StartPiece(sem, p, s0, regs, w, s1, regs1, w1, h, regs2, w2, sc, env, b, l);
          regs' := SimStmt(sem, p, sig, sc, env, fuel, st.loop, h, regs2, w2);
          regs' := NextTurn(sem, p, sig, sc, env, fuel, st, s, regs, w, h, regs2, w2, b, regs');
        }
    }
  }

  lemma EndLater(r: Emit, k: Label, m: nat, n: nat)
    requires EndPoint(r, k, m) && n <= m
    ensures EndPoint(r, k, n)
  {
  }

  /** After the body of a loop. */
  lemma {:induction false} NextTurn(sem: Sem, p: Blocks, sig: Sig, sc: Names, env: Scopes<Val>, fuel: nat, st: Stmt,
                                    s: Emit, regs: Regs, w: World, h: Emit, regs2: Regs, w2: World, b: Emit,
                                    regs3: Regs) returns (regs': Regs)
    requires Sane(s) && s.IsOpen() && ScopeBound(sc, s.regs) && sc != [] && env != [] && st.While?
    requires StmtOk(sig, TysOf(sc), st)
    requires Within(CompStmt(sig, sc, st, s).blocks, p)
    requires var s0 := s.NewBlock().JumpIfOpen(s.labels).MoveTo(s.labels);
             Ready(s0, sc, env, regs) && Runs(sem, p, s0, regs, w, h, regs2, w2)
    requires Ends(sem, p, h, regs2, w2, b, regs3, Exec(sem, sig, fuel, env, st.loop, w2), fuel)
    requires Piece(p, sc, h, b, s.labels)
    ensures var s0 := s.NewBlock().JumpIfOpen(s.labels).MoveTo(s.labels);
            Ends(sem, p, s0, regs, w, CompStmt(sig, sc, st, s), regs',
                 match Exec(sem, sig, fuel, env, st.loop, w2)
                 case Next(w3) => if fuel == 0 then Later else Exec(sem, sig, fuel - 1, env, st, w3)
                 case out => out, fuel)
    decreases fuel, st, 0
  {
    hide Ready, Within, Halts, Sane, ScopeBound, Related, LongRun, Reaches, TestCode, CompStmt, Step;
    var l := s.labels;
    var s0 := s.NewBlock().JumpIfOpen(l).MoveTo(l);
    ReadyFacts(s0, sc, env, regs);
    assert s0.cur == l && s0.Here() == 0;
    regs' := regs3;
    EndsTrans(sem, p, s0, regs, w, h, regs2, w2, b, regs3, Exec(sem, sig, fuel, env, st.loop, w2), fuel);
    match Exec(sem, sig, fuel, env, st.loop, w2) {
      case Next(w3) =>
        JumpRuns(sem, p, b, l, regs3, w3);
        ReachesTrans(sem, p, Point(s0, regs, w), Point(b, regs3, w3), At(l, 0, regs3, w3));
        assert Runs(sem, p, s0, regs, w, s0, regs3, w3);
        if fuel > 0 {
          hide Runs, Reaches, LongRun;
          ReadyNext(sem, p, s0, sc, env, regs, w, s0, regs3, w3);
          regs' := SimLoop(sem, p, sig, sc, env, fuel - 1, st, s, regs3, w3);
          var out := Exec(sem, sig, fuel - 1, env, st, w3);
          if out.Later? {
            LongStep(sem, p, Point(b, regs3, w3), fuel);
            LongAfter(sem, p, Point(s0, regs, w), Point(b, regs3, w3), fuel + 1);
          } else {
            EndsTrans(sem, p, s0, regs, w, s0, regs3, w3, CompStmt(sig, sc, st, s), regs', out, fuel - 1);
          }
        } else {
          LongHere(sem, p, At(l, 0, regs3, w3));
          LongStep(sem, p, Point(b, regs3, w3), 0);
          LongAfter(sem, p, Point(s0, regs, w), Point(b, regs3, w3), 1);
        }
      case _ =>
    }
  }

  // ----- functions -----

  function ArgRegs(args: seq<Val>): Regs {
    map r: Reg | r < |args| :: args[r]
  }

  /** The scope is bound by all registers but those of the arguments, which stay what they are. */
  lemma {:induction false} ParamsGrow(sc: Names, params: seq<Decl>, s: Emit)
    requires Sane(s) && s.IsOpen() && ScopeBound(sc, s.regs) && sc != []
    ensures var (r, sc1) := CompParams(sc, params, s); Grows(s, r) && r.IsOpen() && ScopeBound(sc1, r.regs)
    ensures TysOf(CompParams(sc, params, s).1) == DeclareTys(TysOf(sc), params)
  {
    GrowsSelf(s);
    if params != [] {
      hide Grows, Sane;
      ParamsGrow(sc, params[..|params| - 1], s);
      var (s1, sc1) := CompParams(sc, params[..|params| - 1], s);
      var d := params[|params| - 1];
      PutEnd(s, s1, Alloca(d.ty), []);
      var s2 := s1.Put(Alloca(d.ty), []);
      PutEnd(s, s2, Store(d.ty), [R(|params| - 1), R(s1.regs)]);
      PushBound(sc1, d.id, Entry(d.ty, R(s1.regs)), s1.regs);
      BoundMore(Push(sc1, d.id, Entry(d.ty, R(s1.regs))), s2.regs, s2.regs + 1);
      PushTys(sc1, d.id, Entry(d.ty, R(s1.regs)));
    }
  }

  lemma {:induction false} SimParams(sem: Sem, p: Blocks, sc: Names, env: Scopes<Val>, params: seq<Decl>,
                                     args: seq<Val>, s: Emit, regs: Regs, w: World)
    returns (regs': Regs)
    requires Ready(s, sc, env, regs) && sc != [] && env != [] && |params| == |args| <= s.regs
    requires Within(CompParams(sc, params, s).0.blocks, p)
    requires forall r: Reg {:trigger r in regs} :: r < |args| ==> r in regs && regs[r] == args[r]
    ensures var (r, sc1) := CompParams(sc, params, s); var (env1, w1) := BindParams(sem, env, params, args, w);
            Runs(sem, p, s, regs, w, r, regs', w1) && Ready(r, sc1, env1, regs')
  {
    hide Runs, Within, Sane, Grows, ScopeBound, Related, Agree;
    ReadyFacts(s, sc, env, regs);
    if params == [] {
      regs' := regs;
      RunsSelf(sem, p, s, regs, w);
    } else {
      var n := |params| - 1;
      var init, d := params[..n], params[n];
      ParamsGrow(sc, params, s);
      ParamsGrow(sc, init, s);
      var (s1, sc1) := CompParams(sc, init, s);
      GrowsSane(s, s1);
      GrowsSane(s, CompParams(sc, params, s).0);
      PutGrows(s1, Alloca(d.ty), []);
      var s2 := s1.Put(Alloca(d.ty), []);
      GrowsSane(s1, s2);
      PutWithin(s2, Store(d.ty), [R(n), R(s1.regs)], p);
      PutWithin(s1, Alloca(d.ty), [], p);
      var most := args[..n];
      forall r: Reg | r < |most|
        ensures r in regs && regs[r] == most[r]
      {
      }
      var regs1 := SimParams(sem, p, sc, env, init, most, s, regs, w);
      var (env1, w1) := BindParams(sem, env, init, args[..n], w);
      assert ReadAll(regs1, []) == Some([]);
      var (a, w2) := sem(Alloca(d.ty), [], w1);
      var regs2 := RunsPut(sem, p, s, regs, w, s1, regs1, w1, Alloca(d.ty), [], []);
      RunsKeep(sem, p, s, regs, w, s2, regs2, w2, R(n));
      assert n in regs && Read(regs, R(n)) == Some(args[n]);
      ReadTwo(regs2, R(n), R(s1.regs));
      regs' := RunsPut(sem, p, s, regs, w, s2, regs2, w2, Store(d.ty), [R(n), R(s1.regs)], [args[n], a]);
      ReadAgree(regs2, regs', s2.regs, R(s1.regs));
      RelatedAgree(sc1, env1, regs1, regs2, s1.regs);
      BoundMore(sc1, s1.regs, s2.regs);
      RelatedAgree(sc1, env1, regs2, regs', s2.regs);
      PushRelated(sc1, env1, regs', d.id, d.ty, R(s1.regs), a);
    }
  }

  /** The whole function's code: every block is closed, and every branch leads to one of its blocks. */
  lemma FunClosed(sig: Sig, globals: Names, fd: FunDecl)
    requires ScopeBound(globals, 0)
    ensures var p := CompFun(sig, globals, fd).blocks;
            TargetsIn(p) && forall l {:trigger p[l]} :: l in p ==> p[l].term != Open
  {
    var s0 := EmptyFun(|fd.params|);
    FunParts(sig, globals, fd);
    var (s1, sc1) := CompParams(globals + [map[]], fd.params, s0);
    var (s2, sc2) := CompDecls(sc1, fd.decls, s1);
    var s3 := CompStmts(sig, sc2, fd.body, s2);
    hide CompParams, CompDecls, CompStmts;
    if s3.IsOpen() {
      TerminateGrows(s3, DefaultRet(sig.ret));
      GrowsTrans(s0, s3, s3.Terminate(DefaultRet(sig.ret)));
    }
  }

  lemma FunParts(sig: Sig, globals: Names, fd: FunDecl)
    requires ScopeBound(globals, 0)
    ensures var s0 := EmptyFun(|fd.params|); var (s1, sc1) := CompParams(globals + [map[]], fd.params, s0);
            var (s2, sc2) := CompDecls(sc1, fd.decls, s1); var s3 := CompStmts(sig, sc2, fd.body, s2);
            && Sane(s0) && s0.IsOpen() && ScopeBound(globals + [map[]], |fd.params|)
            && Grows(s0, s1) && s1.IsOpen() && Grows(s1, s2) && s2.IsOpen() && Grows(s2, s3) && Grows(s0, s3)
    ensures TysOf(CompDecls(CompParams(globals + [map[]], fd.params, EmptyFun(|fd.params|)).1, fd.decls,
      CompParams(globals + [map[]], fd.params, EmptyFun(|fd.params|)).0).1)
            == DeclareTys(DeclareTys(TysOf(globals) + [map[]], fd.params), fd.decls)
  {
    var s0, sc := EmptyFun(|fd.params|), globals + [map[]];
    BoundMore(globals, 0, |fd.params|);
    LevelBound(globals, |fd.params|);
    NewLevel(globals);
    ParamsGrow(sc, fd.params, s0);
    var (s1, sc1) := CompParams(sc, fd.params, s0);
    hide Grows, ScopeBound, CompStmts;
    GrowsSane(s0, s1);
    DeclsGrow(sc1, fd.decls, s1);
    DeclsTyped(sc1, fd.decls, s1);
    var (s2, sc2) := CompDecls(sc1, fd.decls, s1);
    GrowsSane(s1, s2);
    StmtsGrow(sig, sc2, fd.body, s2);
    GrowsTrans(s0, s1, s2);
    GrowsTrans(s0, s2, CompStmts(sig, sc2, fd.body, s2));
  }

  /** A call in the source that ends is a run of the code that halts with the same result; one that takes
      more turns than allowed is a run of more steps than that. */
  lemma SimFun(sem: Sem, sig: Sig, fuel: nat, globals: Names, genv: Scopes<Val>, fd: FunDecl, args: seq<Val>, w: World)
    requires ScopeBound(globals, 0) && Related(globals, genv, map[]) && FunOk(sig, TysOf(globals), fd)
    requires |args| == |fd.params|
    ensures var p := CompFun(sig, globals, fd).blocks; var a := At(0, 0, ArgRegs(args), w);
            match CallFun(sem, sig, fuel, genv, fd, args, w)
            case Some((v, w')) => Reaches(sem, p, a, Halted(v, w'))
            case None => LongRun(sem, p, a, fuel + 1)
  {
    FunParts(sig, globals, fd);
    var s0, sc, env := EmptyFun(|fd.params|), globals + [map[]], genv + [map[]];
    var regs := ArgRegs(args);
    RelatedAgree(globals, genv, map[], regs, 0);
    LevelRelated(globals, genv, regs);
    var (s1, sc1) := CompParams(sc, fd.params, s0);
    var (s2, sc2) := CompDecls(sc1, fd.decls, s1);
    var s3, p := CompStmts(sig, sc2, fd.body, s2), CompFun(sig, globals, fd).blocks;
    FunWithin(sig, s3, p);
    hide Runs, Halts, Grows, Within, Sane, ScopeBound, Related, LongRun, Reaches, CompStmts, CompDecls, CompParams;
    GrowsSane(s2, s3);
    GrowsSane(s0, s1);
    GrowsSane(s1, s2);
    GrowsWithin(s2, s3, p);
    GrowsWithin(s1, s2, p);
    assert Ready(s0, sc, env, regs);
    var (env1, w1) := BindParams(sem, env, fd.params, args, w);
    var (env2, w2) := DeclareAll(sem, env1, fd.decls, w1);
    var regs1 := SimParams(sem, p, sc, env, fd.params, args, s0, regs, w);
    var regs2 := SimDecls(sem, p, sc1, env1, fd.decls, s1, regs1, w1);
    var regs3 := SimStmts(sem, p, sig, sc2, env2, fuel, fd.body, s2, regs2, w2);
    RunsTrans(sem, p, s0, regs, w, s1, regs1, w1, s2, regs2, w2);
    var out := ExecAll(sem, sig, fuel, env2, fd.body, w2);
    EndsTrans(sem, p, s0, regs, w, s2, regs2, w2, s3, regs3, out, fuel);
    if out.Next? {
      DefaultRuns(sem, p, s3, sig.ret, regs3, out.w);
      RunsHalts(sem, p, s0, regs, w, s3, regs3, out.w, Default(sig.ret), out.w);
    }
    StartPoint(sem, p, s0, regs, w, out, fuel);
  }

  lemma StartPoint(sem: Sem, p: Blocks, s0: Emit, regs: Regs, w: World, out: Outcome, fuel: nat)
    requires s0.cur == 0 && s0.Here() == 0
    ensures Point(s0, regs, w) == At(0, 0, regs, w)
    ensures forall v, w' :: Halts(sem, p, s0, regs, w, v, w') ==> Reaches(sem, p, At(0, 0, regs, w), Halted(v, w'))
  {
  }

  lemma FunWithin(sig: Sig, s3: Emit, p: Blocks)
    requires Sane(s3) && p == (if s3.IsOpen() then s3.Terminate(DefaultRet(sig.ret)) else s3).blocks
    ensures Within(s3.blocks, p) && (s3.IsOpen() ==> Within(s3.Terminate(DefaultRet(sig.ret)).blocks, p))
  {
  }

  lemma DefaultRuns(sem: Sem, p: Blocks, s: Emit, ret: Ty, regs: Regs, w: World)
    requires Sane(s) && s.IsOpen() && Within(s.Terminate(DefaultRet(ret)).blocks, p)
    ensures Halts(sem, p, s, regs, w, Default(ret), w)
  {
    var o: Option<Operand> :=
      if ret == VoidT then None else Some(if ret == FloatT then ConstF(FLOAT_ZERO) else Const(0));
    RetRuns(sem, p, s, o, regs, w, Default(ret));
  }

  // ----- both directions -----

  lemma {:induction false} HaltStays(sem: Sem, p: Blocks, a: Conf, n: nat, m: nat)
    requires n <= m && Steps(sem, p, n, a).Halted?
    ensures Steps(sem, p, m, a) == Steps(sem, p, n, a)
  {
    if n < m {
      HaltStays(sem, p, a, n, m - 1);
    }
  }

  /** Main theorem: the code halts with a result exactly if the call in the source returns it. */
  lemma TranslationPreservesMeaning(sem: Sem, sig: Sig, globals: Names, genv: Scopes<Val>, fd: FunDecl, args: seq<Val>,
                                    w: World, v: Option<Val>, w': World)
    requires ScopeBound(globals, 0) && Related(globals, genv, map[]) && FunOk(sig, TysOf(globals), fd)
    requires |args| == |fd.params|
    ensures Reaches(sem, CompFun(sig, globals, fd).blocks, At(0, 0, ArgRegs(args), w), Halted(v, w')) <==>
            exists fuel :: CallFun(sem, sig, fuel, genv, fd, args, w) == Some((v, w'))
  {
    var p, a := CompFun(sig, globals, fd).blocks, At(0, 0, ArgRegs(args), w);
    if fuel :| CallFun(sem, sig, fuel, genv, fd, args, w) == Some((v, w')) {
      SimFun(sem, sig, fuel, globals, genv, fd, args, w);
    }
    if Reaches(sem, p, a, Halted(v, w')) {
      var n: nat :| Steps(sem, p, n, a) == Halted(v, w');
      SimFun(sem, sig, n, globals, genv, fd, args, w);
      HaltsThere(sem, p, a, n, CallFun(sem, sig, n, genv, fd, args, w), v, w');
    }
  }

  lemma HaltsThere(sem: Sem, p: Blocks, a: Conf, n: nat, r: Option<(Option<Val>, World)>, v: Option<Val>, w: World)
    requires Steps(sem, p, n, a) == Halted(v, w)
    requires match r case Some((v', w')) => Reaches(sem, p, a, Halted(v', w')) case None => LongRun(sem, p, a, n + 1)
    ensures r == Some((v, w))
  {
    match r {
      case Some((v', w')) =>
        var m: nat :| Steps(sem, p, m, a) == Halted(v', w');
        if m <= n {
          HaltStays(sem, p, a, m, n);
        } else {
          HaltStays(sem, p, a, n, m);
        }
      case None =>
        var m: nat :| m >= n + 1 && Steps(sem, p, m, a).At?;
        HaltStays(sem, p, a, n, m);
    }
  }
}
