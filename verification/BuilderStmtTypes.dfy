/** The types of the code emitted for statements and whole functions. */
module BuilderStmtTypes {
  import opened Cfg
  import opened Cminus
  import opened BlockCode
  import opened BuilderSpec
  import opened BuilderGrowth
  import opened BuilderTypes
  import B = BuilderStmtProof

  // ----- what may be wrong with the types of a statement -----

  /** Nothing follows the statement: it returns on the way to its end. */
  predicate Closes(st: Stmt) {
    match st
    case Return(_) => true
    case Block(_, body) => SomeCloses(body)
    case _ => false
  }

  predicate SomeCloses(ss: Stmts) {
    match ss
    case Done => false
    case Then(head, tail) => Closes(head) || SomeCloses(tail)
  }

  /** Pointers are passed where they are expected, and only void functions return nothing; what follows a
      return is not looked at. */
  predicate StmtFits(sig: Sig, tys: Types, st: Stmt)
    decreases st
  {
    match st
    case ExprS(None) => true
    case ExprS(Some(e)) => ExprFits(sig, tys, e)
    case If(c, yes, no) =>
      ExprFits(sig, tys, c) && StmtFits(sig, tys, yes)
        && (match no case Some(other) => StmtFits(sig, tys, other) case None => true)
    case While(c, loop) => ExprFits(sig, tys, c) && StmtFits(sig, tys, loop)
    case Return(None) => sig.ret == VoidT
    case Return(Some(e)) => ExprFits(sig, tys, e)
    case Block(decls, body) => StmtsFit(sig, DeclareTys(tys + [map[]], decls), body)
  }

  predicate StmtsFit(sig: Sig, tys: Types, ss: Stmts)
    decreases ss
  {
    match ss
    case Done => true
    case Then(head, tail) => StmtFits(sig, tys, head) && (Closes(head) || StmtsFit(sig, tys, tail))
  }

  predicate FunFits(sig: Sig, globals: Types, fd: FunDecl) {
    StmtsFit(sig, DeclareTys(DeclareTys(globals + [map[]], fd.params), fd.decls), fd.body)
  }

  // ----- which statements close the block -----

  lemma AfterIf(s: Emit, a: Emit, b: Emit, f: Label, k: Label)
    requires IfMid(s, a, {f, k}) && Grows(a, b) && f != k
    ensures var r := b.JumpIfOpen(k).Erase(f).MoveTo(k); r.IsOpen()
  {
    MidGrows(s, a, b, {f, k});
    assert k in {f, k} && b.blocks[k] == BB([], Open) && b.cur != k;
  }

  lemma {:induction false} IfOpens(sig: Sig, sc: Names, st: Stmt, s: Emit)
    requires Emits(sc, s) && sc != [] && st.If?
    ensures CompStmt(sig, sc, st, s).IsOpen()
  {
    hide Grows, CompIfHead, IfMid, Unused, CompStmt, CompExpr, Emit.JumpIfOpen, Emit.IsOpen, Emits, Sane, TypeOf, TysOf;
    IfEmits(sig, sc, st, s);
    B.CompIfIs(sig, sc, st, s);
    ExprReady(sig, sc, st.c, s);
    var (s1, v) := CompExpr(sig, sc, st.c, s);
    var f, k, ty := s1.labels + 1, s1.labels + 2, TypeOf(sig, TysOf(sc), st.c);
    IfHeadShape(s1, ty, v, st.no.Some?);
    var h := CompIfHead(s1, ty, v, st.no.Some?);
    GrowsFrom(sig, sc, st.yes, h);
    var b := CompStmt(sig, sc, st.yes, h);
    if st.no.None? {
      AfterIf(s1, h, b, f, k);
    } else {
      MidHas(s1, h, b, {f, k}, k);
      MidNext(s1, h, b, {f, k}, k, f);
      assert {f, k} - {f} == {k};
      var h2 := b.JumpIfOpen(k).MoveTo(f);
      GrowsFrom(sig, sc, st.no.value, h2);
      var b2 := CompStmt(sig, sc, st.no.value, h2);
      MidHas(s1, h2, b2, {k}, k);
      MidNext(s1, h2, b2, {k}, k, k);
    }
  }

  lemma GrowsFrom(sig: Sig, sc: Names, st: Stmt, s: Emit)
    requires Emits(sc, s) && sc != []
    ensures Grows(s, CompStmt(sig, sc, st, s)) && Sane(CompStmt(sig, sc, st, s))
  {
    StmtGrows(sig, sc, st, s);
    GrowsSane(s, CompStmt(sig, sc, st, s));
  }

  lemma {:induction false} WhileOpens(sig: Sig, sc: Names, st: Stmt, s: Emit)
    requires Emits(sc, s) && sc != [] && st.While?
    ensures CompStmt(sig, sc, st, s).IsOpen()
  {
    hide Grows, CompLoopHead, IfMid, CompStmt, CompExpr, Emits, Sane, Emit.JumpIfOpen, Emit.IsOpen, Emit.NewBlock,
      TypeOf,
      TysOf;
    LoopEmits(sig, sc, st, s);
    B.CompLoopIs(sig, sc, st, s);
    EmitsHere(sc, s);
    LoopStart(s);
    var l := s.labels;
    var s0 := s.NewBlock().JumpIfOpen(l).MoveTo(l);
    ExprReady(sig, sc, st.c, s0);
    var (s1, v) := CompExpr(sig, sc, st.c, s0);
    ExprGrowsFrom(sig, sc, st.c, s0);
    GrowsTrans(s, s0, s1);
    LoopHeadShape(s1, TypeOf(sig, TysOf(sc), st.c), v);
    var h := CompLoopHead(s1, TypeOf(sig, TysOf(sc), st.c), v);
    var k := s1.labels + 1;
    GrowsFrom(sig, sc, st.loop, h);
    var b := CompStmt(sig, sc, st.loop, h);
    StillThere(s0, s1, h, b, {k});
    MidFrom(s, s1, h, {k});
    MidNext(s, h, b, {k}, l, k);
  }

  lemma ExprGrowsFrom(sig: Sig, sc: Names, e: Expr, s: Emit)
    requires Emits(sc, s)
    ensures Grows(s, CompExpr(sig, sc, e, s).0)
  {
    hide CompExpr, Grows, Sane, ScopeBound;
    ExprGrows(sig, sc, e, s);
  }

  lemma {:induction false} StmtCloses(sig: Sig, sc: Names, st: Stmt, s: Emit)
    requires Emits(sc, s) && sc != []
    ensures CompStmt(sig, sc, st, s).IsOpen() <==> !Closes(st)
    decreases st
  {
    hide Emits, CompExpr, CompConvert, CompDecls;
    EmitsHere(sc, s);
    match st {
      case ExprS(None) =>
      case ExprS(Some(e)) => ExprReady(sig, sc, e, s);
      case If(_, _, _) => IfOpens(sig, sc, st, s);
      case While(_, _) => WhileOpens(sig, sc, st, s);
      case Return(_) =>
      case Block(decls, body) =>
        BlockEmits(sc, decls, s);
        var (s1, sc1) := CompDecls(sc + [map[]], decls, s);
        SomeClose(sig, sc1, body, s1);
    }
  }

  lemma BlockEmits(sc: Names, decls: seq<Decl>, s: Emit)
    requires Emits(sc, s)
    ensures var (s1, sc1) := CompDecls(sc + [map[]], decls, s); Emits(sc1, s1)
    ensures Emits(sc + [map[]], s)
  {
    LevelBound(sc, s.regs);
    DeclsEmits(sc + [map[]], decls, s);
  }

  lemma StmtEmits(sig: Sig, sc: Names, st: Stmt, s: Emit)
    requires Emits(sc, s) && sc != []
    ensures CompStmt(sig, sc, st, s).IsOpen() ==> Emits(sc, CompStmt(sig, sc, st, s))
  {
    hide CompStmt, Grows, Sane, ScopeBound;
    StmtGrows(sig, sc, st, s);
    EmitsAfter(sc, s, CompStmt(sig, sc, st, s));
  }

  lemma {:induction false} SomeClose(sig: Sig, sc: Names, ss: Stmts, s: Emit)
    requires Emits(sc, s) && sc != []
    ensures CompStmts(sig, sc, ss, s).IsOpen() <==> !SomeCloses(ss)
    decreases ss
  {
    hide Emits, CompStmt;
    EmitsHere(sc, s);
    if ss.Then? {
      StmtCloses(sig, sc, ss.head, s);
      StmtEmits(sig, sc, ss.head, s);
      var s1 := CompStmt(sig, sc, ss.head, s);
      if s1.IsOpen() {
        SomeClose(sig, sc, ss.tail, s1);
      }
    }
  }

  // ----- declarations -----

  lemma PushTyped(x: Typing, sc: Names, id: Id, ty: Ty, at: Operand)
    requires ScopeTyped(x, sc) && sc != [] && OpTy(x, at) == Pointer(IrOf(ty))
    ensures ScopeTyped(x, Push(sc, id, Entry(ty, at)))
  {
    var sc': Names := Push(sc, id, Entry(ty, at));
    forall i: int, n: Id | 0 <= i < |sc'| && n in sc'[i]
      ensures OpTy(x, sc'[i][n].at) == Pointer(IrOf(sc'[i][n].ty))
    {
      if i < |sc| - 1 || n != id {
        assert n in sc[i] && sc'[i][n] == sc[i][n];
      }
    }
  }

  lemma LevelTyped(x: Typing, sc: Names)
    requires ScopeTyped(x, sc)
    ensures ScopeTyped(x, sc + [map[]])
  {
    var sc': Names := sc + [map[]];
    forall i: int, id: Id | 0 <= i < |sc'| && id in sc'[i]
      ensures OpTy(x, sc'[i][id].at) == Pointer(IrOf(sc'[i][id].ty))
    {
      assert id in sc[i] && sc'[i][id] == sc[i][id];
    }
  }

  /** New variables are at addresses of their types. */
  lemma {:induction false} DeclsTypes(x: Typing, sc: Names, decls: seq<Decl>, s: Emit)
    requires s.cur in s.blocks && sc != []
    ensures var (r, sc1) := CompDecls(sc, decls, s);
            && Moves(x, s, r, true) && r.cur in r.blocks
            && (Follows(x, r.blocks) && ScopeTyped(x, sc) ==> ScopeTyped(x, sc1))
  {
    hide Once, Follows, Fitting, ScopeTyped, Push, InstrOk;
    StayMoves(x, s);
    if decls != [] {
      var d := decls[|decls| - 1];
      DeclsTypes(x, sc, decls[..|decls| - 1], s);
      var (s1, sc1) := CompDecls(sc, decls[..|decls| - 1], s);
      PutMoves(x, s1, Alloca(d.ty), []);
      AllocaFits(x, d.ty);
      if ScopeTyped(x, sc1) && OpTy(x, R(s1.regs)) == Pointer(IrOf(d.ty)) {
        PushTyped(x, sc1, d.id, d.ty, R(s1.regs));
      }
    }
  }

  lemma AllocaFits(x: Typing, ty: Ty)
    ensures InstrOk(x, Alloca(ty), [])
  {
    NoTys(x);
  }

  /** The first registers hold the parameters. */
  ghost predicate ParamTyped(x: Typing, params: seq<Decl>) {
    forall k {:trigger params[k]} :: 0 <= k < |params| ==> x.reg(k) == IrOf(params[k].ty)
  }

  lemma {:induction false} ParamsTypes(x: Typing, sc: Names, params: seq<Decl>, s: Emit)
    requires s.cur in s.blocks && sc != []
    ensures var (r, sc1) := CompParams(sc, params, s);
            && Typed(x, ParamTyped(x, params), s, r, true) && r.cur in r.blocks
            && (Follows(x, r.blocks) && ScopeTyped(x, sc) ==> ScopeTyped(x, sc1))
  {
    hide Once, Follows, Fitting, ScopeTyped, Push, InstrOk;
    StayMoves(x, s);
    if params != [] {
      var init, d := params[..|params| - 1], params[|params| - 1];
      ParamsTypes(x, sc, init, s);
      assert ParamTyped(x, params) ==> ParamTyped(x, init) && x.reg(|params| - 1) == IrOf(d.ty) by {
        assert forall k {:trigger init[k]} :: 0 <= k < |init| ==> init[k] == params[k];
      }
      var (s1, sc1) := CompParams(sc, init, s);
      var s2 := s1.Put(Alloca(d.ty), []);
      PutMoves(x, s1, Alloca(d.ty), []);
      AllocaFits(x, d.ty);
      PutMoves(x, s2, Store(d.ty), [R(|params| - 1), R(s1.regs)]);
      InstrTwo(x, Store(d.ty), R(|params| - 1), R(s1.regs));
      if ScopeTyped(x, sc1) && OpTy(x, R(s1.regs)) == Pointer(IrOf(d.ty)) {
        PushTyped(x, sc1, d.id, d.ty, R(s1.regs));
      }
    }
  }

  // ----- statements -----

  lemma TestTypes(x: Typing, s: Emit, ty: Ty, v: Operand, yes: Label, no: Label)
    requires s.cur in s.blocks && s.IsOpen() && Scalar(ty)
    ensures Typed(x, OpTy(x, v) == IrOf(ty), s, CompTest(s, ty, v, yes, no), true)
  {
    hide Once, Follows, Fitting, InstrOk;
    var op, zero := Compare(ty == IntT, Ne), if ty == IntT then Const(0) else ConstF(FLOAT_ZERO);
    PutMoves(x, s, op, [v, zero]);
    InstrTwo(x, op, v, zero);
    EndMoves(x, s.Put(op, [v, zero]), CondBr(R(s.regs), yes, no));
  }

  lemma IfHeadTypes(x: Typing, s: Emit, ty: Ty, v: Operand, hasElse: bool)
    requires Sane(s) && s.IsOpen() && Scalar(ty)
    ensures Typed(x, OpTy(x, v) == IrOf(ty), s, CompIfHead(s, ty, v, hasElse), true)
  {
    InSane(s);
    hide Sane, Once, Follows, Fitting, CompTest;
    var a := s.NewBlock();
    var b := a.NewBlock();
    var c := b.NewBlock();
    NewMoves(x, s);
    NewMoves(x, a);
    NewMoves(x, b);
    var no := if hasElse then s.labels + 1 else s.labels + 2;
    TestTypes(x, c, ty, v, s.labels, no);
    MoveMoves(x, CompTest(c, ty, v, s.labels, no), s.labels);
  }

  lemma LoopHeadTypes(x: Typing, s: Emit, ty: Ty, v: Operand)
    requires Sane(s) && s.IsOpen() && Scalar(ty)
    ensures Typed(x, OpTy(x, v) == IrOf(ty), s, CompLoopHead(s, ty, v), true)
  {
    InSane(s);
    hide Sane, Once, Follows, Fitting, CompTest;
    var a := s.NewBlock();
    var b := a.NewBlock();
    NewMoves(x, s);
    NewMoves(x, a);
    TestTypes(x, b, ty, v, s.labels, s.labels + 1);
    MoveMoves(x, CompTest(b, ty, v, s.labels, s.labels + 1), s.labels);
  }

  ghost predicate StmtTyped(x: Typing, sc: Names, s: Emit, r: Emit, ok: bool) {
    Typed(x, ScopeTyped(x, sc), s, r, ok)
  }

  /** The code of a statement gets what it takes exactly if the statement's types are right. */
  lemma {:induction false} StmtTypes(x: Typing, sc: Names, st: Stmt, s: Emit)
    requires Emits(sc, s) && sc != [] && SigOk(x.sig) && StmtOk(x.sig, TysOf(sc), st)
    ensures StmtTyped(x, sc, s, CompStmt(x.sig, sc, st, s), StmtFits(x.sig, TysOf(sc), st))
    decreases st, 1
  {
    hide Emits, Sane, SigOk, Once, Follows, Fitting, ScopeTyped, CompExpr, CompConvert, CompDecls, Grows, Bound, TysOf,
      DeclareTys;
    StayMoves(x, s);
    EmitsHere(sc, s);
    match st {
      case ExprS(None) =>
      case ExprS(Some(e)) => ExprTypes(x, sc, e, s);
      case If(_, _, _) => IfTypes(x, sc, st, s);
      case While(_, _) => WhileTypes(x, sc, st, s);
      case Return(None) => EndMoves(x, s, Ret(None));
      case Return(Some(e)) =>
        var ty := TypeOf(x.sig, TysOf(sc), e);
        ExprTypes(x, sc, e, s);
        ExprReady(x.sig, sc, e, s);
        var (s1, v) := CompExpr(x.sig, sc, e, s);
        ConvertTypes(x, s1, ty, x.sig.ret, v);
        ConvertGrows(s1, ty, x.sig.ret, v);
        var (s2, v') := CompConvert(s1, ty, x.sig.ret, v);
        GrowsSane(s1, s2);
        InSane(s2);
        EndMoves(x, s2, Ret(Some(v')));
      case Block(decls, body) =>
        BlockEmits(sc, decls, s);
        DeclsTypes(x, sc + [map[]], decls, s);
        var (s1, sc1) := CompDecls(sc + [map[]], decls, s);
        B.DeclTys(sc, decls, s);
        StmtsTypes(x, sc1, body, s1);
        if ScopeTyped(x, sc) {
          LevelTyped(x, sc);
        }
    }
  }

  lemma {:induction false} IfTypes(x: Typing, sc: Names, st: Stmt, s: Emit)
    requires Emits(sc, s) && sc != [] && SigOk(x.sig) && StmtOk(x.sig, TysOf(sc), st) && st.If?
    ensures StmtTyped(x, sc, s, CompStmt(x.sig, sc, st, s), StmtFits(x.sig, TysOf(sc), st))
    decreases st, 0
  {
    hide Emits, Sane, SigOk, Once, Follows, Fitting, ScopeTyped, CompExpr, CompStmt, CompIfHead, Grows, TysOf, IfMid,
      Unused, Emit.JumpIfOpen, Emit.IsOpen, Bound;
    IfEmits(x.sig, sc, st, s);
    B.CompIfIs(x.sig, sc, st, s);
    ExprTypes(x, sc, st.c, s);
    ExprReady(x.sig, sc, st.c, s);
    var (s1, v) := CompExpr(x.sig, sc, st.c, s);
    var f, k, ty := s1.labels + 1, s1.labels + 2, TypeOf(x.sig, TysOf(sc), st.c);
    IfHeadTypes(x, s1, ty, v, st.no.Some?);
    IfHeadShape(s1, ty, v, st.no.Some?);
    var h := CompIfHead(s1, ty, v, st.no.Some?);
    StmtTypes(x, sc, st.yes, h);
    GrowsFrom(x.sig, sc, st.yes, h);
    var b := CompStmt(x.sig, sc, st.yes, h);
    InSane(b);
    JumpMoves(x, b, k);
    if st.no.None? {
      WaitsEmpty(s1, h, b, k, f, {f, k});
      EraseMoves(x, b.JumpIfOpen(k), f);
      MoveMoves(x, b.JumpIfOpen(k).Erase(f), k);
    } else {
      MoveMoves(x, b.JumpIfOpen(k), f);
      var h2 := b.JumpIfOpen(k).MoveTo(f);
      StmtTypes(x, sc, st.no.value, h2);
      GrowsFrom(x.sig, sc, st.no.value, h2);
      var b2 := CompStmt(x.sig, sc, st.no.value, h2);
      InSane(b2);
      JumpMoves(x, b2, k);
      MoveMoves(x, b2.JumpIfOpen(k), k);
    }
  }

  lemma WaitsEmpty(s: Emit, a: Emit, b: Emit, l: Label, f: Label, ls: set<Label>)
    requires IfMid(s, a, ls) && Grows(a, b) && f in ls
    ensures var r := b.JumpIfOpen(l); f in r.blocks && r.blocks[f] == BB([], Open)
  {
    MidGrows(s, a, b, ls);
  }

  lemma {:induction false} WhileTypes(x: Typing, sc: Names, st: Stmt, s: Emit)
    requires Emits(sc, s) && sc != [] && SigOk(x.sig) && StmtOk(x.sig, TysOf(sc), st) && st.While?
    ensures StmtTyped(x, sc, s, CompStmt(x.sig, sc, st, s), StmtFits(x.sig, TysOf(sc), st))
    decreases st, 0
  {
    hide Emits, Sane, SigOk, Once, Follows, Fitting, ScopeTyped, CompExpr, CompStmt, CompLoopHead, Grows, TysOf,
      Emit.JumpIfOpen, Emit.NewBlock, Emit.IsOpen, Bound;
    LoopEmits(x.sig, sc, st, s);
    B.CompLoopIs(x.sig, sc, st, s);
    EmitsHere(sc, s);
    StartTypes(x, s);
    var l := s.labels;
    var s0 := s.NewBlock().JumpIfOpen(l).MoveTo(l);
    ExprTypes(x, sc, st.c, s0);
    ExprReady(x.sig, sc, st.c, s0);
    var (s1, v) := CompExpr(x.sig, sc, st.c, s0);
    var ty := TypeOf(x.sig, TysOf(sc), st.c);
    LoopHeadTypes(x, s1, ty, v);
    var h := CompLoopHead(s1, ty, v);
    StmtTypes(x, sc, st.loop, h);
    GrowsFrom(x.sig, sc, st.loop, h);
    var b := CompStmt(x.sig, sc, st.loop, h);
    InSane(b);
    JumpMoves(x, b, l);
    MoveMoves(x, b.JumpIfOpen(l), s1.labels + 1);
  }

  lemma StartTypes(x: Typing, s: Emit)
    requires Sane(s)
    ensures Moves(x, s, s.NewBlock().JumpIfOpen(s.labels).MoveTo(s.labels), true)
  {
    InSane(s);
    hide Sane, Once, Follows, Fitting;
    NewMoves(x, s);
    JumpMoves(x, s.NewBlock(), s.labels);
    MoveMoves(x, s.NewBlock().JumpIfOpen(s.labels), s.labels);
  }

  lemma {:induction false} StmtsTypes(x: Typing, sc: Names, ss: Stmts, s: Emit)
    requires Emits(sc, s) && sc != [] && SigOk(x.sig) && StmtsOk(x.sig, TysOf(sc), ss)
    ensures StmtTyped(x, sc, s, CompStmts(x.sig, sc, ss, s), StmtsFit(x.sig, TysOf(sc), ss))
    decreases ss, 0
  {
    hide Emits, Sane, SigOk, Once, Follows, Fitting, ScopeTyped, CompStmt, TysOf;
    StayMoves(x, s);
    if ss.Then? {
      StmtTypes(x, sc, ss.head, s);
      StmtCloses(x.sig, sc, ss.head, s);
      StmtEmits(x.sig, sc, ss.head, s);
      var s1 := CompStmt(x.sig, sc, ss.head, s);
      if s1.IsOpen() {
        StmtsTypes(x, sc, ss.tail, s1);
      }
    }
  }

  // ----- functions -----

  lemma EmptyTyped(x: Typing)
    ensures Once(x, EmptyFun(x.params)) && Fitting(x, EmptyFun(x.params).blocks)
  {
  }

  lemma FunTypes(x: Typing, globals: Names, fd: FunDecl)
    requires ScopeBound(globals, 0) && SigOk(x.sig) && FunOk(x.sig, TysOf(globals), fd) && x.params == |fd.params|
    ensures var r := CompFun(x.sig, globals, fd);
            && Once(x, r)
            && (Follows(x, r.blocks) && ScopeTyped(x, globals) && ParamTyped(x, fd.params) ==>
                  (Fitting(x, r.blocks) <==> FunFits(x.sig, TysOf(globals), fd)))
  {
    hide ScopeBound, Sane, SigOk, Once, Follows, Fitting, ScopeTyped, CompStmts, CompDecls, CompParams, Grows, TysOf,
      DeclareTys, StmtsFit, StmtsOk, Emit.IsOpen, EmptyFun;
    var s0, sc := EmptyFun(|fd.params|), globals + [map[]];
    EmptyTyped(x);
    B.FunParts(x.sig, globals, fd);
    B.NewLevel(globals);
    InSane(s0);
    ParamsTypes(x, sc, fd.params, s0);
    var (s1, sc1) := CompParams(sc, fd.params, s0);
    DeclsTypes(x, sc1, fd.decls, s1);
    var (s2, sc2) := CompDecls(sc1, fd.decls, s1);
    BodyEmits(x.sig, globals, fd);
    StmtsTypes(x, sc2, fd.body, s2);
    var s3 := CompStmts(x.sig, sc2, fd.body, s2);
    GrowsSane(s2, s3);
    InSane(s3);
    if ScopeTyped(x, globals) {
      LevelTyped(x, globals);
    }
    if s3.IsOpen() {
      DefaultFits(x);
      EndMoves(x, s3, DefaultRet(x.sig.ret));
    }
  }

  lemma BodyEmits(sig: Sig, globals: Names, fd: FunDecl)
    requires ScopeBound(globals, 0)
    ensures var (s1, sc1) := CompParams(globals + [map[]], fd.params, EmptyFun(|fd.params|));
            var (s2, sc2) := CompDecls(sc1, fd.decls, s1);
            Emits(sc2, s2)
  {
    BoundMore(globals, 0, |fd.params|);
    LevelBound(globals, |fd.params|);
    var s0, sc := EmptyFun(|fd.params|), globals + [map[]];
    hide ScopeBound, Sane, CompDecls, CompParams, Grows;
    B.FunParts(sig, globals, fd);
    B.ParamsGrow(sc, fd.params, s0);
    var (s1, sc1) := CompParams(sc, fd.params, s0);
    GrowsSane(s0, s1);
    DeclsEmits(sc1, fd.decls, s1);
  }

  /** The type of the register: what its instruction gives, or the parameter's. */
  ghost function RegTy(sig: Sig, params: seq<Decl>, s: Emit, r: Reg): IrTy {
    if exists l, i :: Place(s, l, i) && s.blocks[l].instrs[i].dst == r then
      var l, i :| Place(s, l, i) && s.blocks[l].instrs[i].dst == r;
      ResultTy(sig, s.blocks[l].instrs[i].op)
    else if r < |params| then IrOf(params[r].ty)
    else Unit
  }

  ghost function TypingOf(sig: Sig, params: seq<Decl>, s: Emit, global: Val -> IrTy): Typing {
    Typing(sig, |params|, (r: Reg) => RegTy(sig, params, s, r), global)
  }

  lemma TypingFollows(sig: Sig, params: seq<Decl>, s: Emit, global: Val -> IrTy)
    requires Once(TypingOf(sig, params, s, global), s)
    ensures Follows(TypingOf(sig, params, s, global), s.blocks)
    ensures ParamTyped(TypingOf(sig, params, s, global), params)
  {
    hide ResultTy;
    var x := TypingOf(sig, params, s, global);
    forall l, i | l in s.blocks && 0 <= i < |s.blocks[l].instrs|
      ensures x.reg(s.blocks[l].instrs[i].dst) == ResultTy(sig, s.blocks[l].instrs[i].op)
    {
      assert Place(s, l, i);
    }
  }

  /** The types of a whole function are right for some types of its registers. */
  ghost predicate TypedBy(x: Typing, params: seq<Decl>, bs: Blocks) {
    ParamTyped(x, params) && Follows(x, bs) && Fitting(x, bs)
  }

  ghost predicate WellTyped(sig: Sig, global: Val -> IrTy, params: seq<Decl>, bs: Blocks) {
    exists reg: Reg -> IrTy :: TypedBy(Typing(sig, |params|, reg, global), params, bs)
  }

  /** Global variables' addresses are pointers to their types. */
  ghost predicate GlobalsTyped(global: Val -> IrTy, globals: Names) {
    forall i: int, id: Id {:trigger globals[i][id]} :: 0 <= i < |globals| && id in globals[i] ==>
      globals[i][id].at.Global? && global(globals[i][id].at.a) == Pointer(IrOf(globals[i][id].ty))
  }

  /** The code of a function is well-typed exactly if its calls and returns are. */
  lemma WellTypedWhen(sig: Sig, global: Val -> IrTy, globals: Names, fd: FunDecl)
    requires ScopeBound(globals, 0) && SigOk(sig) && FunOk(sig, TysOf(globals), fd) && GlobalsTyped(global, globals)
    ensures WellTyped(sig, global, fd.params, CompFun(sig, globals, fd).blocks) <==> FunFits(sig, TysOf(globals), fd)
  {
    var r := CompFun(sig, globals, fd);
    forall reg: Reg -> IrTy
      ensures ScopeTyped(Typing(sig, |fd.params|, reg, global), globals)
    {
    }
    hide ScopeBound, SigOk, FunOk, CompFun, ScopeTyped, Once, Follows, Fitting, ParamTyped, FunFits, GlobalsTyped,
      TysOf;
    if WellTyped(sig, global, fd.params, r.blocks) {
      var reg: Reg -> IrTy :| TypedBy(Typing(sig, |fd.params|, reg, global), fd.params, r.blocks);
      FunTypes(Typing(sig, |fd.params|, reg, global), globals, fd);
    }
    if FunFits(sig, TysOf(globals), fd) {
      var x := TypingOf(sig, fd.params, r, global);
      FunTypes(x, globals, fd);
      TypingFollows(sig, fd.params, r, global);
      assert TypedBy(x, fd.params, r.blocks);
    }
  }

  /** For all types of the globals that are as declared. */
  ghost predicate TypesDecided(sig: Sig, globals: Names, fd: FunDecl, bs: Blocks) {
    SigOk(sig) ==>
      forall global: Val -> IrTy {:trigger GlobalsTyped(global, globals)} :: GlobalsTyped(global, globals) ==>
      (WellTyped(sig, global, fd.params, bs) <==> FunFits(sig, TysOf(globals), fd))
  }

  lemma FunTypesDecided(sig: Sig, globals: Names, fd: FunDecl)
    requires ScopeBound(globals, 0) && FunOk(sig, TysOf(globals), fd)
    ensures TypesDecided(sig, globals, fd, CompFun(sig, globals, fd).blocks)
  {
    hide CompFun, FunFits, WellTyped, GlobalsTyped, SigOk, TysOf;
    forall global: Val -> IrTy | SigOk(sig) && GlobalsTyped(global, globals)
      ensures WellTyped(sig, global, fd.params, CompFun(sig, globals, fd).blocks) <==> FunFits(sig, TysOf(globals), fd)
    {
      WellTypedWhen(sig, global, globals, fd);
    }
  }

  // ----- two functions whose code is not well-typed -----

  /** `return;` in a function that is to return a number. */
  lemma BareReturn(sig: Sig, global: Val -> IrTy)
    requires SigOk(sig) && sig.ret != VoidT
    ensures var fd := FunDecl([], [], Then(Return(None), Done));
            FunOk(sig, [], fd) && !WellTyped(sig, global, [], CompFun(sig, [], fd).blocks)
  {
    var fd := FunDecl([], [], Then(Return(None), Done));
    assert FunOk(sig, [], fd) && !FunFits(sig, [], fd);
    hide CompFun, FunFits, WellTyped, FunOk;
    WellTypedWhen(sig, global, [], fd);
  }

  lemma OneParam(id: Id, ty: Ty)
    ensures DeclareTys(DeclareTys([] + [map[]], [Decl(id, ty)]), []) == [map[id := ty]]
  {
    var none: Types := [map[]];
    var d := [Decl(id, ty)];
    assert [] + [map[]] == none && d[..0] == [] && none[..0] == [];
    assert DeclareTys(none, d[..0]) == none;
  }

  lemma OneExpr(sig: Sig, tys: Types, e: Expr)
    ensures StmtsOk(sig, tys, Then(ExprS(Some(e)), Done)) <==> ExprOk(sig, tys, e)
    ensures StmtsFit(sig, tys, Then(ExprS(Some(e)), Done)) <==> ExprFits(sig, tys, e)
  {
    hide ExprOk, ExprFits;
  }

  lemma PointerCall(sig: Sig, tys: Types, g: Id, a: Id)
    requires g in sig.funs && sig.funs[g].params == [PtrT(true)] && FindTy(tys, a) == Some(PtrT(false))
    ensures var e := Call(g, Arg(NoArgs, Var(a, None))); ExprOk(sig, tys, e) && !ExprFits(sig, tys, e)
  {
    var params := sig.funs[g].params;
    assert params[..0] == [] && params[|params| - 1] == PtrT(true);
    assert TypeOf(sig, tys, Var(a, None)) == PtrT(false);
    assert ArgsOk(sig, tys, [], NoArgs) && ExprOk(sig, tys, Var(a, None));
  }

  /** An int array passed where a float array is expected: pointers are never converted. */
  lemma WrongPointer(sig: Sig, global: Val -> IrTy, g: Id)
    requires SigOk(sig) && g in sig.funs && sig.funs[g].params == [PtrT(true)]
    ensures var fd := FunDecl([Decl("a", PtrT(false))], [],
                Then(ExprS(Some(Call(g, Arg(NoArgs, Var("a", None))))), Done));
            FunOk(sig, [], fd) && !WellTyped(sig, global, fd.params, CompFun(sig, [], fd).blocks)
  {
    hide CompFun, WellTyped, DeclareTys, StmtsOk, StmtsFit, ExprOk, ExprFits;
    var e, a := Call(g, Arg(NoArgs, Var("a", None))), "a";
    var fd := FunDecl([Decl(a, PtrT(false))], [], Then(ExprS(Some(e)), Done));
    OneParam(a, PtrT(false));
    OneExpr(sig, [map[a := PtrT(false)]], e);
    PointerCall(sig, [map[a := PtrT(false)]], g, a);
    WellTypedWhen(sig, global, [], fd);
  }
}
