/** The builder: one visit per syntax tree node, with the value just computed, the wanted kind of value
    and the insert point in fields. */
module AstBuilder {
  import opened Cfg
  import opened Cminus
  import opened BlockCode
  import opened BuilderSpec
  import opened BuilderGrowth
  import opened BuilderProof
  import opened BuilderStmtProof
  import opened IndexSafety
  import opened BuilderStmtTypes

  class Builder {
    const sig: Sig
    var blocks: Blocks
    var insertPoint: Label
    var nextReg: nat
    var nextLabel: nat
    var tmpVal: Operand
    var tmpTy: Ty // the type of tmpVal; for an address, of what it points to
    var requireLvalue: bool
    var scope: Names
    var preEnterScope: bool

    constructor (sig: Sig, globals: Names)
      ensures this.sig == sig && scope == globals && !requireLvalue && !preEnterScope
    {
      this.sig := sig;
      blocks, insertPoint, nextReg, nextLabel := map[], 0, 0, 0;
      tmpVal, tmpTy, requireLvalue, scope, preEnterScope := Const(0), VoidT, false, globals, false;
    }

    ghost function Now(): Emit
      reads this`blocks, this`insertPoint, this`nextReg, this`nextLabel
    {
      Emit(blocks, insertPoint, nextReg, nextLabel)
    }

    /** Code may be added to the current block. */
    ghost predicate Emitting()
      reads this`blocks, this`insertPoint, this`nextReg, this`nextLabel, this`scope
    {
      Emits(scope, Now())
    }

    /** What holds between statements, where the current block may be closed. */
    ghost predicate Steady()
      reads this`blocks, this`insertPoint, this`nextReg, this`nextLabel, this`scope
    {
      Sane(Now()) && ScopeBound(scope, nextReg)
    }

    lemma EmittingOpen()
      requires Emitting()
      ensures Current().term == Open && Steady()
    {
      hide Sane, ScopeBound;
    }

    // ----- the IR builder: instructions and terminators are only added to open blocks -----

    function Current(): BB
      reads this`blocks, this`insertPoint
    {
      if insertPoint in blocks then blocks[insertPoint] else BB([], Open)
    }

    method Create(op: Op, args: seq<Operand>) returns (r: Operand)
      requires Current().term == Open
      modifies this`blocks, this`nextReg
      ensures Current().term == Open
      ensures Now() == old(Now()).Put(op, args) && r == R(old(nextReg))
    {
      blocks := blocks[insertPoint := Current().(instrs := Current().instrs + [Instr(nextReg, op, args)])];
      r := R(nextReg);
      nextReg := nextReg + 1;
    }

    method CreateBlock() returns (l: Label)
      modifies this`blocks, this`nextLabel
      ensures Now() == old(Now()).NewBlock() && l == old(nextLabel) && nextLabel == l + 1
      ensures old(Current().term) == Open ==> Current().term == Open
    {
      l := nextLabel;
      blocks := blocks[l := BB([], Open)];
      nextLabel := nextLabel + 1;
    }

    method CreateTerminator(t: Term)
      requires Current().term == Open && t != Open
      modifies this`blocks
      ensures Now() == old(Now()).Terminate(t)
    {
      blocks := blocks[insertPoint := Current().(term := t)];
    }

    method BranchIfOpen(l: Label)
      modifies this`blocks
      ensures Now() == old(Now()).JumpIfOpen(l)
    {
      if Current().term == Open {
        CreateTerminator(Br(l));
      }
    }

    // ----- expressions -----

    /** Brings a value to the wanted type. */
    method Converted(from: Ty, to: Ty, a: Operand) returns (r: Operand)
      requires Current().term == Open
      modifies this`blocks, this`nextReg
      ensures Current().term == Open
      ensures (Now(), r) == CompConvert(old(Now()), from, to, a)
    {
      if from == to || from.PtrT? {
        return a;
      }
      r := Create(if from == IntT then SiToFp else FpToSi, [a]);
    }

    method VisitExpr(e: Expr)
      requires Emitting() && !requireLvalue && ExprOk(sig, TysOf(scope), e)
      modifies this`blocks, this`insertPoint, this`nextReg, this`nextLabel, this`tmpVal, this`tmpTy, this`requireLvalue
      ensures Emitting()
      ensures !requireLvalue && (Now(), tmpVal) == CompExpr(sig, scope, e, old(Now()))
      ensures tmpTy == TypeOf(sig, TysOf(scope), e)
      decreases e, 2
    {
      hide Emits;
      ExprEmits(sig, scope, e, Now());
      match e {
        case NumI(n) => tmpVal, tmpTy := Const(n), IntT;
        case NumF(x) => tmpVal, tmpTy := ConstF(x), FloatT;
        case Var(id, idx) =>
          FindTys(scope, id);
          VisitVar(id, idx, e);
        case Assign(id, idx, rhs) => VisitAssign(e);
        case Bin(op, l, r) => VisitBin(e);
        case Call(id, args) => VisitCall(e);
      }
    }

    lemma ConvertSane(s: Emit, from: Ty, to: Ty, a: Operand)
      requires Sane(s) && s.IsOpen()
      ensures Sane(CompConvert(s, from, to, a).0)
    {
      hide Sane;
      PutGrows(s, if from == IntT then SiToFp else FpToSi, [a]);
      GrowsSane(s, s.Put(if from == IntT then SiToFp else FpToSi, [a]));
    }

    /** A variable or an array element: its address or its value, as required. */
    method VisitVar(id: Id, idx: Option<Expr>, ghost e: Expr)
      requires Emitting() && IndexOk(sig, TysOf(scope), idx) && Find(scope, id).Some? && idx < e
      modifies this`blocks, this`insertPoint, this`nextReg, this`nextLabel, this`tmpVal, this`tmpTy, this`requireLvalue
      ensures Emitting()
      ensures !requireLvalue && tmpTy == VarTy(Find(scope, id).value.ty, idx.Some?)
      ensures if old(requireLvalue)
        then (Now(), tmpVal) == CompAddress(sig, scope, Find(scope, id).value, idx, old(Now()))
              else (Now(), tmpVal) == CompExpr(sig, scope, Var(id, idx), old(Now()))
      decreases e, 0
    {
      hide CompConvert, CompGuard, Emit.Put, TypeOf, TysOf, ExprOk, Emits;
      var x := Find(scope, id).value;
      EmittingOpen();
      AddressEmits(sig, scope, id, idx, Now());
      ExprEmits(sig, scope, Var(id, idx), Now());
      var shouldReturnLvalue := requireLvalue;
      requireLvalue := false;
      if idx.None? {
        if shouldReturnLvalue {
          tmpVal := x.at;
        } else if x.ty.ArrT? {
          tmpVal := Create(Elem(x.ty), [x.at, Const(0)]);
        } else {
          tmpVal := Create(Load(x.ty), [x.at]);
        }
        tmpTy := VarTy(x.ty, false);
        return;
      }
      VisitExpr(idx.value);
      EmittingOpen();
      ghost var s1 := Now();
      var n := Converted(tmpTy, IntT, tmpVal);
      ConvertSane(s1, tmpTy, IntT, tmpVal);
      GuardIndex(n);
      if x.ty.PtrT? {
        var base := Create(Load(x.ty), [x.at]);
        tmpVal := Create(Elem(x.ty), [base, n]);
      } else {
        tmpVal := Create(Elem(x.ty), [x.at, n]);
      }
      tmpTy := ElemTy(x.ty);
      if !shouldReturnLvalue {
        tmpVal := Create(Load(tmpTy), [tmpVal]);
      }
    }

    /** A negative index leads to a block that reports it and returns. */
    method GuardIndex(n: Operand)
      requires insertPoint < nextLabel && Current().term == Open
      modifies this`blocks, this`insertPoint, this`nextReg, this`nextLabel
      ensures Current().term == Open
      ensures Now() == CompGuard(old(Now()), sig.ret, n)
    {
      hide Emit.NewBlock;
      var exceptBB, contBB := BranchIfNegative(n);
      insertPoint := exceptBB;
      var unit := Create(CallF(NEG_IDX_EXCEPT), []);
      CreateTerminator(DefaultRet(sig.ret));
      insertPoint := contBB;
    }

    method BranchIfNegative(n: Operand) returns (exceptBB: Label, contBB: Label)
      requires insertPoint < nextLabel && Current().term == Open
      modifies this`blocks, this`nextReg, this`nextLabel
      ensures exceptBB == old(nextLabel) && contBB == exceptBB + 1 && exceptBB in blocks && contBB in blocks
      ensures blocks[exceptBB] == BB([], Open) && blocks[contBB] == BB([], Open)
      ensures var s := old(Now());
              var compared := s.NewBlock().NewBlock().Put(Compare(true, Lt), [n, Const(0)]);
              Now() == compared.Terminate(CondBr(R(s.regs), exceptBB, contBB))
    {
      exceptBB := CreateBlock();
      contBB := CreateBlock();
      var isNeg := Create(Compare(true, Lt), [n, Const(0)]);
      CreateTerminator(CondBr(isNeg, exceptBB, contBB));
    }

    /** The right-hand side first, then the address. */
    method VisitAssign(e: Expr)
      requires Emitting() && !requireLvalue && e.Assign? && ExprOk(sig, TysOf(scope), e)
      modifies this`blocks, this`insertPoint, this`nextReg, this`nextLabel, this`tmpVal, this`tmpTy, this`requireLvalue
      ensures Emitting()
      ensures !requireLvalue && (Now(), tmpVal) == CompExpr(sig, scope, e, old(Now()))
      ensures tmpTy == TypeOf(sig, TysOf(scope), e)
      decreases e, 1
    {
      hide CompAddress, CompConvert, Emit.Put, Emits;
      ExprEmits(sig, scope, e, Now());
      FindTys(scope, e.id);
      VisitExpr(e.rhs);
      var result, ty := tmpVal, tmpTy;
      requireLvalue := true;
      VisitVar(e.id, e.idx, e);
      EmittingOpen();
      var addr, pointee := tmpVal, tmpTy;
      result := Converted(ty, pointee, result);
      var unit := Create(Store(pointee), [result, addr]);
      tmpVal := result;
    }

    method VisitBin(e: Expr)
      requires Emitting() && !requireLvalue && e.Bin? && ExprOk(sig, TysOf(scope), e)
      modifies this`blocks, this`insertPoint, this`nextReg, this`nextLabel, this`tmpVal, this`tmpTy, this`requireLvalue
      ensures Emitting()
      ensures !requireLvalue && (Now(), tmpVal) == CompExpr(sig, scope, e, old(Now()))
      ensures tmpTy == TypeOf(sig, TysOf(scope), e)
      decreases e, 0
    {
      hide Emit.Put, Emits;
      ExprEmits(sig, scope, e, Now());
      VisitExpr(e.l);
      var l, lt := tmpVal, tmpTy;
      VisitExpr(e.r);
      EmittingOpen();
      var r, rt := tmpVal, tmpTy;
      var isInt;
      l, r, isInt := Promote(l, lt, r, rt);
      match e.op {
        case ArithOp(a) =>
          tmpVal := Create(Compute(isInt, a), [l, r]);
          tmpTy := if isInt then IntT else FloatT;
        case RelOp(c) =>
          var cmp := Create(Compare(isInt, c), [l, r]);
          tmpVal := Create(Zext, [cmp]);
          tmpTy := IntT;
      }
    }

    /** An int meets a float: it becomes one. */
    method Promote(l: Operand, lt: Ty, r: Operand, rt: Ty) returns (l': Operand, r': Operand, isInt: bool)
      requires Scalar(lt) && Scalar(rt) && Current().term == Open
      modifies this`blocks, this`nextReg
      ensures Current().term == Open
      ensures var common := if lt == rt then lt else FloatT; var (s1, a) := CompConvert(old(Now()), lt, common, l);
              var (s2, b) := CompConvert(s1, rt, common, r);
              Now() == s2 && l' == a && r' == b && isInt == (common == IntT)
    {
      l', r' := l, r;
      if lt == rt {
        isInt := lt == IntT;
      } else {
        isInt := false;
        if lt == IntT {
          l' := Create(SiToFp, [l]);
        } else {
          r' := Create(SiToFp, [r]);
        }
      }
    }

    method VisitCall(e: Expr)
      requires Emitting() && !requireLvalue && e.Call? && ExprOk(sig, TysOf(scope), e)
      modifies this`blocks, this`insertPoint, this`nextReg, this`nextLabel, this`tmpVal, this`tmpTy, this`requireLvalue
      ensures Emitting()
      ensures !requireLvalue && (Now(), tmpVal) == CompExpr(sig, scope, e, old(Now()))
      ensures tmpTy == TypeOf(sig, TysOf(scope), e)
      decreases e, 0
    {
      hide Emits;
      ExprEmits(sig, scope, e, Now());
      var args := VisitArgs(sig.funs[e.id].params, e.args);
      EmittingOpen();
      tmpVal := Create(CallF(e.id), args);
      tmpTy := sig.funs[e.id].ret;
    }

    method VisitArgs(params: seq<Ty>, args: Args) returns (os: seq<Operand>)
      requires Emitting() && !requireLvalue && ArgsOk(sig, TysOf(scope), params, args)
      modifies this`blocks, this`insertPoint, this`nextReg, this`nextLabel, this`tmpVal, this`tmpTy, this`requireLvalue
      ensures Emitting()
      ensures !requireLvalue && (Now(), os) == CompArgs(sig, scope, params, args, old(Now()))
      decreases args, 0
    {
      hide Emits;
      ArgsEmits(sig, scope, params, args, Now());
      match args {
        case NoArgs => os := [];
        case Arg(init, last) =>
          os := VisitArgs(params[..|params| - 1], init);
          VisitExpr(last);
          EmittingOpen();
          var o := Converted(tmpTy, params[|params| - 1], tmpVal);
          os := os + [o];
      }
    }

    // ----- statements -----

    lemma StmtSteady(sc: Names, st: Stmt)
      requires Emits(sc, Now()) && sc != []
      ensures var r := CompStmt(sig, sc, st, Now()); Sane(r) && ScopeBound(sc, r.regs)
    {
      StmtGrows(sig, sc, st, Now());
      EmitsAfter(sc, Now(), CompStmt(sig, sc, st, Now()));
    }

    lemma SteadyOpen()
      requires Steady() && Current().term == Open
      ensures Emitting()
    {
      hide Sane, ScopeBound;
    }

    lemma LevelEmits(sc: Names, s: Emit)
      requires Emits(sc, s)
      ensures Emits(sc + [map[]], s)
    {
      LevelBound(sc, s.regs);
    }

    /** The test that a condition is not zero, and the branch. */
    method BranchOn(ty: Ty, v: Operand, yes: Label, no: Label)
      requires Current().term == Open
      modifies this`blocks, this`nextReg
      ensures Now() == CompTest(old(Now()), ty, v, yes, no)
    {
      var cond := Create(Compare(ty == IntT, Ne), [v, if ty == IntT then Const(0) else ConstF(FLOAT_ZERO)]);
      CreateTerminator(CondBr(cond, yes, no));
    }

    method VisitDecls(decls: seq<Decl>)
      requires scope != [] && Current().term == Open
      modifies this`blocks, this`nextReg, this`scope
      ensures Current().term == Open
      ensures (Now(), scope) == CompDecls(old(scope), decls, old(Now()))
    {
      for k := 0 to |decls|
        invariant scope != [] && Current().term == Open
        invariant (Now(), scope) == CompDecls(old(scope), decls[..k], old(Now()))
      {
        assert decls[..k + 1][..k] == decls[..k];
        var a := Create(Alloca(decls[k].ty), []);
        scope := Push(scope, decls[k].id, Entry(decls[k].ty, a));
      }
      assert decls[..|decls|] == decls;
    }

    method VisitStmt(st: Stmt)
      requires Emitting() && !requireLvalue && !preEnterScope && scope != [] && StmtOk(sig, TysOf(scope), st)
      modifies this
      ensures Steady()
      ensures !requireLvalue && !preEnterScope && scope == old(scope) && Now() == CompStmt(sig, scope, st, old(Now()))
      decreases st, 1
    {
      hide Emits, Sane, ScopeBound;
      StmtSteady(scope, st);
      EmittingOpen();
      match st {
        case ExprS(None) =>
        case ExprS(Some(e)) => VisitExpr(e);
        case If(c, yes, no) => VisitIf(st);
        case While(c, loop) => VisitWhile(st);
        case Return(None) => CreateTerminator(Ret(None));
        case Return(Some(e)) =>
          VisitExpr(e);
          EmittingOpen();
          var v := Converted(tmpTy, sig.ret, tmpVal);
          CreateTerminator(Ret(Some(v)));
        case Block(decls, body) => VisitCompound(decls, body);
      }
    }

    method VisitIf(st: Stmt)
      requires Emitting() && !requireLvalue && !preEnterScope && scope != [] && st.If? && StmtOk(sig, TysOf(scope), st)
      modifies this
      ensures !requireLvalue && !preEnterScope && scope == old(scope) && Now() == CompStmt(sig, scope, st, old(Now()))
      decreases st, 0
    {
      hide CompStmt, CompExpr, CompIfHead, Emit.JumpIfOpen, TypeOf, ExprOk, TysOf, Scalar, Emits, Steady;
      CompIfIs(sig, scope, st, Now());
      IfEmits(sig, scope, st, Now());
      VisitExpr(st.c);
      EmittingOpen();
      var falseBB, contBB := StartIf(tmpTy, tmpVal, st.no.Some?);
      VisitStmt(st.yes);
      BranchIfOpen(contBB);
      if st.no.None? {
        blocks := blocks - {falseBB};
      } else {
        insertPoint := falseBB;
        VisitStmt(st.no.value);
        BranchIfOpen(contBB);
      }
      insertPoint := contBB;
    }

    /** The three blocks of an `if`, and the branch; the insert point is the first one. */
    method StartIf(ty: Ty, v: Operand, hasElse: bool) returns (falseBB: Label, contBB: Label)
      requires Current().term == Open
      modifies this`blocks, this`insertPoint, this`nextReg, this`nextLabel
      ensures Now() == CompIfHead(old(Now()), ty, v, hasElse) && falseBB == old(nextLabel) + 1
      ensures contBB == old(nextLabel) + 2
    {
      hide CompTest, Emit.NewBlock;
      var trueBB := CreateBlock();
      falseBB := CreateBlock();
      contBB := CreateBlock();
      BranchOn(ty, v, trueBB, if hasElse then falseBB else contBB);
      insertPoint := trueBB;
    }

    method VisitWhile(st: Stmt)
      requires Emitting() && !requireLvalue && !preEnterScope && scope != [] && st.While?
      requires StmtOk(sig, TysOf(scope), st)
      modifies this
      ensures !requireLvalue && !preEnterScope && scope == old(scope) && Now() == CompStmt(sig, scope, st, old(Now()))
      decreases st, 0
    {
      hide CompStmt, CompExpr, CompLoopHead, Emit.JumpIfOpen, Emit.NewBlock, TypeOf, ExprOk, TysOf, Scalar, Emits,
        Steady;
      CompLoopIs(sig, scope, st, Now());
      LoopEmits(sig, scope, st, Now());
      var exprBB := CreateBlock();
      BranchIfOpen(exprBB);
      insertPoint := exprBB;
      VisitExpr(st.c);
      EmittingOpen();
      var contBB := StartLoop(tmpTy, tmpVal);
      VisitStmt(st.loop);
      BranchIfOpen(exprBB);
      insertPoint := contBB;
    }

    /** The two blocks after the condition of a `while`, and the branch; the insert point is the first. */
    method StartLoop(ty: Ty, v: Operand) returns (contBB: Label)
      requires Current().term == Open
      modifies this`blocks, this`insertPoint, this`nextReg, this`nextLabel
      ensures Now() == CompLoopHead(old(Now()), ty, v) && contBB == old(nextLabel) + 1
    {
      hide CompTest, Emit.NewBlock;
      var trueBB := CreateBlock();
      contBB := CreateBlock();
      BranchOn(ty, v, trueBB, contBB);
      insertPoint := trueBB;
    }

    /** A compound statement has a scope of its own, except for the body of a function. */
    method VisitCompound(decls: seq<Decl>, body: Stmts)
      requires Emitting() && !requireLvalue && scope != []
      requires StmtsOk(sig, DeclareTys(if preEnterScope then TysOf(scope) else TysOf(scope) + [map[]], decls), body)
      modifies this
      ensures !requireLvalue && !preEnterScope
      ensures scope == if old(preEnterScope) then CompDecls(old(scope), decls, old(Now())).1 else old(scope)
      ensures var sc0 := if old(preEnterScope) then old(scope) else old(scope) + [map[]];
              var (s1, sc1) := CompDecls(sc0, decls, old(Now())); Now() == CompStmts(sig, sc1, body, s1)
      decreases body, 1
    {
      hide CompStmts, CompDecls, StmtsOk, DeclareTys, TysOf, Emits;
      EmittingOpen();
      LevelEmits(scope, Now());
      var needExitScope := !preEnterScope;
      NewLevel(scope);
      if preEnterScope {
        preEnterScope := false;
      } else {
        scope := scope + [map[]];
      }
      DeclsTyped(scope, decls, Now());
      DeclsEmits(scope, decls, Now());
      ghost var sc0 := scope;
      VisitDecls(decls);
      ghost var sc1 := scope;
      VisitStmts(body);
      if needExitScope {
        DeclsInside(sc0, decls, old(Now()));
        scope := scope[..|scope| - 1];
      }
    }

    /** Declarations only change the innermost scope. */
    lemma DeclsInside(sc: Names, decls: seq<Decl>, s: Emit)
      requires sc != []
      ensures var sc1 := CompDecls(sc, decls, s).1; |sc1| == |sc| && sc1[..|sc| - 1] == sc[..|sc| - 1]
    {
      if decls != [] {
        DeclsInside(sc, decls[..|decls| - 1], s);
      }
    }

    lemma ParamsInside(sc: Names, params: seq<Decl>, s: Emit)
      requires sc != []
      ensures var sc1 := CompParams(sc, params, s).1; |sc1| == |sc| && sc1[..|sc| - 1] == sc[..|sc| - 1]
    {
      if params != [] {
        ParamsInside(sc, params[..|params| - 1], s);
      }
    }

    /** Statements one after the other, up to one that closes the block. */
    method VisitStmts(ss: Stmts)
      requires Emitting() && !requireLvalue && !preEnterScope && scope != [] && StmtsOk(sig, TysOf(scope), ss)
      modifies this
      ensures !requireLvalue && !preEnterScope && scope == old(scope) && Now() == CompStmts(sig, scope, ss, old(Now()))
      decreases ss, 0
    {
      hide Emits;
      if ss.Then? {
        VisitStmt(ss.head);
        if Current().term != Open {
          return;
        }
        SteadyOpen();
        VisitStmts(ss.tail);
      }
    }

    /** Every argument goes into a variable. */
    method VisitParams(params: seq<Decl>)
      requires scope != [] && Current().term == Open
      modifies this`blocks, this`nextReg, this`scope
      ensures Current().term == Open
      ensures (Now(), scope) == CompParams(old(scope), params, old(Now()))
    {
      for k := 0 to |params|
        invariant scope != [] && Current().term == Open
        invariant (Now(), scope) == CompParams(old(scope), params[..k], old(Now()))
      {
        assert params[..k + 1][..k] == params[..k];
        var alloc := Create(Alloca(params[k].ty), []);
        var unit := Create(Store(params[k].ty), [R(k), alloc]);
        scope := Push(scope, params[k].id, Entry(params[k].ty, alloc));
      }
      assert params[..|params|] == params;
    }

    /** The code of a whole function. */
    method EmitFunction(fd: FunDecl)
      requires !requireLvalue && !preEnterScope && ScopeBound(scope, 0) && FunOk(sig, TysOf(scope), fd)
      modifies this
      ensures !requireLvalue && !preEnterScope && scope == old(scope) && Now() == CompFun(sig, scope, fd)
    {
      hide CompStmts, CompDecls, CompParams, ScopeBound, FunOk, StmtsOk, DeclareTys, Emit.Put, Emits;
      ghost var globals := scope;
      blocks, nextReg, nextLabel := map[], |fd.params|, 0;
      var funBB := CreateBlock();
      insertPoint := funBB;
      assert Now() == EmptyFun(|fd.params|);
      FunTyped(sig, globals, fd);
      FunEmits(globals, fd);
      scope := scope + [map[]];
      preEnterScope := true;
      VisitParams(fd.params);
      VisitCompound(fd.decls, fd.body);
      if Current().term == Open {
        CreateTerminator(DefaultRet(sig.ret));
      }
      scope := scope[..|scope| - 1];
    }

    /** A whole function: its blocks are all closed, branches lead to blocks that exist, it does what the
        source says, and it is well-typed exactly if the source's calls and returns are. */
    method VisitFunDeclaration(fd: FunDecl)
      requires !requireLvalue && !preEnterScope && ScopeBound(scope, 0) && FunOk(sig, TysOf(scope), fd)
      modifies this
      ensures !requireLvalue && !preEnterScope && scope == old(scope) && Now() == CompFun(sig, scope, fd)
      ensures TargetsIn(blocks) && forall l {:trigger blocks[l]} :: l in blocks ==> blocks[l].term != Open
      ensures Correct(sig, scope, fd, blocks) && NeverNegativeIndex(blocks) && TypesDecided(sig, scope, fd, blocks)
    {
      hide CompFun, TargetsIn, Correct, NeverNegativeIndex, TypesDecided, ScopeBound, FunOk;
      FunDone(sig, scope, fd);
      EmitFunction(fd);
    }

    lemma FunEmits(globals: Names, fd: FunDecl)
      requires ScopeBound(globals, 0)
      ensures var (s1, sc1) := CompParams(globals + [map[]], fd.params, EmptyFun(|fd.params|)); Emits(sc1, s1)
    {
      BoundMore(globals, 0, |fd.params|);
      LevelBound(globals, |fd.params|);
      ParamsGrow(globals + [map[]], fd.params, EmptyFun(|fd.params|));
      hide Sane, ScopeBound;
      GrowsSane(EmptyFun(|fd.params|), CompParams(globals + [map[]], fd.params, EmptyFun(|fd.params|)).0);
    }

    lemma FunTyped(sig: Sig, globals: Names, fd: FunDecl)
      requires ScopeBound(globals, 0) && FunOk(sig, TysOf(globals), fd)
      ensures var (s1, sc1) := CompParams(globals + [map[]], fd.params, EmptyFun(|fd.params|));
              StmtsOk(sig, DeclareTys(TysOf(sc1), fd.decls), fd.body)
                && CompDecls(sc1, fd.decls, s1).1[..|globals|] == globals
    {
      NewLevel(globals);
      BoundMore(globals, 0, |fd.params|);
      LevelBound(globals, |fd.params|);
      ParamsGrow(globals + [map[]], fd.params, EmptyFun(|fd.params|));
      var (s1, sc1) := CompParams(globals + [map[]], fd.params, EmptyFun(|fd.params|));
      ParamsInside(globals + [map[]], fd.params, EmptyFun(|fd.params|));
      DeclsInside(sc1, fd.decls, s1);
    }
  }

  /** For every meaning of the operations, the code halts with a result exactly if the call returns it. */
  ghost predicate Correct(sig: Sig, globals: Names, fd: FunDecl, p: Blocks) {
    forall sem: Sem, genv: Scopes<Val>, args: seq<Val>, w: World, v: Option<Val>, w': World ::
      Related(globals, genv, map[]) && |args| == |fd.params| ==>
        (Reaches(sem, p, At(0, 0, ArgRegs(args), w), Halted(v, w')) <==>
           exists fuel :: CallFun(sem, sig, fuel, genv, fd, args, w) == Some((v, w')))
  }

  lemma FunDone(sig: Sig, globals: Names, fd: FunDecl)
    requires ScopeBound(globals, 0) && FunOk(sig, TysOf(globals), fd)
    ensures var p := CompFun(sig, globals, fd).blocks;
            && TargetsIn(p) && (forall l {:trigger p[l]} :: l in p ==> p[l].term != Open)
            && Correct(sig, globals, fd, p) && NeverNegativeIndex(p) && TypesDecided(sig, globals, fd, p)
  {
    hide CompFun, FunOk, TargetsIn, Correct, NeverNegativeIndex, TypesDecided, ScopeBound;
    FunClosed(sig, globals, fd);
    CorrectCode(sig, globals, fd);
    IndicesNotNegative(sig, globals, fd);
    FunTypesDecided(sig, globals, fd);
  }

  lemma CorrectCode(sig: Sig, globals: Names, fd: FunDecl)
    requires ScopeBound(globals, 0) && FunOk(sig, TysOf(globals), fd)
    ensures Correct(sig, globals, fd, CompFun(sig, globals, fd).blocks)
  {
    hide Reaches, CallFun, Related, CompFun;
    forall sem: Sem, genv: Scopes<Val>, args: seq<Val>, w: World, v: Option<Val>, w': World
      | Related(globals, genv, map[]) && |args| == |fd.params|
      ensures Reaches(sem, CompFun(sig, globals, fd).blocks, At(0, 0, ArgRegs(args), w), Halted(v, w')) <==>
                exists fuel :: CallFun(sem, sig, fuel, genv, fd, args, w) == Some((v, w'))
    {
      TranslationPreservesMeaning(sem, sig, globals, genv, fd, args, w, v, w');
    }
  }
}
