/** The code the builder emits, as a function of the syntax tree. */
module BuilderSpec {
  import opened Cfg
  import opened Cminus
  import opened BlockCode

  type Names = Scopes<Operand>

  function DefaultRet(ret: Ty): Term {
    Ret(if ret == VoidT then None else Some(if ret == FloatT then ConstF(FLOAT_ZERO) else Const(0)))
  }

  function CompConvert(s: Emit, from: Ty, to: Ty, a: Operand): (Emit, Operand) {
    if from == to || from.PtrT? then (s, a)
    else (s.Put(if from == IntT then SiToFp else FpToSi, [a]), R(s.regs))
  }

  function CompOperate(s: Emit, op: BinOp, lt: Ty, rt: Ty, l: Operand, r: Operand): (Emit, Operand) {
    var common := if lt == rt then lt else FloatT;
    var (s1, l') := CompConvert(s, lt, common, l);
    var (s2, r') := CompConvert(s1, rt, common, r);
    match op
    case ArithOp(a) => (s2.Put(Compute(common == IntT, a), [l', r']), R(s2.regs))
    case RelOp(c) =>
      var s3 := s2.Put(Compare(common == IntT, c), [l', r']);
      (s3.Put(Zext, [R(s2.regs)]), R(s3.regs))
  }

  /** Branch away to a block that reports a negative index, and go on in a new block. */
  function CompGuard(s: Emit, ret: Ty, n: Operand): Emit {
    var bad, ok := s.labels, s.labels + 1;
    var s1 := s.NewBlock().NewBlock().Put(Compare(true, Lt), [n, Const(0)]).Terminate(CondBr(R(s.regs), bad, ok));
    s1.MoveTo(bad).Put(CallF(NEG_IDX_EXCEPT), []).Terminate(DefaultRet(ret)).MoveTo(ok)
  }

  function CompElem(x: Entry<Operand>, n: Operand, s: Emit): (Emit, Operand) {
    if x.ty.PtrT? then
      var s1 := s.Put(Load(x.ty), [x.at]);
      (s1.Put(Elem(x.ty), [R(s.regs), n]), R(s1.regs))
    else
      (s.Put(Elem(x.ty), [x.at, n]), R(s.regs))
  }

  function CompExpr(sig: Sig, sc: Names, e: Expr, s: Emit): (Emit, Operand)
    decreases e
  {
    match e
    case NumI(n) => (s, Const(n))
    case NumF(x) => (s, ConstF(x))
    case Var(id, idx) =>
      (match Find(sc, id)
       case None => (s, Const(0))
       case Some(x) =>
         if idx.None? && x.ty.ArrT? then (s.Put(Elem(x.ty), [x.at, Const(0)]), R(s.regs))
         else
           var (s1, p) := CompAddress(sig, sc, x, idx, s);
           (s1.Put(Load(VarTy(x.ty, idx.Some?)), [p]), R(s1.regs)))
    case Assign(id, idx, rhs) =>
      var (s1, v) := CompExpr(sig, sc, rhs, s);
      (match Find(sc, id)
       case None => (s1, Const(0))
       case Some(x) =>
         var (s2, p) := CompAddress(sig, sc, x, idx, s1);
         var (s3, v') := CompConvert(s2, TypeOf(sig, TysOf(sc), rhs), VarTy(x.ty, idx.Some?), v);
         (s3.Put(Store(VarTy(x.ty, idx.Some?)), [v', p]), v'))
    case Bin(op, l, r) =>
      var (s1, a) := CompExpr(sig, sc, l, s);
      var (s2, b) := CompExpr(sig, sc, r, s1);
      CompOperate(s2, op, TypeOf(sig, TysOf(sc), l), TypeOf(sig, TysOf(sc), r), a, b)
    case Call(id, args) =>
      if id !in sig.funs then (s, Const(0))
      else
        var (s1, os) := CompArgs(sig, sc, sig.funs[id].params, args, s);
        (s1.Put(CallF(id), os), R(s1.regs))
  }

  function CompAddress(sig: Sig, sc: Names, x: Entry<Operand>, idx: Option<Expr>, s: Emit): (Emit, Operand)
    decreases idx
  {
    match idx
    case None => (s, x.at)
    case Some(i) =>
      var (s1, n) := CompExpr(sig, sc, i, s);
      var (s2, n') := CompConvert(s1, TypeOf(sig, TysOf(sc), i), IntT, n);
      CompElem(x, n', CompGuard(s2, sig.ret, n'))
  }

  function CompArgs(sig: Sig, sc: Names, params: seq<Ty>, args: Args, s: Emit): (Emit, seq<Operand>)
    decreases args
  {
    match args
    case NoArgs => (s, [])
    case Arg(init, last) =>
      if params == [] then (s, [])
      else
        var (s1, os) := CompArgs(sig, sc, params[..|params| - 1], init, s);
        var (s2, o) := CompExpr(sig, sc, last, s1);
        var (s3, o') := CompConvert(s2, TypeOf(sig, TysOf(sc), last), params[|params| - 1], o);
        (s3, os + [o'])
  }

  // ----- statements -----

  function CompDecls(sc: Names, decls: seq<Decl>, s: Emit): (r: (Emit, Names))
    requires sc != []
    ensures |r.1| == |sc|
  {
    if decls == [] then (s, sc)
    else
      var (s1, sc1) := CompDecls(sc, decls[..|decls| - 1], s);
      var d := decls[|decls| - 1];
      (s1.Put(Alloca(d.ty), []), Push(sc1, d.id, Entry(d.ty, R(s1.regs))))
  }

  /** The test of a condition, and a branch on it. */
  function CompTest(s: Emit, ty: Ty, v: Operand, yes: Label, no: Label): Emit {
    s.Put(Compare(ty == IntT, Ne),
      [v, if ty == IntT then Const(0) else ConstF(FLOAT_ZERO)]).Terminate(CondBr(R(s.regs), yes, no))
  }

  /** After the condition of an `if`: three new blocks, the branch, and on to the first. */
  function CompIfHead(s: Emit, ty: Ty, v: Operand, hasElse: bool): Emit {
    var no := if hasElse then s.labels + 1 else s.labels + 2;
    CompTest(s.NewBlock().NewBlock().NewBlock(), ty, v, s.labels, no).MoveTo(s.labels)
  }

  /** After the condition of a `while`: two new blocks, the branch, and on to the first. */
  function CompLoopHead(s: Emit, ty: Ty, v: Operand): Emit {
    CompTest(s.NewBlock().NewBlock(), ty, v, s.labels, s.labels + 1).MoveTo(s.labels)
  }

  function CompStmt(sig: Sig, sc: Names, st: Stmt, s: Emit): Emit
    decreases st
  {
    match st
    case ExprS(None) => s
    case ExprS(Some(e)) => CompExpr(sig, sc, e, s).0
    case If(c, yes, no) =>
      var (s1, v) := CompExpr(sig, sc, c, s);
      var k := s1.labels + 2;
      var s2 := CompStmt(sig, sc, yes, CompIfHead(s1, TypeOf(sig, TysOf(sc), c), v, no.Some?)).JumpIfOpen(k);
      var s3 := match no
        case None => s2.Erase(s1.labels + 1)
        case Some(other) => CompStmt(sig, sc, other, s2.MoveTo(s1.labels + 1)).JumpIfOpen(k);
      s3.MoveTo(k)
    case While(c, loop) =>
      var h := s.labels;
      var (s1, v) := CompExpr(sig, sc, c, s.NewBlock().JumpIfOpen(h).MoveTo(h));
      CompStmt(sig, sc, loop, CompLoopHead(s1, TypeOf(sig, TysOf(sc), c), v)).JumpIfOpen(h).MoveTo(s1.labels + 1)
    case Return(None) => s.Terminate(Ret(None))
    case Return(Some(e)) =>
      var (s1, v) := CompExpr(sig, sc, e, s);
      var (s2, v') := CompConvert(s1, TypeOf(sig, TysOf(sc), e), sig.ret, v);
      s2.Terminate(Ret(Some(v')))
    case Block(decls, body) =>
      var (s1, sc1) := CompDecls(sc + [map[]], decls, s);
      CompStmts(sig, sc1, body, s1)
  }

  /** What follows a statement that leaves the block closed is not translated. */
  function CompStmts(sig: Sig, sc: Names, ss: Stmts, s: Emit): Emit
    decreases ss
  {
    match ss
    case Done => s
    case Then(head, tail) =>
      var s1 := CompStmt(sig, sc, head, s);
      if s1.IsOpen() then CompStmts(sig, sc, tail, s1) else s1
  }

  // ----- functions -----

  /** The arguments are in the first registers; each goes into a variable of its own. */
  function CompParams(sc: Names, params: seq<Decl>, s: Emit): (r: (Emit, Names))
    requires sc != []
    ensures |r.1| == |sc|
  {
    if params == [] then (s, sc)
    else
      var (s1, sc1) := CompParams(sc, params[..|params| - 1], s);
      var d := params[|params| - 1];
      (s1.Put(Alloca(d.ty), []).Put(Store(d.ty), [R(|params| - 1), R(s1.regs)]),
        Push(sc1, d.id, Entry(d.ty, R(s1.regs))))
  }

  function EmptyFun(n: nat): Emit {
    Emit(map[0 := BB([], Open)], 0, n, 1)
  }

  function CompFun(sig: Sig, globals: Names, fd: FunDecl): Emit {
    var (s1, sc1) := CompParams(globals + [map[]], fd.params, EmptyFun(|fd.params|));
    var (s2, sc2) := CompDecls(sc1, fd.decls, s1);
    var s3 := CompStmts(sig, sc2, fd.body, s2);
    if s3.IsOpen() then s3.Terminate(DefaultRet(sig.ret)) else s3
  }
}
