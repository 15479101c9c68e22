/** The types of the emitted code. What an instruction takes and gives is read off its operation; the code of
    a function is well-typed exactly if its calls and returns are. */
module BuilderTypes {
  import opened Cfg
  import opened Cminus
  import opened BlockCode
  import opened BuilderSpec
  import opened BuilderGrowth

  // ----- types of the target -----

  datatype IrTy = I1 | I32 | F32 | Unit | Array(of: IrTy) | Pointer(to: IrTy)

  function Num(f: bool): IrTy {
    if f then F32 else I32
  }

  function IrOf(ty: Ty): IrTy {
    match ty
    case IntT => I32
    case FloatT => F32
    case VoidT => Unit
    case PtrT(f) => Pointer(Num(f))
    case ArrT(f) => Array(Num(f))
  }

  /** What an operation takes. */
  function ArgTys(sig: Sig, op: Op): seq<IrTy> {
    match op
    case Alloca(_) => []
    case Load(ty) => [Pointer(IrOf(ty))]
    case Store(ty) => [IrOf(ty), Pointer(IrOf(ty))]
    case Elem(base) => [if base.PtrT? then IrOf(base) else Pointer(IrOf(base)), I32]
    case Compute(isInt, _) => [Num(!isInt), Num(!isInt)]
    case Compare(isInt, _) => [Num(!isInt), Num(!isInt)]
    case Zext => [I1]
    case SiToFp => [I32]
    case FpToSi => [F32]
    case CallF(f) => if f in sig.funs then ParamTys(sig.funs[f].params) else []
  }

  function ParamTys(params: seq<Ty>): seq<IrTy> {
    seq(|params|, i requires 0 <= i < |params| => IrOf(params[i]))
  }

  /** What it gives. */
  function ResultTy(sig: Sig, op: Op): IrTy {
    match op
    case Alloca(ty) => Pointer(IrOf(ty))
    case Load(ty) => IrOf(ty)
    case Store(_) => Unit
    case Elem(base) => Pointer(if base.PtrT? || base.ArrT? then Num(base.f) else IrOf(base))
    case Compute(isInt, _) => Num(!isInt)
    case Compare(_, _) => I1
    case Zext => I32
    case SiToFp => F32
    case FpToSi => I32
    case CallF(f) => if f in sig.funs then IrOf(sig.funs[f].ret) else Unit
  }

  /** Types of the registers, of which the first few hold the parameters, and of the global variables'
      addresses. */
  datatype Typing = Typing(sig: Sig, params: nat, reg: Reg -> IrTy, global: Val -> IrTy)

  function OpTy(x: Typing, o: Operand): IrTy {
    match o
    case Const(_) => I32
    case ConstF(_) => F32
    case Global(a) => x.global(a)
    case R(r) => x.reg(r)
  }

  function OpTys(x: Typing, os: seq<Operand>): seq<IrTy> {
    seq(|os|, i requires 0 <= i < |os| => OpTy(x, os[i]))
  }

  predicate InstrOk(x: Typing, op: Op, args: seq<Operand>) {
    OpTys(x, args) == ArgTys(x.sig, op)
  }

  predicate TermOk(x: Typing, t: Term) {
    match t
    case CondBr(c, _, _) => OpTy(x, c) == I1
    case Ret(None) => x.sig.ret == VoidT
    case Ret(Some(o)) => x.sig.ret != VoidT && OpTy(x, o) == IrOf(x.sig.ret)
    case _ => true
  }

  /** Every register has the type of what its instruction gives. */
  ghost predicate Follows(x: Typing, bs: Blocks) {
    forall l, i {:trigger bs[l].instrs[i]} :: l in bs && 0 <= i < |bs[l].instrs| ==>
      x.reg(bs[l].instrs[i].dst) == ResultTy(x.sig, bs[l].instrs[i].op)
  }

  ghost predicate InstrsFit(x: Typing, bs: Blocks) {
    forall l, i {:trigger bs[l].instrs[i]} :: l in bs && 0 <= i < |bs[l].instrs| ==>
      InstrOk(x, bs[l].instrs[i].op, bs[l].instrs[i].args)
  }

  ghost predicate TermsFit(x: Typing, bs: Blocks) {
    forall l {:trigger bs[l]} :: l in bs ==> TermOk(x, bs[l].term)
  }

  /** Every instruction and every terminator gets what it takes. */
  ghost predicate Fitting(x: Typing, bs: Blocks) {
    InstrsFit(x, bs) && TermsFit(x, bs)
  }

  predicate Place(s: Emit, l: Label, i: int) {
    l in s.blocks && 0 <= i < |s.blocks[l].instrs|
  }

  /** No register is assigned in two places, and none that holds a parameter. */
  ghost predicate Once(x: Typing, s: Emit) {
    && x.params <= s.regs
    && (forall l, i {:trigger Place(s, l, i)} :: Place(s, l, i) ==> x.params <= s.blocks[l].instrs[i].dst < s.regs)
    && (forall l, i, m, j {:trigger Place(s, l, i), Place(s, m, j)} ::
          Place(s, l, i) && Place(s, m, j) && s.blocks[l].instrs[i].dst == s.blocks[m].instrs[j].dst ==>
            l == m && i == j)
  }

  lemma NoTys(x: Typing)
    ensures OpTys(x, []) == []
  {
  }

  lemma OneTy(x: Typing, a: Operand)
    ensures OpTys(x, [a]) == [OpTy(x, a)]
  {
  }

  lemma TwoTys(x: Typing, a: Operand, b: Operand)
    ensures OpTys(x, [a, b]) == [OpTy(x, a), OpTy(x, b)]
  {
  }

  // ----- one step of the emission -----

  /** From s to r comes only code that gets what it takes exactly if ok. */
  ghost predicate Moves(x: Typing, s: Emit, r: Emit, ok: bool) {
    && (Once(x, s) ==> Once(x, r))
    && (Follows(x, r.blocks) ==>
          Follows(x, s.blocks) && (Fitting(x, r.blocks) <==> Fitting(x, s.blocks) && ok))
  }

  lemma PutMoves(x: Typing, s: Emit, op: Op, args: seq<Operand>)
    requires s.cur in s.blocks
    ensures Moves(x, s, s.Put(op, args), InstrOk(x, op, args))
    ensures Follows(x, s.Put(op, args).blocks) ==> OpTy(x, R(s.regs)) == ResultTy(x.sig, op)
  {
    hide InstrOk, ResultTy;
    PutOnce(x, s, op, args);
    PutFollows(x, s, op, args);
    PutFits(x, s, op, args);
  }

  lemma PutPlace(s: Emit, op: Op, args: seq<Operand>, l: Label, i: int)
    requires s.cur in s.blocks && Place(s.Put(op, args), l, i)
    ensures if l == s.cur && i == |s.blocks[l].instrs| then s.Put(op, args).blocks[l].instrs[i].dst == s.regs
            else Place(s, l, i) && s.Put(op, args).blocks[l].instrs[i] == s.blocks[l].instrs[i]
  {
  }

  lemma PutOnce(x: Typing, s: Emit, op: Op, args: seq<Operand>)
    requires s.cur in s.blocks
    ensures Once(x, s) ==> Once(x, s.Put(op, args))
  {
    var r := s.Put(op, args);
    forall l, i | Place(r, l, i)
      ensures if l == s.cur && i == |s.blocks[l].instrs| then r.blocks[l].instrs[i].dst == s.regs
              else Place(s, l, i) && r.blocks[l].instrs[i] == s.blocks[l].instrs[i]
    {
      PutPlace(s, op, args, l, i);
    }
    assert r.regs == s.regs + 1;
    hide Emit.Put, Place;
  }

  lemma PutFollows(x: Typing, s: Emit, op: Op, args: seq<Operand>)
    requires s.cur in s.blocks
    ensures Follows(x, s.Put(op, args).blocks) <==> Follows(x, s.blocks) && x.reg(s.regs) == ResultTy(x.sig, op)
  {
    hide ResultTy;
    var r, here := s.Put(op, args), s.blocks[s.cur].instrs;
    assert r.blocks[s.cur].instrs == here + [Instr(s.regs, op, args)];
    assert r.blocks[s.cur].instrs[|here|] == Instr(s.regs, op, args);
    if Follows(x, r.blocks) {
      forall l, i | l in s.blocks && 0 <= i < |s.blocks[l].instrs|
        ensures x.reg(s.blocks[l].instrs[i].dst) == ResultTy(x.sig, s.blocks[l].instrs[i].op)
      {
        assert s.blocks[l].instrs[i] == r.blocks[l].instrs[i];
      }
    }
  }

  lemma PutFits(x: Typing, s: Emit, op: Op, args: seq<Operand>)
    requires s.cur in s.blocks
    ensures Fitting(x, s.Put(op, args).blocks) <==> Fitting(x, s.blocks) && InstrOk(x, op, args)
  {
    hide InstrOk, TermOk;
    PutInstrs(x, s, op, args);
    var r := s.Put(op, args);
    assert forall l :: l in r.blocks <==> l in s.blocks;
    assert forall l {:trigger r.blocks[l]} {:trigger s.blocks[l]} :: l in r.blocks ==>
      r.blocks[l].term == s.blocks[l].term;
  }

  lemma PutInstrs(x: Typing, s: Emit, op: Op, args: seq<Operand>)
    requires s.cur in s.blocks
    ensures InstrsFit(x, s.Put(op, args).blocks) <==> InstrsFit(x, s.blocks) && InstrOk(x, op, args)
  {
    hide InstrOk;
    var r, here := s.Put(op, args), s.blocks[s.cur].instrs;
    assert r.blocks[s.cur].instrs == here + [Instr(s.regs, op, args)];
    assert r.blocks[s.cur].instrs[|here|] == Instr(s.regs, op, args);
    if InstrsFit(x, r.blocks) {
      forall l, i | l in s.blocks && 0 <= i < |s.blocks[l].instrs|
        ensures InstrOk(x, s.blocks[l].instrs[i].op, s.blocks[l].instrs[i].args)
      {
        assert s.blocks[l].instrs[i] == r.blocks[l].instrs[i];
      }
    }
  }

  /** The same instructions; empty blocks may come and go. */
  ghost predicate SameCode(s: Emit, r: Emit) {
    && s.regs == r.regs
    && (forall l {:trigger s.blocks[l]} {:trigger r.blocks[l]} :: l in s.blocks && l in r.blocks ==>
          s.blocks[l].instrs == r.blocks[l].instrs)
    && (forall l {:trigger s.blocks[l]} :: l in s.blocks && l !in r.blocks ==> s.blocks[l] == BB([], Open))
    && (forall l {:trigger r.blocks[l]} :: l in r.blocks && l !in s.blocks ==> r.blocks[l] == BB([], Open))
  }

  lemma SameMoves(x: Typing, s: Emit, r: Emit, ok: bool)
    requires SameCode(s, r) && SameCode(r, s) && (TermsFit(x, r.blocks) <==> TermsFit(x, s.blocks) && ok)
    ensures Moves(x, s, r, ok)
  {
    SameOnce(x, s, r);
    SameFollows(x, s, r);
    SameFits(x, s, r);
    SameFits(x, r, s);
  }

  lemma SameOnce(x: Typing, s: Emit, r: Emit)
    requires SameCode(s, r)
    ensures Once(x, s) ==> Once(x, r)
  {
    assert forall l, i :: Place(r, l, i) ==> Place(s, l, i) && r.blocks[l].instrs[i] == s.blocks[l].instrs[i];
  }

  lemma SameFollows(x: Typing, s: Emit, r: Emit)
    requires SameCode(s, r)
    ensures Follows(x, r.blocks) ==> Follows(x, s.blocks)
  {
    hide ResultTy;
    if Follows(x, r.blocks) {
      forall l, i | l in s.blocks && 0 <= i < |s.blocks[l].instrs|
        ensures x.reg(s.blocks[l].instrs[i].dst) == ResultTy(x.sig, s.blocks[l].instrs[i].op)
      {
        assert r.blocks[l].instrs[i] == s.blocks[l].instrs[i];
      }
    }
  }

  lemma SameFits(x: Typing, s: Emit, r: Emit)
    requires SameCode(s, r)
    ensures InstrsFit(x, r.blocks) ==> InstrsFit(x, s.blocks)
  {
    hide InstrOk;
    if InstrsFit(x, r.blocks) {
      forall l, i | l in s.blocks && 0 <= i < |s.blocks[l].instrs|
        ensures InstrOk(x, s.blocks[l].instrs[i].op, s.blocks[l].instrs[i].args)
      {
        assert r.blocks[l].instrs[i] == s.blocks[l].instrs[i];
      }
    }
  }

  lemma NewMoves(x: Typing, s: Emit)
    requires s.labels !in s.blocks
    ensures Moves(x, s, s.NewBlock(), true)
  {
    var r := s.NewBlock();
    assert forall l {:trigger r.blocks[l]} {:trigger s.blocks[l]} :: l in s.blocks ==> r.blocks[l] == s.blocks[l];
    assert r.blocks[s.labels] == BB([], Open);
    SameMoves(x, s, r, true);
  }

  lemma EndMoves(x: Typing, s: Emit, t: Term)
    requires s.cur in s.blocks && s.IsOpen()
    ensures Moves(x, s, s.Terminate(t), TermOk(x, t))
  {
    var r := s.Terminate(t);
    assert r.blocks[s.cur] == s.blocks[s.cur].(term := t);
    assert forall l {:trigger r.blocks[l]} {:trigger s.blocks[l]} :: l in s.blocks && l != s.cur ==>
      r.blocks[l] == s.blocks[l];
    assert TermOk(x, Open);
    hide TermOk;
    SameMoves(x, s, r, TermOk(x, t));
  }

  lemma MoveMoves(x: Typing, s: Emit, l: Label)
    ensures Moves(x, s, s.MoveTo(l), true)
  {
    SameMoves(x, s, s.MoveTo(l), true);
  }

  lemma JumpMoves(x: Typing, s: Emit, l: Label)
    requires s.cur in s.blocks
    ensures Moves(x, s, s.JumpIfOpen(l), true)
  {
    if s.IsOpen() {
      EndMoves(x, s, Br(l));
    } else {
      SameMoves(x, s, s, true);
    }
  }

  lemma EraseMoves(x: Typing, s: Emit, f: Label)
    requires f in s.blocks && s.blocks[f] == BB([], Open)
    ensures Moves(x, s, s.Erase(f), true)
  {
    SameMoves(x, s, s.Erase(f), true);
  }

  lemma StayMoves(x: Typing, s: Emit)
    ensures Moves(x, s, s, true)
  {
  }

  // ----- expressions -----

  /** The same if h holds: the part that depends on what operands are. */
  ghost predicate Typed(x: Typing, h: bool, s: Emit, r: Emit, ok: bool) {
    && (Once(x, s) ==> Once(x, r))
    && (Follows(x, r.blocks) ==> Follows(x, s.blocks))
    && (h && Follows(x, r.blocks) ==> (Fitting(x, r.blocks) <==> Fitting(x, s.blocks) && ok))
  }

  /** What the library and the grammar give: the function that reports negative indices, and a return
      type that is no pointer and no array. */
  predicate SigOk(sig: Sig) {
    && NEG_IDX_EXCEPT in sig.funs && sig.funs[NEG_IDX_EXCEPT] == FunTy([], VoidT)
    && (Scalar(sig.ret) || sig.ret == VoidT)
  }

  /** Names stand for the addresses of variables of their types. */
  ghost predicate ScopeTyped(x: Typing, sc: Names) {
    forall i: int, id: Id {:trigger sc[i][id]} :: 0 <= i < |sc| && id in sc[i] ==>
      OpTy(x, sc[i][id].at) == Pointer(IrOf(sc[i][id].ty))
  }

  lemma {:induction false} FindTyped(x: Typing, sc: Names, id: Id)
    requires ScopeTyped(x, sc) && Find(sc, id).Some?
    ensures OpTy(x, Find(sc, id).value.at) == Pointer(IrOf(Find(sc, id).value.ty))
  {
    if id in sc[|sc| - 1] {
      assert OpTy(x, sc[|sc| - 1][id].at) == Pointer(IrOf(sc[|sc| - 1][id].ty));
    } else {
      var init := sc[..|sc| - 1];
      assert forall i :: 0 <= i < |init| ==> init[i] == sc[i];
      FindTyped(x, init, id);
    }
  }

  /** Pointers are passed where pointers to the same are expected; other arguments are converted. */
  predicate ExprFits(sig: Sig, tys: Types, e: Expr)
    decreases e
  {
    match e
    case NumI(_) => true
    case NumF(_) => true
    case Var(_, idx) => IndexFits(sig, tys, idx)
    case Assign(_, idx, rhs) => ExprFits(sig, tys, rhs) && IndexFits(sig, tys, idx)
    case Bin(_, l, r) => ExprFits(sig, tys, l) && ExprFits(sig, tys, r)
    case Call(id, args) => id in sig.funs && ArgsFit(sig, tys, sig.funs[id].params, args)
  }

  predicate IndexFits(sig: Sig, tys: Types, idx: Option<Expr>)
    decreases idx
  {
    match idx case None => true case Some(i) => ExprFits(sig, tys, i)
  }

  predicate ArgsFit(sig: Sig, tys: Types, params: seq<Ty>, args: Args)
    decreases args
  {
    match args
    case NoArgs => true
    case Arg(init, last) =>
      && params != [] && ArgsFit(sig, tys, params[..|params| - 1], init) && ExprFits(sig, tys, last)
      && (TypeOf(sig, tys, last).PtrT? ==> params[|params| - 1] == TypeOf(sig, tys, last))
  }

  lemma InstrOne(x: Typing, op: Op, a: Operand)
    ensures InstrOk(x, op, [a]) <==> ArgTys(x.sig, op) == [OpTy(x, a)]
  {
    OneTy(x, a);
  }

  lemma InstrTwo(x: Typing, op: Op, a: Operand, b: Operand)
    ensures InstrOk(x, op, [a, b]) <==> ArgTys(x.sig, op) == [OpTy(x, a), OpTy(x, b)]
  {
    TwoTys(x, a, b);
  }

  lemma InSane(s: Emit)
    requires Sane(s)
    ensures s.cur in s.blocks && forall l {:trigger l in s.blocks} :: l in s.blocks ==> l < s.labels
  {
  }

  lemma ConvertTypes(x: Typing, s: Emit, from: Ty, to: Ty, a: Operand)
    requires Sane(s) && s.IsOpen() && (from.PtrT? || (Scalar(from) && Scalar(to)))
    ensures var (r, o) := CompConvert(s, from, to, a);
            && Typed(x, OpTy(x, a) == IrOf(from), s, r, true)
            && (Follows(x, r.blocks) && OpTy(x, a) == IrOf(from) ==>
                 OpTy(x, o) == IrOf(if from.PtrT? then from else to))
  {
    InSane(s);
    hide Sane, Emit.Put, Once, Follows, Fitting, InstrOk;
    StayMoves(x, s);
    var op := if from == IntT then SiToFp else FpToSi;
    PutMoves(x, s, op, [a]);
    InstrOne(x, op, a);
  }

  lemma OperateTypes(x: Typing, s: Emit, op: BinOp, lt: Ty, rt: Ty, l: Operand, r: Operand)
    requires Sane(s) && s.IsOpen() && Bound(l, s.regs) && Bound(r, s.regs) && Scalar(lt) && Scalar(rt)
    ensures var (z, o) := CompOperate(s, op, lt, rt, l, r); var h := OpTy(x, l) == IrOf(lt) && OpTy(x, r) == IrOf(rt);
            && Typed(x, h, s, z, true)
            && (h && Follows(x, z.blocks) ==>
                  OpTy(x, o) == if op.RelOp? then I32 else IrOf(if lt == rt then lt else FloatT))
  {
    hide Grows, Sane, CompConvert, Emit.Put, Once, Follows, Fitting, InstrOk, Bound;
    var common := if lt == rt then lt else FloatT;
    ConvertGrows(s, lt, common, l);
    ConvertTypes(x, s, lt, common, l);
    var (s1, l') := CompConvert(s, lt, common, l);
    GrowsSane(s, s1);
    BoundLater(r, s.regs, s1.regs);
    ConvertGrows(s1, rt, common, r);
    ConvertTypes(x, s1, rt, common, r);
    var (s2, r') := CompConvert(s1, rt, common, r);
    GrowsSane(s1, s2);
    match op {
      case ArithOp(a) =>
        PutMoves(x, s2, Compute(common == IntT, a), [l', r']);
        InstrTwo(x, Compute(common == IntT, a), l', r');
      case RelOp(c) =>
        var s3 := s2.Put(Compare(common == IntT, c), [l', r']);
        PutMoves(x, s2, Compare(common == IntT, c), [l', r']);
        InstrTwo(x, Compare(common == IntT, c), l', r');
        PutGrows(s2, Compare(common == IntT, c), [l', r']);
        GrowsSane(s2, s3);
        PutMoves(x, s3, Zext, [R(s2.regs)]);
        InstrOne(x, Zext, R(s2.regs));
    }
  }

  lemma DefaultFits(x: Typing)
    requires SigOk(x.sig)
    ensures TermOk(x, DefaultRet(x.sig.ret))
  {
  }

  /** The test of an index, and the branch. */
  lemma GuardFirst(x: Typing, s: Emit, n: Operand)
    requires Sane(s) && s.IsOpen()
    ensures var compared := s.NewBlock().NewBlock().Put(Compare(true, Lt), [n, Const(0)]);
            Typed(x, OpTy(x, n) == I32, s, compared.Terminate(CondBr(R(s.regs), s.labels, s.labels + 1)), true)
  {
    InSane(s);
    hide Sane, Once, Follows, Fitting, InstrOk;
    var a := s.NewBlock();
    var b := a.NewBlock();
    var c := b.Put(Compare(true, Lt), [n, Const(0)]);
    NewMoves(x, s);
    NewMoves(x, a);
    PutMoves(x, b, Compare(true, Lt), [n, Const(0)]);
    InstrTwo(x, Compare(true, Lt), n, Const(0));
    EndMoves(x, c, CondBr(R(s.regs), s.labels, s.labels + 1));
  }

  /** The report of a negative index, in block l. */
  lemma GuardReport(x: Typing, d: Emit, l: Label, next: Label)
    requires l in d.blocks && d.blocks[l].term == Open && SigOk(x.sig)
    ensures Moves(x, d, d.MoveTo(l).Put(CallF(NEG_IDX_EXCEPT), []).Terminate(DefaultRet(x.sig.ret)).MoveTo(next), true)
  {
    DefaultFits(x);
    hide SigOk, DefaultRet, Once, Follows, Fitting, InstrOk;
    var e := d.MoveTo(l);
    var f := e.Put(CallF(NEG_IDX_EXCEPT), []);
    MoveMoves(x, d, l);
    PutMoves(x, e, CallF(NEG_IDX_EXCEPT), []);
    ReportFits(x);
    EndMoves(x, f, DefaultRet(x.sig.ret));
    MoveMoves(x, f.Terminate(DefaultRet(x.sig.ret)), next);
  }

  lemma GuardTypes(x: Typing, s: Emit, n: Operand)
    requires Sane(s) && s.IsOpen() && SigOk(x.sig)
    ensures Typed(x, OpTy(x, n) == I32, s, CompGuard(s, x.sig.ret, n), true)
  {
    GuardFirst(x, s, n);
    var bad, ok := s.labels, s.labels + 1;
    var d := s.NewBlock().NewBlock().Put(Compare(true, Lt), [n, Const(0)]).Terminate(CondBr(R(s.regs), bad, ok));
    InSane(s);
    assert d.blocks[bad] == BB([], Open);
    GuardReport(x, d, bad, ok);
    hide Sane, SigOk, DefaultRet, Once, Follows, Fitting, Emit.Put, Emit.Terminate, Emit.NewBlock, Emit.MoveTo;
  }

  lemma NoParams()
    ensures ParamTys([]) == []
  {
  }

  lemma ReportFits(x: Typing)
    requires SigOk(x.sig)
    ensures InstrOk(x, CallF(NEG_IDX_EXCEPT), [])
  {
    NoTys(x);
    NoParams();
  }

  /** The address of an element of what the entry names. */
  lemma ElemTypes(x: Typing, v: Entry<Operand>, n: Operand, s: Emit)
    requires s.cur in s.blocks
    ensures var (r, o) := CompElem(v, n, s);
            && Typed(x, OpTy(x, n) == I32 && OpTy(x, v.at) == Pointer(IrOf(v.ty)), s, r, true)
            && (Follows(x, r.blocks) ==> OpTy(x, o) == Pointer(IrOf(VarTy(v.ty, true))))
  {
    hide Once, Follows, Fitting, InstrOk;
    if v.ty.PtrT? {
      var s1 := s.Put(Load(v.ty), [v.at]);
      PutMoves(x, s, Load(v.ty), [v.at]);
      InstrOne(x, Load(v.ty), v.at);
      PutMoves(x, s1, Elem(v.ty), [R(s.regs), n]);
      InstrTwo(x, Elem(v.ty), R(s.regs), n);
    } else {
      PutMoves(x, s, Elem(v.ty), [v.at, n]);
      InstrTwo(x, Elem(v.ty), v.at, n);
    }
  }

  ghost predicate ExprTyped(x: Typing, sc: Names, s: Emit, r: Emit, o: Operand, ty: Ty, ok: bool) {
    && Typed(x, ScopeTyped(x, sc), s, r, ok)
    && (ScopeTyped(x, sc) && Follows(x, r.blocks) ==> OpTy(x, o) == IrOf(ty))
  }

  /** The code of an expression: its operand has the expression's type, and all that is emitted gets what
      it takes exactly if pointers are passed where they are expected. */
  lemma {:induction false} ExprTypes(x: Typing, sc: Names, e: Expr, s: Emit)
    requires Emits(sc, s) && SigOk(x.sig) && ExprOk(x.sig, TysOf(sc), e)
    ensures var (r, o) := CompExpr(x.sig, sc, e, s);
            ExprTyped(x, sc, s, r, o, TypeOf(x.sig, TysOf(sc), e), ExprFits(x.sig, TysOf(sc), e))
    decreases e, 1
  {
    hide Emits, SigOk, Once, Follows, Fitting, InstrOk, ScopeTyped, Emit.Put, CompConvert, CompOperate;
    StayMoves(x, s);
    match e {
      case NumI(_) =>
      case NumF(_) =>
      case Var(id, idx) => VarTypes(x, sc, e, s);
      case Assign(id, idx, rhs) => AssignTypes(x, sc, e, s);
      case Bin(op, l, r) => BinTypes(x, sc, e, s);
      case Call(id, args) => CallTypes(x, sc, e, s);
    }
  }

  lemma EmitsHere(sc: Names, s: Emit)
    requires Emits(sc, s)
    ensures s.cur in s.blocks && Sane(s) && s.IsOpen()
  {
  }

  lemma VarTypes(x: Typing, sc: Names, e: Expr, s: Emit)
    requires Emits(sc, s) && SigOk(x.sig) && ExprOk(x.sig, TysOf(sc), e) && e.Var?
    ensures var (r, o) := CompExpr(x.sig, sc, e, s);
            ExprTyped(x, sc, s, r, o, TypeOf(x.sig, TysOf(sc), e), ExprFits(x.sig, TysOf(sc), e))
    decreases e, 0
  {
    hide Emits, Sane, SigOk, Once, Follows, Fitting, InstrOk, ScopeTyped, Emit.Put, CompAddress;
    EmitsHere(sc, s);
    FindTys(sc, e.id);
    var v := Find(sc, e.id).value;
    if ScopeTyped(x, sc) {
      FindTyped(x, sc, e.id);
    }
    if e.idx.None? && v.ty.ArrT? {
      PutMoves(x, s, Elem(v.ty), [v.at, Const(0)]);
      InstrTwo(x, Elem(v.ty), v.at, Const(0));
    } else {
      AddressTypes(x, sc, v, e.idx, s);
      AddressEmits(x.sig, sc, e.id, e.idx, s);
      var (s1, p) := CompAddress(x.sig, sc, v, e.idx, s);
      EmitsHere(sc, s1);
      PutMoves(x, s1, Load(VarTy(v.ty, e.idx.Some?)), [p]);
      InstrOne(x, Load(VarTy(v.ty, e.idx.Some?)), p);
    }
  }

  lemma {:induction false} AddressTypes(x: Typing, sc: Names, v: Entry<Operand>, idx: Option<Expr>, s: Emit)
    requires Emits(sc, s) && SigOk(x.sig) && IndexOk(x.sig, TysOf(sc), idx)
    ensures var (r, o) := CompAddress(x.sig, sc, v, idx, s);
            var h := ScopeTyped(x, sc) && OpTy(x, v.at) == Pointer(IrOf(v.ty));
            && Typed(x, h, s, r, IndexFits(x.sig, TysOf(sc), idx))
            && (h && Follows(x, r.blocks) && (idx.Some? || !v.ty.ArrT?) ==>
                  OpTy(x, o) == Pointer(IrOf(VarTy(v.ty, idx.Some?))))
    decreases idx, 0
  {
    hide Emits, Sane, SigOk, Once, Follows, Fitting, InstrOk, ScopeTyped, CompConvert, CompGuard, CompElem, CompExpr,
      Grows, Bound;
    StayMoves(x, s);
    if idx.Some? {
      var i, ty := idx.value, TypeOf(x.sig, TysOf(sc), idx.value);
      ExprTypes(x, sc, i, s);
      var (s1, n) := CompExpr(x.sig, sc, i, s);
      ExprReady(x.sig, sc, i, s);
      ConvertTypes(x, s1, ty, IntT, n);
      ConvertGrows(s1, ty, IntT, n);
      var (s2, n') := CompConvert(s1, ty, IntT, n);
      GrowsSane(s1, s2);
      GuardTypes(x, s2, n');
      GuardGrows(s2, x.sig.ret, n');
      var s3 := CompGuard(s2, x.sig.ret, n');
      GrowsSane(s2, s3);
      InSane(s3);
      ElemTypes(x, v, n', s3);
    }
  }

  lemma ExprReady(sig: Sig, sc: Names, e: Expr, s: Emit)
    requires Emits(sc, s)
    ensures var (r, o) := CompExpr(sig, sc, e, s); Emits(sc, r) && Sane(r) && r.IsOpen() && Bound(o, r.regs)
  {
    hide CompExpr, Grows, Sane, ScopeBound, Bound;
    ExprEmits(sig, sc, e, s);
    ExprGrows(sig, sc, e, s);
  }

  lemma {:induction false} AssignTypes(x: Typing, sc: Names, e: Expr, s: Emit)
    requires Emits(sc, s) && SigOk(x.sig) && ExprOk(x.sig, TysOf(sc), e) && e.Assign?
    ensures var (r, o) := CompExpr(x.sig, sc, e, s);
            ExprTyped(x, sc, s, r, o, TypeOf(x.sig, TysOf(sc), e), ExprFits(x.sig, TysOf(sc), e))
    decreases e, 0
  {
    hide Emits, Sane, SigOk, Once, Follows, Fitting, InstrOk, ScopeTyped, CompAddress, CompConvert, Emit.Put, Grows,
      Bound;
    FindTys(sc, e.id);
    var v, ty := Find(sc, e.id).value, TypeOf(x.sig, TysOf(sc), e.rhs);
    var want := VarTy(v.ty, e.idx.Some?);
    if ScopeTyped(x, sc) {
      FindTyped(x, sc, e.id);
    }
    ExprTypes(x, sc, e.rhs, s);
    ExprReady(x.sig, sc, e.rhs, s);
    var (s1, a) := CompExpr(x.sig, sc, e.rhs, s);
    AddressTypes(x, sc, v, e.idx, s1);
    AddressEmits(x.sig, sc, e.id, e.idx, s1);
    var (s2, p) := CompAddress(x.sig, sc, v, e.idx, s1);
    EmitsHere(sc, s2);
    ConvertTypes(x, s2, ty, want, a);
    var (s3, a') := CompConvert(s2, ty, want, a);
    ConvertHere(s2, ty, want, a);
    PutMoves(x, s3, Store(want), [a', p]);
    InstrTwo(x, Store(want), a', p);
  }

  lemma ConvertHere(s: Emit, from: Ty, to: Ty, a: Operand)
    requires s.cur in s.blocks
    ensures var r := CompConvert(s, from, to, a).0; r.cur in r.blocks
  {
  }

  lemma {:induction false} BinTypes(x: Typing, sc: Names, e: Expr, s: Emit)
    requires Emits(sc, s) && SigOk(x.sig) && ExprOk(x.sig, TysOf(sc), e) && e.Bin?
    ensures var (r, o) := CompExpr(x.sig, sc, e, s);
            ExprTyped(x, sc, s, r, o, TypeOf(x.sig, TysOf(sc), e), ExprFits(x.sig, TysOf(sc), e))
    decreases e, 0
  {
    hide Emits, Sane, SigOk, Once, Follows, Fitting, InstrOk, ScopeTyped, CompOperate, Grows, Bound;
    ExprTypes(x, sc, e.l, s);
    ExprReady(x.sig, sc, e.l, s);
    var (s1, a) := CompExpr(x.sig, sc, e.l, s);
    ExprTypes(x, sc, e.r, s1);
    ExprReady(x.sig, sc, e.r, s1);
    var (s2, b) := CompExpr(x.sig, sc, e.r, s1);
    StillBound(x.sig, sc, e.r, s1, a);
    OperateTypes(x, s2, e.op, TypeOf(x.sig, TysOf(sc), e.l), TypeOf(x.sig, TysOf(sc), e.r), a, b);
  }

  lemma StillBound(sig: Sig, sc: Names, e: Expr, s: Emit, o: Operand)
    requires Emits(sc, s) && Bound(o, s.regs)
    ensures Bound(o, CompExpr(sig, sc, e, s).0.regs)
  {
    hide CompExpr, Grows, Sane, ScopeBound;
    ExprGrows(sig, sc, e, s);
    GrowsSane(s, CompExpr(sig, sc, e, s).0);
  }

  /** The arguments, and what they are. */
  ghost predicate ArgsTyped(x: Typing, sc: Names, s: Emit, r: Emit, os: seq<Operand>, want: seq<IrTy>, ok: bool) {
    && (Once(x, s) ==> Once(x, r))
    && (Follows(x, r.blocks) ==> Follows(x, s.blocks))
    && (ScopeTyped(x, sc) && Follows(x, r.blocks) ==>
          (Fitting(x, r.blocks) && OpTys(x, os) == want <==> Fitting(x, s.blocks) && ok))
  }

  lemma {:induction false} ArgsTypes(x: Typing, sc: Names, params: seq<Ty>, args: Args, s: Emit)
    requires Emits(sc, s) && SigOk(x.sig) && ArgsOk(x.sig, TysOf(sc), params, args)
    ensures var (r, os) := CompArgs(x.sig, sc, params, args, s);
            ArgsTyped(x, sc, s, r, os, ParamTys(params), ArgsFit(x.sig, TysOf(sc), params, args))
    decreases args, 0
  {
    hide Emits, Sane, SigOk, Once, Follows, Fitting, InstrOk, ScopeTyped, CompConvert, CompExpr, OpTys, ParamTys;
    match args {
      case NoArgs =>
        NoTys(x);
        NoParams();
      case Arg(init, last) =>
        var want, ty := params[|params| - 1], TypeOf(x.sig, TysOf(sc), last);
        ArgsTypes(x, sc, params[..|params| - 1], init, s);
        ArgsEmits(x.sig, sc, params[..|params| - 1], init, s);
        var (s1, os) := CompArgs(x.sig, sc, params[..|params| - 1], init, s);
        ExprTypes(x, sc, last, s1);
        ExprReady(x.sig, sc, last, s1);
        var (s2, o) := CompExpr(x.sig, sc, last, s1);
        ConvertTypes(x, s2, ty, want, o);
        var (s3, o') := CompConvert(s2, ty, want, o);
        LastArg(x, params, os, o');
        SamePointer(ty, want);
    }
  }

  lemma LastArg(x: Typing, params: seq<Ty>, os: seq<Operand>, o: Operand)
    requires params != []
    ensures OpTys(x, os + [o]) == ParamTys(params) <==>
      OpTys(x, os) == ParamTys(params[..|params| - 1]) && OpTy(x, o) == IrOf(params[|params| - 1])
  {
    assert OpTys(x, os + [o]) == OpTys(x, os) + [OpTy(x, o)];
    assert ParamTys(params) == ParamTys(params[..|params| - 1]) + [IrOf(params[|params| - 1])];
    SameLast(OpTys(x, os), OpTy(x, o), ParamTys(params[..|params| - 1]), IrOf(params[|params| - 1]));
  }

  lemma SameLast<T>(s: seq<T>, x: T, t: seq<T>, y: T)
    ensures s + [x] == t + [y] <==> s == t && x == y
  {
    if s + [x] == t + [y] {
      assert |s| == |t| && (s + [x])[|s|] == (t + [y])[|t|];
      assert s == (s + [x])[..|s|] == (t + [y])[..|t|] == t;
    }
  }

  lemma SamePointer(ty: Ty, want: Ty)
    ensures ty.PtrT? ==> (IrOf(ty) == IrOf(want) <==> ty == want)
  {
  }

  lemma {:induction false} CallTypes(x: Typing, sc: Names, e: Expr, s: Emit)
    requires Emits(sc, s) && SigOk(x.sig) && ExprOk(x.sig, TysOf(sc), e) && e.Call?
    ensures var (r, o) := CompExpr(x.sig, sc, e, s);
            ExprTyped(x, sc, s, r, o, TypeOf(x.sig, TysOf(sc), e), ExprFits(x.sig, TysOf(sc), e))
    decreases e, 0
  {
    hide Emits, Sane, SigOk, Once, Follows, Fitting, ScopeTyped, Emit.Put, OpTys, ParamTys;
    var params := x.sig.funs[e.id].params;
    ArgsTypes(x, sc, params, e.args, s);
    ArgsEmits(x.sig, sc, params, e.args, s);
    var (s1, os) := CompArgs(x.sig, sc, params, e.args, s);
    EmitsHere(sc, s1);
    PutMoves(x, s1, CallF(e.id), os);
  }
}
