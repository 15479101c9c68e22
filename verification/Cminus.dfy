/** The source language: its syntax, its types and a big-step meaning. What single operations compute is
    left to an arbitrary interpretation, the same for source and target. */
module Cminus {
  import opened Cfg

  type Id = string
  type Val = int
  type World = seq<int> // memory, input and output, whatever else operations depend on

  /** Types of values and variables; f tells float from int elements. */
  datatype Ty = IntT | FloatT | VoidT | PtrT(f: bool) | ArrT(f: bool)

  datatype Arith = Plus | Minus | Times | Divide
  datatype Rel = Lt | Le | Ge | Gt | Eq | Ne
  datatype BinOp = ArithOp(a: Arith) | RelOp(r: Rel)

  datatype Expr =
    | NumI(n: int)
    | NumF(x: int) // a float constant, named by a number
    | Var(id: Id, idx: Option<Expr>)
    | Assign(id: Id, idx: Option<Expr>, rhs: Expr)
    | Bin(op: BinOp, l: Expr, r: Expr)
    | Call(id: Id, args: Args)

  datatype Args = NoArgs | Arg(init: Args, last: Expr)

  datatype Decl = Decl(id: Id, ty: Ty)

  datatype Stmt =
    | ExprS(e: Option<Expr>)
    | If(c: Expr, yes: Stmt, no: Option<Stmt>)
    | While(c: Expr, loop: Stmt)
    | Return(v: Option<Expr>)
    | Block(decls: seq<Decl>, body: Stmts)

  datatype Stmts = Done | Then(head: Stmt, tail: Stmts)

  datatype FunTy = FunTy(params: seq<Ty>, ret: Ty)

  /** The functions that can be called, and the return type of the current one. */
  datatype Sig = Sig(funs: map<Id, FunTy>, ret: Ty)

  // ----- primitive operations -----

  datatype Op =
    | Alloca(ty: Ty)
    | Load(ty: Ty)
    | Store(ty: Ty)
    | Elem(base: Ty)
    | Compute(isInt: bool, a: Arith)
    | Compare(isInt: bool, r: Rel)
    | Zext
    | SiToFp
    | FpToSi
    | CallF(f: Id)

  type Sem = (Op, seq<Val>, World) -> (Val, World)

  const FLOAT_ZERO := 0
  const NEG_IDX_EXCEPT := "neg_idx_except"

  // ----- scopes -----

  /** What a name stands for: its type, and where the variable is. */
  datatype Entry<T> = Entry(ty: Ty, at: T)

  type Scopes<T> = seq<map<Id, Entry<T>>>

  /** Innermost scope first. */
  function Find<T>(sc: Scopes<T>, id: Id): Option<Entry<T>> {
    if sc == [] then None
    else if id in sc[|sc| - 1] then Some(sc[|sc| - 1][id])
    else Find(sc[..|sc| - 1], id)
  }

  /** Scope i is the innermost one that has the name, with meaning e. */
  ghost predicate FoundAt<T>(sc: Scopes<T>, id: Id, e: Entry<T>, i: nat) {
    i < |sc| && id in sc[i] && sc[i][id] == e && forall j :: i < j < |sc| ==> id !in sc[j]
  }

  /** What is found is the meaning in the innermost scope that has the name. */
  lemma {:induction false} FindInnermost<T>(sc: Scopes<T>, id: Id, e: Entry<T>)
    ensures Find(sc, id) == Some(e) <==> exists i :: FoundAt(sc, id, e, i)
  {
    if sc == [] {
    } else if id in sc[|sc| - 1] {
      assert Find(sc, id) == Some(e) <==> FoundAt(sc, id, e, |sc| - 1);
      assert forall i :: FoundAt(sc, id, e, i) ==> i == |sc| - 1;
    } else {
      var init := sc[..|sc| - 1];
      FindInnermost(init, id, e);
      forall i: nat
        ensures FoundAt(sc, id, e, i) <==> FoundAt(init, id, e, i)
      {
        FoundBelow(sc, id, e, i);
      }
    }
  }

  lemma FoundBelow<T>(sc: Scopes<T>, id: Id, e: Entry<T>, i: nat)
    requires sc != [] && id !in sc[|sc| - 1]
    ensures FoundAt(sc, id, e, i) <==> FoundAt(sc[..|sc| - 1], id, e, i)
  {
    var init := sc[..|sc| - 1];
    assert forall j {:trigger sc[j]} {:trigger init[j]} :: 0 <= j < |init| ==> init[j] == sc[j];
  }

  /** A name that the innermost scope already has keeps its meaning. */
  function Push<T>(sc: Scopes<T>, id: Id, e: Entry<T>): Scopes<T>
    requires sc != []
  {
    if id in sc[|sc| - 1] then sc else sc[..|sc| - 1] + [sc[|sc| - 1][id := e]]
  }

  /** A new name is found from then on, all others as before. */
  lemma PushFinds<T>(sc: Scopes<T>, id: Id, e: Entry<T>, n: Id)
    requires sc != []
    ensures Find(Push(sc, id, e), n) == if n == id && id !in sc[|sc| - 1] then Some(e) else Find(sc, n)
  {
    var sc' := Push(sc, id, e);
    assert sc'[..|sc| - 1] == sc[..|sc| - 1];
  }

  // ----- static types -----

  type Types = seq<map<Id, Ty>>

  function LevelTys<T>(m: map<Id, Entry<T>>): map<Id, Ty> {
    map id | id in m :: m[id].ty
  }

  function TysOf<T>(sc: Scopes<T>): (r: Types)
    ensures |r| == |sc|
  {
    if sc == [] then [] else TysOf(sc[..|sc| - 1]) + [LevelTys(sc[|sc| - 1])]
  }

  function FindTy(tys: Types, id: Id): Option<Ty> {
    if tys == [] then None
    else if id in tys[|tys| - 1] then Some(tys[|tys| - 1][id])
    else FindTy(tys[..|tys| - 1], id)
  }

  function PushTy(tys: Types, id: Id, ty: Ty): Types
    requires tys != []
  {
    if id in tys[|tys| - 1] then tys else tys[..|tys| - 1] + [tys[|tys| - 1][id := ty]]
  }

  function DeclareTys(tys: Types, decls: seq<Decl>): (r: Types)
    requires tys != []
    ensures |r| == |tys|
  {
    if decls == [] then tys
      else PushTy(DeclareTys(tys, decls[..|decls| - 1]), decls[|decls| - 1].id, decls[|decls| - 1].ty)
  }

  lemma {:induction false} FindTys<T>(sc: Scopes<T>, id: Id)
    ensures FindTy(TysOf(sc), id).Some? <==> Find(sc, id).Some?
    ensures Find(sc, id).Some? ==> FindTy(TysOf(sc), id).value == Find(sc, id).value.ty
  {
    if sc != [] {
      FindTys(sc[..|sc| - 1], id);
      assert TysOf(sc)[..|sc| - 1] == TysOf(sc[..|sc| - 1]);
    }
  }

  lemma PushTys<T>(sc: Scopes<T>, id: Id, e: Entry<T>)
    requires sc != []
    ensures TysOf(Push(sc, id, e)) == PushTy(TysOf(sc), id, e.ty)
  {
    var sc', top := Push(sc, id, e), sc[|sc| - 1];
    assert sc'[..|sc| - 1] == sc[..|sc| - 1];
    assert TysOf(sc)[..|sc| - 1] == TysOf(sc[..|sc| - 1]) && TysOf(sc)[|sc| - 1] == LevelTys(top);
    assert LevelTys(top[id := e]) == LevelTys(top)[id := e.ty];
  }

  function ElemTy(ty: Ty): Ty {
    match ty
    case PtrT(f) => if f then FloatT else IntT
    case ArrT(f) => if f then FloatT else IntT
    case _ => ty
  }

  function VarTy(ty: Ty, indexed: bool): Ty {
    if indexed then ElemTy(ty) else if ty.ArrT? then PtrT(ty.f) else ty
  }

  function TypeOf(sig: Sig, tys: Types, e: Expr): Ty {
    match e
    case NumI(_) => IntT
    case NumF(_) => FloatT
    case Var(id, idx) => (match FindTy(tys, id) case Some(ty) => VarTy(ty, idx.Some?) case None => VoidT)
    case Assign(id, idx, _) => (match FindTy(tys, id) case Some(ty) => VarTy(ty, idx.Some?) case None => VoidT)
    case Bin(RelOp(_), _, _) => IntT
    case Bin(_, l, r) => if TypeOf(sig, tys, l) == TypeOf(sig, tys, r) then TypeOf(sig, tys, l) else FloatT
    case Call(id, _) => if id in sig.funs then sig.funs[id].ret else VoidT
  }

  predicate Scalar(ty: Ty) {
    ty == IntT || ty == FloatT
  }

  /** What the translation takes for granted of the expressions it is given. */
  predicate ExprOk(sig: Sig, tys: Types, e: Expr)
    decreases e
  {
    match e
    case NumI(_) => true
    case NumF(_) => true
    case Var(id, idx) => FindTy(tys, id).Some? && IndexOk(sig, tys, idx)
    case Assign(id, idx, rhs) =>
      && FindTy(tys, id).Some? && IndexOk(sig, tys, idx) && ExprOk(sig, tys, rhs)
      && Scalar(TypeOf(sig, tys, rhs)) && Scalar(VarTy(FindTy(tys, id).value, idx.Some?))
    case Bin(_, l, r) =>
      ExprOk(sig, tys, l) && ExprOk(sig, tys, r) && Scalar(TypeOf(sig, tys, l)) && Scalar(TypeOf(sig, tys, r))
    case Call(id, args) => id in sig.funs && ArgsOk(sig, tys, sig.funs[id].params, args)
  }

  predicate IndexOk(sig: Sig, tys: Types, idx: Option<Expr>)
    decreases idx
  {
    match idx case None => true case Some(i) => ExprOk(sig, tys, i) && Scalar(TypeOf(sig, tys, i))
  }

  predicate ArgsOk(sig: Sig, tys: Types, params: seq<Ty>, args: Args)
    decreases args
  {
    match args
    case NoArgs => params == []
    case Arg(init, last) =>
      && params != [] && ArgsOk(sig, tys, params[..|params| - 1], init) && ExprOk(sig, tys, last)
      && (TypeOf(sig, tys, last).PtrT? || (Scalar(TypeOf(sig, tys, last)) && Scalar(params[|params| - 1])))
  }

  predicate StmtOk(sig: Sig, tys: Types, s: Stmt)
    decreases s
  {
    match s
    case ExprS(None) => true
    case ExprS(Some(e)) => ExprOk(sig, tys, e)
    case If(c, yes, no) =>
      ExprOk(sig, tys, c) && Scalar(TypeOf(sig, tys, c)) && StmtOk(sig, tys, yes)
        && (match no case Some(s') => StmtOk(sig, tys, s') case None => true)
    case While(c, loop) => ExprOk(sig, tys, c) && Scalar(TypeOf(sig, tys, c)) && StmtOk(sig, tys, loop)
    case Return(None) => true
    case Return(Some(e)) => ExprOk(sig, tys, e) && Scalar(TypeOf(sig, tys, e)) && Scalar(sig.ret)
    case Block(decls, body) => StmtsOk(sig, DeclareTys(tys + [map[]], decls), body)
  }

  predicate StmtsOk(sig: Sig, tys: Types, ss: Stmts)
    decreases ss
  {
    match ss
    case Done => true
    case Then(s, tail) => StmtOk(sig, tys, s) && StmtsOk(sig, tys, tail)
  }

  // ----- meaning of expressions -----

  /** A value, or the end of the program by a negative index. */
  datatype Res = V(v: Val, w: World) | Fault(w: World)

  datatype ResArgs = Vs(vs: seq<Val>, w: World) | FaultArgs(w: World)

  /** Conversion between int and float; pointers stay what they are. */
  function Convert(sem: Sem, from: Ty, to: Ty, v: Val, w: World): (Val, World) {
    if from == to || from.PtrT? then (v, w) else if from == IntT then sem(SiToFp, [v], w) else sem(FpToSi, [v], w)
  }

  /** A binary operation promotes an int operand when the other one is a float. */
  function Operate(sem: Sem, op: BinOp, lt: Ty, rt: Ty, l: Val, r: Val, w: World): (Val, World) {
    var common := if lt == rt then lt else FloatT;
    var (l', w1) := Convert(sem, lt, common, l, w);
    var (r', w2) := Convert(sem, rt, common, r, w1);
    match op
    case ArithOp(a) => sem(Compute(common == IntT, a), [l', r'], w2)
    case RelOp(c) =>
      var (b, w3) := sem(Compare(common == IntT, c), [l', r'], w2);
      sem(Zext, [b], w3)
  }

  /** The address of the element that an index of the given type selects. */
  function Element(sem: Sem, x: Entry<Val>, ty: Ty, n: Val, w: World): Res {
    var (n', w1) := Convert(sem, ty, IntT, n, w);
    var (neg, w2) := sem(Compare(true, Lt), [n', 0], w1);
    if neg != 0 then Fault(sem(CallF(NEG_IDX_EXCEPT), [], w2).1)
    else
      var (base, w3) := if x.ty.PtrT? then sem(Load(x.ty), [x.at], w2) else (x.at, w2);
      var (p, w4) := sem(Elem(x.ty), [base, n'], w3);
      V(p, w4)
  }

  function Eval(sem: Sem, sig: Sig, env: Scopes<Val>, e: Expr, w: World): Res
    decreases e
  {
    match e
    case NumI(n) => V(n, w)
    case NumF(x) => V(x, w)
    case Var(id, idx) =>
      (match Find(env, id)
       case None => Fault(w)
       case Some(x) =>
         if idx.None? && x.ty.ArrT? then
           var (p, w1) := sem(Elem(x.ty), [x.at, 0], w);
           V(p, w1)
         else
           match Address(sem, sig, env, x, idx, w)
           case V(p, w1) =>
             var (v, w2) := sem(Load(VarTy(x.ty, idx.Some?)), [p], w1);
             V(v, w2)
           case Fault(w1) => Fault(w1))
    case Assign(id, idx, rhs) =>
      (match Eval(sem, sig, env, rhs, w)
       case Fault(w1) => Fault(w1)
       case V(v, w1) =>
         match Find(env, id)
         case None => Fault(w)
         case Some(x) =>
           match Address(sem, sig, env, x, idx, w1)
           case Fault(w2) => Fault(w2)
           case V(p, w2) =>
             var ty := VarTy(x.ty, idx.Some?);
             var (v', w3) := Convert(sem, TypeOf(sig, TysOf(env), rhs), ty, v, w2);
             V(v', sem(Store(ty), [v', p], w3).1))
    case Bin(op, l, r) =>
      (match Eval(sem, sig, env, l, w)
       case Fault(w1) => Fault(w1)
       case V(a, w1) =>
         match Eval(sem, sig, env, r, w1)
         case Fault(w2) => Fault(w2)
         case V(b, w2) =>
           var (v, w3) := Operate(sem, op, TypeOf(sig, TysOf(env), l), TypeOf(sig, TysOf(env), r), a, b, w2);
           V(v, w3))
    case Call(id, args) =>
      if id !in sig.funs then Fault(w)
      else
        match EvalArgs(sem, sig, env, sig.funs[id].params, args, w)
        case FaultArgs(w1) => Fault(w1)
        case Vs(vs, w1) =>
          var (v, w2) := sem(CallF(id), vs, w1);
          V(v, w2)
  }

  /** The address of a variable, or of the element that a non-negative index selects. */
  function Address(sem: Sem, sig: Sig, env: Scopes<Val>, x: Entry<Val>, idx: Option<Expr>, w: World): Res
    decreases idx
  {
    match idx
    case None => V(x.at, w)
    case Some(i) =>
      match Eval(sem, sig, env, i, w)
      case Fault(w1) => Fault(w1)
      case V(n, w1) => Element(sem, x, TypeOf(sig, TysOf(env), i), n, w1)
  }

  function EvalArgs(sem: Sem, sig: Sig, env: Scopes<Val>, params: seq<Ty>, args: Args, w: World): ResArgs
    decreases args
  {
    match args
    case NoArgs => Vs([], w)
    case Arg(init, last) =>
      if params == [] then FaultArgs(w)
      else
        match EvalArgs(sem, sig, env, params[..|params| - 1], init, w)
        case FaultArgs(w1) => FaultArgs(w1)
        case Vs(vs, w1) =>
          match Eval(sem, sig, env, last, w1)
          case Fault(w2) => FaultArgs(w2)
          case V(v, w2) =>
            var (v', w3) := Convert(sem, TypeOf(sig, TysOf(env), last), params[|params| - 1], v, w2);
            Vs(vs + [v'], w3)
  }

  // ----- meaning of statements -----

  /** A statement ends normally, or leaves the function; Later: not within the given number of turns of
      any one loop. */
  datatype Outcome = Next(w: World) | Left(v: Option<Val>, w: World) | Later

  /** What a function that is left by a negative index, or at its end, returns. */
  function Default(ret: Ty): Option<Val> {
    if ret == VoidT then None else Some(if ret == FloatT then FLOAT_ZERO else 0)
  }

  function DeclareAll(sem: Sem, env: Scopes<Val>, decls: seq<Decl>, w: World): (r: (Scopes<Val>, World))
    requires env != []
    ensures |r.0| == |env|
  {
    if decls == [] then (env, w)
    else
      var (env1, w1) := DeclareAll(sem, env, decls[..|decls| - 1], w);
      var d := decls[|decls| - 1];
      var (a, w2) := sem(Alloca(d.ty), [], w1);
      (Push(env1, d.id, Entry(d.ty, a)), w2)
  }

  /** Whether the condition holds: it is not zero. */
  function Test(sem: Sem, ty: Ty, v: Val, w: World): (Val, World) {
    sem(Compare(ty == IntT, Ne), [v, if ty == IntT then 0 else FLOAT_ZERO], w)
  }

  function Exec(sem: Sem, sig: Sig, fuel: nat, env: Scopes<Val>, s: Stmt, w: World): Outcome
    decreases fuel, s
  {
    match s
    case ExprS(None) => Next(w)
    case ExprS(Some(e)) =>
      (match Eval(sem, sig, env, e, w) case V(_, w1) => Next(w1) case Fault(w1) => Left(Default(sig.ret), w1))
    case If(c, yes, no) =>
      (match Eval(sem, sig, env, c, w)
       case Fault(w1) => Left(Default(sig.ret), w1)
       case V(v, w1) =>
         var (b, w2) := Test(sem, TypeOf(sig, TysOf(env), c), v, w1);
         if b != 0 then Exec(sem, sig, fuel, env, yes, w2)
         else match no case Some(s') => Exec(sem, sig, fuel, env, s', w2) case None => Next(w2))
    case While(c, loop) =>
      (match Eval(sem, sig, env, c, w)
       case Fault(w1) => Left(Default(sig.ret), w1)
       case V(v, w1) =>
         var (b, w2) := Test(sem, TypeOf(sig, TysOf(env), c), v, w1);
         if b == 0 then Next(w2)
         else match Exec(sem, sig, fuel, env, loop, w2)
           case Next(w3) => if fuel == 0 then Later else Exec(sem, sig, fuel - 1, env, s, w3)
           case o => o)
    case Return(None) => Left(None, w)
    case Return(Some(e)) =>
      (match Eval(sem, sig, env, e, w)
       case Fault(w1) => Left(Default(sig.ret), w1)
       case V(v, w1) =>
         var (v', w2) := Convert(sem, TypeOf(sig, TysOf(env), e), sig.ret, v, w1);
         Left(Some(v'), w2))
    case Block(decls, body) =>
      var (env1, w1) := DeclareAll(sem, env + [map[]], decls, w);
      ExecAll(sem, sig, fuel, env1, body, w1)
  }

  function ExecAll(sem: Sem, sig: Sig, fuel: nat, env: Scopes<Val>, ss: Stmts, w: World): Outcome
    decreases fuel, ss
  {
    match ss
    case Done => Next(w)
    case Then(s, tail) =>
      match Exec(sem, sig, fuel, env, s, w)
      case Next(w1) => ExecAll(sem, sig, fuel, env, tail, w1)
      case o => o
  }

  // ----- functions -----

  /** Parameters and the declarations of the outermost block share one scope. */
  datatype FunDecl = FunDecl(params: seq<Decl>, decls: seq<Decl>, body: Stmts)

  function BindParams(sem: Sem, env: Scopes<Val>, params: seq<Decl>, args: seq<Val>,
                      w: World): (r: (Scopes<Val>, World))
    requires env != [] && |params| == |args|
    ensures |r.0| == |env|
  {
    if params == [] then (env, w)
    else
      var (env1, w1) := BindParams(sem, env, params[..|params| - 1], args[..|params| - 1], w);
      var d := params[|params| - 1];
      var (a, w2) := sem(Alloca(d.ty), [], w1);
      (Push(env1, d.id, Entry(d.ty, a)), sem(Store(d.ty), [args[|params| - 1], a], w2).1)
  }

  predicate FunOk(sig: Sig, globals: Types, fd: FunDecl) {
    StmtsOk(sig, DeclareTys(DeclareTys(globals + [map[]], fd.params), fd.decls), fd.body)
  }

  /** What a call returns, and the world after it. */
  function CallFun(sem: Sem, sig: Sig, fuel: nat, globals: Scopes<Val>, fd: FunDecl, args: seq<Val>,
                   w: World): Option<(Option<Val>, World)>
    requires |args| == |fd.params|
  {
    var (env1, w1) := BindParams(sem, globals + [map[]], fd.params, args, w);
    var (env2, w2) := DeclareAll(sem, env1, fd.decls, w1);
    match ExecAll(sem, sig, fuel, env2, fd.body, w2)
    case Next(w3) => Some((Default(sig.ret), w3))
    case Left(v, w3) => Some((v, w3))
    case Later => None
  }
}
