/** A small SSA intermediate representation and its meaning. Everything that is not a load, store or
    alloca of a promotable slot (arithmetic, calls, input and output, accesses to globals and array
    elements) is an operation on an arbitrary outside world. */
module Ssa {
  import opened Cfg

  type Slot = nat
  type Val = int
  type World = seq<int>

  /** An instruction's result is named by the instruction itself; a phi by its block and variable. */
  datatype Reg = Temp(n: nat) | PhiAt(b: Block, s: Slot)

  datatype Operand = Const(c: Val) | Use(r: Reg)

  datatype Instr =
    | Alloca(slot: Slot, scalar: bool)
    | Load(dst: Reg, slot: Slot)
    | Store(src: Operand, slot: Slot)
    | Op(dst: Reg, op: nat, args: seq<Operand>)

  datatype Term =
    | Ret(v: Option<Operand>)
    | Br(target: Block)
    | CondBr(c: Operand, yes: Block, no: Block)

  datatype Code = Code(instrs: seq<Instr>, term: Term)

  datatype Phi = Phi(slot: Slot, pairs: seq<(Operand, Block)>)

  datatype Func = Func(g: Graph, args: set<Reg>, phis: seq<seq<Phi>>, code: seq<Code>)

  // ----- execution -----

  datatype State = State(env: map<Reg, Val>, mem: map<Slot, Val>, world: World)

  /** What an operation computes and does to the world. */
  type Semantics = (nat, seq<Val>, World) -> (Val, World)

  function Eval(env: map<Reg, Val>, o: Operand): Option<Val> {
    match o
    case Const(c) => Some(c)
    case Use(r) => if r in env then Some(env[r]) else None
  }

  function EvalAll(env: map<Reg, Val>, os: seq<Operand>): Option<seq<Val>> {
    if os == [] then Some([])
    else match (EvalAll(env, os[..|os| - 1]), Eval(env, os[|os| - 1]))
      case (Some(vs), Some(v)) => Some(vs + [v])
      case _ => None
  }

  function Put<K, V>(m: map<K, V>, k: K, v: Option<V>): map<K, V> {
    match v
    case Some(value) => m[k := value]
    case None => m - {k}
  }

  function Content(mem: map<Slot, Val>, s: Slot): Option<Val> {
    if s in mem then Some(mem[s]) else None
  }

  /** Undefined values can be loaded and stored; None: an operation takes one. */
  function Step(sem: Semantics, st: State, x: Instr): Option<State> {
    match x
    case Alloca(s, _) => Some(st.(mem := st.mem - {s}))
    case Load(d, s) => Some(st.(env := Put(st.env, d, Content(st.mem, s))))
    case Store(o, s) => Some(st.(mem := Put(st.mem, s, Eval(st.env, o))))
    case Op(d, op, args) =>
      match EvalAll(st.env, args)
      case Some(vs) =>
        var (v, world) := sem(op, vs, st.world);
        Some(st.(env := st.env[d := v], world := world))
      case None => None
  }

  function Exec(sem: Semantics, st: State, xs: seq<Instr>): Option<State> {
    if xs == [] then Some(st)
    else match Exec(sem, st, xs[..|xs| - 1])
      case Some(mid) => Step(sem, mid, xs[|xs| - 1])
      case None => None
  }

  lemma ExecOne(sem: Semantics, st: State, x: Instr)
    ensures Exec(sem, st, [x]) == Step(sem, st, x)
  {
    assert [x][..0] == [];
    assert Exec(sem, st, []) == Some(st);
  }

  lemma {:induction false} ExecAppend(sem: Semantics, st: State, xs: seq<Instr>, ys: seq<Instr>)
    ensures Exec(sem, st, xs + ys) == match Exec(sem, st, xs) case Some(mid) => Exec(sem, mid, ys) case None => None
  {
    if ys == [] {
      assert xs + ys == xs;
    } else {
      assert (xs + ys)[..|xs + ys| - 1] == xs + ys[..|ys| - 1];
      ExecAppend(sem, st, xs, ys[..|ys| - 1]);
    }
  }

  /** The operand a phi takes when control comes from p; None is undef. */
  function Incoming(pairs: seq<(Operand, Block)>, p: Block): Option<Operand> {
    if pairs == [] then None
    else if pairs[0].1 == p then Some(pairs[0].0)
    else Incoming(pairs[1..], p)
  }

  function IncomingValue(env: map<Reg, Val>, phi: Phi, p: Block): Option<Val> {
    match Incoming(phi.pairs, p)
    case Some(o) => Eval(env, o)
    case None => None
  }

  /** All phis of block b read the registers as they were on the edge from p; a phi whose incoming
      value is undefined becomes undefined. */
  function AssignPhis(phis: seq<Phi>, b: Block, p: Block, before: map<Reg, Val>): map<Reg, Val> {
    if phis == [] then before
    else
      var env := AssignPhis(phis[..|phis| - 1], b, p, before);
      var phi := phis[|phis| - 1];
      match IncomingValue(before, phi, p)
      case Some(v) => env[PhiAt(b, phi.slot) := v]
      case None => env - {PhiAt(b, phi.slot)}
  }

  datatype Exit = Goto(b: Block) | Return(v: Option<Val>) | NoExit

  function Leave(env: map<Reg, Val>, t: Term): Exit {
    match t
    case Br(b) => Goto(b)
    case CondBr(c, yes, no) =>
      (match Eval(env, c)
       case Some(v) => if v != 0 then Goto(yes) else Goto(no)
       case None => NoExit)
    case Ret(None) => Return(None)
    case Ret(Some(o)) =>
      match Eval(env, o)
      case Some(v) => Return(Some(v))
      case None => NoExit
  }

  /** What can be seen of a run: the blocks entered, the world, and the result once there is one. */
  datatype Behaviour =
    | Running(trace: seq<Block>, world: World)
    | Returned(trace: seq<Block>, world: World, v: Option<Val>)
    | Stuck

  function Prepend(b: Block, r: Behaviour): Behaviour {
    match r
    case Running(tr, w) => Running([b] + tr, w)
    case Returned(tr, w, v) => Returned([b] + tr, w, v)
    case Stuck => Stuck
  }

  lemma PrependStuck(b: Block, r: Behaviour)
    ensures Prepend(b, r) == Stuck <==> r == Stuck
  {
  }

  function EnterBlock(f: Func, b: Block, from: Option<Block>, env: map<Reg, Val>): map<Reg, Val>
    requires b < |f.phis|
  {
    match from
    case None => env
    case Some(p) => AssignPhis(f.phis[b], b, p, env)
  }

  /** The first n blocks of the run that enters b from the given predecessor. */
  function Run(f: Func, sem: Semantics, n: nat, b: Block, from: Option<Block>, st: State): Behaviour {
    if n == 0 then Running([], st.world)
    else if b >= |f.code| || b >= |f.phis| then Stuck
    else
      match Exec(sem, st.(env := EnterBlock(f, b, from, st.env)), f.code[b].instrs)
      case None => Stuck
      case Some(end) =>
        match Leave(end.env, f.code[b].term)
        case Goto(next) => Prepend(b, Run(f, sem, n - 1, next, Some(b), end))
        case Return(v) => Returned([b], end.world, v)
        case NoExit => Stuck
  }

  /** A whole run: the arguments are the only registers defined, memory is uninitialised. */
  function Behave(f: Func, sem: Semantics, n: nat, args: map<Reg, Val>, world: World): Behaviour {
    Run(f, sem, n, f.g.entry, None, State(args, map[], world))
  }

  lemma RunUnfold(f: Func, sem: Semantics, n: nat, b: Block, from: Option<Block>, st: State)
    ensures n == 0 ==> Run(f, sem, n, b, from, st) == Running([], st.world)
    ensures n > 0 && (b >= |f.code| || b >= |f.phis|) ==> Run(f, sem, n, b, from, st) == Stuck
    ensures n > 0 && b < |f.code| && b < |f.phis| ==>
              var end := Exec(sem, st.(env := EnterBlock(f, b, from, st.env)), f.code[b].instrs);
              && (end == None ==> Run(f, sem, n, b, from, st) == Stuck)
              && (end.Some? ==>
                    var exit := Leave(end.value.env, f.code[b].term);
                    && (exit == NoExit ==> Run(f, sem, n, b, from, st) == Stuck)
                    && (exit.Return? ==> Run(f, sem, n, b, from, st) == Returned([b], end.value.world, exit.v))
                    && (exit.Goto? ==>
                         Run(f, sem, n, b, from, st) == Prepend(b, Run(f, sem, n - 1, exit.b, Some(b), end.value))))
  {
  }

  // ----- well-formed input of the promotion pass -----

  predicate Defines(x: Instr, r: Reg) {
    (x.Load? || x.Op?) && x.dst == r
  }

  predicate Uses(x: Instr, r: Reg) {
    match x
    case Store(o, _) => o == Use(r)
    case Op(_, _, args) => Use(r) in args
    case _ => false
  }

  predicate TermUses(t: Term, r: Reg) {
    match t
    case CondBr(c, _, _) => c == Use(r)
    case Ret(Some(o)) => o == Use(r)
    case _ => false
  }

  function Targets(t: Term): seq<Block> {
    match t
    case Br(b) => [b]
    case CondBr(_, yes, no) => [yes, no]
    case Ret(_) => []
  }

  function InstrsOf(f: Func, b: Block): seq<Instr> {
    if b < |f.code| then f.code[b].instrs else []
  }
}
