/** The target: basic blocks under construction, and a machine that runs them. */
module BlockCode {
  import opened Cfg
  import opened Cminus

  type Label = nat
  type Reg = nat

  /** An int or a float constant, the address of a global variable, or a register. */
  datatype Operand = Const(c: Val) | ConstF(c: Val) | Global(a: Val) | R(r: Reg)

  datatype Instr = Instr(dst: Reg, op: Op, args: seq<Operand>)

  /** Open: the block has no terminator yet. */
  datatype Term = Open | Br(t: Label) | CondBr(c: Operand, yes: Label, no: Label) | Ret(v: Option<Operand>)

  datatype BB = BB(instrs: seq<Instr>, term: Term)

  type Blocks = map<Label, BB>

  // ----- running -----

  datatype Conf = At(l: Label, i: nat, regs: map<Reg, Val>, w: World) | Halted(v: Option<Val>, w: World) | Wrong

  function Read(regs: map<Reg, Val>, o: Operand): Option<Val> {
    match o
    case Const(c) => Some(c)
    case ConstF(c) => Some(c)
    case Global(a) => Some(a)
    case R(r) => if r in regs then Some(regs[r]) else None
  }

  function ReadAll(regs: map<Reg, Val>, os: seq<Operand>): Option<seq<Val>> {
    if os == [] then Some([])
    else match (ReadAll(regs, os[..|os| - 1]), Read(regs, os[|os| - 1]))
      case (Some(vs), Some(v)) => Some(vs + [v])
      case _ => None
  }

  function Step(sem: Sem, p: Blocks, a: Conf): Conf {
    match a
    case At(l, i, regs, w) =>
      if l !in p || i > |p[l].instrs| then Wrong
      else if i < |p[l].instrs| then
        var x := p[l].instrs[i];
        match ReadAll(regs, x.args)
        case Some(vs) => var (v, w1) := sem(x.op, vs, w); At(l, i + 1, regs[x.dst := v], w1)
        case None => Wrong
      else
        (match p[l].term
         case Open => Wrong
         case Br(t) => At(t, 0, regs, w)
         case CondBr(c, yes, no) =>
           (match Read(regs, c)
            case Some(v) => At(if v != 0 then yes else no, 0, regs, w)
            case None => Wrong)
         case Ret(None) => Halted(None, w)
         case Ret(Some(o)) => match Read(regs, o) case Some(v) => Halted(Some(v), w) case None => Wrong)
    case _ => a
  }

  function Steps(sem: Sem, p: Blocks, n: nat, a: Conf): Conf {
    if n == 0 then a else Step(sem, p, Steps(sem, p, n - 1, a))
  }

  ghost predicate Reaches(sem: Sem, p: Blocks, a: Conf, b: Conf) {
    exists n: nat :: Steps(sem, p, n, a) == b
  }

  lemma {:induction false} StepsAdd(sem: Sem, p: Blocks, m: nat, n: nat, a: Conf)
    ensures Steps(sem, p, m + n, a) == Steps(sem, p, n, Steps(sem, p, m, a))
  {
    if n > 0 {
      StepsAdd(sem, p, m, n - 1, a);
    }
  }

  lemma ReachesSelf(sem: Sem, p: Blocks, a: Conf)
    ensures Reaches(sem, p, a, a)
  {
    assert Steps(sem, p, 0, a) == a;
  }

  lemma ReachesStep(sem: Sem, p: Blocks, a: Conf, b: Conf)
    requires Reaches(sem, p, a, b)
    ensures Reaches(sem, p, a, Step(sem, p, b))
  {
    var n: nat :| Steps(sem, p, n, a) == b;
    assert Steps(sem, p, n + 1, a) == Step(sem, p, b);
  }

  lemma ReachesTrans(sem: Sem, p: Blocks, a: Conf, b: Conf, c: Conf)
    requires Reaches(sem, p, a, b) && Reaches(sem, p, b, c)
    ensures Reaches(sem, p, a, c)
  {
    var m: nat :| Steps(sem, p, m, a) == b;
    var n: nat :| Steps(sem, p, n, b) == c;
    StepsAdd(sem, p, m, n, a);
  }

  // ----- code under construction -----

  /** The blocks so far, the block that instructions are added to, and the next unused register and label. */
  datatype Emit = Emit(blocks: Blocks, cur: Label, regs: nat, labels: nat) {
    function Get(l: Label): BB {
      if l in blocks then blocks[l] else BB([], Open)
    }

    function Here(): nat {
      |Get(cur).instrs|
    }

    predicate IsOpen() {
      Get(cur).term == Open
    }

    /** One more instruction; its result is a new register. */
    function Put(op: Op, args: seq<Operand>): Emit {
      this.(blocks := blocks[cur := Get(cur).(instrs := Get(cur).instrs + [Instr(regs, op, args)])], regs := regs + 1)
    }

    function NewBlock(): Emit {
      this.(blocks := blocks[labels := BB([], Open)], labels := labels + 1)
    }

    function Terminate(t: Term): Emit {
      this.(blocks := blocks[cur := Get(cur).(term := t)])
    }

    function MoveTo(l: Label): Emit {
      this.(cur := l)
    }

    /** A branch, unless the block already ends otherwise. */
    function JumpIfOpen(l: Label): Emit {
      if IsOpen() then Terminate(Br(l)) else this
    }

    function Erase(l: Label): Emit {
      this.(blocks := blocks - {l})
    }
  }
}
