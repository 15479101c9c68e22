/** What renaming computes, stated along the dominator tree: at every program point, the operand that
    currently stands for each variable and the operands that replaced loads. */
module RenameSpec {
  import opened Cfg
  import opened IdomTheory
  import opened FrontierTheory
  import opened Ssa

  /** A function with its dominator information, the variables that get a phi in each block, and the
      place where each register is defined. */
  datatype Ctx = Ctx(f: Func, t: Numbering, w: Links, place: seq<seq<Slot>>, site: map<Reg, (Block, nat)>) {
    function Instrs(b: Block): seq<Instr> {
      InstrsOf(f, b)
    }

    function Placed(b: Block): seq<Slot> {
      if b < |place| then place[b] else []
    }
  }

  /** The top of each variable's stack, and the operands that loads have been replaced with. */
  datatype Info = Info(tops: map<Slot, Operand>, sub: map<Reg, Operand>)

  function Resolve(sub: map<Reg, Operand>, o: Operand): Operand {
    if o.Use? && o.r in sub then sub[o.r] else o
  }

  function ResolveAll(sub: map<Reg, Operand>, os: seq<Operand>): (r: seq<Operand>)
    ensures |r| == |os|
  {
    if os == [] then [] else ResolveAll(sub, os[..|os| - 1]) + [Resolve(sub, os[|os| - 1])]
  }

  function StepInfo(info: Info, x: Instr): Info {
    match x
    case Load(d, s) => if s in info.tops then info.(sub := info.sub[d := info.tops[s]]) else info
    case Store(o, s) => info.(tops := info.tops[s := Resolve(info.sub, o)])
    case _ => info
  }

  /** Renaming deletes the stores, and the loads of a variable that has a value; every operand that
      stays is resolved. */
  function Renamed(info: Info, x: Instr): seq<Instr> {
    match x
    case Load(_, s) => if s in info.tops then [] else [x]
    case Store(_, _) => []
    case Op(d, op, args) => [Op(d, op, ResolveAll(info.sub, args))]
    case Alloca(_, _) => [x]
  }

  /** Afterwards the allocas of int and float variables go. */
  function DropScalars(xs: seq<Instr>): seq<Instr> {
    if xs == [] then []
    else
      var last := xs[|xs| - 1];
      DropScalars(xs[..|xs| - 1]) + if last.Alloca? && last.scalar then [] else [last]
  }

  function ResolveTerm(sub: map<Reg, Operand>, t: Term): Term {
    match t
    case CondBr(c, yes, no) => CondBr(Resolve(sub, c), yes, no)
    case Ret(Some(o)) => Ret(Some(Resolve(sub, o)))
    case _ => t
  }

  function Scan(xs: seq<Instr>, info: Info): Info {
    if xs == [] then info else StepInfo(Scan(xs[..|xs| - 1], info), xs[|xs| - 1])
  }

  function RenamedOf(xs: seq<Instr>, info: Info): seq<Instr> {
    if xs == [] then []
    else RenamedOf(xs[..|xs| - 1], info) + Renamed(Scan(xs[..|xs| - 1], info), xs[|xs| - 1])
  }

  function KeptOf(xs: seq<Instr>, info: Info): seq<Instr> {
    DropScalars(RenamedOf(xs, info))
  }

  lemma {:induction false} DropAppend(xs: seq<Instr>, ys: seq<Instr>)
    ensures DropScalars(xs + ys) == DropScalars(xs) + DropScalars(ys)
  {
    if ys == [] {
      assert xs + ys == xs;
    } else {
      assert (xs + ys)[..|xs + ys| - 1] == xs + ys[..|ys| - 1];
      DropAppend(xs, ys[..|ys| - 1]);
    }
  }

  lemma KeptSnoc(xs: seq<Instr>, info: Info)
    requires xs != []
    ensures KeptOf(xs, info) ==
              KeptOf(xs[..|xs| - 1], info) + DropScalars(Renamed(Scan(xs[..|xs| - 1], info), xs[|xs| - 1]))
  {
    DropAppend(RenamedOf(xs[..|xs| - 1], info), Renamed(Scan(xs[..|xs| - 1], info), xs[|xs| - 1]));
  }

  lemma DropOne(x: Instr)
    ensures DropScalars([x]) == if x.Alloca? && x.scalar then [] else [x]
  {
    assert [x][..0] == [];
  }

  function PushPhis(tops: map<Slot, Operand>, b: Block, ss: seq<Slot>): map<Slot, Operand> {
    tops + map s | s in ss :: Use(PhiAt(b, s))
  }

  /** At the head of b: what its immediate dominator left, with b's own phis on top. */
  function InfoIn(c: Ctx, b: Block): Info
    decreases if b in c.t.id then c.t.top - c.t.id[b] else 0, 0
  {
    var above := if Up(c.t, c.w, b) then InfoOut(c, c.w[b]) else Info(map[], map[]);
    above.(tops := PushPhis(above.tops, b, c.Placed(b)))
  }

  function InfoOut(c: Ctx, b: Block): Info
    decreases if b in c.t.id then c.t.top - c.t.id[b] else 0, 1
  {
    Scan(c.Instrs(b), InfoIn(c, b))
  }

  function InfoAt(c: Ctx, b: Block, i: nat): Info
    requires i <= |c.Instrs(b)|
  {
    Scan(c.Instrs(b)[..i], InfoIn(c, b))
  }

  // ----- well-formed SSA input -----

  /** r is an argument, a phi of a dominator of b, or defined by an instruction that comes before
      position i of b or lies in a strict dominator of b. */
  ghost predicate Known(c: Ctx, b: Block, i: nat, r: Reg) {
    match r
    case PhiAt(d, _) => d in Chain(c.t, c.w, b)
    case Temp(_) =>
      || r in c.f.args
      || (r in c.site && c.site[r].0 in Chain(c.t, c.w, b) && (c.site[r].0 == b ==> c.site[r].1 < i))
  }

  ghost predicate KnownOperand(c: Ctx, b: Block, i: nat, o: Operand) {
    o.Use? ==> Known(c, b, i, o.r)
  }

  ghost predicate DominatorInfo(c: Ctx) {
    ValidNumbering(c.f.g, c.t) && Rising(c.f.g, c.t, c.w) && Exact(c.f.g, c.t, c.w)
  }

  /** No phis yet; each register has one definition; in reachable blocks definitions dominate uses;
      branches follow the edges of the graph, and none leads to the entry. */
  ghost predicate WellFormed(c: Ctx) {
    && |c.f.code| == |c.f.phis| == |c.place| == |c.f.g.succs|
    && (forall b: Block, x: Block {:trigger c.f.g.Edge(b, x)} :: c.f.g.Edge(b, x) ==> x != c.f.g.entry)
    && (forall b: Block, x: Block {:trigger x in Targets(c.f.code[b].term)} ::
          b < |c.f.code| && x in Targets(c.f.code[b].term) ==> c.f.g.Edge(b, x))
    && (forall b {:trigger c.f.phis[b]} :: 0 <= b < |c.f.phis| ==> c.f.phis[b] == [])
    && (forall r {:trigger r in c.f.args} :: r in c.f.args ==> r.Temp?)
    && (forall b: Block, i, r {:trigger Defines(c.Instrs(b)[i], r)} ::
          0 <= i < |c.Instrs(b)| && Defines(c.Instrs(b)[i], r) ==>
            r.Temp? && r !in c.f.args && r in c.site && c.site[r] == (b, i))
    && (forall r {:trigger c.site[r]} :: r in c.site ==>
          c.site[r].1 < |c.Instrs(c.site[r].0)| && Defines(c.Instrs(c.site[r].0)[c.site[r].1], r))
    && (forall b: Block, i, r {:trigger Uses(c.Instrs(b)[i], r)} ::
          b in c.w && 0 <= i < |c.Instrs(b)| && Uses(c.Instrs(b)[i], r) ==> r.Temp? && Known(c, b, i, r))
    && (forall b: Block, r {:trigger TermUses(c.f.code[b].term, r)} ::
          b in c.w && b < |c.f.code| && TermUses(c.f.code[b].term, r) ==> r.Temp? && Known(c, b, |c.Instrs(b)|, r))
  }

  predicate StoresTo(xs: seq<Instr>, s: Slot) {
    exists i :: 0 <= i < |xs| && xs[i].Store? && xs[i].slot == s
  }

  /** The blocks that give variable s a new value. */
  predicate DefBlock(c: Ctx, b: Block, s: Slot) {
    StoresTo(c.Instrs(b), s) || s in c.Placed(b)
  }

  /** Every block in the dominance frontier of a reachable definition of s has a phi for s. */
  ghost predicate PhisSuffice(c: Ctx) {
    forall x, b: Block, s {:trigger DefBlock(c, x, s), c.f.g.InFrontier(x, b)} ::
      x in c.w && DefBlock(c, x, s) && c.f.g.InFrontier(x, b) ==> s in c.Placed(b)
  }

  // ----- the information is stable: it only mentions known registers -----

  ghost predicate Stable(c: Ctx, b: Block, i: nat, info: Info) {
    && (forall s {:trigger info.tops[s]} :: s in info.tops ==> KnownOperand(c, b, i, info.tops[s]))
    && (forall r {:trigger info.sub[r]} :: r in info.sub ==>
         r.Temp? && Known(c, b, i, r) && KnownOperand(c, b, i, info.sub[r]))
  }

  lemma KnownBelow(c: Ctx, b: Block, i: nat, r: Reg)
    requires Up(c.t, c.w, b) && Known(c, c.w[b], i, r)
    ensures Known(c, b, 0, r)
  {
    NotAbove(c.t, c.w, b);
    assert Chain(c.t, c.w, b) == {b} + Chain(c.t, c.w, c.w[b]);
  }

  lemma StableStep(c: Ctx, b: Block, i: nat, info: Info)
    requires WellFormed(c) && b in c.w && i < |c.Instrs(b)| && Stable(c, b, i, info)
    ensures Stable(c, b, i + 1, StepInfo(info, c.Instrs(b)[i]))
  {
    var x := c.Instrs(b)[i];
    if x.Store? && x.src.Use? {
      assert Uses(x, x.src.r);
    }
    if x.Load? {
      assert Defines(x, x.dst);
      assert c.site[x.dst] == (b, i);
    }
  }

  lemma {:induction false} StableAt(c: Ctx, b: Block, i: nat)
    requires WellFormed(c) && DominatorInfo(c) && b in c.w && i <= |c.Instrs(b)|
    ensures Stable(c, b, i, InfoAt(c, b, i))
    decreases if b in c.t.id then c.t.top - c.t.id[b] else 0, i
  {
    if i > 0 {
      StableAt(c, b, i - 1);
      StableStep(c, b, i - 1, InfoAt(c, b, i - 1));
      assert c.Instrs(b)[..i][..i - 1] == c.Instrs(b)[..i - 1];
    } else if Up(c.t, c.w, b) {
      var n := |c.Instrs(c.w[b])|;
      StableAt(c, c.w[b], n);
      assert c.Instrs(c.w[b])[..n] == c.Instrs(c.w[b]);
      StableEnter(c, b, n, InfoOut(c, c.w[b]));
    }
  }

  lemma StableEnter(c: Ctx, b: Block, n: nat, info: Info)
    requires Up(c.t, c.w, b) && Stable(c, c.w[b], n, info)
    ensures Stable(c, b, 0, info.(tops := PushPhis(info.tops, b, c.Placed(b))))
  {
    forall r | Known(c, c.w[b], n, r)
      ensures Known(c, b, 0, r)
    {
      KnownBelow(c, b, n, r);
    }
  }
}
