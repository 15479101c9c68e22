/** What emitting code changes, and the discipline it keeps: at any time the block under construction is
    the only new one without terminator, and branches lead to blocks that exist. */
module BuilderGrowth {
  import opened Cfg
  import opened Cminus
  import opened BlockCode
  import opened BuilderSpec

  function Targets(t: Term): set<Label> {
    match t case Br(l) => {l} case CondBr(_, y, n) => {y, n} case _ => {}
  }

  ghost predicate TargetsIn(bs: Blocks) {
    forall l, t {:trigger l in bs, t in bs} {:trigger t in Targets(bs[l].term)} ::
      l in bs && t in Targets(bs[l].term) ==> t in bs
  }

  ghost predicate Sane(s: Emit) {
    && s.cur in s.blocks && (forall l {:trigger l in s.blocks} :: l in s.blocks ==> l < s.labels)
    && TargetsIn(s.blocks)
  }

  /** Everything but the current block stays, and that one only gets longer. */
  ghost predicate Keeps(s: Emit, r: Emit) {
    && s.labels <= r.labels && s.regs <= r.regs && s.cur in s.blocks && s.cur in r.blocks
    && (forall l {:trigger l in r.blocks} {:trigger l in s.blocks} :: l in s.blocks && l != s.cur ==>
         l in r.blocks && r.blocks[l] == s.blocks[l])
    && s.blocks[s.cur].instrs <= r.blocks[s.cur].instrs
    && (s.blocks[s.cur].term != Open ==> r.blocks[s.cur] == s.blocks[s.cur])
  }

  /** The open blocks are the current one and those that were open before. */
  ghost predicate OpenOk(s: Emit, r: Emit) {
    && (r.cur == s.cur || r.cur !in s.blocks)
    && forall l {:trigger r.blocks[l]} :: l in r.blocks && r.blocks[l].term == Open ==>
         l == r.cur || (l in s.blocks && l != s.cur && s.blocks[l].term == Open)
  }

  /** Branches that were not there before lead to new blocks. */
  ghost predicate NewTargets(s: Emit, r: Emit) {
    forall l {:trigger r.blocks[l]} :: l in r.blocks ==>
      || (l in s.blocks && r.blocks[l].term == s.blocks[l].term)
      || forall t :: t in Targets(r.blocks[l].term) ==> t >= s.labels
  }

  ghost predicate Grows(s: Emit, r: Emit) {
    Sane(r) && Keeps(s, r) && OpenOk(s, r) && NewTargets(s, r)
  }

  lemma GrowsSelf(s: Emit)
    requires Sane(s)
    ensures Grows(s, s)
  {
  }

  lemma GrowsTrans(a: Emit, b: Emit, c: Emit)
    requires Grows(a, b) && Grows(b, c)
    ensures Grows(a, c)
  {
    hide Sane;
    assert a.cur in b.blocks && a.cur in c.blocks;
  }

  lemma PutGrows(s: Emit, op: Op, args: seq<Operand>)
    requires Sane(s) && s.IsOpen()
    ensures Grows(s, s.Put(op, args)) && s.Put(op, args).IsOpen()
  {
  }

  ghost predicate Bound(o: Operand, n: nat) {
    o.R? ==> o.r < n
  }

  ghost predicate AllBound(os: seq<Operand>, n: nat) {
    forall i {:trigger os[i]} :: 0 <= i < |os| ==> Bound(os[i], n)
  }

  /** Every variable is at a constant address, or at one held by an early register. */
  ghost predicate ScopeBound(sc: Names, n: nat) {
    forall i: int, id: Id {:trigger sc[i][id]} :: 0 <= i < |sc| && id in sc[i] ==> Bound(sc[i][id].at, n)
  }

  lemma {:induction false} FindBound(sc: Names, id: Id, n: nat)
    requires ScopeBound(sc, n) && Find(sc, id).Some?
    ensures Bound(Find(sc, id).value.at, n)
  {
    if id in sc[|sc| - 1] {
      assert Bound(sc[|sc| - 1][id].at, n);
    } else {
      var init := sc[..|sc| - 1];
      assert forall i :: 0 <= i < |init| ==> init[i] == sc[i];
      FindBound(init, id, n);
    }
  }

  lemma BoundMore(sc: Names, m: nat, n: nat)
    requires ScopeBound(sc, m) && m <= n
    ensures ScopeBound(sc, n)
  {
  }

  lemma ConvertGrows(s: Emit, from: Ty, to: Ty, a: Operand)
    requires Sane(s) && s.IsOpen() && Bound(a, s.regs)
    ensures var (r, o) := CompConvert(s, from, to, a); Grows(s, r) && r.IsOpen() && Bound(o, r.regs)
  {
    GrowsSelf(s);
    PutGrows(s, SiToFp, [a]);
    PutGrows(s, FpToSi, [a]);
  }

  lemma BoundLater(o: Operand, m: nat, n: nat)
    requires Bound(o, m) && m <= n
    ensures Bound(o, n)
  {
  }

  lemma OperateGrows(s: Emit, op: BinOp, lt: Ty, rt: Ty, l: Operand, r: Operand)
    requires Sane(s) && s.IsOpen() && Bound(l, s.regs) && Bound(r, s.regs)
    ensures var (z, o) := CompOperate(s, op, lt, rt, l, r); Grows(s, z) && z.IsOpen() && Bound(o, z.regs)
  {
    hide Grows, Sane, CompConvert, Emit.Put, Bound, Emit.IsOpen;
    var common := if lt == rt then lt else FloatT;
    ConvertGrows(s, lt, common, l);
    var (s1, l') := CompConvert(s, lt, common, l);
    GrowsSane(s, s1);
    BoundLater(r, s.regs, s1.regs);
    ConvertGrows(s1, rt, common, r);
    var (s2, r') := CompConvert(s1, rt, common, r);
    GrowsTrans(s, s1, s2);
    GrowsSane(s, s2);
    match op {
      case ArithOp(a) => PutEnd(s, s2, Compute(common == IntT, a), [l', r']);
      case RelOp(c) =>
        PutEnd(s, s2, Compare(common == IntT, c), [l', r']);
        PutEnd(s, s2.Put(Compare(common == IntT, c), [l', r']), Zext, [R(s2.regs)]);
    }
  }

  lemma GrowsSane(s: Emit, r: Emit)
    requires Grows(s, r)
    ensures Sane(r) && s.regs <= r.regs && s.labels <= r.labels
  {
  }

  lemma GuardGrows(s: Emit, ret: Ty, n: Operand)
    requires Sane(s) && s.IsOpen()
    ensures Grows(s, CompGuard(s, ret, n)) && CompGuard(s, ret, n).IsOpen()
  {
  }

  lemma ElemGrows(x: Entry<Operand>, n: Operand, s: Emit)
    requires Sane(s) && s.IsOpen()
    ensures var (r, o) := CompElem(x, n, s); Grows(s, r) && r.IsOpen() && Bound(o, r.regs)
  {
    if x.ty.PtrT? {
      var s1 := s.Put(Load(x.ty), [x.at]);
      PutGrows(s, Load(x.ty), [x.at]);
      PutGrows(s1, Elem(x.ty), [R(s.regs), n]);
      GrowsTrans(s, s1, s1.Put(Elem(x.ty), [R(s.regs), n]));
    } else {
      PutGrows(s, Elem(x.ty), [x.at, n]);
    }
  }

  ghost predicate ExprEnd(s: Emit, r: Emit, o: Operand) {
    Grows(s, r) && r.IsOpen() && Bound(o, r.regs)
  }

  /** One more instruction at the end. */
  lemma PutEnd(s: Emit, r: Emit, op: Op, args: seq<Operand>)
    requires Grows(s, r) && r.IsOpen()
    ensures ExprEnd(s, r.Put(op, args), R(r.regs))
  {
    GrowsSane(s, r);
    PutGrows(r, op, args);
    GrowsTrans(s, r, r.Put(op, args));
  }

  lemma {:induction false} ExprGrows(sig: Sig, sc: Names, e: Expr, s: Emit)
    requires Sane(s) && s.IsOpen() && ScopeBound(sc, s.regs)
    ensures var (r, o) := CompExpr(sig, sc, e, s); ExprEnd(s, r, o)
    decreases e, 1
  {
    hide Grows, Sane, ScopeBound, CompOperate, CompConvert;
    GrowsSelf(s);
    match e {
      case NumI(_) =>
      case NumF(_) =>
      case Var(id, idx) =>
        if Find(sc, id).Some? {
          var x := Find(sc, id).value;
          FindBound(sc, id, s.regs);
          PutEnd(s, s, Elem(x.ty), [x.at, Const(0)]);
          AddressGrows(sig, sc, x, idx, s);
          var (s1, p) := CompAddress(sig, sc, x, idx, s);
          PutEnd(s, s1, Load(VarTy(x.ty, idx.Some?)), [p]);
        }
      case Assign(id, idx, rhs) => AssignGrows(sig, sc, e, s);
      case Bin(op, l, r) => BinGrows(sig, sc, e, s);
      case Call(id, args) =>
        if id in sig.funs {
          ArgsGrow(sig, sc, sig.funs[id].params, args, s);
          var (s1, os) := CompArgs(sig, sc, sig.funs[id].params, args, s);
          PutEnd(s, s1, CallF(id), os);
        }
    }
  }

  lemma {:induction false} AssignGrows(sig: Sig, sc: Names, e: Expr, s: Emit)
    requires Sane(s) && s.IsOpen() && ScopeBound(sc, s.regs) && e.Assign?
    ensures var (r, o) := CompExpr(sig, sc, e, s); ExprEnd(s, r, o)
    decreases e, 0
  {
    hide Grows, Sane, ScopeBound, CompConvert;
    ExprGrows(sig, sc, e.rhs, s);
    var (s1, v) := CompExpr(sig, sc, e.rhs, s);
    if Find(sc, e.id).Some? {
      var x := Find(sc, e.id).value;
      GrowsSane(s, s1);
      BoundMore(sc, s.regs, s1.regs);
      FindBound(sc, e.id, s1.regs);
      AddressGrows(sig, sc, x, e.idx, s1);
      var (s2, p) := CompAddress(sig, sc, x, e.idx, s1);
      GrowsSane(s1, s2);
      GrowsTrans(s, s1, s2);
      ConvertGrows(s2, TypeOf(sig, TysOf(sc), e.rhs), VarTy(x.ty, e.idx.Some?), v);
      var (s3, v') := CompConvert(s2, TypeOf(sig, TysOf(sc), e.rhs), VarTy(x.ty, e.idx.Some?), v);
      GrowsTrans(s, s2, s3);
      PutEnd(s, s3, Store(VarTy(x.ty, e.idx.Some?)), [v', p]);
    }
  }

  lemma {:induction false} BinGrows(sig: Sig, sc: Names, e: Expr, s: Emit)
    requires Sane(s) && s.IsOpen() && ScopeBound(sc, s.regs) && e.Bin?
    ensures var (r, o) := CompExpr(sig, sc, e, s); ExprEnd(s, r, o)
    decreases e, 0
  {
    hide Grows, Sane, ScopeBound, CompOperate;
    ExprGrows(sig, sc, e.l, s);
    var (s1, a) := CompExpr(sig, sc, e.l, s);
    GrowsSane(s, s1);
    BoundMore(sc, s.regs, s1.regs);
    ExprGrows(sig, sc, e.r, s1);
    var (s2, b) := CompExpr(sig, sc, e.r, s1);
    GrowsSane(s1, s2);
    GrowsTrans(s, s1, s2);
    OperateGrows(s2, e.op, TypeOf(sig, TysOf(sc), e.l), TypeOf(sig, TysOf(sc), e.r), a, b);
    GrowsTrans(s, s2, CompOperate(s2, e.op, TypeOf(sig, TysOf(sc), e.l), TypeOf(sig, TysOf(sc), e.r), a, b).0);
  }

  lemma {:induction false} AddressGrows(sig: Sig, sc: Names, x: Entry<Operand>, idx: Option<Expr>, s: Emit)
    requires Sane(s) && s.IsOpen() && ScopeBound(sc, s.regs) && Bound(x.at, s.regs)
    ensures var (r, o) := CompAddress(sig, sc, x, idx, s); ExprEnd(s, r, o)
    decreases idx, 0
  {
    hide Grows, Sane, ScopeBound, CompConvert, CompGuard, CompElem;
    GrowsSelf(s);
    if idx.Some? {
      var i := idx.value;
      ExprGrows(sig, sc, i, s);
      var (s1, n) := CompExpr(sig, sc, i, s);
      GrowsSane(s, s1);
      ConvertGrows(s1, TypeOf(sig, TysOf(sc), i), IntT, n);
      var (s2, n') := CompConvert(s1, TypeOf(sig, TysOf(sc), i), IntT, n);
      GrowsSane(s1, s2);
      GrowsTrans(s, s1, s2);
      GuardGrows(s2, sig.ret, n');
      var s3 := CompGuard(s2, sig.ret, n');
      GrowsSane(s2, s3);
      GrowsTrans(s, s2, s3);
      ElemGrows(x, n', s3);
      GrowsTrans(s, s3, CompElem(x, n', s3).0);
    }
  }

  lemma {:induction false} ArgsGrow(sig: Sig, sc: Names, params: seq<Ty>, args: Args, s: Emit)
    requires Sane(s) && s.IsOpen() && ScopeBound(sc, s.regs)
    ensures var (r, os) := CompArgs(sig, sc, params, args, s); Grows(s, r) && r.IsOpen() && AllBound(os, r.regs)
    decreases args, 0
  {
    hide Grows, Sane, ScopeBound, CompConvert;
    GrowsSelf(s);
    if args.Arg? && params != [] {
      ArgsGrow(sig, sc, params[..|params| - 1], args.init, s);
      var (s1, os) := CompArgs(sig, sc, params[..|params| - 1], args.init, s);
      GrowsSane(s, s1);
      BoundMore(sc, s.regs, s1.regs);
      ExprGrows(sig, sc, args.last, s1);
      var (s2, o) := CompExpr(sig, sc, args.last, s1);
      GrowsSane(s1, s2);
      GrowsTrans(s, s1, s2);
      ConvertGrows(s2, TypeOf(sig, TysOf(sc), args.last), params[|params| - 1], o);
      var (s3, o') := CompConvert(s2, TypeOf(sig, TysOf(sc), args.last), params[|params| - 1], o);
      GrowsSane(s2, s3);
      GrowsTrans(s, s2, s3);
      assert forall i :: 0 <= i < |os| ==> Bound(os[i], s1.regs);
    }
  }

  // ----- statements -----

  lemma {:induction false} DeclsGrow(sc: Names, decls: seq<Decl>, s: Emit)
    requires Sane(s) && s.IsOpen() && ScopeBound(sc, s.regs) && sc != []
    ensures var (r, sc1) := CompDecls(sc, decls, s); Grows(s, r) && r.IsOpen() && ScopeBound(sc1, r.regs)
  {
    GrowsSelf(s);
    if decls != [] {
      DeclsGrow(sc, decls[..|decls| - 1], s);
      var (s1, sc1) := CompDecls(sc, decls[..|decls| - 1], s);
      var d := decls[|decls| - 1];
      hide Grows, Sane;
      PutEnd(s, s1, Alloca(d.ty), []);
      PushBound(sc1, d.id, Entry(d.ty, R(s1.regs)), s1.regs);
    }
  }

  lemma PushBound(sc: Names, id: Id, e: Entry<Operand>, n: nat)
    requires ScopeBound(sc, n) && sc != [] && Bound(e.at, n + 1)
    ensures ScopeBound(Push(sc, id, e), n + 1)
  {
    var sc': Names := Push(sc, id, e);
    forall i: int, x: Id | 0 <= i < |sc'| && x in sc'[i]
      ensures Bound(sc'[i][x].at, n + 1)
    {
      if i < |sc| - 1 || x != id {
        assert x in sc[i] && sc'[i][x] == sc[i][x];
      }
    }
  }

  lemma TerminateGrows(s: Emit, t: Term)
    requires Sane(s) && s.IsOpen() && t != Open && Targets(t) == {}
    ensures Grows(s, s.Terminate(t))
  {
  }

  /** Three empty blocks after s, the old one closed by a branch to two of them, and on to the first. */
  ghost predicate Forked(s: Emit, r: Emit, no: Label) {
    var l := s.labels;
    && r.cur == l && r.labels == l + 3 && s.regs <= r.regs
    && (forall b {:trigger b in r.blocks} :: b in r.blocks <==> b in s.blocks || l <= b < l + 3)
    && (forall b {:trigger r.blocks[b]} :: l <= b < l + 3 ==> r.blocks[b] == BB([], Open))
    && (forall b {:trigger r.blocks[b]} :: b in s.blocks && b != s.cur ==> r.blocks[b] == s.blocks[b])
    && s.cur in s.blocks && s.blocks[s.cur].instrs <= r.blocks[s.cur].instrs
    && r.blocks[s.cur].term.CondBr? && Targets(r.blocks[s.cur].term) == {l, no}
  }

  lemma ThreeBlocks(s: Emit)
    ensures var r, l := s.NewBlock().NewBlock().NewBlock(), s.labels;
            && r.cur == s.cur && r.regs == s.regs && r.labels == l + 3
            && r.blocks == s.blocks[l := BB([], Open)][l + 1 := BB([], Open)][l + 2 := BB([], Open)]
  {
  }

  lemma TestCloses(s: Emit, ty: Ty, v: Operand, yes: Label, no: Label)
    requires s.cur in s.blocks
    ensures var r, here := CompTest(s, ty, v, yes, no), s.blocks[s.cur].instrs;
            && r.cur == s.cur && r.labels == s.labels && r.regs == s.regs + 1 && s.cur in r.blocks
            && r.blocks == s.blocks[s.cur := BB(r.blocks[s.cur].instrs, CondBr(R(s.regs), yes, no))]
            && here <= r.blocks[s.cur].instrs
  {
  }

  lemma IfHeadForks(s: Emit, ty: Ty, v: Operand, hasElse: bool)
    requires Sane(s)
    ensures Forked(s, CompIfHead(s, ty, v, hasElse), if hasElse then s.labels + 1 else s.labels + 2)
  {
    hide TargetsIn, CompTest, Emit.NewBlock;
    ThreeBlocks(s);
    var n := s.NewBlock().NewBlock().NewBlock();
    TestCloses(n, ty, v, s.labels, if hasElse then s.labels + 1 else s.labels + 2);
  }

  lemma ForkedShape(s: Emit, r: Emit, no: Label)
    requires Sane(s) && s.IsOpen() && Forked(s, r, no) && (no == s.labels + 1 || no == s.labels + 2)
    ensures r.IsOpen() && IfMid(s, r, {s.labels + 1, s.labels + 2})
  {
  }

  lemma ForkedUnused(s: Emit, r: Emit)
    requires Sane(s) && Forked(s, r, s.labels + 2)
    ensures Unused(r, s.labels + 1)
  {
    forall b | b in r.blocks
      ensures s.labels + 1 !in Targets(r.blocks[b].term)
    {
      assert b in s.blocks && b != s.cur ==> r.blocks[b] == s.blocks[b];
    }
  }

  lemma IfHeadShape(s: Emit, ty: Ty, v: Operand, hasElse: bool)
    requires Sane(s) && s.IsOpen()
    ensures var r := CompIfHead(s, ty, v, hasElse);
            var f, k := s.labels + 1, s.labels + 2;
            r.cur == s.labels && r.IsOpen() && IfMid(s, r, {f, k}) && (hasElse || Unused(r, f))
  {
    hide CompIfHead, IfMid, Sane, Unused, Emit.IsOpen;
    var r := CompIfHead(s, ty, v, hasElse);
    IfHeadForks(s, ty, v, hasElse);
    ForkedShape(s, r, if hasElse then s.labels + 1 else s.labels + 2);
    if !hasElse {
      ForkedUnused(s, r);
    }
  }

  /** No branch leads to l. */
  ghost predicate Unused(s: Emit, l: Label) {
    forall b {:trigger s.blocks[b]} :: b in s.blocks ==> l !in Targets(s.blocks[b].term)
  }

  /** Between the pieces of a statement: the block that was current is closed, and the labels in ls, new
      as well, wait for their turn, empty. */
  ghost predicate IfMid(s: Emit, r: Emit, ls: set<Label>) {
    && Sane(r) && Keeps(s, r) && NewTargets(s, r) && r.cur !in s.blocks && r.cur !in ls
    && (forall l {:trigger l in ls} :: l in ls ==>
         l in r.blocks && l !in s.blocks && l >= s.labels && r.blocks[l] == BB([], Open))
    && (forall l {:trigger r.blocks[l]} :: l in r.blocks && r.blocks[l].term == Open ==>
          l == r.cur || l in ls || (l in s.blocks && l != s.cur && s.blocks[l].term == Open))
  }

  lemma MidFrom(s: Emit, s1: Emit, r: Emit, ls: set<Label>)
    requires Grows(s, s1) && IfMid(s1, r, ls)
    ensures IfMid(s, r, ls)
  {
    hide Sane;
  }

  /** A piece has been translated. */
  lemma MidGrows(s: Emit, a: Emit, b: Emit, ls: set<Label>)
    requires IfMid(s, a, ls) && Grows(a, b)
    ensures Sane(b) && Keeps(s, b) && NewTargets(s, b) && b.cur !in s.blocks && b.cur !in ls
    ensures forall l {:trigger l in ls} :: l in ls ==>
      l in b.blocks && l !in s.blocks && l >= s.labels && b.blocks[l] == BB([], Open)
    ensures forall l {:trigger b.blocks[l]} :: l in b.blocks && b.blocks[l].term == Open ==>
              l == b.cur || l in ls || (l in s.blocks && l != s.cur && s.blocks[l].term == Open)
  {
    hide Sane;
    assert s.cur in a.blocks && s.cur in b.blocks && a.cur in a.blocks;
  }

  /** It jumps away, and the next one is begun. */
  lemma MidNext(s: Emit, a: Emit, b: Emit, ls: set<Label>, l: Label, next: Label)
    requires IfMid(s, a, ls) && Grows(a, b) && next in ls && l in b.blocks && l >= s.labels
    ensures IfMid(s, b.JumpIfOpen(l).MoveTo(next), ls - {next})
    ensures b.JumpIfOpen(l).MoveTo(next).IsOpen() && b.JumpIfOpen(l).MoveTo(next).Here() == 0
  {
    MidGrows(s, a, b, ls);
    hide Grows, IfMid;
    MidJump(s, b, ls, l, next);
  }

  lemma MidJump(s: Emit, b: Emit, ls: set<Label>, l: Label, next: Label)
    requires Sane(b) && Keeps(s, b) && NewTargets(s, b) && b.cur !in s.blocks && b.cur !in ls && next in ls
    requires l in b.blocks && l >= s.labels
    requires forall l {:trigger l in ls} :: l in ls ==>
      l in b.blocks && l !in s.blocks && l >= s.labels && b.blocks[l] == BB([], Open)
    requires forall l {:trigger b.blocks[l]} :: l in b.blocks && b.blocks[l].term == Open ==>
               l == b.cur || l in ls || (l in s.blocks && l != s.cur && s.blocks[l].term == Open)
    ensures IfMid(s, b.JumpIfOpen(l).MoveTo(next), ls - {next})
    ensures b.JumpIfOpen(l).MoveTo(next).IsOpen() && b.JumpIfOpen(l).MoveTo(next).Here() == 0
  {
    var c := b.JumpIfOpen(l).MoveTo(next);
    assert c.blocks.Keys == b.blocks.Keys;
    assert Sane(c);
    hide Sane;
  }

  lemma MidEnd(s: Emit, r: Emit)
    requires IfMid(s, r, {})
    ensures Grows(s, r)
  {
  }

  lemma LoopHeadShape(s: Emit, ty: Ty, v: Operand)
    requires Sane(s) && s.IsOpen()
    ensures var r := CompLoopHead(s, ty, v); r.cur == s.labels && r.IsOpen() && IfMid(s, r, {s.labels + 1})
  {
  }

  lemma LoopStart(s: Emit)
    requires Sane(s) && s.IsOpen()
    ensures var r := s.NewBlock().JumpIfOpen(s.labels).MoveTo(s.labels); Grows(s, r) && r.IsOpen() && r.cur == s.labels
  {
  }

  lemma MidSane(s: Emit, r: Emit, ls: set<Label>)
    requires IfMid(s, r, ls)
    ensures Sane(r) && s.regs <= r.regs
  {
  }

  lemma {:induction false} StmtGrows(sig: Sig, sc: Names, st: Stmt, s: Emit)
    requires Sane(s) && s.IsOpen() && ScopeBound(sc, s.regs) && sc != []
    ensures Grows(s, CompStmt(sig, sc, st, s))
    decreases st, 1
  {
    hide Grows, Sane, ScopeBound, CompConvert;
    GrowsSelf(s);
    match st {
      case ExprS(None) =>
      case ExprS(Some(e)) => ExprGrows(sig, sc, e, s);
      case If(c, yes, no) => IfGrows(sig, sc, st, s);
      case While(c, loop) => WhileGrows(sig, sc, st, s);
      case Return(None) => TerminateGrows(s, Ret(None));
      case Return(Some(e)) =>
        ExprGrows(sig, sc, e, s);
        var (s1, v) := CompExpr(sig, sc, e, s);
        GrowsSane(s, s1);
        ConvertGrows(s1, TypeOf(sig, TysOf(sc), e), sig.ret, v);
        var (s2, v') := CompConvert(s1, TypeOf(sig, TysOf(sc), e), sig.ret, v);
        GrowsSane(s1, s2);
        GrowsTrans(s, s1, s2);
        TerminateGrows(s2, Ret(Some(v')));
        GrowsTrans(s, s2, s2.Terminate(Ret(Some(v'))));
      case Block(decls, body) =>
        LevelBound(sc, s.regs);
        DeclsGrow(sc + [map[]], decls, s);
        var (s1, sc1) := CompDecls(sc + [map[]], decls, s);
        GrowsSane(s, s1);
        StmtsGrow(sig, sc1, body, s1);
        GrowsTrans(s, s1, CompStmts(sig, sc1, body, s1));
    }
  }

  lemma LevelBound(sc: Names, n: nat)
    requires ScopeBound(sc, n)
    ensures ScopeBound(sc + [map[]], n)
  {
    var sc': Names := sc + [map[]];
    forall i: int, id: Id | 0 <= i < |sc'| && id in sc'[i]
      ensures Bound(sc'[i][id].at, n)
    {
      assert id in sc[i] && sc'[i][id] == sc[i][id];
    }
  }

  lemma {:induction false} IfGrows(sig: Sig, sc: Names, st: Stmt, s: Emit)
    requires Sane(s) && s.IsOpen() && ScopeBound(sc, s.regs) && sc != [] && st.If?
    ensures Grows(s, CompStmt(sig, sc, st, s))
    decreases st, 0
  {
    hide Grows, Sane, ScopeBound, CompIfHead, IfMid, Unused;
    ExprGrows(sig, sc, st.c, s);
    var (s1, v) := CompExpr(sig, sc, st.c, s);
    GrowsSane(s, s1);
    var f, k := s1.labels + 1, s1.labels + 2;
    IfHeadShape(s1, TypeOf(sig, TysOf(sc), st.c), v, st.no.Some?);
    var h := CompIfHead(s1, TypeOf(sig, TysOf(sc), st.c), v, st.no.Some?);
    MidSane(s1, h, {f, k});
    BoundMore(sc, s.regs, h.regs);
    StmtGrows(sig, sc, st.yes, h);
    var b := CompStmt(sig, sc, st.yes, h);
    MidHas(s1, h, b, {f, k}, k);
    if st.no.None? {
      MidErase(s1, h, b, f, k);
      GrowsTrans(s, s1, b.JumpIfOpen(k).Erase(f).MoveTo(k));
    } else {
      MidNext(s1, h, b, {f, k}, k, f);
      assert {f, k} - {f} == {k};
      var h2 := b.JumpIfOpen(k).MoveTo(f);
      MidSane(s1, h2, {k});
      BoundMore(sc, s.regs, h2.regs);
      StmtGrows(sig, sc, st.no.value, h2);
      var b2 := CompStmt(sig, sc, st.no.value, h2);
      MidHas(s1, h2, b2, {k}, k);
      MidNext(s1, h2, b2, {k}, k, k);
      assert {k} - {k} == {};
      MidEnd(s1, b2.JumpIfOpen(k).MoveTo(k));
      GrowsTrans(s, s1, b2.JumpIfOpen(k).MoveTo(k));
    }
  }

  lemma MidHas(s: Emit, a: Emit, b: Emit, ls: set<Label>, l: Label)
    requires IfMid(s, a, ls) && Grows(a, b) && l in ls
    ensures l in b.blocks && l >= s.labels
  {
  }

  lemma StaysUnused(a: Emit, b: Emit, f: Label)
    requires Grows(a, b) && Unused(a, f) && f < a.labels
    ensures Unused(b, f)
  {
    hide Sane;
    assert a.cur in a.blocks;
  }

  /** The unused block of an `if` without `else` goes. */
  lemma MidErase(s: Emit, a: Emit, b: Emit, f: Label, k: Label)
    requires IfMid(s, a, {f, k}) && Grows(a, b) && f != k && Unused(a, f)
    ensures Grows(s, b.JumpIfOpen(k).Erase(f).MoveTo(k))
  {
    MidGrows(s, a, b, {f, k});
    assert f in {f, k} && f in a.blocks && f < a.labels && k in {f, k};
    StaysUnused(a, b, f);
    hide Grows, IfMid;
    EraseJump(s, b, f, k);
  }

  lemma EraseJump(s: Emit, b: Emit, f: Label, k: Label)
    requires Sane(b) && Keeps(s, b) && NewTargets(s, b) && b.cur !in s.blocks && b.cur != f && b.cur != k && f != k
    requires Unused(b, f)
    requires f !in s.blocks && f in b.blocks && k !in s.blocks && k in b.blocks && k >= s.labels
    requires b.blocks[k] == BB([], Open)
    requires forall l {:trigger b.blocks[l]} :: l in b.blocks && b.blocks[l].term == Open ==>
               l == b.cur || l in {f, k} || (l in s.blocks && l != s.cur && s.blocks[l].term == Open)
    ensures Grows(s, b.JumpIfOpen(k).Erase(f).MoveTo(k))
  {
    JumpCloses(s, b, f, k);
    EraseEnds(s, b.JumpIfOpen(k), f, k);
  }

  /** After the jump the current block is closed, and nothing leads to f. */
  lemma JumpCloses(s: Emit, b: Emit, f: Label, k: Label)
    requires Sane(b) && Keeps(s, b) && NewTargets(s, b) && b.cur !in s.blocks && b.cur != f && b.cur != k && f != k
    requires Unused(b, f)
    requires f in b.blocks && k in b.blocks && k >= s.labels && b.blocks[k] == BB([], Open)
    requires forall l {:trigger b.blocks[l]} :: l in b.blocks && b.blocks[l].term == Open ==>
               l == b.cur || l in {f, k} || (l in s.blocks && l != s.cur && s.blocks[l].term == Open)
    ensures var c := b.JumpIfOpen(k);
            Sane(c) && Keeps(s, c) && NewTargets(s, c) && Unused(c, f) && f in c.blocks && k in c.blocks
    ensures var c := b.JumpIfOpen(k); forall l {:trigger c.blocks[l]} :: l in c.blocks && c.blocks[l].term == Open ==>
              l in {f, k} || (l in s.blocks && l != s.cur && s.blocks[l].term == Open)
  {
    var c := b.JumpIfOpen(k);
    assert c.blocks.Keys == b.blocks.Keys;
    assert forall l {:trigger c.blocks[l]} :: l in b.blocks && l != b.cur ==> c.blocks[l] == b.blocks[l];
    assert Sane(c);
    hide Sane;
  }

  lemma EraseEnds(s: Emit, c: Emit, f: Label, k: Label)
    requires Sane(c) && Keeps(s, c) && NewTargets(s, c) && Unused(c, f) && f in c.blocks && k in c.blocks
    requires f !in s.blocks && k !in s.blocks && f != k
    requires forall l {:trigger c.blocks[l]} :: l in c.blocks && c.blocks[l].term == Open ==>
               l in {f, k} || (l in s.blocks && l != s.cur && s.blocks[l].term == Open)
    ensures Grows(s, c.Erase(f).MoveTo(k))
  {
    var d := c.Erase(f).MoveTo(k);
    assert forall l {:trigger l in d.blocks} :: l in d.blocks <==> l in c.blocks && l != f;
    assert forall l {:trigger d.blocks[l]} :: l in d.blocks ==> d.blocks[l] == c.blocks[l];
    assert Sane(d);
    hide Sane;
  }

  lemma {:induction false} WhileGrows(sig: Sig, sc: Names, st: Stmt, s: Emit)
    requires Sane(s) && s.IsOpen() && ScopeBound(sc, s.regs) && sc != [] && st.While?
    ensures Grows(s, CompStmt(sig, sc, st, s))
    decreases st, 0
  {
    hide Grows, Sane, ScopeBound, CompLoopHead, IfMid;
    LoopStart(s);
    var l := s.labels;
    var s0 := s.NewBlock().JumpIfOpen(l).MoveTo(l);
    GrowsSane(s, s0);
    BoundMore(sc, s.regs, s0.regs);
    ExprGrows(sig, sc, st.c, s0);
    var (s1, v) := CompExpr(sig, sc, st.c, s0);
    GrowsSane(s0, s1);
    GrowsTrans(s, s0, s1);
    LoopHeadShape(s1, TypeOf(sig, TysOf(sc), st.c), v);
    var h := CompLoopHead(s1, TypeOf(sig, TysOf(sc), st.c), v);
    var k := s1.labels + 1;
    MidSane(s1, h, {k});
    BoundMore(sc, s.regs, h.regs);
    StmtGrows(sig, sc, st.loop, h);
    var b := CompStmt(sig, sc, st.loop, h);
    StillThere(s0, s1, h, b, {k});
    MidFrom(s, s1, h, {k});
    MidNext(s, h, b, {k}, l, k);
    assert {k} - {k} == {};
    MidEnd(s, b.JumpIfOpen(l).MoveTo(k));
  }

  lemma StillThere(s0: Emit, s1: Emit, h: Emit, b: Emit, ls: set<Label>)
    requires Grows(s0, s1) && IfMid(s1, h, ls) && Grows(h, b)
    ensures s0.cur in b.blocks
  {
    assert s0.cur in s1.blocks && s0.cur in h.blocks;
  }

  lemma {:induction false} StmtsGrow(sig: Sig, sc: Names, ss: Stmts, s: Emit)
    requires Sane(s) && s.IsOpen() && ScopeBound(sc, s.regs) && sc != []
    ensures Grows(s, CompStmts(sig, sc, ss, s))
    decreases ss, 1
  {
    hide Grows, Sane, ScopeBound;
    GrowsSelf(s);
    if ss.Then? {
      StmtGrows(sig, sc, ss.head, s);
      var s1 := CompStmt(sig, sc, ss.head, s);
      if s1.IsOpen() {
        GrowsSane(s, s1);
        BoundMore(sc, s.regs, s1.regs);
        StmtsGrow(sig, sc, ss.tail, s1);
        GrowsTrans(s, s1, CompStmts(sig, sc, ss.tail, s1));
      }
    }
  }

  // ----- where code may be added -----

  /** The current block is open, and names are bound to what exists: code may be added. */
  ghost predicate Emits(sc: Names, s: Emit) {
    Sane(s) && s.IsOpen() && ScopeBound(sc, s.regs)
  }

  lemma EmitsAfter(sc: Names, s: Emit, r: Emit)
    requires Emits(sc, s) && Grows(s, r)
    ensures Sane(r) && ScopeBound(sc, r.regs)
  {
    hide Grows, ScopeBound;
    GrowsSane(s, r);
    BoundMore(sc, s.regs, r.regs);
  }

  lemma ExprEmits(sig: Sig, sc: Names, e: Expr, s: Emit)
    requires Emits(sc, s)
    ensures Emits(sc, CompExpr(sig, sc, e, s).0)
  {
    hide Grows, ScopeBound, Sane, CompExpr;
    ExprGrows(sig, sc, e, s);
    EmitsAfter(sc, s, CompExpr(sig, sc, e, s).0);
  }

  lemma AddressEmits(sig: Sig, sc: Names, id: Id, idx: Option<Expr>, s: Emit)
    requires Emits(sc, s) && Find(sc, id).Some?
    ensures Emits(sc, CompAddress(sig, sc, Find(sc, id).value, idx, s).0)
  {
    hide Grows, ScopeBound, Sane, CompAddress;
    FindBound(sc, id, s.regs);
    AddressGrows(sig, sc, Find(sc, id).value, idx, s);
    EmitsAfter(sc, s, CompAddress(sig, sc, Find(sc, id).value, idx, s).0);
  }

  lemma ArgsEmits(sig: Sig, sc: Names, params: seq<Ty>, args: Args, s: Emit)
    requires Emits(sc, s)
    ensures Emits(sc, CompArgs(sig, sc, params, args, s).0)
  {
    hide Grows, ScopeBound, Sane, CompArgs;
    ArgsGrow(sig, sc, params, args, s);
    EmitsAfter(sc, s, CompArgs(sig, sc, params, args, s).0);
  }

  lemma DeclsEmits(sc: Names, decls: seq<Decl>, s: Emit)
    requires Emits(sc, s) && sc != []
    ensures var (r, sc1) := CompDecls(sc, decls, s); Emits(sc1, r)
  {
    hide Grows, ScopeBound, Sane, CompDecls;
    DeclsGrow(sc, decls, s);
    GrowsSane(s, CompDecls(sc, decls, s).0);
  }

  /** Both branches of an `if` start in an open block. */
  lemma IfEmits(sig: Sig, sc: Names, st: Stmt, s: Emit)
    requires Emits(sc, s) && sc != [] && st.If?
    ensures var (s1, v) := CompExpr(sig, sc, st.c, s); var f, k := s1.labels + 1, s1.labels + 2;
            var h := CompIfHead(s1, TypeOf(sig, TysOf(sc), st.c), v, st.no.Some?);
            var b := CompStmt(sig, sc, st.yes, h);
            Emits(sc, h) && (st.no.Some? ==> Emits(sc, b.JumpIfOpen(k).MoveTo(f)))
  {
    hide Grows, Sane, ScopeBound, CompIfHead, IfMid, Unused, CompStmt, CompExpr, Emit.JumpIfOpen;
    ExprGrows(sig, sc, st.c, s);
    var (s1, v) := CompExpr(sig, sc, st.c, s);
    GrowsSane(s, s1);
    var f, k := s1.labels + 1, s1.labels + 2;
    IfHeadShape(s1, TypeOf(sig, TysOf(sc), st.c), v, st.no.Some?);
    var h := CompIfHead(s1, TypeOf(sig, TysOf(sc), st.c), v, st.no.Some?);
    MidSane(s1, h, {f, k});
    BoundMore(sc, s.regs, h.regs);
    StmtGrows(sig, sc, st.yes, h);
    var b := CompStmt(sig, sc, st.yes, h);
    MidHas(s1, h, b, {f, k}, k);
    MidNext(s1, h, b, {f, k}, k, f);
    MidSane(s1, b.JumpIfOpen(k).MoveTo(f), {f, k} - {f});
    BoundMore(sc, s.regs, b.JumpIfOpen(k).MoveTo(f).regs);
  }

  /** So do the condition and the body of a loop. */
  lemma LoopEmits(sig: Sig, sc: Names, st: Stmt, s: Emit)
    requires Emits(sc, s) && sc != [] && st.While?
    ensures var s0 := s.NewBlock().JumpIfOpen(s.labels).MoveTo(s.labels); var (s1, v) := CompExpr(sig, sc, st.c, s0);
            Emits(sc, s0) && Emits(sc, CompLoopHead(s1, TypeOf(sig, TysOf(sc), st.c), v))
  {
    hide Grows, Sane, ScopeBound, CompLoopHead, IfMid, CompExpr, Emit.JumpIfOpen;
    LoopStart(s);
    var s0 := s.NewBlock().JumpIfOpen(s.labels).MoveTo(s.labels);
    GrowsSane(s, s0);
    BoundMore(sc, s.regs, s0.regs);
    ExprGrows(sig, sc, st.c, s0);
    var (s1, v) := CompExpr(sig, sc, st.c, s0);
    GrowsSane(s0, s1);
    LoopHeadShape(s1, TypeOf(sig, TysOf(sc), st.c), v);
    var h := CompLoopHead(s1, TypeOf(sig, TysOf(sc), st.c), v);
    MidSane(s1, h, {s1.labels + 1});
    BoundMore(sc, s.regs, h.regs);
  }
}
