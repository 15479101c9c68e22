/** No run of the emitted code computes an element's address with a negative index: every such computation
    stands in a block that only the test of its index leads to. */
module IndexSafety {
  import opened Cfg
  import opened Cminus
  import opened BlockCode
  import opened BuilderSpec
  import opened BuilderGrowth
  import BuilderProof
  import BuilderStmtProof

  // ----- the shape of the code -----

  function IndexOf(x: Instr): Operand {
    if |x.args| == 2 then x.args[1] else Const(0)
  }

  /** An address computation other than that of an array's first element. */
  predicate Indexes(x: Instr) {
    x.op.Elem? && (|x.args| != 2 || IndexOf(x) != Const(0))
  }

  /** Block q ends with the test of n, and goes to l if n is not negative. */
  ghost predicate Tests(bs: Blocks, q: Label, l: Label, n: Operand) {
    && q in bs && bs[q].instrs != []
    && var x := bs[q].instrs[|bs[q].instrs| - 1];
       && x.op == Compare(true, Lt) && x.args == [n, Const(0)] && n != R(x.dst)
       && bs[q].term.CondBr? && bs[q].term.c == R(x.dst) && bs[q].term.no == l && bs[q].term.yes != l
  }

  ghost predicate OnlyFrom(bs: Blocks, q: Label, l: Label) {
    forall b {:trigger bs[b]} :: b in bs && l in Targets(bs[b].term) ==> b == q
  }

  /** The index of instruction i of block l was tested on the only way into the block, and has not been
      computed anew since. */
  ghost predicate Tested(bs: Blocks, l: Label, i: nat)
    requires l in bs && i < |bs[l].instrs|
  {
    var n := IndexOf(bs[l].instrs[i]);
    && l != 0 && |bs[l].instrs[i].args| == 2
    && (forall j {:trigger bs[l].instrs[j]} :: 0 <= j < i ==> n != R(bs[l].instrs[j].dst))
    && exists q :: Tests(bs, q, l, n) && OnlyFrom(bs, q, l)
  }

  ghost predicate AllTested(bs: Blocks) {
    forall l, i {:trigger bs[l].instrs[i]} :: l in bs && 0 <= i < |bs[l].instrs| && Indexes(bs[l].instrs[i]) ==>
      Tested(bs, l, i)
  }

  // ----- what it means for runs -----

  /** Integer comparison compares. */
  ghost predicate Compares(sem: Sem) {
    forall a, b, w {:trigger sem(Compare(true, Lt), [a, b], w)} :: sem(Compare(true, Lt), [a, b], w).0 != 0 <==> a < b
  }

  predicate NotNegative(regs: map<Reg, Val>, n: Operand) {
    match Read(regs, n) case Some(v) => v >= 0 case None => true
  }

  /** The indices still to come in the block are not negative, and a test just made is in its register. */
  ghost predicate Guarded(p: Blocks, a: Conf) {
    a.At? && a.l in p ==>
      && (forall j {:trigger p[a.l].instrs[j]} :: a.i <= j < |p[a.l].instrs| && Indexes(p[a.l].instrs[j]) ==>
           NotNegative(a.regs, IndexOf(p[a.l].instrs[j])))
      && (forall l, n {:trigger Tests(p, a.l, l, n)} :: a.i == |p[a.l].instrs| && Tests(p, a.l, l, n) ==>
            match (Read(a.regs, n), Read(a.regs, p[a.l].term.c))
            case (Some(v), Some(c)) => c != 0 <==> v < 0
            case _ => false)
  }

  lemma GuardedInstr(sem: Sem, p: Blocks, a: Conf)
    requires AllTested(p) && Compares(sem) && a.At? && a.l in p && a.i < |p[a.l].instrs| && Guarded(p, a)
    ensures Guarded(p, Step(sem, p, a))
  {
    var x, b := p[a.l].instrs[a.i], Step(sem, p, a);
    if b.At? {
      forall j | b.i <= j < |p[a.l].instrs| && Indexes(p[a.l].instrs[j])
        ensures NotNegative(b.regs, IndexOf(p[a.l].instrs[j]))
      {
        assert Tested(p, a.l, j);
      }
      forall l, n | b.i == |p[a.l].instrs| && Tests(p, a.l, l, n)
        ensures match (Read(b.regs, n), Read(b.regs, p[a.l].term.c))
                case (Some(v), Some(c)) => c != 0 <==> v < 0
                case _ => false
      {
        BuilderProof.ReadTwo(a.regs, n, Const(0));
      }
    }
  }

  lemma GuardedBranch(sem: Sem, p: Blocks, a: Conf)
    requires AllTested(p) && a.At? && a.l in p && a.i == |p[a.l].instrs| && Guarded(p, a)
    ensures Guarded(p, Step(sem, p, a))
  {
    var b := Step(sem, p, a);
    if b.At? && b.l in p {
      assert b.i == 0 && b.regs == a.regs && b.l in Targets(p[a.l].term);
      forall j | 0 <= j < |p[b.l].instrs| && Indexes(p[b.l].instrs[j])
        ensures NotNegative(b.regs, IndexOf(p[b.l].instrs[j]))
      {
        assert Tested(p, b.l, j);
        var q :| Tests(p, q, b.l, IndexOf(p[b.l].instrs[j])) && OnlyFrom(p, q, b.l);
        assert q == a.l;
      }
      forall l, n | b.i == |p[b.l].instrs| && Tests(p, b.l, l, n)
        ensures false
      {
      }
    }
  }

  /** What a run is about to do is not to compute an address with a negative index. */
  ghost predicate IndexFine(p: Blocks, a: Conf) {
    a.At? && a.l in p && a.i < |p[a.l].instrs| && p[a.l].instrs[a.i].op.Elem? ==>
      |p[a.l].instrs[a.i].args| == 2 && NotNegative(a.regs, p[a.l].instrs[a.i].args[1])
  }

  /** The first block is entered without a test. */
  lemma EntryQuiet(p: Blocks)
    requires AllTested(p)
    ensures Quiet(p, 0)
  {
  }

  lemma {:induction false} GuardedSteps(sem: Sem, p: Blocks, n: nat, regs: map<Reg, Val>, w: World)
    requires AllTested(p) && Compares(sem)
    ensures Guarded(p, Steps(sem, p, n, At(0, 0, regs, w)))
  {
    if n == 0 {
      EntryQuiet(p);
    } else {
      GuardedSteps(sem, p, n - 1, regs, w);
      var a := Steps(sem, p, n - 1, At(0, 0, regs, w));
      if a.At? && a.l in p {
        if a.i < |p[a.l].instrs| {
          GuardedInstr(sem, p, a);
        } else if a.i == |p[a.l].instrs| {
          GuardedBranch(sem, p, a);
        }
      }
    }
  }

  /** No run from the start of the code, finished or not, is about to compute an address with a negative
      index. */
  lemma NeverNegative(sem: Sem, p: Blocks, n: nat, regs: map<Reg, Val>, w: World)
    requires AllTested(p) && Compares(sem)
    ensures IndexFine(p, Steps(sem, p, n, At(0, 0, regs, w)))
  {
    GuardedSteps(sem, p, n, regs, w);
    var a := Steps(sem, p, n, At(0, 0, regs, w));
    if a.At? && a.l in p && a.i < |p[a.l].instrs| && Indexes(p[a.l].instrs[a.i]) {
      assert Tested(p, a.l, a.i);
    }
  }

  // ----- emitting code keeps the shape -----

  /** The block holds no address computation that needs a test. */
  ghost predicate Quiet(bs: Blocks, l: Label) {
    l in bs ==> forall i {:trigger bs[l].instrs[i]} :: 0 <= i < |bs[l].instrs| ==> !Indexes(bs[l].instrs[i])
  }

  /** Between s and r the shape is kept, and old blocks that need no test still need none. */
  ghost predicate Watched(s: Emit, r: Emit) {
    && s.labels <= r.labels
    && (AllTested(s.blocks) ==> AllTested(r.blocks))
    && forall l: Label {:trigger Quiet(r.blocks, l)} :: l < s.labels && Quiet(s.blocks, l) ==> Quiet(r.blocks, l)
  }

  lemma WatchedSelf(s: Emit)
    ensures Watched(s, s)
  {
  }

  lemma WatchedTrans(a: Emit, b: Emit, c: Emit)
    requires Watched(a, b) && Watched(b, c)
    ensures Watched(a, c)
  {
    hide AllTested, Quiet;
    forall l: Label | l < a.labels && Quiet(a.blocks, l)
      ensures Quiet(c.blocks, l)
    {
      assert Quiet(b.blocks, l);
    }
  }

  /** Blocks that were closed keep their contents, and no branch to a block that needs a test is added. */
  lemma StillTested(bs: Blocks, bs': Blocks, l: Label, i: nat)
    requires l in bs && i < |bs[l].instrs| && Tested(bs, l, i)
    requires l in bs' && i < |bs'[l].instrs| && bs'[l].instrs[..i + 1] == bs[l].instrs[..i + 1]
    requires forall q {:trigger bs[q]} :: q in bs && bs[q].term != Open ==> q in bs' && bs'[q] == bs[q]
    requires forall b {:trigger bs'[b]} :: b in bs' && l in Targets(bs'[b].term) ==> b in bs && l in Targets(bs[b].term)
    ensures Tested(bs', l, i)
  {
    var n := IndexOf(bs[l].instrs[i]);
    var q :| Tests(bs, q, l, n) && OnlyFrom(bs, q, l);
    assert Tests(bs', q, l, n) && OnlyFrom(bs', q, l);
    assert bs'[l].instrs[i] == bs'[l].instrs[..i + 1][i];
    forall j | 0 <= j < i
      ensures n != R(bs'[l].instrs[j].dst)
    {
      assert bs'[l].instrs[j] == bs'[l].instrs[..i + 1][j] == bs[l].instrs[j];
    }
  }

  lemma PutWatched(s: Emit, op: Op, args: seq<Operand>)
    requires Sane(s) && s.IsOpen() && !Indexes(Instr(s.regs, op, args))
    ensures Watched(s, s.Put(op, args))
  {
    var bs, bs' := s.blocks, s.Put(op, args).blocks;
    if AllTested(bs) {
      forall l, i | l in bs' && 0 <= i < |bs'[l].instrs| && Indexes(bs'[l].instrs[i])
        ensures Tested(bs', l, i)
      {
        assert i < |bs[l].instrs| && bs[l].instrs[i] == bs'[l].instrs[i];
        StillTested(bs, bs', l, i);
      }
    }
  }

  lemma NewWatched(s: Emit)
    requires Sane(s)
    ensures Watched(s, s.NewBlock())
  {
    var bs, bs' := s.blocks, s.NewBlock().blocks;
    if AllTested(bs) {
      forall l, i | l in bs' && 0 <= i < |bs'[l].instrs| && Indexes(bs'[l].instrs[i])
        ensures Tested(bs', l, i)
      {
        StillTested(bs, bs', l, i);
      }
    }
  }

  lemma EndWatched(s: Emit, t: Term)
    requires Sane(s) && s.IsOpen() && forall l {:trigger Quiet(s.blocks, l)} :: l in Targets(t) ==>
      l in s.blocks && Quiet(s.blocks, l)
    ensures Watched(s, s.Terminate(t))
  {
    var bs, bs' := s.blocks, s.Terminate(t).blocks;
    if AllTested(bs) {
      forall l, i | l in bs' && 0 <= i < |bs'[l].instrs| && Indexes(bs'[l].instrs[i])
        ensures Tested(bs', l, i)
      {
        assert bs[l].instrs == bs'[l].instrs;
        assert !Quiet(bs, l);
        StillTested(bs, bs', l, i);
      }
    }
  }

  lemma MoveWatched(s: Emit, l: Label)
    ensures Watched(s, s.MoveTo(l))
  {
  }

  lemma JumpWatched(s: Emit, l: Label)
    requires Sane(s) && l in s.blocks && Quiet(s.blocks, l)
    ensures Watched(s, s.JumpIfOpen(l))
  {
    if s.IsOpen() {
      EndWatched(s, Br(l));
    }
  }

  lemma EraseWatched(s: Emit, f: Label)
    requires f in s.blocks && s.blocks[f] == BB([], Open)
    ensures Watched(s, s.Erase(f))
  {
    var bs, bs' := s.blocks, s.Erase(f).blocks;
    if AllTested(bs) {
      forall l, i | l in bs' && 0 <= i < |bs'[l].instrs| && Indexes(bs'[l].instrs[i])
        ensures Tested(bs', l, i)
      {
        StillTested(bs, bs', l, i);
      }
    }
  }

  lemma NewSane(s: Emit)
    requires Sane(s) && s.IsOpen()
    ensures var r := s.NewBlock(); Sane(r) && r.IsOpen() && s.labels in r.blocks && r.blocks[s.labels] == BB([], Open)
    ensures s.NewBlock().cur == s.cur < s.labels < s.NewBlock().labels == s.labels + 1 && s.NewBlock().regs == s.regs
    ensures forall l {:trigger s.NewBlock().blocks[l]} :: l in s.blocks ==>
      l in s.NewBlock().blocks && s.NewBlock().blocks[l] == s.blocks[l]
  {
  }

  lemma EndSane(s: Emit, t: Term)
    requires Sane(s) && forall l {:trigger l in s.blocks} :: l in Targets(t) ==> l in s.blocks
    ensures Sane(s.Terminate(t)) && s.Terminate(t).blocks.Keys == s.blocks.Keys
    ensures forall l {:trigger s.Terminate(t).blocks[l]} :: l in s.blocks && l != s.cur ==>
      s.Terminate(t).blocks[l] == s.blocks[l]
  {
  }

  /** One more instruction that needs no test. */
  lemma PutNext(s: Emit, r: Emit, op: Op, args: seq<Operand>)
    requires Watched(s, r) && Sane(r) && r.IsOpen() && !Indexes(Instr(r.regs, op, args))
    ensures var z := r.Put(op, args); Watched(s, z) && Sane(z) && z.IsOpen()
  {
    PutWatched(r, op, args);
    PutGrows(r, op, args);
    GrowsSane(r, r.Put(op, args));
    WatchedTrans(s, r, r.Put(op, args));
  }

  lemma NewNext(s: Emit, r: Emit)
    requires Watched(s, r) && Sane(r) && r.IsOpen()
    ensures var z := r.NewBlock(); Watched(s, z) && Sane(z) && z.IsOpen()
  {
    NewWatched(r);
    NewSane(r);
    WatchedTrans(s, r, r.NewBlock());
  }

  lemma RetNext(s: Emit, r: Emit, o: Option<Operand>)
    requires Watched(s, r) && Sane(r) && r.IsOpen()
    ensures var z := r.Terminate(Ret(o)); Watched(s, z) && Sane(z)
  {
    assert Targets(Ret(o)) == {};
    EndWatched(r, Ret(o));
    EndSane(r, Ret(o));
    WatchedTrans(s, r, r.Terminate(Ret(o)));
  }

  /** A branch to two blocks that are still empty. */
  lemma BranchNext(s: Emit, r: Emit, c: Operand, yes: Label, no: Label)
    requires Watched(s, r) && Sane(r) && r.IsOpen()
    requires yes in r.blocks && no in r.blocks && r.blocks[yes] == BB([], Open) && r.blocks[no] == BB([], Open)
    ensures var z := r.Terminate(CondBr(c, yes, no)); Watched(s, z) && Sane(z)
  {
    assert Quiet(r.blocks, yes) && Quiet(r.blocks, no);
    EndWatched(r, CondBr(c, yes, no));
    EndSane(r, CondBr(c, yes, no));
    WatchedTrans(s, r, r.Terminate(CondBr(c, yes, no)));
  }

  /** A jump to a block that needs no test, unless the current one ends otherwise. */
  lemma JumpNext(s: Emit, r: Emit, l: Label)
    requires Watched(s, r) && Sane(r) && l in r.blocks && Quiet(r.blocks, l)
    ensures var z := r.JumpIfOpen(l); Watched(s, z) && Sane(z)
  {
    JumpWatched(r, l);
    WatchedTrans(s, r, r.JumpIfOpen(l));
    if r.IsOpen() {
      EndSane(r, Br(l));
    }
  }

  lemma MoveNext(s: Emit, r: Emit, l: Label)
    requires Watched(s, r) && Sane(r) && l in r.blocks
    ensures Watched(s, r.MoveTo(l)) && Sane(r.MoveTo(l))
  {
    MoveWatched(r, l);
    WatchedTrans(s, r, r.MoveTo(l));
  }

  lemma ConvertNext(s: Emit, r: Emit, from: Ty, to: Ty, a: Operand)
    requires Watched(s, r) && Sane(r) && r.IsOpen()
    ensures var z := CompConvert(r, from, to, a).0; Watched(s, z) && Sane(z) && z.IsOpen()
  {
    hide Watched, Sane;
    PutNext(s, r, if from == IntT then SiToFp else FpToSi, [a]);
  }

  lemma OperateNext(s: Emit, op: BinOp, lt: Ty, rt: Ty, l: Operand, r: Operand)
    requires Sane(s) && s.IsOpen()
    ensures Watched(s, CompOperate(s, op, lt, rt, l, r).0)
  {
    hide Watched, Sane, CompConvert, Emit.Put;
    WatchedSelf(s);
    var common := if lt == rt then lt else FloatT;
    ConvertNext(s, s, lt, common, l);
    var (s1, l') := CompConvert(s, lt, common, l);
    ConvertNext(s, s1, rt, common, r);
    var (s2, r') := CompConvert(s1, rt, common, r);
    match op {
      case ArithOp(a) => PutNext(s, s2, Compute(common == IntT, a), [l', r']);
      case RelOp(c) =>
        PutNext(s, s2, Compare(common == IntT, c), [l', r']);
        PutNext(s, s2.Put(Compare(common == IntT, c), [l', r']), Zext, [R(s2.regs)]);
    }
  }

  // ----- an indexed access -----

  /** The state after the test of an index: the test is the only way to the current block, still empty. */
  ghost predicate JustTested(s: Emit, q: Label, n: Operand) {
    && s.cur in s.blocks && s.blocks[s.cur] == BB([], Open) && s.cur != 0
    && Tests(s.blocks, q, s.cur, n) && OnlyFrom(s.blocks, q, s.cur)
  }

  lemma GuardTests(s: Emit, ret: Ty, n: Operand)
    requires Sane(s) && s.IsOpen() && Bound(n, s.regs)
    ensures var g := CompGuard(s, ret, n); JustTested(g, s.cur, n) && g.cur >= s.labels && Bound(n, g.regs)
  {
    var g := CompGuard(s, ret, n);
    assert g.blocks[s.cur].instrs == s.blocks[s.cur].instrs + [Instr(s.regs, Compare(true, Lt), [n, Const(0)])];
  }

  lemma GuardNext(s: Emit, ret: Ty, n: Operand)
    requires Sane(s) && s.IsOpen()
    ensures Watched(s, CompGuard(s, ret, n))
  {
    hide Watched, Sane;
    var bad, ok := s.labels, s.labels + 1;
    GuardHead(s, n);
    var d := s.NewBlock().NewBlock().Put(Compare(true, Lt), [n, Const(0)]).Terminate(CondBr(R(s.regs), bad, ok));
    MoveNext(s, d, bad);
    PutNext(s, d.MoveTo(bad), CallF(NEG_IDX_EXCEPT), []);
    var e := d.MoveTo(bad).Put(CallF(NEG_IDX_EXCEPT), []);
    RetNext(s, e, DefaultRet(ret).v);
    MoveNext(s, e.Terminate(DefaultRet(ret)), ok);
  }

  /** The test itself, and the branch to two new blocks. */
  lemma GuardHead(s: Emit, n: Operand)
    requires Sane(s) && s.IsOpen()
    ensures var compared := s.NewBlock().NewBlock().Put(Compare(true, Lt), [n, Const(0)]);
            var r := compared.Terminate(CondBr(R(s.regs), s.labels, s.labels + 1));
            && Watched(s, r) && Sane(r) && s.labels in r.blocks && s.labels + 1 in r.blocks
            && r.blocks[s.labels] == BB([], Open) && r.blocks[s.labels + 1] == BB([], Open)
  {
    hide Watched, Sane;
    WatchedSelf(s);
    NewNext(s, s);
    NewSane(s);
    var a := s.NewBlock();
    NewNext(s, a);
    NewSane(a);
    var b := a.NewBlock();
    PutNext(s, b, Compare(true, Lt), [n, Const(0)]);
    var c := b.Put(Compare(true, Lt), [n, Const(0)]);
    assert c.blocks[s.labels] == BB([], Open) && c.blocks[s.labels + 1] == BB([], Open);
    BranchNext(s, c, R(s.regs), s.labels, s.labels + 1);
  }

  /** The address computation itself. */
  lemma ElemNext(s: Emit, g: Emit, q: Label, base: Operand, ty: Ty, n: Operand)
    requires Watched(s, g) && Sane(g) && g.IsOpen() && g.cur >= s.labels && g.cur != 0
    requires Tests(g.blocks, q, g.cur, n) && OnlyFrom(g.blocks, q, g.cur)
    requires forall j {:trigger g.blocks[g.cur].instrs[j]} :: 0 <= j < |g.blocks[g.cur].instrs| ==>
      n != R(g.blocks[g.cur].instrs[j].dst)
    ensures Watched(s, g.Put(Elem(ty), [base, n]))
  {
    var bs, bs' := g.blocks, g.Put(Elem(ty), [base, n]).blocks;
    forall l: Label | l < s.labels && Quiet(s.blocks, l)
      ensures Quiet(bs', l)
    {
      assert Quiet(bs, l);
    }
    if AllTested(s.blocks) {
      assert Tests(bs', q, g.cur, n) && OnlyFrom(bs', q, g.cur);
      forall l, i | l in bs' && 0 <= i < |bs'[l].instrs| && Indexes(bs'[l].instrs[i])
        ensures Tested(bs', l, i)
      {
        if l != g.cur || i < |bs[l].instrs| {
          assert bs[l].instrs[i] == bs'[l].instrs[i];
          StillTested(bs, bs', l, i);
        }
      }
    }
  }

  lemma AccessNext(s: Emit, g: Emit, q: Label, x: Entry<Operand>, n: Operand)
    requires Watched(s, g) && Sane(g) && g.cur >= s.labels && JustTested(g, q, n) && Bound(n, g.regs)
    ensures Watched(s, CompElem(x, n, g).0)
  {
    if x.ty.PtrT? {
      PutNext(s, g, Load(x.ty), [x.at]);
      var h := g.Put(Load(x.ty), [x.at]);
      assert Tests(h.blocks, q, h.cur, n) && OnlyFrom(h.blocks, q, h.cur);
      ElemNext(s, h, q, R(g.regs), x.ty, n);
    } else {
      ElemNext(s, g, q, x.at, x.ty, n);
    }
  }

  // ----- expressions -----

  lemma {:induction false} ExprWatched(sig: Sig, sc: Names, e: Expr, s: Emit)
    requires Sane(s) && s.IsOpen() && ScopeBound(sc, s.regs)
    ensures Watched(s, CompExpr(sig, sc, e, s).0)
    decreases e, 1
  {
    hide Grows, Sane, ScopeBound, CompOperate, CompConvert, Watched;
    WatchedSelf(s);
    match e {
      case NumI(_) =>
      case NumF(_) =>
      case Var(id, idx) =>
        if Find(sc, id).Some? {
          var x := Find(sc, id).value;
          FindBound(sc, id, s.regs);
          PutNext(s, s, Elem(x.ty), [x.at, Const(0)]);
          AddressWatched(sig, sc, x, idx, s);
          AddressGrows(sig, sc, x, idx, s);
          var (s1, p) := CompAddress(sig, sc, x, idx, s);
          GrowsSane(s, s1);
          PutNext(s, s1, Load(VarTy(x.ty, idx.Some?)), [p]);
        }
      case Assign(id, idx, rhs) => AssignWatched(sig, sc, e, s);
      case Bin(op, l, r) => BinWatched(sig, sc, e, s);
      case Call(id, args) =>
        if id in sig.funs {
          ArgsWatched(sig, sc, sig.funs[id].params, args, s);
          ArgsGrow(sig, sc, sig.funs[id].params, args, s);
          var (s1, os) := CompArgs(sig, sc, sig.funs[id].params, args, s);
          GrowsSane(s, s1);
          PutNext(s, s1, CallF(id), os);
        }
    }
  }

  lemma {:induction false} AssignWatched(sig: Sig, sc: Names, e: Expr, s: Emit)
    requires Sane(s) && s.IsOpen() && ScopeBound(sc, s.regs) && e.Assign?
    ensures Watched(s, CompExpr(sig, sc, e, s).0)
    decreases e, 0
  {
    hide Grows, Sane, ScopeBound, CompConvert, Watched;
    ExprWatched(sig, sc, e.rhs, s);
    ExprGrows(sig, sc, e.rhs, s);
    var (s1, v) := CompExpr(sig, sc, e.rhs, s);
    if Find(sc, e.id).Some? {
      var x := Find(sc, e.id).value;
      GrowsSane(s, s1);
      BoundMore(sc, s.regs, s1.regs);
      FindBound(sc, e.id, s1.regs);
      AddressWatched(sig, sc, x, e.idx, s1);
      AddressGrows(sig, sc, x, e.idx, s1);
      var (s2, p) := CompAddress(sig, sc, x, e.idx, s1);
      GrowsSane(s1, s2);
      WatchedTrans(s, s1, s2);
      ConvertNext(s, s2, TypeOf(sig, TysOf(sc), e.rhs), VarTy(x.ty, e.idx.Some?), v);
      var (s3, v') := CompConvert(s2, TypeOf(sig, TysOf(sc), e.rhs), VarTy(x.ty, e.idx.Some?), v);
      PutNext(s, s3, Store(VarTy(x.ty, e.idx.Some?)), [v', p]);
    }
  }

  lemma {:induction false} BinWatched(sig: Sig, sc: Names, e: Expr, s: Emit)
    requires Sane(s) && s.IsOpen() && ScopeBound(sc, s.regs) && e.Bin?
    ensures Watched(s, CompExpr(sig, sc, e, s).0)
    decreases e, 0
  {
    hide Grows, Sane, ScopeBound, CompOperate, Watched;
    ExprWatched(sig, sc, e.l, s);
    ExprGrows(sig, sc, e.l, s);
    var (s1, a) := CompExpr(sig, sc, e.l, s);
    GrowsSane(s, s1);
    BoundMore(sc, s.regs, s1.regs);
    ExprWatched(sig, sc, e.r, s1);
    ExprGrows(sig, sc, e.r, s1);
    var (s2, b) := CompExpr(sig, sc, e.r, s1);
    GrowsSane(s1, s2);
    WatchedTrans(s, s1, s2);
    OperateNext(s2, e.op, TypeOf(sig, TysOf(sc), e.l), TypeOf(sig, TysOf(sc), e.r), a, b);
    WatchedTrans(s, s2, CompOperate(s2, e.op, TypeOf(sig, TysOf(sc), e.l), TypeOf(sig, TysOf(sc), e.r), a, b).0);
  }

  lemma {:induction false} AddressWatched(sig: Sig, sc: Names, x: Entry<Operand>, idx: Option<Expr>, s: Emit)
    requires Sane(s) && s.IsOpen() && ScopeBound(sc, s.regs) && Bound(x.at, s.regs)
    ensures Watched(s, CompAddress(sig, sc, x, idx, s).0)
    decreases idx, 0
  {
    hide Grows, Sane, ScopeBound, CompConvert, CompGuard, CompElem, Watched, JustTested;
    WatchedSelf(s);
    if idx.Some? {
      var i := idx.value;
      ExprWatched(sig, sc, i, s);
      ExprGrows(sig, sc, i, s);
      var (s1, n) := CompExpr(sig, sc, i, s);
      GrowsSane(s, s1);
      ConvertNext(s, s1, TypeOf(sig, TysOf(sc), i), IntT, n);
      ConvertGrows(s1, TypeOf(sig, TysOf(sc), i), IntT, n);
      var (s2, n') := CompConvert(s1, TypeOf(sig, TysOf(sc), i), IntT, n);
      GrowsSane(s1, s2);
      GuardNext(s2, sig.ret, n');
      GuardTests(s2, sig.ret, n');
      GuardGrows(s2, sig.ret, n');
      var s3 := CompGuard(s2, sig.ret, n');
      GrowsSane(s2, s3);
      WatchedTrans(s, s2, s3);
      AccessNext(s, s3, s2.cur, x, n');
    }
  }

  lemma {:induction false} ArgsWatched(sig: Sig, sc: Names, params: seq<Ty>, args: Args, s: Emit)
    requires Sane(s) && s.IsOpen() && ScopeBound(sc, s.regs)
    ensures Watched(s, CompArgs(sig, sc, params, args, s).0)
    decreases args, 0
  {
    hide Grows, Sane, ScopeBound, CompConvert, Watched;
    WatchedSelf(s);
    if args.Arg? && params != [] {
      ArgsWatched(sig, sc, params[..|params| - 1], args.init, s);
      ArgsGrow(sig, sc, params[..|params| - 1], args.init, s);
      var (s1, os) := CompArgs(sig, sc, params[..|params| - 1], args.init, s);
      GrowsSane(s, s1);
      BoundMore(sc, s.regs, s1.regs);
      ExprWatched(sig, sc, args.last, s1);
      ExprGrows(sig, sc, args.last, s1);
      var (s2, o) := CompExpr(sig, sc, args.last, s1);
      GrowsSane(s1, s2);
      WatchedTrans(s, s1, s2);
      ConvertNext(s, s2, TypeOf(sig, TysOf(sc), args.last), params[|params| - 1], o);
    }
  }

  // ----- statements -----

  lemma {:induction false} DeclsWatched(sc: Names, decls: seq<Decl>, s: Emit)
    requires Sane(s) && s.IsOpen() && sc != []
    ensures var r := CompDecls(sc, decls, s).0; Watched(s, r) && Sane(r) && r.IsOpen()
  {
    hide Sane, Watched, Emit.Put;
    WatchedSelf(s);
    if decls != [] {
      DeclsWatched(sc, decls[..|decls| - 1], s);
      PutNext(s, CompDecls(sc, decls[..|decls| - 1], s).0, Alloca(decls[|decls| - 1].ty), []);
    }
  }

  lemma {:induction false} ParamsWatched(sc: Names, params: seq<Decl>, s: Emit)
    requires Sane(s) && s.IsOpen() && sc != []
    ensures var r := CompParams(sc, params, s).0; Watched(s, r) && Sane(r) && r.IsOpen()
  {
    hide Sane, Watched, Emit.Put;
    WatchedSelf(s);
    if params != [] {
      ParamsWatched(sc, params[..|params| - 1], s);
      var s1, ty := CompParams(sc, params[..|params| - 1], s).0, params[|params| - 1].ty;
      PutNext(s, s1, Alloca(ty), []);
      PutNext(s, s1.Put(Alloca(ty), []), Store(ty), [R(|params| - 1), R(s1.regs)]);
    }
  }

  /** The test of a condition branches to blocks that are still empty. */
  lemma TestNext(s: Emit, r: Emit, ty: Ty, v: Operand, yes: Label, no: Label)
    requires Watched(s, r) && Sane(r) && r.IsOpen() && yes in r.blocks && no in r.blocks && r.cur != yes && r.cur != no
    requires r.blocks[yes] == BB([], Open) && r.blocks[no] == BB([], Open)
    ensures Watched(s, CompTest(r, ty, v, yes, no)) && Sane(CompTest(r, ty, v, yes, no))
  {
    var args := [v, if ty == IntT then Const(0) else ConstF(FLOAT_ZERO)];
    PutNext(s, r, Compare(ty == IntT, Ne), args);
    var c := r.Put(Compare(ty == IntT, Ne), args);
    assert c.blocks[yes] == BB([], Open) && c.blocks[no] == BB([], Open);
    hide Watched, Sane;
    BranchNext(s, c, R(r.regs), yes, no);
  }

  lemma IfHeadNext(s: Emit, ty: Ty, v: Operand, hasElse: bool)
    requires Sane(s) && s.IsOpen()
    ensures Watched(s, CompIfHead(s, ty, v, hasElse))
  {
    hide Watched, Sane, CompTest;
    WatchedSelf(s);
    NewNext(s, s);
    NewSane(s);
    var a := s.NewBlock();
    NewNext(s, a);
    NewSane(a);
    var b := a.NewBlock();
    NewNext(s, b);
    NewSane(b);
    var c := b.NewBlock();
    assert c.blocks[s.labels] == BB([], Open) && c.blocks[s.labels + 1] == BB([], Open)
      && c.blocks[s.labels + 2] == BB([], Open);
    var no := if hasElse then s.labels + 1 else s.labels + 2;
    TestNext(s, c, ty, v, s.labels, no);
    TestKeys(c, ty, v, s.labels, no);
    MoveNext(s, CompTest(c, ty, v, s.labels, no), s.labels);
  }

  lemma TestKeys(r: Emit, ty: Ty, v: Operand, yes: Label, no: Label)
    requires r.cur in r.blocks
    ensures CompTest(r, ty, v, yes, no).blocks.Keys == r.blocks.Keys
  {
  }

  lemma LoopHeadNext(s: Emit, ty: Ty, v: Operand)
    requires Sane(s) && s.IsOpen()
    ensures Watched(s, CompLoopHead(s, ty, v))
  {
    hide Watched, Sane, CompTest;
    WatchedSelf(s);
    NewNext(s, s);
    NewSane(s);
    var a := s.NewBlock();
    NewNext(s, a);
    NewSane(a);
    var b := a.NewBlock();
    assert b.blocks[s.labels] == BB([], Open) && b.blocks[s.labels + 1] == BB([], Open);
    TestNext(s, b, ty, v, s.labels, s.labels + 1);
    TestKeys(b, ty, v, s.labels, s.labels + 1);
    MoveNext(s, CompTest(b, ty, v, s.labels, s.labels + 1), s.labels);
  }

  lemma {:induction false} StmtWatched(sig: Sig, sc: Names, st: Stmt, s: Emit)
    requires Sane(s) && s.IsOpen() && ScopeBound(sc, s.regs) && sc != []
    ensures Watched(s, CompStmt(sig, sc, st, s))
    decreases st, 1
  {
    hide Grows, Sane, ScopeBound, CompConvert, Watched;
    WatchedSelf(s);
    match st {
      case ExprS(None) =>
      case ExprS(Some(e)) => ExprWatched(sig, sc, e, s);
      case If(c, yes, no) => IfWatched(sig, sc, st, s);
      case While(c, loop) => WhileWatched(sig, sc, st, s);
      case Return(None) => RetNext(s, s, None);
      case Return(Some(e)) =>
        ExprWatched(sig, sc, e, s);
        ExprGrows(sig, sc, e, s);
        var (s1, v) := CompExpr(sig, sc, e, s);
        GrowsSane(s, s1);
        ConvertNext(s, s1, TypeOf(sig, TysOf(sc), e), sig.ret, v);
        var (s2, v') := CompConvert(s1, TypeOf(sig, TysOf(sc), e), sig.ret, v);
        RetNext(s, s2, Some(v'));
      case Block(decls, body) =>
        LevelBound(sc, s.regs);
        DeclsWatched(sc + [map[]], decls, s);
        DeclsGrow(sc + [map[]], decls, s);
        var (s1, sc1) := CompDecls(sc + [map[]], decls, s);
        StmtsWatched(sig, sc1, body, s1);
        WatchedTrans(s, s1, CompStmts(sig, sc1, body, s1));
    }
  }

  /** A block that waits, empty, while a piece is translated. */
  lemma StillWaits(s: Emit, a: Emit, b: Emit, ls: set<Label>, l: Label)
    requires IfMid(s, a, ls) && Grows(a, b) && l in ls
    ensures l in b.blocks && b.blocks[l] == BB([], Open) && Quiet(b.blocks, l) && Sane(b)
  {
    MidGrows(s, a, b, ls);
  }

  lemma {:induction false} IfWatched(sig: Sig, sc: Names, st: Stmt, s: Emit)
    requires Sane(s) && s.IsOpen() && ScopeBound(sc, s.regs) && sc != [] && st.If?
    ensures Watched(s, CompStmt(sig, sc, st, s))
    decreases st, 0
  {
    hide Grows, Sane, ScopeBound, CompIfHead, IfMid, Unused, Watched, Quiet, Emit.JumpIfOpen;
    ExprWatched(sig, sc, st.c, s);
    ExprGrows(sig, sc, st.c, s);
    var (s1, v) := CompExpr(sig, sc, st.c, s);
    GrowsSane(s, s1);
    var f, k, ty := s1.labels + 1, s1.labels + 2, TypeOf(sig, TysOf(sc), st.c);
    IfHeadShape(s1, ty, v, st.no.Some?);
    IfHeadNext(s1, ty, v, st.no.Some?);
    var h := CompIfHead(s1, ty, v, st.no.Some?);
    MidSane(s1, h, {f, k});
    BoundMore(sc, s.regs, h.regs);
    WatchedTrans(s, s1, h);
    StmtWatched(sig, sc, st.yes, h);
    StmtGrows(sig, sc, st.yes, h);
    var b := CompStmt(sig, sc, st.yes, h);
    WatchedTrans(s, h, b);
    StillWaits(s1, h, b, {f, k}, k);
    StillWaits(s1, h, b, {f, k}, f);
    JumpNext(s, b, k);
    if st.no.None? {
      JumpLeaves(s1, h, b, {f, k}, k, f);
      EraseNext(s, b.JumpIfOpen(k), f, k);
    } else {
      MidNext(s1, h, b, {f, k}, k, f);
      assert {f, k} - {f} == {k};
      var h2 := b.JumpIfOpen(k).MoveTo(f);
      MoveWatched(b.JumpIfOpen(k), f);
      WatchedTrans(s, b.JumpIfOpen(k), h2);
      MidSane(s1, h2, {k});
      BoundMore(sc, s.regs, h2.regs);
      StmtWatched(sig, sc, st.no.value, h2);
      StmtGrows(sig, sc, st.no.value, h2);
      var b2 := CompStmt(sig, sc, st.no.value, h2);
      WatchedTrans(s, h2, b2);
      StillWaits(s1, h2, b2, {k}, k);
      JumpNext(s, b2, k);
      MoveWatched(b2.JumpIfOpen(k), k);
      WatchedTrans(s, b2.JumpIfOpen(k), b2.JumpIfOpen(k).MoveTo(k));
    }
  }

  lemma JumpLeaves(s: Emit, a: Emit, b: Emit, ls: set<Label>, l: Label, f: Label)
    requires IfMid(s, a, ls) && Grows(a, b) && f in ls
    ensures var r := b.JumpIfOpen(l); f in r.blocks && r.blocks[f] == BB([], Open)
  {
    MidGrows(s, a, b, ls);
  }

  lemma EraseNext(s: Emit, r: Emit, f: Label, k: Label)
    requires Watched(s, r) && f in r.blocks && r.blocks[f] == BB([], Open)
    ensures Watched(s, r.Erase(f).MoveTo(k))
  {
    EraseWatched(r, f);
    MoveWatched(r.Erase(f), k);
    WatchedTrans(s, r, r.Erase(f));
    WatchedTrans(s, r.Erase(f), r.Erase(f).MoveTo(k));
  }

  lemma LoopStartNext(s: Emit)
    requires Sane(s) && s.IsOpen()
    ensures var l := s.labels; var r := s.NewBlock().JumpIfOpen(l).MoveTo(l); Watched(s, r) && Quiet(r.blocks, l)
  {
    var l := s.labels;
    WatchedSelf(s);
    NewNext(s, s);
    NewSane(s);
    var a := s.NewBlock();
    JumpNext(s, a, l);
    MoveWatched(a.JumpIfOpen(l), l);
    WatchedTrans(s, a.JumpIfOpen(l), a.JumpIfOpen(l).MoveTo(l));
  }

  /** The head of a loop needs no test: its first access, if any, is already in a later block. */
  lemma HeadQuiet(a: Emit, b: Emit, l: Label)
    requires Watched(a, b) && l < a.labels && Quiet(a.blocks, l)
    ensures Quiet(b.blocks, l)
  {
  }

  lemma {:induction false} WhileWatched(sig: Sig, sc: Names, st: Stmt, s: Emit)
    requires Sane(s) && s.IsOpen() && ScopeBound(sc, s.regs) && sc != [] && st.While?
    ensures Watched(s, CompStmt(sig, sc, st, s))
    decreases st, 0
  {
    hide Grows, Sane, ScopeBound, CompLoopHead, IfMid, Watched, Quiet, Emit.JumpIfOpen;
    LoopStart(s);
    LoopStartNext(s);
    var l, ty := s.labels, TypeOf(sig, TysOf(sc), st.c);
    var s0 := s.NewBlock().JumpIfOpen(l).MoveTo(l);
    LoopLabels(s);
    GrowsSane(s, s0);
    BoundMore(sc, s.regs, s0.regs);
    ExprWatched(sig, sc, st.c, s0);
    ExprGrows(sig, sc, st.c, s0);
    var (s1, v) := CompExpr(sig, sc, st.c, s0);
    GrowsSane(s0, s1);
    LoopHeadShape(s1, ty, v);
    LoopHeadNext(s1, ty, v);
    var h := CompLoopHead(s1, ty, v);
    var k := s1.labels + 1;
    MidSane(s1, h, {k});
    BoundMore(sc, s.regs, h.regs);
    StmtWatched(sig, sc, st.loop, h);
    StmtGrows(sig, sc, st.loop, h);
    var b := CompStmt(sig, sc, st.loop, h);
    GrowsSane(h, b);
    WatchedTrans(s0, s1, h);
    WatchedTrans(s0, h, b);
    HeadQuiet(s0, b, l);
    StillThere(s0, s1, h, b, {k});
    WatchedTrans(s, s0, b);
    JumpNext(s, b, l);
    MoveWatched(b.JumpIfOpen(l), k);
    WatchedTrans(s, b.JumpIfOpen(l), b.JumpIfOpen(l).MoveTo(k));
  }

  lemma LoopLabels(s: Emit)
    ensures s.NewBlock().JumpIfOpen(s.labels).MoveTo(s.labels).labels == s.labels + 1
  {
  }

  lemma {:induction false} StmtsWatched(sig: Sig, sc: Names, ss: Stmts, s: Emit)
    requires Sane(s) && s.IsOpen() && ScopeBound(sc, s.regs) && sc != []
    ensures Watched(s, CompStmts(sig, sc, ss, s))
    decreases ss, 1
  {
    hide Grows, Sane, ScopeBound, Watched;
    WatchedSelf(s);
    if ss.Then? {
      StmtWatched(sig, sc, ss.head, s);
      StmtGrows(sig, sc, ss.head, s);
      var s1 := CompStmt(sig, sc, ss.head, s);
      GrowsSane(s, s1);
      if s1.IsOpen() {
        BoundMore(sc, s.regs, s1.regs);
        StmtsWatched(sig, sc, ss.tail, s1);
        WatchedTrans(s, s1, CompStmts(sig, sc, ss.tail, s1));
      }
    }
  }

  // ----- functions -----

  lemma FunTested(sig: Sig, globals: Names, fd: FunDecl)
    requires ScopeBound(globals, 0)
    ensures AllTested(CompFun(sig, globals, fd).blocks)
  {
    var s0, sc := EmptyFun(|fd.params|), globals + [map[]];
    BoundMore(globals, 0, |fd.params|);
    LevelBound(globals, |fd.params|);
    assert Sane(s0) && s0.IsOpen();
    hide Watched, Sane, Grows, ScopeBound, CompStmts;
    ParamsWatched(sc, fd.params, s0);
    BuilderStmtProof.ParamsGrow(sc, fd.params, s0);
    var (s1, sc1) := CompParams(sc, fd.params, s0);
    DeclsWatched(sc1, fd.decls, s1);
    DeclsGrow(sc1, fd.decls, s1);
    var (s2, sc2) := CompDecls(sc1, fd.decls, s1);
    StmtsWatched(sig, sc2, fd.body, s2);
    StmtsGrow(sig, sc2, fd.body, s2);
    var s3 := CompStmts(sig, sc2, fd.body, s2);
    GrowsSane(s2, s3);
    WatchedTrans(s0, s1, s2);
    WatchedTrans(s0, s2, s3);
    if s3.IsOpen() {
      RetNext(s0, s3, DefaultRet(sig.ret).v);
    }
    EmptyTested(s0, CompFun(sig, globals, fd));
  }

  lemma EmptyTested(s: Emit, r: Emit)
    requires Watched(s, r) && s.blocks == map[0 := BB([], Open)]
    ensures AllTested(r.blocks)
  {
  }

  /** In no run, whatever the arguments and however long, is an address computed with a negative index. */
  ghost predicate NeverNegativeIndex(p: Blocks) {
    forall sem: Sem, n: nat, regs: map<Reg, Val>, w: World {:trigger Steps(sem, p, n, At(0, 0, regs, w))} ::
      Compares(sem) ==> IndexFine(p, Steps(sem, p, n, At(0, 0, regs, w)))
  }

  /** And only a negative index ends the function. */
  lemma FaultWhen(sem: Sem, v: Entry<Val>, ty: Ty, n: Val, w: World)
    requires Compares(sem)
    ensures Element(sem, v, ty, n, w).Fault? <==> Convert(sem, ty, IntT, n, w).0 < 0
  {
    var (n', w1) := Convert(sem, ty, IntT, n, w);
    assert sem(Compare(true, Lt), [n', 0], w1).0 != 0 <==> n' < 0;
  }

  /** This holds for every translated function. */
  lemma IndicesNotNegative(sig: Sig, globals: Names, fd: FunDecl)
    requires ScopeBound(globals, 0)
    ensures NeverNegativeIndex(CompFun(sig, globals, fd).blocks)
  {
    FunTested(sig, globals, fd);
    hide AllTested, Compares, IndexFine, CompFun;
    var p := CompFun(sig, globals, fd).blocks;
    forall sem: Sem, n: nat, regs: map<Reg, Val>, w: World | Compares(sem)
      ensures IndexFine(p, Steps(sem, p, n, At(0, 0, regs, w)))
    {
      NeverNegative(sem, p, n, regs, w);
    }
  }
}
