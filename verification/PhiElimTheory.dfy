/** Replacing phis by stack slots: loads at the head of the block, stores at the ends of the
    predecessors. */
module PhiElimTheory {
  import opened Cfg
  import opened Ssa

  /** A phi, named by its block and variable. */
  type PhiName = (Block, Slot)

  type SlotMap = map<PhiName, Slot>

  predicate HasPhi(f: Func, b: Block, phi: Phi) {
    b < |f.phis| && phi in f.phis[b]
  }

  // ----- well-formed input -----

  ghost predicate Pairs(phi: Phi, o: Operand, p: Block) {
    (o, p) in phi.pairs
  }

  /** Pairs name existing blocks, and those that name the same block have the same operand. */
  ghost predicate PhiOk(f: Func, phi: Phi) {
    && (forall o, p: Block {:trigger Pairs(phi, o, p)} :: Pairs(phi, o, p) ==> p < |f.code|)
    && (forall o, o', p: Block {:trigger Pairs(phi, o, p), Pairs(phi, o', p)} ::
         Pairs(phi, o, p) && Pairs(phi, o', p) ==> o == o')
  }

  /** Every phi has a pair for each predecessor. */
  ghost predicate Complete(f: Func) {
    forall b: Block, phi, p: Block {:trigger HasPhi(f, b, phi), f.g.Edge(p, b)} ::
      HasPhi(f, b, phi) && f.g.Edge(p, b) ==> Incoming(phi.pairs, p).Some?
  }

  ghost predicate Distinct(phis: seq<Phi>) {
    forall i, j {:trigger phis[i], phis[j]} :: 0 <= i < |phis| && 0 <= j < |phis| && phis[i].slot == phis[j].slot ==>
      i == j
  }

  lemma SamePhi(phis: seq<Phi>, phi: Phi, phi': Phi)
    requires Distinct(phis) && phi in phis && phi' in phis && phi.slot == phi'.slot
    ensures phi == phi'
  {
    var i :| 0 <= i < |phis| && phis[i] == phi;
    var j :| 0 <= j < |phis| && phis[j] == phi';
    assert phis[i].slot == phis[j].slot;
  }

  ghost predicate FuncOk(f: Func) {
    && f.g.Valid() && |f.code| == |f.phis| == |f.g.succs| && f.phis[f.g.entry] == []
    && (forall b: Block, t: Block {:trigger f.g.Edge(b, t)} :: b < |f.code| && t in Targets(f.code[b].term) ==>
         f.g.Edge(b, t))
    && (forall b: Block, phi {:trigger HasPhi(f, b, phi)} :: HasPhi(f, b, phi) ==> PhiOk(f, phi))
    && (forall b: Block {:trigger f.phis[b]} :: b < |f.phis| ==> Distinct(f.phis[b]))
  }

  // ----- the result -----

  predicate Mentions(x: Instr, s: Slot) {
    !x.Op? && x.slot == s
  }

  /** Every phi has a slot of its own that nothing else in the function uses. */
  ghost predicate SlotsOk(f: Func, at: SlotMap) {
    && (forall b: Block, phi {:trigger HasPhi(f, b, phi)} :: HasPhi(f, b, phi) ==> (b, phi.slot) in at)
    && (forall m, n {:trigger at[m], at[n]} :: m in at && n in at && at[m] == at[n] ==> m == n)
    && (forall m, b, x {:trigger at[m], x in InstrsOf(f, b)} :: m in at && x in InstrsOf(f, b) ==> !Mentions(x, at[m]))
  }

  function Loads(b: Block, phis: seq<Phi>, at: SlotMap): seq<Instr> {
    if phis == [] then []
    else
      var phi := phis[|phis| - 1];
      Loads(b, phis[..|phis| - 1], at) + if (b, phi.slot) in at then [Load(PhiAt(b, phi.slot), at[(b, phi.slot)])]
        else []
  }

  /** On the edge from p the phi of block b takes operand o. */
  ghost predicate Takes(f: Func, b: Block, phi: Phi, o: Operand, p: Block) {
    HasPhi(f, b, phi) && Pairs(phi, o, p)
  }

  ghost predicate IsStore(f: Func, at: SlotMap, p: Block, b: Block, phi: Phi, o: Operand, x: Instr) {
    Takes(f, b, phi, o, p) && (b, phi.slot) in at && x == Store(o, at[(b, phi.slot)])
  }

  ghost predicate SomeStore(f: Func, at: SlotMap, p: Block, x: Instr) {
    exists b: Block, phi, o :: IsStore(f, at, p, b, phi, o, x)
  }

  ghost predicate OnlyStores(f: Func, at: SlotMap, p: Block, xs: seq<Instr>) {
    forall i {:trigger xs[i]} :: 0 <= i < |xs| ==> SomeStore(f, at, p, xs[i])
  }

  /** Operand o is stored to the slot of b's phi as often as it stands for p in the pairs. */
  ghost predicate StoredFor(at: SlotMap, p: Block, xs: seq<Instr>, b: Block, phi: Phi, o: Operand,
                            pairs: seq<(Operand, Block)>) {
    (b, phi.slot) in at && multiset(xs)[Store(o, at[(b, phi.slot)])] == multiset(pairs)[(o, p)]
  }

  /** The stores at the end of p, in any order: one for each pair that names p, and no others. */
  ghost predicate StoresOk(f: Func, at: SlotMap, p: Block, xs: seq<Instr>) {
    && OnlyStores(f, at, p, xs)
    && (forall b: Block, phi, o {:trigger StoredFor(at, p, xs, b, phi, o, phi.pairs)} ::
          HasPhi(f, b, phi) && (b, phi.slot) in at ==> StoredFor(at, p, xs, b, phi, o, phi.pairs))
  }

  lemma OperandStored(f: Func, at: SlotMap, p: Block, xs: seq<Instr>, b: Block, phi: Phi, o: Operand)
    requires StoresOk(f, at, p, xs) && Takes(f, b, phi, o, p) && (b, phi.slot) in at
    ensures Store(o, at[(b, phi.slot)]) in xs
  {
    assert StoredFor(at, p, xs, b, phi, o, phi.pairs);
    assert (o, p) in multiset(phi.pairs);
    assert Store(o, at[(b, phi.slot)]) in multiset(xs);
  }

  /** Only allocas of slots of phis. */
  ghost predicate OnlyAllocas(at: SlotMap, xs: seq<Instr>) {
    forall i {:trigger xs[i]} :: 0 <= i < |xs| ==> xs[i].Alloca? && xs[i].slot in at.Values
  }

  /** One alloca for each phi, and nothing else. */
  ghost predicate AllocasOk(at: SlotMap, xs: seq<Instr>) {
    && (forall x {:trigger x in xs} :: x in xs <==> x.Alloca? && x.scalar && x.slot in at.Values)
    && (forall i, j {:trigger xs[i], xs[j]} :: 0 <= i < j < |xs| ==> xs[i] != xs[j])
  }

  lemma AllocasOnly(at: SlotMap, xs: seq<Instr>)
    requires AllocasOk(at, xs)
    ensures OnlyAllocas(at, xs)
  {
    forall i | 0 <= i < |xs|
      ensures xs[i].Alloca? && xs[i].slot in at.Values
    {
      assert xs[i] in xs;
    }
  }

  /** The entry block allocates every phi's slot, at its end; no other block allocates any. */
  ghost predicate BlockElim(f: Func, at: SlotMap, b: Block, xs: seq<Instr>, allocas: seq<Instr>, stores: seq<Instr>) {
    && b < |f.phis|
    && xs == Loads(b, f.phis[b], at) + InstrsOf(f, b) + allocas + stores
    && (if b == f.g.entry then AllocasOk(at, allocas) else allocas == []) && StoresOk(f, at, b, stores)
  }

  ghost predicate BlockOk(f: Func, at: SlotMap, b: Block, xs: seq<Instr>) {
    exists allocas, stores :: BlockElim(f, at, b, xs, allocas, stores)
  }

  /** h is f without phis. */
  ghost predicate Eliminated(f: Func, h: Func, at: SlotMap) {
    && h.g == f.g && h.args == f.args && |h.code| == |h.phis| == |f.code| && SlotsOk(f, at)
    && (forall b {:trigger h.phis[b]} :: 0 <= b < |h.phis| ==> h.phis[b] == [])
    && (forall b {:trigger h.code[b]} :: 0 <= b < |h.code| ==>
         h.code[b].term == f.code[b].term && BlockOk(f, at, b, h.code[b].instrs))
  }

  /** All slots that the instructions mention lie below the number. */
  ghost predicate AllBelow(xs: seq<Instr>, low: Slot) {
    forall x {:trigger x in xs} :: x in xs && !x.Op? ==> x.slot < low
  }

  ghost predicate SlotsBelow(f: Func, low: Slot) {
    forall b: Block {:trigger InstrsOf(f, b)} :: AllBelow(InstrsOf(f, b), low)
  }

  // ----- how the two runs are related -----

  /** n has what m has; if the relation is exact, that is all it has. */
  ghost predicate Within<K, V>(exact: bool, m: map<K, V>, n: map<K, V>) {
    && (forall k {:trigger k in m} {:trigger m[k]} :: k in m ==> k in n && n[k] == m[k])
    && (exact ==> n.Keys <= m.Keys)
  }

  ghost predicate Less<V>(exact: bool, u: Option<V>, v: Option<V>) {
    u == v || (u == None && !exact)
  }

  lemma PutWithin<K, V>(exact: bool, m: map<K, V>, n: map<K, V>, k: K, u: Option<V>, v: Option<V>)
    requires Within(exact, m, n) && Less(exact, u, v)
    ensures Within(exact, Put(m, k, u), Put(n, k, v))
  {
  }

  lemma EvalWithin(exact: bool, m: map<Reg, Val>, n: map<Reg, Val>, o: Operand)
    requires Within(exact, m, n)
    ensures Less(exact, Eval(m, o), Eval(n, o))
  {
  }

  lemma {:induction false} EvalAllWithin(exact: bool, m: map<Reg, Val>, n: map<Reg, Val>, os: seq<Operand>)
    requires Within(exact, m, n)
    ensures Less(exact, EvalAll(m, os), EvalAll(n, os))
  {
    if os != [] {
      EvalAllWithin(exact, m, n, os[..|os| - 1]);
      EvalWithin(exact, m, n, os[|os| - 1]);
    }
  }

  function Other(at: SlotMap, mem: map<Slot, Val>): map<Slot, Val> {
    map s | s in mem && s !in at.Values :: mem[s]
  }

  /** n is as far as o: the same world, and at least the same registers and memory outside the slots of
      the phis. */
  ghost predicate Same(exact: bool, at: SlotMap, o: State, n: State) {
    o.world == n.world && Within(exact, o.env, n.env) && Within(exact, Other(at, o.mem), Other(at, n.mem))
  }

  ghost predicate SameNext(exact: bool, at: SlotMap, o: Option<State>, n: Option<State>) {
    match (o, n)
    case (Some(o1), Some(n1)) => Same(exact, at, o1, n1)
    case (Some(_), None) => false
    case (None, Some(_)) => !exact
    case (None, None) => true
  }

  lemma WithinTrans<K, V>(exact: bool, l: map<K, V>, m: map<K, V>, n: map<K, V>)
    requires Within(exact, l, m) && Within(true, m, n)
    ensures Within(exact, l, n)
  {
  }

  lemma SameTrans(exact: bool, at: SlotMap, o: State, m: State, n: State)
    requires Same(exact, at, o, m) && Same(true, at, m, n)
    ensures Same(exact, at, o, n)
  {
    WithinTrans(exact, o.env, m.env, n.env);
    WithinTrans(exact, Other(at, o.mem), Other(at, m.mem), Other(at, n.mem));
  }

  // ----- running the instructions -----

  /** The slots of b's phis hold what the phis are to receive from p. */
  ghost predicate Delivered(exact: bool, f: Func, at: SlotMap, b: Block, p: Block, st: State) {
    forall phi {:trigger HasPhi(f, b, phi)} :: HasPhi(f, b, phi) ==>
      && (b, phi.slot) in at
      && (Incoming(phi.pairs, p).Some? ==> Content(st.mem, at[(b, phi.slot)]) == IncomingValue(st.env, phi, p))
      && (exact ==> Incoming(phi.pairs, p).Some?)
  }

  /** The loads at the head of b have the effect of all its phis at once. */
  lemma {:induction false} LoadsAssign(exact: bool, f: Func, at: SlotMap, sem: Semantics, b: Block, p: Block,
                                       env: map<Reg, Val>, n: State, phis: seq<Phi>)
    requires forall phi {:trigger phi in phis} :: phi in phis ==> HasPhi(f, b, phi)
    requires Delivered(exact, f, at, b, p, n) && Within(exact, env, n.env)
    ensures var r := Exec(sem, n, Loads(b, phis, at));
            r.Some? && r.value == n.(env := r.value.env) && Within(exact, AssignPhis(phis, b, p, env), r.value.env)
  {
    if phis != [] {
      var init, phi := phis[..|phis| - 1], phis[|phis| - 1];
      assert phi in phis && forall x :: x in init ==> x in phis;
      LoadsAssign(exact, f, at, sem, b, p, env, n, init);
      assert HasPhi(f, b, phi);
      var x := Load(PhiAt(b, phi.slot), at[(b, phi.slot)]);
      ExecAppend(sem, n, Loads(b, init, at), [x]);
      var mid := Exec(sem, n, Loads(b, init, at)).value;
      ExecOne(sem, mid, x);
      if Incoming(phi.pairs, p).Some? {
        EvalWithin(exact, env, n.env, Incoming(phi.pairs, p).value);
      }
      PutWithin(exact, AssignPhis(init, b, p, env), mid.env, PhiAt(b, phi.slot), IncomingValue(env, phi, p),
        Content(n.mem, at[(b, phi.slot)]));
    }
  }

  ghost predicate Clear(at: SlotMap, xs: seq<Instr>) {
    forall i, m {:trigger xs[i], at[m]} :: 0 <= i < |xs| && m in at ==> !Mentions(xs[i], at[m])
  }

  /** The original instructions run the same. */
  lemma {:induction false} BodySame(exact: bool, at: SlotMap, sem: Semantics, xs: seq<Instr>, o: State, n: State)
    requires Same(exact, at, o, n) && Clear(at, xs)
    ensures SameNext(exact, at, Exec(sem, o, xs), Exec(sem, n, xs))
  {
    if xs != [] {
      hide Same, Step;
      BodySame(exact, at, sem, xs[..|xs| - 1], o, n);
      if Exec(sem, o, xs[..|xs| - 1]).Some? {
        NotMentioned(at, xs);
        StepSame(exact, at, sem, xs[|xs| - 1], Exec(sem, o, xs[..|xs| - 1]).value, Exec(sem, n, xs[..|xs| - 1]).value);
      }
    }
  }

  lemma NotMentioned(at: SlotMap, xs: seq<Instr>)
    requires Clear(at, xs) && xs != []
    ensures var x := xs[|xs| - 1]; !x.Op? ==> x.slot !in at.Values
  {
    var x := xs[|xs| - 1];
    assert forall m {:trigger at[m]} :: m in at ==> !Mentions(x, at[m]);
  }

  lemma StepSame(exact: bool, at: SlotMap, sem: Semantics, x: Instr, o: State, n: State)
    requires Same(exact, at, o, n) && (!x.Op? ==> x.slot !in at.Values)
    ensures SameNext(exact, at, Step(sem, o, x), Step(sem, n, x))
  {
    match x
    case Alloca(s, _) =>
      PutOther(exact, at, o.mem, n.mem, s, None, None);
    case Load(d, s) =>
      ContentWithin(exact, at, o.mem, n.mem, s);
      PutWithin(exact, o.env, n.env, d, Content(o.mem, s), Content(n.mem, s));
    case Store(src, s) =>
      EvalWithin(exact, o.env, n.env, src);
      PutOther(exact, at, o.mem, n.mem, s, Eval(o.env, src), Eval(n.env, src));
    case Op(d, op, args) =>
      EvalAllWithin(exact, o.env, n.env, args);
      if EvalAll(o.env, args).Some? {
        var v := Some(sem(op, EvalAll(o.env, args).value, o.world).0);
        PutWithin(exact, o.env, n.env, d, v, v);
      }
  }

  lemma ContentWithin(exact: bool, at: SlotMap, m: map<Slot, Val>, n: map<Slot, Val>, s: Slot)
    requires Within(exact, Other(at, m), Other(at, n)) && s !in at.Values
    ensures Less(exact, Content(m, s), Content(n, s))
  {
    assert s in m <==> s in Other(at, m);
    assert s in n <==> s in Other(at, n);
  }

  lemma PutOther(exact: bool, at: SlotMap, m: map<Slot, Val>, n: map<Slot, Val>, s: Slot, u: Option<Val>,
                 v: Option<Val>)
    requires Within(exact, Other(at, m), Other(at, n)) && Less(exact, u, v) && s !in at.Values
    ensures Within(exact, Other(at, Put(m, s, u)), Other(at, Put(n, s, v)))
  {
    assert Other(at, Put(m, s, u)) == Put(Other(at, m), s, u);
    assert Other(at, Put(n, s, v)) == Put(Other(at, n), s, v);
    PutWithin(exact, Other(at, m), Other(at, n), s, u, v);
  }

  /** An added instruction only writes a slot of a phi. */
  lemma SlotOnly(at: SlotMap, st: State, s: Slot, v: Option<Val>)
    requires s in at.Values
    ensures Same(true, at, st, st.(mem := Put(st.mem, s, v)))
  {
    assert Other(at, Put(st.mem, s, v)) == Other(at, st.mem);
  }

  lemma {:induction false} AllocasRun(at: SlotMap, sem: Semantics, xs: seq<Instr>, st: State)
    requires OnlyAllocas(at, xs)
    ensures var r := Exec(sem, st, xs); r.Some? && r.value == st.(mem := r.value.mem) && Same(true, at, st, r.value)
  {
    if xs != [] {
      AllocasRun(at, sem, xs[..|xs| - 1], st);
      assert xs[|xs| - 1].slot in at.Values;
      var mid := Exec(sem, st, xs[..|xs| - 1]).value;
      SlotOnly(at, mid, xs[|xs| - 1].slot, None);
      SameTrans(true, at, st, mid, Exec(sem, st, xs).value);
    }
  }

  /** The slot of the phi holds the operand's value. */
  ghost predicate Holds(at: SlotMap, b: Block, phi: Phi, o: Operand, st: State) {
    (b, phi.slot) in at && Content(st.mem, at[(b, phi.slot)]) == Eval(st.env, o)
  }

  lemma StoreOne(f: Func, at: SlotMap, sem: Semantics, p: Block, x: Instr, st: State)
    requires SomeStore(f, at, p, x)
    ensures var r := Step(sem, st, x); r.Some? && r.value == st.(mem := r.value.mem) && Same(true, at, st, r.value)
  {
    var b0, phi0, o0 :| IsStore(f, at, p, b0, phi0, o0, x);
    assert at[(b0, phi0.slot)] in at.Values;
    SlotOnly(at, st, x.slot, Eval(st.env, o0));
  }

  lemma StoreHolds(f: Func, at: SlotMap, sem: Semantics, p: Block, x: Instr, st: State, b: Block, phi: Phi, o: Operand)
    requires FuncOk(f) && SlotsOk(f, at) && SomeStore(f, at, p, x)
    requires Takes(f, b, phi, o, p) && (b, phi.slot) in at
    requires (x == Store(o, at[(b, phi.slot)]) || Holds(at, b, phi, o, st))
    ensures var r := Step(sem, st, x); r.Some? && Holds(at, b, phi, o, r.value)
  {
    var b0, phi0, o0 :| IsStore(f, at, p, b0, phi0, o0, x);
    if at[(b, phi.slot)] == at[(b0, phi0.slot)] {
      assert b == b0 && phi.slot == phi0.slot;
      SamePhi(f.phis[b], phi, phi0);
      assert PhiOk(f, phi);
    }
  }

  ghost predicate AllHold(f: Func, at: SlotMap, p: Block, xs: seq<Instr>, st: State) {
    forall b: Block, phi, o {:trigger Takes(f, b, phi, o, p)} ::
      Takes(f, b, phi, o, p) && (b, phi.slot) in at && Store(o, at[(b, phi.slot)]) in xs ==> Holds(at, b, phi, o, st)
  }

  /** Whatever their order, the stores deliver every operand to its slot and change nothing else. */
  lemma {:induction false} StoresDeliver(f: Func, at: SlotMap, sem: Semantics, p: Block, xs: seq<Instr>, st: State)
    requires FuncOk(f) && SlotsOk(f, at) && OnlyStores(f, at, p, xs)
    ensures var r := Exec(sem, st, xs);
            && r.Some? && r.value == st.(mem := r.value.mem) && Same(true, at, st, r.value)
            && AllHold(f, at, p, xs, r.value)
  {
    if xs == [] {
      hide FuncOk, SlotsOk;
    } else {
      hide Same, FuncOk, SlotsOk, Step, SomeStore;
      var init, x := xs[..|xs| - 1], xs[|xs| - 1];
      assert OnlyStores(f, at, p, init) by {
        assert forall i :: 0 <= i < |init| ==> init[i] == xs[i];
      }
      StoresDeliver(f, at, sem, p, init, st);
      var mid := Exec(sem, st, init).value;
      StoreOne(f, at, sem, p, x, mid);
      var end := Step(sem, mid, x).value;
      SameTrans(true, at, st, mid, end);
      forall b: Block, phi, o | Takes(f, b, phi, o, p) && (b, phi.slot) in at && Store(o, at[(b, phi.slot)]) in xs
        ensures Holds(at, b, phi, o, end)
      {
        StoreHolds(f, at, sem, p, x, mid, b, phi, o);
      }
    }
  }

  // ----- whole blocks -----

  lemma {:induction false} IncomingIs(pairs: seq<(Operand, Block)>, p: Block)
    ensures Incoming(pairs, p).Some? ==> (Incoming(pairs, p).value, p) in pairs
  {
    if pairs != [] {
      assert pairs[0] in pairs;
      IncomingIs(pairs[1..], p);
    }
  }

  /** The states before block b: the same, except that what b's phis will receive already lies in their
      slots. */
  ghost predicate Before(exact: bool, f: Func, at: SlotMap, b: Block, from: Option<Block>, o: State, n: State) {
    Same(exact, at, o, n) && match from case Some(p) => Delivered(exact, f, at, b, p, n) case None => b == f.g.entry
  }

  lemma DeliveredAtEnd(exact: bool, f: Func, at: SlotMap, p: Block, b: Block, xs: seq<Instr>, st: State)
    requires FuncOk(f) && SlotsOk(f, at) && f.g.Edge(p, b) && StoresOk(f, at, p, xs) && AllHold(f, at, p, xs, st)
    requires exact ==> Complete(f)
    ensures Delivered(exact, f, at, b, p, st)
  {
    forall phi | HasPhi(f, b, phi)
      ensures (b, phi.slot) in at && (exact ==> Incoming(phi.pairs, p).Some?)
      ensures Incoming(phi.pairs, p).Some? ==> Content(st.mem, at[(b, phi.slot)]) == IncomingValue(st.env, phi, p)
    {
      IncomingIs(phi.pairs, p);
      if Incoming(phi.pairs, p).Some? {
        var o := Incoming(phi.pairs, p).value;
        assert Takes(f, b, phi, o, p);
        OperandStored(f, at, p, xs, b, phi, o);
        assert Holds(at, b, phi, o, st);
      }
    }
  }

  lemma BodyClear(f: Func, at: SlotMap, b: Block)
    requires SlotsOk(f, at)
    ensures Clear(at, InstrsOf(f, b))
  {
    forall i, m | 0 <= i < |InstrsOf(f, b)| && m in at
      ensures !Mentions(InstrsOf(f, b)[i], at[m])
    {
      assert InstrsOf(f, b)[i] in InstrsOf(f, b);
    }
  }

  /** The head of the block. */
  lemma HeadSame(exact: bool, f: Func, at: SlotMap, sem: Semantics, b: Block, from: Option<Block>, o: State, n: State)
    requires FuncOk(f) && b < |f.phis| && Before(exact, f, at, b, from, o, n)
    ensures var r := Exec(sem, n, Loads(b, f.phis[b], at));
            r.Some? && Same(exact, at, o.(env := EnterBlock(f, b, from, o.env)), r.value)
  {
    if from.Some? {
      assert forall phi {:trigger phi in f.phis[b]} :: phi in f.phis[b] ==> HasPhi(f, b, phi);
      LoadsAssign(exact, f, at, sem, b, from.value, o.env, n, f.phis[b]);
    }
  }

  ghost predicate AllDelivered(exact: bool, f: Func, at: SlotMap, p: Block, st: State) {
    forall b: Block {:trigger f.g.Edge(p, b)} :: f.g.Edge(p, b) ==> Delivered(exact, f, at, b, p, st)
  }

  /** The end of the block: allocas and stores leave the state the same, with everything delivered. */
  lemma TailSame(exact: bool, f: Func, at: SlotMap, sem: Semantics, p: Block, allocas: seq<Instr>, stores: seq<Instr>,
                 st: State)
    requires FuncOk(f) && SlotsOk(f, at) && OnlyAllocas(at, allocas) && StoresOk(f, at, p, stores)
    requires (exact ==> Complete(f))
    ensures Exec(sem, st, allocas + stores).Some? && Same(true, at, st, Exec(sem, st, allocas + stores).value)
    ensures AllDelivered(exact, f, at, p, Exec(sem, st, allocas + stores).value)
  {
    ExecAppend(sem, st, allocas, stores);
    AllocasRun(at, sem, allocas, st);
    var mid := Exec(sem, st, allocas).value;
    StoresDeliver(f, at, sem, p, stores, mid);
    var end := Exec(sem, mid, stores).value;
    SameTrans(true, at, st, mid, end);
    hide FuncOk, SlotsOk, OnlyAllocas, StoresOk, AllHold, Complete;
    forall b: Block | f.g.Edge(p, b)
      ensures Delivered(exact, f, at, b, p, end)
    {
      DeliveredAtEnd(exact, f, at, p, b, stores, end);
    }
  }

  lemma ElimShape(f: Func, h: Func, at: SlotMap, b: Block) returns (allocas: seq<Instr>, stores: seq<Instr>)
    requires FuncOk(f) && Eliminated(f, h, at) && b < |f.code|
    ensures b < |f.phis| && b < |h.code| && OnlyAllocas(at, allocas) && StoresOk(f, at, b, stores) && SlotsOk(f, at)
    ensures if b == f.g.entry then AllocasOk(at, allocas) else allocas == []
    ensures h.code[b].instrs == Loads(b, f.phis[b], at) + (InstrsOf(f, b) + (allocas + stores))
    ensures InstrsOf(f, b) == f.code[b].instrs
  {
    assert h.code[b].term == f.code[b].term && BlockOk(f, at, b, h.code[b].instrs);
    allocas, stores :| BlockElim(f, at, b, h.code[b].instrs, allocas, stores);
    hide Loads, SlotsOk, AllocasOk, StoresOk;
    if b == f.g.entry {
      AllocasOnly(at, allocas);
    }
    assert Loads(b, f.phis[b], at) + InstrsOf(f, b) + allocas + stores == Loads(b, f.phis[b], at)
      + (InstrsOf(f, b) + (allocas + stores));
  }

  /** What both functions do in block b. */
  lemma ElimBlock(exact: bool, f: Func, h: Func, at: SlotMap, sem: Semantics, b: Block, from: Option<Block>, o: State,
                  n: State)
    requires FuncOk(f) && Eliminated(f, h, at) && b < |f.code| && Before(exact, f, at, b, from, o, n)
    requires (exact ==> Complete(f))
    ensures b < |f.phis| && b < |h.code|
    ensures var ro := Exec(sem, o.(env := EnterBlock(f, b, from, o.env)), f.code[b].instrs);
            var rn := Exec(sem, n, h.code[b].instrs);
            SameNext(exact, at, ro, rn) && (ro.Some? ==> AllDelivered(exact, f, at, b, rn.value))
  {
    hide *;
    var allocas, stores := ElimShape(f, h, at, b);
    var body, loads := InstrsOf(f, b), Loads(b, f.phis[b], at);
    HeadSame(exact, f, at, sem, b, from, o, n);
    var o1 := o.(env := EnterBlock(f, b, from, o.env));
    var n1 := Exec(sem, n, loads).value;
    ExecAppend(sem, n, loads, body + (allocas + stores));
    BodyClear(f, at, b);
    BodySame(exact, at, sem, body, o1, n1);
    NextCases(exact, at, Exec(sem, o1, body), Exec(sem, n1, body));
    ExecAppend(sem, n1, body, allocas + stores);
    if Exec(sem, n1, body).Some? {
      var n2 := Exec(sem, n1, body).value;
      TailSame(exact, f, at, sem, b, allocas, stores, n2);
      if Exec(sem, o1, body).Some? {
        SameTrans(exact, at, Exec(sem, o1, body).value, n2, Exec(sem, n2, allocas + stores).value);
      }
    }
    NextCases(exact, at, Exec(sem, o1, body), Exec(sem, n, h.code[b].instrs));
  }

  lemma NextCases(exact: bool, at: SlotMap, ro: Option<State>, rn: Option<State>)
    ensures SameNext(exact, at, ro, rn) <==>
              (ro.Some? ==> rn.Some? && Same(exact, at, ro.value, rn.value)) && (exact && rn.Some? ==> ro.Some?)
  {
  }

  // ----- whole runs -----

  lemma NoPhis(h: Func, b: Block, from: Option<Block>, env: map<Reg, Val>)
    requires b < |h.phis| && h.phis[b] == []
    ensures EnterBlock(h, b, from, env) == env
  {
  }

  lemma NextEdge(f: Func, b: Block, env: map<Reg, Val>)
    requires FuncOk(f) && b < |f.code| && Leave(env, f.code[b].term).Goto?
    ensures var next := Leave(env, f.code[b].term).b; f.g.Edge(b, next) && next < |f.code|
  {
    var next := Leave(env, f.code[b].term).b;
    assert next in Targets(f.code[b].term) && f.g.Edge(b, next);
  }

  lemma LeaveSame(exact: bool, at: SlotMap, o: State, n: State, t: Term)
    requires Same(exact, at, o, n)
    ensures o.world == n.world && (exact || Leave(o.env, t) != NoExit ==> Leave(n.env, t) == Leave(o.env, t))
  {
    match t
    case CondBr(c, _, _) => EvalWithin(exact, o.env, n.env, c);
    case Ret(Some(v)) => EvalWithin(exact, o.env, n.env, v);
    case _ =>
  }

  lemma NextBefore(exact: bool, f: Func, at: SlotMap, b: Block, next: Block, o: State, n: State)
    requires Same(exact, at, o, n) && f.g.Edge(b, next) && AllDelivered(exact, f, at, b, n)
    ensures Before(exact, f, at, next, Some(b), o, n)
  {
  }

  /** From states before the same block both functions behave the same for any number of blocks. */
  lemma {:induction false} RunEliminated(exact: bool, f: Func, h: Func, at: SlotMap, sem: Semantics, k: nat, b: Block,
                                         from: Option<Block>, o: State, n: State)
    requires FuncOk(f) && Eliminated(f, h, at) && b < |f.code| && Before(exact, f, at, b, from, o, n)
    requires (exact ==> Complete(f))
    ensures exact || Run(f, sem, k, b, from, o) != Stuck ==> Run(h, sem, k, b, from, n) == Run(f, sem, k, b, from, o)
    decreases k
  {
    hide *;
    RunUnfold(h, sem, k, b, from, n);
    RunUnfold(f, sem, k, b, from, o);
    BeforeWorld(exact, f, at, b, from, o, n);
    if k > 0 {
      ElimSizes(f, h, at, b, from, n);
      ElimBlock(exact, f, h, at, sem, b, from, o, n);
      var ro := Exec(sem, o.(env := EnterBlock(f, b, from, o.env)), f.code[b].instrs);
      var rn := Exec(sem, n, h.code[b].instrs);
      NextCases(exact, at, ro, rn);
      if ro.Some? {
        var t := f.code[b].term;
        LeaveSame(exact, at, ro.value, rn.value, t);
        var exit := Leave(ro.value.env, t);
        if exit.Goto? {
          NextEdge(f, b, ro.value.env);
          NextBefore(exact, f, at, b, exit.b, ro.value, rn.value);
          PrependStuck(b, Run(f, sem, k - 1, exit.b, Some(b), ro.value));
          RunEliminated(exact, f, h, at, sem, k - 1, exit.b, Some(b), ro.value, rn.value);
        }
      }
    }
  }

  lemma BeforeWorld(exact: bool, f: Func, at: SlotMap, b: Block, from: Option<Block>, o: State, n: State)
    requires Before(exact, f, at, b, from, o, n)
    ensures o.world == n.world
  {
  }

  lemma ElimSizes(f: Func, h: Func, at: SlotMap, b: Block, from: Option<Block>, n: State)
    requires FuncOk(f) && Eliminated(f, h, at) && b < |f.code|
    ensures b < |f.phis| && b < |h.phis| && b < |h.code| && h.code[b].term == f.code[b].term
    ensures n.(env := EnterBlock(h, b, from, n.env)) == n
  {
    NoPhis(h, b, from, n.env);
  }

  /** Main theorem: a run that never works with an undefined value is the same without phis: the same
      blocks in the same order, the same effects and the same result. If every phi has a pair for each
      predecessor, all runs are, and one gets stuck where the other does. */
  lemma EliminationPreservesMeaning(f: Func, h: Func, at: SlotMap, sem: Semantics, k: nat, args: map<Reg, Val>,
                                    world: World)
    requires FuncOk(f) && Eliminated(f, h, at)
    ensures Complete(f) || Behave(f, sem, k, args, world) != Stuck ==>
      Behave(h, sem, k, args, world) == Behave(f, sem, k, args, world)
  {
    var st := State(args, map[], world);
    var exact: bool := Complete(f);
    RunEliminated(exact, f, h, at, sem, k, f.g.entry, None, st, st);
  }

  // ----- the slots are allocated before they are used -----

  /** The instructions of the blocks of a walk, one after the other. */
  ghost function CodeAlong(h: Func, p: seq<Block>): seq<Instr> {
    if p == [] then [] else CodeAlong(h, p[..|p| - 1]) + InstrsOf(h, p[|p| - 1])
  }

  lemma {:induction false} EntryFirst(h: Func, p: seq<Block>)
    requires p != []
    ensures InstrsOf(h, p[0]) <= CodeAlong(h, p)
  {
    if |p| == 1 {
      assert CodeAlong(h, p[..0]) == [];
    } else {
      EntryFirst(h, p[..|p| - 1]);
    }
  }

  /** Before the i-th instruction there is an alloca of the slot. */
  ghost predicate AllocatedBefore(xs: seq<Instr>, s: Slot, i: nat) {
    exists j :: 0 <= j < i && j < |xs| && xs[j] == Alloca(s, true)
  }

  ghost predicate Accesses(x: Instr, s: Slot) {
    (x.Load? || x.Store?) && x.slot == s
  }

  lemma {:induction false} OnceIn<T>(xs: seq<T>, x: T)
    requires x in xs && forall i, j {:trigger xs[i], xs[j]} :: 0 <= i < j < |xs| ==> xs[i] != xs[j]
    ensures multiset(xs)[x] == 1
  {
    var init, last := xs[..|xs| - 1], xs[|xs| - 1];
    assert xs == init + [last];
    if x == last {
      assert x !in init;
      assert x !in multiset(init);
    } else {
      OnceIn(init, x);
    }
  }

  /** A body that does not mention the slot, then allocas, then stores. */
  lemma AllocatesOnce(at: SlotMap, s: Slot, body: seq<Instr>, allocas: seq<Instr>, stores: seq<Instr>)
    requires forall x {:trigger x in body} :: x in body ==> !Mentions(x, s)
    requires AllocasOk(at, allocas) && s in at.Values
    requires forall x {:trigger x in stores} :: x in stores ==> x.Store?
    ensures var xs := body + allocas + stores;
            && multiset(xs)[Alloca(s, true)] == 1 && AllocatedBefore(xs, s, |xs|)
            && forall i {:trigger xs[i]} :: 0 <= i < |xs| && Accesses(xs[i], s) ==> AllocatedBefore(xs, s, i)
  {
    var xs, x := body + allocas + stores, Alloca(s, true);
    assert x in allocas;
    OnceIn(allocas, x);
    assert Mentions(x, s) && x !in body && x !in stores;
    assert multiset(xs) == multiset(body) + multiset(allocas) + multiset(stores);
    var j :| 0 <= j < |allocas| && allocas[j] == x;
    assert xs[|body| + j] == x;
    forall i | 0 <= i < |body| + |allocas|
      ensures !Accesses(xs[i], s)
    {
      assert xs[i] in if i < |body| then body else allocas;
    }
    forall i | 0 <= i < |xs| && Accesses(xs[i], s)
      ensures AllocatedBefore(xs, s, i)
    {
      assert |body| + j < i;
    }
  }

  lemma EntryShape(f: Func, h: Func, at: SlotMap, m: PhiName)
    returns (body: seq<Instr>, allocas: seq<Instr>, stores: seq<Instr>)
    requires FuncOk(f) && Eliminated(f, h, at) && m in at
    ensures InstrsOf(h, f.g.entry) == body + allocas + stores && AllocasOk(at, allocas)
    ensures forall x {:trigger x in body} :: x in body ==> !Mentions(x, at[m])
    ensures forall x {:trigger x in stores} :: x in stores ==> x.Store?
  {
    body := InstrsOf(f, f.g.entry);
    hide Eliminated, AllocasOk, Loads;
    allocas, stores := ElimShape(f, h, at, f.g.entry);
    assert Loads(f.g.entry, [], at) + (body + (allocas + stores)) == body + allocas + stores by {
      NoLoads(f.g.entry, at);
    }
    forall x | x in stores
      ensures x.Store?
    {
      var i :| 0 <= i < |stores| && stores[i] == x;
      assert SomeStore(f, at, f.g.entry, stores[i]);
    }
  }

  lemma NoLoads(b: Block, at: SlotMap)
    ensures Loads(b, [], at) == []
  {
  }

  /** The entry block has exactly one alloca for each phi, before every load and store of its slot. */
  lemma EntryAllocates(f: Func, h: Func, at: SlotMap, m: PhiName)
    requires FuncOk(f) && Eliminated(f, h, at) && m in at
    ensures var xs := InstrsOf(h, f.g.entry);
            && multiset(xs)[Alloca(at[m], true)] == 1 && AllocatedBefore(xs, at[m], |xs|)
            && forall i {:trigger xs[i]} :: 0 <= i < |xs| && Accesses(xs[i], at[m]) ==> AllocatedBefore(xs, at[m], i)
  {
    hide FuncOk, Eliminated, AllocasOk, AllocatedBefore;
    var body, allocas, stores := EntryShape(f, h, at, m);
    assert at[m] in at.Values;
    AllocatesOnce(at, at[m], body, allocas, stores);
  }

  lemma {:induction false} StartsAtEntry(g: Graph, p: seq<Block>)
    requires g.IsTrail(p)
    ensures p[0] == g.entry
  {
    if |p| > 1 {
      StartsAtEntry(g, p[..|p| - 1]);
    }
  }

  /** On every walk from the entry block, a phi's slot is allocated before it is loaded or stored to. */
  ghost predicate AllocatedOnWalks(h: Func, at: SlotMap) {
    forall p, m, i {:trigger h.g.IsTrail(p), AllocatedBefore(CodeAlong(h, p), at[m], i)} ::
      h.g.IsTrail(p) && m in at && 0 <= i < |CodeAlong(h, p)| && Accesses(CodeAlong(h, p)[i], at[m]) ==>
        AllocatedBefore(CodeAlong(h, p), at[m], i)
  }

  lemma PrefixAllocates(first: seq<Instr>, xs: seq<Instr>, s: Slot, i: nat)
    requires first <= xs && i < |xs| && Accesses(xs[i], s) && AllocatedBefore(first, s, |first|)
    requires forall j {:trigger first[j]} :: 0 <= j < |first| && Accesses(first[j], s) ==> AllocatedBefore(first, s, j)
    ensures AllocatedBefore(xs, s, i)
  {
    assert forall j {:trigger first[j]} :: 0 <= j < |first| ==> xs[j] == first[j];
    if i < |first| {
      assert AllocatedBefore(first, s, i);
    }
  }

  lemma WalkAllocates(f: Func, h: Func, at: SlotMap)
    requires FuncOk(f) && Eliminated(f, h, at)
    ensures AllocatedOnWalks(h, at)
  {
    hide FuncOk, CodeAlong, AllocatedBefore, Accesses, BlockOk, SlotsOk;
    forall p, m, i | h.g.IsTrail(p) && m in at && 0 <= i < |CodeAlong(h, p)| && Accesses(CodeAlong(h, p)[i], at[m])
      ensures AllocatedBefore(CodeAlong(h, p), at[m], i)
    {
      StartsAtEntry(h.g, p);
      EntryFirst(h, p);
      EntryAllocates(f, h, at, m);
      PrefixAllocates(InstrsOf(h, h.g.entry), CodeAlong(h, p), at[m], i);
    }
  }

  // ----- the trace of a run is such a walk -----

  ghost predicate IsWalk(g: Graph, p: seq<Block>) {
    forall i {:trigger p[i]} :: 0 <= i < |p| - 1 ==> g.Edge(p[i], p[i + 1])
  }

  lemma {:induction false} WalkIsTrail(g: Graph, p: seq<Block>)
    requires IsWalk(g, p) && p != [] && p[0] == g.entry
    ensures g.IsTrail(p)
  {
    if |p| > 1 {
      var init := p[..|p| - 1];
      assert g.Edge(p[|p| - 2], p[|p| - 1]);
      assert forall i {:trigger init[i]} :: 0 <= i < |init| - 1 ==> init[i] == p[i] && g.Edge(p[i], p[i + 1]);
      WalkIsTrail(g, init);
    }
  }

  function TraceOf(r: Behaviour): seq<Block> {
    if r.Stuck? then [] else r.trace
  }

  /** The terminators' targets are successors. */
  ghost predicate TargetsOk(h: Func) {
    forall b: Block, t: Block {:trigger h.g.Edge(b, t)} :: b < |h.code| && t in Targets(h.code[b].term) ==>
      h.g.Edge(b, t)
  }

  lemma OneStepWalk(h: Func, b: Block)
    ensures IsWalk(h.g, []) && IsWalk(h.g, [b])
  {
  }

  lemma WalkMore(g: Graph, b: Block, next: Block, r: Behaviour)
    requires g.Edge(b, next) && IsWalk(g, TraceOf(r)) && (TraceOf(r) != [] ==> TraceOf(r)[0] == next)
    ensures var tr := TraceOf(Prepend(b, r)); IsWalk(g, tr) && (tr != [] ==> tr[0] == b)
  {
    var rest, tr := TraceOf(r), TraceOf(Prepend(b, r));
    forall i | 0 <= i < |tr| - 1
      ensures g.Edge(tr[i], tr[i + 1])
    {
      assert tr[i + 1] == rest[i];
      if i > 0 {
        assert tr[i] == rest[i - 1] && rest[i - 1 + 1] == rest[i];
      }
    }
  }

  lemma NextTarget(h: Func, b: Block, env: map<Reg, Val>)
    requires TargetsOk(h) && b < |h.code| && Leave(env, h.code[b].term).Goto?
    ensures h.g.Edge(b, Leave(env, h.code[b].term).b)
  {
    var next := Leave(env, h.code[b].term).b;
    assert next in Targets(h.code[b].term) && h.g.Edge(b, next);
  }

  lemma {:induction false} RunWalks(h: Func, sem: Semantics, k: nat, b: Block, from: Option<Block>, st: State)
    requires TargetsOk(h)
    ensures var tr := TraceOf(Run(h, sem, k, b, from, st)); IsWalk(h.g, tr) && (tr != [] ==> tr[0] == b)
    decreases k
  {
    hide Exec, EnterBlock, Run, Leave, IsWalk, TargetsOk, Prepend;
    RunUnfold(h, sem, k, b, from, st);
    OneStepWalk(h, b);
    if k > 0 && b < |h.code| && b < |h.phis| {
      var end := Exec(sem, st.(env := EnterBlock(h, b, from, st.env)), h.code[b].instrs);
      if end.Some? && Leave(end.value.env, h.code[b].term).Goto? {
        var next := Leave(end.value.env, h.code[b].term).b;
        NextTarget(h, b, end.value.env);
        RunWalks(h, sem, k - 1, next, Some(b), end.value);
        WalkMore(h.g, b, next, Run(h, sem, k - 1, next, Some(b), end.value));
      }
    }
  }

  /** The blocks that a run enters are a walk from the entry block. */
  lemma BehaveWalks(h: Func, sem: Semantics, k: nat, args: map<Reg, Val>, world: World)
    requires TargetsOk(h)
    ensures var tr := TraceOf(Behave(h, sem, k, args, world)); tr != [] ==> h.g.IsTrail(tr)
  {
    var st := State(args, map[], world);
    RunWalks(h, sem, k, h.g.entry, None, st);
    var tr := TraceOf(Run(h, sem, k, h.g.entry, None, st));
    if tr != [] {
      WalkIsTrail(h.g, tr);
    }
  }

  /** So in every run a phi's slot is allocated before it is loaded or stored to. */
  lemma RunsAllocate(f: Func, h: Func, at: SlotMap, sem: Semantics, k: nat, args: map<Reg, Val>, world: World,
                     m: PhiName, i: nat)
    requires FuncOk(f) && Eliminated(f, h, at) && m in at
    ensures var xs := CodeAlong(h, TraceOf(Behave(h, sem, k, args, world)));
            i < |xs| && Accesses(xs[i], at[m]) ==> AllocatedBefore(xs, at[m], i)
  {
    TargetsStay(f, h, at);
    hide FuncOk, Eliminated, Accesses, AllocatedBefore, TargetsOk, Behave;
    WalkAllocates(f, h, at);
    BehaveWalks(h, sem, k, args, world);
    assert CodeAlong(h, []) == [];
  }

  lemma TargetsStay(f: Func, h: Func, at: SlotMap)
    requires FuncOk(f) && Eliminated(f, h, at)
    ensures TargetsOk(h)
  {
    forall b: Block, t: Block | b < |h.code| && t in Targets(h.code[b].term)
      ensures h.g.Edge(b, t)
    {
      assert h.code[b].term == f.code[b].term && f.g.Edge(b, t);
    }
  }
}
