/** What it means for a value to be live, and the equations that the analysis solves. */
module Liveness {
  import opened Cfg

  type Value = nat

  /** An operand; labels and nameless constants are not tracked. */
  datatype Rand = Rand(val: Value, tracked: bool)

  datatype Instr =
    | Plain(val: Value, isVoid: bool, rands: seq<Rand>)
    | Call(val: Value, isVoid: bool, callee: Rand, rands: seq<Rand>)
    | Phi(val: Value, pairs: seq<(Rand, Block)>)

  datatype Func = Func(g: Graph, code: seq<seq<Instr>>)

  function PairRands(pairs: seq<(Rand, Block)>): seq<Rand> {
    if pairs == [] then [] else [pairs[0].0] + PairRands(pairs[1..])
  }

  /** All operands but labels; for a call the first one is the function. */
  function Operands(x: Instr): seq<Rand> {
    match x
    case Plain(_, _, rands) => rands
    case Call(_, _, callee, rands) => [callee] + rands
    case Phi(_, pairs) => PairRands(pairs)
  }

  predicate Defines(x: Instr, v: Value) {
    x.val == v && (x.Phi? || !x.isVoid)
  }

  predicate Tracked(rands: seq<Rand>, v: Value) {
    Rand(v, true) in rands
  }

  predicate IsCallee(x: Instr, v: Value) {
    x.Call? && x.callee.val == v
  }

  /** x reads v; naming a function in a call does not count. */
  predicate Reads(x: Instr, v: Value) {
    Tracked(Operands(x), v) && !IsCallee(x, v)
  }

  ghost predicate DefinedIn(xs: seq<Instr>, v: Value) {
    exists i :: 0 <= i < |xs| && Defines(xs[i], v)
  }

  /** Some instruction reads v before any has defined it. */
  ghost predicate Exposed(xs: seq<Instr>, v: Value) {
    exists i :: 0 <= i < |xs| && Reads(xs[i], v) && !DefinedIn(xs[..i], v)
  }

  /** The same for instructions that are not phis. */
  ghost predicate OrdinaryExposed(xs: seq<Instr>, v: Value) {
    exists i :: 0 <= i < |xs| && !xs[i].Phi? && Reads(xs[i], v) && !DefinedIn(xs[..i], v)
  }

  ghost predicate PhiTakes(x: Instr, v: Value, p: Block) {
    x.Phi? && exists r: Rand :: r.val == v && (r, p) in x.pairs
  }

  /** Some phi takes v on the edge from p. */
  ghost predicate TakenFrom(xs: seq<Instr>, v: Value, p: Block) {
    exists i :: 0 <= i < |xs| && PhiTakes(xs[i], v, p)
  }

  ghost predicate TakenByPhi(xs: seq<Instr>, v: Value) {
    exists p: Block :: TakenFrom(xs, v, p)
  }

  /** Some phi reads the tracked value v on the edge from p. */
  ghost predicate ReadByPhi(xs: seq<Instr>, v: Value, p: Block) {
    exists i :: 0 <= i < |xs| && xs[i].Phi? && (Rand(v, true), p) in xs[i].pairs
  }

  /** Functions are not values: what is called is neither defined nor used in any other way; and an
      operand's value says whether it is tracked. */
  ghost predicate CodeOk(xs: seq<Instr>) {
    && (forall i, j, v {:trigger IsCallee(xs[i], v), Defines(xs[j], v)} ::
          0 <= i < |xs| && 0 <= j < |xs| && IsCallee(xs[i], v) ==> !Defines(xs[j], v) && !Reads(xs[j], v))
    && (forall i, j, r, r' {:trigger r in Operands(xs[i]), r' in Operands(xs[j])} ::
          0 <= i < |xs| && 0 <= j < |xs| && r in Operands(xs[i]) && r' in Operands(xs[j]) && r.val == r'.val ==>
            r == r')
  }

  ghost predicate FuncOk(f: Func) {
    f.g.Valid() && |f.code| == |f.g.succs| && forall b {:trigger f.code[b]} :: 0 <= b < |f.code| ==> CodeOk(f.code[b])
  }

  // ----- textbook liveness -----

  ghost predicate Linked(f: Func, p: seq<Block>, i: nat) {
    i < |p| - 1 && f.g.Edge(p[i], p[i + 1])
  }

  ghost predicate Walk(f: Func, p: seq<Block>) {
    && |p| > 0 && (forall i {:trigger p[i]} :: 0 <= i < |p| ==> p[i] < |f.code|)
    && forall i: nat {:trigger Linked(f, p, i)} :: i < |p| - 1 ==> Linked(f, p, i)
  }

  /** s reads v when entered from b: by a phi on this edge, or by an exposed ordinary use. */
  ghost predicate ReadOnEntry(f: Func, v: Value, b: Block, s: Block) {
    s < |f.code| && (OrdinaryExposed(f.code[s], v) || ReadByPhi(f.code[s], v, b))
  }

  /** A way from the end of p[0] to a read of v, without a definition in between. */
  ghost predicate LiveWalk(f: Func, v: Value, p: seq<Block>) {
    && Walk(f, p) && |p| >= 2
    && (forall i {:trigger p[i]} :: 0 < i < |p| - 1 ==> !DefinedIn(f.code[p[i]], v))
    && ReadOnEntry(f, v, p[|p| - 2], p[|p| - 1])
  }

  ghost predicate LiveOut(f: Func, v: Value, b: Block) {
    exists p :: LiveWalk(f, v, p) && p[0] == b
  }

  lemma LiveHere(f: Func, v: Value, b: Block, s: Block)
    requires f.g.Edge(b, s) && b < |f.code| && ReadOnEntry(f, v, b, s)
    ensures LiveOut(f, v, b)
  {
    var p := [b, s];
    assert LiveWalk(f, v, p) && p[0] == b;
  }

  lemma LiveThrough(f: Func, v: Value, b: Block, s: Block)
    requires f.g.Edge(b, s) && b < |f.code| && s < |f.code| && !DefinedIn(f.code[s], v) && LiveOut(f, v, s)
    ensures LiveOut(f, v, b)
  {
    hide OrdinaryExposed, TakenFrom, DefinedIn;
    var p :| LiveWalk(f, v, p) && p[0] == s;
    var q := [b] + p;
    forall i: nat | i < |q| - 1
      ensures Linked(f, q, i)
    {
      if i > 0 {
        assert Linked(f, p, i - 1);
      }
    }
    assert LiveWalk(f, v, q) && q[0] == b;
  }

  // ----- when the passes over the blocks are enough -----

  /** The filter on phi operands lets v pass from s to its predecessor b. */
  ghost predicate LetThrough(f: Func, v: Value, b: Block, s: Block) {
    s < |f.code| && (TakenByPhi(f.code[s], v) ==> TakenFrom(f.code[s], v, b))
  }

  /** An exposed value of s that the filter lets pass to the predecessor b. */
  ghost predicate UseReaches(f: Func, b: Block, s: Block) {
    f.g.Edge(b, s) && s < |f.code| && exists v :: Exposed(f.code[s], v) && LetThrough(f, v, b, s)
  }

  /** Some use reaches a block that is listed before its own, or none reaches any block. */
  ghost predicate EnoughPasses(f: Func) {
    || (exists b: Block, s: Block {:trigger UseReaches(f, b, s)} :: b < s && UseReaches(f, b, s))
    || forall b: Block, s: Block {:trigger UseReaches(f, b, s)} :: !UseReaches(f, b, s)
  }

  // ----- what the passes find -----

  /** The filter lets v pass on every edge. */
  ghost predicate LetThroughAll(f: Func, v: Value, p: seq<Block>) {
    forall i: nat {:trigger Linked(f, p, i)} :: i < |p| - 1 ==> LetThrough(f, v, p[i], p[i + 1])
  }

  /** A live walk to an exposed use, all of whose edges v can pass. */
  ghost predicate FoundWalk(f: Func, v: Value, p: seq<Block>) {
    LiveWalk(f, v, p) && Exposed(f.code[p[|p| - 1]], v) && LetThroughAll(f, v, p)
  }

  ghost predicate Found(f: Func, v: Value, b: Block) {
    exists p :: FoundWalk(f, v, p) && p[0] == b
  }

  lemma FoundIsLive(f: Func, v: Value, b: Block)
    requires Found(f, v, b)
    ensures LiveOut(f, v, b)
  {
    var p :| FoundWalk(f, v, p) && p[0] == b;
    assert LiveWalk(f, v, p);
  }

  lemma FoundHere(f: Func, v: Value, b: Block, s: Block)
    requires f.g.Edge(b, s) && b < |f.code| && ReadOnEntry(f, v, b, s)
    requires Exposed(f.code[s], v) && LetThrough(f, v, b, s)
    ensures Found(f, v, b)
  {
    hide OrdinaryExposed, ReadByPhi, DefinedIn, Exposed;
    var p := [b, s];
    assert LiveWalk(f, v, p);
    assert FoundWalk(f, v, p) && p[0] == b;
  }

  lemma FoundThrough(f: Func, v: Value, b: Block, s: Block)
    requires f.g.Edge(b, s) && b < |f.code| && s < |f.code| && !DefinedIn(f.code[s], v) && LetThrough(f, v, b, s)
    requires Found(f, v, s)
    ensures Found(f, v, b)
  {
    hide OrdinaryExposed, ReadByPhi, TakenFrom, DefinedIn, Exposed, LetThrough;
    var p :| FoundWalk(f, v, p) && p[0] == s;
    var q := [b] + p;
    forall i: nat | i < |q| - 1
      ensures Linked(f, q, i) && LetThrough(f, v, q[i], q[i + 1])
    {
      if i > 0 {
        assert Linked(f, p, i - 1);
      }
    }
    assert LiveWalk(f, v, q);
    assert FoundWalk(f, v, q) && q[0] == b;
  }

  // ----- what the analysis collects -----

  type Sets = seq<set<Value>>

  /** def, use, and for each block and predecessor the values its phis take. */
  datatype Local = Local(def: Sets, use: Sets, phiuses: seq<map<Block, set<Value>>>)

  predicate AnyPhi(l: Local, s: Block, v: Value)
    requires s < |l.phiuses|
  {
    exists p :: p in l.phiuses[s] && v in l.phiuses[s][p]
  }

  predicate FromPhi(l: Local, s: Block, b: Block, v: Value)
    requires s < |l.phiuses|
  {
    b in l.phiuses[s] && v in l.phiuses[s][b]
  }

  /** What of a value live into s is passed to its predecessor b: a value that phis of s take, only if
      they take it from b. */
  predicate Passes(l: Local, b: Block, s: Block, v: Value)
    requires s < |l.phiuses|
  {
    !AnyPhi(l, s, v) || FromPhi(l, s, b, v)
  }

  ghost predicate LocalOk(f: Func, l: Local) {
    && |l.def| == |l.use| == |l.phiuses| == |f.code|
    && (forall b: Block, v {:trigger v in l.use[b]} :: b < |f.code| ==> (v in l.use[b] <==> Exposed(f.code[b], v)))
    && (forall b: Block, v {:trigger v in l.def[b]} :: b < |f.code| ==>
         (v in l.def[b] <==> DefinedIn(f.code[b], v) && !Exposed(f.code[b], v)))
    && (forall s: Block, b: Block, v {:trigger FromPhi(l, s, b, v)} :: s < |f.code| ==>
         (FromPhi(l, s, b, v) <==> TakenFrom(f.code[s], v, b)))
  }

  lemma AnyPhiTaken(f: Func, l: Local, s: Block, v: Value)
    requires LocalOk(f, l) && s < |f.code|
    ensures AnyPhi(l, s, v) <==> TakenByPhi(f.code[s], v)
  {
    if p: Block :| p in l.phiuses[s] && v in l.phiuses[s][p] {
      assert FromPhi(l, s, p, v);
    }
    if p: Block :| TakenFrom(f.code[s], v, p) {
      assert FromPhi(l, s, p, v);
    }
  }

  lemma PassesWhen(f: Func, l: Local, b: Block, s: Block, v: Value)
    requires LocalOk(f, l) && s < |f.code|
    ensures Passes(l, b, s, v) <==> LetThrough(f, v, b, s)
  {
    AnyPhiTaken(f, l, s, v);
    assert FromPhi(l, s, b, v) <==> TakenFrom(f.code[s], v, b);
  }

  // ----- soundness -----

  ghost predicate OutSound(f: Func, out: Sets) {
    forall b: Block, v {:trigger v in out[b]} :: b < |out| && v in out[b] ==> LiveOut(f, v, b)
  }

  ghost predicate OutFound(f: Func, out: Sets) {
    forall b: Block, v {:trigger v in out[b]} :: b < |out| && v in out[b] ==> Found(f, v, b)
  }

  /** What is in the live-in set is used in the block, or passes through it. */
  ghost predicate InSound(f: Func, l: Local, inn: Sets) {
    |inn| == |l.use| == |l.def| &&
    forall b: Block, v {:trigger v in inn[b]} :: b < |inn| && v in inn[b] ==>
      v in l.use[b] || (v !in l.def[b] && LiveOut(f, v, b))
  }

  ghost predicate InFound(f: Func, l: Local, inn: Sets) {
    |inn| == |l.use| == |l.def| &&
    forall b: Block, v {:trigger v in inn[b]} :: b < |inn| && v in inn[b] ==>
      v in l.use[b] || (v !in l.def[b] && Found(f, v, b))
  }

  lemma FoundIsSound(f: Func, l: Local, inn: Sets, out: Sets)
    requires OutFound(f, out) && InFound(f, l, inn)
    ensures OutSound(f, out) && InSound(f, l, inn)
  {
    hide Found, LiveOut;
    forall b, v | Found(f, v, b)
      ensures LiveOut(f, v, b)
    {
      FoundIsLive(f, v, b);
    }
  }

  lemma UseReadOnEntry(f: Func, l: Local, b: Block, s: Block, v: Value)
    requires FuncOk(f) && LocalOk(f, l) && s < |f.code| && v in l.use[s] && Passes(l, b, s, v)
    ensures ReadOnEntry(f, v, b, s)
  {
    var xs := f.code[s];
    assert CodeOk(xs);
    hide FuncOk, CodeOk;
    if !OrdinaryExposed(xs, v) {
      var i, p := ExposedByPhi(xs, v);
      assert FromPhi(l, s, p, v);
      assert FromPhi(l, s, b, v) <==> TakenFrom(xs, v, b);
      var j :| 0 <= j < |xs| && PhiTakes(xs[j], v, b);
      SameRand(xs, i, p, j, b, v);
    }
  }

  /** An exposed value that no ordinary instruction exposes is read by a phi. */
  lemma ExposedByPhi(xs: seq<Instr>, v: Value) returns (i: nat, p: Block)
    requires Exposed(xs, v) && !OrdinaryExposed(xs, v)
    ensures i < |xs| && xs[i].Phi? && (Rand(v, true), p) in xs[i].pairs && TakenFrom(xs, v, p)
  {
    i :| 0 <= i < |xs| && Reads(xs[i], v) && !DefinedIn(xs[..i], v);
    PairOf(xs[i].pairs, Rand(v, true));
    p :| (Rand(v, true), p) in xs[i].pairs;
    TrackedTaken(xs, i, v, p);
  }

  lemma TrackedTaken(xs: seq<Instr>, i: nat, v: Value, p: Block)
    requires i < |xs| && xs[i].Phi? && (Rand(v, true), p) in xs[i].pairs
    ensures TakenFrom(xs, v, p)
  {
    assert Rand(v, true).val == v;
    assert PhiTakes(xs[i], v, p);
  }

  /** A value that one phi reads as a tracked one is tracked in every phi of the block. */
  lemma SameRand(xs: seq<Instr>, i: nat, p: Block, j: nat, q: Block, v: Value)
    requires CodeOk(xs) && i < |xs| && xs[i].Phi? && (Rand(v, true), p) in xs[i].pairs && j < |xs|
    requires PhiTakes(xs[j], v, q)
    ensures ReadByPhi(xs, v, q)
  {
    var r: Rand :| r.val == v && (r, q) in xs[j].pairs;
    PairOf(xs[i].pairs, Rand(v, true));
    PairOf(xs[j].pairs, r);
    assert Rand(v, true) in Operands(xs[i]) && r in Operands(xs[j]);
    assert r == Rand(v, true);
  }

  lemma {:induction false} PairOf(pairs: seq<(Rand, Block)>, r: Rand)
    ensures r in PairRands(pairs) <==> exists p: Block :: (r, p) in pairs
  {
    if pairs != [] {
      PairOf(pairs[1..], r);
      assert pairs == [pairs[0]] + pairs[1..];
      if pairs[0].0 == r {
        assert (r, pairs[0].1) in pairs;
      }
    }
  }

  /** A value that passes from the live-in set of s to its predecessor b has a walk from b, and is live. */
  lemma PassedIsFound(f: Func, l: Local, inn: Sets, b: Block, s: Block, v: Value)
    requires FuncOk(f) && LocalOk(f, l) && InFound(f, l, inn) && f.g.Edge(b, s) && b < |f.code| && s < |f.code|
    requires v in inn[s] && Passes(l, b, s, v)
    ensures Found(f, v, b) && LiveOut(f, v, b)
  {
    PassesWhen(f, l, b, s, v);
    if v in l.use[s] {
      UseReadOnEntry(f, l, b, s, v);
      FoundHere(f, v, b, s);
    } else {
      assert v !in l.def[s];
      FoundThrough(f, v, b, s);
    }
    FoundIsLive(f, v, b);
  }

  // ----- the equations, and when they give all of liveness -----

  ghost predicate Arrives(f: Func, l: Local, inn: Sets, b: Block, v: Value)
    requires |inn| == |l.phiuses|
  {
    exists s: Block {:trigger f.g.Edge(b, s)} :: f.g.Edge(b, s) && s < |inn| && v in inn[s] && Passes(l, b, s, v)
  }

  ghost predicate Solves(f: Func, l: Local, inn: Sets, out: Sets) {
    && |inn| == |out| == |l.use| == |l.def| == |l.phiuses|
    && (forall b {:trigger inn[b]} :: 0 <= b < |inn| ==> inn[b] == (out[b] - l.def[b]) + l.use[b])
    && (forall b: Block, v {:trigger v in out[b]} {:trigger Arrives(f, l, inn, b, v)} :: b < |out| ==>
         (v in out[b] <==> Arrives(f, l, inn, b, v)))
  }

  /** v is live at the start of s other than through a phi of s. */
  ghost predicate OtherwiseLive(f: Func, v: Value, s: Block) {
    s < |f.code| && (OrdinaryExposed(f.code[s], v) || (!DefinedIn(f.code[s], v) && LiveOut(f, v, s)))
  }

  /** The two situations the filter on phi operands does not handle do not occur: a phi operand defined
      earlier in the phi's own block, and a phi operand that is live for another reason as well on an
      edge where the phis do not take it. */
  ghost predicate PhisSeparate(f: Func) {
    && (forall b: Block, s: Block, v {:trigger ReadByPhi(f.code[s], v, b)} ::
          f.g.Edge(b, s) && s < |f.code| && ReadByPhi(f.code[s], v, b) ==> Exposed(f.code[s], v))
    && (forall b: Block, s: Block, v {:trigger f.g.Edge(b, s), OtherwiseLive(f, v, s)} ::
          f.g.Edge(b, s) && s < |f.code| && OtherwiseLive(f, v, s) && TakenByPhi(f.code[s], v) ==>
            TakenFrom(f.code[s], v, b))
  }

  lemma PassesWhenSeparate(f: Func, l: Local, b: Block, s: Block, v: Value)
    requires LocalOk(f, l) && PhisSeparate(f) && f.g.Edge(b, s) && s < |f.code|
    requires OtherwiseLive(f, v, s) || ReadByPhi(f.code[s], v, b)
    ensures Passes(l, b, s, v)
  {
    if i: nat :| i < |f.code[s]| && f.code[s][i].Phi? && (Rand(v, true), b) in f.code[s][i].pairs {
      TrackedTaken(f.code[s], i, v, b);
    }
    if AnyPhi(l, s, v) {
      var p: Block :| p in l.phiuses[s] && v in l.phiuses[s][p];
      assert FromPhi(l, s, p, v);
      assert TakenFrom(f.code[s], v, p);
      assert FromPhi(l, s, b, v) <==> TakenFrom(f.code[s], v, b);
    }
  }

  /** A solution of the equations contains everything that is live. */
  lemma {:induction false} LiveIsFound(f: Func, l: Local, inn: Sets, out: Sets, v: Value, p: seq<Block>)
    requires LocalOk(f, l) && Solves(f, l, inn, out) && PhisSeparate(f) && LiveWalk(f, v, p)
    ensures p[0] < |out| && v in out[p[0]]
    decreases |p|
  {
    var b, s := p[0], p[1];
    assert Linked(f, p, 0);
    if |p| == 2 {
      if ReadByPhi(f.code[s], v, b) {
        assert Exposed(f.code[s], v);
      } else {
        assert OrdinaryExposed(f.code[s], v);
      }
      assert v in l.use[s];
    } else {
      var q := p[1..];
      TailWalk(f, v, p);
      LiveIsFound(f, l, inn, out, v, q);
      assert LiveOut(f, v, s);
      assert v !in l.def[s];
    }
    assert inn[s] == (out[s] - l.def[s]) + l.use[s];
    PassesWhenSeparate(f, l, b, s, v);
    assert Arrives(f, l, inn, b, v);
  }

  /** A solution contains everything that has a walk whose edges let it pass, whatever the phis. */
  lemma {:induction false} WalkIsFound(f: Func, l: Local, inn: Sets, out: Sets, v: Value, p: seq<Block>)
    requires LocalOk(f, l) && Solves(f, l, inn, out) && FoundWalk(f, v, p)
    ensures p[0] < |out| && v in out[p[0]]
    decreases |p|
  {
    hide LocalOk, Solves, FoundWalk, LetThrough, Exposed, DefinedIn;
    FoundParts(f, v, p);
    SolvedSizes(f, l, inn, out);
    if |p| > 2 {
      WalkIsFound(f, l, inn, out, v, p[1..]);
    }
    StepBack(f, l, inn, out, p[0], p[1], v);
  }

  lemma SolvedSizes(f: Func, l: Local, inn: Sets, out: Sets)
    requires LocalOk(f, l) && Solves(f, l, inn, out)
    ensures |inn| == |out| == |f.code|
  {
  }

  lemma FoundParts(f: Func, v: Value, p: seq<Block>)
    requires FoundWalk(f, v, p)
    ensures |p| >= 2 && p[0] < |f.code| && p[1] < |f.code| && f.g.Edge(p[0], p[1]) && LetThrough(f, v, p[0], p[1])
    ensures if |p| == 2 then Exposed(f.code[p[1]], v) else FoundWalk(f, v, p[1..]) && !DefinedIn(f.code[p[1]], v)
  {
    hide LetThrough, Exposed, DefinedIn;
    assert Linked(f, p, 0);
    if |p| > 2 {
      TailWalk(f, v, p);
      TailThrough(f, v, p);
    }
  }

  lemma StepBack(f: Func, l: Local, inn: Sets, out: Sets, b: Block, s: Block, v: Value)
    requires LocalOk(f, l) && Solves(f, l, inn, out) && |out| == |f.code|
    requires f.g.Edge(b, s) && b < |f.code| && s < |f.code| && LetThrough(f, v, b, s)
    requires Exposed(f.code[s], v) || (v in out[s] && !DefinedIn(f.code[s], v))
    ensures v in out[b]
  {
    PassesWhen(f, l, b, s, v);
    hide Passes, LetThrough;
    if Exposed(f.code[s], v) {
      assert v in l.use[s];
    } else {
      assert v !in l.def[s];
    }
    assert inn[s] == (out[s] - l.def[s]) + l.use[s];
    assert Arrives(f, l, inn, b, v);
  }

  lemma TailThrough(f: Func, v: Value, p: seq<Block>)
    requires LiveWalk(f, v, p) && LetThroughAll(f, v, p) && |p| > 2
    ensures LetThroughAll(f, v, p[1..])
  {
    var q := p[1..];
    forall i: nat | i < |q| - 1
      ensures LetThrough(f, v, q[i], q[i + 1])
    {
      assert Linked(f, p, i + 1);
    }
  }

  lemma TailWalk(f: Func, v: Value, p: seq<Block>)
    requires LiveWalk(f, v, p) && |p| > 2
    ensures LiveWalk(f, v, p[1..]) && !DefinedIn(f.code[p[1]], v)
  {
    var q := p[1..];
    forall i: nat | i < |q| - 1
      ensures Linked(f, q, i)
    {
      assert Linked(f, p, i + 1);
    }
  }

  /** The live-out sets are exactly textbook liveness when they solve the equations and the phis are
      separate. */
  lemma SolutionIsLiveness(f: Func, l: Local, inn: Sets, out: Sets)
    requires LocalOk(f, l) && Solves(f, l, inn, out) && PhisSeparate(f) && OutSound(f, out)
    ensures forall b: Block, v {:trigger v in out[b]} :: b < |out| ==> (v in out[b] <==> LiveOut(f, v, b))
  {
    forall b: Block, v | b < |out| && LiveOut(f, v, b)
      ensures v in out[b]
    {
      var p :| LiveWalk(f, v, p) && p[0] == b;
      LiveIsFound(f, l, inn, out, v, p);
    }
  }

  // ----- edge by edge, and exactly when -----

  /** v is live on the edge from b to s. */
  ghost predicate EdgeLive(f: Func, v: Value, b: Block, s: Block) {
    s < |f.code| && (ReadByPhi(f.code[s], v, b) || OtherwiseLive(f, v, s))
  }

  /** v passes from the live-in set of s to its predecessor b. */
  ghost predicate Carried(l: Local, inn: Sets, b: Block, s: Block, v: Value) {
    s < |inn| == |l.phiuses| && v in inn[s] && Passes(l, b, s, v)
  }

  /** On every edge exactly what is live there is passed on. */
  ghost predicate EdgesExact(f: Func, l: Local, inn: Sets) {
    forall b: Block, s: Block, v {:trigger EdgeLive(f, v, b, s)} {:trigger Carried(l, inn, b, s, v)} ::
      f.g.Edge(b, s) && s < |f.code| ==> (Carried(l, inn, b, s, v) <==> EdgeLive(f, v, b, s))
  }

  lemma CarriedIsLive(f: Func, l: Local, inn: Sets, b: Block, s: Block, v: Value)
    requires FuncOk(f) && LocalOk(f, l) && InSound(f, l, inn) && s < |f.code| && Carried(l, inn, b, s, v)
    ensures EdgeLive(f, v, b, s)
  {
    if v in l.use[s] {
      UseReadOnEntry(f, l, b, s, v);
    } else {
      assert v !in l.def[s];
    }
  }

  lemma LiveIsCarried(f: Func, l: Local, inn: Sets, out: Sets, b: Block, s: Block, v: Value)
    requires LocalOk(f, l) && Solves(f, l, inn, out) && PhisSeparate(f) && f.g.Edge(b, s) && EdgeLive(f, v, b, s)
    ensures Carried(l, inn, b, s, v)
  {
    PassesWhenSeparate(f, l, b, s, v);
    assert inn[s] == (out[s] - l.def[s]) + l.use[s];
    if ReadByPhi(f.code[s], v, b) || OrdinaryExposed(f.code[s], v) {
      assert Exposed(f.code[s], v);
      assert v in l.use[s];
    } else {
      var p :| LiveWalk(f, v, p) && p[0] == s;
      LiveIsFound(f, l, inn, out, v, p);
      assert v !in l.def[s];
    }
  }

  /** A phi operand that is not exposed has a definition in its own block. */
  lemma HiddenOperand(xs: seq<Instr>, v: Value, b: Block)
    requires ReadByPhi(xs, v, b) && !Exposed(xs, v)
    ensures DefinedIn(xs, v)
  {
    var i :| 0 <= i < |xs| && xs[i].Phi? && (Rand(v, true), b) in xs[i].pairs;
    PairOf(xs[i].pairs, Rand(v, true));
    assert Reads(xs[i], v);
    var j :| 0 <= j < |xs[..i]| && Defines(xs[..i][j], v);
    assert Defines(xs[j], v);
  }

  lemma ExactIsSeparate(f: Func, l: Local, inn: Sets, out: Sets)
    requires FuncOk(f) && LocalOk(f, l) && Solves(f, l, inn, out) && EdgesExact(f, l, inn)
    ensures PhisSeparate(f)
  {
    forall b: Block, s: Block, v | f.g.Edge(b, s) && s < |f.code| && ReadByPhi(f.code[s], v, b)
      ensures Exposed(f.code[s], v)
    {
      if !Exposed(f.code[s], v) {
        HiddenOperand(f.code[s], v, b);
        assert v !in l.use[s] && v in l.def[s] && inn[s] == (out[s] - l.def[s]) + l.use[s];
        assert EdgeLive(f, v, b, s);
      }
    }
    forall b: Block, s: Block, v | f.g.Edge(b, s) && s < |f.code| && OtherwiseLive(f, v, s) && TakenByPhi(f.code[s], v)
      ensures TakenFrom(f.code[s], v, b)
    {
      var p: Block :| TakenFrom(f.code[s], v, p);
      assert EdgeLive(f, v, b, s);
      assert Carried(l, inn, b, s, v);
      assert FromPhi(l, s, p, v);
      assert FromPhi(l, s, b, v);
    }
  }

  /** A solution of the equations passes on exactly what is live, on every edge, if and only if the phis
      are separate. */
  lemma FilterExact(f: Func, l: Local, inn: Sets, out: Sets)
    requires FuncOk(f) && LocalOk(f, l) && Solves(f, l, inn, out) && InSound(f, l, inn)
    ensures EdgesExact(f, l, inn) <==> PhisSeparate(f)
  {
    hide FuncOk, LocalOk, Solves, InSound, EdgeLive, Carried;
    if PhisSeparate(f) {
      forall b: Block, s: Block, v | f.g.Edge(b, s) && s < |f.code|
        ensures Carried(l, inn, b, s, v) <==> EdgeLive(f, v, b, s)
      {
        if Carried(l, inn, b, s, v) {
          CarriedIsLive(f, l, inn, b, s, v);
        }
        if EdgeLive(f, v, b, s) {
          LiveIsCarried(f, l, inn, out, b, s, v);
        }
      }
    }
    if EdgesExact(f, l, inn) {
      ExactIsSeparate(f, l, inn, out);
    }
  }

  // ----- what the filter on phi operands misses -----

  ghost predicate OnlySuccessor(f: Func, b: Block, s: Block) {
    f.g.Edge(b, s) && forall t: Block {:trigger f.g.Edge(b, t)} :: f.g.Edge(b, t) ==> t == s
  }

  /** A phi operand that an earlier instruction of the phi's own block defines (two phis that swap their
      values, say) is live on the edge but not found. */
  lemma OwnOperandMissed(f: Func, l: Local, inn: Sets, out: Sets, b: Block, s: Block, v: Value)
    requires LocalOk(f, l) && Solves(f, l, inn, out) && FuncOk(f) && OnlySuccessor(f, b, s)
    requires ReadByPhi(f.code[s], v, b) && !Exposed(f.code[s], v)
    ensures LiveOut(f, v, b) && v !in out[b]
  {
    LiveHere(f, v, b, s);
    HiddenOperand(f.code[s], v, b);
    assert v !in l.use[s] && v in l.def[s];
    assert inn[s] == (out[s] - l.def[s]) + l.use[s];
    assert !Arrives(f, l, inn, b, v);
  }

  /** A value that is live into s for another reason, and that a phi of s takes from other predecessors
      only, is live out of b but not found. */
  lemma OtherOperandMissed(f: Func, l: Local, inn: Sets, out: Sets, b: Block, s: Block, v: Value)
    requires LocalOk(f, l) && Solves(f, l, inn, out) && FuncOk(f) && OnlySuccessor(f, b, s)
    requires OtherwiseLive(f, v, s) && TakenByPhi(f.code[s], v) && !TakenFrom(f.code[s], v, b)
    ensures LiveOut(f, v, b) && v !in out[b]
  {
    if OrdinaryExposed(f.code[s], v) {
      LiveHere(f, v, b, s);
    } else {
      LiveThrough(f, v, b, s);
    }
    var p: Block :| TakenFrom(f.code[s], v, p);
    assert FromPhi(l, s, p, v) && !FromPhi(l, s, b, v);
    assert AnyPhi(l, s, v);
    assert !Arrives(f, l, inn, b, v);
  }

  // ----- a function for each way to fail -----

  /** A loop of one block whose two phis swap their values. */
  function Swap(): Func {
    Func(Graph(0, [[1], [1]], [[], [0, 1]]),
         [[Plain(0, false, []), Plain(1, false, [])],
          [Phi(2, [(Rand(0, true), 0), (Rand(3, true), 1)]), Phi(3, [(Rand(1, true), 0), (Rand(2, true), 1)])]])
  }

  /** Value 2, which the second phi reads on the back edge, is not found live there. */
  lemma SwapMissed(l: Local, inn: Sets, out: Sets)
    requires LocalOk(Swap(), l) && Solves(Swap(), l, inn, out)
    ensures FuncOk(Swap()) && LiveOut(Swap(), 2, 1) && 2 !in out[1]
  {
    SwapFacts();
    hide Swap;
    OwnOperandMissed(Swap(), l, inn, out, 1, 1, 2);
  }

  lemma SwapFacts()
    ensures FuncOk(Swap()) && |Swap().code| == 2 && OnlySuccessor(Swap(), 1, 1)
    ensures ReadByPhi(Swap().code[1], 2, 1) && !Exposed(Swap().code[1], 2)
  {
    SwapGraph();
    SwapOperands();
    AllTracked(Swap().code[0]);
    AllTracked(Swap().code[1]);
    hide PairRands, Graph.Valid, CodeOk;
    var xs := Swap().code[1];
    assert xs[1].Phi? && (Rand(2, true), 1) in xs[1].pairs;
    assert Defines(xs[..1][0], 2);
  }

  lemma AllTracked(xs: seq<Instr>)
    requires forall i :: 0 <= i < |xs| ==> !xs[i].Call? && forall r :: r in Operands(xs[i]) ==> r.tracked
    ensures CodeOk(xs)
  {
    hide Operands;
  }

  lemma SwapOperands()
    ensures Operands(Swap().code[1][0]) == [Rand(0, true), Rand(3, true)]
    ensures Operands(Swap().code[1][1]) == [Rand(1, true), Rand(2, true)]
  {
    var xs := Swap().code[1];
    assert xs[0].pairs[1..] == [(Rand(3, true), 1)];
    assert xs[1].pairs[1..] == [(Rand(2, true), 1)];
  }

  lemma SwapGraph()
    ensures Swap().g.Valid() && OnlySuccessor(Swap(), 1, 1)
  {
    var g := Swap().g;
    forall a: Block, b: Block
      ensures g.Edge(a, b) <==> a < 2 && b == 1
      ensures g.Edge(a, b) <==> b < |g.preds| && a in g.preds[b]
    {
    }
  }
}
