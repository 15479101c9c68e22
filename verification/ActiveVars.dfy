/** The live-variable analysis: local sets, then passes over the blocks in reverse order until nothing
    changes. */
module ActiveVarsPass {
  import opened Cfg
  import opened Liveness
  import opened Sizes

  // ----- the local sets -----

  predicate IsVoid(x: Instr) {
    !x.Phi? && x.isVoid
  }

  ghost predicate Collected(xs: seq<Instr>, uses: set<Value>, defs: set<Value>) {
    && (forall v {:trigger v in uses} {:trigger Exposed(xs, v)} :: v in uses <==> Exposed(xs, v))
    && (forall v {:trigger v in defs} {:trigger DefinedIn(xs, v)} :: v in defs <==> DefinedIn(xs, v) && !Exposed(xs, v))
  }

  ghost predicate PhisCollected(xs: seq<Instr>, phis: map<Block, set<Value>>) {
    forall p: Block, v {:trigger TakenFrom(xs, v, p)} :: TakenFrom(xs, v, p) <==> p in phis && v in phis[p]
  }

  lemma DefinedSnoc(xs: seq<Instr>, x: Instr, v: Value)
    ensures DefinedIn(xs + [x], v) <==> DefinedIn(xs, v) || Defines(x, v)
  {
    var ys := xs + [x];
    assert ys[|xs|] == x;
    if DefinedIn(xs, v) {
      var i :| 0 <= i < |xs| && Defines(xs[i], v);
      assert Defines(ys[i], v);
    }
  }

  lemma ExposedSnoc(xs: seq<Instr>, x: Instr, v: Value)
    ensures Exposed(xs + [x], v) <==> Exposed(xs, v) || (Reads(x, v) && !DefinedIn(xs, v))
  {
    hide Reads, DefinedIn;
    var ys := xs + [x];
    assert ys[|xs|] == x && ys[..|xs|] == xs;
    if Exposed(xs, v) {
      var i :| 0 <= i < |xs| && Reads(xs[i], v) && !DefinedIn(xs[..i], v);
      assert ys[..i] == xs[..i] && Reads(ys[i], v);
    }
    if Exposed(ys, v) {
      var i :| 0 <= i < |ys| && Reads(ys[i], v) && !DefinedIn(ys[..i], v);
      if i < |xs| {
        assert ys[..i] == xs[..i] && Reads(xs[i], v);
      }
    }
  }

  lemma TakenSnoc(xs: seq<Instr>, x: Instr, v: Value, p: Block)
    ensures TakenFrom(xs + [x], v, p) <==> TakenFrom(xs, v, p) || PhiTakes(x, v, p)
  {
    var ys := xs + [x];
    assert ys[|xs|] == x;
    if TakenFrom(xs, v, p) {
      var i :| 0 <= i < |xs| && PhiTakes(xs[i], v, p);
      assert PhiTakes(ys[i], v, p);
    }
  }

  /** A function that is called is not exposed by any instruction. */
  lemma CalleeNotExposed(xs: seq<Instr>, i: nat, v: Value)
    requires CodeOk(xs) && i < |xs| && IsCallee(xs[i], v)
    ensures !Exposed(xs[..i], v) && !Reads(xs[i], v) && !DefinedIn(xs[..i], v)
  {
    forall j | 0 <= j < |xs|
      ensures !Defines(xs[j], v) && !Reads(xs[j], v)
    {
      assert IsCallee(xs[i], v) ==> Defines(xs[j], v) == Defines(xs[j], v);
    }
  }

  lemma CollectStep(xs: seq<Instr>, i: nat, uses: set<Value>, defs: set<Value>, uses': set<Value>, defs': set<Value>)
    requires CodeOk(xs) && i < |xs| && Collected(xs[..i], uses, defs)
    requires forall v {:trigger v in uses'} :: v in uses' <==>
      (v in uses || (Tracked(Operands(xs[i]), v) && v !in defs)) && !IsCallee(xs[i], v)
    requires defs' == if xs[i].val !in uses' && !IsVoid(xs[i]) then defs + {xs[i].val} else defs
    ensures Collected(xs[..i + 1], uses', defs')
  {
    assert xs[..i + 1] == xs[..i] + [xs[i]];
    forall v
      ensures v in uses' <==> Exposed(xs[..i + 1], v)
      ensures v in defs' <==> DefinedIn(xs[..i + 1], v) && !Exposed(xs[..i + 1], v)
    {
      CollectValue(xs, i, uses, defs, uses', defs', v);
    }
  }

  lemma CollectValue(xs: seq<Instr>, i: nat, uses: set<Value>, defs: set<Value>, uses': set<Value>, defs': set<Value>,
                     v: Value)
    requires CodeOk(xs) && i < |xs| && Collected(xs[..i], uses, defs)
    requires v in uses' <==> (v in uses || (Tracked(Operands(xs[i]), v) && v !in defs)) && !IsCallee(xs[i], v)
    requires defs' == if xs[i].val !in uses' && !IsVoid(xs[i]) then defs + {xs[i].val} else defs
    ensures v in uses' <==> Exposed(xs[..i + 1], v)
    ensures v in defs' <==> DefinedIn(xs[..i + 1], v) && !Exposed(xs[..i + 1], v)
  {
    assert xs[..i + 1] == xs[..i] + [xs[i]];
    DefinedSnoc(xs[..i], xs[i], v);
    ExposedSnoc(xs[..i], xs[i], v);
    if IsCallee(xs[i], v) {
      CalleeNotExposed(xs, i, v);
    }
    assert v in uses <==> Exposed(xs[..i], v);
    assert v in defs <==> DefinedIn(xs[..i], v) && !Exposed(xs[..i], v);
    hide Exposed, DefinedIn, CodeOk, Collected, Operands;
  }

  // ----- the passes -----

  /** Sum over the blocks of the tracked values not yet known to be live out. */
  ghost function Gap(all: set<Value>, out: Sets): nat {
    if out == [] then 0 else Gap(all, out[..|out| - 1]) + |all - out[|out| - 1]|
  }

  /** The gap closes whenever a live-out set grows. */
  lemma {:induction false} GapShrinks(all: set<Value>, out: Sets, out': Sets)
    requires |out| == |out'| && forall b {:trigger out[b]} {:trigger out'[b]} :: 0 <= b < |out| ==>
      out[b] <= out'[b] <= all
    ensures Gap(all, out') <= Gap(all, out) && (out != out' ==> Gap(all, out') < Gap(all, out))
  {
    if out != [] {
      var n := |out| - 1;
      GapShrinks(all, out[..n], out'[..n]);
      assert out[n] <= out'[n] <= all;
      SubsetSize(all - out'[n], all - out[n]);
      if out[n] != out'[n] {
        assert all - out[n] != all - out'[n];
      } else {
        assert out == out[..n] + [out[n]] && out' == out'[..n] + [out'[n]];
      }
    }
  }

  /** inn is what the transfer function makes of out. */
  ghost predicate Transferred(l: Local, inn: Sets, out: Sets, b: Block) {
    b < |inn| == |out| == |l.def| == |l.use| && inn[b] == (out[b] - l.def[b]) + l.use[b]
  }

  /** Everything was put into the live-out set of b because it arrives from some live-in set. */
  ghost predicate OutArrives(f: Func, l: Local, inn: Sets, out: Sets) {
    |inn| == |out| == |l.phiuses| && forall b: Block, v {:trigger v in out[b]} :: b < |out| && v in out[b] ==>
      Arrives(f, l, inn, b, v)
  }

  /** A used value passes from s to its predecessor b. */
  ghost predicate UseFlows(f: Func, l: Local, b: Block, s: Block) {
    f.g.Edge(b, s) && s < |l.use| == |l.phiuses| && exists v :: v in l.use[s] && Passes(l, b, s, v)
  }

  /** Some used value passes to a predecessor that comes earlier in the block list. */
  ghost predicate ForwardFlow(f: Func, l: Local, from: int) {
    exists b: Block, s: Block {:trigger UseFlows(f, l, b, s)} :: from <= b < s && UseFlows(f, l, b, s)
  }

  ghost predicate SomeFlow(f: Func, l: Local) {
    exists b: Block, s: Block {:trigger UseFlows(f, l, b, s)} :: UseFlows(f, l, b, s)
  }

  /** Both in terms of the function alone. */
  lemma FlowsOfInput(f: Func, l: Local)
    requires LocalOk(f, l)
    ensures ForwardFlow(f, l, 0) || !SomeFlow(f, l) <==> EnoughPasses(f)
  {
    forall b: Block, s: Block
      ensures UseFlows(f, l, b, s) <==> UseReaches(f, b, s)
    {
      if f.g.Edge(b, s) && s < |f.code| {
        forall v
          ensures v in l.use[s] && Passes(l, b, s, v) <==> Exposed(f.code[s], v) && LetThrough(f, v, b, s)
        {
          PassesWhen(f, l, b, s, v);
        }
      }
    }
    hide UseFlows, UseReaches, LocalOk;
  }

  ghost predicate Sized(f: Func, l: Local, inn: Sets, out: Sets) {
    LocalOk(f, l) && FuncOk(f) && |inn| == |out| == |f.code|
  }

  /** What all passes keep. */
  ghost predicate Sound(f: Func, l: Local, inn: Sets, out: Sets, all: set<Value>) {
    && Sized(f, l, inn, out) && OutFound(f, out) && InFound(f, l, inn) && OutArrives(f, l, inn, out)
    && (forall b {:trigger out[b]} {:trigger inn[b]} :: 0 <= b < |out| ==>
         out[b] <= all && inn[b] <= all && inn[b] <= (out[b] - l.def[b]) + l.use[b])
    && (forall b {:trigger l.use[b]} :: 0 <= b < |l.use| ==> l.use[b] <= all)
  }

  lemma SoundStart(f: Func, l: Local, inn: Sets, out: Sets, all: set<Value>)
    requires Sized(f, l, inn, out) && forall b {:trigger inn[b]} {:trigger out[b]} :: 0 <= b < |inn| ==>
      inn[b] == out[b] == {}
    requires forall b {:trigger l.use[b]} :: 0 <= b < |l.use| ==> l.use[b] <= all
    ensures Sound(f, l, inn, out, all)
  {
  }

  /** One block of a pass. */
  lemma SoundBlock(f: Func, l: Local, inn: Sets, out: Sets, all: set<Value>, b: Block, inn': Sets, out': Sets)
    requires Sound(f, l, inn, out, all) && b < |out| && |out'| == |inn'| == |out|
    requires forall v {:trigger v in out'[b]} :: v in out'[b] <==> v in out[b] || Arrives(f, l, inn, b, v)
    requires out' == out[b := out'[b]] && inn' == inn[b := (out'[b] - l.def[b]) + l.use[b]]
    ensures Sound(f, l, inn', out', all)
  {
    hide LocalOk, FuncOk, Found, Passes;
    forall v | v in out'[b]
      ensures Found(f, v, b) && v in all
    {
      if v !in out[b] {
        var s: Block :| f.g.Edge(b, s) && s < |inn| && v in inn[s] && Passes(l, b, s, v);
        PassedIsFound(f, l, inn, b, s, v);
        assert inn[s] <= all;
      }
    }
    assert out[b] <= out'[b] && inn[b] <= inn'[b];
    forall c: Block, v | c < |out'| && v in out'[c]
      ensures Arrives(f, l, inn', c, v)
    {
      ArrivesMore(f, l, inn, inn', c, v);
    }
    hide LocalOk, FuncOk, Found, Arrives;
  }

  lemma ArrivesMore(f: Func, l: Local, inn: Sets, inn': Sets, b: Block, v: Value)
    requires |inn| == |inn'| == |l.phiuses| && Arrives(f, l, inn, b, v)
    requires forall c {:trigger inn[c]} {:trigger inn'[c]} :: 0 <= c < |inn| ==> inn[c] <= inn'[c]
    ensures Arrives(f, l, inn', b, v)
  {
    var s: Block :| f.g.Edge(b, s) && s < |inn| && v in inn[s] && Passes(l, b, s, v);
    assert inn[s] <= inn'[s];
  }

  // ----- one pass -----

  ghost predicate AllTransferred(l: Local, inn: Sets, out: Sets, from: int) {
    forall b: nat {:trigger Transferred(l, inn, out, b)} :: from <= b < |out| ==> Transferred(l, inn, out, b)
  }

  ghost predicate AllEmpty(sets: Sets) {
    forall b {:trigger sets[b]} :: 0 <= b < |sets| ==> sets[b] == {}
  }

  ghost predicate AllArrived(f: Func, l: Local, inn: Sets, out: Sets, from: int)
    requires |inn| == |l.phiuses|
  {
    forall b: Block, v {:trigger Arrives(f, l, inn, b, v)} :: from <= b < |out| && Arrives(f, l, inn, b, v) ==>
      v in out[b]
  }

  /** Where a pass stands when the blocks from k on have been visited. Before the pass the sets were inn0
      and out0, all empty in the first pass. */
  ghost predicate InPass(f: Func, l: Local, inn0: Sets, out0: Sets, inn: Sets, out: Sets, k: int, changed: bool,
                         first: bool) {
    && |inn0| == |out0| == |inn| == |out| == |l.phiuses| && 0 <= k <= |out|
    && (forall b {:trigger inn[b]} {:trigger out[b]} :: 0 <= b < k ==> inn[b] == inn0[b] && out[b] == out0[b])
    && (forall b {:trigger out0[b]} {:trigger out[b]} :: 0 <= b < |out| ==> out0[b] <= out[b])
    && (changed <==> out != out0)
    && AllTransferred(l, inn, out, k)
    && (if first then AllEmpty(inn0) && AllEmpty(out0) && (changed <==> ForwardFlow(f, l, k))
        else AllTransferred(l, inn0, out0, 0) && (!changed ==> inn == inn0 && AllArrived(f, l, inn0, out0, k)))
  }

  lemma PassBegins(f: Func, l: Local, inn: Sets, out: Sets, first: bool)
    requires |inn| == |out| == |l.phiuses| && if first then AllEmpty(inn) && AllEmpty(out)
      else AllTransferred(l, inn, out, 0)
    ensures InPass(f, l, inn, out, inn, out, |out|, false, first)
  {
  }

  /** The next block of a pass. */
  lemma PassBlock(f: Func, l: Local, inn0: Sets, out0: Sets, inn: Sets, out: Sets, k: int, changed: bool, first: bool,
                  b: Block, inn': Sets, out': Sets)
    requires InPass(f, l, inn0, out0, inn, out, k, changed, first) && b + 1 == k
    requires |l.use| == |l.def| == |out| == |out'| == |inn'|
    requires forall v {:trigger v in out'[b]} :: v in out'[b] <==> v in out[b] || Arrives(f, l, inn, b, v)
    requires out' == out[b := out'[b]] && inn' == inn[b := (out'[b] - l.def[b]) + l.use[b]]
    ensures InPass(f, l, inn0, out0, inn', out', b, changed || out'[b] != out[b], first)
  {
    assert out[b] == out0[b] && inn[b] == inn0[b];
    forall c: nat | b <= c < |out'|
      ensures Transferred(l, inn', out', c)
    {
      if c != b {
        assert Transferred(l, inn, out, c);
      }
    }
    assert out' != out0 <==> changed || out'[b] != out[b] by {
      if out != out0 {
        var c :| 0 <= c < |out| && out[c] != out0[c];
        assert c != b && out'[c] == out[c];
      }
    }
    if first {
      FirstBlock(f, l, inn0, out0, inn, out, k, changed, b, out'[b]);
    } else if !changed && out'[b] == out[b] {
      LaterBlock(f, l, inn0, out0, inn, out, k, b);
      assert out' == out;
      assert Transferred(l, inn0, out0, b);
      assert inn' == inn;
    }
  }

  /** In a later pass that has changed nothing so far. */
  lemma LaterBlock(f: Func, l: Local, inn0: Sets, out0: Sets, inn: Sets, out: Sets, k: int, b: Block)
    requires InPass(f, l, inn0, out0, inn, out, k, false, false) && b + 1 == k
    requires forall v {:trigger v in out[b]} :: v in out[b] <==> v in out[b] || Arrives(f, l, inn, b, v)
    ensures AllArrived(f, l, inn0, out0, b)
  {
    forall c: Block, v | b <= c < |out0| && Arrives(f, l, inn0, c, v)
      ensures v in out0[c]
    {
      if c == b {
        assert Arrives(f, l, inn, b, v);
        assert v in out[b];
      }
    }
  }

  /** In the first pass something changes exactly when a used value flows forward. */
  lemma FirstBlock(f: Func, l: Local, inn0: Sets, out0: Sets, inn: Sets, out: Sets, k: int, changed: bool, b: Block,
                   outB: set<Value>)
    requires InPass(f, l, inn0, out0, inn, out, k, changed, true) && b + 1 == k && |l.use| == |l.def| == |out|
    requires forall v {:trigger v in outB} :: v in outB <==> v in out[b] || Arrives(f, l, inn, b, v)
    ensures (changed || outB != out[b]) <==> ForwardFlow(f, l, b)
  {
    assert out[b] == {};
    if outB != out[b] {
      var v :| v in outB;
      assert Arrives(f, l, inn, b, v);
      ArrivalFlows(f, l, inn0, out0, inn, out, k, changed, b, v);
    }
    if ForwardFlow(f, l, b) && !ForwardFlow(f, l, k) {
      var c: Block, s: Block :| b <= c < s && UseFlows(f, l, c, s);
      assert c == b;
      var v :| v in l.use[s] && Passes(l, b, s, v);
      assert Transferred(l, inn, out, s);
      assert Arrives(f, l, inn, b, v);
      assert v in outB;
    }
    if ForwardFlow(f, l, k) {
      var c: Block, s: Block :| k <= c < s && UseFlows(f, l, c, s);
      assert b <= c;
    }
  }

  lemma ArrivalFlows(f: Func, l: Local, inn0: Sets, out0: Sets, inn: Sets, out: Sets, k: int, changed: bool, b: Block,
                     v: Value)
    requires InPass(f, l, inn0, out0, inn, out, k, changed, true) && b + 1 == k && |l.use| == |l.def| == |out|
    requires Arrives(f, l, inn, b, v)
    ensures changed || ForwardFlow(f, l, b)
  {
    var s: Block :| f.g.Edge(b, s) && s < |inn| && v in inn[s] && Passes(l, b, s, v);
    assert inn0[s] == {} && inn[s] != {};
    if !changed {
      assert out[s] == out0[s] == {};
      assert Transferred(l, inn, out, s);
      assert UseFlows(f, l, b, s);
    }
  }

  // ----- the end -----

  /** If the last pass changed nothing and was not the only one, the equations are solved. */
  lemma SolvedLater(f: Func, l: Local, inn0: Sets, out0: Sets, inn: Sets, out: Sets, all: set<Value>)
    requires Sound(f, l, inn, out, all) && InPass(f, l, inn0, out0, inn, out, 0, false, false)
    ensures Solves(f, l, inn, out)
  {
    assert out == out0 && inn == inn0;
    forall b | 0 <= b < |inn|
      ensures inn[b] == (out[b] - l.def[b]) + l.use[b]
    {
      assert Transferred(l, inn, out, b);
    }
    hide Sized, OutFound, InFound, LocalOk, FuncOk, Arrives;
  }

  /** If it was the only one, they are solved exactly if no used value flows anywhere. */
  lemma SolvedFirst(f: Func, l: Local, inn0: Sets, out0: Sets, inn: Sets, out: Sets)
    requires Sized(f, l, inn, out) && InPass(f, l, inn0, out0, inn, out, 0, false, true)
    ensures !ForwardFlow(f, l, 0) && (Solves(f, l, inn, out) <==> !SomeFlow(f, l)) && AllEmpty(out)
  {
    assert out == out0 && AllEmpty(out);
    forall b | 0 <= b < |inn|
      ensures inn[b] == l.use[b] == (out[b] - l.def[b]) + l.use[b]
    {
      assert Transferred(l, inn, out, b);
      assert out[b] == {};
    }
    if SomeFlow(f, l) {
      var b: Block, s: Block :| UseFlows(f, l, b, s);
      var v :| v in l.use[s] && Passes(l, b, s, v);
      assert Arrives(f, l, inn, b, v);
    } else {
      forall b: Block, v | b < |out|
        ensures !Arrives(f, l, inn, b, v)
      {
        if Arrives(f, l, inn, b, v) {
          var s: Block :| f.g.Edge(b, s) && s < |inn| && v in inn[s] && Passes(l, b, s, v);
          assert UseFlows(f, l, b, s);
        }
      }
    }
  }

  ghost function AllUses(use: Sets): set<Value> {
    if use == [] then {} else AllUses(use[..|use| - 1]) + use[|use| - 1]
  }

  lemma {:induction false} AllUsesHold(use: Sets)
    ensures forall b {:trigger use[b]} :: 0 <= b < |use| ==> use[b] <= AllUses(use)
  {
    if use != [] {
      var init := use[..|use| - 1];
      AllUsesHold(init);
      assert forall b :: 0 <= b < |init| ==> init[b] == use[b];
    }
  }

  lemma LocalSizes(f: Func, l: Local)
    requires LocalOk(f, l)
    ensures |l.def| == |l.use| == |l.phiuses| == |f.code|
  {
  }

  lemma SoundSizes(f: Func, l: Local, inn: Sets, out: Sets, all: set<Value>)
    requires Sound(f, l, inn, out, all)
    ensures |inn| == |out| == |l.phiuses| == |l.def| == |l.use| == |f.code| && FuncOk(f) && LocalOk(f, l)
    ensures OutFound(f, out)
  {
  }

  lemma FirstPass(f: Func, l: Local, inn0: Sets, out0: Sets, inn: Sets, out: Sets, changed: bool)
    requires InPass(f, l, inn0, out0, inn, out, 0, changed, true)
    ensures changed <==> ForwardFlow(f, l, 0)
  {
  }

  lemma PassDone(f: Func, l: Local, inn: Sets, out: Sets, all: set<Value>, inn0: Sets, out0: Sets, changed: bool,
                 first: bool)
    requires Sound(f, l, inn, out, all) && InPass(f, l, inn0, out0, inn, out, 0, changed, first)
    ensures AllTransferred(l, inn, out, 0)
  {
  }

  /** A pass that changes something closes the gap. */
  lemma PassGap(f: Func, l: Local, inn0: Sets, out0: Sets, inn: Sets, out: Sets, changed: bool, all: set<Value>)
    requires Sound(f, l, inn, out, all) && InPass(f, l, inn0, out0, inn, out, 0, changed, false)
    ensures Gap(all, out) <= Gap(all, out0) && (changed ==> Gap(all, out) < Gap(all, out0))
  {
    GapShrinks(all, out0, out);
  }

  /** What is computed: the sets are those of the walks, or all empty if there are too few passes. */
  ghost predicate Computes(f: Func, out: Sets) {
    |out| == |f.code| && forall b: Block, v {:trigger v in out[b]} :: b < |out| ==>
      (v in out[b] <==> EnoughPasses(f) && Found(f, v, b))
  }

  lemma ComputesAll(f: Func, l: Local, inn: Sets, out: Sets)
    requires LocalOk(f, l) && |out| == |f.code| && OutFound(f, out) && (Solves(f, l, inn, out) <==> EnoughPasses(f))
    requires !EnoughPasses(f) ==> AllEmpty(out)
    ensures Computes(f, out)
  {
    hide LocalOk, Solves, EnoughPasses, LetThroughAll, Exposed, ReadOnEntry;
    forall b: Block, v | b < |out|
      ensures v in out[b] <==> EnoughPasses(f) && Found(f, v, b)
    {
      if EnoughPasses(f) && Found(f, v, b) {
        var p :| FoundWalk(f, v, p) && p[0] == b;
        WalkIsFound(f, l, inn, out, v, p);
      }
    }
  }

  lemma Finish(f: Func, l: Local, inn0: Sets, out0: Sets, inn: Sets, out: Sets, all: set<Value>, first: bool)
    requires Sound(f, l, inn, out, all) && InPass(f, l, inn0, out0, inn, out, 0, false, first)
    requires if first then !ForwardFlow(f, l, 0) else ForwardFlow(f, l, 0)
    ensures LocalOk(f, l) && |inn| == |out| == |f.code| && OutSound(f, out)
    ensures Solves(f, l, inn, out) <==> EnoughPasses(f)
    ensures Computes(f, out)
    ensures Solves(f, l, inn, out) && PhisSeparate(f) ==>
              forall b: Block, v {:trigger v in out[b]} :: b < |out| ==> (v in out[b] <==> LiveOut(f, v, b))
    ensures Solves(f, l, inn, out) ==> (EdgesExact(f, l, inn) <==> PhisSeparate(f))
  {
    if first {
      SolvedFirst(f, l, inn0, out0, inn, out);
    } else {
      SolvedLater(f, l, inn0, out0, inn, out, all);
    }
    assert Sized(f, l, inn, out) && OutFound(f, out) && InFound(f, l, inn);
    FlowsOfInput(f, l);
    hide Sound, InPass, LocalOk, FuncOk, OutFound, InFound, OutSound, InSound, Solves, PhisSeparate, EdgesExact,
      ForwardFlow, SomeFlow, EnoughPasses, LiveOut, Computes, AllEmpty;
    FoundIsSound(f, l, inn, out);
    ComputesAll(f, l, inn, out);
    if Solves(f, l, inn, out) {
      FilterExact(f, l, inn, out);
    }
    if Solves(f, l, inn, out) && PhisSeparate(f) {
      SolutionIsLiveness(f, l, inn, out);
    }
  }

  // ----- a function whose single pass is too short -----

  /** Block 1, which uses the value of block 2, stands before it. */
  function Backward(): Func {
    Func(Graph(0, [[2], [], [1]], [[], [2], [0]]), [[], [Plain(1, true, [Rand(0, true)])], [Plain(0, false, [])]])
  }

  /** The first pass changes no live-out set, so it is the last, and value 0, which is live out of block 2,
      is not found there. */
  lemma BackwardMissed(out: Sets)
    requires Computes(Backward(), out)
    ensures FuncOk(Backward()) && !EnoughPasses(Backward()) && LiveOut(Backward(), 0, 2) && |out| == 3 && 0 !in out[2]
  {
    var f := Backward();
    BackwardGraph();
    assert f.code[1][..0] == [];
    assert Reads(f.code[1][0], 0);
    assert OrdinaryExposed(f.code[1], 0) && Exposed(f.code[1], 0);
    assert !TakenByPhi(f.code[1], 0);
    assert UseReaches(f, 2, 1);
    forall v
      ensures !Exposed(f.code[2], v)
    {
    }
    LiveHere(f, 0, 2, 1);
  }

  lemma BackwardGraph()
    ensures FuncOk(Backward()) && forall a: Block, b: Block :: Backward().g.Edge(a, b) <==>
      (a, b) == (0, 2) || (a, b) == (2, 1)
  {
    BackwardEdges();
    AllTracked(Backward().code[0]);
    AllTracked(Backward().code[1]);
    AllTracked(Backward().code[2]);
    hide CodeOk, Graph.Valid;
  }

  lemma BackwardEdges()
    ensures Backward().g.Valid() && forall a: Block, b: Block :: Backward().g.Edge(a, b) <==>
      (a, b) == (0, 2) || (a, b) == (2, 1)
  {
    var g := Backward().g;
    forall a: Block, b: Block
      ensures g.Edge(a, b) <==> (a, b) == (0, 2) || (a, b) == (2, 1)
      ensures g.Edge(a, b) <==> b < |g.preds| && a in g.preds[b]
    {
    }
  }

  class ActiveVars {
    var def: Sets
    var use: Sets
    var phiuses: seq<map<Block, set<Value>>>
    var liveIn: Sets
    var liveOut: Sets

    ghost function Locals(): Local
      reads this`def, this`use, this`phiuses
    {
      Local(def, use, phiuses)
    }

    /** The phis' operands, by predecessor. */
    method CollectPhi(x: Instr, phis0: map<Block, set<Value>>) returns (phis: map<Block, set<Value>>)
      requires x.Phi?
      ensures forall p: Block, v {:trigger PhiTakes(x, v, p)} ::
        (p in phis && v in phis[p]) <==> (p in phis0 && v in phis0[p]) || PhiTakes(x, v, p)
    {
      phis := phis0;
      for i := 0 to |x.pairs|
        invariant forall p: Block, v {:trigger PhiTakes(Phi(x.val, x.pairs[..i]), v, p)} ::
          (p in phis && v in phis[p]) <==> (p in phis0 && v in phis0[p]) || PhiTakes(Phi(x.val, x.pairs[..i]), v, p)
      {
        var (r, other) := x.pairs[i];
        PairsSnoc(x, i);
        var cur := if other in phis then phis[other] else {};
        phis := phis[other := cur + {r.val}];
      }
      var y := Phi(x.val, x.pairs[..|x.pairs|]);
      assert y == x;
      forall p: Block, v
        ensures (p in phis && v in phis[p]) <==> (p in phis0 && v in phis0[p]) || PhiTakes(x, v, p)
      {
        assert PhiTakes(y, v, p) <==> PhiTakes(x, v, p);
      }
    }

    lemma PairsSnoc(x: Instr, i: nat)
      requires x.Phi? && i < |x.pairs|
      ensures forall p: Block, v {:trigger PhiTakes(Phi(x.val, x.pairs[..i + 1]), v, p)} ::
        PhiTakes(Phi(x.val, x.pairs[..i + 1]), v, p) <==>
          PhiTakes(Phi(x.val, x.pairs[..i]), v, p) || (p == x.pairs[i].1 && v == x.pairs[i].0.val)
    {
      assert x.pairs[..i + 1] == x.pairs[..i] + [x.pairs[i]];
      forall p: Block, v
        ensures PhiTakes(Phi(x.val, x.pairs[..i + 1]), v, p) <==>
          PhiTakes(Phi(x.val, x.pairs[..i]), v, p) || (p == x.pairs[i].1 && v == x.pairs[i].0.val)
      {
        if p == x.pairs[i].1 && v == x.pairs[i].0.val {
          assert (x.pairs[i].0, p) in x.pairs[..i + 1];
        }
        if PhiTakes(Phi(x.val, x.pairs[..i]), v, p) {
          var r: Rand :| r.val == v && (r, p) in x.pairs[..i];
          assert (r, p) in x.pairs[..i + 1];
        }
      }
    }

    /** The operands of one instruction that are used before they are defined. */
    method CollectUses(x: Instr, uses0: set<Value>, defs: set<Value>) returns (uses: set<Value>)
      ensures forall v {:trigger v in uses} :: v in uses <==> v in uses0 || (Tracked(Operands(x), v) && v !in defs)
    {
      var rands := Operands(x);
      uses := uses0;
      for i := 0 to |rands|
        invariant forall v {:trigger v in uses} :: v in uses <==> v in uses0 || (Tracked(rands[..i], v) && v !in defs)
      {
        var rand := rands[i];
        assert rands[..i + 1] == rands[..i] + [rand];
        if rand.val !in defs && rand.tracked {
          uses := uses + {rand.val};
        }
      }
      assert rands[..|rands|] == rands;
    }

    /** Definitions, upward exposed uses and phi operands of one block. */
    method Collect(xs: seq<Instr>) returns (defs: set<Value>, uses: set<Value>, phis: map<Block, set<Value>>)
      requires CodeOk(xs)
      ensures Collected(xs, uses, defs) && PhisCollected(xs, phis)
    {
      defs, uses, phis := {}, {}, map[];
      for i := 0 to |xs|
        invariant Collected(xs[..i], uses, defs) && PhisCollected(xs[..i], phis)
      {
        var x := xs[i];
        ghost var uses0, defs0 := uses, defs;
        uses := CollectUses(x, uses, defs);
        if x.Phi? {
          phis := CollectPhi(x, phis);
        }
        if x.Call? {
          uses := uses - {x.callee.val};
        }
        if x.val !in uses && !IsVoid(x) {
          defs := defs + {x.val};
        }
        CollectStep(xs, i, uses0, defs0, uses, defs);
        TakenStep(xs, i);
      }
      assert xs[..|xs|] == xs;
    }

    lemma TakenStep(xs: seq<Instr>, i: nat)
      requires i < |xs|
      ensures forall p: Block, v {:trigger TakenFrom(xs[..i + 1], v, p)} ::
        TakenFrom(xs[..i + 1], v, p) <==> TakenFrom(xs[..i], v, p) || PhiTakes(xs[i], v, p)
    {
      assert xs[..i + 1] == xs[..i] + [xs[i]];
      forall p: Block, v
        ensures TakenFrom(xs[..i + 1], v, p) <==> TakenFrom(xs[..i], v, p) || PhiTakes(xs[i], v, p)
      {
        TakenSnoc(xs[..i], xs[i], v, p);
      }
    }

    method CalcDefAndUse(f: Func)
      requires FuncOk(f)
      modifies this`def, this`use, this`phiuses
      ensures LocalOk(f, Locals())
    {
      def, use, phiuses := [], [], [];
      for b := 0 to |f.code|
        invariant |def| == |use| == |phiuses| == b
        invariant forall c {:trigger use[c]} {:trigger def[c]} {:trigger phiuses[c]} :: 0 <= c < b ==>
          Collected(f.code[c], use[c], def[c]) && PhisCollected(f.code[c], phiuses[c])
      {
        var defs, uses, phis := Collect(f.code[b]);
        def, use, phiuses := def + [defs], use + [uses], phiuses + [phis];
      }
      LocalCollected(f);
    }

    lemma LocalCollected(f: Func)
      requires |def| == |use| == |phiuses| == |f.code|
      requires forall c {:trigger use[c]} {:trigger def[c]} {:trigger phiuses[c]} :: 0 <= c < |f.code| ==>
        Collected(f.code[c], use[c], def[c]) && PhisCollected(f.code[c], phiuses[c])
      ensures LocalOk(f, Locals())
    {
      forall s: Block, b: Block, v | s < |f.code|
        ensures FromPhi(Locals(), s, b, v) <==> TakenFrom(f.code[s], v, b)
      {
        assert PhisCollected(f.code[s], phiuses[s]);
      }
      hide Exposed, DefinedIn, TakenFrom;
    }

    /** Whether some phi of the block takes v at all, looked up predecessor by predecessor. */
    method IsFromPhi(b: Block, v: Value) returns (fromPhi: bool)
      requires b < |phiuses|
      ensures fromPhi <==> exists p :: p in phiuses[b] && v in phiuses[b][p]
    {
      fromPhi := false;
      var todo := phiuses[b].Keys;
      while todo != {}
        invariant todo <= phiuses[b].Keys
        invariant fromPhi <==> exists p :: p in phiuses[b].Keys - todo && v in phiuses[b][p]
      {
        var p :| p in todo;
        fromPhi := fromPhi || v in phiuses[b][p];
        todo := todo - {p};
      }
    }

    /** What passes from the live-in set of s to its predecessor b. */
    method Passing(b: Block, s: Block) returns (vars: set<Value>)
      requires s < |liveIn| == |phiuses|
      ensures forall v {:trigger v in vars} :: v in vars <==> v in liveIn[s] && Passes(Locals(), b, s, v)
    {
      vars := {};
      var todo := liveIn[s];
      while todo != {}
        invariant todo <= liveIn[s]
        invariant forall v {:trigger v in vars} :: v in vars <==> v in liveIn[s] - todo && Passes(Locals(), b, s, v)
      {
        var v :| v in todo;
        var fromPhi := IsFromPhi(s, v);
        if !fromPhi || (b in phiuses[s] && v in phiuses[s][b]) {
          vars := vars + {v};
        }
        todo := todo - {v};
      }
    }

    /** The block's new live-out set, with what arrives from its successors. */
    method Arriving(f: Func, b: Block) returns (out: set<Value>)
      requires FuncOk(f) && |liveIn| == |liveOut| == |phiuses| == |f.code| && b < |liveOut|
      ensures forall v {:trigger v in out} :: v in out <==> v in liveOut[b] || Arrives(f, Locals(), liveIn, b, v)
    {
      out := liveOut[b];
      var sucs := f.g.succs[b];
      for k := 0 to |sucs|
        invariant forall v {:trigger v in out} :: v in out <==> v in liveOut[b] || ArrivesFrom(sucs[..k], b, v)
      {
        var suc := sucs[k];
        assert f.g.Edge(b, suc);
        var vars := Passing(b, suc);
        ghost var before := out;
        out := out + vars;
        ArrivesSnoc(sucs, k, b);
        ghost var next := sucs[..k + 1];
        forall v
          ensures v in out <==> v in liveOut[b] || ArrivesFrom(next, b, v)
        {
          assert v in before <==> v in liveOut[b] || ArrivesFrom(sucs[..k], b, v);
          assert v in vars <==> v in liveIn[suc] && Passes(Locals(), b, suc, v);
        }
      }
      assert sucs[..|sucs|] == sucs;
      assert forall s: Block :: f.g.Edge(b, s) <==> s in sucs;
    }

    lemma ArrivesSnoc(sucs: seq<Block>, k: nat, b: Block)
      requires |liveIn| == |phiuses| && k < |sucs| && sucs[k] < |liveIn|
      ensures forall v {:trigger ArrivesFrom(sucs[..k + 1], b, v)} ::
        ArrivesFrom(sucs[..k + 1], b, v) <==>
          ArrivesFrom(sucs[..k], b, v) || (v in liveIn[sucs[k]] && Passes(Locals(), b, sucs[k], v))
    {
      assert sucs[..k + 1] == sucs[..k] + [sucs[k]];
      forall v
        ensures ArrivesFrom(sucs[..k + 1], b, v) <==>
          ArrivesFrom(sucs[..k], b, v) || (v in liveIn[sucs[k]] && Passes(Locals(), b, sucs[k], v))
      {
        assert sucs[k] in sucs[..k + 1];
        if ArrivesFrom(sucs[..k], b, v) {
          var s: Block :| s in sucs[..k] && s < |liveIn| && v in liveIn[s] && Passes(Locals(), b, s, v);
          assert s in sucs[..k + 1];
        }
      }
    }

    ghost predicate ArrivesFrom(sucs: seq<Block>, b: Block, v: Value)
      reads this`liveIn, this`phiuses, this`def, this`use
      requires |liveIn| == |phiuses|
    {
      exists s: Block {:trigger s in sucs} :: s in sucs && s < |liveIn| && v in liveIn[s] && Passes(Locals(), b, s, v)
    }

    /** Recomputes the sets of one block. */
    method VisitBlock(f: Func, b: Block) returns (changed: bool)
      requires FuncOk(f) && |liveIn| == |liveOut| == |phiuses| == |def| == |use| == |f.code| && b < |liveOut|
      modifies this`liveIn, this`liveOut
      ensures |liveOut| == |liveIn| == |old(liveOut)|
      ensures forall v {:trigger v in liveOut[b]} :: v in liveOut[b] <==>
        v in old(liveOut)[b] || Arrives(f, Locals(), old(liveIn), b, v)
      ensures liveOut == old(liveOut)[b := liveOut[b]] && liveIn == old(liveIn)[b := (liveOut[b] - def[b]) + use[b]]
      ensures changed <==> liveOut[b] != old(liveOut)[b]
    {
      var sizeBefore := |liveOut[b]|;
      var out := Arriving(f, b);
      SubsetSize(liveOut[b], out);
      changed := |out| != sizeBefore;
      liveOut := liveOut[b := out];
      liveIn := liveIn[b := (out - def[b]) + use[b]];
    }

    /** One pass over all blocks, last one first. */
    method Pass(f: Func, ghost all: set<Value>, ghost first: bool) returns (changed: bool)
      requires Sound(f, Locals(), liveIn, liveOut, all) && if first then AllEmpty(liveIn) && AllEmpty(liveOut)
        else AllTransferred(Locals(), liveIn, liveOut, 0)
      modifies this`liveIn, this`liveOut
      ensures Sound(f, Locals(), liveIn, liveOut, all)
      ensures InPass(f, Locals(), old(liveIn), old(liveOut), liveIn, liveOut, 0, changed, first)
    {
      hide Sound, InPass, FuncOk;
      SoundSizes(f, Locals(), liveIn, liveOut, all);
      PassBegins(f, Locals(), liveIn, liveOut, first);
      changed := false;
      var k := |f.code|;
      while k > 0
        invariant 0 <= k <= |f.code| && Sound(f, Locals(), liveIn, liveOut, all)
        invariant InPass(f, Locals(), old(liveIn), old(liveOut), liveIn, liveOut, k, changed, first)
      {
        SoundSizes(f, Locals(), liveIn, liveOut, all);
        ghost var inn, out := liveIn, liveOut;
        var more := VisitBlock(f, k - 1);
        SoundBlock(f, Locals(), inn, out, all, k - 1, liveIn, liveOut);
        PassBlock(f, Locals(), old(liveIn), old(liveOut), inn, out, k, changed, first, k - 1, liveIn, liveOut);
        changed := changed || more;
        k := k - 1;
      }
    }

    /** The whole analysis of one function. Whatever is found is live; it solves the equations unless the
        very first pass already changed nothing although some use flows backward; then what is found are the
        values with a live walk that passes the filter on each edge, and otherwise nothing; and a solution
        passes on exactly what is live on every edge if and only if the phis are separate, in which case the
        live-out sets are all that is live. */
    method Run(f: Func)
      requires FuncOk(f)
      modifies this
      ensures LocalOk(f, Locals()) && |liveIn| == |liveOut| == |f.code| && OutSound(f, liveOut)
      ensures Solves(f, Locals(), liveIn, liveOut) <==> EnoughPasses(f)
      ensures Computes(f, liveOut)
      ensures EnoughPasses(f) && PhisSeparate(f) ==>
                forall b: Block, v {:trigger v in liveOut[b]} :: b < |liveOut| ==>
                  (v in liveOut[b] <==> LiveOut(f, v, b))
      ensures EnoughPasses(f) ==> (EdgesExact(f, Locals(), liveIn) <==> PhisSeparate(f))
    {
      hide Sound, InPass, FuncOk, LocalOk, Solves, PhisSeparate, EdgesExact, EnoughPasses, OutSound, Computes;
      CalcDefAndUse(f);
      liveIn, liveOut := seq(|f.code|, _ => {}), seq(|f.code|, _ => {});
      ghost var all := AllUses(use);
      AllUsesHold(use);
      LocalSizes(f, Locals());
      SoundStart(f, Locals(), liveIn, liveOut, all);
      ghost var inn0, out0 := liveIn, liveOut;
      ghost var first := true;
      var changed := Pass(f, all, true);
      FirstPass(f, Locals(), inn0, out0, liveIn, liveOut, changed);
      while changed
        invariant LocalOk(f, Locals()) && Sound(f, Locals(), liveIn, liveOut, all)
        invariant InPass(f, Locals(), inn0, out0, liveIn, liveOut, 0, changed, first)
        invariant if first then changed <==> ForwardFlow(f, Locals(), 0) else ForwardFlow(f, Locals(), 0)
        decreases Gap(all, liveOut), changed
      {
        ghost var inn1, out1 := inn0, out0;
        inn0, out0 := liveIn, liveOut;
        PassDone(f, Locals(), liveIn, liveOut, all, inn1, out1, changed, first);
        changed := Pass(f, all, false);
        first := false;
        PassGap(f, Locals(), inn0, out0, liveIn, liveOut, changed, all);
      }
      Finish(f, Locals(), inn0, out0, liveIn, liveOut, all, first);
    }
  }

  /** The analysis of that function. */
  method AnalyseBackward() returns (out: Sets)
    ensures LiveOut(Backward(), 0, 2) && |out| == 3 && 0 !in out[2]
  {
    BackwardGraph();
    hide FuncOk, Computes, LocalOk, Solves, PhisSeparate, EdgesExact, EnoughPasses, OutSound, Backward, LiveOut;
    var analysis := new ActiveVars;
    analysis.Run(Backward());
    out := analysis.liveOut;
    BackwardMissed(out);
  }
}
