/** Iterated dominance frontiers, and what the phi-placing worklist knows about them. */
module PhiPlacement {
  import opened Cfg
  import opened FrontierTheory
  import opened Ssa
  import opened RenameSpec

  /** A walk that starts in a block of s and goes from each block to one of its dominance frontier. */
  ghost predicate Wave(f: Frontiers, s: set<Block>, q: seq<Block>) {
    && |q| > 0
    && if |q| == 1 then q[0] in s
       else Wave(f, s, q[..|q| - 1]) && q[|q| - 2] in f && q[|q| - 1] in f[q[|q| - 2]]
  }

  /** b is in the iterated dominance frontier of s. */
  ghost predicate Iterated(f: Frontiers, s: set<Block>, b: Block) {
    exists q :: Wave(f, s, q) && |q| > 1 && q[|q| - 1] == b
  }

  lemma IteratedStep(f: Frontiers, s: set<Block>, x: Block, b: Block)
    requires x in s || Iterated(f, s, x)
    requires x in f && b in f[x]
    ensures Iterated(f, s, b)
  {
    var q := if x in s then [x] else var q :| Wave(f, s, q) && |q| > 1 && q[|q| - 1] == x; q;
    assert (q + [b])[..|q|] == q;
    assert Wave(f, s, q + [b]);
  }

  /** A set that holds the frontiers of s and of its own members holds the iterated frontier. */
  lemma {:induction false} ClosedHoldsWave(f: Frontiers, s: set<Block>, placed: set<Block>, q: seq<Block>)
    requires Wave(f, s, q) && |q| > 1
    requires forall x :: x in f && (x in s || x in placed) ==> f[x] <= placed
    ensures q[|q| - 1] in placed
  {
    if |q| > 2 {
      ClosedHoldsWave(f, s, placed, q[..|q| - 1]);
    }
  }

  function SlotsOf(phis: seq<Phi>): (ss: seq<Slot>)
    ensures |ss| == |phis|
  {
    seq(|phis|, i requires 0 <= i < |phis| => phis[i].slot)
  }

  /** The phi lists after variable v has been given phis in exactly the placed blocks. */
  ghost predicate PlacedFor(before: seq<seq<Phi>>, after: seq<seq<Phi>>, v: Slot, placed: set<Block>) {
    && |after| == |before|
    && forall b {:trigger after[b]} :: 0 <= b < |before| ==>
         after[b] == if b in placed then [Phi(v, [])] + before[b] else before[b]
  }

  /** The worklist invariant: everything listed is a store block or placed, everything placed is
      listed and in the iterated frontier, and the frontiers of the first i entries are placed. */
  ghost predicate Working(f: Frontiers, s: set<Block>, work: seq<Block>, i: nat, placed: set<Block>) {
    && i <= |work|
    && (forall x {:trigger x in work} :: x in work ==> x in s || x in placed)
    && (forall x :: x in s || x in placed ==> x in work)
    && (forall x :: x in placed ==> Iterated(f, s, x))
    && (forall j {:trigger work[j]} :: 0 <= j < i && work[j] in f ==> f[work[j]] <= placed)
  }

  lemma WorkDone(f: Frontiers, s: set<Block>, work: seq<Block>, placed: set<Block>, b: Block)
    requires Working(f, s, work, |work|, placed)
    ensures b in placed <==> Iterated(f, s, b)
  {
    if Iterated(f, s, b) {
      var q :| Wave(f, s, q) && |q| > 1 && q[|q| - 1] == b;
      forall x | x in f && (x in s || x in placed)
        ensures f[x] <= placed
      {
        var j :| 0 <= j < |work| && work[j] == x;
      }
      ClosedHoldsWave(f, s, placed, q);
    }
  }

  lemma WorkMore(f: Frontiers, s: set<Block>, work: seq<Block>, i: nat, placed: set<Block>, x: Block)
    requires Working(f, s, work, i, placed) && i < |work| && work[i] in f && x in f[work[i]]
    ensures Working(f, s, work + [x], i, placed + {x})
  {
    assert work[i] in work;
    IteratedStep(f, s, work[i], x);
    forall j | 0 <= j < i && (work + [x])[j] in f
      ensures f[(work + [x])[j]] <= placed + {x}
    {
      assert (work + [x])[j] == work[j];
    }
  }

  lemma PlacedMore(before: seq<seq<Phi>>, now: seq<seq<Phi>>, v: Slot, placed: set<Block>, b: Block)
    requires PlacedFor(before, now, v, placed) && b < |now| && b !in placed
    ensures PlacedFor(before, now[b := [Phi(v, [])] + now[b]], v, placed + {b})
  {
  }

  // ----- all variables -----

  /** The blocks with a store to v, as far as the first i instructions of block b and all blocks below. */
  ghost function StoredIn(f: Func, v: Slot, b: Block, i: nat): set<Block> {
    (set x: Block | x < |f.code| && x < b && StoresTo(f.code[x].instrs, v))
      + if b < |f.code| && i <= |f.code[b].instrs| && StoresTo(f.code[b].instrs[..i], v) then {b} else {}
  }

  ghost function StoreBlocks(f: Func, v: Slot): set<Block> {
    set x: Block | x < |f.code| && StoresTo(f.code[x].instrs, v)
  }

  ghost predicate Collected(f: Func, blocks: map<Slot, set<Block>>, b: Block, i: nat) {
    forall v {:trigger v in blocks} :: if v in blocks then blocks[v] == StoredIn(f, v, b, i) != {}
      else StoredIn(f, v, b, i) == {}
  }

  lemma CollectedStart(f: Func)
    ensures Collected(f, map[], 0, 0)
  {
  }

  lemma StoredInMore(f: Func, v: Slot, b: Block, i: nat)
    requires b < |f.code| && i < |f.code[b].instrs|
    ensures StoredIn(f, v, b, i + 1) ==
              StoredIn(f, v, b, i) + if f.code[b].instrs[i].Store? && f.code[b].instrs[i].slot == v then {b} else {}
  {
    var xs := f.code[b].instrs;
    assert forall j :: 0 <= j < i ==> xs[..i + 1][j] == xs[..i][j];
    assert xs[..i + 1][i] == xs[i];
    if StoresTo(xs[..i], v) {
      var j :| 0 <= j < |xs[..i]| && xs[..i][j].Store? && xs[..i][j].slot == v;
      assert xs[..i + 1][j].Store? && xs[..i + 1][j].slot == v;
    }
  }

  lemma CollectedMore(f: Func, blocks: map<Slot, set<Block>>, b: Block, i: nat)
    requires b < |f.code| && i < |f.code[b].instrs| && Collected(f, blocks, b, i)
    ensures var x := f.code[b].instrs[i];
            Collected(f, if x.Store? then blocks[x.slot := (if x.slot in blocks then blocks[x.slot] else {}) + {b}]
              else blocks, b, i + 1)
  {
    hide StoredIn;
    forall v: Slot
      ensures StoredIn(f, v, b, i + 1) ==
                StoredIn(f, v, b, i) + if f.code[b].instrs[i].Store? && f.code[b].instrs[i].slot == v then {b} else {}
    {
      StoredInMore(f, v, b, i);
    }
  }

  lemma CollectedNext(f: Func, blocks: map<Slot, set<Block>>, b: Block)
    requires b < |f.code| && Collected(f, blocks, b, |f.code[b].instrs|)
    ensures Collected(f, blocks, b + 1, 0)
  {
    forall v: Slot
      ensures StoredIn(f, v, b + 1, 0) == StoredIn(f, v, b, |f.code[b].instrs|)
    {
      var xs := f.code[b].instrs;
      assert xs[..|xs|] == xs;
      assert b + 1 < |f.code| ==> f.code[b + 1].instrs[..0] == [];
    }
    hide StoredIn;
  }

  lemma CollectedAll(f: Func, blocks: map<Slot, set<Block>>)
    requires Collected(f, blocks, |f.code|, 0)
    ensures forall v :: v in blocks ==> blocks[v] == StoreBlocks(f, v)
    ensures forall v :: v !in blocks ==> StoreBlocks(f, v) == {}
  {
    forall v: Slot
      ensures StoredIn(f, v, |f.code|, 0) == StoreBlocks(f, v)
    {
    }
    hide StoredIn, StoreBlocks;
  }

  /** Every block has exactly one empty phi for each of the variables whose iterated store frontier it
      is in, and no other phi. */
  ghost predicate PhisFor(f: Func, frontier: Frontiers, phis: seq<seq<Phi>>, vars: set<Slot>) {
    && |phis| == |f.g.succs|
    && forall b {:trigger phis[b]} :: 0 <= b < |phis| ==> PhisOfBlock(f, frontier, phis[b], b, vars)
  }

  ghost predicate PhisOfBlock(f: Func, frontier: Frontiers, ps: seq<Phi>, b: Block, vars: set<Slot>) {
    && (forall i {:trigger ps[i]} :: 0 <= i < |ps| ==> ps[i].pairs == [])
    && (forall i, j {:trigger ps[i], ps[j]} :: 0 <= i < j < |ps| ==> ps[i].slot != ps[j].slot)
    && (forall v {:trigger v in SlotsOf(ps)} :: v in SlotsOf(ps) <==>
         v in vars && Iterated(frontier, StoreBlocks(f, v), b))
  }

  lemma PhisForMore(f: Func, frontier: Frontiers, before: seq<seq<Phi>>, after: seq<seq<Phi>>, vars: set<Slot>, v: Slot)
    requires PhisFor(f, frontier, before, vars) && v !in vars && |after| == |before|
    requires forall b {:trigger after[b]} :: 0 <= b < |after| ==>
               after[b] == if Iterated(frontier, StoreBlocks(f, v), b) then [Phi(v, [])] + before[b] else before[b]
    ensures PhisFor(f, frontier, after, vars + {v})
  {
    forall b | 0 <= b < |after|
      ensures PhisOfBlock(f, frontier, after[b], b, vars + {v})
    {
      assert PhisOfBlock(f, frontier, before[b], b, vars);
      if Iterated(frontier, StoreBlocks(f, v), b) {
        PhiAdded(f, frontier, before[b], b, vars, v);
      } else {
        assert v !in SlotsOf(before[b]);
      }
    }
  }

  lemma PhiAdded(f: Func, frontier: Frontiers, ps: seq<Phi>, b: Block, vars: set<Slot>, v: Slot)
    requires PhisOfBlock(f, frontier, ps, b, vars) && v !in vars && Iterated(frontier, StoreBlocks(f, v), b)
    ensures PhisOfBlock(f, frontier, [Phi(v, [])] + ps, b, vars + {v})
  {
    var qs := [Phi(v, [])] + ps;
    assert SlotsOf(qs) == [v] + SlotsOf(ps);
    assert v !in SlotsOf(ps);
    forall i, j | 0 <= i < j < |qs|
      ensures qs[i].slot != qs[j].slot
    {
      assert SlotsOf(ps)[j - 1] in SlotsOf(ps);
    }
  }
}
