/** The stack slots of a function: those of its allocas, and those of spilled values. */
module StackFrame {
  import opened ScanTheory

  /** Where each slot begins, counted from the frame pointer downwards. */
  type Offsets = map<Value, int>

  type SizeOf = Value -> nat

  ghost function Total(size: SizeOf, vs: set<Value>): nat {
    if vs == {} then 0
    else
      var v :| v in vs;
      size(v) + Total(size, vs - {v})
  }

  lemma {:induction false} TotalMore(size: SizeOf, vs: set<Value>, v: Value)
    requires v !in vs
    ensures Total(size, vs + {v}) == Total(size, vs) + size(v)
    decreases |vs|
  {
    var all := vs + {v};
    var u :| u in all && Total(size, all) == size(u) + Total(size, all - {u});
    if u == v {
      assert all - {u} == vs;
    } else {
      TotalMore(size, vs - {u}, v);
      assert all - {u} == (vs - {u}) + {v};
      TotalMore(size, vs - {u}, u);
      assert (vs - {u}) + {u} == vs;
    }
  }

  /** The slots share no byte. */
  predicate Separate(size: SizeOf, off: Offsets, v: Value, w: Value)
    requires v in off && w in off
  {
    off[v] + size(v) <= off[w] || off[w] + size(w) <= off[v]
  }

  /** Slots of allocas lie one below the other, below the saved registers, which take the first base bytes.
      The slot of a spilled value begins its own size below the frame pointer. Every slot adds to the frame. */
  ghost predicate FrameOk(size: SizeOf, base: int, allocas: set<Value>, off: Offsets, frame: int) {
    && frame == base + Total(size, off.Keys)
    && (forall v {:trigger off[v]} :: v in off && v in allocas ==> -frame <= off[v] && off[v] + size(v) <= -base)
    && (forall v, w {:trigger off[v], off[w]} :: v in off && w in off && v in allocas && w in allocas && v != w ==>
         Separate(size, off, v, w))
    && (forall v {:trigger off[v]} :: v in off && v !in allocas ==> off[v] == 0 - size(v))
  }

  lemma FrameStart(size: SizeOf, base: int, allocas: set<Value>)
    ensures FrameOk(size, base, allocas, map[], base)
  {
    var none: Offsets := map[];
    assert none.Keys == {};
  }

  lemma FrameAlloca(size: SizeOf, base: int, allocas: set<Value>, off: Offsets, frame: int, v: Value)
    requires FrameOk(size, base, allocas, off, frame) && v in allocas && v !in off
    ensures FrameOk(size, base, allocas, off[v := -(frame + size(v))], frame + size(v))
  {
    TotalMore(size, off.Keys, v);
    assert off[v := -(frame + size(v))].Keys == off.Keys + {v};
  }

  lemma FrameSpill(size: SizeOf, base: int, allocas: set<Value>, off: Offsets, frame: int, v: Value)
    requires FrameOk(size, base, allocas, off, frame) && v !in allocas && v !in off
    ensures FrameOk(size, base, allocas, off[v := 0 - size(v)], frame + size(v))
  {
    TotalMore(size, off.Keys, v);
    assert off[v := 0 - size(v)].Keys == off.Keys + {v};
  }

  /** No two slots share a byte, and none lies where registers are saved. */
  ghost predicate FrameSound(size: SizeOf, base: int, off: Offsets) {
    && (forall v {:trigger off[v]} :: v in off ==> off[v] + size(v) <= -base)
    && (forall v, w {:trigger off[v], off[w]} :: v in off && w in off && v != w ==> Separate(size, off, v, w))
  }

  /** The frame is sound exactly if nothing is spilled. */
  lemma SoundWhen(size: SizeOf, base: int, allocas: set<Value>, off: Offsets, frame: int)
    requires FrameOk(size, base, allocas, off, frame) && base > 0
    ensures FrameSound(size, base, off) <==> off.Keys <= allocas
  {
    forall v | v in off
      ensures off[v] + size(v) <= -base <==> v in allocas
    {
      assert v in allocas ==> off[v] + size(v) <= -base;
    }
  }

  /** Any two spilled values share bytes. */
  lemma SpilledOverlap(size: SizeOf, base: int, allocas: set<Value>, off: Offsets, frame: int, v: Value, w: Value)
    requires FrameOk(size, base, allocas, off, frame) && v in off && w in off && v !in allocas && w !in allocas
    requires size(v) > 0 && size(w) > 0
    ensures !Separate(size, off, v, w)
  {
  }
}
