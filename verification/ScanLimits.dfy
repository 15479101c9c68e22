/** What the linear scan does with intervals and classes alone, without registers: which intervals it keeps,
    of which class the registers are that it gives them, and whether it runs out of them. */
module ScanLimits {
  import opened Cfg
  import opened ScanTheory
  import opened RegisterTheory
  import opened Sizes

  /** How many registers of each class belong to used arguments. */
  datatype Taken = Taken(ints: nat, floats: nat) {
    function Of(f: bool): nat {
      if f then floats else ints
    }
  }

  // ----- the orders -----

  ghost predicate IsFirst(s: set<Interval>, i: Interval) {
    i in s && forall k {:trigger k in s} :: k in s ==> !IntervalLess(k, i)
  }

  ghost predicate IsLast(s: set<Interval>, j: Interval) {
    j in s && forall k {:trigger k in s} :: k in s ==> !ActiveLess(j, k)
  }

  lemma {:induction false} FirstExists(s: set<Interval>)
    requires s != {}
    ensures exists i :: IsFirst(s, i)
    decreases s
  {
    var j :| j in s;
    if s == {j} {
      assert IsFirst(s, j);
    } else {
      FirstExists(s - {j});
      var k :| IsFirst(s - {j}, k);
      var i := if IntervalLess(k, j) then k else j;
      forall m | m in s
        ensures !IntervalLess(m, i)
      {
        assert m != j ==> m in s - {j};
      }
      assert IsFirst(s, i);
    }
  }

  lemma {:induction false} LastExists(s: set<Interval>)
    requires s != {}
    ensures exists i :: IsLast(s, i)
    decreases s
  {
    var j :| j in s;
    if s == {j} {
      assert IsLast(s, j);
    } else {
      LastExists(s - {j});
      var k :| IsLast(s - {j}, k);
      var i := if ActiveLess(j, k) then k else j;
      forall m | m in s
        ensures !ActiveLess(i, m)
      {
        assert m != j ==> m in s - {j};
      }
      assert IsLast(s, i);
    }
  }

  ghost function FirstOf(s: set<Interval>): (i: Interval)
    requires s != {}
    ensures IsFirst(s, i)
  {
    FirstExists(s);
    var i :| IsFirst(s, i);
    i
  }

  ghost function LastOf(s: set<Interval>): (i: Interval)
    requires s != {}
    ensures IsLast(s, i)
  {
    LastExists(s);
    var i :| IsLast(s, i);
    i
  }

  lemma FirstIs(all: set<Interval>, s: set<Interval>, i: Interval)
    requires IntervalsOk(all) && s <= all && IsFirst(s, i)
    ensures FirstOf(s) == i
  {
    assert FirstOf(s) in all && i in all;
  }

  lemma LastIs(all: set<Interval>, s: set<Interval>, j: Interval)
    requires IntervalsOk(all) && s <= all && IsLast(s, j)
    ensures LastOf(s) == j
  {
    assert LastOf(s) in all && j in all;
  }

  // ----- the scan without registers -----

  /** The active and the kept intervals, and of which class the register of each value is. */
  datatype Places = Places(active: set<Interval>, kept: set<Interval>, tags: map<Value, bool>)

  datatype Outcome = Shortage | Placed(kept: set<Interval>, tags: map<Value, bool>)

  ghost function Alive(active: set<Interval>, p: Point): set<Interval> {
    set j | j in active && p.AtMost(j.end)
  }

  ghost function Tagged(active: set<Interval>, tags: map<Value, bool>, f: bool): set<Interval> {
    set j | j in active && j.val in tags && tags[j.val] == f
  }

  /** The next interval; None when the registers of its class have run out. */
  ghost function PlaceNext(floats: set<Value>, taken: Taken, s: Places, i: Interval): Option<Places> {
    var active, f := Alive(s.active, i.start), i.val in floats;
    if |active| < LIMIT then
      if |Tagged(active, s.tags, f)| + taken.Of(f) >= 15 then None
      else Some(Places(active + {i}, s.kept + {i}, s.tags[i.val := f]))
    else
      var x := LastOf(active);
      if i.end.Less(x.end) && x.val in s.tags then
        Some(Places(active - {x} + {i}, s.kept - {x} + {i}, s.tags[i.val := s.tags[x.val]]))
      else
        Some(Places(active, s.kept, s.tags))
  }

  ghost function Scan(floats: set<Value>, taken: Taken, s: Places, rest: set<Interval>): Outcome
    decreases rest
  {
    if rest == {} then Placed(s.kept, s.tags)
    else
      var i := FirstOf(rest);
      match PlaceNext(floats, taken, s, i)
      case None => Shortage
      case Some(s1) => Scan(floats, taken, s1, rest - {i})
  }

  const NOTHING := Places({}, {}, map[])

  /** The outcome for all intervals (of values that are not arguments). */
  ghost function Outcomes(floats: set<Value>, taken: Taken, all: set<Interval>): Outcome {
    Scan(floats, taken, NOTHING, all)
  }

  lemma ScanStep(all: set<Interval>, floats: set<Value>, taken: Taken, s: Places, rest: set<Interval>, i: Interval)
    requires IntervalsOk(all) && rest <= all && IsFirst(rest, i)
    ensures Scan(floats, taken, s, rest) == match PlaceNext(floats, taken, s, i)
                                            case None => Shortage
                                            case Some(s1) => Scan(floats, taken, s1, rest - {i})
  {
    FirstIs(all, rest, i);
  }

  /** Intervals that have ended may go at any time. */
  lemma ScanExpired(all: set<Interval>, floats: set<Value>, taken: Taken, s: Places, rest: set<Interval>, p: Point)
    requires IntervalsOk(all) && rest <= all && forall k {:trigger k in rest} :: k in rest ==> p.AtMost(k.start)
    ensures Scan(floats, taken, s.(active := Alive(s.active, p)), rest) == Scan(floats, taken, s, rest)
  {
    if rest != {} {
      var i := FirstOf(rest);
      assert Alive(Alive(s.active, p), i.start) == Alive(s.active, i.start);
    }
  }

  /** What every step keeps. */
  ghost predicate PlacesOk(all: set<Interval>, s: Places, rest: set<Interval>) {
    && IntervalsOk(all) && s.kept + rest <= all && s.kept !! rest
    && Ordered(s.kept, s.active, rest) && |s.active| <= LIMIT
    && (forall j {:trigger j in s.kept} :: j in s.kept ==> j.val in s.tags)
    && (forall k {:trigger k in rest} :: k in rest ==> k.val !in s.tags)
  }

  lemma NothingPlaced(all: set<Interval>)
    requires IntervalsOk(all)
    ensures PlacesOk(all, NOTHING, all)
  {
  }

  lemma AliveNext(all: set<Interval>, s: Places, rest: set<Interval>, i: Interval)
    requires PlacesOk(all, s, rest) && IsFirst(rest, i)
    ensures var active := Alive(s.active, i.start);
            active <= s.kept && |active| <= LIMIT && Ordered(s.kept, active, rest) && Next(active, rest, i)
              && i !in s.kept && i in all
  {
    var active := Alive(s.active, i.start);
    SubsetSize(active, s.active);
    forall k | k in rest
      ensures i.start.AtMost(k.start)
    {
      assert !IntervalLess(k, i);
    }
    forall j, k | j in s.kept && j !in active && k in rest
      ensures j.end.Less(k.start)
    {
      if j in s.active {
        assert j.end.Less(i.start) && i.start.AtMost(k.start);
      }
    }
  }

  lemma PlaceOk(all: set<Interval>, floats: set<Value>, taken: Taken, s: Places, rest: set<Interval>, i: Interval)
    requires PlacesOk(all, s, rest) && IsFirst(rest, i)
    ensures var r := PlaceNext(floats, taken, s, i); r.Some? ==> PlacesOk(all, r.value, rest - {i})
  {
    hide PlacesOk, Alive, Ordered, Next, Tagged, IsFirst, IsLast;
    AliveNext(all, s, rest, i);
    var active := Alive(s.active, i.start);
    var r := PlaceNext(floats, taken, s, i);
    if r.Some? {
      var s1 := r.value;
      if |active| < LIMIT {
        AllStay(s.kept, active, i);
        JoinOk(all, s, rest, i, active, s1, Some(i.val in floats));
      } else if s1.tags == s.tags && s1.kept == s.kept {
        NoneJoins(s.kept, active, i);
        JoinOk(all, s, rest, i, active, s1, None);
      } else {
        var x := LastOf(active);
        assert x in active by {
          assert IsLast(active, x);
          LastIn(active);
        }
        OneLeaves(s.kept, active, i, x);
        JoinOk(all, s, rest, i, active, s1, Some(s.tags[x.val]));
      }
    }
  }

  lemma LastIn(s: set<Interval>)
    requires s != {}
    ensures LastOf(s) in s
  {
  }

  lemma AllStay(kept: set<Interval>, active: set<Interval>, i: Interval)
    requires active <= kept
    ensures active + {i} == (active + {i}) * (kept + {i}) && |active + {i}| <= |active| + 1
  {
  }

  lemma NoneJoins(kept: set<Interval>, active: set<Interval>, i: Interval)
    requires active <= kept && i !in kept
    ensures active == (active + {i}) * kept
  {
  }

  lemma OneLeaves(kept: set<Interval>, active: set<Interval>, i: Interval, x: Interval)
    requires active <= kept && i !in kept && x in active
    ensures active - {x} + {i} == (active + {i}) * (kept - {x} + {i}) && |active - {x} + {i}| == |active|
    ensures kept - {x} + {i} <= kept + {i}
  {
  }

  /** i joins with a tag, or does not; of the others the kept ones stay. */
  lemma JoinOk(all: set<Interval>, s: Places, rest: set<Interval>, i: Interval, active: set<Interval>, s1: Places,
               t: Option<bool>)
    requires PlacesOk(all, s, rest) && Next(active, rest, i) && Ordered(s.kept, active, rest) && i !in s.kept
    requires s1.active == (active + {i}) * s1.kept && |s1.active| <= LIMIT
    requires match t
             case Some(f) => s1.kept <= s.kept + {i} && s1.tags == s.tags[i.val := f]
             case None => s1.kept == s.kept && s1.tags == s.tags
    ensures PlacesOk(all, s1, rest - {i})
  {
    hide Ordered, IntervalsOk, Next;
    OrderedNext(s.kept, active, rest, i, s1.kept);
    NextIs(active, rest, i);
    JoinTags(all, s, rest, i, s1, t);
  }

  lemma JoinTags(all: set<Interval>, s: Places, rest: set<Interval>, i: Interval, s1: Places, t: Option<bool>)
    requires PlacesOk(all, s, rest) && i in rest
    requires match t
             case Some(f) => s1.kept <= s.kept + {i} && s1.tags == s.tags[i.val := f]
             case None => s1.kept == s.kept && s1.tags == s.tags
    ensures forall j {:trigger j in s1.kept} :: j in s1.kept ==> j.val in s1.tags
    ensures forall k {:trigger k in rest} :: k in rest && k != i ==> k.val !in s1.tags
    ensures s1.kept + (rest - {i}) <= all && s1.kept !! rest - {i}
  {
    hide Ordered;
    forall k | k in rest && k != i
      ensures k.val != i.val
    {
      assert k in all && i in all;
    }
  }

  // ----- shortage: when the intervals fit -----

  ghost function OfClassAt(s: set<Interval>, floats: set<Value>, f: bool, p: Point): set<Interval> {
    set i | i in s && i.Contains(p) && (i.val in floats) == f
  }

  /** At no point are there more values of a class than registers that arguments leave. */
  ghost predicate Bounded(s: set<Interval>, floats: set<Value>, taken: Taken) {
    forall p, f {:trigger OfClassAt(s, floats, f, p)} :: |OfClassAt(s, floats, f, p)| + taken.Of(f) <= 15
  }

  /** The kept intervals have registers of their own class. */
  ghost predicate OwnTags(s: Places, floats: set<Value>) {
    forall i {:trigger i in s.kept} :: i in s.kept ==> i.val in s.tags && s.tags[i.val] == (i.val in floats)
  }

  lemma BoundedNext(all: set<Interval>, floats: set<Value>, taken: Taken, s: Places, rest: set<Interval>, i: Interval)
    requires PlacesOk(all, s, rest) && IsFirst(rest, i) && OwnTags(s, floats) && Bounded(s.kept, floats, taken)
    requires var f := i.val in floats; |Tagged(Alive(s.active, i.start), s.tags, f)| + taken.Of(f) < 15
    ensures Bounded(s.kept + {i}, floats, taken)
  {
    hide PlacesOk, IsFirst;
    AliveNext(all, s, rest, i);
    forall p, g
      ensures |OfClassAt(s.kept + {i}, floats, g, p)| + taken.Of(g) <= 15
    {
      BoundedAt(s, floats, rest, i, p, g);
      assert |OfClassAt(s.kept, floats, g, p)| + taken.Of(g) <= 15;
      assert |OfClassAt(s.kept, floats, g, i.start)| + taken.Of(g) <= 15;
    }
  }

  lemma BoundedAt(s: Places, floats: set<Value>, rest: set<Interval>, i: Interval, p: Point, g: bool)
    requires var active := Alive(s.active, i.start);
             Ordered(s.kept, active, rest) && Next(active, rest, i) && OwnTags(s, floats)
    ensures var now, f := OfClassAt(s.kept + {i}, floats, g, p), i.val in floats;
            || |now| <= |OfClassAt(s.kept, floats, g, p)|
            || |now| <= |OfClassAt(s.kept, floats, g, i.start)|
            || (g == f && |now| <= |Tagged(Alive(s.active, i.start), s.tags, f)| + 1)
  {
    var now, tagged := OfClassAt(s.kept + {i}, floats, g, p), Tagged(Alive(s.active, i.start), s.tags, g);
    if p.Less(i.start) {
      SubsetSize(now, OfClassAt(s.kept, floats, g, p));
    } else {
      forall j | j in now && j != i
        ensures j in tagged && j in OfClassAt(s.kept, floats, g, i.start)
      {
        assert j in s.kept && i in rest;
      }
      if g == (i.val in floats) {
        SubsetSize(now, tagged + {i});
      } else {
        SubsetSize(now, OfClassAt(s.kept, floats, g, i.start));
      }
    }
  }

  /** When i finds no register of its class, the class is too crowded at its start. */
  lemma CrowdedHere(all: set<Interval>, floats: set<Value>, taken: Taken, s: Places, rest: set<Interval>, i: Interval)
    requires PlacesOk(all, s, rest) && IsFirst(rest, i) && OwnTags(s, floats)
    requires var f := i.val in floats; |Tagged(Alive(s.active, i.start), s.tags, f)| + taken.Of(f) >= 15
    ensures !Bounded(all, floats, taken)
  {
    hide IsFirst;
    AliveNext(all, s, rest, i);
    var f, tagged := i.val in floats, Tagged(Alive(s.active, i.start), s.tags, i.val in floats);
    forall j | j in tagged + {i}
      ensures j in OfClassAt(all, floats, f, i.start)
    {
      if j != i {
        assert j in s.kept && i in rest;
      }
    }
    SubsetSize(tagged + {i}, OfClassAt(all, floats, f, i.start));
  }

  lemma ActiveAt(all: set<Interval>, s: Places, rest: set<Interval>, i: Interval)
    requires PlacesOk(all, s, rest) && IsFirst(rest, i)
    ensures var active := Alive(s.active, i.start); |active| + 1 <= |At(all, i.start)|
  {
    hide IsFirst;
    AliveNext(all, s, rest, i);
    var active := Alive(s.active, i.start);
    forall j | j in active + {i}
      ensures j in At(all, i.start)
    {
      if j != i {
        assert j in s.kept && i in rest;
      }
    }
    SubsetSize(active + {i}, At(all, i.start));
  }

  /** If no more than fourteen intervals overlap anywhere, the scan runs short exactly if at some point the
      values of a class are more than the registers that its arguments leave. */
  lemma {:induction false} FitsScan(all: set<Interval>, floats: set<Value>, taken: Taken, s: Places,
                                    rest: set<Interval>)
    requires PlacesOk(all, s, rest) && Feasible(all) && s.kept + rest == all && OwnTags(s, floats)
    requires Bounded(s.kept, floats, taken)
    ensures Scan(floats, taken, s, rest).Shortage? <==> !Bounded(all, floats, taken)
    decreases rest
  {
    hide PlacesOk, Bounded, IsFirst, Tagged;
    if rest == {} {
      assert s.kept == all;
    } else {
      var i := FirstOf(rest);
      FirstIn(rest);
      PlaceOk(all, floats, taken, s, rest, i);
      ActiveAt(all, s, rest, i);
      assert |At(all, i.start)| <= LIMIT;
      var r := PlaceNext(floats, taken, s, i);
      if r.None? {
        CrowdedHere(all, floats, taken, s, rest, i);
      } else {
        BoundedNext(all, floats, taken, s, rest, i);
        assert s.kept + {i} + (rest - {i}) == s.kept + rest;
        OwnNext(all, floats, taken, s, rest, i);
        FitsScan(all, floats, taken, r.value, rest - {i});
      }
    }
  }

  lemma FirstIn(s: set<Interval>)
    requires s != {}
    ensures FirstOf(s) in s
  {
  }

  lemma OwnNext(all: set<Interval>, floats: set<Value>, taken: Taken, s: Places, rest: set<Interval>, i: Interval)
    requires PlacesOk(all, s, rest) && IsFirst(rest, i) && OwnTags(s, floats) && |Alive(s.active, i.start)| < LIMIT
    ensures var r := PlaceNext(floats, taken, s, i); r.Some? ==> OwnTags(r.value, floats)
  {
    hide Ordered, Tagged, Alive;
    forall j | j in s.kept
      ensures j.val != i.val
    {
      assert i in rest;
    }
  }

  lemma FitsShort(all: set<Interval>, floats: set<Value>, taken: Taken)
    requires IntervalsOk(all) && Feasible(all) && taken.ints <= 15 && taken.floats <= 15
    ensures Outcomes(floats, taken, all).Shortage? <==> !Bounded(all, floats, taken)
  {
    NothingPlaced(all);
    assert NOTHING.kept + all == all;
    forall p, f
      ensures |OfClassAt({}, floats, f, p)| + taken.Of(f) <= 15
    {
      assert OfClassAt({}, floats, f, p) == {};
    }
    FitsScan(all, floats, taken, NOTHING, all);
  }

  // ----- shortage: when all values are of one class -----

  ghost predicate OneClass(all: set<Interval>, floats: set<Value>, f: bool) {
    forall i {:trigger i in all} :: i in all ==> (i.val in floats) == f
  }

  ghost predicate AllTags(tags: map<Value, bool>, f: bool) {
    forall v {:trigger tags[v]} :: v in tags ==> tags[v] == f
  }

  lemma OneClassNext(all: set<Interval>, floats: set<Value>, f: bool, taken: Taken, s: Places, rest: set<Interval>,
                     i: Interval)
    requires PlacesOk(all, s, rest) && IsFirst(rest, i) && OneClass(all, floats, f) && AllTags(s.tags, f)
    ensures var r := PlaceNext(floats, taken, s, i); r.Some? ==> AllTags(r.value.tags, f)
    ensures Tagged(Alive(s.active, i.start), s.tags, f) == Alive(s.active, i.start) && i in all
    ensures (i.val in floats) == f
  {
    hide Ordered, Alive, Next, IntervalsOk, PlacesOk, IsFirst, PlaceNext, AllTags, Tagged;
    AliveNext(all, s, rest, i);
    ActiveTagged(all, s, rest, f, Alive(s.active, i.start));
    TagsNext(floats, taken, s, i, f);
  }

  lemma TagsNext(floats: set<Value>, taken: Taken, s: Places, i: Interval, f: bool)
    requires AllTags(s.tags, f) && (i.val in floats) == f
    ensures var r := PlaceNext(floats, taken, s, i); r.Some? ==> AllTags(r.value.tags, f)
  {
    hide Alive, Tagged, IsLast;
  }

  lemma ActiveTagged(all: set<Interval>, s: Places, rest: set<Interval>, f: bool, active: set<Interval>)
    requires PlacesOk(all, s, rest) && AllTags(s.tags, f) && active <= s.kept
    ensures Tagged(active, s.tags, f) == active
  {
    hide Ordered, IntervalsOk;
  }

  /** A value of the one class that finds no register: at its start there are too many, and spilling has
      not helped because arguments take at least two registers. */
  lemma {:induction false} OneClassNeeds(all: set<Interval>, floats: set<Value>, f: bool, taken: Taken, s: Places,
                                         rest: set<Interval>)
    requires PlacesOk(all, s, rest) && OneClass(all, floats, f) && AllTags(s.tags, f)
    requires Scan(floats, taken, s, rest).Shortage?
    ensures taken.Of(f) >= 2 && exists p :: |At(all, p)| + taken.Of(f) > 15
    decreases rest
  {
    hide PlacesOk, IsFirst, Tagged, OneClass, AllTags, Alive;
    var i := FirstOf(rest);
    PlaceOk(all, floats, taken, s, rest, i);
    OneClassNext(all, floats, f, taken, s, rest, i);
    var r := PlaceNext(floats, taken, s, i);
    if r.None? {
      ActiveAt(all, s, rest, i);
      assert |At(all, i.start)| + taken.Of(f) > 15;
    } else {
      FirstIn(rest);
      OneClassNeeds(all, floats, f, taken, r.value, rest - {i});
    }
  }

  ghost predicate BoundedAll(s: set<Interval>, n: nat) {
    forall p {:trigger At(s, p)} :: |At(s, p)| + n <= 15
  }

  /** With two or more arguments of the class, nothing is spilled before the registers run out. */
  lemma {:induction false} OneClassEnough(all: set<Interval>, floats: set<Value>, f: bool, taken: Taken, s: Places,
                                          rest: set<Interval>)
    requires PlacesOk(all, s, rest) && OneClass(all, floats, f) && AllTags(s.tags, f)
    requires !Scan(floats, taken, s, rest).Shortage?
    requires taken.Of(f) >= 2 && s.kept + rest == all && |s.active| + taken.Of(f) <= 15
    requires BoundedAll(s.kept, taken.Of(f))
    ensures BoundedAll(all, taken.Of(f))
    decreases rest
  {
    hide PlacesOk, IsFirst, Tagged, OneClass, AllTags, Ordered, Next, BoundedAll;
    if rest == {} {
      assert s.kept == all;
    } else {
      var i := FirstOf(rest);
      FirstIn(rest);
      PlaceOk(all, floats, taken, s, rest, i);
      OneClassNext(all, floats, f, taken, s, rest, i);
      AliveNext(all, s, rest, i);
      var active := Alive(s.active, i.start);
      SubsetSize(active, s.active);
      BoundedJoin(s.kept, active, rest, i, taken.Of(f));
      assert s.kept + {i} + (rest - {i}) == s.kept + rest;
      OneClassEnough(all, floats, f, taken, PlaceNext(floats, taken, s, i).value, rest - {i});
    }
  }

  lemma BoundedJoin(kept: set<Interval>, active: set<Interval>, rest: set<Interval>, i: Interval, n: nat)
    requires Ordered(kept, active, rest) && Next(active, rest, i) && BoundedAll(kept, n)
    ensures |active| + n < 15 ==> BoundedAll(kept + {i}, n)
  {
    forall p | |active| + n < 15
      ensures |At(kept + {i}, p)| + n <= 15
    {
      if p.Less(i.start) {
        assert At(kept + {i}, p) <= At(kept, p);
        SubsetSize(At(kept + {i}, p), At(kept, p));
      } else {
        forall j | j in At(kept + {i}, p) && j != i
          ensures j in active
        {
          assert j in kept && i in rest;
        }
        SubsetSize(At(kept + {i}, p), active + {i});
      }
    }
  }

  /** With n registers gone to arguments, spilling or not, some point has too many values. */
  ghost predicate TooMany(all: set<Interval>, n: nat) {
    n >= 2 && exists p :: |At(all, p)| + n > 15
  }

  /** Values of one class, spilled or not: a register is missing exactly if two or more arguments are of the
      class and some point has too many values for the registers they leave. */
  lemma OneClassShort(all: set<Interval>, floats: set<Value>, f: bool, taken: Taken)
    requires IntervalsOk(all) && OneClass(all, floats, f) && taken.Of(f) <= 15
    ensures Outcomes(floats, taken, all).Shortage? <==> TooMany(all, taken.Of(f))
  {
    NothingPlaced(all);
    if Outcomes(floats, taken, all).Shortage? {
      OneClassNeeds(all, floats, f, taken, NOTHING, all);
    } else if taken.Of(f) >= 2 {
      assert NOTHING.kept + all == all;
      forall p
        ensures |At({}, p)| + taken.Of(f) <= 15
      {
        assert At({}, p) == {};
      }
      OneClassEnough(all, floats, f, taken, NOTHING, all);
    }
  }

  /** Then all registers are of that class as well. */
  lemma {:induction false} OneClassTags(all: set<Interval>, floats: set<Value>, f: bool, taken: Taken, s: Places,
                                        rest: set<Interval>)
    requires PlacesOk(all, s, rest) && OneClass(all, floats, f) && AllTags(s.tags, f)
    requires Scan(floats, taken, s, rest).Placed?
    ensures AllTags(Scan(floats, taken, s, rest).tags, f)
    decreases rest
  {
    hide PlacesOk, IsFirst, OneClass, AllTags, PlaceNext;
    if rest != {} {
      var i := FirstOf(rest);
      PlaceOk(all, floats, taken, s, rest, i);
      OneClassNext(all, floats, f, taken, s, rest, i);
      FirstIn(rest);
      OneClassTags(all, floats, f, taken, PlaceNext(floats, taken, s, i).value, rest - {i});
    }
  }

  lemma OneClassRight(all: set<Interval>, floats: set<Value>, f: bool, taken: Taken)
    requires IntervalsOk(all) && OneClass(all, floats, f)
    ensures Outcomes(floats, taken, all).Shortage? || AllTags(Outcomes(floats, taken, all).tags, f)
  {
    NothingPlaced(all);
    if Outcomes(floats, taken, all).Placed? {
      OneClassTags(all, floats, f, taken, NOTHING, all);
    }
  }

  ghost predicate TagsRight(tags: map<Value, bool>, floats: set<Value>) {
    forall v {:trigger tags[v]} :: v in tags ==> tags[v] == (v in floats)
  }

  // ----- crowds -----

  ghost predicate AllOverlap(all: set<Interval>) {
    forall i, j {:trigger i in all, j in all} :: i in all && j in all ==> i.Overlaps(j)
  }

  /** Intervals that overlap pairwise have a point in common. */
  lemma CommonPoint(all: set<Interval>) returns (p: Point)
    requires AllOverlap(all)
    ensures At(all, p) == all
  {
    p := Point(0, 0);
    if all != {} {
      var j := LatestStart(all);
      p := j.start;
      forall i | i in all
        ensures i.Contains(p)
      {
        assert i.Overlaps(j);
      }
    }
  }

  lemma {:induction false} LatestStart(all: set<Interval>) returns (j: Interval)
    requires all != {}
    ensures j in all && forall k {:trigger k in all} :: k in all ==> k.start.AtMost(j.start)
    decreases all
  {
    var i :| i in all;
    j := i;
    if all != {i} {
      var k := LatestStart(all - {i});
      j := if k.start.AtMost(i.start) then i else k;
      forall m | m in all
        ensures m.start.AtMost(j.start)
      {
        assert m != i ==> m in all - {i};
      }
    }
  }

  /** Overlapping values of one class run short exactly if they and at least two arguments of the class are
      more than fifteen. */
  lemma CrowdedShort(all: set<Interval>, floats: set<Value>, f: bool, taken: Taken)
    requires IntervalsOk(all) && OneClass(all, floats, f) && AllOverlap(all) && taken.Of(f) <= 15
    ensures Outcomes(floats, taken, all).Shortage? <==> taken.Of(f) >= 2 && |all| + taken.Of(f) > 15
  {
    hide OneClass, AllOverlap, IntervalsOk;
    OneClassShort(all, floats, f, taken);
    var p := CommonPoint(all);
    if q :| |At(all, q)| + taken.Of(f) > 15 {
      SubsetSize(At(all, q), all);
    }
  }

  /** Fourteen values that are not floats and one that is, x, which starts last but does not end last. */
  ghost predicate MixedCrowd(all: set<Interval>, floats: set<Value>, x: Interval) {
    && |all| == 15 && x in all && (exists k :: k in all && x.end.Less(k.end)) && AllOverlap(all)
    && (forall i {:trigger i in all} :: i in all ==>
         (i.val in floats) == (i == x) && (i != x ==> i.start.Less(x.start)))
  }

  /** The float ends up in an integer register. */
  lemma {:induction false} MixedScan(all: set<Interval>, floats: set<Value>, x: Interval, taken: Taken, s: Places,
                                     rest: set<Interval>)
    requires PlacesOk(all, s, rest) && MixedCrowd(all, floats, x) && taken.ints <= 1
    requires s.active == s.kept && s.kept + rest == all && x in rest && AllTags(s.tags, false)
    ensures var r := Scan(floats, taken, s, rest); r.Placed? && x in r.kept && x.val in r.tags && !r.tags[x.val]
    decreases rest
  {
    hide PlacesOk, MixedCrowd, IsFirst, IsLast, PlaceNext, AllTags;
    var i := FirstOf(rest);
    FirstIn(rest);
    MixedNext(all, floats, x, s, rest, i);
    PlaceOk(all, floats, taken, s, rest, i);
    if i == x {
      MixedSwap(floats, taken, s, x);
      assert rest - {i} == {};
    } else {
      MixedPlace(floats, taken, s, i);
      TagsNext(floats, taken, s, i, false);
      assert s.kept + {i} + (rest - {i}) == s.kept + rest;
      MixedScan(all, floats, x, taken, PlaceNext(floats, taken, s, i).value, rest - {i});
    }
  }

  lemma MixedPlace(floats: set<Value>, taken: Taken, s: Places, i: Interval)
    requires Alive(s.active, i.start) == s.active && |s.active| < 14 && taken.ints <= 1 && i.val !in floats
    ensures PlaceNext(floats, taken, s, i) == Some(Places(s.active + {i}, s.kept + {i}, s.tags[i.val := false]))
  {
    SubsetSize(Tagged(s.active, s.tags, false), s.active);
    hide Tagged, Alive;
  }

  lemma MixedSwap(floats: set<Value>, taken: Taken, s: Places, x: Interval)
    requires Alive(s.active, x.start) == s.active && |s.active| == LIMIT
    requires var y := LastOf(s.active); x.end.Less(y.end) && y.val in s.tags && !s.tags[y.val]
    ensures var r := PlaceNext(floats, taken, s, x);
            r.Some? && x in r.value.kept && r.value.tags == s.tags[x.val := false]
  {
    hide Tagged, Alive, IsLast;
  }

  /** None has ended, and x comes when all others are active. */
  lemma MixedNext(all: set<Interval>, floats: set<Value>, x: Interval, s: Places, rest: set<Interval>, i: Interval)
    requires PlacesOk(all, s, rest) && MixedCrowd(all, floats, x) && IsFirst(rest, i)
    requires s.active == s.kept && s.kept + rest == all && x in rest && AllTags(s.tags, false)
    ensures Alive(s.active, i.start) == s.active && (i.val in floats) == (i == x)
    ensures if i != x then |s.active| < 14
            else
              var y := LastOf(s.active);
              rest == {x} && |s.active| == LIMIT && x.end.Less(y.end) && y.val in s.tags && !s.tags[y.val]
  {
    hide Ordered, IntervalsOk;
    MixedSizes(all, floats, x, s, rest, i);
    forall j | j in s.active
      ensures i.start.AtMost(j.end)
    {
      assert j in all && i in all;
      assert i.Overlaps(j);
    }
    if i == x {
      BeyondLast(all, s.active, x);
    }
  }

  lemma BeyondLast(all: set<Interval>, active: set<Interval>, x: Interval)
    requires active == all - {x} && active != {} && exists k :: k in all && x.end.Less(k.end)
    ensures x.end.Less(LastOf(active).end) && LastOf(active) in active
  {
    var k :| k in all && x.end.Less(k.end);
    assert k in active;
    assert !ActiveLess(LastOf(active), k);
  }

  lemma MixedSizes(all: set<Interval>, floats: set<Value>, x: Interval, s: Places, rest: set<Interval>, i: Interval)
    requires MixedCrowd(all, floats, x) && IsFirst(rest, i) && s.kept + rest == all && s.kept !! rest && x in rest
    ensures if i == x then rest == {x} && |s.kept| == 14 else |s.kept| < 14
  {
    Disjoint(s.kept, rest);
    if i == x {
      forall k | k in rest
        ensures k == x
      {
        assert k in all;
      }
      assert rest == {x};
    } else {
      SubsetSize({i, x}, rest);
    }
  }

  // ----- inputs -----

  function RowAt(v: Value, last: int): Interval {
    Interval(Point(1, v + 1), Point(1, last), v)
  }

  /** n values defined one after the other, and all used in the given line. */
  function Row(n: nat, last: int): (s: set<Interval>)
    ensures forall i {:trigger i in s} :: i in s <==> i.val < n && i == RowAt(i.val, last)
    ensures |s| == n
  {
    if n == 0 then {} else Row(n - 1, last) + {RowAt(n - 1, last)}
  }

  /** A row of integers runs short exactly if there are two or more integer arguments and, with them, more
      than fifteen values: fourteen next to two arguments, for example, or thirteen next to three. */
  lemma RowShort(n: nat, args: nat)
    requires args <= 8
    ensures Outcomes({}, Taken(args, 0), Row(n, n + 1)).Shortage? <==> args >= 2 && n + args > 15
  {
    CrowdedShort(Row(n, n + 1), {}, false, Taken(args, 0));
  }

  /** A float that starts after all values of a row and ends before they do. */
  function ShortFloat(): Interval {
    Interval(Point(1, 15), Point(1, 16), 14)
  }

  /** Fourteen integers and then a short-lived float, which gets an integer register. */
  lemma FloatInIntRegister()
    ensures var r := Outcomes({14}, Taken(0, 0), Row(14, 17) + {ShortFloat()});
            r.Placed? && ShortFloat() in r.kept && 14 in r.tags && !r.tags[14]
  {
    hide Row, MixedCrowd, Scan, Ordered;
    var all, x := Row(14, 17) + {ShortFloat()}, ShortFloat();
    MixedInput(all, x);
    NothingPlaced(all);
    assert NOTHING.kept + all == all;
    MixedScan(all, {14}, x, Taken(0, 0), NOTHING, all);
  }

  lemma MixedInput(all: set<Interval>, x: Interval)
    requires all == Row(14, 17) + {ShortFloat()} && x == ShortFloat()
    ensures IntervalsOk(all) && MixedCrowd(all, {14}, x)
  {
    hide Row;
    assert x !in Row(14, 17);
    assert RowAt(0, 17) in Row(14, 17);
  }
}
