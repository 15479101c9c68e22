/** Where registers come from: a spill passes the register of the interval it drops on to the new one. Who
    takes over from whom depends on the intervals alone, and decides the class of every register. */
module ScanOrigins {
  import opened ScanTheory
  import opened ScanLimits
  import opened Sizes

  // ----- the scan of intervals alone -----

  /** The active and the kept intervals, and for those that took over a register, from whom. */
  datatype Course = Course(active: set<Interval>, kept: set<Interval>, passed: map<Interval, Interval>)

  const START := Course({}, {}, map[])

  ghost function Advance(c: Course, i: Interval): Course {
    var alive := Alive(c.active, i.start);
    if |alive| < LIMIT then Course(alive + {i}, c.kept + {i}, c.passed)
    else
      var x := LastOf(alive);
      if i.end.Less(x.end) then Course(alive - {x} + {i}, c.kept - {x} + {i}, c.passed[i := x])
      else Course(alive, c.kept, c.passed)
  }

  ghost function Finish(c: Course, rest: set<Interval>): Course
    decreases rest
  {
    if rest == {} then c
    else
      var i := FirstOf(rest);
      Finish(Advance(c, i), rest - {i})
  }

  /** The intervals that are never spilled. */
  ghost function Kept(all: set<Interval>): set<Interval> {
    Finish(START, all).kept
  }

  /** From which interval each one that met fourteen others took its register, if it did. */
  ghost function Passed(all: set<Interval>): map<Interval, Interval> {
    Finish(START, all).passed
  }

  ghost function Follow(passed: map<Interval, Interval>, i: Interval): Interval
    decreases passed.Keys
  {
    if i in passed then Follow(passed - {i}, passed[i]) else i
  }

  /** The interval for which the register of i was taken from the pool. */
  ghost function Origin(all: set<Interval>, i: Interval): Interval {
    Follow(Passed(all), i)
  }

  ghost function Earlier(all: set<Interval>, i: Interval): set<Interval> {
    set k | k in all && IntervalLess(k, i)
  }

  /** The intervals with registers when i starts. */
  ghost function ActiveWhen(all: set<Interval>, i: Interval): set<Interval> {
    Alive(Finish(START, Earlier(all, i)).active, i.start)
  }

  ghost function OfOrigin(active: set<Interval>, passed: map<Interval, Interval>, floats: set<Value>,
                          f: bool): set<Interval> {
    set j | j in active && (Follow(passed, j).val in floats) == f
  }

  /** There is a place for one more interval, but no register: fifteen of the class belong to arguments and
      to active intervals whose register goes back to a value of the class. */
  ghost predicate Starving(active: set<Interval>, passed: map<Interval, Interval>, floats: set<Value>, taken: Taken,
                           f: bool) {
    |active| < LIMIT && |OfOrigin(active, passed, floats, f)| + taken.Of(f) >= 15
  }

  ghost predicate Starved(all: set<Interval>, floats: set<Value>, taken: Taken, i: Interval) {
    Starving(ActiveWhen(all, i), Passed(all), floats, taken, i.val in floats)
  }

  /** Every interval of the set has a register that goes back to a value of its own class. */
  ghost predicate SameClass(all: set<Interval>, floats: set<Value>, s: set<Interval>) {
    forall i {:trigger Origin(all, i)} :: i in s ==> ((Origin(all, i).val in floats) <==> (i.val in floats))
  }

  /** Registers only pass between values of one class. */
  ghost predicate WithinClasses(passed: map<Interval, Interval>, floats: set<Value>) {
    forall i {:trigger passed[i]} :: i in passed ==> ((passed[i].val in floats) <==> (i.val in floats))
  }

  // ----- chains -----

  /** Registers are taken over from earlier intervals. */
  ghost predicate Descends(passed: map<Interval, Interval>) {
    forall i {:trigger passed[i]} :: i in passed ==> IntervalLess(passed[i], i)
  }

  lemma DescendsWithout(passed: map<Interval, Interval>, i: Interval)
    requires Descends(passed)
    ensures Descends(passed - {i})
  {
    var less := passed - {i};
    forall j | j in less
      ensures IntervalLess(less[j], j)
    {
      assert less[j] == passed[j];
    }
  }

  lemma LessTrans(i: Interval, j: Interval, k: Interval)
    requires IntervalLess(i, j) && (IntervalLess(j, k) || j == k)
    ensures IntervalLess(i, k) && i != k
  {
  }

  /** A later interval is not met on the way. */
  lemma {:induction false} FollowWithout(passed: map<Interval, Interval>, i: Interval, x: Interval)
    requires Descends(passed) && IntervalLess(x, i)
    ensures Follow(passed - {i}, x) == Follow(passed, x)
    decreases passed.Keys
  {
    if x in passed {
      DescendsWithout(passed, x);
      LessTrans(passed[x], x, i);
      assert passed - {x} - {i} == passed - {i} - {x};
      FollowWithout(passed - {x}, i, passed[x]);
    }
  }

  /** One step along the chain. */
  lemma FollowNext(passed: map<Interval, Interval>, i: Interval)
    requires Descends(passed) && i in passed
    ensures Follow(passed, i) == Follow(passed, passed[i])
  {
    FollowWithout(passed, i, passed[i]);
  }

  /** The chain ends with an earlier interval that took over from none. */
  lemma {:induction false} FollowEnds(passed: map<Interval, Interval>, i: Interval)
    requires Descends(passed)
    ensures var o := Follow(passed, i); o !in passed && (o == i || (o in passed.Values && IntervalLess(o, i)))
    decreases passed.Keys
  {
    if i in passed {
      var x, less := passed[i], passed - {i};
      DescendsWithout(passed, i);
      FollowEnds(less, x);
      var o := Follow(less, x);
      if o != x {
        LessTrans(o, x, i);
        var k :| k in less && less[k] == o;
        assert passed[k] == o;
      } else {
        assert passed[i] == o;
      }
    }
  }

  /** Registers stay within classes exactly if every chain begins in the class it ends in. */
  lemma {:induction false} FollowWithin(passed: map<Interval, Interval>, floats: set<Value>, i: Interval)
    requires Descends(passed) && WithinClasses(passed, floats)
    ensures (Follow(passed, i).val in floats) <==> (i.val in floats)
    decreases passed.Keys
  {
    if i in passed {
      var less := passed - {i};
      DescendsWithout(passed, i);
      forall j | j in less
        ensures (less[j].val in floats) <==> (j.val in floats)
      {
        assert less[j] == passed[j];
      }
      FollowWithin(less, floats, passed[i]);
    }
  }

  // ----- the order of the scan -----

  /** What has been scanned comes before what is still to come. */
  ghost predicate Behind(all: set<Interval>, rest: set<Interval>) {
    IntervalsOk(all) && rest <= all && forall j, k {:trigger IntervalLess(j, k)} :: j in all - rest && k in rest ==>
      IntervalLess(j, k)
  }

  lemma BehindNext(all: set<Interval>, rest: set<Interval>, i: Interval)
    requires Behind(all, rest) && IsFirst(rest, i)
    ensures Behind(all, rest - {i}) && Earlier(rest, i) == {}
    ensures forall k {:trigger IntervalLess(i, k)} :: k in rest && k != i ==> IntervalLess(i, k)
  {
    forall k | k in rest && k != i
      ensures IntervalLess(i, k)
    {
      assert k in all && i in all;
      assert !IntervalLess(k, i);
    }
  }

  lemma FirstEarlier(all: set<Interval>, rest: set<Interval>, i: Interval, k: Interval)
    requires Behind(all, rest) && IsFirst(rest, i) && k in rest && k != i
    ensures Earlier(rest, k) - {i} == Earlier(rest - {i}, k) && Earlier(rest, k) <= all && IsFirst(Earlier(rest, k), i)
  {
    BehindNext(all, rest, i);
    assert IntervalLess(i, k);
  }

  lemma FinishStep(all: set<Interval>, c: Course, rest: set<Interval>, i: Interval)
    requires IntervalsOk(all) && rest <= all && IsFirst(rest, i)
    ensures Finish(c, rest) == Finish(Advance(c, i), rest - {i})
  {
    FirstIs(all, rest, i);
  }

  /** Intervals that have ended may go at any time. */
  lemma FinishExpired(all: set<Interval>, c: Course, rest: set<Interval>, p: Point)
    requires IntervalsOk(all) && rest <= all && forall k {:trigger k in rest} :: k in rest ==> p.AtMost(k.start)
    ensures Finish(c.(active := Alive(c.active, p)), rest).kept == Finish(c, rest).kept
    ensures Finish(c.(active := Alive(c.active, p)), rest).passed == Finish(c, rest).passed
  {
    if rest != {} {
      var i := FirstOf(rest);
      assert Alive(Alive(c.active, p), i.start) == Alive(c.active, i.start);
    }
  }

  /** What was passed on stays so, and only intervals still to come take over registers. */
  lemma {:induction false} FinishKeeps(c: Course, rest: set<Interval>, j: Interval)
    ensures var f := Finish(c, rest).passed; j in c.passed && j !in rest ==> j in f && f[j] == c.passed[j]
    ensures j in Finish(c, rest).passed ==> j in c.passed || j in rest
    decreases rest
  {
    if rest != {} {
      var i := FirstOf(rest);
      FirstIn(rest);
      FinishKeeps(Advance(c, i), rest - {i}, j);
    }
  }

  ghost predicate CourseOk(all: set<Interval>, c: Course, rest: set<Interval>) {
    Behind(all, rest) && c.active <= all - rest && Descends(c.passed) && c.passed.Keys <= all && c.passed.Values <= all
  }

  lemma AdvanceOk(all: set<Interval>, c: Course, rest: set<Interval>, i: Interval)
    requires CourseOk(all, c, rest) && IsFirst(rest, i)
    ensures CourseOk(all, Advance(c, i), rest - {i})
  {
    BehindNext(all, rest, i);
    var alive := Alive(c.active, i.start);
    if |alive| >= LIMIT {
      var x := LastOf(alive);
      LastIn(alive);
      assert x in all - rest;
      var c1 := Advance(c, i);
      forall j | j in c1.passed
        ensures IntervalLess(c1.passed[j], j) && c1.passed[j] in all && j in all
      {
        assert j != i ==> c1.passed[j] == c.passed[j] && c.passed[j] in c.passed.Values;
      }
    }
  }

  lemma {:induction false} FinishOk(all: set<Interval>, c: Course, rest: set<Interval>)
    requires CourseOk(all, c, rest)
    ensures CourseOk(all, Finish(c, rest), {})
    decreases rest
  {
    if rest != {} {
      var i := FirstOf(rest);
      FirstIn(rest);
      AdvanceOk(all, c, rest, i);
      FinishOk(all, Advance(c, i), rest - {i});
    }
  }

  lemma CourseStart(all: set<Interval>)
    requires IntervalsOk(all)
    ensures CourseOk(all, START, all) && Descends(Passed(all))
  {
    FinishOk(all, START, all);
  }

  /** Going back one step, and where that ends: with an interval that did not take over its register. */
  lemma OriginOf(all: set<Interval>, i: Interval)
    requires IntervalsOk(all) && i in all
    ensures Origin(all, i) == if i in Passed(all) then Origin(all, Passed(all)[i]) else i
    ensures Origin(all, i) in all && Origin(all, i) !in Passed(all)
  {
    CourseStart(all);
    FinishOk(all, START, all);
    if i in Passed(all) {
      FollowNext(Passed(all), i);
    }
    FollowEnds(Passed(all), i);
  }

  // ----- the classes of the registers -----

  /** Tags are the classes of the origins; final is what will have been passed on in the end. */
  ghost predicate Traced(all: set<Interval>, tags: map<Value, bool>, floats: set<Value>,
                         final: map<Interval, Interval>) {
    && (forall j {:trigger Follow(final, j)} :: j in all && j.val in tags ==>
         tags[j.val] == (Follow(final, j).val in floats))
    && (forall v {:trigger v in tags} :: v in tags ==> exists j :: j in all && j.val == v)
  }

  /** Both sides of a takeover have tags. */
  ghost predicate BothTagged(c: Course, tags: map<Value, bool>) {
    forall k {:trigger c.passed[k]} :: k in c.passed ==> k.val in tags && c.passed[k].val in tags
  }

  ghost predicate Alike(all: set<Interval>, floats: set<Value>, s: Places, c: Course, rest: set<Interval>) {
    && PlacesOk(all, s, rest) && CourseOk(all, c, rest) && s.active == c.active && s.kept == c.kept
    && Traced(all, s.tags, floats, Finish(c, rest).passed) && BothTagged(c, s.tags)
  }

  /** The active intervals with registers of a class are those whose origin is of the class. */
  lemma TaggedOrigins(all: set<Interval>, tags: map<Value, bool>, floats: set<Value>, final: map<Interval, Interval>,
                      active: set<Interval>, f: bool)
    requires Traced(all, tags, floats, final) && forall j {:trigger j in active} :: j in active ==>
      j in all && j.val in tags
    ensures Tagged(active, tags, f) == OfOrigin(active, final, floats, f)
  {
    hide Follow;
  }

  lemma ActiveTags(all: set<Interval>, s: Places, rest: set<Interval>, i: Interval)
    requires PlacesOk(all, s, rest) && IsFirst(rest, i)
    ensures forall j {:trigger j in Alive(s.active, i.start)} :: j in Alive(s.active, i.start) ==>
      j in all && j.val in s.tags
  {
    hide IsFirst;
    AliveNext(all, s, rest, i);
    forall j | j in Alive(s.active, i.start)
      ensures j in all && j.val in s.tags
    {
      assert j in s.kept;
    }
  }

  /** i is left without a register in one scan if it starves in the other. */
  lemma AlikeStarving(all: set<Interval>, floats: set<Value>, taken: Taken, s: Places, c: Course, rest: set<Interval>,
                      i: Interval)
    requires Alike(all, floats, s, c, rest) && IsFirst(rest, i)
    ensures PlaceNext(floats, taken, s, i).None? <==>
              Starving(Alive(c.active, i.start), Finish(c, rest).passed, floats, taken, i.val in floats)
  {
    hide IsFirst, IsLast, PlacesOk, CourseOk, Traced, BothTagged, Finish, Alive, Tagged, OfOrigin;
    ActiveTags(all, s, rest, i);
    TaggedOrigins(all, s.tags, floats, Finish(c, rest).passed, Alive(c.active, i.start), i.val in floats);
  }

  lemma NewTag(all: set<Interval>, tags: map<Value, bool>, floats: set<Value>, final: map<Interval, Interval>,
               i: Interval, f: bool)
    requires Traced(all, tags, floats, final) && i in all && IntervalsOk(all) && f == (Follow(final, i).val in floats)
    ensures Traced(all, tags[i.val := f], floats, final)
  {
    hide Follow;
    forall j | j in all && j.val in tags[i.val := f]
      ensures tags[i.val := f][j.val] == (Follow(final, j).val in floats)
    {
      assert j.val == i.val ==> j == i;
    }
  }

  /** An interval that is given a register from the pool is its own origin. */
  lemma OwnOrigin(all: set<Interval>, c: Course, rest: set<Interval>, i: Interval)
    requires CourseOk(all, c, rest) && IsFirst(rest, i) && |Alive(c.active, i.start)| < LIMIT && i !in c.passed
    ensures Follow(Finish(c, rest).passed, i) == i
  {
    FinishStep(all, c, rest, i);
    FinishKeeps(Advance(c, i), rest - {i}, i);
  }

  /** One that takes over has the origin of the other. */
  lemma TakenOrigin(all: set<Interval>, c: Course, rest: set<Interval>, i: Interval, x: Interval)
    requires CourseOk(all, c, rest) && IsFirst(rest, i) && |Alive(c.active, i.start)| >= LIMIT
    requires x == LastOf(Alive(c.active, i.start)) && i.end.Less(x.end)
    ensures Follow(Finish(c, rest).passed, i) == Follow(Finish(c, rest).passed, x)
  {
    FinishStep(all, c, rest, i);
    FinishKeeps(Advance(c, i), rest - {i}, i);
    FinishOk(all, c, rest);
    FollowNext(Finish(c, rest).passed, i);
  }

  lemma AlikeNext(all: set<Interval>, floats: set<Value>, taken: Taken, s: Places, c: Course, rest: set<Interval>,
                  i: Interval)
    requires Alike(all, floats, s, c, rest) && IsFirst(rest, i)
    ensures var r := PlaceNext(floats, taken, s, i); r.Some? ==> Alike(all, floats, r.value, Advance(c, i), rest - {i})
  {
    hide PlacesOk, CourseOk, IsFirst, IsLast, Tagged, Finish, Traced, BothTagged, Alive;
    var r := PlaceNext(floats, taken, s, i);
    if r.Some? {
      PlaceOk(all, floats, taken, s, rest, i);
      AdvanceOk(all, c, rest, i);
      CourseFacts(all, c, rest, i);
      FinishStep(all, c, rest, i);
      NextTagged(all, floats, taken, s, c, rest, i);
      NextTraced(all, floats, taken, s, c, rest, i);
      NextSame(all, floats, taken, s, c, rest, i);
    }
  }

  lemma NextSame(all: set<Interval>, floats: set<Value>, taken: Taken, s: Places, c: Course, rest: set<Interval>,
                 i: Interval)
    requires PlacesOk(all, s, rest) && s.active == c.active && s.kept == c.kept && IsFirst(rest, i)
    ensures var r := PlaceNext(floats, taken, s, i);
            r.Some? ==> r.value.active == Advance(c, i).active && r.value.kept == Advance(c, i).kept
  {
    hide PlacesOk, IsFirst, IsLast, Tagged, Alive, IntervalLess, ActiveLess;
    ActiveTags(all, s, rest, i);
    var alive := Alive(s.active, i.start);
    if |alive| >= LIMIT {
      LastIn(alive);
    }
  }

  lemma CourseFacts(all: set<Interval>, c: Course, rest: set<Interval>, i: Interval)
    requires CourseOk(all, c, rest) && IsFirst(rest, i)
    ensures IntervalsOk(all) && rest <= all && i in all && i in rest
  {
  }

  lemma NextTagged(all: set<Interval>, floats: set<Value>, taken: Taken, s: Places, c: Course, rest: set<Interval>,
                   i: Interval)
    requires PlacesOk(all, s, rest) && BothTagged(c, s.tags) && s.active == c.active && IsFirst(rest, i)
    ensures var r := PlaceNext(floats, taken, s, i); r.Some? ==> BothTagged(Advance(c, i), r.value.tags)
  {
    hide PlacesOk, IsFirst, IsLast, Tagged, Alive, IntervalLess, ActiveLess;
    ActiveTags(all, s, rest, i);
    var alive := Alive(s.active, i.start);
    if |alive| >= LIMIT {
      LastIn(alive);
    }
  }

  lemma NextTraced(all: set<Interval>, floats: set<Value>, taken: Taken, s: Places, c: Course, rest: set<Interval>,
                   i: Interval)
    requires PlacesOk(all, s, rest) && CourseOk(all, c, rest) && BothTagged(c, s.tags) && s.active == c.active
    requires IsFirst(rest, i)
    requires Traced(all, s.tags, floats, Finish(c, rest).passed)
    ensures var r := PlaceNext(floats, taken, s, i);
            r.Some? ==> Traced(all, r.value.tags, floats, Finish(c, rest).passed)
  {
    hide PlacesOk, CourseOk, IsFirst, IsLast, Tagged, Finish, Traced, BothTagged, Alive;
    NotPassed(all, s, c, rest, i);
    CourseFacts(all, c, rest, i);
    ActiveTags(all, s, rest, i);
    var alive, final := Alive(s.active, i.start), Finish(c, rest).passed;
    if |alive| < LIMIT {
      OwnOrigin(all, c, rest, i);
      NewTag(all, s.tags, floats, final, i, i.val in floats);
    } else {
      var x := LastOf(alive);
      LastIn(alive);
      if i.end.Less(x.end) {
        TakenOrigin(all, c, rest, i, x);
        TracedAt(all, s.tags, floats, final, x);
        NewTag(all, s.tags, floats, final, i, s.tags[x.val]);
      }
    }
  }

  lemma NotPassed(all: set<Interval>, s: Places, c: Course, rest: set<Interval>, i: Interval)
    requires PlacesOk(all, s, rest) && BothTagged(c, s.tags) && IsFirst(rest, i)
    ensures i !in c.passed
  {
    hide Ordered, IntervalsOk;
  }

  lemma TracedAt(all: set<Interval>, tags: map<Value, bool>, floats: set<Value>, final: map<Interval, Interval>,
                 j: Interval)
    requires Traced(all, tags, floats, final) && j in all && j.val in tags
    ensures tags[j.val] == (Follow(final, j).val in floats)
  {
  }

  // ----- the whole scan -----

  ghost predicate StarvedFrom(c: Course, rest: set<Interval>, final: map<Interval, Interval>, floats: set<Value>,
                              taken: Taken, i: Interval) {
    Starving(Alive(Finish(c, Earlier(rest, i)).active, i.start), final, floats, taken, i.val in floats)
  }

  ghost predicate SomeStarved(c: Course, rest: set<Interval>, final: map<Interval, Interval>, floats: set<Value>,
                              taken: Taken) {
    exists i :: i in rest && StarvedFrom(c, rest, final, floats, taken, i)
  }

  lemma StarvedNext(all: set<Interval>, c: Course, rest: set<Interval>, final: map<Interval, Interval>,
                    floats: set<Value>, taken: Taken, i: Interval)
    requires Behind(all, rest) && IsFirst(rest, i)
    ensures SomeStarved(c, rest, final, floats, taken) <==>
              Starving(Alive(c.active, i.start), final, floats, taken, i.val in floats)
                || SomeStarved(Advance(c, i), rest - {i}, final, floats, taken)
  {
    hide Behind, IsFirst, Starving, Advance;
    BehindFacts(all, rest, i);
    BehindNext(all, rest, i);
    assert Finish(c, Earlier(rest, i)) == c;
    assert StarvedFrom(c, rest, final, floats, taken, i) <==>
      Starving(Alive(c.active, i.start), final, floats, taken, i.val in floats);
    forall k | k in rest && k != i
      ensures StarvedFrom(c, rest, final, floats, taken, k) <==>
        StarvedFrom(Advance(c, i), rest - {i}, final, floats, taken, k)
    {
      FirstEarlier(all, rest, i, k);
      FinishStep(all, c, Earlier(rest, k), i);
    }
  }

  lemma BehindFacts(all: set<Interval>, rest: set<Interval>, i: Interval)
    requires Behind(all, rest) && IsFirst(rest, i)
    ensures IntervalsOk(all) && rest <= all && i in rest
  {
  }

  /** The scan runs short exactly where some interval starves, keeps the same intervals as the scan of
      intervals alone, and gives them registers of the classes of their origins. */
  lemma {:induction false} Foretold(all: set<Interval>, floats: set<Value>, taken: Taken, s: Places, c: Course,
                                    rest: set<Interval>)
    requires Alike(all, floats, s, c, rest)
    ensures var r := Scan(floats, taken, s, rest);
            && (r.Shortage? <==> SomeStarved(c, rest, Finish(c, rest).passed, floats, taken))
            && (r.Placed? ==> Alike(all, floats, Places(Finish(c, rest).active, r.kept, r.tags), Finish(c, rest), {}))
    decreases rest
  {
    hide PlaceNext, Advance, Starving, Alike, StarvedFrom;
    if rest == {} {
      assert Scan(floats, taken, s, rest) == Placed(s.kept, s.tags);
      assert s == Places(c.active, s.kept, s.tags) by {
        AlikeActive(all, floats, s, c, rest);
      }
    } else {
      var i := FirstOf(rest);
      FirstIn(rest);
      AlikeBehind(all, floats, s, c, rest);
      AlikeStarving(all, floats, taken, s, c, rest, i);
      StarvedNext(all, c, rest, Finish(c, rest).passed, floats, taken, i);
      AlikeNext(all, floats, taken, s, c, rest, i);
      var r := PlaceNext(floats, taken, s, i);
      if r.Some? {
        Foretold(all, floats, taken, r.value, Advance(c, i), rest - {i});
      }
    }
  }

  lemma AlikeActive(all: set<Interval>, floats: set<Value>, s: Places, c: Course, rest: set<Interval>)
    requires Alike(all, floats, s, c, rest)
    ensures s.active == c.active
  {
  }

  lemma AlikeBehind(all: set<Interval>, floats: set<Value>, s: Places, c: Course, rest: set<Interval>)
    requires Alike(all, floats, s, c, rest)
    ensures Behind(all, rest)
  {
  }

  lemma AlikeStart(all: set<Interval>, floats: set<Value>)
    requires IntervalsOk(all)
    ensures Alike(all, floats, NOTHING, START, all)
  {
    NothingPlaced(all);
    CourseStart(all);
  }

  /** A register is missing exactly if some interval starves. */
  lemma ShortWhenStarved(all: set<Interval>, floats: set<Value>, taken: Taken)
    requires IntervalsOk(all)
    ensures Outcomes(floats, taken, all).Shortage? <==> AnyStarved(all, floats, taken)
  {
    hide Scan, Finish, Follow, Starving;
    AlikeStart(all, floats);
    Foretold(all, floats, taken, NOTHING, START, all);
    if AnyStarved(all, floats, taken) {
      var i :| i in all && Starved(all, floats, taken, i);
      assert StarvedFrom(START, all, Passed(all), floats, taken, i);
    }
    if SomeStarved(START, all, Passed(all), floats, taken) {
      var i :| i in all && StarvedFrom(START, all, Passed(all), floats, taken, i);
      assert Starved(all, floats, taken, i);
    }
  }

  ghost predicate AnyStarved(all: set<Interval>, floats: set<Value>, taken: Taken) {
    exists i :: i in all && Starved(all, floats, taken, i)
  }

  /** The registers of these intervals are of the classes of their origins. */
  ghost predicate OriginTags(all: set<Interval>, floats: set<Value>, s: set<Interval>, tags: map<Value, bool>) {
    forall i {:trigger Origin(all, i)} :: i in s ==>
      i in all && i.val in tags && tags[i.val] == (Origin(all, i).val in floats)
  }

  /** Which values keep registers, and of which class these are. */
  lemma OriginsDecide(all: set<Interval>, floats: set<Value>, taken: Taken)
    requires IntervalsOk(all)
    ensures var r := Outcomes(floats, taken, all);
            r.Placed? ==> r.kept == Kept(all) && OriginTags(all, floats, Kept(all), r.tags)
  {
    hide Scan, Finish, Follow, Starving, SomeStarved;
    AlikeStart(all, floats);
    Foretold(all, floats, taken, NOTHING, START, all);
    var r := Outcomes(floats, taken, all);
    if r.Placed? {
      EndOf(all, floats, Places(Finish(START, all).active, r.kept, r.tags), Finish(START, all));
    }
  }

  lemma EndOf(all: set<Interval>, floats: set<Value>, s: Places, c: Course)
    requires Alike(all, floats, s, c, {})
    ensures s.kept == c.kept && forall i {:trigger Follow(c.passed, i)} :: i in c.kept ==>
              i in all && i.val in s.tags && s.tags[i.val] == (Follow(c.passed, i).val in floats)
  {
    hide Follow, Ordered, Behind, Descends, IntervalsOk;
  }

  // ----- what is kept -----

  /** Who took over from whom does not matter for what is kept. */
  lemma {:induction false} KeptAnyway(c: Course, passed: map<Interval, Interval>, rest: set<Interval>)
    ensures Finish(c.(passed := passed), rest).kept == Finish(c, rest).kept
    decreases rest
  {
    if rest != {} {
      var i := FirstOf(rest);
      FirstIn(rest);
      var c0 := c.(passed := passed);
      assert Advance(c0, i) == Advance(c, i).(passed := Advance(c0, i).passed);
      KeptAnyway(Advance(c, i), Advance(c0, i).passed, rest - {i});
    }
  }

  /** What will be kept in the end, from here on. */
  ghost function WillKeep(active: set<Interval>, kept: set<Interval>, rest: set<Interval>): set<Interval> {
    Finish(Course(active, kept, map[]), rest).kept
  }

  lemma WillKeepNext(all: set<Interval>, active: set<Interval>, kept: set<Interval>, rest: set<Interval>, i: Interval)
    requires IntervalsOk(all) && rest <= all && IsFirst(rest, i) && Alive(active, i.start) == active
    ensures var c := Advance(Course(active, kept, map[]), i);
            WillKeep(active, kept, rest) == WillKeep(c.active, c.kept, rest - {i})
  {
    hide Alive, IsFirst, IntervalsOk, Advance;
    var c := Advance(Course(active, kept, map[]), i);
    FinishStep(all, Course(active, kept, map[]), rest, i);
    KeptAnyway(c, map[], rest - {i});
  }

  // ----- registers that were right -----

  /** All values that ever had a register, those that lost it included, had one of their own class exactly
      if registers only pass between values of one class. */
  lemma RightClasses(all: set<Interval>, floats: set<Value>, taken: Taken)
    requires IntervalsOk(all) && Outcomes(floats, taken, all).Placed?
    ensures TagsRight(Outcomes(floats, taken, all).tags, floats) <==> WithinClasses(Passed(all), floats)
  {
    AlikeStart(all, floats);
    Foretold(all, floats, taken, NOTHING, START, all);
    hide Scan, Finish, Follow, PlacesOk;
    var c, tags := Finish(START, all), Outcomes(floats, taken, all).tags;
    CourseStart(all);
    FinishOk(all, START, all);
    TagsWithin(all, floats, tags, c);
  }

  lemma TagsWithin(all: set<Interval>, floats: set<Value>, tags: map<Value, bool>, c: Course)
    requires Traced(all, tags, floats, c.passed) && BothTagged(c, tags) && CourseOk(all, c, {})
    ensures TagsRight(tags, floats) <==> WithinClasses(c.passed, floats)
  {
    hide Follow, Behind;
    if TagsRight(tags, floats) {
      forall i | i in c.passed
        ensures (c.passed[i].val in floats) <==> (i.val in floats)
      {
        FollowNext(c.passed, i);
        assert i in all && c.passed[i] in c.passed.Values;
        TracedAt(all, tags, floats, c.passed, i);
        TracedAt(all, tags, floats, c.passed, c.passed[i]);
      }
    }
    if WithinClasses(c.passed, floats) {
      forall v | v in tags
        ensures tags[v] == (v in floats)
      {
        var j :| j in all && j.val == v;
        TracedAt(all, tags, floats, c.passed, j);
        FollowWithin(c.passed, floats, j);
      }
    }
  }

  // ----- a float that gives the integer register back -----

  /** None of s ends before one of part starts. */
  ghost predicate Lasting(s: set<Interval>, part: set<Interval>) {
    forall j, k {:trigger j in s, k in part} :: j in s && k in part ==> k.start.AtMost(j.end)
  }

  ghost predicate Ahead(part: set<Interval>, others: set<Interval>) {
    forall j, k {:trigger IntervalLess(j, k)} :: j in part && k in others ==> IntervalLess(j, k)
  }

  /** As long as none ends and there is a place for all, intervals are simply added. */
  lemma {:induction false} FewAdded(all: set<Interval>, c: Course, part: set<Interval>, rest: set<Interval>)
    requires Behind(all, rest) && part <= rest && c.active !! part && |c.active| + |part| <= LIMIT
    requires Ahead(part, rest - part) && Lasting(c.active + part, part)
    ensures Finish(c, rest) == Finish(Course(c.active + part, c.kept + part, c.passed), rest - part)
    decreases part
  {
    hide Behind, Lasting, Ahead, IsFirst, Alive;
    if part == {} {
      assert c.active + part == c.active && c.kept + part == c.kept && rest - part == rest;
    } else {
      var i := FirstOf(rest);
      FirstIn(rest);
      FirstOfPart(part, rest, i);
      BehindNext(all, rest, i);
      AllAlive(c.active, part, i);
      var less := part - {i};
      assert c.active + {i} + less == c.active + part && c.kept + {i} + less == c.kept + part;
      assert rest - {i} - less == rest - part;
      LastingLess(c.active + part, part, less);
      AheadLess(part, less, rest - part);
      FewAdded(all, Advance(c, i), less, rest - {i});
    }
  }

  lemma AllAlive(active: set<Interval>, part: set<Interval>, i: Interval)
    requires Lasting(active + part, part) && i in part
    ensures Alive(active, i.start) == active
  {
    forall j | j in active
      ensures i.start.AtMost(j.end)
    {
      assert j in active + part;
    }
  }

  lemma LastingLess(s: set<Interval>, part: set<Interval>, less: set<Interval>)
    requires Lasting(s, part) && less <= part
    ensures Lasting(s, less)
  {
    forall j, k | j in s && k in less
      ensures k.start.AtMost(j.end)
    {
      assert k in part;
    }
  }

  lemma AheadLess(part: set<Interval>, less: set<Interval>, others: set<Interval>)
    requires Ahead(part, others) && less <= part
    ensures Ahead(less, others)
  {
  }

  lemma FirstOfPart(part: set<Interval>, rest: set<Interval>, i: Interval)
    requires part != {} && part <= rest && IsFirst(rest, i)
    requires Ahead(part, rest - part)
    ensures i in part
  {
    var j :| j in part;
    assert i in rest - part ==> IntervalLess(j, i);
    assert !IntervalLess(j, i);
  }

  /** One after the other: thirteen integers, one that ends last of all, a float, and one more integer. */
  function Longest(): Interval {
    Interval(Point(1, 14), Point(1, 20), 13)
  }

  function Visitor(): Interval {
    Interval(Point(1, 15), Point(1, 19), 14)
  }

  function Heir(): Interval {
    Interval(Point(1, 16), Point(1, 17), 15)
  }

  /** The float takes over an integer register and passes it on to the last integer: two takeovers between
      the classes, but each interval that is kept has a register of its own class, and none is missing. */
  lemma BackToItsClass(all: set<Interval>, n: nat)
    requires n == 13 && all == Row(n, 18) + {Longest(), Visitor(), Heir()}
    ensures IntervalsOk(all) && Kept(all) == Row(n, 18) + {Heir()}
    ensures Passed(all) == map[Visitor() := Longest(), Heir() := Visitor()]
    ensures !WithinClasses(Passed(all), {14}) && SameClass(all, {14}, Kept(all)) && !AnyStarved(all, {14}, Taken(0, 0))
  {
    hide Row, WithinClasses, SameClass, AnyStarved, IntervalsOk, Longest, Visitor, Heir;
    AllOrdered(all, n);
    BackCourse(all, n);
    NoneStarved(all, {14}, Taken(0, 0));
    BackOrigins(all, n);
  }

  lemma AllOrdered(all: set<Interval>, n: nat)
    requires n == 13 && all == Row(n, 18) + {Longest(), Visitor(), Heir()}
    ensures IntervalsOk(all) && Row(n, 18) <= all && Longest() in all && Visitor() in all && Heir() in all
    ensures var part := Row(n, 18) + {Longest()};
            |part| == 14 && part <= all && all - part == {Visitor(), Heir()} && Ahead(part, {Visitor(), Heir()})
              && Lasting(part, part)
  {
    hide Row, Lasting, Ahead, IntervalsOk;
    var part := Row(n, 18) + {Longest()};
    assert Longest() !in Row(n, 18) && Visitor() !in part && Heir() !in part;
    assert all == part + {Visitor(), Heir()};
    AllNumbered(all, n);
    PartLasting(part, n);
  }

  lemma AllNumbered(all: set<Interval>, n: nat)
    requires n == 13 && all == Row(n, 18) + {Longest(), Visitor(), Heir()}
    ensures IntervalsOk(all)
  {
    hide Row;
  }

  lemma PartLasting(part: set<Interval>, n: nat)
    requires n == 13 && part == Row(n, 18) + {Longest()}
    ensures Ahead(part, {Visitor(), Heir()}) && Lasting(part, part)
  {
    hide Row;
  }

  lemma BackCourse(all: set<Interval>, n: nat)
    requires n == 13 && all == Row(n, 18) + {Longest(), Visitor(), Heir()}
    ensures var s := Row(n, 18) + {Heir()};
            Finish(START, all) == Course(s, s, map[Visitor() := Longest(), Heir() := Visitor()])
  {
    hide Row, Finish, Lasting, Ahead, IntervalsOk, Longest, Visitor, Heir;
    AllOrdered(all, n);
    var part := Row(n, 18) + {Longest()};
    assert Behind(all, all);
    assert {} + part == part;
    FewAdded(all, START, part, all);
    var c := Course(part, part, map[]);
    VisitorComes(all, n, c, part);
    var s := Row(n, 18) + {Visitor()};
    HeirComes(all, n, Course(s, s, map[Visitor() := Longest()]));
  }

  lemma VisitorComes(all: set<Interval>, n: nat, c: Course, part: set<Interval>)
    requires n == 13 && all == Row(n, 18) + {Longest(), Visitor(), Heir()} && IntervalsOk(all)
    requires part == Row(n, 18) + {Longest()} && c == Course(part, part, map[])
    ensures var s := Row(n, 18) + {Visitor()};
            Finish(c, {Visitor(), Heir()}) == Finish(Course(s, s, map[Visitor() := Longest()]), {Heir()})
  {
    hide Row, Finish;
    var i, x := Visitor(), Longest();
    assert IsFirst({Visitor(), Heir()}, i);
    FinishStep(all, c, {Visitor(), Heir()}, i);
    assert {Visitor(), Heir()} - {i} == {Heir()};
    assert Alive(part, i.start) == part;
    LastIs(all, part, x);
    assert part - {x} + {i} == Row(n, 18) + {Visitor()};
  }

  lemma HeirComes(all: set<Interval>, n: nat, c: Course)
    requires n == 13 && all == Row(n, 18) + {Longest(), Visitor(), Heir()} && IntervalsOk(all)
    requires var s := Row(n, 18) + {Visitor()}; c == Course(s, s, map[Visitor() := Longest()])
    ensures var s := Row(n, 18) + {Heir()};
            Finish(c, {Heir()}) == Course(s, s, map[Visitor() := Longest(), Heir() := Visitor()])
  {
    hide Row;
    var i, x := Heir(), Visitor();
    assert IsFirst({Heir()}, i);
    FinishStep(all, c, {Heir()}, i);
    assert {Heir()} - {i} == {};
    assert Alive(c.active, i.start) == c.active;
    LastIs(all, c.active, x);
    assert c.active - {x} + {i} == Row(n, 18) + {Heir()};
    assert |c.active| == 14;
  }

  lemma BackOrigins(all: set<Interval>, n: nat)
    requires n == 13 && IntervalsOk(all) && Heir() in all && Visitor() in all && Row(n, 18) <= all
    requires Kept(all) == Row(n, 18) + {Heir()} && Passed(all) == map[Visitor() := Longest(), Heir() := Visitor()]
    ensures !WithinClasses(Passed(all), {14}) && SameClass(all, {14}, Kept(all))
  {
    hide Row, Kept, Passed, Origin;
    assert Passed(all)[Visitor()] == Longest();
    OriginOf(all, Heir());
    OriginOf(all, Visitor());
    forall i | i in Kept(all)
      ensures (Origin(all, i).val in {14}) <==> (i.val in {14})
    {
      OriginOf(all, i);
    }
  }

  /** With at most one argument of each class no interval starves. */
  lemma NoneStarved(all: set<Interval>, floats: set<Value>, taken: Taken)
    requires taken.ints <= 1 && taken.floats <= 1
    ensures !AnyStarved(all, floats, taken)
  {
    forall i | i in all
      ensures !Starved(all, floats, taken, i)
    {
      SubsetSize(OfOrigin(ActiveWhen(all, i), Passed(all), floats, i.val in floats), ActiveWhen(all, i));
    }
  }
}
