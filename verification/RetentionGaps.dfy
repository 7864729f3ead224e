/** Exactly when a period outlives the watches it rests on, and a run in which it does and a file is deleted. */
module RetentionGaps {
  import opened Basics
  import opened Retention
  import opened RetentionWatch
  import opened RetentionProof
  import opened RetentionHeard
  import opened RetentionRuns

  // ---- When a period is kept ----

  /** How many events of a queue have to wait while trees are walked. */
  function Waiting(queue: seq<Event>, places: map<Id, Place>): nat {
    if queue == [] then 0
    else
      var front, e := Waiting(queue[..|queue| - 1], places), queue[|queue| - 1];
      if e.root in places
         && (DeleteSelf in e.mask || MoveSelf in e.mask || Ignored in e.mask
             || (IsDir in e.mask && (Create in e.mask || MovedFrom in e.mask || MovedTo in e.mask || Delete in e.mask)))
      then front + 1 else front
  }

  /** No event of the queue reports a loss. */
  predicate AllTold(queue: seq<Event>) {
    forall e :: e in queue ==> Overflow !in e.mask
  }

  lemma AllToldBoth(p: seq<Event>, q: seq<Event>)
    ensures AllTold(p + q) <==> AllTold(p) && AllTold(q)
  {
    assert forall e :: e in p + q <==> e in p || e in q;
  }

  /** No event of the queue reports a loss, and with `n` waiting there is room for those that have to wait. */
  predicate Lossless(n: nat, queue: seq<Event>, places: map<Id, Place>) {
    && AllTold(queue)
    && (Waiting(queue, places) == 0 || n + Waiting(queue, places) <= 65536)
  }

  lemma {:induction false} WaitingBoth(p: seq<Event>, q: seq<Event>, places: map<Id, Place>)
    ensures Waiting(p + q, places) == Waiting(p, places) + Waiting(q, places)
    decreases |q|
  {
    if q == [] {
      assert p + q == p;
    } else {
      WaitingBoth(p, q[..|q| - 1], places);
      assert (p + q)[..|p + q| - 1] == p + q[..|q| - 1];
    }
  }

  lemma LosslessBoth(n: nat, p: seq<Event>, q: seq<Event>, places: map<Id, Place>)
    ensures Lossless(n, p + q, places) <==> Lossless(n, p, places) && Lossless(n + Waiting(p, places), q, places)
  {
    WaitingBoth(p, q, places);
    AllToldBoth(p, q);
  }

  /** Either nothing was lost and the root's row is as it was, or the root has lost its period. */
  ghost predicate Outcome(b: Books, c: Books, key: Id, queue: seq<Event>, places: map<Id, Place>) {
    && key in b.roots && key in c.roots
    && if Lossless(|b.deferred|, queue, places) then
         c.roots[key] == b.roots[key] && |c.deferred| == |b.deferred| + Waiting(queue, places)
       else c.roots[key] == b.roots[key].Reset()
  }

  lemma OutcomeBoth(b: Books, c: Books, d: Books, key: Id, p: seq<Event>, q: seq<Event>, places: map<Id, Place>)
    requires Outcome(b, c, key, p, places) && Outcome(c, d, key, q, places)
    ensures Outcome(b, d, key, p + q, places)
  {
    LosslessBoth(|b.deferred|, p, q, places);
    WaitingBoth(p, q, places);
  }

  lemma PutOffOutcome(b: Books, e: Event, key: Id, places: map<Id, Place>, now: int)
    requires key in b.roots
    ensures Outcome(b, PutOff(b, e, places, now), key, [e], places)
  {
    assert Waiting([e], places) == (if e.root in places && Topology(e.mask) then 1 else 0) by {
      assert [e][..0] == [];
    }
    assert e in [e];
  }

  lemma {:induction false} PutOffAllOutcome(b: Books, key: Id, queue: seq<Event>, places: map<Id, Place>, now: int)
    requires key in b.roots
    ensures Outcome(b, PutOffAll(b, queue, places, now), key, queue, places)
    decreases |queue|
  {
    if queue != [] {
      var front, e := queue[..|queue| - 1], queue[|queue| - 1];
      var before := PutOffAll(b, front, places, now);
      PutOffAllOutcome(b, key, front, places, now);
      PutOffOutcome(before, e, key, places, now);
      OutcomeBoth(b, before, PutOff(before, e, places, now), key, front, [e], places);
      assert front + [e] == queue;
    }
  }

  lemma ProgressedOutcome(b: Books, key: Id, now: int, events: seq<Event>, places: map<Id, Place>)
    requires places.Keys <= b.roots.Keys && key in b.roots
    ensures Outcome(b, Progressed(b, now, events, places), key, events, places)
  {
    PutOffAllOutcome(b.(heard := b.heard + HeardOf(events, places, now)), key, events, places, now);
  }

  /** The admission is made of a root whose watched paths are as they were, there is something to watch, the
      watches can be had, and no event is lost meanwhile. */
  predicate Outlives(b: Books, a: Admission, places: map<Id, Place>)
    requires a.key in b.roots
  {
    && a.key in b.signatures && b.signatures[a.key] == a.signature && CanBeWatched(b, a, places)
    && Lossless(|b.deferred|, a.removal + (if a.over then a.early + a.progress else a.progress), places)
  }

  /** There is something to watch, and the walk is complete: at once, or after fast roots gave up their watches to an
      archived one. */
  predicate CanBeWatched(b: Books, a: Admission, places: map<Id, Place>)
    requires a.key in b.roots
  {
    && a.key in places && places[a.key].boundaries != [] && a.complete
    && (a.over ==> b.roots[a.key].hdd && exists v :: v in a.victims && v in b.roots && !b.roots[v].hdd)
  }

  lemma VictimsExactly(b: Books, a: Admission)
    ensures VictimsOf(b, a) != {} <==> exists v :: v in a.victims && v in b.roots && !b.roots[v].hdd
  {
    if exists v :: v in a.victims && v in b.roots && !b.roots[v].hdd {
      var v :| v in a.victims && v in b.roots && !b.roots[v].hdd;
      assert v in VictimsOf(b, a);
    }
  }

  /** The root has the period it had. */
  predicate PeriodKept(b: Books, c: Books, key: Id) {
    key in b.roots && key in c.roots && c.roots[key].Covered() && c.roots[key].since == b.roots[key].since
  }

  /** Where an admission stands once these events have been read: nothing has been lost and the root has its
      period, or it has none. */
  ghost predicate Standing(b: Books, c: Books, a: Admission, read: seq<Event>, places: map<Id, Place>) {
    && a.key in b.roots && c.roots.Keys == b.roots.Keys && c.roots[a.key].hdd == b.roots[a.key].hdd
    && if Same(b, a) && Lossless(|b.deferred|, read, places) then
         c.roots[a.key].since == b.roots[a.key].since && |c.deferred| == |b.deferred| + Waiting(read, places)
       else c.roots[a.key].since == 0
  }

  lemma RemovedStands(b: Books, a: Admission, places: map<Id, Place>)
    requires a.key in b.roots && places.Keys <= b.roots.Keys
    ensures Standing(b, Removed(b, a, places), a, a.removal, places)
  {
    ProgressedOutcome(b.(rebuild := b.rebuild - {a.key}), a.key, a.at, a.removal, places);
  }

  lemma ProgressedStands(b: Books, c: Books, a: Admission, read: seq<Event>, more: seq<Event>, places: map<Id, Place>)
    requires Standing(b, c, a, read, places) && places.Keys <= b.roots.Keys
    ensures Standing(b, Progressed(c, a.at, more, places), a, read + more, places)
  {
    ProgressedOutcome(c, a.key, a.at, more, places);
    LosslessBoth(|b.deferred|, read, more, places);
    WaitingBoth(read, more, places);
  }

  lemma WalkedKeeps(b: Books, c: Books, a: Admission, read: seq<Event>, places: map<Id, Place>)
    requires Standing(b, c, a, read, places) && places.Keys <= b.roots.Keys && b.roots[a.key].Covered() && b.roots[a.key].since < a.at
    ensures PeriodKept(b, Walked(c, a, places), a.key)
       <==> a.complete && Same(b, a) && Lossless(|b.deferred|, read + a.progress, places)
  {
    ProgressedStands(b, c, a, read, a.progress, places);
  }

  lemma WithLessKeeps(b: Books, c: Books, a: Admission, read: seq<Event>, places: map<Id, Place>, rows: map<Id, Row>)
    requires Standing(b, c, a, read, places) && places.Keys <= b.roots.Keys && b.roots[a.key].Covered() && b.roots[a.key].since < a.at
    requires VictimsOf(c, a) == VictimsOf(b, a)
    ensures PeriodKept(b, WatchedWithLess(c, a, places, rows), a.key)
       <==> b.roots[a.key].hdd && VictimsOf(b, a) != {}
            && a.complete && Same(b, a) && Lossless(|b.deferred|, read + a.progress, places)
  {
    var victims := VictimsOf(c, a);
    if b.roots[a.key].hdd && victims != {} {
      assert a.key !in victims;
      WalkedKeeps(b, Yielded(c, victims, a.key, rows, a.at), a, read, places);
    }
  }

  lemma RewatchedKeeps(b: Books, c: Books, a: Admission, places: map<Id, Place>, rows: map<Id, Row>)
    requires Standing(b, c, a, a.removal, places) && SameKinds(b, c) && places.Keys <= b.roots.Keys
    requires b.roots[a.key].Covered() && b.roots[a.key].since < a.at
    ensures PeriodKept(b, Rewatched(c, a, places, rows), a.key)
       <==> a.complete && Same(b, a) && (a.over ==> b.roots[a.key].hdd && VictimsOf(b, a) != {})
            && Lossless(|b.deferred|, a.removal + WalkReads(b, a), places)
  {
    if a.over {
      var e := Progressed(c, a.at, a.early, places);
      ProgressedStands(b, c, a, a.removal, a.early, places);
      ConsumedReads(c, a.at, a.early, places, true);
      SameVictims(b, e, a);
      WithLessKeeps(b, e, a, a.removal + a.early, places, rows);
      assert a.removal + (a.early + a.progress) == a.removal + a.early + a.progress;
    } else {
      WalkedKeeps(b, c, a, a.removal, places);
    }
  }

  /** Something has to be done for the root: its watched paths are new or changed, or it is to be walked again. */
  predicate Reconsidered(b: Books, a: Admission) {
    a.key !in b.signatures || b.signatures[a.key] != a.signature || a.key in b.rebuild
  }

  lemma OutlivesExactly(b: Books, a: Admission, places: map<Id, Place>)
    requires a.key in b.roots
    ensures Outlives(b, a, places) <==>
      && Same(b, a) && Watchable(a.key, places) && a.complete && (a.over ==> b.roots[a.key].hdd && VictimsOf(b, a) != {})
      && Lossless(|b.deferred|, a.removal + WalkReads(b, a), places)
  {
    VictimsExactly(b, a);
  }

  /** A root that is walked again keeps its period, although its watches were away, exactly under the conditions
      of `Outlives`. */
  lemma KeptExactly(b: Books, a: Admission, places: map<Id, Place>, rows: map<Id, Row>)
    requires a.key in b.roots && places.Keys <= b.roots.Keys && Reconsidered(b, a)
    requires b.roots[a.key].Covered() && b.roots[a.key].since < a.at
    ensures PeriodKept(b, Admitted(b, a, places, rows), a.key) <==> Outlives(b, a, places)
  {
    OutlivesExactly(b, a, places);
    RemovedStands(b, a, places);
    RemovedReads(b, a, places);
    if Watchable(a.key, places) {
      RewatchedKeeps(b, Removed(b, a, places), a, places, rows);
    }
  }

  /** The row is covered or not, and a covered one has a new period or the one it had. */
  predicate CoversIf(was: Row, row: Row, at: int, covered: bool) {
    row.coverage == covered && if covered then row.since == at || row.since == was.since else row.since == 0
  }

  lemma CoversAgain(first: Row, second: Row, row: Row, at: int, covered: bool)
    requires CoversIf(second, row, at, covered) && (second.since == first.since || second.since == 0)
    requires covered && second.since == 0 ==> row.since == at
    ensures CoversIf(first, row, at, covered)
  {
  }

  /** A reconsidered root is covered afterwards exactly when it can be watched, whatever it was before and whatever is
      lost meanwhile; its period is the one it had or begins now. */
  lemma CoveredExactly(b: Books, a: Admission, places: map<Id, Place>, rows: map<Id, Row>)
    requires a.key in b.roots && places.Keys <= b.roots.Keys && Reconsidered(b, a) && a.at != 0
    ensures CoversIf(b.roots[a.key], Admitted(b, a, places, rows).roots[a.key], a.at, CanBeWatched(b, a, places))
  {
    var p := Removed(b, a, places);
    VictimsExactly(b, a);
    RemovedFades(b, a, places);
    AdmittedRow(b, a, places, rows);
    if Watchable(a.key, places) {
      RemovedReads(b, a, places);
      SameVictims(b, p, a);
      RewatchedCovers(p, a, places, rows);
      CoversAgain(b.roots[a.key], p.roots[a.key], Rewatched(p, a, places, rows).roots[a.key], a.at, CanBeWatched(b, a, places));
    }
  }

  lemma AdmittedRow(b: Books, a: Admission, places: map<Id, Place>, rows: map<Id, Row>)
    requires a.key in b.roots && places.Keys <= b.roots.Keys && Reconsidered(b, a)
    ensures var row := Admitted(b, a, places, rows).roots[a.key];
      if Watchable(a.key, places) then row == Rewatched(Removed(b, a, places), a, places, rows).roots[a.key]
      else !row.coverage && row.since == 0
  {
  }

  lemma RemovedFades(b: Books, a: Admission, places: map<Id, Place>)
    requires a.key in b.roots && places.Keys <= b.roots.Keys
    ensures RowsFade(b.roots, Removed(b, a, places).roots)
  {
    ConsumedLater(b.(rebuild := b.rebuild - {a.key}), a.at, a.removal, places);
  }

  /** What becomes of the root when its trees are walked. */
  ghost predicate Covering(b: Books, c: Books, a: Admission, covered: bool) {
    && a.key in b.roots && a.key in c.roots && CoversIf(b.roots[a.key], c.roots[a.key], a.at, covered)
    && (covered && b.roots[a.key].since == 0 ==> c.roots[a.key].since == a.at)
  }

  lemma WalkedCovers(b: Books, a: Admission, places: map<Id, Place>)
    requires a.key in b.roots && places.Keys <= b.roots.Keys
    ensures Covering(b, Walked(b, a, places), a, a.complete)
  {
    ConsumedLater(b, a.at, a.progress, places);
    var p := Progressed(b, a.at, a.progress, places);
    assert p.roots[a.key] == b.roots[a.key] || p.roots[a.key] == b.roots[a.key].Reset();
  }

  lemma WithLessCovers(b: Books, a: Admission, places: map<Id, Place>, rows: map<Id, Row>)
    requires a.key in b.roots && places.Keys <= b.roots.Keys
    ensures Covering(b, WatchedWithLess(b, a, places, rows), a, a.complete && b.roots[a.key].hdd && VictimsOf(b, a) != {})
  {
    if b.roots[a.key].hdd && VictimsOf(b, a) != {} {
      YieldedSpares(b, a, rows);
      WalkedCovers(Yielded(b, VictimsOf(b, a), a.key, rows, a.at), a, places);
    }
  }

  lemma YieldedSpares(b: Books, a: Admission, rows: map<Id, Row>)
    requires a.key in b.roots && b.roots[a.key].hdd
    ensures Yielded(b, VictimsOf(b, a), a.key, rows, a.at).roots[a.key] == b.roots[a.key]
  {
  }

  lemma RewatchedCovers(b: Books, a: Admission, places: map<Id, Place>, rows: map<Id, Row>)
    requires a.key in b.roots && places.Keys <= b.roots.Keys
    ensures Covering(b, Rewatched(b, a, places, rows), a, a.complete && (a.over ==> b.roots[a.key].hdd && VictimsOf(b, a) != {}))
  {
    if a.over {
      var e := Progressed(b, a.at, a.early, places);
      ConsumedReads(b, a.at, a.early, places, true);
      ConsumedLater(b, a.at, a.early, places);
      SameVictims(b, e, a);
      assert e.roots[a.key] == b.roots[a.key] || e.roots[a.key] == b.roots[a.key].Reset();
      WithLessCovers(e, a, places, rows);
    } else {
      WalkedCovers(b, a, places);
    }
  }

  // ---- A run ----

  /** Root 0 is archived at `b`; `b/x` and `b/y/z` are watched below it. */
  function Trees(): map<Id, Place> {
    map[0 := Place(["b"], [["b", "x"], ["b", "y", "z"]])]
  }

  /** The directory `b/y`, above a watched one, is renamed and renamed back. */
  function Away(): Event {
    Event(0, Some(["b", "y"]), {MovedFrom, IsDir}, false)
  }

  function Back(): Event {
    Event(0, Some(["b", "y"]), {MovedTo, IsDir}, false)
  }

  function Again(at: int): Admission {
    Admission(0, at, 7, [], false, [], {}, [], true)
  }

  /** A file below the other watched directory, found unchanged after the barrier. */
  function Idle(): Found {
    Found(0, ["x", "f"], 5, 0, 1, true)
  }

  function Sweep(now: int): Collection {
    Collection(now, [Idle()], 1, 1, false, (i: nat) => Revisit(false, [], now, true, Some(5)))
  }

  function Adopted(): Step {
    Registering(0, true)
  }

  function First(): Step {
    Going(Round(Trees(), [Again(1)], 1, [Away(), Back()], None))
  }

  function Second(): Step {
    Going(Round(Trees(), [Again(2)], 2, [], None))
  }

  function Last(window: int): Step {
    Going(Round(Trees(), [], window + 1, [], Some(Sweep(window + 1))))
  }

  /** Adoption; a first admission, after which the directory goes and comes back; the same admission again; and
      a collection when the period has lasted for the window. */
  function Renaming(window: int): seq<Step> {
    [Adopted(), First(), Second(), Last(window)]
  }

  lemma NothingRead(b: Books, now: int, places: map<Id, Place>)
    requires places.Keys <= b.roots.Keys
    ensures Progressed(b, now, [], places) == b.(heartbeat := now)
    ensures b.deferred == [] ==> Consumed(b, now, [], places, false) == b
  {
    assert b.heard + HeardOf([], places, now) == b.heard;
    assert RecordedAll(b, {}, now).activity == b.activity;
  }

  /** An admission during which nothing is read. */
  lemma AdmittedAgain(b: Books, at: int, rows: map<Id, Row>)
    requires 0 in b.roots && (0 in b.signatures ==> b.signatures[0] == 7) && !Settled(b, 0, 7)
    requires 0 !in b.signatures ==> b.roots[0].since == 0
    ensures var c, since := Admitted(b, Again(at), Trees(), rows), b.roots[0].since;
      && c.roots == b.roots[0 := b.roots[0].(coverage := true, since := if since == 0 then at else since)]
      && c.rebuild == b.rebuild - {0} && c.signatures == b.signatures[0 := 7] && c.missed == b.missed[0 := at]
      && c.kept == (if since == 0 then b.kept - {0} else b.kept + {0})
      && c.activity == b.activity && c.deferred == b.deferred && c.heard == b.heard && c.deletions == b.deletions
  {
    var a, begun := Again(at), b.(rebuild := b.rebuild - {0});
    NothingRead(begun, at, Trees());
    var p := Removed(b, a, Trees());
    NothingRead(p, at, Trees());
    assert Watchable(0, Trees());
  }

  /** The books after the first admission. */
  ghost predicate JustAdmitted(b: Books) {
    && b.roots == map[0 := Row(true, true, 1)] && b.activity == map[]
    && b.deferred == [] && b.rebuild == {} && b.signatures == map[0 := 7] && b.heard == [] && b.deletions == []
  }

  /** The books after the first admission and the renaming. */
  ghost predicate AfterFirst(b: Books) {
    && b.roots == map[0 := Row(true, true, 1)] && b.activity == map[(0, ["y"]) := 1]
    && b.deferred == [] && b.rebuild == {0} && b.signatures == map[0 := 7] && |b.heard| == 2 && b.deletions == []
  }

  /** The books after the second admission. */
  ghost predicate AfterSecond(b: Books) {
    && b.roots == map[0 := Row(true, true, 1)] && b.activity == map[(0, ["y"]) := 1] && b.deferred == []
    && 0 in b.missed && b.missed[0] == 2 && 0 in b.kept && |b.heard| == 2 && b.deletions == []
  }

  lemma TwoHandled(b: Books, e: Event, f: Event, places: map<Id, Place>, now: int)
    requires places.Keys <= b.roots.Keys
    ensures HandledAll(b, [e, f], places, now) == Handled(Handled(b, e, places, now), f, places, now)
    ensures TouchedAll([e, f], places, false) == TouchedBy(e, places) + TouchedBy(f, places)
  {
    assert [e, f][..1] == [e] && [e][..0] == [];
    assert HandledAll(b, [e], places, now) == Handled(b, e, places, now);
    assert TouchedAll([e], places, false) == TouchedBy(e, places);
  }

  lemma RenamedAbove(path: Path)
    requires path == ["b", "y"]
    ensures var place := Trees()[0];
      Within(path, place.base) && path[|place.base|..] == ["y"] && !InBoundary(place, path) && AboveBoundary(place, path)
  {
    var place := Trees()[0];
    assert place.boundaries[0][1] == "x" && path[1] == "y";
    assert Within(place.boundaries[1], path);
  }

  lemma RenamingHandled(b: Books)
    requires 0 in b.roots
    ensures Handled(b, Away(), Trees(), 1) == b
    ensures Handled(b, Back(), Trees(), 1) == Noted(b, 0, ["y"], 1).(rebuild := b.rebuild + {0})
  {
    RenamedAbove(["b", "y"]);
  }

  lemma DrainRenaming(b: Books)
    requires JustAdmitted(b)
    ensures AfterFirst(Consumed(b, 1, [Away(), Back()], Trees(), false))
  {
    var h, queue := b.(heard := b.heard + HeardOf([Away(), Back()], Trees(), 1)), [Away(), Back()];
    assert b.deferred + queue == queue;
    TwoHandled(h, Away(), Back(), Trees(), 1);
    RenamingHandled(h);
    assert TouchedAll(queue, Trees(), false) == {};
  }

  /** A round with one admission and no collection. */
  lemma RoundOfOne(b: Books, at: int, events: seq<Event>, window: int)
    requires b.roots.Keys == {0}
    ensures Rounded(b, Round(Trees(), [Again(at)], at, events, None), window)
         == Consumed(Admitted(b, Again(at), Trees(), b.roots), at, events, Trees(), false).(heartbeat := at)
  {
    var places, all := KnownPlaces(Trees(), b), [Again(at)];
    assert places == Trees() && all[..0] == [] && AdmittedAll(b, all[..0], places, b.roots) == b;
  }

  lemma FirstAdmitted(b: Books, rows: map<Id, Row>)
    requires b == Registered(NoBooks, 0, true)
    ensures JustAdmitted(Admitted(b, Again(1), Trees(), rows))
  {
    AdmittedAgain(b, 1, rows);
  }

  lemma FirstRound(b: Books, window: int)
    requires b == Registered(NoBooks, 0, true)
    ensures AfterFirst(Stepped(b, First(), window))
  {
    RoundOfOne(b, 1, [Away(), Back()], window);
    FirstAdmitted(b, b.roots);
    DrainRenaming(Admitted(b, Again(1), Trees(), b.roots));
  }

  lemma SecondAdmitted(b: Books, rows: map<Id, Row>)
    requires AfterFirst(b)
    ensures AfterSecond(Admitted(b, Again(2), Trees(), rows))
  {
    AdmittedAgain(b, 2, rows);
  }

  lemma SecondRound(b: Books, window: int)
    requires AfterFirst(b)
    ensures AfterSecond(Stepped(b, Second(), window))
  {
    RoundOfOne(b, 2, [], window);
    SecondAdmitted(b, b.roots);
    NothingRead(Admitted(b, Again(2), Trees(), b.roots), 2, Trees());
  }

  /** Nothing that was recorded lies on the file's line. */
  lemma IdleQuiet(b: Books, f: Found, window: int)
    requires AfterSecond(b) && f == Idle()
    ensures Quiet(b.activity, b.roots[0], 0, f.rel, 0, window + 1, window)
  {
    assert f.rel[..0] == [] && f.rel[..1] == ["x"] && f.rel[..2] == ["x", "f"];
    assert (0, f.rel[..0]) !in b.activity && (0, f.rel[..1]) !in b.activity && (0, f.rel[..2]) !in b.activity;
    assert Latest(b.activity, 0, f.rel, 0) == 0 && Latest(b.activity, 0, f.rel, 1) == 0 && Latest(b.activity, 0, f.rel, 2) == 0;
  }

  lemma SweepPicks(b: Books, g: Collection, window: int)
    requires AfterSecond(b) && 1 < window && g == Sweep(window + 1)
    ensures CandidatesOf(b, g, window) == [Idle()]
  {
    IdleQuiet(b, Idle(), window);
    assert Looks(b, g.listing[0], g.now, window);
    assert PickedFrom(b, g, 1, 1, window) == [];
    assert PickedFrom(b, g, 0, 0, window) == [Idle()];
  }

  lemma SweepDeletes(b: Books, g: Collection, window: int)
    requires AfterSecond(b) && 1 < window && b.heartbeat == window + 1 && g == Sweep(window + 1)
    ensures Collected(b, g, Trees(), window).deletions == [Deletion(0, ["x", "f"], window + 1, 1, 0, 2, 2, true)]
  {
    var begun, files := b.(collected := g.now), CandidatesOf(b, g, window);
    SweepPicks(b, g, window);
    IdleQuiet(begun, Idle(), window);
    NothingRead(begun, g.now, Trees());
    assert TryAll(begun, files, g.now, g.revisits, Trees(), window, 0) == Tried(begun, true);
    assert TryAll(begun, files, g.now, g.revisits, Trees(), window, 1) == Try(begun, Idle(), g.now, g.revisits(0), Trees(), window);
  }

  lemma LastRound(b: Books, window: int)
    requires AfterSecond(b) && 1 < window
    ensures Stepped(b, Last(window), window).deletions == [Deletion(0, ["x", "f"], window + 1, 1, 0, 2, 2, true)]
  {
    assert KnownPlaces(Trees(), b) == Trees();
    NothingRead(b, window + 1, Trees());
    SweepDeletes(b.(heartbeat := window + 1), Sweep(window + 1), window);
  }

  /** The books after steps each taken by `took`. */
  ghost function RunBy(took: (Books, Step) -> Books, steps: seq<Step>): Books {
    if steps == [] then NoBooks else took(RunBy(took, steps[..|steps| - 1]), steps[|steps| - 1])
  }

  ghost function Taking(window: int): (Books, Step) -> Books {
    (b: Books, step: Step) => Stepped(b, step, window)
  }

  lemma {:induction false} RunTaking(steps: seq<Step>, window: int)
    ensures RunOf(steps, window) == RunBy(Taking(window), steps)
    decreases |steps|
  {
    if steps != [] {
      RunTaking(steps[..|steps| - 1], window);
    }
  }

  lemma RunByNext(took: (Books, Step) -> Books, front: seq<Step>, step: Step)
    ensures RunBy(took, front + [step]) == took(RunBy(took, front), step)
  {
    assert (front + [step])[..|front|] == front;
  }

  /** A run of four steps through these books. */
  lemma RunOfFour(took: (Books, Step) -> Books, s0: Step, s1: Step, s2: Step, s3: Step, one: Books, two: Books, three: Books)
    requires took(NoBooks, s0) == one && took(one, s1) == two && took(two, s2) == three
    ensures RunBy(took, [s0, s1, s2, s3]) == took(three, s3)
  {
    var first := [s0];
    assert [] + [s0] == first;
    RunByNext(took, [], s0);
    RunByNext(took, first, s1);
    RunByNext(took, first + [s1], s2);
    RunByNext(took, first + [s1] + [s2], s3);
    assert first + [s1] + [s2] + [s3] == [s0, s1, s2, s3];
  }

  lemma TimelyNext(front: seq<Step>, step: Step, start: int)
    requires Timely(front, start) && Forward(step, ClockOf(front, start))
    ensures Timely(front + [step], start) && ClockOf(front + [step], start) == ClockAfter(step, ClockOf(front, start))
  {
    assert (front + [step])[..|front|] == front;
  }

  lemma TimelyFour(s0: Step, s1: Step, s2: Step, s3: Step, start: int)
    requires Forward(s0, start) && Forward(s1, ClockAfter(s0, start)) && Forward(s2, ClockAfter(s1, ClockAfter(s0, start)))
    requires Forward(s3, ClockAfter(s2, ClockAfter(s1, ClockAfter(s0, start))))
    ensures Timely([s0, s1, s2, s3], start)
  {
    var first := [] + [s0];
    TimelyNext([], s0, start);
    TimelyNext(first, s1, start);
    TimelyNext(first + [s1], s2, start);
    TimelyNext(first + [s1] + [s2], s3, start);
    assert first + [s1] + [s2] + [s3] == [s0, s1, s2, s3];
  }

  lemma RenamingInTime(window: int)
    requires 1 < window
    ensures Forward(Adopted(), 1) && ClockAfter(Adopted(), 1) == 1 && Forward(First(), 1) && ClockAfter(First(), 1) == 1
    ensures Forward(Second(), 1) && ClockAfter(Second(), 1) == 2 && Forward(Last(window), 2)
  {
  }

  lemma RenamingRun(window: int)
    requires 1 < window
    ensures Timely(Renaming(window), 1)
    ensures RunOf(Renaming(window), window).deletions == [Deletion(0, ["x", "f"], window + 1, 1, 0, 2, 2, true)]
  {
    var one := Registered(NoBooks, 0, true);
    var two := Stepped(one, First(), window);
    var three := Stepped(two, Second(), window);
    RenamingInTime(window);
    FirstRound(one, window);
    SecondRound(two, window);
    LastRound(three, window);
    TimelyFour(Adopted(), First(), Second(), Last(window), 1);
    RunTaking(Renaming(window), window);
    RunOfFour(Taking(window), Adopted(), First(), Second(), Last(window), one, two, three);
  }

  /** In a run of a new watcher with any retention period a file is deleted although, within that period, events
      below the root may have gone unseen: its watches had been taken away and set up again, and its period had
      been kept. */
  method PeriodOutlivesWatches(window: int) returns (w: Watcher)
    requires 1 < window
    ensures fresh(w) && w.View() == RunOf(Renaming(window), window) && Timely(Renaming(window), 1)
    ensures |w.deletions| == 1
    ensures var d := w.deletions[0]; d.kept && d.since < d.missed < d.now < d.missed + window
  {
    w := Run(window, Renaming(window));
    RenamingRun(window);
  }
}
