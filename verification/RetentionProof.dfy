/** What every step of the watcher keeps: each event that was read is on record, still waits, or came before the
    period of its root began; so a file that looks quiet has not been touched for the retention period. */
module RetentionProof {
  import opened Basics
  import opened Retention

  // ---- What must hold ----

  /** Activity of a path is on record at or after a time, or was old enough to be forgotten. */
  predicate OnRecord(b: Books, t: (Id, Path), time: int, window: int) {
    (t in b.activity && time <= b.activity[t]) || time + window <= b.collected
  }

  /** The event still waits to be taken into account, with the places it was read with. */
  predicate Waits(b: Books, h: Heard, places: map<Id, Place>) {
    h.event in b.deferred && h.places == places
  }

  /** What an event says of a path is not lost: it is on record, it waits, or the root's period did not begin
      before it. */
  predicate Accounted(b: Books, h: Heard, t: (Id, Path), places: map<Id, Place>, window: int) {
    t.0 in b.roots
    && (b.roots[t.0].since == 0 || h.time <= b.roots[t.0].since || OnRecord(b, t, h.time, window) || Waits(b, h, places))
  }

  ghost predicate HeardAccounted(b: Books, h: Heard, places: map<Id, Place>, window: int) {
    forall t :: t in Notes(h.event, h.places) ==> Accounted(b, h, t, places, window)
  }

  ghost predicate AllAccounted(b: Books, places: map<Id, Place>, window: int) {
    forall i :: 0 <= i < |b.heard| ==> HeardAccounted(b, b.heard[i], places, window)
  }

  /** Rows are covered exactly while they have a period, which began in the past. */
  ghost predicate RowsFit(b: Books, clock: int) {
    forall r :: r in b.roots ==> 0 <= b.roots[r].since <= clock && (b.roots[r].coverage <==> b.roots[r].since != 0)
  }

  /** No time on record lies ahead. */
  ghost predicate Past(b: Books, clock: int) {
    && b.collected <= clock
    && (forall i :: 0 <= i < |b.heard| ==> b.heard[i].time <= clock)
    && (forall t :: t in b.activity ==> b.activity[t] <= clock)
    && (forall r :: r in b.missed ==> b.missed[r] <= clock)
  }

  /** Events of a covered root may last have gone unseen before its period began, unless its latest admission
      kept the period. */
  ghost predicate Continuous(b: Books) {
    forall r :: r in b.roots && b.roots[r].Covered() ==>
      r in b.missed && (if r in b.kept then b.roots[r].since <= b.missed[r] else b.missed[r] <= b.roots[r].since)
  }

  /** What a deletion is entitled to: a period, and a last modification, that lie back the retention period; of the
      events read before it none that touched the file, or made a directory above it appear, came within that
      time; and events may last have gone unseen before the period unless the latest admission kept it. */
  ghost predicate Justified(d: Deletion, heard: seq<Heard>, window: int) {
    && d.seen <= |heard| && 0 < d.since && d.since + window <= d.now && d.mtime + window <= d.now
    && (if d.kept then d.since <= d.missed else d.missed <= d.since)
    && forall i, rel :: 0 <= i < d.seen && (d.root, rel) in Notes(heard[i].event, heard[i].places) && rel <= d.rel ==>
         heard[i].time + window <= d.now
  }

  ghost predicate AllJustified(b: Books, window: int) {
    forall i :: 0 <= i < |b.deletions| ==> Justified(b.deletions[i], b.heard, window)
  }

  ghost predicate Fits(b: Books, places: map<Id, Place>, clock: int, window: int) {
    && 0 < window && 0 < clock && RowsFit(b, clock) && Past(b, clock) && Continuous(b)
    && AllAccounted(b, places, window) && AllJustified(b, window)
  }

  // ---- Steps that only take evidence away and add activity ----

  predicate RowsFade(was: map<Id, Row>, roots: map<Id, Row>) {
    roots.Keys == was.Keys && forall r :: r in roots ==> roots[r] == was[r] || roots[r] == was[r].Reset()
  }

  predicate ActivityGrows(was: Activity, activity: Activity, now: int) {
    && (forall t :: t in was ==> t in activity)
    && (forall t :: t in activity ==> activity[t] == now || (t in was && activity[t] == was[t]))
  }

  /** What is known of a covered root's gaps stays as it was, and other gaps are new. */
  predicate GapsKept(roots: map<Id, Row>, wasMissed: map<Id, int>, wasKept: set<Id>, missed: map<Id, int>, kept: set<Id>, now: int) {
    && (forall r :: r in roots && roots[r].Covered() ==>
          (r in missed <==> r in wasMissed) && (r in kept <==> r in wasKept) && (r in missed ==> missed[r] == wasMissed[r]))
    && (forall r :: r in missed ==> missed[r] == now || (r in wasMissed && missed[r] == wasMissed[r]))
  }

  /** Rows are kept or reset, activity is kept or is new. */
  ghost predicate Fades(b: Books, c: Books, now: int) {
    && RowsFade(b.roots, c.roots) && ActivityGrows(b.activity, c.activity, now)
    && GapsKept(c.roots, b.missed, b.kept, c.missed, c.kept, now)
    && c.heard == b.heard && c.collected == b.collected && c.deletions == b.deletions
  }

  lemma FadesSelf(b: Books, c: Books, now: int)
    requires c.roots == b.roots && c.activity == b.activity && c.missed == b.missed && c.kept == b.kept
    requires c.heard == b.heard && c.collected == b.collected && c.deletions == b.deletions
    ensures Fades(b, c, now)
  {
  }

  lemma GapsTrans(was: map<Id, Row>, roots: map<Id, Row>, m0: map<Id, int>, k0: set<Id>, m1: map<Id, int>, k1: set<Id>,
                  m2: map<Id, int>, k2: set<Id>, now: int)
    requires RowsFade(was, roots) && GapsKept(was, m0, k0, m1, k1, now) && GapsKept(roots, m1, k1, m2, k2, now)
    ensures GapsKept(roots, m0, k0, m2, k2, now)
  {
    forall r | r in roots && roots[r].Covered()
      ensures (r in m2 <==> r in m0) && (r in k2 <==> r in k0) && (r in m2 ==> m2[r] == m0[r])
    {
      assert was[r].Covered();
    }
  }

  lemma FadesTrans(b: Books, c: Books, d: Books, now: int)
    requires Fades(b, c, now) && Fades(c, d, now)
    ensures Fades(b, d, now)
  {
    GapsTrans(c.roots, d.roots, b.missed, b.kept, c.missed, c.kept, d.missed, d.kept, now);
  }

  /** Only the queues differ. */
  predicate SameBut(b: Books, c: Books) {
    c == b.(rebuild := c.rebuild, deferred := c.deferred, signatures := c.signatures, heartbeat := c.heartbeat)
  }

  lemma SameFades(b: Books, c: Books, d: Books, now: int)
    requires Fades(b, c, now) && SameBut(c, d)
    ensures Fades(b, d, now)
  {
  }

  lemma ClearedFades(b: Books, now: int)
    ensures Fades(b, Cleared(b, now), now) && forall r :: r in b.roots ==> Cleared(b, now).roots[r].since == 0
  {
  }

  lemma UncoveredFades(b: Books, root: Id, now: int)
    requires root in b.roots
    ensures Fades(b, Uncovered(b, root), now)
  {
  }

  lemma NotedFades(b: Books, root: Id, rel: Path, now: int)
    ensures Fades(b, Noted(b, root, rel, now), now)
  {
  }

  lemma BranchedFades(b: Books, e: Event, place: Place, now: int)
    requires e.root in b.roots && e.path.Some?
    ensures Fades(b, Branched(b, e, place, now), now) && Branched(b, e, place, now).deferred == b.deferred
  {
    FadesSelf(b, b, now);
    UncoveredFades(b, e.root, now);
    if Appears(e.mask) && Within(e.path.value, place.base) {
      var rel := e.path.value[|place.base|..];
      NotedFades(b, e.root, rel, now);
      UncoveredFades(Noted(b, e.root, rel, now), e.root, now);
      FadesTrans(b, Noted(b, e.root, rel, now), Uncovered(Noted(b, e.root, rel, now), e.root), now);
    }
  }

  lemma HandledFades(b: Books, e: Event, places: map<Id, Place>, now: int)
    requires places.Keys <= b.roots.Keys
    ensures Fades(b, Handled(b, e, places, now), now) && Handled(b, e, places, now).deferred == b.deferred
  {
    FadesSelf(b, b, now);
    if Overflow in e.mask {
      ClearedFades(b, now);
      SameFades(b, Cleared(b, now), Handled(b, e, places, now), now);
    } else if e.root in places && Topology(e.mask) && e.path.Some? {
      BranchedFades(b, e, places[e.root], now);
    }
  }

  /** A directory that appeared is on record. */
  lemma HandledRecords(b: Books, e: Event, places: map<Id, Place>, now: int)
    requires places.Keys <= b.roots.Keys
    ensures forall t :: t in Notes(e, places) ==>
              t in TouchedBy(e, places) || (t in Handled(b, e, places, now).activity && Handled(b, e, places, now).activity[t] == now)
  {
  }

  /** Everything a handled queue says has been recorded, or is among what it touches. */
  ghost predicate QueueRecorded(queue: seq<Event>, places: map<Id, Place>, touched: set<(Id, Path)>, activity: Activity, now: int) {
    forall e {:trigger e in queue} :: e in queue ==> EventRecorded(e, places, touched, activity, now)
  }

  ghost predicate EventRecorded(e: Event, places: map<Id, Place>, touched: set<(Id, Path)>, activity: Activity, now: int) {
    forall t :: t in Notes(e, places) ==> t in touched || (t in activity && activity[t] == now)
  }

  lemma RecordedStays(e: Event, places: map<Id, Place>, touched: set<(Id, Path)>, more: set<(Id, Path)>, was: Activity,
                      activity: Activity, now: int)
    requires EventRecorded(e, places, touched, was, now) && touched <= more && ActivityGrows(was, activity, now)
    ensures EventRecorded(e, places, more, activity, now)
  {
  }

  lemma {:induction false} HandledAllFades(b: Books, queue: seq<Event>, places: map<Id, Place>, now: int)
    requires places.Keys <= b.roots.Keys
    ensures Fades(b, HandledAll(b, queue, places, now), now) && HandledAll(b, queue, places, now).deferred == b.deferred
    decreases |queue|
  {
    if queue == [] {
      FadesSelf(b, b, now);
    } else {
      var front, e := queue[..|queue| - 1], queue[|queue| - 1];
      var before := HandledAll(b, front, places, now);
      HandledAllFades(b, front, places, now);
      HandledFades(before, e, places, now);
      FadesTrans(b, before, Handled(before, e, places, now), now);
    }
  }

  lemma {:induction false} HandledAllRecords(b: Books, queue: seq<Event>, places: map<Id, Place>, now: int)
    requires places.Keys <= b.roots.Keys
    ensures QueueRecorded(queue, places, TouchedAll(queue, places, false), HandledAll(b, queue, places, now).activity, now)
    decreases |queue|
  {
    if queue != [] {
      var front, e := queue[..|queue| - 1], queue[|queue| - 1];
      var before, after := HandledAll(b, front, places, now), HandledAll(b, queue, places, now);
      var had, touched := TouchedAll(front, places, false), TouchedAll(queue, places, false);
      assert queue == front + [e];
      HandledAllRecords(b, front, places, now);
      HandledFades(before, e, places, now);
      HandledRecords(before, e, places, now);
      forall f | f in queue ensures EventRecorded(f, places, touched, after.activity, now) {
        if f in front {
          RecordedStays(f, places, had, touched, before.activity, after.activity, now);
        }
      }
    }
  }

  lemma RecordedFades(b: Books, touched: set<(Id, Path)>, now: int)
    ensures Fades(b, RecordedAll(b, touched, now), now) && RecordedAll(b, touched, now).deferred == b.deferred
    ensures forall t :: t in touched ==> t in RecordedAll(b, touched, now).activity && RecordedAll(b, touched, now).activity[t] == now
  {
  }

  /** Taking everything into account: the queue is on record and nothing waits any more. */
  lemma ConsumedNow(b: Books, now: int, events: seq<Event>, places: map<Id, Place>)
    requires places.Keys <= b.roots.Keys
    ensures var c := Consumed(b, now, events, places, false);
      && c.heard == b.heard + HeardOf(events, places, now) && Fades(b.(heard := c.heard), c, now) && c.deferred == []
      && QueueRecorded(b.deferred + events, places, {}, c.activity, now)
  {
    var h := b.(heard := b.heard + HeardOf(events, places, now), deferred := []);
    var queue := b.deferred + events;
    var touched, mid := TouchedAll(queue, places, false), HandledAll(h, queue, places, now);
    HandledAllFades(h, queue, places, now);
    HandledAllRecords(h, queue, places, now);
    RecordedFades(mid, touched, now);
    FadesTrans(h, mid, RecordedAll(mid, touched, now), now);
    forall e | e in queue ensures EventRecorded(e, places, {}, RecordedAll(mid, touched, now).activity, now) {
      assert EventRecorded(e, places, touched, mid.activity, now);
    }
  }

  /** No root has a period. */
  predicate Blank(b: Books) {
    forall r :: r in b.roots ==> b.roots[r].since == 0
  }

  lemma BlankStays(b: Books, c: Books, now: int)
    requires Blank(b) && Fades(b, c, now)
    ensures Blank(c)
  {
  }

  /** Putting off an event keeps what waits, unless every root loses its evidence. */
  lemma PutOffKeeps(b: Books, e: Event, places: map<Id, Place>, now: int)
    ensures var c := PutOff(b, e, places, now);
      && Fades(b, c, now) && (b.deferred <= c.deferred || Blank(c))
      && (Overflow !in e.mask && e.root in places && Topology(e.mask) ==> e in c.deferred)
  {
    var c, cleared := PutOff(b, e, places, now), Cleared(b, now);
    FadesSelf(b, b, now);
    ClearedFades(b, now);
    if c.roots == cleared.roots && SameBut(cleared, c) {
      SameFades(b, cleared, c, now);
    } else {
      SameFades(b, b, c, now);
    }
  }

  /** What an event says is among what was touched, or the event waits. */
  ghost predicate EventKept(e: Event, places: map<Id, Place>, touched: set<(Id, Path)>, deferred: seq<Event>) {
    forall t :: t in Notes(e, places) ==> t in touched || e in deferred
  }

  ghost predicate QueueKept(queue: seq<Event>, places: map<Id, Place>, touched: set<(Id, Path)>, deferred: seq<Event>) {
    forall e {:trigger e in queue} :: e in queue ==> EventKept(e, places, touched, deferred)
  }

  lemma {:induction false} PutOffAllKeeps(b: Books, queue: seq<Event>, places: map<Id, Place>, now: int)
    requires places.Keys <= b.roots.Keys
    ensures var c := PutOffAll(b, queue, places, now);
      Fades(b, c, now)
      && (Blank(c) || (b.deferred <= c.deferred && QueueKept(queue, places, TouchedAll(queue, places, true), c.deferred)))
    decreases |queue|
  {
    if queue == [] {
      FadesSelf(b, b, now);
    } else {
      var front, e := queue[..|queue| - 1], queue[|queue| - 1];
      var before, after := PutOffAll(b, front, places, now), PutOffAll(b, queue, places, now);
      assert queue == front + [e];
      PutOffAllKeeps(b, front, places, now);
      PutOffKeeps(before, e, places, now);
      FadesTrans(b, before, after, now);
      if Blank(before) {
        BlankStays(before, after, now);
      } else if !Blank(after) {
        PutOffKept(before, e, places, now);
        QueueKeptOn(front, e, places, before.deferred, after.deferred);
      }
    }
  }

  /** A change of the tree waits with all it says; anything else only touches a file. */
  lemma PutOffKept(b: Books, e: Event, places: map<Id, Place>, now: int)
    ensures EventKept(e, places, if Topology(e.mask) then {} else TouchedBy(e, places), PutOff(b, e, places, now).deferred)
  {
    PutOffKeeps(b, e, places, now);
  }

  lemma QueueKeptOn(front: seq<Event>, e: Event, places: map<Id, Place>, was: seq<Event>, deferred: seq<Event>)
    requires QueueKept(front, places, TouchedAll(front, places, true), was) && was <= deferred
    requires EventKept(e, places, if Topology(e.mask) then {} else TouchedBy(e, places), deferred)
    ensures QueueKept(front + [e], places, TouchedAll(front + [e], places, true), deferred)
  {
    var queue := front + [e];
    assert queue[..|queue| - 1] == front;
    forall f | f in queue ensures EventKept(f, places, TouchedAll(queue, places, true), deferred) {
      if f in front {
        assert EventKept(f, places, TouchedAll(front, places, true), was);
      }
    }
  }

  /** While trees are being walked: each event read is on record or waits, and what waited still does, unless
      every root loses its evidence. */
  lemma ConsumedLater(b: Books, now: int, events: seq<Event>, places: map<Id, Place>)
    requires places.Keys <= b.roots.Keys
    ensures var c := Consumed(b, now, events, places, true);
      && c.heard == b.heard + HeardOf(events, places, now) && Fades(b.(heard := c.heard), c, now)
      && (Blank(c) || (b.deferred <= c.deferred && forall e :: e in events ==> EventDone(e, places, c, now)))
  {
    var h := b.(heard := b.heard + HeardOf(events, places, now));
    var touched, mid := TouchedAll(events, places, true), PutOffAll(h, events, places, now);
    var c := RecordedAll(mid, touched, now);
    PutOffAllKeeps(h, events, places, now);
    RecordedFades(mid, touched, now);
    FadesTrans(h, mid, c, now);
    if !Blank(mid) {
      forall e | e in events ensures EventDone(e, places, c, now) {
        assert EventKept(e, places, touched, mid.deferred);
      }
    }
  }

  /** What an event says is on record now, or the event waits. */
  ghost predicate EventDone(e: Event, places: map<Id, Place>, c: Books, now: int) {
    forall t :: t in Notes(e, places) ==> (t in c.activity && c.activity[t] == now) || e in c.deferred
  }

  // ---- Every event stays accounted for ----

  lemma JustifiedLater(d: Deletion, heard: seq<Heard>, more: seq<Heard>, window: int)
    requires Justified(d, heard, window)
    ensures Justified(d, heard + more, window)
  {
  }

  /** Reading more events, before anything is done about them. */
  lemma HeardFits(b: Books, more: seq<Heard>, clock: int, now: int, window: int)
    requires RowsFit(b, clock) && Past(b, clock) && Continuous(b) && AllJustified(b, window) && clock <= now
    requires forall i :: 0 <= i < |more| ==> more[i].time == now
    ensures var h := b.(heard := b.heard + more); RowsFit(h, now) && Past(h, now) && Continuous(h) && AllJustified(h, window)
  {
    forall i | 0 <= i < |b.deletions| ensures Justified(b.deletions[i], b.heard + more, window) {
      JustifiedLater(b.deletions[i], b.heard, more, window);
    }
  }

  lemma FadesRest(b: Books, c: Books, now: int, window: int)
    requires RowsFit(b, now) && Past(b, now) && Continuous(b) && AllJustified(b, window) && Fades(b, c, now)
    ensures RowsFit(c, now) && Past(c, now) && Continuous(c) && AllJustified(c, window)
  {
  }

  /** An event read earlier. */
  lemma OldAccounted(b: Books, c: Books, h: Heard, places: map<Id, Place>, clock: int, now: int, window: int)
    requires Fades(b.(heard := c.heard), c, now) && HeardAccounted(b, h, places, window) && clock <= now && h.time <= now
    requires forall u :: u in b.activity ==> b.activity[u] <= clock
    requires Blank(c) || b.deferred <= c.deferred || (h.event in b.deferred ==> EventRecorded(h.event, places, {}, c.activity, now))
    ensures HeardAccounted(c, h, places, window)
  {
    forall t | t in Notes(h.event, h.places) ensures Accounted(c, h, t, places, window) {
      assert Accounted(b, h, t, places, window);
    }
  }

  lemma NewAccounted(c: Books, e: Event, places: map<Id, Place>, now: int, window: int)
    requires places.Keys <= c.roots.Keys && (Blank(c) || EventDone(e, places, c, now))
    ensures HeardAccounted(c, Heard(e, places, now), places, window)
  {
  }

  lemma ConsumedFits(b: Books, now: int, events: seq<Event>, places: map<Id, Place>, deferring: bool, clock: int, window: int)
    requires Fits(b, places, clock, window) && places.Keys <= b.roots.Keys && clock <= now
    ensures var c := Consumed(b, now, events, places, deferring);
      Fits(c, places, now, window) && RowsFade(b.roots, c.roots) && (!deferring ==> c.deferred == [])
  {
    var c, more := Consumed(b, now, events, places, deferring), HeardOf(events, places, now);
    if deferring {
      ConsumedLater(b, now, events, places);
    } else {
      ConsumedNow(b, now, events, places);
    }
    HeardFits(b, more, clock, now, window);
    FadesRest(b.(heard := c.heard), c, now, window);
    forall i | 0 <= i < |c.heard| ensures HeardAccounted(c, c.heard[i], places, window) {
      if i < |b.heard| {
        assert HeardAccounted(b, b.heard[i], places, window);
        assert !deferring && b.heard[i].event in b.deferred ==> b.heard[i].event in b.deferred + events;
        OldAccounted(b, c, b.heard[i], places, clock, now, window);
      } else {
        var e := events[i - |b.heard|];
        assert c.heard[i] == Heard(e, places, now) && e in events;
        assert !deferring ==> e in b.deferred + events && EventRecorded(e, places, {}, c.activity, now);
        NewAccounted(c, e, places, now, window);
      }
    }
  }

  // ---- Admission ----

  /** Queues, signatures and the heartbeat play no part in what has to hold. */
  lemma SameFits(b: Books, c: Books, places: map<Id, Place>, clock: int, window: int)
    requires Fits(b, places, clock, window) && SameBut(b, c) && c.deferred == b.deferred
    ensures Fits(c, places, clock, window)
  {
    forall i | 0 <= i < |c.heard| ensures HeardAccounted(c, c.heard[i], places, window) {
      assert HeardAccounted(b, b.heard[i], places, window);
      forall t | t in Notes(c.heard[i].event, c.heard[i].places) ensures Accounted(c, c.heard[i], t, places, window) {
        assert Accounted(b, b.heard[i], t, places, window);
      }
    }
  }

  lemma ProgressedFits(b: Books, now: int, events: seq<Event>, places: map<Id, Place>, clock: int, window: int)
    requires Fits(b, places, clock, window) && places.Keys <= b.roots.Keys && clock <= now
    ensures Fits(Progressed(b, now, events, places), places, now, window)
  {
    ConsumedFits(b, now, events, places, true, clock, window);
    SameFits(Consumed(b, now, events, places, true), Progressed(b, now, events, places), places, now, window);
  }

  /** Rows change only so that an event accounted for stays so. */
  predicate RowsLater(was: map<Id, Row>, roots: map<Id, Row>, now: int) {
    was.Keys <= roots.Keys && forall r :: r in was ==> roots[r].since == was[r].since || roots[r].since == 0 || roots[r].since >= now
  }

  lemma LaterAccounted(b: Books, c: Books, places: map<Id, Place>, clock: int, window: int)
    requires AllAccounted(b, places, window) && Past(b, clock) && RowsLater(b.roots, c.roots, clock)
    requires c.heard == b.heard && c.activity == b.activity && c.deferred == b.deferred && c.collected == b.collected
    ensures AllAccounted(c, places, window)
  {
    forall i | 0 <= i < |c.heard| ensures HeardAccounted(c, c.heard[i], places, window) {
      assert HeardAccounted(b, b.heard[i], places, window);
      forall t | t in Notes(c.heard[i].event, c.heard[i].places) ensures Accounted(c, c.heard[i], t, places, window) {
        assert Accounted(b, b.heard[i], t, places, window);
      }
    }
  }

  lemma UncoveredFits(b: Books, key: Id, places: map<Id, Place>, clock: int, window: int)
    requires Fits(b, places, clock, window) && key in b.roots
    ensures Fits(Uncovered(b, key), places, clock, window)
  {
    LaterAccounted(b, Uncovered(b, key), places, clock, window);
  }

  lemma FailedFits(b: Books, key: Id, places: map<Id, Place>, clock: int, window: int)
    requires Fits(b, places, clock, window) && key in b.roots
    ensures Fits(Failed(b, key, clock), places, clock, window)
  {
    LaterAccounted(b, Failed(b, key, clock), places, clock, window);
  }

  lemma CoveredFits(b: Books, key: Id, places: map<Id, Place>, clock: int, window: int)
    requires Fits(b, places, clock, window) && key in b.roots
    ensures Fits(CoveredNow(b, key, clock), places, clock, window)
  {
    LaterAccounted(b, CoveredNow(b, key, clock), places, clock, window);
  }

  lemma YieldedFits(b: Books, victims: set<Id>, key: Id, rows: map<Id, Row>, places: map<Id, Place>, clock: int, window: int)
    requires Fits(b, places, clock, window)
    ensures Fits(Yielded(b, victims, key, rows, clock), places, clock, window)
  {
    LaterAccounted(b, Yielded(b, victims, key, rows, clock), places, clock, window);
  }

  lemma WalkedFits(b: Books, a: Admission, places: map<Id, Place>, clock: int, window: int)
    requires Fits(b, places, clock, window) && a.key in b.roots && places.Keys <= b.roots.Keys && clock <= a.at
    ensures Fits(Walked(b, a, places), places, a.at, window)
  {
    ProgressedFits(b, a.at, a.progress, places, clock, window);
    var p := Progressed(b, a.at, a.progress, places);
    if a.complete {
      CoveredFits(p, a.key, places, a.at, window);
    } else {
      FailedFits(p, a.key, places, a.at, window);
    }
  }

  lemma RewatchedFits(b: Books, a: Admission, places: map<Id, Place>, rows: map<Id, Row>, clock: int, window: int)
    requires Fits(b, places, clock, window) && a.key in b.roots && places.Keys <= b.roots.Keys && clock <= a.at
    ensures Fits(Rewatched(b, a, places, rows), places, a.at, window)
  {
    if !a.over {
      WalkedFits(b, a, places, clock, window);
    } else {
      var e := Progressed(b, a.at, a.early, places);
      ProgressedFits(b, a.at, a.early, places, clock, window);
      if e.roots[a.key].hdd && VictimsOf(e, a) != {} {
        YieldedFits(e, VictimsOf(e, a), a.key, rows, places, a.at, window);
        WalkedFits(Yielded(e, VictimsOf(e, a), a.key, rows, a.at), a, places, a.at, window);
      } else {
        FailedFits(e, a.key, places, a.at, window);
      }
    }
  }

  lemma RemovedFits(b: Books, a: Admission, places: map<Id, Place>, clock: int, window: int)
    requires Fits(b, places, clock, window) && a.key in b.roots && places.Keys <= b.roots.Keys && clock <= a.at
    ensures Fits(Removed(b, a, places), places, a.at, window)
  {
    var begun := b.(rebuild := b.rebuild - {a.key});
    SameFits(b, begun, places, clock, window);
    ProgressedFits(begun, a.at, a.removal, places, clock, window);
    UncoveredFits(Progressed(begun, a.at, a.removal, places), a.key, places, a.at, window);
  }

  lemma AdmittedFits(b: Books, a: Admission, places: map<Id, Place>, rows: map<Id, Row>, clock: int, window: int)
    requires Fits(b, places, clock, window) && a.key in b.roots && places.Keys <= b.roots.Keys && clock <= a.at
    ensures Fits(Admitted(b, a, places, rows), places, a.at, window)
  {
    if Settled(b, a.key, a.signature) {
      ClockFits(b, places, clock, a.at, window);
    } else {
      var p := Removed(b, a, places);
      RemovedFits(b, a, places, clock, window);
      if Watchable(a.key, places) {
        RewatchedFits(p, a, places, rows, a.at, window);
        SameFits(Rewatched(p, a, places, rows), Admitted(b, a, places, rows), places, a.at, window);
      } else {
        FailedFits(p, a.key, places, a.at, window);
        SameFits(Failed(p, a.key, a.at), Admitted(b, a, places, rows), places, a.at, window);
      }
    }
  }

  lemma ClockFits(b: Books, places: map<Id, Place>, clock: int, now: int, window: int)
    requires Fits(b, places, clock, window) && clock <= now
    ensures Fits(b, places, now, window)
  {
  }

  /** Nothing waits any more, so it does not matter where the roots lay. */
  lemma PlacesFits(b: Books, places: map<Id, Place>, others: map<Id, Place>, clock: int, window: int)
    requires Fits(b, places, clock, window) && b.deferred == []
    ensures Fits(b, others, clock, window)
  {
    forall i | 0 <= i < |b.heard| ensures HeardAccounted(b, b.heard[i], others, window) {
      assert HeardAccounted(b, b.heard[i], places, window);
      forall t | t in Notes(b.heard[i].event, b.heard[i].places) ensures Accounted(b, b.heard[i], t, others, window) {
        assert Accounted(b, b.heard[i], t, places, window);
      }
    }
  }

  /** Admissions at times that do not run back. */
  predicate InTime(admissions: seq<Admission>, clock: int, end: int) {
    && clock <= end
    && (forall i :: 0 <= i < |admissions| ==> clock <= admissions[i].at <= end)
    && (forall i, j :: 0 <= i < j < |admissions| ==> admissions[i].at <= admissions[j].at)
  }

  function LastAt(admissions: seq<Admission>, clock: int): int {
    if admissions == [] then clock else admissions[|admissions| - 1].at
  }

  lemma {:induction false} AdmittedAllFits(b: Books, admissions: seq<Admission>, places: map<Id, Place>, rows: map<Id, Row>,
                                           clock: int, end: int, window: int)
    requires Fits(b, places, clock, window) && places.Keys <= b.roots.Keys && InTime(admissions, clock, end)
    ensures Fits(AdmittedAll(b, admissions, places, rows), places, LastAt(admissions, clock), window)
    decreases |admissions|
  {
    if admissions != [] {
      var front, a := admissions[..|admissions| - 1], admissions[|admissions| - 1];
      assert forall i :: 0 <= i < |front| ==> front[i] == admissions[i];
      AdmittedAllFits(b, front, places, rows, clock, end, window);
      var before := AdmittedAll(b, front, places, rows);
      assert LastAt(front, clock) <= a.at;
      if a.key in before.roots {
        AdmittedFits(before, a, places, rows, LastAt(front, clock), window);
      } else {
        ClockFits(before, places, LastAt(front, clock), a.at, window);
      }
    }
  }

  // ---- Collection ----

  /** A quiet file has had no event that bears on it for the retention period, of all that were read. */
  lemma QuietMeans(b: Books, f: Found, now: int, places: map<Id, Place>, clock: int, window: int)
    requires Fits(b, places, clock, window) && b.deferred == [] && b.collected == now && f.root in b.roots
    requires Quiet(b.activity, b.roots[f.root], f.root, f.rel, f.mtime, now, window)
    ensures 0 < b.roots[f.root].since && b.roots[f.root].since + window <= now && f.mtime + window <= now
    ensures forall i, rel :: 0 <= i < |b.heard| && (f.root, rel) in Notes(b.heard[i].event, b.heard[i].places) && rel <= f.rel ==>
              b.heard[i].time + window <= now
  {
    forall i, rel | 0 <= i < |b.heard| && (f.root, rel) in Notes(b.heard[i].event, b.heard[i].places) && rel <= f.rel
      ensures b.heard[i].time + window <= now
    {
      assert HeardAccounted(b, b.heard[i], places, window);
      assert Accounted(b, b.heard[i], (f.root, rel), places, window);
      if (f.root, rel) in b.activity {
        assert rel == f.rel[..|rel|];
        LatestBounds(b.activity, f.root, f.rel, |f.rel|, |rel|);
      }
    }
  }

  lemma UnlinkedJustified(b: Books, f: Found, now: int, places: map<Id, Place>, clock: int, window: int)
    requires Fits(b, places, clock, window) && b.deferred == [] && b.collected == now && f.root in b.roots
    requires Quiet(b.activity, b.roots[f.root], f.root, f.rel, f.mtime, now, window)
    ensures AllJustified(Unlinked(b, f, now), window)
  {
    QuietMeans(b, f, now, places, clock, window);
    var c := Unlinked(b, f, now);
    forall i | 0 <= i < |c.deletions| ensures Justified(c.deletions[i], c.heard, window) {
      assert i < |b.deletions| ==> c.deletions[i] == b.deletions[i];
    }
  }

  lemma UnlinkedAccounted(b: Books, f: Found, now: int, places: map<Id, Place>, clock: int, window: int)
    requires Fits(b, places, clock, window) && b.deferred == [] && b.collected == now && f.root in b.roots
    requires Quiet(b.activity, b.roots[f.root], f.root, f.rel, f.mtime, now, window)
    ensures AllAccounted(Unlinked(b, f, now), places, window)
  {
    QuietMeans(b, f, now, places, clock, window);
    var c := Unlinked(b, f, now);
    forall i | 0 <= i < |c.heard| ensures HeardAccounted(c, c.heard[i], places, window) {
      assert HeardAccounted(b, b.heard[i], places, window);
      forall t | t in Notes(c.heard[i].event, c.heard[i].places) ensures Accounted(c, c.heard[i], t, places, window) {
        assert Accounted(b, b.heard[i], t, places, window);
        if t == (f.root, f.rel) {
          assert b.heard[i].time + window <= now;
        }
      }
    }
  }

  lemma UnlinkedFits(b: Books, f: Found, now: int, places: map<Id, Place>, clock: int, window: int)
    requires Fits(b, places, clock, window) && b.deferred == [] && b.collected == now && f.root in b.roots
    requires Quiet(b.activity, b.roots[f.root], f.root, f.rel, f.mtime, now, window)
    ensures Fits(Unlinked(b, f, now), places, clock, window)
  {
    UnlinkedJustified(b, f, now, places, clock, window);
    UnlinkedAccounted(b, f, now, places, clock, window);
  }

  /** Books between two tests of a collection: everything that was read has been taken into account. */
  ghost predicate Clear(b: Books, places: map<Id, Place>, clock: int, window: int) {
    Fits(b, places, clock, window) && b.deferred == [] && places.Keys <= b.roots.Keys
  }

  lemma TryFits(b: Books, f: Found, now: int, revisit: Revisit, places: map<Id, Place>, clock: int, window: int)
    requires Clear(b, places, clock, window) && b.collected == now && f.root in b.roots && clock <= revisit.at
    ensures var t := Try(b, f, now, revisit, places, window).books;
      Clear(t, places, revisit.at, window) && t.collected == now
  {
    if revisit.blocked {
      ClockFits(b, places, clock, revisit.at, window);
    } else {
      var c := Consumed(b, revisit.at, revisit.events, places, false);
      ConsumedFits(b, revisit.at, revisit.events, places, false, clock, window);
      ConsumedNow(b, revisit.at, revisit.events, places);
      if revisit.identity == Some(f.identity) && Quiet(c.activity, c.roots[f.root], f.root, f.rel, f.mtime, now, window) {
        UnlinkedFits(c, f, now, places, revisit.at, window);
      }
    }
  }

  /** The barriers of a collection come after it began, and their times do not run back. */
  ghost predicate Barriers(g: Collection) {
    forall i: nat {:trigger BarrierAfter(g, i)} :: BarrierAfter(g, i)
  }

  predicate BarrierAfter(g: Collection, i: nat) {
    g.now <= g.revisits(i).at <= g.revisits(i + 1).at
  }

  /** Books in the middle of a collection that began at `g.now`. */
  ghost predicate Collecting(b: Books, g: Collection, places: map<Id, Place>, clock: int, window: int) {
    Clear(b, places, clock, window) && b.collected == g.now
  }

  lemma {:induction false} TryAllFits(b: Books, files: seq<Found>, g: Collection, places: map<Id, Place>, window: int, n: nat)
    requires n <= |files| && Collecting(b, g, places, g.now, window) && Barriers(g)
    requires forall f :: f in files ==> f.root in b.roots
    ensures Collecting(TryAll(b, files, g.now, g.revisits, places, window, n).books, g, places, g.revisits(n).at, window)
    decreases n
  {
    if n == 0 {
      BarrierFirst(b, g, places, window);
    } else {
      var t, f := TryAll(b, files, g.now, g.revisits, places, window, n - 1), files[n - 1];
      TryAllFits(b, files, g, places, window, n - 1);
      assert f in files;
      NextFits(t, f, g, n - 1, places, window);
    }
  }

  lemma BarrierFirst(b: Books, g: Collection, places: map<Id, Place>, window: int)
    requires Collecting(b, g, places, g.now, window) && Barriers(g)
    ensures Collecting(b, g, places, g.revisits(0).at, window)
  {
    assert BarrierAfter(g, 0);
    ClockFits(b, places, g.now, g.revisits(0).at, window);
  }

  lemma NextFits(t: Tried, f: Found, g: Collection, i: nat, places: map<Id, Place>, window: int)
    requires Collecting(t.books, g, places, g.revisits(i).at, window) && Barriers(g) && f.root in t.books.roots
    ensures Collecting(Next(t, f, g.now, g.revisits(i), places, window).books, g, places, g.revisits(i + 1).at, window)
  {
    assert BarrierAfter(g, i);
    if t.on {
      TryFits(t.books, f, g.now, g.revisits(i), places, g.revisits(i).at, window);
      ClockFits(Try(t.books, f, g.now, g.revisits(i), places, window).books, places, g.revisits(i).at, g.revisits(i + 1).at, window);
    } else {
      ClockFits(t.books, places, g.revisits(i).at, g.revisits(i + 1).at, window);
    }
  }

  /** Time by which a collection has ended. */
  function EndOf(g: Collection): int {
    g.revisits(BATCH).at
  }

  lemma {:induction false} BarrierOrder(g: Collection, i: nat, j: nat)
    requires Barriers(g) && i <= j
    ensures g.revisits(i).at <= g.revisits(j).at
    decreases j
  {
    if i < j {
      BarrierOrder(g, i, j - 1);
      assert BarrierAfter(g, j - 1);
    }
  }

  lemma BegunFits(b: Books, now: int, places: map<Id, Place>, clock: int, window: int)
    requires Clear(b, places, clock, window) && clock <= now
    ensures Clear(b.(collected := now), places, now, window)
  {
    var c := b.(collected := now);
    forall i | 0 <= i < |c.heard| ensures HeardAccounted(c, c.heard[i], places, window) {
      assert HeardAccounted(b, b.heard[i], places, window);
      forall t | t in Notes(c.heard[i].event, c.heard[i].places) ensures Accounted(c, c.heard[i], t, places, window) {
        assert Accounted(b, b.heard[i], t, places, window);
      }
    }
  }

  lemma CollectedFits(b: Books, g: Collection, places: map<Id, Place>, clock: int, window: int)
    requires Clear(b, places, clock, window) && clock <= g.now && Barriers(g)
    ensures Clear(Collected(b, g, places, window), places, EndOf(g), window)
  {
    BarrierOrder(g, 0, BATCH);
    assert BarrierAfter(g, 0);
    if Stale(b, g.now) {
      ClockFits(b, places, clock, EndOf(g), window);
    } else {
      var files := CandidatesOf(b, g, window);
      CandidatesLook(b, g, window);
      BegunFits(b, g.now, places, clock, window);
      if g.brokerFails {
        ClockFits(b.(collected := g.now), places, g.now, EndOf(g), window);
      } else {
        TryAllFits(b.(collected := g.now), files, g, places, window, |files|);
        BarrierOrder(g, |files|, BATCH);
        ClockFits(Collected(b, g, places, window), places, g.revisits(|files|).at, EndOf(g), window);
      }
    }
  }
}
