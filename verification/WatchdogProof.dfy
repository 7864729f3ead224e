/** What every operation of the watchdog keeps: files and process stay consistent, the archive stays in order
    while the process knows what is archived beyond its own account, and a state file that is not behind the
    archive does not fall behind. */
module WatchdogProof {
  import opened Basics
  import opened WatchdogModel
  import opened WatchdogStep

  // ---- Invariants ----

  /** Files and process fit each other and the clock. While `settling`, a heartbeat has just been taken and the
      outage it ends is not closed yet. */
  ghost predicate Base(s: Store, clock: Anchor, settling: bool) {
    && FilesFit(s.saved, s.file, s.log, s.written, clock, s.next) && LastAtEnd(s.log, s.written)
    && (s.running ==>
          && s.boot == clock.boot && SameLoss(s.saved, s.state)
          && ProcessFits(s.state, s.heartbeat, s.file, s.log, s.remembered, s.written, clock, s.next, settling))
  }

  /** The archive is in order, and the process knows enough to keep it so. */
  predicate InOrder(s: Store) {
    Ordered(s.log) && (s.running ==> Informed(s.state, s.log, s.remembered))
  }

  /** An archived event that is still in the outbox was archived last. */
  predicate PendingLast(st: State, log: seq<Event>, written: seq<Event>) {
    st.pending.Some? && PendingEvent(st.pending.value) in log ==>
      written != [] && written[|written| - 1] == PendingEvent(st.pending.value)
  }

  predicate Current(st: State, log: seq<Event>, written: seq<Event>) {
    Timely(st, log) && PendingLast(st, log, written)
  }

  /** Neither the state file nor the process is behind the archive. */
  predicate Level(s: Store) {
    (s.saved.Some? ==> Current(s.saved.value, s.log, s.written)) && (s.running ==> Current(s.state, s.log, s.written))
  }

  predicate InSync(s: Store) {
    s.saved == Some(s.state)
  }

  /** `t` fits, keeps what was written, and keeps the order of `s`; and its level if `level` holds. */
  ghost predicate Fine(s: Store, t: Store, clock: Anchor, settling: bool, level: bool) {
    && Base(t, clock, settling) && t.running && s.written <= t.written
    && (InOrder(s) ==> InOrder(t)) && (level && Level(s) ==> Level(t))
  }

  // ---- Durable steps ----

  lemma SavedFine(s: Store, clock: Anchor, settling: bool)
    requires Base(s, clock, settling) && s.running
    ensures Fine(s, Saved(s).store, clock, settling, true)
    ensures Saved(s).r.Done? ==> InSync(Saved(s).store)
  {
  }

  lemma {:induction false} KeptLast(log: seq<Event>, drop: set<Event>)
    requires log != [] && log[|log| - 1] !in drop
    ensures Kept(log, drop) != [] && Kept(log, drop)[|Kept(log, drop)| - 1] == log[|log| - 1]
  {
  }

  /** Pruning removes the last event or leaves it at the end. */
  lemma PrunedLast(log: seq<Event>, written: seq<Event>, drop: set<Event>)
    requires LastAtEnd(log, written)
    ensures LastAtEnd(Kept(log, drop), written)
  {
    if written != [] && written[|written| - 1] in Kept(log, drop) {
      KeptLast(log, drop);
    }
  }

  /** Archiving the pending event, on the archive and the memory. */
  lemma AppendedInOrder(st: State, log: seq<Event>, remembered: seq<Event>, drop: set<Event>)
    requires st.pending.Some? && OutboxFits(st) && Ordered(log) && Informed(st, log, remembered)
    requires PendingEvent(st.pending.value) !in remembered
    ensures var e := PendingEvent(st.pending.value);
      Ordered(Kept(log + [e], drop)) && Informed(st.(pending := None), Kept(log + [e], drop), Remember(remembered, e))
  {
    var e := PendingEvent(st.pending.value);
    ArchivedInformed(st, log, remembered);
    PrunedInformed(st.(pending := None), log + [e], Remember(remembered, e), drop);
  }

  lemma AppendedCurrent(st: State, log: seq<Event>, written: seq<Event>, drop: set<Event>)
    requires st.pending.Some? && OutboxFits(st) && Current(st, log, written)
    ensures var e := PendingEvent(st.pending.value);
      var after, now := Kept(log + [e], drop), written + [e];
      Current(st, after, now) && Current(st.(pending := None), after, now)
  {
    ArchivedTimely(st, log, Kept(log + [PendingEvent(st.pending.value)], drop));
  }

  lemma ArchivedFine(s: Store, clock: Anchor, settling: bool)
    requires Base(s, clock, settling) && s.running && s.state.pending.Some?
    ensures Fine(s, Archived(s).store, clock, settling, InSync(s))
  {
    ArchivedFits(s, clock, settling);
    if PendingEvent(s.state.pending.value) in s.remembered || FaultOf(s).result.Written? {
      if InOrder(s) {
        ArchivedOrder(s);
      }
      if Level(s) && InSync(s) {
        ArchivedLevel(s);
      }
    }
  }

  lemma ArchivedFits(s: Store, clock: Anchor, settling: bool)
    requires Base(s, clock, settling) && s.running && s.state.pending.Some?
    ensures Base(Archived(s).store, clock, settling) && Archived(s).store.running && s.written <= Archived(s).store.written
  {
    var e, t := PendingEvent(s.state.pending.value), Archived(s).store;
    if e in s.remembered {
      Brought(s.state, s.saved, s.heartbeat, s.file, s.log, s.log, s.remembered, s.written, s.written, clock, s.next, settling);
    } else if FaultOf(s).result.Written? {
      PrunedLast(s.log + [e], s.written + [e], FaultOf(s).drop);
      Brought(s.state, s.saved, s.heartbeat, s.file, s.log, t.log, s.remembered, s.written, t.written, clock, s.next, settling);
    }
  }

  lemma ArchivedOrder(s: Store)
    requires s.running && s.state.pending.Some? && OutboxFits(s.state) && InOrder(s)
    ensures InOrder(Archived(s).store)
  {
    if PendingEvent(s.state.pending.value) in s.remembered {
      ArchivedInformed(s.state, s.log, s.remembered);
    } else {
      AppendedInOrder(s.state, s.log, s.remembered, FaultOf(s).drop);
    }
  }

  lemma ArchivedLevel(s: Store)
    requires s.running && s.state.pending.Some? && OutboxFits(s.state) && Level(s) && InSync(s)
    ensures Level(Archived(s).store)
  {
    if PendingEvent(s.state.pending.value) in s.remembered {
      ArchivedTimely(s.state, s.log, s.log);
    } else {
      AppendedCurrent(s.state, s.log, s.written, FaultOf(s).drop);
    }
  }

  lemma FineTrans(s: Store, t: Store, u: Store, clock: Anchor, settling: bool, level: bool)
    requires s.written <= t.written && (InOrder(s) ==> InOrder(t)) && (level && Level(s) ==> Level(t))
    requires Fine(t, u, clock, settling, level)
    ensures Fine(s, u, clock, settling, level)
  {
  }

  lemma FinishedFine(s: Store, clock: Anchor, settling: bool)
    requires Base(s, clock, settling) && s.running
    ensures Fine(s, Finished(s).store, clock, settling, InSync(s))
  {
    if s.state.pending.Some? {
      ArchivedFine(s, clock, settling);
      var a := Archived(s);
      if a.r.Done? {
        SavedFine(a.store, clock, settling);
        FineTrans(s, a.store, Saved(a.store).store, clock, settling, InSync(s));
      }
    }
  }

  /** The outbox is as it was, or emptied; nothing else of the account changes. */
  predicate Emptied(s: Store, t: Store) {
    && (t.state == s.state || t.state == s.state.(pending := None))
    && t.heartbeat == s.heartbeat && t.file == s.file && t.next == s.next && t.fallback == s.fallback && t.boot == s.boot
  }

  lemma ArchivedEmpties(s: Store)
    requires s.state.pending.Some?
    ensures var a := Archived(s);
      && Emptied(s, a.store) && a.store.state == (if a.r.Done? then s.state.(pending := None) else s.state)
      && (a.r.Done? ==>
            PendingEvent(s.state.pending.value) in a.store.written || PendingEvent(s.state.pending.value) in s.remembered)
  {
  }

  /** When the outbox has been dealt with it is empty, its event has been written, and the file is level. */
  lemma FinishedEmpties(s: Store)
    ensures var a := Finished(s);
      && Emptied(s, a.store) && (a.r.Done? ==> a.store.state == s.state.(pending := None))
      && (a.r.Done? && (s.state.pending.Some? || InSync(s)) ==> InSync(a.store))
      && (a.r.Done? && s.state.pending.Some? ==>
            PendingEvent(s.state.pending.value) in a.store.written || PendingEvent(s.state.pending.value) in s.remembered)
  {
    if s.state.pending.Some? {
      ArchivedEmpties(s);
    }
  }

  lemma PostedFine(s: Store, clock: Anchor, settling: bool)
    requires Base(s, clock, settling) && s.running
    ensures Fine(s, Posted(s).store, clock, settling, true)
  {
    var a := Saved(s);
    SavedFine(s, clock, settling);
    if a.r.Done? {
      FinishedFine(a.store, clock, settling);
      FineTrans(s, a.store, Finished(a.store).store, clock, settling, true);
    }
  }

  lemma PostedEmpties(s: Store)
    requires s.state.pending.Some?
    ensures var a := Posted(s);
      && Emptied(s, a.store) && (a.r.Done? ==> a.store.state == s.state.(pending := None) && InSync(a.store))
      && (a.r.Done? ==>
            PendingEvent(s.state.pending.value) in a.store.written || PendingEvent(s.state.pending.value) in s.remembered)
  {
    FinishedEmpties(Saved(s).store);
  }

  lemma PrunedFine(s: Store, clock: Anchor, settling: bool)
    requires Base(s, clock, settling)
    ensures var t := Pruned(s).store;
      && Base(t, clock, settling) && (InOrder(s) ==> InOrder(t)) && (Level(s) ==> Level(t))
      && t.written == s.written && t.running == s.running && t.state == s.state && t.saved == s.saved
  {
    var drop := FaultOf(s).drop;
    if InOrder(s) {
      KeptOrdered(s.log, drop);
      if s.running {
        PrunedInformed(s.state, s.log, s.remembered, drop);
      }
    }
    PrunedLast(s.log, s.written, drop);
  }

  // ---- Changes of the outage ----

  /** A process with an empty outbox and no heartbeat to settle. */
  ghost predicate Ready(s: Store, clock: Anchor) {
    Base(s, clock, false) && s.running && s.state.pending == None
  }

  lemma OpenedFine(s: Store, clock: Anchor, severe: bool)
    requires Ready(s, clock) && !IsOpen(s.state)
    requires s.heartbeat.Some? ==> Before(s.heartbeat.value.received, clock)
    ensures Fine(s, Opened(s, clock, severe), clock, false, true)
  {
  }

  lemma EscalatedFine(s: Store, clock: Anchor)
    requires Ready(s, clock) && IsOpen(s.state) && !s.state.outage.value.critical
    ensures Fine(s, Escalated(s), clock, false, true)
  {
  }

  lemma ClosedFine(s: Store, clock: Anchor, settling: bool, at: int, gap: Option<int>)
    requires Base(s, clock, settling) && s.running && s.state.pending == None && IsOpen(s.state)
    requires s.heartbeat.Some? && s.file.Some? && s.state.outage.value.lastAnchor != Some(s.file.value.received)
    ensures Fine(s, Closed(s, at, gap), clock, false, true)
  {
  }

  // ---- Ticks ----

  predicate Sensible(limits: Limits) {
    0 < limits.warning < limits.critical
  }

  lemma AgePositive(fallback: Ages, anchor: Anchor, now: Anchor)
    requires NotAfter(anchor, now) && AgeBy(fallback, anchor, now) > 0
    ensures Before(anchor, now)
  {
  }

  lemma ObservedFine(s: Store, clock: Anchor, now: Anchor, settling: bool)
    requires Base(s, clock, settling) && NotAfter(clock, now) && (s.running ==> now.boot == s.boot)
    ensures Base(s, now, settling)
  {
  }

  lemma ReactedFine(s: Store, now: Anchor, age: int, limits: Limits)
    requires Ready(s, now) && Sensible(limits)
    requires s.heartbeat.Some? && age > 0 ==> Before(s.heartbeat.value.received, now)
    ensures Fine(s, ReactedTo(s, now, age, limits).store, now, false, true)
  {
    if age >= limits.warning && !IsOpen(s.state) {
      var o := Opened(s, now, age >= limits.critical);
      OpenedFine(s, now, age >= limits.critical);
      PostedFine(o, now, false);
      FineTrans(s, o, Posted(o).store, now, false, true);
    } else if Escalates(s.state, age, limits) {
      var o := Escalated(s);
      EscalatedFine(s, now);
      PostedFine(o, now, false);
      FineTrans(s, o, Posted(o).store, now, false, true);
    }
  }

  /** Nothing but the outage, the status and the outbox is touched. */
  predicate SameWatch(s: Store, t: Store) {
    t.heartbeat == s.heartbeat && t.file == s.file && t.boot == s.boot && t.state.startedAt == s.state.startedAt
  }

  predicate Known(s: Store, t: Store, e: Event) {
    e in t.written || e in s.remembered
  }

  lemma ReactedFacts(s: Store, now: Anchor, age: int, limits: Limits)
    requires s.state.pending == None
    ensures var a := ReactedTo(s, now, age, limits);
      && SameWatch(s, a.store)
      && a.store.state.outage == Reacted(s.state, age, now, Lost(s), s.next, limits)
      && (IsOpen(s.state) ==> a.store.state.status == s.state.status)
      && (a.r.Done? ==> a.store.state.pending == None)
      && (a.r.Done? && age >= limits.warning && !IsOpen(s.state) ==> Known(s, a.store, Event(s.next, Opening)))
      && (a.r.Done? && Escalates(s.state, age, limits) ==> Known(s, a.store, Event(s.state.outage.value.id, Escalation)))
  {
    if age >= limits.warning && !IsOpen(s.state) {
      PostedEmpties(Opened(s, now, age >= limits.critical));
    } else if Escalates(s.state, age, limits) {
      PostedEmpties(Escalated(s));
    }
  }

  lemma JudgedFine(s: Store, now: Anchor, age: int, limits: Limits)
    requires Ready(s, now) && Sensible(limits)
    requires s.heartbeat.Some? && age > 0 ==> Before(s.heartbeat.value.received, now)
    ensures Fine(s, Judged(s, now, age, limits).store, now, false, true)
  {
    var a := ReactedTo(s, now, age, limits);
    ReactedFine(s, now, age, limits);
    if a.r.Done? {
      StatusFine(a.store, now, SeverityOf(age, limits));
      SavedFine(a.store, now, false);
      FineTrans(s, a.store, Judged(s, now, age, limits).store, now, false, true);
    }
  }

  /** The status plays no part in what has to hold. */
  lemma StatusFine(s: Store, clock: Anchor, status: Status)
    requires Base(s, clock, false) && s.running
    ensures var t := s.(state := s.state.(status := status));
      Fine(s, t, clock, false, true) && Fine(s, Saved(t).store, clock, false, true)
  {
    var t := s.(state := s.state.(status := status));
    assert Fine(s, t, clock, false, true);
    SavedFine(t, clock, false);
    FineTrans(s, t, Saved(t).store, clock, false, true);
  }

  /** What a judgement does to the account, and what it has written when it completes. */
  predicate JudgedAs(s: Store, t: Store, r: Outcome, now: Anchor, age: int, limits: Limits) {
    && SameWatch(s, t) && t.state.outage == Reacted(s.state, age, now, Lost(s), s.next, limits)
    && (r.Done? ==> t.state.pending == None && InSync(t) && t.state.status == StatusAfter(s.state, age, limits))
    && (r.Done? && age >= limits.warning && !IsOpen(s.state) ==> Known(s, t, Event(s.next, Opening)))
    && (r.Done? && Escalates(s.state, age, limits) ==> Known(s, t, Event(s.state.outage.value.id, Escalation)))
  }

  lemma JudgedFacts(s: Store, now: Anchor, age: int, limits: Limits)
    requires s.state.pending == None && Sensible(limits)
    ensures var a := Judged(s, now, age, limits); JudgedAs(s, a.store, a.r, now, age, limits)
  {
    ReactedFacts(s, now, age, limits);
  }

  lemma CheckedFine(s: Store, now: Anchor, limits: Limits)
    requires Ready(s, now) && Sensible(limits)
    ensures Fine(s, Checked(s, now, limits).store, now, false, true)
  {
    var asked := s.(fallback := Asked(s.fallback, LastSign(s), now));
    assert Fine(s, asked, now, false, true);
    if AgeJudged(s, now, limits).Some? {
      var age := AgeJudged(s, now, limits).value;
      if s.heartbeat.Some? && age > 0 {
        AgePositive(s.fallback, s.heartbeat.value.received, now);
      }
      JudgedFine(asked, now, age, limits);
      FineTrans(s, asked, Checked(s, now, limits).store, now, false, true);
    }
  }

  lemma PreparedFine(s: Store, now: Anchor)
    requires Base(s, now, false) && s.running
    ensures var a := Prepared(s);
      && Fine(s, a.store, now, false, InSync(s)) && (a.r.Done? ==> Ready(a.store, now))
      && Emptied(s, a.store) && (a.r.Done? ==> a.store.state == s.state.(pending := None))
      && (a.r.Done? && InSync(s) ==> InSync(a.store))
  {
    FinishedFine(s, now, false);
    FinishedEmpties(s);
    var f := Finished(s);
    if f.r.Done? {
      PrunedFine(f.store, now, false);
      FineTrans(s, f.store, Pruned(f.store).store, now, false, InSync(s));
    }
  }

  lemma TickedFine(s: Store, now: Anchor, limits: Limits)
    requires Base(s, now, false) && s.running && Sensible(limits)
    ensures Fine(s, Ticked(s, now, limits).store, now, false, InSync(s))
  {
    PreparedFine(s, now);
    var a := Prepared(s);
    if a.r.Done? {
      CheckedFine(a.store, now, limits);
      FineTrans(s, a.store, Checked(a.store, now, limits).store, now, false, InSync(s));
    }
  }

  /** The age a whole check judges by, if it gets that far. */
  function AgeTicked(s: Store, now: Anchor, limits: Limits): Option<int> {
    if Prepared(s).r.Done? then AgeJudged(s, now, limits) else None
  }

  lemma CheckedFacts(s: Store, now: Anchor, limits: Limits)
    requires s.state.pending == None && Sensible(limits)
    ensures var a, judged := Checked(s, now, limits), AgeJudged(s, now, limits);
      if judged.Some? then JudgedAs(s, a.store, a.r, now, judged.value, limits)
      else a.r == Done && a.store == s.(fallback := Asked(s.fallback, LastSign(s), now))
  {
    if AgeJudged(s, now, limits).Some? {
      JudgedFacts(s.(fallback := Asked(s.fallback, LastSign(s), now)), now, AgeJudged(s, now, limits).value, limits);
    }
  }

  /** One check. It opens or escalates exactly by the age of the last sign of life and never closes an outage;
      when it completes nothing is pending, every event of the outage so far has been written, and the state
      file is level if it was before. */
  lemma TickedFacts(s: Store, now: Anchor, limits: Limits)
    requires Base(s, now, false) && s.running && Sensible(limits)
    ensures var a, judged := Ticked(s, now, limits), AgeTicked(s, now, limits);
      && SameWatch(s, a.store)
      && a.store.state.outage == (if judged.Some? then Reacted(s.state, judged.value, now, Lost(s), s.next, limits)
                                  else s.state.outage)
      && (a.r.Done? ==> a.store.state.pending == None && (InSync(s) ==> InSync(a.store)))
      && (a.r.Done? && judged == None ==> s.heartbeat == None)
      && (a.r.Done? && judged.Some? ==> a.store.state.status == StatusAfter(s.state, judged.value, limits))
      && (a.r.Done? && a.store.state.outage.Some? ==> Event(a.store.state.outage.value.id, Opening) in a.store.written)
      && (a.r.Done? && judged.Some? && Escalates(s.state, judged.value, limits) ==>
            Event(s.state.outage.value.id, Escalation) in a.store.written)
  {
    PreparedFine(s, now);
    var p := Prepared(s);
    if p.r.Done? {
      CheckedFine(p.store, now, limits);
      CheckedFacts(p.store, now, limits);
      assert AgeJudged(p.store, now, limits) == AgeJudged(s, now, limits);
    }
  }

  // ---- Heartbeats ----

  lemma AcceptedFine(s: Store, h: Heartbeat, clock: Anchor)
    requires Base(s, clock, false) && s.running && h.received == clock
    ensures var a := Accepted(s, h); Fine(s, a.store, clock, a.r.Done?, true)
  {
  }

  lemma SettledFine(s: Store, at: int, gap: Option<int>, clock: Anchor)
    requires Base(s, clock, true) && s.running && s.state.pending == None && s.heartbeat.Some?
    requires IsOpen(s.state) ==> s.file.Some? && s.state.outage.value.lastAnchor != Some(s.file.value.received)
    ensures Fine(s, Settled(s, at, gap).store, clock, false, true)
  {
    if IsOpen(s.state) {
      var c := Closed(s, at, gap);
      ClosedFine(s, clock, true, at, gap);
      PostedFine(c, clock, false);
      FineTrans(s, c, Posted(c).store, clock, false, true);
    }
  }

  /** The open outage is closed at that time with that gap, and the closing has been written when it completes. */
  lemma SettledFacts(s: Store, at: int, gap: Option<int>)
    requires s.state.pending == None
    ensures var a := Settled(s, at, gap);
      && SameWatch(s, a.store) && a.store.state.status == s.state.status
      && a.store.state.outage == (if IsOpen(s.state) then Some(s.state.outage.value.(recoveredAt := Some(at), gap := gap))
                                  else s.state.outage)
      && (a.r.Done? ==> a.store.state.pending == None && (InSync(s) ==> InSync(a.store)))
      && (a.r.Done? && IsOpen(s.state) ==> Known(s, a.store, Event(s.state.outage.value.id, Recovery)))
  {
    if IsOpen(s.state) {
      PostedEmpties(Closed(s, at, gap));
    }
  }

  lemma RecordedFine(s: Store, clock: Anchor, sampled: bool)
    requires Base(s, clock, false) && s.running
    ensures var a := Recorded(s, sampled);
      && Fine(s, a.store, clock, false, true) && (a.r.Done? ==> InSync(a.store))
      && a.store.state == s.state.(status := Healthy) && a.store.heartbeat == s.heartbeat && a.store.file == s.file
      && a.store.boot == s.boot
  {
    StatusFine(s, clock, Healthy);
    var healthy := s.(state := s.state.(status := Healthy));
    if sampled && FaultOf(s).result.Written? {
      SavedFine(Spent(healthy), clock, false);
    }
  }

  /** A heartbeat just taken is later than the one the open outage lost. */
  lemma AcceptedLater(s: Store, h: Heartbeat, clock: Anchor)
    requires Base(s, clock, false) && s.running && h.received == clock && Accepted(s, h).r.Done?
    ensures IsOpen(s.state) ==> s.state.outage.value.lastAnchor != Some(clock)
  {
  }

  lemma WelcomedFine(s: Store, now: Anchor, timestamp: int, sampled: bool)
    requires Ready(s, now)
    ensures Fine(s, Welcomed(s, now, timestamp, sampled).store, now, false, true)
  {
    var asked, h := AskedLast(s, now), Heartbeat(timestamp, now);
    assert Fine(s, asked, now, false, true);
    AcceptedFine(asked, h, now);
    var a := Accepted(asked, h);
    if a.r.Done? {
      AcceptedLater(asked, h, now);
      SettledFine(a.store, now.wall, GapAt(s, now), now);
      var c := Settled(a.store, now.wall, GapAt(s, now));
      FineTrans(s, a.store, c.store, now, false, true);
      if c.r.Done? {
        RecordedFine(c.store, now, sampled);
        FineTrans(s, c.store, Recorded(c.store, sampled).store, now, false, true);
      }
    }
  }

  /** What an open outage is closed with: the age of the heartbeat it lost, and for an outage that lost none
      the time since it was opened. */
  function GapOf(open: Outage, fallback: Ages, now: Anchor): int {
    match open.lastAnchor
    case Some(lost) => AgeBy(fallback, lost, now)
    case None => Max0(now.wall - open.openedAt)
  }

  /** What a heartbeat does once a check has preceded it. Either it is not taken over, and no outage changes; or
      it is, and the outage that was open is closed at its own time with exactly the gap it ends. */
  predicate WelcomedAs(s: Store, t: Store, r: Outcome, now: Anchor, timestamp: int) {
    var taken := FaultOf(s).result.Written?;
    && t.heartbeat == (if taken then Some(Heartbeat(timestamp, now)) else s.heartbeat)
    && t.state.outage == (if taken && IsOpen(s.state)
                          then Some(s.state.outage.value.(recoveredAt := Some(now.wall),
                                                          gap := Some(GapOf(s.state.outage.value, s.fallback, now))))
                          else s.state.outage)
    && (r.Done? ==> taken && t.file == t.heartbeat && t.state.pending == None && InSync(t) && t.state.status == Healthy)
    && (r.Done? && IsOpen(s.state) ==> Event(s.state.outage.value.id, Recovery) in t.written)
  }

  lemma RecordedFacts(s: Store, sampled: bool)
    ensures var a := Recorded(s, sampled);
      && a.store.heartbeat == s.heartbeat && a.store.file == s.file && a.store.boot == s.boot && a.store.written == s.written
      && a.store.state == s.state.(status := Healthy) && (a.r.Done? ==> InSync(a.store))
  {
  }

  lemma TakenFacts(s: Store, at: int, gap: Option<int>, sampled: bool)
    requires s.state.pending == None
    ensures var a := SettledAndRecorded(s, at, gap, sampled);
      && a.store.heartbeat == s.heartbeat && a.store.file == s.file && a.store.boot == s.boot
      && a.store.state.outage == (if IsOpen(s.state) then Some(s.state.outage.value.(recoveredAt := Some(at), gap := gap))
                                  else s.state.outage)
      && (a.r.Done? ==> a.store.state.pending == None && InSync(a.store) && a.store.state.status == Healthy)
      && (a.r.Done? && IsOpen(s.state) ==> Known(s, a.store, Event(s.state.outage.value.id, Recovery)))
  {
    SettledFacts(s, at, gap);
    var c := Settled(s, at, gap);
    if c.r.Done? {
      RecordedFacts(c.store, sampled);
    }
  }

  /** Whatever a fitting process remembers has been written. */
  lemma KnownWritten(s: Store, t: Store, e: Event, clock: Anchor, settling: bool)
    requires Base(s, clock, settling) && s.running && s.written <= t.written && Known(s, t, e)
    ensures e in t.written
  {
  }

  lemma WelcomedFacts(s: Store, now: Anchor, timestamp: int, sampled: bool)
    requires Ready(s, now)
    ensures var a := Welcomed(s, now, timestamp, sampled); WelcomedAs(s, a.store, a.r, now, timestamp) && a.store.boot == s.boot
  {
    WelcomedFine(s, now, timestamp, sampled);
    var a := Accepted(AskedLast(s, now), Heartbeat(timestamp, now));
    if a.r.Done? {
      var gap := GapAt(s, now);
      var c := SettledAndRecorded(a.store, now.wall, gap, sampled);
      TakenFacts(a.store, now.wall, gap, sampled);
      assert Welcomed(s, now, timestamp, sampled) == c;
      assert IsOpen(s.state) ==> gap == Some(GapOf(s.state.outage.value, s.fallback, now));
      if c.r.Done? && IsOpen(s.state) {
        KnownWritten(s, c.store, Event(s.state.outage.value.id, Recovery), now, false);
      }
    }
  }

  lemma ReceivedFine(s: Store, now: Anchor, timestamp: int, sampled: bool, limits: Limits)
    requires Base(s, now, false) && s.running && Sensible(limits)
    ensures Fine(s, Received(s, now, timestamp, sampled, limits).store, now, false, InSync(s))
  {
    if !Refused(s, now, timestamp) {
      TickedFine(s, now, limits);
      TickedFacts(s, now, limits);
      var a := Ticked(s, now, limits);
      if a.r.Done? {
        WelcomedFine(a.store, now, timestamp, sampled);
        FineTrans(s, a.store, Welcomed(a.store, now, timestamp, sampled).store, now, false, InSync(s));
      }
    }
  }

  /** A heartbeat from the watched host: nothing at all if it is refused, otherwise a check, and if that
      completes the heartbeat itself. Only a heartbeat taken over closes an outage. */
  lemma ReceivedFacts(s: Store, now: Anchor, timestamp: int, sampled: bool, limits: Limits)
    requires Base(s, now, false) && s.running && Sensible(limits)
    ensures var a, t := Received(s, now, timestamp, sampled, limits), Ticked(s, now, limits);
      && (Refused(s, now, timestamp) ==> a.store == s && a.r == Raised)
      && (!Refused(s, now, timestamp) ==>
            if t.r.Done? then WelcomedAs(t.store, a.store, a.r, now, timestamp) else a == t)
      && (a.r.Done? ==> InSync(a.store) && a.store.state.pending == None && !IsOpen(a.store.state))
      && (a.store.heartbeat == s.heartbeat && IsOpen(s.state) ==> IsOpen(a.store.state))
      && a.store.boot == s.boot
  {
    if !Refused(s, now, timestamp) {
      TickedFine(s, now, limits);
      TickedFacts(s, now, limits);
      var t := Ticked(s, now, limits);
      if t.r.Done? {
        WelcomedFacts(t.store, now, timestamp, sampled);
      }
    }
  }

  // ---- Restart ----

  lemma RememberFrom(remembered: seq<Event>, e: Event)
    requires |remembered| <= REMEMBERED
    ensures |Remember(remembered, e)| <= REMEMBERED
    ensures forall f :: f in Remember(remembered, e) ==> f in remembered || f == e
  {
  }

  lemma {:induction false} RecalledFrom(order: seq<Event>)
    ensures |Recalled(order)| <= REMEMBERED && forall e :: e in Recalled(order) ==> e in order
    decreases |order|
  {
    if order != [] {
      var front := order[..|order| - 1];
      assert order == front + [order[|order| - 1]];
      RecalledFrom(front);
      RememberFrom(Recalled(front), order[|order| - 1]);
    }
  }

  /** Whatever was read last is remembered. */
  lemma RecalledLast(order: seq<Event>)
    requires order != []
    ensures order[|order| - 1] in Recalled(order)
  {
    RecalledFrom(order[..|order| - 1]);
    var before, e := Recalled(order[..|order| - 1]), order[|order| - 1];
    if e !in before {
      assert Recalled(order)[|Recalled(order)| - 1] == e;
    }
  }

  lemma OrderEvents(log: seq<Event>, shuffle: seq<Event>, written: seq<Event>)
    requires LastAtEnd(log, written)
    ensures ReadOrder(OrderOf(log, shuffle, written), log, written)
    ensures forall e :: e in OrderOf(log, shuffle, written) <==> e in log
  {
    SameEvents(OrderOf(log, shuffle, written), log);
  }

  /** A process that has read files which are not behind the archive knows all it has to. */
  lemma LoadedInformed(s: Store, now: Anchor, shuffle: seq<Event>)
    requires Level(s) && (s.saved.Some? ==> OutboxFits(s.saved.value)) && LastAtEnd(s.log, s.written)
    ensures var l := Loaded(s, now, shuffle); Current(l.state, l.log, l.written) && Informed(l.state, l.log, l.remembered)
  {
    var l, order := Loaded(s, now, shuffle), OrderOf(s.log, shuffle, s.written);
    OrderEvents(s.log, shuffle, s.written);
    if l.state.pending.Some? && PendingEvent(l.state.pending.value) in l.log {
      RecalledLast(order);
    }
    TimelyInformed(l.state, l.log, l.remembered);
  }

  lemma LoadedFine(s: Store, now: Anchor, shuffle: seq<Event>)
    requires Base(s, now, false) && !s.running
    ensures var l := Loaded(s, now, shuffle);
      && Base(l, now, true) && l.running && (Level(s) ==> Level(l))
      && (Ordered(s.log) && Informed(l.state, l.log, l.remembered) ==> InOrder(l))
  {
    var order := OrderOf(s.log, shuffle, s.written);
    OrderEvents(s.log, shuffle, s.written);
    RecalledFrom(order);
  }

  /** A heartbeat on file that the open outage did not lose ends it; otherwise nothing has to be settled. */
  lemma MendedFine(s: Store, now: Anchor)
    requires Base(s, now, true) && s.running && s.state.pending == None
    ensures Fine(s, Mended(s, now).store, now, false, true)
  {
    if EndedAtRest(s) {
      var asked := AskedAtRest(s, now);
      var healthy := asked.(state := asked.state.(status := Healthy));
      assert Base(healthy, now, true) && (InOrder(s) ==> InOrder(healthy)) && (Level(s) ==> Level(healthy));
      SettledFine(healthy, s.heartbeat.value.received.wall, GapAtRest(s, now), now);
      FineTrans(s, healthy, Mended(s, now).store, now, false, true);
    }
  }

  lemma ResumedFine(s: Store, now: Anchor)
    requires Base(s, now, true) && s.running && (InSync(s) || (s.saved == None && s.state.pending == None))
    ensures var a := Resumed(s, now);
      Fine(s, a.store, now, !(a.r.Done? || Finished(s).r.Done?), true)
  {
    var f := Finished(s);
    FinishedFine(s, now, true);
    FinishedEmpties(s);
    if f.r.Done? {
      var m := Mended(f.store, now);
      MendedFine(f.store, now);
      FineTrans(s, f.store, m.store, now, false, true);
      if m.r.Done? {
        SavedFine(m.store, now, false);
        FineTrans(s, m.store, Saved(m.store).store, now, false, true);
      }
    }
  }

  /** What a restart makes of the state on file: an open outage is closed exactly when the heartbeat on file is
      not the one it lost, at the time of that heartbeat and with the difference of the two ages. */
  predicate RestartedAs(l: Store, t: Store, now: Anchor) {
    && t.heartbeat == l.file && t.file == l.file
    && t.state.outage == (if EndedAtRest(l)
                          then Some(l.state.outage.value.(recoveredAt := Some(l.heartbeat.value.received.wall),
                                                          gap := GapAtRest(l, now)))
                          else l.state.outage)
  }

  lemma MendedFacts(s: Store, now: Anchor)
    requires s.state.pending == None && s.heartbeat == s.file
    ensures var a := Mended(s, now);
      RestartedAs(s, a.store, now) && a.store.boot == s.boot
      && (a.r.Done? ==> a.store.state.pending == None)
  {
    if EndedAtRest(s) {
      var asked := AskedAtRest(s, now);
      SettledFacts(asked.(state := asked.state.(status := Healthy)), s.heartbeat.value.received.wall, GapAtRest(s, now));
    }
  }

  lemma ResumedFacts(s: Store, now: Anchor)
    requires s.heartbeat == s.file
    ensures var a := Resumed(s, now);
      a.r.Done? ==> RestartedAs(s, a.store, now) && a.store.boot == s.boot && InSync(a.store) && a.store.state.pending == None
  {
    FinishedEmpties(s);
    var f := Finished(s);
    if f.r.Done? {
      MendedFacts(f.store, now);
      assert EndedAtRest(f.store) == EndedAtRest(s);
      assert EndedAtRest(s) ==> GapAtRest(f.store, now) == GapAtRest(s, now);
    }
  }

  /** The store a restart reads its files from. */
  function AtRest(s: Store): Store {
    Pruned(Stopped(s)).store
  }

  /** A restart. The files stay consistent, order is kept if the process that has read them knows enough, and a
      state file that is not behind the archive guarantees that. */
  lemma StartedFine(s: Store, clock: Anchor, settling: bool, now: Anchor, shuffle: seq<Event>)
    requires Base(s, clock, settling) && NotAfter(clock, now)
    ensures var a, l := Started(s, now, shuffle), Loaded(AtRest(s), now, shuffle);
      && Base(a.store, now, false) && (a.store.running <==> a.r.Done?)
      && (Ordered(s.log) && Informed(l.state, l.log, l.remembered) ==> InOrder(a.store))
      && (Level(s) ==> Level(a.store) && Informed(l.state, l.log, l.remembered))
      && (a.r.Done? ==> RestartedAs(l, a.store, now) && a.store.boot == now.boot && InSync(a.store)
                        && a.store.state.pending == None)
  {
    var p, l := Pruned(Stopped(s)), Loaded(AtRest(s), now, shuffle);
    assert Base(Stopped(s), now, false);
    PrunedFine(Stopped(s), now, false);
    if Ordered(s.log) {
      KeptOrdered(s.log, FaultOf(s).drop);
    }
    LoadedFine(p.store, now, shuffle);
    if Level(s) {
      LoadedInformed(p.store, now, shuffle);
    }
    if p.r.Done? {
      ResumedFine(l, now);
      ResumedFacts(l, now);
      RestBase(Resumed(l, now).store, now, !(Resumed(l, now).r.Done? || Finished(l).r.Done?));
    }
  }

  /** A process that is gone leaves files that fit. */
  lemma RestBase(s: Store, clock: Anchor, settling: bool)
    requires Base(s, clock, settling)
    ensures Base(Stopped(s), clock, false) && (InOrder(s) ==> InOrder(Stopped(s))) && (Level(s) ==> Level(Stopped(s)))
  {
  }
}
