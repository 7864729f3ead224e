/** What a check, a heartbeat and a restart of the watchdog do, said of the clocks, the thresholds and the
    fields alone: which outage is opened, made critical or closed, at what time and with what gap. */
module WatchdogFacts {
  import opened Basics
  import opened WatchdogModel
  import opened WatchdogStep
  import opened WatchdogProof

  // ---- Ages ----

  /** On one boot an age is the monotonic difference. Across boots the wall clock gives it when it is first
      asked for, and from then on the monotonic clock moves it. */
  predicate AgeIs(known: Ages, anchor: Anchor, now: Anchor, age: int) {
    if anchor.boot == now.boot && anchor.mono <= now.mono then anchor.mono + age == now.mono
    else if anchor in known then
      age == known[anchor].1 + (if known[anchor].0 <= now.mono then now.mono - known[anchor].0 else 0)
    else if anchor.wall <= now.wall then anchor.wall + age == now.wall
    else age == 0
  }

  lemma AgeExactly(known: Ages, anchor: Anchor, now: Anchor, age: int)
    ensures AgeIs(known, anchor, now, age) <==> age == AgeBy(known, anchor, now)
  {
  }

  /** A later reading of the wall clock never changes an age that was asked for before, nor does asking for
      another one. */
  lemma AgeAcross(known: Ages, anchor: Anchor, other: Anchor, first: Anchor, later: Anchor)
    requires anchor.boot != first.boot && first.boot == later.boot && first.mono <= later.mono && anchor !in known
    ensures var asked := Asked(known, anchor, first);
            AgeBy(Asked(asked, other, later), anchor, later)
              == (if anchor.wall <= first.wall then first.wall - anchor.wall else 0) + (later.mono - first.mono)
  {
  }

  // ---- The archive ----

  /** The first event of an outage may come before the second. */
  predicate Precedes(first: Kind, second: Kind) {
    (first == Opening && second == Escalation) || (first == Opening && second == Recovery)
    || (first == Escalation && second == Recovery)
  }

  lemma OrderedExactly(log: seq<Event>)
    ensures Ordered(log) <==>
              forall i, j :: 0 <= i < j < |log| && log[i].outage == log[j].outage ==> Precedes(log[i].kind, log[j].kind)
  {
    forall first: Kind, second: Kind ensures Precedes(first, second) <==> Rank(first) < Rank(second) {
    }
  }

  // ---- The outbox ----

  /** Nothing but these events is written. */
  predicate WritesOnly(s: Store, t: Store, events: set<Event>) {
    forall e :: e in t.written ==> e in s.written || e in events
  }

  /** The event is in the archive's history, or the process had it in its memory. */
  predicate Told(s: Store, t: Store, e: Event) {
    e in t.written || e in s.remembered
  }

  /** The event that was waiting to be archived, if there was one. */
  function Waiting(st: State): (events: set<Event>) {
    match st.pending
    case None => {}
    case Some(p) => {Event(p.outage.id, p.kind)}
  }

  lemma FinishedWrites(s: Store)
    ensures var a := Finished(s);
      && WritesOnly(s, a.store, Waiting(s.state)) && (forall e :: e in s.written ==> e in a.store.written)
      && (a.r.Done? ==> forall e :: e in Waiting(s.state) ==> Told(s, a.store, e))
      && (s.fate == [] ==> a.r.Done? && a.store.fate == [])
      && (a.r.Done? ==> forall e :: e in a.store.remembered ==> e in s.remembered || e in Waiting(s.state))
  {
  }

  lemma PostedWrites(s: Store)
    requires s.state.pending.Some?
    ensures var a := Posted(s);
      && WritesOnly(s, a.store, Waiting(s.state)) && (forall e :: e in s.written ==> e in a.store.written)
      && (a.r.Done? ==> forall e :: e in Waiting(s.state) ==> Told(s, a.store, e))
      && (s.fate == [] ==> a.r.Done? && a.store.fate == [])
  {
    FinishedWrites(Saved(s).store);
  }

  // ---- A check ----

  /** The outage after a check that finds the last sign of life `age` old. */
  predicate Watched(s: Store, t: Store, now: Anchor, age: int, limits: Limits) {
    match s.state.outage
    case Some(o) =>
      if o.recoveredAt == None then t.state.outage == Some(o.(critical := o.critical || age >= limits.critical))
      else if age < limits.warning then t.state.outage == s.state.outage
      else OpenedNow(s, t, now, age >= limits.critical)
    case None =>
      if age < limits.warning then t.state.outage == None else OpenedNow(s, t, now, age >= limits.critical)
  }

  /** An outage of a new name began now, with the heartbeat that was lost. */
  predicate OpenedNow(s: Store, t: Store, now: Anchor, severe: bool) {
    && t.state.outage.Some?
    && var o := t.state.outage.value;
       && o.id == s.next && o.openedAt == now.wall && o.critical == severe && o.recoveredAt == None && o.gap == None
       && (if s.heartbeat.Some? then o.lastAnchor == Some(s.heartbeat.value.received) else o.lastAnchor == None)
  }

  /** What the status says after it. */
  predicate Says(s: Store, t: Store, age: int, limits: Limits) {
    if age >= limits.critical then t.state.status == Critical
    else if age >= limits.warning then t.state.status == Warned
    else if s.state.outage.Some? && s.state.outage.value.recoveredAt == None then t.state.status == s.state.status
    else t.state.status == Healthy
  }

  /** The event a check adds: the opening, or the escalation of an outage that was open and not critical. */
  function Added(s: Store, age: int, limits: Limits): (events: set<Event>) {
    if s.state.outage.Some? && s.state.outage.value.recoveredAt == None then
      if !s.state.outage.value.critical && age >= limits.critical then {Event(s.state.outage.value.id, Escalation)} else {}
    else if age >= limits.warning then {Event(s.next, Opening)}
    else {}
  }

  /** The outbox is empty and the state is on file. */
  predicate AtEase(t: Store) {
    t.state.pending == None && t.saved == Some(t.state)
  }

  /** A completed check changed the outage and the status by the age, and archived what was waiting and what
      it added, and nothing else. */
  predicate ChecksBy(s: Store, t: Store, now: Anchor, age: int, limits: Limits) {
    && Watched(s, t, now, age, limits) && Says(s, t, age, limits) && AtEase(t)
    && WritesOnly(s, t, Waiting(s.state) + Added(s, age, limits))
    && forall e :: e in Waiting(s.state) + Added(s, age, limits) ==> Told(s, t, e)
  }

  lemma JudgedSays(s: Store, now: Anchor, age: int, limits: Limits)
    requires s.state.pending == None && 0 < limits.warning < limits.critical
    ensures var a := Judged(s, now, age, limits);
      && (a.r.Done? ==> ChecksBy(s, a.store, now, age, limits))
      && Watched(s, a.store, now, age, limits) && WritesOnly(s, a.store, Added(s, age, limits))
      && (s.fate == [] ==> a.r.Done? && a.store.fate == [])
      && (forall e :: e in s.written ==> e in a.store.written)
  {
    JudgedFacts(s, now, age, limits);
    ReactedWrites(s, now, age, limits);
    assert Watched(s, Judged(s, now, age, limits).store, now, age, limits);
    assert Judged(s, now, age, limits).store.written == ReactedTo(s, now, age, limits).store.written;
  }

  lemma ReactedWrites(s: Store, now: Anchor, age: int, limits: Limits)
    requires s.state.pending == None && 0 < limits.warning < limits.critical
    ensures var a := ReactedTo(s, now, age, limits);
      && WritesOnly(s, a.store, Added(s, age, limits)) && (forall e :: e in s.written ==> e in a.store.written)
      && (a.r.Done? ==> forall e :: e in Added(s, age, limits) ==> Told(s, a.store, e))
      && (s.fate == [] ==> a.r.Done? && a.store.fate == [])
  {
    if age >= limits.warning && !IsOpen(s.state) {
      PostedWrites(Opened(s, now, age >= limits.critical));
    } else if Escalates(s.state, age, limits) {
      PostedWrites(Escalated(s));
    }
  }

  /** A check, given the age of the last sign of life: the latest heartbeat or, before any, the start of the
      watch. In the grace period nothing but the outbox is dealt with. Failing writes can stop it, but never
      make it do anything else to the outage; without failures it completes. */
  lemma TickSays(s: Store, now: Anchor, limits: Limits, age: int)
    requires 0 < limits.warning < limits.critical
    requires AgeIs(s.fallback, if s.heartbeat.Some? then s.heartbeat.value.received else s.state.startedAt, now, age)
    ensures var a := Ticked(s, now, limits);
      && a.store.heartbeat == s.heartbeat && a.store.file == s.file && a.store.state.startedAt == s.state.startedAt
      && (s.heartbeat == None && age < limits.grace ==>
            a.store.state.outage == s.state.outage && a.store.state.status == s.state.status
            && (a.r.Done? ==> a.store.state.pending == None) && WritesOnly(s, a.store, Waiting(s.state)))
      && (s.heartbeat.Some? || age >= limits.grace ==>
            && (a.r.Done? ==> ChecksBy(s, a.store, now, age, limits))
            && (a.store.state.outage == s.state.outage || Watched(s, a.store, now, age, limits)))
      && (s.fate == [] ==> a.r.Done? && a.store.fate == [])
  {
    PreparedSays(s);
    var p := Prepared(s);
    if p.r.Done? {
      CheckedSays(p.store, now, limits, age);
      CheckJoins(s, p.store, Checked(p.store, now, limits).store, now, age, limits);
    }
  }

  /** Once the outbox has been dealt with a check says of the old store what it says of the new one. */
  lemma CheckJoins(s: Store, p: Store, t: Store, now: Anchor, age: int, limits: Limits)
    requires p.heartbeat == s.heartbeat && p.next == s.next && p.state == s.state.(pending := None)
    requires WritesOnly(s, p, Waiting(s.state)) && (forall e :: e in p.written ==> e in t.written)
    requires forall e :: e in Waiting(s.state) ==> Told(s, p, e)
    requires forall e :: e in p.remembered ==> e in s.remembered || e in Waiting(s.state)
    ensures Watched(p, t, now, age, limits) ==> Watched(s, t, now, age, limits)
    ensures ChecksBy(p, t, now, age, limits) ==> ChecksBy(s, t, now, age, limits)
    ensures WritesOnly(p, t, {}) ==> WritesOnly(s, t, Waiting(s.state))
  {
    assert Waiting(p.state) == {};
    forall e | e in Waiting(s.state) ensures Told(s, t, e) {
    }
  }

  lemma PreparedSays(s: Store)
    ensures var a := Prepared(s);
      && a.store.heartbeat == s.heartbeat && a.store.file == s.file && a.store.next == s.next
      && a.store.fallback == s.fallback && a.store.state.startedAt == s.state.startedAt
      && a.store.state.outage == s.state.outage && a.store.state.status == s.state.status
      && (a.r.Done? ==> a.store.state == s.state.(pending := None))
      && WritesOnly(s, a.store, Waiting(s.state)) && (forall e :: e in s.written ==> e in a.store.written)
      && (a.r.Done? ==> forall e :: e in Waiting(s.state) ==> Told(s, a.store, e))
      && (a.r.Done? ==> forall e :: e in a.store.remembered ==> e in s.remembered || e in Waiting(s.state))
      && (s.fate == [] ==> a.r.Done? && a.store.fate == [])
  {
    FinishedEmpties(s);
    FinishedWrites(s);
  }

  lemma CheckedSays(s: Store, now: Anchor, limits: Limits, age: int)
    requires s.state.pending == None && 0 < limits.warning < limits.critical
    requires AgeIs(s.fallback, if s.heartbeat.Some? then s.heartbeat.value.received else s.state.startedAt, now, age)
    ensures var a := Checked(s, now, limits);
      && a.store.heartbeat == s.heartbeat && a.store.file == s.file && a.store.state.startedAt == s.state.startedAt
      && (forall e :: e in s.written ==> e in a.store.written)
      && (if s.heartbeat == None && age < limits.grace then
            a.r.Done? && a.store.state == s.state && WritesOnly(s, a.store, {})
          else (a.r.Done? ==> ChecksBy(s, a.store, now, age, limits)) && Watched(s, a.store, now, age, limits))
      && (s.fate == [] ==> a.r.Done? && a.store.fate == [])
  {
    AgeExactly(s.fallback, LastSign(s), now, age);
    if AgeJudged(s, now, limits).Some? {
      var asked := s.(fallback := Asked(s.fallback, LastSign(s), now));
      JudgedFacts(asked, now, age, limits);
      JudgedSays(asked, now, age, limits);
      SameChecks(s, asked, Judged(asked, now, age, limits).store, now, age, limits);
    }
  }

  /** What a check says does not depend on the ages asked for. */
  lemma SameChecks(s: Store, asked: Store, t: Store, now: Anchor, age: int, limits: Limits)
    requires asked == s.(fallback := asked.fallback)
    ensures Watched(asked, t, now, age, limits) ==> Watched(s, t, now, age, limits)
    ensures ChecksBy(asked, t, now, age, limits) ==> ChecksBy(s, t, now, age, limits)
  {
  }

  // ---- A heartbeat ----

  /** The open outage was closed at that time with that gap; one that was not open is as it was. */
  predicate ClosedAt(s: Store, t: Store, at: int, gap: Option<int>) {
    match s.state.outage
    case None => t.state.outage == None
    case Some(o) =>
      if o.recoveredAt.Some? then t.state.outage == s.state.outage
      else t.state.outage == Some(Outage(o.id, o.openedAt, o.critical, Some(at), gap, o.lastAnchor))
  }

  /** The event that tells of the closing. */
  function Closing(s: Store): (events: set<Event>) {
    if s.state.outage.Some? && s.state.outage.value.recoveredAt == None then {Event(s.state.outage.value.id, Recovery)}
    else {}
  }

  lemma TakenSays(s: Store, at: int, gap: Option<int>, sampled: bool)
    requires s.state.pending == None
    ensures var a := SettledAndRecorded(s, at, gap, sampled);
      && a.store.heartbeat == s.heartbeat && a.store.file == s.file && a.store.state.startedAt == s.state.startedAt
      && ClosedAt(s, a.store, at, gap) && WritesOnly(s, a.store, Closing(s))
      && (a.r.Done? ==> AtEase(a.store) && a.store.state.status == Healthy
                        && forall e :: e in Closing(s) ==> Told(s, a.store, e))
      && (s.fate == [] ==> a.r.Done?)
  {
    SettledFacts(s, at, gap);
    SettledWrites(s, at, gap);
    var c := Settled(s, at, gap);
    if c.r.Done? {
      RecordedFacts(c.store, sampled);
    }
  }

  lemma SettledWrites(s: Store, at: int, gap: Option<int>)
    requires s.state.pending == None
    ensures var a := Settled(s, at, gap);
      && WritesOnly(s, a.store, Closing(s)) && (forall e :: e in s.written ==> e in a.store.written)
      && (a.r.Done? ==> forall e :: e in Closing(s) ==> Told(s, a.store, e))
      && (s.fate == [] ==> a.r.Done? && a.store.fate == [])
      && a.store.running == s.running
  {
    if IsOpen(s.state) {
      PostedWrites(Closed(s, at, gap));
    }
  }

  /** What an outage ended by a heartbeat now is closed with: the age of the heartbeat before, or without one
      the time since it was opened. */
  predicate GapIs(s: Store, now: Anchor, gap: int) {
    if s.heartbeat.Some? then AgeIs(s.fallback, s.heartbeat.value.received, now, gap)
    else s.state.outage.Some? ==>
      var begun := s.state.outage.value.openedAt;
      if begun <= now.wall then begun + gap == now.wall else gap == 0
  }

  lemma WelcomedSays(s: Store, now: Anchor, timestamp: int, sampled: bool, gap: int)
    requires s.state.pending == None && GapIs(s, now, gap)
    ensures var a := Welcomed(s, now, timestamp, sampled);
      && (a.r.Done? ==>
            && a.store.heartbeat == Some(Heartbeat(timestamp, now)) && a.store.file == a.store.heartbeat
            && ClosedAt(s, a.store, now.wall, Some(gap)) && AtEase(a.store) && a.store.state.status == Healthy
            && a.store.state.startedAt == s.state.startedAt
            && WritesOnly(s, a.store, Closing(s)) && forall e :: e in Closing(s) ==> Told(s, a.store, e))
      && (a.store.state.outage == s.state.outage
          || (a.store.heartbeat == Some(Heartbeat(timestamp, now)) && a.store.file == a.store.heartbeat))
      && (s.fate == [] ==> a.r.Done?)
  {
    if s.heartbeat.Some? {
      AgeExactly(s.fallback, s.heartbeat.value.received, now, gap);
    }
    var a := Accepted(AskedLast(s, now), Heartbeat(timestamp, now));
    if a.r.Done? {
      var c := SettledAndRecorded(a.store, now.wall, GapAt(s, now), sampled);
      assert Welcomed(s, now, timestamp, sampled) == c;
      TakenSays(a.store, now.wall, GapAt(s, now), sampled);
      TakenJoins(s, a.store, c.store, now.wall, GapAt(s, now), gap);
    }
  }

  /** Taking the heartbeat over leaves the outage to be closed. */
  lemma TakenJoins(s: Store, m: Store, t: Store, at: int, given: Option<int>, gap: int)
    requires m.state == s.state && m.written == s.written && m.remembered == s.remembered
    requires IsOpen(s.state) ==> given == Some(gap)
    ensures ClosedAt(m, t, at, given) ==> ClosedAt(s, t, at, Some(gap))
    ensures Closing(m) == Closing(s) && (WritesOnly(m, t, Closing(m)) ==> WritesOnly(s, t, Closing(s)))
    ensures (forall e :: e in Closing(m) ==> Told(m, t, e)) ==> forall e :: e in Closing(s) ==> Told(s, t, e)
  {
  }

  /** A heartbeat that does not advance is refused and changes nothing, unless the wall clock went back. Any
      other is checked for first; it is on file before it is taken over, and the outage that is open then is
      closed at its time with the age of the heartbeat before. Without failures it completes. */
  lemma BeatSays(s: Store, now: Anchor, timestamp: int, sampled: bool, limits: Limits, gap: int)
    requires 0 < limits.warning < limits.critical
    requires GapIs(Ticked(s, now, limits).store, now, gap)
    ensures var a, m := Received(s, now, timestamp, sampled, limits), Ticked(s, now, limits);
      if s.heartbeat.Some? && timestamp <= s.heartbeat.value.timestamp && now.wall >= s.heartbeat.value.received.wall
      then a == After(s, Raised)
      else
        && (a.r.Done? ==>
              && a.store.heartbeat == Some(Heartbeat(timestamp, now)) && a.store.file == a.store.heartbeat
              && ClosedAt(m.store, a.store, now.wall, Some(gap)) && AtEase(a.store) && a.store.state.status == Healthy
              && WritesOnly(m.store, a.store, Closing(m.store)) && forall e :: e in Closing(m.store) ==> Told(m.store, a.store, e))
        && (a.store.heartbeat == s.heartbeat ==> a.store.state.outage == m.store.state.outage)
        && (s.fate == [] ==> a.r.Done?)
  {
    var age := AgeBy(s.fallback, LastSign(s), now);
    AgeExactly(s.fallback, LastSign(s), now, age);
    TickSays(s, now, limits, age);
    var m := Ticked(s, now, limits);
    if m.r.Done? {
      TickEmpties(s, now, limits);
      WelcomedSays(m.store, now, timestamp, sampled, gap);
    }
  }

  lemma TickEmpties(s: Store, now: Anchor, limits: Limits)
    requires 0 < limits.warning < limits.critical && Ticked(s, now, limits).r.Done?
    ensures Ticked(s, now, limits).store.state.pending == None
  {
    FinishedEmpties(s);
    CheckedFacts(Prepared(s).store, now, limits);
  }

  /** Between the check and the heartbeat no age moves: the gap is the age the check judged by. */
  lemma GapIsAge(s: Store, now: Anchor, limits: Limits, age: int)
    requires 0 < limits.warning < limits.critical && s.heartbeat.Some?
    requires AgeIs(s.fallback, s.heartbeat.value.received, now, age)
    ensures GapIs(Ticked(s, now, limits).store, now, age)
  {
    TickSays(s, now, limits, age);
    PreparedSays(s);
    var p := Prepared(s);
    if p.r.Done? {
      AgeExactly(s.fallback, LastSign(s), now, age);
      JudgedAges(p.store.(fallback := Asked(s.fallback, LastSign(s), now)), now, age, limits);
    }
  }

  lemma JudgedAges(s: Store, now: Anchor, age: int, limits: Limits)
    requires s.state.pending == None
    ensures Judged(s, now, age, limits).store.fallback == s.fallback
  {
    ReactedAges(s, now, age, limits);
  }

  lemma ReactedAges(s: Store, now: Anchor, age: int, limits: Limits)
    requires s.state.pending == None
    ensures ReactedTo(s, now, age, limits).store.fallback == s.fallback
  {
    if age >= limits.warning && !IsOpen(s.state) {
      PostedEmpties(Opened(s, now, age >= limits.critical));
    } else if Escalates(s.state, age, limits) {
      PostedEmpties(Escalated(s));
    }
  }

  // ---- A restart ----

  /** The heartbeat on file came after the one the open outage of that state lost. */
  predicate OutlivedBy(st: State, file: Option<Heartbeat>) {
    && st.outage.Some? && st.outage.value.recoveredAt == None
    && file.Some? && st.outage.value.lastAnchor != Some(file.value.received)
  }

  /** How a completed restart leaves the outage on file: closed by the heartbeat on file if that came after the
      one it lost, at that heartbeat's time and with the time between the two, and otherwise as it was. */
  predicate ResumesFrom(st: State, file: Option<Heartbeat>, t: State, gap: Option<int>) {
    && t.startedAt == st.startedAt && t.pending == None
    && if OutlivedBy(st, file) then
         var o := st.outage.value;
         && t.outage == Some(Outage(o.id, o.openedAt, o.critical, Some(file.value.received.wall), gap, o.lastAnchor))
         && t.status == Healthy
       else t.outage == st.outage && t.status == st.status
  }

  /** The time between the lost heartbeat and the one on file; an outage that lost none has no such gap. */
  predicate GapBetween(st: State, file: Option<Heartbeat>, now: Anchor, lost: int, seen: int, gap: Option<int>) {
    OutlivedBy(st, file) ==>
      match st.outage.value.lastAnchor
      case None => gap == st.outage.value.gap
      case Some(anchor) =>
        && AgeIs(map[], anchor, now, lost) && AgeIs(map[], file.value.received, now, seen)
        && gap == Some(if lost >= seen then lost - seen else 0)
  }

  /** The state a process starts from. */
  predicate StartsFrom(s: Store, now: Anchor, st: State) {
    match s.saved
    case Some(on) => st == on
    case None => st.status == Unknown && st.startedAt == now && st.outage == None && st.pending == None
  }

  /** A restart: the new process has the heartbeat and the state that are on file, closes what the heartbeat on
      file ended, and has archived what was waiting and that closing. Without failures it completes. */
  lemma RestartSays(s: Store, now: Anchor, shuffle: seq<Event>, st: State, lost: int, seen: int, gap: Option<int>)
    requires StartsFrom(s, now, st) && GapBetween(st, s.file, now, lost, seen, gap)
    ensures var a := Started(s, now, shuffle);
      && a.store.file == s.file
      && (if a.r.Done? then
            && a.store.running && a.store.boot == now.boot && a.store.heartbeat == s.file
            && ResumesFrom(st, s.file, a.store.state, gap) && a.store.saved == Some(a.store.state)
            && (OutlivedBy(st, s.file) ==>
                  Event(st.outage.value.id, Recovery) in a.store.written || Event(st.outage.value.id, Recovery) in s.log
                  || Event(st.outage.value.id, Recovery) in Waiting(st))
            && forall e :: e in Waiting(st) ==> e in a.store.written || e in s.log
          else !a.store.running)
      && (s.fate == [] ==> a.r.Done?)
  {
    var p := Pruned(Stopped(s));
    if p.r.Done? {
      var l := Loaded(p.store, now, shuffle);
      RecalledArchived(p.store, now, shuffle);
      LoadedAges(p.store, now, shuffle);
      ResumedSays(l, now, lost, seen, gap);
    }
  }

  /** A new process knows no age but those the clocks give now. */
  lemma LoadedAges(s: Store, now: Anchor, shuffle: seq<Event>)
    ensures forall anchor, age :: AgeIs(Loaded(s, now, shuffle).fallback, anchor, now, age) <==> AgeIs(map[], anchor, now, age)
  {
  }

  lemma ResumedSays(s: Store, now: Anchor, lost: int, seen: int, gap: Option<int>)
    requires s.running && s.heartbeat == s.file && GapBetween(s.state, s.file, now, lost, seen, gap)
    requires forall anchor, age :: AgeIs(s.fallback, anchor, now, age) <==> AgeIs(map[], anchor, now, age)
    ensures var a := Resumed(s, now);
      && a.store.heartbeat == s.heartbeat && a.store.file == s.file && a.store.boot == s.boot
      && (a.r.Done? ==>
            && a.store.running && ResumesFrom(s.state, s.file, a.store.state, gap) && a.store.saved == Some(a.store.state)
            && (OutlivedBy(s.state, s.file) ==>
                  Event(s.state.outage.value.id, Recovery) in Waiting(s.state)
                  || Told(s, a.store, Event(s.state.outage.value.id, Recovery)))
            && forall e :: e in Waiting(s.state) ==> Told(s, a.store, e))
      && (s.fate == [] ==> a.r.Done?)
  {
    FinishedEmpties(s);
    FinishedWrites(s);
    FinishedRuns(s);
    var f := Finished(s);
    if f.r.Done? {
      MendedSays(f.store, now, lost, seen, gap);
    }
  }

  lemma FinishedRuns(s: Store)
    ensures Finished(s).store.running == s.running
  {
  }

  lemma RecalledArchived(s: Store, now: Anchor, shuffle: seq<Event>)
    ensures forall e :: e in Loaded(s, now, shuffle).remembered ==> e in s.log
  {
    var order := OrderOf(s.log, shuffle, s.written);
    RecalledFrom(order);
    if ReadOrder(shuffle, s.log, s.written) {
      SameEvents(order, s.log);
    }
  }

  lemma MendedSays(s: Store, now: Anchor, lost: int, seen: int, gap: Option<int>)
    requires s.state.pending == None && s.heartbeat == s.file && GapBetween(s.state, s.file, now, lost, seen, gap)
    requires forall anchor, age :: AgeIs(s.fallback, anchor, now, age) <==> AgeIs(map[], anchor, now, age)
    ensures var a := Mended(s, now);
      && a.store.heartbeat == s.heartbeat && a.store.file == s.file && a.store.running == s.running && a.store.boot == s.boot
      && (a.r.Done? ==> ResumesFrom(s.state, s.file, a.store.state, gap))
      && (forall e :: e in s.written ==> e in a.store.written)
      && (a.r.Done? && OutlivedBy(s.state, s.file) ==> Told(s, a.store, Event(s.state.outage.value.id, Recovery)))
      && (s.fate == [] ==> a.r.Done? && a.store.fate == [])
  {
    if EndedAtRest(s) {
      var asked := AskedAtRest(s, now);
      var healthy := asked.(state := asked.state.(status := Healthy));
      GapAgrees(s, now, lost, seen, gap);
      SettledFacts(healthy, s.heartbeat.value.received.wall, gap);
      SettledWrites(healthy, s.heartbeat.value.received.wall, gap);
      assert Mended(s, now) == Settled(healthy, s.heartbeat.value.received.wall, gap);
    }
  }

  lemma GapAgrees(s: Store, now: Anchor, lost: int, seen: int, gap: Option<int>)
    requires s.heartbeat == s.file && GapBetween(s.state, s.file, now, lost, seen, gap) && EndedAtRest(s)
    requires forall anchor, age :: AgeIs(s.fallback, anchor, now, age) <==> AgeIs(map[], anchor, now, age)
    ensures gap == GapAtRest(s, now)
  {
    if s.state.outage.value.lastAnchor.Some? {
      AgeExactly(s.fallback, s.state.outage.value.lastAnchor.value, now, lost);
      AgeExactly(s.fallback, s.heartbeat.value.received, now, seen);
    }
  }
}
