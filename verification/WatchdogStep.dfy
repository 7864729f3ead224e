/** What each operation of the off-box watchdog does to the process and its files, as values. Durable writes
    may fail before or after they take effect, and old archive files may vanish at every pruning. */
module WatchdogStep {
  import opened Basics
  import opened WatchdogModel

  /** The first readings of an age that the clocks cannot give exactly: when it was first asked for, and the
      age the wall clock gave then. */
  type Ages = map<Anchor, (int, int)>

  /** The process, then the files, then what is still to happen to writes; `written` is everything ever
      appended to the archive. */
  datatype Store = Store(
    running: bool, boot: nat, state: State, heartbeat: Option<Heartbeat>, remembered: seq<Event>, fallback: Ages,
    saved: Option<State>, file: Option<Heartbeat>, log: seq<Event>, fate: seq<Fault>, next: nat, written: seq<Event>)

  /** The store after an operation, and how it ended. */
  datatype After = After(store: Store, r: Outcome)

  function Empty(fate: seq<Fault>, clock: Anchor): Store {
    Store(false, 0, State(Unknown, clock, None, None), None, [], map[], None, None, [], fate, 0, [])
  }

  /** How the next durable write ends; past the script every write succeeds. */
  function FaultOf(s: Store): Fault {
    if s.fate == [] then Fault(Written, {}) else s.fate[0]
  }

  function Spent(s: Store): Store {
    s.(fate := if s.fate == [] then [] else s.fate[1..])
  }

  // ---- Durable steps ----

  function Saved(s: Store): After {
    var f := FaultOf(s);
    After(if f.result.FailedBefore? then Spent(s) else Spent(s).(saved := Some(s.state)),
          if f.result.Written? then Done else Raised)
  }

  /** Appends an event; old files may be pruned after it. */
  function Appended(s: Store, e: Event): After {
    var f := FaultOf(s);
    if f.result.Written? then After(Spent(s).(log := Kept(s.log + [e], f.drop), written := s.written + [e]), Done)
    else After(Spent(s), Raised)
  }

  /** The pending event is in the archive; the outbox is emptied. */
  function Acknowledged(s: Store, e: Event): Store {
    s.(remembered := Remember(s.remembered, e), state := s.state.(pending := None))
  }

  /** Archives the pending event unless it is remembered, and empties the outbox. */
  function Archived(s: Store): After
    requires s.state.pending.Some?
  {
    var e := PendingEvent(s.state.pending.value);
    if e in s.remembered then After(Acknowledged(s, e), Done)
    else
      var a := Appended(s, e);
      if a.r.Done? then After(Acknowledged(a.store, e), Done) else a
  }

  function Finished(s: Store): After {
    if s.state.pending == None then After(s, Done)
    else
      var a := Archived(s);
      if a.r.Done? then Saved(a.store) else a
  }

  /** Saves the outbox before anything is archived, then archives and empties it. */
  function Posted(s: Store): After {
    var a := Saved(s);
    if a.r.Done? then Finished(a.store) else a
  }

  function Pruned(s: Store): After {
    var f := FaultOf(s);
    After(Spent(s).(log := Kept(s.log, f.drop)), if f.result.Written? then Done else Raised)
  }

  // ---- Changes of the outage; each fills the empty outbox ----

  function Lost(s: Store): Option<Anchor> {
    if s.heartbeat.Some? then Some(s.heartbeat.value.received) else None
  }

  function Opened(s: Store, now: Anchor, severe: bool): Store {
    var outage := Outage(s.next, now.wall, severe, None, None, Lost(s));
    s.(next := s.next + 1,
       state := s.state.(outage := Some(outage), status := if severe then Critical else Warned,
                         pending := Some(Pending(Opening, outage))))
  }

  function Escalated(s: Store): Store
    requires IsOpen(s.state)
  {
    var outage := s.state.outage.value.(critical := true);
    s.(state := s.state.(outage := Some(outage), pending := Some(Pending(Escalation, outage))))
  }

  function Closed(s: Store, at: int, gap: Option<int>): Store
    requires IsOpen(s.state)
  {
    var outage := s.state.outage.value.(recoveredAt := Some(at), gap := gap);
    s.(state := s.state.(outage := Some(outage), pending := Some(Pending(Recovery, outage))))
  }

  // ---- Ages ----

  /** The age of a reading: exact on one observer boot, otherwise the wall-clock difference when it was
      first asked for, advanced by the monotonic clock. */
  function AgeBy(fallback: Ages, anchor: Anchor, now: Anchor): int {
    if Exact(anchor, now) then now.mono - anchor.mono
    else if anchor in fallback then fallback[anchor].1 + Max0(now.mono - fallback[anchor].0)
    else Max0(now.wall - anchor.wall)
  }

  function Asked(fallback: Ages, anchor: Anchor, now: Anchor): Ages {
    if Exact(anchor, now) || anchor in fallback then fallback
    else fallback[anchor := (now.mono, Max0(now.wall - anchor.wall))]
  }

  // ---- Ticks ----

  /** Opens or escalates the outage the age calls for. */
  function ReactedTo(s: Store, now: Anchor, age: int, limits: Limits): After {
    if age >= limits.warning && !IsOpen(s.state) then Posted(Opened(s, now, age >= limits.critical))
    else if Escalates(s.state, age, limits) then Posted(Escalated(s))
    else After(s, Done)
  }

  function SeverityOf(age: int, limits: Limits): Status {
    if age >= limits.critical then Critical else if age >= limits.warning then Warned else Healthy
  }

  /** Judges the age of the last sign of life and saves. */
  function Judged(s: Store, now: Anchor, age: int, limits: Limits): After {
    var a := ReactedTo(s, now, age, limits);
    if a.r.Done? then
      Saved(if !IsOpen(s.state) || SeverityOf(age, limits) != Healthy
            then a.store.(state := a.store.state.(status := SeverityOf(age, limits))) else a.store)
    else a
  }

  /** The last sign of life: the latest heartbeat, or the start of the watch. */
  function LastSign(s: Store): Anchor {
    if s.heartbeat.Some? then s.heartbeat.value.received else s.state.startedAt
  }

  /** The age a check judges by; None during the grace period at the start. */
  function AgeJudged(s: Store, now: Anchor, limits: Limits): Option<int> {
    var age := AgeBy(s.fallback, LastSign(s), now);
    if s.heartbeat == None && age < limits.grace then None else Some(age)
  }

  function Checked(s: Store, now: Anchor, limits: Limits): After {
    var asked := s.(fallback := Asked(s.fallback, LastSign(s), now));
    match AgeJudged(s, now, limits)
    case None => After(asked, Done)
    case Some(age) => Judged(asked, now, age, limits)
  }

  /** What a check does first: the outbox, then the archive's old files. */
  function Prepared(s: Store): After {
    var a := Finished(s);
    if a.r.Done? then Pruned(a.store) else a
  }

  function Ticked(s: Store, now: Anchor, limits: Limits): After {
    var a := Prepared(s);
    if a.r.Done? then Checked(a.store, now, limits) else a
  }

  // ---- Heartbeats ----

  /** Saves the heartbeat, then takes it over. */
  function Accepted(s: Store, h: Heartbeat): After {
    var f := FaultOf(s);
    if f.result.FailedBefore? then After(Spent(s), Raised)
    else if f.result.FailedAfter? then After(Spent(s).(file := Some(h)), Raised)
    else After(Spent(s).(file := Some(h), heartbeat := Some(h)), Done)
  }

  function Settled(s: Store, at: int, gap: Option<int>): After {
    if IsOpen(s.state) then Posted(Closed(s, at, gap)) else After(s, Done)
  }

  /** The snapshot archive may fail; then the status stays unsaved. */
  function Recorded(s: Store, sampled: bool): After {
    var healthy := s.(state := s.state.(status := Healthy));
    if !sampled then Saved(healthy)
    else if FaultOf(s).result.Written? then Saved(Spent(healthy))
    else After(Spent(healthy), Raised)
  }

  function SettledAndRecorded(s: Store, at: int, gap: Option<int>, sampled: bool): After {
    var c := Settled(s, at, gap);
    if c.r.Done? then Recorded(c.store, sampled) else c
  }

  /** The gap a heartbeat ends: since the one before, or since the outage was opened when there was none. */
  function GapAt(s: Store, now: Anchor): Option<int> {
    if s.heartbeat.Some? then Some(AgeBy(s.fallback, s.heartbeat.value.received, now))
    else if IsOpen(s.state) then Some(Max0(now.wall - s.state.outage.value.openedAt))
    else None
  }

  function AskedLast(s: Store, now: Anchor): Store {
    if s.heartbeat.Some? then s.(fallback := Asked(s.fallback, s.heartbeat.value.received, now)) else s
  }

  function Welcomed(s: Store, now: Anchor, timestamp: int, sampled: bool): After {
    var a := Accepted(AskedLast(s, now), Heartbeat(timestamp, now));
    if a.r.Done? then SettledAndRecorded(a.store, now.wall, GapAt(s, now), sampled) else a
  }

  /** A heartbeat that does not advance is refused, unless the wall clock went back. */
  predicate Refused(s: Store, now: Anchor, timestamp: int) {
    s.heartbeat.Some? && timestamp <= s.heartbeat.value.timestamp && now.wall >= s.heartbeat.value.received.wall
  }

  function Received(s: Store, now: Anchor, timestamp: int, sampled: bool, limits: Limits): After {
    if Refused(s, now, timestamp) then After(s, Raised)
    else
      var a := Ticked(s, now, limits);
      if a.r.Done? then Welcomed(a.store, now, timestamp, sampled) else a
  }

  // ---- Restart ----

  function Recalled(order: seq<Event>): seq<Event> {
    if order == [] then [] else Remember(Recalled(order[..|order| - 1]), order[|order| - 1])
  }

  /** The event appended last, if it is still in the archive, is at the end of it. */
  predicate LastAtEnd(log: seq<Event>, written: seq<Event>) {
    written != [] && written[|written| - 1] in log ==> log[|log| - 1] == written[|written| - 1]
  }

  /** The archive files are read in an order that depends on their names, but the current file comes at the
      end, and it ends with the event appended last, if that has not been pruned. */
  predicate ReadOrder(order: seq<Event>, log: seq<Event>, written: seq<Event>) {
    multiset(order) == multiset(log) && |order| == |log| && LastAtEnd(order, written)
  }

  function OrderOf(log: seq<Event>, shuffle: seq<Event>, written: seq<Event>): seq<Event> {
    if ReadOrder(shuffle, log, written) then shuffle else log
  }

  function FirstState(saved: Option<State>, now: Anchor): State {
    if saved.Some? then saved.value else State(Unknown, now, None, None)
  }

  /** The ages a new process asks for at once. */
  function Primed(file: Option<Heartbeat>, st: State, now: Anchor): Ages {
    Asked(if file.Some? then Asked(map[], file.value.received, now) else map[], st.startedAt, now)
  }

  /** A new process has read the files. */
  function Loaded(s: Store, now: Anchor, shuffle: seq<Event>): Store {
    var st := FirstState(s.saved, now);
    s.(running := true, boot := now.boot, state := st, heartbeat := s.file,
       remembered := Recalled(OrderOf(s.log, shuffle, s.written)), fallback := Primed(s.file, st, now))
  }

  /** The heartbeat on file is not the one the open outage lost, so it ended that outage. */
  predicate EndedAtRest(s: Store) {
    IsOpen(s.state) && s.heartbeat.Some? && s.state.outage.value.lastAnchor != Some(s.heartbeat.value.received)
  }

  /** The gap such a heartbeat ends: the age of what was lost less the age of the heartbeat. */
  function GapAtRest(s: Store, now: Anchor): Option<int>
    requires EndedAtRest(s)
  {
    match s.state.outage.value.lastAnchor
    case None => s.state.outage.value.gap
    case Some(lost) =>
      Some(Max0(AgeBy(s.fallback, lost, now)
                - AgeBy(Asked(s.fallback, lost, now), s.heartbeat.value.received, now)))
  }

  function AskedAtRest(s: Store, now: Anchor): Store
    requires EndedAtRest(s)
  {
    match s.state.outage.value.lastAnchor
    case None => s
    case Some(lost) => s.(fallback := Asked(Asked(s.fallback, lost, now), s.heartbeat.value.received, now))
  }

  function Mended(s: Store, now: Anchor): After {
    if EndedAtRest(s) then
      var healthy := AskedAtRest(s, now);
      Settled(healthy.(state := healthy.state.(status := Healthy)), s.heartbeat.value.received.wall, GapAtRest(s, now))
    else After(s, Done)
  }

  /** Replays the outbox, closes what a heartbeat on file ended, and saves. */
  function Resumed(s: Store, now: Anchor): After {
    var a := Finished(s);
    if !a.r.Done? then a
    else
      var c := Mended(a.store, now);
      if c.r.Done? then Saved(c.store) else c
  }

  function Stopped(s: Store): Store {
    s.(running := false)
  }

  /** A new process prunes the archive and starts over the files. An error while starting leaves none. */
  function Started(s: Store, now: Anchor, shuffle: seq<Event>): After {
    var p := Pruned(Stopped(s));
    if !p.r.Done? then p
    else
      var a := Resumed(Loaded(p.store, now, shuffle), now);
      if a.r.Done? then a else After(Stopped(a.store), a.r)
  }
}
