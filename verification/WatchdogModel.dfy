/** The off-box watchdog's durable state and what must hold of it: an outbox in the state file, the
    latest heartbeat, and an append-only archive that old files are pruned from. */
module WatchdogModel {
  import opened Basics

  datatype Kind = Opening | Escalation | Recovery

  function Rank(kind: Kind): nat {
    match kind
    case Opening => 0
    case Escalation => 1
    case Recovery => 2
  }

  /** An archived event; the pair is its stable identity. */
  datatype Event = Event(outage: nat, kind: Kind)

  /** One reading of both clocks, with the observer's boot. */
  datatype Anchor = Anchor(wall: int, mono: nat, boot: nat)

  predicate Before(a: Anchor, b: Anchor) {
    a.boot < b.boot || (a.boot == b.boot && a.mono < b.mono)
  }

  predicate NotAfter(a: Anchor, b: Anchor) {
    a.boot < b.boot || (a.boot == b.boot && a.mono <= b.mono)
  }

  function Max0(x: int): int {
    if x < 0 then 0 else x
  }

  /** Both readings were taken on one observer boot. */
  predicate Exact(anchor: Anchor, now: Anchor) {
    anchor.boot == now.boot && anchor.mono <= now.mono
  }

  datatype Heartbeat = Heartbeat(timestamp: int, received: Anchor)

  datatype Outage = Outage(
    id: nat, openedAt: int, critical: bool, recoveredAt: Option<int>, gap: Option<int>, lastAnchor: Option<Anchor>)

  datatype Pending = Pending(kind: Kind, outage: Outage)

  datatype Status = Unknown | Healthy | Warned | Critical

  datatype State = State(status: Status, startedAt: Anchor, outage: Option<Outage>, pending: Option<Pending>)

  /** How a durable write ends, and what pruning removes after it. A failure may come before the file is
      replaced or after it. */
  datatype Result = Written | FailedBefore | FailedAfter

  datatype Fault = Fault(result: Result, drop: set<Event>)

  /** How many event identities a process remembers. */
  const REMEMBERED: nat := 10000

  // ---- The archive ----

  /** Each outage's events are archived once each, in the order opening, escalation, recovery. */
  predicate Ordered(log: seq<Event>) {
    forall i, j :: 0 <= i < j < |log| && log[i].outage == log[j].outage ==> Rank(log[i].kind) < Rank(log[j].kind)
  }

  /** The archive without the dropped events. */
  function Kept(log: seq<Event>, drop: set<Event>): (kept: seq<Event>)
    ensures forall e :: e in kept <==> e in log && e !in drop
    ensures |kept| <= |log|
  {
    if log == [] then []
    else
      var front := Kept(log[..|log| - 1], drop);
      if log[|log| - 1] in drop then front else front + [log[|log| - 1]]
  }

  lemma {:induction false} KeptOrdered(log: seq<Event>, drop: set<Event>)
    requires Ordered(log)
    ensures Ordered(Kept(log, drop))
  {
    if log != [] {
      var front, last := log[..|log| - 1], log[|log| - 1];
      KeptOrdered(front, drop);
      var kept := Kept(front, drop);
      forall i | 0 <= i < |kept| && kept[i].outage == last.outage
        ensures Rank(kept[i].kind) < Rank(last.kind)
      {
        assert kept[i] in front;
      }
    }
  }

  /** No event of the outage as late as `kind` is retained. */
  predicate NoneAsLate(log: seq<Event>, outage: nat, kind: Kind) {
    forall e :: e in log && e.outage == outage ==> Rank(e.kind) < Rank(kind)
  }

  /** Appending keeps the archive ordered exactly when no event of that outage as late is retained. */
  lemma AppendOrdered(log: seq<Event>, e: Event)
    requires Ordered(log)
    ensures Ordered(log + [e]) <==> NoneAsLate(log, e.outage, e.kind)
  {
    var more := log + [e];
    if Ordered(more) {
      forall f | f in log && f.outage == e.outage ensures Rank(f.kind) < Rank(e.kind) {
        var i :| 0 <= i < |log| && log[i] == f;
        assert more[i] == f && more[|log|] == e;
      }
    } else {
      var i, j :| 0 <= i < j < |more| && more[i].outage == more[j].outage && Rank(more[i].kind) >= Rank(more[j].kind);
      assert more[i] in log;
    }
  }

  function PendingEvent(pending: Pending): Event {
    Event(pending.outage.id, pending.kind)
  }

  /** What replaying the outbox adds to the archive. */
  function Replayed(log: seq<Event>, remembered: seq<Event>, pending: Pending): seq<Event> {
    var e := PendingEvent(pending);
    if e in remembered then log else log + [e]
  }

  /** The guard a restart would need: the pending event is remembered, or nothing as late of its outage
      is retained. */
  predicate ReplayInOrder(log: seq<Event>, remembered: seq<Event>, pending: Pending) {
    PendingEvent(pending) in remembered || NoneAsLate(log, pending.outage.id, pending.kind)
  }

  lemma ReplayOrdered(log: seq<Event>, remembered: seq<Event>, pending: Pending)
    requires Ordered(log)
    ensures Ordered(Replayed(log, remembered, pending)) <==> ReplayInOrder(log, remembered, pending)
  {
    AppendOrdered(log, PendingEvent(pending));
  }

  // ---- The state and the archive together ----

  datatype Limits = Limits(warning: int, critical: int, grace: int)

  /** The outage after a tick that finds the last sign of life `age` old: only a missing heartbeat opens
      one or makes it critical, and nothing here ever closes one. */
  function Reacted(st: State, age: int, now: Anchor, lost: Option<Anchor>, next: nat, limits: Limits): Option<Outage> {
    if IsOpen(st) then
      if age >= limits.critical then Some(st.outage.value.(critical := true)) else st.outage
    else if age >= limits.warning then
      Some(Outage(next, now.wall, age >= limits.critical, None, None, lost))
    else st.outage
  }

  /** A check at this age makes the open outage critical. */
  predicate Escalates(st: State, age: int, limits: Limits) {
    IsOpen(st) && !st.outage.value.critical && age >= limits.critical
  }

  predicate IsOpen(st: State) {
    st.outage.Some? && st.outage.value.recoveredAt == None
  }

  /** The rank of the latest event of its outage a state has finished with; -1 before the opening. */
  function Emitted(st: State): int {
    if st.pending.Some? then Rank(st.pending.value.kind) - 1
    else if st.outage == None || st.outage.value.recoveredAt.Some? then 2
    else if st.outage.value.critical then 1
    else 0
  }

  /** The rank of the latest event a state can account for. */
  function Reach(st: State): int {
    if st.pending.Some? then Rank(st.pending.value.kind) else Emitted(st)
  }

  /** What the outbox says of the outage it belongs to. */
  predicate OutboxFits(st: State) {
    st.pending.Some? ==>
      && st.outage.Some? && st.pending.value.outage.id == st.outage.value.id
      && (st.pending.value.kind.Recovery? <==> st.outage.value.recoveredAt.Some?)
      && (st.pending.value.kind.Escalation? ==> st.outage.value.critical)
  }

  /** A closed outage was closed by a heartbeat on file that came after the one it lost. */
  predicate ClosedByHeartbeat(st: State, file: Option<Heartbeat>, log: seq<Event>) {
    st.outage.Some? ==>
      var o := st.outage.value;
      && (o.lastAnchor.Some? ==> file.Some?)
      && (o.recoveredAt.Some? || Event(o.id, Recovery) in log ==> file.Some? && o.lastAnchor != Some(file.value.received))
  }

  /** Clock readings and outage numbers a state mentions are in the past. */
  predicate InPast(st: State, clock: Anchor, next: nat) {
    && NotAfter(st.startedAt, clock)
    && (st.outage.Some? ==> st.outage.value.id < next)
    && (st.outage.Some? && st.outage.value.lastAnchor.Some? ==> Before(st.outage.value.lastAnchor.value, clock))
  }

  predicate Coherent(st: State, file: Option<Heartbeat>, log: seq<Event>, clock: Anchor, next: nat) {
    OutboxFits(st) && ClosedByHeartbeat(st, file, log) && InPast(st, clock, next)
  }

  /** No event of the state's outage is archived beyond what the state accounts for. */
  predicate Timely(st: State, log: seq<Event>) {
    st.outage.Some? ==> forall e :: e in log && e.outage == st.outage.value.id ==> Rank(e.kind) <= Reach(st)
  }

  /** The event is remembered, and is about to be replayed or will not be forgotten before it can be. */
  predicate StaysKnown(st: State, e: Event, remembered: seq<Event>) {
    e in remembered
    && ((st.pending.Some? && e == PendingEvent(st.pending.value)) || |remembered| + 2 - Emitted(st) <= REMEMBERED)
  }

  /** Whatever is archived beyond what the process has finished is remembered, and stays so. */
  predicate Informed(st: State, log: seq<Event>, remembered: seq<Event>) {
    && (st.outage.Some? ==> forall e :: e in log && e.outage == st.outage.value.id ==>
          Rank(e.kind) <= Emitted(st) || StaysKnown(st, e, remembered))
    && (st.pending.Some? ==> ReplayInOrder(log, remembered, st.pending.value))
  }

  /** A pending event that is in the archive is among the remembered ones. */
  predicate KnowsPending(st: State, log: seq<Event>, remembered: seq<Event>) {
    st.pending.Some? && PendingEvent(st.pending.value) in log ==> PendingEvent(st.pending.value) in remembered
  }

  /** For a state that is not behind the archive that is all a process has to know. */
  lemma TimelyInformed(st: State, log: seq<Event>, remembered: seq<Event>)
    requires OutboxFits(st) && Timely(st, log)
    ensures Informed(st, log, remembered) <==> KnowsPending(st, log, remembered)
  {
    if st.pending.Some? {
      var p := st.pending.value;
      forall e | e in log && e.outage == p.outage.id && e != PendingEvent(p) ensures Rank(e.kind) < Rank(p.kind) {
        assert e == Event(e.outage, e.kind);
      }
    }
  }

  /** The process's view of the heartbeat: an open outage is the one the remembered heartbeat, if any, was
      lost in. While `settling` a heartbeat has just been taken and the outage it ends is not closed yet. */
  predicate Attentive(st: State, heartbeat: Option<Heartbeat>, file: Option<Heartbeat>, log: seq<Event>, settling: bool) {
    && (heartbeat.Some? ==> file.Some?)
    && (settling ==> heartbeat == file)
    && (!settling && IsOpen(st) ==>
          && st.outage.value.lastAnchor == (if heartbeat.Some? then Some(heartbeat.value.received) else None)
          && Event(st.outage.value.id, Recovery) !in log)
  }

  /** Whatever the state has finished with has been written to the archive at some time. */
  predicate Delivered(st: State, written: seq<Event>) {
    st.outage.Some? ==>
      var o := st.outage.value;
      && ((st.pending.Some? ==> !st.pending.value.kind.Opening?) ==> Event(o.id, Opening) in written)
      && (o.recoveredAt.Some? && st.pending == None ==> Event(o.id, Recovery) in written)
  }

  /** The status after a check that finds the last sign of life `age` old. */
  function StatusAfter(st: State, age: int, limits: Limits): Status {
    if age >= limits.critical then Critical
    else if age >= limits.warning then Warned
    else if IsOpen(st) then st.status
    else Healthy
  }

  function Remember(remembered: seq<Event>, e: Event): seq<Event> {
    if e in remembered then remembered
    else if |remembered| + 1 > REMEMBERED then remembered[1..] + [e]
    else remembered + [e]
  }

  /** Archiving the pending event: nothing is archived twice or out of order, and nothing is forgotten
      that may still matter. */
  lemma ArchivedInformed(st: State, log: seq<Event>, remembered: seq<Event>)
    requires st.pending.Some? && OutboxFits(st) && Ordered(log) && Informed(st, log, remembered)
    ensures var after := Replayed(log, remembered, st.pending.value);
            var e := PendingEvent(st.pending.value);
            Ordered(after) && Informed(st.(pending := None), after, Remember(remembered, e))
  {
    ReplayOrdered(log, remembered, st.pending.value);
  }

  lemma PrunedInformed(st: State, log: seq<Event>, remembered: seq<Event>, drop: set<Event>)
    requires Ordered(log) && Informed(st, log, remembered)
    ensures Ordered(Kept(log, drop)) && Informed(st, Kept(log, drop), remembered)
  {
    KeptOrdered(log, drop);
  }

  /** The archive after the pending event was added and old files were pruned. */
  predicate Grown(log: seq<Event>, after: seq<Event>, e: Event) {
    forall f :: f in after ==> f in log || f == e
  }

  /** Emptying the outbox leaves the process's own account right. */
  lemma ArchivedCoherent(st: State, heartbeat: Option<Heartbeat>, file: Option<Heartbeat>, log: seq<Event>,
                         after: seq<Event>, clock: Anchor, next: nat, settling: bool)
    requires st.pending.Some? && Coherent(st, file, log, clock, next)
    requires Attentive(st, heartbeat, file, log, settling)
    requires Grown(log, after, PendingEvent(st.pending.value))
    ensures Coherent(st.(pending := None), file, after, clock, next)
    ensures Attentive(st.(pending := None), heartbeat, file, after, settling)
  {
  }

  /** Nor does it make the file's account wrong. */
  lemma ArchivedOnFile(st: State, saved: State, file: Option<Heartbeat>, log: seq<Event>, after: seq<Event>,
                       clock: Anchor, next: nat)
    requires st.pending.Some? && Coherent(st, file, log, clock, next) && Coherent(saved, file, log, clock, next)
    requires saved.outage.Some? && saved.outage.value.id == st.outage.value.id ==>
               saved.outage.value.lastAnchor == st.outage.value.lastAnchor
    requires Grown(log, after, PendingEvent(st.pending.value))
    ensures Coherent(saved, file, after, clock, next)
  {
  }

  lemma ArchivedTimely(st: State, log: seq<Event>, after: seq<Event>)
    requires st.pending.Some? && OutboxFits(st) && Timely(st, log)
    requires Grown(log, after, PendingEvent(st.pending.value))
    ensures Timely(st, after) && Timely(st.(pending := None), after)
  {
  }

  lemma SameEvents(order: seq<Event>, log: seq<Event>)
    requires multiset(order) == multiset(log)
    ensures |order| == |log| && forall e :: e in order <==> e in log
  {
    assert |multiset(order)| == |order| && |multiset(log)| == |log|;
    forall e ensures e in order <==> e in log {
      assert e in order <==> e in multiset(order);
      assert e in log <==> e in multiset(log);
    }
  }

  /** Once the pending event has been written the state accounts for it. */
  lemma ArchivedDelivered(st: State, saved: Option<State>, before: seq<Event>, written: seq<Event>, log: seq<Event>,
                          after: seq<Event>, remembered: seq<Event>)
    requires st.pending.Some? && OutboxFits(st) && Delivered(st, before) && before <= written
    requires var e := PendingEvent(st.pending.value);
             e in written && Grown(log, after, e)
    requires saved.Some? ==> Delivered(saved.value, before)
    requires (forall e :: e in remembered ==> e in before) && (forall e :: e in log ==> e in before)
    ensures Delivered(st.(pending := None), written) && (saved.Some? ==> Delivered(saved.value, written))
    ensures forall e :: e in Remember(remembered, PendingEvent(st.pending.value)) ==> e in written
    ensures forall e :: e in after ==> e in written
  {
    assert forall e :: e in before ==> e in written;
  }

  /** What must hold of the files. */
  predicate FilesFit(saved: Option<State>, file: Option<Heartbeat>, log: seq<Event>, written: seq<Event>, clock: Anchor,
                     next: nat)
  {
    && (saved.Some? ==> Coherent(saved.value, file, log, clock, next) && Delivered(saved.value, written))
    && (forall e :: e in log ==> e in written && e.outage < next)
    && (file.Some? ==> NotAfter(file.value.received, clock))
  }

  /** What must hold of a running process over them. */
  predicate ProcessFits(st: State, heartbeat: Option<Heartbeat>, file: Option<Heartbeat>, log: seq<Event>,
                        remembered: seq<Event>, written: seq<Event>, clock: Anchor, next: nat, settling: bool)
  {
    && Coherent(st, file, log, clock, next) && Delivered(st, written)
    && (forall e :: e in remembered ==> e in written)
    && Attentive(st, heartbeat, file, log, settling)
    && (heartbeat.Some? ==> NotAfter(heartbeat.value.received, clock))
    && |remembered| <= REMEMBERED
  }

  /** The state file and the process agree on which heartbeat their common outage lost. */
  predicate SameLoss(saved: Option<State>, st: State) {
    saved.Some? && saved.value.outage.Some? && st.outage.Some? && saved.value.outage.value.id == st.outage.value.id
    ==> saved.value.outage.value.lastAnchor == st.outage.value.lastAnchor
  }

  /** The pending event has been brought into the archive: the files fit, and so does the process once it
      has remembered the event and emptied its outbox. */
  lemma Brought(st: State, saved: Option<State>, heartbeat: Option<Heartbeat>, file: Option<Heartbeat>, log: seq<Event>,
                after: seq<Event>, remembered: seq<Event>, before: seq<Event>, written: seq<Event>, clock: Anchor, next: nat,
                settling: bool)
    requires FilesFit(saved, file, log, before, clock, next) && SameLoss(saved, st) && st.pending.Some?
    requires ProcessFits(st, heartbeat, file, log, remembered, before, clock, next, settling)
    requires before <= written && PendingEvent(st.pending.value) in written
    requires Grown(log, after, PendingEvent(st.pending.value))
    ensures FilesFit(saved, file, after, written, clock, next)
    ensures ProcessFits(st.(pending := None), heartbeat, file, after, Remember(remembered, PendingEvent(st.pending.value)),
                        written, clock, next, settling)
  {
    ArchivedCoherent(st, heartbeat, file, log, after, clock, next, settling);
    if saved.Some? {
      ArchivedOnFile(st, saved.value, file, log, after, clock, next);
    }
    ArchivedDelivered(st, saved, before, written, log, after, remembered);
  }
}
