/** The off-box watchdog: one process over its state file, heartbeat file and archive. The process may die
    between any two durable writes. Each method does to the object what the step does to its value. */
module Watchdog {
  import opened Basics
  import opened WatchdogModel
  import opened WatchdogStep

  class Machine {
    const limits: Limits
    // The process.
    var running: bool
    var boot: nat
    var state: State
    var heartbeat: Option<Heartbeat>
    var remembered: seq<Event>
    var fallback: Ages
    // The files.
    var saved: Option<State>
    var file: Option<Heartbeat>
    var log: seq<Event>
    var fate: seq<Fault>
    /** Names of outages are never used twice. */
    var next: nat
    /** Everything ever written to the archive. */
    var written: seq<Event>

    function View(): Store
      reads this
    {
      Store(running, boot, state, heartbeat, remembered, fallback, saved, file, log, fate, next, written)
    }

    constructor (limits: Limits, fate: seq<Fault>, clock: Anchor)
      ensures View() == Empty(fate, clock) && this.limits == limits
    {
      this.limits, this.fate := limits, fate;
      running, boot, remembered, fallback := false, 0, [], map[];
      state := State(Unknown, clock, None, None);
      heartbeat, saved, file, log, next, written := None, None, None, [], 0, [];
    }

    method NextFault() returns (f: Fault)
      modifies this`fate
      ensures f == FaultOf(old(View())) && View() == Spent(old(View()))
    {
      if fate == [] {
        return Fault(Written, {});
      }
      f := fate[0];
      fate := fate[1..];
    }

    // ---- Durable steps ----

    method Save() returns (r: Outcome)
      modifies this`saved, this`fate
      ensures After(View(), r) == Saved(old(View()))
    {
      var f := NextFault();
      if f.result.Written? || f.result.FailedAfter? {
        saved := Some(state);
      }
      r := if f.result.Written? then Done else Raised;
    }

    /** Appends the pending event; old files may be pruned after it. */
    method Append(e: Event) returns (r: Outcome)
      modifies this`log, this`fate, this`written
      ensures After(View(), r) == Appended(old(View()), e)
    {
      var f := NextFault();
      if !f.result.Written? {
        return Raised;
      }
      log := Kept(log + [e], f.drop);
      written := written + [e];
      r := Done;
    }

    /** Archives the pending event unless it is remembered, and empties the outbox. */
    method Archive() returns (r: Outcome)
      requires state.pending.Some?
      modifies this`log, this`remembered, this`state, this`fate, this`written
      ensures After(View(), r) == Archived(old(View()))
    {
      var e := Event(state.pending.value.outage.id, state.pending.value.kind);
      if e !in remembered {
        :- Append(e);
      }
      remembered := Remember(remembered, e);
      state := state.(pending := None);
      r := Done;
    }

    method FinishPending() returns (r: Outcome)
      modifies this`log, this`remembered, this`state, this`saved, this`fate, this`written
      ensures After(View(), r) == Finished(old(View()))
    {
      if state.pending.Some? {
        :- Archive();
        r := Save();
      } else {
        r := Done;
      }
    }

    /** Saves the outbox before anything is archived, then archives and empties it. */
    method Post() returns (r: Outcome)
      modifies this`log, this`remembered, this`state, this`saved, this`fate, this`written
      ensures After(View(), r) == Posted(old(View()))
    {
      r := Save();
      if r.Done? {
        r := FinishPending();
      }
    }

    method PruneArchive() returns (r: Outcome)
      modifies this`log, this`fate
      ensures After(View(), r) == Pruned(old(View()))
    {
      var f := NextFault();
      log := Kept(log, f.drop);
      r := if f.result.Written? then Done else Raised;
    }

    // ---- Changes of the outage; each fills the empty outbox ----

    method OpenOutage(now: Anchor, severe: bool)
      modifies this`state, this`next
      ensures View() == Opened(old(View()), now, severe)
    {
      var lost := if heartbeat.Some? then Some(heartbeat.value.received) else None;
      var outage := Outage(next, now.wall, severe, None, None, lost);
      next := next + 1;
      state := state.(outage := Some(outage), status := if severe then Critical else Warned,
                      pending := Some(Pending(Opening, outage)));
    }

    method Escalate()
      requires IsOpen(state)
      modifies this`state
      ensures View() == Escalated(old(View()))
    {
      var outage := state.outage.value.(critical := true);
      state := state.(outage := Some(outage), pending := Some(Pending(Escalation, outage)));
    }

    method CloseOutage(at: int, gap: Option<int>)
      requires IsOpen(state)
      modifies this`state
      ensures View() == Closed(old(View()), at, gap)
    {
      var outage := state.outage.value.(recoveredAt := Some(at), gap := gap);
      state := state.(outage := Some(outage), pending := Some(Pending(Recovery, outage)));
    }

    // ---- Ages ----

    method AgeOf(anchor: Anchor, now: Anchor) returns (age: int)
      modifies this`fallback
      ensures age == AgeBy(old(fallback), anchor, now)
      ensures View() == old(View()).(fallback := Asked(old(fallback), anchor, now))
    {
      if anchor.boot == now.boot && anchor.mono <= now.mono {
        return now.mono - anchor.mono;
      }
      if anchor !in fallback {
        fallback := fallback[anchor := (now.mono, Max0(now.wall - anchor.wall))];
      }
      age := fallback[anchor].1 + Max0(now.mono - fallback[anchor].0);
    }

    // ---- Ticks ----

    /** Opens or escalates the outage the age calls for. */
    method React(now: Anchor, age: int) returns (r: Outcome)
      modifies this`log, this`remembered, this`state, this`saved, this`fate, this`written, this`next
      ensures After(View(), r) == ReactedTo(old(View()), now, age, limits)
    {
      r := Done;
      if age >= limits.warning && !IsOpen(state) {
        OpenOutage(now, age >= limits.critical);
        r := Post();
      } else if IsOpen(state) && age >= limits.critical && !state.outage.value.critical {
        Escalate();
        r := Post();
      }
    }

    /** Judges the age of the last sign of life and saves. */
    method Judge(now: Anchor, age: int) returns (r: Outcome)
      modifies this`log, this`remembered, this`state, this`saved, this`fate, this`written, this`next
      ensures After(View(), r) == Judged(old(View()), now, age, limits)
    {
      var severity := if age >= limits.critical then Critical else if age >= limits.warning then Warned else Healthy;
      var active := IsOpen(state);
      :- React(now, age);
      if !active || severity != Healthy {
        state := state.(status := severity);
      }
      r := Save();
    }

    method Check(now: Anchor) returns (r: Outcome)
      modifies this`log, this`remembered, this`state, this`saved, this`fate, this`written, this`next, this`fallback
      ensures After(View(), r) == Checked(old(View()), now, limits)
    {
      var age := AgeOf(if heartbeat.Some? then heartbeat.value.received else state.startedAt, now);
      if heartbeat == None && age < limits.grace {
        return Done;
      }
      r := Judge(now, age);
    }

    /** One check. */
    method Tick(now: Anchor) returns (r: Outcome)
      modifies this
      ensures After(View(), r) == Ticked(old(View()), now, limits)
    {
      r := FinishPending();
      if r.Done? {
        r := PruneArchive();
      }
      if r.Done? {
        r := Check(now);
      }
    }

    // ---- Heartbeats ----

    /** Saves the heartbeat, then takes it over. */
    method Accept(h: Heartbeat) returns (r: Outcome)
      modifies this`file, this`heartbeat, this`fate
      ensures After(View(), r) == Accepted(old(View()), h)
    {
      var f := NextFault();
      if f.result.FailedBefore? {
        return Raised;
      }
      file := Some(h);
      if f.result.FailedAfter? {
        return Raised;
      }
      heartbeat := Some(h);
      r := Done;
    }

    /** Closes the open outage, if there is one. */
    method Settle(at: int, gap: Option<int>) returns (r: Outcome)
      modifies this`log, this`remembered, this`state, this`saved, this`fate, this`written
      ensures After(View(), r) == Settled(old(View()), at, gap)
    {
      r := Done;
      if IsOpen(state) {
        CloseOutage(at, gap);
        r := Post();
      }
    }

    /** The snapshot archive may fail; then the status stays unsaved. */
    method Record(sampled: bool) returns (r: Outcome)
      modifies this`state, this`saved, this`fate
      ensures After(View(), r) == Recorded(old(View()), sampled)
    {
      state := state.(status := Healthy);
      if sampled {
        var f := NextFault();
        if !f.result.Written? {
          return Raised;
        }
      }
      r := Save();
    }

    /** The age of the heartbeat before, if there is one. */
    method AgeOfLast(now: Anchor) returns (age: Option<int>)
      modifies this`fallback
      ensures View() == AskedLast(old(View()), now)
      ensures age == if heartbeat.Some? then Some(AgeBy(old(fallback), heartbeat.value.received, now)) else None
    {
      age := None;
      if heartbeat.Some? {
        var seconds := AgeOf(heartbeat.value.received, now);
        age := Some(seconds);
      }
    }

    /** Takes a heartbeat over and closes the outage it ends. */
    method Welcome(now: Anchor, timestamp: int, sampled: bool) returns (r: Outcome)
      modifies this
      ensures After(View(), r) == Welcomed(old(View()), now, timestamp, sampled)
    {
      var gap := AgeOfLast(now);
      r := Accept(Heartbeat(timestamp, now));
      if r.Done? {
        if IsOpen(state) && gap == None {
          gap := Some(Max0(now.wall - state.outage.value.openedAt));
        }
        r := SettleAndRecord(now.wall, gap, sampled);
      }
    }

    method SettleAndRecord(at: int, gap: Option<int>, sampled: bool) returns (r: Outcome)
      modifies this`log, this`remembered, this`state, this`saved, this`fate, this`written
      ensures After(View(), r) == SettledAndRecorded(old(View()), at, gap, sampled)
    {
      r := Settle(at, gap);
      if r.Done? {
        r := Record(sampled);
      }
    }

    /** A heartbeat from the watched host. `sampled` tells whether a snapshot is due. */
    method Receive(now: Anchor, timestamp: int, sampled: bool) returns (r: Outcome)
      modifies this
      ensures After(View(), r) == Received(old(View()), now, timestamp, sampled, limits)
    {
      if heartbeat.Some? && timestamp <= heartbeat.value.timestamp && now.wall >= heartbeat.value.received.wall {
        return Raised;
      }
      r := Tick(now);
      if r.Done? {
        r := Welcome(now, timestamp, sampled);
      }
    }

    // ---- Restart ----

    /** The process dies. */
    method Crash()
      modifies this`running
      ensures View() == Stopped(old(View()))
    {
      running := false;
    }

    /** Remembers the archived events in the order the files are read. */
    method Recall(order: seq<Event>)
      modifies this`remembered
      ensures View() == old(View()).(remembered := Recalled(order))
    {
      remembered := [];
      for i := 0 to |order|
        invariant View() == old(View()).(remembered := Recalled(order[..i]))
      {
        assert order[..i + 1][..i] == order[..i];
        remembered := Remember(remembered, order[i]);
      }
      assert order[..|order|] == order;
    }

    /** Reads the files into a new process. `shuffle` is the order the archive files happen to be read in. */
    method Load(now: Anchor, shuffle: seq<Event>)
      modifies this
      ensures View() == Loaded(old(View()), now, shuffle)
    {
      Recall(OrderOf(log, shuffle, written));
      running, boot, heartbeat := true, now.boot, file;
      state := if saved.Some? then saved.value else State(Unknown, now, None, None);
      Prime(now);
    }

    /** Asks for the ages a new process wants to know from its start on. */
    method Prime(now: Anchor)
      modifies this`fallback
      ensures View() == old(View()).(fallback := Primed(heartbeat, state, now))
    {
      fallback := map[];
      if heartbeat.Some? {
        var seen := AgeOf(heartbeat.value.received, now);
      }
      var watched := AgeOf(state.startedAt, now);
    }

    /** A heartbeat on file that is not the one the open outage lost ends that outage. */
    method CloseLost(now: Anchor) returns (r: Outcome)
      modifies this
      ensures After(View(), r) == Mended(old(View()), now)
    {
      if IsOpen(state) && heartbeat.Some? && state.outage.value.lastAnchor != Some(heartbeat.value.received) {
        var gap := state.outage.value.gap;
        if state.outage.value.lastAnchor.Some? {
          var lost := AgeOf(state.outage.value.lastAnchor.value, now);
          var seen := AgeOf(heartbeat.value.received, now);
          gap := Some(Max0(lost - seen));
        }
        state := state.(status := Healthy);
        r := Settle(heartbeat.value.received.wall, gap);
      } else {
        r := Done;
      }
    }

    /** Replays the outbox, closes what a heartbeat on file ended, and saves. */
    method Resume(now: Anchor) returns (r: Outcome)
      modifies this
      ensures After(View(), r) == Resumed(old(View()), now)
    {
      r := FinishPending();
      if r.Done? {
        r := CloseLost(now);
      }
      if r.Done? {
        r := Save();
      }
    }

    /** A new process over the files. An error while starting leaves none. */
    method Start(now: Anchor, shuffle: seq<Event>) returns (r: Outcome)
      modifies this
      ensures After(View(), r) == Started(old(View()), now, shuffle)
    {
      Crash();
      r := PruneArchive();
      if !r.Done? {
        return;
      }
      Load(now, shuffle);
      r := Resume(now);
      if !r.Done? {
        Crash();
      }
    }
  }
}
