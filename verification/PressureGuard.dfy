/** The job-pressure guard: it samples the host, picks one worker that stayed over its limit, records the
    intent, sends a termination signal through a process handle, and kills only after a grace period and
    two fresh looks at the same process. */
module PressureGuard {
  import opened Basics

  datatype Policy = Policy(
    sustained: nat, minimumRss: nat, reserveBytes: real, reserveRatio: real, someThreshold: real, fullThreshold: real,
    grace: int, reduction: real, cooldown: int)

  predicate ValidPolicy(policy: Policy) {
    policy.sustained >= 2 && policy.grace > 0 && policy.cooldown > 0 && 0.0 < policy.reduction < 1.0
  }

  /** A process, told apart from a later one with the same number by its start time. */
  datatype Key = Key(pid: nat, start: nat)

  datatype Identity = Identity(key: Key, executable: string, cgroup: string, uid: nat, effectiveUid: nat)

  datatype Classification = Classification(kind: string, appserver: Key)

  /** An observed process; `budget` is its limit, None when a kernel limit stands in for it. */
  datatype Process = Process(identity: Identity, rss: nat, budget: Option<nat>, classification: Option<Classification>)

  datatype Host = Host(total: real, available: real, some: real, full: real, stallSome: Option<nat>, stallFull: Option<nat>)

  datatype Snapshot = Snapshot(complete: bool, host: Option<Host>, processes: seq<Process>)

  /** A fresh look at one process. */
  datatype Recheck = Recheck(complete: bool, host: Option<Host>, current: Option<Process>)

  datatype Reason = OverBudget | UnderPressure

  // ---- Limits ----

  /** Stall time between two samples as a share of the time between them. */
  predicate Stalled(now: Option<nat>, before: Option<nat>, elapsed: int, threshold: real) {
    && now.Some? && before.Some? && elapsed > 0
    && 100.0 * (if now.value > before.value then (now.value - before.value) as real else 0.0) / (elapsed as real * 1000000.0)
         >= threshold
  }

  predicate HostPressure(host: Option<Host>, policy: Policy, previous: Option<Host>, elapsed: int) {
    && host.Some?
    && var h := host.value;
       var share := h.total * policy.reserveRatio;
       && h.available < (if policy.reserveBytes < share then share else policy.reserveBytes)
       && (h.some >= policy.someThreshold || h.full >= policy.fullThreshold
           || (previous.Some?
               && (Stalled(h.stallSome, previous.value.stallSome, elapsed, policy.someThreshold)
                   || Stalled(h.stallFull, previous.value.stallFull, elapsed, policy.fullThreshold))))
  }

  predicate Exceeds(p: Process) {
    p.budget.Some? && p.rss > p.budget.value
  }

  /** The reason for acting on a process holds in a fresh look. */
  predicate Holds(reason: Reason, p: Process, host: Option<Host>, policy: Policy) {
    match reason
    case OverBudget => Exceeds(p)
    case UnderPressure => HostPressure(host, policy, None, 1) && p.rss >= policy.minimumRss
  }

  /** The worker has given memory back since `initial`. */
  predicate Reduced(rss: nat, initial: nat, policy: Policy) {
    rss as real <= initial as real * (1.0 - policy.reduction)
  }

  /** The process looked at is the one expected, and still eligible in the same way. */
  predicate Same(recheck: Recheck, expected: Identity, classification: Classification) {
    && recheck.complete && recheck.current.Some?
    && recheck.current.value.identity == expected && recheck.current.value.classification == Some(classification)
  }

  /** A fresh look that allows acting on the process. */
  predicate Justified(look: Recheck, expected: Identity, classification: Classification, reason: Reason, policy: Policy) {
    Same(look, expected, classification) && Holds(reason, look.current.value, look.host, policy)
  }

  // ---- What the limits mean ----

  /** Less memory is available than must be kept in reserve. */
  ghost predicate Short(h: Host, policy: Policy) {
    h.available < policy.reserveBytes || h.available < h.total * policy.reserveRatio
  }

  /** The stall counter has grown by the threshold's share of the time since. */
  ghost predicate StallShare(now: Option<nat>, before: Option<nat>, elapsed: int, threshold: real) {
    && now.Some? && before.Some? && elapsed > 0
    && if now.value > before.value then 100.0 * (now.value - before.value) as real >= threshold * (elapsed as real * 1000000.0)
       else threshold <= 0.0
  }

  /** The host is short of memory and stalls on it, by its own averages or since the sample before. */
  ghost predicate Pressed(host: Option<Host>, policy: Policy, previous: Option<Host>, elapsed: int) {
    && host.Some? && Short(host.value, policy)
    && (host.value.some >= policy.someThreshold || host.value.full >= policy.fullThreshold
        || (previous.Some? && (StallShare(host.value.stallSome, previous.value.stallSome, elapsed, policy.someThreshold)
                               || StallShare(host.value.stallFull, previous.value.stallFull, elapsed, policy.fullThreshold))))
  }

  /** A complete look at the expected process, eligible as it was, that shows the reason to hold still. */
  ghost predicate Warrants(look: Recheck, expected: Identity, classification: Classification, reason: Reason, policy: Policy) {
    && look.complete && look.current.Some?
    && look.current.value.identity == expected && look.current.value.classification == Some(classification)
    && match reason
       case OverBudget => look.current.value.budget.Some? && look.current.value.rss > look.current.value.budget.value
       case UnderPressure => look.current.value.rss >= policy.minimumRss && Pressed(look.host, policy, None, 0)
  }

  /** The worker still has more memory than the share of its first reading that counts as giving back. */
  ghost predicate KeptMemory(look: Recheck, initial: nat, policy: Policy) {
    look.current.Some? && look.current.value.rss as real > initial as real * (1.0 - policy.reduction)
  }

  lemma Quotient(x: real, y: real, t: real)
    requires y > 0.0
    ensures x / y >= t <==> x >= t * y
  {
    assert x == x / y * y;
  }

  lemma StalledExactly(now: Option<nat>, before: Option<nat>, elapsed: int, threshold: real)
    ensures Stalled(now, before, elapsed, threshold) <==> StallShare(now, before, elapsed, threshold)
  {
    if now.Some? && before.Some? && elapsed > 0 {
      var grown := if now.value > before.value then (now.value - before.value) as real else 0.0;
      Quotient(100.0 * grown, elapsed as real * 1000000.0, threshold);
      if now.value <= before.value {
        Quotient(0.0, elapsed as real * 1000000.0, threshold);
      }
    }
  }

  lemma PressureExactly(host: Option<Host>, policy: Policy, previous: Option<Host>, elapsed: int)
    ensures HostPressure(host, policy, previous, elapsed) <==> Pressed(host, policy, previous, elapsed)
  {
    if host.Some? && previous.Some? {
      StalledExactly(host.value.stallSome, previous.value.stallSome, elapsed, policy.someThreshold);
      StalledExactly(host.value.stallFull, previous.value.stallFull, elapsed, policy.fullThreshold);
    }
  }

  lemma JustifiedExactly(look: Recheck, expected: Identity, classification: Classification, reason: Reason, policy: Policy)
    ensures Justified(look, expected, classification, reason, policy) <==> Warrants(look, expected, classification, reason, policy)
  {
    PressureExactly(look.host, policy, None, 1);
  }

  // ---- Samples ----

  /** What one recorded sample said: the workers over their limit, and whether the host was pressed. A
      sample that is not complete says nothing of either. */
  datatype Sample = Sample(over: set<Key>, pressured: bool)

  function Over(snapshot: Snapshot): set<Key> {
    if !snapshot.complete then {}
    else set p | p in snapshot.processes && p.classification.Some? && Exceeds(p) :: p.identity.key
  }

  /** How many of the latest samples had the worker over its limit. */
  function RunOver(samples: seq<Sample>, key: Key): nat {
    if samples == [] || key !in samples[|samples| - 1].over then 0 else RunOver(samples[..|samples| - 1], key) + 1
  }

  function RunPressed(samples: seq<Sample>): nat {
    if samples == [] || !samples[|samples| - 1].pressured then 0 else RunPressed(samples[..|samples| - 1]) + 1
  }

  /** What the guard owes before it acts: the streak the reason calls for. */
  predicate Sustained(samples: seq<Sample>, key: Key, reason: Reason, policy: Policy) {
    match reason
    case OverBudget => RunOver(samples, key) >= policy.sustained
    case UnderPressure => RunPressed(samples) >= policy.sustained
  }

  lemma SampleAdds(samples: seq<Sample>, s: Sample)
    ensures RunPressed(samples + [s]) == if s.pressured then RunPressed(samples) + 1 else 0
    ensures forall key :: RunOver(samples + [s], key) == if key in s.over then RunOver(samples, key) + 1 else 0
  {
    assert (samples + [s])[..|samples|] == samples;
  }

  // ---- What is done ----

  datatype Signal = Term | Kill

  /** An effect on the world, in order. A handle's target is the process that had the number when it was
      opened. `Signalled` carries the fresh look it was based on; a term is timed after it was sent, a
      kill by the start of its tick. */
  datatype Effect =
    | Opened(fd: nat, target: Key)
    | Intent(fd: nat, process: Process, reason: Reason, samples: seq<Sample>)
    | Signalled(fd: nat, signal: Signal, at: int, reason: Reason, look: Recheck)
    | Finished(fd: nat, at: int)

  /** The action in progress. */
  datatype Pending = Pending(process: Process, classification: Classification, fd: nat, reason: Reason, started: int)

  /** A look that allows the kill. */
  predicate KillAllowed(p: Pending, look: Recheck, policy: Policy) {
    Justified(look, p.process.identity, p.classification, p.reason, policy)
    && !Reduced(look.current.value.rss, p.process.rss, policy)
  }

  /** The action goes on: the look is incomplete, or shows the worker within its grace period. */
  predicate Waits(p: Pending, clock: int, look: Recheck, policy: Policy) {
    !look.complete || (Same(look, p.process.identity, p.classification) && clock - p.started < policy.grace)
  }

  /** The grace period is over and both looks allow the kill. */
  predicate KillDue(p: Pending, clock: int, first: Recheck, second: Recheck, policy: Policy) {
    clock - p.started >= policy.grace && KillAllowed(p, first, policy) && KillAllowed(p, second, policy)
  }

  /** What a tick meets: the scan; for each process number the handle it would get and that handle's
      target; the looks at it; whether writes and sends succeed; and the clock after a term was sent. */
  datatype Scene = Scene(
    scan: Snapshot, handles: map<nat, (nat, nat)>, first: nat -> Recheck, second: nat -> Recheck, intentWritten: bool,
    resultWritten: bool, sendable: bool, sentAt: int, dryRun: bool)

  /** The look after the intent was recorded allows the term, and it can be sent. */
  predicate TermAllowed(process: Process, classification: Classification, reason: Reason, scene: Scene, policy: Policy) {
    scene.sendable && Justified(scene.first(process.identity.key.pid), process.identity, classification, reason, policy)
  }

  function StreakOf(streaks: map<Key, nat>, key: Key): nat {
    if key in streaks then streaks[key] else 0
  }

  /** A worker over its own limit comes before one that is merely large, and a larger one before a smaller. */
  predicate NotBefore(chosen: Process, reason: Reason, other: Process, otherReason: Reason) {
    if reason == otherReason then chosen.rss >= other.rss else reason == OverBudget
  }

  /** The worker is eligible and over its limit. */
  predicate Counted(p: Process, key: Key) {
    p.identity.key == key && p.classification.Some? && Exceeds(p)
  }

  predicate OverIn(processes: seq<Process>, key: Key) {
    exists p :: p in processes && Counted(p, key)
  }

  lemma OverInAdds(processes: seq<Process>, p: Process)
    ensures forall key :: OverIn(processes + [p], key) <==> OverIn(processes, key) || Counted(p, key)
  {
    forall key ensures OverIn(processes + [p], key) <==> OverIn(processes, key) || Counted(p, key) {
      if Counted(p, key) {
        assert p in processes + [p];
      } else if OverIn(processes, key) {
        var q :| q in processes && Counted(q, key);
        assert q in processes + [p];
      }
    }
  }

  /** Every streak has gone on by one or ended. */
  ghost predicate Advances(streaks: map<Key, nat>, current: map<Key, nat>, processes: seq<Process>) {
    forall key :: StreakOf(current, key) == if OverIn(processes, key) then StreakOf(streaks, key) + 1 else 0
  }

  /** A process table has one row for each process number. */
  predicate OnePerNumber(processes: seq<Process>) {
    forall i, j :: 0 <= i < j < |processes| ==> processes[i].identity.key.pid != processes[j].identity.key.pid
  }

  /** What a sample taken now says. The first sample has no earlier one to compare stall times with. */
  function SampleAt(snapshot: Snapshot, policy: Policy, previousHost: Option<Host>, previousSample: Option<int>, clock: int): Sample {
    Sample(Over(snapshot), snapshot.complete && HostPressure(snapshot.host, policy, previousHost,
             if previousSample.Some? then clock - previousSample.value else 1))
  }

  // ---- One tick, on values ----

  /** The guard as a value. Where the object keeps streaks, this keeps the samples they come from. */
  datatype State = State(
    alive: bool, samples: seq<Sample>, host: Option<Host>, at: Option<int>, pending: Option<Pending>, deferred: bool,
    cooldownUntil: int, log: seq<Effect>)

  const Fresh := State(true, [], None, None, None, false, 0, [])

  /** Why a worker may be acted on after these samples, if at all. */
  function ReasonIn(samples: seq<Sample>, p: Process, policy: Policy): Option<Reason> {
    if p.classification == None then None
    else if RunOver(samples, p.identity.key) >= policy.sustained then Some(OverBudget)
    else if RunPressed(samples) >= policy.sustained && p.rss >= policy.minimumRss then Some(UnderPressure)
    else None
  }

  /** The first of the workers no other comes before. */
  function Chosen(samples: seq<Sample>, processes: seq<Process>, policy: Policy): (choice: Option<Process>)
    ensures choice.Some? ==> ReasonIn(samples, choice.value, policy).Some?
  {
    if processes == [] then None
    else
      var choice, p := Chosen(samples, processes[..|processes| - 1], policy), processes[|processes| - 1];
      var reason := ReasonIn(samples, p, policy);
      if reason == None then choice
      else if choice.Some? && NotBefore(choice.value, ReasonIn(samples, choice.value, policy).value, p, reason.value) then choice
      else Some(p)
  }

  /** The worker may be acted on for this reason: eligible, and over its limit in as many samples in a row as the
      policy asks for; or, if not that, large while the host was pressed in as many. */
  ghost predicate Due(samples: seq<Sample>, p: Process, reason: Reason, policy: Policy) {
    && p.classification.Some?
    && match reason
       case OverBudget => RunOver(samples, p.identity.key) >= policy.sustained
       case UnderPressure => RunOver(samples, p.identity.key) < policy.sustained
                             && RunPressed(samples) >= policy.sustained && p.rss >= policy.minimumRss
  }

  lemma ReasonExactly(samples: seq<Sample>, p: Process, policy: Policy)
    ensures forall reason :: ReasonIn(samples, p, policy) == Some(reason) <==> Due(samples, p, reason, policy)
  {
  }

  /** One of the workers that may be acted on, if there is one: none other is over its limit unless it is, and
      none that may be acted on for the same reason is larger. */
  ghost predicate IsMaximum(choice: Option<Process>, samples: seq<Sample>, processes: seq<Process>, policy: Policy) {
    if choice == None then forall p, reason :: p in processes ==> !Due(samples, p, reason, policy)
    else
      && choice.value in processes && (exists reason :: Due(samples, choice.value, reason, policy))
      && forall p, reason :: p in processes && Due(samples, p, reason, policy) ==>
           if Due(samples, choice.value, reason, policy) then choice.value.rss >= p.rss else reason == UnderPressure
  }

  lemma {:induction false} ChosenIsMaximum(samples: seq<Sample>, processes: seq<Process>, policy: Policy)
    ensures IsMaximum(Chosen(samples, processes, policy), samples, processes, policy)
    decreases |processes|
  {
    if processes != [] {
      var front, last := processes[..|processes| - 1], processes[|processes| - 1];
      assert processes == front + [last];
      ChosenIsMaximum(samples, front, policy);
      MaximumGrows(samples, front, last, policy);
    }
  }

  lemma MaximumGrows(samples: seq<Sample>, front: seq<Process>, last: Process, policy: Policy)
    requires IsMaximum(Chosen(samples, front, policy), samples, front, policy)
    ensures IsMaximum(Chosen(samples, front + [last], policy), samples, front + [last], policy)
  {
    var processes, was := front + [last], Chosen(samples, front, policy);
    assert processes[..|processes| - 1] == front && processes[|processes| - 1] == last;
    ReasonExactly(samples, last, policy);
    if was.Some? {
      ReasonExactly(samples, was.value, policy);
    }
    if ReasonIn(samples, last, policy) == None {
      MaximumStays(was, samples, front, last, policy);
    } else if was.Some? && NotBefore(was.value, ReasonIn(samples, was.value, policy).value, last, ReasonIn(samples, last, policy).value) {
      MaximumStays(was, samples, front, last, policy);
    } else {
      LastIsMaximum(was, samples, front, last, policy);
    }
  }

  /** The last worker is not due, or comes after the choice. */
  lemma MaximumStays(choice: Option<Process>, samples: seq<Sample>, front: seq<Process>, last: Process, policy: Policy)
    requires IsMaximum(choice, samples, front, policy)
    requires forall reason :: Due(samples, last, reason, policy) ==>
      choice.Some? && if Due(samples, choice.value, reason, policy) then choice.value.rss >= last.rss else reason == UnderPressure
    ensures IsMaximum(choice, samples, front + [last], policy)
  {
  }

  /** Or it comes before the choice so far, and so before all. */
  lemma LastIsMaximum(was: Option<Process>, samples: seq<Sample>, front: seq<Process>, last: Process, policy: Policy)
    requires IsMaximum(was, samples, front, policy) && exists reason :: Due(samples, last, reason, policy)
    requires was.Some? ==> forall reason :: Due(samples, was.value, reason, policy) ==>
      if Due(samples, last, reason, policy) then last.rss >= was.value.rss else reason == UnderPressure
    ensures IsMaximum(Some(last), samples, front + [last], policy)
  {
    forall p, reason | p in front + [last] && Due(samples, p, reason, policy)
      ensures if Due(samples, last, reason, policy) then last.rss >= p.rss else reason == UnderPressure
    {
      if p != last {
        assert p in front && was.Some?;
      }
    }
  }

  function Logged(s: State, e: Effect): State {
    s.(log := s.log + [e])
  }

  /** The end of an action. If its record cannot be written the process ends instead. */
  function Closed(s: State, fd: nat, clock: int, written: bool, policy: Policy): State {
    if written then Logged(s.(pending := None, cooldownUntil := clock + policy.cooldown), Finished(fd, clock))
    else s.(pending := None, alive := false)
  }

  function Sampled(s: State, clock: int, snapshot: Snapshot, policy: Policy): State {
    s.(samples := s.samples + [SampleAt(snapshot, policy, s.host, s.at, clock)], host := snapshot.host, at := Some(clock))
  }

  /** An incomplete look defers an action; the first deferral is recorded. */
  function Deferred(s: State, written: bool): State {
    if s.deferred then s else s.(deferred := true, alive := s.alive && written)
  }

  function Advanced(s: State, clock: int, first: Recheck, second: Recheck, sendable: bool, written: bool, policy: Policy): State
    requires s.pending.Some?
  {
    var p, clear := s.pending.value, s.(deferred := false);
    if !first.complete then Deferred(s, written)
    else if Waits(p, clock, first, policy) then clear
    else if KillDue(p, clock, first, second, policy) && sendable then
      Closed(Logged(clear, Signalled(p.fd, Kill, clock, p.reason, second)), p.fd, clock, written, policy)
    else Closed(clear, p.fd, clock, written, policy)
  }

  /** The term, once the intent has been recorded. */
  function Terminated(s: State, process: Process, classification: Classification, reason: Reason, fd: nat, clock: int,
                      scene: Scene, policy: Policy): State {
    if !TermAllowed(process, classification, reason, scene, policy) then Closed(s, fd, clock, scene.resultWritten, policy)
    else
      var sent := Logged(s, Signalled(fd, Term, scene.sentAt, reason, scene.first(process.identity.key.pid)));
      sent.(pending := if scene.resultWritten then Some(Pending(process, classification, fd, reason, scene.sentAt)) else None,
            deferred := false, alive := scene.resultWritten)
  }

  function Acted(s: State, process: Process, reason: Reason, clock: int, scene: Scene, policy: Policy): State
    requires process.classification.Some?
  {
    var pid := process.identity.key.pid;
    if pid !in scene.handles then s
    else
      var (fd, start) := scene.handles[pid];
      var handled := Logged(s, Opened(fd, Key(pid, start)));
      if !scene.intentWritten then handled.(alive := false)
      else
        Terminated(Logged(handled, Intent(fd, process, reason, s.samples)), process, process.classification.value, reason, fd,
                   clock, scene, policy)
  }

  /** A tick takes a sample unless an action is in progress or the clock has not moved. */
  predicate Takes(s: State, clock: int) {
    s.pending == None && (s.at.Some? ==> clock > s.at.value)
  }

  predicate MayAct(s: State, clock: int, scene: Scene) {
    scene.scan.complete && !scene.dryRun && clock >= s.cooldownUntil
  }

  function Ticked(s: State, clock: int, scene: Scene, policy: Policy): State {
    if s.pending.Some? then
      var pid := s.pending.value.process.identity.key.pid;
      Advanced(s, clock, scene.first(pid), scene.second(pid), scene.sendable, scene.resultWritten, policy)
    else if !Takes(s, clock) then s
    else
      var t := Sampled(s, clock, scene.scan, policy);
      var choice := Chosen(t.samples, scene.scan.processes, policy);
      if !MayAct(s, clock, scene) || choice == None then t
      else Acted(t, choice.value, ReasonIn(t.samples, choice.value, policy).value, clock, scene, policy)
  }

  // ---- The guard ----

  class Guard {
    const policy: Policy
    var alive: bool
    var streaks: map<Key, nat>
    var pressureStreak: nat
    var previousHost: Option<Host>
    var previousSample: Option<int>
    var pending: Option<Pending>
    var deferred: bool
    var cooldownUntil: int
    ghost var log: seq<Effect>
    ghost var samples: seq<Sample>

    /** The streaks are the lengths of the runs the recorded samples end in. */
    ghost predicate Valid()
      reads this`streaks, this`pressureStreak, this`samples
    {
      && (forall key :: StreakOf(streaks, key) == RunOver(samples, key)) && pressureStreak == RunPressed(samples)
    }

    ghost function View(): State
      reads this
    {
      State(alive, samples, previousHost, previousSample, pending, deferred, cooldownUntil, log)
    }

    constructor (policy: Policy)
      ensures Valid() && View() == Fresh && this.policy == policy
    {
      this.policy := policy;
      alive, streaks, pressureStreak, previousHost, previousSample := true, map[], 0, None, None;
      pending, deferred, cooldownUntil, log, samples := None, false, 0, [], [];
    }

    /** Looks once more, then signals through the handle if everything still holds. */
    method Send(expected: Process, classification: Classification, look: Recheck, signal: Signal, fd: nat, reason: Reason,
                initial: nat, sendable: bool, ghost at: int)
      returns (sent: bool)
      modifies this`log
      ensures log == if sent then old(log) + [Signalled(fd, signal, at, reason, look)] else old(log)
      ensures sent <==> sendable && Warrants(look, expected.identity, classification, reason, policy)
                        && (signal == Kill ==> KeptMemory(look, initial, policy))
      ensures sent <==> sendable && Justified(look, expected.identity, classification, reason, policy)
                        && (signal == Kill ==> !Reduced(look.current.value.rss, initial, policy))
    {
      JustifiedExactly(look, expected.identity, classification, reason, policy);
      if !Same(look, expected.identity, classification) {
        return false;
      }
      if !Holds(reason, look.current.value, look.host, policy) {
        return false;
      }
      if signal == Kill && Reduced(look.current.value.rss, initial, policy) {
        return false;
      }
      if sendable {
        log := log + [Signalled(fd, signal, at, reason, look)];
      }
      sent := sendable;
    }

    method Finish(fd: nat, clock: int, written: bool)
      modifies this`log, this`pending, this`cooldownUntil, this`alive
      ensures View() == Closed(old(View()), fd, clock, written, policy)
    {
      pending := None;
      if written {
        log := log + [Finished(fd, clock)];
        cooldownUntil := clock + policy.cooldown;
      } else {
        alive := false;
      }
    }

    // ---- An action in progress ----

    /** A tick while an action is in progress. A look that is not complete defers everything; a worker that
        is gone, changed, recovered or shrinking ends the action without a kill. */
    method Advance(clock: int, first: Recheck, second: Recheck, sendable: bool, written: bool)
      requires pending.Some?
      modifies this`log, this`pending, this`deferred, this`cooldownUntil, this`alive
      ensures View() == Advanced(old(View()), clock, first, second, sendable, written, policy)
    {
      var p := pending.value;
      if !first.complete {
        if !deferred {
          deferred := true;
          alive := alive && written;
        }
        return;
      }
      deferred := false;
      if !Same(first, p.process.identity, p.classification) {
        Finish(p.fd, clock, written);
        return;
      }
      if clock - p.started < policy.grace {
        return;
      }
      var current := first.current.value;
      if !Holds(p.reason, current, first.host, policy) || Reduced(current.rss, p.process.rss, policy) {
        Finish(p.fd, clock, written);
        return;
      }
      var sent := Send(current, p.classification, second, Kill, p.fd, p.reason, p.process.rss, sendable, clock);
      Finish(p.fd, clock, written);
    }

    // ---- Sampling ----

    /** Counts one sample: a streak goes on for a worker that is eligible and over its limit, and every other
        one ends. */
    method CountSample(clock: int, snapshot: Snapshot)
      requires Valid() && OnePerNumber(snapshot.processes)
      modifies this`streaks, this`pressureStreak, this`previousHost, this`previousSample, this`samples
      ensures Valid() && View() == Sampled(old(View()), clock, snapshot, policy)
    {
      ghost var s := SampleAt(snapshot, policy, previousHost, previousSample, clock);
      SampleAdds(samples, s);
      var elapsed := if previousSample.Some? then clock - previousSample.value else 1;
      var pressed := snapshot.complete && HostPressure(snapshot.host, policy, previousHost, elapsed);
      pressureStreak := if pressed then pressureStreak + 1 else 0;
      previousHost, previousSample := snapshot.host, Some(clock);
      var current := map[];
      if snapshot.complete {
        current := CountWorkers(snapshot.processes);
      }
      streaks := current;
      samples := samples + [s];
    }

    method CountWorkers(processes: seq<Process>) returns (current: map<Key, nat>)
      requires OnePerNumber(processes)
      ensures Advances(streaks, current, processes)
    {
      current := map[];
      for i := 0 to |processes|
        invariant Advances(streaks, current, processes[..i])
        invariant forall key :: key in current ==> exists q :: q in processes[..i] && q.identity.key == key
      {
        var p := processes[i];
        assert processes[..i + 1] == processes[..i] + [p];
        OverInAdds(processes[..i], p);
        if p.classification.Some? {
          var key := p.identity.key;
          assert forall q :: q in processes[..i] ==> q.identity.key != key;
          current := current[key := if Exceeds(p) then StreakOf(streaks, key) + 1 else 0];
        }
      }
      assert processes[..|processes|] == processes;
    }

    // ---- Acting ----

    /** Why this worker may be acted on, if at all. */
    function ReasonFor(p: Process): Option<Reason>
      reads this
    {
      if p.classification == None then None
      else if StreakOf(streaks, p.identity.key) >= policy.sustained then Some(OverBudget)
      else if pressureStreak >= policy.sustained && p.rss >= policy.minimumRss then Some(UnderPressure)
      else None
    }

    /** The worker to act on: over its own limit before merely large, then the largest. */
    method Choose(processes: seq<Process>) returns (choice: Option<Process>)
      requires Valid()
      ensures choice == Chosen(samples, processes, policy)
    {
      choice := None;
      for i := 0 to |processes|
        invariant choice == Chosen(samples, processes[..i], policy)
      {
        var p := processes[i];
        assert processes[..i + 1][..i] == processes[..i];
        var reason := ReasonFor(p);
        if reason.Some? {
          if choice == None || !NotBefore(choice.value, ReasonFor(choice.value).value, p, reason.value) {
            choice := Some(p);
          }
        }
      }
      assert processes[..|processes|] == processes;
    }

    /** The term itself, once the intent has been recorded. */
    method Terminate(process: Process, classification: Classification, reason: Reason, fd: nat, clock: int, scene: Scene)
      requires pending == None && alive
      modifies this`log, this`pending, this`deferred, this`cooldownUntil, this`alive
      ensures View() == Terminated(old(View()), process, classification, reason, fd, clock, scene, policy)
    {
      var look := scene.first(process.identity.key.pid);
      var sent := Send(process, classification, look, Term, fd, reason, 0, scene.sendable, scene.sentAt);
      if !sent {
        Finish(fd, clock, scene.resultWritten);
        return;
      }
      deferred := false;
      if scene.resultWritten {
        pending := Some(Pending(process, classification, fd, reason, scene.sentAt));
      } else {
        alive := false;
      }
    }

    method Act(process: Process, reason: Reason, clock: int, scene: Scene)
      requires pending == None && alive && process.classification.Some?
      modifies this`log, this`pending, this`deferred, this`cooldownUntil, this`alive
      ensures View() == Acted(old(View()), process, reason, clock, scene, policy)
    {
      var pid := process.identity.key.pid;
      if pid !in scene.handles {
        return;
      }
      var (fd, start) := scene.handles[pid];
      log := log + [Opened(fd, Key(pid, start))];
      if !scene.intentWritten {
        alive := false;
        return;
      }
      log := log + [Intent(fd, process, reason, samples)];
      Terminate(process, process.classification.value, reason, fd, clock, scene);
    }

    method SampleAndAct(clock: int, scene: Scene)
      requires Valid() && alive && Takes(View(), clock) && OnePerNumber(scene.scan.processes)
      modifies this
      ensures Valid() && View() == Ticked(old(View()), clock, scene, policy)
    {
      CountSample(clock, scene.scan);
      if scene.scan.complete && !scene.dryRun && clock >= cooldownUntil {
        var choice := Choose(scene.scan.processes);
        if choice.Some? {
          Act(choice.value, ReasonFor(choice.value).value, clock, scene);
        }
      }
    }

    /** One tick. */
    method Tick(clock: int, scene: Scene)
      requires Valid() && alive && OnePerNumber(scene.scan.processes)
      modifies this
      ensures Valid() && View() == Ticked(old(View()), clock, scene, policy)
    {
      if pending.Some? {
        var pid := pending.value.process.identity.key.pid;
        Advance(clock, scene.first(pid), scene.second(pid), scene.sendable, scene.resultWritten);
        return;
      }
      if previousSample.None? || clock > previousSample.value {
        SampleAndAct(clock, scene);
      }
    }
  }
}
