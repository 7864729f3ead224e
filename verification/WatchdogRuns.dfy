/** Whole runs of the watchdog: any interleaving of checks, heartbeats, failed writes and restarts. */
module WatchdogRuns {
  import opened Basics
  import opened WatchdogModel
  import opened WatchdogStep
  import opened WatchdogProof
  import opened Watchdog

  /** What happens next: a restart (after a crash, if a process is running), a check or a heartbeat. */
  datatype Step =
    | Restart(at: Anchor, shuffle: seq<Event>)
    | Check(at: Anchor)
    | Beat(at: Anchor, timestamp: int, sampled: bool)

  /** The clocks do not run back, and a new observer boot begins with a restart. */
  predicate Follows(last: Anchor, step: Step) {
    NotAfter(last, step.at) && (step.Restart? || step.at.boot == last.boot)
  }

  function ClockAt(clock: Anchor, steps: seq<Step>, n: nat): Anchor
    requires n <= |steps|
  {
    if n == 0 then clock else steps[n - 1].at
  }

  predicate FollowsAt(clock: Anchor, steps: seq<Step>, i: nat)
    requires i < |steps|
  {
    Follows(ClockAt(clock, steps, i), steps[i])
  }

  predicate Timed(clock: Anchor, steps: seq<Step>) {
    forall i: nat {:trigger FollowsAt(clock, steps, i)} :: i < |steps| ==> FollowsAt(clock, steps, i)
  }

  function Took(s: Store, step: Step, limits: Limits): After {
    match step
    case Restart(at, shuffle) => Started(s, at, shuffle)
    case Check(at) => if s.running then Ticked(s, at, limits) else After(s, Done)
    case Beat(at, timestamp, sampled) => if s.running then Received(s, at, timestamp, sampled, limits) else After(s, Done)
  }

  method Take(m: Machine, step: Step) returns (r: Outcome)
    modifies m
    ensures After(m.View(), r) == Took(old(m.View()), step, m.limits)
  {
    match step {
      case Restart(at, shuffle) => r := m.Start(at, shuffle);
      case Check(at) =>
        r := Done;
        if m.running {
          r := m.Tick(at);
        }
      case Beat(at, timestamp, sampled) =>
        r := Done;
        if m.running {
          r := m.Receive(at, timestamp, sampled);
        }
    }
  }

  /** At a restart the process that has read the files knows whatever is archived beyond its own account: a
      condition on the files and on the order they are read in. */
  predicate Restartable(s: Store, step: Step) {
    step.Restart? ==>
      var l := Loaded(AtRest(s), step.at, step.shuffle); Informed(l.state, l.log, l.remembered)
  }

  lemma TookFine(s: Store, clock: Anchor, step: Step, limits: Limits)
    requires Base(s, clock, false) && Follows(clock, step) && Sensible(limits)
    ensures var a := Took(s, step, limits);
      && Base(a.store, step.at, false)
      && (InOrder(s) && Restartable(s, step) ==> InOrder(a.store))
      && (Level(s) && (s.running ==> InSync(s)) ==> Level(a.store) && Restartable(s, step))
      && (Level(s) && (s.running ==> InSync(s)) && a.store.running && a.r.Done? ==> InSync(a.store))
  {
    match step
    case Restart(at, shuffle) => StartedFine(s, clock, false, at, shuffle);
    case Check(at) =>
      ObservedFine(s, clock, at, false);
      if s.running {
        TickedFine(s, at, limits);
        TickedFacts(s, at, limits);
      }
    case Beat(at, timestamp, sampled) =>
      ObservedFine(s, clock, at, false);
      if s.running {
        ReceivedFine(s, at, timestamp, sampled, limits);
        ReceivedFacts(s, at, timestamp, sampled, limits);
      }
  }

  // ---- Runs ----

  /** The store after the first `n` steps, each taken by `took`. */
  ghost function RunBy(took: (Store, Step) -> Store, s: Store, steps: seq<Step>, n: nat): Store
    requires n <= |steps|
  {
    if n == 0 then s else took(RunBy(took, s, steps, n - 1), steps[n - 1])
  }

  /** Each of the first `n` steps was one that `allows` allows. */
  ghost predicate AllBy(took: (Store, Step) -> Store, allows: (Store, Step) -> bool, s: Store, steps: seq<Step>, n: nat)
    requires n <= |steps|
  {
    n > 0 ==> AllBy(took, allows, s, steps, n - 1) && allows(RunBy(took, s, steps, n - 1), steps[n - 1])
  }

  ghost predicate Keeps(took: (Store, Step) -> Store, allows: (Store, Step) -> bool, holds: (Store, Anchor) -> bool) {
    forall s, clock, step {:trigger took(s, step), Follows(clock, step)} ::
      holds(s, clock) && Follows(clock, step) && allows(s, step) ==> holds(took(s, step), step.at)
  }

  /** What every allowed step keeps holds throughout a run of allowed steps. */
  lemma {:induction false} RunKeeps(took: (Store, Step) -> Store, allows: (Store, Step) -> bool, holds: (Store, Anchor) -> bool,
                                    s: Store, clock: Anchor, steps: seq<Step>, n: nat)
    requires Keeps(took, allows, holds) && holds(s, clock) && Timed(clock, steps) && n <= |steps|
    requires AllBy(took, allows, s, steps, n)
    ensures holds(RunBy(took, s, steps, n), ClockAt(clock, steps, n))
    decreases n
  {
    if n > 0 {
      RunKeeps(took, allows, holds, s, clock, steps, n - 1);
      assert FollowsAt(clock, steps, n - 1);
    }
  }

  // ---- Processes that outlive failed writes ----

  ghost function Taking(limits: Limits): (Store, Step) -> Store {
    (s: Store, step: Step) => Took(s, step, limits).store
  }

  ghost function RunOf(s: Store, steps: seq<Step>, limits: Limits, n: nat): Store
    requires n <= |steps|
  {
    RunBy(Taking(limits), s, steps, n)
  }

  /** At every restart among the first `n` steps the process knew enough. */
  ghost predicate AllRestartable(s: Store, steps: seq<Step>, limits: Limits, n: nat)
    requires n <= |steps|
  {
    AllBy(Taking(limits), Restartable, s, steps, n)
  }

  ghost predicate Orderly(s: Store, clock: Anchor) {
    Base(s, clock, false) && InOrder(s)
  }

  ghost function Any(): (Store, Step) -> bool {
    (s: Store, step: Step) => true
  }

  lemma {:induction false} AllAllowed(took: (Store, Step) -> Store, s: Store, steps: seq<Step>, n: nat)
    requires n <= |steps|
    ensures AllBy(took, Any(), s, steps, n)
    decreases n
  {
    if n > 0 {
      AllAllowed(took, s, steps, n - 1);
    }
  }

  ghost predicate Consistent(s: Store, clock: Anchor) {
    Base(s, clock, false)
  }

  lemma TakingConsistent(limits: Limits)
    requires Sensible(limits)
    ensures Keeps(Taking(limits), Any(), Consistent)
  {
    forall s, clock, step | Consistent(s, clock) && Follows(clock, step)
      ensures Consistent(Taking(limits)(s, step), step.at)
    {
      TookFine(s, clock, step, limits);
    }
  }

  /** Process and files are consistent throughout every run, whatever fails and whatever a process has forgotten:
      so every check, heartbeat and restart of every run does what `TickedFacts`, `ReceivedFacts` and
      `StartedFine` say. */
  lemma RunConsistent(s: Store, clock: Anchor, steps: seq<Step>, limits: Limits, n: nat)
    requires Base(s, clock, false) && Timed(clock, steps) && Sensible(limits) && n <= |steps|
    ensures Base(RunOf(s, steps, limits, n), ClockAt(clock, steps, n), false)
  {
    TakingConsistent(limits);
    AllAllowed(Taking(limits), s, steps, n);
    RunKeeps(Taking(limits), Any(), Consistent, s, clock, steps, n);
  }

  lemma TakingKeeps(limits: Limits)
    requires Sensible(limits)
    ensures Keeps(Taking(limits), Restartable, Orderly)
  {
    forall s, clock, step | Orderly(s, clock) && Follows(clock, step) && Restartable(s, step)
      ensures Orderly(Taking(limits)(s, step), step.at)
    {
      TookFine(s, clock, step, limits);
    }
  }

  /** The archive is in order after the first `n` steps of a run if every restart among them was one at which
      the process knew what its account was behind on. */
  lemma RunInOrder(s: Store, clock: Anchor, steps: seq<Step>, limits: Limits, n: nat)
    requires Orderly(s, clock) && Timed(clock, steps) && Sensible(limits) && n <= |steps|
    requires AllRestartable(s, steps, limits, n)
    ensures Ordered(RunOf(s, steps, limits, n).log)
  {
    TakingKeeps(limits);
    RunKeeps(Taking(limits), Restartable, Orderly, s, clock, steps, n);
  }

  /** Every run: the archive holds each event of an outage at most once and in order, as long as every restart
      so far was one at which the process knew what its account was behind on. */
  method Live(m: Machine, ghost clock: Anchor, steps: seq<Step>)
    requires Orderly(m.View(), clock) && Timed(clock, steps) && Sensible(m.limits)
    modifies m
    ensures m.View() == RunOf(old(m.View()), steps, m.limits, |steps|)
    ensures AllRestartable(old(m.View()), steps, m.limits, |steps|) ==> Ordered(m.log)
  {
    ghost var start := m.View();
    for i := 0 to |steps|
      invariant m.View() == RunOf(start, steps, m.limits, i)
    {
      var r := Take(m, steps[i]);
    }
    if AllRestartable(start, steps, m.limits, |steps|) {
      RunInOrder(start, clock, steps, m.limits, |steps|);
    }
  }

  // ---- Processes that a failed write ends ----

  /** A process whose state file is not what it holds is ended. */
  function DieTook(s: Store, step: Step, limits: Limits): Store {
    var t := Took(s, step, limits).store;
    if t.running && !InSync(t) then Stopped(t) else t
  }

  ghost function DieTaking(limits: Limits): (Store, Step) -> Store {
    (s: Store, step: Step) => DieTook(s, step, limits)
  }

  ghost function DieRunOf(s: Store, steps: seq<Step>, limits: Limits, n: nat): Store
    requires n <= |steps|
  {
    RunBy(DieTaking(limits), s, steps, n)
  }

  /** Never behind the archive, and in order. */
  ghost predicate Sound(s: Store, clock: Anchor) {
    Base(s, clock, false) && InOrder(s) && Level(s) && (s.running ==> InSync(s))
  }

  lemma DieTookSound(s: Store, clock: Anchor, step: Step, limits: Limits)
    requires Sound(s, clock) && Follows(clock, step) && Sensible(limits)
    ensures Sound(DieTook(s, step, limits), step.at)
  {
    TookFine(s, clock, step, limits);
    RestBase(Took(s, step, limits).store, step.at, false);
  }

  lemma DieTakingKeeps(limits: Limits)
    requires Sensible(limits)
    ensures Keeps(DieTaking(limits), Any(), Sound)
  {
    forall s, clock, step | Sound(s, clock) && Follows(clock, step)
      ensures Sound(DieTaking(limits)(s, step), step.at)
    {
      DieTookSound(s, clock, step, limits);
    }
  }

  lemma DieRunSound(s: Store, clock: Anchor, steps: seq<Step>, limits: Limits, n: nat)
    requires Sound(s, clock) && Timed(clock, steps) && Sensible(limits) && n <= |steps|
    ensures Sound(DieRunOf(s, steps, limits, n), ClockAt(clock, steps, n))
  {
    DieTakingKeeps(limits);
    AllAllowed(DieTaking(limits), s, steps, n);
    RunKeeps(DieTaking(limits), Any(), Sound, s, clock, steps, n);
  }

  /** When a failed write ends the process, so that the state file never falls behind the archive, every run
      keeps the archive in order, however long the archive: the pending event, if archived, is read last. */
  method LiveOrDie(m: Machine, ghost clock: Anchor, steps: seq<Step>)
    requires Sound(m.View(), clock) && Timed(clock, steps) && Sensible(m.limits)
    modifies m
    ensures m.View() == DieRunOf(old(m.View()), steps, m.limits, |steps|) && Ordered(m.log)
  {
    ghost var start := m.View();
    for i := 0 to |steps|
      invariant m.View() == DieRunOf(start, steps, m.limits, i)
    {
      TakeOrDie(m, steps[i]);
    }
    DieRunSound(start, clock, steps, m.limits, |steps|);
  }

  /** A failed write of the state file ends the process. */
  method TakeOrDie(m: Machine, step: Step)
    modifies m
    ensures m.View() == DieTook(old(m.View()), step, m.limits)
  {
    var r := Take(m, step);
    if m.running && m.saved != Some(m.state) {
      m.Crash();
    }
  }

  lemma EmptySound(fate: seq<Fault>, clock: Anchor)
    ensures Sound(Empty(fate, clock), clock)
  {
  }

  // ---- An interrupted closing ----

  /** Without failing writes nothing fails. */
  lemma CalmPosted(s: Store)
    requires s.fate == []
    ensures Finished(s).r == Done && Finished(s).store.fate == []
    ensures Posted(s).r == Done && Posted(s).store.fate == []
  {
  }

  lemma CalmResumed(s: Store, now: Anchor)
    requires s.fate == []
    ensures Resumed(s, now).r == Done
  {
    CalmPosted(s);
    var f := Finished(s).store;
    if EndedAtRest(f) {
      var asked := AskedAtRest(f, now);
      CalmPosted(Closed(asked.(state := asked.state.(status := Healthy)), f.heartbeat.value.received.wall, GapAtRest(f, now)));
    }
  }

  /** On one observer boot the difference of the two ages at the restart is the age at the heartbeat. */
  lemma SameGap(l: Store, fallback: Ages, now: Anchor, later: Anchor)
    requires EndedAtRest(l) && l.heartbeat.value.received == now && l.state.outage.value.lastAnchor.Some?
    requires Exact(l.state.outage.value.lastAnchor.value, now) && Exact(now, later)
    ensures GapAtRest(l, later) == Some(GapOf(l.state.outage.value, fallback, now))
  {
  }

  /** What a restart reads when the process died right after saving a heartbeat. */
  lemma CutLoaded(s: Store, h: Heartbeat, later: Anchor, shuffle: seq<Event>)
    requires Ready(s, h.received) && IsOpen(s.state) && InSync(s) && s.fate == [] && s.heartbeat.Some?
    ensures var l := Loaded(AtRest(Accepted(s, h).store), later, shuffle);
      && l.state == s.state && l.heartbeat == Some(h) && l.fate == [] && EndedAtRest(l)
      && l.state.outage.value.lastAnchor == Some(s.heartbeat.value.received)
  {
  }

  /** A process with an open outage that takes a heartbeat without interruption, and one that dies right after
      saving it and is restarted on the same observer boot, close the outage with the same time and gap. */
  lemma InterruptedAlike(s: Store, now: Anchor, timestamp: int, sampled: bool, later: Anchor, shuffle: seq<Event>)
    requires Ready(s, now) && IsOpen(s.state) && InSync(s) && s.fate == []
    requires s.heartbeat.Some? && s.heartbeat.value.received.boot == now.boot
    requires NotAfter(now, later) && later.boot == now.boot
    ensures var whole, cut := Welcomed(s, now, timestamp, sampled).store.state.outage,
                              Started(Accepted(s, Heartbeat(timestamp, now)).store, later, shuffle).store.state.outage;
      whole == cut && cut.Some? && cut.value.recoveredAt == Some(now.wall)
  {
    var h := Heartbeat(timestamp, now);
    var a := Accepted(s, h).store;
    var l := Loaded(AtRest(a), later, shuffle);
    AcceptedFine(s, h, now);
    WelcomedFacts(s, now, timestamp, sampled);
    StartedFine(a, now, true, later, shuffle);
    CutLoaded(s, h, later, shuffle);
    CalmResumed(l, later);
    SameGap(l, s.fallback, now, later);
  }
}
