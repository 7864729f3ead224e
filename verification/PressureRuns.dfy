/** Whole runs of the guard: every signal is lawful when it is sent, and what it rests on is traced back to
    the scans and looks of the run's own turns. */
module PressureRuns {
  import opened Basics
  import opened PressureGuard

  // ---- Lawful signals ----

  /** The fresh look shows the recorded process, eligible as it was recorded, and the reason holds. */
  ghost predicate Vouched(look: Recheck, intent: Effect, reason: Reason, policy: Policy) {
    && intent.Intent? && intent.reason == reason && intent.process.classification.Some?
    && Warrants(look, intent.process.identity, intent.process.classification.value, reason, policy)
  }

  /** Term: the handle had just been opened on that very process and the intent recorded, after the
      required streak, and every earlier action had finished a cooldown ago. */
  ghost predicate TermLawful(before: seq<Effect>, e: Effect, policy: Policy) {
    && e.Signalled? && |before| >= 2 && before[|before| - 2].Opened? && before[|before| - 1].Intent?
    && var handle, intent := before[|before| - 2], before[|before| - 1];
       && handle.fd == intent.fd == e.fd && handle.target == intent.process.identity.key
       && Sustained(intent.samples, intent.process.identity.key, e.reason, policy)
       && Vouched(e.look, intent, e.reason, policy)
       && forall j :: 0 <= j < |before| && before[j].Finished? ==> e.at >= before[j].at + policy.cooldown
  }

  /** Kill: a term went through the same handle at least the grace period before, nothing was sent or
      finished in between, and the fresh look shows the recorded process, still over, not reduced. */
  ghost predicate KillLawful(before: seq<Effect>, e: Effect, policy: Policy) {
    exists j :: 1 <= j < |before| && KillFollows(before, j, e, policy)
  }

  ghost predicate KillFollows(before: seq<Effect>, j: nat, e: Effect, policy: Policy)
    requires 1 <= j < |before|
  {
    && e.Signalled? && before[j].Signalled? && before[j].signal == Term && before[j].fd == e.fd
    && before[j - 1].Intent? && before[j - 1].fd == e.fd
    && e.at - before[j].at >= policy.grace
    && (forall m :: j < m < |before| ==> !before[m].Signalled? && !before[m].Finished?)
    && Vouched(e.look, before[j - 1], e.reason, policy)
    && KeptMemory(e.look, before[j - 1].process.rss, policy)
  }

  ghost predicate StepLawful(before: seq<Effect>, e: Effect, policy: Policy) {
    e.Signalled? ==> if e.signal == Term then TermLawful(before, e, policy) else KillLawful(before, e, policy)
  }

  /** Every signal of the log was lawful when it was sent. */
  ghost predicate Lawful(log: seq<Effect>, policy: Policy) {
    forall k :: 0 <= k < |log| ==> StepLawful(log[..k], log[k], policy)
  }

  lemma LawfulGrows(log: seq<Effect>, e: Effect, policy: Policy)
    requires Lawful(log, policy) && StepLawful(log, e, policy)
    ensures Lawful(log + [e], policy)
  {
    var more := log + [e];
    forall k | 0 <= k < |more| ensures StepLawful(more[..k], more[k], policy) {
      if k < |log| {
        assert more[..k] == log[..k];
      } else {
        assert more[..k] == log;
      }
    }
  }

  /** The log ends in the term of the action in progress: what came after it is neither a signal nor the
      end of an action. */
  ghost predicate InProgress(log: seq<Effect>, p: Pending) {
    exists j :: 1 <= j < |log| && TermOf(log, j, p)
  }

  ghost predicate TermOf(log: seq<Effect>, j: nat, p: Pending)
    requires 1 <= j < |log|
  {
    && log[j].Signalled? && log[j].signal == Term && log[j].fd == p.fd && log[j].at == p.started
    && log[j - 1].Intent? && log[j - 1].fd == p.fd && log[j - 1].process == p.process && log[j - 1].reason == p.reason
    && p.process.classification == Some(p.classification)
    && forall m :: j < m < |log| ==> !log[m].Signalled? && !log[m].Finished?
  }

  /** A kill of the action in progress, after the grace period and its own look, is lawful. */
  lemma KillIsLawful(log: seq<Effect>, p: Pending, e: Effect, policy: Policy)
    requires InProgress(log, p) && e.Signalled? && e.signal == Kill && e.fd == p.fd && e.reason == p.reason
    requires e.at - p.started >= policy.grace
    requires Warrants(e.look, p.process.identity, p.classification, e.reason, policy)
    requires KeptMemory(e.look, p.process.rss, policy)
    ensures StepLawful(log, e, policy)
  {
    var j :| 1 <= j < |log| && TermOf(log, j, p);
    assert KillFollows(log, j, e, policy);
  }

  // ---- One tick keeps the log lawful ----

  /** A number's holder only changes to a later-started process: from the scan to the opening of the handle
      to the look after it. */
  ghost predicate Chronological(scene: Scene) {
    forall pid :: pid in scene.handles ==>
      && (forall p :: p in scene.scan.processes && p.identity.key.pid == pid ==> p.identity.key.start <= scene.handles[pid].1)
      && (scene.first(pid).current.Some? && scene.first(pid).current.value.identity.key.pid == pid ==>
            scene.handles[pid].1 <= scene.first(pid).current.value.identity.key.start)
  }

  /** Every action that ended has its cooldown kept, and an action in progress has its term in the log. */
  ghost predicate Sane(s: State, policy: Policy, latest: int) {
    && Lawful(s.log, policy) && Rested(s.log, s.cooldownUntil, policy, latest)
    && (s.pending.Some? ==> InProgress(s.log, s.pending.value))
  }

  ghost predicate Rested(log: seq<Effect>, cooldownUntil: int, policy: Policy, latest: int) {
    forall j :: 0 <= j < |log| && log[j].Finished? ==> log[j].at + policy.cooldown <= cooldownUntil && log[j].at <= latest
  }

  lemma ClosedSane(s: State, fd: nat, clock: int, written: bool, policy: Policy)
    requires Lawful(s.log, policy) && Rested(s.log, s.cooldownUntil, policy, clock)
    ensures Lawful(Closed(s, fd, clock, written, policy).log, policy)
    ensures written ==> Sane(Closed(s, fd, clock, written, policy), policy, clock)
  {
    LawfulGrows(s.log, Finished(fd, clock), policy);
  }

  lemma AdvancedSane(s: State, clock: int, first: Recheck, second: Recheck, sendable: bool, written: bool, policy: Policy)
    requires Sane(s, policy, clock) && s.pending.Some?
    ensures var t := Advanced(s, clock, first, second, sendable, written, policy);
            Lawful(t.log, policy) && (t.alive ==> Sane(t, policy, clock))
  {
    var p, clear := s.pending.value, s.(deferred := false);
    if first.complete && !Waits(p, clock, first, policy) {
      if KillDue(p, clock, first, second, policy) && sendable {
        var kill := Signalled(p.fd, Kill, clock, p.reason, second);
        JustifiedExactly(second, p.process.identity, p.classification, p.reason, policy);
        KillIsLawful(s.log, p, kill, policy);
        LawfulGrows(s.log, kill, policy);
        ClosedSane(Logged(clear, kill), p.fd, clock, written, policy);
      } else {
        ClosedSane(clear, p.fd, clock, written, policy);
      }
    }
  }

  /** The log says that this very process was to be acted on, after the streak its reason calls for. */
  ghost predicate Declared(log: seq<Effect>, process: Process, reason: Reason, fd: nat, policy: Policy) {
    && |log| >= 2 && log[|log| - 2].Opened? && log[|log| - 1].Intent?
    && log[|log| - 2].fd == log[|log| - 1].fd == fd
    && log[|log| - 1].process == process && log[|log| - 1].reason == reason
    && Sustained(log[|log| - 1].samples, process.identity.key, reason, policy)
  }

  lemma TerminatedSane(s: State, process: Process, classification: Classification, reason: Reason, fd: nat, clock: int,
                       scene: Scene, policy: Policy)
    requires Sane(s, policy, clock) && s.pending == None && scene.sentAt >= clock >= s.cooldownUntil
    requires process.classification == Some(classification) && Declared(s.log, process, reason, fd, policy)
    requires TermAllowed(process, classification, reason, scene, policy) ==>
               s.log[|s.log| - 2].target == process.identity.key
    ensures var t := Terminated(s, process, classification, reason, fd, clock, scene, policy);
            Lawful(t.log, policy) && (t.alive ==> Sane(t, policy, clock))
  {
    if TermAllowed(process, classification, reason, scene, policy) {
      var e := Signalled(fd, Term, scene.sentAt, reason, scene.first(process.identity.key.pid));
      JustifiedExactly(e.look, process.identity, classification, reason, policy);
      assert TermLawful(s.log, e, policy);
      LawfulGrows(s.log, e, policy);
      var log, p := s.log + [e], Pending(process, classification, fd, reason, scene.sentAt);
      assert TermOf(log, |log| - 1, p);
    } else {
      ClosedSane(s, fd, clock, scene.resultWritten, policy);
    }
  }

  /** The look after the handle was opened shows the process scanned, so the handle is that process's. */
  lemma HandleIsTarget(process: Process, classification: Classification, reason: Reason, scene: Scene, policy: Policy)
    requires process in scene.scan.processes && Chronological(scene) && process.identity.key.pid in scene.handles
    requires TermAllowed(process, classification, reason, scene, policy)
    ensures scene.handles[process.identity.key.pid].1 == process.identity.key.start
  {
  }

  lemma ActedSane(s: State, process: Process, reason: Reason, clock: int, scene: Scene, policy: Policy)
    requires Sane(s, policy, clock) && s.pending == None && scene.sentAt >= clock >= s.cooldownUntil
    requires process in scene.scan.processes && process.classification.Some? && Chronological(scene)
    requires Sustained(s.samples, process.identity.key, reason, policy)
    ensures var t := Acted(s, process, reason, clock, scene, policy);
            Lawful(t.log, policy) && (t.alive ==> Sane(t, policy, clock))
  {
    var pid := process.identity.key.pid;
    if pid in scene.handles {
      var (fd, start) := scene.handles[pid];
      LawfulGrows(s.log, Opened(fd, Key(pid, start)), policy);
      if scene.intentWritten {
        var declared := Logged(Logged(s, Opened(fd, Key(pid, start))), Intent(fd, process, reason, s.samples));
        DeclaredSane(s, process, reason, clock, fd, Key(pid, start), policy);
        HandledSane(declared, process, reason, clock, scene, policy);
      }
    }
  }

  /** The term, on the handle that was opened for it. */
  lemma HandledSane(s: State, process: Process, reason: Reason, clock: int, scene: Scene, policy: Policy)
    requires Sane(s, policy, clock) && s.pending == None && scene.sentAt >= clock >= s.cooldownUntil
    requires process in scene.scan.processes && process.classification.Some? && Chronological(scene)
    requires process.identity.key.pid in scene.handles
    requires var (fd, start) := scene.handles[process.identity.key.pid];
      Declared(s.log, process, reason, fd, policy) && s.log[|s.log| - 2].target == Key(process.identity.key.pid, start)
    ensures var t := Terminated(s, process, process.classification.value, reason, scene.handles[process.identity.key.pid].0, clock,
                                scene, policy);
            Lawful(t.log, policy) && (t.alive ==> Sane(t, policy, clock))
  {
    if TermAllowed(process, process.classification.value, reason, scene, policy) {
      HandleIsTarget(process, process.classification.value, reason, scene, policy);
    }
    TerminatedSane(s, process, process.classification.value, reason, scene.handles[process.identity.key.pid].0, clock, scene, policy);
  }

  /** Opening a handle and recording the intent. */
  lemma DeclaredSane(s: State, process: Process, reason: Reason, clock: int, fd: nat, target: Key, policy: Policy)
    requires Sane(s, policy, clock) && s.pending == None && Sustained(s.samples, process.identity.key, reason, policy)
    ensures var t := Logged(Logged(s, Opened(fd, target)), Intent(fd, process, reason, s.samples));
            Sane(t, policy, clock) && Declared(t.log, process, reason, fd, policy) && t.log[|t.log| - 2].target == target
  {
    NoteSane(s, clock, Opened(fd, target), policy);
    NoteSane(Logged(s, Opened(fd, target)), clock, Intent(fd, process, reason, s.samples), policy);
  }

  lemma NoteSane(s: State, clock: int, e: Effect, policy: Policy)
    requires Sane(s, policy, clock) && s.pending == None && !e.Signalled? && !e.Finished?
    ensures Sane(Logged(s, e), policy, clock)
  {
    LawfulGrows(s.log, e, policy);
  }

  lemma TickedSane(s: State, clock: int, scene: Scene, policy: Policy)
    requires Sane(s, policy, clock) && Chronological(scene) && clock <= scene.sentAt
    ensures var t := Ticked(s, clock, scene, policy);
            Lawful(t.log, policy) && (t.alive ==> Sane(t, policy, clock))
  {
    if s.pending.Some? {
      var pid := s.pending.value.process.identity.key.pid;
      AdvancedSane(s, clock, scene.first(pid), scene.second(pid), scene.sendable, scene.resultWritten, policy);
    } else if Takes(s, clock) {
      var t := Sampled(s, clock, scene.scan, policy);
      var choice := Chosen(t.samples, scene.scan.processes, policy);
      ChosenIsMaximum(t.samples, scene.scan.processes, policy);
      if MayAct(s, clock, scene) && choice.Some? {
        ActedSane(t, choice.value, ReasonIn(t.samples, choice.value, policy).value, clock, scene, policy);
      }
    }
  }

  // ---- Runs ----

  datatype Turn = Turn(clock: int, scene: Scene)

  /** Turns as they happen: the clock does not go back, and a process table is one. */
  ghost predicate Plausible(turns: seq<Turn>) {
    && (forall i :: 0 <= i < |turns| ==>
          && Chronological(turns[i].scene) && OnePerNumber(turns[i].scene.scan.processes)
          && turns[i].clock <= turns[i].scene.sentAt)
    && (forall i, j :: 0 <= i < j < |turns| ==> turns[i].clock <= turns[j].clock)
  }

  /** The guard after the first `n` turns; a failed write ends the process. */
  function RunOf(policy: Policy, turns: seq<Turn>, n: nat): State
    requires n <= |turns|
  {
    if n == 0 then Fresh
    else
      var before := RunOf(policy, turns, n - 1);
      if before.alive then Ticked(before, turns[n - 1].clock, turns[n - 1].scene, policy) else before
  }

  lemma {:induction false} RunSane(policy: Policy, turns: seq<Turn>, n: nat)
    requires n <= |turns| && Plausible(turns)
    ensures var s := RunOf(policy, turns, n);
            Lawful(s.log, policy) && (s.alive ==> Sane(s, policy, if n == 0 then 0 else turns[n - 1].clock))
    decreases n
  {
    if n > 0 {
      RunSane(policy, turns, n - 1);
      var before := RunOf(policy, turns, n - 1);
      if before.alive {
        assert Sane(before, policy, turns[n - 1].clock);
        TickedSane(before, turns[n - 1].clock, turns[n - 1].scene, policy);
      }
    }
  }

  /** The turns of the first `n` that took a sample: those that found no action in progress and a clock
      that had moved. */
  function Sampling(policy: Policy, turns: seq<Turn>, n: nat): (taken: seq<nat>)
    requires n <= |turns|
    ensures forall m :: 0 <= m < |taken| ==> taken[m] < n
  {
    if n == 0 then []
    else
      var before, s := Sampling(policy, turns, n - 1), RunOf(policy, turns, n - 1);
      if s.alive && Takes(s, turns[n - 1].clock) then before + [n - 1] else before
  }

  /** What sample `m` must say: the scan of its turn, compared with the host as the sample before found it. */
  function Reading(policy: Policy, turns: seq<Turn>, taken: seq<nat>, m: nat): Sample
    requires m < |taken| && forall k :: 0 <= k < |taken| ==> taken[k] < |turns|
  {
    var turn := turns[taken[m]];
    if m == 0 then SampleAt(turn.scene.scan, policy, None, None, turn.clock)
    else
      var earlier := turns[taken[m - 1]];
      SampleAt(turn.scene.scan, policy, earlier.scene.scan.host, Some(earlier.clock), turn.clock)
  }

  /** The samples are the readings of the turns that took one, and the latest of these is remembered. */
  ghost predicate AreReadings(policy: Policy, turns: seq<Turn>, s: State, taken: seq<nat>)
    requires forall m :: 0 <= m < |taken| ==> taken[m] < |turns|
  {
    && |s.samples| == |taken| && (forall m :: 0 <= m < |taken| ==> s.samples[m] == Reading(policy, turns, taken, m))
    && s.host == (if taken == [] then None else turns[taken[|taken| - 1]].scene.scan.host)
    && s.at == (if taken == [] then None else Some(turns[taken[|taken| - 1]].clock))
  }

  lemma ReadingAdds(policy: Policy, turns: seq<Turn>, s: State, t: State, taken: seq<nat>, i: nat)
    requires i < |turns| && (forall m :: 0 <= m < |taken| ==> taken[m] < |turns|) && AreReadings(policy, turns, s, taken)
    requires t.samples == Sampled(s, turns[i].clock, turns[i].scene.scan, policy).samples
    requires t.host == turns[i].scene.scan.host && t.at == Some(turns[i].clock)
    ensures AreReadings(policy, turns, t, taken + [i])
  {
    var more := taken + [i];
    forall m | 0 <= m < |more| ensures t.samples[m] == Reading(policy, turns, more, m) {
      if m < |taken| {
        assert Reading(policy, turns, more, m) == Reading(policy, turns, taken, m);
      }
    }
  }

  /** The samples of a run are the readings of the turns that took one, and nothing else. */
  lemma {:induction false} SamplesAreReadings(policy: Policy, turns: seq<Turn>, n: nat)
    requires n <= |turns|
    ensures AreReadings(policy, turns, RunOf(policy, turns, n), Sampling(policy, turns, n))
    decreases n
  {
    if n > 0 {
      SamplesAreReadings(policy, turns, n - 1);
      var s := RunOf(policy, turns, n - 1);
      if s.alive {
        TickedSamples(s, turns[n - 1].clock, turns[n - 1].scene, policy);
        if Takes(s, turns[n - 1].clock) {
          ReadingAdds(policy, turns, s, RunOf(policy, turns, n), Sampling(policy, turns, n - 1), n - 1);
        }
      }
    }
  }

  lemma TickedSamples(s: State, clock: int, scene: Scene, policy: Policy)
    ensures var t := Ticked(s, clock, scene, policy);
            if Takes(s, clock)
            then t.samples == Sampled(s, clock, scene.scan, policy).samples && t.host == scene.scan.host && t.at == Some(clock)
            else t.samples == s.samples && t.host == s.host && t.at == s.at
  {
  }

  // ---- Where each signal comes from ----

  /** A term that a tick in state `s` put at `k` of the log of `t`. */
  ghost predicate TermAdded(s: State, t: State, clock: int, scene: Scene, policy: Policy, k: nat)
    requires k < |t.log|
  {
    && Takes(s, clock) && MayAct(s, clock, scene) && k == |s.log| + 2
    && t.log[k - 1].Intent? && t.log[k - 1].samples == t.samples
    && Chosen(t.samples, scene.scan.processes, policy) == Some(t.log[k - 1].process)
    && ReasonIn(t.samples, t.log[k - 1].process, policy) == Some(t.log[k - 1].reason)
    && t.log[k] == Signalled(t.log[k - 1].fd, Term, scene.sentAt, t.log[k - 1].reason,
                             scene.first(t.log[k - 1].process.identity.key.pid))
  }

  ghost predicate KillAdded(s: State, t: State, clock: int, scene: Scene, policy: Policy, k: nat)
    requires k < |t.log|
  {
    && s.pending.Some? && k == |s.log|
    && var p := s.pending.value;
       var pid := p.process.identity.key.pid;
       && KillDue(p, clock, scene.first(pid), scene.second(pid), policy)
       && t.log[k] == Signalled(p.fd, Kill, clock, p.reason, scene.second(pid))
  }

  lemma AdvancedLog(s: State, clock: int, scene: Scene, policy: Policy, k: nat)
    requires s.pending.Some?
    ensures var t := Ticked(s, clock, scene, policy);
      s.log <= t.log && (|s.log| <= k < |t.log| && t.log[k].Signalled? ==>
        t.log[k].signal == Kill && KillAdded(s, t, clock, scene, policy, k))
  {
  }

  /** What acting adds: the handle, the intent, and then the term or the end of the action. */
  lemma ActedLog(s: State, process: Process, reason: Reason, clock: int, scene: Scene, policy: Policy, k: nat)
    requires process.classification.Some?
    ensures var t := Acted(s, process, reason, clock, scene, policy);
      && s.log <= t.log && t.samples == s.samples
      && (|s.log| <= k < |t.log| && t.log[k].Signalled? ==>
            && k == |s.log| + 2 && t.log[k - 1].Intent? && t.log[k - 1] == Intent(t.log[k - 1].fd, process, reason, s.samples)
            && t.log[k] == Signalled(t.log[k - 1].fd, Term, scene.sentAt, reason, scene.first(process.identity.key.pid)))
  {
  }

  lemma SampledLog(s: State, clock: int, scene: Scene, policy: Policy, k: nat)
    requires Takes(s, clock)
    ensures var t := Ticked(s, clock, scene, policy);
      s.log <= t.log && (|s.log| <= k < |t.log| && t.log[k].Signalled? ==>
        t.log[k].signal == Term && TermAdded(s, t, clock, scene, policy, k))
  {
    var t := Sampled(s, clock, scene.scan, policy);
    var choice := Chosen(t.samples, scene.scan.processes, policy);
    if MayAct(s, clock, scene) && choice.Some? {
      ActedLog(t, choice.value, ReasonIn(t.samples, choice.value, policy).value, clock, scene, policy, k);
    }
  }

  /** What one tick adds to the log. */
  lemma TickedLog(s: State, clock: int, scene: Scene, policy: Policy, k: nat)
    ensures var t := Ticked(s, clock, scene, policy);
      s.log <= t.log && (|s.log| <= k < |t.log| && t.log[k].Signalled? ==>
        if t.log[k].signal == Term then TermAdded(s, t, clock, scene, policy, k) else KillAdded(s, t, clock, scene, policy, k))
  {
    if s.pending.Some? {
      AdvancedLog(s, clock, scene, policy, k);
    } else if Takes(s, clock) {
      SampledLog(s, clock, scene, policy, k);
    }
  }

  lemma {:induction false} LogGrows(policy: Policy, turns: seq<Turn>, m: nat, n: nat)
    requires m <= n <= |turns|
    ensures RunOf(policy, turns, m).log <= RunOf(policy, turns, n).log
    decreases n
  {
    if m < n {
      LogGrows(policy, turns, m, n - 1);
      TickedLog(RunOf(policy, turns, n - 1), turns[n - 1].clock, turns[n - 1].scene, policy, 0);
    }
  }

  /** Turn `i` sent the signal at `k` of the log. A term: it sampled, could act, and recorded an intent on the
      worker it chose, with all the samples so far, and its own look afterwards allowed the term. A kill:
      after its own two looks at the worker being acted on. */
  ghost predicate SentBy(policy: Policy, turns: seq<Turn>, i: nat, log: seq<Effect>, k: nat)
    requires i < |turns| && k < |log| && log[k].Signalled?
  {
    var s, t := RunOf(policy, turns, i), RunOf(policy, turns, i + 1);
    && s.alive && t.log <= log && k < |t.log|
    && if log[k].signal == Term then TermAdded(s, t, turns[i].clock, turns[i].scene, policy, k)
       else KillAdded(s, t, turns[i].clock, turns[i].scene, policy, k)
  }

  /** What the last turn added, it sent itself. */
  lemma LastSent(policy: Policy, turns: seq<Turn>, n: nat, k: nat)
    requires n < |turns| && |RunOf(policy, turns, n).log| <= k < |RunOf(policy, turns, n + 1).log|
    requires RunOf(policy, turns, n + 1).log[k].Signalled?
    ensures SentBy(policy, turns, n, RunOf(policy, turns, n + 1).log, k)
  {
    TickedLog(RunOf(policy, turns, n), turns[n].clock, turns[n].scene, policy, k);
  }

  lemma SentLonger(policy: Policy, turns: seq<Turn>, i: nat, log: seq<Effect>, more: seq<Effect>, k: nat)
    requires i < |turns| && k < |log| && log <= more && log[k].Signalled? && SentBy(policy, turns, i, log, k)
    ensures SentBy(policy, turns, i, more, k)
  {
  }

  /** Every signal of a run was sent by one of its turns, on that turn's own scan and looks. */
  lemma {:induction false} SignalTurn(policy: Policy, turns: seq<Turn>, n: nat, k: nat) returns (i: nat)
    requires n <= |turns| && k < |RunOf(policy, turns, n).log| && RunOf(policy, turns, n).log[k].Signalled?
    ensures i < n && SentBy(policy, turns, i, RunOf(policy, turns, n).log, k)
    decreases n
  {
    var before := RunOf(policy, turns, n - 1);
    if k < |before.log| {
      LogGrows(policy, turns, n - 1, n);
      i := SignalTurn(policy, turns, n - 1, k);
      SentLonger(policy, turns, i, before.log, RunOf(policy, turns, n).log, k);
    } else {
      i := n - 1;
      LastSent(policy, turns, n - 1, k);
    }
  }

  // ---- What the streaks say of the turns ----

  lemma {:induction false} OverMeans(samples: seq<Sample>, key: Key, m: nat)
    ensures RunOver(samples, key) >= m <==>
      m <= |samples| && forall j :: |samples| - m <= j < |samples| ==> key in samples[j].over
    decreases |samples|
  {
    if samples != [] && m > 0 {
      OverMeans(samples[..|samples| - 1], key, m - 1);
    }
  }

  lemma {:induction false} PressedMeans(samples: seq<Sample>, m: nat)
    ensures RunPressed(samples) >= m <==>
      m <= |samples| && forall j :: |samples| - m <= j < |samples| ==> samples[j].pressured
    decreases |samples|
  {
    if samples != [] && m > 0 {
      PressedMeans(samples[..|samples| - 1], m - 1);
    }
  }

  /** The reason a worker was acted on at turn `i` held in each of the last samples the policy asks for, the
      last of which turn `i` took itself: a complete scan showed it eligible and over its limit, or the host
      was pressed and the worker was large. */
  ghost predicate Owed(policy: Policy, turns: seq<Turn>, i: nat, process: Process, reason: Reason)
    requires i < |turns|
  {
    OwedIn(policy, turns, Sampling(policy, turns, i + 1), i, process, reason)
  }

  ghost predicate OwedIn(policy: Policy, turns: seq<Turn>, taken: seq<nat>, i: nat, process: Process, reason: Reason)
    requires i < |turns| && forall m :: 0 <= m < |taken| ==> taken[m] < |turns|
  {
    && |taken| >= policy.sustained && taken != [] && taken[|taken| - 1] == i
    && process in turns[i].scene.scan.processes && process.classification.Some?
    && turns[i].scene.scan.complete && !turns[i].scene.dryRun
    && match reason
       case OverBudget =>
         forall m :: |taken| - policy.sustained <= m < |taken| ==> OverAt(turns[taken[m]].scene.scan, process.identity.key)
       case UnderPressure =>
         process.rss >= policy.minimumRss
         && forall m :: |taken| - policy.sustained <= m < |taken| ==> PressedAt(policy, turns, taken, m)
  }

  /** A complete scan shows the worker eligible and over its limit. */
  ghost predicate OverAt(scan: Snapshot, key: Key) {
    && scan.complete
    && exists p :: p in scan.processes && p.identity.key == key && p.classification.Some? && p.budget.Some? && p.rss > p.budget.value
  }

  /** The complete scan of sample `m` shows the host pressed, by itself or since the sample before. */
  ghost predicate PressedAt(policy: Policy, turns: seq<Turn>, taken: seq<nat>, m: nat)
    requires m < |taken| && forall k :: 0 <= k < |taken| ==> taken[k] < |turns|
  {
    var turn := turns[taken[m]];
    && turn.scene.scan.complete
    && if m == 0 then Pressed(turn.scene.scan.host, policy, None, 0)
       else
         var earlier := turns[taken[m - 1]];
         Pressed(turn.scene.scan.host, policy, earlier.scene.scan.host, turn.clock - earlier.clock)
  }

  lemma PressedExactly(policy: Policy, turns: seq<Turn>, taken: seq<nat>, m: nat)
    requires m < |taken| && forall k :: 0 <= k < |taken| ==> taken[k] < |turns|
    ensures Reading(policy, turns, taken, m).pressured <==> PressedAt(policy, turns, taken, m)
  {
    var turn := turns[taken[m]];
    if m == 0 {
      PressureExactly(turn.scene.scan.host, policy, None, 1);
    } else {
      var earlier := turns[taken[m - 1]];
      PressureExactly(turn.scene.scan.host, policy, earlier.scene.scan.host, turn.clock - earlier.clock);
    }
  }

  lemma OverExactly(scan: Snapshot, key: Key)
    ensures key in Over(scan) <==> OverAt(scan, key)
  {
  }

  /** A streak over the samples is a streak over the scans of the turns that took them. */
  ghost predicate StreaksTell(policy: Policy, turns: seq<Turn>, samples: seq<Sample>, taken: seq<nat>, key: Key)
    requires forall m :: 0 <= m < |taken| ==> taken[m] < |turns|
  {
    && (RunOver(samples, key) >= policy.sustained <==>
          (|taken| >= policy.sustained
           && forall m :: |taken| - policy.sustained <= m < |taken| ==> OverAt(turns[taken[m]].scene.scan, key)))
    && (RunPressed(samples) >= policy.sustained <==>
          (|taken| >= policy.sustained
           && forall m :: |taken| - policy.sustained <= m < |taken| ==> PressedAt(policy, turns, taken, m)))
  }

  lemma StreakOwed(policy: Policy, turns: seq<Turn>, n: nat, key: Key)
    requires n <= |turns|
    ensures StreaksTell(policy, turns, RunOf(policy, turns, n).samples, Sampling(policy, turns, n), key)
  {
    var s, taken := RunOf(policy, turns, n), Sampling(policy, turns, n);
    SamplesAreReadings(policy, turns, n);
    OverTold(policy, turns, s, taken, key);
    PressedTold(policy, turns, s, taken);
  }

  lemma OverTold(policy: Policy, turns: seq<Turn>, s: State, taken: seq<nat>, key: Key)
    requires (forall m :: 0 <= m < |taken| ==> taken[m] < |turns|) && AreReadings(policy, turns, s, taken)
    ensures RunOver(s.samples, key) >= policy.sustained <==>
      |taken| >= policy.sustained
      && forall m :: |taken| - policy.sustained <= m < |taken| ==> OverAt(turns[taken[m]].scene.scan, key)
  {
    OverMeans(s.samples, key, policy.sustained);
    forall m | 0 <= m < |taken| ensures key in s.samples[m].over <==> OverAt(turns[taken[m]].scene.scan, key) {
      assert s.samples[m] == Reading(policy, turns, taken, m);
      OverExactly(turns[taken[m]].scene.scan, key);
    }
  }

  lemma PressedTold(policy: Policy, turns: seq<Turn>, s: State, taken: seq<nat>)
    requires (forall m :: 0 <= m < |taken| ==> taken[m] < |turns|) && AreReadings(policy, turns, s, taken)
    ensures RunPressed(s.samples) >= policy.sustained <==>
      |taken| >= policy.sustained
      && forall m :: |taken| - policy.sustained <= m < |taken| ==> PressedAt(policy, turns, taken, m)
  {
    PressedMeans(s.samples, policy.sustained);
    forall m | 0 <= m < |taken| ensures s.samples[m].pressured <==> PressedAt(policy, turns, taken, m) {
      assert s.samples[m] == Reading(policy, turns, taken, m);
      PressedExactly(policy, turns, taken, m);
    }
  }

  /** Exactly the turns that found the guard alive, no action in progress and a clock that had moved since the sample
      before took one. */
  lemma SamplingExactly(policy: Policy, turns: seq<Turn>, n: nat)
    requires n < |turns|
    ensures var before, s := Sampling(policy, turns, n), RunOf(policy, turns, n);
      Sampling(policy, turns, n + 1) ==
        if s.alive && s.pending == None && (before != [] ==> turns[before[|before| - 1]].clock < turns[n].clock)
        then before + [n] else before
  {
    SamplesAreReadings(policy, turns, n);
  }

  lemma LastTaken(policy: Policy, turns: seq<Turn>, i: nat)
    requires i < |turns| && RunOf(policy, turns, i).alive && Takes(RunOf(policy, turns, i), turns[i].clock)
    ensures Sampling(policy, turns, i + 1) != []
    ensures Sampling(policy, turns, i + 1)[|Sampling(policy, turns, i + 1)| - 1] == i
  {
    assert Sampling(policy, turns, i + 1) == Sampling(policy, turns, i) + [i];
  }

  lemma TermOwed(policy: Policy, turns: seq<Turn>, i: nat, log: seq<Effect>, k: nat)
    requires ValidPolicy(policy) && i < |turns| && k < |log| && log[k].Signalled? && log[k].signal == Term
    requires SentBy(policy, turns, i, log, k)
    ensures k > 0 && log[k - 1].Intent? && Owed(policy, turns, i, log[k - 1].process, log[k - 1].reason)
  {
    var s, t, turn := RunOf(policy, turns, i), RunOf(policy, turns, i + 1), turns[i];
    assert TermAdded(s, t, turn.clock, turn.scene, policy, k);
    assert log[k - 1] == t.log[k - 1];
    LastTaken(policy, turns, i);
    StreakOwed(policy, turns, i + 1, log[k - 1].process.identity.key);
    ChosenOwed(policy, turns, Sampling(policy, turns, i + 1), i, t.samples, log[k - 1].process, log[k - 1].reason);
  }

  /** Whatever is chosen after samples that tell of the turns is owed by them. */
  lemma ChosenOwed(policy: Policy, turns: seq<Turn>, taken: seq<nat>, i: nat, samples: seq<Sample>,
                   process: Process, reason: Reason)
    requires i < |turns| && forall m :: 0 <= m < |taken| ==> taken[m] < |turns|
    requires taken != [] && taken[|taken| - 1] == i && StreaksTell(policy, turns, samples, taken, process.identity.key)
    requires Chosen(samples, turns[i].scene.scan.processes, policy) == Some(process)
    requires ReasonIn(samples, process, policy) == Some(reason)
    requires turns[i].scene.scan.complete && !turns[i].scene.dryRun
    ensures OwedIn(policy, turns, taken, i, process, reason)
  {
    ChosenIsMaximum(samples, turns[i].scene.scan.processes, policy);
    ReasonExactly(samples, process, policy);
  }

  /** The signal at `k` of the log was sent by a turn on its own looks, and a term was owed there. */
  ghost predicate Traced(policy: Policy, turns: seq<Turn>, log: seq<Effect>, k: nat)
    requires k < |log| && log[k].Signalled?
  {
    exists i: nat :: i < |turns| && SentBy(policy, turns, i, log, k)
      && (log[k].signal == Term ==>
            k > 0 && log[k - 1].Intent? && Owed(policy, turns, i, log[k - 1].process, log[k - 1].reason))
  }

  lemma SignalsTraced(policy: Policy, turns: seq<Turn>, n: nat, k: nat)
    requires ValidPolicy(policy) && n <= |turns|
    requires k < |RunOf(policy, turns, n).log| && RunOf(policy, turns, n).log[k].Signalled?
    ensures Traced(policy, turns, RunOf(policy, turns, n).log, k)
  {
    var log := RunOf(policy, turns, n).log;
    var i := SignalTurn(policy, turns, n, k);
    if log[k].signal == Term {
      TermOwed(policy, turns, i, log, k);
    }
  }

  /** Every run of one guard process, until a failed write ends it: no signal is ever unlawful, each was
      sent by a turn on that turn's own looks, and each term was owed by the scans of the turns before. */
  method Live(policy: Policy, turns: seq<Turn>) returns (guard: Guard)
    requires ValidPolicy(policy) && Plausible(turns)
    ensures fresh(guard) && guard.policy == policy && guard.View() == RunOf(policy, turns, |turns|)
    ensures Lawful(guard.log, policy)
    ensures forall k :: 0 <= k < |guard.log| && guard.log[k].Signalled? ==> Traced(policy, turns, guard.log, k)
  {
    guard := new Guard(policy);
    for i := 0 to |turns|
      invariant fresh(guard) && guard.policy == policy && guard.Valid() && guard.View() == RunOf(policy, turns, i)
    {
      if guard.alive {
        guard.Tick(turns[i].clock, turns[i].scene);
      }
    }
    RunSane(policy, turns, |turns|);
    ghost var log := RunOf(policy, turns, |turns|).log;
    forall k | 0 <= k < |log| && log[k].Signalled? ensures Traced(policy, turns, log, k) {
      SignalsTraced(policy, turns, |turns|, k);
    }
  }

  /** What a lawful log says of each kill: a term went through the same handle at least the grace period
      earlier, no signal came between them, and the process then looked at is the one the intent before
      that term names. */
  lemma KillsFollowTerms(log: seq<Effect>, policy: Policy, k: nat)
    requires Lawful(log, policy) && k < |log| && log[k].Signalled? && log[k].signal == Kill
    ensures exists j :: 1 <= j < k && KillFollows(log[..k], j, log[k], policy)
    ensures exists j :: 2 <= j < k && log[j].Signalled? && log[j].signal == Term && log[j].fd == log[k].fd
              && log[k].at - log[j].at >= policy.grace && TermLawful(log[..j], log[j], policy)
              && (forall m :: j < m < k ==> !log[m].Signalled?)
  {
    assert StepLawful(log[..k], log[k], policy);
    var j :| 1 <= j < k && KillFollows(log[..k], j, log[k], policy);
    assert log[..k][j] == log[j];
    assert StepLawful(log[..j], log[j], policy);
    forall m | j < m < k ensures !log[m].Signalled? {
      assert log[..k][m] == log[m];
    }
  }

  // ---- What one tick does ----

  /** A tick while an action is in progress. It kills exactly when the grace period is over and both looks show the
      same worker, the reason and no memory given back; an incomplete look changes nothing, nor does one that shows
      the worker within its grace period; and anything else ends the action. */
  lemma ActionTicks(s: State, clock: int, scene: Scene, policy: Policy)
    requires s.pending.Some?
    ensures var p, t := s.pending.value, Ticked(s, clock, scene, policy);
      var first, second := scene.first(p.process.identity.key.pid), scene.second(p.process.identity.key.pid);
      var same := first.current.Some? && first.current.value.identity == p.process.identity
                  && first.current.value.classification == Some(p.classification);
      var end := if scene.resultWritten then [Finished(p.fd, clock)] else [];
      if !first.complete || (same && clock - p.started < policy.grace) then t.log == s.log && t.pending == s.pending
      else
        && t.pending == None && (scene.resultWritten ==> t.cooldownUntil == clock + policy.cooldown)
        && t.log == s.log
           + (if Warrants(first, p.process.identity, p.classification, p.reason, policy) && KeptMemory(first, p.process.rss, policy)
                 && Warrants(second, p.process.identity, p.classification, p.reason, policy) && KeptMemory(second, p.process.rss, policy)
                 && scene.sendable
              then [Signalled(p.fd, Kill, clock, p.reason, second)] else [])
           + end
  {
    var p := s.pending.value;
    JustifiedExactly(scene.first(p.process.identity.key.pid), p.process.identity, p.classification, p.reason, policy);
    JustifiedExactly(scene.second(p.process.identity.key.pid), p.process.identity, p.classification, p.reason, policy);
  }

  /** The effects of acting on a worker: its handle, the intent with all the samples, and the term if the look taken
      after that warrants it, or the end of the action. */
  function Effects(process: Process, reason: Reason, samples: seq<Sample>, clock: int, scene: Scene, warranted: bool): seq<Effect> {
    var pid := process.identity.key.pid;
    if pid !in scene.handles then []
    else
      var fd := scene.handles[pid].0;
      [Opened(fd, Key(pid, scene.handles[pid].1))]
      + if !scene.intentWritten then []
        else
          [Intent(fd, process, reason, samples)]
          + if warranted && scene.sendable then [Signalled(fd, Term, scene.sentAt, reason, scene.first(pid))]
            else if scene.resultWritten then [Finished(fd, clock)] else []
  }

  /** A tick without one that finds the clock moved. It acts exactly when its scan is complete, it is no dry run, the
      cooldown is over and some worker is due; and then on a greatest of those. */
  lemma SampleTicks(s: State, clock: int, scene: Scene, policy: Policy)
    requires s.pending == None && (s.at.Some? ==> clock > s.at.value)
    ensures var t, processes := Ticked(s, clock, scene, policy), scene.scan.processes;
      if scene.scan.complete && !scene.dryRun && clock >= s.cooldownUntil
         && exists p, reason :: p in processes && Due(t.samples, p, reason, policy)
      then exists p, reason :: ActsOn(s, t, clock, scene, policy, p, reason)
      else t.log == s.log
  {
    var t := Sampled(s, clock, scene.scan, policy);
    var choice := Chosen(t.samples, scene.scan.processes, policy);
    ChosenIsMaximum(t.samples, scene.scan.processes, policy);
    assert Ticked(s, clock, scene, policy).samples == t.samples by {
      TickedSamples(s, clock, scene, policy);
    }
    if scene.scan.complete && !scene.dryRun && clock >= s.cooldownUntil && choice.Some? {
      var p, reason := choice.value, ReasonIn(t.samples, choice.value, policy).value;
      ReasonExactly(t.samples, p, policy);
      JustifiedExactly(scene.first(p.identity.key.pid), p.identity, p.classification.value, reason, policy);
      assert ActsOn(s, Acted(t, p, reason, clock, scene, policy), clock, scene, policy, p, reason);
    }
  }

  ghost predicate ActsOn(s: State, t: State, clock: int, scene: Scene, policy: Policy, p: Process, reason: Reason) {
    && Due(t.samples, p, reason, policy) && IsMaximum(Some(p), t.samples, scene.scan.processes, policy)
    && t.log == s.log + Effects(p, reason, t.samples, clock, scene,
                                Warrants(scene.first(p.identity.key.pid), p.identity, p.classification.value, reason, policy))
  }
}
