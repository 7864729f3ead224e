/** Where the order of the watchdog's archive depends on what is remembered: an archive longer than the memory,
    and a process that outlives the failed writes of its state file. */
module WatchdogFailures {
  import opened Basics
  import opened WatchdogModel
  import opened WatchdogStep
  import opened WatchdogProof
  import opened Watchdog
  import opened WatchdogRuns

  // ---- What the reading order is for ----

  lemma {:induction false} DroppedKept(log: seq<Event>, e: Event, drop: set<Event>)
    ensures e in drop ==> Kept(log + [e], drop) == Kept(log, drop)
    ensures e !in drop ==> Kept(log + [e], drop) == Kept(log, drop) + [e]
  {
    assert (log + [e])[..|log|] == log;
  }

  /** Replaying the outbox of a state that is not behind the archive: the archive stays in order exactly when
      the pending event is remembered if it is archived, or the append fails, or its copies are pruned. */
  lemma ReplayExact(l: Store)
    requires l.running && OutboxFits(l.state) && l.state.pending.Some? && Timely(l.state, l.log) && Ordered(l.log)
    ensures Ordered(Finished(l).store.log) <==>
              KnowsPending(l.state, l.log, l.remembered) || !FaultOf(l).result.Written?
              || PendingEvent(l.state.pending.value) in FaultOf(l).drop
  {
    var e, f := PendingEvent(l.state.pending.value), FaultOf(l);
    TimelyInformed(l.state, l.log, l.remembered);
    if KnowsPending(l.state, l.log, l.remembered) {
      ArchivedOrder(l);
    } else if f.result.Written? {
      DroppedKept(l.log, e, f.drop);
      KeptOrdered(l.log, f.drop);
      if e !in f.drop {
        assert e in Kept(l.log, f.drop);
        AppendOrdered(Kept(l.log, f.drop), e);
      }
    }
  }

  /** Distinct events are remembered from the last one back. */
  lemma {:induction false} RecalledDistinct(order: seq<Event>)
    requires forall i, j :: 0 <= i < j < |order| ==> order[i] != order[j]
    ensures Recalled(order) == if |order| <= REMEMBERED then order else order[|order| - REMEMBERED..]
    decreases |order|
  {
    if order != [] {
      var front, last := order[..|order| - 1], order[|order| - 1];
      RecalledDistinct(front);
      assert order == front + [last];
      assert last !in Recalled(front);
      if |front| >= REMEMBERED {
        assert Recalled(order) == front[|front| - REMEMBERED..][1..] + [last] || |front| == REMEMBERED;
        assert order[|order| - REMEMBERED..] == front[|order| - REMEMBERED..] + [last];
      }
    }
  }

  /** One opening for each outage. */
  function Openings(n: nat): seq<Event> {
    seq(n, i requires 0 <= i < n => Event(i, Opening))
  }

  /** Files that hold one event more than is remembered: the oldest is forgotten, so a state that still holds
      it in its outbox would archive it again. */
  lemma FullMemory(now: Anchor)
    ensures var log := Openings(10001);
      var st := State(Warned, now, Some(Outage(0, 0, false, None, None, None)),
                      Some(Pending(Opening, Outage(0, 0, false, None, None, None))));
      && OutboxFits(st) && Timely(st, log) && Ordered(log) && ReadOrder(log, log, log)
      && !KnowsPending(st, log, Recalled(log))
  {
    var log := Openings(REMEMBERED + 1);
    RecalledDistinct(log);
    assert log[0] == Event(0, Opening);
    var kept := log[1..];
    assert Recalled(log) == kept;
    forall i | 0 <= i < |kept| ensures kept[i] != Event(0, Opening) {
      assert kept[i] == Event(i + 1, Opening);
    }
  }

  // ---- A run that gets the archive out of order ----

  const HOURS := Limits(90, 120, 30)

  function Second(t: nat): Anchor {
    Anchor(t, t, 0)
  }

  /** Archive files are pruned when they are older than this many seconds. */
  const MAX_AGE := 7 * 86400

  /** The host was suspended for eight days: the wall clock has gone on, the monotonic clock has not. */
  function Resumption(t: nat): Anchor {
    Anchor(t + 8 * 86400, t, 0)
  }

  /** The event was appended in an earlier step, longer ago than archive files are kept. */
  ghost predicate OldAt(took: (Store, Step) -> Store, s: Store, steps: seq<Step>, e: Event, i: nat)
    requires i < |steps|
  {
    exists j: nat {:trigger AppendedIn(took, s, steps, e, j)} ::
      j < i && AppendedIn(took, s, steps, e, j) && steps[j].at.wall + MAX_AGE < steps[i].at.wall
  }

  ghost predicate AppendedIn(took: (Store, Step) -> Store, s: Store, steps: seq<Step>, e: Event, j: nat) {
    j < |steps| && e !in RunBy(took, s, steps, j).written && e in RunBy(took, s, steps, j + 1).written
  }

  /** Step `i` of a run prunes nothing but events that are too old to be kept. */
  ghost predicate PrunesOld(took: (Store, Step) -> Store, s: Store, steps: seq<Step>, i: nat)
    requires i < |steps|
  {
    var before, after := RunBy(took, s, steps, i), RunBy(took, s, steps, i + 1);
    && (forall e :: e in after.written && e !in before.written ==> e in after.log)
    && (forall e :: e in before.log && e !in after.log ==> OldAt(took, s, steps, e, i))
  }

  const WRITE := Fault(Written, {})
  const MISS := Fault(FailedBefore, {})
  const FIRST := Event(0, Opening)
  const SECOND := Event(0, Escalation)

  /** The opening is saved and archived, and no later write of the state file succeeds; the check after the
      escalation archives it and prunes the file that holds the opening, which has become too old. */
  const FATE := [WRITE, WRITE] + [WRITE, WRITE, WRITE, MISS] + [WRITE, MISS] + [Fault(Written, {FIRST}), MISS]

  lemma KeptNothing(log: seq<Event>)
    ensures Kept(log, {}) == log
  {
    if log != [] {
      KeptNothing(log[..|log| - 1]);
    }
  }

  function Watching(): State {
    State(Unknown, Second(0), None, None)
  }

  function Loss(severe: bool): Outage {
    Outage(0, 100, severe, None, None, None)
  }

  /** A process without a heartbeat, its file, archive and faults. */
  predicate Looks(s: Store, st: State, file: State, log: seq<Event>, fate: seq<Fault>, next: nat) {
    && s.running && s.state == st && s.saved == Some(file) && s.log == log && s.remembered == log && s.written == log && s.fate == fate
    && s.heartbeat == None && s.file == None && s.next == next
  }

  lemma FirstStart()
    ensures var a := Started(Empty(FATE, Second(0)), Second(0), []);
            a.r == Done && Looks(a.store, Watching(), Watching(), [], FATE[2..], 0)
  {
    assert FATE[1..][1..] == FATE[2..];
  }

  /** The state with the opening in the outbox. */
  function Opening0(): State {
    State(Warned, Second(0), Some(Loss(false)), Some(Pending(Opening, Loss(false))))
  }

  lemma SecondOpens(s: Store)
    requires Looks(s, Watching(), Watching(), [], FATE[2..], 0)
    ensures var a := Ticked(s, Second(100), HOURS);
            Looks(a.store, Opening0().(pending := None), Opening0(), [FIRST], FATE[6..], 1)
  {
    var f := FATE[2..];
    assert f[1..] == FATE[3..] && f[1..][1..] == FATE[4..] && f[1..][1..][1..] == FATE[5..] && f[1..][1..][1..][1..] == FATE[6..];
    var p := Prepared(s).store;
    assert Kept([], {}) == [];
    assert Prepared(s).r == Done && p.state == Watching() && p.log == [] && p.fate == FATE[3..];
    assert AgeJudged(s, Second(100), HOURS) == Some(100);
    var asked := p.(fallback := Asked(p.fallback, LastSign(p), Second(100)));
    var o := Opened(asked, Second(100), false);
    MissedLast(o);
    assert Judged(asked, Second(100), 100, HOURS) == Posted(o);
  }

  /** The outbox is saved and its event archived, but the emptied outbox is not saved. */
  lemma MissedLast(s: Store)
    requires s.state.pending.Some? && PendingEvent(s.state.pending.value) !in s.remembered && |s.remembered| < REMEMBERED
    requires |s.fate| >= 3 && s.fate[0] == WRITE && s.fate[1] == WRITE && s.fate[2] == MISS
    ensures var a, e := Posted(s), PendingEvent(s.state.pending.value);
      && a.r == Raised
      && a.store == s.(saved := Some(s.state), state := s.state.(pending := None), log := s.log + [e], fate := s.fate[1..][1..][1..],
                       written := s.written + [e], remembered := s.remembered + [e])
  {
    KeptNothing(s.log + [PendingEvent(s.state.pending.value)]);
    var a := Saved(s).store;
    assert Archived(a).store.fate == s.fate[1..][1..] && s.fate[1..][1..][0] == MISS;
  }

  /** A check that finds nothing pending and nothing to prune goes on. */
  lemma NothingPending(s: Store)
    requires s.state.pending == None && s.fate != [] && s.fate[0] == WRITE
    ensures Prepared(s) == After(Spent(s), Done)
  {
    KeptNothing(s.log);
  }

  /** The escalation stays in the outbox of the process: its save fails. */
  lemma ThirdEscalates(s: Store, fate: seq<Fault>)
    requires Looks(s, Opening0().(pending := None), Opening0(), [FIRST], fate, 1)
    requires |fate| >= 2 && fate[0] == WRITE && fate[1] == MISS
    ensures var a := Ticked(s, Second(130), HOURS);
            Looks(a.store, Escalation0(), Opening0(), [FIRST], fate[2..], 1)
  {
    assert fate[1..][1..] == fate[2..];
    NothingPending(s);
    var p := Spent(s);
    assert AgeJudged(p, Second(130), HOURS) == Some(130);
    MissedEscalation(p, Second(130));
    assert Ticked(s, Second(130), HOURS) == Checked(p, Second(130), HOURS);
  }

  lemma MissedEscalation(s: Store, now: Anchor)
    requires s.fate != [] && s.fate[0] == MISS && IsOpen(s.state) && !s.state.outage.value.critical
    requires AgeJudged(s, now, HOURS).Some? && AgeJudged(s, now, HOURS).value >= HOURS.critical
    ensures var asked := s.(fallback := Asked(s.fallback, LastSign(s), now));
            Checked(s, now, HOURS) == After(Spent(Escalated(asked)), Raised)
  {
    MissedSave(Escalated(s.(fallback := Asked(s.fallback, LastSign(s), now))));
  }

  lemma MissedSave(s: Store)
    requires s.fate != [] && s.fate[0] == MISS
    ensures Posted(s) == After(Spent(s), Raised)
  {
  }

  /** The process with the escalation in its outbox. */
  function Escalation0(): State {
    State(Warned, Second(0), Some(Loss(true)), Some(Pending(Escalation, Loss(true))))
  }

  /** The next check archives it, the opening's file is pruned, and the state file is left behind. */
  lemma FourthArchives(s: Store)
    requires Looks(s, Escalation0(), Opening0(), [FIRST], FATE[8..], 1)
    ensures var a := Ticked(s, Resumption(140), HOURS).store;
      && a.saved == Some(Opening0()) && a.log == [SECOND] && a.written == [FIRST, SECOND] && a.fate == [] && a.file == None
  {
    var f := FATE[8..];
    assert f[1..] == FATE[9..] && f[1..][1..] == [];
    assert [FIRST, SECOND][..1] == [FIRST] && [FIRST][..0] == [];
    assert Kept([FIRST], {FIRST}) == [];
    assert [FIRST] + [SECOND] == [FIRST, SECOND];
    assert Kept([FIRST, SECOND], {FIRST}) == [SECOND];
    assert !Prepared(s).r.Done?;
  }

  /** A restart replays the opening after the escalation. */
  lemma FifthReplays(s: Store)
    requires s.saved == Some(Opening0()) && s.log == [SECOND] && s.written == [FIRST, SECOND] && s.fate == [] && s.file == None
    ensures var a := Started(s, Resumption(150), []).store; a.log == [SECOND, FIRST] && a.written == [FIRST, SECOND, FIRST]
  {
    KeptNothing([SECOND]);
    KeptNothing([SECOND, FIRST]);
    var l := Loaded(AtRest(s), Resumption(150), []);
    assert [SECOND][..0] == [];
    assert l.remembered == Recalled([SECOND]) == [SECOND];
    assert [SECOND] + [FIRST] == [SECOND, FIRST];
    assert Finished(l).store.log == [SECOND, FIRST] && Finished(l).store.written == [FIRST, SECOND] + [FIRST];
  }

  /** A start, three checks and a restart, at these times. */
  predicate Misorders(steps: seq<Step>) {
    && |steps| == 5 && steps[0] == Restart(Second(0), []) && steps[1] == Check(Second(100))
    && steps[2] == Check(Second(130)) && steps[3] == Check(Resumption(140)) && steps[4] == Restart(Resumption(150), [])
  }

  /** The stores a run goes through. */
  ghost predicate Course(took: (Store, Step) -> Store, s: Store, steps: seq<Step>, stores: seq<Store>) {
    && |stores| == |steps| + 1 && stores[0] == s
    && forall i {:trigger steps[i]} :: 0 <= i < |steps| ==> stores[i + 1] == took(stores[i], steps[i])
  }

  lemma {:induction false} CourseRun(took: (Store, Step) -> Store, s: Store, steps: seq<Step>, stores: seq<Store>, n: nat)
    requires Course(took, s, steps, stores) && n <= |steps|
    ensures RunBy(took, s, steps, n) == stores[n]
    decreases n
  {
    if n > 0 {
      CourseRun(took, s, steps, stores, n - 1);
      assert stores[n - 1 + 1] == took(stores[n - 1], steps[n - 1]);
    }
  }

  /** The archive, and everything appended to it, as the run goes on. */
  function Logs(): seq<seq<Event>> {
    [[], [], [FIRST], [FIRST], [SECOND], [SECOND, FIRST]]
  }

  function Appends(): seq<seq<Event>> {
    [[], [], [FIRST], [FIRST], [FIRST, SECOND], [FIRST, SECOND, FIRST]]
  }

  ghost predicate Archives(stores: seq<Store>, logs: seq<seq<Event>>, appends: seq<seq<Event>>) {
    && |stores| == |logs| == |appends|
    && forall i :: 0 <= i < |stores| ==> stores[i].log == logs[i] && stores[i].written == appends[i]
  }

  lemma CourseOf(took: (Store, Step) -> Store, s0: Store, s1: Store, s2: Store, s3: Store, s4: Store, s5: Store, steps: seq<Step>)
    requires |steps| == 5 && s1 == took(s0, steps[0]) && s2 == took(s1, steps[1])
    requires s3 == took(s2, steps[2]) && s4 == took(s3, steps[3]) && s5 == took(s4, steps[4])
    ensures Course(took, s0, steps, [s0, s1, s2, s3, s4, s5])
  {
  }

  lemma ArchivesOf(s0: Store, s1: Store, s2: Store, s3: Store, s4: Store, s5: Store)
    requires s0.log == s0.written == s1.log == s1.written == []
    requires s2.log == s2.written == s3.log == s3.written == [FIRST]
    requires s4.log == [SECOND] && s4.written == [FIRST, SECOND]
    requires s5.log == [SECOND, FIRST] && s5.written == [FIRST, SECOND, FIRST]
    ensures Archives([s0, s1, s2, s3, s4, s5], Logs(), Appends())
  {
  }

  lemma MisorderedSteps(s: Store, steps: seq<Step>) returns (stores: seq<Store>)
    requires Misorders(steps) && s == Empty(FATE, Second(0))
    ensures Course(Taking(HOURS), s, steps, stores) && Archives(stores, Logs(), Appends())
  {
    FirstStart();
    var one := Started(s, Second(0), []).store;
    SecondOpens(one);
    var two := Ticked(one, Second(100), HOURS).store;
    assert FATE[6..][2..] == FATE[8..];
    ThirdEscalates(two, FATE[6..]);
    var three := Ticked(two, Second(130), HOURS).store;
    FourthArchives(three);
    var four := Ticked(three, Resumption(140), HOURS).store;
    FifthReplays(four);
    var five := Started(four, Resumption(150), []).store;
    CourseOf(Taking(HOURS), s, one, two, three, four, five, steps);
    ArchivesOf(s, one, two, three, four, five);
    stores := [s, one, two, three, four, five];
  }

  /** Step `i` appends some events and prunes none. */
  lemma NothingPruned(took: (Store, Step) -> Store, s: Store, steps: seq<Step>, stores: seq<Store>, i: nat)
    requires Course(took, s, steps, stores) && i < |steps|
    requires forall e :: e in stores[i].log ==> e in stores[i + 1].log
    requires forall e :: e in stores[i + 1].written ==> e in stores[i].written || e in stores[i + 1].log
    ensures PrunesOld(took, s, steps, i)
  {
    CourseRun(took, s, steps, stores, i);
    CourseRun(took, s, steps, stores, i + 1);
  }

  /** Step `i` prunes one event, which step `j` appended too long ago. */
  lemma OnePruned(took: (Store, Step) -> Store, s: Store, steps: seq<Step>, stores: seq<Store>, e: Event, j: nat, i: nat)
    requires Course(took, s, steps, stores) && j < i < |steps| && steps[j].at.wall + MAX_AGE < steps[i].at.wall
    requires e !in stores[j].written && e in stores[j + 1].written
    requires forall f :: f in stores[i].log && f != e ==> f in stores[i + 1].log
    requires forall f :: f in stores[i + 1].written ==> f in stores[i].written || f in stores[i + 1].log
    ensures PrunesOld(took, s, steps, i)
  {
    CourseRun(took, s, steps, stores, i);
    CourseRun(took, s, steps, stores, i + 1);
    CourseRun(took, s, steps, stores, j);
    CourseRun(took, s, steps, stores, j + 1);
    assert AppendedIn(took, s, steps, e, j);
  }

  /** Only the check after the suspension prunes, and it prunes the opening. */
  lemma CoursePruning(took: (Store, Step) -> Store, s: Store, steps: seq<Step>, stores: seq<Store>, logs: seq<seq<Event>>,
                      appends: seq<seq<Event>>, i: nat)
    requires Misorders(steps) && Course(took, s, steps, stores) && logs == Logs() && appends == Appends()
    requires Archives(stores, logs, appends) && i < |steps|
    ensures PrunesOld(took, s, steps, i)
  {
    var j: nat := 1;
    assert stores[i].log == logs[i] && stores[i + 1].log == logs[i + 1] && stores[i + 1].written == appends[i + 1];
    assert stores[j].written == appends[j] && stores[j + 1].written == appends[j + 1];
    if i == 3 {
      OnePruned(took, s, steps, stores, FIRST, j, i);
    } else {
      NothingPruned(took, s, steps, stores, i);
    }
  }

  /** A run of a new watchdog after which the archive is out of order: the process outlives failed writes, so
      the state file it is restarted from is behind the archive. Nothing is pruned in it but what is too old. */
  method MisorderedRun(steps: seq<Step>) returns (m: Machine)
    requires Misorders(steps)
    ensures fresh(m) && m.View() == RunOf(Empty(FATE, Second(0)), steps, HOURS, |steps|)
    ensures m.log == [SECOND, FIRST] && !Ordered(m.log)
    ensures forall i :: 0 <= i < |steps| ==> PrunesOld(Taking(HOURS), Empty(FATE, Second(0)), steps, i)
  {
    m := new Machine(HOURS, FATE, Second(0));
    ghost var start := m.View();
    EmptySound(FATE, Second(0));
    Live(m, Second(0), steps);
    ghost var stores := MisorderedSteps(start, steps);
    CourseRun(Taking(HOURS), start, steps, stores, |steps|);
    assert stores[|steps|].log == Logs()[|steps|];
    assert m.log[0] == SECOND && m.log[1] == FIRST;
    forall i | 0 <= i < |steps| ensures PrunesOld(Taking(HOURS), start, steps, i) {
      CoursePruning(Taking(HOURS), start, steps, stores, Logs(), Appends(), i);
    }
  }
}
