/** Whole runs of the rule engine: in every run an incident is open exactly when its metric's history says
    so, and it shows the severity the history says unless it took over an earlier incident's file. */
module IncidentRuns {
  import opened Basics
  import opened AlarmHistory
  import opened IncidentModel
  import opened IncidentEngine
  import opened IncidentShows

  // ---- Whole runs ----

  /** A snapshot is evaluated, or files of incidents that are over are removed. */
  datatype Step = Look(snapshot: Snapshot) | Clean(drop: set<Id>)

  ghost predicate Proper(steps: seq<Step>) {
    forall i :: 0 <= i < |steps| && steps[i].Look? ==> WellFormed(steps[i].snapshot)
  }

  /** The boot of the latest snapshot. */
  function BootOf(steps: seq<Step>): Option<string> {
    if steps == [] then None
    else
      match steps[|steps| - 1]
      case Look(snapshot) => Some(snapshot.boot)
      case Clean(_) => BootOf(steps[..|steps| - 1])
  }

  /** Everything observed since the boot the latest snapshot was taken in began. */
  function SinceBoot(steps: seq<Step>): map<Kind, seq<Observed>> {
    if steps == [] then map[]
    else
      var front := steps[..|steps| - 1];
      match steps[|steps| - 1]
      case Look(snapshot) => AfterSnapshot(BootOf(front), SinceBoot(front), snapshot)
      case Clean(_) => SinceBoot(front)
  }

  function Stepped(b: Book, boot: Option<string>, step: Step, n: nat, r: nat, quiet: nat): Book {
    match step
    case Look(snapshot) => Evaluated(b, boot, snapshot, n, r, quiet)
    case Clean(drop) => Pruned(b, drop)
  }

  /** The book after a run of a new engine. */
  function RunOf(steps: seq<Step>, n: nat, r: nat, quiet: nat): Book {
    if steps == [] then Book(map[], map[])
    else
      var front := steps[..|steps| - 1];
      Stepped(RunOf(front, n, r, quiet), BootOf(front), steps[|steps| - 1], n, r, quiet)
  }

  /** What the history since the last boot says of a metric. */
  function AlarmOf(steps: seq<Step>, kind: Kind, n: nat, r: nat): Option<Severity> {
    Alarm(Distinct(SeenOf(SinceBoot(steps), kind)), n, r)
  }

  lemma PrunedSame(b: Book, drop: set<Id>, kind: Kind, seen: seq<Observed>, n: nat, r: nat)
    requires OneOpen(b) && Follows(b, kind, seen, n, r)
    ensures var c := Pruned(b, drop);
      OneOpen(c) && Follows(c, kind, seen, n, r) && Shown(c, kind) == Shown(b, kind)
  {
  }

  /** In every run, whatever the clock says, an incident of a metric is open exactly when its history says
      so, and is critical whenever its history says so. */
  lemma {:induction false} RunFollows(steps: seq<Step>, kind: Kind, n: nat, r: nat, quiet: nat)
    requires Proper(steps) && kind.Metric? && n > 0 && r > 0
    ensures var b := RunOf(steps, n, r, quiet);
      OneOpen(b) && Follows(b, kind, SeenOf(SinceBoot(steps), kind), n, r) && Agrees(Shown(b, kind), AlarmOf(steps, kind, n, r))
    decreases |steps|
  {
    if steps != [] {
      var front, last := steps[..|steps| - 1], steps[|steps| - 1];
      assert forall i :: 0 <= i < |front| ==> front[i] == steps[i];
      RunFollows(front, kind, n, r, quiet);
      var b, seen := RunOf(front, n, r, quiet), SinceBoot(front);
      match last
      case Look(snapshot) => EvaluatedShows(b, BootOf(front), seen, snapshot, kind, n, r, quiet);
      case Clean(drop) => PrunedSame(b, drop, kind, SeenOf(seen, kind), n, r);
    }
  }

  /** In every run, whatever the clock says and whatever files are taken over, an incident of a metric that is shown
      as critical stays so for as long as it is open and the host is not restarted. */
  lemma SeverityStays(steps: seq<Step>, kind: Kind, n: nat, r: nat, quiet: nat)
    requires Proper(steps) && kind.Metric? && n > 0 && r > 0 && steps != []
    requires steps[|steps| - 1].Look? ==> !Reboots(BootOf(steps[..|steps| - 1]), steps[|steps| - 1].snapshot)
    ensures StaysCritical(Shown(RunOf(steps[..|steps| - 1], n, r, quiet), kind), Shown(RunOf(steps, n, r, quiet), kind))
  {
    var front, last := steps[..|steps| - 1], steps[|steps| - 1];
    assert forall i :: 0 <= i < |front| ==> front[i] == steps[i];
    RunFollows(front, kind, n, r, quiet);
    var b, seen := RunOf(front, n, r, quiet), SinceBoot(front);
    match last
    case Look(snapshot) =>
      TookAllSeverity(b, snapshot.readings, kind, snapshot.now, snapshot.boot, n, r);
      TookAllShows(b, snapshot.readings, seen, kind, snapshot.now, snapshot.boot, n, r);
      var read := TookAll(b, snapshot.readings, snapshot.now, snapshot.boot, n, r);
      TookAllKeeps(b, snapshot.readings, snapshot.now, snapshot.boot, n, r);
      LaterSame(read, snapshot, kind, SeenOf(Observing(seen, snapshot.readings), kind), n, r, quiet);
      SameShown(kind, read, RunOf(steps, n, r, quiet));
    case Clean(drop) => PrunedSame(b, drop, kind, SeenOf(seen, kind), n, r);
  }

  ghost predicate ExactAfter(steps: seq<Step>, kind: Kind, n: nat, r: nat, quiet: nat) {
    Shown(RunOf(steps, n, r, quiet), kind) == AlarmOf(steps, kind, n, r)
  }

  /** The last step of a run takes over a critical file of the metric: a condition on the book before it and
      on the snapshot alone. */
  predicate LastTakesOver(steps: seq<Step>, kind: Kind, n: nat, r: nat, quiet: nat) {
    steps != [] && steps[|steps| - 1].Look?
    && var front := steps[..|steps| - 1];
       TakeoverIn(RunOf(front, n, r, quiet), BootOf(front), steps[|steps| - 1].snapshot, kind, n)
  }

  /** The last step keeps an exact display exact, except exactly when it takes over a critical file. */
  lemma StepExact(steps: seq<Step>, kind: Kind, n: nat, r: nat, quiet: nat)
    requires Proper(steps) && kind.Metric? && n > 0 && r > 0 && steps != []
    requires ExactAfter(steps[..|steps| - 1], kind, n, r, quiet)
    ensures ExactAfter(steps, kind, n, r, quiet) <==> !LastTakesOver(steps, kind, n, r, quiet)
  {
    var front, last := steps[..|steps| - 1], steps[|steps| - 1];
    assert forall i :: 0 <= i < |front| ==> front[i] == steps[i];
    RunFollows(front, kind, n, r, quiet);
    var b, seen := RunOf(front, n, r, quiet), SinceBoot(front);
    match last
    case Look(snapshot) => EvaluatedShows(b, BootOf(front), seen, snapshot, kind, n, r, quiet);
    case Clean(drop) => PrunedSame(b, drop, kind, SeenOf(seen, kind), n, r);
  }

  /** The step that takes a file over shows a critical incident where the history says warning. */
  lemma ShownTooHigh(steps: seq<Step>, kind: Kind, n: nat, r: nat, quiet: nat)
    requires Proper(steps) && kind.Metric? && n > 0 && r > 0 && LastTakesOver(steps, kind, n, r, quiet)
    requires ExactAfter(steps[..|steps| - 1], kind, n, r, quiet)
    ensures Shown(RunOf(steps, n, r, quiet), kind) == Some(Critical) && AlarmOf(steps, kind, n, r) == Some(Warning)
  {
    StepExact(steps, kind, n, r, quiet);
    RunFollows(steps, kind, n, r, quiet);
    TooHigh(Shown(RunOf(steps, n, r, quiet), kind), AlarmOf(steps, kind, n, r));
  }

  lemma TooHigh(shown: Option<Severity>, alarm: Option<Severity>)
    requires Agrees(shown, alarm) && shown != alarm
    ensures shown == Some(Critical) && alarm == Some(Warning)
  {
    assert alarm.value == Warning || alarm.value == Critical;
    assert shown.value == Warning || shown.value == Critical;
  }

  /** A metric shows exactly what its history says throughout a run if and only if no step of the run takes
      over a critical file of it. */
  lemma {:induction false} RunExact(steps: seq<Step>, kind: Kind, n: nat, r: nat, quiet: nat)
    requires Proper(steps) && kind.Metric? && n > 0 && r > 0
    ensures (forall i :: 0 <= i <= |steps| ==> ExactAfter(steps[..i], kind, n, r, quiet))
       <==> (forall i :: 0 <= i <= |steps| ==> !LastTakesOver(steps[..i], kind, n, r, quiet))
    decreases |steps|
  {
    assert steps[..|steps|] == steps;
    if steps == [] {
      assert ExactAfter(steps, kind, n, r, quiet) && !LastTakesOver(steps, kind, n, r, quiet);
    } else {
      var front := steps[..|steps| - 1];
      assert forall i :: 0 <= i <= |front| ==> front[..i] == steps[..i];
      assert forall i :: 0 <= i < |front| ==> front[i] == steps[i];
      assert front[..|front|] == front;
      RunExact(front, kind, n, r, quiet);
      if ExactAfter(front, kind, n, r, quiet) {
        StepExact(steps, kind, n, r, quiet);
      }
      assert forall i :: 0 <= i <= |steps| ==> i <= |front| || steps[..i] == steps;
    }
  }

  // ---- Distinct time stamps ----

  type Stamp = (string, int)

  /** The boots and time stamps of the snapshots so far. */
  function Stamps(steps: seq<Step>): set<Stamp> {
    set i | 0 <= i < |steps| && steps[i].Look? :: (steps[i].snapshot.boot, steps[i].snapshot.now)
  }

  /** No two snapshots of one boot carry the same time stamp. The clock may go back. */
  predicate DistinctStamps(steps: seq<Step>) {
    forall i, j :: 0 <= i < j < |steps| && steps[i].Look? && steps[j].Look? && steps[i].snapshot.boot == steps[j].snapshot.boot ==>
      steps[i].snapshot.now != steps[j].snapshot.now
  }

  /** Every file of the metric is named after a snapshot, and the name the next incident would get is free. */
  ghost predicate NamesFree(b: Book, kind: Kind, used: set<Stamp>, boot: Option<string>) {
    var rule := RuleFor(b.rules, kind);
    && (forall id :: id in b.incidents && id.kind == kind ==> id.key.Since? && (id.key.boot, id.key.at) in used)
    && (rule.pending.Some? ==> boot.Some? && (boot.value, rule.pending.value) in used)
    && (rule.pending.Some? && Shown(b, kind) == None ==> Id(kind, Since(boot.value, rule.pending.value)) !in b.incidents)
  }

  lemma NamesSame(kind: Kind, b: Book, c: Book, used: set<Stamp>, more: set<Stamp>, boot: Option<string>, next: Option<string>)
    requires OneOpen(b) && SameCell(kind, b, c) && NamesFree(b, kind, used, boot) && used <= more
    requires boot == next || RuleFor(b.rules, kind).pending == None
    ensures NamesFree(c, kind, more, next)
  {
    SameShown(kind, b, c);
    forall id | id in c.incidents && id.kind == kind ensures id.key.Since? && (id.key.boot, id.key.at) in more {
      assert id in b.incidents;
    }
  }

  /** A reading stamped anew takes nothing over. */
  lemma ReadingTakesNothing(b: Book, m: Measured, now: int, used: set<Stamp>, boot: string, n: nat)
    requires OneOpen(b) && NamesFree(b, KindOf(m.reading), used, Some(boot)) && (boot, now) !in used
    ensures !ReadingTakesOver(b, m, now, boot, n)
  {
    if LevelOf(m.reading).Some? {
      RisenFree(b, KindOf(m.reading), LevelOf(m.reading).value, now, used, boot, n);
    }
  }

  /** And it leaves the names free. */
  lemma TookFree(b: Book, m: Measured, now: int, used: set<Stamp>, boot: string, n: nat, r: nat)
    requires OneOpen(b) && NamesFree(b, KindOf(m.reading), used, Some(boot)) && (boot, now) !in used
    requires KindOf(m.reading).Metric?
    ensures NamesFree(Took(b, m, now, boot, n, r), KindOf(m.reading), used + {(boot, now)}, Some(boot))
  {
    var kind, rule := KindOf(m.reading), RuleFor(b.rules, KindOf(m.reading));
    if m.token.Some? && rule.token == m.token {
      NamesSame(kind, b, WithRule(b, kind, rule), used, used + {(boot, now)}, Some(boot), Some(boot));
    } else {
      KnownFree(b, kind, m.token, used, boot);
      JudgedFree(WithRule(b, kind, Known(rule, m.token)), m.reading, now, used, boot, n, r);
    }
  }

  lemma KnownFree(b: Book, kind: Kind, token: Option<int>, used: set<Stamp>, boot: string)
    requires NamesFree(b, kind, used, Some(boot)) && OneOpen(b)
    ensures var known := WithRule(b, kind, Known(RuleFor(b.rules, kind), token));
            NamesFree(known, kind, used, Some(boot)) && OneOpen(known)
  {
    WithRuleKeeps(b, kind, Known(RuleFor(b.rules, kind), token));
    assert Shown(WithRule(b, kind, Known(RuleFor(b.rules, kind), token)), kind) == Shown(b, kind);
  }

  lemma JudgedFree(b: Book, reading: Reading, now: int, used: set<Stamp>, boot: string, n: nat, r: nat)
    requires OneOpen(b) && NamesFree(b, KindOf(reading), used, Some(boot)) && (boot, now) !in used
    ensures NamesFree(Judged(b, reading, now, boot, n, r), KindOf(reading), used + {(boot, now)}, Some(boot))
  {
    if LevelOf(reading).Some? {
      RisenFree(b, KindOf(reading), LevelOf(reading).value, now, used, boot, n);
    } else {
      SunkFree(b, KindOf(reading), IsClear(reading), used, used + {(boot, now)}, boot, r);
    }
  }

  lemma RisenFree(b: Book, kind: Kind, level: Severity, now: int, used: set<Stamp>, boot: string, n: nat)
    requires OneOpen(b) && NamesFree(b, kind, used, Some(boot)) && (boot, now) !in used
    ensures !TakesOver(RuleFor(b.rules, kind), b.incidents, kind, level, now, boot, n)
    ensures NamesFree(Risen(b, kind, level, now, boot, n), kind, used + {(boot, now)}, Some(boot))
  {
  }

  lemma SunkFree(b: Book, kind: Kind, clear: bool, used: set<Stamp>, more: set<Stamp>, boot: string, r: nat)
    requires NamesFree(b, kind, used, Some(boot)) && used <= more
    ensures NamesFree(Sunk(b, kind, clear, r), kind, more, Some(boot))
  {
  }

  /** The readings of a snapshot stamped anew. */
  lemma {:induction false} TookAllFree(b: Book, readings: seq<Measured>, kind: Kind, now: int, used: set<Stamp>,
                                       boot: string, n: nat, r: nat)
    requires OneOpen(b) && kind.Metric? && OncePerMetric(readings)
    requires NamesFree(b, kind, used, Some(boot)) && (boot, now) !in used
    ensures !Takeover(b, readings, kind, now, boot, n)
    ensures NamesFree(TookAll(b, readings, now, boot, n, r), kind, used + {(boot, now)}, Some(boot))
    decreases |readings|
  {
    if readings == [] {
      NamesSame(kind, b, b, used, used + {(boot, now)}, Some(boot), Some(boot));
    } else {
      var front, last := readings[..|readings| - 1], readings[|readings| - 1];
      assert forall i :: 0 <= i < |front| ==> front[i] == readings[i];
      var before := TookAll(b, front, now, boot, n, r);
      TookAllKeeps(b, front, now, boot, n, r);
      if KindOf(last.reading) == kind {
        UnreadSame(b, front, kind, now, boot, n, r);
        NamesSame(kind, b, before, used, used, Some(boot), Some(boot));
        ReadingTakesNothing(b, last, now, used, boot, n);
        TookFree(before, last, now, used, boot, n, r);
      } else {
        TookAllFree(b, front, kind, now, used, boot, n, r);
        TakeoverFront(b, readings, kind, now, boot, n);
        TookKeeps(before, last, now, boot, n, r);
        OthersSame(kind, KindOf(last.reading), before, Took(before, last, now, boot, n, r));
        NamesSame(kind, before, Took(before, last, now, boot, n, r), used + {(boot, now)}, used + {(boot, now)},
                  Some(boot), Some(boot));
      }
    }
  }

  /** The restart of another boot leaves no name to be given. */
  lemma RestartedFree(b: Book, kind: Kind, now: int, used: set<Stamp>, old': Option<string>, boot: string)
    requires OneOpen(b) && kind.Metric? && NamesFree(b, kind, used, old')
    ensures NamesFree(Restarted(b, now, boot), kind, used, Some(boot))
  {
    var ended := Ended(b, b.rules.Keys, Forgotten);
    EndedKeeps(b, b.rules.Keys, Forgotten);
    assert NamesFree(ended, kind, used, Some(boot));
    OpenedKeeps(ended, HOST_RESTARTED, Warning, None, now, boot, true);
    OthersSame(kind, HOST_RESTARTED, ended, Restarted(b, now, boot));
    NamesSame(kind, ended, Restarted(b, now, boot), used, used, Some(boot), Some(boot));
  }

  /** A snapshot stamped anew in its boot takes nothing over. */
  lemma EvaluatedFree(b: Book, boot: Option<string>, snapshot: Snapshot, seen: map<Kind, seq<Observed>>, kind: Kind,
                      used: set<Stamp>, n: nat, r: nat, quiet: nat)
    requires OneOpen(b) && kind.Metric? && WellFormed(snapshot) && n > 0 && r > 0
    requires Follows(b, kind, SeenOf(seen, kind), n, r)
    requires NamesFree(b, kind, used, boot) && (snapshot.boot, snapshot.now) !in used
    ensures !TakeoverIn(b, boot, snapshot, kind, n)
    ensures NamesFree(Evaluated(b, boot, snapshot, n, r, quiet), kind, used + {(snapshot.boot, snapshot.now)}, Some(snapshot.boot))
  {
    var entered, known := Entered(b, boot, snapshot), if Reboots(boot, snapshot) then map[] else seen;
    if Reboots(boot, snapshot) {
      RestartedFollows(b, kind, snapshot.now, snapshot.boot, n, r);
      RestartedFree(b, kind, snapshot.now, used, boot, snapshot.boot);
    } else {
      NamesSame(kind, b, b, used, used, boot, Some(snapshot.boot));
    }
    TookAllFree(entered, snapshot.readings, kind, snapshot.now, used, snapshot.boot, n, r);
    TookAllShows(entered, snapshot.readings, known, kind, snapshot.now, snapshot.boot, n, r);
    TookAllKeeps(entered, snapshot.readings, snapshot.now, snapshot.boot, n, r);
    var read := TookAll(entered, snapshot.readings, snapshot.now, snapshot.boot, n, r);
    LaterSame(read, snapshot, kind, SeenOf(Observing(known, snapshot.readings), kind), n, r, quiet);
    NamesSame(kind, read, Evaluated(b, boot, snapshot, n, r, quiet), used + {(snapshot.boot, snapshot.now)},
              used + {(snapshot.boot, snapshot.now)}, Some(snapshot.boot), Some(snapshot.boot));
  }

  lemma PrunedFree(b: Book, drop: set<Id>, kind: Kind, used: set<Stamp>, boot: Option<string>)
    requires OneOpen(b) && NamesFree(b, kind, used, boot)
    ensures NamesFree(Pruned(b, drop), kind, used, boot)
  {
  }

  lemma StampsAdd(front: seq<Step>, last: Step)
    ensures Stamps(front + [last]) == if last.Look? then Stamps(front) + {(last.snapshot.boot, last.snapshot.now)} else Stamps(front)
  {
    var steps := front + [last];
    forall stamp | stamp in Stamps(front) ensures stamp in Stamps(steps) {
      var i :| 0 <= i < |front| && front[i].Look? && (front[i].snapshot.boot, front[i].snapshot.now) == stamp;
      assert steps[i] == front[i];
    }
    assert last.Look? ==> steps[|front|] == last;
  }

  /** With time stamps distinct within each boot, every metric shows exactly what its history says. */
  lemma {:induction false} RunShows(steps: seq<Step>, kind: Kind, n: nat, r: nat, quiet: nat)
    requires Proper(steps) && DistinctStamps(steps) && kind.Metric? && n > 0 && r > 0
    ensures ExactAfter(steps, kind, n, r, quiet)
    ensures NamesFree(RunOf(steps, n, r, quiet), kind, Stamps(steps), BootOf(steps))
    decreases |steps|
  {
    if steps != [] {
      var front, last := steps[..|steps| - 1], steps[|steps| - 1];
      assert steps == front + [last];
      assert forall i :: 0 <= i < |front| ==> front[i] == steps[i];
      RunShows(front, kind, n, r, quiet);
      RunFollows(front, kind, n, r, quiet);
      StampsAdd(front, last);
      StepExact(steps, kind, n, r, quiet);
      var b := RunOf(front, n, r, quiet);
      match last
      case Look(snapshot) =>
        StampUnused(steps);
        EvaluatedFree(b, BootOf(front), snapshot, SinceBoot(front), kind, Stamps(front), n, r, quiet);
      case Clean(drop) => PrunedFree(b, drop, kind, Stamps(front), BootOf(front));
    }
  }

  lemma StampUnused(steps: seq<Step>)
    requires steps != [] && steps[|steps| - 1].Look? && DistinctStamps(steps)
    ensures var last := steps[|steps| - 1].snapshot; (last.boot, last.now) !in Stamps(steps[..|steps| - 1])
  {
    var front, last := steps[..|steps| - 1], steps[|steps| - 1].snapshot;
    assert forall i :: 0 <= i < |front| ==> front[i] == steps[i];
  }

  /** A whole run of a new engine. Of every metric an incident is open exactly when the distinct samples since
      the last boot say so, no other incident of the metric is open, and it is critical whenever they say so;
      with time stamps distinct within each boot it shows exactly the severity they say. */
  method Watch(sustained: nat, recovery: nat, quiet: nat, steps: seq<Step>) returns (e: Engine)
    requires sustained > 0 && recovery > 0 && Proper(steps)
    ensures fresh(e) && e.View() == RunOf(steps, sustained, recovery, quiet) && e.Valid()
    ensures forall kind: Kind :: kind.Metric? ==> Agrees(Shown(e.View(), kind), AlarmOf(steps, kind, sustained, recovery))
    ensures DistinctStamps(steps) ==>
      forall kind: Kind :: kind.Metric? ==> Shown(e.View(), kind) == AlarmOf(steps, kind, sustained, recovery)
  {
    e := new Engine(sustained, recovery, quiet);
    for i := 0 to |steps|
      invariant fresh(e) && e.Valid() && e.sustained == sustained && e.recovery == recovery && e.quiet == quiet
      invariant e.View() == RunOf(steps[..i], sustained, recovery, quiet) && e.boot == BootOf(steps[..i])
    {
      assert steps[..i + 1][..i] == steps[..i];
      match steps[i]
      case Look(snapshot) => e.Evaluate(snapshot);
      case Clean(drop) => e.Prune(drop);
    }
    assert steps[..|steps|] == steps;
    forall kind: Kind | kind.Metric? ensures Agrees(Shown(e.View(), kind), AlarmOf(steps, kind, sustained, recovery)) {
      RunFollows(steps, kind, sustained, recovery, quiet);
    }
    if DistinctStamps(steps) {
      forall kind: Kind | kind.Metric? ensures Shown(e.View(), kind) == AlarmOf(steps, kind, sustained, recovery) {
        RunShows(steps, kind, sustained, recovery, quiet);
      }
    }
  }

  // ---- A repeated time stamp ----

  const DISK := Metric("disk")

  /** The disk is this full at time `now` of the boot "b". */
  function DiskAt(now: int, full: real): Snapshot {
    Snapshot(now, "b", [Measured(Gauge("disk", Some(full), true, Limits(0.5, 0.7, 0.9)), None)], [])
  }

  /** What a snapshot of the disk alone does to a book with no event to quieten. */
  lemma DiskOnly(b: Book, boot: Option<string>, now: int, full: real)
    requires boot == None || boot == Some("b")
    requires b.rules.Keys <= {DISK} && !RuleFor(b.rules, DISK).event
    ensures Evaluated(b, boot, DiskAt(now, full), 1, 1, 1) == Took(b, DiskAt(now, full).readings[0], now, "b", 1, 1)
  {
    var snapshot := DiskAt(now, full);
    var m := snapshot.readings[0];
    assert snapshot.readings[..0] == [];
    var c := Took(b, m, now, "b", 1, 1);
    assert TookAll(b, snapshot.readings, now, "b", 1, 1) == c;
    assert DueKinds(c, now, 1) == {};
    EndedNone(c, Reset);
  }

  const FIRST := Id(DISK, Since("b", 5))

  /** Full, then half empty, then the clock goes back and the disk fills again, less than before. */
  predicate Repeats(steps: seq<Step>) {
    && |steps| == 3 && steps[0] == Look(DiskAt(5, 0.95)) && steps[1] == Look(DiskAt(6, 0.1))
    && steps[2] == Look(DiskAt(5, 0.75))
  }

  /** The first snapshot opens a critical incident and the second closes it. */
  lemma FirstTwo(steps: seq<Step>)
    requires Repeats(steps)
    ensures var b := RunOf(steps[..2], 1, 1, 1);
      FIRST in b.incidents && b.incidents[FIRST] == Incident(Critical, false, 5, 5) && RuleFor(b.rules, DISK) == NewRule
  {
    var full, cool, none := DiskAt(5, 0.95), DiskAt(6, 0.1), Book(map[], map[]);
    var one, two := steps[..1], steps[..2];
    assert one[..0] == [] && two[..1] == one;
    DiskOnly(none, None, 5, 0.95);
    var b := Took(none, full.readings[0], 5, "b", 1, 1);
    assert RunOf(one, 1, 1, 1) == b;
    assert b.incidents == map[FIRST := Incident(Critical, true, 5, 5)];
    DiskOnly(b, Some("b"), 6, 0.1);
    assert RunOf(two, 1, 1, 1) == Took(b, cool.readings[0], 6, "b", 1, 1);
  }

  /** The third takes its file over. */
  lemma ThirdTakesOver(b: Book)
    requires FIRST in b.incidents && b.incidents[FIRST].severity == Critical && RuleFor(b.rules, DISK) == NewRule
    ensures TakeoverIn(b, Some("b"), DiskAt(5, 0.75), DISK, 1)
  {
    assert ReadingTakesOver(b, DiskAt(5, 0.75).readings[0], 5, "b", 1);
  }

  lemma RepeatedProper(steps: seq<Step>)
    requires Repeats(steps)
    ensures Proper(steps) && Proper(steps[..2]) && DistinctStamps(steps[..2]) && BootOf(steps[..2]) == Some("b")
  {
    forall i | 0 <= i < |steps| ensures steps[i].Look? && WellFormed(steps[i].snapshot) {
      assert steps[i] in [steps[0], steps[1], steps[2]];
    }
  }

  lemma RepeatedTakesOver(steps: seq<Step>)
    requires Repeats(steps)
    ensures Proper(steps) && steps[..|steps| - 1] == steps[..2]
    ensures LastTakesOver(steps, DISK, 1, 1, 1) && ExactAfter(steps[..2], DISK, 1, 1, 1)
  {
    RepeatedProper(steps);
    FirstTwo(steps);
    ThirdTakesOver(RunOf(steps[..2], 1, 1, 1));
    RunShows(steps[..2], DISK, 1, 1, 1);
  }

  /** After such a run of three snapshots the disk's incident is shown critical although the history says
      warning: it was opened at a time stamp that a closed critical incident had begun at. */
  method RepeatedTimestamp(steps: seq<Step>) returns (e: Engine)
    requires Repeats(steps)
    ensures fresh(e) && e.View() == RunOf(steps, 1, 1, 1)
    ensures Shown(e.View(), DISK) == Some(Critical) && AlarmOf(steps, DISK, 1, 1) == Some(Warning)
  {
    RepeatedTakesOver(steps);
    ShownTooHigh(steps, DISK, 1, 1, 1);
    e := Watch(1, 1, 1, steps);
  }
}
