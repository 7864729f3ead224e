/** What readings say and what the incident files hold, said of the thresholds and the files alone. */
module IncidentFacts {
  import opened Basics
  import opened AlarmHistory
  import opened IncidentModel
  import opened IncidentShows
  import opened IncidentRuns

  // ---- Readings ----

  /** A value counts from its threshold on, and is clear only below its clear threshold and when everything
      behind it was read. Memory counts only under pressure, and is clear whatever the pressure. */
  predicate Says(reading: Reading, sample: Sample) {
    match reading
    case Gauge(_, None, _, _) => sample == Neutral
    case Gauge(_, Some(x), complete, limits) =>
      && (sample == Level(Critical) <==> limits.critical <= x)
      && (sample == Level(Warning) <==> limits.warning <= x < limits.critical)
      && (sample == Clear <==> complete && x < limits.clear)
    case Memory(None, _, _) => sample == Neutral
    case Memory(Some(x), psi, limits) =>
      && (sample == Level(Critical) <==> x < limits.critical && psi.Some? && limits.minimumPsi <= psi.value)
      && (sample == Level(Warning) <==> limits.critical <= x < limits.warning && psi.Some? && limits.minimumPsi <= psi.value)
      && (sample == Clear <==> limits.clear <= x)
    case Check(_, ok) => sample == (match ok case None => Neutral case Some(true) => Clear case Some(false) => Level(Warning))
    case Unit(_, state) =>
      && (sample == Clear <==> state == Active) && (sample == Level(Warning) <==> state == Down) && sample != Level(Critical)
  }

  lemma SampleExactly(reading: Reading, sample: Sample)
    requires ValidReading(reading)
    ensures SampleOf(reading) == sample <==> Says(reading, sample)
  {
    ThresholdsApart(reading);
    match sample
    case Level(severity) => assert severity == Warning || severity == Critical;
    case _ =>
  }

  /** Every check, gauge and service is counted by its own name, and a service is never taken for a metric. */
  lemma KindsApart(a: Reading, b: Reading)
    ensures KindOf(a).Metric? <==> !a.Unit?
    ensures a.Gauge? && b.Gauge? ==> (KindOf(a) == KindOf(b) <==> a.name == b.name)
    ensures a.Check? && b.Check? ==> (KindOf(a) == KindOf(b) <==> a.name == b.name)
    ensures a.Unit? && b.Unit? ==> (KindOf(a) == KindOf(b) <==> a.name == b.name)
    ensures a.Memory? ==> KindOf(a) == Metric("memory")
    ensures a.Gauge? && b.Memory? ==> (KindOf(a) == KindOf(b) <==> a.name == "memory")
  {
  }

  // ---- Files ----

  /** A file of the kind is open with that severity. */
  ghost predicate OnFile(b: Book, kind: Kind, severity: Severity) {
    exists id :: id in b.incidents && id.kind == kind && b.incidents[id].open && b.incidents[id].severity == severity
  }

  lemma ShownExactly(b: Book, kind: Kind, severity: Severity)
    requires OneOpen(b)
    ensures Shown(b, kind) == Some(severity) <==> OnFile(b, kind, severity)
  {
  }

  /** No kind has two open files. */
  lemma OneFile(b: Book, id: Id, other: Id)
    requires OneOpen(b) && id in b.incidents && other in b.incidents && id.kind == other.kind
    requires b.incidents[id].open && b.incidents[other].open
    ensures id == other
  {
  }

  /** The name and the times of the file an opening leaves: the open file goes on; otherwise it is named after
      the journal entry, or after the boot and the time its rule first rose, and a file already of that name
      keeps the time it began. */
  lemma OpenedFile(b: Book, kind: Kind, severity: Severity, cursor: Option<string>, now: int, boot: string, event: bool, id: Id)
    requires OneOpen(b)
    requires if OnFile(b, kind, Warning) || OnFile(b, kind, Critical)
             then id in b.incidents && id.kind == kind && b.incidents[id].open
             else id == Id(kind, if cursor.Some? then Cursor(cursor.value)
                                 else Since(boot, if kind in b.rules && b.rules[kind].pending.Some?
                                                  then b.rules[kind].pending.value else now))
    ensures var c := Opened(b, kind, severity, cursor, now, boot, event);
      && id in c.incidents && c.incidents[id].open && c.incidents[id].lastSeen == now
      && c.incidents[id].firstSeen == (if id in b.incidents then b.incidents[id].firstSeen else now)
      && c.incidents[id].severity
         == (if severity == Critical || (id in b.incidents && b.incidents[id].severity == Critical) then Critical else Warning)
      && (forall other :: other != id ==> (other in c.incidents <==> other in b.incidents))
      && (forall other :: other != id && other in b.incidents ==> c.incidents[other] == b.incidents[other])
  {
    ShownExactly(b, kind, Warning);
    ShownExactly(b, kind, Critical);
    assert severity == Warning || severity == Critical;
    if OnFile(b, kind, Warning) || OnFile(b, kind, Critical) {
      assert b.rules[kind].incident == Some(id);
    } else {
      NothingShown(b, kind);
    }
  }

  lemma NothingShown(b: Book, kind: Kind)
    requires OneOpen(b) && !OnFile(b, kind, Warning) && !OnFile(b, kind, Critical)
    ensures OpenSeverity(RuleFor(b.rules, kind), b.incidents) == None
  {
    ShownExactly(b, kind, Warning);
    ShownExactly(b, kind, Critical);
  }

  /** The quiet period closes the open file of a kind whose latest event is that long ago, and touches no other
      file. */
  lemma QuietFiles(b: Book, now: int, quiet: nat, id: Id)
    ensures var c := Quieted(b, now, quiet);
      && (id in c.incidents <==> id in b.incidents)
      && (id in b.incidents ==>
            c.incidents[id]
            == if id.kind in b.rules && b.rules[id.kind].event && quiet <= now - b.rules[id.kind].lastEvent
               then b.incidents[id].(open := false) else b.incidents[id])
  {
  }

  /** Cleaning up removes only files of incidents that are over, and only those it is told to. */
  lemma CleanFiles(b: Book, drop: set<Id>, id: Id)
    ensures var c := Pruned(b, drop);
      && (id in c.incidents <==> id in b.incidents && (b.incidents[id].open || id !in drop))
      && (id in c.incidents ==> c.incidents[id] == b.incidents[id])
  {
  }

  // ---- Runs ----

  /** In every run of snapshots and clean-ups of a new engine a file of the metric is open exactly when some `n`
      equal levels among the distinct samples since the last boot have not been followed by `r` clear ones, no
      second one is, and it is critical whenever they were critical levels. */
  lemma RunFiles(steps: seq<Step>, kind: Kind, n: nat, r: nat, quiet: nat)
    requires Proper(steps) && kind.Metric? && n > 0 && r > 0
    ensures var b, h := RunOf(steps, n, r, quiet), Distinct(SeenOf(SinceBoot(steps), kind));
      && (OnFile(b, kind, Warning) || OnFile(b, kind, Critical) <==> Held(h, n, r, Warning) || Held(h, n, r, Critical))
      && (Held(h, n, r, Critical) ==> OnFile(b, kind, Critical) && !OnFile(b, kind, Warning))
      && (DistinctStamps(steps) ==> (OnFile(b, kind, Critical) <==> Held(h, n, r, Critical)))
  {
    var b, h := RunOf(steps, n, r, quiet), Distinct(SeenOf(SinceBoot(steps), kind));
    RunFollows(steps, kind, n, r, quiet);
    AlarmLaw(h, n, r);
    if DistinctStamps(steps) {
      RunShows(steps, kind, n, r, quiet);
    }
    ShownExactly(b, kind, Warning);
    ShownExactly(b, kind, Critical);
    var shown := Shown(b, kind);
    assert shown.Some? ==> shown.value == Warning || shown.value == Critical;
  }
}
