/** What a reading and a snapshot do to one metric: its incident stays open exactly while the samples of its
    history say so, and it shows the severity they say unless it takes over an earlier incident's file. */
module IncidentShows {
  import opened Basics
  import opened AlarmHistory
  import opened IncidentModel

  // ---- What has been observed ----

  /** A snapshot measures each metric once. */
  predicate OncePerMetric(readings: seq<Measured>) {
    forall i, j :: 0 <= i < j < |readings| && KindOf(readings[i].reading).Metric? ==>
      KindOf(readings[i].reading) != KindOf(readings[j].reading)
  }

  predicate WellFormed(snapshot: Snapshot) {
    OncePerMetric(snapshot.readings) && forall e :: e in snapshot.events ==> !e.kind.Metric?
  }

  /** Another boot starts the observations again. */
  function AfterSnapshot(boot: Option<string>, seen: map<Kind, seq<Observed>>, snapshot: Snapshot)
    : map<Kind, seq<Observed>>
  {
    Observing(if boot.Some? && boot.value != snapshot.boot then map[] else seen, snapshot.readings)
  }

  function SeenOf(seen: map<Kind, seq<Observed>>, kind: Kind): seq<Observed> {
    if kind in seen then seen[kind] else []
  }

  /** What one more observation adds to the distinct samples. */
  lemma Noticed(past: seq<Observed>, o: Observed)
    ensures LastToken(past + [o]) == if o.token.Some? then o.token else LastToken(past)
    ensures Distinct(past + [o])
         == if o.token.Some? && o.token == LastToken(past) then Distinct(past) else Distinct(past) + [o.sample]
  {
    assert (past + [o])[..|past|] == past;
  }

  /** What has been observed of each kind since the last boot, with one more reading. */
  function Noting(seen: map<Kind, seq<Observed>>, reading: Reading, token: Option<int>): map<Kind, seq<Observed>> {
    seen[KindOf(reading) := SeenOf(seen, KindOf(reading)) + [Observed(SampleOf(reading), token)]]
  }

  /** The observations of a snapshot's readings, in order. */
  function Observing(seen: map<Kind, seq<Observed>>, readings: seq<Measured>): map<Kind, seq<Observed>> {
    if readings == [] then seen
    else
      var front, last := Observing(seen, readings[..|readings| - 1]), readings[|readings| - 1];
      if last.reading.Unit? && last.reading.state.Failed? then front else Noting(front, last.reading, last.token)
  }

  // ---- One metric ----

  /** The counters are the lengths of the runs the samples end in. */
  ghost predicate Counts(rule: Rule, h: seq<Sample>, r: nat) {
    && (match rule.level
        case Some(l) => h != [] && h[|h| - 1] == Level(l) && rule.streak == Run(h, Level(l))
        case None => rule.streak == 0 && (h != [] ==> !h[|h| - 1].Level?))
    && rule.clearStreak <= Run(h, Clear) && rule.clearStreak < r
    && (rule.incident.Some? ==> rule.clearStreak == Run(h, Clear))
  }

  lemma Appended(h: seq<Sample>, x: Sample, n: nat, r: nat)
    ensures Run(h + [x], x) == Run(h, x) + 1
    ensures forall y :: y != x ==> Run(h + [x], y) == 0
    ensures Alarm(h + [x], n, r) == (match x
              case Level(l) => if Run(h, x) + 1 < n || Alarm(h, n, r) == Some(Critical) then Alarm(h, n, r) else Some(l)
              case Clear => if Run(h, Clear) + 1 < r then Alarm(h, n, r) else None
              case Neutral => Alarm(h, n, r))
  {
    assert (h + [x])[..|h|] == h;
  }

  /** An incident is shown exactly while the history has one, and never with a lower severity. */
  predicate Agrees(shown: Option<Severity>, alarm: Option<Severity>) {
    (shown.Some? <==> alarm.Some?) && (alarm == Some(Critical) ==> shown == Some(Critical))
  }

  function Shown(b: Book, kind: Kind): Option<Severity> {
    OpenSeverity(RuleFor(b.rules, kind), b.incidents)
  }

  ghost predicate Core(rule: Rule, incidents: map<Id, Incident>, h: seq<Sample>, n: nat, r: nat) {
    && !rule.event && Counts(rule, h, r) && Agrees(OpenSeverity(rule, incidents), Alarm(h, n, r))
    && (rule.incident.Some? ==> OpenSeverity(rule, incidents).Some?)
  }

  /** A metric's rule and incident follow what has been observed since the last boot. */
  ghost predicate Follows(b: Book, kind: Kind, seen: seq<Observed>, n: nat, r: nat) {
    RuleFor(b.rules, kind).token == LastToken(seen) && Core(RuleFor(b.rules, kind), b.incidents, Distinct(seen), n, r)
  }

  /** The incident shows exactly the severity the history says. */
  ghost predicate Exact(b: Book, kind: Kind, seen: seq<Observed>, n: nat, r: nat) {
    Shown(b, kind) == Alarm(Distinct(seen), n, r)
  }

  /** An incident that would open on warnings finds a file of its kind, boot and time stamp, and that file
      is of a critical incident. */
  predicate TakesOver(rule: Rule, incidents: map<Id, Incident>, kind: Kind, level: Severity, now: int, boot: string, n: nat) {
    var climbed := Climbed(rule, level, now);
    && OpenSeverity(rule, incidents) == None && climbed.streak >= n && level == Warning
    && var id := Id(kind, Since(boot, climbed.pending.value)); id in incidents && incidents[id].severity == Critical
  }

  lemma ClimbedCounts(rule: Rule, level: Severity, h: seq<Sample>, n: nat, r: nat, now: int)
    requires Counts(rule, h, r)
    ensures Counts(Climbed(rule, level, now), h + [Level(level)], r)
    ensures Climbed(rule, level, now).streak == Run(h + [Level(level)], Level(level))
  {
    Appended(h, Level(level), n, r);
  }

  /** A reading at a level. The shown severity stays exact exactly unless a critical file is taken over. */
  lemma RisenCore(b: Book, kind: Kind, level: Severity, h: seq<Sample>, now: int, boot: string, n: nat, r: nat)
    requires Core(RuleFor(b.rules, kind), b.incidents, h, n, r) && n > 0
    ensures var c := Risen(b, kind, level, now, boot, n);
      && Core(RuleFor(c.rules, kind), c.incidents, h + [Level(level)], n, r)
      && RuleFor(c.rules, kind).token == RuleFor(b.rules, kind).token
      && (Shown(b, kind) == Alarm(h, n, r) ==>
            (Shown(c, kind) == Alarm(h + [Level(level)], n, r)
             <==> !TakesOver(RuleFor(b.rules, kind), b.incidents, kind, level, now, boot, n)))
  {
    var rule := RuleFor(b.rules, kind);
    ClimbedCounts(rule, level, h, n, r, now);
    Appended(h, Level(level), n, r);
    assert OpenSeverity(Climbed(rule, level, now), b.incidents) == Shown(b, kind);
  }

  /** A reading at no level. Once the incident is resolved the files do not matter. */
  lemma FallenCore(rule: Rule, incidents: map<Id, Incident>, later: map<Id, Incident>, clear: bool, h: seq<Sample>, n: nat, r: nat)
    requires Core(rule, incidents, h, n, r) && r > 0
    ensures var f, more := Fallen(rule, clear), h + [if clear then Clear else Neutral];
      if clear && f.clearStreak >= r then Core(Reset(f), later, more, n, r) && Alarm(more, n, r) == None
      else Core(f, incidents, more, n, r)
           && (OpenSeverity(rule, incidents) == Alarm(h, n, r) ==> OpenSeverity(f, incidents) == Alarm(more, n, r))
  {
    Appended(h, if clear then Clear else Neutral, n, r);
  }

  lemma SunkCore(b: Book, kind: Kind, clear: bool, h: seq<Sample>, n: nat, r: nat)
    requires Core(RuleFor(b.rules, kind), b.incidents, h, n, r) && r > 0
    ensures var c, more := Sunk(b, kind, clear, r), h + [if clear then Clear else Neutral];
      && Core(RuleFor(c.rules, kind), c.incidents, more, n, r)
      && RuleFor(c.rules, kind).token == RuleFor(b.rules, kind).token
      && (Shown(b, kind) == Alarm(h, n, r) ==> Shown(c, kind) == Alarm(more, n, r))
  {
    FallenCore(RuleFor(b.rules, kind), b.incidents, Sunk(b, kind, clear, r).incidents, clear, h, n, r);
  }

  /** The reading is new, at a level, and its incident would take over a critical file. */
  predicate ReadingTakesOver(b: Book, m: Measured, now: int, boot: string, n: nat) {
    var kind := KindOf(m.reading);
    var rule := RuleFor(b.rules, kind);
    && !(m.token.Some? && rule.token == m.token) && LevelOf(m.reading).Some?
    && TakesOver(rule, b.incidents, kind, LevelOf(m.reading).value, now, boot, n)
  }

  lemma JudgedCore(b: Book, reading: Reading, h: seq<Sample>, now: int, boot: string, n: nat, r: nat)
    requires Core(RuleFor(b.rules, KindOf(reading)), b.incidents, h, n, r) && n > 0 && r > 0
    ensures var c, kind := Judged(b, reading, now, boot, n, r), KindOf(reading);
      && Core(RuleFor(c.rules, kind), c.incidents, h + [SampleOf(reading)], n, r)
      && RuleFor(c.rules, kind).token == RuleFor(b.rules, kind).token
      && (Shown(b, kind) == Alarm(h, n, r) ==>
            (Shown(c, kind) == Alarm(h + [SampleOf(reading)], n, r)
             <==> !(LevelOf(reading).Some?
                    && TakesOver(RuleFor(b.rules, kind), b.incidents, kind, LevelOf(reading).value, now, boot, n))))
  {
    if LevelOf(reading).Some? {
      RisenCore(b, KindOf(reading), LevelOf(reading).value, h, now, boot, n, r);
    } else {
      SunkCore(b, KindOf(reading), IsClear(reading), h, n, r);
    }
  }

  lemma TokenCore(rule: Rule, incidents: map<Id, Incident>, token: Option<int>, h: seq<Sample>, n: nat, r: nat)
    requires Core(rule, incidents, h, n, r)
    ensures Core(Known(rule, token), incidents, h, n, r)
    ensures OpenSeverity(Known(rule, token), incidents) == OpenSeverity(rule, incidents)
  {
  }

  /** One reading of a metric. */
  lemma ReadFollows(b: Book, m: Measured, past: seq<Observed>, now: int, boot: string, n: nat, r: nat)
    requires KindOf(m.reading).Metric? && Follows(b, KindOf(m.reading), past, n, r) && n > 0 && r > 0
    ensures var c, kind, more := Took(b, m, now, boot, n, r), KindOf(m.reading), past + [Observed(SampleOf(m.reading), m.token)];
      && Follows(c, kind, more, n, r)
      && (Exact(b, kind, past, n, r) ==> (Exact(c, kind, more, n, r) <==> !ReadingTakesOver(b, m, now, boot, n)))
  {
    var kind, rule := KindOf(m.reading), RuleFor(b.rules, KindOf(m.reading));
    Noticed(past, Observed(SampleOf(m.reading), m.token));
    if m.token.None? || rule.token != m.token {
      NewFollows(b, m, past, now, boot, n, r);
    }
  }

  /** A reading of a measurement not seen before. */
  lemma NewFollows(b: Book, m: Measured, past: seq<Observed>, now: int, boot: string, n: nat, r: nat)
    requires KindOf(m.reading).Metric? && Follows(b, KindOf(m.reading), past, n, r) && n > 0 && r > 0
    requires m.token.None? || RuleFor(b.rules, KindOf(m.reading)).token != m.token
    ensures var c, kind, h := Took(b, m, now, boot, n, r), KindOf(m.reading), Distinct(past) + [SampleOf(m.reading)];
      && RuleFor(c.rules, kind).token == (if m.token.Some? then m.token else LastToken(past))
      && Core(RuleFor(c.rules, kind), c.incidents, h, n, r)
      && (Exact(b, kind, past, n, r) ==> (Shown(c, kind) == Alarm(h, n, r) <==> !ReadingTakesOver(b, m, now, boot, n)))
  {
    var kind, rule := KindOf(m.reading), RuleFor(b.rules, KindOf(m.reading));
    TokenCore(rule, b.incidents, m.token, Distinct(past), n, r);
    JudgedCore(WithRule(b, kind, Known(rule, m.token)), m.reading, Distinct(past), now, boot, n, r);
    if LevelOf(m.reading).Some? {
      assert TakesOver(Known(rule, m.token), b.incidents, kind, LevelOf(m.reading).value, now, boot, n)
          == TakesOver(rule, b.incidents, kind, LevelOf(m.reading).value, now, boot, n);
    }
  }

  // ---- One snapshot ----

  /** The kind's rule and files are the same in both books. */
  ghost predicate SameCell(kind: Kind, b: Book, c: Book) {
    && RuleFor(c.rules, kind) == RuleFor(b.rules, kind)
    && (forall id: Id :: id.kind == kind ==> (id in c.incidents <==> id in b.incidents))
    && (forall id :: id in b.incidents && id.kind == kind ==> c.incidents[id] == b.incidents[id])
  }

  lemma OthersSame(kind: Kind, other: Kind, b: Book, c: Book)
    requires OnlyKind(other, b, c) && kind != other
    ensures SameCell(kind, b, c)
  {
  }

  lemma SameShown(kind: Kind, b: Book, c: Book)
    requires OneOpen(b) && SameCell(kind, b, c)
    ensures Shown(c, kind) == Shown(b, kind)
  {
  }

  lemma SameFollows(kind: Kind, b: Book, c: Book, seen: seq<Observed>, n: nat, r: nat)
    requires OneOpen(b) && SameCell(kind, b, c) && Follows(b, kind, seen, n, r)
    ensures Follows(c, kind, seen, n, r) && (Exact(c, kind, seen, n, r) <==> Exact(b, kind, seen, n, r))
  {
    SameShown(kind, b, c);
  }

  /** Some reading of the metric takes over a critical file. */
  predicate Takeover(b: Book, readings: seq<Measured>, kind: Kind, now: int, boot: string, n: nat) {
    exists i :: 0 <= i < |readings| && KindOf(readings[i].reading) == kind && ReadingTakesOver(b, readings[i], now, boot, n)
  }

  predicate Reads(readings: seq<Measured>, kind: Kind) {
    exists i :: 0 <= i < |readings| && KindOf(readings[i].reading) == kind
  }

  lemma SameTakeover(kind: Kind, b: Book, c: Book, m: Measured, now: int, boot: string, n: nat)
    requires OneOpen(b) && SameCell(kind, b, c) && KindOf(m.reading) == kind
    ensures ReadingTakesOver(c, m, now, boot, n) == ReadingTakesOver(b, m, now, boot, n)
  {
    SameShown(kind, b, c);
  }

  lemma {:induction false} UnreadSame(b: Book, readings: seq<Measured>, kind: Kind, now: int, boot: string, n: nat, r: nat)
    requires OneOpen(b) && !Reads(readings, kind)
    ensures SameCell(kind, b, TookAll(b, readings, now, boot, n, r))
    decreases |readings|
  {
    if readings != [] {
      var front, last := readings[..|readings| - 1], readings[|readings| - 1];
      assert KindOf(last.reading) != kind;
      assert forall i :: 0 <= i < |front| ==> front[i] == readings[i];
      UnreadSame(b, front, kind, now, boot, n, r);
      TookAllKeeps(b, front, now, boot, n, r);
      TookKeeps(TookAll(b, front, now, boot, n, r), last, now, boot, n, r);
      OthersSame(kind, KindOf(last.reading), TookAll(b, front, now, boot, n, r), TookAll(b, readings, now, boot, n, r));
    }
  }

  /** The observations of a kind that the last reading is not about, and of the one it is. */
  lemma Observes(seen: map<Kind, seq<Observed>>, readings: seq<Measured>, kind: Kind)
    requires readings != [] && kind.Metric?
    ensures var front, last := readings[..|readings| - 1], readings[|readings| - 1];
      SeenOf(Observing(seen, readings), kind)
      == if KindOf(last.reading) == kind
         then SeenOf(Observing(seen, front), kind) + [Observed(SampleOf(last.reading), last.token)]
         else SeenOf(Observing(seen, front), kind)
  {
  }

  lemma {:induction false} UnreadObserves(seen: map<Kind, seq<Observed>>, readings: seq<Measured>, kind: Kind)
    requires kind.Metric? && !Reads(readings, kind)
    ensures SeenOf(Observing(seen, readings), kind) == SeenOf(seen, kind)
    decreases |readings|
  {
    if readings != [] {
      var front := readings[..|readings| - 1];
      assert KindOf(readings[|readings| - 1].reading) != kind;
      assert forall i :: 0 <= i < |front| ==> front[i] == readings[i];
      Observes(seen, readings, kind);
      UnreadObserves(seen, front, kind);
    }
  }

  /** What the readings of one snapshot do to a metric. */
  ghost predicate ReadsShow(b: Book, readings: seq<Measured>, seen: map<Kind, seq<Observed>>, kind: Kind, now: int,
                            boot: string, n: nat, r: nat)
  {
    var c, past, more := TookAll(b, readings, now, boot, n, r), SeenOf(seen, kind), SeenOf(Observing(seen, readings), kind);
    && Follows(c, kind, more, n, r)
    && (Exact(b, kind, past, n, r) ==> (Exact(c, kind, more, n, r) <==> !Takeover(b, readings, kind, now, boot, n)))
  }

  lemma {:induction false} TookAllShows(b: Book, readings: seq<Measured>, seen: map<Kind, seq<Observed>>, kind: Kind,
                                        now: int, boot: string, n: nat, r: nat)
    requires OneOpen(b) && kind.Metric? && OncePerMetric(readings) && n > 0 && r > 0
    requires Follows(b, kind, SeenOf(seen, kind), n, r)
    ensures ReadsShow(b, readings, seen, kind, now, boot, n, r)
    decreases |readings|
  {
    if readings != [] {
      var front, last := readings[..|readings| - 1], readings[|readings| - 1];
      assert forall i :: 0 <= i < |front| ==> front[i] == readings[i];
      Observes(seen, readings, kind);
      TookAllKeeps(b, front, now, boot, n, r);
      if KindOf(last.reading) == kind {
        assert !Reads(front, kind);
        LastShows(b, front, last, seen, kind, now, boot, n, r);
        assert Takeover(b, readings, kind, now, boot, n) <==> ReadingTakesOver(b, last, now, boot, n);
      } else {
        TookAllShows(b, front, seen, kind, now, boot, n, r);
        var before := TookAll(b, front, now, boot, n, r);
        TookKeeps(before, last, now, boot, n, r);
        OthersSame(kind, KindOf(last.reading), before, Took(before, last, now, boot, n, r));
        SameFollows(kind, before, Took(before, last, now, boot, n, r), SeenOf(Observing(seen, front), kind), n, r);
        TakeoverFront(b, readings, kind, now, boot, n);
      }
    }
  }

  /** A reading never makes a critical incident less: it stays critical or is closed. */
  predicate StaysCritical(was: Option<Severity>, shown: Option<Severity>) {
    was == Some(Critical) ==> shown == None || shown == Some(Critical)
  }

  lemma TookSeverity(b: Book, m: Measured, now: int, boot: string, n: nat, r: nat)
    requires OneOpen(b)
    ensures StaysCritical(Shown(b, KindOf(m.reading)), Shown(Took(b, m, now, boot, n, r), KindOf(m.reading)))
  {
  }

  /** Nor do the readings of a snapshot, which measures each metric once. */
  lemma {:induction false} TookAllSeverity(b: Book, readings: seq<Measured>, kind: Kind, now: int, boot: string, n: nat, r: nat)
    requires OneOpen(b) && kind.Metric? && OncePerMetric(readings)
    ensures StaysCritical(Shown(b, kind), Shown(TookAll(b, readings, now, boot, n, r), kind))
    decreases |readings|
  {
    if readings != [] {
      var front, last := readings[..|readings| - 1], readings[|readings| - 1];
      assert forall i :: 0 <= i < |front| ==> front[i] == readings[i];
      var before := TookAll(b, front, now, boot, n, r);
      TookAllKeeps(b, front, now, boot, n, r);
      TookKeeps(before, last, now, boot, n, r);
      if KindOf(last.reading) == kind {
        assert !Reads(front, kind);
        UnreadSame(b, front, kind, now, boot, n, r);
        SameShown(kind, b, before);
        TookSeverity(before, last, now, boot, n, r);
      } else {
        TookAllSeverity(b, front, kind, now, boot, n, r);
        OthersSame(kind, KindOf(last.reading), before, Took(before, last, now, boot, n, r));
        SameShown(kind, before, Took(before, last, now, boot, n, r));
      }
    }
  }

  lemma TakeoverFront(b: Book, readings: seq<Measured>, kind: Kind, now: int, boot: string, n: nat)
    requires readings != [] && KindOf(readings[|readings| - 1].reading) != kind
    ensures Takeover(b, readings, kind, now, boot, n) <==> Takeover(b, readings[..|readings| - 1], kind, now, boot, n)
  {
    var front := readings[..|readings| - 1];
    if Takeover(b, readings, kind, now, boot, n) {
      var i :| 0 <= i < |readings| && KindOf(readings[i].reading) == kind && ReadingTakesOver(b, readings[i], now, boot, n);
      assert front[i] == readings[i];
    }
    if Takeover(b, front, kind, now, boot, n) {
      var i :| 0 <= i < |front| && KindOf(front[i].reading) == kind && ReadingTakesOver(b, front[i], now, boot, n);
      assert front[i] == readings[i];
    }
  }

  /** The metric's only reading, after those of other kinds. */
  lemma LastShows(b: Book, front: seq<Measured>, last: Measured, seen: map<Kind, seq<Observed>>, kind: Kind, now: int,
                  boot: string, n: nat, r: nat)
    requires OneOpen(b) && kind.Metric? && KindOf(last.reading) == kind && !Reads(front, kind) && n > 0 && r > 0
    requires Follows(b, kind, SeenOf(seen, kind), n, r)
    ensures var past := SeenOf(seen, kind);
      var c, more := Took(TookAll(b, front, now, boot, n, r), last, now, boot, n, r),
                     SeenOf(Observing(seen, front), kind) + [Observed(SampleOf(last.reading), last.token)];
      && Follows(c, kind, more, n, r)
      && (Exact(b, kind, past, n, r) ==> (Exact(c, kind, more, n, r) <==> !ReadingTakesOver(b, last, now, boot, n)))
  {
    var before := TookAll(b, front, now, boot, n, r);
    TookAllKeeps(b, front, now, boot, n, r);
    UnreadSame(b, front, kind, now, boot, n, r);
    UnreadObserves(seen, front, kind);
    SameFollows(kind, b, before, SeenOf(seen, kind), n, r);
    SameTakeover(kind, b, before, last, now, boot, n);
    ReadFollows(before, last, SeenOf(seen, kind), now, boot, n, r);
  }

  lemma {:induction false} HeardSame(b: Book, events: seq<Event>, kind: Kind, now: int, boot: string)
    requires OneOpen(b) && forall e :: e in events ==> e.kind != kind
    ensures OneOpen(HeardAll(b, events, now, boot)) && SameCell(kind, b, HeardAll(b, events, now, boot))
    decreases |events|
  {
    if events != [] {
      var front, e := events[..|events| - 1], events[|events| - 1];
      HeardSame(b, front, kind, now, boot);
      var before := HeardAll(b, front, now, boot);
      OpenedKeeps(before, e.kind, e.severity, e.cursor, now, boot, true);
      OthersSame(kind, e.kind, before, HeardAll(b, events, now, boot));
    }
  }

  lemma QuietedSame(b: Book, kind: Kind, now: int, quiet: nat)
    requires OneOpen(b) && !RuleFor(b.rules, kind).event
    ensures OneOpen(Quieted(b, now, quiet)) && SameCell(kind, b, Quieted(b, now, quiet))
  {
    EndedKeeps(b, DueKinds(b, now, quiet), Reset);
  }

  /** After a restart nothing is shown and nothing has been observed. */
  lemma RestartedFollows(b: Book, kind: Kind, now: int, boot: string, n: nat, r: nat)
    requires OneOpen(b) && kind.Metric? && r > 0
    requires RuleFor(b.rules, kind).event == false
    ensures var c := Restarted(b, now, boot);
      OneOpen(c) && Follows(c, kind, [], n, r) && Exact(c, kind, [], n, r)
  {
    var ended := Ended(b, b.rules.Keys, Forgotten);
    EndedKeeps(b, b.rules.Keys, Forgotten);
    OpenedKeeps(ended, HOST_RESTARTED, Warning, None, now, boot, true);
    OthersSame(kind, HOST_RESTARTED, ended, Restarted(b, now, boot));
    SameFollows(kind, ended, Restarted(b, now, boot), [], n, r);
  }

  /** Opening leaves the kind's incident open and seen now: the one that was open, if there was, and as critical as
      it was. It is critical if it is opened as critical, and otherwise only by its file. */
  lemma OpenedShows(b: Book, kind: Kind, severity: Severity, cursor: Option<string>, now: int, boot: string, event: bool)
    requires OneOpen(b)
    ensures var c := Opened(b, kind, severity, cursor, now, boot, event); var id := RuleFor(c.rules, kind).incident;
      && Shown(c, kind).Some? && id.Some? && id.value.kind == kind && id.value in c.incidents && c.incidents[id.value].lastSeen == now
      && (Shown(b, kind).Some? ==> id == RuleFor(b.rules, kind).incident)
      && (Shown(c, kind) == Some(Critical) <==>
            severity == Critical || (id.value in b.incidents && b.incidents[id.value].severity == Critical))
      && (Shown(b, kind) == Some(Critical) ==> Shown(c, kind) == Some(Critical))
  {
  }

  /** Nothing is open any more, of any kind, but the incident that tells of the restart; and every count starts
      again. */
  lemma RestartedClears(b: Book, kind: Kind, now: int, boot: string)
    requires OneOpen(b)
    ensures var c := Restarted(b, now, boot);
      && OneOpen(c) && Shown(c, HOST_RESTARTED).Some?
      && (kind != HOST_RESTARTED ==> Shown(c, kind) == None && RuleFor(c.rules, kind) == NewRule)
  {
    var ended := Ended(b, b.rules.Keys, Forgotten);
    EndedKeeps(b, b.rules.Keys, Forgotten);
    OpenedKeeps(ended, HOST_RESTARTED, Warning, None, now, boot, true);
    OpenedShows(ended, HOST_RESTARTED, Warning, None, now, boot, true);
  }

  predicate Reboots(boot: Option<string>, snapshot: Snapshot) {
    boot.Some? && boot.value != snapshot.boot
  }

  /** Some reading of the snapshot takes over a critical file of the metric. */
  predicate TakeoverIn(b: Book, boot: Option<string>, snapshot: Snapshot, kind: Kind, n: nat) {
    Takeover(Entered(b, boot, snapshot), snapshot.readings, kind, snapshot.now, snapshot.boot, n)
  }

  /** One snapshot: what is shown follows the history, and stays exact exactly unless a critical file is
      taken over. */
  lemma EvaluatedShows(b: Book, boot: Option<string>, seen: map<Kind, seq<Observed>>, snapshot: Snapshot, kind: Kind,
                       n: nat, r: nat, quiet: nat)
    requires OneOpen(b) && kind.Metric? && WellFormed(snapshot) && n > 0 && r > 0
    requires Follows(b, kind, SeenOf(seen, kind), n, r)
    ensures var c, more := Evaluated(b, boot, snapshot, n, r, quiet), SeenOf(AfterSnapshot(boot, seen, snapshot), kind);
      && OneOpen(c) && Follows(c, kind, more, n, r)
      && (Reboots(boot, snapshot) || Exact(b, kind, SeenOf(seen, kind), n, r) ==>
            (Exact(c, kind, more, n, r) <==> !TakeoverIn(b, boot, snapshot, kind, n)))
  {
    var entered, known := Entered(b, boot, snapshot), if Reboots(boot, snapshot) then map[] else seen;
    if Reboots(boot, snapshot) {
      RestartedFollows(b, kind, snapshot.now, snapshot.boot, n, r);
    }
    TookAllShows(entered, snapshot.readings, known, kind, snapshot.now, snapshot.boot, n, r);
    TookAllKeeps(entered, snapshot.readings, snapshot.now, snapshot.boot, n, r);
    var read, more := TookAll(entered, snapshot.readings, snapshot.now, snapshot.boot, n, r),
                      SeenOf(Observing(known, snapshot.readings), kind);
    LaterSame(read, snapshot, kind, more, n, r, quiet);
  }

  /** Events and the quiet period do not concern a metric. */
  lemma LaterSame(read: Book, snapshot: Snapshot, kind: Kind, seen: seq<Observed>, n: nat, r: nat, quiet: nat)
    requires OneOpen(read) && kind.Metric? && WellFormed(snapshot) && Follows(read, kind, seen, n, r)
    ensures var c := Quieted(HeardAll(read, snapshot.events, snapshot.now, snapshot.boot), snapshot.now, quiet);
      OneOpen(c) && SameCell(kind, read, c) && Follows(c, kind, seen, n, r)
      && (Exact(c, kind, seen, n, r) <==> Exact(read, kind, seen, n, r))
  {
    HeardSame(read, snapshot.events, kind, snapshot.now, snapshot.boot);
    var heard := HeardAll(read, snapshot.events, snapshot.now, snapshot.boot);
    QuietedSame(heard, kind, snapshot.now, quiet);
    SameFollows(kind, read, Quieted(heard, snapshot.now, quiet), seen, n, r);
  }

  // ---- Events and services ----

  /** The kind has an open incident whose latest event came now. */
  predicate Heard(b: Book, kind: Kind, now: int) {
    kind in b.rules && b.rules[kind].event && b.rules[kind].lastEvent == now && Shown(b, kind).Some?
  }

  lemma {:induction false} AllHeard(b: Book, events: seq<Event>, now: int, boot: string, e: Event)
    requires OneOpen(b) && e in events
    ensures OneOpen(HeardAll(b, events, now, boot)) && Heard(HeardAll(b, events, now, boot), e.kind, now)
    decreases |events|
  {
    var front, last := events[..|events| - 1], events[|events| - 1];
    assert events == front + [last];
    var before := HeardAll(b, front, now, boot);
    HeardOneOpen(b, front, now, boot);
    OpenedKeeps(before, last.kind, last.severity, last.cursor, now, boot, true);
    if e.kind != last.kind {
      AllHeard(b, front, now, boot, e);
      OthersSame(e.kind, last.kind, before, HeardAll(b, events, now, boot));
      SameShown(e.kind, before, HeardAll(b, events, now, boot));
    }
  }

  lemma {:induction false} HeardOneOpen(b: Book, events: seq<Event>, now: int, boot: string)
    requires OneOpen(b)
    ensures OneOpen(HeardAll(b, events, now, boot))
    decreases |events|
  {
    if events != [] {
      var front, last := events[..|events| - 1], events[|events| - 1];
      HeardOneOpen(b, front, now, boot);
      OpenedKeeps(HeardAll(b, front, now, boot), last.kind, last.severity, last.cursor, now, boot, true);
    }
  }

  /** The quiet period closes exactly the incidents whose latest event is that long ago. */
  lemma QuietCloses(b: Book, now: int, quiet: nat, kind: Kind)
    requires OneOpen(b)
    ensures var c := Quieted(b, now, quiet);
      Shown(c, kind) == if QuietDue(RuleFor(b.rules, kind), now, quiet) then None else Shown(b, kind)
  {
  }

  /** After a snapshot the incident of each of its events is open, with this as its latest event. */
  lemma EventsHeard(b: Book, boot: Option<string>, snapshot: Snapshot, n: nat, r: nat, quiet: nat, e: Event)
    requires OneOpen(b) && e in snapshot.events && quiet > 0
    ensures Heard(Evaluated(b, boot, snapshot, n, r, quiet), e.kind, snapshot.now)
  {
    var entered := Entered(b, boot, snapshot);
    EndedKeeps(b, b.rules.Keys, Forgotten);
    OpenedKeeps(Ended(b, b.rules.Keys, Forgotten), HOST_RESTARTED, Warning, None, snapshot.now, snapshot.boot, true);
    TookAllKeeps(entered, snapshot.readings, snapshot.now, snapshot.boot, n, r);
    var read := TookAll(entered, snapshot.readings, snapshot.now, snapshot.boot, n, r);
    AllHeard(read, snapshot.events, snapshot.now, snapshot.boot, e);
    QuietCloses(HeardAll(read, snapshot.events, snapshot.now, snapshot.boot), snapshot.now, quiet, e.kind);
  }

  /** A failed service's incident is critical at once. */
  lemma FailedServiceShows(b: Book, m: Measured, now: int, boot: string, n: nat, r: nat)
    requires m.reading.Unit? && m.reading.state.Failed?
    ensures Shown(Took(b, m, now, boot, n, r), KindOf(m.reading)) == Some(Critical)
  {
  }
}
