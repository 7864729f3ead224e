/** What the health monitor's rule engine works on, and what each of its steps does to the rules and the
    incident files, as values. */
module IncidentModel {
  import opened Basics
  import opened AlarmHistory

  /** What an incident is about. Journal events concern journal kinds and services, never a metric. */
  datatype Kind = Metric(name: string) | Service(name: string) | Journal(name: string)

  datatype Key = Since(boot: string, at: int) | Cursor(text: string)

  datatype Id = Id(kind: Kind, key: Key)

  datatype Incident = Incident(severity: Severity, open: bool, firstSeen: int, lastSeen: int)

  datatype Rule = Rule(
    streak: nat, clearStreak: nat, level: Option<Severity>, token: Option<int>, pending: Option<int>,
    incident: Option<Id>, event: bool, lastEvent: int)

  const NewRule := Rule(0, 0, None, None, None, None, false, 0)

  // ---- What a snapshot says ----

  datatype Limits = Limits(clear: real, warning: real, critical: real)

  /** The order `load_policy` demands of a threshold. */
  predicate Ordered(limits: Limits) {
    0.0 <= limits.clear < limits.warning < limits.critical
  }

  datatype MemoryLimits = MemoryLimits(critical: real, warning: real, clear: real, minimumPsi: real)

  predicate MemoryOrdered(limits: MemoryLimits) {
    0.0 <= limits.critical < limits.warning < limits.clear <= 1.0 && limits.minimumPsi >= 0.0
  }

  datatype UnitState = Active | Starting | Failed | Down

  /** One measurement of a snapshot. `complete` is false when attribution behind a gauge was partial. */
  datatype Reading =
    | Gauge(name: string, value: Option<real>, complete: bool, limits: Limits)
    | Memory(available: Option<real>, psi: Option<real>, memory: MemoryLimits)
    | Check(name: string, ok: Option<bool>)
    | Unit(name: string, state: UnitState)

  datatype Measured = Measured(reading: Reading, token: Option<int>)

  function KindOf(reading: Reading): Kind {
    match reading
    case Gauge(name, _, _, _) => Metric(name)
    case Memory(_, _, _) => Metric("memory")
    case Check(name, _) => Metric(name)
    case Unit(name, _) => Service(name)
  }

  function LevelOf(reading: Reading): Option<Severity> {
    match reading
    case Gauge(_, value, _, limits) =>
      if value.Some? && value.value >= limits.critical then Some(Critical)
      else if value.Some? && value.value >= limits.warning then Some(Warning)
      else None
    case Memory(available, psi, limits) =>
      var pressured := psi.Some? && psi.value >= limits.minimumPsi;
      if available.Some? && available.value < limits.critical && pressured then Some(Critical)
      else if available.Some? && available.value < limits.warning && pressured then Some(Warning)
      else None
    case Check(_, ok) => if ok == Some(false) then Some(Warning) else None
    case Unit(_, state) => if state.Down? then Some(Warning) else None
  }

  predicate IsClear(reading: Reading) {
    match reading
    case Gauge(_, value, complete, limits) => value.Some? && value.value < limits.clear && complete
    case Memory(available, _, limits) => available.Some? && available.value >= limits.clear
    case Check(_, ok) => ok == Some(true)
    case Unit(_, state) => state.Active?
  }

  function SampleOf(reading: Reading): Sample {
    if LevelOf(reading).Some? then Level(LevelOf(reading).value)
    else if IsClear(reading) then Clear
    else Neutral
  }

  predicate ValidReading(reading: Reading) {
    match reading
    case Gauge(_, _, _, limits) => Ordered(limits)
    case Memory(_, _, limits) => MemoryOrdered(limits)
    case _ => true
  }

  /** With the thresholds in the demanded order no reading is both clear and at a level, and a critical
      reading is never below the warning threshold. */
  lemma ThresholdsApart(reading: Reading)
    requires ValidReading(reading)
    ensures !(LevelOf(reading).Some? && IsClear(reading))
    ensures reading.Gauge? && LevelOf(reading).Some? ==> reading.value.value >= reading.limits.warning
    ensures reading.Memory? && LevelOf(reading).Some? ==> reading.available.value < reading.memory.warning
  {
  }

  datatype Event = Event(kind: Kind, severity: Severity, cursor: Option<string>)

  datatype Snapshot = Snapshot(now: int, boot: string, readings: seq<Measured>, events: seq<Event>)

  // ---- Rules and files ----

  /** The rules and the incident files. */
  datatype Book = Book(rules: map<Kind, Rule>, incidents: map<Id, Incident>)

  function RuleFor(rules: map<Kind, Rule>, kind: Kind): Rule {
    if kind in rules then rules[kind] else NewRule
  }

  /** A rule points at its own open incident, and no incident is open that no rule points at. */
  ghost predicate OneOpen(b: Book) {
    && (forall kind :: kind in b.rules && b.rules[kind].incident.Some? ==>
          var id := b.rules[kind].incident.value;
          id.kind == kind && id in b.incidents && b.incidents[id].open)
    && (forall id :: id in b.incidents && b.incidents[id].open ==>
          id.kind in b.rules && b.rules[id.kind].incident == Some(id))
  }

  function OpenSeverity(rule: Rule, incidents: map<Id, Incident>): Option<Severity> {
    if rule.incident.Some? && rule.incident.value in incidents && incidents[rule.incident.value].open
    then Some(incidents[rule.incident.value].severity)
    else None
  }

  /** The rule once it names the incident to write. */
  function Targeted(rule: Rule, incidents: map<Id, Incident>, kind: Kind, cursor: Option<string>, now: int,
                    boot: string): (t: Rule)
    ensures t.incident.Some?
  {
    if OpenSeverity(rule, incidents).Some? then rule
    else
      var at := if rule.pending.Some? then rule.pending.value else now;
      if cursor.Some? then rule.(incident := Some(Id(kind, Cursor(cursor.value))))
      else rule.(pending := Some(at), incident := Some(Id(kind, Since(boot, at))))
  }

  /** A critical incident file stays critical. */
  function SeverityAfter(incidents: map<Id, Incident>, id: Id, severity: Severity): Severity {
    if id in incidents && incidents[id].severity == Critical then Critical else severity
  }

  /** A rule whose incident has been resolved. */
  function Reset(rule: Rule): Rule {
    rule.(incident := None, pending := None, event := false, lastEvent := 0, streak := 0, clearStreak := 0, level := None)
  }

  /** The counters after a reading at a level. */
  function Climbed(rule: Rule, level: Severity, now: int): Rule {
    rule.(clearStreak := 0, level := Some(level), streak := if rule.level == Some(level) then rule.streak + 1 else 1,
          pending := Some(if rule.pending.Some? then rule.pending.value else now))
  }

  /** The counters after a reading at no level. */
  function Fallen(rule: Rule, clear: bool): Rule {
    rule.(streak := 0, level := None, clearStreak := if clear then rule.clearStreak + 1 else 0)
  }

  /** A rule after a restart. */
  function Forgotten(rule: Rule): Rule {
    Reset(rule).(token := None)
  }

  predicate QuietDue(rule: Rule, now: int, quiet: nat) {
    rule.event && now - rule.lastEvent >= quiet
  }

  // ---- Steps ----

  function WithRule(b: Book, kind: Kind, rule: Rule): Book {
    b.(rules := b.rules[kind := rule])
  }

  /** The contents an opening writes: a file already there goes on, and stays critical. */
  function Written(incidents: map<Id, Incident>, id: Id, severity: Severity, now: int): Incident {
    Incident(SeverityAfter(incidents, id, severity), true, if id in incidents then incidents[id].firstSeen else now, now)
  }

  /** Opens the kind's incident, or updates the open one. */
  function Opened(b: Book, kind: Kind, severity: Severity, cursor: Option<string>, now: int, boot: string, event: bool): Book {
    var t := Targeted(RuleFor(b.rules, kind), b.incidents, kind, cursor, now, boot);
    var rule := if event then t.(event := true, lastEvent := now) else t;
    Book(b.rules[kind := rule], b.incidents[t.incident.value := Written(b.incidents, t.incident.value, severity, now)])
  }

  function Closing(b: Book, rule: Rule): map<Id, Incident> {
    if OpenSeverity(rule, b.incidents).Some?
    then b.incidents[rule.incident.value := b.incidents[rule.incident.value].(open := false)]
    else b.incidents
  }

  function Resolved(b: Book, kind: Kind): Book {
    if kind in b.rules then Book(b.rules[kind := Reset(b.rules[kind])], Closing(b, b.rules[kind])) else b
  }

  /** A reading at a level is another sample of the run, which may open or escalate the incident. */
  function Risen(b: Book, kind: Kind, level: Severity, now: int, boot: string, n: nat): Book {
    var rule := Climbed(RuleFor(b.rules, kind), level, now);
    if rule.streak >= n || OpenSeverity(rule, b.incidents) == Some(level)
    then Opened(WithRule(b, kind, rule), kind, level, None, now, boot, false)
    else WithRule(b, kind, rule)
  }

  /** A reading at no level ends the run, and a clear one may resolve the incident. */
  function Sunk(b: Book, kind: Kind, clear: bool, r: nat): Book {
    var rule := Fallen(RuleFor(b.rules, kind), clear);
    if clear && rule.clearStreak >= r then Resolved(WithRule(b, kind, rule), kind) else WithRule(b, kind, rule)
  }

  function Judged(b: Book, reading: Reading, now: int, boot: string, n: nat, r: nat): Book {
    var level := LevelOf(reading);
    if level.Some? then Risen(b, KindOf(reading), level.value, now, boot, n)
    else Sunk(b, KindOf(reading), IsClear(reading), r)
  }

  function Known(rule: Rule, token: Option<int>): Rule {
    if token.Some? then rule.(token := token) else rule
  }

  /** One reading of a kind. A repeated measurement is ignored. */
  function Read(b: Book, reading: Reading, token: Option<int>, now: int, boot: string, n: nat, r: nat): Book {
    var kind, rule := KindOf(reading), RuleFor(b.rules, KindOf(reading));
    if token.Some? && rule.token == token then WithRule(b, kind, rule)
    else Judged(WithRule(b, kind, Known(rule, token)), reading, now, boot, n, r)
  }

  /** A failed service opens its incident at once, everything else is counted. */
  function Took(b: Book, m: Measured, now: int, boot: string, n: nat, r: nat): Book {
    if m.reading.Unit? && m.reading.state.Failed? then Opened(b, KindOf(m.reading), Critical, None, now, boot, false)
    else Read(b, m.reading, m.token, now, boot, n, r)
  }

  function TookAll(b: Book, readings: seq<Measured>, now: int, boot: string, n: nat, r: nat): Book {
    if readings == [] then b
    else Took(TookAll(b, readings[..|readings| - 1], now, boot, n, r), readings[|readings| - 1], now, boot, n, r)
  }

  /** The rules of these kinds as `f` leaves them, and their open incidents closed. */
  function Ended(b: Book, kinds: set<Kind>, f: Rule -> Rule): Book {
    Book(map k | k in b.rules :: if k in kinds then f(b.rules[k]) else b.rules[k],
         map id | id in b.incidents :: if id.kind in kinds then b.incidents[id].(open := false) else b.incidents[id])
  }

  const HOST_RESTARTED := Journal("host_restarted")

  /** Another boot resolves everything and starts the counts again. */
  function Restarted(b: Book, now: int, boot: string): Book {
    Opened(Ended(b, b.rules.Keys, Forgotten), HOST_RESTARTED, Warning, None, now, boot, true)
  }

  function HeardAll(b: Book, events: seq<Event>, now: int, boot: string): Book {
    if events == [] then b
    else
      var e := events[|events| - 1];
      Opened(HeardAll(b, events[..|events| - 1], now, boot), e.kind, e.severity, e.cursor, now, boot, true)
  }

  function DueKinds(b: Book, now: int, quiet: nat): set<Kind> {
    set k | k in b.rules && QuietDue(b.rules[k], now, quiet)
  }

  /** Event incidents close after the quiet period, and nothing else changes. */
  function Quieted(b: Book, now: int, quiet: nat): Book {
    Ended(b, DueKinds(b, now, quiet), Reset)
  }

  /** The book in which a snapshot's readings are taken. */
  function Entered(b: Book, boot: Option<string>, snapshot: Snapshot): Book {
    if boot.Some? && boot.value != snapshot.boot then Restarted(b, snapshot.now, snapshot.boot) else b
  }

  /** One snapshot. */
  function Evaluated(b: Book, boot: Option<string>, snapshot: Snapshot, n: nat, r: nat, quiet: nat): Book {
    var read := TookAll(Entered(b, boot, snapshot), snapshot.readings, snapshot.now, snapshot.boot, n, r);
    Quieted(HeardAll(read, snapshot.events, snapshot.now, snapshot.boot), snapshot.now, quiet)
  }

  /** Old files of closed incidents go. */
  function Pruned(b: Book, drop: set<Id>): Book {
    b.(incidents := map id | id in b.incidents && !(id in drop && !b.incidents[id].open) :: b.incidents[id])
  }

  // ---- What every step keeps ----

  /** One kind's step leaves every other kind alone. */
  ghost predicate OnlyKind(kind: Kind, b: Book, c: Book) {
    && (forall k :: k != kind ==> (k in c.rules <==> k in b.rules) && RuleFor(c.rules, k) == RuleFor(b.rules, k))
    && (forall id: Id :: id.kind != kind ==> (id in c.incidents <==> id in b.incidents))
    && (forall id :: id in b.incidents && id.kind != kind ==> c.incidents[id] == b.incidents[id])
  }

  lemma OpenedKeeps(b: Book, kind: Kind, severity: Severity, cursor: Option<string>, now: int, boot: string, event: bool)
    requires OneOpen(b)
    ensures var c := Opened(b, kind, severity, cursor, now, boot, event); OneOpen(c) && OnlyKind(kind, b, c)
  {
  }

  lemma ResolvedKeeps(b: Book, kind: Kind)
    requires OneOpen(b)
    ensures var c := Resolved(b, kind); OneOpen(c) && OnlyKind(kind, b, c)
    ensures forall id :: id in Resolved(b, kind).incidents && id.kind == kind ==> !Resolved(b, kind).incidents[id].open
  {
  }

  lemma WithRuleKeeps(b: Book, kind: Kind, rule: Rule)
    requires OneOpen(b) && rule.incident == RuleFor(b.rules, kind).incident
    ensures OneOpen(WithRule(b, kind, rule)) && OnlyKind(kind, b, WithRule(b, kind, rule))
  {
  }

  lemma OnlyKindAgain(kind: Kind, b: Book, c: Book, d: Book)
    requires OnlyKind(kind, b, c) && OnlyKind(kind, c, d)
    ensures OnlyKind(kind, b, d)
  {
  }

  lemma JudgedKeeps(b: Book, reading: Reading, now: int, boot: string, n: nat, r: nat)
    requires OneOpen(b)
    ensures var c := Judged(b, reading, now, boot, n, r); OneOpen(c) && OnlyKind(KindOf(reading), b, c)
  {
    var kind, level := KindOf(reading), LevelOf(reading);
    if level.Some? {
      var rule := Climbed(RuleFor(b.rules, kind), level.value, now);
      WithRuleKeeps(b, kind, rule);
      OpenedKeeps(WithRule(b, kind, rule), kind, level.value, None, now, boot, false);
      OnlyKindAgain(kind, b, WithRule(b, kind, rule), Judged(b, reading, now, boot, n, r));
    } else {
      var rule := Fallen(RuleFor(b.rules, kind), IsClear(reading));
      WithRuleKeeps(b, kind, rule);
      ResolvedKeeps(WithRule(b, kind, rule), kind);
      OnlyKindAgain(kind, b, WithRule(b, kind, rule), Judged(b, reading, now, boot, n, r));
    }
  }

  lemma ReadKeeps(b: Book, reading: Reading, token: Option<int>, now: int, boot: string, n: nat, r: nat)
    requires OneOpen(b)
    ensures var c := Read(b, reading, token, now, boot, n, r); OneOpen(c) && OnlyKind(KindOf(reading), b, c)
  {
    var kind, rule := KindOf(reading), RuleFor(b.rules, KindOf(reading));
    WithRuleKeeps(b, kind, rule);
    WithRuleKeeps(b, kind, Known(rule, token));
    JudgedKeeps(WithRule(b, kind, Known(rule, token)), reading, now, boot, n, r);
    OnlyKindAgain(kind, b, WithRule(b, kind, Known(rule, token)),
                  Judged(WithRule(b, kind, Known(rule, token)), reading, now, boot, n, r));
  }

  lemma TookKeeps(b: Book, m: Measured, now: int, boot: string, n: nat, r: nat)
    requires OneOpen(b)
    ensures var c := Took(b, m, now, boot, n, r); OneOpen(c) && OnlyKind(KindOf(m.reading), b, c)
  {
    if m.reading.Unit? && m.reading.state.Failed? {
      OpenedKeeps(b, KindOf(m.reading), Critical, None, now, boot, false);
    } else {
      ReadKeeps(b, m.reading, m.token, now, boot, n, r);
    }
  }

  lemma {:induction false} TookAllKeeps(b: Book, readings: seq<Measured>, now: int, boot: string, n: nat, r: nat)
    requires OneOpen(b)
    ensures OneOpen(TookAll(b, readings, now, boot, n, r))
    decreases |readings|
  {
    if readings != [] {
      var front := readings[..|readings| - 1];
      TookAllKeeps(b, front, now, boot, n, r);
      TookKeeps(TookAll(b, front, now, boot, n, r), readings[|readings| - 1], now, boot, n, r);
    }
  }

  lemma EndedKeeps(b: Book, kinds: set<Kind>, f: Rule -> Rule)
    requires OneOpen(b) && (forall rule :: f(rule).incident == None)
    ensures OneOpen(Ended(b, kinds, f))
  {
  }
}
