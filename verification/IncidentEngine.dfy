/** The rule engine of the health monitor: rules count consecutive samples, incident files are opened,
    escalated and resolved. Each method does to the object what the model's step does to its value. */
module IncidentEngine {
  import opened Basics
  import opened AlarmHistory
  import opened IncidentModel

  /** Ending one more kind. */
  lemma EndedNext(b: Book, kinds: set<Kind>, kind: Kind, f: Rule -> Rule)
    requires OneOpen(b) && kind in b.rules && kind !in kinds
    ensures var e := Ended(b, kinds, f);
            Ended(b, kinds + {kind}, f) == Book(e.rules[kind := f(b.rules[kind])], Closing(e, b.rules[kind]))
  {
    var e := Ended(b, kinds, f);
    var next := Ended(b, kinds + {kind}, f);
    assert next.rules == e.rules[kind := f(b.rules[kind])];
    forall id | id in b.incidents ensures next.incidents[id] == Closing(e, b.rules[kind])[id] {
    }
    assert next.incidents == Closing(e, b.rules[kind]);
  }

  lemma EndedNone(b: Book, f: Rule -> Rule)
    ensures Ended(b, {}, f) == b
  {
    assert Ended(b, {}, f).rules == b.rules && Ended(b, {}, f).incidents == b.incidents;
  }

  class Engine {
    const sustained: nat
    const recovery: nat
    const quiet: nat
    var rules: map<Kind, Rule>
    var incidents: map<Id, Incident>
    var boot: Option<string>

    function View(): Book
      reads this
    {
      Book(rules, incidents)
    }

    ghost predicate Valid()
      reads this
    {
      OneOpen(View())
    }

    constructor (sustained: nat, recovery: nat, quiet: nat)
      ensures Valid() && View() == Book(map[], map[]) && boot == None
      ensures this.sustained == sustained && this.recovery == recovery && this.quiet == quiet
    {
      this.sustained, this.recovery, this.quiet := sustained, recovery, quiet;
      rules, incidents, boot := map[], map[], None;
    }

    /** The open incident a rule points at. */
    function Current(rule: Rule): Option<Incident>
      reads this
    {
      if rule.incident.Some? && rule.incident.value in incidents && incidents[rule.incident.value].open
      then Some(incidents[rule.incident.value])
      else None
    }

    /** Opens the kind's incident, or updates the open one. */
    method Open(kind: Kind, severity: Severity, cursor: Option<string>, now: int, bootId: string, event: bool)
      requires Valid()
      modifies this`rules, this`incidents
      ensures Valid() && View() == Opened(old(View()), kind, severity, cursor, now, bootId, event)
      ensures OnlyKind(kind, old(View()), View())
    {
      OpenedKeeps(View(), kind, severity, cursor, now, bootId, event);
      var rule := RuleFor(rules, kind);
      if Current(rule) == None {
        if cursor == None && rule.pending == None {
          rule := rule.(pending := Some(now));
        }
        var key := if cursor.Some? then Cursor(cursor.value) else Since(bootId, rule.pending.value);
        rule := rule.(incident := Some(Id(kind, key)));
      }
      var id := rule.incident.value;
      var incident := if id in incidents then incidents[id] else Incident(severity, true, now, now);
      if severity == Critical || incident.severity != Critical {
        incident := incident.(severity := severity);
      }
      incident := incident.(open := true, lastSeen := now);
      if event {
        rule := rule.(event := true, lastEvent := now);
      }
      rules := rules[kind := rule];
      incidents := incidents[id := incident];
    }

    method Resolve(kind: Kind)
      requires Valid()
      modifies this`rules, this`incidents
      ensures Valid() && View() == Resolved(old(View()), kind)
    {
      ResolvedKeeps(View(), kind);
      if kind in rules {
        var rule := rules[kind];
        if Current(rule).Some? {
          var id := rule.incident.value;
          incidents := incidents[id := incidents[id].(open := false)];
        }
        rules := rules[kind := Reset(rule)];
      }
    }

    /** A reading at a level: another sample of the run, which may open or escalate the incident. */
    method Rise(kind: Kind, level: Severity, now: int, bootId: string)
      requires Valid()
      modifies this`rules, this`incidents
      ensures Valid() && View() == Risen(old(View()), kind, level, now, bootId, sustained)
    {
      var rule := RuleFor(rules, kind).(clearStreak := 0);
      if rule.level != Some(level) {
        rule := rule.(level := Some(level), streak := 0);
      }
      rule := rule.(pending := Some(if rule.pending.Some? then rule.pending.value else now), streak := rule.streak + 1);
      WithRuleKeeps(View(), kind, rule);
      rules := rules[kind := rule];
      var incident := Current(rule);
      if rule.streak >= sustained || (incident.Some? && incident.value.severity == level) {
        Open(kind, level, None, now, bootId, false);
      }
    }

    /** A reading at no level: it ends the run, and a clear one may resolve the incident. */
    method Fall(kind: Kind, clear: bool)
      requires Valid()
      modifies this`rules, this`incidents
      ensures Valid() && View() == Sunk(old(View()), kind, clear, recovery)
    {
      var rule := RuleFor(rules, kind).(streak := 0, level := None);
      rule := rule.(clearStreak := if clear then rule.clearStreak + 1 else 0);
      WithRuleKeeps(View(), kind, rule);
      rules := rules[kind := rule];
      if clear && rule.clearStreak >= recovery {
        Resolve(kind);
      }
    }

    /** One reading of a kind. A repeated measurement is ignored. */
    method Threshold(reading: Reading, token: Option<int>, now: int, bootId: string)
      requires Valid()
      modifies this`rules, this`incidents
      ensures Valid() && View() == Read(old(View()), reading, token, now, bootId, sustained, recovery)
    {
      var kind := KindOf(reading);
      var rule := RuleFor(rules, kind);
      var known := token.Some? && rule.token == token;
      if token.Some? {
        rule := rule.(token := token);
      }
      WithRuleKeeps(View(), kind, rule);
      rules := rules[kind := rule];
      if !known {
        var level := LevelOf(reading);
        if level.Some? {
          Rise(kind, level.value, now, bootId);
        } else {
          Fall(kind, IsClear(reading));
        }
      }
    }

    method Forget(kind: Kind)
      requires Valid() && kind in rules
      modifies this`rules, this`incidents
      ensures Valid()
      ensures View() == Book(old(rules)[kind := Forgotten(old(rules)[kind])], Closing(old(View()), old(rules)[kind]))
    {
      Resolve(kind);
      var rule := rules[kind].(token := None);
      WithRuleKeeps(View(), kind, rule);
      rules := rules[kind := rule];
    }

    method ForgetAll()
      requires Valid()
      modifies this`rules, this`incidents
      ensures Valid() && View() == Ended(old(View()), old(rules).Keys, Forgotten)
    {
      ghost var before := View();
      EndedNone(before, Forgotten);
      var left := rules.Keys;
      while left != {}
        invariant Valid() && left <= rules.Keys == before.rules.Keys
        invariant View() == Ended(before, before.rules.Keys - left, Forgotten)
        decreases left
      {
        var kind :| kind in left;
        EndedNext(before, before.rules.Keys - left, kind, Forgotten);
        assert before.rules.Keys - (left - {kind}) == before.rules.Keys - left + {kind};
        Forget(kind);
        left := left - {kind};
      }
      assert before.rules.Keys - {} == before.rules.Keys;
    }

    /** The first snapshot of another boot resolves everything and starts the counts again. */
    method Restart(now: int, bootId: string)
      requires Valid()
      modifies this`rules, this`incidents
      ensures Valid() && View() == Restarted(old(View()), now, bootId)
    {
      ForgetAll();
      Open(HOST_RESTARTED, Warning, None, now, bootId, true);
    }

    /** Takes one reading: a failed service opens its incident at once, everything else is counted. */
    method Take(m: Measured, now: int, bootId: string)
      requires Valid()
      modifies this`rules, this`incidents
      ensures Valid() && View() == Took(old(View()), m, now, bootId, sustained, recovery)
    {
      if m.reading.Unit? && m.reading.state.Failed? {
        Open(KindOf(m.reading), Critical, None, now, bootId, false);
      } else {
        Threshold(m.reading, m.token, now, bootId);
      }
    }

    method TakeAll(readings: seq<Measured>, now: int, bootId: string)
      requires Valid()
      modifies this`rules, this`incidents
      ensures Valid() && View() == TookAll(old(View()), readings, now, bootId, sustained, recovery)
    {
      for i := 0 to |readings|
        invariant Valid() && View() == TookAll(old(View()), readings[..i], now, bootId, sustained, recovery)
      {
        assert readings[..i + 1][..i] == readings[..i];
        Take(readings[i], now, bootId);
      }
      assert readings[..|readings|] == readings;
    }

    method HearAll(events: seq<Event>, now: int, bootId: string)
      requires Valid()
      modifies this`rules, this`incidents
      ensures Valid() && View() == HeardAll(old(View()), events, now, bootId)
    {
      for i := 0 to |events|
        invariant Valid() && View() == HeardAll(old(View()), events[..i], now, bootId)
      {
        assert events[..i + 1][..i] == events[..i];
        Open(events[i].kind, events[i].severity, events[i].cursor, now, bootId, true);
      }
      assert events[..|events|] == events;
    }

    /** Event incidents close after the quiet period, and nothing else changes. */
    method QuietDown(now: int)
      requires Valid()
      modifies this`rules, this`incidents
      ensures Valid() && View() == Quieted(old(View()), now, quiet)
    {
      ghost var before, due := View(), DueKinds(View(), now, quiet);
      EndedNone(before, Reset);
      var left := rules.Keys;
      assert due - left == {};
      while left != {}
        invariant Valid() && left <= rules.Keys == before.rules.Keys
        invariant View() == Ended(before, due - left, Reset)
        decreases left
      {
        var kind :| kind in left;
        if QuietDue(rules[kind], now, quiet) {
          EndedNext(before, due - left, kind, Reset);
          assert due - (left - {kind}) == due - left + {kind};
          Resolve(kind);
        } else {
          assert due - (left - {kind}) == due - left;
        }
        left := left - {kind};
      }
      assert due - {} == due;
    }

    /** One snapshot. */
    method Evaluate(snapshot: Snapshot)
      requires Valid()
      modifies this
      ensures Valid() && boot == Some(snapshot.boot)
      ensures View() == Evaluated(old(View()), old(boot), snapshot, sustained, recovery, quiet)
    {
      if boot.Some? && boot.value != snapshot.boot {
        Restart(snapshot.now, snapshot.boot);
      }
      boot := Some(snapshot.boot);
      TakeAll(snapshot.readings, snapshot.now, snapshot.boot);
      HearAll(snapshot.events, snapshot.now, snapshot.boot);
      QuietDown(snapshot.now);
    }

    /** Files of incidents that are over go; open ones stay. */
    method Prune(drop: set<Id>)
      requires Valid()
      modifies this`incidents
      ensures Valid() && View() == Pruned(old(View()), drop)
    {
      incidents := map id | id in incidents && !(id in drop && !incidents[id].open) :: incidents[id];
    }
  }
}
