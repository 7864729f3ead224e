/** Which events a round reads: the history of a run holds all of them, and each deletion saw all that were read
    before its collection. */
module RetentionHeard {
  import opened Retention
  import opened RetentionProof

  // ---- What is read ----

  /** The events read while one root is admitted. */
  function ReadBy(b: Books, a: Admission, places: map<Id, Place>): seq<Event>
    requires a.key in b.roots
  {
    if Settled(b, a.key, a.signature) then []
    else if Watchable(a.key, places) then a.removal + WalkReads(b, a)
    else a.removal
  }

  /** The events read while the root's trees are walked. */
  function WalkReads(b: Books, a: Admission): seq<Event>
    requires a.key in b.roots
  {
    if a.over then a.early + LastReads(b, a) else a.progress
  }

  /** The events read by a second attempt, if there is one. */
  function LastReads(b: Books, a: Admission): seq<Event>
    requires a.key in b.roots
  {
    if b.roots[a.key].hdd && VictimsOf(b, a) != {} then a.progress else []
  }

  function ReadByAll(b: Books, admissions: seq<Admission>, places: map<Id, Place>, rows: map<Id, Row>): seq<Heard>
    requires places.Keys <= b.roots.Keys
  {
    if admissions == [] then []
    else
      var front, a := admissions[..|admissions| - 1], admissions[|admissions| - 1];
      ReadByAll(b, front, places, rows)
      + if a.key in b.roots then HeardOf(ReadBy(AdmittedAll(b, front, places, rows), a, places), places, a.at) else []
  }

  /** The events a round reads before its collection. */
  function ReadIn(b: Books, round: Round): seq<Heard> {
    var places := map r | r in round.places && r in b.roots :: round.places[r];
    ReadByAll(b, round.admissions, places, b.roots) + HeardOf(round.events, places, round.at)
  }

  // ---- The history holds what is read ----

  /** Nothing but the history of events has grown, and no file has been deleted. */
  ghost predicate Reads(b: Books, c: Books, more: seq<Heard>) {
    c.heard == b.heard + more && c.deletions == b.deletions && SameKinds(b, c)
  }

  ghost predicate SameKinds(b: Books, c: Books) {
    c.roots.Keys == b.roots.Keys && forall r :: r in b.roots ==> c.roots[r].hdd == b.roots[r].hdd
  }

  lemma ConsumedReads(b: Books, now: int, events: seq<Event>, places: map<Id, Place>, deferring: bool)
    requires places.Keys <= b.roots.Keys
    ensures Reads(b, Consumed(b, now, events, places, deferring), HeardOf(events, places, now))
    ensures Reads(b, Progressed(b, now, events, places), HeardOf(events, places, now))
  {
    ConsumedLater(b, now, events, places);
    ConsumedNow(b, now, events, places);
  }

  lemma ReadsTrans(b: Books, c: Books, d: Books, more: seq<Heard>, rest: seq<Heard>)
    requires Reads(b, c, more) && Reads(c, d, rest)
    ensures Reads(b, d, more + rest)
  {
    assert b.heard + more + rest == b.heard + (more + rest);
  }

  lemma HeardOfBoth(p: seq<Event>, q: seq<Event>, places: map<Id, Place>, now: int)
    ensures HeardOf(p + q, places, now) == HeardOf(p, places, now) + HeardOf(q, places, now)
  {
  }

  lemma ReadsBoth(b: Books, c: Books, d: Books, p: seq<Event>, q: seq<Event>, places: map<Id, Place>, now: int)
    requires Reads(b, c, HeardOf(p, places, now)) && Reads(c, d, HeardOf(q, places, now))
    ensures Reads(b, d, HeardOf(p + q, places, now))
  {
    HeardOfBoth(p, q, places, now);
    ReadsTrans(b, c, d, HeardOf(p, places, now), HeardOf(q, places, now));
  }

  lemma SameVictims(b: Books, c: Books, a: Admission)
    requires SameKinds(b, c) && a.key in b.roots
    ensures VictimsOf(c, a) == VictimsOf(b, a) && LastReads(c, a) == LastReads(b, a) && WalkReads(c, a) == WalkReads(b, a)
  {
  }

  lemma WalkedReads(b: Books, a: Admission, places: map<Id, Place>)
    requires a.key in b.roots && places.Keys <= b.roots.Keys
    ensures Reads(b, Walked(b, a, places), HeardOf(a.progress, places, a.at))
  {
    ConsumedReads(b, a.at, a.progress, places, true);
  }

  lemma YieldedReads(b: Books, victims: set<Id>, key: Id, rows: map<Id, Row>, now: int)
    ensures Reads(b, Yielded(b, victims, key, rows, now), [])
  {
  }

  lemma WithLessReads(b: Books, a: Admission, places: map<Id, Place>, rows: map<Id, Row>)
    requires a.key in b.roots && places.Keys <= b.roots.Keys
    ensures Reads(b, WatchedWithLess(b, a, places, rows), HeardOf(LastReads(b, a), places, a.at))
  {
    if b.roots[a.key].hdd && VictimsOf(b, a) != {} {
      var y := Yielded(b, VictimsOf(b, a), a.key, rows, a.at);
      YieldedReads(b, VictimsOf(b, a), a.key, rows, a.at);
      WalkedReads(y, a, places);
      ReadsTrans(b, y, Walked(y, a, places), [], HeardOf(a.progress, places, a.at));
    }
  }

  lemma RewatchedReads(b: Books, a: Admission, places: map<Id, Place>, rows: map<Id, Row>)
    requires a.key in b.roots && places.Keys <= b.roots.Keys
    ensures Reads(b, Rewatched(b, a, places, rows), HeardOf(WalkReads(b, a), places, a.at))
  {
    if !a.over {
      WalkedReads(b, a, places);
    } else {
      var e := Progressed(b, a.at, a.early, places);
      ConsumedReads(b, a.at, a.early, places, true);
      SameVictims(b, e, a);
      WithLessReads(e, a, places, rows);
      ReadsBoth(b, e, WatchedWithLess(e, a, places, rows), a.early, LastReads(b, a), places, a.at);
    }
  }

  lemma RemovedReads(b: Books, a: Admission, places: map<Id, Place>)
    requires a.key in b.roots && places.Keys <= b.roots.Keys
    ensures Reads(b, Removed(b, a, places), HeardOf(a.removal, places, a.at))
  {
    ConsumedReads(b.(rebuild := b.rebuild - {a.key}), a.at, a.removal, places, true);
  }

  /** An admission reads exactly these events. */
  lemma AdmittedReads(b: Books, a: Admission, places: map<Id, Place>, rows: map<Id, Row>)
    requires a.key in b.roots && places.Keys <= b.roots.Keys
    ensures Reads(b, Admitted(b, a, places, rows), HeardOf(ReadBy(b, a, places), places, a.at))
  {
    if !Settled(b, a.key, a.signature) {
      var p := Removed(b, a, places);
      RemovedReads(b, a, places);
      if Watchable(a.key, places) {
        SameVictims(b, p, a);
        RewatchedReads(p, a, places, rows);
        ReadsBoth(b, p, Rewatched(p, a, places, rows), a.removal, WalkReads(b, a), places, a.at);
      }
    }
  }

  lemma {:induction false} AdmittedAllReads(b: Books, admissions: seq<Admission>, places: map<Id, Place>, rows: map<Id, Row>)
    requires places.Keys <= b.roots.Keys
    ensures Reads(b, AdmittedAll(b, admissions, places, rows), ReadByAll(b, admissions, places, rows))
    decreases |admissions|
  {
    if admissions != [] {
      var front, a := admissions[..|admissions| - 1], admissions[|admissions| - 1];
      AdmittedAllReads(b, front, places, rows);
      if a.key in b.roots {
        var before := AdmittedAll(b, front, places, rows);
        AdmittedReads(before, a, places, rows);
        ReadsTrans(b, before, Admitted(before, a, places, rows), ReadByAll(b, front, places, rows),
                   HeardOf(ReadBy(before, a, places), places, a.at));
      }
    }
  }

  lemma DrainedReads(b: Books, round: Round, places: map<Id, Place>)
    requires places.Keys <= b.roots.Keys
    ensures Reads(b, Drained(b, round, places),
                  ReadByAll(b, round.admissions, places, b.roots) + HeardOf(round.events, places, round.at))
  {
    var before := AdmittedAll(b, round.admissions, places, b.roots);
    AdmittedAllReads(b, round.admissions, places, b.roots);
    ConsumedReads(before, round.at, round.events, places, false);
    ReadsTrans(b, before, Consumed(before, round.at, round.events, places, false),
               ReadByAll(b, round.admissions, places, b.roots), HeardOf(round.events, places, round.at));
  }

  // ---- Deletions see what was read ----

  /** The history of events and deletions has grown, and new deletions saw all that had been read. */
  ghost predicate Grows(b: Books, c: Books) {
    && b.heard <= c.heard && b.deletions <= c.deletions
    && forall i :: |b.deletions| <= i < |c.deletions| ==> |b.heard| <= c.deletions[i].seen
  }

  lemma GrowsTrans(b: Books, c: Books, d: Books)
    requires Grows(b, c) && Grows(c, d)
    ensures Grows(b, d)
  {
    forall i | |b.deletions| <= i < |d.deletions| ensures |b.heard| <= d.deletions[i].seen {
      if i < |c.deletions| {
        assert d.deletions[i] == c.deletions[i];
      }
    }
  }

  lemma TryGrows(b: Books, f: Found, now: int, revisit: Revisit, places: map<Id, Place>, window: int)
    requires places.Keys <= b.roots.Keys && f.root in b.roots
    ensures Grows(b, Try(b, f, now, revisit, places, window).books)
  {
    ConsumedReads(b, revisit.at, revisit.events, places, false);
  }

  lemma NextGrows(b: Books, t: Tried, f: Found, now: int, revisit: Revisit, places: map<Id, Place>, window: int)
    requires Grows(b, t.books) && places.Keys <= t.books.roots.Keys && f.root in t.books.roots
    ensures Grows(b, Next(t, f, now, revisit, places, window).books)
  {
    if t.on {
      TryGrows(t.books, f, now, revisit, places, window);
      GrowsTrans(b, t.books, Try(t.books, f, now, revisit, places, window).books);
    }
  }

  lemma {:induction false} TryAllGrows(b: Books, files: seq<Found>, now: int, revisits: nat -> Revisit,
                                       places: map<Id, Place>, window: int, n: nat)
    requires n <= |files| && places.Keys <= b.roots.Keys && forall f :: f in files ==> f.root in b.roots
    ensures Grows(b, TryAll(b, files, now, revisits, places, window, n).books)
    decreases n
  {
    if n > 0 {
      var t, f := TryAll(b, files, now, revisits, places, window, n - 1), files[n - 1];
      TryAllGrows(b, files, now, revisits, places, window, n - 1);
      assert f in files;
      NextGrows(b, t, f, now, revisits(n - 1), places, window);
    }
  }

  lemma CollectedGrows(b: Books, g: Collection, places: map<Id, Place>, window: int)
    requires places.Keys <= b.roots.Keys
    ensures Grows(b, Collected(b, g, places, window))
  {
    if !Stale(b, g.now) && !g.brokerFails {
      CandidatesLook(b, g, window);
      var files := CandidatesOf(b, g, window);
      TryAllGrows(b.(collected := g.now), files, g.now, g.revisits, places, window, |files|);
    }
  }

  /** A round adds what it reads to the history, and each of its deletions saw all of that. */
  lemma RoundedReads(b: Books, round: Round, window: int) returns (drained: Books)
    ensures Reads(b, drained, ReadIn(b, round)) && Grows(drained, Rounded(b, round, window))
  {
    var places := KnownPlaces(round.places, b);
    drained := Drained(b, round, places);
    DrainedReads(b, round, places);
    match round.collection
    case None =>
    case Some(g) => CollectedGrows(drained, g, places, window);
  }
}
