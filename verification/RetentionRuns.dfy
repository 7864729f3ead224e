/** Whole runs of the watcher and collector: every deletion of every run is justified by all the events read
    before it, and exactly when a period outlives the watches it rests on. */
module RetentionRuns {
  import opened Basics
  import opened Retention
  import opened RetentionWatch
  import opened RetentionProof
  import opened RetentionHeard

  // ---- What single steps promise ----

  /** Taking in a queue: exactly the roots some event breaks lose their evidence, and those some event reopens
      are to be walked again. */
  ghost predicate Absorbed(queue: seq<Event>, places: map<Id, Place>, b: Books, c: Books) {
    && c.roots.Keys == b.roots.Keys
    && (forall r :: r in b.roots ==>
          c.roots[r] == if (exists e :: e in queue && r in Broken(e, places, b.roots.Keys)) then b.roots[r].Reset() else b.roots[r])
    && (forall r :: r in c.rebuild <==> r in b.rebuild || exists e :: e in queue && r in Reopened(e, places))
  }

  /** The rows once some roots have lost their evidence. */
  function ResetIn(roots: map<Id, Row>, gone: set<Id>): map<Id, Row> {
    map r | r in roots :: if r in gone then roots[r].Reset() else roots[r]
  }

  lemma BranchedAbsorbs(b: Books, e: Event, places: map<Id, Place>, now: int)
    requires e.root in places && e.root in b.roots && e.path.Some? && Topology(e.mask) && Overflow !in e.mask
    ensures var c := Branched(b, e, places[e.root], now);
      c.roots == ResetIn(b.roots, Broken(e, places, b.roots.Keys)) && c.rebuild == b.rebuild + Reopened(e, places)
  {
    var place, c := places[e.root], Branched(b, e, places[e.root], now);
    if Breaks(e, place) {
      assert c.roots == b.roots[e.root := b.roots[e.root].Reset()] == ResetIn(b.roots, {e.root});
    } else {
      assert c.roots == b.roots == ResetIn(b.roots, {});
    }
  }

  lemma HandledAbsorbs(b: Books, e: Event, places: map<Id, Place>, now: int)
    requires places.Keys <= b.roots.Keys
    ensures var c := Handled(b, e, places, now);
      c.roots == ResetIn(b.roots, Broken(e, places, b.roots.Keys)) && c.rebuild == b.rebuild + Reopened(e, places)
  {
    if Overflow !in e.mask && e.root in places && Topology(e.mask) && e.path.Some? {
      BranchedAbsorbs(b, e, places, now);
    } else {
      assert Overflow !in e.mask ==> b.roots == ResetIn(b.roots, {});
    }
  }

  lemma {:induction false} QueueAbsorbs(b: Books, queue: seq<Event>, places: map<Id, Place>, now: int)
    requires places.Keys <= b.roots.Keys
    ensures Absorbed(queue, places, b, HandledAll(b, queue, places, now))
    decreases |queue|
  {
    if queue != [] {
      var front, e := queue[..|queue| - 1], queue[|queue| - 1];
      var mid, c := HandledAll(b, front, places, now), HandledAll(b, queue, places, now);
      QueueAbsorbs(b, front, places, now);
      HandledAbsorbs(mid, e, places, now);
      assert c == Handled(mid, e, places, now);
      AbsorbNext(front, e, places, b, mid, c);
      assert front + [e] == queue;
    }
  }

  lemma AbsorbNext(front: seq<Event>, e: Event, places: map<Id, Place>, b: Books, mid: Books, c: Books)
    requires Absorbed(front, places, b, mid)
    requires c.roots == ResetIn(mid.roots, Broken(e, places, mid.roots.Keys))
    requires c.rebuild == mid.rebuild + Reopened(e, places)
    ensures Absorbed(front + [e], places, b, c)
  {
    var queue := front + [e];
    forall r | r in b.roots
      ensures c.roots[r] == if (exists f :: f in queue && r in Broken(f, places, b.roots.Keys)) then b.roots[r].Reset() else b.roots[r]
    {
      if r in Broken(e, places, b.roots.Keys) {
        assert e in queue;
      } else if exists f :: f in front && r in Broken(f, places, b.roots.Keys) {
        var f :| f in front && r in Broken(f, places, b.roots.Keys);
        assert f in queue;
      }
    }
    forall r ensures r in c.rebuild <==> r in b.rebuild || exists f :: f in queue && r in Reopened(f, places) {
      if r in Reopened(e, places) {
        assert e in queue;
      } else if exists f :: f in front && r in Reopened(f, places) {
        var f :| f in front && r in Reopened(f, places);
        assert f in queue;
      }
    }
  }

  /** Draining the queue outside a walk: what waited and what is new has been read, recorded and absorbed. */
  lemma DrainAbsorbs(b: Books, now: int, events: seq<Event>, places: map<Id, Place>)
    requires places.Keys <= b.roots.Keys
    ensures var c := Consumed(b, now, events, places, false);
      && c.deferred == [] && c.heard == b.heard + HeardOf(events, places, now)
      && QueueRecorded(b.deferred + events, places, {}, c.activity, now)
      && Absorbed(b.deferred + events, places, b, c)
  {
    ConsumedNow(b, now, events, places);
    QueueAbsorbs(b.(heard := b.heard + HeardOf(events, places, now), deferred := []), b.deferred + events, places, now);
  }

  /** Outside a walk an event is on record at once: one that touches a file below its root, and one that makes a
      directory appear there. */
  lemma TouchRecorded(b: Books, now: int, events: seq<Event>, places: map<Id, Place>, e: Event, rel: Path)
    requires places.Keys <= b.roots.Keys && e in b.deferred + events
    requires Overflow !in e.mask && e.root in places && e.path == Some(places[e.root].base + rel)
    requires if IsDir in e.mask then Create in e.mask || MovedTo in e.mask
             else Access in e.mask || Open in e.mask || Modify in e.mask || Attrib in e.mask || Create in e.mask || MovedTo in e.mask
    ensures var c := Consumed(b, now, events, places, false); (e.root, rel) in c.activity && c.activity[(e.root, rel)] == now
  {
    ConsumedNow(b, now, events, places);
    assert e.path.value[|places[e.root].base|..] == rel;
    assert EventRecorded(e, places, {}, Consumed(b, now, events, places, false).activity, now);
  }

  /** Events were lost: whether told by the kernel or by a queue of 65536 changes of the tree that still waits, every
      root loses its evidence. */
  lemma LossForgets(b: Books, e: Event, places: map<Id, Place>, now: int)
    requires places.Keys <= b.roots.Keys
    ensures Overflow in e.mask ==>
      forall r :: r in b.roots ==> !Handled(b, e, places, now).roots[r].coverage && !PutOff(b, e, places, now).roots[r].coverage
    ensures |b.deferred| >= 65536 && e.root in places && (DeleteSelf in e.mask || (IsDir in e.mask && Create in e.mask)) ==>
      forall r :: r in b.roots ==> !PutOff(b, e, places, now).roots[r].coverage
  {
  }

  /** A new watcher process has no evidence of any root, and nothing of what it heard before counts; a root that is
      adopted or moved has none either. */
  lemma BeginsUncovered(b: Books, now: int, root: Id, hdd: bool)
    ensures forall r :: r in b.roots ==> !Restarted(b, now).roots[r].coverage && Restarted(b, now).roots[r].since == 0
    ensures Restarted(b, now).signatures == map[] && Restarted(b, now).deferred == []
    ensures !Registered(b, root, hdd).roots[root].coverage && Registered(b, root, hdd).roots[root].since == 0
    ensures Registered(b, root, hdd).roots[root].hdd == hdd
    ensures forall r :: r in b.roots && r != root ==> Registered(b, root, hdd).roots[r] == b.roots[r]
  {
  }

  /** A file is deleted exactly when nobody held it, it and its proof are unchanged, and it is still quiet after
      everything that waited or was drained at the barrier has been taken into account. */
  lemma DeletedExactly(b: Books, f: Found, now: int, revisit: Revisit, places: map<Id, Place>, window: int)
    requires places.Keys <= b.roots.Keys && f.root in b.roots && b.roots[f.root].since >= 0
    ensures var t, c := Try(b, f, now, revisit, places, window), Consumed(b, revisit.at, revisit.events, places, false);
      && (t.books.deletions == b.deletions || |t.books.deletions| == |b.deletions| + 1)
      && (|t.books.deletions| == |b.deletions| + 1 <==>
            !revisit.blocked && revisit.proofSame && revisit.identity == Some(f.identity)
            && LongQuiet(c.activity, c.roots[f.root], f.root, f.rel, f.mtime, now, window))
      && (t.books.deletions != b.deletions ==>
            var d := t.books.deletions[|b.deletions|];
            t.books.deletions == b.deletions + [d] && d.root == f.root && d.rel == f.rel && d.now == now && d.seen == |c.heard|)
  {
    var c := Consumed(b, revisit.at, revisit.events, places, false);
    ConsumedNow(b, revisit.at, revisit.events, places);
    assert c.roots[f.root] == b.roots[f.root] || c.roots[f.root] == b.roots[f.root].Reset();
    QuietExactly(c.activity, c.roots[f.root], f.root, f.rel, f.mtime, now, window);
  }

  // ---- Candidates ----

  /** A listed file that is verified, lies on the archive and has been quiet for the retention period. */
  ghost predicate Eligible(b: Books, f: Found, now: int, window: int) {
    && f.verified && f.root in b.roots && b.roots[f.root].hdd
    && LongQuiet(b.activity, b.roots[f.root], f.root, f.rel, f.mtime, now, window)
  }

  /** Periods do not begin before the clock. */
  ghost predicate Dated(b: Books) {
    forall r :: r in b.roots ==> b.roots[r].since >= 0
  }

  lemma LooksExactly(b: Books, f: Found, now: int, window: int)
    requires Dated(b)
    ensures Looks(b, f, now, window) <==> Eligible(b, f, now, window)
  {
    if f.root in b.roots {
      QuietExactly(b.activity, b.roots[f.root], f.root, f.rel, f.mtime, now, window);
    }
  }

  /** The files of a listing that are eligible, in order. */
  ghost function EligibleOf(b: Books, listing: seq<Found>, now: int, window: int): seq<Found> {
    if listing == [] then []
    else if Eligible(b, listing[0], now, window) then [listing[0]] + EligibleOf(b, listing[1..], now, window)
    else EligibleOf(b, listing[1..], now, window)
  }

  function TotalSize(files: seq<Found>): nat {
    if files == [] then 0 else files[0].size + TotalSize(files[1..])
  }

  /** The picked files are all eligible ones of the first `n` listed, and at `n` the listing ends or a limit is
      met: so many files have been looked at, or the next eligible one would exceed the bytes. */
  ghost predicate PrefixOf(b: Books, g: Collection, k: nat, n: nat, picked: seq<Found>, bytes: nat, window: int)
    requires k <= |g.listing|
  {
    && k <= n <= |g.listing|
    && picked == EligibleOf(b, g.listing[k..n], g.now, window)
    && (picked != [] ==> bytes + TotalSize(picked) <= g.maxBytes) && (n > k ==> n <= g.maxFiles)
    && (n < |g.listing| ==>
          n >= g.maxFiles
          || (Eligible(b, g.listing[n], g.now, window) && bytes + TotalSize(picked) + g.listing[n].size > g.maxBytes))
  }

  lemma {:induction false} PickedPrefix(b: Books, g: Collection, k: nat, bytes: nat, window: int) returns (n: nat)
    requires k <= |g.listing| && Dated(b)
    ensures PrefixOf(b, g, k, n, PickedFrom(b, g, k, bytes, window), bytes, window)
    decreases |g.listing| - k
  {
    n := k;
    if k < |g.listing| && k + 1 <= g.maxFiles {
      var f := g.listing[k];
      LooksExactly(b, f, g.now, window);
      if !Looks(b, f, g.now, window) {
        n := PickedPrefix(b, g, k + 1, bytes, window);
        assert g.listing[k..n] == [f] + g.listing[k + 1..n];
      } else if bytes + f.size <= g.maxBytes {
        n := PickedPrefix(b, g, k + 1, bytes + f.size, window);
        var rest := PickedFrom(b, g, k + 1, bytes + f.size, window);
        assert g.listing[k..n] == [f] + g.listing[k + 1..n];
        assert ([f] + rest)[1..] == rest;
      }
    }
  }

  /** What one collection looks at again is the eligible prefix of the listing up to the first limit on files
      looked at or bytes, and of that at most a batch. */
  lemma CandidatesPrefix(b: Books, g: Collection, window: int) returns (n: nat, picked: seq<Found>)
    requires Dated(b)
    ensures PrefixOf(b, g, 0, n, picked, 0, window)
    ensures CandidatesOf(b, g, window) == if |picked| > 1000 then picked[..1000] else picked
  {
    picked := PickedFrom(b, g, 0, 0, window);
    n := PickedPrefix(b, g, 0, 0, window);
  }

  // ---- What a collection deletes ----

  /** Every new deletion is of a listed file that was verified and lies on the archive. */
  ghost predicate DeletesListed(b: Books, c: Books, files: seq<Found>) {
    && b.deletions <= c.deletions
    && forall i :: |b.deletions| <= i < |c.deletions| ==> ListedIn(files, c.deletions[i])
  }

  ghost predicate ListedIn(files: seq<Found>, d: Deletion) {
    exists f :: f in files && f.root == d.root && f.rel == d.rel
  }

  lemma {:induction false} TryAllListed(b: Books, files: seq<Found>, now: int, revisits: nat -> Revisit, places: map<Id, Place>,
                                        window: int, n: nat)
    requires n <= |files| && places.Keys <= b.roots.Keys && forall f :: f in files ==> f.root in b.roots
    ensures DeletesListed(b, TryAll(b, files, now, revisits, places, window, n).books, files)
    decreases n
  {
    if n > 0 {
      var t, f := TryAll(b, files, now, revisits, places, window, n - 1), files[n - 1];
      TryAllListed(b, files, now, revisits, places, window, n - 1);
      assert f in files;
      NextListed(b, t, f, files, now, revisits(n - 1), places, window);
    }
  }

  lemma NextListed(b: Books, t: Tried, f: Found, files: seq<Found>, now: int, revisit: Revisit, places: map<Id, Place>, window: int)
    requires DeletesListed(b, t.books, files) && places.Keys <= t.books.roots.Keys && f.root in t.books.roots && f in files
    ensures DeletesListed(b, Next(t, f, now, revisit, places, window).books, files)
  {
    if t.on {
      ConsumedReads(t.books, revisit.at, revisit.events, places, false);
    }
  }

  /** The deletion is of a file that was listed and verified, of an archived root. */
  ghost predicate OfListed(b: Books, g: Collection, d: Deletion) {
    exists f :: f in g.listing && f.root == d.root && f.rel == d.rel && f.verified && f.root in b.roots && b.roots[f.root].hdd
  }

  /** The candidates a collection goes through are all listed, verified and on the archive. */
  lemma CandidatesListed(b: Books, g: Collection, window: int, d: Deletion)
    requires ListedIn(CandidatesOf(b, g, window), d)
    ensures OfListed(b, g, d)
  {
    CandidatesLook(b, g, window);
  }

  /** A collection deletes only files it has listed, verified and on the archive; and nothing at all when the
      watcher has not been heard of for a minute, or the broker fails. */
  lemma CollectedListed(b: Books, g: Collection, places: map<Id, Place>, window: int)
    requires places.Keys <= b.roots.Keys
    ensures var c := Collected(b, g, places, window);
      && b.deletions <= c.deletions
      && (forall i :: |b.deletions| <= i < |c.deletions| ==> OfListed(b, g, c.deletions[i]))
      && (b.heartbeat == 0 || g.now - b.heartbeat > 60 ==> c == b)
      && (g.brokerFails ==> c.deletions == b.deletions)
  {
    if !Stale(b, g.now) && !g.brokerFails {
      var files, begun, c := CandidatesOf(b, g, window), b.(collected := g.now), Collected(b, g, places, window);
      CandidatesLook(b, g, window);
      TryAllListed(begun, files, g.now, g.revisits, places, window, |files|);
      assert c == TryAll(begun, files, g.now, g.revisits, places, window, |files|).books;
      forall i | |b.deletions| <= i < |c.deletions| ensures OfListed(b, g, c.deletions[i]) {
        assert DeletesListed(begun, c, files) && |begun.deletions| <= i;
        CandidatesListed(b, g, window, c.deletions[i]);
      }
    }
  }

  // ---- Rounds ----

  /** The times of a round do not run back from the clock. */
  ghost predicate RoundInTime(round: Round, clock: int) {
    && InTime(round.admissions, clock, round.at)
    && (round.collection.Some? ==> round.at <= round.collection.value.now && Barriers(round.collection.value))
  }

  function RoundEnd(round: Round): int {
    if round.collection.Some? then EndOf(round.collection.value) else round.at
  }

  /** The books between rounds: everything that was read has been taken into account. */
  ghost predicate AtRest(b: Books, clock: int, window: int) {
    Fits(b, map[], clock, window) && b.deferred == []
  }

  lemma DrainedFits(b: Books, round: Round, places: map<Id, Place>, clock: int, window: int)
    requires Clear(b, places, clock, window) && InTime(round.admissions, clock, round.at)
    ensures Clear(Drained(b, round, places), places, round.at, window)
  {
    var admitted := AdmittedAll(b, round.admissions, places, b.roots);
    AdmittedAllFits(b, round.admissions, places, b.roots, clock, round.at, window);
    ConsumedFits(admitted, round.at, round.events, places, false, LastAt(round.admissions, clock), window);
    SameFits(Consumed(admitted, round.at, round.events, places, false), Drained(b, round, places), places, round.at, window);
  }

  lemma RoundedFits(b: Books, round: Round, clock: int, window: int)
    requires AtRest(b, clock, window) && RoundInTime(round, clock)
    ensures AtRest(Rounded(b, round, window), RoundEnd(round), window)
  {
    var places := KnownPlaces(round.places, b);
    PlacesFits(b, map[], places, clock, window);
    DrainedFits(b, round, places, clock, window);
    if round.collection.Some? {
      CollectedFits(Drained(b, round, places), round.collection.value, places, round.at, window);
    }
    PlacesFits(Rounded(b, round, window), places, map[], RoundEnd(round), window);
  }

  // ---- Runs ----

  /** A restart of the watcher, the adoption or move of a root, or a round. */
  datatype Step = Restarting(at: int) | Registering(root: Id, hdd: bool) | Going(round: Round)

  ghost predicate Forward(step: Step, clock: int) {
    match step
    case Restarting(at) => clock <= at
    case Registering(_, _) => true
    case Going(round) => RoundInTime(round, clock)
  }

  function ClockAfter(step: Step, clock: int): int {
    match step
    case Restarting(at) => at
    case Registering(_, _) => clock
    case Going(round) => RoundEnd(round)
  }

  function Stepped(b: Books, step: Step, window: int): Books {
    match step
    case Restarting(at) => Restarted(b, at)
    case Registering(root, hdd) => Registered(b, root, hdd)
    case Going(round) => Rounded(b, round, window)
  }

  lemma RestartedFits(b: Books, clock: int, at: int, window: int)
    requires AtRest(b, clock, window) && clock <= at
    ensures AtRest(Restarted(b, at), at, window)
  {
    var c := Cleared(b, at);
    ClockFits(b, map[], clock, at, window);
    ClearedFades(b, at);
    FadesRest(b, c, at, window);
    LaterAccounted(b, c, map[], at, window);
    SameFits(c, Restarted(b, at), map[], at, window);
  }

  lemma RegisteredFits(b: Books, root: Id, hdd: bool, clock: int, window: int)
    requires AtRest(b, clock, window)
    ensures AtRest(Registered(b, root, hdd), clock, window)
  {
    var c := Registered(b, root, hdd);
    LaterAccounted(b, c, map[], clock, window);
    assert Past(c, clock) && RowsFit(c, clock) && Continuous(c);
  }

  lemma SteppedFits(b: Books, step: Step, clock: int, window: int)
    requires AtRest(b, clock, window) && Forward(step, clock)
    ensures AtRest(Stepped(b, step, window), ClockAfter(step, clock), window)
  {
    match step
    case Restarting(at) => RestartedFits(b, clock, at, window);
    case Registering(root, hdd) => RegisteredFits(b, root, hdd, clock, window);
    case Going(round) => RoundedFits(b, round, clock, window);
  }

  method Take(w: Watcher, step: Step)
    modifies w
    ensures w.View() == Stepped(old(w.View()), step, w.window)
  {
    match step {
      case Restarting(at) => w.Restart(at);
      case Registering(root, hdd) => w.Register(root, hdd);
      case Going(round) => w.Go(round);
    }
  }

  /** The books, and the clock, after a run of a new watcher. */
  function RunOf(steps: seq<Step>, window: int): Books {
    if steps == [] then NoBooks else Stepped(RunOf(steps[..|steps| - 1], window), steps[|steps| - 1], window)
  }

  function ClockOf(steps: seq<Step>, start: int): int {
    if steps == [] then start else ClockAfter(steps[|steps| - 1], ClockOf(steps[..|steps| - 1], start))
  }

  ghost predicate Timely(steps: seq<Step>, start: int) {
    steps != [] ==> Timely(steps[..|steps| - 1], start) && Forward(steps[|steps| - 1], ClockOf(steps[..|steps| - 1], start))
  }

  lemma {:induction false} RunFits(steps: seq<Step>, start: int, window: int)
    requires 0 < window && 0 < start && Timely(steps, start)
    ensures AtRest(RunOf(steps, window), ClockOf(steps, start), window)
    decreases |steps|
  {
    if steps != [] {
      var front := steps[..|steps| - 1];
      RunFits(front, start, window);
      SteppedFits(RunOf(front, window), steps[|steps| - 1], ClockOf(front, start), window);
    }
  }

  // ---- What the steps' own events forbid ----

  lemma SteppedGrows(b: Books, step: Step, window: int)
    ensures Grows(b, Stepped(b, step, window))
  {
    if step.Going? {
      var drained := RoundedReads(b, step.round, window);
      GrowsTrans(b, drained, Rounded(b, step.round, window));
    }
  }

  lemma {:induction false} RunGrows(steps: seq<Step>, n: nat, window: int)
    requires n <= |steps|
    ensures Grows(RunOf(steps[..n], window), RunOf(steps, window))
    decreases |steps|
  {
    if n == |steps| {
      assert steps[..n] == steps;
    } else {
      var front := steps[..|steps| - 1];
      assert front[..n] == steps[..n];
      RunGrows(front, n, window);
      SteppedGrows(RunOf(front, window), steps[|steps| - 1], window);
      GrowsTrans(RunOf(steps[..n], window), RunOf(front, window), RunOf(steps, window));
    }
  }

  /** The deletion came no sooner than the retention period after any of these events that bears on the file. */
  ghost predicate Respects(d: Deletion, heard: seq<Heard>, window: int) {
    forall h, rel :: h in heard && (d.root, rel) in Notes(h.event, h.places) && rel <= d.rel ==> h.time + window <= d.now
  }

  /** Every deletion from step `i` of the run on respects the events that step reads, if it is a round. */
  ghost predicate StepRespected(steps: seq<Step>, i: nat, window: int)
    requires i < |steps|
  {
    var before, end := RunOf(steps[..i], window), RunOf(steps, window);
    && before.deletions <= end.deletions
    && (steps[i].Going? ==>
          forall k :: |before.deletions| <= k < |end.deletions| ==>
            Respects(end.deletions[k], ReadIn(before, steps[i].round), window))
  }

  /** What a round gives to read it reads: the events it drains, with the places its roots are known to have. */
  lemma GivenIsRead(b: Books, round: Round, e: Event)
    requires e in round.events
    ensures Heard(e, map r | r in round.places && r in b.roots :: round.places[r], round.at) in ReadIn(b, round)
  {
    var places := map r | r in round.places && r in b.roots :: round.places[r];
    var i :| 0 <= i < |round.events| && round.events[i] == e;
    assert HeardOf(round.events, places, round.at)[i] == Heard(e, places, round.at);
  }

  /** In particular no later deletion is of a file that one of the round's events bears on, within the retention
      period of the round. */
  ghost predicate EventsRespected(steps: seq<Step>, i: nat, window: int)
    requires i < |steps|
  {
    var before, end := RunOf(steps[..i], window), RunOf(steps, window);
    steps[i].Going? ==>
      forall e, k :: e in steps[i].round.events && |before.deletions| <= k < |end.deletions| ==>
        EventRespected(e, steps[i].round, before.roots.Keys, end.deletions[k], window)
  }

  ghost predicate EventRespected(e: Event, round: Round, roots: set<Id>, d: Deletion, window: int) {
    && Overflow !in e.mask && e.root == d.root && d.root in round.places && d.root in roots && e.path.Some?
    && round.places[d.root].base <= e.path.value <= round.places[d.root].base + d.rel
    && (if IsDir in e.mask then Create in e.mask || MovedTo in e.mask
        else Access in e.mask || Open in e.mask || Modify in e.mask || Attrib in e.mask || Create in e.mask || MovedTo in e.mask)
    ==> round.at + window <= d.now
  }

  lemma PrefixTail(base: Path, rel: Path, rest: Path)
    requires base + rel <= base + rest
    ensures rel <= rest
  {
    assert (base + rel)[|base|..] == rel && (base + rest)[|base|..] == rest;
    assert forall k :: 0 <= k < |rel| ==> rel[k] == (base + rel)[|base| + k] == (base + rest)[|base| + k] == rest[k];
  }

  lemma EventBears(e: Event, round: Round, roots: set<Id>, d: Deletion, heard: seq<Heard>, window: int)
    requires Heard(e, map r | r in round.places && r in roots :: round.places[r], round.at) in heard && Respects(d, heard, window)
    ensures EventRespected(e, round, roots, d, window)
  {
    var h := Heard(e, map r | r in round.places && r in roots :: round.places[r], round.at);
    if e.root == d.root && d.root in h.places && e.path.Some?
       && round.places[d.root].base <= e.path.value <= round.places[d.root].base + d.rel {
      var base := round.places[d.root].base;
      var rel := e.path.value[|base|..];
      assert e.path.value == base + rel;
      PrefixTail(base, rel, d.rel);
      if (d.root, rel) in Notes(h.event, h.places) {
        assert h.time + window <= d.now;
      }
    }
  }

  lemma StepEvents(steps: seq<Step>, i: nat, window: int)
    requires i < |steps| && StepRespected(steps, i, window)
    ensures EventsRespected(steps, i, window)
  {
    var before, end := RunOf(steps[..i], window), RunOf(steps, window);
    if steps[i].Going? {
      var round := steps[i].round;
      forall e, k | e in round.events && |before.deletions| <= k < |end.deletions|
        ensures EventRespected(e, round, before.roots.Keys, end.deletions[k], window)
      {
        GivenIsRead(before, round, e);
        EventBears(e, round, before.roots.Keys, end.deletions[k], ReadIn(before, round), window);
      }
    }
  }

  lemma SeenRespected(d: Deletion, was: seq<Heard>, more: seq<Heard>, heard: seq<Heard>, window: int)
    requires Justified(d, heard, window) && was + more <= heard && |was + more| <= d.seen
    ensures Respects(d, more, window)
  {
    forall h, rel | h in more && (d.root, rel) in Notes(h.event, h.places) && rel <= d.rel
      ensures h.time + window <= d.now
    {
      var j :| 0 <= j < |more| && more[j] == h;
      assert heard[|was| + j] == h;
    }
  }

  lemma LaterRespect(before: Books, drained: Books, end: Books, more: seq<Heard>, window: int)
    requires Reads(before, drained, more) && Grows(drained, end) && AllJustified(end, window)
    ensures forall k :: |before.deletions| <= k < |end.deletions| ==> Respects(end.deletions[k], more, window)
  {
    forall k | |before.deletions| <= k < |end.deletions| ensures Respects(end.deletions[k], more, window) {
      SeenRespected(end.deletions[k], before.heard, more, end.heard, window);
    }
  }

  /** Whatever the steps of a run give to read is respected by every later deletion. */
  lemma RunRespects(steps: seq<Step>, start: int, window: int, i: nat)
    requires 0 < window && 0 < start && Timely(steps, start) && i < |steps|
    ensures StepRespected(steps, i, window)
  {
    var before, end := RunOf(steps[..i], window), RunOf(steps, window);
    RunGrows(steps, i, window);
    RunFits(steps, start, window);
    if steps[i].Going? {
      var round := steps[i].round;
      var drained := RoundedReads(before, round, window);
      assert steps[..i + 1][..i] == steps[..i];
      RunGrows(steps, i + 1, window);
      GrowsTrans(drained, RunOf(steps[..i + 1], window), end);
      LaterRespect(before, drained, end, ReadIn(before, round), window);
    }
  }

  /** A run of a new watcher. */
  method Run(window: int, steps: seq<Step>) returns (w: Watcher)
    ensures fresh(w) && w.View() == RunOf(steps, window)
  {
    w := new Watcher(window);
    for i := 0 to |steps|
      invariant fresh(w) && w.window == window && w.View() == RunOf(steps[..i], window)
    {
      assert steps[..i + 1][..i] == steps[..i];
      Take(w, steps[i]);
    }
    assert steps[..|steps|] == steps;
  }

  /** In every run of a new watcher every deletion was justified by all the events read before it, and those are
      the events the rounds gave. */
  method Live(window: int, ghost start: int, steps: seq<Step>) returns (w: Watcher)
    requires 0 < window && 0 < start && Timely(steps, start)
    ensures fresh(w) && w.View() == RunOf(steps, window) && AllJustified(w.View(), window)
    ensures forall i :: 0 <= i < |steps| ==> StepRespected(steps, i, window) && EventsRespected(steps, i, window)
  {
    w := Run(window, steps);
    RunFits(steps, start, window);
    forall i | 0 <= i < |steps| ensures StepRespected(steps, i, window) && EventsRespected(steps, i, window) {
      RunRespects(steps, start, window, i);
      StepEvents(steps, i, window);
    }
  }
}
