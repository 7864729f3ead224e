/** Access evidence and the deletions it permits: what each step of the watcher and the collector does to the
    ledger's rows and activity, as values. A file is deleted only when nothing was seen of it for the whole
    retention period. */
module Retention {
  import opened Basics

  type Id = nat
  type Path = seq<string>

  /** The ledger row of a root: whether its watches are complete, and since when (0: not). */
  datatype Row = Row(hdd: bool, coverage: bool, since: int) {
    predicate Covered() {
      coverage && since != 0
    }

    function Reset(): Row {
      this.(coverage := false, since := 0)
    }
  }

  /** Where a root lies and which paths below it are watched. */
  datatype Place = Place(base: Path, boundaries: seq<Path>)

  datatype Flag =
    | IsDir | Create | MovedTo | MovedFrom | Delete | DeleteSelf | MoveSelf | Ignored | Access | Open | Modify | Attrib | Overflow

  /** One event as read from the kernel queue. `fails` tells whether walking a new subtree raises. */
  datatype Event = Event(root: Id, path: Option<Path>, mask: set<Flag>, fails: bool)

  type Activity = map<(Id, Path), int>

  const QUEUE: nat := 65536
  const BATCH: nat := 1000
  const HEARTBEAT: int := 60

  predicate Within(path: Path, base: Path) {
    base <= path
  }

  predicate Topology(mask: set<Flag>) {
    || DeleteSelf in mask || MoveSelf in mask || Ignored in mask
    || (IsDir in mask && (Create in mask || MovedFrom in mask || MovedTo in mask || Delete in mask))
  }

  predicate Touches(mask: set<Flag>) {
    && IsDir !in mask
    && (Access in mask || Open in mask || Modify in mask || Attrib in mask || Create in mask || MovedTo in mask)
  }

  /** A directory has appeared. */
  predicate Appears(mask: set<Flag>) {
    IsDir in mask && (Create in mask || MovedTo in mask)
  }

  predicate Leaves(mask: set<Flag>) {
    DeleteSelf in mask || MoveSelf in mask || Ignored in mask || MovedFrom in mask || Delete in mask
  }

  /** What an event, once consumed, says of a path below its root: a file was accessed, opened, modified, changed in
      its attributes, created or moved there, or a directory was created or moved there. */
  function Notes(e: Event, places: map<Id, Place>): set<(Id, Path)> {
    if Overflow !in e.mask && e.root in places && e.path.Some? && places[e.root].base <= e.path.value
       && (Create in e.mask || MovedTo in e.mask
           || (IsDir !in e.mask && (Access in e.mask || Open in e.mask || Modify in e.mask || Attrib in e.mask)))
    then {(e.root, e.path.value[|places[e.root].base|..])}
    else {}
  }

  /** The watched path lies in, or below, a boundary of the root. */
  predicate InBoundary(place: Place, path: Path) {
    exists i :: 0 <= i < |place.boundaries| && Within(path, place.boundaries[i])
  }

  predicate AboveBoundary(place: Place, path: Path) {
    exists i :: 0 <= i < |place.boundaries| && Within(place.boundaries[i], path)
  }

  /** A directory has been created below the root, or moved there. */
  predicate NewBelow(e: Event, place: Place) {
    && IsDir in e.mask && (Create in e.mask || MovedTo in e.mask) && e.path.Some? && place.base <= e.path.value
  }

  /** The root itself is gone. */
  predicate RootGone(e: Event, place: Place) {
    && e.path == Some(place.base) && !NewBelow(e, place)
    && (DeleteSelf in e.mask || MoveSelf in e.mask || Ignored in e.mask
        || (IsDir in e.mask && (MovedFrom in e.mask || Delete in e.mask)))
  }

  /** A change of the tree that takes the root's evidence: a new subtree that cannot be walked, or the
      root itself gone. */
  predicate Breaks(e: Event, place: Place) {
    || RootGone(e, place)
    || (NewBelow(e, place) && e.fails && exists i :: 0 <= i < |place.boundaries| && place.boundaries[i] <= e.path.value)
  }

  /** A change of the tree after which the root has to be walked again: itself gone, or a new directory above a
      watched one but not in any. */
  predicate Reopens(e: Event, place: Place) {
    || RootGone(e, place)
    || (NewBelow(e, place) && (forall i :: 0 <= i < |place.boundaries| ==> !(place.boundaries[i] <= e.path.value))
        && exists i :: 0 <= i < |place.boundaries| && e.path.value <= place.boundaries[i])
  }

  /** The roots whose evidence an event takes. */
  function Broken(e: Event, places: map<Id, Place>, all: set<Id>): set<Id> {
    if Overflow in e.mask then all
    else if e.root in places && Breaks(e, places[e.root]) then {e.root}
    else {}
  }

  function Reopened(e: Event, places: map<Id, Place>): set<Id> {
    if Overflow in e.mask then places.Keys
    else if e.root in places && Reopens(e, places[e.root]) then {e.root}
    else {}
  }

  // ---- The activity table ----

  /** The latest activity of the path itself, its ancestors below the root and the root. */
  function Latest(activity: Activity, root: Id, rel: Path, n: nat): int
    requires n <= |rel|
  {
    var here := if (root, rel[..n]) in activity then activity[(root, rel[..n])] else 0;
    if n == 0 then here else Max(here, Latest(activity, root, rel, n - 1))
  }

  function Max(a: int, b: int): int {
    if a < b then b else a
  }

  lemma {:induction false} LatestBounds(activity: Activity, root: Id, rel: Path, n: nat, k: nat)
    requires k <= n <= |rel| && (root, rel[..k]) in activity
    ensures activity[(root, rel[..k])] <= Latest(activity, root, rel, n)
    decreases n
  {
    if k < n {
      LatestBounds(activity, root, rel, n - 1, k);
    }
  }

  /** The retention test of one file. */
  predicate Quiet(activity: Activity, row: Row, root: Id, rel: Path, mtime: int, now: int, window: int) {
    && row.Covered()
    && now - Max(Max(row.since, Latest(activity, root, rel, |rel|)), mtime) >= window
  }

  /** The row is covered, its period and the file's last modification are that long ago, and so is all that is on
      record of the file, of the directories above it and of the root. */
  ghost predicate LongQuiet(activity: Activity, row: Row, root: Id, rel: Path, mtime: int, now: int, window: int) {
    && row.coverage && row.since != 0 && row.since + window <= now && mtime + window <= now
    && forall above :: above <= rel && (root, above) in activity ==> activity[(root, above)] + window <= now
  }

  lemma {:induction false} LatestIs(activity: Activity, root: Id, rel: Path, n: nat)
    requires n <= |rel|
    ensures Latest(activity, root, rel, n) == 0
         || exists above :: above <= rel && (root, above) in activity && activity[(root, above)] == Latest(activity, root, rel, n)
    decreases n
  {
    assert rel[..n] <= rel;
    if n > 0 {
      LatestIs(activity, root, rel, n - 1);
    }
  }

  /** The test is that, once a period cannot have begun before the clock. */
  lemma QuietExactly(activity: Activity, row: Row, root: Id, rel: Path, mtime: int, now: int, window: int)
    requires row.since >= 0
    ensures Quiet(activity, row, root, rel, mtime, now, window) <==> LongQuiet(activity, row, root, rel, mtime, now, window)
  {
    LatestIs(activity, root, rel, |rel|);
    forall above | above <= rel && (root, above) in activity
      ensures activity[(root, above)] <= Latest(activity, root, rel, |rel|)
    {
      assert rel[..|above|] == above;
      LatestBounds(activity, root, rel, |rel|, |above|);
    }
  }

  // ---- The books ----

  /** An event as it was read: with the places the roots had then, and the time. */
  datatype Heard = Heard(event: Event, places: map<Id, Place>, time: int)

  /** A deletion: the period it relied on, when the file was last modified, how many events had been read by then, when events of the root may
      last have gone unseen, and whether the root's latest admission kept an earlier period. */
  datatype Deletion = Deletion(root: Id, rel: Path, now: int, since: int, mtime: int, seen: nat, missed: int, kept: bool)

  /** The ledger's rows and activity, the watcher's queues, and the history: the events read, when events of
      each root may last have gone unseen, the roots whose latest admission kept an earlier period, the time of
      the last collection, and the deletions. */
  datatype Books = Books(
    roots: map<Id, Row>, activity: Activity, heartbeat: int, deferred: seq<Event>, rebuild: set<Id>,
    signatures: map<Id, nat>,
    heard: seq<Heard>, missed: map<Id, int>, kept: set<Id>, collected: int, deletions: seq<Deletion>)

  const NoBooks := Books(map[], map[], 0, [], {}, map[], [], map[], {}, 0, [])

  /** Every root loses its evidence, because events were lost. */
  function Cleared(b: Books, now: int): (c: Books)
    ensures c.roots.Keys == b.roots.Keys
  {
    b.(roots := map r | r in b.roots :: b.roots[r].Reset(), missed := map r | r in b.roots :: now, kept := {})
  }

  function Uncovered(b: Books, root: Id): Books
    requires root in b.roots
  {
    b.(roots := b.roots[root := b.roots[root].Reset()])
  }

  function Noted(b: Books, root: Id, rel: Path, now: int): Books {
    b.(activity := b.activity[(root, rel) := now])
  }

  // ---- Events ----

  /** A change of the directory tree: a new directory is activity, a vanished root loses its evidence. */
  function Branched(b: Books, e: Event, place: Place, now: int): (c: Books)
    requires e.root in b.roots && e.path.Some?
    ensures c.roots.Keys == b.roots.Keys
  {
    var path := e.path.value;
    if Appears(e.mask) && Within(path, place.base) then
      var n := Noted(b, e.root, path[|place.base|..], now);
      if InBoundary(place, path) then (if e.fails then Uncovered(n, e.root) else n)
      else if AboveBoundary(place, path) then n.(rebuild := n.rebuild + {e.root})
      else n
    else if Leaves(e.mask) && path == place.base then Uncovered(b, e.root).(rebuild := b.rebuild + {e.root})
    else b
  }

  /** One event taken into account at once. */
  function Handled(b: Books, e: Event, places: map<Id, Place>, now: int): (c: Books)
    requires places.Keys <= b.roots.Keys
    ensures c.roots.Keys == b.roots.Keys
  {
    if Overflow in e.mask then Cleared(b, now).(rebuild := b.rebuild + places.Keys)
    else if e.root in places && Topology(e.mask) && e.path.Some? then Branched(b, e, places[e.root], now)
    else b
  }

  function HandledAll(b: Books, queue: seq<Event>, places: map<Id, Place>, now: int): (c: Books)
    requires places.Keys <= b.roots.Keys
    ensures c.roots.Keys == b.roots.Keys
  {
    if queue == [] then b else Handled(HandledAll(b, queue[..|queue| - 1], places, now), queue[|queue| - 1], places, now)
  }

  /** While trees are being walked a change of the tree waits; when too many wait, they are given up and every
      root loses its evidence. */
  function Delayed(b: Books, e: Event, places: map<Id, Place>, now: int): (c: Books)
    ensures c.roots.Keys == b.roots.Keys
  {
    if |b.deferred| >= QUEUE then Cleared(b, now).(rebuild := b.rebuild + places.Keys, deferred := [e])
    else b.(deferred := b.deferred + [e])
  }

  function PutOff(b: Books, e: Event, places: map<Id, Place>, now: int): (c: Books)
    ensures c.roots.Keys == b.roots.Keys
  {
    if Overflow in e.mask then Cleared(b, now).(rebuild := b.rebuild + places.Keys)
    else if e.root in places && Topology(e.mask) then Delayed(b, e, places, now)
    else b
  }

  function PutOffAll(b: Books, queue: seq<Event>, places: map<Id, Place>, now: int): (c: Books)
    ensures c.roots.Keys == b.roots.Keys
  {
    if queue == [] then b else PutOff(PutOffAll(b, queue[..|queue| - 1], places, now), queue[|queue| - 1], places, now)
  }

  /** The file an event touches. */
  function TouchedBy(e: Event, places: map<Id, Place>): set<(Id, Path)> {
    if Overflow !in e.mask && e.root in places && Touches(e.mask) && e.path.Some? && Within(e.path.value, places[e.root].base)
    then {(e.root, e.path.value[|places[e.root].base|..])}
    else {}
  }

  /** The files a queue touches; while `deferring`, changes of the tree wait with all they say. */
  function TouchedAll(queue: seq<Event>, places: map<Id, Place>, deferring: bool): set<(Id, Path)> {
    if queue == [] then {}
    else
      var front, e := TouchedAll(queue[..|queue| - 1], places, deferring), queue[|queue| - 1];
      if deferring && Topology(e.mask) then front else front + TouchedBy(e, places)
  }

  function RecordedAll(b: Books, touched: set<(Id, Path)>, now: int): Books {
    b.(activity := b.activity + map t | t in touched :: now)
  }

  function HeardOf(events: seq<Event>, places: map<Id, Place>, now: int): seq<Heard> {
    seq(|events|, i requires 0 <= i < |events| => Heard(events[i], places, now))
  }

  /** Reads the queue. While the watcher is walking trees changes of the tree are put off; otherwise
      everything put off and everything new is taken into account now. */
  function Consumed(b: Books, now: int, events: seq<Event>, places: map<Id, Place>, deferring: bool): (c: Books)
    requires places.Keys <= b.roots.Keys
    ensures c.roots.Keys == b.roots.Keys
  {
    var h := b.(heard := b.heard + HeardOf(events, places, now));
    if deferring then RecordedAll(PutOffAll(h, events, places, now), TouchedAll(events, places, true), now)
    else
      var queue := b.deferred + events;
      RecordedAll(HandledAll(h.(deferred := []), queue, places, now), TouchedAll(queue, places, false), now)
  }

  /** Reads the queue in the middle of a walk, and shows that the watcher is alive. */
  function Progressed(b: Books, now: int, events: seq<Event>, places: map<Id, Place>): (c: Books)
    requires places.Keys <= b.roots.Keys
    ensures c.roots.Keys == b.roots.Keys
  {
    Consumed(b, now, events, places, true).(heartbeat := now)
  }

  // ---- Admission ----

  /** One admission: the events drained while the old watches are removed, those drained by a first walk that
      runs `over` the budget of watches, the roots that then give theirs up, those drained by the last walk, and
      whether that is complete. */
  datatype Admission = Admission(
    key: Id, at: int, signature: nat, removal: seq<Event>, over: bool, early: seq<Event>, victims: set<Id>,
    progress: seq<Event>, complete: bool)

  /** The walk did not succeed: the root has no watches and no evidence. */
  function Failed(b: Books, key: Id, now: int): (c: Books)
    requires key in b.roots
    ensures c.roots.Keys == b.roots.Keys
  {
    Uncovered(b, key).(missed := b.missed[key := now], kept := b.kept - {key})
  }

  /** The walk is complete: a root that has no period begins one now, one that has a period keeps it. */
  function CoveredNow(b: Books, key: Id, now: int): (c: Books)
    requires key in b.roots
    ensures c.roots.Keys == b.roots.Keys
  {
    var row := b.roots[key];
    b.(roots := b.roots[key := row.(coverage := true, since := if row.since == 0 then now else row.since)],
       missed := b.missed[key := now],
       kept := if row.since == 0 then b.kept - {key} else b.kept + {key})
  }

  function Walked(b: Books, a: Admission, places: map<Id, Place>): (c: Books)
    requires a.key in b.roots && places.Keys <= b.roots.Keys
    ensures c.roots.Keys == b.roots.Keys
  {
    var p := Progressed(b, a.at, a.progress, places);
    if a.complete then CoveredNow(p, a.key, a.at) else Failed(p, a.key, a.at)
  }

  /** The fast roots that can give up their watches. */
  function VictimsOf(b: Books, a: Admission): set<Id> {
    set v | v in a.victims && v in b.roots && !b.roots[v].hdd
  }

  /** Fast roots give up their watches and evidence so that an archived one fits into the budget; archived ones
      that had no coverage when the round began (`rows`) get another try. */
  function Yielded(b: Books, victims: set<Id>, key: Id, rows: map<Id, Row>, now: int): (c: Books)
    ensures c.roots.Keys == b.roots.Keys
  {
    var roots := map r | r in b.roots :: if r in victims then b.roots[r].Reset() else b.roots[r];
    b.(roots := roots, missed := b.missed + map v | v in victims :: now, kept := b.kept - victims,
       signatures := b.signatures - victims,
       rebuild := b.rebuild + set r | r in rows && rows[r].hdd && !rows[r].coverage && r != key)
  }

  /** The second attempt, which only an archived root gets, and only when others have watches to give up. */
  function WatchedWithLess(b: Books, a: Admission, places: map<Id, Place>, rows: map<Id, Row>): (c: Books)
    requires a.key in b.roots && places.Keys <= b.roots.Keys
    ensures c.roots.Keys == b.roots.Keys
  {
    if b.roots[a.key].hdd && VictimsOf(b, a) != {} then Walked(Yielded(b, VictimsOf(b, a), a.key, rows, a.at), a, places)
    else Failed(b, a.key, a.at)
  }

  /** Watches the root's trees again, in two attempts if the first runs out of watches. */
  function Rewatched(b: Books, a: Admission, places: map<Id, Place>, rows: map<Id, Row>): (c: Books)
    requires a.key in b.roots && places.Keys <= b.roots.Keys
    ensures c.roots.Keys == b.roots.Keys
  {
    if !a.over then Walked(b, a, places)
    else WatchedWithLess(Progressed(b, a.at, a.early, places), a, places, rows)
  }

  /** Nothing has to be done for this root. */
  predicate Settled(b: Books, key: Id, signature: nat) {
    key in b.signatures && b.signatures[key] == signature && key !in b.rebuild
  }

  predicate Same(b: Books, a: Admission) {
    a.key in b.signatures && b.signatures[a.key] == a.signature
  }

  predicate Watchable(key: Id, places: map<Id, Place>) {
    key in places && places[key].boundaries != []
  }

  /** The books once the old watches are gone; a root whose watched paths are new or changed has no evidence. */
  function Removed(b: Books, a: Admission, places: map<Id, Place>): (c: Books)
    requires a.key in b.roots && places.Keys <= b.roots.Keys
    ensures c.roots.Keys == b.roots.Keys
  {
    var p := Progressed(b.(rebuild := b.rebuild - {a.key}), a.at, a.removal, places);
    if Same(b, a) then p else Uncovered(p, a.key)
  }

  /** Admits a root whose watched paths are new or changed, or whose trees have to be walked again. */
  function Admitted(b: Books, a: Admission, places: map<Id, Place>, rows: map<Id, Row>): (c: Books)
    requires a.key in b.roots && places.Keys <= b.roots.Keys
    ensures c.roots.Keys == b.roots.Keys
  {
    if Settled(b, a.key, a.signature) then b
    else
      var p := Removed(b, a, places);
      var c := if Watchable(a.key, places) then Rewatched(p, a, places, rows) else Failed(p, a.key, a.at);
      c.(signatures := c.signatures[a.key := a.signature])
  }

  function AdmittedAll(b: Books, admissions: seq<Admission>, places: map<Id, Place>, rows: map<Id, Row>): (c: Books)
    requires places.Keys <= b.roots.Keys
    ensures c.roots.Keys == b.roots.Keys
  {
    if admissions == [] then b
    else
      var front, a := AdmittedAll(b, admissions[..|admissions| - 1], places, rows), admissions[|admissions| - 1];
      if a.key in front.roots then Admitted(front, a, places, rows) else front
  }

  // ---- Collection ----

  /** A listed file, as the collector found it. */
  datatype Found = Found(root: Id, rel: Path, identity: nat, mtime: int, size: nat, verified: bool)

  /** What a collection meets at one candidate: the broker or a reference scan blocks it, the events its
      barrier drains, and the file as it is found afterwards; None if it or its proof cannot be read. */
  datatype Revisit = Revisit(blocked: bool, events: seq<Event>, at: int, proofSame: bool, identity: Option<nat>)

  datatype Collection = Collection(
    now: int, listing: seq<Found>, maxFiles: nat, maxBytes: nat, brokerFails: bool, revisits: nat -> Revisit)

  /** A file the collector may look at again. */
  predicate Looks(b: Books, f: Found, now: int, window: int) {
    f.verified && f.root in b.roots && b.roots[f.root].hdd
    && Quiet(b.activity, b.roots[f.root], f.root, f.rel, f.mtime, now, window)
  }

  /** The files that look eligible, in order, from position `k` on, until a limit on files or bytes is met. */
  function PickedFrom(b: Books, g: Collection, k: nat, bytes: nat, window: int): seq<Found>
    requires k <= |g.listing|
    decreases |g.listing| - k
  {
    if k == |g.listing| || k + 1 > g.maxFiles then []
    else
      var f := g.listing[k];
      if !Looks(b, f, g.now, window) then PickedFrom(b, g, k + 1, bytes, window)
      else if bytes + f.size > g.maxBytes then []
      else [f] + PickedFrom(b, g, k + 1, bytes + f.size, window)
  }

  /** What one collection looks at again: at most a batch. */
  function CandidatesOf(b: Books, g: Collection, window: int): seq<Found> {
    var picked := PickedFrom(b, g, 0, 0, window);
    if |picked| > BATCH then picked[..BATCH] else picked
  }

  /** Deletes a file and its activity. */
  function Unlinked(b: Books, f: Found, now: int): Books
    requires f.root in b.roots
  {
    b.(activity := b.activity - {(f.root, f.rel)},
       deletions := b.deletions + [Deletion(f.root, f.rel, now, b.roots[f.root].since, f.mtime, |b.heard|,
                                            if f.root in b.missed then b.missed[f.root] else 0, f.root in b.kept)])
  }

  /** The books, and whether the collection goes on. */
  datatype Tried = Tried(books: Books, on: bool)

  /** One candidate: references, the event barrier, and every test again. */
  function Try(b: Books, f: Found, now: int, revisit: Revisit, places: map<Id, Place>, window: int): (t: Tried)
    requires places.Keys <= b.roots.Keys && f.root in b.roots
    ensures t.books.roots.Keys == b.roots.Keys
  {
    if revisit.blocked then Tried(b, true)
    else
      var c := Consumed(b, revisit.at, revisit.events, places, false);
      if revisit.identity == None then Tried(c, false)
      else if revisit.proofSame && revisit.identity == Some(f.identity)
              && Quiet(c.activity, c.roots[f.root], f.root, f.rel, f.mtime, now, window)
      then Tried(Unlinked(c, f, now), true)
      else Tried(c, true)
  }

  /** The next candidate, unless an error has ended the collection. */
  function Next(t: Tried, f: Found, now: int, revisit: Revisit, places: map<Id, Place>, window: int): (u: Tried)
    requires places.Keys <= t.books.roots.Keys && f.root in t.books.roots
    ensures u.books.roots.Keys == t.books.roots.Keys
  {
    if t.on then Try(t.books, f, now, revisit, places, window) else t
  }

  /** The first `n` candidates, until an error ends the collection. */
  function TryAll(b: Books, files: seq<Found>, now: int, revisits: nat -> Revisit, places: map<Id, Place>, window: int, n: nat)
    : (t: Tried)
    requires n <= |files| && places.Keys <= b.roots.Keys && forall f :: f in files ==> f.root in b.roots
    ensures t.books.roots.Keys == b.roots.Keys
  {
    if n == 0 then Tried(b, true)
    else
      Next(TryAll(b, files, now, revisits, places, window, n - 1), files[n - 1], now, revisits(n - 1), places, window)
  }

  predicate Stale(b: Books, now: int) {
    b.heartbeat == 0 || now - b.heartbeat > HEARTBEAT
  }

  lemma {:induction false} PickedLook(b: Books, g: Collection, k: nat, bytes: nat, window: int)
    requires k <= |g.listing|
    ensures forall f :: f in PickedFrom(b, g, k, bytes, window) ==> f in g.listing && Looks(b, f, g.now, window)
    decreases |g.listing| - k
  {
    if k < |g.listing| && k + 1 <= g.maxFiles {
      var f := g.listing[k];
      if !Looks(b, f, g.now, window) {
        PickedLook(b, g, k + 1, bytes, window);
      } else if bytes + f.size <= g.maxBytes {
        PickedLook(b, g, k + 1, bytes + f.size, window);
      }
    }
  }

  lemma CandidatesLook(b: Books, g: Collection, window: int)
    ensures forall f :: f in CandidatesOf(b, g, window) ==> f in g.listing && Looks(b, f, g.now, window)
  {
    PickedLook(b, g, 0, 0, window);
  }

  /** One collection. Without a recent heartbeat of the watcher nothing is deleted. */
  function Collected(b: Books, g: Collection, places: map<Id, Place>, window: int): (c: Books)
    requires places.Keys <= b.roots.Keys
    ensures c.roots.Keys == b.roots.Keys
  {
    if Stale(b, g.now) then b
    else
      var begun, files := b.(collected := g.now), CandidatesOf(b, g, window);
      CandidatesLook(b, g, window);
      if g.brokerFails then begun else TryAll(begun, files, g.now, g.revisits, places, window, |files|).books
  }

  // ---- The watcher's loop ----

  /** One round of the loop: where the roots lie and what is watched below them, the admissions, the events
      drained, and a collection if one is due. */
  datatype Round = Round(
    places: map<Id, Place>, admissions: seq<Admission>, at: int, events: seq<Event>, collection: Option<Collection>)

  /** Places of roots the ledger knows. */
  function KnownPlaces(places: map<Id, Place>, b: Books): map<Id, Place> {
    map r | r in places && r in b.roots :: places[r]
  }

  function Drained(b: Books, round: Round, places: map<Id, Place>): (c: Books)
    requires places.Keys <= b.roots.Keys
    ensures c.roots.Keys == b.roots.Keys
  {
    Consumed(AdmittedAll(b, round.admissions, places, b.roots), round.at, round.events, places, false).(heartbeat := round.at)
  }

  function Rounded(b: Books, round: Round, window: int): (c: Books)
    ensures c.roots.Keys == b.roots.Keys
  {
    var places := KnownPlaces(round.places, b);
    var drained := Drained(b, round, places);
    match round.collection
    case None => drained
    case Some(g) => Collected(drained, g, places, window)
  }

  // ---- Other steps ----

  /** A new watcher process knows nothing of what happened before it. */
  function Restarted(b: Books, now: int): Books {
    Cleared(b, now).(deferred := [], rebuild := {}, signatures := map[])
  }

  /** Adoption of a root, or a move of one: it begins without evidence. */
  function Registered(b: Books, root: Id, hdd: bool): Books {
    b.(roots := b.roots[root := Row(hdd, false, 0)])
  }
}
