/** The watcher over the ledger: events, admission, restart and collection. Each method does to the object
    what the step does to its value. */
module RetentionWatch {
  import opened Basics
  import opened Retention

  class Watcher {
    const window: int
    var roots: map<Id, Row>
    var activity: Activity
    var heartbeat: int
    var deferred: seq<Event>
    var rebuild: set<Id>
    var signatures: map<Id, nat>
    ghost var heard: seq<Heard>
    ghost var missed: map<Id, int>
    ghost var kept: set<Id>
    ghost var collected: int
    ghost var deletions: seq<Deletion>

    ghost function View(): Books
      reads this
    {
      Books(roots, activity, heartbeat, deferred, rebuild, signatures, heard, missed, kept, collected, deletions)
    }

    constructor (window: int)
      ensures View() == NoBooks && this.window == window
    {
      this.window := window;
      roots, activity, heartbeat, deferred, rebuild, signatures := map[], map[], 0, [], {}, map[];
      heard, missed, kept, collected, deletions := [], map[], {}, 0, [];
    }

    // ---- Resets ----

    /** Every root loses its evidence, because events were lost. */
    method ResetAll(ghost now: int)
      modifies this`roots, this`missed, this`kept
      ensures View() == Cleared(old(View()), now)
    {
      missed := map r | r in roots :: now;
      roots := map r | r in roots :: roots[r].Reset();
      kept := {};
    }

    method ResetOne(root: Id)
      requires root in roots
      modifies this`roots
      ensures View() == Uncovered(old(View()), root)
    {
      roots := roots[root := roots[root].(coverage := false, since := 0)];
    }

    /** A new watcher process knows nothing of what happened before it. */
    method Restart(ghost now: int)
      modifies this
      ensures View() == Restarted(old(View()), now)
    {
      ResetAll(now);
      deferred, rebuild, signatures := [], {}, map[];
    }

    /** Adoption of a root, or a move of one. */
    method Register(root: Id, hdd: bool)
      modifies this`roots
      ensures View() == Registered(old(View()), root, hdd)
    {
      roots := roots[root := Row(hdd, false, 0)];
    }

    // ---- Events ----

    /** Records activity seen now. */
    method Record(root: Id, rel: Path, now: int)
      modifies this`activity
      ensures View() == Noted(old(View()), root, rel, now)
    {
      activity := activity[(root, rel) := now];
    }

    method RecordAll(touched: set<(Id, Path)>, now: int)
      modifies this`activity
      ensures View() == RecordedAll(old(View()), touched, now)
    {
      var left := touched;
      while left != {}
        invariant left <= touched && View() == RecordedAll(old(View()), touched - left, now)
        decreases left
      {
        var t :| t in left;
        Record(t.0, t.1, now);
        left := left - {t};
        assert activity == old(activity) + map u | u in touched - left :: now;
      }
      assert touched - {} == touched;
    }

    /** A change of the directory tree. */
    method Branch(e: Event, place: Place, now: int)
      requires e.root in roots && e.path.Some?
      modifies this`roots, this`activity, this`rebuild
      ensures View() == Branched(old(View()), e, place, now)
    {
      var path := e.path.value;
      if Within(path, place.base) && Appears(e.mask) {
        Record(e.root, path[|place.base|..], now);
        if InBoundary(place, path) {
          if e.fails {
            ResetOne(e.root);
          }
        } else if AboveBoundary(place, path) {
          rebuild := rebuild + {e.root};
        }
      } else if Leaves(e.mask) && path == place.base {
        ResetOne(e.root);
        rebuild := rebuild + {e.root};
      }
    }

    /** One event of the queue, taken into account at once. */
    method Handle(e: Event, places: map<Id, Place>, now: int)
      requires places.Keys <= roots.Keys
      modifies this`roots, this`missed, this`kept, this`rebuild, this`activity
      ensures View() == Handled(old(View()), e, places, now)
    {
      if Overflow in e.mask {
        ResetAll(now);
        rebuild := rebuild + places.Keys;
      } else if e.root in places && Topology(e.mask) && e.path.Some? {
        Branch(e, places[e.root], now);
      }
    }

    /** The loop over the queue when everything is taken into account at once. */
    method HandleQueue(queue: seq<Event>, places: map<Id, Place>, now: int) returns (touched: set<(Id, Path)>)
      requires places.Keys <= roots.Keys
      modifies this`roots, this`missed, this`kept, this`rebuild, this`activity
      ensures View() == HandledAll(old(View()), queue, places, now) && touched == TouchedAll(queue, places, false)
    {
      touched := {};
      for i := 0 to |queue|
        invariant View() == HandledAll(old(View()), queue[..i], places, now)
        invariant touched == TouchedAll(queue[..i], places, false)
      {
        assert queue[..i + 1][..i] == queue[..i];
        Handle(queue[i], places, now);
        touched := touched + TouchedBy(queue[i], places);
      }
      assert queue[..|queue|] == queue;
    }

    /** Puts a change of the tree off; when too many wait, every root loses its evidence instead. */
    method Defer(e: Event, places: map<Id, Place>, ghost now: int)
      modifies this`roots, this`missed, this`kept, this`rebuild, this`deferred
      ensures View() == Delayed(old(View()), e, places, now)
    {
      if |deferred| >= QUEUE {
        ResetAll(now);
        rebuild := rebuild + places.Keys;
        deferred := [];
      }
      deferred := deferred + [e];
    }

    /** The loop over the queue while trees are being walked. */
    method PutOffQueue(queue: seq<Event>, places: map<Id, Place>, ghost now: int) returns (touched: set<(Id, Path)>)
      modifies this`roots, this`missed, this`kept, this`rebuild, this`deferred
      ensures View() == PutOffAll(old(View()), queue, places, now) && touched == TouchedAll(queue, places, true)
    {
      touched := {};
      for i := 0 to |queue|
        invariant View() == PutOffAll(old(View()), queue[..i], places, now)
        invariant touched == TouchedAll(queue[..i], places, true)
      {
        assert queue[..i + 1][..i] == queue[..i];
        PutOffOne(queue[i], places, now);
        if !Topology(queue[i].mask) {
          touched := touched + TouchedBy(queue[i], places);
        }
      }
      assert queue[..|queue|] == queue;
    }

    method PutOffOne(e: Event, places: map<Id, Place>, ghost now: int)
      modifies this`roots, this`missed, this`kept, this`rebuild, this`deferred
      ensures View() == PutOff(old(View()), e, places, now)
    {
      if Overflow in e.mask {
        ResetAll(now);
        rebuild := rebuild + places.Keys;
      } else if e.root in places && Topology(e.mask) {
        Defer(e, places, now);
      }
    }

    /** Reads the queue. While the watcher is walking trees changes of the tree are put off; otherwise
        everything put off and everything new is taken into account now. */
    method Consume(now: int, events: seq<Event>, places: map<Id, Place>, deferring: bool)
      requires places.Keys <= roots.Keys
      modifies this`roots, this`missed, this`kept, this`rebuild, this`deferred, this`activity, this`heard
      ensures View() == Consumed(old(View()), now, events, places, deferring)
    {
      heard := heard + HeardOf(events, places, now);
      var touched;
      if deferring {
        touched := PutOffQueue(events, places, now);
      } else {
        var queue := deferred + events;
        deferred := [];
        touched := HandleQueue(queue, places, now);
      }
      RecordAll(touched, now);
    }

    /** What the watcher does in the middle of a walk. */
    method Progress(now: int, events: seq<Event>, places: map<Id, Place>)
      requires places.Keys <= roots.Keys
      modifies this`roots, this`missed, this`kept, this`rebuild, this`deferred, this`activity, this`heard, this`heartbeat
      ensures View() == Progressed(old(View()), now, events, places)
    {
      Consume(now, events, places, true);
      heartbeat := now;
    }

    // ---- Admission ----

    method Fail(key: Id, ghost now: int)
      requires key in roots
      modifies this`roots, this`missed, this`kept
      ensures View() == Failed(old(View()), key, now)
    {
      ResetOne(key);
      missed, kept := missed[key := now], kept - {key};
    }

    method Cover(key: Id, now: int)
      requires key in roots
      modifies this`roots, this`missed, this`kept
      ensures View() == CoveredNow(old(View()), key, now)
    {
      missed := missed[key := now];
      kept := if roots[key].since == 0 then kept - {key} else kept + {key};
      var since := roots[key].since;
      if since == 0 {
        since := now;
      }
      roots := roots[key := roots[key].(coverage := true, since := since)];
    }

    /** The last walk over the root's trees: the watcher drains its queue meanwhile, and the walk may fail. */
    method Walk(a: Admission, places: map<Id, Place>)
      requires a.key in roots && places.Keys <= roots.Keys
      modifies this
      ensures View() == Walked(old(View()), a, places)
    {
      Progress(a.at, a.progress, places);
      if a.complete {
        Cover(a.key, a.at);
      } else {
        Fail(a.key, a.at);
      }
    }

    /** Gives up the watches of fast roots so that an archived one fits into the budget. */
    method Yield(victims: set<Id>, key: Id, rows: map<Id, Row>, ghost now: int)
      modifies this`roots, this`missed, this`kept, this`signatures, this`rebuild
      ensures View() == Yielded(old(View()), victims, key, rows, now)
    {
      ResetThese(victims, now);
      signatures := signatures - victims;
      rebuild := rebuild + set r | r in rows && rows[r].hdd && !rows[r].coverage && r != key;
    }

    method ResetThese(victims: set<Id>, ghost now: int)
      modifies this`roots, this`missed, this`kept
      ensures roots == map r | r in old(roots) :: if r in victims then old(roots)[r].Reset() else old(roots)[r]
      ensures missed == old(missed) + (map v | v in victims :: now) && kept == old(kept) - victims
    {
      roots := map r | r in roots :: if r in victims then roots[r].Reset() else roots[r];
      missed, kept := missed + map v | v in victims :: now, kept - victims;
    }

    /** Watches the root's trees again, in two attempts if the first runs out of watches. */
    method Rewatch(a: Admission, places: map<Id, Place>, rows: map<Id, Row>)
      requires a.key in roots && places.Keys <= roots.Keys
      modifies this
      ensures View() == Rewatched(old(View()), a, places, rows)
    {
      if !a.over {
        Walk(a, places);
        return;
      }
      Progress(a.at, a.early, places);
      RewatchWithLess(a, places, rows);
    }

    /** The second attempt, which only an archived root gets, and only when others have watches to give up. */
    method RewatchWithLess(a: Admission, places: map<Id, Place>, rows: map<Id, Row>)
      requires a.key in roots && places.Keys <= roots.Keys
      modifies this
      ensures View() == WatchedWithLess(old(View()), a, places, rows)
    {
      var victims := set v | v in a.victims && v in roots && !roots[v].hdd;
      if roots[a.key].hdd && victims != {} {
        Yield(victims, a.key, rows, a.at);
        Walk(a, places);
      } else {
        Fail(a.key, a.at);
      }
    }

    /** Takes the old watches away; new or changed watched paths leave no evidence. */
    method Remove(a: Admission, places: map<Id, Place>)
      requires a.key in roots && places.Keys <= roots.Keys
      modifies this
      ensures View() == Removed(old(View()), a, places)
    {
      rebuild := rebuild - {a.key};
      Progress(a.at, a.removal, places);
      if a.key !in signatures || signatures[a.key] != a.signature {
        ResetOne(a.key);
      }
    }

    /** Admits a root whose watched paths are new or changed, or whose trees have to be walked again. */
    method Admit(a: Admission, places: map<Id, Place>, rows: map<Id, Row>)
      requires a.key in roots && places.Keys <= roots.Keys
      modifies this
      ensures View() == Admitted(old(View()), a, places, rows)
    {
      if a.key in signatures && signatures[a.key] == a.signature && a.key !in rebuild {
        return;
      }
      Remove(a, places);
      if a.key !in places || places[a.key].boundaries == [] {
        Fail(a.key, a.at);
      } else {
        Rewatch(a, places, rows);
      }
      signatures := signatures[a.key := a.signature];
    }

    method AdmitAll(admissions: seq<Admission>, places: map<Id, Place>, rows: map<Id, Row>)
      requires places.Keys <= roots.Keys
      modifies this
      ensures View() == AdmittedAll(old(View()), admissions, places, rows)
    {
      for i := 0 to |admissions|
        invariant View() == AdmittedAll(old(View()), admissions[..i], places, rows)
      {
        assert admissions[..i + 1][..i] == admissions[..i];
        if admissions[i].key in roots {
          Admit(admissions[i], places, rows);
        }
      }
      assert admissions[..|admissions|] == admissions;
    }

    // ---- Collection ----

    /** A file the collector may look at again. */
    predicate Promising(f: Found, now: int)
      reads this
    {
      f.verified && f.root in roots && roots[f.root].hdd
      && Quiet(activity, roots[f.root], f.root, f.rel, f.mtime, now, window)
    }

    /** The files that look eligible, in order, until a limit on files or bytes is met. */
    method Pick(g: Collection) returns (picked: seq<Found>)
      ensures picked == PickedFrom(View(), g, 0, 0, window)
    {
      picked := [];
      var bytes: nat := 0;
      for k := 0 to |g.listing|
        invariant picked + PickedFrom(View(), g, k, bytes, window) == PickedFrom(View(), g, 0, 0, window)
      {
        var f := g.listing[k];
        if k + 1 > g.maxFiles {
          return;
        }
        if Promising(f, g.now) {
          if bytes + f.size > g.maxBytes {
            return;
          }
          assert picked + ([f] + PickedFrom(View(), g, k + 1, bytes + f.size, window))
              == (picked + [f]) + PickedFrom(View(), g, k + 1, bytes + f.size, window);
          bytes := bytes + f.size;
          picked := picked + [f];
        }
      }
    }

    /** What one collection looks at again: at most a batch. */
    method Candidates(g: Collection) returns (candidates: seq<Found>)
      ensures candidates == CandidatesOf(View(), g, window)
    {
      candidates := Pick(g);
      if |candidates| > BATCH {
        candidates := candidates[..BATCH];
      }
    }

    method Unlink(f: Found, now: int)
      requires f.root in roots
      modifies this`activity, this`deletions
      ensures View() == Unlinked(old(View()), f, now)
    {
      deletions := deletions + [Deletion(f.root, f.rel, now, roots[f.root].since, f.mtime, |heard|,
                                         if f.root in missed then missed[f.root] else 0, f.root in kept)];
      activity := activity - {(f.root, f.rel)};
    }

    /** One candidate: references, the event barrier, and every test again. False when an error ends the
        collection. */
    method TryDelete(f: Found, now: int, revisit: Revisit, places: map<Id, Place>) returns (on: bool)
      requires places.Keys <= roots.Keys && f.root in roots
      modifies this`roots, this`missed, this`kept, this`rebuild, this`deferred, this`activity, this`heard, this`deletions
      ensures Tried(View(), on) == Try(old(View()), f, now, revisit, places, window)
    {
      on := true;
      if !revisit.blocked {
        Consume(revisit.at, revisit.events, places, false);
        if revisit.identity == None {
          return false;
        }
        if revisit.proofSame && revisit.identity == Some(f.identity)
           && Quiet(activity, roots[f.root], f.root, f.rel, f.mtime, now, window) {
          Unlink(f, now);
        }
      }
    }

    method TryDeleteAll(files: seq<Found>, now: int, revisits: nat -> Revisit, places: map<Id, Place>)
      requires places.Keys <= roots.Keys && forall f :: f in files ==> f.root in roots
      modifies this`roots, this`missed, this`kept, this`rebuild, this`deferred, this`activity, this`heard, this`deletions
      ensures View() == TryAll(old(View()), files, now, revisits, places, window, |files|).books
    {
      var on := true;
      for i := 0 to |files|
        invariant Tried(View(), on) == TryAll(old(View()), files, now, revisits, places, window, i)
      {
        if on {
          assert files[i] in files;
          on := TryDelete(files[i], now, revisits(i), places);
        }
      }
    }

    /** One collection. Without a recent heartbeat of the watcher nothing is deleted. */
    method Collect(g: Collection, places: map<Id, Place>)
      requires places.Keys <= roots.Keys
      modifies this`roots, this`missed, this`kept, this`rebuild, this`deferred, this`activity, this`heard,
               this`deletions, this`collected
      ensures View() == Collected(old(View()), g, places, window)
    {
      if heartbeat == 0 || g.now - heartbeat > HEARTBEAT {
        return;
      }
      var candidates := Candidates(g);
      CandidatesLook(View(), g, window);
      collected := g.now;
      if !g.brokerFails {
        TryDeleteAll(candidates, g.now, g.revisits, places);
      }
    }

    // ---- The loop ----

    /** One round of the watcher's loop. */
    method Go(round: Round)
      modifies this
      ensures View() == Rounded(old(View()), round, window)
    {
      var places := map r | r in round.places && r in roots :: round.places[r];
      AdmitAll(round.admissions, places, roots);
      Consume(round.at, round.events, places, false);
      heartbeat := round.at;
      match round.collection {
        case None =>
        case Some(g) => Collect(g, places);
      }
    }
  }
}
