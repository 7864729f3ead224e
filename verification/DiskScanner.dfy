/** The scanner object: one slice of the scan per sample, bounded by entries and by time. */
module DiskScanner {
  import opened Basics
  import opened DiskScan
  import opened DiskScanProof

  /** What a finished scan reports, and the wall-clock time of the sample that finished it. */
  datatype Result = Result(complete: bool, scan: Scan, finishedAt: int)

  /** What is still to be read of the open directories. */
  function Left(stack: seq<Frame>, disk: Disk): nat {
    if stack == [] then 0
    else
      var f := stack[|stack| - 1];
      var size := |Children(disk, f.dir)|;
      Left(stack[..|stack| - 1], disk) + 1 + (if f.pos < size then size - f.pos else 0)
  }

  lemma MovedLeft(stack: seq<Frame>, disk: Disk)
    requires stack != [] && stack[|stack| - 1].pos < |Children(disk, stack[|stack| - 1].dir)|
    ensures Left(Moved(stack), disk) < Left(stack, disk)
  {
    assert Moved(stack)[..|stack| - 1] == stack[..|stack| - 1];
  }

  /** An inode never seen is remembered. */
  ghost predicate Finds(disk: Disk, s: Scan, t: Scan) {
    exists i :: i in disk && i in t.seen && i !in s.seen
  }

  /** A visit leaves nothing more to read, or remembers an inode never seen. */
  lemma VisitLeft(s: Scan, disk: Disk, policy: Policy, f: Frame, child: Child)
    ensures var t := Visit(s, disk, policy, f, child);
            s.seen <= t.seen && (Finds(disk, s, t) || (t.seen == s.seen && Left(t.stack, disk) <= Left(s.stack, disk)))
  {
    var t := Visit(s, disk, policy, f, child);
    if child.inode in disk && child.inode !in s.seen && Countable(disk, policy, child.inode) {
      if Tracked(disk[child.inode]) {
        assert child.inode in t.seen;
      } else {
        assert t.seen == s.seen && (t.stack == s.stack || t.stack == []);
      }
    }
  }

  lemma LeftFalls(s: Scan, disk: Disk, policy: Policy)
    requires s.stack != []
    ensures var t := Step(s, disk, policy);
            s.seen <= t.seen && (Finds(disk, s, t) || (t.seen == s.seen && Left(t.stack, disk) < Left(s.stack, disk)))
  {
    var f := s.stack[|s.stack| - 1];
    if f.pos < |Children(disk, f.dir)| {
      MovedLeft(s.stack, disk);
      ReadFalls(s, s.(stack := Moved(s.stack), count := s.count + 1), disk, policy, f);
    } else {
      CloseFalls(s, disk, policy);
    }
  }

  lemma CloseFalls(s: Scan, disk: Disk, policy: Policy)
    requires s.stack != [] && s.stack[|s.stack| - 1].pos >= |Children(disk, s.stack[|s.stack| - 1].dir)|
    ensures var t := Step(s, disk, policy); t.seen == s.seen && Left(t.stack, disk) < Left(s.stack, disk)
  {
  }

  lemma ReadFalls(s: Scan, read: Scan, disk: Disk, policy: Policy, f: Frame)
    requires f.pos < |Children(disk, f.dir)| && read.seen == s.seen && Left(read.stack, disk) < Left(s.stack, disk)
    ensures var t := Visit(read, disk, policy, f, Children(disk, f.dir)[f.pos]);
            s.seen <= t.seen && (Finds(disk, s, t) || (t.seen == s.seen && Left(t.stack, disk) < Left(s.stack, disk)))
  {
    VisitLeft(read, disk, policy, f, Children(disk, f.dir)[f.pos]);
  }

  /** Something unseen was found, or some of what is left was read. */
  ghost predicate Falls(disk: Disk, s: Scan, t: Scan) {
    || disk.Keys - t.seen < disk.Keys - s.seen
    || (disk.Keys - t.seen == disk.Keys - s.seen && Left(t.stack, disk) < Left(s.stack, disk))
  }

  /** Turns of the scan use up what is left to read, or find a directory or a linked file never seen. */
  lemma {:induction false} RunFalls(s: Scan, disk: Disk, policy: Policy, n: nat)
    requires s.stack != [] && n > 0
    ensures s.seen <= Run(s, disk, policy, n).seen && Falls(disk, s, Run(s, disk, policy, n))
    decreases n
  {
    var before := Run(s, disk, policy, n - 1);
    if n > 1 {
      RunFalls(s, disk, policy, n - 1);
    }
    if before.stack != [] {
      LeftFalls(before, disk, policy);
      assert Run(s, disk, policy, n) == Step(before, disk, policy);
    }
  }

  /** A scan that took so many turns from the beginning. */
  ghost predicate After(disk: Disk, policy: Policy, n: nat, s: Scan) {
    s == Run(Begin(disk, policy), disk, policy, n)
  }

  /** Where a sample goes on from: from the beginning if nothing is open and a scan is due. */
  function Resumption(s: Scan, disk: Disk, policy: Policy, due: bool): Scan {
    if s.stack == [] && due then Begin(disk, policy) else s
  }

  /** So many turns were taken from there, and some if anything was open and the budgets allow one. */
  ghost predicate Sampled(before: Scan, after: Scan, disk: Disk, policy: Policy, turns: nat, allowed: bool) {
    after == Run(before, disk, policy, turns) && (before.stack != [] && allowed ==> turns > 0)
  }

  /** The first sample of a due scan. */
  lemma SampledFirst(s: Scan, after: Scan, disk: Disk, policy: Policy, turns: nat, allowed: bool)
    requires s.stack == [] && Sampled(Resumption(s, disk, policy, true), after, disk, policy, turns, allowed)
    ensures After(disk, policy, turns, after)
  {
  }

  /** More turns after a run are a longer run, and use something up. */
  lemma Resumed(before: Scan, after: Scan, disk: Disk, policy: Policy, total: nat, turns: nat, due: bool)
    requires After(disk, policy, total, before) && before.stack != []
    requires Sampled(Resumption(before, disk, policy, due), after, disk, policy, turns, true)
    ensures After(disk, policy, total + turns, after) && Falls(disk, before, after)
  {
    RunAdds(Begin(disk, policy), disk, policy, total, turns);
    RunFalls(before, disk, policy, turns);
  }

  /** A run that has come to an end is where every run that does ends, and its report is right. */
  lemma Ended(disk: Disk, policy: Policy, total: nat)
    requires Run(Begin(disk, policy), disk, policy, total).stack == []
    ensures forall n :: Run(Begin(disk, policy), disk, policy, n).stack == [] ==>
              Run(Begin(disk, policy), disk, policy, n) == Run(Begin(disk, policy), disk, policy, total)
    ensures WellFormed(disk, policy) && Run(Begin(disk, policy), disk, policy, total).denied == 0 ==>
              exists found :: Report(Run(Begin(disk, policy), disk, policy, total), disk, policy, found)
    ensures WellFormed(disk, policy) && Run(Begin(disk, policy), disk, policy, total).denied > 0 ==>
              Obstructed(disk, policy) || exists m: nat :: LimitedAt(disk, policy, m)
  {
    forall n: nat | Run(Begin(disk, policy), disk, policy, n).stack == []
      ensures Run(Begin(disk, policy), disk, policy, n) == Run(Begin(disk, policy), disk, policy, total)
    {
      if n <= total {
        EndsAlike(Begin(disk, policy), disk, policy, n, total);
      } else {
        EndsAlike(Begin(disk, policy), disk, policy, total, n);
      }
    }
    if WellFormed(disk, policy) && Run(Begin(disk, policy), disk, policy, total).denied == 0 {
      CompleteScan(disk, policy, total);
    }
    if WellFormed(disk, policy) && Run(Begin(disk, policy), disk, policy, total).denied > 0 {
      WhyIncomplete(disk, policy, total);
    }
  }

  class Scanner {
    const disk: Disk
    const policy: Policy
    const interval: int
    var stack: seq<Frame>
    var seen: set<Inode>
    var sizes: map<Bucket, nat>
    var files: seq<Sized>
    var denied: nat
    var count: nat
    var lastFinished: Option<int>
    var result: Option<Result>

    function View(): Scan
      reads this
    {
      Scan(stack, seen, sizes, files, denied, count)
    }

    constructor (disk: Disk, policy: Policy, interval: int)
      requires interval > 0
      ensures this.disk == disk && this.policy == policy && this.interval == interval
      ensures View() == Empty && lastFinished == None && result == None
    {
      this.disk, this.policy, this.interval := disk, policy, interval;
      stack, seen, sizes, files, denied, count := [], {}, map[], [], 0, 0;
      lastFinished, result := None, None;
    }

    predicate Due(clock: int)
      reads this
    {
      lastFinished.Some? ==> clock - lastFinished.value >= interval
    }

    method EnterDirectory(inode: Inode, root: string, text: string, parts: seq<string>)
      modifies this`stack, this`denied
      ensures View() == Enter(old(View()), disk, inode, root, text, parts)
    {
      if |stack| >= MAX_OPEN {
        denied := denied + 1;
      } else if inode !in disk || !disk[inode].kind.Directory? || disk[inode].kind.listing.Closed? {
        denied := denied + 1;
      } else {
        stack := stack + [Frame(inode, root, text, parts, 0)];
      }
    }

    method Restart()
      modifies this`stack, this`seen, this`sizes, this`files, this`denied, this`count
      ensures View() == Begin(disk, policy)
    {
      stack, seen, sizes, files, denied, count := [], {}, map[], [], 0, 0;
      for i := 0 to |policy.roots|
        invariant View() == EnterRoots(Empty, disk, policy, i)
      {
        var root := policy.roots[i];
        if root.inode !in disk {
          denied := denied + 1;
        } else if disk[root.inode].device == policy.device {
          EnterDirectory(root.inode, root.text, root.text, []);
        }
      }
    }

    method AddEntry(f: Frame, child: Child)
      requires child.inode in disk
      modifies this`stack, this`seen, this`sizes, this`files, this`denied
      ensures View() == Add(old(View()), disk, policy, f, child)
    {
      var info := disk[child.inode];
      if info.kind.Directory? || info.links > 1 {
        seen := seen + {child.inode};
      }
      var bucket := BucketOf(f, child.name, info);
      sizes := sizes[bucket := SizeIn(sizes, bucket) + info.size];
      if info.kind.Directory? {
        EnterDirectory(child.inode, f.root, Join(f.text, child.name), f.parts + [child.name]);
      } else if info.kind.Regular? {
        files := Push(files, Sized(info.size, Join(f.text, child.name)));
      }
      if |seen| >= policy.maxInodes {
        stack := [];
        denied := denied + 1;
      }
    }

    method VisitEntry(f: Frame, child: Child)
      modifies this`stack, this`seen, this`sizes, this`files, this`denied
      ensures View() == Visit(old(View()), disk, policy, f, child)
    {
      if child.inode !in disk {
        denied := denied + 1;
      } else if Countable(disk, policy, child.inode) && child.inode !in seen {
        AddEntry(f, child);
      }
    }

    /** One turn of the loop; true when an entry was read. */
    method Turn() returns (entry: bool)
      requires stack != []
      modifies this`stack, this`seen, this`sizes, this`files, this`denied, this`count
      ensures View() == Step(old(View()), disk, policy)
    {
      var f := stack[|stack| - 1];
      entry := f.pos < |Children(disk, f.dir)|;
      if entry {
        ReadEntry(f);
      } else {
        CloseDirectory(f);
      }
    }

    method ReadEntry(f: Frame)
      requires stack != [] && f == stack[|stack| - 1] && f.pos < |Children(disk, f.dir)|
      modifies this`stack, this`seen, this`sizes, this`files, this`denied, this`count
      ensures View() == Visit(old(View()).(stack := Moved(old(stack)), count := old(count) + 1), disk, policy, f,
                              Children(disk, f.dir)[f.pos])
    {
      stack := Moved(stack);
      count := count + 1;
      VisitEntry(f, Children(disk, f.dir)[f.pos]);
    }

    /** The innermost directory has nothing more to list. */
    method CloseDirectory(f: Frame)
      requires stack != []
      modifies this`stack, this`denied
      ensures View() == old(View()).(stack := old(stack)[..|old(stack)| - 1],
                                     denied := old(denied) + if Broken(disk, f.dir) then 1 else 0)
    {
      if Broken(disk, f.dir) {
        denied := denied + 1;
      }
      stack := stack[..|stack| - 1];
    }

    /** One slice: at most `budget` entries and `slots` turns, which is where the time budget ran out. */
    method Slice(slots: nat, budget: nat) returns (turns: nat)
      modifies this`stack, this`seen, this`sizes, this`files, this`denied, this`count
      ensures View() == Run(old(View()), disk, policy, turns)
      ensures old(stack) != [] && slots > 0 && budget > 0 ==> turns > 0
    {
      var processed := 0;
      turns := 0;
      while stack != [] && processed < budget && turns < slots
        invariant turns <= slots && View() == Run(old(View()), disk, policy, turns)
        invariant processed <= turns
        decreases slots - turns
      {
        var entry := Turn();
        turns := turns + 1;
        if entry {
          processed := processed + 1;
        }
      }
    }

    /** One sample. `turns` turns of the scan were taken, from the beginning if one was due; `now` is the wall
        clock, `clock` the monotonic one. */
    method Sample(now: int, clock: int, slots: nat, budget: nat) returns (turns: nat)
      modifies this
      ensures Sampled(Resumption(old(View()), disk, policy, old(Due(clock))), View(), disk, policy, turns, slots > 0 && budget > 0)
      ensures (result, lastFinished) == if old(Due(clock)) && stack == [] then Reported(now, clock) else old((result, lastFinished))
    {
      turns := Take(clock, slots, budget);
      if stack == [] && Due(clock) {
        result := Some(Result(denied == 0, View(), now));
        lastFinished := Some(clock);
      }
    }

    /** What is reported when a scan has come to an end. */
    function Reported(now: int, clock: int): (Option<Result>, Option<int>)
      reads this
    {
      (Some(Result(denied == 0, View(), now)), Some(clock))
    }

    /** The turns of one sample. */
    method Take(clock: int, slots: nat, budget: nat) returns (turns: nat)
      modifies this`stack, this`seen, this`sizes, this`files, this`denied, this`count
      ensures Sampled(Resumption(old(View()), disk, policy, old(Due(clock))), View(), disk, policy, turns, slots > 0 && budget > 0)
    {
      if stack == [] && Due(clock) {
        Restart();
      }
      turns := Slice(slots, budget);
    }

    /** A further sample of an unfinished scan. */
    method Resume(now: int, clock: int, slots: nat, budget: nat, ghost total: nat) returns (ghost more: nat)
      requires stack != [] && Due(clock) && slots > 0 && budget > 0
      requires After(disk, policy, total, View())
      modifies this
      ensures After(disk, policy, more, View()) && Falls(disk, old(View()), View())
      ensures (result, lastFinished) == if stack == [] then Reported(now, clock) else old((result, lastFinished))
    {
      ghost var before := View();
      var turns := Sample(now, clock, slots, budget);
      Resumed(before, View(), disk, policy, total, turns, true);
      more := total + turns;
    }

    /** A due scan, taken in slices of any positive budgets at any wall-clock readings and at monotonic ones, comes
        to an end. It ends as a single run of any length that comes to an end does, stamped by the sample
        that ended it, and if it reports itself complete the report is right; if not, there is a reason. */
    method ScanToEnd(walls: nat -> int, clocks: nat -> int, slots: nat -> nat, budgets: nat -> nat) returns (samples: nat)
      requires stack == [] && Due(clocks(0))
      requires forall i, j :: 0 <= i <= j ==> clocks(i) <= clocks(j)
      requires forall i :: slots(i) > 0 && budgets(i) > 0
      modifies this
      ensures samples > 0 && stack == [] && (result, lastFinished) == Reported(walls(samples - 1), clocks(samples - 1))
      ensures forall n :: Run(Begin(disk, policy), disk, policy, n).stack == [] ==>
                Run(Begin(disk, policy), disk, policy, n) == View()
      ensures WellFormed(disk, policy) && denied == 0 ==> exists found :: Report(View(), disk, policy, found)
      ensures WellFormed(disk, policy) && denied > 0 ==>
                Obstructed(disk, policy) || exists m: nat :: LimitedAt(disk, policy, m)
    {
      ghost var before := View();
      ghost var total := Sample(walls(0), clocks(0), slots(0), budgets(0));
      SampledFirst(before, View(), disk, policy, total, true);
      samples := 1;
      while stack != []
        invariant samples > 0 && After(disk, policy, total, View())
        invariant if stack == [] then (result, lastFinished) == Reported(walls(samples - 1), clocks(samples - 1))
                  else lastFinished == old(lastFinished)
        decreases disk.Keys - seen, Left(stack, disk)
      {
        assert clocks(0) <= clocks(samples);
        total := Resume(walls(samples), clocks(samples), slots(samples), budgets(samples), total);
        samples := samples + 1;
      }
      Ended(disk, policy, total);
    }
  }
}
