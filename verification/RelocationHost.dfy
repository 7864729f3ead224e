/** The machine a relocation runs on. Each durable operation is one call of `Do`; before it the writers
    of the original tree act as the script says, and the operation itself is done, raises, or the
    process dies. `trace` keeps every durable state the machine was in, so whatever holds of each
    element of `trace` holds after a crash between any two durable operations. `looks` keeps what the
    processes that ran on it have observed of the writers. */
module RelocationHost {
  import opened Basics
  import opened RelocationModel

  datatype Act = Write(tree: Tree) | Open | Close

  datatype Moment = Moment(acts: seq<Act>, outcome: Outcome)

  /** The writers' side: the original tree as they left it, how often they changed it, the change
      events not yet drained, and whether a process holds a handle on it. */
  datatype Writers = Writers(live: Tree, version: nat, queued: nat, open: bool)

  function Perform(w: Writers, acts: seq<Act>): Writers
    decreases |acts|
  {
    if acts == [] then w
    else
      var next := match acts[0]
        case Write(tree) => Writers(tree, w.version + 1, w.queued + 1, w.open)
        case Open => w.(open := true)
        case Close => w.(open := false);
      Perform(next, acts[1..])
  }

  /** What writers can do between two observations: each change is counted and queued. */
  predicate Drifts(w: Writers, v: Writers) {
    && w.version <= v.version
    && v.queued - w.queued == v.version - w.version
    && (v.version == w.version ==> v.live == w.live)
  }

  lemma {:induction false} PerformDrifts(w: Writers, acts: seq<Act>)
    ensures Drifts(w, Perform(w, acts))
    decreases |acts|
  {
    if acts != [] {
      match acts[0]
      case Write(tree) => PerformDrifts(Writers(tree, w.version + 1, w.queued + 1, w.open), acts[1..]);
      case Open => PerformDrifts(w.(open := true), acts[1..]);
      case Close => PerformDrifts(w.(open := false), acts[1..]);
    }
  }

  /** Nothing fails from here on, no change is queued and nobody holds the original. */
  predicate Calm(fate: seq<Moment>, w: Writers) {
    fate == [] && w.queued == 0 && !w.open
  }

  /** What a process sees of the writers. A completed drain of its mutation guard: how often they had changed
      the original by then, and what it held. A completed scan for holders: whether one was found. A new
      process has seen nothing. */
  datatype Look = Started | Drained(version: nat, live: Tree) | Scanned(held: bool)

  /** A drain and a scan after it that found no holder. */
  function Clean(version: nat, live: Tree): seq<Look> {
    [Drained(version, live), Scanned(false)]
  }

  /** What the original held at the last drain, if the scan after it has found no holder. */
  function GroundOf(looks: seq<Look>): Option<Tree> {
    if |looks| >= 2 && looks[|looks| - 1] == Scanned(false) && looks[|looks| - 2].Drained?
    then Some(looks[|looks| - 2].live) else None
  }

  /** Deletions rest on what a drain showed only if the very next look was a scan that found no holder. */
  lemma GroundMeans(looks: seq<Look>, live: Tree)
    ensures GroundOf(looks) == Some(live) <==>
              exists before, version :: looks == before + [Drained(version, live), Scanned(false)]
  {
    if GroundOf(looks) == Some(live) {
      var n := |looks| - 2;
      assert looks == looks[..n] + [Drained(looks[n].version, live), Scanned(false)];
    }
  }

  /** One durable step deletes nothing of the original but what it held at that drain, as it was then, and
      the whole of it only after every name it held then has been deleted. */
  ghost predicate Accounted(d: Disk, e: Disk, ground: Option<Tree>) {
    && (forall rel :: rel in e.gone ==>
          (rel in d.gone && d.gone[rel] == e.gone[rel])
          || (ground.Some? && rel in ground.value && ground.value[rel] == e.gone[rel]))
    && (HasPayload(d.ns) ==> HasPayload(e.ns) || (ground.Some? && ground.value.Keys <= e.gone.Keys))
  }

  /** Every durable state is safe, and every step accounts for what it deletes. */
  ghost predicate Traced(job: Job, trace: seq<Disk>, grounds: seq<Option<Tree>>) {
    && trace != [] && |grounds| == |trace|
    && (forall i :: 0 <= i < |trace| ==> Safe(job, trace[i]))
    && (forall i {:trigger grounds[i]} :: 0 < i < |trace| ==> Accounted(trace[i - 1], trace[i], grounds[i]))
  }

  lemma TraceGrows(job: Job, trace: seq<Disk>, grounds: seq<Option<Tree>>, d: Disk, ground: Option<Tree>)
    requires Traced(job, trace, grounds) && Safe(job, d) && Accounted(trace[|trace| - 1], d, ground)
    ensures Traced(job, trace + [d], grounds + [ground])
  {
    var more, all := trace + [d], grounds + [ground];
    forall i {:trigger all[i]} | 0 < i < |more| ensures Accounted(more[i - 1], more[i], all[i]) {
      assert i < |trace| ==> all[i] == grounds[i] && more[i - 1] == trace[i - 1];
    }
  }

  class Host {
    var disk: Disk
    var writers: Writers
    var fate: seq<Moment>
    ghost var trace: seq<Disk>
    /** For each state of `trace` what its step rested on. */
    ghost var grounds: seq<Option<Tree>>
    ghost var looks: seq<Look>

    /** That holds of what has been recorded, up to the state the machine is in. */
    ghost predicate AllSafe(job: Job)
      reads this`disk, this`trace, this`grounds
    {
      Traced(job, trace, grounds) && trace[|trace| - 1] == disk
    }

    /** Nothing has happened yet. */
    ghost predicate New()
      reads this`disk, this`trace, this`grounds
    {
      trace == [disk] && grounds == [None]
    }

    constructor (disk: Disk, writers: Writers, fate: seq<Moment>)
      ensures this.disk == disk && this.writers == writers && this.fate == fate && New() && looks == []
    {
      this.disk := disk;
      this.writers := writers;
      this.fate := fate;
      this.trace := [disk];
      this.grounds := [None];
      this.looks := [];
    }

    /** A new process begins. */
    ghost method Enter()
      modifies this`looks
      ensures looks == old(looks) + [Started]
    {
      looks := looks + [Started];
    }

    /** One observation point: the writers act, and the step may raise or the process may die. */
    method Happen() returns (r: Outcome)
      modifies this`writers, this`fate
      ensures Drifts(old(writers), writers)
      ensures old(fate) == [] ==> r == Done && fate == [] && writers == old(writers)
    {
      if fate == [] {
        return Done;
      }
      PerformDrifts(writers, fate[0].acts);
      writers := Perform(writers, fate[0].acts);
      r := fate[0].outcome;
      fate := fate[1..];
    }

    method Do(ghost job: Job, op: Op) returns (r: Outcome)
      requires AllSafe(job)
      requires Enabled(disk, op) ==> Safe(job, Apply(disk, op)) && Accounted(disk, Apply(disk, op), GroundOf(looks))
      modifies this`disk, this`writers, this`fate, this`trace, this`grounds
      ensures AllSafe(job) && old(trace) <= trace
      ensures r.Done? ==> Enabled(old(disk), op) && disk == Apply(old(disk), op)
      ensures !r.Done? ==> disk == old(disk)
      ensures Drifts(old(writers), writers)
      ensures old(fate) == [] ==> fate == [] && writers == old(writers) && (Enabled(old(disk), op) ==> r == Done)
    {
      r := Happen();
      if r.Done? {
        if !Enabled(disk, op) {
          return Raised;
        }
        TraceGrows(job, trace, grounds, Apply(disk, op), GroundOf(looks));
        disk := Apply(disk, op);
        trace, grounds := trace + [disk], grounds + [GroundOf(looks)];
      }
    }

    /** Reads and discards the queued change events. */
    method Drain() returns (r: Outcome, changed: bool)
      modifies this`writers, this`fate, this`looks
      ensures writers.version >= old(writers.version)
      ensures writers.version == old(writers.version) ==> writers.live == old(writers.live)
      ensures r.Done? ==> writers.queued == 0
      ensures r.Done? ==> changed == (old(writers.queued) + (writers.version - old(writers.version)) > 0)
      ensures looks == if r.Done? then old(looks) + [Drained(writers.version, writers.live)] else old(looks)
      ensures !r.Done? ==> Drifts(old(writers), writers)
      ensures old(fate) == [] ==> fate == [] && r == Done && writers == old(writers).(queued := 0)
    {
      r := Happen();
      changed := writers.queued > 0;
      if r.Done? {
        writers := writers.(queued := 0);
        looks := looks + [Drained(writers.version, writers.live)];
      }
    }

    /** Looks for processes that hold the original tree. */
    method Scan() returns (r: Outcome, held: bool)
      modifies this`writers, this`fate, this`looks
      ensures Drifts(old(writers), writers)
      ensures r.Done? ==> held == writers.open
      ensures looks == if r.Done? then old(looks) + [Scanned(held)] else old(looks)
      ensures old(fate) == [] ==> fate == [] && r == Done && writers == old(writers)
    {
      r := Happen();
      held := writers.open;
      if r.Done? {
        looks := looks + [Scanned(held)];
      }
    }
  }
}
