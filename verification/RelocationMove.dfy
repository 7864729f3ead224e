/** The first part of a relocation: the copy, its comparison with the admitted manifest, the flush, and the first
    check for late writers. Every durable state it passes through is safe and leaves the public names alone. */
module RelocationMove {
  import opened Basics
  import opened LinkRewrite
  import opened RelocationModel
  import opened RelocationHost

  // ---- Stages before publication ----

  lemma NotPublishedSafe(job: Job, d: Disk)
    requires job.WellFormed() && NotPublished(job, d)
    ensures Safe(job, d) && PayloadKept(d)
  {
    assert d.ns[job.original] == Payload;
  }

  function StagedTree(job: Job, d: Disk): Tree {
    if job.staging in d.ns && d.ns[job.staging].Replica? then d.ns[job.staging].tree else map[]
  }

  /** Everything a manifest comparison sees of one copied name. File contents are compared separately. */
  predicate MetadataMatches(job: Job, rel: Rel, before: Entry, copy: Entry) {
    match before
    case File(_, meta) => copy.File? && copy.meta == meta
    case Folder(mode) => copy == Folder(mode)
    case Symlink(mode, to) => copy == Symlink(mode, CopiedLink(job.spelled, rel, to))
  }

  predicate DataMatches(rel: Rel, a: Tree, b: Tree) {
    rel in a && a[rel].File? && rel in b && b[rel].File? && a[rel].data == b[rel].data
  }

  predicate CopyAccepted(job: Job, copy: Tree) {
    && (forall rel :: rel in job.names ==> rel in copy)
    && (forall rel :: rel in copy ==> rel in job.manifest && MetadataMatches(job, rel, job.manifest[rel], copy[rel]))
  }

  lemma AcceptedIsCopy(job: Job, copy: Tree)
    requires job.WellFormed() && CopyAccepted(job, copy)
    requires forall rel :: rel in job.manifest && job.manifest[rel].File? ==> DataMatches(rel, job.manifest, copy)
    ensures copy == job.Copy()
  {
    forall rel | rel in copy ensures copy[rel] == job.Copy()[rel] {
    }
    forall rel | rel in job.manifest ensures rel in copy {
      assert rel in job.names;
    }
  }

  /** Without a change since admission the original is as admitted. Changes made before the mutation
      guard was installed are counted but not queued. */
  ghost predicate Tracked(job: Job, w: Writers, admitted: nat) {
    && w.version - w.queued >= admitted
    && (w.version == admitted ==> w.live == job.manifest)
  }

  /** Every change since admission is queued. */
  ghost predicate FullyTracked(job: Job, w: Writers, admitted: nat) {
    Tracked(job, w, admitted) && w.version - w.queued == admitted
  }

  lemma DriftTracked(job: Job, w: Writers, v: Writers, admitted: nat)
    requires Tracked(job, w, admitted) && Drifts(w, v)
    ensures Tracked(job, v, admitted)
  {
  }

  /** Only the staging tree has been added to the namespace. */
  ghost predicate Private(job: Job, d: Disk) {
    && NotPublished(job, d)
    && forall q :: q in d.ns ==> q in job.base || q == job.staging
  }

  /** A move that works on its staging tree under an unpublished journal. */
  ghost predicate Working(h: Host, job: Job, admitted: nat)
    reads h
  {
    && job.WellFormed() && h.AllSafe(job) && Private(job, h.disk) && Tracked(job, h.writers, admitted)
  }

  lemma StorePrivate(job: Job, d: Disk, tree: Tree)
    requires job.WellFormed() && Private(job, d)
    ensures Private(job, Apply(d, Store(job.staging, tree)))
    ensures Safe(job, Apply(d, Store(job.staging, tree))) && PayloadKept(Apply(d, Store(job.staging, tree)))
  {
    NotPublishedSafe(job, Apply(d, Store(job.staging, tree)));
  }

  lemma SavePrivate(job: Job, d: Disk, phase: Phase)
    requires job.WellFormed() && Private(job, d) && phase != Published
    ensures Private(job, Apply(d, SaveJournal(job.NewRecord(phase))))
    ensures Safe(job, Apply(d, SaveJournal(job.NewRecord(phase)))) && PayloadKept(Apply(d, SaveJournal(job.NewRecord(phase))))
  {
    NotPublishedSafe(job, Apply(d, SaveJournal(job.NewRecord(phase))));
  }

  method StoreStaging(h: Host, ghost job: Job, staging: Path, tree: Tree, ghost admitted: nat) returns (r: Outcome)
    requires Working(h, job, admitted) && staging == job.staging
    modifies h`disk, h`writers, h`fate, h`trace, h`grounds
    ensures Working(h, job, admitted) && h.disk.journal == old(h.disk.journal)
    ensures r.Done? ==> h.disk.ns == old(h.disk.ns)[job.staging := Replica(tree)]
    ensures Calm(old(h.fate), old(h.writers)) ==> r == Done && h.fate == [] && h.writers == old(h.writers)
  {
    StorePrivate(job, h.disk, tree);
    r := h.Do(job, Store(staging, tree));
    DriftTracked(job, old(h.writers), h.writers, admitted);
  }

  method SavePhase(h: Host, job: Job, phase: Phase, ghost admitted: nat) returns (r: Outcome)
    requires Working(h, job, admitted) && phase != Published
    modifies h`disk, h`writers, h`fate, h`trace, h`grounds
    ensures Working(h, job, admitted) && h.disk.ns == old(h.disk.ns) && h.disk.flushed == old(h.disk.flushed)
    ensures Drifts(old(h.writers), h.writers)
    ensures r.Done? ==> h.disk.journal == Some(job.NewRecord(phase))
    ensures Calm(old(h.fate), old(h.writers)) ==> r == Done && h.fate == [] && h.writers == old(h.writers)
  {
    SavePrivate(job, h.disk, phase);
    r := h.Do(job, SaveJournal(job.NewRecord(phase)));
    DriftTracked(job, old(h.writers), h.writers, admitted);
  }

  /** The transfer writes to the staging tree, step by step. */
  method ReceiveAll(h: Host, job: Job, received: seq<Tree>, ghost admitted: nat) returns (r: Outcome)
    requires Working(h, job, admitted)
    modifies h`disk, h`writers, h`fate, h`trace, h`grounds
    ensures Working(h, job, admitted) && h.disk.journal == old(h.disk.journal)
    ensures Calm(old(h.fate), old(h.writers)) ==> r == Done && h.fate == [] && h.writers == old(h.writers)
    ensures r.Done? && received != [] ==> StagedTree(job, h.disk) == received[|received| - 1]
  {
    for i := 0 to |received|
      invariant Working(h, job, admitted) && h.disk.journal == old(h.disk.journal)
      invariant Calm(old(h.fate), old(h.writers)) ==> h.fate == [] && h.writers == old(h.writers)
      invariant i > 0 ==> StagedTree(job, h.disk) == received[i - 1]
    {
      :- StoreStaging(h, job, job.staging, received[i], admitted);
    }
    r := Done;
  }

  /** Every link that leaves the unit is rewritten. */
  method RelinkAll(h: Host, job: Job, ghost admitted: nat) returns (r: Outcome)
    requires Working(h, job, admitted)
    modifies h`disk, h`writers, h`fate, h`trace, h`grounds
    ensures Working(h, job, admitted) && h.disk.journal == old(h.disk.journal)
    ensures Calm(old(h.fate), old(h.writers)) && StagedTree(job, old(h.disk)) == job.manifest ==>
              r == Done && h.fate == [] && h.writers == old(h.writers) && StagedTree(job, h.disk) == job.Copy()
  {
    ghost var complete := Calm(h.fate, h.writers) && StagedTree(job, h.disk) == job.manifest;
    assert complete ==> StagedTree(job, h.disk) == Relinked(job, 0);
    for i := 0 to |job.names|
      invariant Working(h, job, admitted) && h.disk.journal == old(h.disk.journal)
      invariant complete ==> h.fate == [] && h.writers == old(h.writers) && StagedTree(job, h.disk) == Relinked(job, i)
    {
      RelinkedNext(job, i);
      :- Relink(h, job, job.names[i], admitted);
    }
    RelinkedAll(job);
    r := Done;
  }

  /** Fills the staging tree with whatever the transfer produced and rewrites links that leave the unit. */
  method Transfer(h: Host, job: Job, received: seq<Tree>, ghost admitted: nat) returns (r: Outcome)
    requires Working(h, job, admitted)
    modifies h`disk, h`writers, h`fate, h`trace, h`grounds
    ensures Working(h, job, admitted) && h.disk.journal == old(h.disk.journal)
    ensures Calm(old(h.fate), old(h.writers)) && received != [] && received[|received| - 1] == job.manifest ==>
              r == Done && h.fate == [] && h.writers == old(h.writers) && StagedTree(job, h.disk) == job.Copy()
  {
    r := ReceiveAll(h, job, received, admitted);
    if r.Done? {
      r := RelinkAll(h, job, admitted);
    }
  }

  /** What relinking leaves of a received entry. */
  function RelinkedEntry(job: Job, rel: Rel, received: Entry): Entry
    requires rel in job.manifest
  {
    var expected := CopyEntry(job.spelled, rel, job.manifest[rel]);
    if expected != job.manifest[rel] then expected else received
  }

  /** The staging tree after the first `n` names of a complete transfer have been relinked. */
  function Relinked(job: Job, n: nat): Tree
    requires n <= |job.names|
  {
    map rel | rel in job.manifest ::
      if rel in job.names[..n] then CopyEntry(job.spelled, rel, job.manifest[rel]) else job.manifest[rel]
  }

  lemma RelinkedNext(job: Job, i: nat)
    requires job.WellFormed() && i < |job.names|
    ensures job.names[i] in job.manifest
    ensures Relinked(job, i + 1)
         == Relinked(job, i)[job.names[i] := RelinkedEntry(job, job.names[i], Relinked(job, i)[job.names[i]])]
  {
    assert job.names[..i + 1] == job.names[..i] + [job.names[i]];
    assert job.names[i] in job.names;
  }

  lemma RelinkedAll(job: Job)
    requires job.WellFormed()
    ensures Relinked(job, |job.names|) == job.Copy()
  {
    assert job.names[..|job.names|] == job.names;
  }

  /** The copy of the manifest is accepted. */
  lemma CopyMatches(job: Job)
    requires job.WellFormed()
    ensures CopyAccepted(job, job.Copy())
    ensures forall rel :: rel in job.manifest && job.manifest[rel].File? ==> DataMatches(rel, job.manifest, job.Copy())
  {
  }

  /** Names admitted before the copy resolve as they did while only the staging tree is added. */
  lemma {:induction false} PrivateChain(job: Job, d: Disk, p: Path, n: nat)
    requires job.WellFormed() && NotPublished(job, d) && Resolve(job.base, p, n) == Some(job.original)
    ensures Resolve(d.ns, p, n) == Some(job.original)
    decreases n
  {
    if job.base[p].Link? {
      PrivateChain(job, d, job.base[p].to, n - 1);
    }
  }

  /** Unlinks one copied name and links it again. */
  method Replace(h: Host, job: Job, rel: Rel, expected: Entry, ghost admitted: nat) returns (r: Outcome)
    requires Working(h, job, admitted)
    modifies h`disk, h`writers, h`fate, h`trace, h`grounds
    ensures Working(h, job, admitted) && h.disk.journal == old(h.disk.journal)
    ensures Calm(old(h.fate), old(h.writers)) ==>
              r == Done && h.fate == [] && h.writers == old(h.writers)
              && StagedTree(job, h.disk) == StagedTree(job, old(h.disk))[rel := expected]
  {
    var current := StagedTree(job, h.disk);
    :- StoreStaging(h, job, job.staging, current - {rel}, admitted);
    assert (current - {rel})[rel := expected] == current[rel := expected];
    r := StoreStaging(h, job, job.staging, (current - {rel})[rel := expected], admitted);
  }

  /** Replaces one copied link whose target must be named through the public namespace. */
  method Relink(h: Host, job: Job, rel: Rel, ghost admitted: nat) returns (r: Outcome)
    requires Working(h, job, admitted) && rel in job.manifest
    modifies h`disk, h`writers, h`fate, h`trace, h`grounds
    ensures Working(h, job, admitted) && h.disk.journal == old(h.disk.journal)
    ensures Calm(old(h.fate), old(h.writers)) && rel in StagedTree(job, old(h.disk)) ==>
              r == Done && h.fate == [] && h.writers == old(h.writers)
              && StagedTree(job, h.disk) == StagedTree(job, old(h.disk))[rel := RelinkedEntry(job, rel, StagedTree(job, old(h.disk))[rel])]
  {
    var expected := CopyEntry(job.spelled, rel, job.manifest[rel]);
    if expected != job.manifest[rel] {
      if rel !in StagedTree(job, h.disk) {
        return Raised;
      }
      :- Replace(h, job, rel, expected, admitted);
    }
    r := Done;
  }

  /** Compares content, then both manifests. Success means the staging tree is the copy of the manifest. */
  method Compare(h: Host, job: Job, admitted: nat) returns (r: Outcome)
    requires job.WellFormed()
    requires Tracked(job, h.writers, admitted)
    modifies h`writers, h`fate
    ensures Tracked(job, h.writers, admitted)
    ensures r.Done? ==> StagedTree(job, h.disk) == job.Copy() && FullyTracked(job, h.writers, admitted)
    ensures Calm(old(h.fate), old(h.writers)) && StagedTree(job, h.disk) == job.Copy() && old(h.writers).version == admitted ==>
              r == Done && h.fate == [] && h.writers == old(h.writers)
  {
    var copy := StagedTree(job, h.disk);
    CopyMatches(job);
    for i := 0 to |job.names|
      invariant Tracked(job, h.writers, admitted)
      invariant Calm(old(h.fate), old(h.writers)) ==> h.fate == [] && h.writers == old(h.writers)
      invariant h.writers.version == admitted ==>
        forall k :: 0 <= k < i && job.manifest[job.names[k]].File? ==> DataMatches(job.names[k], job.manifest, copy)
    {
      var rel := job.names[i];
      assert rel in job.manifest;
      if job.manifest[rel].File? {
        :- h.Happen();
        if !DataMatches(rel, h.writers.live, copy) {
          return Raised;
        }
      }
    }
    :- h.Happen();
    if h.writers.version != admitted || !CopyAccepted(job, copy) {
      return Raised;
    }
    forall rel | rel in job.manifest && job.manifest[rel].File? ensures DataMatches(rel, job.manifest, copy) {
      assert rel in job.names;
    }
    AcceptedIsCopy(job, copy);
    r := Done;
  }

  /** Verified: the staging tree is the flushed copy, and nothing else has changed. */
  ghost predicate Ready(job: Job, d: Disk) {
    && Private(job, d) && d.journal.value.phase == Verified
    && job.staging in d.ns && d.ns[job.staging] == Replica(job.Copy()) && d.flushed
  }

  method FlushCopy(h: Host, job: Job, ghost admitted: nat) returns (r: Outcome)
    requires Working(h, job, admitted)
    modifies h`disk, h`writers, h`fate, h`trace, h`grounds
    ensures Working(h, job, admitted) && h.disk.ns == old(h.disk.ns)
    ensures Drifts(old(h.writers), h.writers)
    ensures r.Done? ==> h.disk.flushed
    ensures Calm(old(h.fate), old(h.writers)) ==> r == Done && h.fate == [] && h.writers == old(h.writers)
  {
    NotPublishedSafe(job, Apply(h.disk, Flush));
    r := h.Do(job, Flush);
    DriftTracked(job, old(h.writers), h.writers, admitted);
  }

  /** The first late check: no queued change, no holder, and the public path still leads to the original.
      Passing proves that nobody had changed the original since admission when the events were drained, and
      that the scan which followed found no holder. */
  method StillQuiet(h: Host, job: Job, ghost admitted: nat) returns (r: Outcome)
    requires FullyTracked(job, h.writers, admitted)
    modifies h`writers, h`fate, h`looks
    ensures r.Done? ==> FullyTracked(job, h.writers, admitted)
    ensures old(h.looks) <= h.looks && |h.looks| <= |old(h.looks)| + 2
    ensures r.Done? ==> old(h.writers).version == admitted && h.looks == old(h.looks) + Clean(admitted, job.manifest)
    ensures r.Done? && job.mode != Plain ==>
      Resolve(h.disk.ns, job.source, job.hops) == Resolve(h.disk.ns, job.original, job.hops)
    ensures Calm(old(h.fate), old(h.writers)) && Resolve(h.disk.ns, job.source, job.hops) == Resolve(h.disk.ns, job.original, job.hops) ==>
              r == Done && h.fate == [] && h.writers == old(h.writers)
  {
    var changed :- h.Drain();
    if changed {
      return Raised;
    }
    var held :- h.Scan();
    if held {
      return Raised;
    }
    if job.mode != Plain && Resolve(h.disk.ns, job.source, job.hops) != Resolve(h.disk.ns, job.original, job.hops) {
      return Raised;
    }
    r := Done;
  }

  lemma StagedReplica(job: Job, d: Disk)
    requires NotPublished(job, d) && job.manifest != map[] && StagedTree(job, d) == job.Copy()
    ensures job.staging in d.ns && d.ns[job.staging] == Replica(job.Copy())
  {
    assert job.Copy().Keys == job.manifest.Keys;
  }

  /** Compared, flushed, and with every change since admission still queued. */
  ghost predicate Flushed(h: Host, job: Job, admitted: nat)
    reads h
  {
    && Working(h, job, admitted) && FullyTracked(job, h.writers, admitted)
    && job.staging in h.disk.ns && h.disk.ns[job.staging] == Replica(job.Copy()) && h.disk.flushed
  }

  method CompareAndFlush(h: Host, job: Job, admitted: nat) returns (r: Outcome)
    requires Working(h, job, admitted)
    modifies h`disk, h`writers, h`fate, h`trace, h`grounds
    ensures Working(h, job, admitted)
    ensures r.Done? ==> Flushed(h, job, admitted)
    ensures Calm(old(h.fate), old(h.writers)) && StagedTree(job, old(h.disk)) == job.Copy() && old(h.writers).version == admitted ==>
              r == Done && h.fate == [] && h.writers == old(h.writers)
  {
    r := Compare(h, job, admitted);
    if !r.Done? {
      return;
    }
    StagedReplica(job, h.disk);
    :- SavePhase(h, job, Syncing, admitted);
    :- FlushCopy(h, job, admitted);
    r := Done;
  }

  method SaveVerified(h: Host, job: Job, ghost admitted: nat) returns (r: Outcome)
    requires Flushed(h, job, admitted)
    modifies h
    ensures h.AllSafe(job) && Private(job, h.disk)
    ensures old(h.looks) <= h.looks && |h.looks| <= |old(h.looks)| + 2
    ensures r.Done? ==> Ready(job, h.disk) && FullyTracked(job, h.writers, admitted)
    ensures r.Done? ==> old(h.writers).version == admitted && h.looks == old(h.looks) + Clean(admitted, job.manifest)
    ensures Calm(old(h.fate), old(h.writers)) && Resolve(job.base, job.source, job.hops) == Some(job.original) && job.hops > 0 ==>
              r == Done && h.fate == [] && h.writers == old(h.writers)
  {
    if Resolve(job.base, job.source, job.hops) == Some(job.original) && job.hops > 0 {
      PrivateChain(job, h.disk, job.source, job.hops);
      PrivateChain(job, h.disk, job.original, job.hops);
    }
    r := StillQuiet(h, job, admitted);
    if r.Done? {
      r := SavePhase(h, job, Verified, admitted);
    }
  }

  /** From admission to the verified copy. A change or a holder found before verification stops the move. */
  method CopyAndVerify(h: Host, job: Job, received: seq<Tree>, admitted: nat) returns (r: Outcome)
    requires Working(h, job, admitted)
    modifies h
    ensures h.AllSafe(job) && Private(job, h.disk)
    ensures old(h.looks) <= h.looks && |h.looks| <= |old(h.looks)| + 2
    ensures r.Done? ==> Ready(job, h.disk) && FullyTracked(job, h.writers, admitted)
    ensures r.Done? ==> h.looks == old(h.looks) + Clean(admitted, job.manifest)
    ensures Calm(old(h.fate), old(h.writers)) && old(h.writers).version == admitted
            && received != [] && received[|received| - 1] == job.manifest
            && Resolve(job.base, job.source, job.hops) == Some(job.original) ==>
              r == Done && h.fate == [] && h.writers == old(h.writers)
  {
    r := Transfer(h, job, received, admitted);
    if !r.Done? {
      return;
    }
    :- SavePhase(h, job, Verifying, admitted);
    :- CompareAndFlush(h, job, admitted);
    r := SaveVerified(h, job, admitted);
  }
}
