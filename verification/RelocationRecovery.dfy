/** Recovery of a published move and abort of an unpublished one. Both take what they need from the
    journal, the ledger row and the configuration, and refuse everything ambiguous. */
module RelocationRecovery {
  import opened Basics
  import opened RelocationModel
  import opened RelocationHost
  import opened RelocationMove
  import opened RelocationFinish
  import opened Relocation

  function RowAliases(row: Option<Row>): set<Path> {
    if row.Some? then row.value.aliases else {}
  }

  function RetiredName(record: Record): Path {
    TierOriginal(record.original)
  }

  /** The guards of recovery, before it looks at the retired tree. `mirror` is the mirror path of the
      source when that layout is configured. */
  predicate RecoveryAccepts(d: Disk, mirror: Option<Path>, hops: nat) {
    d.journal.Some? &&
    var record := d.journal.value;
    && record.phase == Published && !record.restore
    && (record.destination.Data? || mirror == Some(record.destination))
    && Resolve(d.ns, record.destination, hops) == Some(record.destination)
    && (record.original != record.source ==>
          d.row.Some? && (d.row.value.location == Ssd ==> d.row.value.hot == Some(record.original)))
    && (set a | a in record.aliases) ==
       RowAliases(d.row) + (if record.original != record.source then {record.original} else {})
    && Resolve(d.ns, record.source, hops) == Some(record.destination)
    && (forall a :: a in record.aliases ==> Resolve(d.ns, a, hops) == Some(record.destination))
    && record.staged == TierOriginal(record.source)
    && (record.originalStaged.Some? ==> record.originalStaged.value == RetiredName(record))
    && (record.original != record.source && record.staged in d.ns ==>
          d.ns[record.staged].Link?
          && Resolve(d.ns, record.staged, hops) in {Some(RetiredName(record)), Some(record.destination)})
  }

  predicate AbortAccepts(d: Disk, hops: nat) {
    d.journal.Some? &&
    var record := d.journal.value;
    && Unpublished(record.phase) && !record.restore
    && record.destination.Data?
    && Resolve(d.ns, record.source, hops) == Some(record.original) && record.original in d.ns
    && (d.row.Some? ==> d.row.value.target != record.destination)
  }

  /** No durable state is taken over by both commands, and an exchange in doubt by neither. */
  lemma NeverBoth(d: Disk, mirror: Option<Path>, hops: nat)
    ensures !(RecoveryAccepts(d, mirror, hops) && AbortAccepts(d, hops))
    ensures d.journal.Some? && d.journal.value.phase in {Verified, MirrorPublishing} ==>
      !RecoveryAccepts(d, mirror, hops) && !AbortAccepts(d, hops)
  {
  }

  function MirrorOf(job: Job): Option<Path> {
    if job.mirrored then Some(job.mirrorSlot) else None
  }

  lemma OneHop(ns: Namespace, p: Path, to: Path, n: nat, m: nat)
    requires p in ns && ns[p] == Link(to) && Resolve(ns, to, n).Some? && n < m
    ensures Resolve(ns, p, m) == Resolve(ns, to, n)
  {
    ResolveMonotone(ns, to, n, m - 1);
  }

  /** A link that led to the original at admission leads to the destination once published. */
  lemma FormerLink(job: Job, d: Disk, p: Path, to: Path, n: nat)
    requires job.WellFormed() && Recoverable(job, d)
    requires p in d.ns && d.ns[p] == Link(to) && n <= job.hops
    requires Resolve(job.base, to, n) == Some(job.original)
    ensures Resolve(d.ns, p, job.hops + 2) == Some(job.Dest())
  {
    PublishedChain(job, d, to, n);
    OneHop(d.ns, p, to, n + 1, job.hops + 2);
  }

  lemma StagedLeads(job: Job, d: Disk)
    requires job.WellFormed() && Recoverable(job, d) && job.OriginalAlias() && TierOriginal(job.source) in d.ns
    ensures d.ns[TierOriginal(job.source)].Link?
    ensures Resolve(d.ns, TierOriginal(job.source), job.hops + 2) == Some(job.Dest())
  {
    assert job.base[job.source].Link?;
    FormerLink(job, d, TierOriginal(job.source), job.base[job.source].to, job.hops - 1);
  }

  lemma MirrorLeads(job: Job, d: Disk)
    requires job.WellFormed() && Recoverable(job, d) && job.mirrored && job.staging in d.ns
    ensures d.ns[job.staging].Link?
    ensures Resolve(d.ns, job.staging, job.hops + 2) == Some(job.Dest())
  {
    if job.mirrorSlot in job.base {
      assert job.base[job.mirrorSlot].Link?;
      FormerLink(job, d, job.staging, d.ns[job.staging].to, job.hops - 1);
    } else {
      FormerLink(job, d, job.staging, job.original, 1);
    }
  }

  lemma DestinationResolves(job: Job, d: Disk)
    requires job.WellFormed() && Recoverable(job, d)
    ensures Resolve(d.ns, job.Dest(), job.hops + 2) == Some(job.Dest())
    ensures forall p :: job.Switched(p) && p in job.base ==> Resolve(d.ns, p, job.hops + 2) == Some(job.Dest())
  {
    var final := job.FinalNamespace();
    assert job.Dest() in final;
    forall p | job.Switched(p) && p in job.base
      ensures Resolve(d.ns, p, job.hops + 2) == Some(job.Dest())
    {
      assert p in final;
      if p != job.Dest() {
        assert Resolve(d.ns, job.Dest(), job.hops + 1) == Some(job.Dest());
      }
    }
  }

  lemma AliasesAgree(job: Job, d: Disk)
    requires job.WellFormed() && Recoverable(job, d)
    ensures (set a | a in job.FinalAliases()) ==
            RowAliases(d.row) + (if job.original != job.source then {job.original} else {})
  {
  }

  /** Every published state of a move that is not a restore is accepted, however far retirement got. */
  lemma PublishedIsAccepted(job: Job, d: Disk)
    requires job.WellFormed() && Recoverable(job, d)
    ensures RecoveryAccepts(d, MirrorOf(job), job.hops + 2)
  {
    DestinationResolves(job, d);
    AliasesAgree(job, d);
    assert job.source in job.base;
    forall a | a in job.FinalAliases() ensures a in job.base && job.Switched(a) {
      if a in job.aliases {
        assert Resolve(job.base, a, job.hops) == Some(job.original);
      }
    }
    if job.OriginalAlias() && TierOriginal(job.source) in d.ns {
      StagedLeads(job, d);
    }
  }

  // ---- Comparing what survives of the original ----

  /** Kinds and link texts as inventoried, file data as read now. */
  function AsRead(entry: Entry, rel: Rel, live: Tree): Entry {
    if entry.File? && rel in live then live[rel] else entry
  }

  method CompareNames(h: Host, survivors: Tree, copy: Tree, spelled: seq<string>, before: nat) returns (r: Outcome)
    requires h.writers.version >= before
    requires h.writers.version == before ==> survivors == Surviving(h.writers.live, h.disk.gone)
    modifies h`writers, h`fate
    ensures h.writers.version >= before
    ensures h.writers.version == before ==> survivors == Surviving(h.writers.live, h.disk.gone)
    ensures Drifts(old(h.writers), h.writers)
    ensures r.Done? && h.writers.version == before ==> SurvivorsMatch(spelled, survivors, copy)
    ensures old(h.fate) == [] ==> h.fate == [] && h.writers == old(h.writers) && r in {Done, Raised}
    ensures old(h.fate) == [] && old(h.writers).version == before ==> (r == Done <==> SurvivorsMatch(spelled, survivors, copy))
  {
    var left := survivors.Keys;
    while left != {}
      invariant left <= survivors.Keys && h.writers.version >= before
      invariant h.writers.version == before ==> survivors == Surviving(h.writers.live, h.disk.gone)
      invariant Drifts(old(h.writers), h.writers)
      invariant h.writers.version == before ==>
        forall rel :: rel in survivors && rel !in left ==> rel in copy && SameContent(spelled, rel, survivors[rel], copy[rel])
      invariant old(h.fate) == [] ==> h.fate == [] && h.writers == old(h.writers)
      decreases left
    {
      var rel :| rel in left;
      :- h.Happen();
      if rel !in copy || !SameContent(spelled, rel, AsRead(survivors[rel], rel, h.writers.live), copy[rel]) {
        return Raised;
      }
      left := left - {rel};
    }
    r := Done;
  }

  ghost predicate SurvivorsMatch(spelled: seq<string>, survivors: Tree, copy: Tree) {
    forall rel :: rel in survivors ==> rel in copy && SameContent(spelled, rel, survivors[rel], copy[rel])
  }

  /** What a comparison that passes has seen: no holder, then the tree at a drain of its guard, then no holder. */
  ghost predicate Compared(before: seq<Look>, looks: seq<Look>) {
    && |looks| == |before| + 3 && before <= looks
    && looks[|before|] == Scanned(false) && looks[|before| + 1].Drained? && looks[|before| + 2] == Scanned(false)
  }

  /** Checks the retired tree under its own mutation guard. Passing proves, whatever writers did and however the
      run goes on, that the survivors are what the tree held at the drain of that guard, less what earlier runs
      have deleted, that each of them equals the published copy, and that neither scan found a holder. Without
      interference it passes exactly when nobody holds the tree and every surviving entry equals the copy. */
  method CompareRetired(h: Host, copy: Tree, spelled: seq<string>) returns (r: Outcome, survivors: Tree)
    modifies h`writers, h`fate, h`looks
    ensures old(h.looks) <= h.looks
    ensures r.Done? ==> Compared(old(h.looks), h.looks) && Covers(GroundOf(h.looks), h.disk.gone, survivors)
    ensures r.Done? ==> SurvivorsMatch(spelled, survivors, copy)
    ensures old(h.fate) == [] ==> h.fate == [] && r in {Done, Raised}
    ensures old(h.fate) == [] ==>
      (r == Done <==> !old(h.writers).open && SurvivorsMatch(spelled, Surviving(old(h.writers).live, h.disk.gone), copy))
    ensures old(h.fate) == [] ==> h.writers == old(h.writers).(queued := h.writers.queued)
  {
    survivors := map[];
    var held;
    r, held := h.Scan();
    if !r.Done? {
      return;
    }
    if held {
      return Raised, survivors;
    }
    h.writers := h.writers.(queued := 0);
    r := h.Happen();
    if !r.Done? {
      return;
    }
    var before := h.writers.version;
    ghost var tree := h.writers.live;
    survivors := Surviving(h.writers.live, h.disk.gone);
    r := CompareNames(h, survivors, copy, spelled, before);
    if r.Done? {
      r := StillRetired(h, before, tree);
    }
  }

  /** Nothing changed and nobody took hold of the retired tree while it was compared. */
  method StillRetired(h: Host, before: nat, ghost tree: Tree) returns (r: Outcome)
    requires h.writers.version >= before && (h.writers.version == before ==> h.writers.live == tree)
    modifies h`writers, h`fate, h`looks
    ensures old(h.looks) <= h.looks
    ensures r.Done? ==> old(h.writers).version == before && h.looks == old(h.looks) + Clean(before, tree)
    ensures old(h.fate) == [] ==> h.fate == [] && r in {Done, Raised}
    ensures old(h.fate) == [] ==>
      (r == Done <==> old(h.writers).version == before && old(h.writers).queued == 0 && !old(h.writers).open)
    ensures old(h.fate) == [] ==> h.writers == old(h.writers).(queued := h.writers.queued)
  {
    r := h.Happen();
    if !r.Done? {
      return;
    }
    if h.writers.version != before {
      return Raised;
    }
    var changed :- h.Drain();
    if changed {
      return Raised;
    }
    var held :- h.Scan();
    r := if held then Raised else Done;
  }

  // ---- The commands ----

  method SaveRecordRow(h: Host, ghost job: Job, record: Record) returns (r: Outcome)
    requires job.WellFormed() && h.AllSafe(job) && Retiring(job, h.disk) && record == job.PublishedRecord()
    modifies h`disk, h`writers, h`fate, h`trace, h`grounds
    ensures h.AllSafe(job) && Retiring(job, h.disk)
    ensures h.disk.ns == old(h.disk.ns) && h.disk.gone == old(h.disk.gone)
    ensures r.Done? ==> h.disk.row == Some(job.FinalRow())
    ensures old(h.fate) == [] ==> h.fate == [] && r == Done
  {
    var op := SaveRow(Row(record.destination, Hdd, None, set a | a in record.aliases));
    assert op == SaveRow(job.FinalRow());
    ghost var before := h.disk;
    SaveRowRetiring(job, before);
    r := Retire(h, job, op);
    assert r.Done? ==> h.disk == Apply(before, op);
  }

  /** The tail of recovery: row, retired tree, parked names, journal. */
  method FinishRecovery(h: Host, ghost job: Job, record: Record, survivors: Tree, hops: nat) returns (r: Outcome)
    requires job.WellFormed() && h.AllSafe(job) && Retiring(job, h.disk)
    requires record == job.PublishedRecord() && Sealed(job, survivors) && hops == job.hops + 2
    requires job.Retired() in h.disk.ns ==> Covers(GroundOf(h.looks), h.disk.gone, survivors)
    modifies h`disk, h`writers, h`fate, h`trace, h`grounds
    ensures h.AllSafe(job)
    ensures if r.Done? then Finished(job, h.disk) && Archived(job, h.disk) else Retiring(job, h.disk)
    ensures r.Done? && job.Retired() in old(h.disk).ns ==> GroundOf(h.looks).value.Keys <= h.disk.gone.Keys
    ensures old(h.fate) == [] ==> r == Done
  {
    r := SaveRecordRow(h, job, record);
    if r.Done? {
      r := RemoveRetired(h, job, RetiredName(record), survivors);
    }
    if r.Done? {
      r := DropAndClose(h, job, record, hops);
    }
  }

  method DropAndClose(h: Host, ghost job: Job, record: Record, hops: nat) returns (r: Outcome)
    requires job.WellFormed() && h.AllSafe(job) && Retiring(job, h.disk) && h.disk.row == Some(job.FinalRow())
    requires record == job.PublishedRecord() && job.Retired() !in h.disk.ns && hops == job.hops + 2
    modifies h`disk, h`writers, h`fate, h`trace, h`grounds
    ensures h.AllSafe(job) && h.disk.gone == old(h.disk.gone)
    ensures if r.Done? then Finished(job, h.disk) && Archived(job, h.disk) else Retiring(job, h.disk)
    ensures old(h.fate) == [] ==> r == Done
  {
    r := DropParked(h, job, record, hops);
    if r.Done? {
      r := CloseJournal(h, job);
    }
  }

  method DropParked(h: Host, ghost job: Job, record: Record, hops: nat) returns (r: Outcome)
    requires job.WellFormed() && h.AllSafe(job) && Retiring(job, h.disk)
    requires record == job.PublishedRecord() && job.Retired() !in h.disk.ns && hops == job.hops + 2
    modifies h`disk, h`writers, h`fate, h`trace, h`grounds
    ensures h.AllSafe(job) && Retiring(job, h.disk) && h.disk.row == old(h.disk.row) && h.disk.gone == old(h.disk.gone)
    ensures r.Done? ==> job.Retired() !in h.disk.ns && TierOriginal(job.source) !in h.disk.ns
    ensures r.Done? && job.mirrored ==> job.staging !in h.disk.ns
    ensures old(h.fate) == [] ==> h.fate == [] && r == Done
  {
    if record.staged != RetiredName(record) && record.staged in h.disk.ns {
      :- RemoveParked(h, job, record.staged);
    }
    if record.mirrorStaged.Some? && record.mirrorStaged.value in h.disk.ns {
      MirrorLeads(job, h.disk);
      if !h.disk.ns[record.mirrorStaged.value].Link?
         || Resolve(h.disk.ns, record.mirrorStaged.value, hops) != Some(record.destination) {
        return Raised;
      }
      :- RemoveParked(h, job, record.mirrorStaged.value);
    }
    r := Done;
  }

  /** What entitles a process to delete what is left of the original: it has itself compared it under its own
      guard, and each entry that then survived equals the published copy. */
  ghost predicate Entitled(job: Job, d: Disk, before: seq<Look>, looks: seq<Look>) {
    && Compared(before, looks) && GroundOf(looks).Some?
    && SurvivorsMatch(job.spelled, Surviving(GroundOf(looks).value, d.gone), job.Copy())
    && !Diverges(GroundOf(looks).value, d.gone, job.Copy())
  }

  /** Something that survives of the original is not in the copy, or is a file there is no file with the same data
      for, or a directory or a link there is none for. */
  predicate Diverges(live: Tree, gone: map<Rel, Entry>, copy: Tree) {
    exists rel :: rel in live && rel !in gone &&
      (rel !in copy || (live[rel].File? && !(copy[rel].File? && copy[rel].data == live[rel].data))
       || (live[rel].Folder? && !copy[rel].Folder?) || (live[rel].Symlink? && !copy[rel].Symlink?))
  }

  lemma DivergentMismatch(spelled: seq<string>, live: Tree, gone: map<Rel, Entry>, copy: Tree)
    requires Diverges(live, gone, copy)
    ensures !SurvivorsMatch(spelled, Surviving(live, gone), copy)
  {
    var rel :| rel in live && rel !in gone &&
      (rel !in copy || (live[rel].File? && !(copy[rel].File? && copy[rel].data == live[rel].data))
       || (live[rel].Folder? && !copy[rel].Folder?) || (live[rel].Symlink? && !copy[rel].Symlink?));
    assert rel in Surviving(live, gone);
  }

  /** Finishes an unambiguous published move. It refuses unless the guards hold and every surviving
      entry of the original equals the published copy; undisturbed, it then always finishes. Disturbed or not,
      while the original is there it changes nothing without being entitled to, and when it finishes every name
      the original held at the drain of its guard has been deleted as compared. */
  method Recover(h: Host, ghost job: Job, mirror: Option<Path>, spelled: seq<string>, hops: nat) returns (r: Outcome)
    requires job.WellFormed() && h.AllSafe(job)
    requires mirror == MirrorOf(job) && spelled == job.spelled && hops == job.hops + 2
    modifies h
    ensures h.AllSafe(job)
    ensures !RecoveryAccepts(old(h.disk), mirror, hops) ==> r == Raised && h.disk == old(h.disk)
    ensures RecoveryAccepts(old(h.disk), mirror, hops) ==>
      Retiring(job, old(h.disk)) && if r.Done? then Finished(job, h.disk) && Archived(job, h.disk) else Retiring(job, h.disk)
    ensures job.Retired() in old(h.disk).ns && (r.Done? || h.disk != old(h.disk)) ==>
      Entitled(job, old(h.disk), old(h.looks) + [Started], h.looks)
    ensures job.Retired() in old(h.disk).ns && r.Done? ==> GroundOf(h.looks).value.Keys <= h.disk.gone.Keys
    ensures RecoveryAccepts(old(h.disk), mirror, hops) && old(h.fate) == [] ==>
      if FinishesIf(job, old(h.disk), old(h.writers)) then r == Done else r == Raised && h.disk == old(h.disk)
    ensures old(h.fate) == [] && job.Retired() in old(h.disk).ns && Diverges(old(h.writers).live, old(h.disk).gone, job.Copy()) ==>
      r == Raised && h.disk == old(h.disk)
  {
    h.Enter();
    if !RecoveryAccepts(h.disk, mirror, hops) {
      return Raised;
    }
    assert Safe(job, h.disk);
    r := CompareAndFinish(h, job, h.disk.journal.value, spelled, hops);
  }

  /** What an undisturbed recovery does once its guards hold. */
  ghost predicate FinishesIf(job: Job, d: Disk, w: Writers) {
    job.Retired() in d.ns ==> !w.open && SurvivorsMatch(job.spelled, Surviving(w.live, d.gone), job.Copy())
  }

  lemma NeverDivergent(job: Job, live: Tree, gone: map<Rel, Entry>)
    ensures SurvivorsMatch(job.spelled, Surviving(live, gone), job.Copy()) ==> !Diverges(live, gone, job.Copy())
  {
    if Diverges(live, gone, job.Copy()) {
      DivergentMismatch(job.spelled, live, gone, job.Copy());
    }
  }

  method CompareAndFinish(h: Host, ghost job: Job, record: Record, spelled: seq<string>, hops: nat) returns (r: Outcome)
    requires job.WellFormed() && h.AllSafe(job) && Retiring(job, h.disk)
    requires record == job.PublishedRecord() && spelled == job.spelled && hops == job.hops + 2
    modifies h
    ensures h.AllSafe(job)
    ensures if r.Done? then Finished(job, h.disk) && Archived(job, h.disk) else Retiring(job, h.disk)
    ensures job.Retired() in old(h.disk).ns && (r.Done? || h.disk != old(h.disk)) ==>
      Entitled(job, old(h.disk), old(h.looks), h.looks)
    ensures job.Retired() in old(h.disk).ns && r.Done? ==> GroundOf(h.looks).value.Keys <= h.disk.gone.Keys
    ensures old(h.fate) == [] ==>
      if FinishesIf(job, old(h.disk), old(h.writers)) then r == Done else r == Raised && h.disk == old(h.disk)
    ensures old(h.fate) == [] && job.Retired() in old(h.disk).ns && Diverges(old(h.writers).live, old(h.disk).gone, job.Copy()) ==>
      r == Raised && h.disk == old(h.disk)
  {
    NeverDivergent(job, h.writers.live, h.disk.gone);
    var survivors: Tree := map[];
    if RetiredName(record) in h.disk.ns {
      CopyAtDestination(job, h.disk);
      r, survivors := CompareRetired(h, h.disk.ns[record.destination].tree, spelled);
      if !r.Done? {
        return;
      }
      NeverDivergent(job, GroundOf(h.looks).value, h.disk.gone);
    }
    r := FinishRecovery(h, job, record, survivors, hops);
  }

  lemma CopyAtDestination(job: Job, d: Disk)
    requires job.WellFormed() && Recoverable(job, d)
    ensures job.Dest() in d.ns && d.ns[job.Dest()] == Replica(job.Copy())
  {
    assert job.Dest() in job.FinalNamespace();
  }

  /** Abort takes over exactly the unpublished moves that are no restores and whose journal still names the staging
      tree, if the ledger does not. */
  lemma UnpublishedIsAborted(job: Job, d: Disk)
    requires job.WellFormed() && Safe(job, d) && d.journal.Some? && Resolve(job.base, job.source, job.hops) == Some(job.original)
    requires job.row.Some? ==> job.row.value.target !in {job.staging, job.mirrorSlot}
    ensures AbortAccepts(d, job.hops + 2) <==>
              job.mode != Restore && d.journal.value.phase in {Copying, Verifying, Syncing, AbortedCleanup}
              && d.journal.value.destination == job.staging
  {
    if Unpublished(d.journal.value.phase) {
      PrivateChain(job, d, job.source, job.hops);
      ResolveMonotone(d.ns, job.source, job.hops, job.hops + 2);
    }
  }

  /** Discards an unpublished move's staging tree and keeps the authoritative source. */
  method Abort(h: Host, ghost job: Job, hops: nat, parts: seq<Tree>) returns (r: Outcome)
    requires job.WellFormed() && h.AllSafe(job)
    modifies h`disk, h`writers, h`fate, h`trace, h`grounds
    ensures h.AllSafe(job)
    ensures !AbortAccepts(old(h.disk), hops) ==> r == Raised && h.disk == old(h.disk)
    ensures AbortAccepts(old(h.disk), hops) ==> if r.Done? then Discarded(job, h.disk) else NotPublished(job, h.disk)
    ensures AbortAccepts(old(h.disk), hops) && old(h.fate) == [] ==> r == Done
  {
    if !AbortAccepts(h.disk, hops) {
      return Raised;
    }
    assert Safe(job, h.disk);
    r := h.Happen();
    if !r.Done? {
      return;
    }
    var staging := h.disk.journal.value.destination;
    r := DropStaging(h, job, staging, parts);
    if r.Done? {
      r := DropUnpublished(h, job);
    }
  }

  datatype Command = RunRecovery | RunAbort(parts: seq<Tree>)

  /** A whole history: one move, stopped anywhere, then any commands, each stopped anywhere. Every
      durable state on the way is safe. If the journal then says published, one undisturbed recovery of
      an unwritten original ends exactly where an uninterrupted move ends. */
  method History(h: Host, job: Job, received: seq<Tree>, parts: seq<Tree>, commands: seq<Command>) returns (r: Outcome)
    requires job.WellFormed() && h.disk == job.Start() && h.New()
    requires h.writers.live == job.manifest
    modifies h
    ensures h.AllSafe(job)
    ensures RecoveryAccepts(h.disk, MirrorOf(job), job.hops + 2) <==>
      h.disk.journal.Some? && h.disk.journal.value.phase == Published && job.mode != Restore
  {
    r := Migrate(h, job, received, parts);
    for i := 0 to |commands|
      invariant h.AllSafe(job)
    {
      match commands[i]
      case RunRecovery => r := Recover(h, job, MirrorOf(job), job.spelled, job.hops + 2);
      case RunAbort(dropped) => r := Abort(h, job, job.hops + 2, dropped);
    }
    assert Safe(job, h.disk);
    if h.disk.journal.Some? && h.disk.journal.value.phase == Published && job.mode != Restore {
      PublishedIsAccepted(job, h.disk);
    }
  }

  /** An unwritten original matches the copy, whatever part of it survives. */
  lemma UnwrittenMatches(job: Job, gone: map<Rel, Entry>)
    ensures SurvivorsMatch(job.spelled, Surviving(job.manifest, gone), job.Copy())
  {
  }

  /** Convergence: undisturbed recovery takes over every published state, at any point of retirement,
      and ends in the namespace, row and alias set of the uninterrupted move. */
  method Converge(h: Host, job: Job) returns (r: Outcome)
    requires job.WellFormed() && h.AllSafe(job) && Recoverable(job, h.disk)
    requires h.fate == [] && !h.writers.open && h.writers.live == job.manifest
    modifies h
    ensures r == Done && h.AllSafe(job)
    ensures h.disk.ns == job.FinalNamespace() && h.disk.row == Some(job.FinalRow()) && h.disk.journal == None
    ensures Archived(job, h.disk)
  {
    PublishedIsAccepted(job, h.disk);
    UnwrittenMatches(job, h.disk.gone);
    r := Recover(h, job, MirrorOf(job), job.spelled, job.hops + 2);
  }
}
