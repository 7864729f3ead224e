/** The end of a relocation: the second check for late writers, retirement of the original, the ledger row and the
    journal; what a restore keeps; and the clean-up of an unpublished move. The original is only removed after the
    last drain of events found it as admitted and the scan after that found no holder. */
module RelocationFinish {
  import opened Basics
  import opened RelocationModel
  import opened RelocationHost
  import opened RelocationMove
  import opened RelocationPublish

  /** Published, with retirement at any point. */
  ghost predicate Retiring(job: Job, d: Disk) {
    Recoverable(job, d) && DeletionsCovered(job, d)
  }

  ghost predicate Finished(job: Job, d: Disk) {
    && d.journal == None && d.row == Some(job.FinalRow()) && d.ns == job.FinalNamespace()
    && d.flushed && DeletionsCovered(job, d)
  }

  /** The unit is archived: the complete copy is at the row's target, the row knows no hot path, and the public
      source and every alias in the row lead there. The aliases are the admitted ones, and the physical name of a
      demoted unit that differs from its source. */
  ghost predicate Archived(job: Job, d: Disk) {
    && d.row.Some? && d.row.value.target in d.ns && d.ns[d.row.value.target] == Replica(job.Copy())
    && d.row.value.location == Hdd && d.row.value.hot == None
    && (forall a :: a in d.row.value.aliases <==>
          a in job.aliases || (job.mode == Demote && a == job.original && job.original != job.source))
    && LeadTo(job, d, d.row.value.aliases, d.row.value.target)
  }

  /** The public source and these aliases lead there. */
  ghost predicate LeadTo(job: Job, d: Disk, aliases: set<Path>, target: Path) {
    && Resolve(d.ns, job.source, job.hops + 2) == Some(target)
    && forall a :: a in aliases ==> Resolve(d.ns, a, job.hops + 2) == Some(target)
  }

  lemma SwitchedLead(job: Job, d: Disk, aliases: set<Path>)
    requires job.WellFormed() && job.Leads() && PublishedNames(job, d)
    requires forall a :: a in aliases ==> job.Switched(a)
    ensures job.Dest() in d.ns && d.ns[job.Dest()] == Replica(job.Copy()) && LeadTo(job, d, aliases, job.Dest())
  {
    var final := job.FinalNamespace();
    assert job.Dest() in final;
    assert job.source in job.base && forall a :: a in job.aliases ==> a in job.base;
    forall p | job.Switched(p) ensures Resolve(d.ns, p, job.hops + 2) == Some(job.Dest()) {
      assert p in job.base && p in final;
      if p != job.Dest() {
        assert Resolve(d.ns, job.Dest(), job.hops + 1) == Some(job.Dest());
      }
    }
  }

  lemma FinishedArchived(job: Job, d: Disk)
    requires job.WellFormed() && job.Leads() && Finished(job, d)
    ensures Archived(job, d)
  {
    assert PublishedNames(job, d);
    SwitchedLead(job, d, d.row.value.aliases);
  }

  lemma RetiringSafe(job: Job, d: Disk)
    requires job.WellFormed() && (Retiring(job, d) || (Finished(job, d) && job.mode != Restore))
    ensures Safe(job, d)
  {
    var final := job.FinalNamespace();
    assert job.Dest() in final;
    forall q | q in job.base
      ensures q in d.ns && ((d.ns[q] == job.base[q] && (q == job.original ==> d.gone == map[])) || Direct(job, d, q))
    {
      assert q in final;
    }
  }

  /** One durable step of retirement. */
  method Retire(h: Host, ghost job: Job, op: Op) returns (r: Outcome)
    requires job.WellFormed() && h.AllSafe(job) && Retiring(job, h.disk)
    requires Enabled(h.disk, op) ==>
      Retiring(job, Apply(h.disk, op)) && Accounted(h.disk, Apply(h.disk, op), GroundOf(h.looks))
    modifies h`disk, h`writers, h`fate, h`trace, h`grounds
    ensures h.AllSafe(job) && Retiring(job, h.disk)
    ensures r.Done? ==> Enabled(old(h.disk), op) && h.disk == Apply(old(h.disk), op)
    ensures !r.Done? ==> h.disk == old(h.disk)
    ensures Drifts(old(h.writers), h.writers)
    ensures old(h.fate) == [] ==> h.fate == [] && h.writers == old(h.writers) && (Enabled(old(h.disk), op) ==> r == Done)
  {
    if Enabled(h.disk, op) {
      RetiringSafe(job, Apply(h.disk, op));
    }
    r := h.Do(job, op);
  }

  /** The entries of the original, as last compared, that the published copy holds too. */
  ghost predicate Sealed(job: Job, compared: Tree) {
    forall rel :: rel in compared ==>
      rel in job.Copy() && SameContent(job.spelled, rel, compared[rel], job.Copy()[rel])
  }

  lemma RemoveLeftover(job: Job, d: Disk, p: Path)
    requires job.WellFormed() && Retiring(job, d) && p in d.ns
    requires p == job.Retired() || p == TierOriginal(job.source) || (job.mirrored && p == job.staging)
    ensures Retiring(job, Apply(d, Remove(p)))
  {
    assert p !in job.FinalNamespace();
    assert PublishedNames(job, Apply(d, Remove(p)));
  }

  /** What is about to be deleted is what the original held at the last drain before a scan that found no
      holder, less what is gone already. */
  ghost predicate Covers(ground: Option<Tree>, gone: map<Rel, Entry>, compared: Tree) {
    ground.Some? && compared == Surviving(ground.value, gone)
  }

  /** The entries of the original that no run has deleted yet. */
  function Surviving(live: Tree, gone: map<Rel, Entry>): Tree {
    map rel | rel in live && rel !in gone :: live[rel]
  }

  /** Deletes the retired tree name by name; the tree itself goes last, when nothing it held is left. A crash may
      leave any part of it. */
  method RemoveRetired(h: Host, ghost job: Job, retired: Path, compared: Tree) returns (r: Outcome)
    requires job.WellFormed() && h.AllSafe(job) && Retiring(job, h.disk)
    requires retired == job.Retired() && Sealed(job, compared)
    requires retired in h.disk.ns ==> Covers(GroundOf(h.looks), h.disk.gone, compared)
    modifies h`disk, h`writers, h`fate, h`trace, h`grounds
    ensures h.AllSafe(job) && Retiring(job, h.disk)
    ensures Drifts(old(h.writers), h.writers)
    ensures h.disk.row == old(h.disk.row)
    ensures r.Done? ==> h.disk.ns == old(h.disk.ns) - {retired}
    ensures r.Done? && retired in old(h.disk).ns ==> GroundOf(h.looks).value.Keys <= h.disk.gone.Keys
    ensures old(h.fate) == [] ==> h.fate == [] && h.writers == old(h.writers) && r == Done
  {
    if retired !in h.disk.ns {
      assert h.disk.ns - {retired} == h.disk.ns;
      return Done;
    }
    :- PruneAll(h, job, compared);
    var op := Remove(retired);
    ghost var before := h.disk;
    RemoveLeftover(job, before, retired);
    r := Retire(h, job, op);
    assert r.Done? ==> h.disk == Apply(before, op);
  }

  lemma PruneRetiring(job: Job, d: Disk, rel: Rel, entry: Entry)
    requires job.WellFormed() && Retiring(job, d)
    requires rel in job.Copy() && SameContent(job.spelled, rel, entry, job.Copy()[rel])
    ensures Retiring(job, Apply(d, Prune(rel, entry)))
  {
  }

  lemma PruneAccounted(d: Disk, rel: Rel, entry: Entry, ground: Option<Tree>)
    requires rel !in d.gone && ground.Some? && rel in ground.value && ground.value[rel] == entry
    ensures Accounted(d, Apply(d, Prune(rel, entry)), ground)
  {
  }

  /** Deletes one compared name. */
  method PruneOne(h: Host, ghost job: Job, rel: Rel, entry: Entry) returns (r: Outcome)
    requires job.WellFormed() && h.AllSafe(job) && Retiring(job, h.disk)
    requires rel in job.Copy() && SameContent(job.spelled, rel, entry, job.Copy()[rel]) && rel !in h.disk.gone
    requires var ground := GroundOf(h.looks); ground.Some? && rel in ground.value && ground.value[rel] == entry
    modifies h`disk, h`writers, h`fate, h`trace, h`grounds
    ensures h.AllSafe(job) && Retiring(job, h.disk)
    ensures Drifts(old(h.writers), h.writers)
    ensures h.disk == if r.Done? then old(h.disk).(gone := old(h.disk).gone[rel := entry]) else old(h.disk)
    ensures old(h.fate) == [] ==> h.fate == [] && h.writers == old(h.writers) && r == Done
  {
    var op := Prune(rel, entry);
    ghost var before := h.disk;
    PruneRetiring(job, before, rel, entry);
    PruneAccounted(before, rel, entry, GroundOf(h.looks));
    r := Retire(h, job, op);
    assert r.Done? ==> h.disk == Apply(before, op);
  }

  /** Deletes what is left of the compared names, in any order. */
  method PruneAll(h: Host, ghost job: Job, compared: Tree) returns (r: Outcome)
    requires job.WellFormed() && h.AllSafe(job) && Retiring(job, h.disk) && Sealed(job, compared)
    requires Covers(GroundOf(h.looks), h.disk.gone, compared)
    modifies h`disk, h`writers, h`fate, h`trace, h`grounds
    ensures h.AllSafe(job) && Retiring(job, h.disk)
    ensures Drifts(old(h.writers), h.writers)
    ensures h.disk.row == old(h.disk.row) && h.disk.ns == old(h.disk.ns)
    ensures r.Done? ==> GroundOf(h.looks).value.Keys <= h.disk.gone.Keys
    ensures old(h.fate) == [] ==> h.fate == [] && h.writers == old(h.writers) && r == Done
  {
    var left := compared.Keys;
    while left != {}
      invariant h.AllSafe(job) && Retiring(job, h.disk)
      invariant Deleted(old(h.disk).gone, h.disk.gone, compared, left)
      invariant h.disk.row == old(h.disk.row) && h.disk.ns == old(h.disk.ns)
      invariant Drifts(old(h.writers), h.writers)
      invariant old(h.fate) == [] ==> h.fate == [] && h.writers == old(h.writers)
      decreases left
    {
      var rel :| rel in left;
      ghost var gone := h.disk.gone;
      :- PruneOne(h, job, rel, compared[rel]);
      DeletedNext(old(h.disk).gone, gone, compared, left, rel);
      left := left - {rel};
    }
    r := Done;
  }

  /** All compared names but those left have been deleted. */
  predicate Deleted(was: map<Rel, Entry>, gone: map<Rel, Entry>, compared: Tree, left: set<Rel>) {
    left <= compared.Keys && gone.Keys == was.Keys + (compared.Keys - left)
  }

  lemma DeletedNext(was: map<Rel, Entry>, gone: map<Rel, Entry>, compared: Tree, left: set<Rel>, rel: Rel)
    requires Deleted(was, gone, compared, left) && rel in left
    ensures Deleted(was, gone[rel := compared[rel]], compared, left - {rel})
  {
  }

  lemma SaveRowRetiring(job: Job, d: Disk)
    requires job.WellFormed() && Retiring(job, d)
    ensures Retiring(job, Apply(d, SaveRow(job.FinalRow())))
  {
  }

  method SaveFinalRow(h: Host, job: Job) returns (r: Outcome)
    requires job.WellFormed() && h.AllSafe(job) && Retiring(job, h.disk)
    modifies h`disk, h`writers, h`fate, h`trace, h`grounds
    ensures h.AllSafe(job) && Retiring(job, h.disk) && h.disk.ns == old(h.disk.ns)
    ensures h.disk.gone == old(h.disk.gone)
    ensures r.Done? ==> h.disk.row == Some(job.FinalRow())
    ensures Drifts(old(h.writers), h.writers)
    ensures Calm(old(h.fate), old(h.writers)) ==> r == Done && h.fate == [] && h.writers == old(h.writers)
  {
    var op := SaveRow(job.FinalRow());
    ghost var before := h.disk;
    SaveRowRetiring(job, before);
    r := Retire(h, job, op);
    assert r.Done? ==> h.disk == Apply(before, op);
  }

  lemma LinkRemoved(d: Disk, p: Path, ground: Option<Tree>)
    requires p in d.ns && !d.ns[p].Payload?
    ensures Accounted(d, Apply(d, Remove(p)), ground)
  {
    if HasPayload(d.ns) {
      var q :| q in d.ns && d.ns[q] == Payload;
      assert q in d.ns - {p} && (d.ns - {p})[q] == Payload;
    }
  }

  method RemoveParked(h: Host, ghost job: Job, p: Path) returns (r: Outcome)
    requires job.WellFormed() && h.AllSafe(job) && Retiring(job, h.disk) && p in h.disk.ns
    requires (p == TierOriginal(job.source) || (job.mirrored && p == job.staging)) && h.disk.ns[p].Link?
    modifies h`disk, h`writers, h`fate, h`trace, h`grounds
    ensures h.AllSafe(job) && Retiring(job, h.disk)
    ensures h.disk.gone == old(h.disk.gone)
    ensures r.Done? ==> h.disk.ns == old(h.disk.ns) - {p}
    ensures h.disk.row == old(h.disk.row)
    ensures Drifts(old(h.writers), h.writers)
    ensures old(h.fate) == [] ==> h.fate == [] && h.writers == old(h.writers) && r == Done
  {
    RemoveLeftover(job, h.disk, p);
    LinkRemoved(h.disk, p, GroundOf(h.looks));
    r := Retire(h, job, Remove(p));
  }

  lemma NothingLeft(job: Job, d: Disk)
    requires job.WellFormed() && Retiring(job, d) && d.row == Some(job.FinalRow())
    requires job.Retired() !in d.ns && TierOriginal(job.source) !in d.ns && (job.mirrored ==> job.staging !in d.ns)
    ensures Finished(job, Apply(d, DropJournal))
  {
    assert d.ns.Keys == job.FinalNamespace().Keys;
  }

  /** Drops the journal of a move with nothing left to retire. */
  method CloseJournal(h: Host, ghost job: Job) returns (r: Outcome)
    requires job.WellFormed() && h.AllSafe(job) && Retiring(job, h.disk) && h.disk.row == Some(job.FinalRow())
    requires job.Retired() !in h.disk.ns && TierOriginal(job.source) !in h.disk.ns
    requires job.mirrored ==> job.staging !in h.disk.ns
    modifies h`disk, h`writers, h`fate, h`trace, h`grounds
    ensures h.AllSafe(job) && h.disk.gone == old(h.disk.gone)
    ensures if r.Done? then Finished(job, h.disk) && Archived(job, h.disk) else Retiring(job, h.disk)
    ensures old(h.fate) == [] ==> h.fate == [] && r == Done
    ensures Calm(old(h.fate), old(h.writers)) ==> h.writers == old(h.writers)
  {
    NothingLeft(job, h.disk);
    RetiringSafe(job, Apply(h.disk, DropJournal));
    r := h.Do(job, DropJournal);
    if r.Done? {
      FinishedArchived(job, h.disk);
    }
  }

  // ---- The move's own retirement ----

  /** The second late check, on the retired tree. It passes exactly when the events drained show that nobody has
      changed the original since admission, and the scan that follows finds no holder. */
  method LateCheck(h: Host, ghost job: Job, ghost admitted: nat) returns (r: Outcome)
    requires FullyTracked(job, h.writers, admitted)
    modifies h`writers, h`fate, h`looks
    ensures old(h.looks) <= h.looks && |h.looks| <= |old(h.looks)| + 2
    ensures r.Done? <==> h.looks == old(h.looks) + Clean(admitted, job.manifest)
    ensures r.Done? ==> old(h.writers).version == admitted
    ensures Calm(old(h.fate), old(h.writers)) ==> r == Done && h.fate == [] && h.writers == old(h.writers)
  {
    var changed :- h.Drain();
    if changed {
      return Raised;
    }
    var held :- h.Scan();
    assert h.looks[|old(h.looks)| + 1] == Scanned(held);
    r := if held then Raised else Done;
  }

  lemma ManifestSealed(job: Job)
    ensures Sealed(job, job.manifest) && Surviving(job.manifest, map[]) == job.manifest
  {
  }

  method RetireSource(h: Host, job: Job) returns (r: Outcome)
    requires job.WellFormed() && h.AllSafe(job) && Retiring(job, h.disk) && job.source in job.base
    requires TierOriginal(job.source) in h.disk.ns && h.disk.ns[TierOriginal(job.source)] == job.base[job.source]
    requires GroundOf(h.looks) == Some(job.manifest) && h.disk.gone == map[]
    modifies h`disk, h`writers, h`fate, h`trace, h`grounds
    ensures h.AllSafe(job) && Retiring(job, h.disk) && h.disk.row == old(h.disk.row)
    ensures r.Done? ==> job.Retired() !in h.disk.ns && TierOriginal(job.source) !in h.disk.ns
    ensures Calm(old(h.fate), old(h.writers)) ==> r == Done && h.fate == [] && h.writers == old(h.writers)
  {
    ManifestSealed(job);
    r := Done;
    if h.disk.ns[TierOriginal(job.source)].Link? {
      r := RemoveParked(h, job, TierOriginal(job.source));
    }
    if r.Done? {
      r := RemoveRetired(h, job, job.Retired(), job.manifest);
    }
  }

  method RetireMirror(h: Host, job: Job) returns (r: Outcome)
    requires job.WellFormed() && h.AllSafe(job) && Retiring(job, h.disk)
    requires job.Retired() !in h.disk.ns && TierOriginal(job.source) !in h.disk.ns
    modifies h`disk, h`writers, h`fate, h`trace, h`grounds
    ensures h.AllSafe(job) && Retiring(job, h.disk) && h.disk.row == old(h.disk.row)
    ensures h.disk.gone == old(h.disk.gone)
    ensures r.Done? ==> job.Retired() !in h.disk.ns && TierOriginal(job.source) !in h.disk.ns
    ensures r.Done? && job.mirrored ==> job.staging !in h.disk.ns
    ensures Calm(old(h.fate), old(h.writers)) ==> r == Done && h.fate == [] && h.writers == old(h.writers)
  {
    if job.mirrored && job.staging in h.disk.ns {
      if !h.disk.ns[job.staging].Link? {
        return Raised;
      }
      :- RemoveParked(h, job, job.staging);
    }
    r := Done;
  }

  /** Retires a published move: row, original, leftovers, journal, in the order of each mode. */
  method FinishMove(h: Host, job: Job) returns (r: Outcome)
    requires job.WellFormed() && h.AllSafe(job) && JustPublished(job, h.disk) && job.mode != Restore
    requires GroundOf(h.looks) == Some(job.manifest) && h.disk.gone == map[]
    modifies h`disk, h`writers, h`fate, h`trace, h`grounds
    ensures h.AllSafe(job)
    ensures if r.Done? then Finished(job, h.disk) && Archived(job, h.disk) else Retiring(job, h.disk)
    ensures Calm(old(h.fate), old(h.writers)) ==> r == Done && h.fate == [] && h.writers == old(h.writers)
  {
    assert Retiring(job, h.disk);
    if job.mode == Plain {
      :- SaveFinalRow(h, job);
    }
    :- RetireSource(h, job);
    if job.mode == Demote {
      :- SaveFinalRow(h, job);
    }
    :- RetireMirror(h, job);
    r := CloseJournal(h, job);
  }

  // ---- A restore keeps the original ----

  /** A published restore: the public names lead to the hot copy, the original is kept somewhere. */
  ghost predicate Restoring(job: Job, d: Disk) {
    && job.mode == Restore && d.gone == map[] && PublishedNames(job, d)
    && (d.journal == Some(job.PublishedRecord()) || d.journal == None)
    && PayloadKept(d)
  }

  lemma RestoringSafe(job: Job, d: Disk)
    requires job.WellFormed() && Restoring(job, d)
    ensures Safe(job, d)
  {
    var final := job.FinalNamespace();
    assert job.Dest() in final;
    forall q | q in job.base
      ensures q in d.ns && ((d.ns[q] == job.base[q] && (q == job.original ==> d.gone == map[])) || Direct(job, d, q))
    {
      assert q in final;
    }
  }

  function RestoredRow(job: Job): Row {
    Row(if job.source == job.original then job.cold else job.original, Ssd, Some(job.Dest()), set a | a in job.aliases)
  }

  /** The unit is hot again: the complete copy is at the row's hot path, the original at its target, and the public
      source and the admitted aliases, which are those of the row, lead to the copy. */
  ghost predicate HotAgain(job: Job, d: Disk) {
    && d.row.Some? && d.row.value.location == Ssd && d.row.value.hot.Some?
    && d.row.value.hot.value in d.ns && d.ns[d.row.value.hot.value] == Replica(job.Copy())
    && d.row.value.target in d.ns && d.ns[d.row.value.target] == Payload
    && (forall a :: a in d.row.value.aliases <==> a in job.aliases)
    && LeadTo(job, d, d.row.value.aliases, d.row.value.hot.value)
  }

  lemma RestoredHot(job: Job, d: Disk)
    requires job.WellFormed() && job.Leads() && Restored(job, d)
    ensures HotAgain(job, d)
  {
    SwitchedLead(job, d, d.row.value.aliases);
  }

  /** A finished restore: ledger, names and the original in its cold place agree. */
  ghost predicate Restored(job: Job, d: Disk) {
    && Restoring(job, d) && d.journal == None && d.row == Some(RestoredRow(job))
    && RestoredRow(job).target in d.ns && d.ns[RestoredRow(job).target] == Payload
  }

  method RestoreStep(h: Host, ghost job: Job, op: Op) returns (r: Outcome)
    requires job.WellFormed() && h.AllSafe(job) && Restoring(job, h.disk)
    requires Enabled(h.disk, op) ==> Restoring(job, Apply(h.disk, op))
    modifies h`disk, h`writers, h`fate, h`trace, h`grounds
    ensures h.AllSafe(job) && Restoring(job, h.disk)
    ensures r.Done? ==> Enabled(old(h.disk), op) && h.disk == Apply(old(h.disk), op)
    ensures !r.Done? ==> h.disk == old(h.disk)
    ensures Calm(old(h.fate), old(h.writers)) ==>
              h.fate == [] && h.writers == old(h.writers) && (Enabled(old(h.disk), op) ==> r == Done)
  {
    if Enabled(h.disk, op) {
      RestoringSafe(job, Apply(h.disk, op));
    }
    r := h.Do(job, op);
  }

  /** The parked source entry of a restore was a link: dropping it leaves the original at its cold name. */
  lemma DropParkedLink(job: Job, d: Disk)
    requires job.WellFormed() && JustPublished(job, d) && job.mode == Restore && d.ns[TierOriginal(job.source)].Link?
    ensures Restoring(job, Apply(d, Remove(TierOriginal(job.source))))
    ensures job.original in d.ns && d.ns[job.original] == Payload && job.source != job.original
  {
    var final := job.FinalNamespace();
    assert TierOriginal(job.source) !in final;
    assert job.original in final;
    assert Apply(d, Remove(TierOriginal(job.source))).ns[job.original] == Payload;
  }

  /** Or it was the original itself, which moves to its cold name. */
  lemma MoveParked(job: Job, d: Disk)
    requires job.WellFormed() && JustPublished(job, d) && job.mode == Restore && !d.ns[TierOriginal(job.source)].Link?
    ensures Restoring(job, Apply(d, Op.Move(TierOriginal(job.source), job.cold)))
    ensures job.source == job.original && d.ns[TierOriginal(job.source)] == Payload
  {
    var final := job.FinalNamespace();
    assert TierOriginal(job.source) !in final && job.cold !in final;
    assert Apply(d, Op.Move(TierOriginal(job.source), job.cold)).ns[job.cold] == Payload;
  }

  /** Sets the parked source entry aside: a link is dropped, the original itself is kept cold. */
  method ParkRestored(h: Host, job: Job) returns (r: Outcome)
    requires job.WellFormed() && h.AllSafe(job) && JustPublished(job, h.disk) && job.mode == Restore
    modifies h`disk, h`writers, h`fate, h`trace, h`grounds
    ensures h.AllSafe(job) && Restoring(job, h.disk)
    ensures r.Done? ==> RestoredRow(job).target in h.disk.ns && h.disk.ns[RestoredRow(job).target] == Payload
    ensures Calm(old(h.fate), old(h.writers)) ==> r == Done && h.fate == [] && h.writers == old(h.writers)
  {
    JustPublishedSafe(job, h.disk);
    if h.disk.ns[TierOriginal(job.source)].Link? {
      DropParkedLink(job, h.disk);
      r := RestoreStep(h, job, Remove(TierOriginal(job.source)));
    } else {
      MoveParked(job, h.disk);
      r := RestoreStep(h, job, Op.Move(TierOriginal(job.source), job.cold));
    }
  }

  method FinishRestore(h: Host, job: Job) returns (r: Outcome)
    requires job.WellFormed() && h.AllSafe(job) && JustPublished(job, h.disk) && job.mode == Restore
    modifies h`disk, h`writers, h`fate, h`trace, h`grounds
    ensures h.AllSafe(job) && Restoring(job, h.disk)
    ensures r.Done? ==> Restored(job, h.disk) && HotAgain(job, h.disk)
    ensures Calm(old(h.fate), old(h.writers)) ==> r == Done && h.fate == [] && h.writers == old(h.writers)
  {
    r := ParkRestored(h, job);
    if !r.Done? {
      return;
    }
    :- SaveRestored(h, job);
    ghost var before := h.disk;
    DropRestored(job, before);
    r := RestoreStep(h, job, DropJournal);
    assert r.Done? ==> h.disk == Apply(before, DropJournal);
    if r.Done? {
      RestoredHot(job, h.disk);
    }
  }

  lemma DropRestored(job: Job, d: Disk)
    requires job.WellFormed() && Restoring(job, d)
    ensures Restoring(job, Apply(d, DropJournal))
  {
    assert PublishedNames(job, Apply(d, DropJournal));
  }

  method SaveRestored(h: Host, job: Job) returns (r: Outcome)
    requires job.WellFormed() && h.AllSafe(job) && Restoring(job, h.disk)
    modifies h`disk, h`writers, h`fate, h`trace, h`grounds
    ensures h.AllSafe(job) && Restoring(job, h.disk) && h.disk.ns == old(h.disk.ns)
    ensures r.Done? ==> h.disk.row == Some(RestoredRow(job))
    ensures Calm(old(h.fate), old(h.writers)) ==> r == Done && h.fate == [] && h.writers == old(h.writers)
  {
    r := RestoreStep(h, job, SaveRow(RestoredRow(job)));
  }

  // ---- An unpublished move that failed ----

  lemma StagingDropped(job: Job, d: Disk, op: Op)
    requires job.WellFormed() && NotPublished(job, d)
    requires (op.Remove? && op.at == job.staging && job.staging in d.ns) || (op.Store? && op.at == job.staging)
    ensures NotPublished(job, Apply(d, op)) && Safe(job, Apply(d, op)) && PayloadKept(Apply(d, op))
  {
    NotPublishedSafe(job, Apply(d, op));
  }

  /** Removes the staging tree piece by piece; a crash may leave any part of it. */
  method DropStaging(h: Host, ghost job: Job, staging: Path, parts: seq<Tree>) returns (r: Outcome)
    requires job.WellFormed() && h.AllSafe(job) && NotPublished(job, h.disk) && staging == job.staging
    modifies h`disk, h`writers, h`fate, h`trace, h`grounds
    ensures h.AllSafe(job) && NotPublished(job, h.disk) && h.disk.journal == old(h.disk.journal)
    ensures r.Done? ==> job.staging !in h.disk.ns
    ensures old(h.fate) == [] ==> r == Done && h.fate == []
  {
    if staging !in h.disk.ns {
      return Done;
    }
    for i := 0 to |parts|
      invariant h.AllSafe(job) && NotPublished(job, h.disk) && h.disk.journal == old(h.disk.journal)
      invariant job.staging in h.disk.ns
      invariant old(h.fate) == [] ==> h.fate == []
    {
      StagingDropped(job, h.disk, Store(staging, parts[i]));
      :- h.Do(job, Store(staging, parts[i]));
    }
    StagingDropped(job, h.disk, Remove(staging));
    r := h.Do(job, Remove(staging));
  }

  /** The admitted names are unchanged, the staging tree and the journal are gone. */
  ghost predicate Discarded(job: Job, d: Disk) {
    Untouched(job, d) && d.journal == None && job.staging !in d.ns && d.row == job.row
  }

  lemma DiscardedSafe(job: Job, d: Disk)
    requires job.WellFormed() && Discarded(job, d)
    ensures Safe(job, d) && PayloadKept(d)
  {
    assert d.ns[job.original] == Payload;
  }

  method DropUnpublished(h: Host, ghost job: Job) returns (r: Outcome)
    requires job.WellFormed() && h.AllSafe(job) && NotPublished(job, h.disk) && job.staging !in h.disk.ns
    modifies h`disk, h`writers, h`fate, h`trace, h`grounds
    ensures h.AllSafe(job)
    ensures if r.Done? then Discarded(job, h.disk) else NotPublished(job, h.disk)
    ensures old(h.fate) == [] ==> r == Done
  {
    DiscardedSafe(job, Apply(h.disk, DropJournal));
    r := h.Do(job, DropJournal);
  }

  /** The failure handler of an unpublished move. `named` as in PublishMirror. */
  method CleanUp(h: Host, job: Job, parts: seq<Tree>, named: bool) returns (r: Outcome)
    requires job.WellFormed() && h.AllSafe(job) && NotPublished(job, h.disk)
    requires named ==> job.mirrored
    modifies h`disk, h`writers, h`fate, h`trace, h`grounds
    ensures h.AllSafe(job) && r != Done
    ensures Discarded(job, h.disk) || NotPublished(job, h.disk)
  {
    r := DropStaging(h, job, job.staging, parts);
    if r == Raised {
      var record := (if named then MirrorRecord(job) else job.NewRecord(Copying)).(phase := AbortedCleanup);
      NotPublishedSafe(job, Apply(h.disk, SaveJournal(record)));
      r := h.Do(job, SaveJournal(record));
    } else if r == Done {
      r := DropUnpublished(h, job);
    }
    if r == Done {
      r := Raised;
    }
  }
}
