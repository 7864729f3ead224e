/** One whole relocation, from admission to its end, with writers and crashes at any point. */
module Relocation {
  import opened Basics
  import opened RelocationModel
  import opened RelocationHost
  import opened RelocationMove
  import opened RelocationPublish
  import opened RelocationFinish

  /** What a stopped move can leave behind. */
  ghost predicate Stopped(job: Job, d: Disk) {
    || d == job.Start()
    || NotPublished(job, d)
    || Discarded(job, d)
    || Retained(job, d)
    || Retiring(job, d)
    || (job.mode == Restore && Restoring(job, d))
  }

  /** What a finished move leaves: a restore a hot unit with the original kept cold, any other an archived unit and
      nothing else. */
  ghost predicate Ended(job: Job, d: Disk) {
    if job.mode == Restore then Restored(job, d) && HotAgain(job, d) else Finished(job, d) && Archived(job, d)
  }

  /** The public names lead to the original, as callers of a move must find them. */
  method Admissible(h: Host, job: Job) returns (ok: bool)
    ensures ok ==> Resolve(h.disk.ns, job.source, job.hops) == Some(job.original)
    ensures ok ==> forall a :: a in job.aliases ==> Resolve(h.disk.ns, a, job.hops) == Some(job.original)
    ensures h.disk == job.Start() && job.Leads() ==> ok
  {
    ok := Resolve(h.disk.ns, job.source, job.hops) == Some(job.original);
    for i := 0 to |job.aliases|
      invariant ok ==> Resolve(h.disk.ns, job.source, job.hops) == Some(job.original)
      invariant ok ==> forall k :: 0 <= k < i ==> Resolve(h.disk.ns, job.aliases[k], job.hops) == Some(job.original)
      invariant h.disk == job.Start() && job.Leads() ==> ok
    {
      ok := ok && Resolve(h.disk.ns, job.aliases[i], job.hops) == Some(job.original);
    }
  }

  /** What an undisturbed move needs to finish: names that lead to the original, aliases that lead there
      directly, and a transfer that ends in the admitted tree. */
  predicate Undisturbed(job: Job, received: seq<Tree>) {
    && job.Leads() && PlainAliases(job) && received != [] && received[|received| - 1] == job.manifest
  }

  /** From the verified copy to the published record. */
  method Publish(h: Host, job: Job) returns (r: Outcome, published: bool, named: bool)
    requires job.WellFormed() && h.AllSafe(job) && Ready(job, h.disk)
    requires Resolve(job.base, job.source, job.hops) == Some(job.original)
    requires forall a :: a in job.aliases ==> Resolve(job.base, a, job.hops) == Some(job.original)
    modifies h`disk, h`writers, h`fate, h`trace, h`grounds
    ensures h.AllSafe(job)
    ensures named ==> job.mirrored
    ensures !published ==> NotPublished(job, h.disk) && !r.Done?
    ensures published && !r.Done? ==> Retained(job, h.disk)
    ensures r.Done? ==> JustPublished(job, h.disk)
    ensures Drifts(old(h.writers), h.writers)
    ensures Calm(old(h.fate), old(h.writers)) && PlainAliases(job) && (job.mirrored ==> SlotLeads(job)) ==>
              r == Done && h.fate == [] && h.writers == old(h.writers)
  {
    published, named := false, false;
    r := Done;
    if job.mirrored {
      r, published, named := PublishMirror(h, job);
    } else {
      ReadyIsPlaced(job, h.disk);
    }
    if r.Done? {
      r, published := PublishSource(h, job, job.mirrored);
    }
    if r.Done? {
      r := PublishNames(h, job);
    }
  }

  /** The rest of publication, once the source leads to the copy. */
  method PublishNames(h: Host, job: Job) returns (r: Outcome)
    requires job.WellFormed() && job.Leads() && h.AllSafe(job) && SourceDone(job, h.disk) && Retained(job, h.disk)
    modifies h`disk, h`writers, h`fate, h`trace, h`grounds
    ensures h.AllSafe(job)
    ensures if r.Done? then JustPublished(job, h.disk) else Retained(job, h.disk)
    ensures Drifts(old(h.writers), h.writers)
    ensures Calm(old(h.fate), old(h.writers)) && PlainAliases(job) ==>
              r == Done && h.fate == [] && h.writers == old(h.writers)
  {
    r := PublishOriginal(h, job);
    if r.Done? {
      r := PublishAliases(h, job);
    }
    if r.Done? {
      r := SavePublished(h, job);
    }
  }

  /** After publication: the late-writer check, then retirement or, for a restore, parking. Unless the
      drain found no change and the scan found no holder, nothing is touched. */
  method Retirement(h: Host, job: Job, ghost admitted: nat) returns (r: Outcome)
    requires job.WellFormed() && h.AllSafe(job) && JustPublished(job, h.disk)
    requires FullyTracked(job, h.writers, admitted)
    modifies h
    ensures h.AllSafe(job) && old(h.looks) <= h.looks && |h.looks| <= |old(h.looks)| + 2
    ensures h.looks != old(h.looks) + Clean(admitted, job.manifest) ==> r != Done && h.disk == old(h.disk)
    ensures h.looks == old(h.looks) + Clean(admitted, job.manifest) ==> old(h.writers).version == admitted
    ensures r.Done? ==> Ended(job, h.disk)
    ensures !r.Done? ==> if job.mode == Restore then Restoring(job, h.disk) else Retiring(job, h.disk)
    ensures Calm(old(h.fate), old(h.writers)) ==> r == Done
  {
    JustPublishedSafe(job, h.disk);
    r := LateCheck(h, job, admitted);
    if r.Done? {
      if job.mode == Restore {
        r := FinishRestore(h, job);
      } else {
        r := FinishMove(h, job);
      }
    }
  }

  lemma StartSafe(job: Job)
    requires job.WellFormed()
    ensures Safe(job, job.Start())
  {
    assert job.Start().ns[job.original] == Payload;
  }

  method Begin(h: Host, job: Job, ghost admitted: nat) returns (r: Outcome)
    requires job.WellFormed() && h.AllSafe(job) && h.disk == job.Start()
    requires Tracked(job, h.writers, admitted)
    modifies h`disk, h`writers, h`fate, h`trace, h`grounds
    ensures h.AllSafe(job)
    ensures if r.Done? then Working(h, job, admitted) else h.disk == job.Start()
    ensures Calm(old(h.fate), old(h.writers)) ==> r == Done && h.fate == [] && h.writers == old(h.writers)
  {
    NotPublishedSafe(job, Apply(h.disk, SaveJournal(job.NewRecord(Copying))));
    r := h.Do(job, SaveJournal(job.NewRecord(Copying)));
  }

  /** What a move that retires the original has seen of the writers, twice: as it drained their events before
      verification and again before retirement they had not changed the admitted original, and no scan after
      that found a holder. */
  function CleanMove(admitted: nat, manifest: Tree): seq<Look> {
    Clean(admitted, manifest) + Clean(admitted, manifest)
  }

  /** What a stopped move leaves, by what it has seen. Before the first drain and scan have passed no name has
      changed. Until the second have passed the original and, from the second drain on, the published copy and
      the journal are all kept. */
  ghost predicate StoppedBy(job: Job, d: Disk, admitted: nat, seen: seq<Look>) {
    && (!(Clean(admitted, job.manifest) <= seen) ==> Untouched(job, d))
    && (seen != CleanMove(admitted, job.manifest) ==> PayloadKept(d))
    && (seen != CleanMove(admitted, job.manifest) && |seen| > 2 ==> JustPublished(job, d))
  }

  /** One relocation. `received` is what the transfer writes to the staging tree, step by step; `parts`
      what a clean-up leaves of it, step by step. */
  method Migrate(h: Host, job: Job, received: seq<Tree>, parts: seq<Tree>) returns (r: Outcome)
    requires job.WellFormed() && h.disk == job.Start() && h.New()
    requires h.writers.live == job.manifest
    modifies h
    ensures h.AllSafe(job) && old(h.looks) + [Started] <= h.looks
    ensures r != Done ==> Stopped(job, h.disk)
    ensures r == Done ==> Ended(job, h.disk)
    ensures var seen := h.looks[|old(h.looks)| + 1..];
      && (r == Done ==> seen == CleanMove(old(h.writers).version, job.manifest))
      && (r != Done ==> StoppedBy(job, h.disk, old(h.writers).version, seen))
    ensures old(h.fate) == [] && !old(h.writers).open && Undisturbed(job, received) ==> r == Done
  {
    h.Enter();
    StartSafe(job);
    assert PayloadKept(h.disk) by { assert h.disk.ns[job.original] == Payload; }
    var admitted := h.writers.version;
    var ok := Admissible(h, job);
    if !ok {
      return Raised;
    }
    r := h.Happen();
    if !r.Done? {
      return;
    }
    h.writers := h.writers.(queued := 0);
    r := Begin(h, job, admitted);
    if !r.Done? {
      return;
    }
    r := Relocate(h, job, received, parts, admitted);
  }

  lemma NotPublishedKept(job: Job, d: Disk)
    requires job.WellFormed() && (NotPublished(job, d) || Discarded(job, d))
    ensures PayloadKept(d)
  {
    assert d.ns[job.original] == Payload;
  }

  /** From the verified copy to the end. Until the second drain and scan have passed the original is kept; once
      that drain has been completed so are the published copy and the journal. */
  method Commit(h: Host, job: Job, parts: seq<Tree>, ghost admitted: nat) returns (r: Outcome)
    requires job.WellFormed() && h.AllSafe(job) && Ready(job, h.disk) && FullyTracked(job, h.writers, admitted)
    requires Resolve(job.base, job.source, job.hops) == Some(job.original)
    requires forall a :: a in job.aliases ==> Resolve(job.base, a, job.hops) == Some(job.original)
    modifies h
    ensures h.AllSafe(job) && old(h.looks) <= h.looks
    ensures r != Done ==> Stopped(job, h.disk)
    ensures r == Done ==> Ended(job, h.disk)
    ensures r == Done ==> h.looks == old(h.looks) + Clean(admitted, job.manifest)
    ensures h.looks != old(h.looks) + Clean(admitted, job.manifest) ==>
      PayloadKept(h.disk) && (h.looks != old(h.looks) ==> JustPublished(job, h.disk))
    ensures Calm(old(h.fate), old(h.writers)) && PlainAliases(job) && (job.mirrored ==> SlotLeads(job)) ==> r == Done
  {
    var published, named;
    r, published, named := Publish(h, job);
    if r.Done? {
      ghost var before := h.disk;
      PublishedKept(job, before);
      r := Retirement(h, job, admitted);
    } else if r == Raised && !published {
      r := CleanUp(h, job, parts, named);
      NotPublishedKept(job, h.disk);
    } else if !published {
      NotPublishedKept(job, h.disk);
    }
  }

  lemma PublishedKept(job: Job, d: Disk)
    requires JustPublished(job, d)
    ensures PayloadKept(d)
  {
  }

  method Relocate(h: Host, job: Job, received: seq<Tree>, parts: seq<Tree>, admitted: nat) returns (r: Outcome)
    requires Working(h, job, admitted)
    requires Resolve(job.base, job.source, job.hops) == Some(job.original)
    requires forall a :: a in job.aliases ==> Resolve(job.base, a, job.hops) == Some(job.original)
    modifies h
    ensures h.AllSafe(job) && old(h.looks) <= h.looks
    ensures r != Done ==> Stopped(job, h.disk)
    ensures r == Done ==> Ended(job, h.disk)
    ensures var seen := h.looks[|old(h.looks)|..];
      && (r == Done ==> seen == CleanMove(admitted, job.manifest))
      && (r != Done ==> StoppedBy(job, h.disk, admitted, seen))
    ensures Calm(old(h.fate), old(h.writers)) && Undisturbed(job, received) && old(h.writers).version == admitted ==> r == Done
  {
    r := CopyAndVerify(h, job, received, admitted);
    if r.Done? {
      r := Commit(h, job, parts, admitted);
      CommittedBy(job, h.disk, admitted, old(h.looks), h.looks);
    } else {
      r := GiveUp(h, job, parts, r);
    }
  }

  /** An error before verification has passed; a crash leaves everything as it is. */
  method GiveUp(h: Host, job: Job, parts: seq<Tree>, failure: Outcome) returns (r: Outcome)
    requires job.WellFormed() && h.AllSafe(job) && NotPublished(job, h.disk) && failure != Done
    modifies h`disk, h`writers, h`fate, h`trace, h`grounds
    ensures h.AllSafe(job) && r != Done && (NotPublished(job, h.disk) || Discarded(job, h.disk))
    ensures Untouched(job, h.disk) && PayloadKept(h.disk)
  {
    r := failure;
    if failure == Raised {
      r := CleanUp(h, job, parts, false);
    }
    NotPublishedKept(job, h.disk);
  }

  lemma CommittedBy(job: Job, d: Disk, admitted: nat, before: seq<Look>, looks: seq<Look>)
    requires var verified := before + Clean(admitted, job.manifest);
      && verified <= looks
      && (looks != verified + Clean(admitted, job.manifest) ==>
            PayloadKept(d) && (looks != verified ==> JustPublished(job, d)))
    ensures StoppedBy(job, d, admitted, looks[|before|..])
    ensures looks == before + Clean(admitted, job.manifest) + Clean(admitted, job.manifest) ==>
              looks[|before|..] == CleanMove(admitted, job.manifest)
  {
    var seen, clean := looks[|before|..], Clean(admitted, job.manifest);
    assert clean == seen[..2];
    if seen == CleanMove(admitted, job.manifest) {
      assert looks == before + seen;
    }
  }
}
