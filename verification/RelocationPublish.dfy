/** Publication: the exchanges that turn the public names into links to the verified copy, one at a
    time, under a journal that neither recovery nor abort accepts until all of them are done. */
module RelocationPublish {
  import opened Basics
  import opened RelocationModel
  import opened RelocationHost
  import opened RelocationMove

  /** How far publication has come: the copy is at its destination, the source and the physical
      original are exchanged, and so many aliases are replaced. */
  datatype Progress = Progress(placed: bool, source: bool, original: bool, aliases: nat)

  function Expected(job: Job, pr: Progress, q: Path): Node
    requires q in job.base && pr.aliases <= |job.aliases|
  {
    if pr.placed && q == job.Dest() then Replica(job.Copy())
    else if (pr.source && q == job.source) || (pr.original && q == job.original) || q in job.aliases[..pr.aliases]
    then Link(job.Dest())
    else job.base[q]
  }

  /** Open between the first exchange and the published record. */
  ghost predicate JournalOpen(job: Job, d: Disk) {
    && d.journal.Some?
    && (d.journal.value.phase == Verified || d.journal.value.phase == MirrorPublishing)
    && d.journal.value.restore == (job.mode == Restore)
    && d.journal.value.source == job.source && d.journal.value.original == job.original
    && d.journal.value.destination in {job.staging, job.mirrorSlot}
  }

  /** A state of publication. The untouched payload is at `at`; `extra` are the names that are not in
      the admitted namespace. */
  ghost predicate Publishing(job: Job, d: Disk, pr: Progress, at: Path, extra: set<Path>) {
    && JournalOpen(job, d) && d.row == job.row && d.gone == map[] && d.flushed
    && pr.aliases <= |job.aliases|
    && (pr.source || pr.original || pr.aliases > 0 ==> pr.placed)
    && (forall q :: q in job.base ==> q in d.ns && d.ns[q] == Expected(job, pr, q))
    && (pr.placed ==> job.Dest() in d.ns && d.ns[job.Dest()] == Replica(job.Copy()))
    && at in d.ns && d.ns[at] == Payload
    && (forall q :: q in d.ns ==> q in job.base || q in extra)
  }

  lemma PublishingSafe(job: Job, d: Disk, pr: Progress, at: Path, extra: set<Path>)
    requires job.WellFormed() && Publishing(job, d, pr, at, extra)
    ensures Safe(job, d)
  {
    forall q | q in job.base
      ensures (d.ns[q] == job.base[q] && (q == job.original ==> d.gone == map[])) || Direct(job, d, q)
    {
      if d.ns[q] == Link(job.Dest()) {
        assert Expected(job, pr, q) == d.ns[q];
        if !pr.placed {
          assert q !in job.aliases[..0];
        }
      }
    }
  }

  /** Whatever went wrong now, the untouched original and the journal are still there. */
  ghost predicate Retained(job: Job, d: Disk) {
    JournalOpen(job, d) && PayloadKept(d)
  }

  /** The entry at `p` is about to be exchanged for the link waiting at its tier name. */
  ghost predicate Swappable(job: Job, d: Disk, p: Path, pr: Progress, next: Progress, at: Path, extra: set<Path>) {
    && Publishing(job, d, pr, at, extra)
    && pr.placed && p in job.base && p != job.Dest() && !Temporary(p)
    && ((p == job.source && next == pr.(source := true)) || (p == job.original && next == pr.(original := true)))
    && TierLink(p) in d.ns && d.ns[TierLink(p)] == Link(job.Dest())
    && TierLink(p) in extra && TierOriginal(p) !in d.ns
    && d.ns[p] == job.base[p]
    && (job.base[p] == Payload <==> at == p)
    && !Temporary(job.Dest())
  }

  lemma ExchangeStep(job: Job, d: Disk, p: Path, pr: Progress, next: Progress, at: Path, extra: set<Path>)
    requires job.WellFormed() && Swappable(job, d, p, pr, next, at, extra)
    ensures Publishing(job, Apply(d, Op.Exchange(p, TierLink(p))), next, if at == p then TierLink(p) else at, extra)
  {
    var after := Apply(d, Op.Exchange(p, TierLink(p)));
    forall q | q in job.base ensures after.ns[q] == Expected(job, next, q) {
      assert !Temporary(q) && d.ns[q] == Expected(job, pr, q);
    }
  }

  lemma ParkStep(job: Job, d: Disk, p: Path, pr: Progress, at: Path, extra: set<Path>)
    requires job.WellFormed() && Publishing(job, d, pr, at, extra)
    requires TierLink(p) in d.ns && TierLink(p) in extra && TierOriginal(p) !in d.ns && !Temporary(job.Dest())
    requires at == TierLink(p) || !Temporary(at)
    ensures Publishing(job, Apply(d, Op.Move(TierLink(p), TierOriginal(p))), pr,
                       if at == TierLink(p) then TierOriginal(p) else at, extra - {TierLink(p)} + {TierOriginal(p)})
  {
    var after := Apply(d, Op.Move(TierLink(p), TierOriginal(p)));
    forall q | q in job.base ensures q in after.ns && after.ns[q] == Expected(job, pr, q) {
      assert !Temporary(q) && d.ns[q] == Expected(job, pr, q);
    }
  }

  /** One durable step whose result is again a state of publication. */
  method Advance(h: Host, ghost job: Job, op: Op, ghost pr: Progress, ghost at: Path, ghost extra: set<Path>)
    returns (r: Outcome)
    requires job.WellFormed() && h.AllSafe(job)
    requires Enabled(h.disk, op) ==> Publishing(job, Apply(h.disk, op), pr, at, extra)
    requires Retained(job, h.disk)
    modifies h`disk, h`writers, h`fate, h`trace, h`grounds
    ensures h.AllSafe(job) && Retained(job, h.disk)
    ensures r.Done? ==> Enabled(old(h.disk), op) && h.disk == Apply(old(h.disk), op)
    ensures !r.Done? ==> h.disk == old(h.disk)
    ensures Drifts(old(h.writers), h.writers)
    ensures Calm(old(h.fate), old(h.writers)) ==>
              h.fate == [] && h.writers == old(h.writers) && (Enabled(old(h.disk), op) ==> r == Done)
  {
    if Enabled(h.disk, op) {
      PublishingSafe(job, Apply(h.disk, op), pr, at, extra);
    }
    r := h.Do(job, op);
  }

  /** Exchanges the entry at `p` for a link to the destination and parks what it held at the tier name. */
  method Swap(h: Host, ghost job: Job, p: Path, ghost pr: Progress, ghost next: Progress,
              ghost at: Path, ghost extra: set<Path>) returns (r: Outcome)
    requires job.WellFormed() && h.AllSafe(job) && Swappable(job, h.disk, p, pr, next, at, extra)
    requires !Temporary(at)
    modifies h`disk, h`writers, h`fate, h`trace, h`grounds
    ensures h.AllSafe(job) && Retained(job, h.disk)
    ensures r.Done? ==> Publishing(job, h.disk, next, if at == p then TierOriginal(p) else at,
                                   extra - {TierLink(p)} + {TierOriginal(p)})
    ensures r.Done? ==>
      h.disk == Apply(Apply(old(h.disk), Op.Exchange(p, TierLink(p))), Op.Move(TierLink(p), TierOriginal(p)))
    ensures Drifts(old(h.writers), h.writers)
    ensures Calm(old(h.fate), old(h.writers)) ==> r == Done && h.fate == [] && h.writers == old(h.writers)
  {
    ghost var mid := if at == p then TierLink(p) else at;
    ghost var end := if at == p then TierOriginal(p) else at;
    ghost var before := h.disk;
    var exchange, park := Op.Exchange(p, TierLink(p)), Op.Move(TierLink(p), TierOriginal(p));
    ExchangeStep(job, before, p, pr, next, at, extra);
    :- Advance(h, job, exchange, next, mid, extra);
    ghost var exchanged := h.disk;
    assert exchanged == Apply(before, exchange);
    ParkStep(job, exchanged, p, next, mid, extra);
    r := Advance(h, job, park, next, end, extra - {TierLink(p)} + {TierOriginal(p)});
  }

  // ---- The destination ----

  /** Names outside the admitted namespace once the copy is at its destination. */
  function Extra(job: Job, sourceDone: bool, originalDone: bool): set<Path> {
    {job.Dest()}
    + (if job.mirrored && !job.MirrorIsSource() then {job.staging} else {})
    + (if sourceDone || job.MirrorIsSource() then {TierOriginal(job.source)} else {})
    + (if originalDone then {TierOriginal(job.original)} else {})
  }

  /** What the parked names hold. */
  ghost predicate Parked(job: Job, d: Disk, sourceDone: bool) {
    && (job.mirrored && !job.MirrorIsSource() ==>
          job.staging in d.ns && d.ns[job.staging] == job.FormerSlot())
    && (sourceDone || job.MirrorIsSource() ==>
          job.source in job.base && TierOriginal(job.source) in d.ns
          && d.ns[TierOriginal(job.source)] == job.base[job.source])
  }

  ghost predicate Placed(job: Job, d: Disk) {
    && Publishing(job, d, Progress(true, false, false, 0), job.original, Extra(job, false, false))
    && Parked(job, d, false)
  }

  lemma ReadyIsPlaced(job: Job, d: Disk)
    requires job.WellFormed() && Ready(job, d) && !job.mirrored
    ensures Placed(job, d) && Retained(job, d)
  {
  }

  ghost predicate MirrorPending(job: Job, d: Disk) {
    && Publishing(job, d, Progress(false, false, false, 0), job.original, {job.staging, job.mirrorSlot})
    && job.staging in d.ns && d.ns[job.staging] == Replica(job.Copy())
    && (job.mirrorSlot in d.ns && job.mirrorSlot !in job.base ==> d.ns[job.mirrorSlot] == Link(job.original))
  }

  lemma ReadyIsPending(job: Job, d: Disk)
    requires job.WellFormed() && Ready(job, d)
    ensures MirrorPending(job, d) && Retained(job, d)
  {
  }

  lemma PendingNotPublished(job: Job, d: Disk)
    requires job.WellFormed() && MirrorPending(job, d)
    ensures NotPublished(job, d)
  {
    forall q | q in job.base ensures d.ns[q] == job.base[q] {
      assert d.ns[q] == Expected(job, Progress(false, false, false, 0), q);
    }
  }

  lemma MirrorExchange(job: Job, d: Disk)
    requires job.WellFormed() && job.mirrored && MirrorPending(job, d) && job.mirrorSlot in d.ns
    ensures var after := Apply(d, Op.Exchange(job.staging, job.mirrorSlot));
            Publishing(job, after, Progress(true, false, false, 0), job.original, {job.staging, job.mirrorSlot})
            && after.ns[job.staging] == job.FormerSlot()
  {
    var after := Apply(d, Op.Exchange(job.staging, job.mirrorSlot));
    forall q | q in job.base ensures q in after.ns && after.ns[q] == Expected(job, Progress(true, false, false, 0), q) {
      assert d.ns[q] == Expected(job, Progress(false, false, false, 0), q);
    }
    if job.mirrorSlot in job.base {
      assert d.ns[job.mirrorSlot] == Expected(job, Progress(false, false, false, 0), job.mirrorSlot);
    }
  }

  lemma MirrorPark(job: Job, d: Disk)
    requires job.WellFormed() && job.MirrorIsSource() && job.source in job.base
    requires Publishing(job, d, Progress(true, false, false, 0), job.original, {job.staging, job.mirrorSlot})
    requires job.staging in d.ns && d.ns[job.staging] == job.FormerSlot()
    ensures Placed(job, Apply(d, Op.Move(job.staging, TierOriginal(job.source))))
  {
    var after := Apply(d, Op.Move(job.staging, TierOriginal(job.source)));
    forall q | q in job.base ensures q in after.ns && after.ns[q] == Expected(job, Progress(true, false, false, 0), q) {
      assert d.ns[q] == Expected(job, Progress(true, false, false, 0), q);
    }
  }

  function MirrorRecord(job: Job): Record {
    job.NewRecord(MirrorPublishing).(destination := job.mirrorSlot, mirrorStaged := Some(job.staging))
  }

  predicate SlotLeads(job: Job) {
    job.mirrorSlot in job.base ==> Resolve(job.base, job.mirrorSlot, job.hops) == Some(job.original)
  }

  /** A chain that ends at the original uses admitted names only. */
  lemma {:induction false} SameChain(job: Job, d: Disk, p: Path, n: nat)
    requires job.WellFormed() && Ready(job, d)
    requires Resolve(d.ns, p, n) == Some(job.original)
    ensures Resolve(job.base, p, n) == Some(job.original)
    decreases n
  {
    if p in job.base && job.base[p].Link? {
      SameChain(job, d, job.base[p].to, n - 1);
    }
  }

  /** Makes sure the mirror slot holds a proxy that leads to the original. */
  method PrepareSlot(h: Host, job: Job) returns (r: Outcome)
    requires job.WellFormed() && h.AllSafe(job) && Ready(job, h.disk) && job.mirrored && job.hops > 0
    modifies h`disk, h`writers, h`fate, h`trace, h`grounds
    ensures h.AllSafe(job) && MirrorPending(job, h.disk) && Retained(job, h.disk)
    ensures r.Done? ==> job.mirrorSlot in h.disk.ns && SlotLeads(job)
    ensures Drifts(old(h.writers), h.writers)
    ensures Calm(old(h.fate), old(h.writers)) && SlotLeads(job) ==> r == Done && h.fate == [] && h.writers == old(h.writers)
  {
    ReadyIsPending(job, h.disk);
    if job.mirrorSlot in h.disk.ns {
      if SlotLeads(job) {
        PrivateChain(job, h.disk, job.mirrorSlot, job.hops);
      }
      assert Resolve(h.disk.ns, job.original, job.hops) == Some(job.original);
      if !h.disk.ns[job.mirrorSlot].Link?
         || Resolve(h.disk.ns, job.mirrorSlot, job.hops) != Resolve(h.disk.ns, job.original, job.hops) {
        return Raised;
      }
      SameChain(job, h.disk, job.mirrorSlot, job.hops);
      return Done;
    }
    r := Advance(h, job, MakeLink(job.mirrorSlot, job.original), Progress(false, false, false, 0), job.original,
                 {job.staging, job.mirrorSlot});
  }

  /** Exchanges the verified copy into its final mirror slot. */
  method FillSlot(h: Host, job: Job) returns (r: Outcome)
    requires job.WellFormed() && h.AllSafe(job) && job.mirrored && job.source in job.base
    requires MirrorPending(job, h.disk) && Retained(job, h.disk) && job.mirrorSlot in h.disk.ns
    modifies h`disk, h`writers, h`fate, h`trace, h`grounds
    ensures h.AllSafe(job) && Retained(job, h.disk)
    ensures r.Done? ==> Placed(job, h.disk)
    ensures Drifts(old(h.writers), h.writers)
    ensures Calm(old(h.fate), old(h.writers)) ==> r == Done && h.fate == [] && h.writers == old(h.writers)
  {
    MirrorExchange(job, h.disk);
    :- Advance(h, job, Op.Exchange(job.staging, job.mirrorSlot), Progress(true, false, false, 0), job.original,
               {job.staging, job.mirrorSlot});
    if job.mirrorSlot == job.source {
      MirrorPark(job, h.disk);
      :- Advance(h, job, Op.Move(job.staging, TierOriginal(job.source)), Progress(true, false, false, 0),
                 job.original, Extra(job, false, false));
    }
    r := Done;
  }

  method SaveMirrorRecord(h: Host, job: Job) returns (r: Outcome)
    requires job.WellFormed() && h.AllSafe(job) && MirrorPending(job, h.disk) && Retained(job, h.disk)
    modifies h`disk, h`writers, h`fate, h`trace, h`grounds
    ensures h.AllSafe(job) && MirrorPending(job, h.disk) && Retained(job, h.disk)
    ensures h.disk.ns == old(h.disk.ns)
    ensures Drifts(old(h.writers), h.writers)
    ensures Calm(old(h.fate), old(h.writers)) ==> r == Done && h.fate == [] && h.writers == old(h.writers)
  {
    r := Advance(h, job, SaveJournal(MirrorRecord(job)), Progress(false, false, false, 0), job.original,
                 {job.staging, job.mirrorSlot});
  }

  /** From the first exchange on, a failure keeps both copies and the journal. `named` tells that the
      record in memory already names the mirror slot as its destination. */
  method PublishMirror(h: Host, job: Job) returns (r: Outcome, published: bool, named: bool)
    requires job.WellFormed() && h.AllSafe(job) && Ready(job, h.disk) && job.mirrored && job.source in job.base
    requires job.hops > 0
    modifies h`disk, h`writers, h`fate, h`trace, h`grounds
    ensures h.AllSafe(job) && Retained(job, h.disk)
    ensures !published ==> NotPublished(job, h.disk)
    ensures r.Done? ==> published && Placed(job, h.disk) && SlotLeads(job)
    ensures Drifts(old(h.writers), h.writers)
    ensures Calm(old(h.fate), old(h.writers)) && SlotLeads(job) ==> r == Done && h.fate == [] && h.writers == old(h.writers)
  {
    published, named := false, false;
    r := PrepareSlot(h, job);
    PendingNotPublished(job, h.disk);
    if r.Done? {
      named := true;
      r := SaveMirrorRecord(h, job);
      PendingNotPublished(job, h.disk);
      if r.Done? {
        published := true;
        r := FillSlot(h, job);
      }
    }
  }

  // ---- The public source ----

  function OpenRecord(job: Job): Record {
    if job.mirrored then MirrorRecord(job) else job.NewRecord(Verified)
  }

  ghost function PayloadAt(job: Job): Path {
    if job.source == job.original then TierOriginal(job.source) else job.original
  }

  /** The source leads to the copy; what it was is parked at its tier name. */
  ghost predicate SourceDone(job: Job, d: Disk) {
    && Publishing(job, d, Progress(true, true, false, 0), PayloadAt(job), Extra(job, true, false))
    && Parked(job, d, true)
  }

  lemma MirrorIsSourceDone(job: Job, d: Disk)
    requires job.WellFormed() && Placed(job, d) && job.MirrorIsSource()
    ensures SourceDone(job, d)
  {
    forall q | q in job.base ensures d.ns[q] == Expected(job, Progress(true, true, false, 0), q) {
      assert d.ns[q] == Expected(job, Progress(true, false, false, 0), q);
    }
  }

  lemma LinkStep(job: Job, d: Disk, p: Path, pr: Progress, at: Path, extra: set<Path>)
    requires job.WellFormed() && Publishing(job, d, pr, at, extra) && TierLink(p) !in d.ns
    ensures Publishing(job, Apply(d, MakeLink(TierLink(p), job.Dest())), pr, at, extra + {TierLink(p)})
  {
    var after := Apply(d, MakeLink(TierLink(p), job.Dest()));
    forall q | q in job.base ensures q in after.ns && after.ns[q] == Expected(job, pr, q) {
      assert !Temporary(q);
    }
  }

  /** The link waiting beside the source. */
  ghost predicate LinkWaiting(job: Job, d: Disk) {
    && Publishing(job, d, Progress(true, false, false, 0), job.original,
                  Extra(job, false, false) + {TierLink(job.source)})
    && Parked(job, d, false)
    && TierLink(job.source) in d.ns && d.ns[TierLink(job.source)] == Link(job.Dest())
  }

  lemma WaitingNotPublished(job: Job, d: Disk)
    requires job.WellFormed() && !job.mirrored && (Placed(job, d) || LinkWaiting(job, d))
    ensures NotPublished(job, d)
  {
    forall q | q in job.base ensures d.ns[q] == job.base[q] {
      assert d.ns[q] == Expected(job, Progress(true, false, false, 0), q);
      assert q !in job.aliases[..0];
    }
  }

  lemma WaitingSwappable(job: Job, d: Disk)
    requires job.WellFormed() && LinkWaiting(job, d) && !job.MirrorIsSource() && job.source in job.base
    ensures Swappable(job, d, job.source, Progress(true, false, false, 0), Progress(true, true, false, 0), job.original,
                      Extra(job, false, false) + {TierLink(job.source)})
  {
    assert d.ns[job.source] == Expected(job, Progress(true, false, false, 0), job.source);
  }

  lemma SwappedSource(job: Job, before: Disk, d: Disk)
    requires job.WellFormed() && LinkWaiting(job, before) && !job.MirrorIsSource() && job.source in job.base
    requires job.source in before.ns && before.ns[job.source] == job.base[job.source]
    requires d == Apply(Apply(before, Op.Exchange(job.source, TierLink(job.source))),
                        Op.Move(TierLink(job.source), TierOriginal(job.source)))
    requires Publishing(job, d, Progress(true, true, false, 0),
                        if job.original == job.source then TierOriginal(job.source) else job.original,
                        Extra(job, false, false) + {TierLink(job.source)} - {TierLink(job.source)} + {TierOriginal(job.source)})
    ensures SourceDone(job, d)
  {
  }

  method PlaceLink(h: Host, job: Job) returns (r: Outcome)
    requires job.WellFormed() && h.AllSafe(job) && Placed(job, h.disk) && Retained(job, h.disk)
    requires !job.MirrorIsSource()
    modifies h`disk, h`writers, h`fate, h`trace, h`grounds
    ensures h.AllSafe(job) && Retained(job, h.disk)
    ensures if r.Done? then LinkWaiting(job, h.disk) else Placed(job, h.disk)
    ensures Drifts(old(h.writers), h.writers)
    ensures Calm(old(h.fate), old(h.writers)) ==> r == Done && h.fate == [] && h.writers == old(h.writers)
  {
    if TierLink(job.source) in h.disk.ns {
      return Raised;
    }
    LinkStep(job, h.disk, job.source, Progress(true, false, false, 0), job.original, Extra(job, false, false));
    r := Advance(h, job, MakeLink(TierLink(job.source), job.Dest()), Progress(true, false, false, 0), job.original,
                 Extra(job, false, false) + {TierLink(job.source)});
  }

  method SaveOpenRecord(h: Host, job: Job) returns (r: Outcome)
    requires job.WellFormed() && h.AllSafe(job) && LinkWaiting(job, h.disk) && Retained(job, h.disk)
    modifies h`disk, h`writers, h`fate, h`trace, h`grounds
    ensures h.AllSafe(job) && Retained(job, h.disk) && LinkWaiting(job, h.disk)
    ensures Drifts(old(h.writers), h.writers)
    ensures Calm(old(h.fate), old(h.writers)) ==> r == Done && h.fate == [] && h.writers == old(h.writers)
  {
    r := Advance(h, job, SaveJournal(OpenRecord(job)), Progress(true, false, false, 0), job.original,
                 Extra(job, false, false) + {TierLink(job.source)});
  }

  method SwapSource(h: Host, ghost job: Job, source: Path) returns (r: Outcome)
    requires job.WellFormed() && h.AllSafe(job) && LinkWaiting(job, h.disk) && Retained(job, h.disk)
    requires !job.MirrorIsSource() && job.source in job.base && source == job.source
    modifies h`disk, h`writers, h`fate, h`trace, h`grounds
    ensures h.AllSafe(job) && Retained(job, h.disk)
    ensures r.Done? ==> SourceDone(job, h.disk)
    ensures Drifts(old(h.writers), h.writers)
    ensures Calm(old(h.fate), old(h.writers)) ==> r == Done && h.fate == [] && h.writers == old(h.writers)
  {
    WaitingSwappable(job, h.disk);
    ghost var before := h.disk;
    r := Swap(h, job, source, Progress(true, false, false, 0), Progress(true, true, false, 0), job.original,
              Extra(job, false, false) + {TierLink(job.source)});
    if r.Done? {
      SwappedSource(job, before, h.disk);
    }
  }

  /** `already` tells that the mirror exchange has published something before. */
  method PublishSource(h: Host, job: Job, already: bool) returns (r: Outcome, published: bool)
    requires job.WellFormed() && h.AllSafe(job) && Placed(job, h.disk) && Retained(job, h.disk)
    requires job.source in job.base && already == job.mirrored
    modifies h`disk, h`writers, h`fate, h`trace, h`grounds
    ensures h.AllSafe(job) && Retained(job, h.disk)
    ensures !published ==> NotPublished(job, h.disk)
    ensures r.Done? ==> published && SourceDone(job, h.disk)
    ensures Drifts(old(h.writers), h.writers)
    ensures Calm(old(h.fate), old(h.writers)) ==> r == Done && h.fate == [] && h.writers == old(h.writers)
  {
    published := already;
    if job.MirrorIsSource() {
      MirrorIsSourceDone(job, h.disk);
      return Done, published;
    }
    r := PlaceLink(h, job);
    if r.Done? {
      r := SaveOpenRecord(h, job);
    }
    if !job.mirrored {
      WaitingNotPublished(job, h.disk);
    }
    if r.Done? {
      published := true;
      r := SwapSource(h, job, job.source);
    }
  }

  // ---- The physical original and the aliases ----

  ghost function Stage(job: Job, aliases: nat): Progress {
    Progress(true, true, job.OriginalAlias(), aliases)
  }

  ghost function Position(job: Job): Path {
    if job.OriginalAlias() then TierOriginal(job.original) else PayloadAt(job)
  }

  /** Everything up to `aliases` names is switched. */
  ghost predicate NamesDone(job: Job, d: Disk, aliases: nat) {
    && Publishing(job, d, Stage(job, aliases), Position(job), Extra(job, true, job.OriginalAlias()))
    && Parked(job, d, true)
  }

  ghost predicate OriginalWaiting(job: Job, d: Disk) {
    && Publishing(job, d, Progress(true, true, false, 0), job.original, Extra(job, true, false) + {TierLink(job.original)})
    && Parked(job, d, true)
    && TierLink(job.original) in d.ns && d.ns[TierLink(job.original)] == Link(job.Dest())
    && TierOriginal(job.original) !in d.ns
  }

  lemma OriginalSwappable(job: Job, d: Disk)
    requires job.WellFormed() && OriginalWaiting(job, d) && job.OriginalAlias()
    ensures Swappable(job, d, job.original, Progress(true, true, false, 0), Progress(true, true, true, 0), job.original,
                      Extra(job, true, false) + {TierLink(job.original)})
  {
    assert d.ns[job.original] == Expected(job, Progress(true, true, false, 0), job.original);
  }

  lemma SwappedOriginal(job: Job, before: Disk, d: Disk)
    requires job.WellFormed() && OriginalWaiting(job, before) && job.OriginalAlias()
    requires d == Apply(Apply(before, Op.Exchange(job.original, TierLink(job.original))),
                        Op.Move(TierLink(job.original), TierOriginal(job.original)))
    requires Publishing(job, d, Progress(true, true, true, 0), TierOriginal(job.original),
                        Extra(job, true, false) + {TierLink(job.original)} - {TierLink(job.original)}
                        + {TierOriginal(job.original)})
    ensures NamesDone(job, d, 0)
  {
  }

  method SwapOriginal(h: Host, ghost job: Job, original: Path) returns (r: Outcome)
    requires job.WellFormed() && h.AllSafe(job) && OriginalWaiting(job, h.disk) && Retained(job, h.disk)
    requires job.OriginalAlias() && original == job.original
    modifies h`disk, h`writers, h`fate, h`trace, h`grounds
    ensures h.AllSafe(job) && Retained(job, h.disk)
    ensures r.Done? ==> NamesDone(job, h.disk, 0)
    ensures Drifts(old(h.writers), h.writers)
    ensures Calm(old(h.fate), old(h.writers)) ==> r == Done && h.fate == [] && h.writers == old(h.writers)
  {
    OriginalSwappable(job, h.disk);
    ghost var before := h.disk;
    r := Swap(h, job, original, Progress(true, true, false, 0), Progress(true, true, true, 0), job.original,
              Extra(job, true, false) + {TierLink(job.original)});
    if r.Done? {
      SwappedOriginal(job, before, h.disk);
    }
  }

  method SaveOriginalRecord(h: Host, job: Job) returns (r: Outcome)
    requires job.WellFormed() && h.AllSafe(job) && SourceDone(job, h.disk) && Retained(job, h.disk)
    requires job.OriginalAlias()
    modifies h`disk, h`writers, h`fate, h`trace, h`grounds
    ensures h.AllSafe(job) && Retained(job, h.disk) && SourceDone(job, h.disk) && h.disk.ns == old(h.disk.ns)
    ensures Drifts(old(h.writers), h.writers)
    ensures Calm(old(h.fate), old(h.writers)) ==> r == Done && h.fate == [] && h.writers == old(h.writers)
  {
    var record := OpenRecord(job).(originalStaged := Some(TierOriginal(job.original)));
    r := Advance(h, job, SaveJournal(record), Progress(true, true, false, 0), job.original, Extra(job, true, false));
  }

  lemma OriginalLinked(job: Job, d: Disk)
    requires job.WellFormed() && SourceDone(job, d) && job.OriginalAlias()
    requires TierLink(job.original) !in d.ns && TierOriginal(job.original) !in d.ns
    ensures OriginalWaiting(job, Apply(d, MakeLink(TierLink(job.original), job.Dest())))
  {
    LinkStep(job, d, job.original, Progress(true, true, false, 0), job.original, Extra(job, true, false));
  }

  method PlaceOriginalLink(h: Host, job: Job) returns (r: Outcome)
    requires job.WellFormed() && h.AllSafe(job) && SourceDone(job, h.disk) && Retained(job, h.disk)
    requires job.OriginalAlias()
    modifies h`disk, h`writers, h`fate, h`trace, h`grounds
    ensures h.AllSafe(job) && Retained(job, h.disk)
    ensures r.Done? ==> OriginalWaiting(job, h.disk)
    ensures Drifts(old(h.writers), h.writers)
    ensures Calm(old(h.fate), old(h.writers)) ==> r == Done && h.fate == [] && h.writers == old(h.writers)
  {
    if TierLink(job.original) in h.disk.ns || TierOriginal(job.original) in h.disk.ns {
      return Raised;
    }
    r := SaveOriginalRecord(h, job);
    if !r.Done? {
      return;
    }
    var op := MakeLink(TierLink(job.original), job.Dest());
    ghost var before := h.disk;
    OriginalLinked(job, before);
    r := Advance(h, job, op, Progress(true, true, false, 0), job.original,
                 Extra(job, true, false) + {TierLink(job.original)});
    assert r.Done? ==> h.disk == Apply(before, op);
  }

  /** Exchanges the physical SSD name, so that absolute paths into it keep working. */
  method PublishOriginal(h: Host, job: Job) returns (r: Outcome)
    requires job.WellFormed() && h.AllSafe(job) && SourceDone(job, h.disk) && Retained(job, h.disk)
    modifies h`disk, h`writers, h`fate, h`trace, h`grounds
    ensures h.AllSafe(job) && Retained(job, h.disk)
    ensures r.Done? ==> NamesDone(job, h.disk, 0)
    ensures Drifts(old(h.writers), h.writers)
    ensures Calm(old(h.fate), old(h.writers)) ==> r == Done && h.fate == [] && h.writers == old(h.writers)
  {
    if job.OriginalAlias() {
      :- PlaceOriginalLink(h, job);
      :- SwapOriginal(h, job, job.original);
    }
    r := Done;
  }

  /** The link that is about to replace alias `i`. */
  ghost predicate AliasWaiting(job: Job, d: Disk, i: nat)
    requires i < |job.aliases|
  {
    var link := TierLink(job.aliases[i]);
    && Publishing(job, d, Stage(job, i), Position(job), Extra(job, true, job.OriginalAlias()) + {link})
    && Parked(job, d, true)
    && link in d.ns && d.ns[link] == Link(job.Dest())
    && job.aliases[i] in d.ns
  }

  lemma AliasLinked(job: Job, d: Disk, i: nat)
    requires job.WellFormed() && i < |job.aliases| && NamesDone(job, d, i)
    requires TierLink(job.aliases[i]) !in d.ns && job.aliases[i] in d.ns
    ensures AliasWaiting(job, Apply(d, MakeLink(TierLink(job.aliases[i]), job.Dest())), i)
  {
    LinkStep(job, d, job.aliases[i], Stage(job, i), Position(job), Extra(job, true, job.OriginalAlias()));
  }

  /** One more alias done changes what is expected of that alias only. */
  lemma ExpectedNext(job: Job, i: nat, q: Path)
    requires job.WellFormed() && i < |job.aliases| && q in job.base
    ensures Expected(job, Stage(job, i + 1), q)
         == if q == job.aliases[i] then Link(job.Dest()) else Expected(job, Stage(job, i), q)
  {
    assert job.aliases[..i + 1] == job.aliases[..i] + [job.aliases[i]];
    assert job.aliases[i] in job.aliases;
  }

  /** What the waiting link replaces: one alias, and no other name that matters. */
  lemma AliasApart(job: Job, d: Disk, i: nat, q: Path)
    requires job.WellFormed() && i < |job.aliases| && AliasWaiting(job, d, i)
    requires q in d.ns && q != job.aliases[i] && q != TierLink(job.aliases[i])
    ensures var after := Apply(d, Op.Move(TierLink(job.aliases[i]), job.aliases[i]));
            q in after.ns && after.ns[q] == d.ns[q]
  {
  }

  lemma AliasExpected(job: Job, d: Disk, i: nat, q: Path)
    requires job.WellFormed() && i < |job.aliases| && AliasWaiting(job, d, i) && q in job.base
    ensures var after := Apply(d, Op.Move(TierLink(job.aliases[i]), job.aliases[i]));
            q in after.ns && after.ns[q] == Expected(job, Stage(job, i + 1), q)
  {
    ExpectedNext(job, i, q);
    assert !Temporary(q) && d.ns[q] == Expected(job, Stage(job, i), q);
    if q != job.aliases[i] {
      AliasApart(job, d, i, q);
    }
  }

  lemma AliasParked(job: Job, d: Disk, i: nat)
    requires job.WellFormed() && i < |job.aliases| && AliasWaiting(job, d, i)
    ensures Parked(job, Apply(d, Op.Move(TierLink(job.aliases[i]), job.aliases[i])), true)
  {
    assert job.aliases[i] in job.aliases;
    if job.mirrored && !job.MirrorIsSource() {
      AliasApart(job, d, i, job.staging);
    }
    AliasApart(job, d, i, TierOriginal(job.source));
  }

  lemma AliasReplaced(job: Job, d: Disk, i: nat)
    requires job.WellFormed() && i < |job.aliases| && AliasWaiting(job, d, i)
    ensures NamesDone(job, Apply(d, Op.Move(TierLink(job.aliases[i]), job.aliases[i])), i + 1)
  {
    assert job.aliases[i] in job.aliases;
    AliasParked(job, d, i);
    AliasApart(job, d, i, job.Dest());
    AliasApart(job, d, i, Position(job));
    forall q | q in job.base
      ensures var after := Apply(d, Op.Move(TierLink(job.aliases[i]), job.aliases[i]));
              q in after.ns && after.ns[q] == Expected(job, Stage(job, i + 1), q)
    {
      AliasExpected(job, d, i, q);
    }
  }

  method LinkAlias(h: Host, job: Job, i: nat) returns (r: Outcome)
    requires job.WellFormed() && h.AllSafe(job) && i < |job.aliases| && NamesDone(job, h.disk, i) && Retained(job, h.disk)
    requires TierLink(job.aliases[i]) !in h.disk.ns && job.aliases[i] in h.disk.ns
    modifies h`disk, h`writers, h`fate, h`trace, h`grounds
    ensures h.AllSafe(job) && Retained(job, h.disk)
    ensures r.Done? ==> AliasWaiting(job, h.disk, i)
    ensures Drifts(old(h.writers), h.writers)
    ensures Calm(old(h.fate), old(h.writers)) ==> r == Done && h.fate == [] && h.writers == old(h.writers)
  {
    AliasLinked(job, h.disk, i);
    r := Advance(h, job, MakeLink(TierLink(job.aliases[i]), job.Dest()), Stage(job, i), Position(job),
                 Extra(job, true, job.OriginalAlias()) + {TierLink(job.aliases[i])});
  }

  method ReplaceAlias(h: Host, job: Job, i: nat) returns (r: Outcome)
    requires job.WellFormed() && h.AllSafe(job) && i < |job.aliases| && AliasWaiting(job, h.disk, i) && Retained(job, h.disk)
    modifies h`disk, h`writers, h`fate, h`trace, h`grounds
    ensures h.AllSafe(job) && Retained(job, h.disk)
    ensures r.Done? ==> NamesDone(job, h.disk, i + 1)
    ensures Drifts(old(h.writers), h.writers)
    ensures Calm(old(h.fate), old(h.writers)) ==> r == Done && h.fate == [] && h.writers == old(h.writers)
  {
    AliasReplaced(job, h.disk, i);
    r := Advance(h, job, Op.Move(TierLink(job.aliases[i]), job.aliases[i]), Stage(job, i + 1), Position(job),
                 Extra(job, true, job.OriginalAlias()));
  }

  /** Every alias is a link straight to the original, as an earlier publication made it. */
  predicate PlainAliases(job: Job) {
    job.hops > 0 && forall a :: a in job.aliases ==> a in job.base && job.base[a] == Link(job.original)
  }

  /** An alias that has not been replaced yet leads where the original leads. */
  lemma AliasLeads(job: Job, d: Disk, i: nat)
    requires job.WellFormed() && PlainAliases(job) && NamesDone(job, d, i) && i < |job.aliases|
    ensures var alias := job.aliases[i];
      && alias in d.ns && d.ns[alias] == Link(job.original) && TierLink(alias) !in d.ns
      && Resolve(d.ns, alias, job.hops + 2) == Resolve(d.ns, job.original, job.hops + 2)
  {
    var alias, pr := job.aliases[i], Stage(job, i);
    assert alias !in job.aliases[..i];
    assert d.ns[alias] == Expected(job, pr, alias) && d.ns[job.original] == Expected(job, pr, job.original);
    assert job.original !in job.aliases[..i];
    if d.ns[job.original] == Link(job.Dest()) {
      assert Resolve(d.ns, job.Dest(), job.hops) == Some(job.Dest());
      assert Resolve(d.ns, job.original, job.hops + 1) == Some(job.Dest());
    } else {
      assert Resolve(d.ns, job.original, job.hops + 1) == Some(job.original);
    }
  }

  /** Replaces one alias, after checking that it still leads where the original leads. */
  method PublishAlias(h: Host, job: Job, i: nat) returns (r: Outcome)
    requires job.WellFormed() && h.AllSafe(job) && i < |job.aliases| && NamesDone(job, h.disk, i) && Retained(job, h.disk)
    modifies h`disk, h`writers, h`fate, h`trace, h`grounds
    ensures h.AllSafe(job) && Retained(job, h.disk)
    ensures r.Done? ==> NamesDone(job, h.disk, i + 1)
    ensures Drifts(old(h.writers), h.writers)
    ensures Calm(old(h.fate), old(h.writers)) && PlainAliases(job) ==> r == Done && h.fate == [] && h.writers == old(h.writers)
  {
    var alias := job.aliases[i];
    if PlainAliases(job) {
      AliasLeads(job, h.disk, i);
    }
    if TierLink(alias) in h.disk.ns || alias !in h.disk.ns || !h.disk.ns[alias].Link?
       || Resolve(h.disk.ns, alias, job.hops + 2) != Resolve(h.disk.ns, job.original, job.hops + 2) {
      return Raised;
    }
    :- LinkAlias(h, job, i);
    r := ReplaceAlias(h, job, i);
  }

  method PublishAliases(h: Host, job: Job) returns (r: Outcome)
    requires job.WellFormed() && h.AllSafe(job) && NamesDone(job, h.disk, 0) && Retained(job, h.disk)
    modifies h`disk, h`writers, h`fate, h`trace, h`grounds
    ensures h.AllSafe(job) && Retained(job, h.disk)
    ensures r.Done? ==> NamesDone(job, h.disk, |job.aliases|)
    ensures Drifts(old(h.writers), h.writers)
    ensures Calm(old(h.fate), old(h.writers)) && PlainAliases(job) ==> r == Done && h.fate == [] && h.writers == old(h.writers)
  {
    for i := 0 to |job.aliases|
      invariant h.AllSafe(job) && NamesDone(job, h.disk, i) && Retained(job, h.disk)
      invariant Drifts(old(h.writers), h.writers)
      invariant Calm(old(h.fate), old(h.writers)) && PlainAliases(job) ==> h.fate == [] && h.writers == old(h.writers)
    {
      :- PublishAlias(h, job, i);
    }
    r := Done;
  }

  // ---- The published record ----

  /** Published and nothing retired yet. */
  ghost predicate JustPublished(job: Job, d: Disk) {
    && job.Leads() && d.journal == Some(job.PublishedRecord()) && d.row == job.row && d.gone == map[]
    && PublishedNames(job, d)
    && Position(job) in d.ns && d.ns[Position(job)] == Payload
    && Parked(job, d, true)
    && (job.mode != Restore ==> Recoverable(job, d))
    && job.cold !in d.ns
  }

  lemma NamesDoneFinal(job: Job, d: Disk)
    requires job.WellFormed() && NamesDone(job, d, |job.aliases|)
    ensures PublishedNames(job, d)
  {
    assert job.aliases[..|job.aliases|] == job.aliases;
    var final := job.FinalNamespace();
    var pr := Stage(job, |job.aliases|);
    forall p | p in final ensures p in d.ns && d.ns[p] == final[p] {
      if p in job.base {
        assert d.ns[p] == Expected(job, pr, p);
      }
    }
  }

  /** The parked names hold what recovery expects to find there. */
  lemma NamesDoneRecoverable(job: Job, d: Disk)
    requires job.WellFormed() && job.Leads() && job.mode != Restore
    requires NamesDone(job, d, |job.aliases|) && PublishedNames(job, d)
    ensures Recoverable(job, Apply(d, SaveJournal(job.PublishedRecord())))
  {
    assert Parked(job, d, true) && job.Retired() == Position(job);
  }

  lemma NamesDonePublished(job: Job, d: Disk)
    requires job.WellFormed() && job.Leads() && NamesDone(job, d, |job.aliases|)
    ensures JustPublished(job, Apply(d, SaveJournal(job.PublishedRecord())))
  {
    NamesDoneFinal(job, d);
    if job.mode != Restore {
      NamesDoneRecoverable(job, d);
    }
    ColdUnused(job, d);
  }

  lemma ColdUnused(job: Job, d: Disk)
    requires job.WellFormed() && NamesDone(job, d, |job.aliases|)
    ensures job.cold !in d.ns
  {
    assert job.cold !in Extra(job, true, job.OriginalAlias());
  }

  lemma JustPublishedSafe(job: Job, d: Disk)
    requires job.WellFormed() && JustPublished(job, d)
    ensures Safe(job, d) && PayloadKept(d)
  {
    var final := job.FinalNamespace();
    assert job.Dest() in final;
    forall q | q in job.base
      ensures q in d.ns && ((d.ns[q] == job.base[q] && (q == job.original ==> d.gone == map[])) || Direct(job, d, q))
    {
      assert q in final;
    }
  }

  method SavePublished(h: Host, job: Job) returns (r: Outcome)
    requires job.WellFormed() && job.Leads() && h.AllSafe(job) && NamesDone(job, h.disk, |job.aliases|) && Retained(job, h.disk)
    modifies h`disk, h`writers, h`fate, h`trace, h`grounds
    ensures h.AllSafe(job)
    ensures if r.Done? then JustPublished(job, h.disk) else Retained(job, h.disk)
    ensures Drifts(old(h.writers), h.writers)
    ensures Calm(old(h.fate), old(h.writers)) ==> r == Done && h.fate == [] && h.writers == old(h.writers)
  {
    NamesDonePublished(job, h.disk);
    JustPublishedSafe(job, Apply(h.disk, SaveJournal(job.PublishedRecord())));
    r := h.Do(job, SaveJournal(job.PublishedRecord()));
  }
}
