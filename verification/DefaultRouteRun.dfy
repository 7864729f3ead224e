/** Runs of a default-parent route: the machine, the forward transaction, recovery, and what any
    sequence of interrupted runs ends in. */
module DefaultRouteRun {
  import opened Basics
  import opened DefaultRoute

  /** One durable operation per call of `Do`; `fate` says how each one ends, and `trace` keeps every
      durable state, so whatever holds of each element holds after a crash anywhere. */
  class Host {
    var disk: Disk
    var fate: seq<Outcome>
    ghost var trace: seq<Disk>

    ghost predicate AllSafe(job: Job)
      requires job.index < |job.parents| && job.Source() in job.base
      reads this`disk, this`trace
    {
      && trace != [] && trace[|trace| - 1] == disk
      && forall i :: 0 <= i < |trace| ==> Safe(job, trace[i])
    }

    constructor (disk: Disk, fate: seq<Outcome>)
      ensures this.disk == disk && this.fate == fate && trace == [disk]
    {
      this.disk := disk;
      this.fate := fate;
      this.trace := [disk];
    }

    method Do(ghost job: Job, op: Op) returns (r: Outcome)
      requires job.WellFormed() && AllSafe(job)
      requires Enabled(disk, op) ==> Safe(job, Apply(disk, op))
      modifies this
      ensures AllSafe(job) && old(trace) <= trace
      ensures r.Done? ==> Enabled(old(disk), op) && disk == Apply(old(disk), op)
      ensures !r.Done? ==> disk == old(disk)
      ensures old(fate) == [] ==> fate == [] && (Enabled(old(disk), op) ==> r == Done)
    {
      r := Done;
      if fate != [] {
        r := fate[0];
        fate := fate[1..];
      }
      if r.Done? {
        if !Enabled(disk, op) {
          return Raised;
        }
        disk := Apply(disk, op);
        trace := trace + [disk];
      }
    }
  }

  // ---- The forward transaction ----

  /** The bridge is a directory in place and everything else is as at the start. A bridge that was a
      link has been replaced by a complete directory. */
  ghost predicate Working(job: Job, d: Disk, record: Option<Record>)
    requires job.index < |job.parents|
  {
    && d.journal == record && d.parents == job.parents
    && (record == None || record == Some(job.NewRecord(true)) || record == Some(job.NewRecord(false)))
    && (record == None ==> job.bridge !in job.base)
    && job.bridge in d.ns && d.ns[job.bridge].Bridge?
    && d.ns == job.base[job.bridge := d.ns[job.bridge]]
    && (job.bridge in job.base ==> !job.base[job.bridge].Former?)
    && (job.bridge in job.base && job.base[job.bridge].Link? ==> Complete(job, d.ns[job.bridge].children))
    && (!job.mirrored ==> forall c :: c in d.ns[job.bridge].children ==> d.ns[job.bridge].children[c].ToFormer?)
    && Preserved(job, Before(job), d.ns[job.bridge].children)
  }

  lemma WorkingSafe(job: Job, d: Disk, record: Option<Record>)
    requires job.WellFormed() && Working(job, d, record)
    ensures Safe(job, d)
  {
    assert Shape(job, d);
    SourceLeads(job, d);
    if !(job.bridge in job.base && job.base[job.bridge].Link?) {
      assert Unexchanged(job, d);
    }
  }

  lemma StartSafe(job: Job)
    requires job.WellFormed()
    ensures Safe(job, job.Start())
    ensures Safe(job, job.Start().(journal := Some(job.NewRecord(false))))
    ensures Safe(job, job.Start().(journal := Some(job.NewRecord(true))))
  {
    var d := job.Start();
    assert Shape(job, d) && Unexchanged(job, d);
    SourceLeads(job, d);
  }

  /** A directory of links is being filled beside the bridge. */
  ghost predicate Aside(job: Job, d: Disk)
    requires job.index < |job.parents|
  {
    var stage := MirrorStage(job.bridge);
    && d.journal == Some(job.NewRecord(true)) && d.parents == job.parents
    && stage in d.ns && d.ns[stage].Bridge?
    && (forall c :: c in d.ns[stage].children ==> c in job.children && d.ns[stage].children[c].ToFormer?)
    && d.ns == job.base[stage := d.ns[stage]]
  }

  lemma AsideSafe(job: Job, d: Disk)
    requires job.WellFormed() && Aside(job, d)
    ensures Safe(job, d)
  {
    assert Shape(job, d) && Unexchanged(job, d);
    SourceLeads(job, d);
  }

  /** The exchange has put the complete directory in the bridge's place. */
  lemma SwappedSafe(job: Job, d: Disk)
    requires job.WellFormed() && job.bridge in job.base && job.base[job.bridge].Link?
    requires d.journal == Some(job.NewRecord(true)) && d.parents == job.parents
    requires job.bridge in d.ns && d.ns[job.bridge].Bridge? && Complete(job, d.ns[job.bridge].children)
    requires d.ns == job.base[job.bridge := d.ns[job.bridge]][MirrorStage(job.bridge) := job.base[job.bridge]]
    requires Preserved(job, map[], d.ns[job.bridge].children)
    ensures Safe(job, d)
  {
    assert Shape(job, d);
    SourceLeads(job, d);
  }

  lemma LinkWorks(job: Job, d: Disk, c: Name)
    requires job.WellFormed() && Aside(job, d) && c in job.children && c !in d.ns[MirrorStage(job.bridge)].children
    ensures var e := Apply(d, AddChild(MirrorStage(job.bridge), c, ToFormer));
      && Aside(job, e) && Safe(job, e)
      && e.ns[MirrorStage(job.bridge)].children.Keys == d.ns[MirrorStage(job.bridge)].children.Keys + {c}
  {
    AsideSafe(job, Apply(d, AddChild(MirrorStage(job.bridge), c, ToFormer)));
  }

  method LinkChildren(job: Job, h: Host) returns (r: Outcome)
    requires job.WellFormed() && job.mirrored && h.AllSafe(job)
    requires Aside(job, h.disk) && h.disk.ns[MirrorStage(job.bridge)] == Bridge(map[])
    modifies h
    ensures h.AllSafe(job) && old(h.trace) <= h.trace
    ensures r.Done? ==> Aside(job, h.disk) && Complete(job, h.disk.ns[MirrorStage(job.bridge)].children)
    ensures r.Done? ==> NoStaging(h.disk.ns[MirrorStage(job.bridge)].children)
    ensures old(h.fate) == [] ==> r == Done && h.fate == []
  {
    var stage := MirrorStage(job.bridge);
    for i := 0 to |job.children|
      invariant h.AllSafe(job) && old(h.trace) <= h.trace && Aside(job, h.disk)
      invariant old(h.fate) == [] ==> h.fate == []
      invariant forall c :: c in h.disk.ns[stage].children <==> c.Visible? && c in job.children[..i]
    {
      if job.children[i].Visible? {
        var op := AddChild(stage, job.children[i], ToFormer);
        ghost var before := h.disk;
        LinkWorks(job, before, job.children[i]);
        :- h.Do(job, op);
        assert h.disk == Apply(before, op);
      }
    }
    r := Done;
  }

  /** The bridge is a link: a complete directory is built beside it and exchanged with it. */
  method BuildAside(job: Job, h: Host) returns (r: Outcome)
    requires job.WellFormed() && job.mirrored && h.AllSafe(job) && h.disk == job.Start()
    requires job.bridge in job.base && job.base[job.bridge].Link?
    modifies h
    ensures h.AllSafe(job) && old(h.trace) <= h.trace
    ensures r.Done? ==> Working(job, h.disk, Some(job.NewRecord(true))) && NoStaging(h.disk.ns[job.bridge].children)
    ensures old(h.fate) == [] ==> r == Done && h.fate == []
  {
    var stage := MirrorStage(job.bridge);
    StartSafe(job);
    :- h.Do(job, SaveJournal(job.NewRecord(true)));
    AsideSafe(job, Apply(h.disk, MakeDirectory(stage)));
    :- h.Do(job, MakeDirectory(stage));
    :- LinkChildren(job, h);
    r := SwapBridge(job, h);
  }

  method SwapBridge(job: Job, h: Host) returns (r: Outcome)
    requires job.WellFormed() && job.mirrored && h.AllSafe(job) && Aside(job, h.disk)
    requires job.bridge in job.base && job.base[job.bridge].Link?
    requires Complete(job, h.disk.ns[MirrorStage(job.bridge)].children)
    requires NoStaging(h.disk.ns[MirrorStage(job.bridge)].children)
    modifies h
    ensures h.AllSafe(job) && old(h.trace) <= h.trace
    ensures r.Done? ==> Working(job, h.disk, Some(job.NewRecord(true))) && NoStaging(h.disk.ns[job.bridge].children)
    ensures old(h.fate) == [] ==> r == Done && h.fate == []
  {
    var stage := MirrorStage(job.bridge);
    SwappedSafe(job, Apply(h.disk, Exchange(stage, job.bridge)));
    :- h.Do(job, Exchange(stage, job.bridge));
    WorkingSafe(job, Apply(h.disk, Remove(stage)), Some(job.NewRecord(true)));
    :- h.Do(job, Remove(stage));
    r := Done;
  }

  /** Creates the bridge, or takes an existing directory. Without mirror layout the journal is written
      only after the bridge is filled. */
  method PrepareBridge(job: Job, h: Host) returns (r: Outcome, record: Option<Record>)
    requires job.WellFormed() && h.AllSafe(job) && h.disk == job.Start()
    modifies h
    ensures h.AllSafe(job) && old(h.trace) <= h.trace
    ensures r.Done? ==> Working(job, h.disk, record)
    ensures r.Done? && job.Smooth() ==> NoStaging(h.disk.ns[job.bridge].children)
    ensures r.Done? ==> record == if job.mirrored then Some(job.NewRecord(job.Relinks())) else None
    ensures old(h.fate) == [] && job.Accepts() ==> r == Done
    ensures old(h.fate) == [] ==> h.fate == []
    ensures old(h.fate) == [] && !job.Accepts() ==> r == Raised
  {
    record := None;
    StartSafe(job);
    if !job.mirrored {
      if job.bridge in h.disk.ns {
        return Raised, None;
      }
    } else if job.Relinks() {
      record := Some(job.NewRecord(true));
      r := BuildAside(job, h);
      return;
    } else {
      if job.bridge in h.disk.ns && h.disk.ns[job.bridge].Former? {
        return Raised, None;
      }
      record := Some(job.NewRecord(false));
      :- h.Do(job, SaveJournal(job.NewRecord(false)));
      if job.bridge in h.disk.ns {
        WorkingSafe(job, h.disk, record);
        return Done, record;
      }
    }
    r := CreateBridge(job, h, record);
  }

  method CreateBridge(job: Job, h: Host, ghost record: Option<Record>) returns (r: Outcome)
    requires job.WellFormed() && h.AllSafe(job) && job.bridge !in job.base
    requires h.disk == job.Start().(journal := record)
    requires record == None || record == Some(job.NewRecord(false))
    modifies h
    ensures h.AllSafe(job) && old(h.trace) <= h.trace
    ensures r.Done? ==> Working(job, h.disk, record) && NoStaging(h.disk.ns[job.bridge].children)
    ensures old(h.fate) == [] ==> r == Done && h.fate == []
  {
    WorkingSafe(job, Apply(h.disk, MakeDirectory(job.bridge)), record);
    :- h.Do(job, MakeDirectory(job.bridge));
    r := Done;
  }

  // ---- Filling the bridge ----

  /** The tier's staging name of a child. */
  function TempOf(c: Name): Name {
    TierTemporary(c.text)
  }

  /** An edit of one entry that covers whatever was covered before. */
  ghost predicate Edits(job: Job, d: Disk, e: Disk)
    requires job.bridge in d.ns && d.ns[job.bridge].Bridge?
  {
    && job.bridge in e.ns && e.ns[job.bridge].Bridge?
    && e == d.(ns := d.ns[job.bridge := e.ns[job.bridge]])
    && (forall c: Name :: c.Visible? && Covered(d.ns[job.bridge].children, c) ==> Covered(e.ns[job.bridge].children, c))
    && Preserved(job, d.ns[job.bridge].children, e.ns[job.bridge].children)
    && (!job.mirrored ==> forall c :: c in e.ns[job.bridge].children ==> e.ns[job.bridge].children[c].ToFormer?)
  }

  lemma EditsWork(job: Job, d: Disk, e: Disk, record: Option<Record>)
    requires job.WellFormed() && Working(job, d, record) && Edits(job, d, e)
    ensures Working(job, e, record) && Safe(job, e)
  {
    WorkingSafe(job, e, record);
  }

  /** Linking an entry to the former directory aside, and moving that into place. */
  lemma RespellWorks(job: Job, d: Disk, c: Name, record: Option<Record>)
    requires job.WellFormed() && Working(job, d, record) && job.mirrored && c.Visible? && c in job.children
    requires c in d.ns[job.bridge].children && d.ns[job.bridge].children[c].ToLogical?
    requires TempOf(c) !in d.ns[job.bridge].children
    ensures var added := Apply(d, AddChild(job.bridge, TempOf(c), ToFormer));
      var moved := Apply(added, MoveChild(job.bridge, TempOf(c), c));
      && Working(job, added, record) && Edits(job, d, added) && Safe(job, added)
      && Working(job, moved, record) && Edits(job, d, moved) && Safe(job, moved)
      && moved.ns[job.bridge].children == d.ns[job.bridge].children[c := ToFormer]
  {
    var added := Apply(d, AddChild(job.bridge, TempOf(c), ToFormer));
    EditsWork(job, d, added, record);
    var moved := Apply(added, MoveChild(job.bridge, TempOf(c), c));
    assert moved.ns[job.bridge].children == d.ns[job.bridge].children[c := ToFormer];
    EditsWork(job, added, moved, record);
  }

  /** Replaces an entry that spells the child through the public path: a fresh link is made under the
      staging name and moved over it. */
  method Respell(job: Job, h: Host, c: Name, ghost record: Option<Record>) returns (r: Outcome)
    requires job.WellFormed() && h.AllSafe(job) && Working(job, h.disk, record)
    requires job.mirrored && c.Visible? && c in job.children
    requires c in h.disk.ns[job.bridge].children && h.disk.ns[job.bridge].children[c].ToLogical?
    modifies h
    ensures h.AllSafe(job) && old(h.trace) <= h.trace && Working(job, h.disk, record)
    ensures Edits(job, old(h.disk), h.disk)
    ensures r.Done? ==> Covered(h.disk.ns[job.bridge].children, c)
    ensures old(h.fate) == [] && TempOf(c) !in old(h.disk).ns[job.bridge].children ==> r == Done
    ensures r.Done? ==> TempOf(c) !in old(h.disk).ns[job.bridge].children
    ensures old(h.fate) == [] ==> h.fate == []
    ensures r.Done? ==> h.disk.ns[job.bridge].children == old(h.disk).ns[job.bridge].children[c := ToFormer]
  {
    if TempOf(c) in h.disk.ns[job.bridge].children {
      return Raised;
    }
    var add, move := AddChild(job.bridge, TempOf(c), ToFormer), MoveChild(job.bridge, TempOf(c), c);
    ghost var before := h.disk;
    RespellWorks(job, before, c, record);
    :- h.Do(job, add);
    assert h.disk == Apply(before, add);
    :- h.Do(job, move);
    r := Done;
  }

  method CoverChild(job: Job, h: Host, c: Name, ghost record: Option<Record>) returns (r: Outcome)
    requires job.WellFormed() && h.AllSafe(job) && Working(job, h.disk, record) && c.Visible? && c in job.children
    modifies h
    ensures h.AllSafe(job) && old(h.trace) <= h.trace && Working(job, h.disk, record)
    ensures Edits(job, old(h.disk), h.disk)
    ensures r.Done? ==> Covered(h.disk.ns[job.bridge].children, c)
    ensures old(h.fate) == [] ==> h.fate == []
    ensures old(h.fate) == [] && TempOf(c) !in old(h.disk).ns[job.bridge].children ==> r == Done
    ensures forall t: Name :: t.TierTemporary? && t in h.disk.ns[job.bridge].children && r.Done? ==>
              t in old(h.disk).ns[job.bridge].children
  {
    if c !in h.disk.ns[job.bridge].children {
      var add := AddChild(job.bridge, c, ToFormer);
      EditsWork(job, h.disk, Apply(h.disk, add), record);
      r := h.Do(job, add);
    } else if job.mirrored && h.disk.ns[job.bridge].children[c].ToLogical? {
      r := Respell(job, h, c, record);
    } else {
      r := Done;
    }
  }

  method FillBridge(job: Job, h: Host, ghost record: Option<Record>) returns (r: Outcome)
    requires job.WellFormed() && h.AllSafe(job) && Working(job, h.disk, record)
    modifies h
    ensures h.AllSafe(job) && old(h.trace) <= h.trace && Working(job, h.disk, record)
    ensures r.Done? ==> Complete(job, h.disk.ns[job.bridge].children)
    ensures old(h.fate) == [] ==> h.fate == []
    ensures old(h.fate) == [] && NoStaging(old(h.disk).ns[job.bridge].children) ==> r == Done
  {
    for i := 0 to |job.children|
      invariant h.AllSafe(job) && old(h.trace) <= h.trace && Working(job, h.disk, record)
      invariant forall j :: 0 <= j < i && job.children[j].Visible? ==>
                  Covered(h.disk.ns[job.bridge].children, job.children[j])
      invariant old(h.fate) == [] ==> h.fate == []
      invariant NoStaging(old(h.disk).ns[job.bridge].children) ==> NoStaging(h.disk.ns[job.bridge].children)
    {
      if job.children[i].Visible? {
        :- CoverChild(job, h, job.children[i], record);
      }
    }
    r := Done;
  }

  // ---- Exposing the bridge ----

  /** The filled bridge, with the link to it staged beside the public name or already exchanged with it. */
  ghost predicate Staging(job: Job, d: Disk)
    requires job.index < |job.parents| && job.Source() in job.base
  {
    var source, staged := job.Source(), job.Staged();
    && (d.journal == Some(job.NewRecord(true)) || d.journal == Some(job.NewRecord(false)))
    && d.parents == job.parents && source != job.bridge
    && job.bridge in d.ns && d.ns[job.bridge].Bridge? && Complete(job, d.ns[job.bridge].children)
    && Preserved(job, Before(job), d.ns[job.bridge].children)
    && (d.ns == job.base[job.bridge := d.ns[job.bridge]][staged := Link(job.bridge)]
        || d.ns == job.base[job.bridge := d.ns[job.bridge]][source := Link(job.bridge)][staged := job.base[source]])
  }

  lemma StagingSafe(job: Job, d: Disk)
    requires job.WellFormed() && Staging(job, d)
    ensures Safe(job, d)
  {
    assert Shape(job, d);
  }

  method Expose(job: Job, h: Host, record: Record) returns (r: Outcome)
    requires job.WellFormed() && h.AllSafe(job) && Working(job, h.disk, Some(record))
    requires Complete(job, h.disk.ns[job.bridge].children)
    modifies h
    ensures h.AllSafe(job) && old(h.trace) <= h.trace
    ensures r.Done? ==> Exposed(job, h.disk) && h.disk.journal == Some(record)
    ensures old(h.fate) == [] ==> r == Done && h.fate == []
  {
    var source, staged := job.Source(), job.Staged();
    if Resolve(h.disk.ns, source, job.Reach()) != Some(job.bridge) {
      StagingSafe(job, Apply(h.disk, MakeLink(staged, job.bridge)));
      :- h.Do(job, MakeLink(staged, job.bridge));
      StagingSafe(job, Apply(h.disk, Exchange(source, staged)));
      :- h.Do(job, Exchange(source, staged));
      assert Resolve(h.disk.ns, job.bridge, 1) == Some(job.bridge);
      ResolveMonotone(h.disk.ns, source, 2, job.Reach());
    }
    r := Done;
  }

  // ---- Recovery ----

  /** What recovery works from: a journaled safe state, the ledger already agreeing with the public path
      or not. */
  ghost predicate Recovering(job: Job, d: Disk)
    requires job.index < |job.parents| && job.Source() in job.base
  {
    Safe(job, d) && d.journal.Some?
  }

  ghost predicate Agrees(job: Job, d: Disk)
    requires job.index < |job.parents|
  {
    |d.parents| > job.index && Resolve(d.ns, job.Source(), job.Reach()) == Some(d.parents[job.index].hdd)
  }

  /** The ledger entry the public path decides: nothing else is ever written. */
  function Decided(job: Job, d: Disk): seq<Parent>
    requires job.index < |job.parents|
  {
    if Resolve(d.ns, job.Source(), job.Reach()) == Some(job.bridge) then job.parents[job.index := job.New()]
    else job.parents
  }

  method SaveLedger(job: Job, h: Host, record: Record) returns (r: Outcome)
    requires job.WellFormed() && h.AllSafe(job) && h.disk.journal == Some(record)
    modifies h
    ensures h.AllSafe(job) && old(h.trace) <= h.trace
    ensures h.disk.ns == old(h.disk).ns && h.disk.journal == old(h.disk).journal
    ensures r.Done? ==> h.disk.parents == Decided(job, h.disk) && Agrees(job, h.disk)
    ensures old(h.fate) == [] ==> r == Done && h.fate == []
  {
    SourceLeads(job, h.disk);
    var actual := Resolve(h.disk.ns, record.former.source, job.Reach());
    if actual != Some(record.former.hdd) && actual != Some(record.next.hdd) {
      return Raised;
    }
    var selected := if actual == Some(record.next.hdd) then record.next else record.former;
    var parents := h.disk.parents;
    var matches := set i | 0 <= i < |parents| && parents[i].source == record.former.source;
    assert job.index in matches;
    SoleMatch(matches, job.index);
    if |matches| != 1 {
      return Raised;
    }
    var i :| i in matches;
    assert i == job.index;
    var op := SaveParents(parents[i := selected]);
    assert op.parents == Decided(job, h.disk);
    assert Safe(job, Apply(h.disk, op));
    r := h.Do(job, op);
  }

  lemma SoleMatch(matches: set<int>, index: int)
    requires index in matches && matches <= {index}
    ensures |matches| == 1
  {
    assert matches == {index};
  }

  /** The ledger is settled: from here recovery only removes staging names. */
  ghost predicate Settled(job: Job, d: Disk)
    requires job.index < |job.parents| && job.Source() in job.base
  {
    Recovering(job, d) && d.parents == Decided(job, d) && Agrees(job, d)
  }

  /** Taking a staging name away, or an entry of the staged directory, leaves the public path where it leads. */
  lemma UnstageSettled(job: Job, d: Disk, e: Disk, name: Path)
    requires job.WellFormed() && Settled(job, d)
    requires name == job.Staged() || name == MirrorStage(job.bridge)
    requires e.journal == d.journal && e.parents == d.parents
    requires e.ns == d.ns - {name}
          || (name in d.ns && name != job.Staged() && e.ns == d.ns[name := Bridge(map[])])
          || (name in d.ns && name in e.ns && name != job.Staged() && e.ns == d.ns[name := e.ns[name]]
                && d.ns[name].Bridge? && e.ns[name].Bridge? && OnlyLinks(e.ns[name].children))
    ensures Settled(job, e)
    ensures Resolve(e.ns, job.Source(), job.Reach()) == Resolve(d.ns, job.Source(), job.Reach())
  {
    SameLinks(d.ns, e.ns, job.Source(), job.Reach(), {name});
    assert Shape(job, e);
  }

  /** The staging link leads to the former directory or to the bridge. */
  lemma StagedLeads(job: Job, d: Disk)
    requires job.WellFormed() && Safe(job, d) && job.Staged() in d.ns
    ensures d.ns[job.Staged()].Link?
    ensures Resolve(d.ns, job.Staged(), job.Reach()) == Some(job.Old().hdd)
         || Resolve(d.ns, job.Staged(), job.Reach()) == Some(job.bridge)
  {
    if d.ns[job.Staged()] == job.base[job.Source()] {
      var to := job.base[job.Source()].to;
      ChainLeads(job, d, to, job.hops - 1);
      ResolveMonotone(d.ns, to, job.hops, job.hops + 1);
    } else {
      assert Resolve(d.ns, job.bridge, job.hops + 1) == Some(job.bridge);
    }
  }

  method RemoveStaged(job: Job, h: Host, record: Record) returns (r: Outcome)
    requires job.WellFormed() && h.AllSafe(job) && Settled(job, h.disk) && h.disk.journal == Some(record)
    modifies h
    ensures h.AllSafe(job) && old(h.trace) <= h.trace && Settled(job, h.disk) && h.disk.journal == Some(record)
    ensures Resolve(h.disk.ns, job.Source(), job.Reach()) == Resolve(old(h.disk).ns, job.Source(), job.Reach())
    ensures r.Done? ==> job.Staged() !in h.disk.ns
    ensures old(h.fate) == [] ==> r == Done && h.fate == []
  {
    if record.staged in h.disk.ns {
      StagedLeads(job, h.disk);
      var end := Resolve(h.disk.ns, record.staged, job.Reach());
      if !h.disk.ns[record.staged].Link? || (end != Some(record.former.hdd) && end != Some(record.next.hdd)) {
        return Raised;
      }
      UnstageSettled(job, h.disk, Apply(h.disk, Remove(record.staged)), record.staged);
      r := h.Do(job, Remove(record.staged));
    } else {
      r := Done;
    }
  }

  method EmptyStage(job: Job, h: Host, stage: Path) returns (r: Outcome)
    requires job.WellFormed() && h.AllSafe(job) && Settled(job, h.disk)
    requires stage == MirrorStage(job.bridge) && stage in h.disk.ns && h.disk.ns[stage].Bridge?
    modifies h
    ensures h.AllSafe(job) && old(h.trace) <= h.trace && Settled(job, h.disk)
    ensures h.disk.journal == old(h.disk).journal && stage in h.disk.ns
    ensures forall q :: q != stage ==> (q in h.disk.ns <==> q in old(h.disk).ns)
    ensures r.Done? ==> h.disk.ns[stage] == Bridge(map[])
    ensures Resolve(h.disk.ns, job.Source(), job.Reach()) == Resolve(old(h.disk).ns, job.Source(), job.Reach())
    ensures old(h.fate) == [] ==> r == Done && h.fate == []
  {
    while h.disk.ns[stage].children != map[]
      invariant h.AllSafe(job) && old(h.trace) <= h.trace && Settled(job, h.disk)
      invariant h.disk.journal == old(h.disk).journal && stage in h.disk.ns && h.disk.ns[stage].Bridge?
      invariant forall q :: q != stage ==> (q in h.disk.ns <==> q in old(h.disk).ns)
      invariant Resolve(h.disk.ns, job.Source(), job.Reach()) == Resolve(old(h.disk).ns, job.Source(), job.Reach())
      invariant old(h.fate) == [] ==> h.fate == []
      decreases |h.disk.ns[stage].children|
    {
      var c :| c in h.disk.ns[stage].children;
      UnstageSettled(job, h.disk, Apply(h.disk, RemoveChild(stage, c)), stage);
      :- h.Do(job, RemoveChild(stage, c));
    }
    r := Done;
  }

  method RemoveMirrorStage(job: Job, h: Host, record: Record) returns (r: Outcome)
    requires job.WellFormed() && h.AllSafe(job) && Settled(job, h.disk) && h.disk.journal == Some(record)
    requires job.Staged() !in h.disk.ns
    modifies h
    ensures h.AllSafe(job) && old(h.trace) <= h.trace && Settled(job, h.disk) && h.disk.journal == Some(record)
    ensures Resolve(h.disk.ns, job.Source(), job.Reach()) == Resolve(old(h.disk).ns, job.Source(), job.Reach())
    ensures r.Done? ==> job.Staged() !in h.disk.ns && MirrorStage(job.bridge) !in h.disk.ns
    ensures old(h.fate) == [] ==> r == Done && h.fate == []
  {
    r := Done;
    if record.mirrorStage.Some? && record.mirrorStage.value in h.disk.ns {
      var stage := record.mirrorStage.value;
      if h.disk.ns[stage].Bridge? {
        if !OnlyLinks(h.disk.ns[stage].children) {
          return Raised;
        }
        :- EmptyStage(job, h, stage);
      } else if h.disk.ns[stage].Former? {
        return Raised;
      }
      UnstageSettled(job, h.disk, Apply(h.disk, Remove(stage)), stage);
      r := h.Do(job, Remove(stage));
    }
  }

  /** Where a settled transaction leaves the machine: the ledger names what the public path leads to,
      no staging name is left, and a new route keeps the former directory on record. */
  ghost predicate Resolved(job: Job, d: Disk)
    requires job.index < |job.parents| && job.Source() in job.base
  {
    && Safe(job, d) && d.journal == None
    && job.Staged() !in d.ns && MirrorStage(job.bridge) !in d.ns
    && d.parents == Decided(job, d) && Agrees(job, d)
  }

  /** Without a journal a safe state is settled already. */
  lemma Quiescent(job: Job, d: Disk)
    requires job.WellFormed() && Safe(job, d) && d.journal == None
    ensures Resolved(job, d)
  {
    SourceLeads(job, d);
  }

  /** The transaction is over: the parent is routed to the bridge exactly when that is where the public path leads,
      and otherwise it is as it was. */
  lemma ResolvedEnds(job: Job, d: Disk)
    requires job.WellFormed() && Resolved(job, d)
    ensures Tidy(job, d)
    ensures if Leads(d.ns, job.parents[job.index].source, job.bridge, job.hops + 2) then Rerouted(job, d) else Unrouted(job, d)
  {
    SourceLeads(job, d);
    LeadsExactly(d.ns, job.Source(), job.bridge, job.hops + 2);
    LeadsExactly(d.ns, job.Source(), job.Old().hdd, job.hops + 2);
  }

  lemma ExposedEnds(job: Job, d: Disk)
    requires job.WellFormed() && Resolved(job, d) && Exposed(job, d)
    ensures Rerouted(job, d)
  {
    LeadsExactly(d.ns, job.Source(), job.bridge, job.hops + 2);
    ResolvedEnds(job, d);
  }

  /** The public path of the parent leads there. */
  ghost predicate SourceAt(job: Job, d: Disk, q: Path)
    requires job.index < |job.parents|
  {
    Leads(d.ns, job.parents[job.index].source, q, job.hops + 2)
  }

  ghost predicate LedAlike(job: Job, d: Disk, e: Disk)
    requires job.index < |job.parents|
  {
    forall q :: SourceAt(job, d, q) <==> SourceAt(job, e, q)
  }

  lemma LedAlikeIf(job: Job, d: Disk, e: Disk)
    requires job.index < |job.parents|
    requires Resolve(d.ns, job.Source(), job.Reach()) == Resolve(e.ns, job.Source(), job.Reach())
    ensures LedAlike(job, d, e)
  {
    forall q ensures SourceAt(job, d, q) <==> SourceAt(job, e, q) {
      LeadsExactly(d.ns, job.Source(), q, job.hops + 2);
      LeadsExactly(e.ns, job.Source(), q, job.hops + 2);
    }
  }

  /** Reads the journal and finishes or withdraws the interrupted transaction. */
  method Recover(job: Job, h: Host) returns (r: Outcome)
    requires job.WellFormed() && h.AllSafe(job)
    modifies h
    ensures h.AllSafe(job) && old(h.trace) <= h.trace
    ensures r.Done? ==> Resolved(job, h.disk) && Tidy(job, h.disk) && (Rerouted(job, h.disk) || Unrouted(job, h.disk))
    ensures old(h.disk).journal == None ==> r == Done && h.disk == old(h.disk)
    ensures Resolve(h.disk.ns, job.Source(), job.Reach()) == Resolve(old(h.disk).ns, job.Source(), job.Reach())
    ensures LedAlike(job, old(h.disk), h.disk)
    ensures old(h.fate) == [] ==> r == Done && h.fate == []
  {
    ghost var before := h.disk;
    if h.disk.journal == None {
      Quiescent(job, h.disk);
      r := Done;
    } else {
      r := Replay(job, h, h.disk.journal.value);
    }
    LedAlikeIf(job, before, h.disk);
    if r.Done? {
      ResolvedEnds(job, h.disk);
    }
  }

  method Replay(job: Job, h: Host, record: Record) returns (r: Outcome)
    requires job.WellFormed() && h.AllSafe(job) && h.disk.journal == Some(record)
    modifies h
    ensures h.AllSafe(job) && old(h.trace) <= h.trace
    ensures r.Done? ==> Resolved(job, h.disk)
    ensures Resolve(h.disk.ns, job.Source(), job.Reach()) == Resolve(old(h.disk).ns, job.Source(), job.Reach())
    ensures old(h.fate) == [] ==> r == Done && h.fate == []
  {
    r := SaveLedger(job, h, record);
    if r.Done? {
      r := RemoveStaged(job, h, record);
    }
    if r.Done? {
      r := FinishRecovery(job, h, record);
    }
  }

  method FinishRecovery(job: Job, h: Host, record: Record) returns (r: Outcome)
    requires job.WellFormed() && h.AllSafe(job) && Settled(job, h.disk) && h.disk.journal == Some(record)
    requires job.Staged() !in h.disk.ns
    modifies h
    ensures h.AllSafe(job) && old(h.trace) <= h.trace
    ensures r.Done? ==> Resolved(job, h.disk)
    ensures Resolve(h.disk.ns, job.Source(), job.Reach()) == Resolve(old(h.disk).ns, job.Source(), job.Reach())
    ensures old(h.fate) == [] ==> r == Done && h.fate == []
  {
    r := RemoveMirrorStage(job, h, record);
    if !r.Done? {
      return;
    }
    assert Safe(job, Apply(h.disk, DropJournal));
    r := h.Do(job, DropJournal);
  }

  // ---- Whole runs ----

  /** Fills the prepared bridge and journals that the exchange comes next. */
  method FillAndSave(job: Job, h: Host, ghost record: Option<Record>, saved: Record) returns (r: Outcome)
    requires job.WellFormed() && h.AllSafe(job) && Working(job, h.disk, record) && saved == job.NewRecord(job.Relinks())
    modifies h
    ensures h.AllSafe(job) && old(h.trace) <= h.trace
    ensures r.Done? ==> Working(job, h.disk, Some(saved)) && Complete(job, h.disk.ns[job.bridge].children)
    ensures old(h.fate) == [] ==> h.fate == []
    ensures old(h.fate) == [] && NoStaging(old(h.disk).ns[job.bridge].children) ==> r == Done
  {
    r := FillBridge(job, h, record);
    if !r.Done? {
      return;
    }
    WorkingSafe(job, Apply(h.disk, SaveJournal(saved)), Some(saved));
    r := h.Do(job, SaveJournal(saved));
  }

  /** One parent's route, from a settled ledger. */
  method Route(job: Job, h: Host) returns (r: Outcome)
    requires job.WellFormed() && h.AllSafe(job) && h.disk == job.Start()
    modifies h
    ensures h.AllSafe(job) && old(h.trace) <= h.trace
    ensures r.Done? ==> Tidy(job, h.disk) && Rerouted(job, h.disk) && Exposed(job, h.disk)
    ensures old(h.fate) == [] ==> h.fate == [] && (job.Smooth() ==> r == Done)
  {
    var record;
    r, record := PrepareBridge(job, h);
    :- r;
    var saved := job.NewRecord(job.Relinks());
    :- FillAndSave(job, h, record, saved);
    :- Expose(job, h, saved);
    r := Recover(job, h);
    if r.Done? {
      ExposedEnds(job, h.disk);
    }
  }

  /** A new process recovers; `fate` says how its steps end. */
  method RecoverAfterCrash(job: Job, h: Host, fate: seq<Outcome>) returns (r: Outcome)
    requires job.WellFormed() && h.AllSafe(job)
    modifies h
    ensures h.AllSafe(job) && old(h.trace) <= h.trace
    ensures Resolve(h.disk.ns, job.Source(), job.Reach()) == Resolve(old(h.disk).ns, job.Source(), job.Reach())
    ensures r.Done? ==> Resolved(job, h.disk)
    ensures fate == [] ==> r == Done
  {
    h.fate := fate;
    r := Recover(job, h);
  }

  /** A route that may be cut short at any durable operation, then any number of recoveries cut short
      likewise, then one that is not: the ledger names what the public path leads to and no staging
      name is left. The recoveries never change where the public path leads. */
  method Survive(job: Job, h: Host, recoveries: seq<seq<Outcome>>) returns (r: Outcome)
    requires job.WellFormed() && h.AllSafe(job) && h.disk == job.Start()
    modifies h
    ensures h.AllSafe(job) && old(h.trace) <= h.trace
    ensures Resolved(job, h.disk) && Tidy(job, h.disk) && (Rerouted(job, h.disk) || Unrouted(job, h.disk))
    ensures r.Done? ==> Exposed(job, h.disk) && Rerouted(job, h.disk)
  {
    r := Route(job, h);
    ghost var led := Resolve(h.disk.ns, job.Source(), job.Reach());
    for i := 0 to |recoveries|
      invariant h.AllSafe(job) && old(h.trace) <= h.trace
      invariant Resolve(h.disk.ns, job.Source(), job.Reach()) == led
    {
      var again := RecoverAfterCrash(job, h, recoveries[i]);
    }
    var last := RecoverAfterCrash(job, h, []);
    ResolvedEnds(job, h.disk);
    if r.Done? {
      ExposedEnds(job, h.disk);
    }
  }
}
