/** One default parent's route transaction: a bridge directory of proxies is filled, exposed by one
    exchange, and committed to the ledger, under a journal that recovery replays after a crash. */
module DefaultRoute {
  import opened Basics

  /** A child name; the tier's own staging names are recognisable. */
  datatype Name = Visible(text: string) | TierTemporary(text: string)

  /** What a directory entry of the bridge is: a link to the same child of the former directory, a link
      that spells the child through the public path, or anything else. */
  datatype Proxy = ToFormer | ToLogical | Other(id: nat)

  /** `DefaultLink` is the staging link beside a public parent, `MirrorStage` a directory being built
      beside the bridge. */
  datatype Path = Place(id: nat) | DefaultLink(of: Path) | MirrorStage(of: Path)

  datatype Node = Former | Bridge(children: map<Name, Proxy>) | Link(to: Path)

  type Namespace = map<Path, Node>

  datatype Parent = Parent(source: Path, backing: Path, hdd: Path, previous: seq<Path>)

  datatype Record = Record(former: Parent, next: Parent, staged: Path, mirrorStage: Option<Path>)

  datatype Disk = Disk(ns: Namespace, journal: Option<Record>, parents: seq<Parent>)

  /** One parent's transaction: the ledger it starts from, the bridge it goes to and the children of the
      former directory. */
  datatype Job = Job(
    parents: seq<Parent>, index: nat, bridge: Path, mirrored: bool, children: seq<Name>, base: Namespace, hops: nat)
  {
    function Old(): Parent
      requires index < |parents|
    {
      parents[index]
    }

    function New(): Parent
      requires index < |parents|
    {
      Old().(hdd := bridge, previous := Old().previous + [Old().hdd])
    }

    function Source(): Path
      requires index < |parents|
    {
      Old().source
    }

    function Staged(): Path
      requires index < |parents|
    {
      DefaultLink(Source())
    }

    function NewRecord(aside: bool): Record
      requires index < |parents|
    {
      Record(Old(), New(), Staged(), if aside then Some(MirrorStage(bridge)) else None)
    }

    /** The mirror slot is a link today. */
    predicate Relinks() {
      mirrored && bridge in base && base[bridge].Link?
    }

    /** The bridge can be made: free, or in mirror layout a link or a directory. */
    predicate Accepts() {
      bridge in base ==> mirrored && !base[bridge].Former?
    }

    /** Nor is there an entry of an interrupted run in the way. */
    predicate Smooth() {
      Accepts() && (bridge in base && base[bridge].Bridge? ==> NoStaging(base[bridge].children))
    }

    function Reach(): nat {
      hops + 2
    }

    /** The ledger names each parent once, the public name is a link, and nothing is left of an earlier
        transaction. */
    ghost predicate WellFormed() {
      && index < |parents|
      && (forall i :: 0 <= i < |parents| && i != index ==> parents[i].source != Source())
      && Source().Place? && bridge.Place? && Old().hdd.Place? && bridge != Old().hdd
      && Source() in base && base[Source()].Link?
      && Old().hdd in base && base[Old().hdd] == Former
      && Resolve(base, Source(), hops) == Some(Old().hdd)
      && (forall p :: p in base ==> p.Place? && (base[p].Link? ==> base[p].to.Place?))
      && (forall i, j :: 0 <= i < j < |children| ==> children[i] != children[j])
    }

    function Start(): Disk {
      Disk(base, None, parents)
    }
  }

  predicate NoStaging(children: map<Name, Proxy>) {
    forall t :: t in children ==> t.Visible?
  }

  function Resolve(ns: Namespace, p: Path, hops: nat): Option<Path>
    decreases hops
  {
    if hops == 0 || p !in ns then None
    else match ns[p]
      case Link(to) => Resolve(ns, to, hops - 1)
      case _ => Some(p)
  }

  datatype Op =
    | SaveJournal(record: Record)
    | DropJournal
    | SaveParents(parents: seq<Parent>)
    | MakeDirectory(at: Path)
    | MakeLink(at: Path, to: Path)
    | Exchange(a: Path, b: Path)
    | Remove(at: Path)
    | AddChild(at: Path, name: Name, proxy: Proxy)
    | MoveChild(at: Path, from: Name, name: Name)
    | RemoveChild(at: Path, name: Name)

  predicate Enabled(d: Disk, op: Op) {
    match op
    case MakeDirectory(at) => at !in d.ns
    case MakeLink(at, _) => at !in d.ns
    case Exchange(a, b) => a in d.ns && b in d.ns
    case Remove(at) => at in d.ns && (d.ns[at].Bridge? ==> d.ns[at].children == map[])
    case AddChild(at, name, _) => at in d.ns && d.ns[at].Bridge? && name !in d.ns[at].children
    case MoveChild(at, from, _) => at in d.ns && d.ns[at].Bridge? && from in d.ns[at].children
    case RemoveChild(at, name) => at in d.ns && d.ns[at].Bridge? && name in d.ns[at].children
    case _ => true
  }

  function Apply(d: Disk, op: Op): Disk
    requires Enabled(d, op)
  {
    match op
    case SaveJournal(record) => d.(journal := Some(record))
    case DropJournal => d.(journal := None)
    case SaveParents(parents) => d.(parents := parents)
    case MakeDirectory(at) => d.(ns := d.ns[at := Bridge(map[])])
    case MakeLink(at, to) => d.(ns := d.ns[at := Link(to)])
    case Exchange(a, b) => d.(ns := d.ns[a := d.ns[b]][b := d.ns[a]])
    case Remove(at) => d.(ns := d.ns - {at})
    case AddChild(at, name, proxy) => d.(ns := d.ns[at := Bridge(d.ns[at].children[name := proxy])])
    case MoveChild(at, from, name) =>
      d.(ns := d.ns[at := Bridge((d.ns[at].children - {from})[name := d.ns[at].children[from]])])
    case RemoveChild(at, name) => d.(ns := d.ns[at := Bridge(d.ns[at].children - {name})])
  }

  // ---- What every durable state satisfies ----

  /** The child has an entry, and not one that leads back through the public path: once the bridge is
      exposed such a link would lead to itself. */
  predicate Covered(children: map<Name, Proxy>, c: Name) {
    c in children && !children[c].ToLogical?
  }

  /** Every child of the former directory that is not the tier's own is covered. */
  predicate Complete(job: Job, children: map<Name, Proxy>) {
    forall c :: c in job.children && c.Visible? ==> Covered(children, c)
  }

  /** An entry of the bridge stays as it was, unless it is a child's that leads back through the public path;
      and a new one is a child's link to the former directory. */
  predicate EntryKept(job: Job, before: map<Name, Proxy>, after: map<Name, Proxy>, c: Name) {
    if c in before && !(c in job.children && before[c] == ToLogical) then c in after && after[c] == before[c]
    else if c in after then c in job.children && (after[c] == ToFormer || (c in before && after[c] == before[c]))
    else c !in before
  }

  ghost predicate Preserved(job: Job, before: map<Name, Proxy>, after: map<Name, Proxy>) {
    forall c: Name :: c.Visible? ==> EntryKept(job, before, after, c)
  }

  /** The entries a bridge that was a directory had at the start. */
  function Before(job: Job): map<Name, Proxy> {
    if job.bridge in job.base && job.base[job.bridge].Bridge? then job.base[job.bridge].children else map[]
  }

  ghost predicate BridgeKept(job: Job, d: Disk) {
    job.bridge in d.ns && d.ns[job.bridge].Bridge? ==> Preserved(job, Before(job), d.ns[job.bridge].children)
  }

  /** Only the public name, the bridge and the two staging names ever differ from the start. */
  ghost predicate Shape(job: Job, d: Disk)
    requires job.index < |job.parents| && job.Source() in job.base
  {
    var source := job.Source();
    && (forall q :: q in job.base && q != source && q != job.bridge ==> q in d.ns && d.ns[q] == job.base[q])
    && (forall q :: q in d.ns ==> q in job.base || q == job.bridge || q == job.Staged() || q == MirrorStage(job.bridge))
    && source in d.ns
    && (d.ns[source] == job.base[source] || (job.bridge in d.ns && d.ns[job.bridge].Bridge?
          && (source == job.bridge || d.ns[source] == Link(job.bridge))))
    && (job.bridge in job.base ==> job.bridge in d.ns)
    && (job.bridge in d.ns ==>
          d.ns[job.bridge].Bridge? || (job.bridge in job.base && d.ns[job.bridge] == job.base[job.bridge])
          || (source == job.bridge && d.ns[source] == job.base[source]))
  }

  ghost predicate Exposed(job: Job, d: Disk)
    requires job.index < |job.parents|
  {
    Resolve(d.ns, job.Source(), job.Reach()) == Some(job.bridge)
  }

  predicate OnlyLinks(children: map<Name, Proxy>) {
    forall c :: c in children ==> !children[c].Other?
  }

  /** The staging names hold what recovery can undo. */
  ghost predicate StagingKnown(job: Job, d: Disk)
    requires job.index < |job.parents| && job.Source() in job.base
  {
    var stage := MirrorStage(job.bridge);
    && (job.Staged() in d.ns ==>
          (d.ns[job.Staged()] == Link(job.bridge) && job.bridge in d.ns && d.ns[job.bridge].Bridge?)
          || d.ns[job.Staged()] == job.base[job.Source()])
    && (stage in d.ns ==> !d.ns[stage].Former?)
    && (stage in d.ns && d.ns[stage].Link? ==> d.ns[stage].to.Place?)
    && (stage in d.ns && d.ns[stage].Bridge? ==> OnlyLinks(d.ns[stage].children))
  }

  ghost predicate JournalKnown(job: Job, d: Disk)
    requires job.index < |job.parents|
  {
    match d.journal
    case Some(record) =>
      && (record == job.NewRecord(true) || record == job.NewRecord(false))
      && (MirrorStage(job.bridge) in d.ns ==> record == job.NewRecord(true))
    case None =>
      && job.Staged() !in d.ns && MirrorStage(job.bridge) !in d.ns
      && |d.parents| > job.index
      && Resolve(d.ns, job.Source(), job.Reach()) == Some(d.parents[job.index].hdd)
  }

  ghost predicate LedgerKnown(job: Job, d: Disk)
    requires job.index < |job.parents|
  {
    d.parents == job.parents || d.parents == job.parents[job.index := job.New()]
  }

  ghost predicate Safe(job: Job, d: Disk)
    requires job.index < |job.parents| && job.Source() in job.base
  {
    && Shape(job, d) && StagingKnown(job, d) && JournalKnown(job, d) && LedgerKnown(job, d) && BridgeKept(job, d)
    && (Exposed(job, d) ==>
          job.bridge in d.ns && d.ns[job.bridge].Bridge? && Complete(job, d.ns[job.bridge].children))
  }

  // ---- What a transaction ends in ----

  /** Following links from the first path leads to the last, which is no link. */
  predicate Chain(ns: Namespace, chain: seq<Path>) {
    && chain != [] && (forall i :: 0 <= i < |chain| ==> chain[i] in ns)
    && (forall i :: 0 <= i < |chain| - 1 ==> ns[chain[i]] == Link(chain[i + 1]))
    && !ns[chain[|chain| - 1]].Link?
  }

  ghost predicate Leads(ns: Namespace, p: Path, q: Path, most: nat) {
    exists chain :: |chain| <= most && Chain(ns, chain) && chain[0] == p && chain[|chain| - 1] == q
  }

  lemma {:induction false} ResolveLeads(ns: Namespace, p: Path, q: Path, n: nat)
    requires Resolve(ns, p, n) == Some(q)
    ensures Leads(ns, p, q, n)
    decreases n
  {
    match ns[p]
    case Link(to) =>
      ResolveLeads(ns, to, q, n - 1);
      var rest :| |rest| <= n - 1 && Chain(ns, rest) && rest[0] == to && rest[|rest| - 1] == q;
      var chain := [p] + rest;
      assert Chain(ns, chain) by {
        assert forall i :: 0 < i < |chain| ==> chain[i] == rest[i - 1];
      }
      assert chain[|chain| - 1] == q;
    case _ => assert Chain(ns, [p]);
  }

  lemma {:induction false} ChainResolves(ns: Namespace, chain: seq<Path>, n: nat)
    requires Chain(ns, chain) && |chain| <= n
    ensures Resolve(ns, chain[0], n) == Some(chain[|chain| - 1])
    decreases n
  {
    if |chain| > 1 {
      var rest := chain[1..];
      assert forall i :: 0 <= i < |rest| ==> rest[i] == chain[i + 1];
      ChainResolves(ns, rest, n - 1);
    }
  }

  lemma LeadsExactly(ns: Namespace, p: Path, q: Path, n: nat)
    ensures Leads(ns, p, q, n) <==> Resolve(ns, p, n) == Some(q)
  {
    if Leads(ns, p, q, n) {
      var chain :| |chain| <= n && Chain(ns, chain) && chain[0] == p && chain[|chain| - 1] == q;
      ChainResolves(ns, chain, n);
    }
    if Resolve(ns, p, n) == Some(q) {
      ResolveLeads(ns, p, q, n);
    }
  }

  /** The ledger names the bridge for this parent and keeps the former directory on record; the public path leads
      to the bridge, and every child of the former directory has an entry there that does not lead back. */
  ghost predicate Rerouted(job: Job, d: Disk)
    requires job.index < |job.parents|
  {
    var was := job.parents[job.index];
    && d.parents == job.parents[job.index := Parent(was.source, was.backing, job.bridge, was.previous + [was.hdd])]
    && Leads(d.ns, was.source, job.bridge, job.hops + 2)
    && job.bridge in d.ns && d.ns[job.bridge].Bridge?
    && forall c :: c in job.children && c.Visible? ==>
         c in d.ns[job.bridge].children && d.ns[job.bridge].children[c] != ToLogical
  }

  /** The ledger is as it was, and the public path leads to the former directory. */
  ghost predicate Unrouted(job: Job, d: Disk)
    requires job.index < |job.parents|
  {
    var was := job.parents[job.index];
    d.parents == job.parents && Leads(d.ns, was.source, was.hdd, job.hops + 2)
  }

  /** No journal and no staging name is left; the former directory and every path but the public name and the bridge
      are as they were, and so is every entry a bridge had that does not lead back. */
  ghost predicate Tidy(job: Job, d: Disk)
    requires job.index < |job.parents|
  {
    var was := job.parents[job.index];
    && d.journal == None && DefaultLink(was.source) !in d.ns && MirrorStage(job.bridge) !in d.ns
    && was.hdd in d.ns && d.ns[was.hdd] == Former
    && (forall q :: q in job.base && q != was.source && q != job.bridge ==> q in d.ns && d.ns[q] == job.base[q])
    && (forall q :: q in d.ns ==> q in job.base || q == job.bridge)
    && (job.bridge in d.ns && d.ns[job.bridge].Bridge? ==> Preserved(job, Before(job), d.ns[job.bridge].children))
  }

  // ---- Where the public path leads ----

  /** A chain that led to the former directory leads there still, or to the bridge. */
  lemma {:induction false} ChainLeads(job: Job, d: Disk, p: Path, n: nat)
    requires job.WellFormed() && Shape(job, d)
    requires Resolve(job.base, p, n) == Some(job.Old().hdd)
    ensures Resolve(d.ns, p, n + 1) == Some(job.Old().hdd)
         || (Resolve(d.ns, p, n + 1) == Some(job.bridge) && job.bridge in d.ns && d.ns[job.bridge].Bridge?)
    decreases n
  {
    if p == job.bridge && d.ns[p].Bridge? {
    } else if d.ns[p] == job.base[p] {
      match job.base[p]
      case Link(to) => ChainLeads(job, d, to, n - 1);
      case _ =>
    } else {
      assert d.ns[p] == Link(job.bridge);
      assert Resolve(d.ns, job.bridge, n) == Some(job.bridge);
    }
  }

  /** Nothing has been exchanged yet. */
  ghost predicate Unexchanged(job: Job, d: Disk)
    requires job.index < |job.parents| && job.Source() in job.base
  {
    && job.Source() in d.ns && d.ns[job.Source()] == job.base[job.Source()]
    && (job.bridge in job.base && !job.base[job.bridge].Bridge? ==>
          job.bridge in d.ns && d.ns[job.bridge] == job.base[job.bridge])
  }

  lemma {:induction false} ChainUnexchanged(job: Job, d: Disk, p: Path, n: nat)
    requires job.WellFormed() && Shape(job, d) && Unexchanged(job, d)
    requires Resolve(job.base, p, n) == Some(job.Old().hdd)
    ensures Resolve(d.ns, p, n + 1) == Some(job.Old().hdd)
    decreases n
  {
    match job.base[p]
    case Link(to) => ChainUnexchanged(job, d, to, n - 1);
    case _ =>
  }

  lemma {:induction false} ResolveMonotone(ns: Namespace, p: Path, n: nat, m: nat)
    requires n <= m && Resolve(ns, p, n).Some?
    ensures Resolve(ns, p, m) == Resolve(ns, p, n)
    decreases n
  {
    match ns[p]
    case Link(to) => ResolveMonotone(ns, to, n - 1, m - 1);
    case _ =>
  }

  /** The public path always leads to the former directory or to the bridge. */
  lemma SourceLeads(job: Job, d: Disk)
    requires job.WellFormed() && Shape(job, d)
    ensures Resolve(d.ns, job.Source(), job.Reach()) == Some(job.Old().hdd)
         || (Resolve(d.ns, job.Source(), job.Reach()) == Some(job.bridge) && job.bridge in d.ns && d.ns[job.bridge].Bridge?)
    ensures Unexchanged(job, d) ==> Resolve(d.ns, job.Source(), job.Reach()) == Some(job.Old().hdd)
  {
    ChainLeads(job, d, job.Source(), job.hops);
    ResolveMonotone(d.ns, job.Source(), job.hops + 1, job.Reach());
    if Unexchanged(job, d) {
      ChainUnexchanged(job, d, job.Source(), job.hops);
    }
  }

  /** Two namespaces with the same links resolve alike, whatever their directories hold. */
  lemma {:induction false} SameLinks(a: Namespace, b: Namespace, p: Path, n: nat, skip: set<Path>)
    requires forall q :: q !in skip ==> (q in a <==> q in b)
    requires forall q :: q in a && q !in skip ==> a[q] == b[q] || (!a[q].Link? && !b[q].Link?)
    requires p !in skip && forall q :: q in a && q !in skip && a[q].Link? ==> a[q].to !in skip
    ensures Resolve(a, p, n) == Resolve(b, p, n)
    decreases n
  {
    if n > 0 && p in a && a[p].Link? {
      SameLinks(a, b, a[p].to, n - 1, skip);
    }
  }
}
