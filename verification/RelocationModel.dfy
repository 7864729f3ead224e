/** The durable state a relocation works on: top-level names, the journal, the ledger row, and the two
    trees involved. The original inode tree is one `Payload` node that moves between names; the
    verified copy is a `Replica`. */
module RelocationModel {
  import opened Basics
  import opened LinkRewrite

  /** A name inside the unit, split at slashes; [] is the unit itself. */
  type Rel = seq<string>

  /** What a manifest records of one name. File data stands for content the digest distinguishes. */
  datatype Entry =
    | File(data: nat, meta: nat)
    | Folder(mode: nat)
    | Symlink(mode: nat, to: LinkText)

  type Tree = map<Rel, Entry>

  /** Top-level names. `Data` is archive/data/<uuid>/<name>; the tier names are the hidden siblings
      `.NAME.qq-tier-link` and `.NAME.qq-tier-original`. */
  datatype Path =
    | Place(id: nat)
    | Data(uuid: nat)
    | TierLink(of: Path)
    | TierOriginal(of: Path)

  predicate Temporary(p: Path) {
    p.TierLink? || p.TierOriginal?
  }

  datatype Node = Payload | Replica(tree: Tree) | Link(to: Path)

  type Namespace = map<Path, Node>

  datatype Phase = Copying | Verifying | Syncing | Verified | MirrorPublishing | Published | AbortedCleanup

  datatype Record = Record(
    phase: Phase, restore: bool, source: Path, original: Path, destination: Path,
    staged: Path, originalStaged: Option<Path>, mirrorStaged: Option<Path>, aliases: seq<Path>)

  datatype Location = Hdd | Ssd

  datatype Row = Row(target: Path, location: Location, hot: Option<Path>, aliases: set<Path>)

  /** Everything a crash leaves behind. `gone` maps each name already deleted from the payload to the
      entry it had when it was last compared with the published copy. */
  datatype Disk = Disk(
    ns: Namespace, gone: map<Rel, Entry>, flushed: bool, journal: Option<Record>, row: Option<Row>)

  datatype Mode = Plain | Demote | Restore

  /** One relocation: its names, the admitted manifest, and the namespace it was admitted in. */
  datatype Job = Job(
    mode: Mode, mirrored: bool, source: Path, original: Path, staging: Path, mirrorSlot: Path,
    cold: Path, aliases: seq<Path>, spelled: seq<string>, names: seq<Rel>, manifest: Tree,
    base: Namespace, row: Option<Row>, hops: nat)
  {
    function Dest(): Path {
      if mirrored then mirrorSlot else staging
    }

    /** The public source path already is the mirror slot, through its parent's route. */
    predicate MirrorIsSource() {
      mirrored && mirrorSlot == source
    }

    /** A demotion whose physical SSD name differs from the public one also becomes an alias. */
    predicate OriginalAlias() {
      mode == Demote && original != source
    }

    /** What the mirror slot held before the exchange: an earlier proxy, or one made for the move. */
    function FormerSlot(): Node {
      if mirrorSlot in base then base[mirrorSlot] else Link(original)
    }

    function FinalAliases(): seq<Path> {
      if OriginalAlias() then aliases + [original] else aliases
    }

    function Copy(): Tree {
      CopyOf(spelled, manifest)
    }

    function Retired(): Path {
      if OriginalAlias() then TierOriginal(original) else TierOriginal(source)
    }

    predicate Switched(p: Path) {
      p == source || p in aliases || (OriginalAlias() && p == original)
    }

    /** What callers and the ledger guarantee about the names of one relocation. */
    ghost predicate WellFormed() {
      && (forall n :: n in names <==> n in manifest) && manifest != map[]
      && !Temporary(source) && !Temporary(original) && mirrorSlot.Place?
      && staging.Data? && cold.Data? && staging != cold
      && staging !in {source, original, mirrorSlot} && cold !in {source, original, mirrorSlot}
      && (forall a :: a in aliases ==> !Temporary(a) && a !in {source, original, staging, mirrorSlot, cold})
      && (forall i, j :: 0 <= i < j < |aliases| ==> aliases[i] != aliases[j])
      && (mode == Plain ==> source == original && aliases == [] && row == None)
      && (mode == Restore ==> !mirrored)
      && (mode != Plain ==> row.Some? && row.value.aliases == set a | a in aliases)
      && (mode == Demote && original != source && row.value.location == Ssd ==> row.value.hot == Some(original))
      && (mirrored ==> mirrorSlot != original)
      && (forall p :: p in base ==> !Temporary(p) && p != staging && p != cold && !base[p].Replica?)
      && original in base
      && (forall p :: p in base ==> (base[p] == Payload <==> p == original))
    }

    /** Every public name leads to the original, and so does an existing mirror proxy. */
    predicate Leads() {
      && Resolve(base, source, hops) == Some(original)
      && (forall a :: a in aliases ==> Resolve(base, a, hops) == Some(original))
      && (mirrored && mirrorSlot in base ==> Resolve(base, mirrorSlot, hops) == Some(original))
    }

    function Start(): Disk {
      Disk(base, map[], false, None, row)
    }

    /** The namespace every finished move that does not restore ends in. */
    function FinalNamespace(): Namespace {
      map p | p in base.Keys + {Dest()} ::
        if p == Dest() then Replica(Copy()) else if Switched(p) then Link(Dest()) else base[p]
    }

    function FinalRow(): Row {
      Row(Dest(), Hdd, None, set a | a in FinalAliases())
    }

    function NewRecord(phase: Phase): Record {
      Record(phase, mode == Restore, source, original, staging, TierOriginal(source), None, None, [])
    }

    function PublishedRecord(): Record {
      Record(Published, mode == Restore, source, original, Dest(), TierOriginal(source),
             if OriginalAlias() then Some(TierOriginal(original)) else None,
             if mirrored then Some(staging) else None, FinalAliases())
    }
  }

  /** The copy of one entry: links are rewritten, everything else is kept. */
  function CopyEntry(spelled: seq<string>, rel: Rel, entry: Entry): Entry {
    if entry.Symlink? then Symlink(entry.mode, CopiedLink(spelled, rel, entry.to)) else entry
  }

  function CopyOf(spelled: seq<string>, tree: Tree): Tree {
    map rel | rel in tree :: CopyEntry(spelled, rel, tree[rel])
  }

  /** The comparison recovery makes between a surviving original entry and the published copy. */
  predicate SameContent(spelled: seq<string>, rel: Rel, kept: Entry, copy: Entry) {
    match kept
    case File(data, _) => copy.File? && copy.data == data
    case Folder(_) => copy.Folder?
    case Symlink(_, to) => copy.Symlink? && copy.to == CopiedLink(spelled, rel, to)
  }

  /** Follows links from `p`; None for a missing name or a chain longer than the bound. */
  function Resolve(ns: Namespace, p: Path, hops: nat): (end: Option<Path>)
    ensures end.Some? ==> end.value in ns && !ns[end.value].Link?
    decreases hops
  {
    if hops == 0 || p !in ns then None
    else match ns[p]
      case Link(to) => Resolve(ns, to, hops - 1)
      case _ => Some(p)
  }

  datatype Op =
    | SaveJournal(record: Record)
    | DropJournal
    | MakeLink(at: Path, to: Path)
    | Exchange(a: Path, b: Path)
    | Move(a: Path, b: Path)
    | Remove(at: Path)
    | Store(at: Path, tree: Tree)
    | Flush
    | Prune(rel: Rel, entry: Entry)
    | SaveRow(row: Row)

  /** System calls that would fail in this state. */
  predicate Enabled(d: Disk, op: Op) {
    match op
    case MakeLink(at, _) => at !in d.ns
    case Exchange(a, b) => a in d.ns && b in d.ns
    case Move(a, _) => a in d.ns
    case Remove(at) => at in d.ns
    case _ => true
  }

  function Apply(d: Disk, op: Op): Disk
    requires Enabled(d, op)
  {
    match op
    case SaveJournal(record) => d.(journal := Some(record))
    case DropJournal => d.(journal := None)
    case MakeLink(at, to) => d.(ns := d.ns[at := Link(to)])
    case Exchange(a, b) => d.(ns := d.ns[a := d.ns[b]][b := d.ns[a]])
    case Move(a, b) => d.(ns := (d.ns - {a})[b := d.ns[a]])
    case Remove(at) => d.(ns := d.ns - {at})
    case Store(at, tree) => d.(ns := d.ns[at := Replica(tree)], flushed := false)
    case Flush => d.(flushed := true)
    case Prune(rel, entry) => d.(gone := d.gone[rel := entry])
    case SaveRow(row) => d.(row := Some(row))
  }

  // ---- What every durable state of a relocation must satisfy ----

  /** A node that holds the complete unit: the untouched original or the verified, flushed copy. */
  ghost predicate Whole(job: Job, d: Disk, node: Node) {
    match node
    case Payload => d.gone == map[]
    case Replica(tree) => tree == job.Copy() && d.flushed
    case Link(_) => false
  }

  /** The public name leads to a whole unit. */
  ghost predicate Serves(job: Job, d: Disk, p: Path) {
    var end := Resolve(d.ns, p, job.hops + 2);
    end.Some? && Whole(job, d, d.ns[end.value])
  }

  /** Every name of the admitted namespace is as it was, or leads to a whole unit at once. */
  ghost predicate Anchored(job: Job, d: Disk) {
    forall q :: q in job.base ==>
      && q in d.ns
      && ((d.ns[q] == job.base[q] && (q == job.original ==> d.gone == map[])) || Direct(job, d, q))
  }

  ghost predicate Direct(job: Job, d: Disk, q: Path)
    requires q in d.ns
  {
    || Whole(job, d, d.ns[q])
    || (d.ns[q].Link? && d.ns[q].to in d.ns && Whole(job, d, d.ns[d.ns[q].to]))
  }

  predicate Unpublished(phase: Phase) {
    phase == Copying || phase == Verifying || phase == Syncing || phase == AbortedCleanup
  }

  /** No name of the admitted namespace has been changed. */
  ghost predicate Untouched(job: Job, d: Disk) {
    d.gone == map[] && forall q :: q in job.base ==> q in d.ns && d.ns[q] == job.base[q]
  }

  /** Names a published move may still have to remove. A restore keeps the original at its cold name. */
  predicate Leftover(job: Job, p: Path) {
    || p == job.Retired() || p == TierOriginal(job.source)
    || (job.mirrored && p == job.staging)
    || (job.mode == Restore && p == job.cold)
  }

  /** Nothing but the staging tree, a mirror proxy or an unused link has been added to the namespace. */
  ghost predicate NotPublished(job: Job, d: Disk) {
    && d.gone == map[] && d.row == job.row
    && d.journal.Some?
    && d.journal.value.restore == (job.mode == Restore)
    && d.journal.value.source == job.source && d.journal.value.original == job.original
    && d.journal.value.phase != Published
    && d.journal.value.destination in {job.staging, job.mirrorSlot}
    && (forall q :: q in job.base ==> q in d.ns && d.ns[q] == job.base[q])
    && (forall q :: q in d.ns ==> q in job.base || q == job.staging || q == job.mirrorSlot || q == TierLink(job.source))
    && (job.staging in d.ns ==> d.ns[job.staging].Replica?)
  }

  /** The namespace of a published move: final except for retired names awaiting removal. */
  ghost predicate PublishedNames(job: Job, d: Disk) {
    var final := job.FinalNamespace();
    && d.flushed
    && (forall p :: p in final ==> p in d.ns && d.ns[p] == final[p])
    && (forall p :: p in d.ns ==> p in final || Leftover(job, p))
  }

  /** The states recovery has to take over: published, not a restore, with the retired names and the
      ledger row at any point of their removal and update. */
  ghost predicate Recoverable(job: Job, d: Disk) {
    && job.mode != Restore && job.Leads()
    && d.journal == Some(job.PublishedRecord())
    && PublishedNames(job, d)
    && (job.Retired() in d.ns ==> d.ns[job.Retired()] == Payload)
    && (job.OriginalAlias() && TierOriginal(job.source) in d.ns ==>
          job.source in job.base && d.ns[TierOriginal(job.source)] == job.base[job.source])
    && (job.mirrored && job.staging in d.ns ==> !job.MirrorIsSource() && d.ns[job.staging] == job.FormerSlot())
    && (d.row == job.row || d.row == Some(job.FinalRow()))
  }

  /** What the journal's phase says about the namespace. */
  ghost predicate JournalTells(job: Job, d: Disk) {
    d.journal.Some? ==>
      var record := d.journal.value;
      && record.restore == (job.mode == Restore)
      && record.source == job.source && record.original == job.original
      && (Unpublished(record.phase) ==> NotPublished(job, d))
      && (record.phase == Published ==> PublishedNames(job, d) && (job.mode != Restore ==> Recoverable(job, d)))
  }

  /** The original is still there, whole or in part. */
  ghost predicate HasPayload(ns: Namespace) {
    exists p :: p in ns && ns[p] == Payload
  }

  ghost predicate PayloadKept(d: Disk) {
    d.gone == map[] && HasPayload(d.ns)
  }

  /** Every deleted name of the original was last seen equal to the published copy. */
  ghost predicate DeletionsCovered(job: Job, d: Disk) {
    forall rel :: rel in d.gone ==>
      rel in job.Copy() && SameContent(job.spelled, rel, d.gone[rel], job.Copy()[rel])
  }

  /** A link text of the original and one of its copy name the same place, wherever the copy lies: the same
      absolute place, or the same place below the unit. */
  ghost predicate SamePlace(spelled: seq<string>, rel: Rel, to: LinkText, copied: LinkText) {
    forall dest :: AllOrdinary(dest) ==>
      || Denotes(dest, rel, copied) == Denotes(spelled, rel, to)
      || (exists place :: Denotes(spelled, rel, to) == spelled + place && Denotes(dest, rel, copied) == dest + place)
  }

  /** What the comparison means. */
  lemma SameContentMeans(spelled: seq<string>, rel: Rel, kept: Entry, copy: Entry)
    requires AllOrdinary(spelled)
    ensures kept.File? ==> (SameContent(spelled, rel, kept, copy) <==> copy.File? && copy.data == kept.data)
    ensures kept.Folder? ==> (SameContent(spelled, rel, kept, copy) <==> copy.Folder?)
    ensures kept.Symlink? && SameContent(spelled, rel, kept, copy) ==> copy.Symlink? && SamePlace(spelled, rel, kept.to, copy.to)
  {
    if kept.Symlink? {
      CopiedSamePlace(spelled, rel, kept.to);
    }
  }

  lemma CopiedSamePlace(spelled: seq<string>, rel: Rel, to: LinkText)
    requires AllOrdinary(spelled)
    ensures SamePlace(spelled, rel, to, CopiedLink(spelled, rel, to))
  {
    var copied := CopiedLink(spelled, rel, to);
    forall dest | AllOrdinary(dest)
      ensures Denotes(dest, rel, copied) == Denotes(spelled, rel, to)
           || exists place :: Denotes(spelled, rel, to) == spelled + place && Denotes(dest, rel, copied) == dest + place
    {
      if to.Relative? && !Escapes(0, Parent(rel) + to.parts) {
        InsideKeepsPlace(spelled, dest, rel, to.parts);
      } else {
        OutsideKeepsMeaning(spelled, dest, rel, to);
      }
    }
  }

  /** The copy has the names of the manifest and no other; files and directories are the same in it, with all that is
      recorded of them, and a link has its mode and names the same place. */
  lemma CopyMeans(job: Job, rel: Rel)
    requires AllOrdinary(job.spelled)
    ensures rel in job.Copy() <==> rel in job.manifest
    ensures rel in job.manifest ==>
      match job.manifest[rel]
      case File(data, meta) => job.Copy()[rel] == File(data, meta)
      case Folder(mode) => job.Copy()[rel] == Folder(mode)
      case Symlink(mode, to) =>
        job.Copy()[rel].Symlink? && job.Copy()[rel].mode == mode && SamePlace(job.spelled, rel, to, job.Copy()[rel].to)
  {
    if rel in job.manifest && job.manifest[rel].Symlink? {
      CopiedSamePlace(job.spelled, rel, job.manifest[rel].to);
    }
  }

  /** Every name of the original that has been deleted was last seen with what the copy has: a file with the same
      data, a directory, or a link that names the same place. */
  lemma DeletedIsCopied(job: Job, d: Disk, rel: Rel)
    requires Safe(job, d) && AllOrdinary(job.spelled) && rel in d.gone
    ensures rel in job.Copy()
    ensures match d.gone[rel]
            case File(data, _) => job.Copy()[rel].File? && job.Copy()[rel].data == data
            case Folder(_) => job.Copy()[rel].Folder?
            case Symlink(_, to) => job.Copy()[rel].Symlink? && SamePlace(job.spelled, rel, to, job.Copy()[rel].to)
  {
    SameContentMeans(job.spelled, rel, d.gone[rel], job.Copy()[rel]);
  }

  ghost predicate Safe(job: Job, d: Disk) {
    && Anchored(job, d)
    && JournalTells(job, d)
    && (PayloadKept(d) || PublishedNames(job, d))
    && DeletionsCovered(job, d)
  }

  // ---- Consequences ----

  /** A chain of the admitted namespace that led to the original still leads to a whole unit. */
  lemma {:induction false} ChainServes(job: Job, d: Disk, p: Path, n: nat)
    requires Anchored(job, d)
    requires Resolve(job.base, p, n) == Some(job.original)
    requires job.original in job.base && job.base[job.original] == Payload
    ensures var end := Resolve(d.ns, p, n + 1);
            end.Some? && end.value in d.ns && Whole(job, d, d.ns[end.value])
    decreases n
  {
    assert p in job.base;
    if d.ns[p] == job.base[p] && (p == job.original ==> d.gone == map[]) {
      match job.base[p]
      case Link(to) => ChainServes(job, d, to, n - 1);
      case _ =>
    } else if d.ns[p].Link? {
      assert Resolve(d.ns, d.ns[p].to, n) == Some(d.ns[p].to);
    }
  }

  lemma {:induction false} ResolveMonotone(ns: Namespace, p: Path, n: nat, m: nat)
    requires n <= m && Resolve(ns, p, n).Some?
    ensures Resolve(ns, p, m) == Resolve(ns, p, n)
    decreases n
  {
    match ns[p]
    case Link(to) => ResolveMonotone(ns, to, n - 1, m - 1);
    case _ =>
  }

  /** Loss-freedom of one durable state: every name that led to the original at admission leads to
      the untouched original or to the compared and flushed copy. */
  lemma SafeServes(job: Job, d: Disk, p: Path)
    requires job.WellFormed() && Safe(job, d)
    requires Resolve(job.base, p, job.hops) == Some(job.original)
    ensures Serves(job, d, p)
  {
    ChainServes(job, d, p, job.hops);
    ResolveMonotone(d.ns, p, job.hops + 1, job.hops + 2);
  }

  /** After publication every such chain ends at the destination. */
  lemma {:induction false} PublishedChain(job: Job, d: Disk, p: Path, n: nat)
    requires job.WellFormed() && job.mode != Restore && PublishedNames(job, d)
    requires Resolve(job.base, p, n) == Some(job.original)
    ensures Resolve(d.ns, p, n + 1) == Some(job.Dest())
    decreases n
  {
    var final := job.FinalNamespace();
    assert p in job.base && p in final;
    if p == job.Dest() {
    } else if job.Switched(p) {
      assert d.ns[p] == Link(job.Dest());
      assert job.Dest() in final;
      assert Resolve(d.ns, job.Dest(), n) == Some(job.Dest());
    } else {
      assert job.base[p].Link?;
      PublishedChain(job, d, job.base[p].to, n - 1);
    }
  }

  /** Before publication the journal never admits an exchange: the public names are unchanged. */
  lemma PhaseDecides(job: Job, d: Disk)
    requires job.WellFormed() && Safe(job, d) && d.journal.Some?
    ensures Unpublished(d.journal.value.phase) ==> Untouched(job, d)
    ensures d.journal.value.phase == Published ==>
      forall p :: job.Switched(p) && p in job.base ==> Resolve(d.ns, p, 2) == Some(job.Dest())
  {
    if d.journal.value.phase == Published {
      var final := job.FinalNamespace();
      assert job.Dest() in final && d.ns[job.Dest()] == Replica(job.Copy());
      forall p | job.Switched(p) && p in job.base
        ensures Resolve(d.ns, p, 2) == Some(job.Dest())
      {
        assert p in final && d.ns[p] == final[p];
        if p != job.Dest() {
          assert Resolve(d.ns, job.Dest(), 1) == Some(job.Dest());
        }
      }
    }
  }
}
