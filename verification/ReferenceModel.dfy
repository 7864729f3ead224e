/** What the reference broker reads of a process table, and the report it owes: which candidate
    directories some process still refers to. This is the report without its memo tables. */
module ReferenceModel {
  import opened Basics

  type Path = seq<string>

  /** A candidate directory with its identity. */
  datatype Candidate = Candidate(path: Path, device: nat, inode: nat)

  /** A mount: where it shows, which directory of its device it shows. */
  datatype Mount = Mount(point: Path, root: Path, device: nat)

  /** A name as the kernel renders it; anything but an absolute path is `Relative`. */
  datatype Raw = Relative | Absolute(parts: Path)

  datatype Stat = Stat(device: nat, inode: nat, regular: bool, links: nat)

  /** A read that succeeds, finds its object or process gone, or is refused. */
  datatype Reading<+T> = Got(value: T) | Vanished | Denied

  /** An open descriptor, `cwd` or `exe`. `late` marks one met after a budget has run out. */
  datatype Link = Link(stat: Reading<Stat>, name: Reading<Raw>, late: bool)

  /** One line of a memory map; `mapFile` is what the kernel's link to the mapping says. */
  datatype Mapping = Mapping(name: Raw, device: nat, inode: nat, valid: bool, mapFile: Option<Stat>) | Garbled

  datatype Status = Large | Idle | Live

  datatype Maps = Oversized | Lines(lines: seq<Mapping>)

  /** One process. `table` names the text of its mount table; the flags mark budgets that ran out. */
  datatype Task = Task(
    late: bool, status: Reading<Status>, table: Reading<nat>, tableLarge: bool, fds: Reading<seq<Link>>,
    links: seq<Link>, maps: Reading<Maps>, overrun: bool)

  /** What a mount table's text parses to (None: malformed), restricted to the candidates' devices. */
  datatype Table = Table(mounts: Option<seq<Mount>>, size: nat)

  /** `resolve` is what the reader's own namespace makes of a path: the real path and its identity. */
  datatype World = World(candidates: seq<Candidate>, tables: map<nat, Table>, resolve: map<Path, (Path, nat, nat)>) {
    function Devices(): set<nat> {
      set c | c in candidates :: c.device
    }
  }

  const PROCESSES: nat := 8192

  predicate Within(path: Path, parent: Path) {
    parent <= path
  }

  // ---- Names ----

  const DELETED := " (deleted)"

  predicate Marked(name: string) {
    |name| >= |DELETED| && name[|name| - |DELETED|..] == DELETED
  }

  predicate Deleted(path: Path) {
    path != [] && Marked(path[|path| - 1])
  }

  /** The path without the deleted marker of its last name. */
  function Strip(path: Path): Path {
    if !Deleted(path) then path
    else
      var last := path[|path| - 1];
      var name := last[..|last| - |DELETED|];
      if name == [] then path[..|path| - 1] else path[..|path| - 1] + [name]
  }

  // ---- Mounts ----

  /** Longer mount points first, equal ones in table order. */
  function InsertMount(m: Mount, sorted: seq<Mount>): seq<Mount> {
    if sorted == [] then [m]
    else if |sorted[0].point| >= |m.point| then [sorted[0]] + InsertMount(m, sorted[1..])
    else [m] + sorted
  }

  function SortMounts(mounts: seq<Mount>): seq<Mount> {
    if mounts == [] then []
    else InsertMount(mounts[|mounts| - 1], SortMounts(mounts[..|mounts| - 1]))
  }

  /** The first mount of the device the path lies under. */
  function First(mounts: seq<Mount>, device: nat, path: Path): Option<Mount> {
    if mounts == [] then None
    else if mounts[0].device == device && Within(path, mounts[0].point) then Some(mounts[0])
    else First(mounts[1..], device, path)
  }

  predicate Sorted(mounts: seq<Mount>) {
    forall i, j :: 0 <= i < j < |mounts| ==> |mounts[i].point| >= |mounts[j].point|
  }

  lemma {:induction false} InsertSorted(m: Mount, sorted: seq<Mount>)
    requires Sorted(sorted)
    ensures Sorted(InsertMount(m, sorted))
    ensures forall x :: x in InsertMount(m, sorted) <==> x == m || x in sorted
  {
    if sorted != [] {
      assert sorted == [sorted[0]] + sorted[1..];
      if |sorted[0].point| >= |m.point| {
        InsertSorted(m, sorted[1..]);
        var rest := InsertMount(m, sorted[1..]);
        forall j | 0 <= j < |rest| ensures |sorted[0].point| >= |rest[j].point| {
          assert rest[j] in rest;
        }
      }
    }
  }

  lemma {:induction false} SortSorts(mounts: seq<Mount>)
    ensures Sorted(SortMounts(mounts)) && forall m :: m in SortMounts(mounts) <==> m in mounts
    decreases |mounts|
  {
    if mounts != [] {
      var front, last := mounts[..|mounts| - 1], mounts[|mounts| - 1];
      SortSorts(front);
      InsertSorted(last, SortMounts(front));
      assert mounts == front + [last];
    }
  }

  /** The mount a path of the device belongs to: none of the device has a longer point above the path. */
  predicate Governs(mounts: seq<Mount>, device: nat, path: Path, m: Mount) {
    && m in mounts && m.device == device && m.point <= path
    && forall x :: x in mounts && x.device == device && x.point <= path ==> |x.point| <= |m.point|
  }

  predicate DistinctPoints(mounts: seq<Mount>) {
    forall x, y :: x in mounts && y in mounts && x.device == y.device && x.point == y.point ==> x == y
  }

  lemma {:induction false} FirstGoverns(mounts: seq<Mount>, device: nat, path: Path, m: Mount)
    requires Sorted(mounts) && DistinctPoints(mounts) && Governs(mounts, device, path, m)
    ensures First(mounts, device, path) == Some(m)
  {
    assert mounts == [mounts[0]] + mounts[1..];
    if mounts[0].device == device && Within(path, mounts[0].point) {
      var i :| 0 <= i < |mounts| && mounts[i] == m;
      assert |mounts[0].point| == |m.point|;
      assert mounts[0].point == path[..|m.point|] == m.point;
    } else {
      FirstGoverns(mounts[1..], device, path, m);
    }
  }

  // ---- Inspecting one reference ----

  /** What inspecting a reference adds, and whether it raises. */
  datatype Effect = Effect(blocks: set<nat>, raises: bool)

  function Holding(w: World, device: nat, path: Path): set<nat> {
    set i | 0 <= i < |w.candidates| && w.candidates[i].device == device && Within(path, w.candidates[i].path)
  }

  function Identical(w: World, device: nat, inode: nat): set<nat> {
    set i | 0 <= i < |w.candidates| && w.candidates[i].device == device && w.candidates[i].inode == inode
  }

  function Inspect(w: World, mounts: seq<Mount>, raw: Raw, device: nat, inode: nat): Effect {
    var same := Identical(w, device, inode);
    if raw.Relative? then Effect(same, true)
    else
      var path := Strip(raw.parts);
      var direct := same + Holding(w, device, path);
      match First(mounts, device, path)
      case Some(m) => Effect(direct + Holding(w, device, m.root + path[if |m.point| <= |path| then |m.point| else 0..]), false)
      case None =>
        if path in w.resolve && w.resolve[path].1 == device && w.resolve[path].2 == inode
        then Effect(direct + Holding(w, device, w.resolve[path].0), false)
        else Effect(direct, true)
  }

  // ---- One process ----

  datatype Acc = Acc(blocked: set<nat>, complete: bool)

  datatype Flow = Next | Raise

  function Fail(a: Acc): Acc {
    a.(complete := false)
  }

  function Reference(w: World, mounts: seq<Mount>, a: Acc, unlinked: set<(nat, nat)>, raw: Raw, device: nat, inode: nat)
    : (Acc, Flow)
  {
    if device !in w.Devices() || (device, inode) in unlinked then (a, Next)
    else
      var e := Inspect(w, mounts, raw, device, inode);
      (a.(blocked := a.blocked + e.blocks), if e.raises then Raise else Next)
  }

  /** An unlinked regular file is remembered while there is room and needs no inspection. */
  function Remember(unlinked: set<(nat, nat)>, stat: Stat, cap: nat): set<(nat, nat)> {
    if |unlinked| < cap then unlinked + {(stat.device, stat.inode)} else unlinked
  }

  predicate Gone(stat: Stat) {
    stat.regular && stat.links == 0
  }

  function LinkStep(w: World, mounts: seq<Mount>, a: Acc, unlinked: set<(nat, nat)>, link: Link): (Acc, Flow) {
    match link.stat
    case Vanished => (a, Next)
    case Denied => (Fail(a), Next)
    case Got(stat) =>
      match link.name
      case Vanished => (a, Next)
      case Denied => (Fail(a), Next)
      case Got(raw) => Reference(w, mounts, a, unlinked, raw, stat.device, stat.inode)
  }

  /** Descriptors in order; the result carries the unlinked files met so far. */
  function Fds(w: World, mounts: seq<Mount>, a: Acc, unlinked: set<(nat, nat)>, fds: seq<Link>, cap: nat)
    : (Acc, set<(nat, nat)>, Flow)
    decreases |fds|
  {
    if fds == [] then (a, unlinked, Next)
    else if fds[0].late then (Fail(a), unlinked, Next)
    else if fds[0].stat.Got? && Gone(fds[0].stat.value) then
      Fds(w, mounts, a, Remember(unlinked, fds[0].stat.value, cap), fds[1..], cap)
    else
      var (b, flow) := LinkStep(w, mounts, a, unlinked, fds[0]);
      if flow.Next? then Fds(w, mounts, b, unlinked, fds[1..], cap) else (b, unlinked, flow)
  }

  function Links(w: World, mounts: seq<Mount>, a: Acc, unlinked: set<(nat, nat)>, links: seq<Link>): (Acc, Flow)
    decreases |links|
  {
    if links == [] then (a, Next)
    else
      var (b, flow) := LinkStep(w, mounts, a, unlinked, links[0]);
      if flow.Next? then Links(w, mounts, b, unlinked, links[1..]) else (b, flow)
  }

  /** A mapping marked deleted whose kernel link shows the same, linkless file needs no inspection. */
  function MapStep(w: World, mounts: seq<Mount>, a: Acc, unlinked: set<(nat, nat)>, m: Mapping): (Acc, Flow) {
    if m.Garbled? then (a, Raise)
    else if m.inode == 0 || m.device !in w.Devices() || (m.device, m.inode) in unlinked then (a, Next)
    else if m.name.Absolute? && Deleted(m.name.parts) && !m.valid then (a, Raise)
    else if m.name.Absolute? && Deleted(m.name.parts) && ProvenGone(m) then (a, Next)
    else Reference(w, mounts, a, unlinked, m.name, m.device, m.inode)
  }

  predicate ProvenGone(m: Mapping) {
    m.Mapping? && m.mapFile.Some? && Gone(m.mapFile.value) && m.mapFile.value.device == m.device && m.mapFile.value.inode == m.inode
  }

  function MapLines(w: World, mounts: seq<Mount>, a: Acc, unlinked: set<(nat, nat)>, lines: seq<Mapping>): (Acc, Flow)
    decreases |lines|
  {
    if lines == [] then (a, Next)
    else
      var (b, flow) := MapStep(w, mounts, a, unlinked, lines[0]);
      if flow.Next? then MapLines(w, mounts, b, unlinked, lines[1..]) else (b, flow)
  }

  /** Candidates some mount of the process shows a part of. */
  function Bound(w: World, mounts: seq<Mount>): set<nat> {
    set i, m | m in mounts && i in Holding(w, m.device, m.root) :: i
  }

  /** The references of a live process; true asks for no further process. */
  function References(w: World, mounts: seq<Mount>, a: Acc, task: Task, cap: nat): (Acc, bool) {
    var bound := a.(blocked := a.blocked + Bound(w, mounts));
    match task.fds
    case Vanished => (bound, false)
    case Denied => (Fail(bound), false)
    case Got(fds) =>
      var (b, unlinked, flow) := Fds(w, mounts, bound, {}, fds, cap);
      if flow.Raise? then (Fail(b), false)
      else
        var (c, flow') := Links(w, mounts, b, unlinked, task.links);
        if flow'.Raise? then (Fail(c), false) else MapsOf(w, mounts, c, unlinked, task)
  }

  function MapsOf(w: World, mounts: seq<Mount>, a: Acc, unlinked: set<(nat, nat)>, task: Task): (Acc, bool) {
    match task.maps
    case Vanished => (a, false)
    case Denied => (Fail(a), false)
    case Got(Oversized) => (Fail(a), true)
    case Got(Lines(lines)) =>
      var (d, flow) := MapLines(w, mounts, a, unlinked, lines);
      if flow.Raise? then (Fail(d), false) else if task.overrun then (Fail(d), true) else (d, false)
  }

  /** What a table parses to; an unknown or malformed one raises. */
  function Parsed(w: World, table: nat): Option<seq<Mount>> {
    if table in w.tables && w.tables[table].mounts.Some? then Some(SortMounts(w.tables[table].mounts.value)) else None
  }

  function TaskReport(w: World, a: Acc, task: Task, cap: nat): (Acc, bool) {
    if task.late then (Fail(a), true)
    else
      match task.status
      case Vanished => (a, false)
      case Denied => (Fail(a), false)
      case Got(Large) => (Fail(a), true)
      case Got(Idle) => (a, false)
      case Got(Live) =>
        match task.table
        case Vanished => (a, false)
        case Denied => (Fail(a), false)
        case Got(table) =>
          if task.tableLarge then (Fail(a), true)
          else
            match Parsed(w, table)
            case None => (Fail(a), false)
            case Some(mounts) => References(w, mounts, a, task, cap)
  }

  /** The report over a process table. */
  function Report(w: World, a: Acc, tasks: seq<Task>, met: nat, cap: nat): Acc
    decreases |tasks|
  {
    if tasks == [] then a
    else if met >= PROCESSES then Fail(a)
    else
      var (b, stop) := TaskReport(w, a, tasks[0], cap);
      if stop then b else Report(w, b, tasks[1..], met + 1, cap)
  }
}
