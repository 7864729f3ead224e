/** A complete report misses no linked reference inside a candidate. */
module ReferenceProof {
  import opened Basics
  import opened ReferenceModel

  // ---- Where a linked reference lies ----

  /** The physical path behind a name: the kernel renders it through the mount that governs it in the
      inspected process, or as the reader's own namespace has it. */
  ghost predicate Placed(mounts: seq<Mount>, device: nat, path: Path, physical: Path) {
    physical == path || exists m :: Governs(mounts, device, path, m) && physical == m.root + path[|m.point|..]
  }

  /** A reference lies physically inside candidate `i`; a path names one inode. */
  ghost predicate Inside(w: World, mounts: seq<Mount>, raw: Raw, device: nat, inode: nat, i: nat) {
    && raw.Absolute? && i < |w.candidates| && w.candidates[i].device == device
    && exists physical :: Placed(mounts, device, raw.parts, physical) && w.candidates[i].path <= physical
         && (physical == w.candidates[i].path ==> inode == w.candidates[i].inode)
  }

  /** `bare` is the name without the ending of a deleted file's, of which `stem` is the last part. */
  ghost predicate Bare(path: Path, stem: string, bare: Path) {
    path != [] && path[|path| - 1] == stem + " (deleted)"
    && bare == if stem == "" then path[..|path| - 1] else path[..|path| - 1] + [stem]
  }

  lemma BareIsStrip(path: Path, stem: string, bare: Path)
    requires Bare(path, stem, bare)
    ensures Deleted(path) && bare == Strip(path)
  {
    var last := path[|path| - 1];
    assert |DELETED| == |" (deleted)"| && last[|last| - |DELETED|..] == DELETED && last[..|last| - |DELETED|] == stem;
  }

  lemma StripIsBare(path: Path) returns (stem: string)
    requires Deleted(path)
    ensures Bare(path, stem, Strip(path))
  {
    var last := path[|path| - 1];
    stem := last[..|last| - |DELETED|];
    assert last == stem + last[|last| - |DELETED|..];
  }

  /** Some mount of the process shows a part of candidate `i`. */
  ghost predicate BindIn(w: World, mounts: seq<Mount>, i: nat) {
    i < |w.candidates| && exists m :: m in mounts && m.device == w.candidates[i].device && w.candidates[i].path <= m.root
  }

  lemma BoundExactly(w: World, mounts: seq<Mount>, i: nat)
    ensures i in Bound(w, mounts) <==> BindIn(w, mounts, i)
  {
    if BindIn(w, mounts, i) {
      var m :| m in mounts && m.device == w.candidates[i].device && w.candidates[i].path <= m.root;
      assert i in Holding(w, m.device, m.root);
    }
  }

  /** The one case in which a reference inside candidate `i` is missed: its name ends like that of a deleted
      file, the process has another mount of the device exactly at the name without that ending, and nothing
      else shows the candidate: neither that name, nor the identity, nor any mount of a part of it. */
  ghost predicate Shadowed(w: World, mounts: seq<Mount>, raw: Raw, device: nat, inode: nat, i: nat)
    requires i < |w.candidates|
  {
    && raw.Absolute? && inode != w.candidates[i].inode && !BindIn(w, mounts, i)
    && exists stem, bare :: Bare(raw.parts, stem, bare) && !(w.candidates[i].path <= bare)
         && exists m :: m in mounts && m.device == device && m.point == bare && !(m.point <= raw.parts)
  }

  /** The same in the broker's own terms. */
  lemma ShadowedExactly(w: World, mounts: seq<Mount>, raw: Raw, device: nat, inode: nat, i: nat)
    requires i < |w.candidates|
    ensures Shadowed(w, mounts, raw, device, inode, i) <==>
      && raw.Absolute? && Deleted(raw.parts)
      && (exists m :: m in mounts && m.device == device && m.point == Strip(raw.parts) && !Within(raw.parts, m.point))
      && !Within(Strip(raw.parts), w.candidates[i].path) && inode != w.candidates[i].inode && i !in Bound(w, mounts)
  {
    BoundExactly(w, mounts, i);
    if Shadowed(w, mounts, raw, device, inode, i) {
      var stem, bare :| Bare(raw.parts, stem, bare) && !(w.candidates[i].path <= bare)
        && exists m :: m in mounts && m.device == device && m.point == bare && !(m.point <= raw.parts);
      BareIsStrip(raw.parts, stem, bare);
    }
    if raw.Absolute? && Deleted(raw.parts) {
      var stem := StripIsBare(raw.parts);
    }
  }

  lemma StripWithin(path: Path, parent: Path)
    requires Within(path, parent) && path != parent
    ensures Within(Strip(path), parent)
  {
  }

  lemma StripTail(front: Path, rel: Path)
    requires rel != []
    ensures Strip(front + rel) == front + Strip(rel)
  {
    assert (front + rel)[..|front + rel| - 1] == front + rel[..|rel| - 1];
  }

  /** The mount that governs a name strictly above it shows the stripped name too, unless another mount is
      exactly there. */
  lemma StripGoverned(mounts: seq<Mount>, device: nat, path: Path, m: Mount)
    requires Sorted(mounts) && DistinctPoints(mounts) && Governs(mounts, device, path, m) && |m.point| < |path|
    ensures First(mounts, device, Strip(path)) == Some(m)
         || (Deleted(path) && exists x :: x in mounts && x.device == device && x.point == Strip(path) && !Within(path, x.point))
  {
    StripWithin(path, m.point);
    if exists x :: x in mounts && x.device == device && Within(Strip(path), x.point) && |x.point| > |m.point| {
      var x :| x in mounts && x.device == device && Within(Strip(path), x.point) && |x.point| > |m.point|;
      assert !Within(path, x.point);
      assert |x.point| >= |path|;
      assert x.point == Strip(path);
    } else {
      FirstGoverns(mounts, device, Strip(path), m);
    }
  }

  /** The part of a path below its mount, put below the mount's root, is inside what the path is inside. */
  lemma GovernedSound(w: World, mounts: seq<Mount>, raw: Raw, device: nat, inode: nat, i: nat, m: Mount)
    requires Sorted(mounts) && DistinctPoints(mounts)
    requires raw.Absolute? && i < |w.candidates| && w.candidates[i].device == device
    requires Governs(mounts, device, raw.parts, m) && inode != w.candidates[i].inode
    requires !Within(Strip(raw.parts), w.candidates[i].path)
    requires var physical := m.root + raw.parts[|m.point|..];
             Within(physical, w.candidates[i].path) && physical != w.candidates[i].path
    ensures i in Inspect(w, mounts, raw, device, inode).blocks + Bound(w, mounts) || Shadowed(w, mounts, raw, device, inode, i)
  {
    var path := raw.parts;
    var rel := path[|m.point|..];
    ShadowedExactly(w, mounts, raw, device, inode, i);
    if rel == [] {
      assert m.root + rel == m.root;
      assert i in Holding(w, m.device, m.root);
    } else {
      assert path == m.point + rel;
      StripTail(m.point, rel);
      StripTail(m.root, rel);
      StripWithin(m.root + rel, w.candidates[i].path);
      assert Strip(path)[|m.point|..] == Strip(rel);
      assert i in Holding(w, device, m.root + Strip(rel));
      StripGoverned(mounts, device, path, m);
    }
  }

  /** A mount exactly at the stripped name is where the broker looks. */
  lemma ShadowFirst(w: World, mounts: seq<Mount>, raw: Raw, device: nat, inode: nat, i: nat) returns (m: Mount)
    requires Sorted(mounts) && DistinctPoints(mounts) && i < |w.candidates|
    requires Shadowed(w, mounts, raw, device, inode, i)
    ensures m in mounts && m.device == device && m.point == Strip(raw.parts) && First(mounts, device, Strip(raw.parts)) == Some(m)
  {
    ShadowedExactly(w, mounts, raw, device, inode, i);
    m :| m in mounts && m.device == device && m.point == Strip(raw.parts) && !Within(raw.parts, m.point);
    assert Governs(mounts, device, Strip(raw.parts), m);
    FirstGoverns(mounts, device, Strip(raw.parts), m);
  }

  /** Exactly when a reference inside a candidate is missed. */
  lemma InspectMisses(w: World, mounts: seq<Mount>, raw: Raw, device: nat, inode: nat, i: nat)
    requires Sorted(mounts) && DistinctPoints(mounts)
    requires Inside(w, mounts, raw, device, inode, i) && !Inspect(w, mounts, raw, device, inode).raises
    ensures i !in Inspect(w, mounts, raw, device, inode).blocks && !BindIn(w, mounts, i)
       <==> Shadowed(w, mounts, raw, device, inode, i)
  {
    BoundExactly(w, mounts, i);
    if Shadowed(w, mounts, raw, device, inode, i) {
      ShadowMisses(w, mounts, raw, device, inode, i);
    } else {
      InspectSound(w, mounts, raw, device, inode, i);
    }
  }

  /** A shadowed reference is missed, and nothing is raised. */
  lemma ShadowMisses(w: World, mounts: seq<Mount>, raw: Raw, device: nat, inode: nat, i: nat)
    requires Sorted(mounts) && DistinctPoints(mounts) && i < |w.candidates| && w.candidates[i].device == device
    requires Shadowed(w, mounts, raw, device, inode, i)
    ensures !Inspect(w, mounts, raw, device, inode).raises && i !in Inspect(w, mounts, raw, device, inode).blocks + Bound(w, mounts)
  {
    var m := ShadowFirst(w, mounts, raw, device, inode, i);
    ShadowedExactly(w, mounts, raw, device, inode, i);
    assert m.root + Strip(raw.parts)[|m.point|..] == m.root;
    assert Inspect(w, mounts, raw, device, inode).blocks
        == Identical(w, device, inode) + Holding(w, device, Strip(raw.parts)) + Holding(w, device, m.root);
    assert m.device == device && m in mounts;
  }

  /** Inspecting a reference without raising blocks the candidate it lies in, unless a bind of a part of
      the candidate does. */
  lemma InspectSound(w: World, mounts: seq<Mount>, raw: Raw, device: nat, inode: nat, i: nat)
    requires Sorted(mounts) && DistinctPoints(mounts)
    requires Inside(w, mounts, raw, device, inode, i) && !Shadowed(w, mounts, raw, device, inode, i)
    requires !Inspect(w, mounts, raw, device, inode).raises
    ensures i in Inspect(w, mounts, raw, device, inode).blocks + Bound(w, mounts)
  {
    var path, c := raw.parts, w.candidates[i];
    var physical :| Placed(mounts, device, path, physical) && c.path <= physical
                 && (physical == c.path ==> inode == c.inode);
    if physical == c.path {
      assert i in Identical(w, device, inode);
    } else if physical == path {
      StripWithin(path, c.path);
      assert i in Holding(w, device, Strip(path));
    } else if inode == c.inode {
      assert i in Identical(w, device, inode);
    } else if Within(Strip(path), c.path) {
      assert i in Holding(w, device, Strip(path));
    } else {
      var m :| Governs(mounts, device, path, m) && physical == m.root + path[|m.point|..];
      GovernedSound(w, mounts, raw, device, inode, i, m);
    }
  }

  // ---- One process ----

  /** The candidate is blocked, or a bind of a part of it shows in the process. */
  ghost predicate Caught(w: World, mounts: seq<Mount>, a: Acc, i: nat) {
    i in a.blocked + Bound(w, mounts)
  }

  /** Results only grow: nothing blocked is released, no failure is forgotten. */
  predicate Grows(a: Acc, b: Acc) {
    a.blocked <= b.blocked && (b.complete ==> a.complete)
  }

  /** Linked inodes: no open regular file, and no file behind a mapping, shows one of them without links. */
  ghost predicate Static(task: Task, linked: set<(nat, nat)>) {
    && (task.fds.Got? ==> forall fd :: fd in task.fds.value && fd.stat.Got? && fd.stat.value.regular && fd.stat.value.links == 0 ==>
          (fd.stat.value.device, fd.stat.value.inode) !in linked)
    && (task.maps.Got? && task.maps.value.Lines? ==>
          forall m :: m in task.maps.value.lines && m.Mapping? && m.mapFile.Some? ==>
            (m.mapFile.value.regular && m.mapFile.value.links == 0 ==> (m.mapFile.value.device, m.mapFile.value.inode) !in linked))
  }

  /** A linked, readable reference of the kind a candidate has to be blocked for. */
  ghost predicate Relevant(w: World, mounts: seq<Mount>, linked: set<(nat, nat)>, raw: Raw, device: nat, inode: nat, i: nat) {
    && (device, inode) in linked && Inside(w, mounts, raw, device, inode, i)
    && !Shadowed(w, mounts, raw, device, inode, i)
  }

  ghost predicate RelevantLink(w: World, mounts: seq<Mount>, linked: set<(nat, nat)>, link: Link, i: nat) {
    link.stat.Got? && link.name.Got?
    && Relevant(w, mounts, linked, link.name.value, link.stat.value.device, link.stat.value.inode, i)
  }

  ghost predicate RelevantMap(w: World, mounts: seq<Mount>, linked: set<(nat, nat)>, m: Mapping, i: nat) {
    m.Mapping? && m.inode != 0 && Relevant(w, mounts, linked, m.name, m.device, m.inode, i)
  }

  lemma ReferenceSound(w: World, mounts: seq<Mount>, a: Acc, unlinked: set<(nat, nat)>, linked: set<(nat, nat)>, raw: Raw,
                       device: nat, inode: nat, i: nat)
    requires Sorted(mounts) && DistinctPoints(mounts) && unlinked !! linked
    requires Relevant(w, mounts, linked, raw, device, inode, i)
    requires Reference(w, mounts, a, unlinked, raw, device, inode).1.Next?
    ensures Caught(w, mounts, Reference(w, mounts, a, unlinked, raw, device, inode).0, i)
  {
    assert w.candidates[i] in w.candidates;
    InspectSound(w, mounts, raw, device, inode, i);
  }

  lemma {:induction false} FdsSound(w: World, mounts: seq<Mount>, a: Acc, unlinked: set<(nat, nat)>, fds: seq<Link>, cap: nat,
                                    linked: set<(nat, nat)>, i: nat)
    requires Sorted(mounts) && DistinctPoints(mounts) && unlinked !! linked
    requires forall fd :: fd in fds && fd.stat.Got? && Gone(fd.stat.value) ==>
               (fd.stat.value.device, fd.stat.value.inode) !in linked
    requires var r := Fds(w, mounts, a, unlinked, fds, cap); !r.2.Raise? && r.0.complete
    ensures var r := Fds(w, mounts, a, unlinked, fds, cap);
            && Grows(a, r.0) && r.1 !! linked
            && ((exists fd :: fd in fds && RelevantLink(w, mounts, linked, fd, i)) ==> Caught(w, mounts, r.0, i))
    decreases |fds|
  {
    FdsGrow(w, mounts, a, unlinked, fds, cap);
    if fds != [] {
      var fd := fds[0];
      assert fds == [fd] + fds[1..];
      if fd.stat.Got? && Gone(fd.stat.value) {
        FdsSound(w, mounts, a, Remember(unlinked, fd.stat.value, cap), fds[1..], cap, linked, i);
      } else {
        var (b, flow) := LinkStep(w, mounts, a, unlinked, fd);
        FdsSound(w, mounts, b, unlinked, fds[1..], cap, linked, i);
        if RelevantLink(w, mounts, linked, fd, i) {
          ReferenceSound(w, mounts, a, unlinked, linked, fd.name.value, fd.stat.value.device, fd.stat.value.inode, i);
        }
      }
    }
  }

  lemma {:induction false} FdsGrow(w: World, mounts: seq<Mount>, a: Acc, unlinked: set<(nat, nat)>, fds: seq<Link>, cap: nat)
    ensures Grows(a, Fds(w, mounts, a, unlinked, fds, cap).0)
    decreases |fds|
  {
    if fds != [] && !fds[0].late {
      if fds[0].stat.Got? && Gone(fds[0].stat.value) {
        FdsGrow(w, mounts, a, Remember(unlinked, fds[0].stat.value, cap), fds[1..], cap);
      } else {
        FdsGrow(w, mounts, LinkStep(w, mounts, a, unlinked, fds[0]).0, unlinked, fds[1..], cap);
      }
    }
  }

  lemma {:induction false} LinksGrow(w: World, mounts: seq<Mount>, a: Acc, unlinked: set<(nat, nat)>, links: seq<Link>)
    ensures Grows(a, Links(w, mounts, a, unlinked, links).0)
    decreases |links|
  {
    if links != [] {
      LinksGrow(w, mounts, LinkStep(w, mounts, a, unlinked, links[0]).0, unlinked, links[1..]);
    }
  }

  lemma {:induction false} LinksSound(w: World, mounts: seq<Mount>, a: Acc, unlinked: set<(nat, nat)>, links: seq<Link>,
                                      linked: set<(nat, nat)>, i: nat)
    requires Sorted(mounts) && DistinctPoints(mounts) && unlinked !! linked
    requires var r := Links(w, mounts, a, unlinked, links); !r.1.Raise? && r.0.complete
    requires exists link :: link in links && RelevantLink(w, mounts, linked, link, i)
    ensures Caught(w, mounts, Links(w, mounts, a, unlinked, links).0, i)
    decreases |links|
  {
    assert links == [links[0]] + links[1..];
    var (b, flow) := LinkStep(w, mounts, a, unlinked, links[0]);
    LinksGrow(w, mounts, b, unlinked, links[1..]);
    if RelevantLink(w, mounts, linked, links[0], i) {
      var stat := links[0].stat.value;
      ReferenceSound(w, mounts, a, unlinked, linked, links[0].name.value, stat.device, stat.inode, i);
    } else {
      LinksSound(w, mounts, b, unlinked, links[1..], linked, i);
    }
  }

  lemma {:induction false} MapsGrow(w: World, mounts: seq<Mount>, a: Acc, unlinked: set<(nat, nat)>, lines: seq<Mapping>)
    ensures Grows(a, MapLines(w, mounts, a, unlinked, lines).0)
    decreases |lines|
  {
    if lines != [] {
      MapsGrow(w, mounts, MapStep(w, mounts, a, unlinked, lines[0]).0, unlinked, lines[1..]);
    }
  }

  lemma {:induction false} MapsSound(w: World, mounts: seq<Mount>, a: Acc, unlinked: set<(nat, nat)>, lines: seq<Mapping>,
                                     linked: set<(nat, nat)>, i: nat)
    requires Sorted(mounts) && DistinctPoints(mounts) && unlinked !! linked
    requires forall m :: m in lines && ProvenGone(m) ==> (m.device, m.inode) !in linked
    requires !MapLines(w, mounts, a, unlinked, lines).1.Raise?
    requires exists m :: m in lines && RelevantMap(w, mounts, linked, m, i)
    ensures Caught(w, mounts, MapLines(w, mounts, a, unlinked, lines).0, i)
    decreases |lines|
  {
    assert lines == [lines[0]] + lines[1..];
    var (b, flow) := MapStep(w, mounts, a, unlinked, lines[0]);
    MapsGrow(w, mounts, b, unlinked, lines[1..]);
    if RelevantMap(w, mounts, linked, lines[0], i) {
      var m := lines[0];
      assert w.candidates[i] in w.candidates;
      ReferenceSound(w, mounts, a, unlinked, linked, m.name, m.device, m.inode, i);
    } else {
      MapsSound(w, mounts, b, unlinked, lines[1..], linked, i);
    }
  }

  /** Some reference of the process, or a bind in it, lies in candidate `i`. */
  ghost predicate RefersTo(w: World, mounts: seq<Mount>, task: Task, linked: set<(nat, nat)>, i: nat) {
    || BindIn(w, mounts, i)
    || (task.fds.Got? && exists fd :: fd in task.fds.value && RelevantLink(w, mounts, linked, fd, i))
    || (exists link :: link in task.links && RelevantLink(w, mounts, linked, link, i))
    || (task.maps.Got? && task.maps.value.Lines? && exists m :: m in task.maps.value.lines && RelevantMap(w, mounts, linked, m, i))
  }

  lemma MapsOfGrow(w: World, mounts: seq<Mount>, a: Acc, unlinked: set<(nat, nat)>, task: Task)
    ensures Grows(a, MapsOf(w, mounts, a, unlinked, task).0)
  {
    if task.maps.Got? && task.maps.value.Lines? {
      MapsGrow(w, mounts, a, unlinked, task.maps.value.lines);
    }
  }

  lemma MapsOfSound(w: World, mounts: seq<Mount>, a: Acc, unlinked: set<(nat, nat)>, task: Task, linked: set<(nat, nat)>, i: nat)
    requires Sorted(mounts) && DistinctPoints(mounts) && Static(task, linked) && unlinked !! linked
    requires MapsOf(w, mounts, a, unlinked, task).0.complete
    requires task.maps.Got? && task.maps.value.Lines?
    requires exists m :: m in task.maps.value.lines && RelevantMap(w, mounts, linked, m, i)
    ensures Caught(w, mounts, MapsOf(w, mounts, a, unlinked, task).0, i)
  {
    MapsSound(w, mounts, a, unlinked, task.maps.value.lines, linked, i);
  }

  /** A live process that is gone neither as a whole nor in parts: its tables can be read or refuse to be. */
  predicate Present(task: Task) {
    !task.fds.Vanished? && !task.maps.Vanished?
  }

  lemma ReferencesSound(w: World, mounts: seq<Mount>, a: Acc, task: Task, cap: nat, linked: set<(nat, nat)>, i: nat)
    requires Sorted(mounts) && DistinctPoints(mounts) && Static(task, linked) && Present(task)
    requires References(w, mounts, a, task, cap).0.complete && RefersTo(w, mounts, task, linked, i)
    ensures i in References(w, mounts, a, task, cap).0.blocked
  {
    var bound := a.(blocked := a.blocked + Bound(w, mounts));
    var (b, unlinked, flow) := Fds(w, mounts, bound, {}, task.fds.value, cap);
    var (c, flow') := Links(w, mounts, b, unlinked, task.links);
    BoundExactly(w, mounts, i);
    LinksGrow(w, mounts, b, unlinked, task.links);
    MapsOfGrow(w, mounts, c, unlinked, task);
    FdsSound(w, mounts, bound, {}, task.fds.value, cap, linked, i);
    if exists link :: link in task.links && RelevantLink(w, mounts, linked, link, i) {
      LinksSound(w, mounts, b, unlinked, task.links, linked, i);
    }
    if task.maps.Got? && task.maps.value.Lines? && exists m :: m in task.maps.value.lines && RelevantMap(w, mounts, linked, m, i) {
      MapsOfSound(w, mounts, c, unlinked, task, linked, i);
    }
  }

  // ---- The whole report ----

  /** The process is live and its mount table holds these mounts. */
  ghost predicate Shows(w: World, task: Task, mounts: seq<Mount>) {
    task.status == Got(Live) && task.table.Got? && task.table.value in w.tables && w.tables[task.table.value].mounts == Some(mounts)
  }

  lemma ParsedSorted(w: World, table: nat)
    requires Parsed(w, table).Some? && DistinctPoints(w.tables[table].mounts.value)
    ensures Sorted(Parsed(w, table).value) && DistinctPoints(Parsed(w, table).value)
    ensures SameMounts(w.tables[table].mounts.value, Parsed(w, table).value)
  {
    SortSorts(w.tables[table].mounts.value);
  }

  ghost predicate SameMounts(mounts: seq<Mount>, others: seq<Mount>) {
    forall m :: m in mounts <==> m in others
  }

  /** Where a reference lies does not depend on the order of the mounts. */
  lemma OrderFree(w: World, mounts: seq<Mount>, others: seq<Mount>, raw: Raw, device: nat, inode: nat, i: nat)
    requires SameMounts(mounts, others)
    ensures Inside(w, mounts, raw, device, inode, i) <==> Inside(w, others, raw, device, inode, i)
    ensures BindIn(w, mounts, i) <==> BindIn(w, others, i)
    ensures i < |w.candidates| ==> (Shadowed(w, mounts, raw, device, inode, i) <==> Shadowed(w, others, raw, device, inode, i))
  {
    assert forall m, path :: Governs(mounts, device, path, m) <==> Governs(others, device, path, m);
    assert forall path, physical :: Placed(mounts, device, path, physical) <==> Placed(others, device, path, physical);
  }

  lemma RefersOrderFree(w: World, mounts: seq<Mount>, others: seq<Mount>, task: Task, linked: set<(nat, nat)>, i: nat)
    requires SameMounts(mounts, others) && RefersTo(w, mounts, task, linked, i)
    ensures RefersTo(w, others, task, linked, i)
  {
    forall raw, device, inode | Relevant(w, mounts, linked, raw, device, inode, i)
      ensures Relevant(w, others, linked, raw, device, inode, i)
    {
      OrderFree(w, mounts, others, raw, device, inode, i);
    }
    OrderFree(w, mounts, others, Relative, 0, 0, i);
  }

  lemma ReferencesGrow(w: World, mounts: seq<Mount>, a: Acc, task: Task, cap: nat)
    ensures Grows(a, References(w, mounts, a, task, cap).0)
    ensures References(w, mounts, a, task, cap).1 ==> !References(w, mounts, a, task, cap).0.complete
  {
    if task.fds.Got? {
      var bound := a.(blocked := a.blocked + Bound(w, mounts));
      var (b, unlinked, flow) := Fds(w, mounts, bound, {}, task.fds.value, cap);
      FdsGrow(w, mounts, bound, {}, task.fds.value, cap);
      LinksGrow(w, mounts, b, unlinked, task.links);
      MapsOfGrow(w, mounts, Links(w, mounts, b, unlinked, task.links).0, unlinked, task);
    }
  }

  lemma TaskGrows(w: World, a: Acc, task: Task, cap: nat)
    ensures Grows(a, TaskReport(w, a, task, cap).0)
    ensures TaskReport(w, a, task, cap).1 ==> !TaskReport(w, a, task, cap).0.complete
  {
    if task.table.Got? && Parsed(w, task.table.value).Some? {
      ReferencesGrow(w, Parsed(w, task.table.value).value, a, task, cap);
    }
  }

  lemma {:induction false} ReportGrows(w: World, a: Acc, tasks: seq<Task>, met: nat, cap: nat)
    ensures Grows(a, Report(w, a, tasks, met, cap))
    decreases |tasks|
  {
    if tasks != [] && met < PROCESSES {
      TaskGrows(w, a, tasks[0], cap);
      var (b, stop) := TaskReport(w, a, tasks[0], cap);
      if !stop {
        ReportGrows(w, b, tasks[1..], met + 1, cap);
      }
    }
  }

  /** A report that calls itself complete has blocked every candidate some live process refers to. */
  lemma {:induction false} ReportSound(w: World, a: Acc, tasks: seq<Task>, met: nat, cap: nat, k: nat, mounts: seq<Mount>,
                                       linked: set<(nat, nat)>, i: nat)
    requires Report(w, a, tasks, met, cap).complete && k < |tasks|
    requires Shows(w, tasks[k], mounts) && DistinctPoints(mounts)
    requires Present(tasks[k]) && Static(tasks[k], linked) && RefersTo(w, mounts, tasks[k], linked, i)
    ensures i in Report(w, a, tasks, met, cap).blocked
    decreases |tasks|
  {
    var (b, stop) := TaskReport(w, a, tasks[0], cap);
    TaskGrows(w, a, tasks[0], cap);
    ReportGrows(w, b, tasks[1..], met + 1, cap);
    if k == 0 {
      var sorted := Parsed(w, tasks[0].table.value).value;
      ParsedSorted(w, tasks[0].table.value);
      RefersOrderFree(w, mounts, sorted, tasks[0], linked, i);
      ReferencesSound(w, sorted, a, tasks[0], cap, linked, i);
    } else {
      ReportSound(w, b, tasks[1..], met + 1, cap, k - 1, mounts, linked, i);
    }
  }

  // ---- Nothing is blocked without a reason ----

  /** The name as it stands or, if it ends like a deleted file's, without that ending. */
  ghost predicate ReadAs(raw: Raw, path: Path) {
    raw.Absolute? && (path == raw.parts || exists stem :: Bare(raw.parts, stem, path))
  }

  /** The reference may lie in candidate `i`: by its identity, by its name as it stands, below a mount of the
      process, or as the reader's own namespace resolves it. */
  ghost predicate Touching(w: World, mounts: seq<Mount>, raw: Raw, device: nat, inode: nat, i: nat) {
    && i < |w.candidates| && w.candidates[i].device == device
    && (w.candidates[i].inode == inode || exists path :: ReadAs(raw, path) && Points(w, mounts, path, device, inode, w.candidates[i].path))
  }

  ghost predicate Points(w: World, mounts: seq<Mount>, path: Path, device: nat, inode: nat, candidate: Path) {
    || candidate <= path
    || (exists m :: m in mounts && m.device == device && m.point <= path && candidate <= m.root + path[|m.point|..])
    || (path in w.resolve && w.resolve[path].1 == device && w.resolve[path].2 == inode && candidate <= w.resolve[path].0)
  }

  lemma {:induction false} FirstIsMount(mounts: seq<Mount>, device: nat, path: Path)
    ensures First(mounts, device, path).Some? ==>
              var m := First(mounts, device, path).value; m in mounts && m.device == device && m.point <= path
  {
    if mounts != [] && !(mounts[0].device == device && Within(path, mounts[0].point)) {
      FirstIsMount(mounts[1..], device, path);
    }
  }

  lemma InspectReason(w: World, mounts: seq<Mount>, raw: Raw, device: nat, inode: nat, i: nat)
    requires i in Inspect(w, mounts, raw, device, inode).blocks
    ensures Touching(w, mounts, raw, device, inode, i)
  {
    if raw.Absolute? {
      var path := Strip(raw.parts);
      FirstIsMount(mounts, device, path);
      if Deleted(raw.parts) {
        var stem := StripIsBare(raw.parts);
      }
      assert ReadAs(raw, path);
    }
  }

  ghost predicate TouchingLink(w: World, mounts: seq<Mount>, link: Link, i: nat) {
    link.stat.Got? && link.name.Got? && Touching(w, mounts, link.name.value, link.stat.value.device, link.stat.value.inode, i)
  }

  /** Some reference of the process may lie in candidate `i`, or a mount of it shows a part of that. */
  ghost predicate Concerns(w: World, mounts: seq<Mount>, task: Task, i: nat) {
    || BindIn(w, mounts, i)
    || (task.fds.Got? && exists fd :: fd in task.fds.value && TouchingLink(w, mounts, fd, i))
    || (exists link :: link in task.links && TouchingLink(w, mounts, link, i))
    || (task.maps.Got? && task.maps.value.Lines? && exists m :: m in task.maps.value.lines && TouchingMap(w, mounts, m, i))
  }

  ghost predicate TouchingMap(w: World, mounts: seq<Mount>, m: Mapping, i: nat) {
    m.Mapping? && Touching(w, mounts, m.name, m.device, m.inode, i)
  }

  lemma LinkReason(w: World, mounts: seq<Mount>, a: Acc, unlinked: set<(nat, nat)>, link: Link, i: nat)
    requires i in LinkStep(w, mounts, a, unlinked, link).0.blocked
    ensures i in a.blocked || TouchingLink(w, mounts, link, i)
  {
    if i !in a.blocked {
      InspectReason(w, mounts, link.name.value, link.stat.value.device, link.stat.value.inode, i);
    }
  }

  lemma {:induction false} FdsReason(w: World, mounts: seq<Mount>, a: Acc, unlinked: set<(nat, nat)>, fds: seq<Link>, cap: nat, i: nat)
    requires i in Fds(w, mounts, a, unlinked, fds, cap).0.blocked
    ensures i in a.blocked || exists fd :: fd in fds && TouchingLink(w, mounts, fd, i)
    decreases |fds|
  {
    if fds != [] && !fds[0].late {
      if fds[0].stat.Got? && Gone(fds[0].stat.value) {
        FdsReason(w, mounts, a, Remember(unlinked, fds[0].stat.value, cap), fds[1..], cap, i);
      } else {
        var (b, flow) := LinkStep(w, mounts, a, unlinked, fds[0]);
        if i in b.blocked {
          LinkReason(w, mounts, a, unlinked, fds[0], i);
        } else {
          FdsReason(w, mounts, b, unlinked, fds[1..], cap, i);
        }
      }
    }
  }

  lemma {:induction false} LinksReason(w: World, mounts: seq<Mount>, a: Acc, unlinked: set<(nat, nat)>, links: seq<Link>, i: nat)
    requires i in Links(w, mounts, a, unlinked, links).0.blocked
    ensures i in a.blocked || exists link :: link in links && TouchingLink(w, mounts, link, i)
    decreases |links|
  {
    if links != [] {
      var (b, flow) := LinkStep(w, mounts, a, unlinked, links[0]);
      if i in b.blocked {
        LinkReason(w, mounts, a, unlinked, links[0], i);
      } else {
        LinksReason(w, mounts, b, unlinked, links[1..], i);
      }
    }
  }

  lemma {:induction false} MapsReason(w: World, mounts: seq<Mount>, a: Acc, unlinked: set<(nat, nat)>, lines: seq<Mapping>, i: nat)
    requires i in MapLines(w, mounts, a, unlinked, lines).0.blocked
    ensures i in a.blocked || exists m :: m in lines && TouchingMap(w, mounts, m, i)
    decreases |lines|
  {
    if lines != [] {
      var (b, flow) := MapStep(w, mounts, a, unlinked, lines[0]);
      if i in b.blocked {
        if i !in a.blocked {
          InspectReason(w, mounts, lines[0].name, lines[0].device, lines[0].inode, i);
          assert TouchingMap(w, mounts, lines[0], i);
        }
      } else {
        MapsReason(w, mounts, b, unlinked, lines[1..], i);
      }
    }
  }

  lemma ReferencesReason(w: World, mounts: seq<Mount>, a: Acc, task: Task, cap: nat, i: nat)
    requires i in References(w, mounts, a, task, cap).0.blocked
    ensures i in a.blocked || Concerns(w, mounts, task, i)
  {
    BoundExactly(w, mounts, i);
    if task.fds.Got? && i !in a.blocked && !BindIn(w, mounts, i) {
      var bound := a.(blocked := a.blocked + Bound(w, mounts));
      var (b, unlinked, flow) := Fds(w, mounts, bound, {}, task.fds.value, cap);
      var (c, flow') := Links(w, mounts, b, unlinked, task.links);
      if i in b.blocked {
        FdsReason(w, mounts, bound, {}, task.fds.value, cap, i);
      } else if i in c.blocked {
        LinksReason(w, mounts, b, unlinked, task.links, i);
      } else {
        MapsReason(w, mounts, c, unlinked, task.maps.value.lines, i);
      }
    }
  }

  /** Candidate `i` concerns a live process of the table. */
  ghost predicate ConcernsSome(w: World, tasks: seq<Task>, i: nat) {
    exists k, mounts :: 0 <= k < |tasks| && Shows(w, tasks[k], mounts) && Concerns(w, mounts, tasks[k], i)
  }

  lemma ConcernsOrderFree(w: World, mounts: seq<Mount>, others: seq<Mount>, task: Task, i: nat)
    requires SameMounts(mounts, others) && Concerns(w, mounts, task, i)
    ensures Concerns(w, others, task, i)
  {
    OrderFree(w, mounts, others, Relative, 0, 0, i);
    forall raw, device, inode | Touching(w, mounts, raw, device, inode, i) ensures Touching(w, others, raw, device, inode, i) {
      if w.candidates[i].inode != inode {
        var path :| ReadAs(raw, path) && Points(w, mounts, path, device, inode, w.candidates[i].path);
        assert Points(w, others, path, device, inode, w.candidates[i].path);
      }
    }
  }

  /** A report, complete or not, blocks no candidate that concerns no live process. */
  lemma {:induction false} ReportReason(w: World, a: Acc, tasks: seq<Task>, met: nat, cap: nat, i: nat)
    requires i in Report(w, a, tasks, met, cap).blocked
    ensures i in a.blocked || ConcernsSome(w, tasks, i)
    decreases |tasks|
  {
    if tasks != [] && met < PROCESSES {
      var (b, stop) := TaskReport(w, a, tasks[0], cap);
      if i in b.blocked {
        if i !in a.blocked {
          var table := tasks[0].table.value;
          var sorted := Parsed(w, table).value;
          ReferencesReason(w, sorted, a, tasks[0], cap, i);
          SortSorts(w.tables[table].mounts.value);
          ConcernsOrderFree(w, sorted, w.tables[table].mounts.value, tasks[0], i);
          assert Shows(w, tasks[0], w.tables[table].mounts.value);
        }
      } else {
        ReportReason(w, b, tasks[1..], met + 1, cap, i);
        if ConcernsSome(w, tasks[1..], i) {
          var k, mounts :| 0 <= k < |tasks[1..]| && Shows(w, tasks[1..][k], mounts) && Concerns(w, mounts, tasks[1..][k], i);
          assert tasks[k + 1] == tasks[1..][k];
        }
      }
    }
  }

  // ---- What a complete report can miss ----

  /** A process whose only reference is one open descriptor on a linked regular file. */
  function Lone(table: nat, raw: Raw, device: nat, inode: nat): Task {
    Task(false, Got(Live), Got(table), false, Got([Link(Got(Stat(device, inode, true, 1)), Got(raw), false)]), [],
         Got(Lines([])), false)
  }

  /** Every shadowed reference is missed by a report that calls itself complete: the process that holds it
      alone makes one. */
  lemma ShadowedMissed(w: World, table: nat, mounts: seq<Mount>, raw: Raw, device: nat, inode: nat, i: nat, cap: nat)
    requires table in w.tables && w.tables[table].mounts == Some(mounts) && DistinctPoints(mounts)
    requires Inside(w, mounts, raw, device, inode, i) && Shadowed(w, mounts, raw, device, inode, i)
    ensures var report := Report(w, Acc({}, true), [Lone(table, raw, device, inode)], 0, cap);
            report.complete && i !in report.blocked
  {
    var sorted := Parsed(w, table).value;
    ParsedSorted(w, table);
    OrderFree(w, mounts, sorted, raw, device, inode, i);
    ShadowMisses(w, sorted, raw, device, inode, i);
    LoneReferences(w, table, sorted, raw, device, inode, cap);
    ReportOne(w, Acc({}, true), Lone(table, raw, device, inode), sorted, cap);
    BoundExactly(w, sorted, i);
  }

  lemma ReportOne(w: World, a: Acc, task: Task, mounts: seq<Mount>, cap: nat)
    requires !task.late && task.status == Got(Live) && task.table.Got? && !task.tableLarge
    requires Parsed(w, task.table.value) == Some(mounts)
    ensures Report(w, a, [task], 0, cap) == References(w, mounts, a, task, cap).0
  {
    var tasks := [task];
    assert tasks[1..] == [];
    assert TaskReport(w, a, tasks[0], cap) == References(w, mounts, a, task, cap);
  }

  /** What such a process adds: its binds, and the candidates its one reference blocks. */
  lemma LoneReferences(w: World, table: nat, mounts: seq<Mount>, raw: Raw, device: nat, inode: nat, cap: nat)
    requires !Inspect(w, mounts, raw, device, inode).raises
    ensures var (b, stop) := References(w, mounts, Acc({}, true), Lone(table, raw, device, inode), cap);
            !stop && b.complete && b.blocked <= Bound(w, mounts) + Inspect(w, mounts, raw, device, inode).blocks
  {
    var fd := Link(Got(Stat(device, inode, true, 1)), Got(raw), false);
    var bound := Acc({} + Bound(w, mounts), true);
    assert [fd][1..] == [];
    assert Fds(w, mounts, bound, {}, [fd], cap) == (Reference(w, mounts, bound, {}, raw, device, inode).0, {}, Next);
  }

  /** Such a reference exists: a file named like a deleted one in a directory that the process shows at
      `mnt`, and another directory of the device mounted at the name without the ending. */
  const SHADOW_NAME := "f (deleted)"
  const SHADOW_OUTER := Mount(["mnt"], ["x"], 1)
  const SHADOW_INNER := Mount(["mnt", "unit", "f"], ["other"], 1)
  const SHADOW_MOUNTS := [SHADOW_INNER, SHADOW_OUTER]
  const SHADOW_WORLD := World([Candidate(["x", "unit"], 1, 5)], map[0 := Table(Some(SHADOW_MOUNTS), 0)], map[])
  const SHADOW_RAW := Absolute(["mnt", "unit", SHADOW_NAME])

  lemma ShadowStripped()
    ensures Strip(SHADOW_RAW.parts) == ["mnt", "unit", "f"] && SHADOW_NAME != "f" && Deleted(SHADOW_RAW.parts)
  {
    assert |SHADOW_NAME| == 11 && |DELETED| == 10;
    assert SHADOW_NAME[1..] == DELETED && SHADOW_NAME[..1] == "f";
  }

  lemma ShadowInside()
    ensures Inside(SHADOW_WORLD, SHADOW_MOUNTS, SHADOW_RAW, 1, 9, 0)
  {
    ShadowStripped();
    assert !Within(SHADOW_RAW.parts, SHADOW_INNER.point) by {
      assert SHADOW_RAW.parts[2] != SHADOW_INNER.point[2];
    }
    assert Governs(SHADOW_MOUNTS, 1, SHADOW_RAW.parts, SHADOW_OUTER);
    var physical := ["x", "unit", SHADOW_NAME];
    assert physical == SHADOW_OUTER.root + SHADOW_RAW.parts[1..];
    assert Placed(SHADOW_MOUNTS, 1, SHADOW_RAW.parts, physical);
    assert Within(physical, ["x", "unit"]) && physical != ["x", "unit"];
  }

  lemma ShadowShadowed()
    ensures Shadowed(SHADOW_WORLD, SHADOW_MOUNTS, SHADOW_RAW, 1, 9, 0)
  {
    ShadowStripped();
    assert SHADOW_INNER in SHADOW_MOUNTS && !Within(SHADOW_RAW.parts, SHADOW_INNER.point) by {
      assert SHADOW_RAW.parts[2] != SHADOW_INNER.point[2];
    }
    assert |"mnt"| != |"x"| && |"other"| != |"x"|;
    Elsewhere(Strip(SHADOW_RAW.parts), ["x", "unit"]);
    Elsewhere(["other"], ["x", "unit"]);
    Elsewhere(["x"], ["x", "unit"]);
    ShadowedExactly(SHADOW_WORLD, SHADOW_MOUNTS, SHADOW_RAW, 1, 9, 0);
  }

  /** A complete report over one live process that leaves a candidate it refers to unblocked. */
  lemma ShadowReport(cap: nat)
    ensures Inside(SHADOW_WORLD, SHADOW_MOUNTS, SHADOW_RAW, 1, 9, 0)
    ensures var report := Report(SHADOW_WORLD, Acc({}, true), [Lone(0, SHADOW_RAW, 1, 9)], 0, cap);
            report.complete && 0 !in report.blocked
  {
    ShadowInside();
    ShadowShadowed();
    assert SHADOW_INNER.point != SHADOW_OUTER.point;
    ShadowedMissed(SHADOW_WORLD, 0, SHADOW_MOUNTS, SHADOW_RAW, 1, 9, 0, cap);
  }

  lemma Elsewhere(path: Path, parent: Path)
    requires path != [] && parent != [] && (path[0] != parent[0] || |path| < |parent|)
    ensures !Within(path, parent)
  {
  }
}
