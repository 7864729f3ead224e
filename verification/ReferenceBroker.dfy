/** The broker's own loops, with their bounded memory of parsed mount tables and inspected references. */
module ReferenceBroker {
  import opened Basics
  import opened ReferenceModel

  const INSPECTED: nat := 4096
  const UNLINKED: nat := 4096
  const CACHED_TABLES: nat := 8
  const CACHED_BYTES: nat := 1048576

  type Memo = set<(Raw, nat, nat)>

  /** Every remembered reference was inspected without raising and adds nothing any more. */
  ghost predicate Spent(w: World, mounts: seq<Mount>, a: Acc, inspected: Memo) {
    forall k :: k in inspected ==>
      var e := Inspect(w, mounts, k.0, k.1, k.2);
      !e.raises && e.blocks <= a.blocked
  }

  /** The cached tables are what their texts parse to. */
  ghost predicate Cached(w: World, tables: map<nat, seq<Mount>>) {
    forall t :: t in tables ==> Parsed(w, t) == Some(tables[t])
  }

  lemma SpentSkips(w: World, mounts: seq<Mount>, a: Acc, memo: Memo, raw: Raw, device: nat, inode: nat)
    requires Spent(w, mounts, a, memo) && (raw, device, inode) in memo
    ensures var e := Inspect(w, mounts, raw, device, inode); !e.raises && a.(blocked := a.blocked + e.blocks) == a
  {
    var k := (raw, device, inode);
    assert k in memo;
    assert Inspect(w, mounts, k.0, k.1, k.2).blocks <= a.blocked;
  }

  lemma SpentGrows(w: World, mounts: seq<Mount>, a: Acc, memo: Memo, raw: Raw, device: nat, inode: nat)
    requires Spent(w, mounts, a, memo) && !Inspect(w, mounts, raw, device, inode).raises
    ensures Spent(w, mounts, a.(blocked := a.blocked + Inspect(w, mounts, raw, device, inode).blocks),
                  memo + {(raw, device, inode)})
  {
  }

  /** One reference, unless it is remembered; the memory is emptied when it is full. */
  method InspectOnce(w: World, mounts: seq<Mount>, a: Acc, unlinked: set<(nat, nat)>, inspected: Memo, raw: Raw, device: nat,
                     inode: nat)
    returns (b: Acc, flow: Flow, memo: Memo)
    requires Spent(w, mounts, a, inspected)
    ensures (b, flow) == Reference(w, mounts, a, unlinked, raw, device, inode)
    ensures flow.Next? ==> Spent(w, mounts, b, memo)
  {
    memo := inspected;
    if device !in w.Devices() || (device, inode) in unlinked {
      return a, Next, memo;
    }
    if (raw, device, inode) in memo {
      SpentSkips(w, mounts, a, memo, raw, device, inode);
      return a, Next, memo;
    }
    if |memo| >= INSPECTED {
      memo := {};
    }
    memo := memo + {(raw, device, inode)};
    var e := Inspect(w, mounts, raw, device, inode);
    b := a.(blocked := a.blocked + e.blocks);
    flow := if e.raises then Raise else Next;
    if !e.raises {
      SpentGrows(w, mounts, a, if |inspected| >= INSPECTED then {} else inspected, raw, device, inode);
    }
  }

  method InspectLink(w: World, mounts: seq<Mount>, a: Acc, unlinked: set<(nat, nat)>, inspected: Memo, link: Link)
    returns (b: Acc, flow: Flow, memo: Memo)
    requires Spent(w, mounts, a, inspected)
    ensures (b, flow) == LinkStep(w, mounts, a, unlinked, link)
    ensures flow.Next? ==> Spent(w, mounts, b, memo)
  {
    memo, b, flow := inspected, a, Next;
    if link.stat.Denied? || (link.stat.Got? && link.name.Denied?) {
      b := Fail(a);
    } else if link.stat.Got? && link.name.Got? {
      b, flow, memo := InspectOnce(w, mounts, a, unlinked, inspected, link.name.value,
                                   link.stat.value.device, link.stat.value.inode);
    }
  }

  method InspectFds(w: World, mounts: seq<Mount>, a: Acc, fds: seq<Link>)
    returns (b: Acc, unlinked: set<(nat, nat)>, flow: Flow, memo: Memo)
    ensures (b, unlinked, flow) == Fds(w, mounts, a, {}, fds, UNLINKED)
    ensures flow.Next? ==> Spent(w, mounts, b, memo)
  {
    b, unlinked, flow, memo := a, {}, Next, {};
    for i := 0 to |fds|
      invariant Spent(w, mounts, b, memo)
      invariant Fds(w, mounts, a, {}, fds, UNLINKED) == Fds(w, mounts, b, unlinked, fds[i..], UNLINKED)
    {
      assert fds[i..][1..] == fds[i + 1..];
      if fds[i].late {
        return Fail(b), unlinked, Next, memo;
      }
      if fds[i].stat.Got? && Gone(fds[i].stat.value) {
        unlinked := Remember(unlinked, fds[i].stat.value, UNLINKED);
      } else {
        b, flow, memo := InspectLink(w, mounts, b, unlinked, memo, fds[i]);
        if !flow.Next? {
          return;
        }
      }
    }
    flow := Next;
  }

  method InspectLinks(w: World, mounts: seq<Mount>, a: Acc, unlinked: set<(nat, nat)>, links: seq<Link>, inspected: Memo)
    returns (b: Acc, flow: Flow, memo: Memo)
    requires Spent(w, mounts, a, inspected)
    ensures (b, flow) == Links(w, mounts, a, unlinked, links)
    ensures flow.Next? ==> Spent(w, mounts, b, memo)
  {
    b, flow, memo := a, Next, inspected;
    for i := 0 to |links|
      invariant Spent(w, mounts, b, memo)
      invariant Links(w, mounts, a, unlinked, links) == Links(w, mounts, b, unlinked, links[i..])
    {
      assert links[i..][1..] == links[i + 1..];
      b, flow, memo := InspectLink(w, mounts, b, unlinked, memo, links[i]);
      if !flow.Next? {
        return;
      }
    }
    flow := Next;
  }

  method InspectMap(w: World, mounts: seq<Mount>, a: Acc, unlinked: set<(nat, nat)>, m: Mapping, inspected: Memo)
    returns (b: Acc, flow: Flow, memo: Memo)
    requires Spent(w, mounts, a, inspected)
    ensures (b, flow) == MapStep(w, mounts, a, unlinked, m)
    ensures flow.Next? ==> Spent(w, mounts, b, memo)
  {
    b, flow, memo := a, Next, inspected;
    if m.Garbled? {
      flow := Raise;
    } else if m.inode != 0 && m.device in w.Devices() && (m.device, m.inode) !in unlinked {
      if m.name.Absolute? && Deleted(m.name.parts) {
        if !m.valid {
          return a, Raise, memo;
        }
        if ProvenGone(m) {
          return a, Next, memo;
        }
      }
      b, flow, memo := InspectOnce(w, mounts, a, unlinked, memo, m.name, m.device, m.inode);
    }
  }

  method InspectMaps(w: World, mounts: seq<Mount>, a: Acc, unlinked: set<(nat, nat)>, lines: seq<Mapping>, inspected: Memo)
    returns (b: Acc, flow: Flow)
    requires Spent(w, mounts, a, inspected)
    ensures (b, flow) == MapLines(w, mounts, a, unlinked, lines)
  {
    var memo := inspected;
    b, flow := a, Next;
    for i := 0 to |lines|
      invariant Spent(w, mounts, b, memo)
      invariant MapLines(w, mounts, a, unlinked, lines) == MapLines(w, mounts, b, unlinked, lines[i..])
    {
      assert lines[i..][1..] == lines[i + 1..];
      b, flow, memo := InspectMap(w, mounts, b, unlinked, lines[i], memo);
      if !flow.Next? {
        return;
      }
    }
    flow := Next;
  }

  /** Candidates some mount shows a part of: every mount against every candidate. */
  method InspectBinds(w: World, mounts: seq<Mount>, a: Acc) returns (b: Acc)
    ensures b == a.(blocked := a.blocked + Bound(w, mounts))
  {
    b := a;
    for i := 0 to |mounts|
      invariant b == a.(blocked := a.blocked + Bound(w, mounts[..i]))
    {
      assert mounts[..i + 1] == mounts[..i] + [mounts[i]];
      assert Bound(w, mounts[..i + 1]) == Bound(w, mounts[..i]) + Holding(w, mounts[i].device, mounts[i].root);
      b := b.(blocked := b.blocked + Holding(w, mounts[i].device, mounts[i].root));
    }
    assert mounts[..|mounts|] == mounts;
  }

  method InspectTask(w: World, mounts: seq<Mount>, a: Acc, task: Task) returns (b: Acc, stop: bool)
    ensures (b, stop) == References(w, mounts, a, task, UNLINKED)
  {
    b := InspectBinds(w, mounts, a);
    stop := false;
    if task.fds.Vanished? {
      return;
    } else if task.fds.Denied? {
      return Fail(b), false;
    }
    var unlinked, flow, memo;
    b, unlinked, flow, memo := InspectFds(w, mounts, b, task.fds.value);
    if flow.Raise? {
      return Fail(b), false;
    }
    b, flow, memo := InspectLinks(w, mounts, b, unlinked, task.links, memo);
    if flow.Raise? {
      return Fail(b), false;
    }
    b, stop := InspectMemory(w, mounts, b, unlinked, task, memo);
  }

  method InspectMemory(w: World, mounts: seq<Mount>, a: Acc, unlinked: set<(nat, nat)>, task: Task, memo: Memo)
    returns (b: Acc, stop: bool)
    requires Spent(w, mounts, a, memo)
    ensures (b, stop) == MapsOf(w, mounts, a, unlinked, task)
  {
    b, stop := a, false;
    match task.maps {
      case Vanished =>
      case Denied => b := Fail(a);
      case Got(Oversized) => b, stop := Fail(a), true;
      case Got(Lines(lines)) =>
        var flow;
        b, flow := InspectMaps(w, mounts, a, unlinked, lines, memo);
        if flow.Raise? {
          b := Fail(b);
        } else if task.overrun {
          b, stop := Fail(b), true;
        }
    }
  }

  /** The parsed mount table, from the cache when its text is there; a full cache is emptied first. */
  method Parse(w: World, table: nat, tables: map<nat, seq<Mount>>, bytes: nat)
    returns (mounts: Option<seq<Mount>>, tables': map<nat, seq<Mount>>, bytes': nat)
    requires Cached(w, tables)
    ensures mounts == Parsed(w, table) && Cached(w, tables')
  {
    tables', bytes' := tables, bytes;
    if table in tables {
      return Some(tables[table]), tables', bytes';
    }
    if table !in w.tables || w.tables[table].mounts == None {
      return None, tables', bytes';
    }
    mounts := Some(SortMounts(w.tables[table].mounts.value));
    if |tables| >= CACHED_TABLES || bytes + w.tables[table].size > CACHED_BYTES {
      tables', bytes' := map[], 0;
    }
    tables', bytes' := tables'[table := mounts.value], bytes' + w.tables[table].size;
  }

  /** The whole query: its memories of mount tables and inspected references never change the report. */
  method CollectDirectories(w: World, tasks: seq<Task>) returns (report: Acc)
    ensures report == Report(w, Acc({}, true), tasks, 0, 4096)
  {
    report := Acc({}, true);
    var tables: map<nat, seq<Mount>>, bytes := map[], 0;
    for k := 0 to |tasks|
      invariant Cached(w, tables)
      invariant Report(w, Acc({}, true), tasks, 0, UNLINKED) == Report(w, report, tasks[k..], k, UNLINKED)
    {
      assert tasks[k..][1..] == tasks[k + 1..];
      if k >= PROCESSES {
        return Fail(report);
      }
      var stop;
      report, stop, tables, bytes := CollectTask(w, report, tasks[k], tables, bytes);
      if stop {
        return;
      }
    }
  }

  method CollectTask(w: World, a: Acc, task: Task, tables: map<nat, seq<Mount>>, bytes: nat)
    returns (b: Acc, stop: bool, tables': map<nat, seq<Mount>>, bytes': nat)
    requires Cached(w, tables)
    ensures (b, stop) == TaskReport(w, a, task, UNLINKED) && Cached(w, tables')
  {
    b, stop, tables', bytes' := a, false, tables, bytes;
    if task.late {
      b, stop := Fail(a), true;
    } else if task.status.Denied? {
      b := Fail(a);
    } else if task.status == Got(Large) {
      b, stop := Fail(a), true;
    } else if task.status == Got(Live) {
      match task.table {
        case Vanished =>
        case Denied => b := Fail(a);
        case Got(table) =>
          if task.tableLarge {
            b, stop := Fail(a), true;
          } else {
            var mounts;
            mounts, tables', bytes' := Parse(w, table, tables, bytes);
            if mounts == None {
              b := Fail(a);
            } else {
              b, stop := InspectTask(w, mounts.value, a, task);
            }
          }
      }
    }
  }
}
