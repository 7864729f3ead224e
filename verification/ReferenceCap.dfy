/** Remembering fewer unlinked files makes a report only more cautious. */
module ReferenceCap {
  import opened ReferenceModel
  import opened ReferenceProof

  /** `few` remembers at most `cap` of the files `many` remembers, and differs from it only when full. */
  predicate Fewer(few: set<(nat, nat)>, many: set<(nat, nat)>, cap: nat) {
    few <= many && (few == many || |few| >= cap)
  }

  /** At least as cautious: everything blocked there is blocked here, and complete only if that is. */
  predicate Cautious(a: Acc, b: Acc) {
    b.blocked <= a.blocked && (a.complete ==> b.complete)
  }

  lemma ReferenceCautious(w: World, mounts: seq<Mount>, a: Acc, b: Acc, few: set<(nat, nat)>, many: set<(nat, nat)>,
                          raw: Raw, device: nat, inode: nat)
    requires Cautious(a, b) && few <= many
    requires Reference(w, mounts, a, few, raw, device, inode).1.Next?
    ensures Reference(w, mounts, b, many, raw, device, inode).1.Next?
    ensures Cautious(Reference(w, mounts, a, few, raw, device, inode).0, Reference(w, mounts, b, many, raw, device, inode).0)
  {
  }

  lemma LinkCautious(w: World, mounts: seq<Mount>, a: Acc, b: Acc, few: set<(nat, nat)>, many: set<(nat, nat)>, link: Link)
    requires Cautious(a, b) && few <= many && LinkStep(w, mounts, a, few, link).1.Next?
    ensures LinkStep(w, mounts, b, many, link).1.Next?
    ensures Cautious(LinkStep(w, mounts, a, few, link).0, LinkStep(w, mounts, b, many, link).0)
  {
    if link.stat.Got? && link.name.Got? {
      ReferenceCautious(w, mounts, a, b, few, many, link.name.value, link.stat.value.device, link.stat.value.inode);
    }
  }

  lemma {:induction false} FdsCautious(w: World, mounts: seq<Mount>, a: Acc, b: Acc, few: set<(nat, nat)>,
                                       many: set<(nat, nat)>, fds: seq<Link>, cap: nat, more: nat)
    requires Cautious(a, b) && cap <= more && Fewer(few, many, cap)
    requires !Fds(w, mounts, a, few, fds, cap).2.Raise?
    ensures var r, s := Fds(w, mounts, a, few, fds, cap), Fds(w, mounts, b, many, fds, more);
            !s.2.Raise? && Cautious(r.0, s.0) && Fewer(r.1, s.1, cap)
    decreases |fds|
  {
    if fds != [] && !fds[0].late {
      if fds[0].stat.Got? && Gone(fds[0].stat.value) {
        var stat := fds[0].stat.value;
        FdsCautious(w, mounts, a, b, Remember(few, stat, cap), Remember(many, stat, more), fds[1..], cap, more);
      } else {
        LinkCautious(w, mounts, a, b, few, many, fds[0]);
        FdsCautious(w, mounts, LinkStep(w, mounts, a, few, fds[0]).0, LinkStep(w, mounts, b, many, fds[0]).0,
                    few, many, fds[1..], cap, more);
      }
    }
  }

  lemma {:induction false} LinksCautious(w: World, mounts: seq<Mount>, a: Acc, b: Acc, few: set<(nat, nat)>,
                                         many: set<(nat, nat)>, links: seq<Link>)
    requires Cautious(a, b) && few <= many && !Links(w, mounts, a, few, links).1.Raise?
    ensures var r, s := Links(w, mounts, a, few, links), Links(w, mounts, b, many, links);
            !s.1.Raise? && Cautious(r.0, s.0)
    decreases |links|
  {
    if links != [] {
      LinkCautious(w, mounts, a, b, few, many, links[0]);
      LinksCautious(w, mounts, LinkStep(w, mounts, a, few, links[0]).0, LinkStep(w, mounts, b, many, links[0]).0,
                    few, many, links[1..]);
    }
  }

  lemma {:induction false} MapsCautious(w: World, mounts: seq<Mount>, a: Acc, b: Acc, few: set<(nat, nat)>,
                                        many: set<(nat, nat)>, lines: seq<Mapping>)
    requires Cautious(a, b) && few <= many && !MapLines(w, mounts, a, few, lines).1.Raise?
    ensures var r, s := MapLines(w, mounts, a, few, lines), MapLines(w, mounts, b, many, lines);
            !s.1.Raise? && Cautious(r.0, s.0)
    decreases |lines|
  {
    if lines != [] {
      var m := lines[0];
      if m.Mapping? && MapStep(w, mounts, a, few, m) == Reference(w, mounts, a, few, m.name, m.device, m.inode) {
        ReferenceCautious(w, mounts, a, b, few, many, m.name, m.device, m.inode);
      }
      MapsCautious(w, mounts, MapStep(w, mounts, a, few, m).0, MapStep(w, mounts, b, many, m).0, few, many, lines[1..]);
    }
  }

  lemma TaskCautious(w: World, a: Acc, b: Acc, task: Task, cap: nat, more: nat)
    requires Cautious(a, b) && cap <= more && TaskReport(w, a, task, cap).0.complete
    ensures var r, s := TaskReport(w, a, task, cap), TaskReport(w, b, task, more);
            Cautious(r.0, s.0) && s.1 == r.1
  {
    if task.status == Got(Live) && task.table.Got? && Parsed(w, task.table.value).Some? && task.fds.Got? {
      var mounts := Parsed(w, task.table.value).value;
      var a', b' := a.(blocked := a.blocked + Bound(w, mounts)), b.(blocked := b.blocked + Bound(w, mounts));
      var r, s := Fds(w, mounts, a', {}, task.fds.value, cap), Fds(w, mounts, b', {}, task.fds.value, more);
      FdsCautious(w, mounts, a', b', {}, {}, task.fds.value, cap, more);
      LinksCautious(w, mounts, r.0, s.0, r.1, s.1, task.links);
      var c, d := Links(w, mounts, r.0, r.1, task.links).0, Links(w, mounts, s.0, s.1, task.links).0;
      if task.maps.Got? && task.maps.value.Lines? {
        MapsCautious(w, mounts, c, d, r.1, s.1, task.maps.value.lines);
      }
    }
  }

  /** A complete report made with a smaller memory blocks at least as much as one with a larger memory,
      which is complete too. */
  lemma {:induction false} CapCautious(w: World, a: Acc, b: Acc, tasks: seq<Task>, met: nat, cap: nat, more: nat)
    requires Cautious(a, b) && cap <= more && Report(w, a, tasks, met, cap).complete
    ensures Cautious(Report(w, a, tasks, met, cap), Report(w, b, tasks, met, more))
    decreases |tasks|
  {
    if tasks != [] {
      var (r, stop) := TaskReport(w, a, tasks[0], cap);
      if r.complete {
        TaskCautious(w, a, b, tasks[0], cap, more);
      }
      if !stop {
        ReportGrows(w, r, tasks[1..], met + 1, cap);
        CapCautious(w, r, TaskReport(w, b, tasks[0], more).0, tasks[1..], met + 1, cap, more);
      }
    }
  }
}
