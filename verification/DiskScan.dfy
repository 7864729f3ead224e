/** The incremental disk scan as a step function: a stack of open directories, one entry per step, so
    that cutting the scan into slices cannot matter. What a complete scan adds up is proved to be every
    reachable inode once. */
module DiskScan {

  type Inode = nat

  datatype Child = Child(name: string, inode: Inode)

  /** `Closed` cannot be opened; a `broken` listing fails after its children. */
  datatype Listing = Closed | Listing(children: seq<Child>, broken: bool)

  datatype Kind = Directory(listing: Listing) | Regular | Symlink | Special

  datatype Info = Info(kind: Kind, device: nat, size: nat, links: nat)

  /** Every inode that can be looked at; looking at any other fails. */
  type Disk = map<Inode, Info>

  datatype Root = Root(text: string, inode: Inode)

  datatype Policy = Policy(device: nat, roots: seq<Root>, maxInodes: nat)

  datatype Bucket = Bucket(root: string, parts: seq<string>)

  datatype Frame = Frame(dir: Inode, root: string, text: string, parts: seq<string>, pos: nat)

  datatype Sized = Sized(size: nat, text: string)

  datatype Scan = Scan(
    stack: seq<Frame>, seen: set<Inode>, sizes: map<Bucket, nat>, files: seq<Sized>, denied: nat, count: nat)

  const MAX_OPEN: nat := 64
  const LISTED: nat := 12

  // ---- The largest files ----

  /** Order of character strings. */
  predicate TextLess(a: string, b: string) {
    if a == [] then b != []
    else b != [] && (a[0] < b[0] || (a[0] == b[0] && TextLess(a[1..], b[1..])))
  }

  predicate AtMost(a: Sized, b: Sized) {
    a.size < b.size || (a.size == b.size && !TextLess(b.text, a.text))
  }

  /** One text is the start of the other, or is smaller at the first place they differ. */
  ghost predicate Precedes(a: string, b: string) {
    exists k: nat :: DiffersAt(a, b, k)
  }

  predicate DiffersAt(a: string, b: string, k: nat) {
    && k <= |a| && k < |b| && a[..k] == b[..k] && (k < |a| ==> a[k] < b[k])
  }

  lemma {:induction false} TextLessExactly(a: string, b: string)
    ensures TextLess(a, b) <==> Precedes(a, b)
    decreases |a|
  {
    forall k: nat | 0 < k <= |a| && k <= |b| && a[..k] == b[..k] ensures a[0] == b[0] {
      assert a[..k][0] == b[..k][0];
    }
    if a == [] || b == [] || a[0] != b[0] {
      assert b != [] && (a == [] || a[0] < b[0]) ==> DiffersAt(a, b, 0);
    } else {
      TextLessExactly(a[1..], b[1..]);
      forall k: nat ensures DiffersAt(a, b, k + 1) <==> DiffersAt(a[1..], b[1..], k) {
        assert k + 1 <= |a| && k + 1 <= |b| ==> a[..k + 1] == [a[0]] + a[1..][..k] && b[..k + 1] == [b[0]] + b[1..][..k];
        assert k < |a[1..]| && k < |b[1..]| ==> a[1..][k] == a[k + 1] && b[1..][k] == b[k + 1];
      }
      SmallerLater(a, b);
    }
  }

  lemma SmallerLater(a: string, b: string)
    requires a != [] && b != [] && a[0] == b[0]
    requires forall k: nat {:trigger DiffersAt(a[1..], b[1..], k)} :: DiffersAt(a, b, k + 1) <==> DiffersAt(a[1..], b[1..], k)
    ensures Precedes(a, b) <==> Precedes(a[1..], b[1..])
  {
    if Precedes(a, b) {
      var k: nat :| DiffersAt(a, b, k);
      assert k > 0 && DiffersAt(a[1..], b[1..], k - 1);
    }
  }

  /** Files are ordered by their size and then by their text. */
  lemma AtMostExactly(a: Sized, b: Sized)
    ensures AtMost(a, b) <==> a.size < b.size || (a.size == b.size && !Precedes(b.text, a.text))
  {
    TextLessExactly(b.text, a.text);
  }

  lemma {:induction false} TextTotal(a: string, b: string)
    ensures TextLess(a, b) ==> !TextLess(b, a)
    decreases |a|
  {
    if a != [] && b != [] {
      TextTotal(a[1..], b[1..]);
    }
  }

  lemma {:induction false} TextTransitive(a: string, b: string, c: string)
    requires !TextLess(b, a) && !TextLess(c, b)
    ensures !TextLess(c, a)
    decreases |a|
  {
    if a != [] && b != [] && c != [] && a[0] == b[0] == c[0] {
      TextTransitive(a[1..], b[1..], c[1..]);
    }
  }

  lemma AtMostOrder(a: Sized, b: Sized, c: Sized)
    ensures AtMost(a, b) || AtMost(b, a)
    ensures AtMost(a, b) && AtMost(b, c) ==> AtMost(a, c)
  {
    TextTotal(a.text, b.text);
    if AtMost(a, b) && AtMost(b, c) && a.size == b.size == c.size {
      TextTransitive(a.text, b.text, c.text);
    }
  }

  /** The heap's content in increasing order with one more file. */
  function Insert(files: seq<Sized>, f: Sized): seq<Sized> {
    if files == [] then [f]
    else if AtMost(f, files[0]) then [f] + files
    else [files[0]] + Insert(files[1..], f)
  }

  /** Pushes a file and drops the smallest once more than twelve are kept. */
  function Push(files: seq<Sized>, f: Sized): seq<Sized> {
    var more := Insert(files, f);
    if |more| > LISTED then more[1..] else more
  }

  predicate Sorted(files: seq<Sized>) {
    forall i, j :: 0 <= i < j < |files| ==> AtMost(files[i], files[j])
  }

  lemma {:induction false} InsertContent(files: seq<Sized>, f: Sized)
    ensures multiset(Insert(files, f)) == multiset(files) + multiset{f} && |Insert(files, f)| == |files| + 1
  {
    if files != [] {
      assert files == [files[0]] + files[1..];
      if !AtMost(f, files[0]) {
        InsertContent(files[1..], f);
      }
    }
  }

  lemma {:induction false} InsertSorted(files: seq<Sized>, f: Sized)
    requires Sorted(files)
    ensures Sorted(Insert(files, f))
  {
    if files != [] {
      AtMostOrder(f, files[0], f);
      if AtMost(f, files[0]) {
        forall j | 0 <= j < |files| ensures AtMost(f, files[j]) {
          AtMostOrder(f, files[0], files[j]);
        }
      } else {
        InsertSorted(files[1..], f);
        InsertContent(files[1..], f);
        var rest := Insert(files[1..], f);
        forall j | 0 <= j < |rest| ensures AtMost(files[0], rest[j]) {
          assert rest[j] in multiset(files[1..]) + multiset{f};
        }
      }
    }
  }

  /** The kept files are the largest of all: none left out is larger, and none is left out while there
      is room. */
  ghost predicate Largest(files: seq<Sized>, all: seq<Sized>) {
    Sorted(files) && |files| <= 12 && exists rest :: Divides(files, rest, all)
  }

  ghost predicate Divides(files: seq<Sized>, rest: multiset<Sized>, all: seq<Sized>) {
    && multiset(all) == multiset(files) + rest
    && (rest != multiset{} ==> |files| == 12)
    && forall x, y :: x in rest && y in files ==> AtMost(x, y)
  }

  lemma PushLargest(files: seq<Sized>, all: seq<Sized>, f: Sized)
    requires Largest(files, all)
    ensures Largest(Push(files, f), all + [f])
  {
    var rest :| Divides(files, rest, all);
    InsertSorted(files, f);
    InsertContent(files, f);
    var more := Insert(files, f);
    if |more| <= LISTED {
      assert Divides(more, rest, all + [f]);
    } else {
      PushDivides(files, rest, all, f);
      assert Divides(more[1..], rest + multiset{more[0]}, all + [f]);
    }
  }

  lemma PushDivides(files: seq<Sized>, rest: multiset<Sized>, all: seq<Sized>, f: Sized)
    requires Sorted(files) && |files| == LISTED && Divides(files, rest, all)
    ensures var more := Insert(files, f);
            |more| == LISTED + 1 && Divides(more[1..], rest + multiset{more[0]}, all + [f])
  {
    InsertSorted(files, f);
    InsertContent(files, f);
    var more := Insert(files, f);
    assert more == [more[0]] + more[1..];
    assert multiset(more) == multiset{more[0]} + multiset(more[1..]);
    assert multiset(all + [f]) == multiset(files) + rest + multiset{f} == multiset(more) + rest;
    forall x, y | x in rest + multiset{more[0]} && y in more[1..] ensures AtMost(x, y) {
      DroppedSmallest(files, rest, f, x, y);
    }
  }

  /** What is dropped or was left out before is no larger than what stays. */
  lemma DroppedSmallest(files: seq<Sized>, rest: multiset<Sized>, f: Sized, x: Sized, y: Sized)
    requires Sorted(files) && |files| == LISTED
    requires forall a, b :: a in rest && b in files ==> AtMost(a, b)
    requires var more := Insert(files, f); |more| > 0 && (x in rest || x == more[0]) && y in more[1..]
    ensures AtMost(x, y)
  {
    InsertSorted(files, f);
    InsertContent(files, f);
    var more := Insert(files, f);
    var j :| 1 <= j < |more| && more[j] == y;
    if x != more[0] && y !in files {
      assert more == [more[0]] + more[1..];
      assert y in multiset(files) + multiset{f} && more[0] in multiset(files) + multiset{f};
      assert more[0] in files;
      AtMostOrder(x, more[0], y);
    } else if x != more[0] {
      assert x in rest;
    }
  }

  // ---- One step ----

  function Join(text: string, name: string): string {
    if text != [] && text[|text| - 1] == '/' then text + name else text + "/" + name
  }

  function Denied(s: Scan): Scan {
    s.(denied := s.denied + 1)
  }

  /** Opens a directory; at most 64 are open at once. */
  function Enter(s: Scan, disk: Disk, inode: Inode, root: string, text: string, parts: seq<string>): Scan {
    if |s.stack| >= MAX_OPEN || inode !in disk || !disk[inode].kind.Directory? || disk[inode].kind.listing.Closed?
    then Denied(s)
    else s.(stack := s.stack + [Frame(inode, root, text, parts, 0)])
  }

  /** The roots of the scanned device, in order. */
  function EnterRoots(s: Scan, disk: Disk, policy: Policy, n: nat): Scan
    requires n <= |policy.roots|
  {
    if n == 0 then s
    else
      var before := EnterRoots(s, disk, policy, n - 1);
      var root := policy.roots[n - 1];
      if root.inode !in disk then Denied(before)
      else if disk[root.inode].device != policy.device then before
      else Enter(before, disk, root.inode, root.text, root.text, [])
  }

  const Empty := Scan([], {}, map[], [], 0, 0)

  function Begin(disk: Disk, policy: Policy): Scan {
    EnterRoots(Empty, disk, policy, |policy.roots|)
  }

  /** An entry that takes part: it can be looked at, lies on the device and is no symbolic link. */
  predicate Countable(disk: Disk, policy: Policy, inode: Inode) {
    inode in disk && disk[inode].device == policy.device && !disk[inode].kind.Symlink?
  }

  /** Directories and files with several names are remembered. */
  predicate Tracked(info: Info) {
    info.kind.Directory? || info.links > 1
  }

  function Take2(parts: seq<string>): seq<string> {
    if |parts| <= 2 then parts else parts[..2]
  }

  function BucketOf(f: Frame, name: string, info: Info): Bucket {
    Bucket(f.root, Take2(if info.kind.Directory? then f.parts + [name] else f.parts))
  }

  function SizeIn(sizes: map<Bucket, nat>, b: Bucket): nat {
    if b in sizes then sizes[b] else 0
  }

  /** Adds one inode that has not been counted. */
  function Add(s: Scan, disk: Disk, policy: Policy, f: Frame, child: Child): Scan
    requires child.inode in disk
  {
    var info := disk[child.inode];
    var bucket := BucketOf(f, child.name, info);
    var text := Join(f.text, child.name);
    var added := s.(
      seen := if Tracked(info) then s.seen + {child.inode} else s.seen,
      sizes := s.sizes[bucket := SizeIn(s.sizes, bucket) + info.size]);
    var entered :=
      if info.kind.Directory? then Enter(added, disk, child.inode, f.root, text, f.parts + [child.name])
      else if info.kind.Regular? then added.(files := Push(added.files, Sized(info.size, text)))
      else added;
    if |entered.seen| >= policy.maxInodes then Denied(entered.(stack := [])) else entered
  }

  function Visit(s: Scan, disk: Disk, policy: Policy, f: Frame, child: Child): Scan {
    if child.inode !in disk then Denied(s)
    else if !Countable(disk, policy, child.inode) || child.inode in s.seen then s
    else Add(s, disk, policy, f, child)
  }

  /** What the open directory still lists; a name that is no readable directory lists nothing. */
  function Children(disk: Disk, dir: Inode): seq<Child> {
    if dir in disk && disk[dir].kind.Directory? && disk[dir].kind.listing.Listing? then disk[dir].kind.listing.children
    else []
  }

  predicate Broken(disk: Disk, dir: Inode) {
    dir in disk && disk[dir].kind.Directory? && disk[dir].kind.listing.Listing? && disk[dir].kind.listing.broken
  }

  /** The innermost directory has read one more entry. */
  function Moved(stack: seq<Frame>): (moved: seq<Frame>)
    requires stack != []
    ensures |moved| == |stack|
  {
    var f := stack[|stack| - 1];
    stack[|stack| - 1 := f.(pos := f.pos + 1)]
  }

  /** One turn of the loop: the next entry of the innermost open directory, or its end. */
  function Step(s: Scan, disk: Disk, policy: Policy): Scan {
    if s.stack == [] then s
    else
      var rest, f := s.stack[..|s.stack| - 1], s.stack[|s.stack| - 1];
      if f.pos < |Children(disk, f.dir)| then
        Visit(s.(stack := Moved(s.stack), count := s.count + 1), disk, policy, f, Children(disk, f.dir)[f.pos])
      else if Broken(disk, f.dir) then Denied(s.(stack := rest))
      else s.(stack := rest)
  }

  function Run(s: Scan, disk: Disk, policy: Policy, n: nat): Scan {
    if n == 0 then s else Step(Run(s, disk, policy, n - 1), disk, policy)
  }

  /** Slices add up. */
  lemma {:induction false} RunAdds(s: Scan, disk: Disk, policy: Policy, m: nat, n: nat)
    ensures Run(Run(s, disk, policy, m), disk, policy, n) == Run(s, disk, policy, m + n)
    decreases n
  {
    if n > 0 {
      RunAdds(s, disk, policy, m, n - 1);
      assert Run(s, disk, policy, m + n) == Step(Run(s, disk, policy, m + n - 1), disk, policy);
    }
  }

  /** Two runs that both come to an end end alike, however many turns each took. */
  lemma {:induction false} EndsAlike(s: Scan, disk: Disk, policy: Policy, m: nat, n: nat)
    requires m <= n && Run(s, disk, policy, m).stack == []
    ensures Run(s, disk, policy, n) == Run(s, disk, policy, m)
    decreases n
  {
    if m < n {
      EndsAlike(s, disk, policy, m, n - 1);
    }
  }

  lemma StepDenies(s: Scan, disk: Disk, policy: Policy)
    ensures Step(s, disk, policy).denied >= s.denied
  {
  }
}
