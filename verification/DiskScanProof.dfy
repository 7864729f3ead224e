/** A scan that ends without an error or a limit hit has counted every inode reachable below the roots
    exactly once. */
module DiskScanProof {
  import opened DiskScan

  /** One counted inode, with the name it was found under. */
  datatype Found = Found(inode: Inode, bucket: Bucket, size: nat, text: string)

  // ---- What is there to count ----

  /** An inode that can be looked at, lies on the scanned device and is no symbolic link. */
  predicate TakesPart(disk: Disk, policy: Policy, inode: Inode) {
    inode in disk && disk[inode].device == policy.device && disk[inode].kind != Symlink
  }

  /** The directory can be opened and read. */
  predicate Readable(disk: Disk, dir: Inode) {
    dir in disk && disk[dir].kind.Directory? && disk[dir].kind.listing.Listing?
  }

  /** Its entry number `k` is of that inode. */
  predicate Lists(disk: Disk, dir: Inode, k: nat, inode: Inode) {
    && Readable(disk, dir)
    && k < |disk[dir].kind.listing.children| && disk[dir].kind.listing.children[k].inode == inode
  }

  ghost predicate IsChild(disk: Disk, policy: Policy, dir: Inode, inode: Inode) {
    TakesPart(disk, policy, inode) && exists k: nat :: Lists(disk, dir, k, inode)
  }

  /** The roots of the scanned device. */
  function RootInodes(disk: Disk, policy: Policy, n: nat): set<Inode>
    requires n <= |policy.roots|
  {
    set i: nat | i < n && policy.roots[i].inode in disk && disk[policy.roots[i].inode].device == policy.device
      :: policy.roots[i].inode
  }

  function AllRoots(disk: Disk, policy: Policy): set<Inode> {
    RootInodes(disk, policy, |policy.roots|)
  }

  ghost predicate Chain(disk: Disk, policy: Policy, c: seq<Inode>) {
    && |c| >= 2 && c[0] in AllRoots(disk, policy)
    && forall j :: 0 < j < |c| ==> IsChild(disk, policy, c[j - 1], c[j])
  }

  /** Below a root, through directories of the device and no symbolic link. */
  ghost predicate Reachable(disk: Disk, policy: Policy, inode: Inode) {
    exists c :: Chain(disk, policy, c) && c[|c| - 1] == inode
  }

  predicate HasOneName(disk: Disk, inode: Inode) {
    inode in disk && !disk[inode].kind.Directory? && disk[inode].links <= 1
  }

  /** A file with one name is listed once, and the roots are distinct and none lies below another. */
  ghost predicate WellFormed(disk: Disk, policy: Policy) {
    && (forall inode, d, e, k: nat, m: nat ::
          HasOneName(disk, inode) && Lists(disk, d, k, inode) && Lists(disk, e, m, inode) ==> d == e && k == m)
    && (forall i, j :: 0 <= i < j < |policy.roots| ==> policy.roots[i].inode != policy.roots[j].inode)
    && (forall r :: r in AllRoots(disk, policy) ==> !Reachable(disk, policy, r))
  }

  lemma ChildReachable(disk: Disk, policy: Policy, dir: Inode, inode: Inode)
    requires dir in AllRoots(disk, policy) || Reachable(disk, policy, dir)
    requires IsChild(disk, policy, dir, inode)
    ensures Reachable(disk, policy, inode)
  {
    if dir in AllRoots(disk, policy) {
      assert Chain(disk, policy, [dir, inode]);
    } else {
      var c :| Chain(disk, policy, c) && c[|c| - 1] == dir;
      var d := c + [inode];
      forall j | 0 < j < |d| ensures IsChild(disk, policy, d[j - 1], d[j]) {
        assert j < |c| ==> IsChild(disk, policy, c[j - 1], c[j]);
      }
      assert Chain(disk, policy, d);
    }
  }

  // ---- Where an inode lies ----

  /** Named entries lead from a root of the device through `dirs`. */
  ghost predicate Trail(disk: Disk, policy: Policy, root: Root, dirs: seq<Inode>, names: seq<string>) {
    && |dirs| == |names| + 1 && root in policy.roots && dirs[0] == root.inode && root.inode in AllRoots(disk, policy)
    && forall j :: 0 <= j < |names| ==> Names(disk, policy, dirs, names, j)
  }

  ghost predicate Names(disk: Disk, policy: Policy, dirs: seq<Inode>, names: seq<string>, j: nat)
    requires j < |names| < |dirs|
  {
    && Readable(disk, dirs[j]) && Child(names[j], dirs[j + 1]) in disk[dirs[j]].kind.listing.children
    && TakesPart(disk, policy, dirs[j + 1])
  }

  /** A path below a root's own text, with a slash before each name unless one is there already. */
  function Spelled(text: string, names: seq<string>): string {
    if names == [] then text
    else
      var above, name := Spelled(text, names[..|names| - 1]), names[|names| - 1];
      above + (if above != [] && above[|above| - 1] == '/' then "" else "/") + name
  }

  /** The directory an inode's size is added to: the root, or one at most two levels below it, that is the inode
      or holds it. */
  function Above(names: seq<string>, isDirectory: bool): seq<string>
    requires names != []
  {
    var parts := if isDirectory then names else names[..|names| - 1];
    parts[..if |parts| < 2 then |parts| else 2]
  }

  /** The inode lies where its text says, and its bucket is the directory there that it is summed under. */
  ghost predicate Located(disk: Disk, policy: Policy, f: Found) {
    exists root, dirs, names :: LiesAt(disk, policy, f, root, dirs, names)
  }

  ghost predicate LiesAt(disk: Disk, policy: Policy, f: Found, root: Root, dirs: seq<Inode>, names: seq<string>) {
    && Trail(disk, policy, root, dirs, names) && names != [] && dirs[|names|] == f.inode && f.inode in disk
    && f.text == Spelled(root.text, names)
    && f.bucket == Bucket(root.text, Above(names, disk[f.inode].kind.Directory?))
  }

  /** So does an open directory. */
  ghost predicate Opened(disk: Disk, policy: Policy, f: Frame) {
    exists root, dirs :: Trail(disk, policy, root, dirs, f.parts) && dirs[|f.parts|] == f.dir
      && f.root == root.text && f.text == Spelled(root.text, f.parts)
  }

  lemma TrailOn(disk: Disk, policy: Policy, root: Root, dirs: seq<Inode>, names: seq<string>, child: Child)
    requires Trail(disk, policy, root, dirs, names)
    requires child in Children(disk, dirs[|names|]) && TakesPart(disk, policy, child.inode)
    ensures Trail(disk, policy, root, dirs + [child.inode], names + [child.name])
  {
    var more, all := dirs + [child.inode], names + [child.name];
    forall j | 0 <= j < |all| ensures Names(disk, policy, more, all, j) {
      assert j < |names| ==> Names(disk, policy, dirs, names, j);
    }
  }

  lemma SpelledOn(text: string, names: seq<string>, name: string)
    ensures Spelled(text, names + [name]) == Join(Spelled(text, names), name)
  {
    assert (names + [name])[..|names|] == names;
  }

  /** What is found in an open directory lies below it, and is opened there if it is a directory. */
  lemma FoundLocated(disk: Disk, policy: Policy, f: Frame, child: Child)
    requires Opened(disk, policy, f) && child in Children(disk, f.dir) && TakesPart(disk, policy, child.inode)
    ensures Located(disk, policy, FoundAt(disk, f, child))
    ensures Opened(disk, policy, Entered(f, child))
  {
    var root, dirs :| Trail(disk, policy, root, dirs, f.parts) && dirs[|f.parts|] == f.dir
      && f.root == root.text && f.text == Spelled(root.text, f.parts);
    TrailOn(disk, policy, root, dirs, f.parts, child);
    SpelledOn(root.text, f.parts, child.name);
    assert LiesAt(disk, policy, FoundAt(disk, f, child), root, dirs + [child.inode], f.parts + [child.name]);
    var g := Entered(f, child);
    assert Trail(disk, policy, root, dirs + [child.inode], g.parts);
  }

  /** Open directories and counted inodes lie where they say. */
  ghost predicate Placed(stack: seq<Frame>, disk: Disk, policy: Policy, found: seq<Found>) {
    && (forall i :: 0 <= i < |stack| ==> Opened(disk, policy, stack[i]))
    && (forall f :: f in found ==> Located(disk, policy, f))
  }

  lemma MovedPlaced(stack: seq<Frame>, disk: Disk, policy: Policy, found: seq<Found>)
    requires stack != [] && Placed(stack, disk, policy, found)
    ensures Placed(Moved(stack), disk, policy, found)
  {
    var f, more := stack[|stack| - 1], Moved(stack);
    assert Opened(disk, policy, f);
    assert Opened(disk, policy, more[|stack| - 1]) by {
      var root, dirs :| Trail(disk, policy, root, dirs, f.parts) && dirs[|f.parts|] == f.dir
        && f.root == root.text && f.text == Spelled(root.text, f.parts);
      assert Trail(disk, policy, root, dirs, more[|stack| - 1].parts);
    }
    forall i | 0 <= i < |more| ensures Opened(disk, policy, more[i]) {
      assert i < |stack| - 1 ==> more[i] == stack[i];
    }
  }

  lemma CountPlaced(stack: seq<Frame>, disk: Disk, policy: Policy, found: seq<Found>, f: Frame, child: Child)
    requires stack != [] && f == stack[|stack| - 1] && Placed(stack, disk, policy, found)
    requires child in Children(disk, f.dir) && TakesPart(disk, policy, child.inode)
    ensures Placed(Moved(stack), disk, policy, found + [FoundAt(disk, f, child)])
    ensures Placed(Moved(stack) + [Entered(f, child)], disk, policy, found + [FoundAt(disk, f, child)])
  {
    MovedPlaced(stack, disk, policy, found);
    FoundLocated(disk, policy, f, child);
  }

  // ---- The invariant; `progress` tells how far each opened directory has been read ----

  type Progress = map<Inode, nat>

  ghost predicate OnStack(stack: seq<Frame>, d: Inode) {
    exists i :: 0 <= i < |stack| && stack[i].dir == d
  }

  ghost predicate Frames(stack: seq<Frame>, disk: Disk, progress: Progress) {
    && (forall i :: 0 <= i < |stack| ==>
          stack[i].dir in progress && progress[stack[i].dir] == stack[i].pos <= |Children(disk, stack[i].dir)|)
    && (forall i, j :: 0 <= i < j < |stack| ==> stack[i].dir != stack[j].dir)
    && (forall d :: d in progress && !OnStack(stack, d) ==> progress[d] == |Children(disk, d)|)
  }

  /** Every opened directory can be read, and none that has been read to its end has failed. */
  ghost predicate Sound(stack: seq<Frame>, disk: Disk, progress: Progress) {
    forall d :: d in progress ==> Readable(disk, d) && (disk[d].kind.listing.broken ==> OnStack(stack, d))
  }

  lemma SoundMove(stack: seq<Frame>, disk: Disk, progress: Progress, n: nat)
    requires stack != [] && stack[|stack| - 1].dir in progress && Sound(stack, disk, progress)
    ensures Sound(Moved(stack), disk, progress[stack[|stack| - 1].dir := n])
  {
    var more := Moved(stack);
    forall d | OnStack(stack, d) ensures OnStack(more, d) {
      var i :| 0 <= i < |stack| && stack[i].dir == d;
      assert more[i].dir == d;
    }
  }

  lemma SoundPush(stack: seq<Frame>, disk: Disk, progress: Progress, f: Frame)
    requires Sound(stack, disk, progress) && Readable(disk, f.dir)
    ensures Sound(stack + [f], disk, progress[f.dir := 0])
  {
    var more := stack + [f];
    assert more[|stack|].dir == f.dir;
    forall d | OnStack(stack, d) ensures OnStack(more, d) {
      var i :| 0 <= i < |stack| && stack[i].dir == d;
      assert more[i].dir == d;
    }
  }

  lemma SoundPop(stack: seq<Frame>, disk: Disk, progress: Progress)
    requires stack != [] && Sound(stack, disk, progress)
    requires Readable(disk, stack[|stack| - 1].dir) && !disk[stack[|stack| - 1].dir].kind.listing.broken
    ensures Sound(stack[..|stack| - 1], disk, progress)
  {
    var rest := stack[..|stack| - 1];
    forall d | OnStack(stack, d) && d != stack[|stack| - 1].dir ensures OnStack(rest, d) {
      var i :| 0 <= i < |stack| && stack[i].dir == d;
      assert rest[i].dir == d;
    }
  }

  /** Every entry read so far is counted if it takes part. */
  ghost predicate Covers(disk: Disk, policy: Policy, ids: set<Inode>, progress: Progress) {
    forall d, k: nat, inode :: d in progress && k < progress[d] && Lists(disk, d, k, inode) ==>
      inode in disk && (TakesPart(disk, policy, inode) ==> inode in ids)
  }

  /** Everything counted has been read in an opened directory. */
  ghost predicate ReadBefore(disk: Disk, progress: Progress, inode: Inode) {
    exists d, k: nat :: d in progress && k < progress[d] && Lists(disk, d, k, inode)
  }

  predicate In(ids: set<Inode>, i: Inode) {
    i in ids
  }

  ghost predicate Grounded(disk: Disk, policy: Policy, ids: set<Inode>, progress: Progress) {
    forall i {:trigger In(ids, i)} :: In(ids, i) ==>
      TakesPart(disk, policy, i) && Reachable(disk, policy, i) && ReadBefore(disk, progress, i)
  }

  ghost predicate Opens(disk: Disk, policy: Policy, ids: set<Inode>, progress: Progress) {
    forall d :: d in progress <==> d in AllRoots(disk, policy) || (d in ids && d in disk && disk[d].kind.Directory?)
  }

  ghost predicate Remembers(disk: Disk, ids: set<Inode>, seen: set<Inode>) {
    seen <= ids && forall i :: i in ids && i in disk && Tracked(disk[i]) ==> i in seen
  }

  ghost predicate Inv(s: Scan, disk: Disk, policy: Policy, ids: set<Inode>, progress: Progress) {
    && Frames(s.stack, disk, progress) && Covers(disk, policy, ids, progress)
    && Grounded(disk, policy, ids, progress) && Opens(disk, policy, ids, progress)
    && Remembers(disk, ids, s.seen)
  }

  // ---- Sums ----

  function Ids(found: seq<Found>): set<Inode> {
    set f | f in found :: f.inode
  }

  function SumIn(found: seq<Found>, b: Bucket): nat {
    if found == [] then 0
    else SumIn(found[..|found| - 1], b) + (if found[|found| - 1].bucket == b then found[|found| - 1].size else 0)
  }

  /** The counted regular files. */
  function FilesOf(found: seq<Found>, disk: Disk): seq<Sized> {
    if found == [] then []
    else
      var front, f := FilesOf(found[..|found| - 1], disk), found[|found| - 1];
      if f.inode in disk && disk[f.inode].kind.Regular? then front + [Sized(f.size, f.text)] else front
  }

  ghost predicate Once(disk: Disk, found: seq<Found>) {
    && (forall i, j :: 0 <= i < j < |found| ==> found[i].inode != found[j].inode)
    && (forall f :: f in found ==> f.inode in disk && f.size == disk[f.inode].size)
  }

  /** The sums and the list are those of the counted inodes, each counted once. */
  ghost predicate Tallies(s: Scan, disk: Disk, found: seq<Found>) {
    && Once(disk, found)
    && (forall b :: (if b in s.sizes then s.sizes[b] else 0) == SumIn(found, b))
    && Largest(s.files, FilesOf(found, disk))
  }

  lemma SumAppend(found: seq<Found>, f: Found, disk: Disk)
    ensures forall b :: SumIn(found + [f], b) == SumIn(found, b) + (if f.bucket == b then f.size else 0)
    ensures FilesOf(found + [f], disk)
         == if f.inode in disk && disk[f.inode].kind.Regular? then FilesOf(found, disk) + [Sized(f.size, f.text)]
            else FilesOf(found, disk)
    ensures Ids(found + [f]) == Ids(found) + {f.inode}
  {
    assert (found + [f])[..|found|] == found;
  }

  // ---- Steps ----

  /** The next entry of directory `d` has been read and is counted, or does not take part. */
  lemma ReadEntry(disk: Disk, policy: Policy, ids: set<Inode>, ids': set<Inode>, progress: Progress, d: Inode, inode: Inode)
    requires d in progress && Lists(disk, d, progress[d], inode) && inode in disk
    requires Covers(disk, policy, ids, progress) && ids <= ids'
    requires TakesPart(disk, policy, inode) ==> inode in ids'
    ensures Covers(disk, policy, ids', progress[d := progress[d] + 1])
  {
  }

  lemma StaysGrounded(disk: Disk, policy: Policy, ids: set<Inode>, progress: Progress, d: Inode)
    requires d in progress && Grounded(disk, policy, ids, progress)
    ensures Grounded(disk, policy, ids, progress[d := progress[d] + 1])
  {
    var more := progress[d := progress[d] + 1];
    forall i {:trigger In(ids, i)} | In(ids, i) ensures ReadBefore(disk, more, i) {
      var e, k: nat :| e in progress && k < progress[e] && Lists(disk, e, k, i);
      assert e in more && k < more[e];
    }
  }

  lemma FramesMove(stack: seq<Frame>, disk: Disk, progress: Progress)
    requires stack != [] && Frames(stack, disk, progress)
    requires stack[|stack| - 1].pos < |Children(disk, stack[|stack| - 1].dir)|
    ensures var f := stack[|stack| - 1];
            Frames(Moved(stack), disk, progress[f.dir := f.pos + 1])
  {
    var f := stack[|stack| - 1];
    var more, progress' := Moved(stack), progress[f.dir := f.pos + 1];
    forall d | d in progress' && !OnStack(more, d) ensures progress'[d] == |Children(disk, d)| {
      assert forall i :: 0 <= i < |stack| ==> stack[i].dir == more[i].dir;
    }
  }

  lemma FramesPop(stack: seq<Frame>, disk: Disk, progress: Progress)
    requires stack != [] && Frames(stack, disk, progress)
    requires stack[|stack| - 1].pos >= |Children(disk, stack[|stack| - 1].dir)|
    ensures Frames(stack[..|stack| - 1], disk, progress)
  {
    var rest, f := stack[..|stack| - 1], stack[|stack| - 1];
    forall d | d in progress && !OnStack(rest, d) ensures progress[d] == |Children(disk, d)| {
      if d != f.dir {
        assert forall i :: 0 <= i < |rest| ==> stack[i].dir == rest[i].dir;
      }
    }
  }

  lemma FramesPush(stack: seq<Frame>, disk: Disk, progress: Progress, f: Frame)
    requires Frames(stack, disk, progress) && f.dir !in progress && f.pos == 0
    ensures Frames(stack + [f], disk, progress[f.dir := 0])
  {
    var more, progress' := stack + [f], progress[f.dir := 0];
    forall d | d in progress' && !OnStack(more, d) ensures progress'[d] == |Children(disk, d)| {
      assert more[|stack|].dir == f.dir;
      assert forall i :: 0 <= i < |stack| ==> stack[i].dir == more[i].dir;
    }
  }

  /** An entry that is not remembered has not been counted under another name. */
  lemma NotCounted(s: Scan, disk: Disk, policy: Policy, ids: set<Inode>, progress: Progress, d: Inode, inode: Inode)
    requires WellFormed(disk, policy) && Inv(s, disk, policy, ids, progress)
    requires d in progress && Lists(disk, d, progress[d], inode) && inode in disk && inode !in s.seen
    ensures inode !in ids
  {
    assert inode in ids ==> In(ids, inode);
  }

  /** The entry the next step reads. */
  ghost predicate Reads(s: Scan, disk: Disk, f: Frame, child: Child) {
    s.stack != [] && f == s.stack[|s.stack| - 1] && f.pos < |Children(disk, f.dir)| && child == Children(disk, f.dir)[f.pos]
  }

  lemma SkipResult(s: Scan, disk: Disk, policy: Policy, f: Frame, child: Child)
    requires Reads(s, disk, f, child)
    requires child.inode in disk && (TakesPart(disk, policy, child.inode) ==> child.inode in s.seen)
    ensures var t := Step(s, disk, policy);
            && t.stack == Moved(s.stack) && t.seen == s.seen && t.sizes == s.sizes
            && t.files == s.files && t.denied == s.denied
  {
  }

  lemma OpensSame(disk: Disk, policy: Policy, ids: set<Inode>, progress: Progress, d: Inode, n: nat)
    requires d in progress && Opens(disk, policy, ids, progress)
    ensures Opens(disk, policy, ids, progress[d := n])
  {
  }

  /** A step that reads an entry which takes no part, or is counted already. */
  lemma SkipInv(t: Scan, s: Scan, disk: Disk, policy: Policy, ids: set<Inode>, progress: Progress, f: Frame, child: Child)
    requires Inv(s, disk, policy, ids, progress) && Reads(s, disk, f, child)
    requires child.inode in disk && (TakesPart(disk, policy, child.inode) ==> child.inode in s.seen)
    requires t.stack == Moved(s.stack) && t.seen == s.seen
    ensures Inv(t, disk, policy, ids, progress[f.dir := f.pos + 1])
  {
    FramesMove(s.stack, disk, progress);
    assert f.dir in progress && progress[f.dir] == f.pos;
    SkipSets(s, disk, policy, ids, progress, f.dir, child.inode);
  }

  /** What reading such an entry does to the sets. */
  lemma SkipSets(s: Scan, disk: Disk, policy: Policy, ids: set<Inode>, progress: Progress, d: Inode, inode: Inode)
    requires Covers(disk, policy, ids, progress) && Grounded(disk, policy, ids, progress)
    requires Opens(disk, policy, ids, progress) && Remembers(disk, ids, s.seen)
    requires d in progress && Lists(disk, d, progress[d], inode)
    requires inode in disk && (TakesPart(disk, policy, inode) ==> inode in s.seen)
    ensures var more := progress[d := progress[d] + 1];
            Covers(disk, policy, ids, more) && Grounded(disk, policy, ids, more) && Opens(disk, policy, ids, more)
  {
    ReadEntry(disk, policy, ids, ids, progress, d, inode);
    StaysGrounded(disk, policy, ids, progress, d);
    OpensSame(disk, policy, ids, progress, d, progress[d] + 1);
  }

  /** What one more counted inode does to the sets. */
  lemma AddInv(s: Scan, disk: Disk, policy: Policy, ids: set<Inode>, progress: Progress, d: Inode, inode: Inode)
    requires WellFormed(disk, policy) && Inv(s, disk, policy, ids, progress)
    requires d in progress && Lists(disk, d, progress[d], inode) && TakesPart(disk, policy, inode) && inode !in s.seen
    ensures var progress' := progress[d := progress[d] + 1];
            && inode !in ids && Reachable(disk, policy, inode)
            && Covers(disk, policy, ids + {inode}, progress') && Grounded(disk, policy, ids + {inode}, progress')
            && Remembers(disk, ids + {inode}, if Tracked(disk[inode]) then s.seen + {inode} else s.seen)
  {
    var progress' := progress[d := progress[d] + 1];
    NotCounted(s, disk, policy, ids, progress, d, inode);
    ReadEntry(disk, policy, ids, ids + {inode}, progress, d, inode);
    StaysGrounded(disk, policy, ids, progress, d);
    assert IsChild(disk, policy, d, inode);
    assert d in ids ==> In(ids, d);
    ChildReachable(disk, policy, d, inode);
    assert ReadBefore(disk, progress', inode) by {
      assert d in progress' && progress[d] < progress'[d] && Lists(disk, d, progress[d], inode);
    }
    forall i {:trigger In(ids + {inode}, i)} | In(ids + {inode}, i)
      ensures TakesPart(disk, policy, i) && Reachable(disk, policy, i) && ReadBefore(disk, progress', i)
    {
      assert i != inode ==> In(ids, i);
    }
  }

  /** Opening the directory just counted. */
  lemma OpenInv(disk: Disk, policy: Policy, ids: set<Inode>, progress: Progress, inode: Inode)
    requires WellFormed(disk, policy) && Opens(disk, policy, ids, progress)
    requires inode !in ids && inode in disk && Reachable(disk, policy, inode)
    requires Covers(disk, policy, ids + {inode}, progress) && Grounded(disk, policy, ids + {inode}, progress)
    ensures disk[inode].kind.Directory? ==>
              && inode !in progress && Opens(disk, policy, ids + {inode}, progress[inode := 0])
              && Covers(disk, policy, ids + {inode}, progress[inode := 0])
              && Grounded(disk, policy, ids + {inode}, progress[inode := 0])
    ensures !disk[inode].kind.Directory? ==> Opens(disk, policy, ids + {inode}, progress)
  {
    if disk[inode].kind.Directory? {
      var more := progress[inode := 0];
      forall i {:trigger In(ids + {inode}, i)} | In(ids + {inode}, i) ensures ReadBefore(disk, more, i) {
        var e, k: nat :| e in progress && k < progress[e] && Lists(disk, e, k, i);
        assert e in more && k < more[e];
      }
    }
  }

  function ProgressAfter(progress: Progress, disk: Disk, f: Frame, inode: Inode): Progress
    requires inode in disk
  {
    var read := progress[f.dir := f.pos + 1];
    if disk[inode].kind.Directory? then read[inode := 0] else read
  }

  function Entered(f: Frame, child: Child): Frame {
    Frame(child.inode, f.root, Join(f.text, child.name), f.parts + [child.name], 0)
  }

  lemma AddResult(s: Scan, disk: Disk, policy: Policy, f: Frame, child: Child)
    requires Reads(s, disk, f, child) && TakesPart(disk, policy, child.inode) && child.inode !in s.seen
    requires Step(s, disk, policy).denied == s.denied
    ensures var t := Step(s, disk, policy);
            var info := disk[child.inode];
            var moved := Moved(s.stack);
            var bucket := BucketOf(f, child.name, info);
            && t.stack == (if info.kind.Directory? then moved + [Entered(f, child)] else moved)
            && t.seen == (if Tracked(info) then s.seen + {child.inode} else s.seen)
            && t.sizes == s.sizes[bucket := SizeIn(s.sizes, bucket) + info.size]
            && t.files == (if info.kind.Regular? then Push(s.files, Sized(info.size, Join(f.text, child.name))) else s.files)
  {
  }

  /** The sets after counting an inode, its directory opened if it is one. */
  ghost predicate Counted(disk: Disk, policy: Policy, ids: set<Inode>, seen: set<Inode>, progress: Progress, f: Frame, inode: Inode)
    requires inode in disk
  {
    var ids', progress' := ids + {inode}, ProgressAfter(progress, disk, f, inode);
    && Covers(disk, policy, ids', progress') && Grounded(disk, policy, ids', progress') && Opens(disk, policy, ids', progress')
    && Remembers(disk, ids', if Tracked(disk[inode]) then seen + {inode} else seen)
  }

  lemma OpenCounted(disk: Disk, policy: Policy, ids: set<Inode>, seen: set<Inode>, progress: Progress, f: Frame, inode: Inode)
    requires WellFormed(disk, policy) && f.dir in progress && Opens(disk, policy, ids, progress)
    requires inode !in ids && inode in disk && Reachable(disk, policy, inode)
    requires var read := progress[f.dir := f.pos + 1];
      Covers(disk, policy, ids + {inode}, read) && Grounded(disk, policy, ids + {inode}, read)
    requires Remembers(disk, ids + {inode}, if Tracked(disk[inode]) then seen + {inode} else seen)
    ensures Counted(disk, policy, ids, seen, progress, f, inode)
    ensures disk[inode].kind.Directory? ==> inode !in progress && inode != f.dir
  {
    OpensSame(disk, policy, ids, progress, f.dir, f.pos + 1);
    OpenInv(disk, policy, ids, progress[f.dir := f.pos + 1], inode);
  }

  lemma CountSets(s: Scan, disk: Disk, policy: Policy, ids: set<Inode>, progress: Progress, f: Frame, child: Child)
    requires WellFormed(disk, policy) && Inv(s, disk, policy, ids, progress)
    requires f.dir in progress && progress[f.dir] == f.pos && Lists(disk, f.dir, f.pos, child.inode)
    requires TakesPart(disk, policy, child.inode) && child.inode !in s.seen
    ensures child.inode !in ids && Counted(disk, policy, ids, s.seen, progress, f, child.inode)
    ensures disk[child.inode].kind.Directory? ==> child.inode !in progress && child.inode != f.dir
  {
    AddInv(s, disk, policy, ids, progress, f.dir, child.inode);
    OpenCounted(disk, policy, ids, s.seen, progress, f, child.inode);
  }

  lemma OpenFrames(moved: seq<Frame>, disk: Disk, read: Progress, f: Frame, child: Child)
    requires Frames(moved, disk, read) && child.inode !in read
    ensures Frames(moved + [Entered(f, child)], disk, read[child.inode := 0])
  {
    FramesPush(moved, disk, read, Entered(f, child));
  }

  lemma CountFrames(stack: seq<Frame>, disk: Disk, progress: Progress, f: Frame, child: Child)
    requires stack != [] && f == stack[|stack| - 1] && Frames(stack, disk, progress)
    requires f.pos < |Children(disk, f.dir)| && child.inode in disk
    requires disk[child.inode].kind.Directory? ==> child.inode !in progress && child.inode != f.dir
    ensures var moved := Moved(stack);
            Frames(if disk[child.inode].kind.Directory? then moved + [Entered(f, child)] else moved, disk,
                   ProgressAfter(progress, disk, f, child.inode))
  {
    var moved, read := Moved(stack), progress[f.dir := f.pos + 1];
    assert Frames(moved, disk, read) by {
      FramesMove(stack, disk, progress);
    }
    if disk[child.inode].kind.Directory? {
      OpenFrames(moved, disk, read, f, child);
    }
  }

  lemma ReadsListed(s: Scan, disk: Disk, progress: Progress, f: Frame, child: Child)
    requires Frames(s.stack, disk, progress) && Reads(s, disk, f, child)
    ensures f.dir in progress && progress[f.dir] == f.pos && Lists(disk, f.dir, f.pos, child.inode)
  {
  }

  lemma CountedInv(t: Scan, disk: Disk, policy: Policy, ids: set<Inode>, seen: set<Inode>, progress: Progress, f: Frame, inode: Inode)
    requires inode in disk && Counted(disk, policy, ids, seen, progress, f, inode)
    requires Frames(t.stack, disk, ProgressAfter(progress, disk, f, inode))
    requires t.seen == if Tracked(disk[inode]) then seen + {inode} else seen
    ensures Inv(t, disk, policy, ids + {inode}, ProgressAfter(progress, disk, f, inode))
  {
  }

  /** A step that counts an inode. */
  lemma CountInv(t: Scan, s: Scan, disk: Disk, policy: Policy, ids: set<Inode>, progress: Progress, f: Frame, child: Child)
    requires WellFormed(disk, policy) && Inv(s, disk, policy, ids, progress) && Reads(s, disk, f, child)
    requires TakesPart(disk, policy, child.inode) && child.inode !in s.seen
    requires t.seen == if Tracked(disk[child.inode]) then s.seen + {child.inode} else s.seen
    requires var moved := Moved(s.stack);
             t.stack == if disk[child.inode].kind.Directory? then moved + [Entered(f, child)] else moved
    ensures child.inode !in ids
    ensures Inv(t, disk, policy, ids + {child.inode}, ProgressAfter(progress, disk, f, child.inode))
  {
    ReadsListed(s, disk, progress, f, child);
    CountSets(s, disk, policy, ids, progress, f, child);
    CountFrames(s.stack, disk, progress, f, child);
    CountedInv(t, disk, policy, ids, s.seen, progress, f, child.inode);
  }

  // ---- Whole scans ----

  /** The sums after one more inode. */
  lemma SizesAdd(sizes: map<Bucket, nat>, found: seq<Found>, one: Found, disk: Disk)
    requires forall b :: SizeIn(sizes, b) == SumIn(found, b)
    ensures forall b :: SizeIn(sizes[one.bucket := SizeIn(sizes, one.bucket) + one.size], b) == SumIn(found + [one], b)
  {
    SumAppend(found, one, disk);
  }

  /** The list after one more inode. */
  lemma FilesAdd(files: seq<Sized>, found: seq<Found>, one: Found, disk: Disk)
    requires Largest(files, FilesOf(found, disk)) && one.inode in disk
    ensures Largest(if disk[one.inode].kind.Regular? then Push(files, Sized(one.size, one.text)) else files,
                    FilesOf(found + [one], disk))
  {
    SumAppend(found, one, disk);
    PushLargest(files, FilesOf(found, disk), Sized(one.size, one.text));
  }

  lemma TallyAdd(t: Scan, s: Scan, disk: Disk, found: seq<Found>, f: Frame, child: Child)
    requires Tallies(s, disk, found) && child.inode in disk && child.inode !in Ids(found)
    requires var info := disk[child.inode];
      var bucket := BucketOf(f, child.name, info);
      && t.sizes == s.sizes[bucket := SizeIn(s.sizes, bucket) + info.size]
      && t.files == (if info.kind.Regular? then Push(s.files, Sized(info.size, Join(f.text, child.name))) else s.files)
    ensures Tallies(t, disk, found + [FoundAt(disk, f, child)])
  {
    var one := FoundAt(disk, f, child);
    SizesAdd(s.sizes, found, one, disk);
    FilesAdd(s.files, found, one, disk);
    OnceMore(disk, found, one);
  }

  /** An inode not counted before keeps the counted ones distinct and sized as they are. */
  lemma OnceMore(disk: Disk, found: seq<Found>, one: Found)
    requires Once(disk, found)
    requires one.inode !in Ids(found) && one.inode in disk && one.size == disk[one.inode].size
    ensures Once(disk, found + [one])
  {
    forall i | 0 <= i < |found| ensures found[i].inode != one.inode {
      assert found[i] in found;
    }
  }

  function FoundAt(disk: Disk, f: Frame, child: Child): Found
    requires child.inode in disk
  {
    Found(child.inode, BucketOf(f, child.name, disk[child.inode]), disk[child.inode].size, Join(f.text, child.name))
  }

  ghost predicate Whole(s: Scan, disk: Disk, policy: Policy, found: seq<Found>, progress: Progress) {
    && Inv(s, disk, policy, Ids(found), progress) && Sound(s.stack, disk, progress)
    && Tallies(s, disk, found) && Placed(s.stack, disk, policy, found)
  }

  /** Every step without an error keeps the invariant. */
  lemma StepWhole(s: Scan, disk: Disk, policy: Policy, found: seq<Found>, progress: Progress)
    returns (found': seq<Found>, progress': Progress)
    requires WellFormed(disk, policy) && Whole(s, disk, policy, found, progress)
    requires Step(s, disk, policy).denied == s.denied
    ensures Whole(Step(s, disk, policy), disk, policy, found', progress')
  {
    found', progress' := found, progress;
    if s.stack != [] {
      var f := s.stack[|s.stack| - 1];
      if f.pos < |Children(disk, f.dir)| {
        var child := Children(disk, f.dir)[f.pos];
        if !TakesPart(disk, policy, child.inode) || child.inode in s.seen {
          progress' := progress[f.dir := f.pos + 1];
          SkipWhole(s, disk, policy, found, progress, f, child);
        } else {
          found' := found + [FoundAt(disk, f, child)];
          progress' := ProgressAfter(progress, disk, f, child.inode);
          CountWhole(s, disk, policy, found, progress, f, child);
        }
      } else {
        PopWhole(s, disk, policy, found, progress);
      }
    }
  }

  lemma PopWhole(s: Scan, disk: Disk, policy: Policy, found: seq<Found>, progress: Progress)
    requires Whole(s, disk, policy, found, progress) && Step(s, disk, policy).denied == s.denied
    requires s.stack != [] && s.stack[|s.stack| - 1].pos >= |Children(disk, s.stack[|s.stack| - 1].dir)|
    ensures Whole(Step(s, disk, policy), disk, policy, found, progress)
  {
    assert Readable(disk, s.stack[|s.stack| - 1].dir);
    PopResult(s, disk, policy);
    SoundPop(s.stack, disk, progress);
    LeaveWhole(s, disk, policy, found, progress);
  }

  /** The innermost directory is left. */
  lemma LeaveWhole(s: Scan, disk: Disk, policy: Policy, found: seq<Found>, progress: Progress)
    requires Whole(s, disk, policy, found, progress)
    requires s.stack != [] && s.stack[|s.stack| - 1].pos >= |Children(disk, s.stack[|s.stack| - 1].dir)|
    requires Sound(s.stack[..|s.stack| - 1], disk, progress)
    ensures Whole(s.(stack := s.stack[..|s.stack| - 1]), disk, policy, found, progress)
  {
    InvPop(s, disk, policy, Ids(found), progress);
    PlacedPop(s.stack, disk, policy, found);
  }

  lemma InvPop(s: Scan, disk: Disk, policy: Policy, ids: set<Inode>, progress: Progress)
    requires Inv(s, disk, policy, ids, progress)
    requires s.stack != [] && s.stack[|s.stack| - 1].pos >= |Children(disk, s.stack[|s.stack| - 1].dir)|
    ensures Inv(s.(stack := s.stack[..|s.stack| - 1]), disk, policy, ids, progress)
  {
    FramesPop(s.stack, disk, progress);
  }

  lemma PlacedPop(stack: seq<Frame>, disk: Disk, policy: Policy, found: seq<Found>)
    requires stack != [] && Placed(stack, disk, policy, found)
    ensures Placed(stack[..|stack| - 1], disk, policy, found)
  {
    var rest := stack[..|stack| - 1];
    forall i | 0 <= i < |rest| ensures Opened(disk, policy, rest[i]) {
      assert rest[i] == stack[i];
    }
  }

  lemma PopResult(s: Scan, disk: Disk, policy: Policy)
    requires s.stack != [] && Step(s, disk, policy).denied == s.denied && Readable(disk, s.stack[|s.stack| - 1].dir)
    requires s.stack[|s.stack| - 1].pos >= |Children(disk, s.stack[|s.stack| - 1].dir)|
    ensures Step(s, disk, policy) == s.(stack := s.stack[..|s.stack| - 1])
    ensures !disk[s.stack[|s.stack| - 1].dir].kind.listing.broken
  {
  }

  lemma SkipWhole(s: Scan, disk: Disk, policy: Policy, found: seq<Found>, progress: Progress, f: Frame, child: Child)
    requires Whole(s, disk, policy, found, progress) && Reads(s, disk, f, child)
    requires Step(s, disk, policy).denied == s.denied
    requires !TakesPart(disk, policy, child.inode) || child.inode in s.seen
    ensures Whole(Step(s, disk, policy), disk, policy, found, progress[f.dir := f.pos + 1])
  {
    SkipResult(s, disk, policy, f, child);
    SoundMove(s.stack, disk, progress, f.pos + 1);
    SkipInv(Step(s, disk, policy), s, disk, policy, Ids(found), progress, f, child);
    MovedPlaced(s.stack, disk, policy, found);
  }

  lemma CountSound(s: Scan, disk: Disk, policy: Policy, progress: Progress, f: Frame, child: Child)
    requires Sound(s.stack, disk, progress) && Frames(s.stack, disk, progress) && Reads(s, disk, f, child)
    requires Step(s, disk, policy).denied == s.denied
    requires TakesPart(disk, policy, child.inode) && child.inode !in s.seen
    ensures Sound(Step(s, disk, policy).stack, disk, ProgressAfter(progress, disk, f, child.inode))
  {
    AddResult(s, disk, policy, f, child);
    SoundMove(s.stack, disk, progress, f.pos + 1);
    if disk[child.inode].kind.Directory? {
      SoundPush(Moved(s.stack), disk, progress[f.dir := f.pos + 1], Entered(f, child));
    }
  }

  lemma CountWhole(s: Scan, disk: Disk, policy: Policy, found: seq<Found>, progress: Progress, f: Frame, child: Child)
    requires WellFormed(disk, policy) && Whole(s, disk, policy, found, progress) && Reads(s, disk, f, child)
    requires Step(s, disk, policy).denied == s.denied
    requires TakesPart(disk, policy, child.inode) && child.inode !in s.seen
    ensures Whole(Step(s, disk, policy), disk, policy, found + [FoundAt(disk, f, child)],
                  ProgressAfter(progress, disk, f, child.inode))
  {
    var t := Step(s, disk, policy);
    AddResult(s, disk, policy, f, child);
    CountSound(s, disk, policy, progress, f, child);
    CountInv(t, s, disk, policy, Ids(found), progress, f, child);
    TallyAdd(t, s, disk, found, f, child);
    SumAppend(found, FoundAt(disk, f, child), disk);
    CountPlaced(s.stack, disk, policy, found, f, child);
  }

  lemma {:induction false} EnterDenies(disk: Disk, policy: Policy, n: nat)
    requires n <= |policy.roots|
    ensures n > 0 ==> EnterRoots(Empty, disk, policy, n).denied >= EnterRoots(Empty, disk, policy, n - 1).denied
  {
  }

  /** Opened directories of which nothing has been read. */
  function Unread(dirs: set<Inode>): Progress {
    map d | d in dirs :: 0
  }

  lemma RootInodesNext(disk: Disk, policy: Policy, n: nat)
    requires 0 < n <= |policy.roots|
    ensures var inode, before := policy.roots[n - 1].inode, RootInodes(disk, policy, n - 1);
      RootInodes(disk, policy, n) == if inode in disk && disk[inode].device == policy.device then before + {inode} else before
  {
  }

  /** Entering one more root. */
  lemma EnterFrames(disk: Disk, policy: Policy, n: nat, progress: Progress)
    requires 0 < n <= |policy.roots| && EnterRoots(Empty, disk, policy, n).denied == 0
    requires Frames(EnterRoots(Empty, disk, policy, n - 1).stack, disk, progress) && policy.roots[n - 1].inode !in progress
    ensures var inode, before, s := policy.roots[n - 1].inode, EnterRoots(Empty, disk, policy, n - 1), EnterRoots(Empty, disk, policy, n);
      && s.seen == before.seen && s.sizes == before.sizes && s.files == before.files
      && Frames(s.stack, disk,
                if inode in disk && disk[inode].device == policy.device then progress[inode := 0] else progress)
  {
    var before, root := EnterRoots(Empty, disk, policy, n - 1), policy.roots[n - 1];
    if root.inode in disk && disk[root.inode].device == policy.device {
      FramesPush(before.stack, disk, progress, Frame(root.inode, root.text, root.text, [], 0));
    }
  }

  /** The roots entered so far can be looked at, and those of the device can be read. */
  lemma {:induction false} BeginSound(disk: Disk, policy: Policy, n: nat)
    requires n <= |policy.roots| && EnterRoots(Empty, disk, policy, n).denied == 0
    ensures forall i :: 0 <= i < n ==> policy.roots[i].inode in disk
    ensures Sound(EnterRoots(Empty, disk, policy, n).stack, disk, Unread(RootInodes(disk, policy, n)))
    decreases n
  {
    if n > 0 {
      var root, progress := policy.roots[n - 1], Unread(RootInodes(disk, policy, n - 1));
      EnterDenies(disk, policy, n);
      BeginSound(disk, policy, n - 1);
      RootInodesNext(disk, policy, n);
      if disk[root.inode].device == policy.device {
        SoundPush(EnterRoots(Empty, disk, policy, n - 1).stack, disk, progress, Frame(root.inode, root.text, root.text, [], 0));
        assert progress[root.inode := 0] == Unread(RootInodes(disk, policy, n - 1) + {root.inode});
      }
    }
  }

  lemma RootOpened(disk: Disk, policy: Policy, root: Root)
    requires root in policy.roots && root.inode in AllRoots(disk, policy)
    ensures Opened(disk, policy, Frame(root.inode, root.text, root.text, [], 0))
  {
    assert Trail(disk, policy, root, [root.inode], []);
  }

  /** The roots are opened where they lie. */
  lemma {:induction false} BeginPlaced(disk: Disk, policy: Policy, n: nat)
    requires n <= |policy.roots| && EnterRoots(Empty, disk, policy, n).denied == 0
    ensures Placed(EnterRoots(Empty, disk, policy, n).stack, disk, policy, [])
    decreases n
  {
    if n > 0 {
      var root := policy.roots[n - 1];
      EnterDenies(disk, policy, n);
      BeginPlaced(disk, policy, n - 1);
      if root.inode in disk && disk[root.inode].device == policy.device {
        assert policy.roots[n - 1].inode in AllRoots(disk, policy);
        RootOpened(disk, policy, root);
      }
    }
  }

  lemma {:induction false} BeginFrames(disk: Disk, policy: Policy, n: nat)
    requires n <= |policy.roots| && EnterRoots(Empty, disk, policy, n).denied == 0
    requires forall i, j :: 0 <= i < j < |policy.roots| ==> policy.roots[i].inode != policy.roots[j].inode
    ensures var s := EnterRoots(Empty, disk, policy, n);
            Frames(s.stack, disk, Unread(RootInodes(disk, policy, n)))
            && s.seen == {} && s.sizes == map[] && s.files == []
    decreases n
  {
    if n > 0 {
      var inode, progress := policy.roots[n - 1].inode, Unread(RootInodes(disk, policy, n - 1));
      EnterDenies(disk, policy, n);
      BeginFrames(disk, policy, n - 1);
      assert inode !in progress;
      EnterFrames(disk, policy, n, progress);
      RootInodesNext(disk, policy, n);
      assert progress[inode := 0] == Unread(RootInodes(disk, policy, n - 1) + {inode});
    }
  }

  /** With nothing read, nothing is counted. */
  lemma NothingCounted(disk: Disk, policy: Policy)
    ensures Covers(disk, policy, {}, Unread(AllRoots(disk, policy)))
    ensures Opens(disk, policy, {}, Unread(AllRoots(disk, policy)))
    ensures Grounded(disk, policy, {}, Unread(AllRoots(disk, policy))) && Remembers(disk, {}, {})
  {
  }

  lemma NothingTallied(s: Scan, disk: Disk)
    requires s.sizes == map[] && s.files == []
    ensures Tallies(s, disk, [])
  {
    assert Divides([], multiset{}, []);
    assert Largest([], FilesOf([], disk));
  }

  lemma BeginWhole(disk: Disk, policy: Policy) returns (progress: Progress)
    requires WellFormed(disk, policy) && Begin(disk, policy).denied == 0
    ensures Whole(Begin(disk, policy), disk, policy, [], progress)
  {
    progress := Unread(AllRoots(disk, policy));
    var s := Begin(disk, policy);
    BeginFrames(disk, policy, |policy.roots|);
    NothingCounted(disk, policy);
    NothingTallied(s, disk);
    BeginPlaced(disk, policy, |policy.roots|);
    BeginSound(disk, policy, |policy.roots|);
    assert Ids([]) == {};
    assert Inv(s, disk, policy, {}, progress);
  }

  lemma {:induction false} RunWhole(disk: Disk, policy: Policy, n: nat) returns (found: seq<Found>, progress: Progress)
    requires WellFormed(disk, policy) && Run(Begin(disk, policy), disk, policy, n).denied == 0
    ensures Whole(Run(Begin(disk, policy), disk, policy, n), disk, policy, found, progress)
    decreases n
  {
    if n == 0 {
      found := [];
      progress := BeginWhole(disk, policy);
    } else {
      var before := Run(Begin(disk, policy), disk, policy, n - 1);
      StepDenies(before, disk, policy);
      found, progress := RunWhole(disk, policy, n - 1);
      found, progress := StepWhole(before, disk, policy, found, progress);
    }
  }

  /** When nothing is open any more, everything along a chain has been counted. */
  lemma {:induction false} ChainCounted(s: Scan, disk: Disk, policy: Policy, ids: set<Inode>, progress: Progress, c: seq<Inode>)
    requires Inv(s, disk, policy, ids, progress) && s.stack == [] && Chain(disk, policy, c)
    ensures c[|c| - 1] in ids
    decreases |c|
  {
    var dir, last := c[|c| - 2], c[|c| - 1];
    if |c| > 2 {
      var front := c[..|c| - 1];
      forall j | 0 < j < |front| ensures IsChild(disk, policy, front[j - 1], front[j]) {
        assert IsChild(disk, policy, c[j - 1], c[j]);
      }
      ChainCounted(s, disk, policy, ids, progress, front);
      assert In(ids, dir);
    }
    assert IsChild(disk, policy, dir, last);
    var k: nat :| Lists(disk, dir, k, last);
    assert dir in disk && disk[dir].kind.Directory? ==> dir in progress;
    assert !OnStack(s.stack, dir);
  }

  /** A directory the scan has to read: a root of the device, or one below a root. */
  ghost predicate Scanned(disk: Disk, policy: Policy, dir: Inode) {
    dir in AllRoots(disk, policy) || (Reachable(disk, policy, dir) && dir in disk && disk[dir].kind.Directory?)
  }

  /** Nothing of it stayed unread: it could be opened, it was read to its end, and each entry could be looked at. */
  ghost predicate WhollyRead(disk: Disk, dir: Inode) {
    && Readable(disk, dir) && !disk[dir].kind.listing.broken
    && forall k: nat, inode :: Lists(disk, dir, k, inode) ==> inode in disk
  }

  /** What a report means: the counted inodes are exactly the reachable ones, each once and under a name it has
      there; the sum of each directory at most two levels below a root is that of the inodes whose names put them
      under it; and the listed files, with their names, are the largest of them. Every root could be looked at, and
      no directory was left unread, in whole or in part. */
  ghost predicate Report(s: Scan, disk: Disk, policy: Policy, found: seq<Found>) {
    && Tallies(s, disk, found) && (forall i :: i in Ids(found) <==> Reachable(disk, policy, i))
    && (forall f :: f in found ==> Located(disk, policy, f))
    && (forall r :: r in policy.roots ==> r.inode in disk)
    && forall d :: Scanned(disk, policy, d) ==> WhollyRead(disk, d)
  }

  /** The counted inodes are the reachable ones. */
  lemma CountedReachable(s: Scan, disk: Disk, policy: Policy, ids: set<Inode>, progress: Progress, i: Inode)
    requires Inv(s, disk, policy, ids, progress) && s.stack == []
    ensures i in ids <==> Reachable(disk, policy, i)
  {
    if i in ids {
      assert In(ids, i);
    }
    if Reachable(disk, policy, i) {
      var c :| Chain(disk, policy, c) && c[|c| - 1] == i;
      ChainCounted(s, disk, policy, ids, progress, c);
    }
  }

  lemma NothingUnread(s: Scan, disk: Disk, policy: Policy, ids: set<Inode>, progress: Progress, d: Inode)
    requires Inv(s, disk, policy, ids, progress) && s.stack == [] && Sound([], disk, progress) && Scanned(disk, policy, d)
    ensures WhollyRead(disk, d)
  {
    CountedReachable(s, disk, policy, ids, progress, d);
    assert !OnStack(s.stack, d) && d in progress;
    forall k: nat, inode | Lists(disk, d, k, inode) ensures inode in disk {
      assert k < progress[d];
    }
  }

  lemma {:induction false} RunDenies(disk: Disk, policy: Policy, n: nat)
    ensures Run(Begin(disk, policy), disk, policy, n).denied >= Begin(disk, policy).denied
    decreases n
  {
    if n > 0 {
      RunDenies(disk, policy, n - 1);
      StepDenies(Run(Begin(disk, policy), disk, policy, n - 1), disk, policy);
    }
  }

  /** A scan that ended without an error or a limit hit is complete. */
  lemma CompleteScan(disk: Disk, policy: Policy, n: nat)
    requires WellFormed(disk, policy)
    requires var s := Run(Begin(disk, policy), disk, policy, n); s.stack == [] && s.denied == 0
    ensures exists found :: Report(Run(Begin(disk, policy), disk, policy, n), disk, policy, found)
  {
    var s := Run(Begin(disk, policy), disk, policy, n);
    var found, progress := RunWhole(disk, policy, n);
    forall i ensures i in Ids(found) <==> Reachable(disk, policy, i) {
      CountedReachable(s, disk, policy, Ids(found), progress, i);
    }
    forall d | Scanned(disk, policy, d) ensures WhollyRead(disk, d) {
      NothingUnread(s, disk, policy, Ids(found), progress, d);
    }
    RunDenies(disk, policy, n);
    BeginSound(disk, policy, |policy.roots|);
    assert Report(s, disk, policy, found);
  }

  // ---- Why a scan is not complete ----

  /** A root cannot be looked at, or something of a directory the scan has to read cannot be read. */
  ghost predicate Obstructed(disk: Disk, policy: Policy) {
    || (exists r :: r in policy.roots && r.inode !in disk)
    || (exists d :: Scanned(disk, policy, d) && !WhollyRead(disk, d))
  }

  /** As many directories are open as may be, or as many inodes are remembered. */
  ghost predicate AtLimit(s: Scan, policy: Policy) {
    |s.stack| >= 64 || |s.seen| >= policy.maxInodes
  }

  lemma OpenScanned(s: Scan, disk: Disk, policy: Policy, ids: set<Inode>, progress: Progress)
    requires Inv(s, disk, policy, ids, progress) && s.stack != []
    ensures Scanned(disk, policy, s.stack[|s.stack| - 1].dir)
  {
    var d := s.stack[|s.stack| - 1].dir;
    assert d in ids ==> In(ids, d);
  }

  /** A step that counts an error has a reason. */
  lemma StepReason(s: Scan, disk: Disk, policy: Policy, ids: set<Inode>, progress: Progress)
    requires Inv(s, disk, policy, ids, progress) && Sound(s.stack, disk, progress)
    requires Step(s, disk, policy).denied > s.denied
    ensures Obstructed(disk, policy) || AtLimit(s, policy) || AtLimit(Step(s, disk, policy), policy)
  {
    var f := s.stack[|s.stack| - 1];
    OpenScanned(s, disk, policy, ids, progress);
    assert Readable(disk, f.dir);
    if f.pos < |Children(disk, f.dir)| {
      var child := Children(disk, f.dir)[f.pos];
      assert Lists(disk, f.dir, f.pos, child.inode);
      if child.inode in disk {
        assert TakesPart(disk, policy, child.inode);
        assert IsChild(disk, policy, f.dir, child.inode);
        ChildReachable(disk, policy, f.dir, child.inode);
        AddReason(s, disk, policy, f, child);
      } else {
        assert !WhollyRead(disk, f.dir);
      }
    } else {
      assert !WhollyRead(disk, f.dir);
    }
  }

  lemma AddReason(s: Scan, disk: Disk, policy: Policy, f: Frame, child: Child)
    requires Reads(s, disk, f, child) && child.inode in disk && Step(s, disk, policy).denied > s.denied
    requires Reachable(disk, policy, child.inode)
    ensures Obstructed(disk, policy) || AtLimit(s, policy) || AtLimit(Step(s, disk, policy), policy)
  {
    if disk[child.inode].kind.Directory? && !Readable(disk, child.inode) {
      assert Scanned(disk, policy, child.inode) && !WhollyRead(disk, child.inode);
    }
  }

  lemma {:induction false} BeginReason(disk: Disk, policy: Policy, n: nat)
    requires n <= |policy.roots| && EnterRoots(Empty, disk, policy, n).denied > 0
    ensures Obstructed(disk, policy) || |EnterRoots(Empty, disk, policy, n).stack| >= 64
    decreases n
  {
    var root := policy.roots[n - 1];
    if EnterRoots(Empty, disk, policy, n - 1).denied > 0 {
      BeginReason(disk, policy, n - 1);
    } else if root.inode in disk && !Readable(disk, root.inode) {
      assert root.inode in AllRoots(disk, policy);
      assert Scanned(disk, policy, root.inode) && !WhollyRead(disk, root.inode);
    }
  }

  ghost predicate LimitedAt(disk: Disk, policy: Policy, m: nat) {
    AtLimit(Run(Begin(disk, policy), disk, policy, m), policy)
  }

  /** A scan counts no error unless something that it has to read cannot be read, or one of the two limits is met
      on the way. */
  lemma {:induction false} WhyIncomplete(disk: Disk, policy: Policy, n: nat)
    requires WellFormed(disk, policy) && Run(Begin(disk, policy), disk, policy, n).denied > 0
    ensures Obstructed(disk, policy) || exists m: nat :: m <= n && LimitedAt(disk, policy, m)
    decreases n
  {
    if n == 0 {
      BeginReason(disk, policy, |policy.roots|);
      assert AtLimit(Begin(disk, policy), policy) ==> LimitedAt(disk, policy, 0);
    } else if Run(Begin(disk, policy), disk, policy, n - 1).denied > 0 {
      WhyIncomplete(disk, policy, n - 1);
    } else {
      var found, progress := RunWhole(disk, policy, n - 1);
      StepReason(Run(Begin(disk, policy), disk, policy, n - 1), disk, policy, Ids(found), progress);
      assert LimitedAt(disk, policy, n - 1) || LimitedAt(disk, policy, n) || Obstructed(disk, policy);
    }
  }

  lemma {:induction false} FewRoots(disk: Disk, policy: Policy, n: nat)
    requires n <= |policy.roots|
    ensures |EnterRoots(Empty, disk, policy, n).stack| <= 64
    decreases n
  {
    if n > 0 {
      FewRoots(disk, policy, n - 1);
    }
  }

  lemma StepFew(s: Scan, disk: Disk, policy: Policy)
    requires |s.stack| <= 64
    ensures |Step(s, disk, policy).stack| <= 64
  {
  }

  /** Never are more than 64 directories open. */
  lemma {:induction false} FewOpen(disk: Disk, policy: Policy, n: nat)
    ensures |Run(Begin(disk, policy), disk, policy, n).stack| <= 64
    decreases n
  {
    if n == 0 {
      FewRoots(disk, policy, |policy.roots|);
    } else {
      FewOpen(disk, policy, n - 1);
      StepFew(Run(Begin(disk, policy), disk, policy, n - 1), disk, policy);
    }
  }
}
