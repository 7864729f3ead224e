/** Which worker may be signalled: decided from a process table. A focused look at one process (itself,
    its line of parents up to the first application server, one child) is proved to decide as the whole
    table does. */
module Eligibility {
  import opened Basics
  import G = PressureGuard

  /** A process table row. A child marker has only its numbers. */
  datatype Row = Row(
    pid: nat, ppid: nat, start: nat, executable: string, argv: seq<string>, uid: int, effectiveUid: int,
    cgroup: string, cwd: string)

  type Table = map<nat, Row>

  function Marker(pid: nat, ppid: nat): Row {
    Row(pid, ppid, 0, "", [], -1, -1, "", "")
  }

  // ---- Command lines ----

  predicate StartsWith(s: string, prefix: string) {
    prefix <= s
  }

  predicate EndsWith(s: string, suffix: string) {
    |suffix| <= |s| && s[|s| - |suffix|..] == suffix
  }

  /** The last part of a path. */
  function BaseName(path: string): string {
    if path == [] then ""
    else if path[|path| - 1] == '/' then ""
    else BaseName(path[..|path| - 1]) + [path[|path| - 1]]
  }

  predicate Node(row: Row) {
    BaseName(row.executable) == "node" || BaseName(row.executable) == "nodejs"
  }

  function Args(row: Row): seq<string> {
    if row.argv == [] then [] else row.argv[1..]
  }

  predicate AppServer(row: Row) {
    BaseName(row.executable) == "codex" && "app-server" in (if |Args(row)| <= 3 then Args(row) else Args(row)[..3])
  }

  const PROTECTED: set<string> := {"app-server", "serve", "server", "dev", "--listen", "--daemon"}
  const WATCH: set<string> := {"--watch", "--watchAll", "--watch-all", "--inspect", "--inspect-brk"}

  predicate WatchOrServer(row: Row) {
    exists i :: 0 <= i < |Args(row)| &&
      var word := Args(row)[i];
      word in PROTECTED || word in WATCH || StartsWith(word, "--watch=") || StartsWith(word, "--inspect=")
      || StartsWith(word, "--inspect-brk=") || StartsWith(word, "--listen=")
  }

  /** The runtime's options: those that run something else, those that take a value, plain flags. */
  datatype Options = Options(other: set<string>, valued: set<string>, flags: set<string>)

  datatype Entry = Entry(nativeTest: bool, script: Option<string>, trailing: seq<string>)

  function BeforeEquals(word: string): string {
    if word == [] || word[0] == '=' then "" else [word[0]] + BeforeEquals(word[1..])
  }

  /** Reads the options from position `i`; a word that may or may not take a value makes it None. */
  function ParseFrom(args: seq<string>, i: nat, native: bool, options: Options): Option<Entry>
    requires i <= |args|
    decreases |args| - i
  {
    if i == |args| then Some(Entry(native, None, []))
    else
      var word := args[i];
      if word == "--" then
        if i + 1 < |args| then Some(Entry(native, Some(args[i + 1]), args[i + 2..])) else Some(Entry(native, None, []))
      else if BeforeEquals(word) in options.other then None
      else if word in options.valued then
        if i + 1 >= |args| then None else ParseFrom(args, i + 2, native, options)
      else if word in options.flags then ParseFrom(args, i + 1, native || word == "--test", options)
      else if StartsWith(word, "--") && '=' in word then ParseFrom(args, i + 1, native, options)
      else if !StartsWith(word, "-") then Some(Entry(native, Some(word), args[i + 1..]))
      else None
  }

  function Parse(row: Row, options: Options): Option<Entry> {
    ParseFrom(Args(row), 0, false, options)
  }

  /** The option loop. */
  method ParseNodeEntry(row: Row, options: Options) returns (entry: Option<Entry>)
    ensures entry == Parse(row, options)
  {
    var args, native, i := Args(row), false, 0;
    while i < |args|
      invariant i <= |args| && ParseFrom(args, i, native, options) == Parse(row, options)
    {
      var word := args[i];
      if word == "--" {
        if i + 1 < |args| {
          return Some(Entry(native, Some(args[i + 1]), args[i + 2..]));
        }
        return Some(Entry(native, None, []));
      }
      if BeforeEquals(word) in options.other {
        return None;
      }
      if word in options.valued {
        if i + 1 >= |args| {
          return None;
        }
        i := i + 2;
      } else if word in options.flags {
        native := native || word == "--test";
        i := i + 1;
      } else if StartsWith(word, "--") && '=' in word {
        i := i + 1;
      } else if !StartsWith(word, "-") {
        return Some(Entry(native, Some(word), args[i + 1..]));
      } else {
        return None;
      }
    }
    entry := Some(Entry(native, None, []));
  }

  predicate TestFile(script: string) {
    exists kind, ext :: kind in {".test", ".spec"} && ext in TEST_EXTENSIONS && EndsWith(script, kind + ext)
  }

  const TEST_EXTENSIONS: set<string> :=
    {".js", ".ts", ".jsx", ".tsx", ".cjs", ".cts", ".cjsx", ".ctsx", ".mjs", ".mts", ".mjsx", ".mtsx"}

  predicate NativeRunner(row: Row, options: Options) {
    Node(row) && !WatchOrServer(row) && Parse(row, options).Some? && Parse(row, options).value.nativeTest
  }

  function ScriptOf(row: Row, options: Options): string {
    var entry := Parse(row, options);
    if entry.Some? && entry.value.script.Some? then entry.value.script.value else ""
  }

  predicate JestRunner(row: Row, options: Options) {
    && Node(row) && !WatchOrServer(row)
    && var script := ScriptOf(row, options);
       || EndsWith(script, "/node_modules/jest/bin/jest.js") || EndsWith(script, "/node_modules/jest/build/index.js")
       || EndsWith(script, "/node_modules/jest-cli/bin/jest.js") || EndsWith(script, "/node_modules/jest-cli/build/index.js")
  }

  predicate VitestRunner(row: Row, options: Options) {
    Node(row) && !WatchOrServer(row) && "run" in Args(row) && EndsWith(ScriptOf(row, options), "/node_modules/vitest/vitest.mjs")
  }

  // ---- Lines of parents ----

  /** The parents from `current` on, until one is not in the table, comes up again, or the limit is reached. */
  function Lineage(table: Table, current: nat, seen: set<nat>, limit: nat): seq<Row>
    decreases limit
  {
    if limit == 0 || current !in table || current in seen then []
    else [table[current]] + Lineage(table, table[current].ppid, seen + {current}, limit - 1)
  }

  const DEPTH: nat := 64

  function Ancestors(row: Row, table: Table): seq<Row> {
    Lineage(table, row.ppid, {row.pid}, DEPTH)
  }

  method CollectAncestors(row: Row, table: Table) returns (rows: seq<Row>)
    ensures rows == Ancestors(row, table)
  {
    var seen, parent := {row.pid}, row.ppid;
    rows := [];
    for i := 0 to DEPTH
      invariant rows + Lineage(table, parent, seen, DEPTH - i) == Ancestors(row, table)
    {
      if parent !in table || parent in seen {
        assert Lineage(table, parent, seen, DEPTH - i) == [];
        return;
      }
      rows := rows + [table[parent]];
      seen, parent := seen + {parent}, table[parent].ppid;
    }
  }

  /** The first application server of a line, if any. */
  function Owner(lineage: seq<Row>): Option<Row> {
    if lineage == [] then None else if AppServer(lineage[0]) then Some(lineage[0]) else Owner(lineage[1..])
  }

  /** The line below its first application server. */
  function Below(lineage: seq<Row>): seq<Row> {
    if lineage == [] || AppServer(lineage[0]) then [] else [lineage[0]] + Below(lineage[1..])
  }

  /** The line up to and with its first application server. */
  function UpToServer(lineage: seq<Row>): seq<Row> {
    if lineage == [] then [] else if AppServer(lineage[0]) then [lineage[0]] else [lineage[0]] + UpToServer(lineage[1..])
  }

  lemma {:induction false} SameOwner(lineage: seq<Row>)
    ensures Owner(UpToServer(lineage)) == Owner(lineage)
    ensures Owner(lineage).Some? ==> Below(UpToServer(lineage)) == Below(lineage)
  {
    if lineage != [] && !AppServer(lineage[0]) {
      SameOwner(lineage[1..]);
    }
  }

  // ---- The decision ----

  predicate HasChild(table: Table, pid: nat) {
    exists p :: p in table && table[p].ppid == pid
  }

  predicate JestWorkerFile(script: string) {
    EndsWith(script, "/node_modules/jest-worker/build/workers/processChild.js")
  }

  predicate VitestWorkerFile(script: string) {
    EndsWith(script, "/node_modules/tinypool/dist/entry/process.js")
  }

  predicate AnyNative(commands: seq<Row>, options: Options) {
    exists i :: 0 <= i < |commands| && NativeRunner(commands[i], options)
  }

  predicate AnyJest(commands: seq<Row>, options: Options) {
    exists i :: 0 <= i < |commands| && JestRunner(commands[i], options)
  }

  predicate AnyVitest(commands: seq<Row>, options: Options) {
    exists i :: 0 <= i < |commands| && VitestRunner(commands[i], options)
  }

  /** The first of the four kinds whose signs are there. */
  function FirstKind(native: bool, file: bool, jest: bool, vitest: bool): Option<string> {
    if native then Some("node-native-test")
    else if file then Some("node-test-file-worker")
    else if jest then Some("jest-worker")
    else if vitest then Some("vitest-worker")
    else None
  }

  /** Which kind of worker a parsed command line below `commands` is. */
  function Kind(row: Row, entry: Entry, commands: seq<Row>, options: Options): Option<string> {
    var script := if entry.script.Some? then entry.script.value else "";
    var testFile := TestFile(script) && entry.trailing == [];
    FirstKind(NativeRunner(row, options) && testFile, testFile && AnyNative(commands, options),
              JestWorkerFile(script) && AnyJest(commands, options), VitestWorkerFile(script) && AnyVitest(commands, options))
  }

  predicate Guarded(commands: seq<Row>) {
    exists i :: 0 <= i < |commands| && WatchOrServer(commands[i])
  }

  function Worker(row: Row, owner: Row, commands: seq<Row>, options: Options): Option<G.Classification> {
    var entry := Parse(row, options);
    if Guarded(commands) || entry == None then None
    else
      match Kind(row, entry.value, commands, options)
      case None => None
      case Some(kind) => Some(G.Classification(kind, G.Key(owner.pid, owner.start)))
  }

  /** What the line of parents allows: the owner must be an application server, and nothing between it
      and the worker may watch or serve. */
  function Classified(row: Row, lineage: seq<Row>, options: Options): Option<G.Classification> {
    match Owner(lineage)
    case None => None
    case Some(owner) => Worker(row, owner, Below(lineage), options)
  }

  function Eligible(row: Row, table: Table, uid: int, options: Options): Option<G.Classification> {
    if !Node(row) || row.uid != uid || row.effectiveUid != uid || row.cgroup == "" || row.cwd == "" || row.argv == []
       || WatchOrServer(row) || HasChild(table, row.pid)
    then None
    else Classified(row, Ancestors(row, table), options)
  }

  /** Where the line first has an application server; its length if nowhere. */
  method FindServer(lineage: seq<Row>) returns (n: nat)
    ensures n <= |lineage| && Owner(lineage) == (if n < |lineage| then Some(lineage[n]) else None)
    ensures Below(lineage) == lineage[..n]
  {
    n := 0;
    while n < |lineage| && !AppServer(lineage[n])
      invariant n <= |lineage| && Owner(lineage[n..]) == Owner(lineage)
      invariant lineage[..n] + Below(lineage[n..]) == Below(lineage)
    {
      assert lineage[n..] == [lineage[n]] + lineage[n + 1..];
      assert lineage[..n + 1] == lineage[..n] + [lineage[n]];
      n := n + 1;
    }
  }

  /** The decision as it is taken, loop by loop. */
  method Decide(row: Row, table: Table, uid: int, options: Options) returns (c: Option<G.Classification>)
    ensures c == Eligible(row, table, uid, options)
  {
    if !Node(row) || row.uid != uid || row.effectiveUid != uid || row.cgroup == "" || row.cwd == "" || row.argv == []
       || WatchOrServer(row) || HasChild(table, row.pid) {
      return None;
    }
    var lineage := CollectAncestors(row, table);
    var n := FindServer(lineage);
    if n == |lineage| || Guarded(lineage[..n]) {
      return None;
    }
    var entry := ParseNodeEntry(row, options);
    if entry == None {
      return None;
    }
    var kind := Kind(row, entry.value, lineage[..n], options);
    c := if kind.Some? then Some(G.Classification(kind.value, G.Key(lineage[n].pid, lineage[n].start))) else None;
  }

  // ---- The focused look ----

  const THREADS: nat := 256

  datatype Focus = Focus(rows: Table, complete: bool)

  /** The target and its parents up to the first application server. A missing parent, or no end within
      the limit, leaves the look incomplete. */
  function Climb(table: Table, current: nat, rows: Table, limit: nat): Focus
    decreases limit
  {
    if limit == 0 then Focus(rows, false)
    else if current == 0 || current in rows then Focus(rows, true)
    else if current !in table then Focus(rows, rows == map[])
    else
      var more := rows[current := table[current]];
      if AppServer(table[current]) then Focus(more, true) else Climb(table, table[current].ppid, more, limit - 1)
  }

  /** The children the target's threads list: one of them is enough. */
  function FirstChild(threads: seq<seq<nat>>): Option<nat> {
    if threads == [] then None
    else if threads[0] != [] then Some(threads[0][0])
    else FirstChild(threads[1..])
  }

  function WithMarker(rows: Table, pid: nat, threads: seq<seq<nat>>): Table {
    match FirstChild(threads)
    case Some(child) => if pid in rows then rows[child := Marker(child, pid)] else rows
    case None => rows
  }

  /** The threads list the children the table has. */
  predicate ListChildren(table: Table, pid: nat, threads: seq<seq<nat>>) {
    && (forall t :: t in threads ==> forall c :: c in t ==> c in table && table[c].ppid == pid)
    && (HasChild(table, pid) ==> exists t :: t in threads && t != [])
  }

  /** Rows carry their own numbers, and no process has the number zero. */
  predicate Sound(table: Table) {
    0 !in table && forall p :: p in table ==> table[p].pid == p
  }

  method TargetSnapshot(table: Table, pid: nat, threads: seq<seq<nat>>) returns (focus: Focus)
    ensures var climbed := Climb(table, pid, map[], DEPTH);
            focus.complete ==> climbed.complete && focus.rows == WithMarker(climbed.rows, pid, threads)
    ensures Climb(table, pid, map[], DEPTH).complete && |threads| <= THREADS ==> focus.complete
  {
    var rows: Table, current, complete, ended := map[], pid, true, false;
    var i := 0;
    while i < DEPTH && !ended
      invariant i <= DEPTH && (ended ==> complete == Climb(table, pid, map[], DEPTH).complete)
      invariant if ended then rows == Climb(table, pid, map[], DEPTH).rows
                else complete && Climb(table, pid, map[], DEPTH) == Climb(table, current, rows, DEPTH - i)
      decreases DEPTH - i, !ended
    {
      if current == 0 || current in rows {
        ended := true;
      } else if current !in table {
        complete := rows == map[];
        ended := true;
      } else {
        rows := rows[current := table[current]];
        if AppServer(table[current]) {
          ended := true;
        } else {
          current := table[current].ppid;
          i := i + 1;
        }
      }
    }
    if !ended {
      complete := false;
    }
    var k := 0;
    while k < |threads| && k < THREADS && threads[k] == []
      invariant k <= |threads| && FirstChild(threads) == FirstChild(threads[k..])
    {
      k := k + 1;
    }
    if pid in rows && k < |threads| {
      if k >= THREADS {
        complete := false;
      } else {
        rows := rows[threads[k][0] := Marker(threads[k][0], pid)];
      }
    }
    focus := Focus(rows, complete);
  }

  // ---- The focused look decides alike ----

  /** Every row of the climb is the table's, and what was there before stays. */
  lemma {:induction false} ClimbRows(table: Table, current: nat, rows: Table, limit: nat)
    requires forall p :: p in rows ==> p in table && rows[p] == table[p]
    ensures var r := Climb(table, current, rows, limit).rows;
            rows.Keys <= r.Keys && forall p :: p in r ==> p in table && r[p] == table[p]
    decreases limit
  {
    if limit > 0 && current != 0 && current !in rows && current in table && !AppServer(table[current]) {
      ClimbRows(table, table[current].ppid, rows[current := table[current]], limit - 1);
    }
  }

  /** The line of parents read from a complete climb is the table's line up to its application server. */
  lemma {:induction false} ClimbLineage(table: Table, current: nat, rows: Table, limit: nat, n: nat)
    requires Sound(table) && rows != map[] && limit <= n
    requires forall p :: p in rows ==> p in table && rows[p] == table[p]
    requires Climb(table, current, rows, limit).complete
    ensures Lineage(Climb(table, current, rows, limit).rows, current, rows.Keys, n)
         == UpToServer(Lineage(table, current, rows.Keys, n))
    decreases limit
  {
    var r := Climb(table, current, rows, limit).rows;
    ClimbRows(table, current, rows, limit);
    if current != 0 && current !in rows {
      var more := rows[current := table[current]];
      assert more.Keys == rows.Keys + {current};
      if AppServer(table[current]) {
        assert r == more;
        assert Lineage(r, table[current].ppid, more.Keys, n - 1) == [];
      } else {
        ClimbRows(table, table[current].ppid, more, limit - 1);
        ClimbLineage(table, table[current].ppid, more, limit - 1, n - 1);
        assert current in r;
      }
    }
  }

  /** A child shows in the focused look exactly when the table has one. */
  lemma ChildShows(table: Table, pid: nat, rows: Table, threads: seq<seq<nat>>)
    requires ListChildren(table, pid, threads) && pid in rows
    requires forall p :: p in rows ==> p in table && rows[p] == table[p]
    ensures HasChild(WithMarker(rows, pid, threads), pid) <==> HasChild(table, pid)
    ensures !HasChild(table, pid) ==> WithMarker(rows, pid, threads) == rows
  {
    FirstChildListed(threads);
    var r := WithMarker(rows, pid, threads);
    if FirstChild(threads).Some? {
      var c := FirstChild(threads).value;
      assert r[c].ppid == pid;
      assert c in table && table[c].ppid == pid;
    }
  }

  lemma {:induction false} FirstChildListed(threads: seq<seq<nat>>)
    ensures FirstChild(threads).Some? <==> exists t :: t in threads && t != []
    ensures FirstChild(threads).Some? ==> exists t :: t in threads && FirstChild(threads).value in t
    decreases |threads|
  {
    if threads != [] {
      assert threads == [threads[0]] + threads[1..];
      if threads[0] != [] {
        assert threads[0] in threads && FirstChild(threads).value in threads[0];
      } else {
        FirstChildListed(threads[1..]);
        if FirstChild(threads).Some? {
          var t :| t in threads[1..] && FirstChild(threads).value in t;
          assert t in threads && t != [];
        }
      }
    }
  }

  lemma NodeIsNoServer(row: Row)
    requires Node(row)
    ensures !AppServer(row)
  {
    assert |"node"| != |"codex"| && |"nodejs"| != |"codex"|;
  }

  lemma ClassifiedAlike(row: Row, lineage: seq<Row>, options: Options)
    ensures Classified(row, UpToServer(lineage), options) == Classified(row, lineage, options)
  {
    SameOwner(lineage);
  }

  /** The target is in its climb, and the line of parents read from it is the table's. */
  lemma ClimbFromTarget(table: Table, pid: nat)
    requires Sound(table) && pid in table && Climb(table, pid, map[], DEPTH).complete
    ensures var climbed := Climb(table, pid, map[], DEPTH).rows;
            && pid in climbed && (forall p :: p in climbed ==> p in table && climbed[p] == table[p])
            && (!AppServer(table[pid]) ==> Ancestors(table[pid], climbed) == UpToServer(Ancestors(table[pid], table)))
  {
    var none: Table, first: Table := map[], map[pid := table[pid]];
    ClimbRows(table, pid, none, DEPTH);
    if AppServer(table[pid]) {
      assert Climb(table, pid, none, DEPTH).rows == first;
    } else {
      assert none[pid := table[pid]] == first && first.Keys == {pid};
      ClimbRows(table, table[pid].ppid, first, DEPTH - 1);
      ClimbLineage(table, table[pid].ppid, first, DEPTH - 1, DEPTH);
    }
  }

  /** A complete focused look decides on its target exactly as the whole table does. */
  lemma FocusDecides(table: Table, pid: nat, threads: seq<seq<nat>>, uid: int, options: Options)
    requires Sound(table) && pid in table && ListChildren(table, pid, threads)
    requires Climb(table, pid, map[], DEPTH).complete
    ensures var rows := WithMarker(Climb(table, pid, map[], DEPTH).rows, pid, threads);
            pid in rows && Eligible(rows[pid], rows, uid, options) == Eligible(table[pid], table, uid, options)
  {
    var climbed := Climb(table, pid, map[], DEPTH).rows;
    var rows := WithMarker(climbed, pid, threads);
    ClimbFromTarget(table, pid);
    ChildShows(table, pid, climbed, threads);
    if HasChild(table, pid) {
      assert rows[pid].pid == pid;
    } else if Node(table[pid]) {
      NodeIsNoServer(table[pid]);
      ClassifiedAlike(table[pid], Ancestors(table[pid], table), options);
    }
  }
}
