/** Who is eligible, said of the process table itself: the decision admits a process exactly when its line of
    parents, its own command line and those of the commands above it are as these rules demand. */
module EligibilityRules {
  import opened Basics
  import opened Eligibility

  // ---- Names and words ----

  /** The last part of a path: what follows its last slash. */
  ghost predicate LastPart(path: string, name: string) {
    && |name| <= |path| && path[|path| - |name|..] == name && '/' !in name
    && (|name| < |path| ==> path[|path| - |name| - 1] == '/')
  }

  lemma {:induction false} BaseNameLast(path: string)
    ensures LastPart(path, BaseName(path))
    decreases |path|
  {
    if path != "" && path[|path| - 1] != '/' {
      var front, last := path[..|path| - 1], path[|path| - 1];
      BaseNameLast(front);
      LastPartGrows(front, BaseName(front), last);
      assert path == front + [last];
    }
  }

  lemma LastPartGrows(path: string, name: string, c: char)
    requires LastPart(path, name) && c != '/'
    ensures LastPart(path + [c], name + [c])
  {
    var more := path + [c];
    assert more[|more| - |name| - 1..] == path[|path| - |name|..] + [c];
  }

  lemma NoLonger(path: string, a: string, b: string)
    requires LastPart(path, a) && LastPart(path, b)
    ensures |a| <= |b|
  {
    assert forall k :: 0 <= k < |a| ==> a[k] == path[|path| - |a| + k];
    if |a| > |b| {
      assert false;
    }
  }

  lemma LastPartUnique(path: string, a: string, b: string)
    requires LastPart(path, a) && LastPart(path, b)
    ensures a == b
  {
    NoLonger(path, a, b);
    NoLonger(path, b, a);
  }

  lemma NameExactly(path: string, name: string)
    ensures BaseName(path) == name <==> LastPart(path, name)
  {
    BaseNameLast(path);
    if LastPart(path, name) {
      LastPartUnique(path, BaseName(path), name);
    }
  }

  /** The runtime that workers run in. */
  ghost predicate IsNode(row: Row) {
    LastPart(row.executable, "node") || LastPart(row.executable, "nodejs")
  }

  /** An application server: the word is among the first three after the command. */
  ghost predicate IsServer(row: Row) {
    LastPart(row.executable, "codex") && exists i :: 1 <= i < |row.argv| && i <= 3 && row.argv[i] == "app-server"
  }

  /** A word that makes a command one that watches, serves or is inspected. */
  ghost predicate Standing(word: string) {
    || word == "app-server" || word == "serve" || word == "server" || word == "dev" || word == "--daemon"
    || word == "--watchAll" || word == "--watch-all"
    || exists flag :: (flag == "--watch" || flag == "--inspect" || flag == "--inspect-brk" || flag == "--listen")
                      && (word == flag || flag + "=" <= word)
  }

  ghost predicate Stands(row: Row) {
    exists i :: 1 <= i < |row.argv| && Standing(row.argv[i])
  }

  lemma NodeExactly(row: Row)
    ensures Node(row) <==> IsNode(row)
  {
    NameExactly(row.executable, "node");
    NameExactly(row.executable, "nodejs");
  }

  lemma ServerExactly(row: Row)
    ensures AppServer(row) <==> IsServer(row)
  {
    NameExactly(row.executable, "codex");
    var args := Args(row);
    var near := if |args| <= 3 then args else args[..3];
    if "app-server" in near {
      var k :| 0 <= k < |near| && near[k] == "app-server";
      assert row.argv[k + 1] == "app-server";
    }
    if exists i :: 1 <= i < |row.argv| && i <= 3 && row.argv[i] == "app-server" {
      var i :| 1 <= i < |row.argv| && i <= 3 && row.argv[i] == "app-server";
      assert near[i - 1] == "app-server";
    }
  }

  lemma StandingExactly(word: string)
    ensures Standing(word) <==>
      word in PROTECTED || word in WATCH || StartsWith(word, "--watch=") || StartsWith(word, "--inspect=")
      || StartsWith(word, "--inspect-brk=") || StartsWith(word, "--listen=")
  {
    assert "--watch" + "=" == "--watch=" && "--inspect" + "=" == "--inspect=";
    assert "--inspect-brk" + "=" == "--inspect-brk=" && "--listen" + "=" == "--listen=";
  }

  lemma WatchExactly(row: Row)
    ensures WatchOrServer(row) <==> Stands(row)
  {
    if WatchOrServer(row) {
      var i :| 0 <= i < |Args(row)| && var word := Args(row)[i];
        word in PROTECTED || word in WATCH || StartsWith(word, "--watch=") || StartsWith(word, "--inspect=")
        || StartsWith(word, "--inspect-brk=") || StartsWith(word, "--listen=");
      StandingExactly(Args(row)[i]);
      assert row.argv[i + 1] == Args(row)[i];
    }
    if Stands(row) {
      var i :| 1 <= i < |row.argv| && Standing(row.argv[i]);
      StandingExactly(row.argv[i]);
      assert Args(row)[i - 1] == row.argv[i];
    }
  }

  // ---- The line of parents ----

  /** These are the numbers of the parents of a process, the nearest first: each is in the table, none comes up
      twice or is the process itself, and there are at most 64. */
  ghost predicate IsLine(row: Row, table: Table, line: seq<nat>) {
    && |line| <= 64 && (line != [] ==> line[0] == row.ppid)
    && (forall j :: 0 <= j < |line| ==> line[j] in table && line[j] != row.pid)
    && (forall j :: 0 < j < |line| ==> line[j] == table[line[j - 1]].ppid)
    && (forall i, j :: 0 <= i < j < |line| ==> line[i] != line[j])
  }

  /** The numbers of the rows the walk over parents collects. */
  function Numbers(table: Table, current: nat, seen: set<nat>, limit: nat): seq<nat>
    decreases limit
  {
    if limit == 0 || current !in table || current in seen then []
    else [current] + Numbers(table, table[current].ppid, seen + {current}, limit - 1)
  }

  function RowsOf(table: Table, line: seq<nat>): seq<Row>
    requires forall j :: 0 <= j < |line| ==> line[j] in table
  {
    seq(|line|, j requires 0 <= j < |line| => table[line[j]])
  }

  lemma {:induction false} NumbersLine(table: Table, current: nat, seen: set<nat>, limit: nat)
    ensures var line := Numbers(table, current, seen, limit);
      && |line| <= limit && (line != [] ==> line[0] == current)
      && (forall j :: 0 <= j < |line| ==> line[j] in table && line[j] !in seen)
      && (forall j :: 0 < j < |line| ==> line[j] == table[line[j - 1]].ppid)
      && (forall i, j :: 0 <= i < j < |line| ==> line[i] != line[j])
      && RowsOf(table, line) == Lineage(table, current, seen, limit)
    decreases limit
  {
    if limit > 0 && current in table && current !in seen {
      NumbersLine(table, table[current].ppid, seen + {current}, limit - 1);
      var rest := Numbers(table, table[current].ppid, seen + {current}, limit - 1);
      assert RowsOf(table, [current] + rest) == [table[current]] + RowsOf(table, rest);
    }
  }

  /** Every line of parents is what the walk collects, as far as it goes. */
  lemma {:induction false} LineIsPrefix(table: Table, current: nat, seen: set<nat>, limit: nat, line: seq<nat>)
    requires |line| <= limit && (line != [] ==> line[0] == current)
    requires forall j :: 0 <= j < |line| ==> line[j] in table && line[j] !in seen
    requires forall j :: 0 < j < |line| ==> line[j] == table[line[j - 1]].ppid
    requires forall i, j :: 0 <= i < j < |line| ==> line[i] != line[j]
    ensures line <= Numbers(table, current, seen, limit)
    decreases |line|
  {
    if line != [] {
      var rest := line[1..];
      assert forall j :: 0 <= j < |rest| ==> rest[j] == line[j + 1];
      LineIsPrefix(table, table[current].ppid, seen + {current}, limit - 1, rest);
      assert line == [current] + rest;
    }
  }

  /** A line that ends at the first application server above the process. */
  ghost predicate LeadsToServer(row: Row, table: Table, line: seq<nat>) {
    && IsLine(row, table, line) && line != []
    && forall j :: 0 <= j < |line| ==> (IsServer(table[line[j]]) <==> j == |line| - 1)
  }

  lemma {:induction false} OwnerAt(rows: seq<Row>, n: nat)
    requires n < |rows| && AppServer(rows[n]) && forall j :: 0 <= j < n ==> !AppServer(rows[j])
    ensures Owner(rows) == Some(rows[n]) && Below(rows) == rows[..n]
    decreases n
  {
    if n > 0 {
      OwnerAt(rows[1..], n - 1);
      assert rows[..n] == [rows[0]] + rows[1..][..n - 1];
    }
  }

  lemma {:induction false} OwnerIndex(rows: seq<Row>) returns (n: nat)
    requires Owner(rows).Some?
    ensures n < |rows| && AppServer(rows[n]) && forall j :: 0 <= j < n ==> !AppServer(rows[j])
  {
    n := 0;
    if !AppServer(rows[0]) {
      var k := OwnerIndex(rows[1..]);
      n := k + 1;
      forall j | 0 <= j < n ensures !AppServer(rows[j]) {
        assert j > 0 ==> rows[j] == rows[1..][j - 1];
      }
    }
  }

  /** The rows of the parents are those of their numbers. */
  lemma AncestorsAt(row: Row, table: Table, all: seq<nat>)
    requires all == Numbers(table, row.ppid, {row.pid}, DEPTH)
    ensures IsLine(row, table, all) && |Ancestors(row, table)| == |all|
    ensures forall j :: 0 <= j < |all| ==> Ancestors(row, table)[j] == table[all[j]]
  {
    NumbersLine(table, row.ppid, {row.pid}, DEPTH);
    var rows := RowsOf(table, all);
    assert forall j :: 0 <= j < |all| ==> rows[j] == table[all[j]];
  }

  /** The owner is the server at the end of such a line, and the commands between are the rest of it. */
  lemma LineDecides(row: Row, table: Table, line: seq<nat>)
    requires LeadsToServer(row, table, line)
    ensures Owner(Ancestors(row, table)) == Some(table[line[|line| - 1]])
    ensures Below(Ancestors(row, table)) == RowsOf(table, line[..|line| - 1])
  {
    var all, rows, n := Numbers(table, row.ppid, {row.pid}, DEPTH), Ancestors(row, table), |line| - 1;
    AncestorsAt(row, table, all);
    LineIsPrefix(table, row.ppid, {row.pid}, DEPTH, line);
    PrefixDecides(row, table, line, all, rows);
  }

  /** The rows of a line are those its numbers name, for as far as it goes. */
  lemma PrefixRows(table: Table, line: seq<nat>, all: seq<nat>, rows: seq<Row>)
    requires line <= all && |rows| == |all|
    requires forall j :: 0 <= j < |all| ==> all[j] in table && rows[j] == table[all[j]]
    ensures forall j :: 0 <= j < |line| ==> line[j] in table && rows[j] == table[line[j]]
  {
    assert forall j :: 0 <= j < |line| ==> all[j] == line[j];
  }

  lemma RowsBefore(table: Table, line: seq<nat>, rows: seq<Row>, n: nat)
    requires n <= |line| <= |rows| && forall j :: 0 <= j < |line| ==> line[j] in table && rows[j] == table[line[j]]
    ensures rows[..n] == RowsOf(table, line[..n])
  {
  }

  lemma ServerEnds(table: Table, line: seq<nat>, rows: seq<Row>)
    requires line != [] && |line| <= |rows|
    requires forall j :: 0 <= j < |line| ==> line[j] in table && rows[j] == table[line[j]]
    requires forall j :: 0 <= j < |line| ==> (IsServer(table[line[j]]) <==> j == |line| - 1)
    ensures ServerLast(rows, |line| - 1)
  {
  }

  lemma PrefixDecides(row: Row, table: Table, line: seq<nat>, all: seq<nat>, rows: seq<Row>)
    requires LeadsToServer(row, table, line) && line <= all && |rows| == |all|
    requires forall j :: 0 <= j < |all| ==> all[j] in table && rows[j] == table[all[j]]
    ensures Owner(rows) == Some(table[line[|line| - 1]]) && Below(rows) == RowsOf(table, line[..|line| - 1])
  {
    PrefixRows(table, line, all, rows);
    ServerEnds(table, line, rows);
    OwnerIs(rows, |line| - 1);
    RowsBefore(table, line, rows, |line| - 1);
  }

  lemma OwnerIs(rows: seq<Row>, n: nat)
    requires ServerLast(rows, n)
    ensures Owner(rows) == Some(rows[n]) && Below(rows) == rows[..n]
  {
    FirstServerExactly(rows, n);
    OwnerAt(rows, n);
  }

  /** Of these rows the last is an application server, and no other. */
  ghost predicate ServerLast(rows: seq<Row>, n: nat) {
    n < |rows| && forall j :: 0 <= j <= n ==> (IsServer(rows[j]) <==> j == n)
  }

  lemma FirstServerExactly(rows: seq<Row>, n: nat)
    requires n < |rows|
    ensures ServerLast(rows, n) <==> AppServer(rows[n]) && forall j :: 0 <= j < n ==> !AppServer(rows[j])
  {
    forall j | 0 <= j <= n ensures AppServer(rows[j]) <==> IsServer(rows[j]) {
      ServerExactly(rows[j]);
    }
  }

  lemma FirstOfLine(row: Row, table: Table, all: seq<nat>, n: nat)
    requires IsLine(row, table, all) && n < |all|
    ensures IsLine(row, table, all[..n + 1])
  {
  }

  lemma OwnerHasLine(row: Row, table: Table) returns (line: seq<nat>)
    requires Owner(Ancestors(row, table)).Some?
    ensures LeadsToServer(row, table, line)
  {
    var all, rows := Numbers(table, row.ppid, {row.pid}, DEPTH), Ancestors(row, table);
    AncestorsAt(row, table, all);
    var n := OwnerIndex(rows);
    FirstServerExactly(rows, n);
    FirstOfLine(row, table, all, n);
    line := all[..n + 1];
    LineServer(table, line, rows);
  }

  lemma LineServer(table: Table, line: seq<nat>, rows: seq<Row>)
    requires line != [] && ServerLast(rows, |line| - 1)
    requires forall j :: 0 <= j < |line| ==> line[j] in table && rows[j] == table[line[j]]
    ensures forall j :: 0 <= j < |line| ==> (IsServer(table[line[j]]) <==> j == |line| - 1)
  {
  }

  // ---- Command lines ----

  /** The name of an option: the word, or what comes before its first equals sign. */
  ghost predicate OptionName(word: string, name: string) {
    name <= word && '=' !in name && (|name| < |word| ==> word[|name|] == '=')
  }

  lemma {:induction false} BeforeEqualsNames(word: string)
    ensures OptionName(word, BeforeEquals(word))
    ensures forall name :: OptionName(word, name) ==> name == BeforeEquals(word)
    decreases |word|
  {
    if word != "" && word[0] != '=' {
      var rest := word[1..];
      BeforeEqualsNames(rest);
      assert [word[0]] + rest == word;
      forall name | OptionName(word, name) ensures name == BeforeEquals(word) {
        assert name != "" && name[0] == word[0];
        assert OptionName(rest, name[1..]);
      }
    }
  }

  /** An option that makes the runtime run something else. */
  ghost predicate Elsewhere(word: string, options: Options) {
    exists name :: OptionName(word, name) && name in options.other
  }

  /** Of the words from `base` up to `n`, `marks` tells which are values of the option before them; all others are
      options that are understood. */
  ghost predicate Understood(args: seq<string>, base: nat, n: nat, marks: seq<bool>, options: Options) {
    && base <= n <= |args| && |marks| == n - base && (marks != [] ==> !marks[0])
    && forall i :: base <= i < n && !marks[i - base] ==> OptionAt(args, base, n, marks, i, options)
  }

  ghost predicate OptionAt(args: seq<string>, base: nat, n: nat, marks: seq<bool>, i: nat, options: Options)
    requires base <= i < n <= |args| && |marks| == n - base
  {
    && args[i] != "--" && !Elsewhere(args[i], options)
    && (args[i] in options.valued || args[i] in options.flags || ("--" <= args[i] && '=' in args[i]))
    && (if args[i] in options.valued then i + 1 < n && marks[i + 1 - base] && (i + 2 < n ==> !marks[i + 2 - base])
        else i + 1 < n ==> !marks[i + 1 - base])
  }

  ghost predicate TestFlag(args: seq<string>, base: nat, n: nat, marks: seq<bool>, options: Options)
    requires base <= n <= |args| && |marks| == n - base
  {
    exists i :: base <= i < n && !marks[i - base] && args[i] == "--test" && args[i] in options.flags && args[i] !in options.valued
  }

  /** What follows the options: nothing, the mark that ends them, or a word that is no option. */
  ghost predicate Stops(args: seq<string>, n: nat, options: Options) {
    n == |args|
    || (n < |args|
        && (args[n] == "--"
            || (!Elsewhere(args[n], options) && args[n] !in options.valued && args[n] !in options.flags && !("-" <= args[n]))))
  }

  /** The script is the word that is no option, or the one after the mark; the rest trails it. */
  function EntryAt(args: seq<string>, n: nat, native: bool): Entry
    requires n <= |args|
  {
    if n == |args| || (args[n] == "--" && n + 1 == |args|) then Entry(native, None, [])
    else if args[n] == "--" then Entry(native, Some(args[n + 1]), args[n + 2..])
    else Entry(native, Some(args[n]), args[n + 1..])
  }

  lemma StopParsed(args: seq<string>, n: nat, native: bool, options: Options)
    requires n <= |args| && Stops(args, n, options)
    ensures ParseFrom(args, n, native, options) == Some(EntryAt(args, n, native))
  {
    if n < |args| {
      BeforeEqualsNames(args[n]);
      assert "--" <= args[n] ==> "-" <= args[n];
    }
  }

  lemma {:induction false} OptionsRead(args: seq<string>, base: nat, n: nat, marks: seq<bool>, native: bool, options: Options)
    requires Understood(args, base, n, marks, options)
    ensures ParseFrom(args, base, native, options) == ParseFrom(args, n, native || TestFlag(args, base, n, marks, options), options)
    decreases n - base
  {
    if base < n {
      assert OptionAt(args, base, n, marks, base, options);
      BeforeEqualsNames(args[base]);
      if args[base] in options.valued {
        OptionsShift(args, base, n, marks, 2, options);
        OptionsRead(args, base + 2, n, marks[2..], native, options);
      } else {
        OptionsShift(args, base, n, marks, 1, options);
        OptionsRead(args, base + 1, n, marks[1..], native || (args[base] in options.flags && args[base] == "--test"), options);
      }
    }
  }

  /** The options after the first one, and its value if it takes one. */
  lemma OptionsShift(args: seq<string>, base: nat, n: nat, marks: seq<bool>, k: nat, options: Options)
    requires Understood(args, base, n, marks, options) && base < n
    requires k == if args[base] in options.valued then 2 else 1
    ensures base + k <= n && Understood(args, base + k, n, marks[k..], options)
    ensures TestFlag(args, base, n, marks, options) <==>
              TestFlag(args, base + k, n, marks[k..], options) || (k == 1 && args[base] == "--test" && args[base] in options.flags)
  {
    assert OptionAt(args, base, n, marks, base, options);
    forall i {:trigger args[i]} | base + k <= i < n && !marks[k..][i - (base + k)]
      ensures OptionAt(args, base + k, n, marks[k..], i, options)
    {
      assert OptionAt(args, base, n, marks, i, options);
    }
    if TestFlag(args, base, n, marks, options) {
      var i :| base <= i < n && !marks[i - base] && args[i] == "--test" && args[i] in options.flags && args[i] !in options.valued;
      assert i >= base + k ==> !marks[k..][i - (base + k)];
    }
    if TestFlag(args, base + k, n, marks[k..], options) {
      var i :| base + k <= i < n && !marks[k..][i - (base + k)] && args[i] == "--test" && args[i] in options.flags && args[i] !in options.valued;
      assert !marks[i - base];
    }
  }

  lemma {:induction false} ParsedMarks(args: seq<string>, base: nat, native: bool, options: Options) returns (n: nat, marks: seq<bool>)
    requires base <= |args| && ParseFrom(args, base, native, options).Some?
    ensures Understood(args, base, n, marks, options) && Stops(args, n, options)
    decreases |args| - base
  {
    n, marks := base, [];
    if base < |args| && args[base] != "--" {
      var word := args[base];
      BeforeEqualsNames(word);
      if word in options.valued {
        n, marks := ParsedMarks(args, base + 2, native, options);
        marks := AddOption(args, base, n, marks, 2, options);
      } else if word in options.flags || (StartsWith(word, "--") && '=' in word) {
        n, marks := ParsedMarks(args, base + 1, native || (word in options.flags && word == "--test"), options);
        marks := AddOption(args, base, n, marks, 1, options);
      }
    }
  }

  lemma AddOption(args: seq<string>, base: nat, n: nat, rest: seq<bool>, k: nat, options: Options) returns (marks: seq<bool>)
    requires base < |args| && base + k <= |args| && k == (if args[base] in options.valued then 2 else 1)
    requires Understood(args, base + k, n, rest, options)
    requires args[base] != "--" && !Elsewhere(args[base], options)
    requires args[base] in options.valued || args[base] in options.flags || ("--" <= args[base] && '=' in args[base])
    ensures Understood(args, base, n, marks, options)
  {
    marks := (if k == 2 then [false, true] else [false]) + rest;
    forall i | base <= i < n && !marks[i - base] ensures OptionAt(args, base, n, marks, i, options) {
      if i >= base + k {
        assert rest[i - (base + k)] == marks[i - base];
        assert OptionAt(args, base + k, n, rest, i, options);
      }
    }
  }

  /** The command line is read as these words say, or not at all. */
  ghost predicate ReadAs(args: seq<string>, n: nat, marks: seq<bool>, options: Options, entry: Entry) {
    Understood(args, 0, n, marks, options) && Stops(args, n, options) && entry == EntryAt(args, n, TestFlag(args, 0, n, marks, options))
  }

  lemma ParseExactly(row: Row, options: Options, entry: Entry)
    ensures Parse(row, options) == Some(entry) <==> exists n, marks :: ReadAs(Args(row), n, marks, options, entry)
  {
    var args := Args(row);
    if Parse(row, options) == Some(entry) {
      var n, marks := ParsedMarks(args, 0, false, options);
      OptionsRead(args, 0, n, marks, false, options);
      StopParsed(args, n, TestFlag(args, 0, n, marks, options), options);
      assert ReadAs(args, n, marks, options, entry);
    }
    if exists n, marks :: ReadAs(args, n, marks, options, entry) {
      var n, marks :| ReadAs(args, n, marks, options, entry);
      OptionsRead(args, 0, n, marks, false, options);
      StopParsed(args, n, TestFlag(args, 0, n, marks, options), options);
    }
  }

  // ---- Kinds of workers ----

  /** `.test.` or `.spec.`, then `js` or `ts`, with `c` or `m` before it or not, and `x` after it or not. */
  ghost predicate NamesTest(script: string) {
    exists stem, kind, prefix, letter, suffix ::
      && (kind == ".test." || kind == ".spec.") && (prefix == "" || prefix == "c" || prefix == "m")
      && (letter == "j" || letter == "t") && (suffix == "" || suffix == "x")
      && script == stem + kind + prefix + letter + "s" + suffix
  }

  function Extension(prefix: string, letter: string, suffix: string): string {
    "." + prefix + letter + "s" + suffix
  }

  ghost predicate Parts(prefix: string, letter: string, suffix: string) {
    (prefix == "" || prefix == "c" || prefix == "m") && (letter == "j" || letter == "t") && (suffix == "" || suffix == "x")
  }

  lemma ExtensionListed(prefix: string, letter: string, suffix: string)
    requires Parts(prefix, letter, suffix)
    ensures Extension(prefix, letter, suffix) in TEST_EXTENSIONS
  {
    var ext := Extension(prefix, letter, suffix);
    if prefix == "" {
      assert ext == if letter == "j" then if suffix == "" then ".js" else ".jsx" else if suffix == "" then ".ts" else ".tsx";
    } else if prefix == "c" {
      assert ext == if letter == "j" then if suffix == "" then ".cjs" else ".cjsx" else if suffix == "" then ".cts" else ".ctsx";
    } else {
      assert ext == if letter == "j" then if suffix == "" then ".mjs" else ".mjsx" else if suffix == "" then ".mts" else ".mtsx";
    }
  }

  lemma ListedExtension(ext: string) returns (prefix: string, letter: string, suffix: string)
    requires ext in TEST_EXTENSIONS
    ensures Parts(prefix, letter, suffix) && ext == Extension(prefix, letter, suffix)
  {
    prefix := if ext[1] == 'c' then "c" else if ext[1] == 'm' then "m" else "";
    letter := if ext[|prefix| + 1] == 'j' then "j" else "t";
    suffix := if ext[|ext| - 1] == 'x' then "x" else "";
  }

  lemma TestFileNames(script: string, kind: string, ext: string)
    requires (kind == ".test" || kind == ".spec") && ext in TEST_EXTENSIONS && EndsWith(script, kind + ext)
    ensures NamesTest(script)
  {
    var prefix, letter, suffix := ListedExtension(ext);
    var stem := script[..|script| - |kind + ext|];
    assert script == stem + script[|stem|..];
    Spells(script, stem, kind, prefix, letter, suffix);
  }

  lemma Regroup(stem: string, kind: string, dot: string, prefix: string, letter: string, es: string, suffix: string)
    ensures stem + (kind + (dot + prefix + letter + es + suffix)) == stem + (kind + dot) + prefix + letter + es + suffix
  {
    var tail := prefix + letter + es + suffix;
    assert dot + prefix + letter + es + suffix == dot + tail;
    assert stem + (kind + (dot + tail)) == stem + (kind + dot) + tail;
    assert stem + (kind + dot) + tail == stem + (kind + dot) + prefix + letter + es + suffix;
  }

  lemma Spells(script: string, stem: string, kind: string, prefix: string, letter: string, suffix: string)
    requires (kind == ".test" || kind == ".spec") && Parts(prefix, letter, suffix)
    requires script == stem + (kind + Extension(prefix, letter, suffix))
    ensures NamesTest(script)
  {
    Regroup(stem, kind, ".", prefix, letter, "s", suffix);
    var dotted := kind + ".";
    assert dotted == ".test." || dotted == ".spec.";
    assert script == stem + dotted + prefix + letter + "s" + suffix;
  }

  lemma NamedTestFile(script: string, stem: string, kind: string, prefix: string, letter: string, suffix: string)
    requires (kind == ".test." || kind == ".spec.") && Parts(prefix, letter, suffix)
    requires script == stem + kind + prefix + letter + "s" + suffix
    ensures TestFile(script)
  {
    ExtensionListed(prefix, letter, suffix);
    var base, ext := if kind == ".test." then ".test" else ".spec", Extension(prefix, letter, suffix);
    assert base + "." == kind;
    Regroup(stem, base, ".", prefix, letter, "s", suffix);
    EndsExactly(script, base + ext);
    assert base in {".test", ".spec"};
  }

  lemma TestFileExactly(script: string)
    ensures TestFile(script) <==> NamesTest(script)
  {
    if TestFile(script) {
      var kind, ext :| kind in {".test", ".spec"} && ext in TEST_EXTENSIONS && EndsWith(script, kind + ext);
      TestFileNames(script, kind, ext);
    }
    if NamesTest(script) {
      var stem, kind, prefix, letter, suffix :|
        (kind == ".test." || kind == ".spec.") && (prefix == "" || prefix == "c" || prefix == "m")
        && (letter == "j" || letter == "t") && (suffix == "" || suffix == "x")
        && script == stem + kind + prefix + letter + "s" + suffix;
      NamedTestFile(script, stem, kind, prefix, letter, suffix);
    }
  }

  /** A command that runs test files by itself. */
  ghost predicate RunsTests(row: Row, options: Options) {
    IsNode(row) && !Stands(row) && exists entry :: Parse(row, options) == Some(entry) && entry.nativeTest
  }

  ghost predicate RunsScript(row: Row, options: Options, tails: set<string>) {
    && IsNode(row) && !Stands(row)
    && exists entry, stem, tail :: Parse(row, options) == Some(entry) && tail in tails && entry.script == Some(stem + tail)
  }

  ghost predicate RunsJest(row: Row, options: Options) {
    RunsScript(row, options, JEST_SCRIPTS)
  }

  const JEST_SCRIPTS: set<string> :=
    {"/node_modules/jest/bin/jest.js", "/node_modules/jest/build/index.js",
     "/node_modules/jest-cli/bin/jest.js", "/node_modules/jest-cli/build/index.js"}

  ghost predicate RunsVitest(row: Row, options: Options) {
    (exists i :: 1 <= i < |row.argv| && row.argv[i] == "run") && RunsScript(row, options, VITEST_SCRIPTS)
  }

  const VITEST_SCRIPTS: set<string> := {"/node_modules/vitest/vitest.mjs"}

  ghost predicate EndsIn(script: string, tails: set<string>) {
    exists tail :: tail in tails && EndsWith(script, tail)
  }

  lemma RunsScriptExactly(row: Row, options: Options, tails: set<string>)
    requires "" !in tails
    ensures RunsScript(row, options, tails) <==> Node(row) && !WatchOrServer(row) && EndsIn(ScriptOf(row, options), tails)
  {
    NodeExactly(row);
    WatchExactly(row);
    var script := ScriptOf(row, options);
    if EndsIn(script, tails) {
      var tail :| tail in tails && EndsWith(script, tail);
      assert script == script[..|script| - |tail|] + tail;
    }
    if exists entry, stem, tail :: Parse(row, options) == Some(entry) && tail in tails && entry.script == Some(stem + tail) {
      var entry, stem, tail :| Parse(row, options) == Some(entry) && tail in tails && entry.script == Some(stem + tail);
      assert EndsWith(script, tail);
    }
  }

  lemma NativeExactly(row: Row, options: Options)
    ensures NativeRunner(row, options) <==> RunsTests(row, options)
  {
    NodeExactly(row);
    WatchExactly(row);
  }

  lemma JestExactly(row: Row, options: Options)
    ensures JestRunner(row, options) <==> RunsJest(row, options)
  {
    RunsScriptExactly(row, options, JEST_SCRIPTS);
    JestEnds(ScriptOf(row, options));
  }

  lemma JestEnds(script: string)
    ensures EndsIn(script, JEST_SCRIPTS) <==>
              EndsWith(script, "/node_modules/jest/bin/jest.js") || EndsWith(script, "/node_modules/jest/build/index.js")
              || EndsWith(script, "/node_modules/jest-cli/bin/jest.js") || EndsWith(script, "/node_modules/jest-cli/build/index.js")
  {
    assert forall tail :: EndsWith(script, tail) && tail in JEST_SCRIPTS ==> EndsIn(script, JEST_SCRIPTS);
  }

  lemma VitestExactly(row: Row, options: Options)
    ensures VitestRunner(row, options) <==> RunsVitest(row, options)
  {
    RunsScriptExactly(row, options, VITEST_SCRIPTS);
    var script, tail := ScriptOf(row, options), "/node_modules/vitest/vitest.mjs";
    assert EndsIn(script, VITEST_SCRIPTS) <==> EndsWith(script, tail) by {
      assert tail in VITEST_SCRIPTS;
    }
    var args := Args(row);
    if "run" in args {
      var k :| 0 <= k < |args| && args[k] == "run";
      assert row.argv[k + 1] == "run";
    }
    if exists i :: 1 <= i < |row.argv| && row.argv[i] == "run" {
      var i :| 1 <= i < |row.argv| && row.argv[i] == "run";
      assert args[i - 1] == "run";
    }
  }

  /** Some of the commands runs tests, jest or vitest. */
  ghost predicate TestsAbove(commands: seq<Row>, options: Options) {
    exists c :: c in commands && RunsTests(c, options)
  }

  ghost predicate JestAbove(commands: seq<Row>, options: Options) {
    exists c :: c in commands && RunsJest(c, options)
  }

  ghost predicate VitestAbove(commands: seq<Row>, options: Options) {
    exists c :: c in commands && RunsVitest(c, options)
  }

  ghost predicate IsJestWorker(script: string) {
    Ends(script, "/node_modules/jest-worker/build/workers/processChild.js")
  }

  ghost predicate IsVitestWorker(script: string) {
    Ends(script, "/node_modules/tinypool/dist/entry/process.js")
  }

  /** The kind of worker a command line is below these commands; each kind only if it is none of those before. */
  ghost predicate IsKind(row: Row, entry: Entry, commands: seq<Row>, options: Options, kind: string) {
    var script := if entry.script.Some? then entry.script.value else "";
    var testFile := NamesTest(script) && entry.trailing == [];
    if testFile && entry.nativeTest then kind == "node-native-test"
    else if testFile && TestsAbove(commands, options) then kind == "node-test-file-worker"
    else if IsJestWorker(script) && JestAbove(commands, options) then kind == "jest-worker"
    else kind == "vitest-worker" && IsVitestWorker(script) && VitestAbove(commands, options)
  }

  ghost predicate Ends(script: string, tail: string) {
    exists stem :: script == stem + tail
  }

  lemma EndsExactly(script: string, tail: string)
    ensures EndsWith(script, tail) <==> Ends(script, tail)
  {
    if EndsWith(script, tail) {
      assert script == script[..|script| - |tail|] + tail;
    }
  }

  lemma TestsAboveExactly(commands: seq<Row>, options: Options)
    ensures AnyNative(commands, options) <==> TestsAbove(commands, options)
  {
    forall c | c in commands ensures NativeRunner(c, options) <==> RunsTests(c, options) {
      NativeExactly(c, options);
    }
  }

  lemma JestAboveExactly(commands: seq<Row>, options: Options)
    ensures AnyJest(commands, options) <==> JestAbove(commands, options)
  {
    forall c | c in commands ensures JestRunner(c, options) <==> RunsJest(c, options) {
      JestExactly(c, options);
    }
  }

  lemma VitestAboveExactly(commands: seq<Row>, options: Options)
    ensures AnyVitest(commands, options) <==> VitestAbove(commands, options)
  {
    forall c | c in commands ensures VitestRunner(c, options) <==> RunsVitest(c, options) {
      VitestExactly(c, options);
    }
  }

  lemma WorkerFilesExactly(script: string)
    ensures JestWorkerFile(script) <==> IsJestWorker(script)
    ensures VitestWorkerFile(script) <==> IsVitestWorker(script)
  {
    EndsExactly(script, "/node_modules/jest-worker/build/workers/processChild.js");
    EndsExactly(script, "/node_modules/tinypool/dist/entry/process.js");
  }

  lemma KindExactly(row: Row, entry: Entry, commands: seq<Row>, options: Options, kind: string)
    requires IsNode(row) && !Stands(row) && Parse(row, options) == Some(entry)
    ensures Kind(row, entry, commands, options) == Some(kind) <==> IsKind(row, entry, commands, options, kind)
  {
    var script := if entry.script.Some? then entry.script.value else "";
    TestFileExactly(script);
    assert NativeRunner(row, options) <==> entry.nativeTest by {
      NativeExactly(row, options);
    }
    TestsAboveExactly(commands, options);
    JestAboveExactly(commands, options);
    VitestAboveExactly(commands, options);
    WorkerFilesExactly(script);
  }

  // ---- The rules ----

  /** What every worker must be: a leaf of the process table run by this user in the runtime, neither watching nor
      serving, below an application server with nothing that watches or serves between them. */
  ghost predicate MayBeWorker(row: Row, table: Table, uid: int, line: seq<nat>) {
    && IsNode(row) && row.uid == uid && row.effectiveUid == uid
    && row.cgroup != "" && row.cwd != "" && row.argv != [] && !Stands(row)
    && (forall p :: p in table ==> table[p].ppid != row.pid)
    && LeadsToServer(row, table, line) && forall j :: 0 <= j < |line| - 1 ==> !Stands(table[line[j]])
  }

  /** A process is eligible, as this kind of worker of this server, exactly when the rules say so. */
  ghost predicate Admitted(row: Row, table: Table, uid: int, options: Options, line: seq<nat>, entry: Entry, c: G.Classification) {
    && MayBeWorker(row, table, uid, line) && Parse(row, options) == Some(entry)
    && IsKind(row, entry, RowsOf(table, line[..|line| - 1]), options, c.kind)
    && c.appserver == G.Key(table[line[|line| - 1]].pid, table[line[|line| - 1]].start)
  }

  lemma GuardedExactly(table: Table, line: seq<nat>)
    requires forall j :: 0 <= j < |line| ==> line[j] in table
    ensures Guarded(RowsOf(table, line)) <==> exists j :: 0 <= j < |line| && Stands(table[line[j]])
  {
    forall j | 0 <= j < |line| ensures WatchOrServer(table[line[j]]) <==> Stands(table[line[j]]) {
      WatchExactly(table[line[j]]);
    }
    var rows := RowsOf(table, line);
    assert forall j :: 0 <= j < |rows| ==> rows[j] == table[line[j]];
  }

  lemma AdmittedIsEligible(row: Row, table: Table, uid: int, options: Options, line: seq<nat>, entry: Entry, c: G.Classification)
    requires Admitted(row, table, uid, options, line, entry, c)
    ensures Eligible(row, table, uid, options) == Some(c)
  {
    var commands := line[..|line| - 1];
    Considered(row, table, uid, options);
    LineDecides(row, table, line);
    NoneGuards(table, commands);
    KindExactly(row, entry, RowsOf(table, commands), options, c.kind);
    ClassifiedAs(row, Ancestors(row, table), table[line[|line| - 1]], RowsOf(table, commands), entry, c.kind, options);
  }

  /** The line of parents is looked at for a leaf of this user in the runtime that neither watches nor serves. */
  lemma Considered(row: Row, table: Table, uid: int, options: Options)
    requires IsNode(row) && row.uid == uid && row.effectiveUid == uid
    requires row.cgroup != "" && row.cwd != "" && row.argv != [] && !Stands(row)
    requires forall p :: p in table ==> table[p].ppid != row.pid
    ensures Eligible(row, table, uid, options) == Classified(row, Ancestors(row, table), options)
  {
    NodeExactly(row);
    WatchExactly(row);
    assert !HasChild(table, row.pid);
  }

  lemma NoneGuards(table: Table, line: seq<nat>)
    requires forall j :: 0 <= j < |line| ==> line[j] in table && !Stands(table[line[j]])
    ensures !Guarded(RowsOf(table, line))
  {
    GuardedExactly(table, line);
  }

  lemma ClassifiedAs(row: Row, lineage: seq<Row>, owner: Row, commands: seq<Row>, entry: Entry, kind: string, options: Options)
    requires Owner(lineage) == Some(owner) && Below(lineage) == commands && !Guarded(commands)
    requires Parse(row, options) == Some(entry) && Kind(row, entry, commands, options) == Some(kind)
    ensures Classified(row, lineage, options) == Some(G.Classification(kind, G.Key(owner.pid, owner.start)))
  {
  }

  lemma EligibleIsAdmitted(row: Row, table: Table, uid: int, options: Options, c: G.Classification)
    returns (line: seq<nat>, entry: Entry)
    requires Eligible(row, table, uid, options) == Some(c)
    ensures Admitted(row, table, uid, options, line, entry, c)
  {
    line := EligibleLine(row, table, uid, options);
    entry := EligibleKind(row, table, uid, options, line, c);
    EligibleMayBeWorker(row, table, uid, options, line);
  }

  lemma EligibleLine(row: Row, table: Table, uid: int, options: Options) returns (line: seq<nat>)
    requires Eligible(row, table, uid, options).Some?
    ensures LeadsToServer(row, table, line)
  {
    WasConsidered(row, table, uid, options);
    line := OwnerHasLine(row, table);
  }

  /** What an eligible process is classified by. */
  lemma EligibleKind(row: Row, table: Table, uid: int, options: Options, line: seq<nat>, c: G.Classification)
    returns (entry: Entry)
    requires Eligible(row, table, uid, options) == Some(c) && LeadsToServer(row, table, line)
    ensures Parse(row, options) == Some(entry)
    ensures IsKind(row, entry, RowsOf(table, line[..|line| - 1]), options, c.kind)
    ensures c.appserver == G.Key(table[line[|line| - 1]].pid, table[line[|line| - 1]].start)
    ensures !Guarded(RowsOf(table, line[..|line| - 1]))
  {
    WasConsidered(row, table, uid, options);
    LineDecides(row, table, line);
    var commands := RowsOf(table, line[..|line| - 1]);
    entry := ClassifiedBy(row, Ancestors(row, table), table[line[|line| - 1]], commands, c, options);
    KindExactly(row, entry, commands, options, c.kind);
  }

  lemma EligibleMayBeWorker(row: Row, table: Table, uid: int, options: Options, line: seq<nat>)
    requires Eligible(row, table, uid, options).Some? && LeadsToServer(row, table, line)
    requires !Guarded(RowsOf(table, line[..|line| - 1]))
    ensures MayBeWorker(row, table, uid, line)
  {
    WasConsidered(row, table, uid, options);
    var commands := line[..|line| - 1];
    NoGuards(table, commands);
    LineClear(table, line, commands);
  }

  lemma LineClear(table: Table, line: seq<nat>, commands: seq<nat>)
    requires line != [] && commands == line[..|line| - 1] && forall j :: 0 <= j < |line| ==> line[j] in table
    requires forall j :: 0 <= j < |commands| ==> !Stands(table[commands[j]])
    ensures forall j :: 0 <= j < |line| - 1 ==> !Stands(table[line[j]])
  {
    assert forall j :: 0 <= j < |line| - 1 ==> commands[j] == line[j];
  }

  lemma WasConsidered(row: Row, table: Table, uid: int, options: Options)
    requires Eligible(row, table, uid, options).Some?
    ensures IsNode(row) && row.uid == uid && row.effectiveUid == uid
    ensures row.cgroup != "" && row.cwd != "" && row.argv != [] && !Stands(row)
    ensures forall p :: p in table ==> table[p].ppid != row.pid
    ensures Eligible(row, table, uid, options) == Classified(row, Ancestors(row, table), options)
    ensures Owner(Ancestors(row, table)).Some?
  {
    NodeExactly(row);
    WatchExactly(row);
  }

  lemma ClassifiedBy(row: Row, lineage: seq<Row>, owner: Row, commands: seq<Row>, c: G.Classification, options: Options)
    returns (entry: Entry)
    requires Owner(lineage) == Some(owner) && Below(lineage) == commands && Classified(row, lineage, options) == Some(c)
    ensures Parse(row, options) == Some(entry) && Kind(row, entry, commands, options) == Some(c.kind) && !Guarded(commands)
    ensures c.appserver == G.Key(owner.pid, owner.start)
  {
    entry := Parse(row, options).value;
  }

  lemma NoGuards(table: Table, line: seq<nat>)
    requires (forall j :: 0 <= j < |line| ==> line[j] in table) && !Guarded(RowsOf(table, line))
    ensures forall j :: 0 <= j < |line| ==> !Stands(table[line[j]])
  {
    GuardedExactly(table, line);
  }

  lemma EligibleExactly(row: Row, table: Table, uid: int, options: Options, c: G.Classification)
    ensures Eligible(row, table, uid, options) == Some(c) <==>
              exists line, entry :: Admitted(row, table, uid, options, line, entry, c)
  {
    if Eligible(row, table, uid, options) == Some(c) {
      var line, entry := EligibleIsAdmitted(row, table, uid, options, c);
    }
    if exists line, entry :: Admitted(row, table, uid, options, line, entry, c) {
      var line, entry :| Admitted(row, table, uid, options, line, entry, c);
      AdmittedIsEligible(row, table, uid, options, line, entry, c);
    }
  }
}
