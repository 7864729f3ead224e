/** Undoing private backing names: the route rows rewrite a path until no backing name is its prefix.
    The rows are read through a cache that is checked against the database's commit generation. */
module RouteMap {
  import opened Basics

  /** A path's parts. */
  type Parts = seq<string>

  datatype Entry = Entry(backing: Parts, source: Parts)

  /** The two ledger values the map is made of. */
  datatype Rows = Rows(defaults: seq<Entry>, aliases: seq<Entry>) {
    function Entries(): seq<Entry> {
      defaults + aliases
    }
  }

  datatype Answer = Path(parts: Parts) | RewriteCycle | RewriteTooDeep

  const ROUNDS: nat := 32

  // ---- Rewriting, straight from the rows ----

  /** The source of the first entry with this backing name. */
  function Lookup(entries: seq<Entry>, prefix: Parts): Option<Parts> {
    if entries == [] then None
    else if entries[0].backing == prefix then Some(entries[0].source)
    else Lookup(entries[1..], prefix)
  }

  /** The length of the longest backing name among the first `n` parts; 0 when there is none. */
  function Longest(entries: seq<Entry>, path: Parts, n: nat): (m: nat)
    requires n <= |path|
    ensures m <= n && (m > 0 ==> Lookup(entries, path[..m]).Some?)
    ensures forall k :: m < k <= n ==> Lookup(entries, path[..k]) == None
  {
    if n == 0 then 0
    else if Lookup(entries, path[..n]).Some? then n
    else Longest(entries, path, n - 1)
  }

  predicate Backed(entries: seq<Entry>, path: Parts) {
    exists n :: 0 < n <= |path| && Lookup(entries, path[..n]).Some?
  }

  /** One rewrite of the longest backing name; a path without one is itself. */
  function Step(entries: seq<Entry>, path: Parts): Parts {
    var n := Longest(entries, path, |path|);
    if n == 0 then path else Lookup(entries, path[..n]).value + path[n..]
  }

  /** The path after `k` rewrites. */
  function Orbit(entries: seq<Entry>, path: Parts, k: nat): Parts
    decreases k
  {
    if k == 0 then path else Orbit(entries, Step(entries, path), k - 1)
  }

  /** What the rewriting loop answers when `rounds` rounds are left. */
  function Uncached(entries: seq<Entry>, path: Parts, rounds: nat): Answer
    decreases rounds
  {
    if rounds == 0 then RewriteTooDeep
    else if Longest(entries, path, |path|) == 0 then Path(path)
    else if Step(entries, path) == path then RewriteCycle
    else Uncached(entries, Step(entries, path), rounds - 1)
  }

  lemma NotBacked(entries: seq<Entry>, path: Parts)
    ensures Backed(entries, path) <==> Longest(entries, path, |path|) > 0
  {
    var m := Longest(entries, path, |path|);
    if m > 0 {
      assert Lookup(entries, path[..m]).Some?;
    }
  }

  lemma {:induction false} OrbitStays(entries: seq<Entry>, path: Parts, k: nat)
    requires Step(entries, path) == path
    ensures Orbit(entries, path, k) == path
    decreases k
  {
    if k > 0 {
      OrbitStays(entries, path, k - 1);
    }
  }

  /** A path is answered exactly when 31 rewrites are enough to lose every backing name, and then the
      answer is where they lead. */
  lemma {:induction false} AnswersOrbit(entries: seq<Entry>, path: Parts, rounds: nat)
    requires rounds > 0
    ensures Uncached(entries, path, rounds).Path? <==> !Backed(entries, Orbit(entries, path, rounds - 1))
    ensures Uncached(entries, path, rounds).Path? ==>
              Uncached(entries, path, rounds).parts == Orbit(entries, path, rounds - 1)
    decreases rounds
  {
    NotBacked(entries, path);
    if Step(entries, path) == path {
      OrbitStays(entries, path, rounds - 1);
    } else if rounds > 1 {
      AnswersOrbit(entries, Step(entries, path), rounds - 1);
    }
  }

  /** An answered path carries no backing name, so asking again changes nothing. */
  lemma Idempotent(entries: seq<Entry>, path: Parts, rounds: nat)
    requires Uncached(entries, path, rounds).Path?
    ensures var q := Uncached(entries, path, rounds).parts;
            !Backed(entries, q) && Uncached(entries, q, rounds) == Path(q)
  {
    AnswersOrbit(entries, path, rounds);
    NotBacked(entries, Uncached(entries, path, rounds).parts);
  }

  // ---- The database as this connection sees it ----

  /** How far an open transaction has come: nothing read yet, reading a snapshot, or holding the write
      lock. */
  datatype Stage = Fresh | Reading | Writing

  /** An open transaction of this connection: the rows it sees and those saved at its savepoints.
      `begun` when its first savepoint opened it, so releasing that one commits. */
  datatype Transaction = Transaction(stage: Stage, visible: Rows, saved: seq<Rows>, begun: bool)

  datatype Database = Database(committed: Rows, tx: Option<Transaction>) {
    function Visible(): Rows {
      if tx.Some? then tx.value.visible else committed
    }

    /** Another connection can commit now. */
    predicate Unlocked() {
      tx.Some? ==> !tx.value.stage.Writing?
    }

    /** The snapshot this connection reads is no longer the latest, so it may not write. */
    predicate Stale() {
      tx.Some? && tx.value.stage.Reading? && tx.value.visible != committed
    }
  }

  /** `Statement` is a write of this connection: it changes `changes` table rows and leaves these route
      rows; a statement that changes nothing still opens a transaction. `Query` asks for a path while
      another connection may commit between the two reads of the call. */
  datatype Action =
    | Statement(rows: Rows, changes: nat)
    | Commit
    | Rollback
    | Savepoint
    | RollbackTo
    | Release
    | OtherCommit(rows: Rows)
    | Query(path: Parts, meanwhile: seq<Rows>)

  /** Another connection's commits: a transaction that has read nothing yet sees them, a snapshot does
      not, and the write lock keeps them out. */
  function Others(db: Database, commits: seq<Rows>): Database {
    if commits == [] || !db.Unlocked() then db
    else
      var latest := commits[|commits| - 1];
      match db.tx
      case None => Database(latest, None)
      case Some(tx) =>
        if tx.stage.Reading? then db.(committed := latest)
        else Database(latest, Some(Transaction(Fresh, latest, seq(|tx.saved|, i => latest), tx.begun)))
  }

  /** Reading the rows inside a transaction fixes its snapshot. */
  function Read(db: Database): Database {
    match db.tx
    case Some(tx) => if tx.stage.Fresh? then db.(tx := Some(tx.(stage := Reading))) else db
    case None => db
  }

  function Ended(db: Database): Database {
    Database(if db.Unlocked() then db.committed else db.Visible(), None)
  }

  function Act(db: Database, a: Action): Database {
    match a
    case Statement(rows, changes) =>
      if db.Stale() then db
      else
        var tx := if db.tx.Some? then db.tx.value else Transaction(Fresh, db.committed, [], false);
        db.(tx := Some(tx.(stage := Writing, visible := if changes == 0 then db.Visible() else rows)))
    case Commit => Ended(db)
    case Rollback => Database(db.committed, None)
    case Savepoint =>
      (match db.tx
       case None => db.(tx := Some(Transaction(Fresh, db.committed, [db.committed], true)))
       case Some(tx) => db.(tx := Some(tx.(saved := tx.saved + [tx.visible]))))
    case RollbackTo =>
      (match db.tx
       case None => db
       case Some(tx) => if tx.saved == [] then db else db.(tx := Some(tx.(visible := tx.saved[|tx.saved| - 1]))))
    case Release =>
      (match db.tx
       case None => db
       case Some(tx) =>
         if tx.saved == [] then db
         else if tx.begun && |tx.saved| == 1 then Ended(db)
         else db.(tx := Some(tx.(saved := tx.saved[..|tx.saved| - 1]))))
    case OtherCommit(rows) => Others(db, [rows])
    case Query(_, meanwhile) => Read(Others(db, meanwhile))
  }

  /** The answer is what rewriting gives, in at most 32 rounds, by the rows the connection sees: the default
      routes first and then the aliases, of its transaction or else as committed. */
  predicate AnswersBy(db: Database, path: Parts, r: Answer) {
    match db.tx
    case None => r == Uncached(db.committed.defaults + db.committed.aliases, path, 32)
    case Some(tx) => r == Uncached(tx.visible.defaults + tx.visible.aliases, path, 32)
  }

  /** A run answers each query as rewriting by rows that were visible during that call would. */
  predicate Faithful(db: Database, actions: seq<Action>, answers: seq<Answer>)
    decreases |actions|
  {
    if actions == [] then answers == []
    else
      var next := Act(db, actions[0]);
      match actions[0]
      case Query(path, _) =>
        && answers != []
        && (AnswersBy(db, path, answers[0]) || AnswersBy(next, path, answers[0]))
        && Faithful(next, actions[1..], answers[1..])
      case _ => Faithful(next, actions[1..], answers)
  }

  // ---- The store with its cache ----

  /** The cached map holds the first source of every backing name. */
  ghost predicate MapOf(parents: map<Parts, Parts>, entries: seq<Entry>) {
    forall b :: (b in parents <==> Lookup(entries, b).Some?) && (b in parents ==> Lookup(entries, b) == Some(parents[b]))
  }

  lemma {:induction false} LookupAppend(entries: seq<Entry>, e: Entry, b: Parts)
    ensures Lookup(entries + [e], b)
         == if Lookup(entries, b).Some? then Lookup(entries, b) else if e.backing == b then Some(e.source) else None
  {
    if entries != [] {
      assert (entries + [e])[1..] == entries[1..] + [e];
      LookupAppend(entries[1..], e, b);
    }
  }

  method ReadMap(entries: seq<Entry>) returns (parents: map<Parts, Parts>)
    ensures MapOf(parents, entries)
  {
    parents := map[];
    for i := 0 to |entries|
      invariant MapOf(parents, entries[..i])
    {
      assert entries[..i + 1] == entries[..i] + [entries[i]];
      forall b {
        LookupAppend(entries[..i], entries[i], b);
      }
      if entries[i].backing !in parents {
        parents := parents[entries[i].backing := entries[i].source];
      }
    }
    assert entries[..|entries|] == entries;
  }

  method LongestMatch(parents: map<Parts, Parts>, path: Parts, ghost entries: seq<Entry>) returns (n: nat)
    requires MapOf(parents, entries)
    ensures n == Longest(entries, path, |path|)
    ensures n > 0 ==> path[..n] in parents && Step(entries, path) == parents[path[..n]] + path[n..]
  {
    n := |path|;
    while n > 0 && path[..n] !in parents
      invariant n <= |path| && Longest(entries, path, |path|) == Longest(entries, path, n)
    {
      n := n - 1;
    }
  }

  method Rewrite(parents: map<Parts, Parts>, start: Parts, ghost entries: seq<Entry>) returns (r: Answer)
    requires MapOf(parents, entries)
    ensures r == Uncached(entries, start, 32)
  {
    r := RewriteWithin(parents, start, ROUNDS, entries);
  }

  method RewriteWithin(parents: map<Parts, Parts>, start: Parts, rounds: nat, ghost entries: seq<Entry>) returns (r: Answer)
    requires MapOf(parents, entries)
    ensures r == Uncached(entries, start, rounds)
  {
    var path := start;
    for round := 0 to rounds
      invariant Uncached(entries, start, rounds) == Uncached(entries, path, rounds - round)
    {
      var n := LongestMatch(parents, path, entries);
      if n == 0 {
        return Path(path);
      }
      var rewritten := parents[path[..n]] + path[n..];
      if rewritten == path {
        return RewriteCycle;
      }
      path := rewritten;
    }
    r := RewriteTooDeep;
  }

  datatype Cache = Cache(rows: Rows, parents: map<Parts, Parts>)

  datatype Stamp = Stamp(dataVersion: nat, totalChanges: nat)

  class Store {
    var db: Database
    /** Grows when another connection commits. */
    var dataVersion: nat
    /** Rows this connection has changed, committed or not. */
    var totalChanges: nat
    var cache: Option<Cache>
    var stamp: Option<Stamp>

    /** While the stamp is current nothing the database may show differs from the cached rows. */
    ghost predicate Valid()
      reads this
    {
      && (cache.Some? ==> MapOf(cache.value.parents, cache.value.rows.Entries()))
      && (stamp.Some? ==>
            && cache.Some? && stamp.value.dataVersion <= dataVersion && stamp.value.totalChanges <= totalChanges
            && (stamp.value == Stamp(dataVersion, totalChanges) ==> Settled(db, cache.value.rows)))
    }

    constructor (rows: Rows)
      ensures Valid() && db == Database(rows, None)
    {
      db := Database(rows, None);
      dataVersion, totalChanges := 0, 0;
      cache, stamp := None, None;
    }

    /** Any action but a query. */
    method Change(a: Action)
      requires Valid() && !a.Query?
      modifies this`db, this`dataVersion, this`totalChanges
      ensures Valid() && db == Act(old(db), a)
    {
      db := Act(db, a);
      match a
      case Statement(_, changes) => totalChanges := totalChanges + changes;
      case OtherCommit(_) => dataVersion := dataVersion + 1;
      case _ =>
    }

    method OthersCommit(commits: seq<Rows>)
      requires Valid()
      modifies this`db, this`dataVersion
      ensures Valid() && db == Others(old(db), commits) && dataVersion >= old(dataVersion)
      ensures dataVersion == old(dataVersion) ==> db == old(db)
    {
      db := Others(db, commits);
      dataVersion := dataVersion + |commits|;
    }

    /** The public spelling of `path`. The commit generation is read first and the rows, if they are
        read at all, after it; other connections may commit in between. */
    method LogicalSource(path: Parts, meanwhile: seq<Rows>) returns (r: Answer)
      requires Valid()
      modifies this
      ensures Valid() && db == Read(Others(old(db), meanwhile))
      ensures AnswersBy(old(db), path, r) || AnswersBy(db, path, r)
    {
      var now := Stamp(dataVersion, totalChanges);
      OthersCommit(meanwhile);
      if db.tx == None && cache.Some? && stamp == Some(now) {
        r := Rewrite(cache.value.parents, path, cache.value.rows.Entries());
      } else {
        db := Read(db);
        var rows := db.Visible();
        if cache == None || cache.value.rows != rows {
          var parents := ReadMap(rows.Entries());
          cache := Some(Cache(rows, parents));
        }
        stamp := if db.tx.Some? then None else Some(now);
        r := Rewrite(cache.value.parents, path, rows.Entries());
      }
    }

    /** Every run of writes, commits, rollbacks, other connections' commits and queries answers each
        query as rewriting without a cache would. */
    method Run(actions: seq<Action>) returns (answers: seq<Answer>)
      requires Valid()
      modifies this
      ensures Valid() && Faithful(old(db), actions, answers)
      decreases |actions|
    {
      if actions == [] {
        return [];
      }
      match actions[0] {
        case Query(path, meanwhile) =>
          var first := LogicalSource(path, meanwhile);
          var rest := Run(actions[1..]);
          answers := [first] + rest;
          assert answers[1..] == rest;
        case _ =>
          Change(actions[0]);
          answers := Run(actions[1..]);
      }
    }
  }

  /** Everything the database may come to show by commit or rollback alone is `rows`. */
  ghost predicate Settled(db: Database, rows: Rows) {
    && db.committed == rows
    && (db.tx.Some? ==> db.tx.value.visible == rows && forall i :: 0 <= i < |db.tx.value.saved| ==> db.tx.value.saved[i] == rows)
  }
}
