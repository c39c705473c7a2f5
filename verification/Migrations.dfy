/**
 The versioned migration runner: db/migrate.go. The ledger and the log of
 executed statements are one database; a runner is one process's apply.
 */
module Migrations {
  import opened Splitter
  import opened SplitterLaws

  /** A file; its 14-digit version orders as the number it is. */
  datatype Migration = Migration(version: nat, name: string, stmts: seq<string>, sum: string)

  datatype Row = Row(name: string, checksum: string, applied: bool, index: nat)

  type Ledger = map<nat, Row>

  /** A statement the database carried out. */
  datatype Line = Line(version: nat, index: nat, text: string)

  type Hash = string -> string

  /** What loadMigrations guarantees: versions in order, no file without a statement. */
  ghost predicate Loaded(files: seq<Migration>) {
    && (forall i, j :: 0 <= i < j < |files| ==> files[i].version < files[j].version)
    && (forall i :: 0 <= i < |files| ==> files[i].stmts != [])
  }

  /** prefixSum. */
  function PrefixSum(hash: Hash, stmts: seq<string>, n: nat): string
    requires n <= |stmts|
  {
    hash(Join(stmts[..n], ";\n"))
  }

  // ---------- The plan ----------

  function Lines(f: Migration): (ls: seq<Line>)
    ensures |ls| == |f.stmts| && forall i :: 0 <= i < |ls| ==> ls[i] == Line(f.version, i, f.stmts[i])
  {
    seq(|f.stmts|, i requires 0 <= i < |f.stmts| => Line(f.version, i, f.stmts[i]))
  }

  /** Every statement of the files, in version order. */
  function Plan(files: seq<Migration>): seq<Line> {
    if files == [] then [] else Plan(files[..|files| - 1]) + Lines(files[|files| - 1])
  }

  lemma PlanStep(files: seq<Migration>, m: nat)
    requires m < |files|
    ensures Plan(files[..m + 1]) == Plan(files[..m]) + Lines(files[m])
  {
    assert files[..m + 1][..m] == files[..m];
  }

  lemma {:induction false} PlanPrefix(files: seq<Migration>, m: nat)
    requires m <= |files|
    ensures Plan(files[..m]) <= Plan(files)
    decreases |files|
  {
    if m < |files| {
      var front := files[..|files| - 1];
      PlanPrefix(front, m);
      assert front[..m] == files[..m];
    } else {
      assert files[..m] == files;
    }
  }

  /** No statement of a plan equals its neighbour. */
  lemma {:induction false} NeighboursDiffer(files: seq<Migration>)
    requires Loaded(files)
    ensures forall i :: 0 <= i < |Plan(files)| - 1 ==> Plan(files)[i] != Plan(files)[i + 1]
    ensures files != [] ==> Plan(files) != [] && Plan(files)[|Plan(files)| - 1].version == files[|files| - 1].version
    decreases |files|
  {
    if files != [] {
      NeighboursDiffer(files[..|files| - 1]);
    }
  }

  /** The number of statements recorded when m files are applied and k statements of the next. */
  function Recorded(files: seq<Migration>, m: nat, k: nat): nat
    requires m <= |files|
  {
    |Plan(files[..m])| + k
  }

  lemma Middle<T>(whole: seq<T>, pre: seq<T>, mid: seq<T>, a: nat, b: nat)
    requires pre + mid <= whole && a <= b <= |mid|
    ensures whole[|pre| + a..|pre| + b] == mid[a..b]
  {
  }

  /** The lines of one file, where the plan has them. */
  lemma FileInPlan(files: seq<Migration>, m: nat, a: nat, b: nat)
    requires m < |files| && a <= b <= |files[m].stmts|
    ensures Recorded(files, m + 1, 0) == Recorded(files, m, |files[m].stmts|) <= |Plan(files)|
    ensures Plan(files)[Recorded(files, m, a)..Recorded(files, m, b)] == Lines(files[m])[a..b]
  {
    hide Plan;
    PlanStep(files, m);
    PlanPrefix(files, m + 1);
    Middle(Plan(files), Plan(files[..m]), Lines(files[m]), a, b);
  }

  // ---------- What the log and the ledger say ----------

  /** The log with immediate repetitions taken out. */
  function Dedup(log: seq<Line>): seq<Line> {
    if |log| <= 1 then log
    else
      var front, last := log[..|log| - 1], log[|log| - 1];
      if last == log[|log| - 2] then Dedup(front) else Dedup(front) + [last]
  }

  lemma {:induction false} DedupKeepsTheEnds(log: seq<Line>)
    ensures log == [] <==> Dedup(log) == []
    ensures log != [] ==> Dedup(log)[|Dedup(log)| - 1] == log[|log| - 1]
    ensures forall x :: x in log <==> x in Dedup(log)
    decreases |log|
  {
    if |log| > 1 {
      var front := log[..|log| - 1];
      DedupKeepsTheEnds(front);
      assert log == front + [log[|log| - 1]];
      assert front[|front| - 1] == log[|log| - 2];
    }
  }

  /** Carrying out plan[a..e] after a log that got to n, one past a at most. */
  lemma {:induction false} DedupRun(log: seq<Line>, plan: seq<Line>, n: nat, a: nat, e: nat)
    requires a <= e <= |plan| && n <= |plan| && a <= n <= a + 1 && Dedup(log) == plan[..n]
    requires forall i :: 0 <= i < |plan| - 1 ==> plan[i] != plan[i + 1]
    ensures Dedup(log + plan[a..e]) == plan[..if e < n then n else e]
    decreases e
  {
    hide Dedup;
    if e == a {
      assert log + plan[a..e] == log;
    } else {
      DedupRun(log, plan, n, a, e - 1);
      var before := log + plan[a..e - 1];
      assert log + plan[a..e] == before + [plan[e - 1]];
      DedupNext(before, plan, if e - 1 < n then n else e - 1, e);
    }
  }

  /** One more line of the plan: the last one again, or the next. */
  lemma DedupNext(before: seq<Line>, plan: seq<Line>, n: nat, e: nat)
    requires 0 < e <= |plan| && n <= |plan| && Dedup(before) == plan[..n] && (n == e || n == e - 1)
    requires n == e - 1 > 0 ==> plan[n] != plan[n - 1]
    ensures Dedup(before + [plan[e - 1]]) == plan[..e]
  {
  }

  /** The log carries out the plan in order, at most the statement after the recorded ones begun, each repeated at once or not at all. */
  ghost predicate Follows(log: seq<Line>, plan: seq<Line>, recorded: nat) {
    exists n :: recorded <= n <= recorded + 1 && n <= |plan| && Dedup(log) == plan[..n]
  }

  predicate IsApplied(f: Migration, row: Row) {
    row.applied && row.checksum == f.sum && row.index == |f.stmts|
  }

  predicate IsPartial(hash: Hash, f: Migration, row: Row, k: nat) {
    !row.applied && row.index == k <= |f.stmts| && row.checksum == PrefixSum(hash, f.stmts, k)
  }

  /** The ledger records the first m files as applied and k statements of the next, nothing else. */
  ghost predicate LedgerAt(hash: Hash, files: seq<Migration>, ledger: Ledger, m: nat, k: nat) {
    && m <= |files| && (k > 0 ==> m < |files| && k <= |files[m].stmts|)
    && (forall v :: v in ledger ==> exists j :: 0 <= j < |files| && files[j].version == v)
    && (forall j :: 0 <= j < |files| ==> (files[j].version in ledger <==> j < m || (j == m && k > 0)))
    && (forall j :: 0 <= j < m ==> IsApplied(files[j], ledger[files[j].version]))
    && (k > 0 ==> IsPartial(hash, files[m], ledger[files[m].version], k))
  }

  /** The database holds exactly what runs over these files leave behind. */
  ghost predicate InStep(hash: Hash, files: seq<Migration>, ledger: Ledger, log: seq<Line>, m: nat, k: nat) {
    LedgerAt(hash, files, ledger, m, k) && Follows(log, Plan(files), Recorded(files, m, k))
  }

  /** A ledger row with index k means the first k statements of its file ran. */
  lemma RowsMeanRuns(hash: Hash, files: seq<Migration>, ledger: Ledger, log: seq<Line>, m: nat, k: nat, j: nat)
    requires Loaded(files) && InStep(hash, files, ledger, log, m, k)
    requires j < |files| && files[j].version in ledger
    ensures ledger[files[j].version].index <= |files[j].stmts|
    ensures forall i :: 0 <= i < ledger[files[j].version].index ==> Line(files[j].version, i, files[j].stmts[i]) in log
  {
    hide Plan, Dedup;
    var plan, row := Plan(files), ledger[files[j].version];
    var n :| Recorded(files, m, k) <= n && n <= |plan| && Dedup(log) == plan[..n];
    assert row.index <= |files[j].stmts|;
    FileInPlan(files, j, 0, row.index);
    if j < m {
      RecordedGrows(files, j + 1, m);
    }
    assert Recorded(files, j, row.index) <= n;
    DedupKeepsTheEnds(log);
    forall i | 0 <= i < row.index ensures Line(files[j].version, i, files[j].stmts[i]) in log {
      var at := Recorded(files, j, i);
      assert plan[Recorded(files, j, 0)..Recorded(files, j, row.index)][i] == plan[at];
      assert plan[..n][at] == Lines(files[j])[i];
    }
  }

  lemma {:induction false} RecordedGrows(files: seq<Migration>, a: nat, b: nat)
    requires a <= b <= |files|
    ensures Recorded(files, a, 0) <= Recorded(files, b, 0)
    decreases b
  {
    if a < b {
      PlanStep(files, b - 1);
      RecordedGrows(files, a, b - 1);
    }
  }

  /** The next file of the plan got to kept recorded statements, or was applied. */
  predicate Kept(hash: Hash, f: Migration, before: Ledger, after: Ledger, kept: nat) {
    && after - {f.version} == before - {f.version}
    && (f.version in after <==> f.version in before || kept > 0)
    && (f.version in after ==>
          IsPartial(hash, f, after[f.version], kept) || (kept == |f.stmts| && IsApplied(f, after[f.version])))
  }

  lemma LedgerMoves(hash: Hash, files: seq<Migration>, before: Ledger, after: Ledger, m: nat, k: nat, kept: nat)
    requires Loaded(files) && LedgerAt(hash, files, before, m, k) && m < |files|
    requires Kept(hash, files[m], before, after, kept) && k <= kept
    ensures var done := files[m].version in after && after[files[m].version].applied;
            if done then LedgerAt(hash, files, after, m + 1, 0) else LedgerAt(hash, files, after, m, kept)
  {
    hide PrefixSum;
    var v := files[m].version;
    assert forall j :: 0 <= j < |files| && j != m ==> files[j].version != v;
    assert forall u :: u != v ==> (u in after <==> u in after - {v}) && (u in before <==> u in before - {v});
    assert forall u :: u != v && u in after ==> after[u] == (after - {v})[u] == (before - {v})[u] == before[u];
  }

  /** A run that carried out plan[recorded..e] and recorded all but at most the last of it leaves the log in step. */
  lemma LogMoves(files: seq<Migration>, before: seq<Line>, after: seq<Line>, from: nat, to: nat, e: nat)
    requires Loaded(files) && Follows(before, Plan(files), from)
    requires from <= to <= e <= to + 1 && e <= |Plan(files)| && after == before + Plan(files)[from..e]
    ensures Follows(after, Plan(files), to)
  {
    hide Dedup, Plan;
    var plan := Plan(files);
    var n :| from <= n <= from + 1 && n <= |plan| && Dedup(before) == plan[..n];
    NeighboursDiffer(files);
    DedupRun(before, plan, n, from, e);
    var reached := if e < n then n else e;
    assert to <= reached <= to + 1;
  }

  /** New files with later versions change nothing about where the runs stand. */
  lemma NewFilesFit(hash: Hash, files: seq<Migration>, more: seq<Migration>, ledger: Ledger, log: seq<Line>, m: nat, k: nat)
    requires Loaded(files + more) && InStep(hash, files, ledger, log, m, k)
    ensures InStep(hash, files + more, ledger, log, m, k)
  {
    hide Plan, Dedup;
    var all := files + more;
    assert all[..|files|] == files && all[..m] == files[..m];
    PlanPrefix(all, |files|);
    var n :| Recorded(files, m, k) <= n <= Recorded(files, m, k) + 1 && n <= |Plan(files)| && Dedup(log) == Plan(files)[..n];
    assert Plan(all)[..n] == Plan(files)[..n];
    NewFilesAreNotRecorded(hash, files, more, ledger, m, k);
  }

  lemma NewFilesAreNotRecorded(hash: Hash, files: seq<Migration>, more: seq<Migration>, ledger: Ledger, m: nat, k: nat)
    requires Loaded(files + more) && LedgerAt(hash, files, ledger, m, k)
    ensures LedgerAt(hash, files + more, ledger, m, k)
  {
    var all := files + more;
    assert forall j :: 0 <= j < |files| ==> all[j] == files[j];
    forall v | v in ledger ensures exists j :: 0 <= j < |all| && all[j].version == v {
      var j :| 0 <= j < |files| && files[j].version == v;
      assert all[j].version == v;
    }
    forall j | |files| <= j < |all| ensures all[j].version !in ledger {
      assert forall i :: 0 <= i < |files| ==> files[i].version == all[i].version < all[j].version;
    }
  }

  // ---------- Files in transactions: SQLite and Postgres ----------

  datatype Tables = Tables(ledger: Ledger, log: seq<Line>)

  /**
   The transaction of applyInTx: nothing when the file is recorded as applied by
   now, else all its statements and its row, or nothing when the row's key is taken.
   */
  function Transaction(f: Migration, t: Tables): (r: (Tables, bool)) {
    if f.version in t.ledger then (t, t.ledger[f.version].applied)
    else (Tables(t.ledger[f.version := Row(f.name, f.sum, true, |f.stmts|)], t.log + Lines(f)), true)
  }

  /** The first m files are applied, and their statements ran once each and in order; nothing else did. */
  ghost predicate InOrder(hash: Hash, files: seq<Migration>, t: Tables, m: nat) {
    LedgerAt(hash, files, t.ledger, m, 0) && t.log == Plan(files[..m])
  }

  /** A process that has passed only applied files does nothing again, or commits the next file. */
  lemma TransactionKeepsOrder(hash: Hash, files: seq<Migration>, t: Tables, m: nat, j: nat)
    requires Loaded(files) && InOrder(hash, files, t, m) && j <= m && j < |files|
    ensures var (t', ok) := Transaction(files[j], t);
            ok && if j < m then t' == t else InOrder(hash, files, t', m + 1)
  {
    var f, t' := files[j], Transaction(files[j], t).0;
    if j == m {
      PlanStep(files, m);
      var row := t'.ledger[f.version];
      assert t'.ledger - {f.version} == t.ledger - {f.version};
      LedgerMoves(hash, files, t.ledger, t'.ledger, m, 0, |f.stmts|);
    }
  }

  function NextPending(files: seq<Migration>, ledger: Ledger): (j: nat)
    ensures j <= |files|
    ensures j < |files| ==> files[j].version !in ledger
    ensures forall i :: 0 <= i < j ==> files[i].version in ledger
  {
    if files == [] || files[0].version !in ledger then 0 else 1 + NextPending(files[1..], ledger)
  }

  /** Other processes commit the next n files. */
  function CommitNext(files: seq<Migration>, t: Tables, n: nat): Tables
    decreases n
  {
    var j := NextPending(files, t.ledger);
    if n == 0 || j == |files| then t else CommitNext(files, Transaction(files[j], t).0, n - 1)
  }

  lemma {:induction false} NextIsAt(files: seq<Migration>, ledger: Ledger, m: nat)
    requires m <= |files| && forall i :: 0 <= i < |files| ==> (files[i].version in ledger <==> i < m)
    ensures NextPending(files, ledger) == m
    decreases m
  {
    if m > 0 {
      NextIsAt(files[1..], ledger, m - 1);
    }
  }

  lemma NextIs(hash: Hash, files: seq<Migration>, t: Tables, m: nat)
    requires Loaded(files) && InOrder(hash, files, t, m)
    ensures NextPending(files, t.ledger) == m <= |files|
  {
    hide IsApplied, IsPartial, Plan;
    NextIsAt(files, t.ledger, m);
  }

  lemma {:induction false} OthersKeepOrder(hash: Hash, files: seq<Migration>, t: Tables, m: nat, n: nat) returns (m': nat)
    requires Loaded(files) && InOrder(hash, files, t, m)
    ensures InOrder(hash, files, CommitNext(files, t, n), m') && m <= m'
    decreases n
  {
    hide InOrder, Transaction, NextPending;
    m' := m;
    NextIs(hash, files, t, m);
    if n > 0 && m < |files| {
      TransactionKeepsOrder(hash, files, t, m, m);
      m' := OthersKeepOrder(hash, files, Transaction(files[m], t).0, m + 1, n - 1);
    }
  }

  // ---------- Fingerprints ----------

  ghost predicate Injective(hash: Hash) {
    forall a, b :: hash(a) == hash(b) ==> a == b
  }

  /**
   The fingerprint of a partial migration tells its statements: two scripts of
   plain white space whose prefixes have equal sums ran the same statements,
   when none of them but the last ends in a line comment.
   */
  lemma EqualSumsEqualStatements(hash: Hash, a: string, b: string, i: nat, j: nat)
    requires Injective(hash) && AllPlain(a) && AllPlain(b)
    requires i <= |Split(a)| && j <= |Split(b)|
    requires !OpenComment(Split(a)[..i]) && !OpenComment(Split(b)[..j])
    ensures PrefixSum(hash, Split(a), i) == PrefixSum(hash, Split(b), j) <==> Split(a)[..i] == Split(b)[..j]
  {
    hide Split, Meaningful, Unit, Ends, OpenComment;
    var s, t := Split(a)[..i], Split(b)[..j];
    if hash(Join(s, ";\n")) == hash(Join(t, ";\n")) {
      PrefixJoinable(a, i);
      PrefixJoinable(b, j);
      JoinIsInjective(s, t);
    }
  }

  lemma PrefixJoinable(a: string, i: nat)
    requires AllPlain(a) && i <= |Split(a)| && !OpenComment(Split(a)[..i])
    ensures Joinable(Split(a)[..i])
  {
    hide Split, Meaningful, Unit, Ends;
    SplitResult(a);
    var ts, s := Split(a), Split(a)[..i];
    forall k | 0 <= k < |s| - 1 ensures Ends(s[k]).Normal? {
      assert s[k] == ts[k];
    }
  }
}
