/** One process's apply over the migration tables, on MySQL and elsewhere. */
module Runners {
  import opened Faults
  import opened Migrations
  import SplitterLaws

  datatype State = Applied | Pending | Partial | Drifted | Missing

  datatype Status = Status(version: nat, name: string, state: State, statements: nat)

  /** What apply returns; Failed is the database's own error. */
  datatype Outcome =
    | Done
    | Drift(versions: seq<nat>)
    | Gone(versions: seq<nat>)
    | Older(version: nat)
    | Changed(version: nat, index: nat)
    | Failed

  function FileState(f: Migration, rows: Ledger): State {
    if f.version !in rows then Pending
    else if !rows[f.version].applied then Partial
    else if rows[f.version].checksum != f.sum then Drifted
    else Applied
  }

  /** The ledger has the file as applied. */
  predicate Ran(f: Migration, rows: Ledger) {
    f.version in rows && rows[f.version].applied
  }

  /** ... but with another checksum than the file has now. */
  predicate Drifts(f: Migration, rows: Ledger) {
    Ran(f, rows) && rows[f.version].checksum != f.sum
  }

  /** ... with the file's own. */
  predicate IsUpToDate(f: Migration, rows: Ledger) {
    Ran(f, rows) && rows[f.version].checksum == f.sum
  }

  /** st says of f what the ledger does: nothing, that it has begun, that it ran as it is, or that it ran otherwise. */
  ghost predicate Tells(st: Status, f: Migration, rows: Ledger) {
    && st.version == f.version && st.name == f.name
    && (st.state == Pending <==> f.version !in rows)
    && (st.state == Partial <==> f.version in rows && !rows[f.version].applied)
    && (st.state == Applied <==> f.version in rows && rows[f.version].applied && rows[f.version].checksum == f.sum)
    && (st.state == Drifted <==> f.version in rows && rows[f.version].applied && rows[f.version].checksum != f.sum)
    && st.statements == if f.version in rows then rows[f.version].index else 0
  }

  /** st is what status has to say about its version. */
  ghost predicate Reports(files: seq<Migration>, rows: Ledger, st: Status) {
    || (exists j :: 0 <= j < |files| && Tells(st, files[j], rows))
    || (st.version in rows && !Has(files, st.version)
        && st == Status(st.version, rows[st.version].name, Missing, rows[st.version].index))
  }

  function FileStatus(f: Migration, rows: Ledger): Status {
    Status(f.version, f.name, FileState(f, rows), if f.version in rows then rows[f.version].index else 0)
  }

  predicate Has(files: seq<Migration>, v: nat) {
    exists j :: 0 <= j < |files| && files[j].version == v
  }

  ghost predicate ByVersion(sts: seq<Status>) {
    forall i, j :: 0 <= i < j < |sts| ==> sts[i].version < sts[j].version
  }

  /** Puts st where its version belongs. */
  method Insert(sts: seq<Status>, st: Status) returns (out: seq<Status>)
    requires ByVersion(sts) && forall k :: 0 <= k < |sts| ==> sts[k].version != st.version
    ensures ByVersion(out) && forall x :: x in out <==> x in sts || x == st
  {
    var i := |sts|;
    while i > 0 && st.version < sts[i - 1].version
      invariant 0 <= i <= |sts| && forall k :: i <= k < |sts| ==> st.version < sts[k].version
      invariant ByVersion(sts)
    {
      i := i - 1;
    }
    out := sts[..i] + [st] + sts[i..];
    Inserted(sts, st, i, out);
  }

  lemma Inserted(sts: seq<Status>, st: Status, i: nat, out: seq<Status>)
    requires i <= |sts| && out == sts[..i] + [st] + sts[i..]
    ensures |out| == |sts| + 1
    ensures forall k :: 0 <= k < |out| ==> out[k] == if k < i then sts[k] else if k == i then st else sts[k - 1]
    ensures forall x :: x in out <==> x in sts || x == st
  {
  }

  /** status: the files and the ledger rows compared, by version. */
  method CompareStatus(files: seq<Migration>, rows: Ledger) returns (out: seq<Status>)
    requires Loaded(files)
    ensures ByVersion(out) && forall st :: st in out <==> Reports(files, rows, st)
  {
    out := [];
    var i := 0;
    while i < |files|
      invariant 0 <= i <= |files| && |out| == i && forall k :: 0 <= k < i ==> out[k] == FileStatus(files[k], rows)
    {
      out := out + [FileStatus(files[i], rows)];
      i := i + 1;
    }
    var rest := rows.Keys;
    while rest != {}
      invariant rest <= rows.Keys && ByVersion(out)
      invariant forall st :: st in out <==> Reports(files, rows, st) && (Has(files, st.version) || st.version !in rest)
      decreases rest
    {
      var v :| v in rest;
      if !Has(files, v) {
        out := Insert(out, Status(v, rows[v].name, Missing, rows[v].index));
      }
      rest := rest - {v};
    }
  }

  predicate IsRun(st: State) {
    st.Applied? || st.Drifted?
  }

  /** newest is the newest version of the files that ran to its end, -1 without any. */
  ghost predicate IsNewest(files: seq<Migration>, rows: Ledger, newest: int) {
    && (newest == -1 || exists j :: 0 <= j < |files| && Ran(files[j], rows) && files[j].version == newest)
    && (forall j :: 0 <= j < |files| && Ran(files[j], rows) ==> files[j].version <= newest)
  }

  ghost predicate Rising(vs: seq<nat>) {
    forall i, j :: 0 <= i < j < |vs| ==> vs[i] < vs[j]
  }

  /** vs lists the versions in state state, in order. */
  ghost predicate Lists(files: seq<Migration>, rows: Ledger, state: State, vs: seq<nat>) {
    && Rising(vs)
    && (forall v :: v in vs <==> exists st: Status :: Reports(files, rows, st) && st.version == v && st.state == state)
  }

  /** vs are the versions of the files that changed since they were applied, in order. */
  ghost predicate AreDrifted(files: seq<Migration>, rows: Ledger, vs: seq<nat>) {
    Rising(vs) && forall v :: v in vs <==> exists j :: 0 <= j < |files| && files[j].version == v && Drifts(files[j], rows)
  }

  /** vs are the versions of the ledger that no file has, in order. */
  ghost predicate AreGone(files: seq<Migration>, rows: Ledger, vs: seq<nat>) {
    Rising(vs) && forall v :: v in vs <==> v in rows && !Has(files, v)
  }

  /** A partial row whose statements this file still begins with. */
  ghost predicate Resumable(hash: Hash, f: Migration, row: Row) {
    row.index <= |f.stmts| && hash(SplitterLaws.Join(f.stmts[..row.index], ";\n")) == row.checksum
  }

  /** apply goes on at the file: it is not new and older than the newest applied, nor, on MySQL, partly run and changed since. */
  ghost predicate IsFine(hash: Hash, f: Migration, rows: Ledger, newest: int, mysql: bool) {
    !IsLate(f, rows, newest) && !(mysql && IsAltered(hash, f, rows))
  }

  ghost predicate IsLate(f: Migration, rows: Ledger, newest: int) {
    f.version !in rows && f.version < newest
  }

  ghost predicate IsAltered(hash: Hash, f: Migration, rows: Ledger) {
    f.version in rows && !rows[f.version].applied && !Resumable(hash, f, rows[f.version])
  }

  ghost predicate AllFine(hash: Hash, files: seq<Migration>, rows: Ledger, newest: int, mysql: bool, n: nat) {
    forall j :: 0 <= j < n && j < |files| ==> IsFine(hash, files[j], rows, newest, mysql)
  }

  /** r refuses the first file that is not fine. */
  ghost predicate Refuses(r: Outcome, hash: Hash, files: seq<Migration>, rows: Ledger, newest: int, mysql: bool) {
    exists j :: 0 <= j < |files| && AllFine(hash, files, rows, newest, mysql, j) && RefusesAt(r, hash, files[j], rows, newest)
  }

  ghost predicate RefusesAt(r: Outcome, hash: Hash, f: Migration, rows: Ledger, newest: int) {
    if r.Older? then r == Older(f.version) && IsLate(f, rows, newest)
    else IsAltered(hash, f, rows) && r == Changed(f.version, rows[f.version].index)
  }

  /** What happens around one statement: other processes commit files, and the statement fares as it does. */
  datatype Turn = Turn(others: nat, fault: Fault)

  /** How statement k fares; one past the script has nobody before it and no fault. */
  function TurnAt(turns: seq<Turn>, k: nat): Turn {
    if k < |turns| then turns[k] else Turn(0, NoFault)
  }

  /** None of the statements from..to failed. */
  ghost predicate Clean(turns: seq<Turn>, from: nat, to: nat) {
    from <= to && forall k :: from <= k < to ==> TurnAt(turns, k).fault.NoFault?
  }

  /** Of the statements from..to the last failed, and no other. */
  ghost predicate FailsLast(turns: seq<Turn>, from: nat, to: nat) {
    from < to && Clean(turns, from, to - 1) && !TurnAt(turns, to - 1).fault.NoFault?
  }

  /** It went well to the end, or stopped at the first statement that failed. */
  ghost predicate Fares(failed: bool, turns: seq<Turn>, from: nat, to: nat) {
    if failed then FailsLast(turns, from, to) else Clean(turns, from, to)
  }

  lemma NoneFailed(turns: seq<Turn>, at: nat)
    ensures Clean(turns, at, at)
  {
  }

  lemma FaresOn(failed: bool, turns: seq<Turn>, from: nat, mid: nat, to: nat)
    requires Clean(turns, from, mid) && Fares(failed, turns, mid, to)
    ensures Fares(failed, turns, from, to)
  {
  }

  class Runner {
    const hash: Hash
    const files: seq<Migration>
    const mysql: bool
    var ledger: Ledger
    var log: seq<Line>
    const turns: seq<Turn>
    var at: nat  // statements issued so far

    constructor (hash: Hash, files: seq<Migration>, mysql: bool, ledger: Ledger, log: seq<Line>, turns: seq<Turn>)
      ensures this.hash == hash && this.files == files && this.mysql == mysql
      ensures this.ledger == ledger && this.log == log && this.turns == turns && at == 0
    {
      this.hash, this.files, this.mysql, this.ledger, this.log, this.turns, at := hash, files, mysql, ledger, log, turns, 0;
    }

    method Next() returns (turn: Turn)
      modifies this`at
      ensures turn == TurnAt(turns, old(at)) && at == old(at) + 1
    {
      turn := TurnAt(turns, at);
      at := at + 1;
    }

    // ---------- MySQL: one statement at a time, under the migration lock ----------

    method Execute(line: Line) returns (ok: bool)
      modifies this`log, this`at
      ensures log == if TurnAt(turns, old(at)).fault.Refused? then old(log) else old(log) + [line]
      ensures ok == TurnAt(turns, old(at)).fault.NoFault? && at == old(at) + 1
    {
      var turn := Next();
      if !turn.fault.Refused? {
        log := log + [line];
      }
      ok := turn.fault.NoFault?;
    }

    /** INSERT refuses a key that is there; UPDATE is used on one that is. */
    method Write(v: nat, row: Row, insert: bool) returns (ok: bool)
      requires insert || v in ledger
      modifies this`ledger, this`at
      ensures var taken := !insert || v !in old(ledger);
        && ledger == (if taken && !TurnAt(turns, old(at)).fault.Refused? then old(ledger)[v := row] else old(ledger))
        && ok == (taken && TurnAt(turns, old(at)).fault.NoFault?)
      ensures at == old(at) + 1
    {
      var turn := Next();
      ok := turn.fault.NoFault? && (insert ==> v !in ledger);
      if !turn.fault.Refused? && (insert ==> v !in ledger) {
        ledger := ledger[v := row];
      }
    }

    /** The body of the loop: statement i, and its record. */
    method RunStatement(f: Migration, i: nat, has: bool) returns (ok: bool, ghost kept: nat, ghost ran: nat)
      requires i < |f.stmts| && (has <==> f.version in ledger)
      requires Kept(hash, f, ledger, ledger, i) && (has ==> !ledger[f.version].applied)
      modifies this`ledger, this`log, this`at
      ensures i <= kept <= ran <= i + 1 && log == old(log) + Lines(f)[i..ran]
      ensures Kept(hash, f, old(ledger), ledger, kept) && (f.version in ledger ==> !ledger[f.version].applied)
      ensures ok ==> kept == i + 1
      ensures kept == i + 1 ==>
        f.version in ledger && ledger[f.version] == Row(f.name, hash(SplitterLaws.Join(f.stmts[..i + 1], ";\n")), false, i + 1)
      ensures Fares(!ok, turns, old(at), at)
    {
      kept, ran := i, i;
      ok := Execute(Line(f.version, i, f.stmts[i]));
      ran := if log == old(log) then i else i + 1;
      assert log == old(log) + Lines(f)[i..ran];
      if !ok {
        return;
      }
      var sum := PrefixSum(hash, f.stmts, i + 1);
      if !has {
        ok := Write(f.version, Row(f.name, sum, false, i + 1), true);
      } else {
        ok := Write(f.version, ledger[f.version].(checksum := sum, index := i + 1, name := f.name), false);
      }
      kept := if ledger == old(ledger) then i else i + 1;
    }

    /**
     applyByStatement: resumes after the recorded statements when they are still
     the ones that ran, and records each one it runs.
     */
    method ApplyByStatement(f: Migration, has: bool, row: Row) returns (r: Outcome, ghost kept: nat, ghost ran: nat)
      requires f.stmts != [] && (has <==> f.version in ledger) && (has ==> row == ledger[f.version] && !row.applied)
      modifies this`ledger, this`log, this`at
      ensures r.Changed? <==> has && !Resumable(hash, f, row)
      ensures r.Changed? ==> r == Changed(f.version, row.index) && ledger == old(ledger) && log == old(log)
      ensures !r.Changed? ==>
        && (r.Done? || r.Failed?)
        && (if has then row.index else 0) <= kept <= ran <= kept + 1 && ran <= |f.stmts|
        && log == old(log) + Lines(f)[if has then row.index else 0..ran]
        && Kept(hash, f, old(ledger), ledger, kept)
      ensures r.Done? ==> kept == ran == |f.stmts| && f.version in ledger && IsApplied(f, ledger[f.version])
      ensures Fares(r.Failed?, turns, old(at), at)
    {
      var start := 0;
      kept, ran := 0, 0;
      if has {
        if row.index > |f.stmts| || PrefixSum(hash, f.stmts, row.index) != row.checksum {
          return Changed(f.version, row.index), kept, ran;
        }
        start := row.index;
      }
      var ok;
      ok, kept, ran := RunFrom(f, start, has);
      if ok {
        ok := Write(f.version, ledger[f.version].(checksum := f.sum, applied := true, index := |f.stmts|), false);
      }
      r := if ok then Done else Failed;
    }

    /** The loop of applyByStatement. */
    method RunFrom(f: Migration, start: nat, has: bool) returns (ok: bool, ghost kept: nat, ghost ran: nat)
      requires start <= |f.stmts| && f.stmts != [] && (has <==> f.version in ledger) && (!has ==> start == 0)
      requires Kept(hash, f, ledger, ledger, start) && (has ==> !ledger[f.version].applied)
      modifies this`ledger, this`log, this`at
      ensures start <= kept <= ran <= kept + 1 && ran <= |f.stmts| && log == old(log) + Lines(f)[start..ran]
      ensures Kept(hash, f, old(ledger), ledger, kept) && (f.version in ledger ==> !ledger[f.version].applied)
      ensures ok ==> kept == |f.stmts| && f.version in ledger
      ensures Fares(!ok, turns, old(at), at)
    {
      hide PrefixSum, Clean, FailsLast;
      NoneFailed(turns, at);
      var i, known := start, has;
      ok, kept, ran := true, start, start;
      while i < |f.stmts|
        invariant start <= i <= |f.stmts| && ok && kept == ran == i && log == old(log) + Lines(f)[start..i]
        invariant (known <==> f.version in ledger) && (i > start ==> known)
        invariant Kept(hash, f, old(ledger), ledger, i) && (known ==> !ledger[f.version].applied)
        invariant Clean(turns, old(at), at)
      {
        ghost var mid := at;
        ok, kept, ran := RunStatement(f, i, known);
        FaresOn(!ok, turns, old(at), mid, at);
        assert Lines(f)[start..ran] == Lines(f)[start..i] + Lines(f)[i..ran];
        if !ok {
          return;
        }
        known := true;
        i := i + 1;
      }
    }

    /** One turn of apply's loop on MySQL. */
    method VisitByStatement(i: nat, rows: Ledger, newest: int, ghost m: nat, ghost k: nat)
      returns (r: Outcome, ghost m': nat, ghost k': nat, ghost e: nat)
      requires Loaded(files) && i < |files| && SameRow(rows, ledger, files[i].version)
      modifies this`ledger, this`log, this`at
      ensures ledger - {files[i].version} == old(ledger) - {files[i].version}
      ensures r.Done? ==> files[i].version in ledger && ledger[files[i].version].applied
      ensures r.Done? ==> SameRow(rows, ledger, files[i].version) || IsApplied(files[i], ledger[files[i].version])
      ensures r.Done? || r.Failed? || r == Older(files[i].version) || (r.Changed? && r.version == files[i].version)
      ensures r.Older? <==> IsLate(files[i], rows, newest)
      ensures r.Changed? <==> IsAltered(hash, files[i], rows)
      ensures r.Changed? ==> r == Changed(files[i].version, rows[files[i].version].index)
      ensures Fares(r.Failed?, turns, old(at), at)
      ensures LedgerAt(hash, files, old(ledger), m, k) && i <= m && (m < |files| ==> newest < files[m].version) ==>
        && (r.Done? || r.Failed?) && LedgerAt(hash, files, ledger, m', k') && m <= m' <= |files| && (r.Done? ==> i < m')
        && Progress(files, old(log), log, m, k, m', k', e) && (r.Done? ==> e == Recorded(files, m', k'))
    {
      hide PrefixSum, Plan;
      var f := files[i];
      var has := f.version in rows;
      ghost var aligned := LedgerAt(hash, files, ledger, m, k);
      if aligned {
        NoProgress(hash, files, ledger, log, m, k);
      }
      m', k', e := m, k, if m <= |files| then Recorded(files, m, k) else 0;
      if has && rows[f.version].applied {
        return Done, m', k', e;
      }
      if !has && f.version < newest {
        return Older(f.version), m', k', e;
      }
      ghost var kept, ran;
      r, kept, ran := ApplyByStatement(f, has, if has then rows[f.version] else Row("", "", false, 0));
      if aligned && i <= m {
        m', k', e := Moved(old(ledger), old(log), i, m, k, kept, ran, r);
      }
    }

    /** Where a run of the next file leaves the ledger and the log. */
    lemma Moved(before: Ledger, logged: seq<Line>, i: nat, m: nat, k: nat, kept: nat, ran: nat, r: Outcome)
      returns (m': nat, k': nat, e: nat)
      requires Loaded(files) && i < |files| && i <= m && LedgerAt(hash, files, before, m, k)
      requires files[i].version in before ==> !before[files[i].version].applied
      requires r.Changed? ==> ledger == before && log == logged && k > 0 && !Resumable(hash, files[i], before[files[i].version])
      requires !r.Changed? ==>
        && (r.Done? || r.Failed?) && k <= kept <= ran <= kept + 1 && ran <= |files[i].stmts|
        && log == logged + Lines(files[i])[k..ran] && Kept(hash, files[i], before, ledger, kept)
      requires r.Done? ==> kept == ran == |files[i].stmts| && files[i].version in ledger && IsApplied(files[i], ledger[files[i].version])
      ensures (r.Done? || r.Failed?) && LedgerAt(hash, files, ledger, m', k') && m <= m' <= |files| && (r.Done? ==> i < m')
      ensures Progress(files, logged, log, m, k, m', k', e) && (r.Done? ==> e == Recorded(files, m', k'))
    {
      hide Plan;
      assert i == m;
      if !r.Changed? {
        LedgerMoves(hash, files, before, ledger, m, k, kept);
        FileInPlan(files, m, k, ran);
        FileInPlan(files, m, kept, ran);
      }
      var done := files[m].version in ledger && ledger[files[m].version].applied;
      m', k', e := if done then m + 1 else m, if done then 0 else kept, Recorded(files, m, ran);
    }

    /** apply's loop on MySQL. */
    method ApplyStatements(rows: Ledger, newest: int, ghost m: nat, ghost k: nat)
      returns (r: Outcome, ghost m': nat, ghost k': nat, ghost e: nat)
      requires Loaded(files) && rows == ledger
      requires forall j :: 0 <= j < |files| ==> !Drifts(files[j], rows)
      modifies this`ledger, this`log, this`at
      ensures r.Done? ==> forall j :: 0 <= j < |files| ==> IsUpToDate(files[j], ledger)
      ensures r.Done? || r.Failed? || r.Older? || r.Changed?
      ensures r.Older? || r.Changed? ==> Refuses(r, hash, files, rows, newest, true)
      ensures r.Done? ==> AllFine(hash, files, rows, newest, true, |files|)
      ensures Fares(r.Failed?, turns, old(at), at)
      ensures LedgerAt(hash, files, old(ledger), m, k) && IsNewest(files, rows, newest) ==>
        && (r.Done? || r.Failed?) && LedgerAt(hash, files, ledger, m', k') && (r.Done? ==> m' == |files|)
        && Progress(files, old(log), log, m, k, m', k', e) && (r.Done? ==> e == Recorded(files, m', k'))
    {
      hide Clean, FailsLast, PrefixSum, Plan, Resumable, LedgerAt, IsNewest, Progress, Recorded, IsLate, IsAltered;
      NoneFailed(turns, at);
      var i := 0;
      ghost var aligned := LedgerAt(hash, files, ledger, m, k) && IsNewest(files, rows, newest);
      r, m', k', e := Done, m, k, if m <= |files| then Recorded(files, m, k) else 0;
      if aligned {
        NoProgress(hash, files, ledger, log, m, k);
        NewestIsBehind(hash, files, rows, newest, m, k);
      }
      while i < |files|
        invariant 0 <= i <= |files| && r.Done?
        invariant forall j :: 0 <= j < i ==> IsUpToDate(files[j], ledger)
        invariant AllFine(hash, files, rows, newest, true, i)
        invariant forall j :: i <= j < |files| ==> SameRow(rows, ledger, files[j].version)
        invariant Clean(turns, old(at), at)
        invariant aligned ==>
          && LedgerAt(hash, files, ledger, m', k') && i <= m' <= |files| && m <= m'
          && Progress(files, old(log), log, m, k, m', k', e) && e == Recorded(files, m', k')
      {
        ghost var m1, k1, e1, before, logged, mid := m', k', e, ledger, log, at;
        r, m', k', e := VisitByStatement(i, rows, newest, m', k');
        FaresOn(r.Failed?, turns, old(at), mid, at);
        OtherRows(files, before, ledger, i);
        if aligned {
          ProgressOn(files, old(log), logged, log, m, k, m1, k1, e1, m', k', e);
        }
        if !r.Done? {
          return;
        }
        i := i + 1;
      }
    }

    // ---------- Elsewhere: one file, one transaction ----------

    /** applyInTx: other processes commit until this transaction begins; from then on it has the database to itself. */
    method ApplyInTx(i: nat, ghost m: nat) returns (ok: bool, ghost m': nat)
      requires Loaded(files) && i < |files|
      modifies this`ledger, this`log, this`at
      ensures InOrder(hash, files, Tables(old(ledger), old(log)), m) && i <= m ==>
        InOrder(hash, files, Tables(ledger, log), m') && m <= m' && (ok ==> i < m')
        && ok == TurnAt(turns, old(at)).fault.NoFault?
      ensures at == old(at) + 1
    {
      hide Plan;
      var turn := Next();
      var t := CommitNext(files, Tables(ledger, log), turn.others);
      var (t', taken) := Transaction(files[i], t);
      m' := m;
      if InOrder(hash, files, Tables(ledger, log), m) && i <= m {
        m' := OthersKeepOrder(hash, files, Tables(ledger, log), m, turn.others);
        TransactionKeepsOrder(hash, files, t, m', i);
        m' := if turn.fault.Refused? || i < m' then m' else m' + 1;
      }
      if turn.fault.Refused? {
        t' := t;
      }
      ledger, log := t'.ledger, t'.log;
      ok := taken && turn.fault.NoFault?;
    }

    /** apply's loop on the other databases; rows were read before other processes went on. */
    method ApplyTransactions(rows: Ledger, newest: int, ghost m: nat) returns (r: Outcome, ghost m': nat)
      requires Loaded(files) && rows == ledger
      modifies this`ledger, this`log, this`at
      ensures r.Done? || r.Failed? || r.Older?
      ensures r.Older? ==> Refuses(r, hash, files, rows, newest, false)
      ensures r.Done? ==> AllFine(hash, files, rows, newest, false, |files|)
      ensures InOrder(hash, files, Tables(old(ledger), old(log)), m) && IsNewest(files, rows, newest) ==>
        && InOrder(hash, files, Tables(ledger, log), m') && m <= m' && !r.Older?
        && (r.Done? ==> m' == |files|) && Fares(r.Failed?, turns, old(at), at)
    {
      hide Plan;
      ghost var aligned := InOrder(hash, files, Tables(ledger, log), m) && IsNewest(files, rows, newest);
      if aligned {
        NewestIsBehind(hash, files, rows, newest, m, 0);
      }
      var i := 0;
      r, m' := Done, m;
      while i < |files|
        invariant 0 <= i <= |files| && r.Done? && AllFine(hash, files, rows, newest, false, i)
        invariant aligned ==> InOrder(hash, files, Tables(ledger, log), m') && m <= m' && i <= m'
        invariant aligned ==> Clean(turns, old(at), at)
      {
        var has := files[i].version in rows;
        if !has && files[i].version < newest {
          assert RefusesAt(Older(files[i].version), hash, files[i], rows, newest);
          return Older(files[i].version), m';
        }
        if !has || !rows[files[i].version].applied {
          var ok;
          ok, m' := ApplyInTx(i, m');
          if !ok {
            return Failed, m';
          }
        }
        i := i + 1;
      }
    }

    // ---------- apply ----------

    /** What apply looks for in the statuses. */
    method Inspect(rows: Ledger) returns (newest: int, drifted: seq<nat>, missing: seq<nat>)
      requires Loaded(files)
      ensures IsNewest(files, rows, newest)
      ensures AreDrifted(files, rows, drifted) && AreGone(files, rows, missing)
    {
      var sts := CompareStatus(files, rows);
      newest, drifted, missing := -1, [], [];
      var i := 0;
      while i < |sts|
        invariant 0 <= i <= |sts|
        invariant drifted == Select(sts[..i], Drifted) && missing == Select(sts[..i], Missing)
        invariant newest == -1 || exists k :: 0 <= k < i && IsRun(sts[k].state) && sts[k].version == newest
        invariant forall k :: 0 <= k < i && IsRun(sts[k].state) ==> sts[k].version <= newest
      {
        var st := sts[i];
        assert sts[..i + 1][..i] == sts[..i];
        if st.state.Drifted? {
          drifted := drifted + [st.version];
        } else if st.state.Missing? {
          missing := missing + [st.version];
        }
        if IsRun(st.state) && newest < st.version {
          newest := st.version;
        }
        i := i + 1;
      }
      assert sts[..i] == sts;
      hide Reports;
      RunsAreFiles(files, rows, sts, newest);
      SelectIsAll(files, rows, sts, Drifted);
      SelectIsAll(files, rows, sts, Missing);
      DriftedAre(files, rows, drifted);
      MissingAreGone(files, rows, missing);
    }

    /**
     apply. On MySQL, from tables in step with the files it leaves tables in
     step with them, having carried out the plan from the first statement not
     recorded on; elsewhere the same with whole files, whatever other processes commit.
     */
    method Apply(ghost m: nat, ghost k: nat) returns (r: Outcome, ghost m': nat, ghost k': nat, ghost e: nat)
      requires Loaded(files)
      modifies this`ledger, this`log, this`at
      ensures r.Drift? <==>
        TurnAt(turns, old(at)).fault.NoFault? && exists j :: 0 <= j < |files| && Drifts(files[j], old(ledger))
      ensures r.Drift? ==> AreDrifted(files, old(ledger), r.versions)
      ensures r.Gone? <==>
        && TurnAt(turns, old(at)).fault.NoFault? && (forall j :: 0 <= j < |files| ==> !Drifts(files[j], old(ledger)))
        && exists v :: v in old(ledger) && !Has(files, v)
      ensures r.Gone? ==> AreGone(files, old(ledger), r.versions)
      ensures r.Done? ==>
        (forall j :: 0 <= j < |files| ==> !Drifts(files[j], old(ledger))) && forall v :: v in old(ledger) ==> Has(files, v)
      ensures !TurnAt(turns, old(at)).fault.NoFault? ==> r.Failed?
      ensures r.Older? || r.Changed? ==>
        exists newest :: IsNewest(files, old(ledger), newest) && Refuses(r, hash, files, old(ledger), newest, mysql)
      ensures r.Done? ==>
        exists newest :: IsNewest(files, old(ledger), newest) && AllFine(hash, files, old(ledger), newest, mysql, |files|)
      ensures r.Drift? || r.Gone? || !TurnAt(turns, old(at)).fault.NoFault? ==> ledger == old(ledger) && log == old(log)
      ensures mysql || r.Drift? || r.Gone? ==> Fares(r.Failed?, turns, old(at), at)
      ensures mysql && r.Done? ==> forall j :: 0 <= j < |files| ==> IsUpToDate(files[j], ledger)
      ensures mysql && InStep(hash, files, old(ledger), old(log), m, k) ==>
        && InStep(hash, files, ledger, log, m', k') && Progress(files, old(log), log, m, k, m', k', e)
        && (r.Done? || r.Failed?) && (r.Done? ==> m' == |files| && Dedup(log) == Plan(files))
        && Fares(r.Failed?, turns, old(at), at)
      ensures !mysql && InOrder(hash, files, Tables(old(ledger), old(log)), m) ==>
        && InOrder(hash, files, Tables(ledger, log), m') && m <= m'
        && (r.Done? || r.Failed?) && (r.Done? ==> log == Plan(files)) && Fares(r.Failed?, turns, old(at), at)
    {
      hide Recorded, Has, Plan, AreDrifted, AreGone, Drifts, IsUpToDate, IsNewest, Refuses, AllFine;
      m', k', e := m, k, if m <= |files| then Recorded(files, m, k) else 0;
      ghost var aligned := LedgerAt(hash, files, ledger, m, k);
      if aligned {
        NoProgress(hash, files, ledger, log, m, k);
      }
      ghost var began := at;
      var turn := Next();
      if !turn.fault.NoFault? {
        return Failed, m', k', e;
      }
      var rows := ledger;
      var newest, drifted, missing := Inspect(rows);
      NothingAmiss(hash, files, rows, m, if mysql then k else 0, drifted, missing);
      WhetherDrifted(files, rows, drifted);
      WhetherGone(files, rows, missing);
      if drifted != [] {
        return Drift(drifted), m', k', e;
      }
      if missing != [] {
        return Gone(missing), m', k', e;
      }
      r, m', k', e := ApplyRows(rows, newest, m, k);
      if Fares(r.Failed?, turns, began + 1, at) {
        FaresOn(r.Failed?, turns, began, began + 1, at);
      }
    }

    /** apply past its refusals: what the rows do not have as applied. */
    method ApplyRows(rows: Ledger, newest: int, ghost m: nat, ghost k: nat)
      returns (r: Outcome, ghost m': nat, ghost k': nat, ghost e: nat)
      requires Loaded(files) && rows == ledger && IsNewest(files, rows, newest)
      requires forall j :: 0 <= j < |files| ==> !Drifts(files[j], rows)
      modifies this`ledger, this`log, this`at
      ensures !r.Drift? && !r.Gone? && (mysql ==> Fares(r.Failed?, turns, old(at), at))
      ensures r.Older? || r.Changed? ==> Refuses(r, hash, files, rows, newest, mysql)
      ensures r.Done? ==> AllFine(hash, files, rows, newest, mysql, |files|)
      ensures mysql && r.Done? ==> forall j :: 0 <= j < |files| ==> IsUpToDate(files[j], ledger)
      ensures mysql && InStep(hash, files, old(ledger), old(log), m, k) ==>
        && InStep(hash, files, ledger, log, m', k') && Progress(files, old(log), log, m, k, m', k', e)
        && (r.Done? || r.Failed?) && (r.Done? ==> m' == |files| && Dedup(log) == Plan(files))
      ensures !mysql && InOrder(hash, files, Tables(old(ledger), old(log)), m) ==>
        && InOrder(hash, files, Tables(ledger, log), m') && m <= m'
        && (r.Done? || r.Failed?) && (r.Done? ==> log == Plan(files)) && Fares(r.Failed?, turns, old(at), at)
    {
      hide Recorded, Plan, Drifts, IsUpToDate, IsNewest, FailsLast, Clean, Refuses, AllFine;
      m', k', e := m, k, 0;
      if mysql {
        r, m', k', e := ApplyStatements(rows, newest, m, k);
        if LedgerAt(hash, files, rows, m, k) && Follows(old(log), Plan(files), Recorded(files, m, k)) {
          LogMoves(files, old(log), log, Recorded(files, m, k), Recorded(files, m', k'), e);
          AllFollowed(hash, files, ledger, log, m', k');
        }
      } else {
        r, m' := ApplyTransactions(rows, newest, m);
        assert m' == |files| ==> files[..m'] == files;
      }
    }

    /** markApplied: records f as applied without running it. */
    method MarkApplied(f: Migration) returns (ok: bool)
      modifies this`ledger, this`at
      ensures ledger - {f.version} == old(ledger) - {f.version} && at == old(at) + 1
      ensures ok == TurnAt(turns, old(at)).fault.NoFault?
      ensures if TurnAt(turns, old(at)).fault.Refused? then ledger == old(ledger)
              else f.version in ledger && IsApplied(f, ledger[f.version])
      ensures ok ==> IsUpToDate(f, ledger) && ledger[f.version] == Row(f.name, f.sum, true, |f.stmts|)
    {
      ok := true;
      if f.version in ledger {
        ok := Write(f.version, Row(f.name, f.sum, true, |f.stmts|), false);
      } else {
        ok := Write(f.version, Row(f.name, f.sum, true, |f.stmts|), true);
      }
    }
  }

  /** Tables in step with the files show no drift and no missing file. */
  lemma NothingAmiss(hash: Hash, files: seq<Migration>, rows: Ledger, m: nat, k: nat, drifted: seq<nat>, missing: seq<nat>)
    requires AreDrifted(files, rows, drifted) && AreGone(files, rows, missing)
    ensures LedgerAt(hash, files, rows, m, k) ==> drifted == [] && missing == []
  {
    if LedgerAt(hash, files, rows, m, k) {
      SomeMember(drifted);
      SomeMember(missing);
    }
  }

  lemma SomeMember<T>(s: seq<T>)
    ensures s != [] ==> exists x :: x in s
  {
    assert s != [] ==> s[0] in s;
  }

  lemma WhetherDrifted(files: seq<Migration>, rows: Ledger, drifted: seq<nat>)
    requires AreDrifted(files, rows, drifted)
    ensures drifted != [] <==> exists j :: 0 <= j < |files| && Drifts(files[j], rows)
  {
    SomeMember(drifted);
    if j :| 0 <= j < |files| && Drifts(files[j], rows) {
      assert files[j].version in drifted;
    }
  }

  lemma WhetherGone(files: seq<Migration>, rows: Ledger, missing: seq<nat>)
    requires AreGone(files, rows, missing)
    ensures missing != [] <==> exists v :: v in rows && !Has(files, v)
  {
    SomeMember(missing);
  }

  lemma DriftedAre(files: seq<Migration>, rows: Ledger, vs: seq<nat>)
    requires Loaded(files) && Lists(files, rows, Drifted, vs)
    ensures AreDrifted(files, rows, vs)
  {
    forall v ensures v in vs <==> exists j :: 0 <= j < |files| && files[j].version == v && Drifts(files[j], rows) {
      if v in vs {
        var st: Status :| Reports(files, rows, st) && st.version == v && st.state == Drifted;
        var j :| 0 <= j < |files| && Tells(st, files[j], rows);
        assert Drifts(files[j], rows);
      }
      if j :| 0 <= j < |files| && files[j].version == v && Drifts(files[j], rows) {
        assert Tells(FileStatus(files[j], rows), files[j], rows);
        assert Reports(files, rows, FileStatus(files[j], rows));
      }
    }
  }

  lemma MissingAreGone(files: seq<Migration>, rows: Ledger, vs: seq<nat>)
    requires Lists(files, rows, Missing, vs)
    ensures AreGone(files, rows, vs)
  {
    forall v ensures v in vs <==> v in rows && !Has(files, v) {
      if v in rows && !Has(files, v) {
        assert Reports(files, rows, Status(v, rows[v].name, Missing, rows[v].index));
      }
    }
  }

  lemma AllFollowed(hash: Hash, files: seq<Migration>, ledger: Ledger, log: seq<Line>, m: nat, k: nat)
    requires InStep(hash, files, ledger, log, m, k)
    ensures m == |files| ==> Dedup(log) == Plan(files)
  {
    if m == |files| {
      assert files[..m] == files;
      var n :| Recorded(files, m, k) <= n <= |Plan(files)| && Dedup(log) == Plan(files)[..n];
    }
  }

  /** The versions of the statuses in a state, in their order. */
  function Select(sts: seq<Status>, state: State): seq<nat> {
    if sts == [] then []
    else
      var n := |sts| - 1;
      Select(sts[..n], state) + if sts[n].state == state then [sts[n].version] else []
  }

  lemma {:induction false} SelectedAre(sts: seq<Status>, state: State)
    ensures forall v :: v in Select(sts, state) <==> exists k :: 0 <= k < |sts| && sts[k].version == v && sts[k].state == state
    decreases |sts|
  {
    if sts != [] {
      var n := |sts| - 1;
      SelectedAre(sts[..n], state);
      forall v | v in Select(sts[..n], state) ensures exists k :: 0 <= k < |sts| && sts[k].version == v && sts[k].state == state {
        var k :| 0 <= k < n && sts[..n][k].version == v && sts[..n][k].state == state;
        assert sts[k].version == v;
      }
      forall k | 0 <= k < n && sts[k].state == state ensures sts[k].version in Select(sts[..n], state) {
        assert sts[..n][k].version == sts[k].version;
      }
    }
  }

  lemma {:induction false} SelectedAscend(sts: seq<Status>, state: State)
    requires ByVersion(sts)
    ensures Rising(Select(sts, state))
    decreases |sts|
  {
    if sts != [] {
      var front := sts[..|sts| - 1];
      SelectedAscend(front, state);
      SelectedAre(front, state);
      var vs, last := Select(front, state), sts[|sts| - 1];
      forall v | v in vs ensures v < last.version {
        var k :| 0 <= k < |front| && front[k].version == v;
        assert front[k] == sts[k];
      }
      var all := Select(sts, state);
      assert all == vs || all == vs + [last.version];
      assert forall i :: 0 <= i < |vs| ==> all[i] == vs[i] && vs[i] in vs;
    }
  }

  lemma SelectIsAll(files: seq<Migration>, rows: Ledger, sts: seq<Status>, state: State)
    requires ByVersion(sts) && forall st :: st in sts <==> Reports(files, rows, st)
    ensures Lists(files, rows, state, Select(sts, state))
  {
    hide Reports, Select;
    SelectedAscend(sts, state);
    SelectedAre(sts, state);
    forall st: Status | Reports(files, rows, st) && st.state == state ensures st.version in Select(sts, state) {
      var k :| 0 <= k < |sts| && sts[k] == st;
    }
    forall k | 0 <= k < |sts| ensures Reports(files, rows, sts[k]) {
      assert sts[k] in sts;
    }
  }

  lemma RunsAreFiles(files: seq<Migration>, rows: Ledger, sts: seq<Status>, newest: int)
    requires forall st :: st in sts <==> Reports(files, rows, st)
    requires newest == -1 || exists k :: 0 <= k < |sts| && IsRun(sts[k].state) && sts[k].version == newest
    requires forall k :: 0 <= k < |sts| && IsRun(sts[k].state) ==> sts[k].version <= newest
    ensures IsNewest(files, rows, newest)
  {
    forall j | 0 <= j < |files| && Ran(files[j], rows) ensures files[j].version <= newest {
      assert Tells(FileStatus(files[j], rows), files[j], rows);
      assert Reports(files, rows, FileStatus(files[j], rows));
      assert FileStatus(files[j], rows) in sts;
    }
    if newest != -1 {
      var k :| 0 <= k < |sts| && IsRun(sts[k].state) && sts[k].version == newest;
      assert sts[k] in sts && Reports(files, rows, sts[k]);
    }
  }

  lemma OtherRows(files: seq<Migration>, before: Ledger, after: Ledger, i: nat)
    requires Loaded(files) && i < |files| && after - {files[i].version} == before - {files[i].version}
    ensures forall j :: 0 <= j < |files| && j != i ==>
      && SameRow(before, after, files[j].version) && (Drifts(files[j], before) <==> Drifts(files[j], after))
      && (IsUpToDate(files[j], before) <==> IsUpToDate(files[j], after))
  {
    var v := files[i].version;
    forall j | 0 <= j < |files| && j != i ensures SameRow(before, after, files[j].version) {
      var u := files[j].version;
      assert u != v && (u in before <==> u in before - {v}) && (u in after <==> u in after - {v});
    }
  }

  /** From m, k to m', k' the runner carried out the plan up to e, and recorded all of it but the last at most. */
  ghost predicate Progress(files: seq<Migration>, before: seq<Line>, after: seq<Line>, m: nat, k: nat, m': nat, k': nat, e: nat) {
    && m <= |files| && m' <= |files|
    && Recorded(files, m, k) <= Recorded(files, m', k') <= e <= Recorded(files, m', k') + 1 && e <= |Plan(files)|
    && after == before + Plan(files)[Recorded(files, m, k)..e]
  }

  lemma NoProgress(hash: Hash, files: seq<Migration>, ledger: Ledger, log: seq<Line>, m: nat, k: nat)
    requires LedgerAt(hash, files, ledger, m, k)
    ensures Progress(files, log, log, m, k, m, k, Recorded(files, m, k))
  {
    PlanPrefix(files, m);
    if m < |files| {
      FileInPlan(files, m, k, |files[m].stmts|);
    }
  }

  lemma ProgressOn(files: seq<Migration>, log: seq<Line>, log1: seq<Line>, log2: seq<Line>,
                   m: nat, k: nat, m1: nat, k1: nat, e1: nat, m2: nat, k2: nat, e2: nat)
    requires Progress(files, log, log1, m, k, m1, k1, e1) && e1 == Recorded(files, m1, k1)
    requires Progress(files, log1, log2, m1, k1, m2, k2, e2)
    ensures Progress(files, log, log2, m, k, m2, k2, e2)
  {
  }

  /** Where the runs stand, every version still to apply is newer than the newest applied. */
  lemma NewestIsBehind(hash: Hash, files: seq<Migration>, rows: Ledger, newest: int, m: nat, k: nat)
    requires Loaded(files) && LedgerAt(hash, files, rows, m, k) && IsNewest(files, rows, newest)
    ensures forall j :: m <= j < |files| ==> newest < files[j].version
  {
  }

  ghost predicate SameRow(a: Ledger, b: Ledger, v: nat) {
    (v in a <==> v in b) && (v in a ==> a[v] == b[v])
  }
}
