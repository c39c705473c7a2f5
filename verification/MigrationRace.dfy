/**
 Any number of processes start on one SQLite database and run apply over the
 same files. Each step is one process reading the ledger, visiting its next
 file (one transaction), or crashing; they interleave in any way.
 */
module MigrationRace {
  import opened Faults
  import opened Migrations
  import opened Runners

  /** A process between two steps: what it read of the ledger, and the file it is at. */
  datatype Process = Idle | Working(rows: Ledger, next: nat) | Finished

  datatype Race = Race(tables: Tables, processes: map<nat, Process>)

  datatype Step = Begin(p: nat) | Visit(p: nat, fault: Fault) | Crash(p: nat)

  const START := Race(Tables(map[], []), map[])

  /** apply refuses to run: a file changed since, or is gone. */
  predicate Amiss(files: seq<Migration>, rows: Ledger) {
    || (exists j :: 0 <= j < |files| && Drifts(files[j], rows))
    || (exists v :: v in rows && !Has(files, v))
  }

  predicate OlderThanApplied(files: seq<Migration>, rows: Ledger, f: Migration) {
    f.version !in rows && exists i :: 0 <= i < |files| && Ran(files[i], rows) && f.version < files[i].version
  }

  /** One process at its next file: the tables and the process afterwards. */
  function AtFile(files: seq<Migration>, t: Tables, rows: Ledger, j: nat, fault: Fault): (Tables, Process) {
    if j >= |files| then (t, Finished)
    else if files[j].version in rows && rows[files[j].version].applied then (t, Working(rows, j + 1))
    else if OlderThanApplied(files, rows, files[j]) || fault.Refused? then (t, Idle)
    else
      var (t', ok) := Transaction(files[j], t);
      (t', if ok && fault.NoFault? then Working(rows, j + 1) else Idle)
  }

  function Next(files: seq<Migration>, s: Race, step: Step): Race {
    match step
    case Begin(p) =>
      s.(processes := s.processes[p := if Amiss(files, s.tables.ledger) then Idle else Working(s.tables.ledger, 0)])
    case Visit(p, fault) =>
      if p in s.processes && s.processes[p].Working? then
        var (t, process) := AtFile(files, s.tables, s.processes[p].rows, s.processes[p].next, fault);
        Race(t, s.processes[p := process])
      else s
    case Crash(p) => s.(processes := s.processes[p := Idle])
  }

  function Play(files: seq<Migration>, steps: seq<Step>): Race {
    if steps == [] then START else Next(files, Play(files, steps[..|steps| - 1]), steps[|steps| - 1])
  }

  /** What a process knows: a moment of the ledger not after m files, and every file behind it applied. */
  ghost predicate Behind(hash: Hash, files: seq<Migration>, process: Process, m: nat) {
    match process
    case Idle => true
    case Working(rows, next) => next <= m && exists read: nat :: read <= m && LedgerAt(hash, files, rows, read, 0)
    case Finished => m == |files|
  }

  ghost predicate Orderly(hash: Hash, files: seq<Migration>, s: Race, m: nat) {
    InOrder(hash, files, s.tables, m) && forall p :: p in s.processes ==> Behind(hash, files, s.processes[p], m)
  }

  /**
   A process at its next file: nothing or the next file happens, and only a fault
   stops it. Without one it moves on, and behind it the file is applied.
   */
  lemma AtFileKeepsOrder(hash: Hash, files: seq<Migration>, t: Tables, rows: Ledger, j: nat, fault: Fault, m: nat)
    returns (m': nat)
    requires Loaded(files) && InOrder(hash, files, t, m) && Behind(hash, files, Working(rows, j), m)
    ensures var (t', process) := AtFile(files, t, rows, j, fault);
            && InOrder(hash, files, t', m') && m <= m' && Behind(hash, files, process, m')
            && (fault.NoFault? || j >= |files| ==> process == if j < |files| then Working(rows, j + 1) else Finished)
            && (j < |files| && !process.Idle? ==> Ran(files[j], t'.ledger))
            && (j < |files| && Ran(files[j], t.ledger) ==> t' == t)
  {
    hide Plan, PrefixSum;
    m' := m;
    var read: nat :| read <= m && LedgerAt(hash, files, rows, read, 0);
    if j < |files| {
      assert !OlderThanApplied(files, rows, files[j]);
      TransactionKeepsOrder(hash, files, t, m, j);
      var (t', process) := AtFile(files, t, rows, j, fault);
      if j == m && !fault.Refused? {
        m' := m + 1;
      }
    }
  }

  lemma NextKeepsOrder(hash: Hash, files: seq<Migration>, s: Race, step: Step, m: nat) returns (m': nat)
    requires Loaded(files) && Orderly(hash, files, s, m)
    ensures Orderly(hash, files, Next(files, s, step), m') && m <= m'
    ensures var after := Next(files, s, step).processes;
            step.p in after && after[step.p].Idle? ==>
              step.Crash? || (step.Visit? && (!step.fault.NoFault? || s.processes[step.p].Idle?))
  {
    hide Plan, PrefixSum;
    m' := m;
    match step
    case Begin(p) =>
    case Visit(p, fault) =>
      if p in s.processes && s.processes[p].Working? {
        m' := AtFileKeepsOrder(hash, files, s.tables, s.processes[p].rows, s.processes[p].next, fault, m);
      }
    case Crash(p) =>
  }

  /**
   Whatever the interleaving and the crashes, the committed statements are those
   of the first m files, once each and in version order; once any process has
   finished, they are those of all files.
   */
  lemma {:induction false} EachFileOnceInOrder(hash: Hash, files: seq<Migration>, steps: seq<Step>) returns (m: nat)
    requires Loaded(files)
    ensures Orderly(hash, files, Play(files, steps), m)
    ensures m <= |files| && Play(files, steps).tables.log == Plan(files[..m])
    ensures forall p :: p in Play(files, steps).processes && Play(files, steps).processes[p].Finished? ==>
              Play(files, steps).tables.log == Plan(files)
    decreases |steps|
  {
    hide Next, Plan, PrefixSum, Transaction;
    if steps == [] {
      m := 0;
      EmptyIsInOrder(hash, files);
    } else {
      var before := EachFileOnceInOrder(hash, files, steps[..|steps| - 1]);
      m := NextKeepsOrder(hash, files, Play(files, steps[..|steps| - 1]), steps[|steps| - 1], before);
    }
    assert m == |files| ==> files[..m] == files;
  }

  /** How often p visited a file. */
  function Visits(steps: seq<Step>, p: nat): nat {
    if steps == [] then 0
    else Visits(steps[..|steps| - 1], p) + if steps[|steps| - 1].Visit? && steps[|steps| - 1].p == p then 1 else 0
  }

  /** In these steps p only visits files, and no statement of its fails. */
  ghost predicate IsSpared(steps: seq<Step>, p: nat) {
    forall i :: 0 <= i < |steps| && steps[i].p == p ==> steps[i].Visit? && steps[i].fault.NoFault?
  }

  /**
   No process waits for another, or gives up for what another did: from its
   start, each visit without a fault takes it one file further, and after as many
   as there are files one more finishes it, whatever the others do in between.
   */
  lemma {:induction false} VisitsFinish(hash: Hash, files: seq<Migration>, before: seq<Step>, p: nat, after: seq<Step>)
    requires Loaded(files) && IsSpared(after, p)
    ensures var s, n := Play(files, before + [Begin(p)] + after), Visits(after, p);
            && p in s.processes
            && (if n <= |files| then s.processes[p].Working? && s.processes[p].next == n else s.processes[p].Finished?)
    decreases |after|
  {
    hide Plan, PrefixSum, Orderly, AtFile;
    var steps := before + [Begin(p)] + after;
    if after == [] {
      assert steps[..|before|] == before && steps[|before|] == Begin(p);
      var m := EachFileOnceInOrder(hash, files, before);
      var _ := NextKeepsOrder(hash, files, Play(files, before), Begin(p), m);
    } else {
      var front, step := after[..|after| - 1], after[|after| - 1];
      assert steps[..|steps| - 1] == before + [Begin(p)] + front && steps[|steps| - 1] == step;
      VisitsFinish(hash, files, before, p, front);
      var s := Play(files, before + [Begin(p)] + front);
      var m := EachFileOnceInOrder(hash, files, before + [Begin(p)] + front);
      VisitMovesOn(hash, files, s, step, m, p);
    }
  }

  lemma VisitMovesOn(hash: Hash, files: seq<Migration>, s: Race, step: Step, m: nat, p: nat)
    requires Loaded(files) && Orderly(hash, files, s, m) && p in s.processes && !s.processes[p].Idle?
    requires step.p == p ==> step.Visit? && step.fault.NoFault?
    ensures var s', process := Next(files, s, step), s.processes[p];
            && p in s'.processes
            && s'.processes[p] == if step.p != p || process.Finished? then process
                                  else if process.next < |files| then Working(process.rows, process.next + 1) else Finished
  {
    hide Plan, PrefixSum, AtFile, Behind, InOrder;
    if step.p == p && s.processes[p].Working? {
      var _ := AtFileKeepsOrder(hash, files, s.tables, s.processes[p].rows, s.processes[p].next, step.fault, m);
    }
  }

  lemma EmptyIsInOrder(hash: Hash, files: seq<Migration>)
    ensures InOrder(hash, files, START.tables, 0) && InStep(hash, files, map[], [], 0, 0)
  {
    assert Dedup([]) == Plan(files)[..0];
    assert files[..0] == [];
  }
}
