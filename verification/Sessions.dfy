/**
 A worker's database session. Every statement is atomic; before it, the other
 sessions do whatever the script says, time passes, a stop may begin, and the
 statement may fail: refused without effect, or carried out with its answer
 lost. A crash is a script that refuses everything from some statement on.
 */
module Sessions {
  import opened Positions
  import opened Outbox
  import opened Faults

  datatype Turn = Turn(others: seq<Step>, elapsed: nat, stop: bool, fault: Fault)

  /** What the handler makes of a message; a run past its timeout is a failure. */
  datatype Outcome = Took | Failed(cause: Cause, cancellation: bool)

  /** A delivery: the message, the tables and the clock when the handler was called. */
  datatype Call = Call(id: Id, world: World, clock: Time)

  /** A watermark save, the clock when it was issued, and whether it reported success. */
  datatype Saving = Saving(pos: Position, clock: Time, confirmed: bool)

  // ---------- The script ----------

  /** How statement k fares. */
  function FaultAt(turns: seq<Turn>, k: nat): Fault {
    if k < |turns| then turns[k].fault else NoFault
  }

  /** The handler's answer to delivery k; a script that says no more has it fail. */
  function OutcomeAt(outcomes: seq<Outcome>, k: nat): Outcome {
    if k < |outcomes| then outcomes[k] else Failed(HandlerFailed, false)
  }

  /** The clock when n statements have been issued. */
  function Clock(start: Time, turns: seq<Turn>, n: nat): (now: Time)
    ensures start <= now
  {
    if n == 0 then start else Clock(start, turns, n - 1) + if n - 1 < |turns| then turns[n - 1].elapsed else 0
  }

  lemma ClockTicks(start: Time, turns: seq<Turn>, n: nat)
    ensures Clock(start, turns, n + 1) == Clock(start, turns, n) + if n < |turns| then turns[n].elapsed else 0
  {
  }

  lemma Unmoved(w: World, topic: Topic, limit: nat)
    requires Inv(w, limit)
    ensures Rely(w, w, topic, limit)
  {
  }

  /** One of the statements from..to fails, or loses its answer. */
  ghost predicate Faulted(turns: seq<Turn>, from: nat, to: nat) {
    exists k :: from <= k < to && !FaultAt(turns, k).NoFault?
  }

  /** A stop began before one of the first n statements. */
  predicate StopBegun(turns: seq<Turn>, n: nat) {
    exists k :: 0 <= k < n && k < |turns| && turns[k].stop
  }

  class Session {
    const topic: Topic
    const limit: nat
    const turns: seq<Turn>
    const outcomes: seq<Outcome>

    const origin: World  // the tables before the first step
    const start: Time
    ghost var trace: seq<World>  // the states since, through the other sessions' steps and this one's
    var world: World
    var at: nat          // statements issued so far
    var now: Time
    var delivered: nat   // deliveries so far
    ghost var calls: seq<Call>
    ghost var saves: seq<Saving>

    constructor (topic: Topic, limit: nat, tables: World, now: Time, turns: seq<Turn>, outcomes: seq<Outcome>)
      requires Inv(tables, limit)
      ensures Valid() && this.topic == topic && this.limit == limit && world == origin == tables
      ensures this.now == now && at == 0 && this.turns == turns && this.outcomes == outcomes && calls == [] && saves == []
    {
      this.topic, this.limit, this.turns, this.outcomes := topic, limit, turns, outcomes;
      origin, start, world, trace := tables, now, tables, [tables];
      at, this.now, delivered, calls, saves := 0, now, 0, [], [];
    }

    /** The tables and the clock are where the run so far has brought them. */
    ghost predicate Valid()
      reads this
    {
      && Inv(world, limit) && IsTrace(trace, limit) && trace[0] == origin && trace[|trace| - 1] == world
      && now == Clock(start, turns, at) && delivered == |calls|
    }

    predicate Stopping()
      reads this`at
    {
      StopBegun(turns, at)
    }

    /** What happens before the next statement, and how that statement fares. */
    method Yield() returns (fault: Fault)
      requires Valid()
      modifies this`world, this`trace, this`now, this`at
      ensures Valid() && Rely(old(world), world, topic, limit)
      ensures at == old(at) + 1 && fault == FaultAt(turns, old(at)) && old(now) <= now
    {
      hide Clock, Rely, Evolves, Foreign, Run;
      fault := NoFault;
      Unmoved(world, topic, limit);
      ClockTicks(start, turns, at);
      if at < |turns| {
        var turn := turns[at];
        var steps := Foreign(turn.others, topic);
        ForeignRely(world, steps, topic, limit);
        ghost var continued := RunContinues(trace, world, steps, limit);
        world, trace := Run(world, steps, limit), continued;
        now := now + turn.elapsed;
        fault := turn.fault;
      }
      at := at + 1;
    }

    /** Runs one statement of the topic's worker. */
    method Execute(step: Step) returns (ok: bool, ghost before: World)
      requires Valid() && ByWorker(step, topic) && Enabled(world, step, limit)
      requires step.Complete? ==> Pending(world, step.id)
      modifies this`world, this`trace, this`now, this`at
      ensures Valid() && Rely(old(world), before, topic, limit) && Enabled(before, step, limit)
      ensures world == if FaultAt(turns, old(at)).Refused? then before else Apply(before, step, limit)
      ensures ok == FaultAt(turns, old(at)).NoFault? && at == old(at) + 1 && old(now) <= now
    {
      hide Clock;
      var fault := Yield();
      before := world;
      StillEnabled(old(world), world, step, topic, limit);
      if !fault.Refused? {
        StepKeepsInv(world, step, limit);
        TraceExtends(trace, world, step, limit);
        world := Apply(world, step, limit);
        trace := trace + [world];
      }
      ok := fault.NoFault?;
    }

    /** Hands the message to the handler and waits for it to return. */
    method Deliver(id: Id) returns (outcome: Outcome, ghost before: World)
      requires Valid() && Pending(world, id) && world.messages[id].topic == topic
      modifies this`world, this`trace, this`now, this`at, this`delivered, this`calls
      ensures Valid() && Rely(old(world), before, topic, limit) && Enabled(before, Handle(topic, id), limit)
      ensures outcome == OutcomeAt(outcomes, |old(calls)|)
      ensures world == if outcome.Took? then Apply(before, Handle(topic, id), limit) else before
      ensures calls == old(calls) + [Call(id, old(world), old(now))]
      ensures at == old(at) + 1 && old(now) <= now
    {
      hide Clock;
      outcome := OutcomeAt(outcomes, delivered);
      calls, delivered := calls + [Call(id, world, now)], delivered + 1;
      var _ := Yield();
      before := world;
      StillEnabled(old(world), world, Handle(topic, id), topic, limit);
      if outcome.Took? {
        StepKeepsInv(world, Handle(topic, id), limit);
        TraceExtends(trace, world, Handle(topic, id), limit);
        world := Apply(world, Handle(topic, id), limit);
        trace := trace + [world];
      }
    }

    /** stateStore.load. */
    method Load() returns (ok: bool, mark: Option<Position>)
      requires Valid()
      modifies this`world, this`trace, this`now, this`at
      ensures Valid() && Rely(old(world), world, topic, limit)
      ensures mark == Watermark(world, topic)
      ensures ok == FaultAt(turns, old(at)).NoFault? && at == old(at) + 1 && old(now) <= now
    {
      var fault := Yield();
      return fault.NoFault?, Watermark(world, topic);
    }

    /** SELECT ... ORDER BY created_at, id LIMIT limit OFFSET offset over the topic's rows. */
    method Select(query: Query, offset: nat, batch: nat) returns (ok: bool, ps: seq<Position>, rows: seq<Row>)
      requires Valid()
      modifies this`world, this`trace, this`now, this`at
      ensures Valid() && Rely(old(world), world, topic, limit)
      ensures ps == Page(Matching(world, topic, query), offset, batch)
      ensures |rows| == |ps| && forall k :: 0 <= k < |ps| ==>
        ps[k].id >= 0 && ps[k].id in world.messages && rows[k] == world.messages[ps[k].id]
      ensures ok == FaultAt(turns, old(at)).NoFault? && at == old(at) + 1 && old(now) <= now
    {
      hide Clock;
      var fault := Yield();
      ok := fault.NoFault?;
      ps := Page(Matching(world, topic, query), offset, batch);
      rows := RowsAt(world, topic, ps);
    }

    /** relay.frontier: the newest row of the whole table at or before cutoff. */
    method Frontier(cutoff: int) returns (ok: bool, mark: Option<Position>)
      requires Valid()
      modifies this`world, this`trace, this`now, this`at
      ensures Valid() && Rely(old(world), world, topic, limit)
      ensures mark.None? <==> forall id :: id in world.messages ==> cutoff < world.messages[id].at
      ensures mark.Some? ==>
        && 0 <= mark.value.id && mark.value.id in world.messages && world.messages[mark.value.id].at == mark.value.at <= cutoff
        && forall id :: id in world.messages && world.messages[id].at <= cutoff ==>
             AtMost(Position(world.messages[id].at, id), mark.value)
      ensures forall p :: p in Settled(world, cutoff) ==> mark.Some? && AtMost(p, mark.value)
      ensures ok == FaultAt(turns, old(at)).NoFault? && at == old(at) + 1 && old(now) <= now
    {
      hide Clock, Rely, Inv, IsTrace;
      var fault := Yield();
      var settled := Ascending(Settled(world, cutoff));
      return fault.NoFault?, if settled == [] then None else Some(settled[|settled| - 1]);
    }
  }

  /** The conditions of the relay's queries over its topic. */
  datatype Query =
    | Lookbehind(mark: Position)            // pending, at or before the watermark
    | Boundary(ts: int, lastID: int)        // at the watermark's timestamp, after lastID
    | Beyond(ts: int)                       // strictly after the timestamp
    | From(ts: int)                         // at the timestamp or after it
    | All

  predicate Matches(w: World, query: Query, p: Position)
    requires p.id >= 0
  {
    match query
    case Lookbehind(mark) => Pending(w, p.id) && AtMost(p, mark)
    case Boundary(ts, lastID) => p.at == ts && p.id > lastID
    case Beyond(ts) => p.at > ts
    case From(ts) => p.at >= ts
    case All => true
  }

  function Matching(w: World, topic: Topic, query: Query): (s: set<Position>)
    ensures s <= Scan(w, topic)
  {
    set p | p in Scan(w, topic) && Matches(w, query, p)
  }

  function RowsAt(w: World, topic: Topic, ps: seq<Position>): (rows: seq<Row>)
    requires forall p :: p in ps ==> p in Scan(w, topic)
    ensures |rows| == |ps|
    ensures forall k :: 0 <= k < |ps| ==> ps[k].id >= 0 && ps[k].id in w.messages && rows[k] == w.messages[ps[k].id]
  {
    if ps == [] then
      []
    else
      var last := ps[|ps| - 1];
      assert last in ps && last in Scan(w, topic);
      RowsAt(w, topic, ps[..|ps| - 1]) + [w.messages[last.id]]
  }

  function Settled(w: World, cutoff: int): (s: set<Position>)
    ensures forall p :: p in s ==> 0 <= p.id && p.id in w.messages && w.messages[p.id].at == p.at <= cutoff
    ensures forall id :: id in w.messages && w.messages[id].at <= cutoff ==> Position(w.messages[id].at, id) in s
  {
    set id | id in w.messages && w.messages[id].at <= cutoff :: Position(w.messages[id].at, id)
  }

  function Watermark(w: World, topic: Topic): Option<Position> {
    if topic in w.watermarks then Some(w.watermarks[topic]) else None
  }

  /** The others never disable what topic's worker is about to do. */
  lemma StillEnabled(w: World, w': World, step: Step, topic: Topic, limit: nat)
    requires Inv(w, limit) && Rely(w, w', topic, limit)
    requires ByWorker(step, topic) && Enabled(w, step, limit)
    requires step.Complete? ==> Pending(w, step.id)
    ensures Enabled(w', step, limit)
  {
  }
}
