/**
 The retention cleanup and the dead-letter calls: jobs/core.go and jobs/dead.go.
 Between two of their statements every other session may take any steps.
 */
module Maintenance {
  import opened Sets
  import opened Positions
  import opened Outbox
  import opened Sessions
  import opened Faults

  /** A message the cleanup may select: acknowledged, of a registered topic, older than the cutoff. */
  predicate Expired(row: Row, topics: set<Topic>, cutoff: int) {
    row.completedAt.Some? && row.topic in topics && row.at < cutoff
  }

  ghost predicate AllExpired(w: World, ids: set<Id>, topics: set<Topic>, cutoff: int) {
    forall id :: id in ids ==> id in w.messages && Expired(w.messages[id], topics, cutoff)
  }

  /** Of what had expired at w, nothing that is left at b is missing from ids. */
  ghost predicate Selects(w: World, b: World, ids: set<Id>, topics: set<Topic>, cutoff: int) {
    forall id :: id in w.messages && Expired(w.messages[id], topics, cutoff) && id in b.messages ==> id in ids
  }

  function ExpiredRows(w: World, topics: set<Topic>, cutoff: int): (s: set<Position>)
    ensures forall p :: p in s ==>
      0 <= p.id && p.id in w.messages && w.messages[p.id].at == p.at && Expired(w.messages[p.id], topics, cutoff)
    ensures forall id :: id in w.messages && Expired(w.messages[id], topics, cutoff) ==> Position(w.messages[id].at, id) in s
  {
    set id | id in w.messages && Expired(w.messages[id], topics, cutoff) :: Position(w.messages[id].at, id)
  }

  /** The oldest watermark timestamp of any topic. */
  predicate IsFloor(watermarks: map<Topic, Position>, floor: int) {
    && (exists t :: t in watermarks && watermarks[t].at == floor)
    && (forall t :: t in watermarks ==> floor <= watermarks[t].at)
  }

  /** What Requeue and Discard answer. */
  datatype Answer = Resolved | NotParked(missing: set<Id>) | Aborted

  /** The most ids one statement names. */
  const DEAD_CHUNK := 500

  // ---------- A process's statements ----------

  /** What the others do before statement k. */
  function OthersAt(turns: seq<Turn>, k: nat): seq<Step> {
    if k < |turns| then turns[k].others else []
  }

  /**
   The tables are the work of the script and of this process's statements
   alone: statement k found the tables `seen[k]`, which the others' k-th turn
   made of what the statement before had left, and left them as `left[k]`.
   */
  ghost predicate Scripted(origin: World, turns: seq<Turn>, limit: nat, seen: seq<World>, left: seq<World>) {
    |seen| == |left| && forall k :: 0 <= k < |seen| ==> seen[k] == Run(Left(origin, left, k), OthersAt(turns, k), limit)
  }

  function Left(origin: World, left: seq<World>, k: nat): World
    requires k <= |left|
  {
    if k == 0 then origin else left[k - 1]
  }

  /** The statements from..to changed nothing. */
  ghost predicate Idle(seen: seq<World>, left: seq<World>, from: nat, to: nat) {
    from <= to <= |seen| && |seen| == |left| && forall k :: from <= k < to ==> left[k] == seen[k]
  }

  /** Each of ids was parked when one of the statements from..to ran. */
  ghost predicate WereParked(ids: set<Id>, seen: seq<World>, from: nat, to: nat) {
    from <= to <= |seen| && forall id :: id in ids ==> exists k :: from <= k < to && id in seen[k].dead
  }

  /** A statement that removed expired messages only, each of them counted with its row. */
  ghost predicate OnlyExpired(w: World, w': World, topics: set<Topic>, cutoff: int, deleted: map<Id, Row>) {
    && w' == w.(messages := w'.messages) && w'.messages.Keys <= w.messages.Keys
    && (forall id :: id in w'.messages ==> w'.messages[id] == w.messages[id])
    && (forall id :: id in w.messages && id !in w'.messages ==>
          && id in deleted && deleted[id] == w.messages[id] && deleted[id].completedAt.Some?
          && deleted[id].topic in topics && deleted[id].at < cutoff)
  }

  /** The statements from..to removed exactly the deleted rows, each an expired one, and did nothing else. */
  ghost predicate Cleaned(seen: seq<World>, left: seq<World>, from: nat, to: nat, topics: set<Topic>, cutoff: int, deleted: map<Id, Row>) {
    && from <= to <= |seen| && |seen| == |left|
    && (forall k :: from <= k < to ==> OnlyExpired(seen[k], left[k], topics, cutoff, deleted))
    && (forall id :: id in deleted ==> exists k :: from <= k < to && id in seen[k].messages && id !in left[k].messages)
  }

  /** cutoff is the older of the retention and the oldest watermark of any topic. */
  ghost predicate IsCutoff(watermarks: map<Topic, Position>, latest: int, cutoff: int) {
    exists floor :: IsFloor(watermarks, floor) && cutoff == if floor < latest then floor else latest
  }

  class Caretaker {
    const limit: nat
    const turns: seq<Turn>
    const origin: World
    const start: Time
    ghost var trace: seq<World>
    ghost var seen: seq<World>
    ghost var left: seq<World>
    var world: World
    var at: nat  // statements issued so far
    var now: Time

    constructor (limit: nat, tables: World, now: Time, turns: seq<Turn>)
      requires Inv(tables, limit)
      ensures Valid() && this.limit == limit && world == origin == tables && this.turns == turns && at == 0
    {
      this.limit, this.turns, origin, start, world, trace := limit, turns, tables, now, tables, [tables];
      seen, left, at, this.now := [], [], 0, now;
    }

    ghost predicate Valid()
      reads this
    {
      && Inv(world, limit) && IsTrace(trace, limit) && trace != [] && trace[0] == origin && trace[|trace| - 1] == world
      && now == Clock(start, turns, at)
      && |seen| == |left| == at && world == Left(origin, left, at) && Scripted(origin, turns, limit, seen, left)
    }

    lemma Facts()
      requires Valid()
      ensures Inv(world, limit) && world.messages.Keys <= world.issued
      ensures |seen| == |left| == at && (at > 0 ==> left[at - 1] == world)
    {
    }

    /** The last statement failed, or lost its answer. */
    ghost predicate LastFailed()
      reads this`at
    {
      at > 0 && !FaultAt(turns, at - 1).NoFault?
    }

    /** What the statements since `from` did. */
    ghost predicate Idled(from: nat)
      reads this
    {
      Idle(seen, left, from, at)
    }

    /** The others' turn, and how the statement that follows fares. */
    method Yield() returns (fault: Fault)
      requires Valid()
      modifies this
      ensures Valid() && Evolves(old(world), world) && ParkedStays(old(world), world) && old(now) <= now
      ensures at == old(at) + 1 && fault == FaultAt(turns, old(at))
      ensures seen == old(seen) + [world] && left == old(left) + [world]
      ensures old(at) >= |turns| ==> world == old(world)
    {
      hide Clock, Evolves, ParkedStays, Inv, Run;
      Still(world, limit);
      ClockTicks(start, turns, at);
      RunNothing(world, limit);
      fault := FaultAt(turns, at);
      if at < |turns| {
        var turn := turns[at];
        RunKeepsParked(world, turn.others, limit);
        ghost var continued := RunContinues(trace, world, turn.others, limit);
        world, trace := Run(world, turn.others, limit), continued;
        now := now + turn.elapsed;
      }
      seen, left := seen + [world], left + [world];
      at := at + 1;
    }

    lemma Still(w: World, limit: nat)
      requires Inv(w, limit)
      ensures Evolves(w, w) && ParkedStays(w, w)
    {
      EvolvesReflexive(w);
    }

    /** What the statement itself does, unless it is refused. */
    method Act(step: Step)
      requires Valid() && at > 0 && Enabled(world, step, limit)
      modifies this`world, this`trace, this`left
      ensures Valid() && world == Apply(old(world), step, limit)
      ensures left == old(left)[at - 1 := world] && Evolves(old(world), world)
    {
      hide Clock, Evolves, Inv, IsTrace, Scripted, Apply, Enabled;
      ScriptedBut(origin, turns, limit, seen, left, Apply(world, step, limit));
      StepKeepsInv(world, step, limit);
      StepEvolves(world, step, limit);
      TraceExtends(trace, world, step, limit);
      world := Apply(world, step, limit);
      trace := trace + [world];
      left := left[at - 1 := world];
    }

    // ---------- Retention ----------

    /** The floor of the watermarks, none without any. */
    method Floor(watermarks: map<Topic, Position>) returns (floor: Option<int>)
      ensures watermarks == map[] <==> floor.None?
      ensures floor.Some? ==> IsFloor(watermarks, floor.value)
    {
      floor := None;
      var todo := watermarks.Keys;
      while todo != {}
        invariant todo <= watermarks.Keys
        invariant floor.None? <==> todo == watermarks.Keys
        invariant floor.Some? ==> (exists t :: t in watermarks && watermarks[t].at == floor.value)
        invariant floor.Some? ==> forall t :: t in watermarks && t !in todo ==> floor.value <= watermarks[t].at
        decreases todo
      {
        var t :| t in todo;
        if floor.None? || watermarks[t].at < floor.value {
          floor := Some(watermarks[t].at);
        }
        todo := todo - {t};
      }
    }

    /** The SELECT of the cleanup: a batch of expired rows, all of them when it is not full. */
    method SelectExpired(topics: set<Topic>, cutoff: int, batchSize: nat, ghost from: World)
      returns (ok: bool, ids: set<Id>, full: bool)
      requires Valid() && 0 < batchSize && Evolves(from, world) && from.messages.Keys <= from.issued
      modifies this
      ensures Valid() && Evolves(old(world), world) && Evolves(from, world)
      ensures ok == FaultAt(turns, old(at)).NoFault? && at == old(at) + 1
      ensures seen == old(seen) + [world] && left == old(left) + [world]
      ensures forall id :: id in ids ==> id in world.messages && Expired(world.messages[id], topics, cutoff)
      ensures full ==> ids != {}
      ensures !full ==> forall id :: id in from.messages && Expired(from.messages[id], topics, cutoff) && id in world.messages
                                     ==> id in ids
      ensures old(at) >= |turns| ==> world == old(world)
    {
      hide Evolves, Clock, Scripted, Inv;
      var fault := Yield();
      ok := fault.NoFault?;
      EvolvesTransitive(from, old(world), world);
      var page := Page(ExpiredRows(world, topics, cutoff), 0, batchSize);
      ids := set p | p in page :: p.id;
      full := |page| == batchSize;
      if full {
        assert page[0] in page && page[0].id in ids;
      } else {
        ExpiredAreSelected(from, world, topics, cutoff, batchSize);
        assert forall p :: p in page ==> p.id in ids;
      }
    }

    /** The DELETE of the cleanup: what it removed, and how many rows that was. */
    method DeleteBatch(ids: set<Id>, topics: set<Topic>, cutoff: int) returns (ok: bool, affected: nat, ghost gone: map<Id, Row>)
      requires Valid() && forall id :: id in ids ==> id in world.messages && Expired(world.messages[id], topics, cutoff)
      requires topics <= world.watermarks.Keys && forall t :: t in topics ==> cutoff <= world.watermarks[t].at
      modifies this
      ensures Valid() && Evolves(old(world), world)
      ensures ok == FaultAt(turns, old(at)).NoFault? && at == old(at) + 1
      ensures old(seen) <= seen && old(left) <= left && Cleaned(seen, left, old(at), at, topics, cutoff, gone)
      ensures gone.Keys <= ids && gone.Keys <= world.issued && gone.Keys !! world.messages.Keys
      ensures ok ==> affected == |gone| && world.messages.Keys !! ids
      ensures old(at) >= |turns| ==> ok && world.messages == old(world).messages - ids
    {
      hide Clock, Evolves, Valid, Inv, Cleaned, Expired, ParkedStays;
      ghost var w := world;
      Facts();
      AreDeletable(world, ids, topics, cutoff);
      var fault := Yield();
      Facts();
      ghost var b := world;
      StillDeletable(w, b, ids, limit);
      StillExpired(w, b, ids, topics, cutoff, limit);
      ok, affected, gone := fault.NoFault?, 0, map[];
      if fault.Refused? {
        SameStatement(seen, left, at - 1);
        CleanedNothing(seen, left, at - 1, at, topics, cutoff);
      } else {
        affected, gone := Remove(ids, topics, cutoff);
        EvolvesTransitive(w, b, world);
      }
    }

    /** What a DELETE by ids does. */
    method Remove(ids: set<Id>, topics: set<Topic>, cutoff: int) returns (affected: nat, ghost gone: map<Id, Row>)
      requires Valid() && at > 0 && seen[at - 1] == left[at - 1] == world && Enabled(world, Delete(ids), limit) && ids <= world.issued
      requires forall id :: id in ids && id in world.messages ==> Expired(world.messages[id], topics, cutoff)
      modifies this`world, this`trace, this`left
      ensures Valid() && Evolves(old(world), world) && left == old(left)[at - 1 := world]
      ensures Cleaned(seen, left, at - 1, at, topics, cutoff, gone)
      ensures gone.Keys <= ids && gone.Keys <= world.issued && gone.Keys !! world.messages.Keys
      ensures affected == |gone| && world.messages.Keys !! ids && world.messages == old(world).messages - ids
    {
      hide Evolves, Valid, Inv, Cleaned, Expired, Enabled, Apply, RowsOf, Affected;
      Facts();
      ghost var b := world;
      affected, gone := Affected(world, ids), RowsOf(b, ids);
      DeleteRemoves(b, ids, limit);
      Act(Delete(ids));
      Facts();
      RowsGo(b, world, ids);
      CleanedOnce(b, world, seen, left, at - 1, ids, topics, cutoff);
    }

    /**
     core.cleanupOnce: deletes in batches what is acknowledged, of a registered
     topic, and older than both the retention and the oldest watermark; nothing
     while a registered topic has no watermark. `read` are the tables whose
     watermarks it went by.
     */
    method CleanupOnce(topics: set<Topic>, retention: nat, batchSize: nat)
      returns (ok: bool, total: nat, ghost deleted: map<Id, Row>, ghost cutoff: int, ghost ready: bool)
      requires Valid() && 0 < batchSize
      modifies this
      ensures Valid() && Evolves(old(world), world) && old(at) <= at && old(seen) <= seen
      ensures topics != {} ==> old(at) < at
      ensures ready <==> topics != {} && FaultAt(turns, old(at)).NoFault? && topics <= seen[old(at)].watermarks.Keys
      ensures !ready ==> deleted == map[] && total == 0 && Idle(seen, left, old(at), at)
      ensures !ready ==> (ok <==> topics == {} || FaultAt(turns, old(at)).NoFault?)
      ensures ready ==> IsCutoff(seen[old(at)].watermarks, Clock(start, turns, old(at) + 1) - retention, cutoff)
      ensures ready ==> Cleaned(seen, left, old(at), at, topics, cutoff, deleted)
      ensures deleted.Keys <= world.issued && deleted.Keys !! world.messages.Keys
      ensures ok && ready ==> total == |deleted| && NoneExpired(old(world), world, topics, cutoff)
      ensures !ok ==> (old(at) < at && LastFailed()) || StopBegun(turns, at)
    {
      hide Evolves, Clock, Scripted, Inv, IsTrace, Cleaned, ParkedStays, NoneExpired;
      total, deleted, cutoff, ready := 0, map[], 0, false;
      Still(world, limit);
      if topics == {} {
        return true, 0, map[], cutoff, ready;
      }
      ghost var w, from := world, at;
      var fault := Yield();
      if !fault.NoFault? {
        return false, 0, map[], cutoff, ready;
      }
      var states := world.watermarks;
      if !(topics <= states.Keys) {
        return true, 0, map[], cutoff, ready;
      }
      var floor := Floor(states);
      var limitTime := now - retention;
      if floor.Some? && floor.value < limitTime {
        limitTime := floor.value;
      }
      cutoff, ready := limitTime, true;
      assert IsCutoff(states, now - retention, cutoff) by {
        assert IsFloor(states, floor.value);
      }
      KnownIds(w, limit);
      CleanedNothing(seen, left, from, at, topics, cutoff);
      ok, total, deleted := DeleteExpired(topics, limitTime, batchSize, w, from);
    }

    /** The deleting loop of cleanupOnce, below a cutoff that every registered topic's watermark has reached. */
    method DeleteExpired(topics: set<Topic>, cutoff: int, batchSize: nat, ghost w: World, ghost from: nat)
      returns (ok: bool, total: nat, ghost deleted: map<Id, Row>)
      requires Valid() && 0 < batchSize && Evolves(w, world) && w.messages.Keys <= w.issued
      requires Underway(topics, cutoff, from, map[])
      modifies this
      ensures Valid() && Evolves(w, world) && old(at) <= at && old(seen) <= seen
      ensures Underway(topics, cutoff, from, deleted)
      ensures ok ==> total == |deleted| && NoneExpired(w, world, topics, cutoff)
      ensures !ok ==> (old(at) < at && LastFailed()) || StopBegun(turns, at)
    {
      hide Evolves, Clock, Scripted, Inv, Underway, NoneExpired, IsTrace;
      ok, total, deleted := true, 0, map[];
      var more := true;
      while more
        invariant Valid() && Evolves(w, world) && ok && old(at) <= at && old(seen) <= seen
        invariant total == |deleted| && Underway(topics, cutoff, from, deleted)
        invariant !more ==> NoneExpired(w, world, topics, cutoff)
        decreases more, if at < |turns| then |turns| - at else 0, |world.messages|
      {
        if StopBegun(turns, at) {
          return false, total, deleted;
        }
        var affected;
        ok, more, affected, deleted := DeleteSelected(topics, cutoff, batchSize, w, from, deleted);
        if !ok {
          return;
        }
        total := total + affected;
      }
    }

    /** One batch: the SELECT and the DELETE of what it found; no more when the batch was not full. */
    method DeleteSelected(topics: set<Topic>, cutoff: int, batchSize: nat, ghost w: World, ghost from: nat, ghost before: map<Id, Row>)
      returns (ok: bool, more: bool, affected: nat, ghost deleted: map<Id, Row>)
      requires Valid() && 0 < batchSize && Evolves(w, world) && w.messages.Keys <= w.issued && Underway(topics, cutoff, from, before)
      modifies this
      ensures Valid() && Evolves(w, world) && old(at) < at && old(seen) <= seen && Underway(topics, cutoff, from, deleted)
      ensures ok ==> |deleted| == |before| + affected
      ensures ok && !more ==> NoneExpired(w, world, topics, cutoff)
      ensures ok && more && old(at) >= |turns| ==> |world.messages| < |old(world).messages|
      ensures !ok ==> LastFailed()
    {
      hide Evolves, Valid, Inv, Underway, AllExpired, Selects, NoneExpired, LastFailed;
      affected, deleted, more := 0, before, false;
      var ids, full;
      ok, ids, full := SelectOn(topics, cutoff, batchSize, w, from, before);
      ghost var b := world;
      Facts();
      Still(b, limit);
      if !ok {
        return;
      }
      if ids == {} {
        NoneLeft(w, b, b, ids, topics, cutoff, full);
        return;
      }
      ok, affected, deleted := DeleteOn(ids, topics, cutoff, from, before);
      EvolvesTransitive(w, b, world);
      Smaller(b, ids, topics, cutoff);
      NoneLeft(w, b, world, ids, topics, cutoff, full);
      more := full;
    }

    /** The SELECT of a cleanup that has removed `before`. */
    method SelectOn(topics: set<Topic>, cutoff: int, batchSize: nat, ghost w: World, ghost from: nat, ghost before: map<Id, Row>)
      returns (ok: bool, ids: set<Id>, full: bool)
      requires Valid() && 0 < batchSize && Evolves(w, world) && w.messages.Keys <= w.issued && Underway(topics, cutoff, from, before)
      modifies this
      ensures Valid() && Evolves(old(world), world) && Evolves(w, world) && Underway(topics, cutoff, from, before)
      ensures at == old(at) + 1 && old(seen) <= seen && (ok <==> !LastFailed())
      ensures AllExpired(world, ids, topics, cutoff) && (full ==> ids != {}) && (!full ==> Selects(w, world, ids, topics, cutoff))
      ensures old(at) >= |turns| ==> world == old(world)
    {
      hide Evolves, Clock, Scripted, Inv, Cleaned, Expired, IsTrace;
      ghost var a, seen0, left0 := world, seen, left;
      ok, ids, full := SelectExpired(topics, cutoff, batchSize, w);
      StillMarked(a, world, topics, cutoff);
      StillGone(a, world, before.Keys);
      CleanedIdle(seen0, left0, seen, left, from, topics, cutoff, before);
    }

    /** The DELETE of a cleanup that has removed `before`. */
    method DeleteOn(ids: set<Id>, topics: set<Topic>, cutoff: int, ghost from: nat, ghost before: map<Id, Row>)
      returns (ok: bool, affected: nat, ghost deleted: map<Id, Row>)
      requires Valid() && Underway(topics, cutoff, from, before) && AllExpired(world, ids, topics, cutoff)
      modifies this
      ensures Valid() && Evolves(old(world), world) && Underway(topics, cutoff, from, deleted)
      ensures at == old(at) + 1 && old(seen) <= seen && (ok <==> !LastFailed())
      ensures ok ==> |deleted| == |before| + affected && world.messages.Keys !! ids
      ensures old(at) >= |turns| ==> ok && world.messages == old(world).messages - ids
    {
      hide Evolves, Valid, Inv, Cleaned, Expired;
      ghost var b, seen0, left0 := world, seen, left;
      Facts();
      ghost var gone;
      ok, affected, gone := DeleteBatch(ids, topics, cutoff);
      Facts();
      StillMarked(b, world, topics, cutoff);
      StillGone(b, world, before.Keys);
      Apart(before, gone, b.messages.Keys);
      CleanedOn(seen0, left0, seen, left, from, topics, cutoff, before, gone);
      deleted := before + gone;
    }

    /** A cleanup whose statements since `from` have removed exactly `before`. */
    ghost predicate Underway(topics: set<Topic>, cutoff: int, from: nat, before: map<Id, Row>)
      reads this
    {
      && topics <= world.watermarks.Keys && (forall t :: t in topics ==> cutoff <= world.watermarks[t].at)
      && Cleaned(seen, left, from, at, topics, cutoff, before)
      && before.Keys <= world.issued && before.Keys !! world.messages.Keys
    }

    // ---------- Dead letters ----------

    /** Requeue: each parked message of ids becomes a new one, in the order the parked ones had. */
    method Requeue(ids: seq<Id>) returns (answer: Answer, ghost again: map<Id, Renewal>)
      requires Valid()
      modifies this
      ensures Valid() && Evolves(old(world), world) && old(at) <= at && old(seen) <= seen
      ensures Answered(answer, IdSet(ids), again, old(at), old(world))
      ensures answer.Resolved? && ids != [] ==> at > 0 && Renews(IdSet(ids), again) && InOrder(seen[at - 1], again)
    {
      answer, again := TakeDead(ids, true);
    }

    /** Discard: the parked messages of ids are gone. */
    method Discard(ids: seq<Id>) returns (answer: Answer)
      requires Valid()
      modifies this
      ensures Valid() && Evolves(old(world), world) && old(at) <= at && old(seen) <= seen
      ensures Answered(answer, IdSet(ids), map[], old(at), old(world))
    {
      ghost var again;
      answer, again := TakeDead(ids, false);
    }

    /**
     What an answer about ids says of the statements since `from`, when the
     tables were w: only the last can have changed anything, and Resolved means
     that it took all of ids, which were parked then.
     */
    ghost predicate Answered(answer: Answer, ids: set<Id>, again: map<Id, Renewal>, from: nat, w: World)
      reads this
    {
      from <= at == |seen| == |left| &&
      match answer
      case Resolved =>
        if ids == {} then from == at else
          && from < at && Idle(seen, left, from, at - 1)
          && Evolves(w, seen[at - 1]) && ParkedStays(w, seen[at - 1])
          && left[at - 1] == world && Taken(seen[at - 1], world, ids, again, now)
      case NotParked(missing) =>
        missing != {} && missing <= ids && Idled(from) && NotThroughout(missing, w, world)
      case Aborted =>
        && from < at && Idle(seen, left, from, at - 1)
        && (left[at - 1] == seen[at - 1] || Taken(seen[at - 1], left[at - 1], ids, again, now))
        && (!LastFailed() ==> Idled(from) && !(ids <= world.dead.Keys) && WereParked(ids, seen, from, at - 1))
    }

    /**
     Jobs.takeDead: reads the dead rows of ids in chunks, and takes all of them
     in one transaction or none. A row another call took meanwhile aborts it.
     */
    method TakeDead(ids: seq<Id>, requeue: bool) returns (answer: Answer, ghost again: map<Id, Renewal>)
      requires Valid()
      modifies this
      ensures Valid() && Evolves(old(world), world) && old(at) <= at && old(seen) <= seen
      ensures Answered(answer, IdSet(ids), again, old(at), old(world))
      ensures answer.Resolved? && requeue && ids != [] ==> at > 0 && Renews(IdSet(ids), again) && InOrder(seen[at - 1], again)
      ensures !requeue ==> again == map[]
    {
      hide Evolves, Clock, Scripted, Inv, ParkedStays, Taken, Renews, InOrder, Current, Idle, WereParked;
      var wanted := IdSet(ids);
      again := map[];
      ghost var w, from := world, at;
      Still(world, limit);
      assert ids != [] ==> ids[0] in wanted;
      KnownIds(w, limit);
      if wanted == {} {
        NothingYet(seen, left, at);
        return Resolved, again;
      }
      var ok, rows := ReadDead(wanted);
      ghost var b := world;
      if !ok {
        IdleEnds(seen, left, from, at);
        return Aborted, again;
      }
      var missing := wanted - rows.Keys;
      if missing != {} {
        NothingYet(seen, left, at);
        return NotParked(missing), again;
      }
      assert rows.Keys == wanted by {
        assert forall id :: id in wanted ==> id !in missing ==> id in rows;
      }
      answer, again := CommitTake(wanted, rows, requeue, w, from);
      EvolvesTransitive(w, b, world);
    }

    /** The writing half of takeDead's transaction. */
    method CommitTake(wanted: set<Id>, rows: map<Id, DeadRow>, requeue: bool, ghost w: World, ghost from: nat)
      returns (answer: Answer, ghost again: map<Id, Renewal>)
      requires Valid() && wanted != {} && rows.Keys == wanted && Current(rows, world)
      requires WereParked(wanted, seen, from, at)
      requires Idle(seen, left, from, at) && Evolves(w, world) && ParkedStays(w, world) && w.messages.Keys <= w.issued
      modifies this
      ensures Valid() && Evolves(old(world), world) && at == old(at) + 1 && old(seen) <= seen
      ensures !answer.NotParked? && Answered(answer, wanted, again, from, w)
      ensures answer.Resolved? && requeue ==> Renews(wanted, again) && InOrder(seen[old(at)], again)
      ensures !requeue ==> again == map[]
    {
      hide WereParked, Evolves, Renews, InOrder, Taken, Inv, ParkedStays, Current, Idle, Valid, Answered, LastFailed;
      ghost var a := world;
      var fault, there := Recheck(wanted, rows, w, from);
      if fault.Refused? || !there {
        again := map[];
        Undone(wanted, again, from, w);
        return Aborted, again;
      }
      ghost var b := world;
      answer, again := TakeThere(wanted, rows, requeue, fault.NoFault?, w, from);
      EvolvesTransitive(a, b, world);
    }

    /** The rest of the transaction, every row being there. */
    method TakeThere(wanted: set<Id>, rows: map<Id, DeadRow>, requeue: bool, confirmed: bool, ghost w: World, ghost from: nat)
      returns (answer: Answer, ghost again: map<Id, Renewal>)
      requires Valid() && wanted != {} && rows.Keys == wanted <= world.dead.Keys && Current(rows, world) && (confirmed <==> !LastFailed())
      requires |seen| == |left| == at && from < at && left[at - 1] == seen[at - 1] == world
      requires Idle(seen, left, from, at) && Evolves(w, world) && ParkedStays(w, world)
      modifies this`world, this`trace, this`left
      ensures Valid() && Evolves(old(world), world)
      ensures !answer.NotParked? && Answered(answer, wanted, again, from, w)
      ensures answer.Resolved? && requeue ==> Renews(wanted, again) && InOrder(seen[at - 1], again)
      ensures !requeue ==> again == map[]
    {
      hide WereParked, Evolves, Renews, InOrder, Taken, Inv, ParkedStays, Current, Idle, Valid, Answered, LastFailed;
      ghost var left1 := left;
      CurrentIsEqual(rows, world);
      again := TakeAll(wanted, rows, requeue);
      Facts();
      IdleButLast(seen, left1, left, from);
      answer := if confirmed then Resolved else Aborted;
      Carried(answer, wanted, again, from, w);
    }

    /** The statement that finds which rows are still there. */
    method Recheck(wanted: set<Id>, rows: map<Id, DeadRow>, ghost w: World, ghost from: nat)
      returns (fault: Fault, there: bool)
      requires Valid() && rows.Keys == wanted && Current(rows, world) && WereParked(wanted, seen, from, at)
      requires Idle(seen, left, from, at) && Evolves(w, world) && ParkedStays(w, world) && w.messages.Keys <= w.issued
      modifies this
      ensures Valid() && Evolves(old(world), world) && at == old(at) + 1 && (fault.NoFault? <==> !LastFailed())
      ensures seen == old(seen) + [world] && left == old(left) + [world] && |seen| == |left| == at && from < at
      ensures old(world).messages.Keys <= old(world).issued && (there <==> wanted <= world.dead.Keys)
      ensures Current(rows, world) && WereParked(wanted, seen, from, at - 1)
      ensures Idle(seen, left, from, at) && Evolves(w, world) && ParkedStays(w, world)
    {
      hide WereParked, Evolves, Inv, ParkedStays, Current, Idle, Valid;
      ghost var a, seen0, left0 := world, seen, left;
      Facts();
      IdleFrom(seen, left, from, at);
      fault := Yield();
      Facts();
      CountTells(wanted, world.dead.Keys);
      there := |wanted * world.dead.Keys| == |wanted|;
      Onward(w, a, world);
      IdleOn(seen0, left0, seen, left, from);
      ParkedBefore(wanted, seen0, seen, from);
      CurrentStays(rows, a, world);
    }

    lemma Undone(ids: set<Id>, again: map<Id, Renewal>, from: nat, w: World)
      requires |seen| == |left| == at && from < at && Idle(seen, left, from, at)
      requires LastFailed() || (!(ids <= world.dead.Keys) && WereParked(ids, seen, from, at - 1))
      ensures Answered(Aborted, ids, again, from, w)
    {
      hide Taken, Evolves, ParkedStays, WereParked;
    }

    lemma Carried(answer: Answer, ids: set<Id>, again: map<Id, Renewal>, from: nat, w: World)
      requires |seen| == |left| == at && from < at && Idle(seen, left, from, at - 1) && ids != {}
      requires left[at - 1] == world && Taken(seen[at - 1], world, ids, again, now)
      requires Evolves(w, seen[at - 1]) && ParkedStays(w, seen[at - 1])
      requires answer == if LastFailed() then Aborted else Resolved
      ensures Answered(answer, ids, again, from, w)
    {
      hide Taken, Evolves, ParkedStays;
    }

    /** The statements of the transaction, every row being there. */
    method TakeAll(wanted: set<Id>, rows: map<Id, DeadRow>, requeue: bool) returns (ghost again: map<Id, Renewal>)
      requires Valid() && at > 0
      requires rows.Keys == wanted && forall id :: id in rows ==> id in world.dead && world.dead[id] == rows[id]
      modifies this`world, this`trace, this`left
      ensures Valid() && Evolves(old(world), world) && Taken(old(world), world, wanted, again, now)
      ensures left == old(left)[at - 1 := world]
      ensures if requeue then Renews(wanted, again) && InOrder(old(world), again) else again == map[]
    {
      hide Evolves, Renews, InOrder, Clock, Scripted, Taken, Apply;
      var added: map<Id, Renewal> := map[];
      if requeue {
        added := Enqueued(rows, world, NextId(world.issued));
      }
      again := added;
      TakeTakes(world, wanted, added, now, limit);
      Act(Take(wanted, added, now));
    }

    /** Reads the dead rows of wanted, a chunk of ids per statement; one that is parked all along is found. */
    method ReadDead(wanted: set<Id>) returns (ok: bool, rows: map<Id, DeadRow>)
      requires Valid()
      modifies this
      ensures Valid() && Evolves(old(world), world) && ParkedStays(old(world), world) && old(at) <= at && old(seen) <= seen
      ensures Idle(seen, left, old(at), at)
      ensures rows.Keys <= wanted && Current(rows, world) && WereParked(rows.Keys, seen, old(at), at)
      ensures ok ==> NotThroughout(wanted - rows.Keys, old(world), world)
      ensures !ok ==> old(at) < at && LastFailed()
    {
      hide Evolves, Inv, Valid, ParkedStays, Current, Idle, NotThroughout, WereParked, Reading, StillToRead, LastFailed;
      rows := map[];
      var rest := Ascending(set id | id in wanted :: Position(id, 0));
      ghost var todo := wanted;
      ghost var w, from := world, at;
      Opens(wanted);
      AllToRead(wanted, rest);
      ok := true;
      while rest != []
        invariant Valid() && Reading(w, from, rows, wanted, todo) && old(at) <= at && old(seen) <= seen && ok
        invariant StillToRead(wanted, todo, rest)
        decreases |rest|
      {
        ok, rows, rest, todo := ReadChunk(rows, wanted, rest, w, from, todo);
        if !ok {
          break;
        }
      }
      Closes(w, from, rows, wanted, todo, rest);
    }

    lemma Opens(wanted: set<Id>)
      requires Valid()
      ensures Reading(world, at, map[], wanted, wanted) && Inv(world, limit)
    {
      hide Evolves, ParkedStays, Current, Idle, NotThroughout, WereParked;
      Still(world, limit);
      NothingYet(seen, left, at);
      NoneParkedYet(seen, at);
      NothingRead(world, wanted);
      KnownIds(world, limit);
      ghost var rows: map<Id, DeadRow> := map[];
      assert rows.Keys == {};
    }

    lemma Closes(w: World, from: nat, rows: map<Id, DeadRow>, wanted: set<Id>, todo: set<Id>, rest: seq<Position>)
      requires Reading(w, from, rows, wanted, todo) && StillToRead(wanted, todo, rest)
      ensures Evolves(w, world) && ParkedStays(w, world) && rows.Keys <= wanted && Current(rows, world)
      ensures Idle(seen, left, from, at) && WereParked(rows.Keys, seen, from, at)
      ensures rest == [] ==> NotThroughout(wanted - rows.Keys, w, world)
    {
      hide Evolves, ParkedStays, Current, Idle, NotThroughout, WereParked;
      if rest == [] {
        assert todo == {} by {
          assert forall id :: id in todo ==> Position(id, 0) in rest;
        }
        assert wanted - todo - rows.Keys == wanted - rows.Keys;
      }
    }

    /** What the chunks read so far say: the rows are current, and no other id of them was parked throughout. */
    ghost predicate Reading(w: World, from: nat, rows: map<Id, DeadRow>, wanted: set<Id>, todo: set<Id>)
      reads this
    {
      && Evolves(w, world) && ParkedStays(w, world) && w.messages.Keys <= w.issued
      && rows.Keys <= wanted && Current(rows, world) && NotThroughout(wanted - todo - rows.Keys, w, world)
      && Idle(seen, left, from, at) && WereParked(rows.Keys, seen, from, at)
    }

    /** One SELECT of takeDead. */
    method ReadChunk(rows0: map<Id, DeadRow>, wanted: set<Id>, rest0: seq<Position>, ghost w: World, ghost from: nat, ghost todo0: set<Id>)
      returns (ok: bool, rows: map<Id, DeadRow>, rest: seq<Position>, ghost todo: set<Id>)
      requires Valid() && Reading(w, from, rows0, wanted, todo0) && Inv(w, limit) && rest0 != []
      requires StillToRead(wanted, todo0, rest0)
      modifies this
      ensures Valid() && Reading(w, from, rows, wanted, todo) && at == old(at) + 1 && old(seen) <= seen
      ensures StillToRead(wanted, todo, rest) && (ok ==> |rest| < |rest0|)
      ensures ok <==> !LastFailed()
    {
      hide WereParked, Evolves, Clock, Scripted, ParkedStays, Idle, Run, IsTrace;
      rows, todo, rest := rows0, todo0, rest0;
      var n := if |rest0| < DEAD_CHUNK then |rest0| else DEAD_CHUNK;
      ghost var a, seen0, left1 := world, seen, left;
      var fault := Yield();
      IdleOn(seen0, left1, seen, left, from);
      ReadOn(rows, wanted - todo - rows.Keys, w, a, world, limit);
      Onward(w, a, world);
      ok := fault.NoFault?;
      ParkedOn(rows.Keys, {}, seen0, world, from);
      assert rows.Keys + {} == rows.Keys;
      if ok {
        var chunk := set p | p in rest0[..n] && p.at >= 0 :: p.at as nat;
        StillNext(wanted, todo0, rest0, n, chunk);
        rest := rest0[n..];
        var part := map id | id in chunk && id in world.dead :: world.dead[id];
        DeadIsDone(world, limit);
        rows, todo := rows + part, todo - chunk;
        ParkedOn(rows0.Keys, part.Keys, seen0, world, from);
        assert rows.Keys == rows0.Keys + part.Keys;
        ChunkRead(w, world, wanted, todo0, rows0, chunk, part);
      }
    }

    /** The new messages for rows, in the parked messages' order: created now, under new ids. */
    method Enqueued(rows: map<Id, DeadRow>, ghost tables: World, first: Id) returns (again: map<Id, Renewal>)
      requires forall d :: d in rows ==> d in tables.dead && tables.dead[d] == rows[d]
      ensures forall n :: n in again ==> first <= n && again[n].at == now
      ensures Renews(rows.Keys, again) && InOrder(tables, again)
    {
      var order := Sorted(rows);
      again := Numbered(order, first);
      assert Follows(rows, order, first, now, again);
      OrderRenews(rows, order, first, now, again);
      OrderIsKept(rows, tables, order, first, now, again);
    }

    /** The rows in the order they were first enqueued in. */
    method Sorted(rows: map<Id, DeadRow>) returns (order: seq<Position>)
      ensures Increasing(order)
      ensures forall p :: p in order ==> p.id >= 0 && p.id in rows && rows[p.id].at == p.at
      ensures forall d :: d in rows ==> Position(rows[d].at, d) in order
    {
      order := Ascending(DeadPositions(rows));
    }

    /** One insert per row of order, each under the next id. */
    method Numbered(order: seq<Position>, first: Id) returns (again: map<Id, Renewal>)
      requires forall p :: p in order ==> p.id >= 0
      ensures forall n :: n in again <==> first <= n < first + |order|
      ensures forall n :: n in again ==> order[n - first].id >= 0 && again[n] == Renewal(order[n - first].id, now)
    {
      again := map[];
      var i := 0;
      while i < |order|
        invariant i <= |order|
        invariant forall n :: n in again <==> first <= n < first + i
        invariant forall n :: n in again ==> order[n - first].id >= 0 && again[n] == Renewal(order[n - first].id, now)
      {
        assert order[i] in order;
        again := again[first + i := Renewal(order[i].id, now)];
        i := i + 1;
      }
    }
  }

  function DeadPositions(rows: map<Id, DeadRow>): (s: set<Position>)
    ensures forall p :: p in s ==> p.id >= 0 && p.id in rows && rows[p.id].at == p.at
    ensures forall d :: d in rows ==> Position(rows[d].at, d) in s
  {
    set d | d in rows :: Position(rows[d].at, d)
  }

  /** The new messages from id `first` on follow the order of the parked ones. */
  ghost predicate Follows(rows: map<Id, DeadRow>, order: seq<Position>, first: Id, now: Time, again: map<Id, Renewal>) {
    && Increasing(order)
    && (forall p :: p in order ==> p.id >= 0 && p.id in rows && rows[p.id].at == p.at)
    && (forall d :: d in rows ==> Position(rows[d].at, d) in order)
    && (forall n :: n in again <==> first <= n < first + |order|)
    && (forall n :: n in again ==> order[n - first].id >= 0 && again[n] == Renewal(order[n - first].id, now))
  }

  lemma DistinctIds(rows: map<Id, DeadRow>, order: seq<Position>, i: nat, j: nat)
    requires Increasing(order) && i < j < |order|
    requires forall p :: p in order ==> p.id >= 0 && p.id in rows && rows[p.id].at == p.at
    ensures order[i].id != order[j].id
  {
  }

  lemma EachIsRenewed(rows: map<Id, DeadRow>, order: seq<Position>, first: Id, now: Time, again: map<Id, Renewal>, d: Id)
    requires Follows(rows, order, first, now, again) && d in rows
    ensures exists n :: n in again && again[n].of == d
  {
    var k :| 0 <= k < |order| && order[k] == Position(rows[d].at, d);
    assert first + k in again;
  }

  lemma OrderRenews(rows: map<Id, DeadRow>, order: seq<Position>, first: Id, now: Time, again: map<Id, Renewal>)
    requires Follows(rows, order, first, now, again)
    ensures Renews(rows.Keys, again)
  {
    forall n | n in again ensures again[n].of in rows {
      assert order[n - first] in order;
    }
    forall d | d in rows.Keys ensures exists n :: n in again && again[n].of == d {
      EachIsRenewed(rows, order, first, now, again, d);
    }
    forall m, n | m in again && n in again && m < n ensures again[m].of != again[n].of {
      DistinctIds(rows, order, m - first, n - first);
    }
  }

  lemma OrderIsKept(rows: map<Id, DeadRow>, w: World, order: seq<Position>, first: Id, now: Time, again: map<Id, Renewal>)
    requires Follows(rows, order, first, now, again)
    requires forall d :: d in rows ==> d in w.dead && w.dead[d] == rows[d]
    ensures InOrder(w, again)
  {
  }

  lemma StillDeletable(w: World, w': World, ids: set<Id>, limit: nat)
    requires w.messages.Keys <= w.issued && Evolves(w, w')
    requires forall id :: id in ids ==> id in w.messages && Deletable(w, w.messages[id])
    ensures Enabled(w', Delete(ids), limit)
  {
  }

  lemma DeleteRemoves(w: World, ids: set<Id>, limit: nat)
    requires Enabled(w, Delete(ids), limit)
    ensures Apply(w, Delete(ids), limit) == w.(messages := w.messages - ids)
  {
  }

  lemma Smaller(w: World, ids: set<Id>, topics: set<Topic>, cutoff: int)
    requires ids != {} && AllExpired(w, ids, topics, cutoff)
    ensures |w.messages - ids| < |w.messages|
  {
  }

  function IdSet(ids: seq<Id>): set<Id> {
    set id | id in ids
  }

  /**
   The dead rows of ids left the dead letters. The rows of the messages stayed
   as they were, and again names the new ones: each has the topic and the payload
   of the dead letter it repeats, was created at `now`, and nothing tried it yet.
   */
  ghost predicate Taken(before: World, after: World, ids: set<Id>, again: map<Id, Renewal>, now: Time) {
    && ids <= before.dead.Keys && after.dead.Keys == before.dead.Keys - ids
    && (forall id :: id in after.dead ==> after.dead[id] == before.dead[id])
    && again.Keys !! before.issued && after.messages.Keys == before.messages.Keys + again.Keys
    && (forall id :: id in before.messages ==> after.messages[id] == before.messages[id])
    && (forall n :: n in again ==> again[n].of in ids && IsFresh(after.messages[n], before.dead[again[n].of], now))
    && after.watermarks == before.watermarks && after.handled == before.handled
    && after.issued == before.issued + again.Keys && after.resolved == before.resolved + ids
  }

  /** The message of the dead letter, enqueued again at `now`. */
  ghost predicate IsFresh(row: Row, copy: DeadRow, now: Time) {
    && row.topic == copy.topic && row.payload == copy.payload && row.at == now
    && row.attempts == 0 && row.retryAt.None? && row.completedAt.None?
  }

  /** Under the invariant the terminal-state UPDATE finds nothing to change, so that is all. */
  lemma TakeTakes(w: World, ids: set<Id>, again: map<Id, Renewal>, now: Time, limit: nat)
    requires Inv(w, limit) && Enabled(w, Take(ids, again, now), limit) && forall n :: n in again ==> again[n].at == now
    ensures Taken(w, Apply(w, Take(ids, again, now), limit), ids, again, now)
  {
    hide Inv, Apply, Enabled, IsFresh, Renews;
    TakeLeaves(w, ids, again, now, limit);
    assert forall n :: n in again ==> IsFresh(Requeued(w, again)[n], w.dead[again[n].of], now) by {
      RequeuedAreFresh(w, again, now);
    }
  }

  lemma RequeuedAreFresh(w: World, again: map<Id, Renewal>, now: Time)
    requires forall n :: n in again ==> again[n].of in w.dead && again[n].at == now
    ensures forall n :: n in again ==> IsFresh(Requeued(w, again)[n], w.dead[again[n].of], now)
  {
  }

  lemma TakeLeaves(w: World, ids: set<Id>, again: map<Id, Renewal>, now: Time, limit: nat)
    requires Inv(w, limit) && Enabled(w, Take(ids, again, now), limit)
    ensures w.messages.Keys <= w.issued && again.Keys !! w.issued && ids <= w.dead.Keys
    ensures forall n :: n in again ==> again[n].of in ids
    ensures Apply(w, Take(ids, again, now), limit)
         == w.(messages := w.messages + Requeued(w, again), dead := w.dead - ids,
               issued := w.issued + again.Keys, resolved := w.resolved + ids)
  {
    ParkedIsTerminal(w, ids, now, limit);
  }

  /** The new messages keep the order of the parked ones: by when they were committed, then by id. */
  ghost predicate InOrder(w: World, again: map<Id, Renewal>) {
    && (forall n :: n in again ==> again[n].of in w.dead)
    && forall m, n :: m in again && n in again
         && (w.dead[again[m].of].at < w.dead[again[n].of].at
             || (w.dead[again[m].of].at == w.dead[again[n].of].at && again[m].of < again[n].of))
         ==> again[m].at <= again[n].at && m < n
  }

  /** Rows read from the dead letters are as they are in the table, as far as they are still there. */
  ghost predicate Current(rows: map<Id, DeadRow>, w: World) {
    forall id :: id in rows ==> id in w.issued && Outbox.Done(w, id) && (id in w.dead ==> w.dead[id] == rows[id])
  }

  lemma CurrentStays(rows: map<Id, DeadRow>, w: World, w': World)
    requires Current(rows, w) && Evolves(w, w') && ParkedStays(w, w')
    ensures Current(rows, w')
  {
  }

  /** None of ids is parked in both. */
  ghost predicate NotThroughout(ids: set<Id>, w: World, w': World) {
    forall id :: id in ids ==> !(id in w.dead && id in w'.dead)
  }

  lemma DeadIsDone(w: World, limit: nat)
    requires Inv(w, limit)
    ensures forall id :: id in w.dead ==> id in w.issued && Outbox.Done(w, id)
  {
  }

  /** What was read stays current, and what was not parked throughout so far is not. */
  lemma ReadOn(rows: map<Id, DeadRow>, missing: set<Id>, start: World, w: World, w': World, limit: nat)
    requires Inv(start, limit) && Evolves(start, w) && Evolves(w, w') && ParkedStays(w, w')
    requires Current(rows, w) && NotThroughout(missing, start, w)
    ensures Evolves(start, w') && Current(rows, w') && NotThroughout(missing, start, w')
  {
    EvolvesTransitive(start, w, w');
    CurrentStays(rows, w, w');
    forall id | id in missing && id in start.dead ensures id !in w'.dead {
      DoneStays(start, w, id);
    }
  }

  lemma CountTells(wanted: set<Id>, keys: set<Id>)
    ensures |wanted * keys| == |wanted| <==> wanted <= keys
  {
    if wanted <= keys {
      assert wanted * keys == wanted;
    } else {
      var x :| x in wanted && x !in keys;
      Fewer(wanted * keys, wanted - {x});
    }
  }

  /** An id greater than every issued one. */
  function NextId(issued: set<Id>): (n: Id)
    ensures n !in issued && forall id :: id in issued ==> id < n
  {
    var all := Ascending(set id | id in issued :: Position(id, 0));
    if all == [] then
      assert forall id :: id in issued ==> Position(id, 0) in all;
      0
    else
      assert forall id :: id in issued ==> Position(id, 0) in all;
      var last := all[|all| - 1];
      assert last in all;
      assert forall id :: id in issued ==> AtMost(Position(id, 0), last);
      last.at + 1
  }

  /** What was acknowledged at the start, of one of the topics and older than the cutoff, is gone. */
  ghost predicate NoneExpired(start: World, w: World, topics: set<Topic>, cutoff: int) {
    forall id :: id in start.messages && id in w.messages ==>
      var row := start.messages[id]; row.completedAt.None? || row.topic !in topics || cutoff <= row.at
  }

  /** What had expired at the start is gone or, when the selected batch is not full, selected. */
  lemma ExpiredAreSelected(start: World, w: World, topics: set<Topic>, cutoff: int, batchSize: nat)
    requires Evolves(start, w) && start.messages.Keys <= start.issued
    requires |Page(ExpiredRows(w, topics, cutoff), 0, batchSize)| < batchSize
    ensures forall id :: id in start.messages && Expired(start.messages[id], topics, cutoff) && id in w.messages ==>
      Position(w.messages[id].at, id) in Page(ExpiredRows(w, topics, cutoff), 0, batchSize)
  {
  }

  // ---------- What a cleanup removes ----------

  lemma KnownIds(w: World, limit: nat)
    requires Inv(w, limit)
    ensures w.messages.Keys <= w.issued
  {
  }

  lemma RunNothing(w: World, limit: nat)
    ensures Run(w, [], limit) == w
  {
  }

  lemma AreDeletable(w: World, ids: set<Id>, topics: set<Topic>, cutoff: int)
    requires topics <= w.watermarks.Keys && forall t :: t in topics ==> cutoff <= w.watermarks[t].at
    requires forall id :: id in ids ==> id in w.messages && Expired(w.messages[id], topics, cutoff)
    ensures forall id :: id in ids ==> id in w.messages && Deletable(w, w.messages[id])
  {
  }

  /** An expired row stays as it is as long as it is there. */
  lemma StillExpired(w: World, w': World, ids: set<Id>, topics: set<Topic>, cutoff: int, limit: nat)
    requires Inv(w, limit) && Evolves(w, w')
    requires forall id :: id in ids ==> id in w.messages && Expired(w.messages[id], topics, cutoff)
    ensures forall id :: id in ids && id in w'.messages ==> Expired(w'.messages[id], topics, cutoff)
    ensures ids <= w'.issued
  {
  }

  lemma StillMarked(w: World, w': World, topics: set<Topic>, cutoff: int)
    requires Evolves(w, w') && topics <= w.watermarks.Keys && forall t :: t in topics ==> cutoff <= w.watermarks[t].at
    ensures topics <= w'.watermarks.Keys && forall t :: t in topics ==> cutoff <= w'.watermarks[t].at
  {
  }

  lemma StillGone(w: World, w': World, ids: set<Id>)
    requires Evolves(w, w') && ids <= w.issued && ids !! w.messages.Keys
    ensures ids <= w'.issued && ids !! w'.messages.Keys
  {
  }

  /** A batch that was not full, once removed, leaves nothing that had expired at w. */
  lemma NoneLeft(w: World, b: World, now: World, ids: set<Id>, topics: set<Topic>, cutoff: int, full: bool)
    requires w.messages.Keys <= w.issued && Evolves(w, b) && Evolves(b, now)
    requires !full ==> Selects(w, b, ids, topics, cutoff)
    ensures !full && now.messages.Keys !! ids ==> NoneExpired(w, now, topics, cutoff)
  {
  }

  lemma Apart(before: map<Id, Row>, gone: map<Id, Row>, there: set<Id>)
    requires before.Keys !! there && gone.Keys <= there
    ensures before.Keys !! gone.Keys && |before + gone| == |before| + |gone|
  {
    assert (before + gone).Keys == before.Keys + gone.Keys;
  }

  /** How many rows a DELETE of ids says it removed. */
  function Affected(w: World, ids: set<Id>): nat {
    |ids * w.messages.Keys|
  }

  /** The rows of w that ids name. */
  ghost function RowsOf(w: World, ids: set<Id>): map<Id, Row> {
    map id | id in ids && id in w.messages :: w.messages[id]
  }

  lemma RowsGo(b: World, w: World, ids: set<Id>)
    requires w == b.(messages := b.messages - ids) && ids <= b.issued
    ensures var gone := RowsOf(b, ids);
            && gone.Keys <= ids && gone.Keys <= w.issued && gone.Keys !! w.messages.Keys && |gone| == Affected(b, ids)
    ensures w.messages.Keys !! ids && w.messages == b.messages - ids
  {
    var gone := RowsOf(b, ids);
    assert gone.Keys == ids * b.messages.Keys;
    assert |gone| == |gone.Keys|;
  }

  /** One DELETE. */
  lemma CleanedOnce(b: World, w: World, seen: seq<World>, left: seq<World>, at: nat, ids: set<Id>, topics: set<Topic>, cutoff: int)
    requires |seen| == |left| == at + 1 && seen[at] == b && left[at] == w && w == b.(messages := b.messages - ids)
    requires forall id :: id in ids && id in b.messages ==> Expired(b.messages[id], topics, cutoff)
    ensures Cleaned(seen, left, at, at + 1, topics, cutoff, RowsOf(b, ids))
  {
    var gone := RowsOf(b, ids);
    assert OnlyExpired(b, w, topics, cutoff, gone);
    forall id | id in gone ensures exists k :: at <= k < at + 1 && id in seen[k].messages && id !in left[k].messages {
      assert id in seen[at].messages && id !in left[at].messages;
    }
  }

  lemma SameStatement(seen: seq<World>, left: seq<World>, at: nat)
    requires |seen| == |left| == at + 1 && seen[at] == left[at]
    ensures Idle(seen, left, at, at + 1)
  {
  }

  lemma CleanedNothing(seen: seq<World>, left: seq<World>, from: nat, to: nat, topics: set<Topic>, cutoff: int)
    requires Idle(seen, left, from, to)
    ensures Cleaned(seen, left, from, to, topics, cutoff, map[])
  {
  }

  /** A statement that removes nothing. */
  lemma CleanedIdle(seen: seq<World>, left: seq<World>, seen': seq<World>, left': seq<World>, from: nat,
                    topics: set<Topic>, cutoff: int, deleted: map<Id, Row>)
    requires Cleaned(seen, left, from, |seen|, topics, cutoff, deleted)
    requires |seen'| == |left'| == |seen| + 1 && seen <= seen' && left <= left' && seen'[|seen|] == left'[|seen|]
    ensures Cleaned(seen', left', from, |seen'|, topics, cutoff, deleted)
  {
    forall id | id in deleted ensures exists k :: from <= k < |seen'| && id in seen'[k].messages && id !in left'[k].messages {
      var k :| from <= k < |seen| && id in seen[k].messages && id !in left[k].messages;
      assert id in seen'[k].messages && id !in left'[k].messages;
    }
    forall k | from <= k < |seen'| ensures OnlyExpired(seen'[k], left'[k], topics, cutoff, deleted) {
      assert k < |seen| ==> OnlyExpired(seen[k], left[k], topics, cutoff, deleted);
    }
  }

  /** One more DELETE. */
  lemma CleanedOn(seen: seq<World>, left: seq<World>, seen': seq<World>, left': seq<World>, from: nat,
                  topics: set<Topic>, cutoff: int, deleted: map<Id, Row>, gone: map<Id, Row>)
    requires Cleaned(seen, left, from, |seen|, topics, cutoff, deleted)
    requires |seen'| == |left'| == |seen| + 1 && seen <= seen' && left <= left'
    requires Cleaned(seen', left', |seen|, |seen'|, topics, cutoff, gone) && deleted.Keys !! gone.Keys
    ensures Cleaned(seen', left', from, |seen'|, topics, cutoff, deleted + gone)
  {
    forall id | id in deleted + gone ensures exists k :: from <= k < |seen'| && id in seen'[k].messages && id !in left'[k].messages {
      if id in deleted {
        var k :| from <= k < |seen| && id in seen[k].messages && id !in left[k].messages;
        assert id in seen'[k].messages && id !in left'[k].messages;
      }
    }
    forall k | from <= k < |seen'| ensures OnlyExpired(seen'[k], left'[k], topics, cutoff, deleted + gone) {
      if k < |seen| {
        assert OnlyExpired(seen[k], left[k], topics, cutoff, deleted);
      } else {
        assert OnlyExpired(seen'[k], left'[k], topics, cutoff, gone);
      }
    }
  }

  // ---------- What takeDead's statements leave ----------

  /** The scripts say nothing of what the last statement left. */
  lemma ScriptedBut(origin: World, turns: seq<Turn>, limit: nat, seen: seq<World>, left: seq<World>, w: World)
    requires Scripted(origin, turns, limit, seen, left) && left != []
    ensures Scripted(origin, turns, limit, seen, left[|left| - 1 := w])
  {
    hide Run;
  }

  lemma NothingYet(seen: seq<World>, left: seq<World>, at: nat)
    requires |seen| == |left| && at <= |seen|
    ensures Idle(seen, left, at, at)
  {
  }

  lemma IdleFrom(seen: seq<World>, left: seq<World>, from: nat, to: nat)
    requires Idle(seen, left, from, to)
    ensures from <= to <= |seen| == |left|
  {
  }

  lemma IdleOn(seen: seq<World>, left: seq<World>, seen': seq<World>, left': seq<World>, from: nat)
    requires Idle(seen, left, from, |seen|)
    requires |seen'| == |left'| == |seen| + 1 && seen <= seen' && left <= left' && seen'[|seen|] == left'[|seen|]
    ensures Idle(seen', left', from, |seen'|)
  {
  }

  /** Only the last statement left other tables than before. */
  lemma IdleButLast(seen: seq<World>, left: seq<World>, left': seq<World>, from: nat)
    requires Idle(seen, left, from, |seen|) && from < |seen|
    requires |left'| == |left| && left' == left[|left| - 1 := left'[|left| - 1]]
    ensures Idle(seen, left', from, |seen| - 1)
  {
  }

  lemma IdleEnds(seen: seq<World>, left: seq<World>, from: nat, at: nat)
    requires Idle(seen, left, from, at) && from < at == |seen|
    ensures Idle(seen, left, from, at - 1) && left[at - 1] == seen[at - 1]
  {
  }

  lemma Onward(w: World, a: World, b: World)
    requires w.messages.Keys <= w.issued
    requires Evolves(w, a) && ParkedStays(w, a) && Evolves(a, b) && ParkedStays(a, b)
    ensures Evolves(w, b) && ParkedStays(w, b)
  {
    EvolvesTransitive(w, a, b);
    ParkedStaysTransitive(w, a, b);
  }

  lemma CurrentIsEqual(rows: map<Id, DeadRow>, w: World)
    requires Current(rows, w) && rows.Keys <= w.dead.Keys
    ensures forall id :: id in rows ==> id in w.dead && w.dead[id] == rows[id]
  {
  }

  /** The ids of todo are those rest still names. */
  ghost predicate StillToRead(wanted: set<Id>, todo: set<Id>, rest: seq<Position>) {
    && todo <= wanted && (forall id :: id in todo ==> Position(id, 0) in rest)
    && (forall p :: p in rest ==> p.at >= 0 && p.at in wanted)
  }

  lemma StillNext(wanted: set<Id>, todo: set<Id>, rest: seq<Position>, n: nat, chunk: set<Id>)
    requires StillToRead(wanted, todo, rest) && n <= |rest|
    requires forall id :: id in chunk <==> exists p :: p in rest[..n] && p.at == id
    ensures StillToRead(wanted, todo - chunk, rest[n..]) && chunk <= wanted
  {
    assert rest == rest[..n] + rest[n..];
    forall id | id in todo - chunk ensures Position(id, 0) in rest[n..] {
      assert Position(id, 0) in rest;
    }
  }

  lemma AllToRead(wanted: set<Id>, rest: seq<Position>)
    requires forall p :: p in rest <==> p.at >= 0 && p.at in wanted && p.id == 0
    ensures StillToRead(wanted, wanted, rest)
  {
  }

  lemma NoneParkedYet(seen: seq<World>, at: nat)
    requires at == |seen|
    ensures WereParked({}, seen, at, at)
  {
  }

  lemma ParkedOn(ids: set<Id>, more: set<Id>, seen: seq<World>, w: World, from: nat)
    requires WereParked(ids, seen, from, |seen|) && more <= w.dead.Keys
    ensures WereParked(ids + more, seen + [w], from, |seen| + 1)
  {
    var seen' := seen + [w];
    forall id | id in ids + more ensures exists k :: from <= k < |seen| + 1 && id in seen'[k].dead {
      if id in more {
        assert id in seen'[|seen|].dead;
      } else {
        var k :| from <= k < |seen| && id in seen[k].dead;
        assert id in seen'[k].dead;
      }
    }
  }

  lemma ParkedBefore(ids: set<Id>, seen: seq<World>, seen': seq<World>, from: nat)
    requires WereParked(ids, seen, from, |seen|) && seen <= seen'
    ensures WereParked(ids, seen', from, |seen|)
  {
    forall id | id in ids ensures exists k :: from <= k < |seen| && id in seen'[k].dead {
      var k :| from <= k < |seen| && id in seen[k].dead;
      assert id in seen'[k].dead;
    }
  }

  lemma NothingRead(w: World, wanted: set<Id>)
    ensures Current(map[], w)
    ensures forall rows: map<Id, DeadRow> :: rows == map[] ==> NotThroughout(wanted - wanted - rows.Keys, w, w)
  {
  }

  lemma ChunkRead(start: World, w: World, wanted: set<Id>, todo: set<Id>, rows: map<Id, DeadRow>, chunk: set<Id>, part: map<Id, DeadRow>)
    requires Current(rows, w) && NotThroughout(wanted - todo - rows.Keys, start, w)
    requires forall id :: id in w.dead ==> id in w.issued && Outbox.Done(w, id)
    requires part.Keys == chunk * w.dead.Keys && forall id :: id in part ==> part[id] == w.dead[id]
    ensures Current(rows + part, w) && NotThroughout(wanted - (todo - chunk) - (rows + part).Keys, start, w)
  {
  }

  // ---------- Dead letters ----------

  /** A parked row never changes while it is parked, and one that was taken never comes back. */
  ghost predicate ParkedStays(w: World, w': World) {
    forall id :: id in w.issued && Done(w, id) && id in w'.dead ==> id in w.dead && w'.dead[id] == w.dead[id]
  }

  lemma {:induction false} RunKeepsParked(w: World, steps: seq<Step>, limit: nat)
    requires Inv(w, limit)
    ensures ParkedStays(w, Run(w, steps, limit))
    decreases |steps|
  {
    if steps != [] {
      var front, step := steps[..|steps| - 1], steps[|steps| - 1];
      var before := Run(w, front, limit);
      RunKeepsParked(w, front, limit);
      var _ := RunContinues([w], w, front, limit);
      if Enabled(before, step, limit) {
        StepKeepsParked(before, step, limit);
        ParkedStaysTransitive(w, before, Apply(before, step, limit));
      }
    }
  }

  lemma StepKeepsParked(w: World, step: Step, limit: nat)
    requires Inv(w, limit) && Enabled(w, step, limit)
    ensures ParkedStays(w, Apply(w, step, limit))
  {
  }

  lemma ParkedStaysTransitive(w: World, w': World, w'': World)
    requires Evolves(w, w') && ParkedStays(w, w') && ParkedStays(w', w'')
    ensures ParkedStays(w, w'')
  {
  }
}
