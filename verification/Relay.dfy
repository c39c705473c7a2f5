/**
 The relay of one topic's worker: jobs/relay.go. A sweep delivers the topic in
 (created_at, id) order in three stages, while other sessions commit, clean up
 and requeue, statements fail, and the process may stop anywhere.
 */
module Relays {
  import opened Sets
  import opened Positions
  import opened Outbox
  import opened Sessions
  import Retry

  /** How an attempt or a sweep ended; anything but Finished stops the sweep there. */
  datatype Ended = Finished | RetryLater | Stopped | StatementFailed | DeliveryFailed

  /** The in-sweep cursor of stage 2. */
  datatype ScanPos = ScanPos(ts: int, offset: nat)

  /**
   What a sweep is measured against: the tables, the statement count and the
   clock when it started, how many deliveries and saves there had been, and
   when it took its cutoff.
   */
  datatype Origin = Origin(start: World, at: nat, now: Time, calls: nat, saves: nat, began: Time, cutoff: int)

  // ---------- What a sweep keeps true ----------

  /** Everything of the topic visible at `start` up to `p` is done. */
  ghost predicate ClearedTo(start: World, topic: Topic, now: World, p: Position) {
    forall j :: j in start.messages && start.messages[j].topic == topic && AtMost(Position(start.messages[j].at, j), p)
      ==> Done(now, j)
  }

  ghost predicate ClearedThrough(start: World, topic: Topic, now: World, ts: int) {
    forall j :: j in start.messages && start.messages[j].topic == topic && start.messages[j].at <= ts ==> Done(now, j)
  }

  ghost predicate AllCleared(start: World, topic: Topic, now: World) {
    forall j :: j in start.messages && start.messages[j].topic == topic ==> Done(now, j)
  }

  /**
   A delivery as it must be: the message is pending when the handler gets it,
   and every smaller message visible at the sweep's start is done.
   */
  ghost predicate Rightful(start: World, topic: Topic, call: Call) {
    && Pending(call.world, call.id)
    && call.world.messages[call.id].topic == topic
    && call.id in call.world.issued
    && AllSmallerDone(start, topic, call.world, call.world.messages[call.id].at, call.id)
  }

  /** The deliveries since c0: each rightful, none of a message twice. */
  ghost predicate Orderly(start: World, topic: Topic, calls: seq<Call>, c0: nat) {
    && c0 <= |calls|
    && (forall k :: c0 <= k < |calls| ==> Rightful(start, topic, calls[k]))
    && (forall j, k :: c0 <= j < k < |calls| ==> calls[j].id != calls[k].id)
  }

  /** What was delivered since c0 is done. */
  ghost predicate Settles(calls: seq<Call>, c0: nat, now: World) {
    forall k :: c0 <= k < |calls| ==> calls[k].id in now.issued && Done(now, calls[k].id)
  }

  /** A row not delivered since c0 is as it was at the start, and there still if it was pending, or is new and pending. */
  ghost predicate Untouched(start: World, topic: Topic, w: World, calls: seq<Call>, c0: nat) {
    && (forall id :: Pending(start, id) && start.messages[id].topic == topic && !Called(calls, c0, id)
          ==> id in w.messages && w.messages[id] == start.messages[id])
    && (forall id :: id in w.messages && w.messages[id].topic == topic && !Called(calls, c0, id)
          ==> if id in start.messages then w.messages[id] == start.messages[id] else Pending(w, id))
  }

  ghost predicate Called(calls: seq<Call>, c0: nat, id: Id) {
    exists k :: c0 <= k < |calls| && calls[k].id == id
  }

  lemma UntouchedYet(start: World, topic: Topic, w: World, calls: seq<Call>, limit: nat)
    requires Rely(start, w, topic, limit) && start.messages.Keys <= start.issued
    ensures Untouched(start, topic, w, calls, |calls|)
  {
  }

  lemma UntouchedStays(start: World, topic: Topic, w: World, w': World, calls: seq<Call>, c0: nat)
    requires Untouched(start, topic, w, calls, c0) && Kept(w, w', topic)
    requires Evolves(start, w) && Evolves(w, w') && start.messages.Keys <= start.issued
    ensures Untouched(start, topic, w', calls, c0)
  {
  }

  lemma UntouchedBut(start: World, topic: Topic, w: World, w': World, calls: seq<Call>, c0: nat, call: Call, limit: nat)
    requires Untouched(start, topic, w, calls, c0) && RelyBut(w, w', topic, limit, call.id) && c0 <= |calls|
    requires Evolves(start, w) && start.messages.Keys <= start.issued && w.messages.Keys <= w.issued
    ensures Untouched(start, topic, w', calls + [call], c0)
  {
    hide Called;
    CalledStays(calls, c0, call);
  }

  /**
   The saves since d0: none past the cutoff, none back in time, and each one
   strictly after every earlier one that reported success.
   */
  ghost predicate Advancing(saves: seq<Saving>, d0: nat, cutoff: int) {
    && d0 <= |saves|
    && (forall k :: d0 <= k < |saves| ==> saves[k].pos.at <= cutoff)
    && (forall j, k :: d0 <= j < k < |saves| ==>
          saves[j].pos.at <= saves[k].pos.at && (saves[j].confirmed ==> Before(saves[j].pos, saves[k].pos)))
  }

  /** The saves since d0 all reported success, and each is strictly past the one before. */
  ghost predicate Rising(saves: seq<Saving>, d0: nat) {
    && d0 <= |saves|
    && (forall k :: d0 <= k < |saves| ==> saves[k].confirmed)
    && (forall j, k :: d0 <= j < k < |saves| ==> Before(saves[j].pos, saves[k].pos))
  }

  /** A save that is not strictly past an earlier one of its sweep follows a lost or failed one at the same timestamp. */
  lemma FallsBehindOnlyAfterAFault(saves: seq<Saving>, d0: nat, cutoff: int, j: nat, k: nat)
    requires Advancing(saves, d0, cutoff) && d0 <= j < k < |saves| && !Before(saves[j].pos, saves[k].pos)
    ensures !saves[j].confirmed && saves[j].pos.at == saves[k].pos.at
  {
  }

  /** Every delivery since c0 and every save since d0 came at `began` or later. */
  ghost predicate Since(calls: seq<Call>, c0: nat, saves: seq<Saving>, d0: nat, began: Time) {
    && (forall k :: c0 <= k < |calls| ==> began <= calls[k].clock)
    && (forall k :: d0 <= k < |saves| ==> began <= saves[k].clock)
  }

  /** A pending row of the topic whose next try is after `now`. */
  ghost predicate Waiting(w: World, topic: Topic, id: Id, now: Time) {
    Pending(w, id) && w.messages[id].topic == topic && w.messages[id].retryAt.Some? && w.messages[id].retryAt.value > now
  }

  /** Every smaller message of the topic visible at the start is done. */
  ghost predicate AllSmallerDone(start: World, topic: Topic, w: World, at: int, id: Id) {
    forall j :: j in start.messages && start.messages[j].topic == topic && Before(Position(start.messages[j].at, j), Position(at, id))
      ==> Done(w, j)
  }

  /** The delivery failed: the row is pending with one more attempt on record than when the handler got it. */
  ghost predicate AttemptCounted(w: World, topic: Topic, call: Call) {
    && Pending(w, call.id) && w.messages[call.id].topic == topic && call.id in call.world.messages
    && w.messages[call.id].attempts == call.world.messages[call.id].attempts + 1
  }

  /** The delivery was cancelled: the row is as the handler got it. */
  ghost predicate Cancelled(w: World, topic: Topic, call: Call, outcome: Outcome) {
    && outcome.Failed? && outcome.cancellation && Pending(w, call.id) && w.messages[call.id].topic == topic
    && call.id in call.world.messages && w.messages[call.id] == call.world.messages[call.id]
  }

  /** The whole message is in the dead letters with its last failure: it does not decode, or that was the limit-th. */
  ghost predicate Parked(w: World, id: Id, row: Row, cause: Cause, limit: nat) {
    && id in w.dead && Repeats(w.dead[id], row) && w.dead[id].attempts == row.attempts + 1 && w.dead[id].cause == cause
    && (cause.Undecodable? || row.attempts + 1 == limit)
  }

  /** Its handler returned nil, and it is not in the dead letters. */
  ghost predicate Handled(w: World, id: Id) {
    id in w.handled && id !in w.dead
  }

  /** Why a sweep that started at o ended as it did. */
  ghost predicate Explained(ended: Ended, w: World, topic: Topic, o: Origin, turns: seq<Turn>, at: nat,
                        outcomes: seq<Outcome>, calls: seq<Call>) {
    match ended
    case Finished => true
    case RetryLater => exists id :: Waiting(w, topic, id, o.now) && AllSmallerDone(o.start, topic, w, w.messages[id].at, id)
    case Stopped =>
      && StopBegun(turns, at)
      && (o.calls < |calls| ==> Cancelled(w, topic, calls[|calls| - 1], OutcomeAt(outcomes, |calls| - 1))
                                || (calls[|calls| - 1].id in w.issued && Done(w, calls[|calls| - 1].id)))
    case StatementFailed => Faulted(turns, o.at, at)
    case DeliveryFailed =>
      && o.calls < |calls| && AttemptCounted(w, topic, calls[|calls| - 1])
      && OutcomeAt(outcomes, |calls| - 1).Failed? && OutcomeAt(outcomes, |calls| - 1).cause.HandlerFailed?
  }

  /** The topic's rows are as they were, the pending ones still there; new ones are pending. */
  ghost predicate Kept(w: World, w': World, topic: Topic) {
    && (forall id :: Pending(w, id) && w.messages[id].topic == topic ==> id in w'.messages && w'.messages[id] == w.messages[id])
    && (forall id :: id in w'.messages && w'.messages[id].topic == topic ==>
          if id in w.messages then w'.messages[id] == w.messages[id] else Pending(w', id))
  }

  lemma CauseStays(ended: Ended, w: World, w': World, topic: Topic, o: Origin, turns: seq<Turn>, at: nat, at': nat,
                   outcomes: seq<Outcome>, calls: seq<Call>)
    requires Explained(ended, w, topic, o, turns, at, outcomes, calls) && Kept(w, w', topic) && at <= at'
    requires Evolves(o.start, w) && Evolves(w, w') && o.start.messages.Keys <= o.start.issued
    ensures Explained(ended, w', topic, o, turns, at', outcomes, calls)
  {
    if ended.RetryLater? {
      var id :| Waiting(w, topic, id, o.now) && AllSmallerDone(o.start, topic, w, w.messages[id].at, id);
      assert Waiting(w', topic, id, o.now) && AllSmallerDone(o.start, topic, w', w'.messages[id].at, id);
    }
  }

  // ---------- What a sweep gets through ----------

  /** Acknowledged before the sweep, past the watermark stored then, and everything smaller visible then is done. */
  ghost predicate Acknowledged(start: World, topic: Topic, w: World, id: Id) {
    && id in start.messages && start.messages[id].topic == topic && start.messages[id].completedAt.Some?
    && IsPast(Watermark(start, topic), Position(start.messages[id].at, id))
    && AllSmallerDone(start, topic, w, start.messages[id].at, id)
  }

  ghost predicate IsPast(mark: Option<Position>, p: Position) {
    mark.Some? ==> Before(mark.value, p)
  }

  /**
   A message of the topic that a sweep got through: it delivered it, and it is
   done; or it was acknowledged before, past the watermark, with everything
   smaller done; or it was committed since the start, and is pending.
   */
  ghost predicate Reached(start: World, topic: Topic, w: World, calls: seq<Call>, c0: nat, id: Id) {
    || (id in w.issued && Done(w, id) && Called(calls, c0, id))
    || Acknowledged(start, topic, w, id)
    || (id !in start.issued && Pending(w, id) && w.messages[id].topic == topic)
  }

  lemma AcknowledgedStays(start: World, topic: Topic, w: World, w': World, id: Id)
    requires Evolves(start, w) && Evolves(w, w') && start.messages.Keys <= start.issued && Acknowledged(start, topic, w, id)
    ensures Acknowledged(start, topic, w', id)
  {
  }

  lemma ReachedStays(start: World, topic: Topic, w: World, w': World, calls: seq<Call>, c0: nat, id: Id)
    requires Evolves(start, w) && Evolves(w, w') && start.messages.Keys <= start.issued && Kept(w, w', topic)
    requires Reached(start, topic, w, calls, c0, id)
    ensures Reached(start, topic, w', calls, c0, id)
  {
    hide Acknowledged;
    if Acknowledged(start, topic, w, id) {
      AcknowledgedStays(start, topic, w, w', id);
    }
  }

  lemma CalledStays(calls: seq<Call>, c0: nat, call: Call)
    requires c0 <= |calls|
    ensures Called(calls + [call], c0, call.id) && forall id :: Called(calls, c0, id) ==> Called(calls + [call], c0, id)
  {
    var calls' := calls + [call];
    assert calls'[|calls|].id == call.id;
    forall id | Called(calls, c0, id) ensures Called(calls', c0, id) {
      var k :| c0 <= k < |calls| && calls[k].id == id;
      assert calls'[k].id == id;
    }
  }

  lemma ReachedBut(start: World, topic: Topic, w: World, w': World, calls: seq<Call>, c0: nat, call: Call, limit: nat, id: Id)
    requires Evolves(start, w) && start.messages.Keys <= start.issued && w.messages.Keys <= w.issued
    requires RelyBut(w, w', topic, limit, call.id) && c0 <= |calls| && Reached(start, topic, w, calls, c0, id)
    ensures Reached(start, topic, w', calls + [call], c0, id)
  {
    hide Acknowledged, Called;
    CalledStays(calls, c0, call);
    if Acknowledged(start, topic, w, id) {
      AcknowledgedStays(start, topic, w, w', id);
    }
  }

  /** A row of the table past the stored watermark is got through once everything visible at the start up to it is done. */
  lemma RowIsReached(start: World, topic: Topic, w: World, calls: seq<Call>, c0: nat, id: Id)
    requires Evolves(start, w) && start.messages.Keys <= start.issued && w.messages.Keys <= w.issued
    requires Untouched(start, topic, w, calls, c0) && id in w.messages && w.messages[id].topic == topic
    requires var p := Position(w.messages[id].at, id); IsPast(Watermark(start, topic), p) && ClearedTo(start, topic, w, p)
    ensures Reached(start, topic, w, calls, c0, id)
  {
    hide Called;
  }

  /** So is a row read as pending that is done now. */
  lemma DoneIsReached(start: World, topic: Topic, b: World, w: World, calls: seq<Call>, c0: nat, id: Id)
    requires Evolves(start, b) && Evolves(b, w) && start.messages.Keys <= start.issued && b.messages.Keys <= b.issued
    requires Untouched(start, topic, w, calls, c0) && Pending(b, id) && b.messages[id].topic == topic && Done(w, id)
    requires id !in start.issued ==> Reached(start, topic, w, calls, c0, id)
    ensures Reached(start, topic, w, calls, c0, id)
  {
    hide Called;
  }

  // ---------- What a sweep saves ----------

  /** A delivered row at or before the cutoff is at or before mark. */
  ghost predicate IsCovered(call: Call, mark: Option<Position>, cutoff: int) {
    call.id in call.world.messages && call.world.messages[call.id].at <= cutoff ==>
      mark.Some? && AtMost(Position(call.world.messages[call.id].at, call.id), mark.value)
  }

  ghost predicate Unsettled(w: World, topic: Topic, id: Id) {
    Pending(w, id) && w.messages[id].topic == topic
  }

  /** What was delivered since c0 is pending still, or covered by one of the two. */
  ghost predicate Covered(calls: seq<Call>, c0: nat, w: World, topic: Topic, mark: Option<Position>, cand: Option<Position>, cutoff: int) {
    forall k :: c0 <= k < |calls| ==>
      Unsettled(w, topic, calls[k].id) || IsCovered(calls[k], mark, cutoff) || IsCovered(calls[k], cand, cutoff)
  }

  /** The deliveries since n are of rows of ps, each pending still or covered by cand. */
  ghost predicate Added(calls: seq<Call>, n: nat, w: World, topic: Topic, ps: seq<Position>, cand: Option<Position>, cutoff: int) {
    n <= |calls| && forall k :: n <= k < |calls| ==>
      && calls[k].id in calls[k].world.messages && Position(calls[k].world.messages[calls[k].id].at, calls[k].id) in ps
      && (Unsettled(w, topic, calls[k].id) || IsCovered(calls[k], cand, cutoff))
  }

  lemma CoveredStays(calls: seq<Call>, c0: nat, w: World, w': World, topic: Topic, mark: Option<Position>,
                     cand: Option<Position>, cutoff: int)
    requires Covered(calls, c0, w, topic, mark, cand, cutoff) && Kept(w, w', topic)
    ensures Covered(calls, c0, w', topic, mark, cand, cutoff)
  {
  }

  /** A page's deliveries, after those before had all been covered by the stored watermark. */
  lemma CoveredOn(calls0: seq<Call>, calls: seq<Call>, c0: nat, w0: World, w: World, topic: Topic, ps: seq<Position>,
                  mark: Option<Position>, cand: Option<Position>, cutoff: int)
    requires c0 <= |calls0| && calls0 <= calls && Covered(calls0, c0, w0, topic, mark, None, cutoff) && Settles(calls0, c0, w0)
    requires Added(calls, |calls0|, w, topic, ps, cand, cutoff)
    ensures Covered(calls, c0, w, topic, mark, cand, cutoff)
  {
    forall k | c0 <= k < |calls| && !Unsettled(w, topic, calls[k].id)
      ensures IsCovered(calls[k], mark, cutoff) || IsCovered(calls[k], cand, cutoff)
    {
      if k < |calls0| {
        assert calls0[k] == calls[k] && Done(w0, calls0[k].id);
        assert IsCovered(calls[k], None, cutoff) ==> IsCovered(calls[k], mark, cutoff);
      }
    }
  }

  /** A page behind mark. */
  lemma CoveredBehind(calls0: seq<Call>, calls: seq<Call>, c0: nat, w0: World, w: World, topic: Topic, ps: seq<Position>,
                      mark: Position, cand: Option<Position>, c: int, cutoff: int)
    requires c0 <= |calls0| && calls0 <= calls && Covered(calls0, c0, w0, topic, Some(mark), None, cutoff) && Settles(calls0, c0, w0)
    requires Added(calls, |calls0|, w, topic, ps, cand, c) && forall p :: p in ps ==> AtMost(p, mark)
    ensures Covered(calls, c0, w, topic, Some(mark), None, cutoff)
  {
    forall k | c0 <= k < |calls| && !Unsettled(w, topic, calls[k].id) ensures IsCovered(calls[k], Some(mark), cutoff) {
      if k < |calls0| {
        assert calls0[k] == calls[k] && Done(w0, calls0[k].id);
        assert IsCovered(calls[k], None, cutoff) ==> IsCovered(calls[k], Some(mark), cutoff);
      }
    }
  }

  /** The deliveries since n are of the first i rows of ps, each covered by cand. */
  ghost predicate PageCovered(calls: seq<Call>, n: nat, ps: seq<Position>, i: nat, cand: Option<Position>, cutoff: int) {
    n <= |calls| && forall k :: n <= k < |calls| ==>
      && calls[k].id in calls[k].world.messages && IsCovered(calls[k], cand, cutoff)
      && exists j :: 0 <= j < i && j < |ps| && ps[j] == Position(calls[k].world.messages[calls[k].id].at, calls[k].id)
  }

  lemma NothingCovered(calls: seq<Call>, ps: seq<Position>, cand: Option<Position>, cutoff: int)
    ensures PageCovered(calls, |calls|, ps, 0, cand, cutoff)
  {
  }

  ghost predicate MayCall(calls: seq<Call>, calls': seq<Call>, p: Position, w: World, now: Time) {
    calls' == calls || (p.id >= 0 && calls' == calls + [Call(p.id, w, now)] && p.id in w.messages && w.messages[p.id].at == p.at)
  }

  /** Row i was delivered, if it had to be, and is settled. */
  lemma PageOn(calls: seq<Call>, calls': seq<Call>, n: nat, ps: seq<Position>, i: nat, cand: Option<Position>, cutoff: int,
               w: World, now: Time)
    requires i < |ps| && Increasing(ps) && PageCovered(calls, n, ps, i, cand, cutoff) && MayCall(calls, calls', ps[i], w, now)
    ensures PageCovered(calls', n, ps, i + 1, if ps[i].at <= cutoff then Some(ps[i]) else cand, cutoff)
  {
    forall k | n <= k < |calls'|
      ensures calls'[k].id in calls'[k].world.messages
      ensures exists j :: 0 <= j < i + 1 && ps[j] == Position(calls'[k].world.messages[calls'[k].id].at, calls'[k].id)
    {
      if k < |calls| {
        assert calls'[k] == calls[k];
      } else {
        assert ps[i] == Position(calls'[k].world.messages[calls'[k].id].at, calls'[k].id);
      }
    }
  }

  /** Row i was delivered and is pending still, or was not delivered. */
  lemma PageBreaks(calls: seq<Call>, calls': seq<Call>, n: nat, ps: seq<Position>, i: nat, cand: Option<Position>, cutoff: int,
                   w: World, now: Time, w': World, topic: Topic)
    requires i < |ps| && PageCovered(calls, n, ps, i, cand, cutoff) && MayCall(calls, calls', ps[i], w, now)
    requires calls' == calls || Unsettled(w', topic, ps[i].id)
    ensures Added(calls', n, w', topic, ps, cand, cutoff)
  {
    forall k | n <= k < |calls'|
      ensures calls'[k].id in calls'[k].world.messages && Position(calls'[k].world.messages[calls'[k].id].at, calls'[k].id) in ps
      ensures Unsettled(w', topic, calls'[k].id) || IsCovered(calls'[k], cand, cutoff)
    {
      if k < |calls| {
        assert calls'[k] == calls[k];
      } else {
        assert ps[i] in ps;
      }
    }
  }

  lemma PageIsAdded(calls: seq<Call>, n: nat, ps: seq<Position>, cand: Option<Position>, cutoff: int, w: World, topic: Topic)
    requires PageCovered(calls, n, ps, |ps|, cand, cutoff)
    ensures Added(calls, n, w, topic, ps, cand, cutoff)
  {
  }

  lemma FaultMoves(turns: seq<Turn>, from: nat, m: nat, to: nat)
    requires from <= m
    ensures Faulted(turns, m, to) ==> Faulted(turns, from, to)
  {
  }

  /** A watermark that covers all that the two did. */
  lemma CoveredByOne(calls: seq<Call>, c0: nat, w: World, topic: Topic, mark: Option<Position>, cand: Option<Position>,
                     stored: Option<Position>, cutoff: int)
    requires Covered(calls, c0, w, topic, mark, cand, cutoff)
    requires mark.Some? ==> stored.Some? && AtMost(mark.value, stored.value)
    requires cand.Some? ==> stored.Some? && AtMost(cand.value, stored.value)
    ensures Covered(calls, c0, w, topic, stored, None, cutoff)
  {
  }

  /** The in-memory watermark and candidate against the stored one and the saves since d0. */
  ghost predicate Tracks(stored: Option<Position>, saves: seq<Saving>, d0: nat,
                         w: Option<Position>, cand: Option<Position>, cutoff: int) {
    && Advancing(saves, d0, cutoff)
    && (stored.Some? ==> cand.Some? && stored.value.at <= cand.value.at)
    && (w.Some? ==> cand.Some? && w.value.at <= cand.value.at)
    && (cand.Some? ==> cand == w || cand.value.at <= cutoff || (w.Some? && AtMost(cand.value, w.value)))
    && (forall k :: d0 <= k < |saves| ==>
          cand.Some? && saves[k].pos.at <= cand.value.at
          && (saves[k].confirmed ==> w.Some? && AtMost(saves[k].pos, w.value)))
  }

  /** A page's rows from index i on are in the table as they were read, as far as they were pending. */
  ghost predicate Fresh(now: World, topic: Topic, ps: seq<Position>, rows: seq<Row>, i: nat) {
    && |rows| == |ps|
    && forall k :: 0 <= k < |ps| ==>
      && ps[k].id >= 0 && ps[k].id in now.issued
      && rows[k].at == ps[k].at && rows[k].topic == topic
      && (i <= k && rows[k].completedAt.None? ==> ps[k].id in now.messages && now.messages[ps[k].id] == rows[k])
      && (rows[k].completedAt.Some? ==> Done(now, ps[k].id))
  }

  ghost predicate Passed(now: World, ps: seq<Position>, i: nat) {
    forall k :: 0 <= k < i && k < |ps| ==> ps[k].id >= 0 && Done(now, ps[k].id)
  }

  /** What was pending from the start is on the page or after all of it. */
  ghost predicate OnPageOrAfter(start: World, topic: Topic, now: World, ps: seq<Position>) {
    forall j :: j in start.messages && start.messages[j].topic == topic && Pending(now, j) ==>
      var p := Position(start.messages[j].at, j);
      p in ps || forall q :: q in ps ==> Before(q, p)
  }

  /** What was pending from the start is on the page: it was not full. */
  ghost predicate OnPage(start: World, topic: Topic, now: World, ps: seq<Position>, ts: int) {
    forall j :: j in start.messages && start.messages[j].topic == topic && Pending(now, j) && start.messages[j].at <= ts ==>
      Position(start.messages[j].at, j) in ps
  }

  /** What one statement about row id may change for the topic. */
  ghost predicate RelyBut(w: World, w': World, topic: Topic, limit: nat, id: Id) {
    && Evolves(w, w') && Inv(w', limit)
    && Watermark(w', topic) == Watermark(w, topic)
    && (forall j :: j in w.messages && w.messages[j].topic == topic && j != id ==>
      if j in w'.messages then w'.messages[j] == w.messages[j] else w.messages[j].completedAt.Some?)
    && (forall j :: j in w'.messages && w'.messages[j].topic == topic && j !in w.messages && j != id ==> w'.messages[j].completedAt.None?)
  }

  lemma OwnStep(w: World, step: Step, topic: Topic, limit: nat)
    requires Inv(w, limit) && Enabled(w, step, limit) && ByWorker(step, topic) && !step.Save?
    ensures RelyBut(w, Apply(w, step, limit), topic, limit, step.id)
  {
    StepKeepsInv(w, step, limit);
    StepEvolves(w, step, limit);
  }

  lemma RelyButTransitive(w: World, w': World, w'': World, topic: Topic, limit: nat, id: Id)
    requires Inv(w, limit) && RelyBut(w, w', topic, limit, id) && RelyBut(w', w'', topic, limit, id)
    ensures RelyBut(w, w'', topic, limit, id)
  {
  }

  /** The watermark is at or past every row of the whole table that was there at the start, settled, and still is. */
  ghost predicate CoversFrontier(start: World, now: World, topic: Topic, cutoff: int) {
    forall id :: id in start.messages && id in now.messages && start.messages[id].at <= cutoff ==>
      topic in now.watermarks && AtMost(Position(start.messages[id].at, id), now.watermarks[topic])
  }

  lemma FrontierCovered(start: World, before: World, now: World, topic: Topic, cutoff: int, cand: Option<Position>)
    requires start.messages.Keys <= start.issued && Evolves(start, before) && Evolves(before, now)
    requires forall p :: p in Settled(before, cutoff) ==> cand.Some? && AtMost(p, cand.value)
    requires cand.Some? ==> topic in now.watermarks && AtMost(cand.value, now.watermarks[topic])
    ensures CoversFrontier(start, now, topic, cutoff)
  {
    forall id | id in start.messages && id in now.messages && start.messages[id].at <= cutoff
      ensures topic in now.watermarks && AtMost(Position(start.messages[id].at, id), now.watermarks[topic])
    {
      assert Position(before.messages[id].at, id) in Settled(before, cutoff);
    }
  }

  // ---------- The worker ----------

  class Relay {
    const s: Session
    const settle: nat
    const batch: nat
    const maxPages: nat
    const backoff: nat
    const maxBackoff: nat

    constructor (s: Session, settle: nat, batch: nat, maxPages: nat, backoff: nat, maxBackoff: nat)
      requires s.Valid() && 0 < batch && backoff <= Retry.MAX_INT64 && maxBackoff <= Retry.MAX_INT64
      ensures Valid() && this.s == s
    {
      this.s, this.settle, this.batch, this.maxPages := s, settle, batch, maxPages;
      this.backoff, this.maxBackoff := backoff, maxBackoff;
    }

    ghost predicate Valid()
      reads this, s
    {
      && s.Valid() && 0 < batch
      && backoff <= Retry.MAX_INT64 && maxBackoff <= Retry.MAX_INT64
    }

    /** A sweep ends early only for a reason. */
    ghost predicate Caused(ended: Ended, o: Origin)
      reads s
    {
      Explained(ended, s.world, s.topic, o, s.turns, s.at, s.outcomes, s.calls)
    }

    /** The retry time after the n-th failure, recorded between two clock readings. */
    predicate NextTry(retryAt: Option<Time>, n: nat, from: Time, to: Time)
      requires 1 <= n
    {
      var d := Retry.Wait(backoff, maxBackoff, n);
      if d == 0 then retryAt.None? else retryAt.Some? && from + d <= retryAt.value <= to + d
    }

    /**
     relay.attempt, with fail, park and complete: delivers a pending row unless
     its next try is not due or a stop has begun. Finished means the topic is
     done with it. A failure is counted once, and parks the row exactly when it
     is the MaxAttempts-th or the payload does not decode.
     */
    method Attempt(id: Id, row: Row) returns (ended: Ended)
      requires Valid() && id in s.world.messages && s.world.messages[id] == row
      requires row.completedAt.None? && row.topic == s.topic
      modifies s`world, s`trace, s`now, s`at, s`delivered, s`calls
      ensures Valid() && RelyBut(old(s.world), s.world, s.topic, s.limit, id)
      ensures ended.RetryLater? <==> row.retryAt.Some? && row.retryAt.value > old(s.now)
      ensures !ended.RetryLater? && old(s.Stopping()) ==> ended.Stopped?
      ensures s.calls == if ended.RetryLater? || old(s.Stopping()) then old(s.calls)
                         else old(s.calls) + [Call(id, old(s.world), old(s.now))]
      ensures s.calls == old(s.calls) ==> s.world == old(s.world) && s.at == old(s.at)
      ensures ended.Finished? ==> Disposed(id, row, OutcomeAt(s.outcomes, |old(s.calls)|))
      ensures ended.DeliveryFailed? ==>
        && FailedOnce(id, row, old(s.now))
        && OutcomeAt(s.outcomes, |old(s.calls)|).Failed? && OutcomeAt(s.outcomes, |old(s.calls)|).cause.HandlerFailed?
      ensures ended.Stopped? ==> s.Stopping()
      ensures ended.Stopped? && !old(s.Stopping()) ==>
        && OutcomeAt(s.outcomes, |old(s.calls)|).Failed? && OutcomeAt(s.outcomes, |old(s.calls)|).cancellation
        && id in s.world.messages && s.world.messages[id] == row
      ensures !ended.RetryLater? && !old(s.Stopping()) ==>
        (ended.Stopped? <==> StopBegun(s.turns, old(s.at) + 1)
                             && OutcomeAt(s.outcomes, |old(s.calls)|).Failed? && OutcomeAt(s.outcomes, |old(s.calls)|).cancellation)
      ensures ended.StatementFailed? ==> Faulted(s.turns, old(s.at), s.at)
      ensures old(s.now) <= s.now && old(s.at) <= s.at
    {
      hide Inv, Clock;
      if row.retryAt.Some? && row.retryAt.value > s.now {
        return RetryLater;
      }
      if s.Stopping() {
        return Stopped;
      }
      var outcome := Hand(id);
      if s.Stopping() && outcome.Failed? && outcome.cancellation {
        return Stopped;
      }
      ghost var w, called := old(s.world), s.world;
      ended := Record(id, row, outcome);
      RelyButTransitive(w, called, s.world, s.topic, s.limit, id);
    }

    /** The topic is done with the row as the handler's answer demands: acknowledged, or parked with its last failure. */
    ghost predicate Disposed(id: Id, row: Row, outcome: Outcome)
      reads s`world
    {
      Done(s.world, id) && if outcome.Took? then Handled(s.world, id) else Parked(s.world, id, row, outcome.cause, s.limit)
    }

    /** The row as it was, but acknowledged at `when`: one that is parked counts its last failure and waits for nothing. */
    ghost predicate Stamped(id: Id, row: Row, outcome: Outcome, when: Time)
      reads s`world
    {
      && id in s.world.messages
      && s.world.messages[id] == if outcome.Took? then row.(completedAt := Some(when))
                                 else row.(attempts := row.attempts + 1, retryAt := None, completedAt := Some(when))
    }

    /** A counted failure: the row as it was, with one more attempt and the policy's next try. */
    ghost predicate FailedOnce(id: Id, row: Row, from: Time)
      reads s`world, s`now
    {
      && Pending(s.world, id) && row.attempts + 1 < s.limit
      && s.world.messages[id] == row.(attempts := row.attempts + 1, retryAt := s.world.messages[id].retryAt)
      && NextTry(s.world.messages[id].retryAt, row.attempts + 1, from, s.now)
    }

    /** Calls the handler; the row is as it was when it returns. */
    method Hand(id: Id) returns (outcome: Outcome)
      requires Valid() && Pending(s.world, id) && s.world.messages[id].topic == s.topic
      modifies s`world, s`trace, s`now, s`at, s`delivered, s`calls
      ensures Valid() && RelyBut(old(s.world), s.world, s.topic, s.limit, id)
      ensures id in s.world.messages && s.world.messages[id] == old(s.world.messages[id])
      ensures outcome == OutcomeAt(s.outcomes, |old(s.calls)|) && (outcome.Took? ==> id in s.world.handled)
      ensures s.calls == old(s.calls) + [Call(id, old(s.world), old(s.now))]
      ensures old(s.now) <= s.now && s.at == old(s.at) + 1
    {
      hide Clock;
      ghost var w := s.world;
      ghost var before;
      outcome, before := s.Deliver(id);
      if outcome.Took? {
        OwnStep(before, Handle(s.topic, id), s.topic, s.limit);
        RelyButTransitive(w, before, s.world, s.topic, s.limit, id);
      }
    }

    /** Runs a statement about one row of the topic. */
    method Write(step: Step) returns (ok: bool)
      requires Valid() && ByWorker(step, s.topic) && !step.Save? && !step.Handle?
      requires Enabled(s.world, step, s.limit) && Pending(s.world, step.id)
      modifies s`world, s`trace, s`now, s`at
      ensures Valid() && RelyBut(old(s.world), s.world, s.topic, s.limit, step.id)
      ensures ok && step.Complete? ==>
        && Handled(s.world, step.id) && step.id in s.world.messages
        && s.world.messages[step.id] == old(s.world.messages[step.id]).(completedAt := Some(step.now))
      ensures ok && step.Park? ==>
        && step.id in s.world.messages && step.id in s.world.dead
        && s.world.messages[step.id] ==
           old(s.world.messages[step.id]).(attempts := step.n, retryAt := None, completedAt := Some(step.now))
        && Repeats(s.world.dead[step.id], old(s.world.messages[step.id]))
        && s.world.dead[step.id].attempts == step.n && s.world.dead[step.id].cause == step.cause
      ensures ok && step.Fail? ==>
        && Pending(s.world, step.id)
        && s.world.messages[step.id] == old(s.world.messages[step.id]).(attempts := step.n, retryAt := step.retryAt)
      ensures ok == FaultAt(s.turns, old(s.at)).NoFault? && old(s.now) <= s.now && s.at == old(s.at) + 1
    {
      hide Clock;
      ghost var w := s.world;
      ghost var before;
      ok, before := s.Execute(step);
      assert Pending(before, step.id);
      if s.world != before {
        OwnStep(before, step, s.topic, s.limit);
        RelyButTransitive(w, before, s.world, s.topic, s.limit, step.id);
      }
    }

    /** complete, park or fail: writes what the handler made of the row. */
    method Record(id: Id, row: Row, outcome: Outcome) returns (ended: Ended)
      requires Valid() && Pending(s.world, id) && s.world.messages[id] == row && row.topic == s.topic
      requires outcome.Took? ==> id in s.world.handled
      modifies s`world, s`trace, s`now, s`at
      ensures Valid() && RelyBut(old(s.world), s.world, s.topic, s.limit, id)
      ensures s.at == old(s.at) + 1 && old(s.now) <= s.now
      ensures ended.StatementFailed? <==> !FaultAt(s.turns, old(s.at)).NoFault?
      ensures ended.Finished? ==> Disposed(id, row, outcome) && Stamped(id, row, outcome, old(s.now))
      ensures ended.DeliveryFailed? ==> outcome.Failed? && outcome.cause == HandlerFailed && FailedOnce(id, row, old(s.now))
      ensures !ended.RetryLater? && !ended.Stopped?
      ensures outcome.Failed? && outcome.cause.HandlerFailed? && row.attempts + 1 < s.limit ==> !ended.Finished?
    {
      if outcome.Took? {
        var ok := Write(Complete(s.topic, id, s.now));
        return if ok then Finished else StatementFailed;
      }
      var n := row.attempts + 1;
      if outcome.cause.Undecodable? || n >= s.limit {
        var ok := Write(Park(s.topic, id, n, outcome.cause, s.now));
        return if ok then Finished else StatementFailed;
      }
      var d := Retry.Delay(backoff, maxBackoff, n);
      var ok := Write(Fail(s.topic, id, n, if d > 0 then Some(s.now + d) else None));
      return if ok then DeliveryFailed else StatementFailed;
    }

    // ---------- The sweep ----------

    /** What every stage keeps. */
    ghost predicate Sound(o: Origin)
      reads this, s
    {
      && Valid() && o.start.messages.Keys <= o.start.issued
      && Evolves(o.start, s.world)
      && Orderly(o.start, s.topic, s.calls, o.calls) && Since(s.calls, o.calls, s.saves, o.saves, o.began)
      && Untouched(o.start, s.topic, s.world, s.calls, o.calls)
      && o.at <= s.at && o.now <= o.began <= s.now && o.calls <= |s.calls|
    }

    ghost predicate Going(o: Origin)
      reads this, s
    {
      Sound(o) && Settles(s.calls, o.calls, s.world)
    }

    ghost predicate Marked(o: Origin, w: Option<Position>, cand: Option<Position>)
      reads this, s
    {
      && Tracks(Watermark(s.world, s.topic), s.saves, o.saves, w, cand, o.cutoff)
      && (!Faulted(s.turns, o.at, s.at) ==> Watermark(s.world, s.topic) == w && Rising(s.saves, o.saves))
    }

    ghost predicate Reaches(o: Origin, id: Id)
      reads s
    {
      Reached(o.start, s.topic, s.world, s.calls, o.calls, id)
    }

    ghost predicate AllReached(o: Origin, ids: set<Id>)
      reads s
    {
      forall id :: id in ids ==> Reaches(o, id)
    }

    /** Unless a statement failed, every settled row the sweep delivered is at or before the stored watermark, or cand. */
    ghost predicate Covering(o: Origin, cand: Option<Position>)
      reads s
    {
      !Faulted(s.turns, o.at, s.at) ==> Covered(s.calls, o.calls, s.world, s.topic, Watermark(s.world, s.topic), cand, o.cutoff)
    }

    ghost predicate Saved(o: Origin)
      reads s
    {
      Covering(o, None)
    }

    /** A page being delivered, its first i rows behind. */
    ghost predicate Paging(o: Origin, ps: seq<Position>, rows: seq<Row>, i: nat)
      reads this, s
    {
      && i <= |ps| && Increasing(ps)
      && Fresh(s.world, s.topic, ps, rows, i)
      && Passed(s.world, ps, i)
      && OnPageOrAfter(o.start, s.topic, s.world, ps)
    }

    /** A query of the sweep. */
    method Fetch(query: Query, offset: nat, ghost o: Origin) returns (ok: bool, ps: seq<Position>, rows: seq<Row>)
      requires Going(o)
      modifies s`world, s`trace, s`now, s`at
      ensures Going(o) && Evolves(old(s.world), s.world)
      ensures Watermark(s.world, s.topic) == old(Watermark(s.world, s.topic))
      ensures ps == Page(Matching(s.world, s.topic, query), offset, batch)
      ensures Fresh(s.world, s.topic, ps, rows, 0)
      ensures forall id :: old(Reaches(o, id)) ==> Reaches(o, id)
      ensures old(Saved(o)) ==> Saved(o)
      ensures ok == FaultAt(s.turns, old(s.at)).NoFault? && s.at == old(s.at) + 1
    {
      hide Covered, Reached, Clock, Orderly, Since, Faulted, Settles, Fresh, Rely, Evolves, Positions.Page, Matching, Untouched;
      ghost var w, at := s.world, s.at;
      ok, ps, rows := s.Select(query, offset, batch);
      Relied(o.start, w, s.world, s.topic, s.limit, s.calls, o.calls);
      StillCovered(o, None, w, at);
      ReadIsFresh(s.world, s.topic, s.limit, query, offset, batch, ps, rows);
    }

    /** Nothing was delivered or saved since statement `at`, when the tables were w. */
    lemma StillCovered(o: Origin, cand: Option<Position>, w: World, at: nat)
      requires o.at <= at <= s.at && Inv(w, s.limit) && Rely(w, s.world, s.topic, s.limit)
      ensures !Faulted(s.turns, o.at, at) ==>
        (Covered(s.calls, o.calls, w, s.topic, Watermark(w, s.topic), cand, o.cutoff) ==> Covering(o, cand))
      ensures Faulted(s.turns, o.at, at) ==> Covering(o, cand)
    {
      hide Covered, Faulted;
      FaultStays(s.turns, o.at, at, s.at);
      RelyKeeps(w, s.world, s.topic, s.limit);
      if Covered(s.calls, o.calls, w, s.topic, Watermark(w, s.topic), cand, o.cutoff) {
        CoveredStays(s.calls, o.calls, w, s.world, s.topic, Watermark(w, s.topic), cand, o.cutoff);
      }
    }

    /** One row of a page: attempted if it was read pending, else passed over. */
    method Visit(ps: seq<Position>, rows: seq<Row>, i: nat, ghost o: Origin) returns (ended: Ended)
      requires Going(o) && Paging(o, ps, rows, i) && i < |ps|
      modifies s`world, s`trace, s`now, s`at, s`delivered, s`calls
      ensures Sound(o) && Evolves(old(s.world), s.world) && old(s.at) <= s.at
      ensures Watermark(s.world, s.topic) == old(Watermark(s.world, s.topic))
      ensures ended.Finished? ==> Going(o) && Paging(o, ps, rows, i + 1)
      ensures forall id :: old(Reaches(o, id)) ==> Reaches(o, id)
      ensures MayCall(old(s.calls), s.calls, ps[i], old(s.world), old(s.now))
      ensures ended.StatementFailed? ==> Faulted(s.turns, o.at, s.at)
      ensures ended.Finished? || ended.StatementFailed? || s.calls == old(s.calls) || Unsettled(s.world, s.topic, ps[i].id)
      ensures Caused(ended, o)
    {
      hide Reached, Fresh, Passed, OnPageOrAfter, Evolves, RelyBut, Orderly, Settles, Clock, Since, Faulted, StopBegun, Untouched;
      ended := Finished;
      ghost var w, calls, at, now := s.world, s.calls, s.at, s.now;
      RowOfPage(w, s.topic, ps, rows, i);
      if rows[i].completedAt.None? {
        var id := ps[i].id;
        ended := Attempt(id, rows[i]);
        VisitedEvolves(o.start, w, s.world, s.topic, s.limit, id);
        IsRightful(o.start, s.topic, w, ps, i, now);
        if s.calls != calls {
          OneMoreCall(o.start, s.topic, w, s.world, calls, o.calls, Call(id, w, now), s.limit);
          forall id | Reached(o.start, s.topic, w, calls, o.calls, id)
            ensures Reached(o.start, s.topic, s.world, s.calls, o.calls, id)
          {
            ReachedBut(o.start, s.topic, w, s.world, calls, o.calls, Call(ps[i].id, w, now), s.limit, id);
          }
          UntouchedBut(o.start, s.topic, w, s.world, calls, o.calls, Call(id, w, now), s.limit);
          CalledLater(calls, o.calls, s.saves, o.saves, o.began, Call(id, w, now));
        }
        FaultMoves(s.turns, o.at, at, s.at);
        AttemptCause(ended, w, s.world, o, id, rows[i], calls, at);
      } else {
        EvolvesReflexive(w);
        RelyButReflexive(w, s.topic, s.limit, ps[i].id);
      }
      if ended.Finished? {
        PageGoesOn(o.start, s.topic, w, s.world, s.limit, ps, rows, i);
      }
    }

    /** An attempt that ended the sweep is its cause. */
    lemma AttemptCause(ended: Ended, w: World, w': World, o: Origin, id: Id, row: Row, calls: seq<Call>, at: nat)
      requires id in w.messages && w.messages[id] == row && row.completedAt.None? && row.topic == s.topic
      requires o.at <= at <= s.at && o.calls <= |calls| && w' == s.world
      requires ended.RetryLater? ==> row.retryAt.Some? && row.retryAt.value > o.now && s.world == w
      requires ended.RetryLater? ==> AllSmallerDone(o.start, s.topic, w, row.at, id)
      requires ended.DeliveryFailed? ==>
        && (exists from :: FailedOnce(id, row, from))
        && OutcomeAt(s.outcomes, |calls|).Failed? && OutcomeAt(s.outcomes, |calls|).cause.HandlerFailed?
        && |s.calls| == |calls| + 1 && s.calls[|calls|].id == id && s.calls[|calls|].world == w
      requires ended.Stopped? ==> s.Stopping()
      requires ended.Stopped? ==> if s.calls == calls then s.world == w && Settles(calls, o.calls, w) else
        && |s.calls| == |calls| + 1 && s.calls[|calls|].id == id && s.calls[|calls|].world == w
        && OutcomeAt(s.outcomes, |calls|).Failed? && OutcomeAt(s.outcomes, |calls|).cancellation
        && id in s.world.messages && s.world.messages[id] == row
      requires ended.StatementFailed? ==> Faulted(s.turns, at, s.at)
      ensures Caused(ended, o)
    {
      if ended.RetryLater? {
        assert Waiting(s.world, s.topic, id, o.now) && AllSmallerDone(o.start, s.topic, s.world, s.world.messages[id].at, id);
      }
    }

    /**
     Delivers a page row by row. The candidate advances over the settled rows,
     and the in-sweep cursor over every row.
     */
    method DeliverPage(ps: seq<Position>, rows: seq<Row>, cand0: Option<Position>, pos0: ScanPos, cutoff: int, ghost o: Origin)
      returns (ended: Ended, cand: Option<Position>, pos: ScanPos)
      requires Going(o) && Paging(o, ps, rows, 0)
      modifies s`world, s`trace, s`now, s`at, s`delivered, s`calls
      ensures Sound(o) && Evolves(old(s.world), s.world) && old(s.at) <= s.at
      ensures Watermark(s.world, s.topic) == old(Watermark(s.world, s.topic))
      ensures forall id :: old(Reaches(o, id)) ==> Reaches(o, id)
      ensures old(s.calls) <= s.calls && PageSaved(o, |old(s.calls)|, ps, cand, cutoff)
      ensures cand == cand0 || (cand.Some? && cand.value in ps && cand.value.at <= cutoff)
      ensures ended.Finished? ==>
        Going(o) && Paging(o, ps, rows, |ps|) && pos == Moved(pos0, ps) && LastSettled(ps, cutoff, cand0, cand)
      ensures Caused(ended, o)
    {
      hide Caused, PageCovered, Added, Reaches, Fresh, Passed, OnPageOrAfter, Orderly, Settles, Clock, Since, Faulted, Explained, Untouched;
      cand, pos, ended := cand0, pos0, Finished;
      assert ps[..0] == [];
      NothingCovered(s.calls, ps, cand0, cutoff);
      var i := 0;
      while i < |ps|
        invariant i <= |ps| && Going(o) && Paging(o, ps, rows, i) && ended.Finished?
        invariant Evolves(old(s.world), s.world) && old(s.at) <= s.at
        invariant Watermark(s.world, s.topic) == old(Watermark(s.world, s.topic))
        invariant forall id :: old(Reaches(o, id)) ==> Reaches(o, id)
        invariant old(s.calls) <= s.calls && PageCovered(s.calls, |old(s.calls)|, ps, i, cand, cutoff)
        invariant cand == cand0 || (cand.Some? && cand.value in ps && cand.value.at <= cutoff)
        invariant pos == Moved(pos0, ps[..i]) && LastSettled(ps[..i], cutoff, cand0, cand)
      {
        pos := if ps[i].at == pos.ts then ScanPos(pos.ts, pos.offset + 1) else ScanPos(ps[i].at, 1);
        assert ps[..i + 1][..i] == ps[..i];
        SettledNext(ps, i, cutoff, cand0, cand);
        ghost var w := s.world;
        ended, cand := DeliverRow(ps, rows, i, cand, cutoff, o, |old(s.calls)|);
        EvolvesTransitive(old(s.world), w, s.world);
        if !ended.Finished? {
          return;
        }
        i := i + 1;
      }
      assert ps[..|ps|] == ps;
      PageIsAdded(s.calls, |old(s.calls)|, ps, cand, cutoff, s.world, s.topic);
      FinishedFreely(o);
    }

    /** Row i of a page, and the candidate moved to it if it is settled. */
    method DeliverRow(ps: seq<Position>, rows: seq<Row>, i: nat, cand0: Option<Position>, cutoff: int, ghost o: Origin, ghost n: nat)
      returns (ended: Ended, cand: Option<Position>)
      requires Going(o) && Paging(o, ps, rows, i) && i < |ps| && PageCovered(s.calls, n, ps, i, cand0, cutoff)
      modifies s`world, s`trace, s`now, s`at, s`delivered, s`calls
      ensures Sound(o) && Evolves(old(s.world), s.world) && old(s.at) <= s.at
      ensures Watermark(s.world, s.topic) == old(Watermark(s.world, s.topic))
      ensures forall id :: old(Reaches(o, id)) ==> Reaches(o, id)
      ensures old(s.calls) <= s.calls && cand == if ended.Finished? && ps[i].at <= cutoff then Some(ps[i]) else cand0
      ensures if ended.Finished? then Going(o) && Paging(o, ps, rows, i + 1) && PageCovered(s.calls, n, ps, i + 1, cand, cutoff)
              else PageSaved(o, n, ps, cand, cutoff)
      ensures Caused(ended, o)
    {
      hide PageCovered, Added, Reaches, Paging, Sound, Evolves, Settles, Clock, Faulted, Explained;
      ghost var w, calls, now := s.world, s.calls, s.now;
      RowsOrdered(o, ps, rows, i);
      ended := Visit(ps, rows, i, o);
      PageOn(calls, s.calls, n, ps, i, cand0, cutoff, w, now);
      cand := cand0;
      if ended.Finished? {
        if ps[i].at <= cutoff {
          cand := Some(ps[i]);
        }
      } else if s.calls == calls || Unsettled(s.world, s.topic, ps[i].id) {
        PageBreaks(calls, s.calls, n, ps, i, cand0, cutoff, w, now, s.world, s.topic);
      }
    }

    lemma RowsOrdered(o: Origin, ps: seq<Position>, rows: seq<Row>, i: nat)
      requires Paging(o, ps, rows, i)
      ensures Increasing(ps)
    {
    }

    /** Unless a statement failed, what was delivered of the page is pending still or covered by cand. */
    ghost predicate PageSaved(o: Origin, n: nat, ps: seq<Position>, cand: Option<Position>, cutoff: int)
      reads s
    {
      !Faulted(s.turns, o.at, s.at) ==> Added(s.calls, n, s.world, s.topic, ps, cand, cutoff)
    }

    lemma FinishedFreely(o: Origin)
      ensures Caused(Finished, o)
    {
    }

    /** Stage 1a: the pending rows behind the watermark, a page at a time, until none is left. */
    method LookBehind(mark: Position, ghost o: Origin) returns (ended: Ended, pages: nat, ghost seen: map<Id, int>)
      requires Going(o) && Saved(o) && Watermark(s.world, s.topic) == Some(mark)
      modifies s`world, s`trace, s`now, s`at, s`delivered, s`calls
      ensures Sound(o) && old(s.at) <= s.at
      ensures Watermark(s.world, s.topic) == old(Watermark(s.world, s.topic))
      ensures pages <= maxPages && Met(s.world, seen, mark) && pages <= |seen|
      ensures ended.Finished? ==> Going(o)
      ensures ended.Finished? && pages < maxPages ==> ClearedTo(o.start, s.topic, s.world, mark)
      ensures Saved(o) && (ended.Finished? ==> AllReached(o, seen.Keys))
      ensures Caused(ended, o)
    {
      hide Reaches, Covering, Evolves, Orderly, Settles, Tracks, Inv, Clock, Since, Faulted, Explained, Met, DoneAll, Fresh,
           Passed, OnPageOrAfter, Untouched;
      pages, ended, seen := 0, Finished, map[];
      NoneMet(s.world, mark);
      FinishedFreely(o);
      while pages < maxPages
        invariant Going(o) && pages <= maxPages && ended.Finished? && old(s.at) <= s.at
        invariant Met(s.world, seen, mark) && DoneAll(s.world, seen) && pages <= |seen|
        invariant Watermark(s.world, s.topic) == old(Watermark(s.world, s.topic))
        invariant Saved(o) && AllReached(o, seen.Keys) && Caused(Finished, o)
      {
        var none;
        ended, none, seen := BehindPage(mark, o, seen);
        if !ended.Finished? {
          return;
        }
        if none {
          break;
        }
        pages := pages + 1;
      }
    }

    /** One page of stage 1a; none when nothing was left. */
    method BehindPage(mark: Position, ghost o: Origin, ghost seen0: map<Id, int>)
      returns (ended: Ended, none: bool, ghost seen: map<Id, int>)
      requires Going(o) && Met(s.world, seen0, mark) && DoneAll(s.world, seen0) && AllReached(o, seen0.Keys)
      requires Saved(o) && Watermark(s.world, s.topic) == Some(mark)
      modifies s`world, s`trace, s`now, s`at, s`delivered, s`calls
      ensures Sound(o) && old(s.at) <= s.at && Met(s.world, seen, mark) && |seen0| <= |seen|
      ensures Watermark(s.world, s.topic) == old(Watermark(s.world, s.topic))
      ensures ended.Finished? ==> Going(o) && DoneAll(s.world, seen)
      ensures ended.Finished? && none ==> ClearedTo(o.start, s.topic, s.world, mark)
      ensures ended.Finished? && !none ==> |seen0| < |seen|
      ensures Saved(o) && (ended.Finished? ==> AllReached(o, seen.Keys))
      ensures Caused(ended, o)
    {
      hide Reached, Covered, Added, Evolves, Orderly, Settles, Inv, Clock, Since, Faulted, Explained, Met, DoneAll, Fresh,
           Passed, OnPageOrAfter, ClearedTo,
           Untouched;
      ghost var at := s.at;
      none := false;
      var ok, ps, rows;
      ok, ps, rows, seen := BehindFetch(mark, o, seen0);
      if !ok {
        FaultIsCause(at, o);
        return StatementFailed, none, seen;
      }
      if ps == [] {
        FinishedFreely(o);
        return Finished, true, seen;
      }
      ghost var b, calls, at1 := s.world, s.calls, s.at;
      LateIsReached(o, ps[0].id);
      var cand, pos;
      ended, cand, pos := DeliverPage(ps, rows, None, ScanPos(0, 0), 0, o);
      MetStays(b, s.world, seen, mark);
      SavedBehind(o, calls, b, at1, ps, mark, cand, 0);
      if ended.Finished? {
        DoneAfter(b, s.world, seen0, seen, ps);
        FirstIsDone(s.world, ps);
        KnownIds(b, s.limit);
        DoneIsReached(o.start, s.topic, b, s.world, s.calls, o.calls, ps[0].id);
      }
    }

    /** The query of stage 1a. */
    method BehindFetch(mark: Position, ghost o: Origin, ghost seen0: map<Id, int>)
      returns (ok: bool, ps: seq<Position>, rows: seq<Row>, ghost seen: map<Id, int>)
      requires Going(o) && Met(s.world, seen0, mark) && DoneAll(s.world, seen0)
      modifies s`world, s`trace, s`now, s`at
      ensures Going(o) && Watermark(s.world, s.topic) == old(Watermark(s.world, s.topic))
      ensures forall id :: old(Reaches(o, id)) ==> Reaches(o, id)
      ensures old(Saved(o)) ==> Saved(o)
      ensures forall p :: p in ps ==> AtMost(p, mark) && p.id >= 0 && Unsettled(s.world, s.topic, p.id)
      ensures ok == FaultAt(s.turns, old(s.at)).NoFault? && s.at == old(s.at) + 1
      ensures Paging(o, ps, rows, 0) && Met(s.world, seen, mark) && DoneAll(s.world, seen0) && seen0.Keys <= s.world.issued
      ensures if ps == [] then ClearedTo(o.start, s.topic, s.world, mark) && seen == seen0
              else |seen| == |seen0| + 1 && ps[0].id >= 0 && seen == seen0[ps[0].id := ps[0].at]
    {
      hide Reached, Covered, Evolves, Orderly, Settles, Clock, Since, Faulted, Met, DoneAll, Fresh, OnPageOrAfter, ClearedTo,
           Positions.Page, Untouched;
      ghost var w := s.world;
      seen := seen0;
      ok, ps, rows := Fetch(Lookbehind(mark), 0, o);
      MetStays(w, s.world, seen0, mark);
      KnownMet(s.world, seen0, mark);
      LookbehindCovers(o.start, s.topic, s.world, mark, batch);
      if ps == [] {
        NothingBehind(o.start, s.topic, s.world, mark, batch);
      } else {
        seen := OneMoreBehind(s.world, s.topic, seen0, mark, batch, ps);
      }
    }

    /** A message committed since the start counts as got through while it is pending. */
    lemma LateIsReached(o: Origin, id: Id)
      requires Unsettled(s.world, s.topic, id)
      ensures id !in o.start.issued ==> Reaches(o, id)
    {
    }

    lemma FirstIsDone(w: World, ps: seq<Position>)
      requires ps != [] && ps[0].id >= 0 && Passed(w, ps, |ps|)
      ensures Done(w, ps[0].id)
    {
    }

    /** A page of rows behind the stored watermark. */
    lemma SavedBehind(o: Origin, calls0: seq<Call>, w0: World, at0: nat, ps: seq<Position>, mark: Position, cand: Option<Position>, c: int)
      requires Watermark(s.world, s.topic) == Some(mark) && o.calls <= |calls0| && calls0 <= s.calls && o.at <= at0 <= s.at
      requires !Faulted(s.turns, o.at, at0) ==> Covered(calls0, o.calls, w0, s.topic, Some(mark), None, o.cutoff)
      requires Settles(calls0, o.calls, w0) && PageSaved(o, |calls0|, ps, cand, c) && forall p :: p in ps ==> AtMost(p, mark)
      ensures Saved(o)
    {
      hide Faulted, Covered, Added, Settles;
      FaultStays(s.turns, o.at, at0, s.at);
      if !Faulted(s.turns, o.at, s.at) {
        CoveredBehind(calls0, s.calls, o.calls, w0, s.world, s.topic, ps, mark, cand, c, o.cutoff);
      }
    }

    /** A page that moved the candidate to cand. */
    lemma CoveringOn(o: Origin, calls0: seq<Call>, w0: World, at0: nat, ps: seq<Position>, cand: Option<Position>)
      requires o.calls <= |calls0| && calls0 <= s.calls && o.at <= at0 <= s.at
      requires !Faulted(s.turns, o.at, at0) ==>
        Covered(calls0, o.calls, w0, s.topic, Watermark(s.world, s.topic), None, o.cutoff)
      requires Settles(calls0, o.calls, w0) && PageSaved(o, |calls0|, ps, cand, o.cutoff)
      ensures Covering(o, cand)
    {
      hide Faulted, Covered, Added, Settles;
      FaultStays(s.turns, o.at, at0, s.at);
      if !Faulted(s.turns, o.at, s.at) {
        CoveredOn(calls0, s.calls, o.calls, w0, s.world, s.topic, ps, Watermark(s.world, s.topic), cand, o.cutoff);
      }
    }

    lemma SavedCovers(o: Origin, cand: Option<Position>)
      requires Saved(o)
      ensures Covering(o, cand)
    {
      hide Faulted, IsCovered;
      forall call | IsCovered(call, None, o.cutoff) ensures IsCovered(call, cand, o.cutoff) {
        NoneCovers(call, cand, o.cutoff);
      }
    }

    lemma NoneCovers(call: Call, cand: Option<Position>, cutoff: int)
      requires IsCovered(call, None, cutoff)
      ensures IsCovered(call, cand, cutoff)
    {
    }

    lemma FaultIsCause(at: nat, o: Origin)
      requires o.at <= at && s.at == at + 1 && !FaultAt(s.turns, at).NoFault?
      ensures Caused(StatementFailed, o)
    {
    }

    /**
     persist: saves the candidate when it moved past the in-memory watermark,
     which follows only when the save reports success.
     */
    method Persist(w: Option<Position>, cand: Option<Position>, ghost o: Origin) returns (w': Option<Position>)
      requires Sound(o) && Marked(o, w, cand)
      modifies s`world, s`trace, s`now, s`at, s`saves
      ensures Sound(o) && Marked(o, w', cand)
      ensures old(Going(o)) ==> Going(o)
      ensures forall ended :: old(Caused(ended, o)) ==> Caused(ended, o)
      ensures forall id :: old(Reaches(o, id)) ==> Reaches(o, id)
      ensures old(Covering(o, cand)) ==> Saved(o)
      ensures Evolves(old(s.world), s.world) && old(s.at) <= s.at
      ensures cand.None? || (w.Some? && AtMost(cand.value, w.value)) ==> w' == w && s.saves == old(s.saves)
      ensures cand.Some? && (w.Some? ==> !AtMost(cand.value, w.value)) ==>
        && s.saves == old(s.saves) + [Saving(cand.value, old(s.now), w' == cand)] && (w' == cand || w' == w)
        && (w' == cand <==> FaultAt(s.turns, old(s.at)).NoFault?)
      ensures !Faulted(s.turns, o.at, s.at) && cand.Some? ==> w'.Some? && AtMost(cand.value, w'.value)
    {
      hide Reached, Covered, Kept, Evolves, Clock, Orderly, Settles, Since, Explained, Tracks, Inv, Untouched;
      Unchanged(s.world);
      ghost var b := s.world;
      if cand.None? || (w.Some? && AtMost(cand.value, w.value)) {
        SavedAlready(o, w, cand);
        return w;
      }
      CandidateLeads(Watermark(s.world, s.topic), s.saves, o.saves, w, cand, o.cutoff);
      ghost var stored, saves, at := Watermark(s.world, s.topic), s.saves, s.at;
      ghost var saving;
      var ok;
      ok, saving := SaveMark(cand.value, o);
      SaveTracks(stored, Watermark(s.world, s.topic), saves, o.saves, w, cand, o.cutoff, saving);
      SavedNow(o, b, at, stored, w, cand);
      return if ok then cand else w;
    }

    lemma SavedAlready(o: Origin, w: Option<Position>, cand: Option<Position>)
      requires cand.None? || (w.Some? && AtMost(cand.value, w.value))
      requires !Faulted(s.turns, o.at, s.at) ==> Watermark(s.world, s.topic) == w
      ensures Covering(o, cand) ==> Saved(o)
    {
      hide Faulted, Covered;
      var stored := Watermark(s.world, s.topic);
      if !Faulted(s.turns, o.at, s.at) && Covered(s.calls, o.calls, s.world, s.topic, stored, cand, o.cutoff) {
        CoveredByOne(s.calls, o.calls, s.world, s.topic, stored, cand, stored, o.cutoff);
      }
    }

    /** The save behind the tables b, which had `stored`, was carried out, or the statement failed. */
    lemma SavedNow(o: Origin, b: World, at: nat, stored: Option<Position>, w: Option<Position>, cand: Option<Position>)
      requires o.at <= at && s.at == at + 1 && Kept(b, s.world, s.topic) && cand.Some? && (w.Some? ==> !AtMost(cand.value, w.value))
      requires !Faulted(s.turns, o.at, at) ==> stored == w
      requires Watermark(s.world, s.topic) == cand || !FaultAt(s.turns, at).NoFault?
      ensures !Faulted(s.turns, o.at, at) && Covered(s.calls, o.calls, b, s.topic, stored, cand, o.cutoff) ==> Saved(o)
      ensures Faulted(s.turns, o.at, at) ==> Saved(o)
    {
      hide Covered, Kept;
      FaultStays(s.turns, o.at, at, s.at);
      if Covered(s.calls, o.calls, b, s.topic, stored, cand, o.cutoff) && stored == w {
        CoveredStays(s.calls, o.calls, b, s.world, s.topic, stored, cand, o.cutoff);
        CoveredByOne(s.calls, o.calls, s.world, s.topic, stored, cand, cand, o.cutoff);
      }
    }

    lemma Unchanged(w: World)
      requires Inv(w, s.limit)
      ensures Evolves(w, w)
    {
      EvolvesReflexive(w);
    }

    /** stateStore.save. */
    method SaveMark(mark: Position, ghost o: Origin) returns (ok: bool, ghost saving: Saving)
      requires Sound(o) && (s.topic in s.world.watermarks ==> s.world.watermarks[s.topic].at <= mark.at)
      modifies s`world, s`trace, s`now, s`at, s`saves
      ensures Sound(o) && (old(Going(o)) ==> Going(o))
      ensures forall ended :: old(Caused(ended, o)) ==> Caused(ended, o)
      ensures Evolves(old(s.world), s.world) && s.at == old(s.at) + 1
      ensures saving == Saving(mark, old(s.now), ok) && s.saves == old(s.saves) + [saving]
      ensures Watermark(s.world, s.topic) == Some(mark) || (!ok && Watermark(s.world, s.topic) == old(Watermark(s.world, s.topic)))
      ensures forall id :: old(Reaches(o, id)) ==> Reaches(o, id)
      ensures Kept(old(s.world), s.world, s.topic)
      ensures ok == FaultAt(s.turns, old(s.at)).NoFault?
    {
      hide Reached, Evolves, Clock, Explained, Orderly, Faulted, Untouched;
      ghost var before;
      ghost var w, at := s.world, s.at;
      var step := Save(s.topic, mark);
      saving := Saving(mark, s.now, true);
      ok, before := s.Execute(step);
      SaveEvolves(w, before, s.world, step, s.limit);
      EvolvesTransitive(o.start, w, s.world);
      saving := saving.(confirmed := ok);
      s.saves := s.saves + [saving];
      SaveKeeps(w, before, s.world, step, s.topic, s.limit);
      UntouchedStays(o.start, s.topic, w, s.world, s.calls, o.calls);
      forall id | Reached(o.start, s.topic, w, s.calls, o.calls, id) ensures Reached(o.start, s.topic, s.world, s.calls, o.calls, id) {
        ReachedStays(o.start, s.topic, w, s.world, s.calls, o.calls, id);
      }
      forall ended | old(Caused(ended, o)) ensures Caused(ended, o) {
        CauseStays(ended, w, s.world, s.topic, o, s.turns, at, s.at, s.outcomes, s.calls);
      }
    }

    /** Stage 1b: the watermark's own timestamp, by id keyset. */
    method BoundaryGroup(mark: Position, pages0: nat, cutoff: int, ghost o: Origin, ghost seen0: map<Id, int>)
      returns (ended: Ended, pages: nat, w: Option<Position>, cand: Option<Position>, ghost seen: map<Id, int>)
      requires Going(o) && Marked(o, Some(mark), Some(mark)) && o.cutoff == cutoff
      requires pages0 <= maxPages && (pages0 < maxPages ==> ClearedTo(o.start, s.topic, s.world, mark))
      requires Met(s.world, seen0, mark) && pages0 <= |seen0| && AllReached(o, seen0.Keys)
      requires Saved(o) && Watermark(o.start, s.topic) == Some(mark)
      modifies s`world, s`trace, s`now, s`at, s`delivered, s`calls, s`saves
      ensures Sound(o)
      ensures Marked(o, w, cand) && w.Some? && cand.Some? && w.value.at == cand.value.at == mark.at
      ensures pages <= maxPages && MetBy(s.world, seen, mark.at) && pages <= |seen| + 1
      ensures ended.Finished? ==> Going(o)
      ensures ended.Finished? && pages < maxPages ==> ClearedThrough(o.start, s.topic, s.world, mark.at)
      ensures Saved(o) && (ended.Finished? ==> AllReached(o, seen.Keys))
      ensures Caused(ended, o)
    {
      hide Reaches, Covering, Evolves, Orderly, Settles, Tracks, Inv, Clock, Since, Explained, Met, MetBy, Faulted, Untouched;
      pages, w, cand, ended, seen := pages0, Some(mark), Some(mark), Finished, seen0;
      var lastID := mark.id;
      FinishedFreely(o);
      while pages < maxPages
        invariant Going(o) && pages <= maxPages && ended.Finished? && Caused(Finished, o)
        invariant Marked(o, w, cand) && w.Some? && cand.Some? && w.value.at == cand.value.at == mark.at
        invariant pages < maxPages ==> ClearedTo(o.start, s.topic, s.world, Position(mark.at, lastID))
        invariant Saved(o) && AllReached(o, seen.Keys) && PastStart(o, mark.at, lastID)
        invariant Met(s.world, seen, Position(mark.at, lastID)) && pages <= |seen|
      {
        var short := false;
        if s.Stopping() {
          ended := Stopped;
          StopIsCause(o);
          SavedCovers(o, cand);
        } else {
          pages := pages + 1;
          ghost var cand0, at := cand, s.at;
          StoredIsBehind(Watermark(s.world, s.topic), s.saves, o.saves, w, cand, o.cutoff);
          ended, lastID, cand, short, seen := BoundaryPage(mark.at, lastID, cand, cutoff, o, seen);
          CandidateTracks(Watermark(s.world, s.topic), s.saves, o.saves, w, cand0, cand, cutoff);
          FaultStays(s.turns, o.at, at, s.at);
        }
        ghost var w1 := s.world;
        w := Persist(w, cand, o);
        ClearedStays(o.start, s.topic, w1, s.world);
        MetStays(w1, s.world, seen, Position(mark.at, lastID));
        if !ended.Finished? {
          MetIsBy(s.world, seen, mark.at, lastID);
          return;
        }
        if short {
          break;
        }
      }
      MetIsBy(s.world, seen, mark.at, lastID);
    }

    lemma StopIsCause(o: Origin)
      requires s.Stopping() && Settles(s.calls, o.calls, s.world)
      ensures Caused(Stopped, o)
    {
    }

    /** One page of stage 1b; short when it was not full. */
    method BoundaryPage(ts: int, lastID0: int, cand0: Option<Position>, cutoff: int, ghost o: Origin, ghost seen0: map<Id, int>)
      returns (ended: Ended, lastID: int, cand: Option<Position>, short: bool, ghost seen: map<Id, int>)
      requires Going(o) && o.cutoff == cutoff
      requires Saved(o) && AllReached(o, seen0.Keys) && PastStart(o, ts, lastID0) && StoredBy(ts)
      requires ClearedTo(o.start, s.topic, s.world, Position(ts, lastID0)) && Met(s.world, seen0, Position(ts, lastID0))
      modifies s`world, s`trace, s`now, s`at, s`delivered, s`calls
      ensures Sound(o) && Evolves(old(s.world), s.world) && old(s.at) <= s.at
      ensures Watermark(s.world, s.topic) == old(Watermark(s.world, s.topic))
      ensures cand == cand0 || (cand.Some? && cand.value.at == ts <= cutoff)
      ensures ended.Finished? ==> Going(o) && ClearedTo(o.start, s.topic, s.world, Position(ts, lastID))
      ensures ended.Finished? && short ==> ClearedThrough(o.start, s.topic, s.world, ts)
      ensures Covering(o, cand) && (ended.Finished? ==> AllReached(o, seen.Keys) && PastStart(o, ts, lastID))
      ensures Caused(ended, o)
      ensures Met(s.world, seen, Position(ts, lastID)) && |seen0| <= |seen| && (ended.Finished? && !short ==> |seen0| < |seen|)
    {
      hide Passed, OnPageOrAfter, OnPage, Reaches, Covering, Evolves, Orderly, Settles, Tracks, ClearedTo, ClearedThrough, AllCleared,
           Reachable, Clock, Since, Explained, Met, DoneAll, Faulted, Untouched;
      lastID, cand, short, seen := lastID0, cand0, false, seen0;
      ghost var a, at := s.world, s.at;
      var ok, ps, rows := BoundaryFetch(ts, lastID, o);
      ghost var b := s.world;
      MetStays(a, b, seen, Position(ts, lastID));
      SavedCovers(o, cand);
      if !ok {
        FaultIsCause(at, o);
        return StatementFailed, lastID, cand, short, seen;
      }
      ended, lastID, cand, short, seen := BoundaryRows(ps, rows, ts, lastID0, cand0, cutoff, o, seen0);
      EvolvesTransitive(a, b, s.world);
    }

    /** Delivers a page of the boundary group. */
    method BoundaryRows(ps: seq<Position>, rows: seq<Row>, ts: int, lastID0: int, cand0: Option<Position>, cutoff: int, ghost o: Origin,
                        ghost seen0: map<Id, int>)
      returns (ended: Ended, lastID: int, cand: Option<Position>, short: bool, ghost seen: map<Id, int>)
      requires Going(o) && o.cutoff == cutoff && Paging(o, ps, rows, 0) && |ps| <= batch
      requires Saved(o) && AllReached(o, seen0.Keys) && PastStart(o, ts, lastID0) && StoredBy(ts)
      requires ClearedTo(o.start, s.topic, s.world, Position(ts, lastID0)) && Met(s.world, seen0, Position(ts, lastID0))
      requires forall p :: p in ps ==> p.at == ts && p.id > lastID0 && p in Outbox.Scan(s.world, s.topic)
      requires |ps| < batch ==> OnPage(o.start, s.topic, s.world, ps, ts)
      modifies s`world, s`trace, s`now, s`at, s`delivered, s`calls
      ensures Sound(o) && Evolves(old(s.world), s.world) && old(s.at) <= s.at
      ensures Watermark(s.world, s.topic) == old(Watermark(s.world, s.topic))
      ensures cand == cand0 || (cand.Some? && cand.value.at == ts <= cutoff)
      ensures ended.Finished? ==> Going(o) && ClearedTo(o.start, s.topic, s.world, Position(ts, lastID))
      ensures ended.Finished? && short ==> ClearedThrough(o.start, s.topic, s.world, ts)
      ensures Covering(o, cand) && (ended.Finished? ==> AllReached(o, seen.Keys) && PastStart(o, ts, lastID))
      ensures Caused(ended, o)
      ensures Met(s.world, seen, Position(ts, lastID)) && |seen0| <= |seen| && (ended.Finished? && !short ==> |seen0| < |seen|)
    {
      hide Moved, DoneAll, Passed, OnPageOrAfter, LastSettled, OnPage, Reaches, Covered, Added, Evolves, Orderly, Settles,
           Tracks, ClearedTo,
           ClearedThrough, AllCleared, Reachable, Clock, Since, Explained, Met, Faulted, Untouched;
      lastID, short, seen := lastID0, |ps| < batch, seen0;
      ghost var b, calls, at := s.world, s.calls, s.at;
      var pos;
      ended, cand, pos := DeliverPage(ps, rows, cand0, ScanPos(0, 0), cutoff, o);
      CoveringOn(o, calls, b, at, ps, cand);
      MetStays(b, s.world, seen, Position(ts, lastID));
      if ended.Finished? {
        BoundaryPassed(o.start, s.topic, b, s.world, ts, lastID0, ps);
        if ps != [] {
          lastID := ps[|ps| - 1].id;
          seen := OneMoreTie(b, s.world, s.topic, seen, ts, lastID0, ps);
          TieIsReached(o, b, ts, lastID0, ps);
        }
      }
    }

    /** The rows of the boundary group after lastID are past the watermark stored at the start. */
    ghost predicate PastStart(o: Origin, ts: int, lastID: int) {
      var mark := Watermark(o.start, s.topic);
      mark.Some? && AtMost(mark.value, Position(ts, lastID))
    }

    /** The stored watermark is not later than ts: no row at ts disappears. */
    ghost predicate StoredBy(ts: int)
      reads s`world
    {
      s.topic in s.world.watermarks ==> s.world.watermarks[s.topic].at <= ts
    }

    lemma TieIsReached(o: Origin, b: World, ts: int, lastID: int, ps: seq<Position>)
      requires Sound(o) && Evolves(o.start, b) && Evolves(b, s.world) && b.messages.Keys <= b.issued && ps != [] && StoredBy(ts)
      requires forall p :: p in ps ==> p.at == ts && p.id > lastID && p in Outbox.Scan(b, s.topic)
      requires PastStart(o, ts, lastID) && ClearedTo(o.start, s.topic, s.world, Position(ts, ps[|ps| - 1].id))
      ensures ps[|ps| - 1].id >= 0 && Reaches(o, ps[|ps| - 1].id) && PastStart(o, ts, ps[|ps| - 1].id)
    {
      hide Orderly, Settles, Since, Untouched, ClearedTo;
      var p := ps[|ps| - 1];
      assert p in ps;
      StaysAt(b, s.world, s.topic, p);
      RowIsReached(o.start, s.topic, s.world, s.calls, o.calls, p.id);
    }

    /** The query of stage 1b. */
    method BoundaryFetch(ts: int, lastID: int, ghost o: Origin) returns (ok: bool, ps: seq<Position>, rows: seq<Row>)
      requires Going(o) && ClearedTo(o.start, s.topic, s.world, Position(ts, lastID))
      modifies s`world, s`trace, s`now, s`at
      ensures Going(o) && Evolves(old(s.world), s.world)
      ensures Watermark(s.world, s.topic) == old(Watermark(s.world, s.topic))
      ensures Paging(o, ps, rows, 0) && |ps| <= batch
      ensures forall p :: p in ps ==> p.at == ts && p.id > lastID && p in Outbox.Scan(s.world, s.topic)
      ensures ClearedTo(o.start, s.topic, s.world, Position(ts, lastID))
      ensures |ps| < batch ==> OnPage(o.start, s.topic, s.world, ps, ts)
      ensures forall id :: old(Reaches(o, id)) ==> Reaches(o, id)
      ensures old(Saved(o)) ==> Saved(o)
      ensures ok == FaultAt(s.turns, old(s.at)).NoFault? && s.at == old(s.at) + 1
    {
      hide Reached, Covered, Evolves, Orderly, Settles, Clock, Since, Faulted, Fresh, Untouched;
      ghost var a := s.world;
      ok, ps, rows := Fetch(Boundary(ts, lastID), 0, o);
      ClearedStays(o.start, s.topic, a, s.world);
      GroupRows(s.world, s.topic, ts, lastID, batch);
      BoundaryCovers(o.start, s.topic, s.world, ts, lastID, batch);
    }

    /**
     Stage 2: forward from the boundary timestamp, by timestamp and OFFSET.
     Drained means a page came back short: everything visible at the sweep's
     start is done.
     */
    method Forward(w0: Option<Position>, cand0: Option<Position>, pages0: nat, cutoff: int, ghost o: Origin, ghost seen0: map<Id, int>)
      returns (ended: Ended, drained: bool, w: Option<Position>, cand: Option<Position>, ghost met: set<Id>)
      requires Going(o) && Marked(o, w0, cand0) && o.cutoff == cutoff && pages0 <= maxPages
      requires if w0.None? then cand0.None? else cand0.Some? && cand0.value.at == w0.value.at
      requires pages0 < maxPages && w0.Some? ==> ClearedThrough(o.start, s.topic, s.world, w0.value.at)
      requires pages0 <= |seen0| + 1 && if w0.Some? then MetBy(s.world, seen0, w0.value.at) else seen0 == map[]
      requires Saved(o) && AllReached(o, seen0.Keys) && Watermark(o.start, s.topic).Some? == w0.Some?
      requires w0.Some? ==> Watermark(o.start, s.topic).value.at == w0.value.at
      modifies s`world, s`trace, s`now, s`at, s`delivered, s`calls, s`saves
      ensures Sound(o)
      ensures Marked(o, w, cand)
      ensures ended.Finished? ==> Going(o)
      ensures ended.Finished? && drained ==> AllCleared(o.start, s.topic, s.world)
      ensures Caused(ended, o)
      ensures Saved(o) && (ended.Finished? && !drained ==> maxPages <= |met| + 1 && AllReached(o, met))
    {
      hide Reaches, Covering, ClearedTo, Orderly, Settles, Tracks, Clock, Since, Explained, Faulted, Crossed, Evolves, Untouched;
      w, cand, ended, drained := w0, cand0, Finished, false;
      var pages := pages0;
      var pos := ScanPos(if w.Some? then w.value.at else 0, 0);
      var strict := w.Some?;
      ghost var seen, last := seen0, Position(0, 0);
      met := {};
      FinishedFreely(o);
      CrossedFirst(s.world, s.topic, seen, strict, pos, last);
      if pages < maxPages {
        StartReachable(o.start, s.topic, s.world, strict, pos);
      }
      while pages < maxPages
        invariant Going(o) && ended.Finished? && !drained && pages <= maxPages && Caused(Finished, o)
        invariant Marked(o, w, cand)
        invariant (strict ==> pos.offset == 0) && (cand.Some? ==> cand.value.at <= pos.ts)
        invariant pages < maxPages ==> Reachable(o.start, s.topic, s.world, strict, pos)
        invariant Saved(o) && AllReached(o, seen.Keys) && Beyond(o, strict, pos, last)
        invariant Crossed(s.world, s.topic, seen, strict, pos, last) && pages <= |seen| + pos.offset + 1
      {
        if s.Stopping() {
          ended := Stopped;
          StopIsCause(o);
          SavedCovers(o, cand);
          w := Persist(w, cand, o);
          return;
        }
        ended, drained, w, cand, pos, seen, last := ForwardStep(pos, strict, w, cand, cutoff, o, seen, last);
        if !ended.Finished? || drained {
          return;
        }
        strict := false;
        pages := pages + 1;
      }
      KnownIds(s.world, s.limit);
      ghost var more := WithFront(s.world, s.topic, seen, strict, pos, last);
      FrontIsReached(o, seen, more, strict, pos, last);
      met := more.Keys;
    }

    /** One page of stage 2, and the watermark saved behind it. */
    method ForwardStep(pos0: ScanPos, strict: bool, w0: Option<Position>, cand0: Option<Position>, cutoff: int, ghost o: Origin,
                       ghost seen0: map<Id, int>, ghost last0: Position)
      returns (ended: Ended, short: bool, w: Option<Position>, cand: Option<Position>, pos: ScanPos, ghost seen: map<Id, int>,
               ghost last: Position)
      requires Going(o) && Marked(o, w0, cand0) && o.cutoff == cutoff && (strict ==> pos0.offset == 0)
      requires (cand0.Some? ==> cand0.value.at <= pos0.ts) && Reachable(o.start, s.topic, s.world, strict, pos0)
      requires Crossed(s.world, s.topic, seen0, strict, pos0, last0) && Beyond(o, strict, pos0, last0)
      requires Saved(o) && AllReached(o, seen0.Keys)
      modifies s`world, s`trace, s`now, s`at, s`delivered, s`calls, s`saves
      ensures Sound(o) && Marked(o, w, cand)
      ensures ended.Finished? ==> Going(o) && (cand.Some? ==> cand.value.at <= pos.ts)
      ensures ended.Finished? && short ==> AllCleared(o.start, s.topic, s.world)
      ensures ended.Finished? && !short ==> Reachable(o.start, s.topic, s.world, false, pos)
      ensures ended.Finished? && !short ==>
        && Crossed(s.world, s.topic, seen, false, pos, last) && Beyond(o, false, pos, last) && AllReached(o, seen.Keys)
        && |seen0| + pos0.offset < |seen| + pos.offset
      ensures Saved(o)
      ensures Caused(ended, o)
    {
      hide Reaches, Covering, ClearedTo, RelyBut, Evolves, Clock, Since, Explained, Orderly, Settles, Tracks, Crossed, Inv,
           Faulted, Untouched;
      StoredIsBehind(Watermark(s.world, s.topic), s.saves, o.saves, w0, cand0, o.cutoff);
      ghost var at := s.at;
      ended, short, cand, pos, seen, last := ForwardPage(pos0, strict, cand0, cutoff, o, seen0, last0);
      ghost var b := s.world;
      CandidateTracks(Watermark(b, s.topic), s.saves, o.saves, w0, cand0, cand, cutoff);
      FaultStays(s.turns, o.at, at, s.at);
      KnownIds(b, s.limit);
      w := Persist(w0, cand, o);
      ClearedStays(o.start, s.topic, b, s.world);
      if ended.Finished? && !short {
        StoredIsBehind(Watermark(s.world, s.topic), s.saves, o.saves, w, cand, o.cutoff);
        ReachableStays(o.start, s.topic, b, s.world, false, pos);
        CrossedStays(b, s.world, s.topic, seen, false, pos, last);
        BeyondLater(o, b, false, pos, last);
      }
    }

    /** One page of stage 2; last when it was not full. */
    method ForwardPage(pos0: ScanPos, strict: bool, cand0: Option<Position>, cutoff: int, ghost o: Origin, ghost seen0: map<Id, int>,
                       ghost last0: Position)
      returns (ended: Ended, short: bool, cand: Option<Position>, pos: ScanPos, ghost seen: map<Id, int>, ghost last: Position)
      requires Going(o) && (strict ==> pos0.offset == 0)
      requires Reachable(o.start, s.topic, s.world, strict, pos0) && Crossed(s.world, s.topic, seen0, strict, pos0, last0)
      requires Beyond(o, strict, pos0, last0) && Saved(o) && AllReached(o, seen0.Keys) && o.cutoff == cutoff
      requires s.topic in s.world.watermarks ==> s.world.watermarks[s.topic].at <= pos0.ts
      requires cand0.Some? ==> cand0.value.at <= pos0.ts
      modifies s`world, s`trace, s`now, s`at, s`delivered, s`calls
      ensures Sound(o) && Evolves(old(s.world), s.world) && old(s.at) <= s.at
      ensures Watermark(s.world, s.topic) == old(Watermark(s.world, s.topic))
      ensures cand == cand0 || (cand.Some? && cand.value.at <= cutoff && pos0.ts <= cand.value.at)
      ensures ended.Finished? ==> Going(o) && pos0.ts <= pos.ts && (cand.Some? ==> cand.value.at <= pos.ts)
      ensures ended.Finished? && short ==> AllCleared(o.start, s.topic, s.world)
      ensures ended.Finished? && !short ==> Reachable(o.start, s.topic, s.world, false, pos)
      ensures ended.Finished? && !short ==>
        && Crossed(s.world, s.topic, seen, false, pos, last) && Beyond(o, false, pos, last) && AllReached(o, seen.Keys)
        && |seen0| + pos0.offset < |seen| + pos.offset
      ensures Covering(o, cand)
      ensures Caused(ended, o)
    {
      hide AllOnPage, Reachable, Reaches, Covered, ClearedTo, Evolves, Fresh, Passed, OnPageOrAfter, Orderly, Settles, Clock, Since,
           Explained, Crossed, Inv, Faulted, Untouched, LeadsTo, Covering;
      cand, pos, short, seen, last := cand0, pos0, false, seen0, last0;
      ghost var a, at := s.world, s.at;
      KnownIds(a, s.limit);
      var ok, ps, rows := ForwardFetch(pos, strict, o);
      ghost var b := s.world;
      SavedCovers(o, cand);
      if !ok {
        FaultIsCause(at, o);
        return StatementFailed, short, cand, pos, seen, last;
      }
      KnownIds(b, s.limit);
      CrossedStays(a, b, s.topic, seen, strict, pos0, last0);
      BeyondLater(o, a, strict, pos0, last0);
      if ps != [] {
        seen := CrossedOn(b, s.topic, seen0, strict, pos0, last0, ps);
        FrontIsReached(o, seen0, seen, strict, pos0, last0);
        last := ps[|ps| - 1];
      }
      ended, short, cand, pos := ForwardRows(ps, rows, pos0, strict, cand0, cutoff, o, seen);
      EvolvesTransitive(a, b, s.world);
    }

    /** Delivers a page of stage 2 that takes the cursor in front of the messages `seen`. */
    method ForwardRows(ps: seq<Position>, rows: seq<Row>, pos0: ScanPos, strict: bool, cand0: Option<Position>, cutoff: int,
         ghost o: Origin,
                       ghost seen: map<Id, int>)
      returns (ended: Ended, short: bool, cand: Option<Position>, pos: ScanPos)
      requires Going(o) && Paging(o, ps, rows, 0) && o.cutoff == cutoff && Saved(o) && AllReached(o, seen.Keys)
      requires |ps| <= batch && (|ps| < batch ==> AllOnPage(o.start, s.topic, s.world, ps))
      requires LeadsTo(s.world, s.topic, strict, pos0, ps) && StoredBy(pos0.ts) && (cand0.Some? ==> cand0.value.at <= pos0.ts)
      requires ps != [] ==> Crossed(s.world, s.topic, seen, false, Moved(pos0, ps), ps[|ps| - 1])
      requires var mark := Watermark(o.start, s.topic);
               mark.Some? ==> if strict then mark.value.at == pos0.ts else mark.value.at < pos0.ts
      modifies s`world, s`trace, s`now, s`at, s`delivered, s`calls
      ensures Sound(o) && Evolves(old(s.world), s.world) && old(s.at) <= s.at && short == (|ps| < batch)
      ensures Watermark(s.world, s.topic) == old(Watermark(s.world, s.topic))
      ensures cand == cand0 || (cand.Some? && cand.value.at <= cutoff && pos0.ts <= cand.value.at)
      ensures ended.Finished? ==> Going(o) && pos == Moved(pos0, ps) && pos0.ts <= pos.ts && (cand.Some? ==> cand.value.at <= pos.ts)
      ensures ended.Finished? && short ==> AllCleared(o.start, s.topic, s.world)
      ensures ended.Finished? && !short ==> ps != [] && Reachable(o.start, s.topic, s.world, false, pos)
      ensures ended.Finished? && !short ==>
        Crossed(s.world, s.topic, seen, false, pos, ps[|ps| - 1]) && Beyond(o, false, pos, ps[|ps| - 1]) && AllReached(o, seen.Keys)
      ensures Covering(o, cand)
      ensures Caused(ended, o)
    {
      hide AllOnPage, Reachable, Reaches, Covered, ClearedTo, Added, Evolves, Fresh, Passed, OnPageOrAfter, Orderly, Settles, Clock, Since,
           Explained, Crossed, Inv, Faulted, Untouched, LastSettled;
      ghost var b, calls, at := s.world, s.calls, s.at;
      KnownIds(b, s.limit);
      short := |ps| < batch;
      ended, cand, pos := DeliverPage(ps, rows, cand0, pos0, cutoff, o);
      CoveringOn(o, calls, b, at, ps, cand);
      if ended.Finished? {
        if short {
          ForwardEnds(o.start, s.topic, b, s.world, ps);
        } else {
          PassedLast(o.start, s.topic, s.world, ps);
          ForwardMoves(o.start, s.topic, b, s.world, strict, pos0.ts, ps[|ps| - 1], pos.offset);
          BeyondOn(o, b, strict, pos0, ps[|ps| - 1], ps);
          CrossedStays(b, s.world, s.topic, seen, false, pos, ps[|ps| - 1]);
        }
      }
    }

    /** Past the watermark stored at the start, and everything visible then is done up to the cursor's last row. */
    ghost predicate Beyond(o: Origin, strict: bool, pos: ScanPos, last: Position)
      reads s
    {
      var mark := Watermark(o.start, s.topic);
      && (mark.Some? ==> if strict then mark.value.at == pos.ts else mark.value.at < pos.ts)
      && (pos.offset > 0 ==> !strict && ClearedTo(o.start, s.topic, s.world, last))
    }

    /** The rows of the cursor's group up to its last row are got through. */
    lemma FrontIsReached(o: Origin, seen: map<Id, int>, more: map<Id, int>, strict: bool, pos: ScanPos, last: Position)
      requires Sound(o) && AllReached(o, seen.Keys) && Beyond(o, strict, pos, last)
      requires forall id :: id in more && id !in seen ==> pos.offset > 0 && FrontRow(s.world, s.topic, pos.ts, last, id)
      ensures AllReached(o, more.Keys)
    {
      hide Orderly, Settles, Since, Untouched, Reached;
      forall id | id in more && id !in seen ensures Reaches(o, id) {
        ClearedBefore(o.start, s.topic, s.world, last, Position(pos.ts, id));
        RowIsReached(o.start, s.topic, s.world, s.calls, o.calls, id);
      }
    }

    lemma BeyondLater(o: Origin, b: World, strict: bool, pos: ScanPos, last: Position)
      requires Evolves(o.start, b) && Evolves(b, s.world) && o.start.messages.Keys <= o.start.issued
      requires pos.offset > 0 ==> ClearedTo(o.start, s.topic, b, last)
      requires var mark := Watermark(o.start, s.topic);
               mark.Some? ==> if strict then mark.value.at == pos.ts else mark.value.at < pos.ts
      requires strict ==> pos.offset == 0
      ensures Beyond(o, strict, pos, last)
    {
      ClearedStays(o.start, s.topic, b, s.world);
    }

    /** A delivered page of stage 2 takes the cursor to its last row. */
    lemma BeyondOn(o: Origin, b: World, strict: bool, pos: ScanPos, last: Position, ps: seq<Position>)
      requires ps != [] && LeadsTo(b, s.topic, strict, pos, ps) && AfterLast(o.start, s.topic, s.world, ps[|ps| - 1])
      requires var mark := Watermark(o.start, s.topic);
               mark.Some? ==> if strict then mark.value.at == pos.ts else mark.value.at < pos.ts
      ensures Beyond(o, false, Moved(pos, ps), ps[|ps| - 1])
    {
      assert ps[|ps| - 1] in ps;
    }

    lemma SoundFacts(o: Origin)
      requires Sound(o)
      ensures Evolves(o.start, s.world) && o.start.messages.Keys <= o.start.issued && s.world.messages.Keys <= s.world.issued && 0 < batch
    {
    }

    /** scanForward. */
    method ForwardFetch(pos: ScanPos, strict: bool, ghost o: Origin) returns (ok: bool, ps: seq<Position>, rows: seq<Row>)
      requires Going(o) && (strict ==> pos.offset == 0)
      requires Reachable(o.start, s.topic, s.world, strict, pos)
      requires s.topic in s.world.watermarks ==> s.world.watermarks[s.topic].at <= pos.ts
      modifies s`world, s`trace, s`now, s`at
      ensures Going(o) && Evolves(old(s.world), s.world)
      ensures Watermark(s.world, s.topic) == old(Watermark(s.world, s.topic))
      ensures |ps| <= batch && Paging(o, ps, rows, 0)
      ensures |ps| < batch ==> AllOnPage(o.start, s.topic, s.world, ps)
      ensures LeadsTo(s.world, s.topic, strict, pos, ps)
      ensures forall id :: old(Reaches(o, id)) ==> Reaches(o, id)
      ensures old(Saved(o)) ==> Saved(o)
      ensures ok == FaultAt(s.turns, old(s.at)).NoFault? && s.at == old(s.at) + 1
    {
      hide Reaches, Saved, Sound, Evolves, Matching, Orderly, Settles, Clock, Since, Faulted, Fresh, LeadsTo, Reachable, Untouched;
      ghost var a := s.world;
      SoundFacts(o);
      ok, ps, rows := Fetch(ScanQuery(pos, strict), if strict then 0 else pos.offset, o);
      ReachableStays(o.start, s.topic, a, s.world, strict, pos);
      ForwardCovers(o.start, s.topic, s.world, strict, pos, batch);
      PageLeads(s.world, s.topic, strict, pos, batch);
    }

    /** When the sweep that starts after n statements takes its cutoff: once it has loaded the watermark. */
    function Began(n: nat): Time {
      Clock(s.start, s.turns, n + 1)
    }

    /** relay.sweep: loads the watermark and takes the cutoff, then scans. */
    method Sweep() returns (ended: Ended, drained: bool, ghost met: set<Id>)
      requires Valid()
      modifies s`world, s`trace, s`now, s`at, s`delivered, s`calls, s`saves
      ensures Valid() && Evolves(old(s.world), s.world)
      ensures Orderly(old(s.world), s.topic, s.calls, |old(s.calls)|)
      ensures Since(s.calls, |old(s.calls)|, s.saves, |old(s.saves)|, Began(old(s.at)))
      ensures Advancing(s.saves, |old(s.saves)|, Began(old(s.at)) - settle)
      ensures !Faulted(s.turns, old(s.at), s.at) ==> Rising(s.saves, |old(s.saves)|)
      ensures Untouched(old(s.world), s.topic, s.world, s.calls, |old(s.calls)|)
      ensures ended.Finished? ==> Settles(s.calls, |old(s.calls)|, s.world)
      ensures ended.Finished? && drained ==> AllCleared(old(s.world), s.topic, s.world)
      ensures Caused(ended, Origin(old(s.world), old(s.at), old(s.now), |old(s.calls)|, |old(s.saves)|,
                                   Began(old(s.at)), Began(old(s.at)) - settle))
      ensures ended.Finished? && !drained ==> maxPages <= |met| + 1
      ensures forall id :: id in met ==> Reached(old(s.world), s.topic, s.world, s.calls, |old(s.calls)|, id)
      ensures !Faulted(s.turns, old(s.at), s.at) ==>
        Covered(s.calls, |old(s.calls)|, s.world, s.topic, Watermark(s.world, s.topic), None, Began(old(s.at)) - settle)
      ensures ended.Finished? && drained && !Faulted(s.turns, old(s.at), s.at) ==>
        CoversFrontier(old(s.world), s.world, s.topic, Began(old(s.at)) - settle)
    {
      hide Clock, Explained;
      ghost var at := s.at;
      var ok, mark := s.Load();
      UntouchedYet(old(s.world), s.topic, s.world, s.calls, s.limit);
      var cutoff := s.now - settle;
      ghost var o := Origin(old(s.world), at, old(s.now), |s.calls|, |s.saves|, s.now, cutoff);
      if !ok {
        FaultIsCause(at, o);
        return StatementFailed, false, {};
      }
      ended, drained, met := Scan(mark, cutoff, o);
      if !ended.Finished? || drained {
        met := {};
      }
    }

    /** The scan of a sweep that found the watermark `mark` and took `cutoff` before its first query. */
    method Scan(mark: Option<Position>, cutoff: int, ghost o: Origin) returns (ended: Ended, drained: bool, ghost met: set<Id>)
      requires Valid() && mark == Watermark(s.world, s.topic) == Watermark(o.start, s.topic)
      requires o.start.messages.Keys <= o.start.issued && Evolves(o.start, s.world)
      requires Untouched(o.start, s.topic, s.world, s.calls, o.calls)
      requires o.calls == |s.calls| && o.saves == |s.saves| && o.cutoff == cutoff && o.at <= s.at && o.now <= o.began == s.now
      modifies s`world, s`trace, s`now, s`at, s`delivered, s`calls, s`saves
      ensures Valid() && Evolves(o.start, s.world) && Orderly(o.start, s.topic, s.calls, o.calls)
      ensures Since(s.calls, o.calls, s.saves, o.saves, o.began) && Advancing(s.saves, o.saves, cutoff)
      ensures !Faulted(s.turns, o.at, s.at) ==> Rising(s.saves, o.saves)
      ensures Untouched(o.start, s.topic, s.world, s.calls, o.calls)
      ensures ended.Finished? ==> Settles(s.calls, o.calls, s.world)
      ensures ended.Finished? && drained ==> AllCleared(o.start, s.topic, s.world)
      ensures Caused(ended, o)
      ensures Saved(o) && (ended.Finished? && !drained ==> maxPages <= |met| + 1 && AllReached(o, met))
      ensures ended.Finished? && drained && !Faulted(s.turns, o.at, s.at) ==> CoversFrontier(o.start, s.world, s.topic, cutoff)
    {
      hide Reached, RelyBut, Evolves, Clock, Explained, Faulted, Met, MetBy;
      var w, cand := mark, mark;
      var pages := 0;
      ghost var seen: map<Id, int> := map[];
      drained, met := false, {};
      if mark.Some? {
        ended, pages, seen := LookBehind(mark.value, o);
        if !ended.Finished? {
          return;
        }
        ended, pages, w, cand, seen := BoundaryGroup(mark.value, pages, cutoff, o, seen);
        if !ended.Finished? {
          return;
        }
      }
      ended, drained, w, cand, met := Forward(w, cand, pages, cutoff, o, seen);
      if !ended.Finished? {
        return;
      }
      Conclude(drained, w, cand, cutoff, o);
    }

    /** The end of a sweep: a drained topic moves up to the frontier, and the candidate is saved. */
    method Conclude(drained: bool, w0: Option<Position>, cand0: Option<Position>, cutoff: int, ghost o: Origin)
      requires Saved(o)
      requires Going(o) && Marked(o, w0, cand0) && o.cutoff == cutoff && (drained ==> AllCleared(o.start, s.topic, s.world))
      modifies s`world, s`trace, s`now, s`at, s`saves
      ensures Going(o) && Advancing(s.saves, o.saves, cutoff) && old(s.world.issued) <= s.world.issued
      ensures !Faulted(s.turns, o.at, s.at) ==> Rising(s.saves, o.saves)
      ensures drained ==> AllCleared(o.start, s.topic, s.world)
      ensures drained && !Faulted(s.turns, o.at, s.at) ==> CoversFrontier(o.start, s.world, s.topic, cutoff)
      ensures forall id :: old(Reaches(o, id)) ==> Reaches(o, id)
      ensures Saved(o)
      ensures Caused(Finished, o)
    {
      hide Reached, Covered, RelyBut, Clock, Explained, Orderly, Settles, Since, Faulted, Untouched;
      var w, cand := w0, cand0;
      if drained {
        cand := Jump(w, cand, cutoff, o);
      }
      ghost var before, at := s.world, s.at;
      SavedCovers(o, cand);
      w := Persist(w, cand, o);
      FaultStays(s.turns, o.at, at, s.at);
      ClearedStays(o.start, s.topic, before, s.world);
      if drained && !Faulted(s.turns, o.at, s.at) {
        FrontierCovered(o.start, before, s.world, s.topic, cutoff, cand);
      }
      FinishedFreely(o);
    }

    /** A drained topic's candidate moves up to the settled frontier of the whole table. */
    method Jump(ghost w: Option<Position>, cand0: Option<Position>, cutoff: int, ghost o: Origin) returns (cand: Option<Position>)
      requires Going(o) && Marked(o, w, cand0) && o.cutoff == cutoff && AllCleared(o.start, s.topic, s.world)
      modifies s`world, s`trace, s`now, s`at
      ensures Going(o) && Marked(o, w, cand) && AllCleared(o.start, s.topic, s.world) && Evolves(old(s.world), s.world)
      ensures forall id :: old(Reaches(o, id)) ==> Reaches(o, id)
      ensures old(Saved(o)) ==> Saved(o)
      ensures old(s.at) <= s.at
      ensures !Faulted(s.turns, o.at, s.at) ==> forall p :: p in Settled(s.world, cutoff) ==> cand.Some? && AtMost(p, cand.value)
    {
      hide Reached, Covered, Kept, Clock, Orderly, Since, Tracks, Untouched;
      cand := cand0;
      ghost var before, at := s.world, s.at;
      var ok, f := s.Frontier(cutoff);
      Relied(o.start, before, s.world, s.topic, s.limit, s.calls, o.calls);
      StillCovered(o, None, before, at);
      ClearedStays(o.start, s.topic, before, s.world);
      if ok && f.Some? && (cand.None? || !AtMost(f.value, cand.value)) {
        CandidateTracks(Watermark(s.world, s.topic), s.saves, o.saves, w, cand, f, cutoff);
        cand := f;
      }
    }
  }

  // ---------- Lemmas ----------

  /** The cursor after a page: how many rows of its last timestamp it has passed. */
  function Moved(pos: ScanPos, ps: seq<Position>): ScanPos {
    if ps == [] then
      pos
    else
      var n := |ps| - 1;
      var before := Moved(pos, ps[..n]);
      if ps[n].at == before.ts then ScanPos(before.ts, before.offset + 1) else ScanPos(ps[n].at, 1)
  }

  /** Every pending message of the topic is in exactly one of the lookbehind, the boundary and the forward range of the next sweep. */
  lemma PendingIsInRange(w: World, topic: Topic, id: Id)
    requires Pending(w, id) && w.messages[id].topic == topic
    ensures var p := Position(w.messages[id].at, id);
            match Watermark(w, topic)
            case None => p in Matching(w, topic, ScanQuery(ScanPos(0, 0), false))
            case Some(mark) =>
              && (p in Matching(w, topic, Lookbehind(mark)) <==> p.at < mark.at || (p.at == mark.at && id <= mark.id))
              && (p in Matching(w, topic, Boundary(mark.at, mark.id)) <==> p.at == mark.at && mark.id < id)
              && (p in Matching(w, topic, ScanQuery(ScanPos(mark.at, 0), true)) <==> mark.at < p.at)
  {
  }

  /** What is cleared stays cleared. */
  lemma ClearedStays(start: World, topic: Topic, w: World, w': World)
    requires Evolves(start, w) && Evolves(w, w') && start.messages.Keys <= start.issued
    ensures forall p :: ClearedTo(start, topic, w, p) ==> ClearedTo(start, topic, w', p)
    ensures forall ts :: ClearedThrough(start, topic, w, ts) ==> ClearedThrough(start, topic, w', ts)
    ensures AllCleared(start, topic, w) ==> AllCleared(start, topic, w')
  {
  }

  lemma SaveEvolves(w0: World, before: World, w1: World, step: Step, limit: nat)
    requires Inv(w0, limit) && Inv(before, limit) && Evolves(w0, before)
    requires Enabled(before, step, limit) && (w1 == Apply(before, step, limit) || w1 == before)
    ensures Evolves(w0, w1)
  {
    if w1 != before {
      StepEvolves(before, step, limit);
      EvolvesTransitive(w0, before, w1);
    }
  }

  lemma SaveTracks(stored: Option<Position>, stored': Option<Position>, saves: seq<Saving>, d0: nat,
                   w: Option<Position>, cand: Option<Position>, cutoff: int, saving: Saving)
    requires Tracks(stored, saves, d0, w, cand, cutoff)
    requires cand.Some? && (w.Some? ==> !AtMost(cand.value, w.value)) && saving.pos == cand.value
    requires stored' == stored || stored' == cand
    ensures Tracks(stored', saves + [saving], d0, if saving.confirmed then cand else w, cand, cutoff)
    ensures Rising(saves, d0) && saving.confirmed ==> Rising(saves + [saving], d0)
  {
  }

  lemma CandidateTracks(stored: Option<Position>, saves: seq<Saving>, d0: nat,
                        w: Option<Position>, cand: Option<Position>, cand': Option<Position>, cutoff: int)
    requires Tracks(stored, saves, d0, w, cand, cutoff)
    requires cand' == cand || (cand'.Some? && cand'.value.at <= cutoff && (cand.Some? ==> cand.value.at <= cand'.value.at))
    ensures Tracks(stored, saves, d0, w, cand', cutoff)
  {
  }

  /** Once a boundary page is delivered the group is done up to its last row, all of it when the page was short. */
  lemma BoundaryPassed(start: World, topic: Topic, b: World, c: World, ts: int, lastID: int, ps: seq<Position>)
    requires Evolves(start, b) && Evolves(b, c) && start.messages.Keys <= start.issued
    requires ClearedTo(start, topic, b, Position(ts, lastID)) && OnPageOrAfter(start, topic, b, ps)
    requires forall p :: p in ps ==> p.at == ts
    requires Passed(c, ps, |ps|)
    ensures ClearedTo(start, topic, c, Position(ts, if ps == [] then lastID else ps[|ps| - 1].id))
    ensures OnPage(start, topic, b, ps, ts) ==> ClearedThrough(start, topic, c, ts)
  {
    forall j | j in start.messages && start.messages[j].topic == topic && Pending(c, j)
      ensures var p := Position(start.messages[j].at, j);
              && !AtMost(p, Position(ts, if ps == [] then lastID else ps[|ps| - 1].id))
              && (OnPage(start, topic, b, ps, ts) ==> ts < p.at)
    {
      var p := Position(start.messages[j].at, j);
      assert Pending(b, j) by {
        assert j in b.issued;
      }
      if p in ps {
        assert false;
      }
      if ps != [] {
        assert ps[|ps| - 1] in ps;
      }
    }
  }

  lemma RowOfPage(w: World, topic: Topic, ps: seq<Position>, rows: seq<Row>, i: nat)
    requires Fresh(w, topic, ps, rows, i) && i < |ps|
    ensures |rows| == |ps| && ps[i].id >= 0 && ps[i].id in w.issued && rows[i].topic == topic && rows[i].at == ps[i].at
    ensures if rows[i].completedAt.None? then ps[i].id in w.messages && w.messages[ps[i].id] == rows[i] else Done(w, ps[i].id)
  {
  }

  lemma RelyButReflexive(w: World, topic: Topic, limit: nat, id: Id)
    requires Inv(w, limit)
    ensures RelyBut(w, w, topic, limit, id)
  {
  }

  lemma VisitedEvolves(start: World, w: World, w': World, topic: Topic, limit: nat, id: Id)
    requires start.messages.Keys <= start.issued && Evolves(start, w) && RelyBut(w, w', topic, limit, id)
    ensures Evolves(w, w') && Evolves(start, w') && Watermark(w', topic) == Watermark(w, topic)
  {
    EvolvesTransitive(start, w, w');
  }

  /** A rightful call of a message not called before. */
  lemma OneMoreCall(start: World, topic: Topic, w: World, w': World, calls: seq<Call>, c0: nat, call: Call, limit: nat)
    requires Orderly(start, topic, calls, c0) && Settles(calls, c0, w) && Rightful(start, topic, call) && call.world == w
    requires Evolves(w, w') && Inv(w, limit)
    ensures Orderly(start, topic, calls + [call], c0)
    ensures Settles(calls, c0, w')
    ensures Done(w', call.id) ==> Settles(calls + [call], c0, w')
  {
  }

  /** Once row i is done the page is on to the next one. */
  lemma PageGoesOn(start: World, topic: Topic, w: World, w': World, limit: nat, ps: seq<Position>, rows: seq<Row>, i: nat)
    requires Increasing(ps) && i < |ps| && Fresh(w, topic, ps, rows, i) && Passed(w, ps, i) && OnPageOrAfter(start, topic, w, ps)
    requires start.messages.Keys <= start.issued && Evolves(start, w) && Inv(w, limit)
    requires ps[i].id >= 0 && RelyBut(w, w', topic, limit, ps[i].id) && Done(w', ps[i].id)
    ensures Fresh(w', topic, ps, rows, i + 1) && Passed(w', ps, i + 1) && OnPageOrAfter(start, topic, w', ps)
  {
  }

  /** The i-th row of a page is rightly delivered once the rows before it are done. */
  lemma IsRightful(start: World, topic: Topic, w: World, ps: seq<Position>, i: nat, clock: Time)
    requires i < |ps| && Increasing(ps) && Passed(w, ps, i) && OnPageOrAfter(start, topic, w, ps)
    requires ps[i].id >= 0 && Pending(w, ps[i].id) && ps[i].id in w.issued
    requires w.messages[ps[i].id].topic == topic && w.messages[ps[i].id].at == ps[i].at
    ensures Rightful(start, topic, Call(ps[i].id, w, clock))
  {
    forall j | j in start.messages && start.messages[j].topic == topic && Before(Position(start.messages[j].at, j), ps[i])
      ensures Done(w, j)
    {
      if Pending(w, j) {
        assert ps[i] in ps;
        var k :| 0 <= k < |ps| && ps[k] == Position(start.messages[j].at, j);
        assert k < i;
      }
    }
  }

  lemma LookbehindCovers(start: World, topic: Topic, w: World, mark: Position, batch: nat)
    requires Evolves(start, w) && start.messages.Keys <= start.issued
    ensures OnPageOrAfter(start, topic, w, Page(Matching(w, topic, Lookbehind(mark)), 0, batch))
  {
    var s := Matching(w, topic, Lookbehind(mark));
    forall j | j in start.messages && start.messages[j].topic == topic && Pending(w, j)
      ensures var p := Position(start.messages[j].at, j);
              p in Page(s, 0, batch) || forall q :: q in Page(s, 0, batch) ==> Before(q, p)
    {
      var p := Position(start.messages[j].at, j);
      assert SameMessage(start.messages[j], w.messages[j]);
      if AtMost(p, mark) {
        PageSkipsOnlyTheFront(s, 0, batch, p);
      }
    }
  }

  lemma NothingBehind(start: World, topic: Topic, w: World, mark: Position, batch: nat)
    requires Evolves(start, w) && start.messages.Keys <= start.issued && 0 < batch
    requires Page(Matching(w, topic, Lookbehind(mark)), 0, batch) == []
    ensures ClearedTo(start, topic, w, mark)
  {
    forall j | j in start.messages && start.messages[j].topic == topic && AtMost(Position(start.messages[j].at, j), mark)
      ensures Done(w, j)
    {
      if Pending(w, j) {
        assert SameMessage(start.messages[j], w.messages[j]);
        PageSkipsOnlyTheFront(Matching(w, topic, Lookbehind(mark)), 0, batch, Position(start.messages[j].at, j));
      }
    }
  }

  /** The boundary page holds what is pending of the group, unless it is full; the rest comes after it. */
  lemma BoundaryCovers(start: World, topic: Topic, w: World, ts: int, lastID: int, batch: nat)
    requires Evolves(start, w) && start.messages.Keys <= start.issued
    requires ClearedTo(start, topic, w, Position(ts, lastID))
    ensures var ps := Page(Matching(w, topic, Boundary(ts, lastID)), 0, batch);
            && OnPageOrAfter(start, topic, w, ps)
            && (|ps| < batch ==> OnPage(start, topic, w, ps, ts))
  {
    var s := Matching(w, topic, Boundary(ts, lastID));
    var ps := Page(s, 0, batch);
    forall j | j in start.messages && start.messages[j].topic == topic && Pending(w, j)
      ensures var p := Position(start.messages[j].at, j);
              && (p in ps || forall q :: q in ps ==> Before(q, p))
              && (|ps| < batch && p.at <= ts ==> p in ps)
    {
      var p := Position(start.messages[j].at, j);
      assert SameMessage(start.messages[j], w.messages[j]);
      if p.at <= ts {
        PageSkipsOnlyTheFront(s, 0, batch, p);
      }
    }
  }

  // ---------- Stage 2: the OFFSET cursor under interference ----------

  function ScanQuery(pos: ScanPos, strict: bool): Query {
    if strict then Beyond(pos.ts) else if pos.ts != 0 then From(pos.ts) else All
  }

  /** The rows the cursor may still return. */
  ghost function InRange(now: World, topic: Topic, strict: bool, ts: int): set<Position> {
    Matching(now, topic, if strict then Beyond(ts) else From(ts))
  }

  /**
   The cursor is not past anything: whatever was visible at the start and is
   pending lies in its range with at least `offset` rows of it in front.
   */
  ghost predicate Reachable(start: World, topic: Topic, now: World, strict: bool, pos: ScanPos) {
    forall j :: j in start.messages && start.messages[j].topic == topic && Pending(now, j) ==>
      var p := Position(start.messages[j].at, j);
      p in InRange(now, topic, strict, pos.ts) && pos.offset <= |Ahead(InRange(now, topic, strict, pos.ts), p)|
  }

  /** Interference moves nothing out of the range: only rows behind the stored watermark disappear. */
  lemma RangeGrows(w: World, w': World, topic: Topic, strict: bool, ts: int)
    requires Evolves(w, w') && w.messages.Keys <= w.issued
    requires topic in w'.watermarks ==> w'.watermarks[topic].at <= ts
    ensures InRange(w, topic, strict, ts) <= InRange(w', topic, strict, ts)
  {
  }

  lemma ReachableStays(start: World, topic: Topic, w: World, w': World, strict: bool, pos: ScanPos)
    requires Evolves(start, w) && Evolves(w, w') && start.messages.Keys <= start.issued && w.messages.Keys <= w.issued
    requires topic in w'.watermarks ==> w'.watermarks[topic].at <= pos.ts
    requires Reachable(start, topic, w, strict, pos)
    ensures Reachable(start, topic, w', strict, pos)
  {
    var r, r' := InRange(w, topic, strict, pos.ts), InRange(w', topic, strict, pos.ts);
    RangeGrows(w, w', topic, strict, pos.ts);
    forall j | j in start.messages && start.messages[j].topic == topic && Pending(w', j)
      ensures var p := Position(start.messages[j].at, j); p in r' && pos.offset <= |Ahead(r', p)|
    {
      var p := Position(start.messages[j].at, j);
      assert Pending(w, j) by {
        assert j in w.issued;
      }
      assert Ahead(r, p) <= Ahead(r', p);
      Fewer(Ahead(r, p), Ahead(r', p));
    }
  }

  /** The zero timestamp filters nothing out. */
  lemma QueryIsRange(w: World, topic: Topic, strict: bool, pos: ScanPos)
    ensures Matching(w, topic, ScanQuery(pos, strict)) == InRange(w, topic, strict, pos.ts)
  {
  }

  /** Where a page leads the cursor: to its last row, counting no more rows than there are up to it. */
  ghost predicate LeadsTo(now: World, topic: Topic, strict: bool, pos: ScanPos, ps: seq<Position>) {
    var r := InRange(now, topic, strict, pos.ts);
    && (forall p :: p in ps ==> p in r && pos.ts <= p.at <= Moved(pos, ps).ts)
    && (if ps == [] then Moved(pos, ps) == pos else
          && Moved(pos, ps).ts == ps[|ps| - 1].at
          && Moved(pos, ps).offset <= |TiesUpTo(r, ps[|ps| - 1])|)
  }

  lemma PageLeads(w: World, topic: Topic, strict: bool, pos: ScanPos, batch: nat)
    requires strict ==> pos.offset == 0
    ensures var ps := Page(Matching(w, topic, ScanQuery(pos, strict)), if strict then 0 else pos.offset, batch);
            LeadsTo(w, topic, strict, pos, ps)
  {
    hide Matching, Ahead, TiesUpTo, Positions.Page;
    QueryIsRange(w, topic, strict, pos);
    RangeStarts(w, topic, strict, pos.ts);
    var r := InRange(w, topic, strict, pos.ts);
    var ps := Page(r, pos.offset, batch);
    if ps != [] {
      PageStartsAtOffset(r, pos.offset, batch);
    }
    RowsLead(w, topic, strict, pos, ps);
  }

  lemma RowsLead(w: World, topic: Topic, strict: bool, pos: ScanPos, ps: seq<Position>)
    requires var r := InRange(w, topic, strict, pos.ts);
             && Increasing(ps) && (forall p :: p in ps ==> p in r) && (forall p :: p in r ==> pos.ts <= p.at)
             && (ps != [] ==> pos.offset == |Ahead(r, ps[0])|)
    ensures LeadsTo(w, topic, strict, pos, ps)
  {
    hide InRange, Ahead, TiesUpTo;
    MovedToLast(pos, ps);
    if ps != [] {
      OffsetCountsTies(InRange(w, topic, strict, pos.ts), pos, ps);
    }
  }

  lemma RangeStarts(w: World, topic: Topic, strict: bool, ts: int)
    ensures forall p :: p in InRange(w, topic, strict, ts) ==> ts <= p.at
  {
  }

  /** OFFSET skips nothing pending: it is on the page, or the page is full and it comes after. */
  lemma ForwardCovers(start: World, topic: Topic, w: World, strict: bool, pos: ScanPos, batch: nat)
    requires Reachable(start, topic, w, strict, pos) && (strict ==> pos.offset == 0)
    ensures var ps := Page(Matching(w, topic, ScanQuery(pos, strict)), if strict then 0 else pos.offset, batch);
            && OnPageOrAfter(start, topic, w, ps)
            && (|ps| < batch ==> AllOnPage(start, topic, w, ps))
  {
    QueryIsRange(w, topic, strict, pos);
    var r := InRange(w, topic, strict, pos.ts);
    var ps := Page(r, pos.offset, batch);
    forall j | j in start.messages && start.messages[j].topic == topic && Pending(w, j)
      ensures var p := Position(start.messages[j].at, j);
              && (p in ps || forall q :: q in ps ==> Before(q, p))
              && (|ps| < batch ==> p in ps)
    {
      PageSkipsOnlyTheFront(r, pos.offset, batch, Position(start.messages[j].at, j));
    }
  }

  ghost predicate AllOnPage(start: World, topic: Topic, now: World, ps: seq<Position>) {
    forall j :: j in start.messages && start.messages[j].topic == topic && Pending(now, j) ==>
      Position(start.messages[j].at, j) in ps
  }

  /** A delivered page that was not full leaves nothing pending. */
  lemma ForwardEnds(start: World, topic: Topic, w: World, w': World, ps: seq<Position>)
    requires Evolves(start, w) && Evolves(w, w') && start.messages.Keys <= start.issued
    requires AllOnPage(start, topic, w, ps) && Passed(w', ps, |ps|)
    ensures AllCleared(start, topic, w')
  {
  }

  /** The rows of p's tie group up to p. */
  ghost function TiesUpTo(s: set<Position>, p: Position): set<Position> {
    set q | q in s && q.at == p.at && AtMost(q, p)
  }

  lemma {:induction false} MovedToLast(pos: ScanPos, ps: seq<Position>)
    ensures ps != [] ==> Moved(pos, ps).ts == ps[|ps| - 1].at
    ensures ps == [] ==> Moved(pos, ps) == pos
  {
  }

  lemma NextTie(s: set<Position>, q: Position, r: Position)
    requires r in s && Before(q, r) && q.at == r.at
    ensures |TiesUpTo(s, q)| + 1 <= |TiesUpTo(s, r)|
  {
    assert r !in TiesUpTo(s, q);
    Fewer(TiesUpTo(s, q) + {r}, TiesUpTo(s, r));
  }

  lemma FirstTie(s: set<Position>, r: Position, ts: int)
    requires r in s && forall p :: p in s ==> ts <= p.at
    ensures 1 <= |TiesUpTo(s, r)|
    ensures r.at == ts ==> |Ahead(s, r)| + 1 <= |TiesUpTo(s, r)|
  {
    Fewer({r}, TiesUpTo(s, r));
    if r.at == ts {
      assert r !in Ahead(s, r);
      Fewer(Ahead(s, r) + {r}, TiesUpTo(s, r));
    }
  }

  /**
   After the rows of a page, the cursor's offset counts no more rows than the
   tie group of the last one holds up to it.
   */
  lemma {:induction false} OffsetCountsTies(s: set<Position>, pos: ScanPos, ps: seq<Position>)
    requires ps != [] && Increasing(ps) && (forall p :: p in ps ==> p in s)
    requires forall p :: p in s ==> pos.ts <= p.at
    requires pos.offset == |Ahead(s, ps[0])|
    ensures Moved(pos, ps).offset <= |TiesUpTo(s, ps[|ps| - 1])|
    decreases |ps|
  {
    var n := |ps| - 1;
    var front := ps[..n];
    MovedToLast(pos, front);
    FirstTie(s, ps[n], pos.ts);
    if n > 0 {
      OffsetCountsTies(s, pos, front);
      if ps[n].at == ps[n - 1].at {
        NextTie(s, ps[n - 1], ps[n]);
      }
    }
  }

  /** After a page, whatever is still pending is in the range of the moved cursor, behind its offset. */
  lemma ForwardMoves(start: World, topic: Topic, w: World, w': World, strict: bool, ts: int, last: Position, offset: nat)
    requires Evolves(start, w) && Evolves(w, w') && start.messages.Keys <= start.issued && w.messages.Keys <= w.issued
    requires topic in w'.watermarks ==> w'.watermarks[topic].at <= last.at
    requires last in InRange(w, topic, strict, ts) && offset <= |TiesUpTo(InRange(w, topic, strict, ts), last)|
    requires AfterLast(start, topic, w', last)
    ensures Reachable(start, topic, w', false, ScanPos(last.at, offset))
  {
    var r, r' := InRange(w, topic, strict, ts), InRange(w', topic, false, last.at);
    forall q | q in TiesUpTo(r, last) ensures q in r' {
      assert q.id in w'.messages && SameMessage(w.messages[q.id], w'.messages[q.id]);
    }
    forall j | j in start.messages && start.messages[j].topic == topic && Pending(w', j)
      ensures var p := Position(start.messages[j].at, j); p in r' && offset <= |Ahead(r', p)|
    {
      var p := Position(start.messages[j].at, j);
      EvolvesKeeps(start, w, w', j);
      Fewer(TiesUpTo(r, last), Ahead(r', p));
    }
  }

  ghost predicate AfterLast(start: World, topic: Topic, now: World, last: Position) {
    forall j :: j in start.messages && start.messages[j].topic == topic && Pending(now, j) ==>
      Before(last, Position(start.messages[j].at, j))
  }

  /** What is still pending after a delivered page comes after it. */
  lemma PassedLast(start: World, topic: Topic, now: World, ps: seq<Position>)
    requires ps != [] && Passed(now, ps, |ps|) && OnPageOrAfter(start, topic, now, ps)
    ensures AfterLast(start, topic, now, ps[|ps| - 1])
  {
  }

  lemma EvolvesKeeps(start: World, w: World, w': World, j: Id)
    requires Evolves(start, w) && Evolves(w, w') && start.messages.Keys <= start.issued
    requires j in start.messages && j in w'.messages
    ensures SameMessage(start.messages[j], w'.messages[j])
  {
  }

  // ---------- What a page leaves the candidate at ----------

  /** cand is the page's last row at or before the cutoff, or as it was without one. */
  ghost predicate LastSettled(ps: seq<Position>, cutoff: int, cand0: Option<Position>, cand: Option<Position>) {
    || (cand == cand0 && forall k :: 0 <= k < |ps| ==> cutoff < ps[k].at)
    || exists k :: 0 <= k < |ps| && cand == Some(ps[k]) && ps[k].at <= cutoff && forall j :: k < j < |ps| ==> cutoff < ps[j].at
  }

  lemma SettledNext(ps: seq<Position>, i: nat, cutoff: int, cand0: Option<Position>, cand: Option<Position>)
    requires i < |ps| && LastSettled(ps[..i], cutoff, cand0, cand)
    ensures LastSettled(ps[..i + 1], cutoff, cand0, if ps[i].at <= cutoff then Some(ps[i]) else cand)
  {
    var front, more := ps[..i], ps[..i + 1];
    assert more[i] == ps[i] && forall k :: 0 <= k < i ==> more[k] == front[k];
    if ps[i].at <= cutoff {
      assert Some(more[i]) == Some(ps[i]);
    } else if !(cand == cand0 && forall k :: 0 <= k < i ==> cutoff < front[k].at) {
      var k :| 0 <= k < |front| && cand == Some(front[k]) && front[k].at <= cutoff && forall j :: k < j < |front| ==> cutoff < front[j].at;
      assert cand == Some(more[k]);
    }
  }

  lemma Relied(start: World, w: World, w': World, topic: Topic, limit: nat, calls: seq<Call>, c0: nat)
    requires start.messages.Keys <= start.issued && Inv(w, limit) && Evolves(start, w) && Rely(w, w', topic, limit)
    ensures Evolves(w, w') && Evolves(start, w') && Watermark(w', topic) == Watermark(w, topic)
    ensures Settles(calls, c0, w) ==> Settles(calls, c0, w')
    ensures Untouched(start, topic, w, calls, c0) ==> Untouched(start, topic, w', calls, c0)
    ensures forall id :: Reached(start, topic, w, calls, c0, id) ==> Reached(start, topic, w', calls, c0, id)
  {
    hide Called, Reached, Untouched;
    EvolvesTransitive(start, w, w');
    RelyKeeps(w, w', topic, limit);
    if Untouched(start, topic, w, calls, c0) {
      UntouchedStays(start, topic, w, w', calls, c0);
    }
    forall id | Reached(start, topic, w, calls, c0, id) ensures Reached(start, topic, w', calls, c0, id) {
      ReachedStays(start, topic, w, w', calls, c0, id);
    }
  }

  lemma RelyKeeps(w: World, w': World, topic: Topic, limit: nat)
    requires w.messages.Keys <= w.issued && Rely(w, w', topic, limit)
    ensures Kept(w, w', topic)
  {
  }

  lemma ReadIsFresh(w: World, topic: Topic, limit: nat, query: Query, offset: nat, batch: nat, ps: seq<Position>, rows: seq<Row>)
    requires Inv(w, limit) && ps == Page(Matching(w, topic, query), offset, batch) && |rows| == |ps|
    requires forall k :: 0 <= k < |ps| ==> ps[k].id >= 0 && ps[k].id in w.messages && rows[k] == w.messages[ps[k].id]
    ensures Fresh(w, topic, ps, rows, 0)
  {
    forall k | 0 <= k < |ps| ensures rows[k].topic == topic && rows[k].at == ps[k].at {
      assert ps[k] in ps;
    }
  }

  lemma CalledLater(calls: seq<Call>, c0: nat, saves: seq<Saving>, d0: nat, began: Time, call: Call)
    requires Since(calls, c0, saves, d0, began) && began <= call.clock
    ensures Since(calls + [call], c0, saves, d0, began)
  {
  }

  lemma SaveKeeps(w: World, before: World, w': World, step: Step, topic: Topic, limit: nat)
    requires w.messages.Keys <= w.issued && Rely(w, before, topic, limit) && step.Save? && Enabled(before, step, limit)
    requires w' == Apply(before, step, limit) || w' == before
    ensures Kept(w, w', topic)
  {
  }

  lemma CandidateLeads(stored: Option<Position>, saves: seq<Saving>, d0: nat, w: Option<Position>, cand: Option<Position>, cutoff: int)
    requires Tracks(stored, saves, d0, w, cand, cutoff) && cand.Some?
    ensures stored.Some? ==> stored.value.at <= cand.value.at
  {
  }

  lemma StoredIsBehind(stored: Option<Position>, saves: seq<Saving>, d0: nat, w: Option<Position>, cand: Option<Position>, cutoff: int)
    requires Tracks(stored, saves, d0, w, cand, cutoff)
    ensures stored.Some? ==> cand.Some? && stored.value.at <= cand.value.at
  {
  }

  // ---------- The page budget ----------

  lemma KnownIds(w: World, limit: nat)
    requires Inv(w, limit)
    ensures w.messages.Keys <= w.issued
  {
  }

  lemma FaultStays(turns: seq<Turn>, from: nat, m: nat, n: nat)
    requires m <= n
    ensures Faulted(turns, from, m) ==> Faulted(turns, from, n)
  {
  }

  /** Different messages, all at or before mark. */
  ghost predicate Met(w: World, seen: map<Id, int>, mark: Position) {
    && seen.Keys <= w.issued
    && forall id :: id in seen ==> AtMost(Position(seen[id], id), mark) && (id in w.messages ==> w.messages[id].at == seen[id])
  }

  ghost predicate MetBy(w: World, seen: map<Id, int>, ts: int) {
    && seen.Keys <= w.issued
    && forall id :: id in seen ==> seen[id] <= ts && (id in w.messages ==> w.messages[id].at == seen[id])
  }

  ghost predicate DoneAll(w: World, seen: map<Id, int>) {
    forall id :: id in seen ==> Done(w, id)
  }

  lemma NoneMet(w: World, mark: Position)
    ensures Met(w, map[], mark) && DoneAll(w, map[])
  {
  }

  lemma MetStays(w: World, w': World, seen: map<Id, int>, mark: Position)
    requires Evolves(w, w') && Met(w, seen, mark)
    ensures Met(w', seen, mark) && (DoneAll(w, seen) ==> DoneAll(w', seen))
  {
  }

  lemma KnownMet(w: World, seen: map<Id, int>, mark: Position)
    requires Met(w, seen, mark)
    ensures seen.Keys <= w.issued
  {
  }

  lemma MetIsBy(w: World, seen: map<Id, int>, ts: int, lastID: int)
    requires Met(w, seen, Position(ts, lastID))
    ensures MetBy(w, seen, ts)
  {
  }

  /** A page behind the watermark has a message not met before: those met are done. */
  lemma OneMoreBehind(w: World, topic: Topic, seen: map<Id, int>, mark: Position, batch: nat, ps: seq<Position>)
    returns (seen': map<Id, int>)
    requires w.messages.Keys <= w.issued && Met(w, seen, mark) && DoneAll(w, seen)
    requires ps == Page(Matching(w, topic, Lookbehind(mark)), 0, batch) && ps != []
    ensures Met(w, seen', mark) && |seen'| == |seen| + 1 && ps[0].id >= 0 && seen' == seen[ps[0].id := ps[0].at]
  {
    hide Met, DoneAll, Matching, Positions.Page;
    BehindRow(w, topic, mark, batch, ps);
    seen' := seen[ps[0].id := ps[0].at];
    PendingIsNew(w, seen, ps[0].id);
    OneMoreKey(seen, ps[0].id, ps[0].at);
    MetOneMore(w, seen, mark, ps[0].id);
  }

  lemma BehindRow(w: World, topic: Topic, mark: Position, batch: nat, ps: seq<Position>)
    requires ps == Page(Matching(w, topic, Lookbehind(mark)), 0, batch) && ps != []
    ensures ps[0].id >= 0 && Pending(w, ps[0].id) && w.messages[ps[0].id].at == ps[0].at && AtMost(ps[0], mark)
  {
    assert ps[0] in ps && ps[0] in Matching(w, topic, Lookbehind(mark));
  }

  lemma PendingIsNew(w: World, seen: map<Id, int>, id: Id)
    requires DoneAll(w, seen) && Pending(w, id)
    ensures id !in seen
  {
  }

  lemma MetOneMore(w: World, seen: map<Id, int>, mark: Position, id: Id)
    requires w.messages.Keys <= w.issued && Met(w, seen, mark) && id in w.messages && AtMost(Position(w.messages[id].at, id), mark)
    ensures Met(w, seen[id := w.messages[id].at], mark)
  {
  }

  lemma DoneAfter(w: World, w': World, seen: map<Id, int>, seen': map<Id, int>, ps: seq<Position>)
    requires Evolves(w, w') && DoneAll(w, seen) && seen.Keys <= w.issued && ps != [] && ps[0].id >= 0
    requires seen' == seen[ps[0].id := ps[0].at] && Passed(w', ps, |ps|)
    ensures DoneAll(w', seen')
  {
  }

  /** A row past everything met. */
  lemma OneMorePast(w: World, seen: map<Id, int>, mark: Position, id: Id, next: Position)
    requires w.messages.Keys <= w.issued && Met(w, seen, mark) && id in w.messages
    requires next == Position(w.messages[id].at, id) && Before(mark, next)
    ensures Met(w, seen[id := next.at], next) && |seen[id := next.at]| == |seen| + 1
  {
    assert id !in seen;
    OneMoreKey(seen, id, next.at);
  }

  lemma OneMoreKey(seen: map<Id, int>, id: Id, ts: int)
    requires id !in seen
    ensures |seen[id := ts]| == |seen| + 1
  {
    assert seen[id := ts].Keys == seen.Keys + {id} && |seen[id := ts]| == |seen[id := ts].Keys|;
  }

  /** A page of the boundary group ends with a message not met before. */
  lemma OneMoreTie(w: World, w': World, topic: Topic, seen: map<Id, int>, ts: int, lastID: int, ps: seq<Position>)
    returns (seen': map<Id, int>)
    requires Evolves(w, w') && w.messages.Keys <= w.issued && Met(w, seen, Position(ts, lastID)) && ps != []
    requires forall p :: p in ps ==> p.at == ts && p.id > lastID && p in Scan(w, topic)
    ensures Met(w', seen', Position(ts, ps[|ps| - 1].id)) && |seen'| == |seen| + 1
    ensures ps[|ps| - 1].id >= 0 && seen'.Keys == seen.Keys + {ps[|ps| - 1].id}
  {
    hide Met, Evolves;
    var p := ps[|ps| - 1];
    assert p in ps;
    OneMorePast(w, seen, Position(ts, lastID), p.id, p);
    seen' := seen[p.id := p.at];
    MetStays(w, w', seen', p);
  }

  lemma GroupRows(w: World, topic: Topic, ts: int, lastID: int, batch: nat)
    ensures var ps := Page(Matching(w, topic, Boundary(ts, lastID)), 0, batch);
            |ps| <= batch && forall p :: p in ps ==> p.at == ts && p.id > lastID && p in Scan(w, topic)
  {
  }

  /** A row that is not behind the stored watermark does not disappear. */
  lemma StaysAt(w: World, w': World, topic: Topic, p: Position)
    requires Evolves(w, w') && w.messages.Keys <= w.issued && p in Scan(w, topic)
    requires topic in w'.watermarks ==> w'.watermarks[topic].at <= p.at
    ensures p.id >= 0 && p.id in w'.messages && w'.messages[p.id].topic == topic && w'.messages[p.id].at == p.at
  {
  }

  lemma ClearedBefore(start: World, topic: Topic, w: World, last: Position, p: Position)
    requires ClearedTo(start, topic, w, last) && AtMost(p, last)
    ensures ClearedTo(start, topic, w, p)
  {
  }

  /** The topic's rows at a timestamp up to a row of it. */
  ghost function Front(w: World, topic: Topic, ts: int, last: Position): set<Position> {
    set p | p in Scan(w, topic) && p.at == ts && AtMost(p, last)
  }

  /**
   Different messages in front of the cursor's timestamp, where at least as many
   rows are, up to the last one of the pages so far, as the cursor has counted.
   */
  ghost predicate Crossed(w: World, topic: Topic, seen: map<Id, int>, strict: bool, pos: ScanPos, last: Position) {
    && seen.Keys <= w.issued
    && (forall id :: id in seen ==> (if strict then seen[id] <= pos.ts else seen[id] < pos.ts))
    && (forall id :: id in seen && id in w.messages ==> w.messages[id].at == seen[id])
    && pos.offset <= |Front(w, topic, pos.ts, last)|
  }

  lemma CrossedFirst(w: World, topic: Topic, seen: map<Id, int>, strict: bool, pos: ScanPos, last: Position)
    requires pos.offset == 0 && if strict then MetBy(w, seen, pos.ts) else seen == map[]
    ensures Crossed(w, topic, seen, strict, pos, last)
  {
  }

  lemma StartReachable(start: World, topic: Topic, w: World, strict: bool, pos: ScanPos)
    requires Evolves(start, w) && start.messages.Keys <= start.issued && pos.offset == 0
    requires if strict then ClearedThrough(start, topic, w, pos.ts) else pos.ts == 0
    ensures Reachable(start, topic, w, strict, pos)
  {
    forall j | j in start.messages && start.messages[j].topic == topic && Pending(w, j)
      ensures Position(start.messages[j].at, j) in InRange(w, topic, strict, pos.ts)
    {
      assert SameMessage(start.messages[j], w.messages[j]);
    }
  }

  /** Rows at the cursor's timestamp do not disappear: the stored watermark is not past it. */
  lemma CrossedStays(w: World, w': World, topic: Topic, seen: map<Id, int>, strict: bool, pos: ScanPos, last: Position)
    requires Evolves(w, w') && w.messages.Keys <= w.issued && Crossed(w, topic, seen, strict, pos, last)
    requires topic in w'.watermarks ==> w'.watermarks[topic].at <= pos.ts
    ensures Crossed(w', topic, seen, strict, pos, last)
  {
    forall p | p in Front(w, topic, pos.ts, last) ensures p in Front(w', topic, pos.ts, last) {
      assert p.id in w'.messages && SameMessage(w.messages[p.id], w'.messages[p.id]);
    }
    Fewer(Front(w, topic, pos.ts, last), Front(w', topic, pos.ts, last));
  }

  ghost function IdsOf(ps: set<Position>): set<Id> {
    set p | p in ps && p.id >= 0 :: p.id as Id
  }

  /** A group of rows at one timestamp has as many ids as rows. */
  lemma {:induction false} TieIds(ties: set<Position>, ts: int)
    requires forall p :: p in ties ==> p.at == ts && p.id >= 0
    ensures |IdsOf(ties)| == |ties|
    decreases |ties|
  {
    if ties != {} {
      var p :| p in ties;
      TieIds(ties - {p}, ts);
      assert IdsOf(ties) == IdsOf(ties - {p}) + {p.id};
      assert p.id !in IdsOf(ties - {p});
    } else {
      assert IdsOf(ties) == {};
    }
  }

  /** The messages met, and those of the group at the cursor up to its last row. */
  lemma WithFront(w: World, topic: Topic, seen: map<Id, int>, strict: bool, pos: ScanPos, last: Position) returns (more: map<Id, int>)
    requires w.messages.Keys <= w.issued && Crossed(w, topic, seen, strict, pos, last) && (strict ==> pos.offset == 0)
    ensures MetBy(w, more, pos.ts) && |seen| + pos.offset <= |more|
    ensures forall id :: id in more && id !in seen ==> pos.offset > 0 && FrontRow(w, topic, pos.ts, last, id)
  {
    more := seen;
    if pos.offset > 0 {
      var ids := FrontIds(w, topic, pos.ts, last);
      more := map id | id in seen.Keys + ids :: if id in seen then seen[id] else pos.ts;
      assert seen.Keys !! ids;
      assert more.Keys == seen.Keys + ids;
    }
  }

  ghost predicate FrontRow(w: World, topic: Topic, ts: int, last: Position, id: Id) {
    id in w.messages && w.messages[id].topic == topic && w.messages[id].at == ts && AtMost(Position(ts, id), last)
  }

  lemma FrontIds(w: World, topic: Topic, ts: int, last: Position) returns (ids: set<Id>)
    ensures |ids| == |Front(w, topic, ts, last)|
    ensures forall id :: id in ids ==> FrontRow(w, topic, ts, last, id)
  {
    ids := IdsOf(Front(w, topic, ts, last));
    TieIds(Front(w, topic, ts, last), ts);
  }

  /** A full page takes the cursor on by a row at least: it counts one more, or leaves the whole group behind. */
  lemma CrossedOn(w: World, topic: Topic, seen: map<Id, int>, strict: bool, pos: ScanPos, last0: Position, ps: seq<Position>)
    returns (seen': map<Id, int>)
    requires w.messages.Keys <= w.issued && Crossed(w, topic, seen, strict, pos, last0) && (strict ==> pos.offset == 0)
    requires ps != [] && LeadsTo(w, topic, strict, pos, ps)
    ensures Crossed(w, topic, seen', false, Moved(pos, ps), ps[|ps| - 1])
    ensures |seen| + pos.offset < |seen'| + Moved(pos, ps).offset
    ensures forall id :: id in seen' && id !in seen ==> pos.offset > 0 && FrontRow(w, topic, pos.ts, last0, id)
  {
    var next, last := Moved(pos, ps), ps[|ps| - 1];
    assert last in ps;
    MovedCounts(pos, ps);
    forall q | q in TiesUpTo(InRange(w, topic, strict, pos.ts), last) ensures q in Front(w, topic, next.ts, last) {
    }
    Fewer(TiesUpTo(InRange(w, topic, strict, pos.ts), last), Front(w, topic, next.ts, last));
    if next.ts == pos.ts {
      seen' := seen;
    } else {
      seen' := WithFront(w, topic, seen, strict, pos, last0);
    }
  }

  lemma {:induction false} MovedCounts(pos: ScanPos, ps: seq<Position>)
    requires ps != []
    ensures Moved(pos, ps).offset >= 1
    ensures (forall k :: 0 <= k < |ps| ==> ps[k].at == pos.ts) ==> Moved(pos, ps) == ScanPos(pos.ts, pos.offset + |ps|)
    decreases |ps|
  {
    var front := ps[..|ps| - 1];
    if front != [] {
      MovedCounts(pos, front);
      assert forall k :: 0 <= k < |front| ==> front[k] == ps[k];
    }
  }
}
