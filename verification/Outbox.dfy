/**
 The jobs tables and every atomic change the battery makes to them: the state
 machine all of Enqueue, the workers, the retention cleanup and the dead-letter
 calls run on. Any number of sessions interleave their steps, and a process may
 stop between any two of its own; a run is a sequence of enabled steps.
 */
module Outbox {
  import opened Positions

  type Topic = string
  type Payload = string
  type Id = nat
  type Time = nat  // 0 is Go's zero time

  datatype Option<+T> = None | Some(value: T)

  /** A row of chok_jobs_messages. */
  datatype Row = Row(topic: Topic, payload: Payload, at: Time, attempts: nat,
                     retryAt: Option<Time>, completedAt: Option<Time>)

  /** Why a message was parked: its last error says it does not decode, or is the handler's. */
  datatype Cause = Undecodable | HandlerFailed

  /** A row of chok_jobs_dead. */
  datatype DeadRow = DeadRow(topic: Topic, payload: Payload, at: Time, attempts: nat, cause: Cause)

  /**
   The three tables, and what happened to the messages: `issued` are the ids
   ever committed, `handled` those a handler returned nil for, `resolved` those
   Requeue or Discard took from the dead letters.
   */
  datatype World = World(messages: map<Id, Row>, watermarks: map<Topic, Position>, dead: map<Id, DeadRow>,
                         issued: set<Id>, handled: set<Id>, resolved: set<Id>)

  const EMPTY := World(map[], map[], map[], {}, {}, {})

  /** A message Requeue enqueues under a new id: which parked one it repeats, and when. */
  datatype Renewal = Renewal(of: Id, at: Time)

  datatype Step =
    | Commit(id: Id, topic: Topic, payload: Payload, at: Time)        // a transaction with an Enqueue commits
    | Handle(worker: Topic, id: Id)                                       // the handler returned nil
    | Complete(worker: Topic, id: Id, now: Time)
    | Fail(worker: Topic, id: Id, n: nat, retryAt: Option<Time>)
    | Park(worker: Topic, id: Id, n: nat, cause: Cause, now: Time)
    | Save(worker: Topic, pos: Position)
    | Delete(ids: set<Id>)                                            // one batch of the cleanup
    | Take(ids: set<Id>, again: map<Id, Renewal>, now: Time)          // Requeue, or Discard with nothing again

  predicate Pending(w: World, id: Id) {
    id in w.messages && w.messages[id].completedAt.None?
  }

  /** The topic is done with the message: acknowledged, or acknowledged and since deleted. */
  predicate Done(w: World, id: Id) {
    !Pending(w, id)
  }

  /** A worker's statement names a row of its own topic. */
  predicate Owns(w: World, worker: Topic, id: Id) {
    id in w.messages ==> w.messages[id].topic == worker
  }

  /** When each step may happen; `limit` is MaxAttempts. */
  predicate Enabled(w: World, step: Step, limit: nat) {
    match step
    case Commit(id, _, _, _) => id !in w.issued
    case Handle(worker, id) => Pending(w, id) && Owns(w, worker, id)
    case Complete(worker, id, _) => id in w.handled && Owns(w, worker, id)
    case Fail(worker, id, n, _) => Pending(w, id) && Owns(w, worker, id) && n == w.messages[id].attempts + 1 < limit
    case Park(worker, id, n, cause, _) =>
      Pending(w, id) && Owns(w, worker, id) && n == w.messages[id].attempts + 1 && (cause.Undecodable? || limit <= n)
    case Save(worker, pos) => worker in w.watermarks ==> w.watermarks[worker].at <= pos.at
    case Delete(ids) => AllDeletable(w, ids)
    case Take(ids, again, _) => Takeable(w, ids, again)
  }

  predicate AllDeletable(w: World, ids: set<Id>) {
    forall id :: id in ids && id in w.messages ==> Deletable(w, w.messages[id])
  }

  /** The ids are all parked, and the new messages repeat each of them under an id of its own, or none. */
  predicate Takeable(w: World, ids: set<Id>, again: map<Id, Renewal>) {
    ids <= w.dead.Keys && again.Keys !! w.issued && (again == map[] || Renews(ids, again))
  }

  /** Every parked message of ids has exactly one new message, and there are no others. */
  predicate Renews(ids: set<Id>, again: map<Id, Renewal>) {
    && (forall n :: n in again ==> again[n].of in ids)
    && (forall d :: d in ids ==> exists n :: n in again && again[n].of == d)
    && (forall m, n :: m in again && n in again && m != n ==> again[m].of != again[n].of)
  }

  /** Retention may delete a row that is acknowledged and behind its own worker's watermark. */
  predicate Deletable(w: World, row: Row) {
    row.completedAt.Some? && row.topic in w.watermarks && row.at < w.watermarks[row.topic].at
  }

  function Acknowledge(row: Row, now: Time): Row {
    row.(completedAt := Some(now))
  }

  /** What each statement or transaction does to the tables. */
  function Apply(w: World, step: Step, limit: nat): World
    requires Enabled(w, step, limit)
  {
    match step
    case Commit(id, topic, payload, at) =>
      w.(messages := w.messages[id := Row(topic, payload, at, 0, None, None)], issued := w.issued + {id})
    case Handle(_, id) =>
      w.(handled := w.handled + {id})
    case Complete(_, id, now) =>
      if Pending(w, id) then w.(messages := w.messages[id := Acknowledge(w.messages[id], now)]) else w
    case Fail(_, id, n, retryAt) =>
      w.(messages := w.messages[id := w.messages[id].(attempts := n, retryAt := retryAt)])
    case Park(_, id, n, cause, now) =>
      var row := w.messages[id];
      var copy := DeadRow(row.topic, row.payload, row.at, n, cause);
      w.(dead := if id in w.dead then w.dead else w.dead[id := copy],
      messages := w.messages[id := Acknowledge(row.(attempts := n, retryAt := None), now)])
    case Save(worker, pos) =>
      w.(watermarks := w.watermarks[worker := pos])
    case Delete(ids) =>
      w.(messages := w.messages - ids)
    case Take(ids, again, now) =>
      w.(messages := Terminal(w, ids, now) + Requeued(w, again), dead := w.dead - ids,
      issued := w.issued + again.Keys, resolved := w.resolved + ids)
  }

  /** The message rows once every pending one of ids has been acknowledged. */
  function Terminal(w: World, ids: set<Id>, now: Time): (rows: map<Id, Row>)
    ensures rows.Keys == w.messages.Keys
    ensures forall id :: id in rows ==>
      rows[id] == if id in ids && w.messages[id].completedAt.None? then Acknowledge(w.messages[id], now) else w.messages[id]
  {
    map id | id in w.messages ::
      if id in ids && w.messages[id].completedAt.None? then Acknowledge(w.messages[id], now) else w.messages[id]
  }

  /** The new messages Requeue enqueues: each parked one's topic and payload, nothing tried yet. */
  function Requeued(w: World, again: map<Id, Renewal>): map<Id, Row>
    requires forall n :: n in again ==> again[n].of in w.dead
  {
    map n | n in again :: Row(w.dead[again[n].of].topic, w.dead[again[n].of].payload, again[n].at, 0, None, None)
  }

  /** No committed message is lost: it is pending, or there is a reason it is not. */
  ghost predicate Accounted(w: World, id: Id) {
    Pending(w, id) || id in w.handled || id in w.dead || id in w.resolved
  }

  ghost predicate Inv(w: World, limit: nat) {
    && 0 < limit
    && w.messages.Keys <= w.issued && w.dead.Keys <= w.issued
    && (forall id :: id in w.issued ==> Accounted(w, id))
    && (forall id :: id in w.dead ==> Done(w, id))
    && (forall id :: Pending(w, id) ==> w.messages[id].attempts < limit)
    && (forall id :: id in w.dead ==>
      0 < w.dead[id].attempts <= limit && (w.dead[id].attempts == limit || w.dead[id].cause.Undecodable?))
  }

  lemma StepKeepsInv(w: World, step: Step, limit: nat)
    requires Inv(w, limit) && Enabled(w, step, limit)
    ensures Inv(Apply(w, step, limit), limit)
  {
    hide Apply, Enabled, Accounted;
    var w' := Apply(w, step, limit);
    StepBounds(w, step, limit);
    forall id | id in w'.issued ensures Accounted(w', id) {
      StepAccounts(w, step, limit, id);
    }
  }

  /** Each step keeps what is known of the rows and of the dead letters. */
  lemma StepBounds(w: World, step: Step, limit: nat)
    requires Inv(w, limit) && Enabled(w, step, limit)
    ensures var w' := Apply(w, step, limit);
            && w'.messages.Keys <= w'.issued && w'.dead.Keys <= w'.issued && (forall id :: id in w'.dead ==> Done(w', id))
            && (forall id :: Pending(w', id) ==> w'.messages[id].attempts < limit)
            && (forall id :: id in w'.dead ==>
                  0 < w'.dead[id].attempts <= limit && (w'.dead[id].attempts == limit || w'.dead[id].cause.Undecodable?))
  {
  }

  /** A message is accounted for after each step: by what it was before, or because it is new. */
  lemma StepAccounts(w: World, step: Step, limit: nat, id: Id)
    requires Inv(w, limit) && Enabled(w, step, limit) && id in Apply(w, step, limit).issued
    ensures Accounted(Apply(w, step, limit), id)
  {
    if id in w.issued {
      assert Accounted(w, id);
    }
  }

  /**
   How the tables may differ between two points of a run: ids are never reused,
   an acknowledged row never changes, a row keeps its identity, a watermark's
   timestamp only advances, and what disappeared lies strictly behind its worker's watermark.
   */
  ghost predicate Evolves(w: World, w': World) {
    && w.issued <= w'.issued && w.handled <= w'.handled && w.resolved <= w'.resolved
    && (forall id :: id in w.issued && id in w'.messages ==>
      && id in w.messages
      && SameMessage(w.messages[id], w'.messages[id])
      && (w.messages[id].completedAt.Some? ==> w'.messages[id] == w.messages[id]))
    && (forall id :: id in w.messages && id !in w'.messages ==>
      var row := w.messages[id]; row.topic in w'.watermarks && row.at < w'.watermarks[row.topic].at)
    && (forall t :: t in w.watermarks ==> t in w'.watermarks && w.watermarks[t].at <= w'.watermarks[t].at)
  }

  predicate SameMessage(a: Row, b: Row) {
    a.topic == b.topic && a.payload == b.payload && a.at == b.at
  }

  lemma EvolvesReflexive(w: World)
    requires w.messages.Keys <= w.issued
    ensures Evolves(w, w)
  {
  }

  lemma EvolvesTransitive(w: World, w': World, w'': World)
    requires w.messages.Keys <= w.issued
    requires Evolves(w, w') && Evolves(w', w'')
    ensures Evolves(w, w'')
  {
  }

  lemma StepEvolves(w: World, step: Step, limit: nat)
    requires Inv(w, limit) && Enabled(w, step, limit)
    ensures Evolves(w, Apply(w, step, limit))
  {
    match step
    case Commit(_, _, _, _) =>
    case Handle(_, _) =>
    case Complete(_, _, _) =>
    case Fail(_, _, _, _) =>
    case Park(_, _, _, _, _) =>
    case Save(_, _) =>
    case Delete(_) =>
    case Take(_, _, _) => TakeEvolves(w, step, limit);
  }

  /** A parked message is acknowledged already: taking it from the dead letters changes no message row. */
  lemma ParkedIsTerminal(w: World, ids: set<Id>, now: Time, limit: nat)
    requires Inv(w, limit) && ids <= w.dead.Keys
    ensures Terminal(w, ids, now) == w.messages
  {
  }

  lemma TakeEvolves(w: World, step: Step, limit: nat)
    requires Inv(w, limit) && Enabled(w, step, limit) && step.Take?
    ensures Evolves(w, Apply(w, step, limit))
  {
    ParkedIsTerminal(w, step.ids, step.now, limit);
    var added := Requeued(w, step.again);
    AddedRowsEvolve(w, Apply(w, step, limit), added);
  }

  lemma AddedRowsEvolve(w: World, w': World, added: map<Id, Row>)
    requires w.messages.Keys <= w.issued && (forall id :: id in added ==> id !in w.issued)
    requires w'.messages == w.messages + added && w'.watermarks == w.watermarks
    requires w.issued <= w'.issued && w.handled <= w'.handled && w.resolved <= w'.resolved
    ensures Evolves(w, w')
  {
  }

  /** An id once issued stays done when it is done: acknowledgements are final. */
  lemma DoneStays(w: World, w': World, id: Id)
    requires Evolves(w, w') && id in w.issued && Done(w, id)
    ensures Done(w', id)
  {
  }

  /** The steps of topic's worker. */
  predicate ByWorker(step: Step, topic: Topic) {
    (step.Handle? || step.Complete? || step.Fail? || step.Park? || step.Save?) && step.worker == topic
  }

  /**
   What topic's worker may rely on while the others move: its rows and its
   watermark stay as they are, except that acknowledged rows may disappear; new
   rows are pending.
   */
  ghost predicate Rely(w: World, w': World, topic: Topic, limit: nat) {
    && Evolves(w, w') && Inv(w', limit)
    && (topic in w.watermarks <==> topic in w'.watermarks)
    && (topic in w.watermarks ==> w'.watermarks[topic] == w.watermarks[topic])
    && (forall id :: id in w.messages && w.messages[id].topic == topic ==>
      if id in w'.messages then w'.messages[id] == w.messages[id] else w.messages[id].completedAt.Some?)
    && NewArePending(w, w', topic)
  }

  ghost predicate NewArePending(w: World, w': World, topic: Topic) {
    forall id :: id in w'.messages && w'.messages[id].topic == topic && id !in w.messages ==> w'.messages[id].completedAt.None?
  }

  lemma RelyTransitive(w: World, w': World, w'': World, topic: Topic, limit: nat)
    requires Inv(w, limit) && Rely(w, w', topic, limit) && Rely(w', w'', topic, limit)
    ensures Rely(w, w'', topic, limit)
  {
  }

  lemma OthersKeepRows(w: World, step: Step, topic: Topic, limit: nat)
    requires Inv(w, limit) && Enabled(w, step, limit) && !ByWorker(step, topic)
    ensures Rely(w, Apply(w, step, limit), topic, limit)
  {
    StepKeepsInv(w, step, limit);
    StepEvolves(w, step, limit);
  }

  // ---------- Runs ----------

  ghost predicate StepTo(w: World, w': World, limit: nat) {
    exists step :: Enabled(w, step, limit) && w' == Apply(w, step, limit)
  }

  /** The states of a run: each follows from the one before by an enabled step of some session. */
  ghost predicate IsTrace(ws: seq<World>, limit: nat) {
    ws != [] && forall i {:trigger StepTo(ws[i], ws[i + 1], limit)} :: 0 <= i < |ws| - 1 ==> StepTo(ws[i], ws[i + 1], limit)
  }

  lemma {:induction false} TraceEvolves(ws: seq<World>, limit: nat, i: nat, j: nat)
    requires IsTrace(ws, limit) && i <= j < |ws| && Inv(ws[i], limit)
    ensures Evolves(ws[i], ws[j]) && Inv(ws[j], limit)
    decreases j
  {
    if i < j {
      TraceEvolves(ws, limit, i, j - 1);
      var a, b, c := ws[i], ws[j - 1], ws[j];
      assert StepTo(b, c, limit) by {
        var k := j - 1;
        assert StepTo(ws[k], ws[k + 1], limit);
      }
      StepAfter(a, b, c, limit);
    } else {
      EvolvesReflexive(ws[i]);
    }
  }

  lemma StepAfter(start: World, w: World, w': World, limit: nat)
    requires Inv(start, limit) && Evolves(start, w) && Inv(w, limit) && StepTo(w, w', limit)
    ensures Evolves(start, w') && Inv(w', limit)
  {
    var step :| Enabled(w, step, limit) && w' == Apply(w, step, limit);
    StepKeepsInv(w, step, limit);
    StepEvolves(w, step, limit);
    EvolvesTransitive(start, w, w');
  }

  /**
   Over every run from empty tables — commits with arbitrary timestamps, workers,
   crashes, cleanups, requeues and discards in any order — a message committed
   by the i-th state is at every later one pending in the table or accounted
   for: its handler returned nil, it is parked, or Requeue or Discard took it.
   */
  lemma {:induction false} NothingIsLost(ws: seq<World>, limit: nat, i: nat, j: nat, id: Id)
    requires IsTrace(ws, limit) && ws[0] == EMPTY && 0 < limit
    requires i <= j < |ws| && id in ws[i].issued
    ensures Accounted(ws[j], id)
  {
    TraceEvolves(ws, limit, 0, i);
    TraceEvolves(ws, limit, i, j);
  }

  // ---------- What becomes of a message's content ----------

  /** The dead letter repeats the message: its topic, its payload, and when it was committed. */
  predicate Repeats(copy: DeadRow, row: Row) {
    copy.topic == row.topic && copy.payload == row.payload && copy.at == row.at
  }

  /** A dead letter is parked once, with what its message's row says then, and stays as it is until it is taken. */
  lemma StepParks(w: World, step: Step, limit: nat, id: Id)
    requires Inv(w, limit) && Enabled(w, step, limit) && id in Apply(w, step, limit).dead
    ensures var copy := Apply(w, step, limit).dead[id];
            if id in w.dead then copy == w.dead[id] else id in w.messages && Repeats(copy, w.messages[id])
  {
  }

  /** A new row is the message a transaction committed, or renews a parked one: its topic and payload, nothing tried yet. */
  lemma StepAdds(w: World, step: Step, limit: nat, id: Id)
    requires Inv(w, limit) && Enabled(w, step, limit) && id in Apply(w, step, limit).messages && id !in w.messages
    ensures var row := Apply(w, step, limit).messages[id];
            && id !in w.issued && row.attempts == 0 && row.retryAt.None? && row.completedAt.None?
            && match step
               case Commit(added, topic, payload, at) =>
                 added == id && row.topic == topic && row.payload == payload && row.at == at
               case Take(ids, again, _) =>
                 && id in again && again[id].of in ids && again[id].of in w.dead && row.at == again[id].at
                 && row.topic == w.dead[again[id].of].topic && row.payload == w.dead[again[id].of].payload
               case _ => false
  {
  }

  /** A step of the run between its i-th state and the next. */
  ghost predicate IsStep(ws: seq<World>, i: nat, step: Step, limit: nat) {
    i + 1 < |ws| && Enabled(ws[i], step, limit) && ws[i + 1] == Apply(ws[i], step, limit)
  }

  lemma SomeStep(ws: seq<World>, limit: nat, i: nat) returns (step: Step)
    requires IsTrace(ws, limit) && ws[0] == EMPTY && 0 < limit && i + 1 < |ws|
    ensures IsStep(ws, i, step, limit) && Inv(ws[i], limit)
  {
    TraceEvolves(ws, limit, 0, i);
    assert StepTo(ws[i], ws[i + 1], limit);
    step :| Enabled(ws[i], step, limit) && ws[i + 1] == Apply(ws[i], step, limit);
  }

  /** Every row was new once. */
  lemma {:induction false} RowWasNew(ws: seq<World>, limit: nat, j: nat, id: Id) returns (i: nat)
    requires IsTrace(ws, limit) && ws[0] == EMPTY && 0 < limit && j < |ws| && id in ws[j].messages
    ensures i < j && id !in ws[i].messages && id in ws[i + 1].messages && SameMessage(ws[i + 1].messages[id], ws[j].messages[id])
    decreases j
  {
    hide Apply, Enabled;
    if id in ws[j - 1].messages {
      i := RowWasNew(ws, limit, j - 1, id);
    } else {
      i := j - 1;
    }
    TraceEvolves(ws, limit, 0, i + 1);
    TraceEvolves(ws, limit, i + 1, j);
  }

  /** Every dead letter repeats its message's row of an earlier state. */
  lemma {:induction false} DeadWasRow(ws: seq<World>, limit: nat, j: nat, id: Id) returns (i: nat)
    requires IsTrace(ws, limit) && ws[0] == EMPTY && 0 < limit && j < |ws| && id in ws[j].dead
    ensures i < j && id in ws[i].messages && Repeats(ws[j].dead[id], ws[i].messages[id])
    decreases j
  {
    hide Apply, Enabled;
    var step := SomeStep(ws, limit, j - 1);
    StepParks(ws[j - 1], step, limit, id);
    if id in ws[j - 1].dead {
      i := DeadWasRow(ws, limit, j - 1, id);
    } else {
      i := j - 1;
    }
  }

  /** A dead letter has the topic, the payload and the time of its message, in whichever states the two are read. */
  lemma {:induction false} DeadLettersRepeat(ws: seq<World>, limit: nat, i: nat, j: nat, id: Id)
    requires IsTrace(ws, limit) && ws[0] == EMPTY && 0 < limit && i < |ws| && j < |ws|
    requires id in ws[i].messages && id in ws[j].dead
    ensures Repeats(ws[j].dead[id], ws[i].messages[id])
  {
    hide Apply, Enabled;
    var k := DeadWasRow(ws, limit, j, id);
    var a, b := if i <= k then i else k, if i <= k then k else i;
    TraceEvolves(ws, limit, 0, a);
    TraceEvolves(ws, limit, a, b);
  }

  /** The message, or its dead letter, is in the state with this topic and payload. */
  ghost predicate Holds(w: World, id: Id, topic: Topic, payload: Payload) {
    || (id in w.messages && w.messages[id].topic == topic && w.messages[id].payload == payload)
    || (id in w.dead && w.dead[id].topic == topic && w.dead[id].payload == payload)
  }

  /** A transaction with an Enqueue of this topic and payload committed before the j-th state. */
  ghost predicate WasCommitted(ws: seq<World>, limit: nat, j: nat, topic: Topic, payload: Payload) {
    exists i: nat, id: Id, at: Time :: i < j && IsStep(ws, i, Commit(id, topic, payload, at), limit)
  }

  /**
   However often a message is parked and requeued, its topic and its payload are
   those some transaction committed: no row and no dead letter of any run has
   content that was not enqueued.
   */
  lemma {:induction false} ContentWasCommitted(ws: seq<World>, limit: nat, j: nat, id: Id, topic: Topic, payload: Payload)
    requires IsTrace(ws, limit) && ws[0] == EMPTY && 0 < limit && j < |ws| && Holds(ws[j], id, topic, payload)
    ensures WasCommitted(ws, limit, j, topic, payload)
    decreases j
  {
    hide Apply, Enabled, Inv, IsTrace;
    if id in ws[j].dead && ws[j].dead[id].topic == topic && ws[j].dead[id].payload == payload {
      var k := DeadWasRow(ws, limit, j, id);
      ContentWasCommitted(ws, limit, k, id, topic, payload);
    } else {
      var i := RowWasNew(ws, limit, j, id);
      var step := SomeStep(ws, limit, i);
      StepAdds(ws[i], step, limit, id);
      match step
      case Commit(_, _, _, at) => assert IsStep(ws, i, Commit(id, topic, payload, at), limit);
      case Take(_, again, _) => ContentWasCommitted(ws, limit, i, again[id].of, topic, payload);
    }
  }

  /**
   A row that disappeared had been acknowledged for one of the three reasons,
   and lay strictly behind its worker's watermark.
   */
  lemma {:induction false} OnlyAcknowledgedRowsLeave(ws: seq<World>, limit: nat, i: nat, j: nat, id: Id)
    requires IsTrace(ws, limit) && ws[0] == EMPTY && 0 < limit
    requires i <= j < |ws| && id in ws[i].messages && id !in ws[j].messages
    ensures id in ws[j].handled || id in ws[j].dead || id in ws[j].resolved
    ensures var row := ws[i].messages[id]; row.topic in ws[j].watermarks && row.at < ws[j].watermarks[row.topic].at
  {
    TraceEvolves(ws, limit, 0, i);
    TraceEvolves(ws, limit, i, j);
    assert Accounted(ws[j], id);
  }

  /**
   A pending row has failed fewer than MaxAttempts times, and a message is parked
   at its MaxAttempts-th recorded failure exactly, unless it does not decode.
   */
  lemma {:induction false} AttemptsAreBounded(ws: seq<World>, limit: nat, j: nat, id: Id)
    requires IsTrace(ws, limit) && ws[0] == EMPTY && 0 < limit && j < |ws|
    ensures Pending(ws[j], id) ==> ws[j].messages[id].attempts < limit && id !in ws[j].dead
    ensures id in ws[j].dead ==> ws[j].dead[id].attempts <= limit
    ensures id in ws[j].dead && ws[j].dead[id].cause.HandlerFailed? ==> ws[j].dead[id].attempts == limit
  {
    TraceEvolves(ws, limit, 0, j);
  }

  /** Other sessions' steps, one after the other; one that is not enabled does not happen. */
  function Run(w: World, steps: seq<Step>, limit: nat): World
    decreases |steps|
  {
    if steps == [] then
      w
    else
      var before := Run(w, steps[..|steps| - 1], limit);
      var step := steps[|steps| - 1];
      if Enabled(before, step, limit) then Apply(before, step, limit) else before
  }

  lemma TraceExtends(ws: seq<World>, w: World, step: Step, limit: nat)
    requires IsTrace(ws, limit) && ws[|ws| - 1] == w && Enabled(w, step, limit)
    ensures IsTrace(ws + [Apply(w, step, limit)], limit)
  {
  }

  /** Whatever the others do continues the run and evolves the tables. */
  lemma {:induction false} RunContinues(ws: seq<World>, w: World, steps: seq<Step>, limit: nat) returns (ws': seq<World>)
    requires IsTrace(ws, limit) && ws[|ws| - 1] == w && Inv(w, limit)
    ensures IsTrace(ws', limit) && ws <= ws' && ws'[|ws'| - 1] == Run(w, steps, limit)
    ensures Evolves(w, Run(w, steps, limit)) && Inv(Run(w, steps, limit), limit)
    decreases |steps|
  {
    ws' := ws;
    if steps != [] {
      var front, step := steps[..|steps| - 1], steps[|steps| - 1];
      ws' := RunContinues(ws, w, front, limit);
      var before := Run(w, front, limit);
      if Enabled(before, step, limit) {
        StepKeepsInv(before, step, limit);
        StepEvolves(before, step, limit);
        EvolvesTransitive(w, before, Apply(before, step, limit));
        TraceExtends(ws', before, step, limit);
        ws' := ws' + [Apply(before, step, limit)];
      }
    }
  }

  /** The steps that are not of topic's worker. */
  function Foreign(steps: seq<Step>, topic: Topic): (r: seq<Step>)
    ensures forall i :: 0 <= i < |r| ==> !ByWorker(r[i], topic)
  {
    if steps == [] then
      []
    else
      var n := |steps| - 1;
      Foreign(steps[..n], topic) + if ByWorker(steps[n], topic) then [] else [steps[n]]
  }

  lemma {:induction false} ForeignRely(w: World, steps: seq<Step>, topic: Topic, limit: nat)
    requires Inv(w, limit) && forall i :: 0 <= i < |steps| ==> !ByWorker(steps[i], topic)
    ensures Rely(w, Run(w, steps, limit), topic, limit)
    decreases |steps|
  {
    if steps != [] {
      var front, step := steps[..|steps| - 1], steps[|steps| - 1];
      var before := Run(w, front, limit);
      ForeignRely(w, front, topic, limit);
      if Enabled(before, step, limit) {
        OthersKeepRows(before, step, topic, limit);
        RelyTransitive(w, before, Apply(before, step, limit), topic, limit);
      }
    }
  }

  /** The positions of a topic's rows in the table. */
  function Scan(w: World, topic: Topic): (s: set<Position>)
    ensures forall p :: p in s ==>
      0 <= p.id && p.id in w.messages && w.messages[p.id].topic == topic && w.messages[p.id].at == p.at
    ensures forall id :: id in w.messages && w.messages[id].topic == topic ==> Position(w.messages[id].at, id) in s
  {
    set id | id in w.messages && w.messages[id].topic == topic :: Position(w.messages[id].at, id)
  }
}
