/**
 A sweep whose watermark falls behind the one stored before it: the answer of a
 save is lost, and rows committed late push an earlier row of the same timestamp
 behind the OFFSET cursor (jobs/relay.go:341-361, 591-600).
 */
module LostSaves {
  import opened Positions
  import opened Outbox
  import opened Sessions
  import opened Relays

  const T := "t"
  const LIMIT := 3

  /** One topic's rows, all at timestamp 1, those handled, those acknowledged, and the watermark. */
  function Tables(ids: set<Id>, handled: set<Id>, done: set<Id>, mark: Option<Position>): World {
    World(map id | id in ids :: Row(T, "", 1, 0, None, if id in done then Some(2) else None),
          if mark.Some? then map[T := mark.value] else map[], map[], ids, handled, {})
  }

  lemma Commits(ids: set<Id>, handled: set<Id>, done: set<Id>, mark: Option<Position>, id: Id)
    requires id !in ids && id !in done
    ensures StepTo(Tables(ids, handled, done, mark), Tables(ids + {id}, handled, done, mark), LIMIT)
  {
    var w, step := Tables(ids, handled, done, mark), Commit(id, T, "", 1);
    assert Enabled(w, step, LIMIT) && Apply(w, step, LIMIT) == Tables(ids + {id}, handled, done, mark);
  }

  lemma Handles(ids: set<Id>, handled: set<Id>, done: set<Id>, mark: Option<Position>, id: Id)
    requires id in ids && id !in done
    ensures StepTo(Tables(ids, handled, done, mark), Tables(ids, handled + {id}, done, mark), LIMIT)
  {
    var w, step := Tables(ids, handled, done, mark), Handle(T, id);
    assert Enabled(w, step, LIMIT) && Apply(w, step, LIMIT) == Tables(ids, handled + {id}, done, mark);
  }

  lemma Completes(ids: set<Id>, handled: set<Id>, done: set<Id>, mark: Option<Position>, id: Id)
    requires id in ids && id in handled && id !in done
    ensures StepTo(Tables(ids, handled, done, mark), Tables(ids, handled, done + {id}, mark), LIMIT)
  {
    var w, step := Tables(ids, handled, done, mark), Complete(T, id, 2);
    assert Enabled(w, step, LIMIT) && Apply(w, step, LIMIT) == Tables(ids, handled, done + {id}, mark);
  }

  lemma Saves(ids: set<Id>, handled: set<Id>, done: set<Id>, mark: Option<Position>, pos: Position)
    requires mark.Some? ==> mark.value.at <= pos.at
    ensures StepTo(Tables(ids, handled, done, mark), Tables(ids, handled, done, Some(pos)), LIMIT)
  {
    var w, step := Tables(ids, handled, done, mark), Save(T, pos);
    assert Enabled(w, step, LIMIT) && Apply(w, step, LIMIT) == Tables(ids, handled, done, Some(pos));
  }

  lemma InScan(ids: set<Id>, handled: set<Id>, done: set<Id>, mark: Option<Position>, pos: ScanPos)
    requires pos.ts <= 1
    ensures forall p :: p in Matching(Tables(ids, handled, done, mark), T, ScanQuery(pos, false)) <==>
                        p.at == 1 && p.id >= 0 && p.id in ids
  {
    var w := Tables(ids, handled, done, mark);
    forall p: Position | p.at == 1 && p.id >= 0 && p.id in ids ensures p in Matching(w, T, ScanQuery(pos, false)) {
      assert w.messages[p.id].topic == T && w.messages[p.id].at == 1;
    }
  }

  /** The page of one row that the forward scan gets at pos. */
  lemma PageOf(ids: set<Id>, handled: set<Id>, done: set<Id>, mark: Option<Position>, pos: ScanPos, order: seq<Position>)
    requires Increasing(order) && pos.ts <= 1 && pos.offset < |order|
    requires forall p :: p in order <==> p.at == 1 && p.id >= 0 && p.id in ids
    ensures Page(Matching(Tables(ids, handled, done, mark), T, ScanQuery(pos, false)), pos.offset, 1) == [order[pos.offset]]
  {
    var w := Tables(ids, handled, done, mark);
    InScan(ids, handled, done, mark, pos);
    hide Tables, Matching, Ascending;
    OneOrder(Matching(w, T, ScanQuery(pos, false)), order);
  }

  /** A run goes from w to w'. */
  ghost predicate Leads(w: World, w': World) {
    exists ws :: IsTrace(ws, LIMIT) && ws[0] == w && ws[|ws| - 1] == w'
  }

  lemma TwoSteps(a: World, b: World, c: World)
    requires StepTo(a, b, LIMIT) && StepTo(b, c, LIMIT)
    ensures Leads(a, c)
  {
    hide StepTo;
    var ws := [a, b, c];
    assert IsTrace(ws, LIMIT);
  }

  lemma ThreeSteps(a: World, b: World, c: World, d: World)
    requires StepTo(a, b, LIMIT) && StepTo(b, c, LIMIT) && StepTo(c, d, LIMIT)
    ensures Leads(a, d)
  {
    hide StepTo;
    var ws := [a, b, c, d];
    assert IsTrace(ws, LIMIT);
  }

  lemma CommitTwo(ids: set<Id>, done: set<Id>, mark: Option<Position>, i: Id, j: Id)
    requires done <= ids && i !in ids && j !in ids && i != j
    ensures Leads(Tables(ids, done, done, mark), Tables(ids + {i} + {j}, done, done, mark))
  {
    hide StepTo, Tables;
    Commits(ids, done, done, mark, i);
    Commits(ids + {i}, done, done, mark, j);
    TwoSteps(Tables(ids, done, done, mark), Tables(ids + {i}, done, done, mark), Tables(ids + {i} + {j}, done, done, mark));
  }

  /** A delivery, its acknowledgement, and the watermark saved. */
  lemma DeliverAndSave(ids: set<Id>, done: set<Id>, mark: Option<Position>, id: Id)
    requires id in ids && id !in done && (mark.Some? ==> mark.value.at <= 1)
    ensures Leads(Tables(ids, done, done, mark), Tables(ids, done + {id}, done + {id}, Some(Position(1, id))))
  {
    hide StepTo, Tables;
    var more := done + {id};
    Handles(ids, done, done, mark, id);
    Completes(ids, more, done, mark, id);
    Saves(ids, more, more, mark, Position(1, id));
    ThreeSteps(Tables(ids, done, done, mark), Tables(ids, more, done, mark), Tables(ids, more, more, mark),
               Tables(ids, more, more, Some(Position(1, id))));
  }

  const ROWS := {5, 7}
  const MORE := {5, 7, 4, 6}
  const FIRST := Tables(ROWS, {}, {}, None)
  const SECOND := Tables(ROWS, {5}, {5}, Some(Position(1, 5)))
  const LOST := Tables(ROWS, ROWS, ROWS, Some(Position(1, 7)))
  const LATE := Tables(MORE, ROWS, ROWS, Some(Position(1, 7)))
  const LAST := Tables(MORE, ROWS + {6}, ROWS + {6}, Some(Position(1, 6)))

  lemma Steps()
    ensures Leads(EMPTY, FIRST) && Leads(FIRST, SECOND) && Leads(SECOND, LOST) && Leads(LOST, LATE) && Leads(LATE, LAST)
  {
    hide Leads;
    assert Tables({}, {}, {}, None) == EMPTY;
    assert {} + {5} + {7} == ROWS && ROWS + {4} + {6} == MORE && {} + {5} == {5} && {5} + {7} == ROWS;
    CommitTwo({}, {}, None, 5, 7);
    DeliverAndSave(ROWS, {}, None, 5);
    DeliverAndSave(ROWS, {5}, Some(Position(1, 5)), 7);
    CommitTwo(ROWS, ROWS, Some(Position(1, 7)), 4, 6);
    DeliverAndSave(MORE, ROWS, Some(Position(1, 7)), 6);
  }

  /**
   A run, and the sweep in it with pages of one row: rows 5 and 7 are delivered
   and saved, the second save's answer lost; rows 4 and 6 commit; the next page
   is row 6, which is past the in-memory watermark, row 5, and is saved over row 7.
   */
  lemma SavesFallBack()
    ensures Leads(EMPTY, FIRST) && Leads(FIRST, SECOND) && Leads(SECOND, LOST) && Leads(LOST, LATE) && Leads(LATE, LAST)
    ensures Page(Matching(FIRST, T, ScanQuery(ScanPos(0, 0), false)), 0, 1) == [Position(1, 5)]
    ensures Moved(ScanPos(0, 0), [Position(1, 5)]) == ScanPos(1, 1)
    ensures Page(Matching(SECOND, T, ScanQuery(ScanPos(1, 1), false)), 1, 1) == [Position(1, 7)]
    ensures Moved(ScanPos(1, 1), [Position(1, 7)]) == ScanPos(1, 2)
    ensures Page(Matching(LATE, T, ScanQuery(ScanPos(1, 2), false)), 2, 1) == [Position(1, 6)]
    ensures Watermark(SECOND, T) == Some(Position(1, 5)) && !AtMost(Position(1, 6), Position(1, 5))
    ensures Watermark(LATE, T) == Some(Position(1, 7)) && Watermark(LAST, T) == Some(Position(1, 6))
  {
    hide Tables, Leads, ScanQuery, Page, Matching, Moved, Watermark;
    Steps();
    ThePages();
    TheMarks();
    Moves();
  }

  lemma ThePages()
    ensures Page(Matching(FIRST, T, ScanQuery(ScanPos(0, 0), false)), 0, 1) == [Position(1, 5)]
    ensures Page(Matching(SECOND, T, ScanQuery(ScanPos(1, 1), false)), 1, 1) == [Position(1, 7)]
    ensures Page(Matching(LATE, T, ScanQuery(ScanPos(1, 2), false)), 2, 1) == [Position(1, 6)]
  {
    hide Tables, ScanQuery, Page, Matching;
    TwoPages({}, {}, None, ScanPos(0, 0));
    TwoPages({5}, {5}, Some(Position(1, 5)), ScanPos(1, 1));
    LatePage();
  }

  lemma TheMarks()
    ensures Watermark(SECOND, T) == Some(Position(1, 5)) && Watermark(LATE, T) == Some(Position(1, 7))
    ensures Watermark(LAST, T) == Some(Position(1, 6))
  {
    hide Tables, Watermark;
    Mark(ROWS, {5}, {5}, Position(1, 5));
    Mark(MORE, ROWS, ROWS, Position(1, 7));
    Mark(MORE, ROWS + {6}, ROWS + {6}, Position(1, 6));
  }

  const AGAIN := {5, 7, 3, 4}
  const LATER := Tables(AGAIN, ROWS, ROWS, Some(Position(1, 7)))

  /**
   Pages that get through nothing new: 5 and 7 are delivered and saved, 3 and 4
   commit at their timestamp, and the next two pages by OFFSET are 5 and 7 again.
   */
  lemma LateRowsCostPages()
    ensures Leads(EMPTY, FIRST) && Leads(FIRST, SECOND) && Leads(SECOND, LOST) && Leads(LOST, LATER)
    ensures Page(Matching(LATER, T, ScanQuery(ScanPos(1, 2), false)), 2, 1) == [Position(1, 5)]
    ensures Page(Matching(LATER, T, ScanQuery(ScanPos(1, 3), false)), 3, 1) == [Position(1, 7)]
    ensures Done(LATER, 5) && Done(LATER, 7) && Pending(LATER, 3) && Pending(LATER, 4)
  {
    hide Leads, ScanQuery, Page, Matching, Moved;
    Steps();
    assert ROWS + {3} + {4} == AGAIN;
    CommitTwo(ROWS, ROWS, Some(Position(1, 7)), 3, 4);
    PageAgain(2);
    PageAgain(3);
  }

  lemma PageAgain(offset: nat)
    requires offset < 4
    ensures Page(Matching(LATER, T, ScanQuery(ScanPos(1, offset), false)), offset, 1)
            == [[Position(1, 3), Position(1, 4), Position(1, 5), Position(1, 7)][offset]]
  {
    PageOf(AGAIN, ROWS, ROWS, Some(Position(1, 7)), ScanPos(1, offset),
           [Position(1, 3), Position(1, 4), Position(1, 5), Position(1, 7)]);
  }

  lemma TwoPages(handled: set<Id>, done: set<Id>, mark: Option<Position>, pos: ScanPos)
    requires pos.ts <= 1 && pos.offset < 2
    ensures Page(Matching(Tables(ROWS, handled, done, mark), T, ScanQuery(pos, false)), pos.offset, 1)
            == [if pos.offset == 0 then Position(1, 5) else Position(1, 7)]
  {
    PageOf(ROWS, handled, done, mark, pos, [Position(1, 5), Position(1, 7)]);
  }

  lemma LatePage()
    ensures Page(Matching(Tables(MORE, ROWS, ROWS, Some(Position(1, 7))), T, ScanQuery(ScanPos(1, 2), false)), 2, 1) == [Position(1, 6)]
  {
    PageOf(MORE, ROWS, ROWS, Some(Position(1, 7)), ScanPos(1, 2), [Position(1, 4), Position(1, 5), Position(1, 6), Position(1, 7)]);
  }

  lemma Mark(ids: set<Id>, handled: set<Id>, done: set<Id>, mark: Position)
    ensures Watermark(Tables(ids, handled, done, Some(mark)), T) == Some(mark)
  {
  }

  lemma Moves()
    ensures Moved(ScanPos(0, 0), [Position(1, 5)]) == ScanPos(1, 1)
    ensures Moved(ScanPos(1, 1), [Position(1, 7)]) == ScanPos(1, 2)
  {
    assert [Position(1, 5)][..0] == [] && [Position(1, 7)][..0] == [];
  }
}
