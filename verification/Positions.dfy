/**
 Positions in a table scan, and what a SELECT with ORDER BY, LIMIT and OFFSET
 returns over them. The jobs tables order rows by (created_at, id), a cursor
 page by (key, rid): both are a position `at` with a tie-break `id`.
 */
module Positions {

  datatype Position = Position(at: int, id: int)

  /** The strict lexicographic order of positions. */
  predicate Before(a: Position, b: Position) {
    a.at < b.at || (a.at == b.at && a.id < b.id)
  }

  predicate AtMost(a: Position, b: Position) {
    a == b || Before(a, b)
  }

  ghost predicate Increasing(ps: seq<Position>) {
    forall i, j :: 0 <= i < j < |ps| ==> Before(ps[i], ps[j])
  }

  lemma LeastExists(s: set<Position>)
    requires s != {}
    ensures exists p :: p in s && forall q :: q in s ==> AtMost(p, q)
  {
    var p :| p in s;
    if s - {p} != {} {
      LeastExists(s - {p});
      var q :| q in s - {p} && forall r :: r in s - {p} ==> AtMost(q, r);
      var least := if Before(p, q) then p else q;
      forall r | r in s ensures AtMost(least, r) {
        assert r == p || r in s - {p};
      }
    } else {
      assert s == {p};
    }
  }

  function Least(s: set<Position>): (p: Position)
    requires s != {}
    ensures p in s && forall q :: q in s ==> AtMost(p, q)
  {
    LeastExists(s);
    var p :| p in s && forall q :: q in s ==> AtMost(p, q);
    p
  }

  /** The rows a query matches, in its order. */
  function Ascending(s: set<Position>): (ps: seq<Position>)
    ensures |ps| == |s|
    ensures Increasing(ps)
    ensures forall p :: p in ps <==> p in s
    decreases |s|
  {
    if s == {} then
      []
    else
      var p := Least(s);
      [p] + Ascending(s - {p})
  }

  /** There is only one order of a set. */
  lemma {:induction false} OneOrder(s: set<Position>, ps: seq<Position>)
    requires Increasing(ps) && forall p :: p in ps <==> p in s
    ensures Ascending(s) == ps
    decreases |ps|
  {
    if ps == [] {
      assert s == {};
    } else {
      assert ps[0] in ps;
      assert forall p :: p in s ==> p in ps;
      assert Least(s) == ps[0];
      assert forall p :: p in ps[1..] <==> p in s - {ps[0]};
      OneOrder(s - {ps[0]}, ps[1..]);
    }
  }

  /** ORDER BY at, id LIMIT limit OFFSET offset. */
  function Page(s: set<Position>, offset: nat, limit: nat): (ps: seq<Position>)
    ensures |ps| <= limit && Increasing(ps)
    ensures forall i, j :: 0 <= i < j < |ps| ==> ps[i].at < ps[j].at || (ps[i].at == ps[j].at && ps[i].id < ps[j].id)
    ensures forall p :: p in ps ==> p in s
    ensures ps == [] || offset + |ps| <= |s|
    ensures |ps| == limit || |s| <= offset + |ps|
    ensures forall i :: 0 <= i < |ps| ==> ps[i] == Ascending(s)[offset + i]
  {
    var all := Ascending(s);
    if |all| <= offset then
      []
    else if |all| - offset <= limit then
      all[offset..]
    else
      all[offset..offset + limit]
  }

  /** The matching rows a row has in front of it. */
  ghost function Ahead(s: set<Position>, p: Position): set<Position> {
    set q | q in s && Before(q, p)
  }

  lemma {:induction false} ElementsOf(ps: seq<Position>)
    requires Increasing(ps)
    ensures |set p | p in ps| == |ps|
  {
    if ps == [] {
      assert (set p | p in ps) == {};
    } else {
      var n := |ps| - 1;
      ElementsOf(ps[..n]);
      var front := set p | p in ps[..n];
      assert ps[n] !in front;
      assert (set p | p in ps) == front + {ps[n]};
    }
  }

  /** The row at index k of the ordered result has exactly k rows in front of it. */
  lemma {:induction false} IndexIsRank(s: set<Position>, k: nat)
    requires k < |s|
    ensures |Ahead(s, Ascending(s)[k])| == k
  {
    var all := Ascending(s);
    forall p | p in Ahead(s, all[k]) ensures p in all[..k] {
      var i :| 0 <= i < |all| && all[i] == p;
      assert all[..k][i] == p;
    }
    assert forall p :: p in all[..k] ==> p in all;
    assert Ahead(s, all[k]) == set p | p in all[..k];
    ElementsOf(all[..k]);
  }

  /** An index of p among the matching rows. */
  lemma IndexOf(s: set<Position>, p: Position) returns (k: nat)
    requires p in s
    ensures k < |s| && Ascending(s)[k] == p && |Ahead(s, p)| == k
  {
    var all := Ascending(s);
    assert p in all;
    k :| 0 <= k < |all| && all[k] == p;
    IndexIsRank(s, k);
  }

  /**
   What a page leaves out: a matching row with at least `offset` rows in front
   of it is on the page, or the page is full and the row comes after all of it.
   */
  lemma PageSkipsOnlyTheFront(s: set<Position>, offset: nat, limit: nat, p: Position)
    requires p in s && offset <= |Ahead(s, p)|
    ensures var page := Page(s, offset, limit);
            p in page || (|page| == limit && forall q :: q in page ==> Before(q, p))
  {
    var k := IndexOf(s, p);
    var page, all := Page(s, offset, limit), Ascending(s);
    if k < offset + |page| {
      assert page[k - offset] == p;
    } else {
      forall q | q in page ensures Before(q, p) {
        var i :| 0 <= i < |page| && page[i] == q;
        assert all[offset + i] == q;
      }
    }
  }

  /** The first row of a page skipped exactly `offset` rows, all of them in front of it. */
  lemma {:induction false} PageStartsAtOffset(s: set<Position>, offset: nat, limit: nat)
    requires Page(s, offset, limit) != []
    ensures |Ahead(s, Page(s, offset, limit)[0])| == offset
  {
    IndexIsRank(s, offset);
  }
}
