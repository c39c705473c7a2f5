/** Keyset pages: keyset in store/read.go, and what following their cursors returns. */
module Keysets {
  import opened Positions
  import opened Cursors

  datatype OrderBy = OrderBy(field: string, desc: bool)

  /** The request: the options of where.Config a cursor page looks at. */
  datatype Config = Config(pageNumber: nat, offset: nat, limit: nat, orders: seq<OrderBy>,
                           cursor: string, cursorSize: nat, fromQuery: bool)

  /** The table as the store's scopes and the filters show it: the order field's value by RID. */
  type Table = map<string, Value>

  /**
   The store: its cursor codec, how the database orders values and RIDs, what
   kind of value each field writes, and its page sizes.
   */
  datatype Store = Store(codec: Codec, key: Value -> int, rank: string -> int, specs: map<string, Spec>,
                         defaultSize: nat, maxSize: nat)

  datatype Answer = Page(rows: seq<string>, size: nat, hasMore: bool, cursor: string) | Refused | Broken

  const ID := "id"

  /** RIDs are ordered, no two alike; pages hold at least a row. */
  ghost predicate Sound(s: Store) {
    && Faithful(s.codec) && (forall a, b :: s.rank(a) == s.rank(b) ==> a == b)
    && 0 < s.defaultSize && 0 < s.maxSize
  }

  /** The field and direction of a cursor page: the one order given, or the ID. */
  function Order(cfg: Config): (order: OrderBy)
    ensures cfg.orders == [] ==> order.field == "id" && !order.desc
  {
    if cfg.orders == [] then OrderBy(ID, false) else cfg.orders[0]
  }

  /** Where ORDER BY key, rid puts a row; a descending order is the ascending one mirrored. */
  function Place(s: Store, order: OrderBy, rid: string, value: Value): Position {
    var key, rank := if order.field == ID then 0 else s.key(value), s.rank(rid);
    if order.desc then Position(-key, -rank) else Position(key, rank)
  }

  /**
   Row a comes strictly before row b: its value and then its RID are smaller, or
   greater in a descending order; under the ID the RID alone counts.
   */
  ghost predicate Precedes(s: Store, order: OrderBy, a: string, va: Value, b: string, vb: Value) {
    var tied := order.field == "id" || s.key(va) == s.key(vb);
    if order.desc then (!tied && s.key(vb) < s.key(va)) || (tied && s.rank(b) < s.rank(a))
    else (!tied && s.key(va) < s.key(vb)) || (tied && s.rank(a) < s.rank(b))
  }

  lemma PlacesTell(s: Store, order: OrderBy, a: string, va: Value, b: string, vb: Value)
    ensures Before(Place(s, order, a, va), Place(s, order, b, vb)) <==> Precedes(s, order, a, va, b, vb)
  {
  }

  function Places(s: Store, order: OrderBy, table: Table): set<Position> {
    set rid | rid in table :: Place(s, order, rid, table[rid])
  }

  /** What a page continues behind: nothing, or a boundary. */
  datatype Bound = Start | After(at: Position)

  predicate IsBehind(bound: Bound, p: Position) {
    bound.After? ==> Before(bound.at, p)
  }

  /** The rows behind a boundary. */
  function Behind(ps: set<Position>, bound: Bound): set<Position> {
    set p | p in ps && IsBehind(bound, p)
  }

  /** The value a cursor carries for a row. */
  function BoundaryValue(order: OrderBy, rid: string, value: Value): Value {
    if order.field == ID then Str(rid) else value
  }

  /** The boundary a cursor names under an order. */
  function Named(s: Store, order: OrderBy, cursor: string): Result<Bound>
    requires order.field in s.specs
  {
    if cursor == "" then Ok(Start)
    else
      match DecodeCursor(s.codec, cursor, order.field, order.desc, s.specs[order.field])
      case Err(e) => Err(e)
      case Ok((value, rid)) => Ok(After(Place(s, order, rid, value)))
  }

  function BoundOf(s: Store, cfg: Config): Result<Bound>
    requires Order(cfg).field in s.specs
  {
    Named(s, Order(cfg), cfg.cursor)
  }

  predicate Acceptable(s: Store, cfg: Config) {
    && cfg.pageNumber == 0 && cfg.offset == 0 && cfg.limit == 0 && |cfg.orders| <= 1
    && Order(cfg).field in s.specs && BoundOf(s, cfg).Ok?
  }

  /** The size a page takes: the one asked for, else the default, and no more than the maximum when a query string asks. */
  function SizeOf(s: Store, cfg: Config): (size: nat)
    ensures cfg.fromQuery ==> size <= s.maxSize
    ensures !cfg.fromQuery || size < s.maxSize ==> size == if cfg.cursorSize == 0 then s.defaultSize else cfg.cursorSize
  {
    var size := if cfg.cursorSize == 0 then s.defaultSize else cfg.cursorSize;
    if cfg.fromQuery && s.maxSize < size then s.maxSize else size
  }

  function At(s: Store, order: OrderBy, table: Table, rid: string): Position
    requires rid in table
  {
    Place(s, order, rid, table[rid])
  }

  ghost predicate InOrder(s: Store, order: OrderBy, table: Table, rows: seq<string>) {
    && (forall k :: 0 <= k < |rows| ==> rows[k] in table)
    && (forall i, j :: 0 <= i < j < |rows| ==> Before(At(s, order, table, rows[i]), At(s, order, table, rows[j])))
  }

  /** A row behind the bound that is not among rows. */
  ghost predicate LeftOut(s: Store, order: OrderBy, table: Table, bound: Bound, rows: seq<string>, rid: string) {
    rid in table && IsBehind(bound, At(s, order, table, rid)) && rid !in rows
  }

  /** rows are the first `size` rows of table behind the bound, in order; more says that others follow. */
  ghost predicate IsPage(s: Store, order: OrderBy, table: Table, bound: Bound, size: nat, rows: seq<string>, more: bool) {
    && |rows| <= size && InOrder(s, order, table, rows) && (more ==> |rows| == size)
    && (forall k :: 0 <= k < |rows| ==> IsBehind(bound, At(s, order, table, rows[k])))
    && (forall rid :: LeftOut(s, order, table, bound, rows, rid) ==> more && InOrder(s, order, table, rows + [rid]))
    && (more ==> exists rid :: LeftOut(s, order, table, bound, rows, rid))
  }

  /** A page's answer: its rows, and a cursor that names the last of them exactly when rows follow. */
  ghost predicate Answers(s: Store, cfg: Config, table: Table, a: Answer) {
    a.Page? ==>
      && Acceptable(s, cfg) && a.size == SizeOf(s, cfg)
      && IsPage(s, Order(cfg), table, BoundOf(s, cfg).value, a.size, a.rows, a.hasMore)
      && (a.hasMore <==> a.cursor != "")
      && (a.hasMore ==>
            && a.rows != []
            && Named(s, Order(cfg), a.cursor) == Ok(After(At(s, Order(cfg), table, a.rows[|a.rows| - 1]))))
  }

  /** The row is strictly past the one the cursor names, which carries that row's value and RID. */
  ghost predicate IsPast(s: Store, order: OrderBy, cursor: string, table: Table, rid: string)
    requires order.field in s.specs
  {
    && rid in table
    && (cursor == "" ||
        match DecodeCursor(s.codec, cursor, order.field, order.desc, s.specs[order.field])
        case Err(_) => false
        case Ok((value, after)) => Precedes(s, order, after, value, rid, table[rid]))
  }

  /** Each row is of the table, past the cursor, and before the next; a row past the cursor that is not there is past them all. */
  ghost predicate InTurn(s: Store, cfg: Config, table: Table, a: Answer)
    requires a.Page? && Order(cfg).field in s.specs
  {
    && (forall k :: 0 <= k < |a.rows| ==> a.rows[k] in table && IsPast(s, Order(cfg), cfg.cursor, table, a.rows[k]))
    && (forall i, j :: 0 <= i < j < |a.rows| ==>
          Precedes(s, Order(cfg), a.rows[i], table[a.rows[i]], a.rows[j], table[a.rows[j]]))
    && (forall rid, k :: IsPast(s, Order(cfg), cfg.cursor, table, rid) && rid !in a.rows && 0 <= k < |a.rows| ==>
          Precedes(s, Order(cfg), a.rows[k], table[a.rows[k]], rid, table[rid]))
    && (a.hasMore <==> exists rid :: IsPast(s, Order(cfg), cfg.cursor, table, rid) && rid !in a.rows)
  }

  lemma PastIsBehind(s: Store, cfg: Config, table: Table, rid: string)
    requires Order(cfg).field in s.specs && BoundOf(s, cfg).Ok? && rid in table
    ensures IsPast(s, Order(cfg), cfg.cursor, table, rid) <==> IsBehind(BoundOf(s, cfg).value, At(s, Order(cfg), table, rid))
  {
    hide Place, Precedes, DecodeCursor;
    var order := Order(cfg);
    if cfg.cursor != "" {
      var (value, after) := DecodeCursor(s.codec, cfg.cursor, order.field, order.desc, s.specs[order.field]).value;
      PlacesTell(s, order, after, value, rid, table[rid]);
    }
  }

  /** A page's answer in the values and RIDs of its rows. */
  lemma PageIsInTurn(s: Store, cfg: Config, table: Table, a: Answer)
    requires a.Page? && Answers(s, cfg, table, a)
    ensures InTurn(s, cfg, table, a)
  {
    hide Place, Precedes, Before, IsPast, IsBehind, BoundOf;
    var order := Order(cfg);
    forall rid | rid in table
      ensures IsPast(s, order, cfg.cursor, table, rid) <==> IsBehind(BoundOf(s, cfg).value, At(s, order, table, rid))
    {
      PastIsBehind(s, cfg, table, rid);
    }
    forall i, j | 0 <= i < j < |a.rows| ensures Precedes(s, order, a.rows[i], table[a.rows[i]], a.rows[j], table[a.rows[j]]) {
      PlacesTell(s, order, a.rows[i], table[a.rows[i]], a.rows[j], table[a.rows[j]]);
    }
    forall rid | IsPast(s, order, cfg.cursor, table, rid) && rid !in a.rows
      ensures rid in table && forall k :: 0 <= k < |a.rows| ==> Precedes(s, order, a.rows[k], table[a.rows[k]], rid, table[rid])
    {
      PastIsInTable(s, order, cfg.cursor, table, rid);
      forall k | 0 <= k < |a.rows| ensures Precedes(s, order, a.rows[k], table[a.rows[k]], rid, table[rid]) {
        RestIsLater(s, cfg, table, a, rid, k);
      }
    }
    SomeAreLeft(s, cfg, table, a);
  }

  lemma PastIsInTable(s: Store, order: OrderBy, cursor: string, table: Table, rid: string)
    requires order.field in s.specs
    ensures IsPast(s, order, cursor, table, rid) ==> rid in table
  {
  }

  lemma SomeAreLeft(s: Store, cfg: Config, table: Table, a: Answer)
    requires a.Page? && Answers(s, cfg, table, a)
    requires forall rid :: rid in table ==>
      (IsPast(s, Order(cfg), cfg.cursor, table, rid) <==> IsBehind(BoundOf(s, cfg).value, At(s, Order(cfg), table, rid)))
    ensures a.hasMore <==> exists rid :: IsPast(s, Order(cfg), cfg.cursor, table, rid) && rid !in a.rows
  {
    hide Place, Precedes, IsPast, IsBehind, BoundOf, InOrder;
    var order, bound := Order(cfg), BoundOf(s, cfg).value;
    if a.hasMore {
      var rid :| LeftOut(s, order, table, bound, a.rows, rid);
      assert IsPast(s, order, cfg.cursor, table, rid);
    }
    if rid :| IsPast(s, order, cfg.cursor, table, rid) && rid !in a.rows {
      PastIsInTable(s, order, cfg.cursor, table, rid);
      assert LeftOut(s, order, table, bound, a.rows, rid);
    }
  }

  lemma RestIsLater(s: Store, cfg: Config, table: Table, a: Answer, rid: string, k: nat)
    requires a.Page? && Answers(s, cfg, table, a) && k < |a.rows|
    requires rid in table && IsBehind(BoundOf(s, cfg).value, At(s, Order(cfg), table, rid)) && rid !in a.rows
    ensures a.rows[k] in table && Precedes(s, Order(cfg), a.rows[k], table[a.rows[k]], rid, table[rid])
  {
    hide Place, Precedes, IsBehind, BoundOf;
    var order, all := Order(cfg), a.rows + [rid];
    assert LeftOut(s, order, table, BoundOf(s, cfg).value, a.rows, rid);
    assert InOrder(s, order, table, all);
    assert all[k] == a.rows[k] && all[|a.rows|] == rid;
    PlacesTell(s, order, a.rows[k], table[a.rows[k]], rid, table[rid]);
  }

  /** No cursor can be issued after this row. */
  predicate CannotCarry(s: Store, order: OrderBy, rid: string, value: Value) {
    order.field in s.specs
    && EncodeCursor(s.codec, BoundaryValue(order, rid, value), rid, order.field, order.desc, s.specs[order.field]).Err?
  }

  /** The page's rows, when others follow and no cursor can be issued after the last of them. */
  ghost predicate EndsUncarried(s: Store, cfg: Config, table: Table, rows: seq<string>)
    requires Acceptable(s, cfg)
  {
    && IsPage(s, Order(cfg), table, BoundOf(s, cfg).value, SizeOf(s, cfg), rows, true) && rows != []
    && rows[|rows| - 1] in table && CannotCarry(s, Order(cfg), rows[|rows| - 1], table[rows[|rows| - 1]])
  }

  /** There is only one page of a size behind a bound. */
  lemma PageIsUnique(s: Store, order: OrderBy, table: Table, bound: Bound, size: nat, a: seq<string>, m: bool, b: seq<string>, n: bool)
    requires IsPage(s, order, table, bound, size, a, m) && IsPage(s, order, table, bound, size, b, n)
    ensures a == b && m == n
  {
    hide Place;
    Agrees(s, order, table, bound, size, a, m, b, n, if |a| < |b| then |a| else |b|);
    if |a| <= |b| {
      NoLonger(s, order, table, bound, size, a, m, b, n);
    } else {
      NoLonger(s, order, table, bound, size, b, n, a, m);
    }
  }

  lemma {:induction false} Agrees(s: Store, order: OrderBy, table: Table, bound: Bound, size: nat,
                                  a: seq<string>, m: bool, b: seq<string>, n: bool, k: nat)
    requires IsPage(s, order, table, bound, size, a, m) && IsPage(s, order, table, bound, size, b, n)
    requires k <= |a| && k <= |b|
    ensures a[..k] == b[..k]
    decreases k
  {
    hide Place;
    if k > 0 {
      var i := k - 1;
      Agrees(s, order, table, bound, size, a, m, b, n, i);
      if a[i] != b[i] {
        NoneBetween(s, order, table, bound, size, a, m, b, n, i);
        NoneBetween(s, order, table, bound, size, b, n, a, m, i);
      }
      assert a[..k] == a[..i] + [a[i]] && b[..k] == b[..i] + [b[i]];
    }
  }

  /** Where two pages first differ, the second one's row does not come first. */
  lemma NoneBetween(s: Store, order: OrderBy, table: Table, bound: Bound, size: nat,
                    a: seq<string>, m: bool, b: seq<string>, n: bool, i: nat)
    requires IsPage(s, order, table, bound, size, a, m) && IsPage(s, order, table, bound, size, b, n)
    requires i < |a| && i < |b| && a[..i] == b[..i] && a[i] != b[i]
    ensures Before(At(s, order, table, a[i]), At(s, order, table, b[i]))
  {
    hide Place;
    forall j | 0 <= j < i ensures a[j] == b[j] {
      assert a[..i][j] == b[..i][j];
    }
    if b[i] !in a {
      assert LeftOut(s, order, table, bound, a, b[i]);
      assert InOrder(s, order, table, a + [b[i]]);
      assert (a + [b[i]])[i] == a[i] && (a + [b[i]])[|a|] == b[i];
    }
  }

  lemma NoLonger(s: Store, order: OrderBy, table: Table, bound: Bound, size: nat, a: seq<string>, m: bool, b: seq<string>, n: bool)
    requires IsPage(s, order, table, bound, size, a, m) && IsPage(s, order, table, bound, size, b, n)
    requires |a| <= |b| && a == b[..|a|]
    ensures |a| == |b|
  {
    hide Place;
    forall j | 0 <= j < |a| ensures a[j] == b[j] {
      assert a[j] == b[..|a|][j];
    }
    assert |a| < |b| ==> LeftOut(s, order, table, bound, a, b[|a|]);
  }

  /** The rows at positions of the table. */
  method RowsAt(s: Store, order: OrderBy, table: Table, ps: seq<Position>) returns (rows: seq<string>)
    requires forall k :: 0 <= k < |ps| ==> ps[k] in Places(s, order, table)
    ensures AreAt(s, order, table, rows, ps)
  {
    rows := [];
    while |rows| < |ps|
      invariant |rows| <= |ps| && AreAt(s, order, table, rows, ps[..|rows|])
    {
      assert ps[|rows|] in Places(s, order, table);
      var rid :| rid in table && Place(s, order, rid, table[rid]) == ps[|rows|];
      rows := rows + [rid];
    }
    assert ps[..|rows|] == ps;
  }

  /** rows are the rows at the positions ps. */
  ghost predicate AreAt(s: Store, order: OrderBy, table: Table, rows: seq<string>, ps: seq<Position>) {
    |rows| == |ps| && forall k :: 0 <= k < |rows| ==> rows[k] in table && At(s, order, table, rows[k]) == ps[k]
  }

  /** The query of keyset: the first rows behind the bound, one more than the page takes. */
  method FetchRows(s: Store, order: OrderBy, table: Table, bound: Bound, limit: nat) returns (rows: seq<string>)
    requires Sound(s) && limit > 0
    ensures |rows| <= limit && forall k :: 0 <= k < |rows| ==> rows[k] in table
    ensures IsPage(s, order, table, bound, limit - 1, if |rows| < limit then rows else rows[..limit - 1], |rows| == limit)
  {
    hide Place, Positions.Page, IsPage;
    var ps := Positions.Page(Behind(Places(s, order, table), bound), 0, limit);
    assert forall k :: 0 <= k < |ps| ==> ps[k] in ps;
    rows := RowsAt(s, order, table, ps);
    FirstRows(s, order, table, bound, limit - 1, ps, rows);
  }

  /** keyset. */
  method Keyset(s: Store, cfg: Config, table: Table) returns (a: Answer)
    requires Sound(s)
    ensures Answers(s, cfg, table, a)
    ensures a.Page? ==> InTurn(s, cfg, table, a)
    ensures a.Refused? <==> !Acceptable(s, cfg)
    ensures a.Refused? <==>
      || cfg.pageNumber > 0 || cfg.offset > 0 || cfg.limit > 0 || |cfg.orders| > 1
      || Order(cfg).field !in s.specs
      || (cfg.cursor != "" && DecodeCursor(s.codec, cfg.cursor, Order(cfg).field, Order(cfg).desc, s.specs[Order(cfg).field]).Err?)
    ensures a.Broken? <==> Acceptable(s, cfg) && exists rows :: EndsUncarried(s, cfg, table, rows)
  {
    hide DecodeCursor, EncodeCursor, IsPage, Place, BoundaryValue, InTurn;
    if cfg.pageNumber > 0 || cfg.offset > 0 || cfg.limit > 0 || |cfg.orders| > 1 {
      return Refused;
    }
    var order := Order(cfg);
    if order.field !in s.specs {
      return Refused;
    }
    var spec := s.specs[order.field];
    var size := if cfg.cursorSize == 0 then s.defaultSize else cfg.cursorSize;
    if cfg.fromQuery && s.maxSize < size {
      size := s.maxSize;
    }
    var bound := Start;
    if cfg.cursor != "" {
      var boundary := DecodeCursor(s.codec, cfg.cursor, order.field, order.desc, spec);
      if boundary.Err? {
        return Refused;
      }
      bound := After(Place(s, order, boundary.value.1, boundary.value.0));
    }
    var rows := FetchRows(s, order, table, bound, size + 1);
    ghost var page, more := if |rows| <= size then rows else rows[..size], |rows| > size;
    forall other | EndsUncarried(s, cfg, table, other) ensures other == page && more {
      PageIsUnique(s, order, table, bound, size, other, true, page, more);
    }
    if |rows| <= size {
      a := Page(rows, size, false, "");
      PageIsInTurn(s, cfg, table, a);
      return;
    }
    var last := rows[size - 1];
    var next := EncodeCursor(s.codec, BoundaryValue(order, last, table[last]), last, order.field, order.desc, spec);
    if next.Err? {
      assert EndsUncarried(s, cfg, table, rows[..size]);
      return Broken;
    }
    CursorNames(s, cfg, last, table[last], next.value);
    a := Page(rows[..size], size, true, next.value);
    PageIsInTurn(s, cfg, table, a);
  }

  /** A query for one row too many shows the page, and whether rows follow. */
  lemma FirstRows(s: Store, order: OrderBy, table: Table, bound: Bound, size: nat, ps: seq<Position>, rows: seq<string>)
    requires Sound(s) && ps == Positions.Page(Behind(Places(s, order, table), bound), 0, size + 1)
    requires AreAt(s, order, table, rows, ps)
    ensures IsPage(s, order, table, bound, size, if |rows| <= size then rows else rows[..size], |rows| > size)
  {
    hide Place, Positions.Page, Sound, InOrder, LeftOut;
    var page := if |rows| <= size then rows else rows[..size];
    PageIsInOrder(s, order, table, rows, ps, page);
    forall k | 0 <= k < |page| ensures IsBehind(bound, At(s, order, table, page[k])) {
      assert ps[k] in ps && page[k] == rows[k];
    }
    forall rid | LeftOut(s, order, table, bound, page, rid)
      ensures |rows| > size && InOrder(s, order, table, page + [rid])
    {
      RowIsLater(s, order, table, bound, size, ps, rows, rid);
    }
    if |rows| > size {
      RowFollows(s, order, table, bound, size, ps, rows);
    }
  }

  lemma PageIsInOrder(s: Store, order: OrderBy, table: Table, rows: seq<string>, ps: seq<Position>, page: seq<string>)
    requires AreAt(s, order, table, rows, ps) && Increasing(ps) && page <= rows
    ensures InOrder(s, order, table, page)
  {
  }

  /** The row too many is a row that follows. */
  lemma RowFollows(s: Store, order: OrderBy, table: Table, bound: Bound, size: nat, ps: seq<Position>, rows: seq<string>)
    requires ps == Positions.Page(Behind(Places(s, order, table), bound), 0, size + 1)
    requires AreAt(s, order, table, rows, ps) && |rows| > size
    ensures LeftOut(s, order, table, bound, rows[..size], rows[size])
  {
  }

  /** A row that is not on the page comes after all of it. */
  lemma RowIsLater(s: Store, order: OrderBy, table: Table, bound: Bound, size: nat, ps: seq<Position>, rows: seq<string>, rid: string)
    requires Sound(s) && ps == Positions.Page(Behind(Places(s, order, table), bound), 0, size + 1)
    requires AreAt(s, order, table, rows, ps)
    requires LeftOut(s, order, table, bound, if |rows| <= size then rows else rows[..size], rid)
    ensures |rows| > size && InOrder(s, order, table, rows[..size] + [rid])
  {
    hide Place, Sound, Positions.Page;
    var p, all := At(s, order, table, rid), Behind(Places(s, order, table), bound);
    assert p in Places(s, order, table);
    assert |rows| > size ==> forall k :: 0 <= k < size ==> rows[..size][k] == rows[k];
    forall k | 0 <= k < |ps| && k < size ensures ps[k] != p {
      if ps[k] == p {
        SamePlace(s, order, table, rid, rows[k]);
      }
    }
    PositionIsLater(all, size, ps, p);
    LastInOrder(s, order, table, rows[..size], rid);
  }

  lemma PositionIsLater(all: set<Position>, size: nat, ps: seq<Position>, p: Position)
    requires p in all && ps == Positions.Page(all, 0, size + 1)
    requires forall k :: 0 <= k < |ps| && k < size ==> ps[k] != p
    ensures |ps| > size && forall k :: 0 <= k < size ==> Before(ps[k], p)
  {
  }

  lemma LastInOrder(s: Store, order: OrderBy, table: Table, rows: seq<string>, rid: string)
    requires rid in table && (forall k :: 0 <= k < |rows| ==> rows[k] in table)
    requires forall i, j :: 0 <= i < j < |rows| ==> Before(At(s, order, table, rows[i]), At(s, order, table, rows[j]))
    requires forall k :: 0 <= k < |rows| ==> Before(At(s, order, table, rows[k]), At(s, order, table, rid))
    ensures InOrder(s, order, table, rows + [rid])
  {
  }

  lemma SamePlace(s: Store, order: OrderBy, table: Table, a: string, b: string)
    requires Sound(s) && a in table && b in table
    requires At(s, order, table, a) == At(s, order, table, b)
    ensures a == b
  {
  }

  /** The cursor issued after a row is read back as that row's place. */
  lemma CursorNames(s: Store, cfg: Config, rid: string, value: Value, cursor: string)
    requires Sound(s) && Order(cfg).field in s.specs
    requires var order := Order(cfg);
             EncodeCursor(s.codec, BoundaryValue(order, rid, value), rid, order.field, order.desc, s.specs[order.field]) == Ok(cursor)
    ensures cursor != ""
    ensures Named(s, Order(cfg), cursor) == Ok(After(Place(s, Order(cfg), rid, value)))
  {
    hide DecodeCursor, EncodeCursor;
    var order := Order(cfg);
    var spec := s.specs[order.field];
    CursorRoundTrip(s.codec, BoundaryValue(order, rid, value), rid, order.field, order.desc, spec, order.field, order.desc, spec);
  }

  // ---------- Following cursors ----------

  /** Rows come and go between pages, but keep their order value. */
  ghost predicate Stable(tables: seq<Table>) {
    forall i, j, rid :: 0 <= i < |tables| && 0 <= j < |tables| && rid in tables[i] && rid in tables[j] ==>
      tables[i][rid] == tables[j][rid]
  }

  /** Page after page, each asked for with the cursor of the one before; page sizes may differ. */
  ghost predicate IsWalk(s: Store, cfgs: seq<Config>, tables: seq<Table>, pages: seq<Answer>) {
    && |cfgs| == |tables| == |pages| > 0 && cfgs[0].cursor == ""
    && (forall i :: 0 <= i < |pages| ==>
          pages[i].Page? && Order(cfgs[i]) == Order(cfgs[0]) && Answers(s, cfgs[i], tables[i], pages[i]))
    && (forall i {:trigger Continued(cfgs, pages, i)} :: 0 <= i < |pages| - 1 ==> Continued(cfgs, pages, i))
  }

  /** Page i was not the last, and the next one was asked for with its cursor. */
  predicate Continued(cfgs: seq<Config>, pages: seq<Answer>, i: nat)
    requires |cfgs| == |pages| && i + 1 < |pages| && pages[i].Page?
  {
    pages[i].hasMore && cfgs[i + 1].cursor == pages[i].cursor
  }

  /** A page begins behind the last row of the page before. */
  lemma Continues(s: Store, cfgs: seq<Config>, tables: seq<Table>, pages: seq<Answer>, i: nat)
    requires IsWalk(s, cfgs, tables, pages) && i < |pages| - 1
    ensures pages[i].rows != []
    ensures var last := pages[i].rows[|pages[i].rows| - 1];
            last in tables[i] && BoundOf(s, cfgs[i + 1]) == Ok(After(At(s, Order(cfgs[0]), tables[i], last)))
  {
    hide InOrder, LeftOut;
    assert Answers(s, cfgs[i], tables[i], pages[i]) && Continued(cfgs, pages, i);
    RowsAreThere(s, Order(cfgs[0]), tables[i], pages[i].rows);
  }

  lemma RowsAreThere(s: Store, order: OrderBy, table: Table, rows: seq<string>)
    ensures InOrder(s, order, table, rows) ==> forall k :: 0 <= k < |rows| ==> rows[k] in table
  {
  }

  /** Row l of page j comes behind row k of page i. */
  ghost predicate RowsAscend(s: Store, order: OrderBy, tables: seq<Table>, pages: seq<Answer>, i: nat, k: nat, j: nat, l: nat)
    requires i < |pages| == |tables| && j < |pages| && pages[i].Page? && pages[j].Page?
    requires k < |pages[i].rows| && l < |pages[j].rows|
  {
    && pages[i].rows[k] in tables[i] && pages[j].rows[l] in tables[j]
    && Precedes(s, order, pages[i].rows[k], tables[i][pages[i].rows[k]], pages[j].rows[l], tables[j][pages[j].rows[l]])
  }

  lemma WithinPage(s: Store, cfgs: seq<Config>, tables: seq<Table>, pages: seq<Answer>, j: nat, k: nat, l: nat)
    requires IsWalk(s, cfgs, tables, pages) && j < |pages| && k < l < |pages[j].rows|
    ensures RowsAscend(s, Order(cfgs[0]), tables, pages, j, k, j, l)
  {
    hide Place, Precedes, Before, BoundOf, LeftOut;
    assert Answers(s, cfgs[j], tables[j], pages[j]);
    var a, b := pages[j].rows[k], pages[j].rows[l];
    PlacesTell(s, Order(cfgs[0]), a, tables[j][a], b, tables[j][b]);
  }

  lemma FromPageToPage(s: Store, cfgs: seq<Config>, tables: seq<Table>, pages: seq<Answer>, i: nat, l: nat)
    requires IsWalk(s, cfgs, tables, pages) && i + 1 < |pages| && l < |pages[i + 1].rows|
    ensures pages[i].rows != [] && RowsAscend(s, Order(cfgs[0]), tables, pages, i, |pages[i].rows| - 1, i + 1, l)
  {
    hide BoundOf, LeftOut, Place, Precedes;
    Continues(s, cfgs, tables, pages, i);
    assert Answers(s, cfgs[i + 1], tables[i + 1], pages[i + 1]);
    var a, b := pages[i].rows[|pages[i].rows| - 1], pages[i + 1].rows[l];
    PlacesTell(s, Order(cfgs[0]), a, tables[i][a], b, tables[i + 1][b]);
  }

  /** A walk returns rows in strictly increasing order (decreasing, for a descending one): within a page and from page to page. */
  lemma {:induction false} WalkAscends(s: Store, cfgs: seq<Config>, tables: seq<Table>, pages: seq<Answer>, i: nat, k: nat, j: nat, l: nat)
    requires IsWalk(s, cfgs, tables, pages) && i <= j < |pages| && k < |pages[i].rows| && l < |pages[j].rows|
    requires i == j ==> k < l
    ensures RowsAscend(s, Order(cfgs[0]), tables, pages, i, k, j, l)
    decreases j
  {
    hide Answers, Place;
    if i == j {
      WithinPage(s, cfgs, tables, pages, j, k, l);
    } else {
      FromPageToPage(s, cfgs, tables, pages, j - 1, l);
      var last := |pages[j - 1].rows| - 1;
      if i < j - 1 || k < last {
        WalkAscends(s, cfgs, tables, pages, i, k, j - 1, last);
      }
    }
  }

  /** No row is returned twice. */
  lemma WalkNeverRepeats(s: Store, cfgs: seq<Config>, tables: seq<Table>, pages: seq<Answer>, i: nat, k: nat, j: nat, l: nat)
    requires IsWalk(s, cfgs, tables, pages) && Stable(tables)
    requires i <= j < |pages| && k < |pages[i].rows| && l < |pages[j].rows| && (i < j || k < l)
    ensures pages[i].rows[k] != pages[j].rows[l]
  {
    hide Answers, Place;
    WalkAscends(s, cfgs, tables, pages, i, k, j, l);
  }

  lemma FirstBound(s: Store, cfg: Config)
    requires cfg.cursor == "" && Order(cfg).field in s.specs
    ensures BoundOf(s, cfg) == Ok(Start)
  {
  }

  /** A row that is there for the whole of a finished walk is on one of its pages. */
  lemma {:induction false} WalkMissesNothing(s: Store, cfgs: seq<Config>, tables: seq<Table>, pages: seq<Answer>, rid: string)
    returns (i: nat)
    requires IsWalk(s, cfgs, tables, pages) && Stable(tables) && !pages[|pages| - 1].hasMore
    requires forall j :: 0 <= j < |tables| ==> rid in tables[j]
    ensures i < |pages| && rid in pages[i].rows
  {
    hide BoundOf, Place, InOrder, IsPage;
    i := 0;
    assert Answers(s, cfgs[0], tables[0], pages[0]);
    FirstBound(s, cfgs[0]);
    while rid !in pages[i].rows
      invariant i < |pages| && Acceptable(s, cfgs[i])
      invariant IsBehind(BoundOf(s, cfgs[i]).value, At(s, Order(cfgs[0]), tables[i], rid))
      decreases |pages| - i
    {
      assert Answers(s, cfgs[i], tables[i], pages[i]);
      PageLeaves(s, cfgs[i], tables[i], pages[i], rid);
      Continues(s, cfgs, tables, pages, i);
      assert Answers(s, cfgs[i + 1], tables[i + 1], pages[i + 1]);
      StillBehind(s, Order(cfgs[0]), tables[i], tables[i + 1], pages[i].rows, BoundOf(s, cfgs[i + 1]).value, rid);
      i := i + 1;
    }
  }

  lemma LastIsBefore(s: Store, order: OrderBy, table: Table, rows: seq<string>, rid: string)
    requires rows != [] && InOrder(s, order, table, rows + [rid])
    ensures rows[|rows| - 1] in table && rid in table && Before(At(s, order, table, rows[|rows| - 1]), At(s, order, table, rid))
  {
    hide Place;
    var all := rows + [rid];
    assert all[|rows|] == rid && all[|rows| - 1] == rows[|rows| - 1];
  }

  /** A row behind a page's bound that is not on it comes after it. */
  lemma PageLeaves(s: Store, cfg: Config, table: Table, a: Answer, rid: string)
    requires a.Page? && Answers(s, cfg, table, a)
    requires rid in table && IsBehind(BoundOf(s, cfg).value, At(s, Order(cfg), table, rid)) && rid !in a.rows
    ensures a.hasMore && InOrder(s, Order(cfg), table, a.rows + [rid])
  {
    hide BoundOf, Place, InOrder;
    assert LeftOut(s, Order(cfg), table, BoundOf(s, cfg).value, a.rows, rid);
  }

  /** ... and so behind the next page's bound. */
  lemma StillBehind(s: Store, order: OrderBy, table: Table, later: Table, rows: seq<string>, bound: Bound, rid: string)
    requires rows != [] && InOrder(s, order, table, rows + [rid])
    requires rows[|rows| - 1] in table ==> bound == After(At(s, order, table, rows[|rows| - 1]))
    requires rid in table ==> rid in later && later[rid] == table[rid]
    ensures rid in later && IsBehind(bound, At(s, order, later, rid))
  {
    hide Place, InOrder;
    LastIsBefore(s, order, table, rows, rid);
  }
}
