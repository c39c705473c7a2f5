/**
 The in-process store of sign-in sessions and codes: memoryStore in
 identity/oauth_session.go, a map over a list in order of last put.
 */
module FlowStores {
  import opened Sets

  datatype Entry<V> = Entry(key: string, value: V, expiresAt: int)

  datatype Found<V> = Missing | Present(value: V)

  // ---------- The sequence the store stands for ----------

  ghost predicate Distinct<V(!new)>(s: seq<Entry<V>>) {
    forall i, j :: 0 <= i < j < |s| ==> s[i].key != s[j].key
  }

  predicate Has<V>(s: seq<Entry<V>>, key: string) {
    exists i :: 0 <= i < |s| && s[i].key == key
  }

  function Without<V>(s: seq<Entry<V>>, key: string): seq<Entry<V>> {
    if s == [] then [] else if s[0].key == key then Without(s[1..], key) else [s[0]] + Without(s[1..], key)
  }

  function Unexpired<V>(s: seq<Entry<V>>, now: int): seq<Entry<V>> {
    if s == [] then [] else if s[0].expiresAt < now then Unexpired(s[1..], now) else [s[0]] + Unexpired(s[1..], now)
  }

  /** The entries that have not expired, each at its place among all, and no others. */
  lemma UnexpiredAt<V(!new)>(s: seq<Entry<V>>, now: int) returns (ps: seq<nat>)
    ensures |ps| == |Unexpired(s, now)| && forall i, j :: 0 <= i < j < |ps| ==> ps[i] < ps[j]
    ensures forall k :: 0 <= k < |ps| ==> ps[k] < |s| && Unexpired(s, now)[k] == s[ps[k]]
    ensures forall p: nat :: p in ps <==> p < |s| && now <= s[p].expiresAt
  {
    hide Unexpired;
    ps := UnexpiredFrom(s, 0, now);
    assert s[0..] == s;
  }

  lemma {:induction false} UnexpiredFrom<V(!new)>(s: seq<Entry<V>>, from: nat, now: int) returns (ps: seq<nat>)
    requires from <= |s|
    ensures |ps| == |Unexpired(s[from..], now)| && forall i, j :: 0 <= i < j < |ps| ==> ps[i] < ps[j]
    ensures forall k :: 0 <= k < |ps| ==> ps[k] < |s| && Unexpired(s[from..], now)[k] == s[ps[k]]
    ensures forall p: nat :: p in ps <==> from <= p < |s| && now <= s[p].expiresAt
    decreases |s| - from
  {
    ps := [];
    if from < |s| {
      var rest := UnexpiredFrom(s, from + 1, now);
      UnexpiredStep(s, from, now);
      ps := if now <= s[from].expiresAt then [from] + rest else rest;
    }
  }

  /** put: the entry comes first; a new key takes the place of the last one when there is no room. */
  function PutTo<V>(s: seq<Entry<V>>, e: Entry<V>, capacity: nat): seq<Entry<V>> {
    if Has(s, e.key) then [e] + Without(s, e.key)
    else if s != [] && |s| >= capacity then [e] + s[..|s| - 1]
    else [e] + s
  }

  /** take: what key has, unless it has expired. */
  function Lookup<V>(s: seq<Entry<V>>, key: string, now: int): Found<V> {
    if s == [] then Missing
    else if s[0].key == key then (if s[0].expiresAt < now then Missing else Present(s[0].value))
    else Lookup(s[1..], key, now)
  }

  lemma {:induction false} WithoutAbsent<V>(s: seq<Entry<V>>, key: string)
    requires forall i :: 0 <= i < |s| ==> s[i].key != key
    ensures Without(s, key) == s
    decreases |s|
  {
    if s != [] {
      WithoutAbsent(s[1..], key);
    }
  }

  lemma {:induction false} WithoutAt<V(!new)>(s: seq<Entry<V>>, i: nat)
    requires Distinct(s) && i < |s|
    ensures Without(s, s[i].key) == s[..i] + s[i + 1..]
    decreases |s|
  {
    if i == 0 {
      WithoutAbsent(s[1..], s[0].key);
    } else {
      assert s[1..][i - 1] == s[i];
      WithoutAt(s[1..], i - 1);
      assert s[..i] == [s[0]] + s[1..][..i - 1] && s[1..][i..] == s[i + 1..];
    }
  }

  lemma {:induction false} LookupAt<V(!new)>(s: seq<Entry<V>>, i: nat, now: int)
    requires Distinct(s) && i < |s|
    ensures Lookup(s, s[i].key, now) == if s[i].expiresAt < now then Missing else Present(s[i].value)
    decreases |s|
  {
    if i > 0 {
      assert s[1..][i - 1] == s[i];
      LookupAt(s[1..], i - 1, now);
    }
  }

  lemma {:induction false} LookupAbsent<V(!new)>(s: seq<Entry<V>>, key: string, now: int)
    requires !Has(s, key)
    ensures Lookup(s, key, now) == Missing
    decreases |s|
  {
    if s != [] {
      assert s[0].key != key;
      forall i | 0 <= i < |s[1..]| ensures s[1..][i].key != key {
        assert s[1..][i] == s[i + 1];
      }
      LookupAbsent(s[1..], key, now);
    }
  }

  lemma {:induction false} UnexpiredAre<V(!new)>(s: seq<Entry<V>>, now: int)
    ensures forall e :: e in Unexpired(s, now) <==> e in s && now <= e.expiresAt
    decreases |s|
  {
    if s != [] {
      UnexpiredAre(s[1..], now);
      assert s == [s[0]] + s[1..];
    }
  }

  lemma UnexpiredNothing<V>(now: int)
    ensures Unexpired<V>([], now) == []
  {
  }

  lemma UnexpiredStep<V>(s: seq<Entry<V>>, i: nat, now: int)
    requires i < |s|
    ensures Unexpired(s[i..], now) == (if s[i].expiresAt < now then [] else [s[i]]) + Unexpired(s[i + 1..], now)
  {
  }

  function KeptAt<V>(s: seq<Entry<V>>, i: nat, now: int): seq<Entry<V>>
    requires i < |s|
  {
    if s[i].expiresAt < now then s[..i] + s[i + 1..] else s
  }

  /** What a sweep has left after it looked at the i-th of all. */
  lemma SweptOne<V>(all: seq<Entry<V>>, i: nat, now: int, left: seq<Entry<V>>)
    requires i < |all| && left == all[..i + 1] + Unexpired(all[i + 1..], now)
    ensures i < |left| && KeptAt(left, i, now) == all[..i] + Unexpired(all[i..], now)
  {
    hide Unexpired;
    UnexpiredStep(all, i, now);
    var kept := Unexpired(all[i + 1..], now);
    assert left[i] == all[i] && left == all[..i] + ([all[i]] + kept) && left[..i] + left[i + 1..] == all[..i] + kept;
  }

  // ---------- The store ----------

  /** An element of the list. */
  class Element<V> {
    const key: string
    var value: V
    var expiresAt: int

    constructor (key: string, value: V, expiresAt: int)
      ensures this.key == key && this.value == value && this.expiresAt == expiresAt
    {
      this.key, this.value, this.expiresAt := key, value, expiresAt;
    }
  }

  function KeySet<V>(order: seq<Element<V>>): set<string> {
    set i | 0 <= i < |order| :: order[i].key
  }

  /** The map has exactly the elements of the list, each under its own key. */
  ghost predicate Agree<V(!new)>(entries: map<string, Element<V>>, order: seq<Element<V>>) {
    && |order| == |entries| && entries.Keys == KeySet(order)
    && (forall i, j :: 0 <= i < j < |order| ==> order[i].key != order[j].key)
    && (forall i :: 0 <= i < |order| ==> entries[order[i].key] == order[i])
  }

  lemma AgreeWithout<V(!new)>(entries: map<string, Element<V>>, order: seq<Element<V>>, i: nat)
    requires Agree(entries, order) && i < |order|
    ensures Agree(entries - {order[i].key}, order[..i] + order[i + 1..])
  {
    hide KeySet;
    var less, rest := entries - {order[i].key}, order[..i] + order[i + 1..];
    KeysWithout(order, i, rest);
    assert entries.Keys == less.Keys + {order[i].key} && |less| == |rest|;
    forall j | 0 <= j < |rest| ensures rest[j].key in less && less[rest[j].key] == rest[j] {
      InTheMap(entries, order, if j < i then j else j + 1);
    }
  }

  lemma KeysWithout<V>(order: seq<Element<V>>, i: nat, rest: seq<Element<V>>)
    requires i < |order| && rest == order[..i] + order[i + 1..]
    requires forall j, k :: 0 <= j < k < |order| ==> order[j].key != order[k].key
    ensures order[i].key in KeySet(order) && KeySet(rest) == KeySet(order) - {order[i].key}
    ensures forall j :: 0 <= j < |rest| ==> rest[j] == order[if j < i then j else j + 1] && rest[j].key != order[i].key
    ensures forall j, k :: 0 <= j < k < |rest| ==> rest[j].key != rest[k].key
  {
    forall key | key in KeySet(order) - {order[i].key} ensures key in KeySet(rest) {
      var j :| 0 <= j < |order| && order[j].key == key;
      assert j != i;
      assert rest[if j < i then j else j - 1] == order[j];
    }
    forall key | key in KeySet(rest) ensures key in KeySet(order) - {order[i].key} {
      var j :| 0 <= j < |rest| && rest[j].key == key;
      assert rest[j] == order[if j < i then j else j + 1];
    }
  }

  lemma AgreeFront<V(!new)>(entries: map<string, Element<V>>, order: seq<Element<V>>, el: Element<V>)
    requires Agree(entries, order) && el.key !in entries
    ensures Agree(entries[el.key := el], [el] + order)
  {
    hide KeySet;
    KeysInFront(order, el);
    assert entries[el.key := el].Keys == entries.Keys + {el.key};
  }

  lemma KeysInFront<V>(order: seq<Element<V>>, el: Element<V>)
    ensures KeySet([el] + order) == KeySet(order) + {el.key}
    ensures forall i :: 0 <= i < |order| ==> order[i].key in KeySet(order)
  {
    var all := [el] + order;
    assert all[0] == el;
    forall key | key in KeySet(order) ensures key in KeySet(all) {
      var j :| 0 <= j < |order| && order[j].key == key;
      assert all[j + 1] == order[j];
    }
  }

  lemma InTheMap<V(!new)>(entries: map<string, Element<V>>, order: seq<Element<V>>, i: nat)
    requires Agree(entries, order) && i < |order|
    ensures order[i].key in entries && entries[order[i].key] == order[i]
  {
  }

  lemma AgreeMoved<V(!new)>(entries: map<string, Element<V>>, order: seq<Element<V>>, i: nat)
    requires Agree(entries, order) && i < |order|
    ensures Agree(entries, [order[i]] + (order[..i] + order[i + 1..]))
  {
    hide Agree;
    InTheMap(entries, order, i);
    AgreeWithout(entries, order, i);
    AgreeFront(entries - {order[i].key}, order[..i] + order[i + 1..], order[i]);
    assert (entries - {order[i].key})[order[i].key := order[i]] == entries;
  }

  lemma SameSize<V(!new)>(entries: map<string, Element<V>>, order: seq<Element<V>>)
    requires Agree(entries, order)
    ensures |entries| == |order|
  {
  }

  lemma IndexOf<V(!new)>(entries: map<string, Element<V>>, order: seq<Element<V>>, key: string) returns (i: nat)
    requires Agree(entries, order) && key in entries
    ensures i < |order| && order[i] == entries[key] && order[i].key == key
  {
    assert key in KeySet(order);
    i :| 0 <= i < |order| && order[i].key == key;
  }

  class MemoryStore<V(!new)> {
    const capacity: nat
    var entries: map<string, Element<V>>
    var order: seq<Element<V>>  // the list, the most recently put first

    /** The map and the list agree, and there is no more than capacity. */
    ghost predicate Valid()
      reads this
    {
      1 <= capacity && |order| <= capacity && Agree(entries, order)
    }

    ghost function Contents(): (s: seq<Entry<V>>)
      reads this, order
      ensures |s| == |order|
      ensures forall i :: 0 <= i < |s| ==> s[i] == Entry(order[i].key, order[i].value, order[i].expiresAt)
    {
      seq(|order|, i requires 0 <= i < |order| reads this, order => Entry(order[i].key, order[i].value, order[i].expiresAt))
    }

    constructor (capacity: int)
      ensures Valid() && Contents() == [] && this.capacity == if capacity < 1 then 1 else capacity
    {
      this.capacity := if capacity < 1 then 1 else capacity;
      entries, order := map[], [];
    }

    method Put(key: string, value: V, ttl: int, now: int)
      requires Valid()
      modifies this, order
      ensures Valid() && Contents() == PutTo(old(Contents()), Entry(key, value, now + ttl), capacity)
      ensures forall el :: el in order ==> el in old(order) || fresh(el)
    {
      hide Agree, Without;
      HasKey(key);
      if key in entries {
        Renew(key, value, now + ttl);
      } else {
        SameSize(entries, order);
        if |entries| >= capacity {
          if order != [] {
            RemoveAt(|order| - 1);
          }
        }
        PushFront(key, value, now + ttl);
      }
    }

    lemma HasKey(key: string)
      requires Valid()
      ensures Has(Contents(), key) <==> key in entries
    {
    }

    lemma DistinctContents()
      requires Valid()
      ensures Distinct(Contents())
    {
    }

    /** A key that is there: its element moves to the front with the new value. */
    method Renew(key: string, value: V, expiresAt: int)
      requires Valid() && key in entries
      modifies this`order, order
      ensures Valid() && Contents() == [Entry(key, value, expiresAt)] + Without(old(Contents()), key)
      ensures forall el :: el in order ==> el in old(order)
    {
      hide Agree, Without;
      var el := entries[key];
      ghost var s := Contents();
      ghost var i := IndexOf(entries, order, key);
      DistinctContents();
      WithoutAt(s, i);
      AgreeMoved(entries, order, i);
      el.value, el.expiresAt := value, expiresAt;
      MoveToFront(el, i);
      assert Contents()[1..] == s[..i] + s[i + 1..];
    }

    /** The list's own MoveToFront. */
    method MoveToFront(el: Element<V>, ghost i: nat)
      requires i < |order| && order[i] == el && forall j :: 0 <= j < |order| && j != i ==> order[j] != el
      modifies this`order
      ensures order == [el] + (old(order)[..i] + old(order)[i + 1..])
    {
      var at :| 0 <= at < |order| && order[at] == el;
      order := [el] + (order[..at] + order[at + 1..]);
    }

    method PushFront(key: string, value: V, expiresAt: int)
      requires Valid() && key !in entries && |order| < capacity
      modifies this
      ensures Valid() && Contents() == [Entry(key, value, expiresAt)] + old(Contents())
      ensures |order| > 0 && fresh(order[0]) && order[1..] == old(order)
    {
      hide Agree;
      ghost var s := Contents();
      var el := new Element(key, value, expiresAt);
      AgreeFront(entries, order, el);
      order := [el] + order;
      entries := entries[key := el];
      assert Contents()[1..] == s;
    }

    method Take(key: string, now: int) returns (r: Found<V>)
      requires Valid()
      modifies this
      ensures Valid() && Contents() == Without(old(Contents()), key)
      ensures r == Lookup(old(Contents()), key, now)
      ensures forall el :: el in order ==> el in old(order)
    {
      hide Agree, Without, Lookup;
      HasKey(key);
      if key !in entries {
        WithoutAbsent(Contents(), key);
        LookupAbsent(Contents(), key, now);
        return Missing;
      }
      var el := entries[key];
      DistinctContents();
      ghost var at := IndexOf(entries, order, key);
      var i :| 0 <= i < |order| && order[i] == el;
      WithoutAt(Contents(), i);
      LookupAt(Contents(), i, now);
      RemoveAt(i);
      r := if now > el.expiresAt then Missing else Present(el.value);
    }

    /** remove, of the element at i. */
    method RemoveAt(i: nat)
      requires Valid() && i < |order|
      modifies this
      ensures Valid() && order == old(order)[..i] + old(order)[i + 1..]
      ensures Contents() == old(Contents())[..i] + old(Contents())[i + 1..]
      ensures entries == old(entries) - {old(order)[i].key}
    {
      hide Agree;
      ghost var s := Contents();
      AgreeWithout(entries, order, i);
      entries := entries - {order[i].key};
      order := order[..i] + order[i + 1..];
      assert forall j :: 0 <= j < |order| ==> Contents()[j] == s[if j < i then j else j + 1];
    }

    /** sweep: from the back, the expired ones go. */
    method Sweep(now: int)
      requires Valid()
      modifies this
      ensures Valid() && Contents() == Unexpired(old(Contents()), now)
      ensures forall e :: e in Contents() <==> e in old(Contents()) && now <= e.expiresAt
      ensures forall el :: el in order ==> el in old(order)
    {
      hide Agree, Unexpired, KeptAt;
      UnexpiredNothing<V>(now);
      var i := |order|;
      ghost var all := Contents();
      assert all[i..] == [];
      while i > 0
        invariant Valid() && 0 <= i <= |order| && i <= |all|
        invariant Contents() == all[..i] + Unexpired(all[i..], now)
        invariant forall el :: el in order ==> el in old(order)
      {
        i := i - 1;
        SweptOne(all, i, now, Contents());
        SweepAt(i, now);
      }
      assert all[0..] == all;
      UnexpiredAre(all, now);
    }

    method SweepAt(i: nat, now: int)
      requires Valid() && i < |order|
      modifies this
      ensures Valid() && Contents() == KeptAt(old(Contents()), i, now)
      ensures |order| >= i && forall el :: el in order ==> el in old(order)
    {
      hide Agree;
      if order[i].expiresAt < now {
        RemoveAt(i);
      }
    }
  }

  // ---------- Over whole runs ----------

  datatype Op<V> = Put(key: string, value: V, ttl: int, now: int) | Take(key: string, now: int) | Sweep(now: int)

  function After<V>(s: seq<Entry<V>>, op: Op<V>, capacity: nat): seq<Entry<V>> {
    match op
    case Put(key, value, ttl, now) => PutTo(s, Entry(key, value, now + ttl), capacity)
    case Take(key, _) => Without(s, key)
    case Sweep(now) => Unexpired(s, now)
  }

  function Run<V>(s: seq<Entry<V>>, ops: seq<Op<V>>, capacity: nat): seq<Entry<V>> {
    if ops == [] then s else After(Run(s, ops[..|ops| - 1], capacity), ops[|ops| - 1], capacity)
  }

  /** The keys put by ops. */
  function PutKeys<V>(ops: seq<Op<V>>): set<string> {
    if ops == [] then {}
    else PutKeys(ops[..|ops| - 1]) + if ops[|ops| - 1].Put? then {ops[|ops| - 1].key} else {}
  }

  /** The keys in front of key. */
  function Ahead<V>(s: seq<Entry<V>>, key: string): set<string> {
    if s == [] || s[0].key == key then {} else {s[0].key} + Ahead(s[1..], key)
  }

  /** e is what s has under its key. */
  predicate Holds<V(==)>(s: seq<Entry<V>>, e: Entry<V>) {
    s != [] && (s[0] == e || (s[0].key != e.key && Holds(s[1..], e)))
  }

  lemma {:induction false} HeldWithout<V(!new)>(s: seq<Entry<V>>, e: Entry<V>, key: string)
    requires Holds(s, e) && key != e.key
    ensures Holds(Without(s, key), e) && Ahead(Without(s, key), e.key) <= Ahead(s, e.key)
    decreases |s|
  {
    if s[0] != e {
      HeldWithout(s[1..], e, key);
    }
    if s[0].key != key {
      assert Without(s, key)[1..] == Without(s[1..], key);
    }
  }

  lemma {:induction false} HeldUnexpired<V(!new)>(s: seq<Entry<V>>, e: Entry<V>, now: int)
    requires Holds(s, e) && now <= e.expiresAt
    ensures Holds(Unexpired(s, now), e) && Ahead(Unexpired(s, now), e.key) <= Ahead(s, e.key)
    decreases |s|
  {
    if s[0] != e {
      HeldUnexpired(s[1..], e, now);
    }
    if s[0].expiresAt >= now {
      assert Unexpired(s, now)[1..] == Unexpired(s[1..], now);
    }
  }

  /** An entry that is not the last survives the last one's removal. */
  lemma {:induction false} HeldWithoutLast<V(!new)>(s: seq<Entry<V>>, e: Entry<V>)
    requires Holds(s, e) && Distinct(s) && s[|s| - 1].key != e.key
    ensures Holds(s[..|s| - 1], e) && Ahead(s[..|s| - 1], e.key) == Ahead(s, e.key)
    decreases |s|
  {
    var front := s[..|s| - 1];
    if s[0] != e {
      assert s[1..][|s[1..]| - 1] == s[|s| - 1];
      HeldWithoutLast(s[1..], e);
      assert front[1..] == s[1..][..|s[1..]| - 1];
    }
    assert front[0] == s[0];
  }

  /** The last entry has all the others in front of it. */
  lemma {:induction false} LastIsBehindAll<V(!new)>(s: seq<Entry<V>>)
    requires s != [] && Distinct(s)
    ensures |Ahead(s, s[|s| - 1].key)| == |s| - 1
    decreases |s|
  {
    if |s| > 1 {
      var rest := s[1..];
      assert rest[|rest| - 1] == s[|s| - 1];
      LastIsBehindAll(rest);
      AheadAreThere(rest, s[|s| - 1].key);
      assert forall i :: 0 <= i < |rest| ==> rest[i].key != s[0].key;
    }
  }

  lemma {:induction false} AheadAreThere<V(!new)>(s: seq<Entry<V>>, key: string)
    ensures forall k :: k in Ahead(s, key) ==> exists i :: 0 <= i < |s| && s[i].key == k
    decreases |s|
  {
    if s != [] && s[0].key != key {
      AheadAreThere(s[1..], key);
      forall k | k in Ahead(s[1..], key) ensures exists i :: 0 <= i < |s| && s[i].key == k {
        var i :| 0 <= i < |s[1..]| && s[1..][i].key == k;
        assert s[i + 1].key == k;
      }
    }
  }

  lemma {:induction false} StaysDistinct<V(!new)>(s: seq<Entry<V>>, op: Op<V>, capacity: nat)
    requires Distinct(s) && |s| <= capacity && capacity >= 1
    ensures Distinct(After(s, op, capacity)) && |After(s, op, capacity)| <= capacity
  {
    match op {
      case Put(key, value, ttl, now) =>
        if Has(s, key) {
          SubDistinct(s, key, 0);
          var i :| 0 <= i < |s| && s[i].key == key;
          WithoutAt(s, i);
        }
      case Take(key, _) => SubDistinct(s, key, 0);
      case Sweep(now) => SubDistinct(s, "", now);
    }
  }

  lemma {:induction false} SubDistinct<V(!new)>(s: seq<Entry<V>>, key: string, now: int)
    requires Distinct(s)
    ensures Distinct(Without(s, key)) && |Without(s, key)| <= |s|
    ensures forall i :: 0 <= i < |Without(s, key)| ==> Without(s, key)[i] in s && Without(s, key)[i].key != key
    ensures Distinct(Unexpired(s, now)) && |Unexpired(s, now)| <= |s|
    ensures forall i :: 0 <= i < |Unexpired(s, now)| ==> Unexpired(s, now)[i] in s
    decreases |s|
  {
    if s != [] {
      SubDistinct(s[1..], key, now);
    }
  }

  /** No op puts or takes the key, and no sweep comes after its expiry. */
  ghost predicate LeavesAlone<V(!new)>(ops: seq<Op<V>>, e: Entry<V>) {
    forall i :: 0 <= i < |ops| ==>
      if ops[i].Sweep? then ops[i].now <= e.expiresAt else ops[i].key != e.key
  }

  lemma {:induction false} KeepsHolding<V(!new)>(s: seq<Entry<V>>, e: Entry<V>, ops: seq<Op<V>>, capacity: nat)
    requires Distinct(s) && |s| <= capacity && capacity >= 1 && LeavesAlone(ops, e)
    ensures var r := Run(PutTo(s, e, capacity), ops, capacity);
            && Distinct(r) && |r| <= capacity
            && (|PutKeys(ops)| < capacity ==> Holds(r, e) && Ahead(r, e.key) <= PutKeys(ops))
    decreases |ops|
  {
    if ops == [] {
      StaysDistinct(s, Put(e.key, e.value, e.expiresAt, 0), capacity);
    } else {
      var front, op := ops[..|ops| - 1], ops[|ops| - 1];
      KeepsHolding(s, e, front, capacity);
      var r := Run(PutTo(s, e, capacity), front, capacity);
      StaysDistinct(r, op, capacity);
      if |PutKeys(ops)| < capacity {
        Fewer(PutKeys(front), PutKeys(ops));
        OneMoreOp(r, e, op, PutKeys(front), capacity);
      }
    }
  }

  lemma OneMoreOp<V(!new)>(r: seq<Entry<V>>, e: Entry<V>, op: Op<V>, put: set<string>, capacity: nat)
    requires Distinct(r) && |r| <= capacity && Holds(r, e) && Ahead(r, e.key) <= put && LeavesAlone([op], e)
    requires |put + if op.Put? then {op.key} else {}| < capacity
    ensures Holds(After(r, op, capacity), e)
    ensures Ahead(After(r, op, capacity), e.key) <= put + if op.Put? then {op.key} else {}
  {
    assert [op][0] == op;
    match op {
      case Put(key, value, ttl, now) =>
        if Has(r, key) {
          HeldWithout(r, e, key);
        } else if |r| >= capacity {
          if r[|r| - 1].key != e.key {
            HeldWithoutLast(r, e);
          } else {
            LastIsBehindAll(r);
            AheadAreThere(r, e.key);
            Fewer(Ahead(r, e.key) + {key}, put + {key});
          }
        }
      case Take(key, _) => HeldWithout(r, e, key);
      case Sweep(now) => HeldUnexpired(r, e, now);
    }
  }

  /** What is held is what take returns. */
  lemma {:induction false} HeldIsFound<V(!new)>(s: seq<Entry<V>>, e: Entry<V>, now: int)
    requires Holds(s, e)
    ensures Lookup(s, e.key, now) == if e.expiresAt < now then Missing else Present(e.value)
    decreases |s|
  {
    if s[0] != e {
      HeldIsFound(s[1..], e, now);
    }
  }

  /**
   An unexpired entry nobody takes is found until as many distinct other keys
   were put after it as the store has room for.
   */
  lemma LostOnlyToAFullRound<V(!new)>(s: seq<Entry<V>>, e: Entry<V>, ops: seq<Op<V>>, capacity: nat, now: int)
    requires Distinct(s) && |s| <= capacity && capacity >= 1 && LeavesAlone(ops, e)
    requires now <= e.expiresAt && |PutKeys(ops)| < capacity
    ensures Lookup(Run(PutTo(s, e, capacity), ops, capacity), e.key, now) == Present(e.value)
  {
    KeepsHolding(s, e, ops, capacity);
    HeldIsFound(Run(PutTo(s, e, capacity), ops, capacity), e, now);
  }

  /** A value that was taken cannot be taken again: only another put of the key brings one. */
  lemma {:induction false} TakenOnce<V(!new)>(s: seq<Entry<V>>, key: string, ops: seq<Op<V>>, capacity: nat, now: int)
    requires Distinct(s) && |s| <= capacity && capacity >= 1
    requires key !in PutKeys(ops)
    ensures var r := Run(Without(s, key), ops, capacity);
            Distinct(r) && |r| <= capacity && !Has(r, key) && Lookup(r, key, now) == Missing
    decreases |ops|
  {
    if ops == [] {
      SubDistinct(s, key, now);
    } else {
      var front, op := ops[..|ops| - 1], ops[|ops| - 1];
      TakenOnce(s, key, front, capacity, now);
      var r := Run(Without(s, key), front, capacity);
      StaysDistinct(r, op, capacity);
      match op {
        case Put(k, value, ttl, at) => SubDistinct(r, k, 0);
        case Take(k, _) => SubDistinct(r, k, 0);
        case Sweep(at) => SubDistinct(r, key, at);
      }
    }
    LookupAbsent(Run(Without(s, key), ops, capacity), key, now);
  }
}
