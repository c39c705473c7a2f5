/** The sliding-window login limiter: identity/ratelimit.go. Times are a monotone clock's. */
module Limiters {
  import opened Sets

  /** A bucket's dimension and value; ip marks a client address. */
  datatype Key = Key(name: string, value: string, ip: bool)

  datatype Entry = Entry(attempts: seq<int>, lastSeen: int)

  const MAX_ENTRIES := 100_000
  const WATERMARK := MAX_ENTRIES * 3 / 4

  function Bucket(key: Key): string {
    key.name + "\0" + key.value
  }

  /** The attempts after cutoff. */
  function Recent(attempts: seq<int>, cutoff: int): nat {
    if attempts == [] then 0
    else Recent(attempts[..|attempts| - 1], cutoff) + if attempts[|attempts| - 1] > cutoff then 1 else 0
  }

  /** Which attempts came strictly after cutoff. */
  ghost function Since(attempts: seq<int>, cutoff: int): set<nat> {
    set i: nat | i < |attempts| && cutoff < attempts[i]
  }

  lemma {:induction false} RecentCounts(attempts: seq<int>, cutoff: int)
    ensures Recent(attempts, cutoff) == |Since(attempts, cutoff)|
    decreases |attempts|
  {
    if attempts != [] {
      var n := |attempts| - 1;
      RecentCounts(attempts[..n], cutoff);
      assert Since(attempts, cutoff) == Since(attempts[..n], cutoff) + if cutoff < attempts[n] then {n} else {};
    } else {
      assert Since(attempts, cutoff) == {};
    }
  }

  function Pruned(attempts: seq<int>, cutoff: int): seq<int> {
    if attempts == [] then []
    else
      var front, last := attempts[..|attempts| - 1], attempts[|attempts| - 1];
      if last > cutoff then Pruned(front, cutoff) + [last] else Pruned(front, cutoff)
  }

  /** What is left is every attempt after cutoff, and nothing else. */
  lemma {:induction false} PrunedAreRecent(attempts: seq<int>, cutoff: int)
    ensures |Pruned(attempts, cutoff)| == |Since(attempts, cutoff)|
    ensures forall x :: x in Pruned(attempts, cutoff) <==> x in attempts && cutoff < x
    decreases |attempts|
  {
    RecentCounts(attempts, cutoff);
    if attempts != [] {
      var n := |attempts| - 1;
      PrunedAreRecent(attempts[..n], cutoff);
      RecentCounts(attempts[..n], cutoff);
      assert attempts == attempts[..n] + [attempts[n]];
    }
  }

  /** Pruning changes no later count. */
  lemma {:induction false} PruningIsUnseen(attempts: seq<int>, cutoff: int, later: int)
    requires cutoff <= later
    ensures Recent(Pruned(attempts, cutoff), later) == Recent(attempts, later)
    decreases |attempts|
  {
    if attempts != [] {
      PruningIsUnseen(attempts[..|attempts| - 1], cutoff, later);
    }
  }

  /** No count from cutoff on tells the two apart. */
  ghost predicate Alike(attempts: seq<int>, log: seq<int>, cutoff: int) {
    forall later :: cutoff <= later ==> Recent(attempts, later) == Recent(log, later)
  }

  lemma AlikeWithOneMore(attempts: seq<int>, log: seq<int>, cutoff: int, now: int)
    requires Alike(attempts, log, cutoff)
    ensures Alike(Pruned(attempts, cutoff) + [now], log + [now], cutoff)
  {
    var kept := Pruned(attempts, cutoff);
    forall later | cutoff <= later ensures Recent(kept + [now], later) == Recent(log + [now], later) {
      PruningIsUnseen(attempts, cutoff, later);
      assert (kept + [now])[..|kept|] == kept && (log + [now])[..|log|] == log;
    }
  }

  lemma AlikeNothing(attempts: seq<int>, log: seq<int>, cutoff: int)
    requires Alike(attempts, log, cutoff) && Recent(attempts, cutoff) == 0
    ensures Alike([], log, cutoff)
  {
  }

  /** How often keys count against bucket b. */
  function Times(keys: seq<Key>, b: string, ipThreshold: nat): nat {
    if keys == [] then 0
    else
      Times(keys[..|keys| - 1], b, ipThreshold) + if Hits(keys[|keys| - 1], b, ipThreshold) then 1 else 0
  }

  predicate Hits(key: Key, b: string, ipThreshold: nat) {
    Counted(key, ipThreshold) && Bucket(key) == b
  }

  predicate Counted(key: Key, ipThreshold: nat) {
    key.value != "" && (key.ip ==> ipThreshold > 0)
  }

  /** Different dimensions and values have different buckets: only a name with a zero character could confuse them. */
  lemma BucketsDiffer(a: Key, b: Key)
    requires '\0' !in a.name && '\0' !in b.name
    ensures Bucket(a) == Bucket(b) <==> a.name == b.name && a.value == b.value
  {
    if Bucket(a) == Bucket(b) {
      ZeroDivides(a.name, a.value, b.name, b.value);
    }
  }

  lemma {:induction false} ZeroDivides(m: string, v: string, n: string, w: string)
    requires '\0' !in m && '\0' !in n && m + "\0" + v == n + "\0" + w
    ensures m == n && v == w
    decreases |m|
  {
    var s := m + "\0" + v;
    assert s[0] == if m == "" then '\0' else m[0];
    assert s[0] == if n == "" then '\0' else n[0];
    if m == "" {
      assert s[1..] == v && (n + "\0" + w)[1..] == w;
    } else {
      assert s[1..] == m[1..] + "\0" + v && (n + "\0" + w)[1..] == n[1..] + "\0" + w;
      ZeroDivides(m[1..], v, n[1..], w);
    }
  }

  /** The keys that name this dimension and value and count: those with a value, client addresses only under a limit of their own. */
  ghost function Naming(keys: seq<Key>, key: Key, ipThreshold: nat): set<nat> {
    set i: nat | i < |keys| && keys[i].name == key.name && keys[i].value == key.value
                 && keys[i].value != "" && (!keys[i].ip || ipThreshold > 0)
  }

  /** Those, and no others, count against its bucket. */
  lemma {:induction false} TimesAreNamings(keys: seq<Key>, key: Key, ipThreshold: nat)
    requires '\0' !in key.name && forall i :: 0 <= i < |keys| ==> '\0' !in keys[i].name
    ensures Times(keys, Bucket(key), ipThreshold) == |Naming(keys, key, ipThreshold)|
    decreases |keys|
  {
    hide Bucket;
    if keys != [] {
      var n := |keys| - 1;
      TimesAreNamings(keys[..n], key, ipThreshold);
      BucketsDiffer(keys[n], key);
      OneMoreNaming(keys, key, ipThreshold);
    } else {
      assert Naming(keys, key, ipThreshold) == {};
    }
  }

  lemma OneMoreNaming(keys: seq<Key>, key: Key, ipThreshold: nat)
    requires keys != [] && (Bucket(keys[|keys| - 1]) == Bucket(key) <==>
      keys[|keys| - 1].name == key.name && keys[|keys| - 1].value == key.value)
    ensures var n := |keys| - 1;
            |Naming(keys, key, ipThreshold)| ==
            |Naming(keys[..n], key, ipThreshold)| + if Hits(keys[n], Bucket(key), ipThreshold) then 1 else 0
  {
    hide Bucket;
    var n := |keys| - 1;
    var before := Naming(keys[..n], key, ipThreshold);
    assert n !in before && forall i :: i in before <==> i < n && i in Naming(keys, key, ipThreshold);
    assert Naming(keys, key, ipThreshold) == before + if Hits(keys[n], Bucket(key), ipThreshold) then {n} else {};
  }

  function Repeat(now: int, n: nat): seq<int> {
    seq(n, _ => now)
  }

  function LogOf(full: map<string, seq<int>>, b: string): seq<int> {
    if b in full then full[b] else []
  }

  /**
   Each bucket has one more attempt for every key that counts against it; one
   that was evicted lost those before, and counts from then on.
   */
  ghost predicate Logged(before: map<string, seq<int>>, after: map<string, seq<int>>, evicted: set<string>,
                         keys: seq<Key>, now: int, ipThreshold: nat) {
    forall b :: if b in evicted then JustNow(LogOf(after, b), now, Times(keys, b, ipThreshold))
                else LogOf(after, b) == LogOf(before, b) + Repeat(now, Times(keys, b, ipThreshold))
  }

  /** At most n attempts, all at now. */
  ghost predicate JustNow(log: seq<int>, now: int, n: nat) {
    |log| <= n && log == Repeat(now, |log|)
  }

  lemma NothingLogged(full: map<string, seq<int>>, now: int, ipThreshold: nat)
    ensures Logged(full, full, {}, [], now, ipThreshold)
  {
  }

  lemma LoggedOneMore(before: map<string, seq<int>>, midway: map<string, seq<int>>, after: map<string, seq<int>>,
                      evicted: set<string>, gone: set<string>, keys: seq<Key>, i: nat, now: int, ipThreshold: nat)
    requires i < |keys| && Logged(before, midway, evicted, keys[..i], now, ipThreshold)
    requires Moved(midway, after, gone, keys[i], now, ipThreshold)
    ensures Logged(before, after, evicted + gone, keys[..i + 1], now, ipThreshold)
  {
    hide LogOf, Hits;
    assert keys[..i + 1][..i] == keys[..i];
    forall b
      ensures b !in evicted + gone ==> LogOf(after, b) == LogOf(before, b) + Repeat(now, Times(keys[..i + 1], b, ipThreshold))
      ensures b in evicted + gone ==> JustNow(LogOf(after, b), now, Times(keys[..i + 1], b, ipThreshold))
    {
      RepeatOnce(now, Times(keys[..i], b, ipThreshold));
      RepeatOnce(now, |LogOf(midway, b)|);
    }
  }

  /** One key: an attempt against its bucket, and nothing left of what is gone. */
  ghost predicate Moved(before: map<string, seq<int>>, after: map<string, seq<int>>, gone: set<string>,
                        key: Key, now: int, ipThreshold: nat) {
    forall b :: if b in gone then LogOf(after, b) == [] && !Hits(key, b, ipThreshold)
                else LogOf(after, b) == LogOf(before, b) + if Hits(key, b, ipThreshold) then [now] else []
  }

  /** Every bucket has the same log in both. */
  ghost predicate SameLogs(a: map<string, seq<int>>, b: map<string, seq<int>>) {
    forall x :: LogOf(a, x) == LogOf(b, x)
  }

  /** What one key does to the logs of a limiter that loses `gone`. */
  function OneRecorded(logs: map<string, seq<int>>, key: Key, gone: set<string>, now: int, ipThreshold: nat): map<string, seq<int>> {
    var left := logs - gone;
    if Counted(key, ipThreshold) then left[Bucket(key) := LogOf(left, Bucket(key)) + [now]] else left
  }

  /** What is lost at the n-th of several keys. */
  function GoneAt(gones: seq<set<string>>, n: nat): set<string> {
    if n < |gones| then gones[n] else {}
  }

  function Recorded(logs: map<string, seq<int>>, keys: seq<Key>, gones: seq<set<string>>, now: int,
       ipThreshold: nat): map<string, seq<int>> {
    if keys == [] then logs
    else
      var n := |keys| - 1;
      OneRecorded(Recorded(logs, keys[..n], gones, now, ipThreshold), keys[n], GoneAt(gones, n), now, ipThreshold)
  }

  lemma MovedAlike(before: map<string, seq<int>>, after: map<string, seq<int>>, gone: set<string>, key: Key, now: int, ipThreshold: nat,
                   logs: map<string, seq<int>>)
    requires Moved(before, after, gone, key, now, ipThreshold) && SameLogs(before, logs)
    ensures SameLogs(after, OneRecorded(logs, key, gone, now, ipThreshold))
  {
    hide LogOf, OneRecorded, Hits;
    forall b ensures LogOf(after, b) == LogOf(OneRecorded(logs, key, gone, now, ipThreshold), b) {
      assert LogOf(before, b) == LogOf(logs, b);
      OneRecordedAt(logs, key, gone, now, ipThreshold, b);
    }
  }

  lemma OneRecordedAt(logs: map<string, seq<int>>, key: Key, gone: set<string>, now: int, ipThreshold: nat, b: string)
    ensures LogOf(OneRecorded(logs, key, gone, now, ipThreshold), b)
            == (if b in gone then [] else LogOf(logs, b)) + if Hits(key, b, ipThreshold) then [now] else []
  {
  }

  lemma SameLogsStay(a: map<string, seq<int>>, b: map<string, seq<int>>, keys: seq<Key>, gones: seq<set<string>>, now: int,
                     ipThreshold: nat)
    requires SameLogs(a, b)
    ensures SameLogs(Recorded(a, keys, gones, now, ipThreshold), Recorded(b, keys, gones, now, ipThreshold))
    decreases |keys|
  {
    hide LogOf;
    if keys != [] {
      var n := |keys| - 1;
      SameLogsStay(a, b, keys[..n], gones, now, ipThreshold);
      OneAlike(Recorded(a, keys[..n], gones, now, ipThreshold), Recorded(b, keys[..n], gones, now, ipThreshold), keys[n],
               GoneAt(gones, n), now, ipThreshold);
    }
  }

  lemma OneAlike(a: map<string, seq<int>>, b: map<string, seq<int>>, key: Key, gone: set<string>, now: int, ipThreshold: nat)
    requires SameLogs(a, b)
    ensures SameLogs(OneRecorded(a, key, gone, now, ipThreshold), OneRecorded(b, key, gone, now, ipThreshold))
  {
    hide LogOf, OneRecorded, Hits;
    forall x ensures LogOf(OneRecorded(a, key, gone, now, ipThreshold), x) == LogOf(OneRecorded(b, key, gone, now, ipThreshold), x) {
      assert LogOf(a, x) == LogOf(b, x);
      OneRecordedAt(a, key, gone, now, ipThreshold, x);
      OneRecordedAt(b, key, gone, now, ipThreshold, x);
    }
  }

  lemma RecordedNext(logs: map<string, seq<int>>, keys: seq<Key>, i: nat, gones: seq<set<string>>, gone: set<string>, now: int,
                     ipThreshold: nat)
    requires i < |keys| && |gones| == i
    ensures Recorded(logs, keys[..i + 1], gones + [gone], now, ipThreshold)
            == OneRecorded(Recorded(logs, keys[..i], gones, now, ipThreshold), keys[i], gone, now, ipThreshold)
  {
    hide OneRecorded;
    assert keys[..i + 1][..i] == keys[..i];
    RecordedFront(logs, keys[..i], gones, gone, now, ipThreshold);
  }

  lemma {:induction false} RecordedFront(logs: map<string, seq<int>>, keys: seq<Key>, gones: seq<set<string>>,
                                         gone: set<string>, now: int, ipThreshold: nat)
    requires |keys| <= |gones|
    ensures Recorded(logs, keys, gones + [gone], now, ipThreshold) == Recorded(logs, keys, gones, now, ipThreshold)
    decreases |keys|
  {
    hide OneRecorded;
    if keys != [] {
      RecordedFront(logs, keys[..|keys| - 1], gones, gone, now, ipThreshold);
    }
  }

  lemma RepeatOnce(now: int, n: nat)
    ensures Repeat(now, n) + [now] == Repeat(now, n + 1)
  {
  }

  /** When b was seen last; now, if it is not in the table yet. */
  function SeenAt(entries: map<string, Entry>, b: string, now: int): int {
    if b in entries then entries[b].lastSeen else now
  }

  /** What is gone had been seen no later than anything else, and what stays was seen then or now. */
  ghost predicate Renewed(before: map<string, Entry>, after: map<string, Entry>, gone: set<string>, now: int) {
    && gone <= before.Keys
    && (forall c :: c in after ==> after[c].lastSeen == now || (c in before && after[c].lastSeen == before[c].lastSeen))
    && (forall b, c :: b in gone && c in before ==> before[b].lastSeen <= before[c].lastSeen)
  }

  lemma RenewedOne(before: map<string, Entry>, gone: set<string>, b: string, e: Entry, now: int)
    requires gone <= before.Keys && e.lastSeen == now
    requires forall g, c :: g in gone && c in before ==> before[g].lastSeen <= before[c].lastSeen
    ensures Renewed(before, (before - gone)[b := e], gone, now)
  {
  }

  lemma OneMoved(before: map<string, seq<int>>, after: map<string, seq<int>>, gone: set<string>, key: Key, now: int, ipThreshold: nat)
    requires Counted(key, ipThreshold) && Bucket(key) !in gone && (forall c :: c in gone ==> LogOf(after, c) == [])
    requires LogOf(after, Bucket(key)) == LogOf(before, Bucket(key)) + [now]
    requires forall c :: c != Bucket(key) && c !in gone ==> LogOf(after, c) == LogOf(before, c)
    ensures Moved(before, after, gone, key, now, ipThreshold)
  {
    hide LogOf;
  }

  lemma NoneMoved(entries: map<string, Entry>, full: map<string, seq<int>>, key: Key, now: int, ipThreshold: nat)
    requires !Counted(key, ipThreshold)
    ensures Moved(full, full, {}, key, now, ipThreshold) && OneRefreshed(entries, entries, key, now, ipThreshold)
  {
  }

  lemma OneRenewed(before: map<string, Entry>, gone: set<string>, key: Key, e: Entry, now: int, ipThreshold: nat)
    requires Counted(key, ipThreshold) && e.lastSeen == now
    ensures OneRefreshed(before, (before - gone)[Bucket(key) := e], key, now, ipThreshold)
  {
  }

  lemma RenewedNone(entries: map<string, Entry>, now: int)
    ensures Renewed(entries, entries, {}, now)
  {
  }

  lemma SizeOf(before: map<string, Entry>, gone: set<string>, b: string, e: Entry)
    requires gone <= before.Keys
    ensures |(before - gone)[b := e]| + |gone| <= |before| + 1
  {
    var left := before - gone;
    assert left[b := e].Keys == left.Keys + {b} && left.Keys == before.Keys - gone;
    assert |left| == |left.Keys| && |left[b := e]| == |left[b := e].Keys|;
  }

  /** What was evicted had been seen no later than what stays. */
  ghost predicate Oldest(before: map<string, Entry>, after: map<string, Entry>, evicted: set<string>, now: int) {
    && (forall c :: c in after ==> SeenAt(before, c, now) <= after[c].lastSeen <= now)
    && (forall b, c :: b in evicted && c in after ==> SeenAt(before, b, now) <= after[c].lastSeen)
  }

  lemma NothingYet(entries: map<string, Entry>, now: int)
    requires forall c :: c in entries ==> entries[c].lastSeen <= now
    ensures Oldest(entries, entries, {}, now)
  {
  }

  lemma OldestOn(before: map<string, Entry>, midway: map<string, Entry>, after: map<string, Entry>,
                 evicted: set<string>, gone: set<string>, now: int)
    requires forall c :: c in before ==> before[c].lastSeen <= now
    requires Oldest(before, midway, evicted, now) && Renewed(midway, after, gone, now)
    ensures Oldest(before, after, evicted + gone, now)
  {
  }

  lemma StillOldest(before: map<string, Entry>, midway: map<string, Entry>, after: map<string, Entry>, evicted: set<string>, now: int)
    requires Oldest(before, midway, evicted, now)
    requires after.Keys <= midway.Keys && forall c :: c in after ==> after[c] == midway[c]
    ensures Oldest(before, after, evicted, now)
  {
  }

  /** What stays was seen then, or is of a key that counts now. */
  ghost predicate Refreshed(before: map<string, Entry>, after: map<string, Entry>, keys: seq<Key>, now: int, ipThreshold: nat) {
    forall c :: c in after ==>
      (Times(keys, c, ipThreshold) > 0 && after[c].lastSeen == now) || (c in before && after[c].lastSeen == before[c].lastSeen)
  }

  /** The bucket c was seen no earlier than b had been: with one of the keys, or before. */
  ghost predicate SeenSince(before: map<string, Entry>, b: string, c: string, keys: seq<Key>, now: int, ipThreshold: nat) {
    Times(keys, c, ipThreshold) > 0 || (c in before && SeenAt(before, b, now) <= before[c].lastSeen)
  }

  /** MAX_ENTRIES others have been seen since b was. */
  ghost predicate Outlived(before: map<string, Entry>, b: string, keys: seq<Key>, now: int, ipThreshold: nat) {
    && (b in before || Times(keys, b, ipThreshold) > 0)
    && exists others: set<string> :: AreSeenSince(before, b, others, keys, now, ipThreshold)
  }

  ghost predicate AreSeenSince(before: map<string, Entry>, b: string, others: set<string>, keys: seq<Key>, now: int, ipThreshold: nat) {
    |others| == MAX_ENTRIES && b !in others && forall c :: c in others ==> SeenSince(before, b, c, keys, now, ipThreshold)
  }

  lemma TimesNext(keys: seq<Key>, i: nat, b: string, ipThreshold: nat)
    requires i < |keys|
    ensures Times(keys[..i + 1], b, ipThreshold) == Times(keys[..i], b, ipThreshold) + if Hits(keys[i], b, ipThreshold) then 1 else 0
  {
    assert keys[..i + 1][..i] == keys[..i];
  }

  lemma OutlivedNext(before: map<string, Entry>, b: string, keys: seq<Key>, i: nat, now: int, ipThreshold: nat)
    requires i < |keys| && Outlived(before, b, keys[..i], now, ipThreshold)
    ensures Outlived(before, b, keys[..i + 1], now, ipThreshold)
  {
    hide Times, Hits;
    forall c ensures Times(keys[..i], c, ipThreshold) <= Times(keys[..i + 1], c, ipThreshold) {
      TimesNext(keys, i, c, ipThreshold);
    }
    var others: set<string> :| AreSeenSince(before, b, others, keys[..i], now, ipThreshold);
    assert AreSeenSince(before, b, others, keys[..i + 1], now, ipThreshold);
  }

  /** What the i-th key makes room for in a full table. */
  lemma OutlivedNow(before: map<string, Entry>, table: map<string, Entry>, g: string, keys: seq<Key>, i: nat, now: int, ipThreshold: nat)
    requires i < |keys| && Refreshed(before, table, keys[..i], now, ipThreshold) && (forall c :: c in before ==> before[c].lastSeen <= now)
    requires |table| == MAX_ENTRIES && Counted(keys[i], ipThreshold) && Bucket(keys[i]) !in table
    requires g in table && forall c :: c in table ==> table[g].lastSeen <= table[c].lastSeen
    requires SeenAt(before, g, now) <= table[g].lastSeen
    ensures Outlived(before, g, keys[..i + 1], now, ipThreshold)
  {
    hide Times;
    var nb := Bucket(keys[i]);
    var others := table.Keys - {g} + {nb};
    assert |table.Keys - {g}| == MAX_ENTRIES - 1;
    TimesNext(keys, i, g, ipThreshold);
    forall c | c in others ensures SeenSince(before, g, c, keys[..i + 1], now, ipThreshold) {
      TimesNext(keys, i, c, ipThreshold);
      if c != nb {
        assert c in table && table[g].lastSeen <= table[c].lastSeen;
      }
    }
    assert AreSeenSince(before, g, others, keys[..i + 1], now, ipThreshold);
  }

  lemma RefreshedNext(before: map<string, Entry>, table: map<string, Entry>, after: map<string, Entry>, keys: seq<Key>, i: nat,
                      now: int, ipThreshold: nat)
    requires i < |keys| && Refreshed(before, table, keys[..i], now, ipThreshold)
    requires OneRefreshed(table, after, keys[i], now, ipThreshold)
    ensures Refreshed(before, after, keys[..i + 1], now, ipThreshold)
  {
    hide Times;
    forall c ensures Times(keys[..i + 1], c, ipThreshold) == Times(keys[..i], c, ipThreshold) + if Hits(keys[i], c,
         ipThreshold) then 1 else 0 {
      TimesNext(keys, i, c, ipThreshold);
    }
  }

  ghost predicate OneRefreshed(before: map<string, Entry>, after: map<string, Entry>, key: Key, now: int, ipThreshold: nat) {
    forall c :: c in after ==>
      (Hits(key, c, ipThreshold) && after[c].lastSeen == now) || (c in before && after[c].lastSeen == before[c].lastSeen)
  }

  function Union(gones: seq<set<string>>): set<string> {
    if gones == [] then {} else Union(gones[..|gones| - 1]) + gones[|gones| - 1]
  }

  lemma UnionNext(gones: seq<set<string>>, gone: set<string>)
    ensures Union(gones + [gone]) == Union(gones) + gone
  {
  }

  class LoginLimiter {
    const window: nat
    const threshold: nat
    const ipThreshold: nat
    var entries: map<string, Entry>
    var calls: nat
    ghost var full: map<string, seq<int>>  // every attempt of a bucket since it was last evicted
    ghost var clock: int

    ghost function Full(b: string): seq<int>
      reads this`full
    {
      LogOf(full, b)
    }

    function Attempts(b: string): seq<int>
      reads this`entries
    {
      if b in entries then entries[b].attempts else []
    }

    /** From now on every bucket counts as its whole log would, and the table has room for no more than it may hold. */
    ghost predicate Valid()
      reads this`entries, this`full, this`clock
    {
      && threshold > 0 && |entries| <= MAX_ENTRIES
      && (forall b :: Alike(Attempts(b), Full(b), clock - window))
      && forall b :: b in entries ==> entries[b].lastSeen <= clock
    }

    constructor (window: nat, threshold: nat, ipThreshold: nat)
      requires threshold > 0
      ensures Valid() && full == map[] && entries == map[] && clock == 0
      ensures this.window == window && this.threshold == threshold && this.ipThreshold == ipThreshold
    {
      this.window, this.threshold, this.ipThreshold := window, threshold, ipThreshold;
      entries, calls, full, clock := map[], 0, map[], 0;
    }

    function LimitOf(key: Key): nat {
      if key.ip then ipThreshold else threshold
    }

    /** The key's whole log holds its limit within the window. */
    ghost predicate Exhausted(key: Key, now: int)
      reads this
    {
      Counted(key, ipThreshold) && Recent(Full(Bucket(key)), now - window) >= LimitOf(key)
    }

    /** check: whether every key is within its limit, and else the first that is not. */
    method Check(keys: seq<Key>, now: int) returns (ok: bool, name: string)
      requires Valid() && clock <= now
      ensures ok <==> forall i :: 0 <= i < |keys| ==> !Exhausted(keys[i], now)
      ensures !ok ==> exists i :: 0 <= i < |keys| && Exhausted(keys[i], now) && name == keys[i].name
                                  && forall j :: 0 <= j < i ==> !Exhausted(keys[j], now)
    {
      var i := 0;
      while i < |keys|
        invariant 0 <= i <= |keys| && forall j :: 0 <= j < i ==> !Exhausted(keys[j], now)
      {
        var key := keys[i];
        assert Alike(Attempts(Bucket(key)), Full(Bucket(key)), clock - window);
        if Counted(key, ipThreshold) {
          var count := CountRecent(Attempts(Bucket(key)), now - window);
          if Bucket(key) in entries && count >= LimitOf(key) {
            return false, key.name;
          }
        }
        i := i + 1;
      }
      return true, "";
    }

    method CountRecent(attempts: seq<int>, cutoff: int) returns (count: nat)
      ensures count == Recent(attempts, cutoff)
    {
      count := 0;
      var i := 0;
      while i < |attempts|
        invariant 0 <= i <= |attempts| && count == Recent(attempts[..i], cutoff)
      {
        assert attempts[..i + 1][..i] == attempts[..i];
        if attempts[i] > cutoff {
          count := count + 1;
        }
        i := i + 1;
      }
      assert attempts[..i] == attempts;
    }

    /** record: an attempt for every counted key; says whether a cleanup is due. */
    method Record(keys: seq<Key>, now: int) returns (cleanup: bool, ghost evicted: set<string>, ghost gones: seq<set<string>>)
      requires Valid() && clock <= now
      modifies this
      ensures Valid() && clock == now && calls == old(calls) + 1
      ensures cleanup == (|entries| >= WATERMARK || calls % 100 == 0)
      ensures Logged(old(full), full, evicted, keys, now, ipThreshold)
      ensures evicted == {} || MAX_ENTRIES + |evicted| <= |old(entries)| + |keys|
      ensures |entries| <= |old(entries)| + |keys|
      ensures Oldest(old(entries), entries, evicted, now) && Refreshed(old(entries), entries, keys, now, ipThreshold)
      ensures forall b :: b in evicted ==> Outlived(old(entries), b, keys, now, ipThreshold)
      ensures evicted == Union(gones) && SameLogs(full, Recorded(old(full), keys, gones, now, ipThreshold))
    {
      hide Valid, Alike, Logged, Moved, Renewed, Oldest, Refreshed, OneRefreshed, Outlived, SameLogs, Recorded, OneRecorded, Union;
      evicted, gones := {}, [];
      NoneRecorded(entries, full, now, ipThreshold);
      Tick(now);
      AllSeen();
      NothingLogged(full, now, ipThreshold);
      NothingYet(entries, now);
      var i := 0;
      while i < |keys|
        invariant 0 <= i <= |keys| && keys[..0] == [] && Valid() && clock == now && calls == old(calls)
        invariant Logged(old(full), full, evicted, keys[..i], now, ipThreshold)
        invariant |entries| + |evicted| <= |old(entries)| + i
        invariant evicted == {} || MAX_ENTRIES + |evicted| <= |old(entries)| + i
        invariant Oldest(old(entries), entries, evicted, now) && Refreshed(old(entries), entries, keys[..i], now, ipThreshold)
        invariant forall b :: b in evicted ==> Outlived(old(entries), b, keys[..i], now, ipThreshold)
        invariant |gones| == i && evicted == Union(gones) && SameLogs(full, Recorded(old(full), keys[..i], gones, now, ipThreshold))
      {
        ghost var midway, table := full, entries;
        ghost var gone := RecordKey(keys[i], now);
        GoneIsOutlived(old(entries), table, entries, evicted, gone, keys, i, now, ipThreshold);
        RefreshedNext(old(entries), table, entries, keys, i, now, ipThreshold);
        RecordedNext(old(full), keys, i, gones, gone, now, ipThreshold);
        MovedAlike(midway, full, gone, keys[i], now, ipThreshold, Recorded(old(full), keys[..i], gones, now, ipThreshold));
        UnionNext(gones, gone);
        OneMoreGone(evicted, gone);
        OldestOn(old(entries), table, entries, evicted, gone, now);
        LoggedOneMore(old(full), midway, full, evicted, gone, keys, i, now, ipThreshold);
        evicted, gones := evicted + gone, gones + [gone];
        i := i + 1;
      }
      assert keys[..i] == keys;
      calls := calls + 1;
      cleanup := |entries| >= WATERMARK || calls % 100 == 0;
    }

    method RecordKey(key: Key, now: int) returns (ghost gone: set<string>)
      requires Valid() && clock == now
      modifies this`entries, this`full
      ensures Valid() && |entries| + |gone| <= |old(entries)| + 1 && |gone| <= 1 && (|old(entries)| < MAX_ENTRIES ==> gone == {})
      ensures Moved(old(full), full, gone, key, now, ipThreshold)
      ensures OneRefreshed(old(entries), entries, key, now, ipThreshold)
      ensures gone != {} ==> |old(entries)| == MAX_ENTRIES && Counted(key, ipThreshold) && Bucket(key) !in old(entries)
      ensures gone <= old(entries).Keys && Renewed(old(entries), entries, gone, now)
    {
      hide Alike, Valid, Renewed, OneRefreshed, Moved, Counted;
      ghost var before, logs := entries, full;
      gone := {};
      if Counted(key, ipThreshold) {
        gone := RecordOne(Bucket(key), now);
        RenewedOne(before, gone, Bucket(key), entries[Bucket(key)], now);
        OneRenewed(before, gone, key, entries[Bucket(key)], now, ipThreshold);
        OneMoved(logs, full, gone, key, now, ipThreshold);
        SizeOf(before, gone, Bucket(key), entries[Bucket(key)]);
      } else {
        RenewedNone(entries, now);
        NoneMoved(entries, full, key, now, ipThreshold);
      }
    }

    /** Time passes: there is less left to agree on. */
    ghost method Tick(now: int)
      requires Valid() && clock <= now
      modifies this`clock
      ensures Valid() && clock == now
    {
      clock := now;
    }

    /** recordLocked: the bucket's attempts within the window, and this one. A full table makes room first. */
    method RecordOne(b: string, now: int) returns (ghost gone: set<string>)
      requires Valid() && clock == now
      modifies this`entries, this`full
      ensures Valid() && b in entries && entries[b].lastSeen == now && entries == (old(entries) - gone)[b := entries[b]]
      ensures |gone| <= 1 && b !in gone && gone <= old(entries).Keys && (gone != {} ==> |old(entries)| == MAX_ENTRIES && b !in old(entries))
      ensures forall g, c :: g in gone && c in old(entries) ==> old(entries)[g].lastSeen <= old(entries)[c].lastSeen
      ensures forall c :: c in gone ==> Full(c) == []
      ensures entries[b].attempts == Pruned(old(Attempts(b)), now - window) + [now]
      ensures Full(b) == old(Full(b)) + [now]
      ensures forall c :: c != b && c !in gone ==> Full(c) == old(Full(c))
    {
      hide Alike, Recent, Pruned, Valid;
      gone := MakeRoom(b);
      var kept := Prune(Attempts(b), now - window);
      IsAlike(b);
      AlikeWithOneMore(Attempts(b), Full(b), now - window, now);
      Append(b, kept, now);
    }

    lemma AllSeen()
      requires Valid()
      ensures |entries| <= MAX_ENTRIES && forall b :: b in entries ==> entries[b].lastSeen <= clock
    {
    }

    lemma IsAlike(b: string)
      requires Valid()
      ensures Alike(Attempts(b), Full(b), clock - window)
    {
    }

    /** A full table makes room for a bucket it does not have. */
    method MakeRoom(b: string) returns (ghost gone: set<string>)
      requires Valid()
      modifies this`entries, this`full
      ensures Valid() && (b in entries || |entries| < MAX_ENTRIES) && entries == old(entries) - gone && |entries| + |gone| == |old(entries)|
      ensures |gone| <= 1 && b !in gone && gone <= old(entries).Keys && (gone != {} ==> |old(entries)| == MAX_ENTRIES && b !in old(entries))
      ensures forall g, c :: g in gone && c in old(entries) ==> old(entries)[g].lastSeen <= old(entries)[c].lastSeen
      ensures forall c :: c in gone ==> Full(c) == []
      ensures forall c :: c !in gone ==> Full(c) == old(Full(c)) && Attempts(c) == old(Attempts(c))
    {
      hide Alike;
      gone := {};
      if b !in entries && |entries| >= MAX_ENTRIES {
        gone := EvictOldest();
      } else {
        assert entries - gone == entries;
      }
    }

    method Append(b: string, kept: seq<int>, now: int)
      requires Valid() && clock == now && (b in entries || |entries| < MAX_ENTRIES)
      requires Alike(kept + [now], Full(b) + [now], now - window)
      modifies this`entries, this`full
      ensures Valid() && entries == old(entries)[b := Entry(kept + [now], now)]
      ensures Full(b) == old(Full(b)) + [now] && Attempts(b) == kept + [now]
      ensures forall c :: c != b ==> Full(c) == old(Full(c)) && Attempts(c) == old(Attempts(c))
    {
      hide Alike;
      assert b !in entries ==> entries[b := Entry(kept + [now], now)].Keys == entries.Keys + {b};
      assert b in entries ==> entries[b := Entry(kept + [now], now)].Keys == entries.Keys;
      full := full[b := Full(b) + [now]];
      entries := entries[b := Entry(kept + [now], now)];
      assert Attempts(b) == kept + [now] && Full(b) == old(Full(b)) + [now];
      assert forall c :: c != b ==> Attempts(c) == old(Attempts(c)) && Full(c) == old(Full(c));
    }

    /** The in-place filter of recordLocked. */
    method Prune(attempts: seq<int>, cutoff: int) returns (kept: seq<int>)
      ensures kept == Pruned(attempts, cutoff)
    {
      kept := [];
      var i := 0;
      while i < |attempts|
        invariant 0 <= i <= |attempts| && kept == Pruned(attempts[..i], cutoff)
      {
        assert attempts[..i + 1][..i] == attempts[..i];
        if attempts[i] > cutoff {
          kept := kept + [attempts[i]];
        }
        i := i + 1;
      }
      assert attempts[..i] == attempts;
    }

    /** evictOldestLocked: the bucket last seen longest ago goes, and its log with it. */
    method EvictOldest() returns (ghost gone: set<string>)
      requires Valid() && entries != map[]
      modifies this`entries, this`full
      ensures Valid() && |gone| == 1 && |entries| == |old(entries)| - 1 && entries == old(entries) - gone
      ensures forall b :: b in gone ==> b in old(entries) && Full(b) == [] && Attempts(b) == []
      ensures forall b :: b in gone ==> forall c :: c in old(entries) ==> old(entries[b]).lastSeen <= old(entries[c]).lastSeen
      ensures forall c :: c !in gone ==> Full(c) == old(Full(c)) && Attempts(c) == old(Attempts(c))
    {
      var oldest :| oldest in entries;
      var todo := entries.Keys - {oldest};
      while todo != {}
        invariant todo <= entries.Keys && oldest in entries
        invariant forall c :: c in entries && c !in todo ==> entries[oldest].lastSeen <= entries[c].lastSeen
        decreases todo
      {
        var b :| b in todo;
        if entries[b].lastSeen < entries[oldest].lastSeen {
          oldest := b;
        }
        todo := todo - {b};
      }
      gone := {oldest};
      assert entries.Keys == (entries - {oldest}).Keys + {oldest};
      entries, full := entries - {oldest}, full - {oldest};
      assert Attempts(oldest) == [] && Full(oldest) == [] && Alike([], [], clock - window);
      assert forall c :: c != oldest ==> Attempts(c) == old(Attempts(c)) && Full(c) == old(Full(c));
    }

    /** cleanupLocked: the buckets without a recent attempt go; no count changes. */
    method Cleanup(now: int)
      requires Valid() && clock <= now
      modifies this`entries, this`clock
      ensures Valid() && clock == now
      ensures entries.Keys <= old(entries).Keys && forall b :: b in entries ==> entries[b] == old(entries)[b]
      ensures forall b :: b in old(entries) ==> (b in entries <==> Recent(old(entries)[b].attempts, now - window) > 0)
    {
      hide Alike;
      Tick(now);
      var before, todo := entries, entries.Keys;
      while todo != {}
        invariant todo <= before.Keys && Valid() && clock == now
        invariant entries.Keys <= before.Keys && todo <= entries.Keys && forall b :: b in entries ==> entries[b] == before[b]
        invariant forall b :: b in before && b !in todo ==> (b in entries <==> Recent(before[b].attempts, now - window) > 0)
        decreases todo
      {
        var b :| b in todo;
        todo := todo - {b};
        var count := CountRecent(entries[b].attempts, now - window);
        if count == 0 {
          Forget(b);
        }
      }
    }

    method Forget(b: string)
      requires Valid() && b in entries && Recent(entries[b].attempts, clock - window) == 0
      modifies this`entries
      ensures Valid() && entries == old(entries) - {b}
    {
      hide Alike;
      AlikeNothing(Attempts(b), Full(b), clock - window);
      ghost var attempts := entries;
      entries := entries - {b};
      assert forall c :: c != b ==> Attempts(c) == if c in attempts then attempts[c].attempts else [];
      assert entries.Keys <= attempts.Keys && attempts.Keys == entries.Keys + {b};
    }

    /** throttle, by itself: refused without a trace, or counted against every key; only a full table forgets, what was seen longest ago. */
    method Throttle(keys: seq<Key>, now: int, later: int) returns (ok: bool, ghost evicted: set<string>)
      requires Valid() && clock <= now <= later
      modifies this
      ensures Valid()
      ensures ok <==> forall i :: 0 <= i < |keys| ==> !old(Exhausted(keys[i], now))
      ensures ok ==> Logged(old(full), full, evicted, keys, later, ipThreshold)
      ensures !ok ==> full == old(full) && entries == old(entries) && evicted == {}
      ensures evicted == {} || MAX_ENTRIES + |evicted| <= |old(entries)| + |keys|
      ensures Oldest(old(entries), entries, evicted, later)
    {
      hide Alike, Logged, Oldest;
      evicted := {};
      NothingYet(entries, later);
      var name;
      ok, name := Check(keys, now);
      if ok {
        var due;
        ghost var gones;
        due, evicted, gones := Record(keys, later);
        if due {
          ghost var table := entries;
          Cleanup(later);
          StillOldest(old(entries), table, entries, evicted, later);
        }
      }
    }
  }

  lemma NoneRecorded(entries: map<string, Entry>, full: map<string, seq<int>>, now: int, ipThreshold: nat)
    ensures Refreshed(entries, entries, [], now, ipThreshold) && Union([]) == {}
    ensures SameLogs(full, Recorded(full, [], [], now, ipThreshold))
  {
  }

  /** What was evicted so far, and what the i-th key evicts. */
  lemma GoneIsOutlived(before: map<string, Entry>, table: map<string, Entry>, after: map<string, Entry>, evicted: set<string>,
                       gone: set<string>, keys: seq<Key>, i: nat,
                       now: int, ipThreshold: nat)
    requires i < |keys| && Refreshed(before, table, keys[..i], now, ipThreshold) && (forall c :: c in before ==> before[c].lastSeen <= now)
    requires forall b :: b in evicted ==> Outlived(before, b, keys[..i], now, ipThreshold)
    requires gone != {} ==> |table| == MAX_ENTRIES && Counted(keys[i], ipThreshold) && Bucket(keys[i]) !in table
    requires Renewed(table, after, gone, now) && Oldest(before, table, evicted, now)
    ensures forall b :: b in evicted + gone ==> Outlived(before, b, keys[..i + 1], now, ipThreshold)
  {
    hide Outlived, Refreshed;
    forall b | b in evicted + gone ensures Outlived(before, b, keys[..i + 1], now, ipThreshold) {
      if b in gone {
        OutlivedNow(before, table, b, keys, i, now, ipThreshold);
      } else {
        OutlivedNext(before, b, keys, i, now, ipThreshold);
      }
    }
  }

  lemma OneMoreGone(evicted: set<string>, gone: set<string>)
    requires |gone| <= 1
    ensures |evicted + gone| <= |evicted| + |gone|
  {
    if gone != {} {
      var b :| b in gone;
      assert |gone - {b}| == 0 && gone == {b};
      assert evicted + gone == if b in evicted then evicted else evicted + {b};
    }
  }

  // ---------- throttle, by any number of concurrent callers ----------

  /** The attempts after `after` and no later than t. */
  function Within(log: seq<int>, after: int, t: int): nat {
    if log == [] then 0
    else Within(log[..|log| - 1], after, t) + if after < log[|log| - 1] <= t then 1 else 0
  }

  /** The attempts of the window that ends at t. */
  function InWindow(log: seq<int>, window: nat, t: int): nat {
    Within(log, t - window, t)
  }

  /** One bucket: its log, the calls that passed check and have yet to record, and the clock. */
  datatype Bucketed = Bucketed(log: seq<int>, passed: set<nat>, clock: int)

  /** throttle's two halves, each under the lock on its own. */
  datatype Half = Check(id: nat, now: int) | Record(id: nat, now: int)

  predicate Possible(s: Bucketed, half: Half) {
    s.clock <= half.now && if half.Check? then half.id !in s.passed else half.id in s.passed
  }

  function Next(s: Bucketed, half: Half, limit: nat, window: nat): Bucketed {
    match half
    case Check(id, now) =>
      Bucketed(s.log, if Recent(s.log, now - window) < limit then s.passed + {id} else s.passed, now)
    case Record(id, now) => Bucketed(s.log + [now], s.passed - {id}, now)
  }

  /** No window holds more than limit + k - 1 calls, not even with all those that already passed. */
  ghost predicate Bounded(s: Bucketed, limit: nat, window: nat, k: nat) {
    && (forall i :: 0 <= i < |s.log| ==> s.log[i] <= s.clock)
    && (forall t :: InWindow(s.log, window, t) <= limit + k - 1)
    && (forall t :: s.clock <= t ==> InWindow(s.log, window, t) + |s.passed| <= limit + k - 1)
  }

  lemma {:induction false} WithinIsRecent(log: seq<int>, after: int, t: int, cutoff: int)
    requires cutoff <= after
    ensures Within(log, after, t) <= Recent(log, cutoff)
    decreases |log|
  {
    if log != [] {
      WithinIsRecent(log[..|log| - 1], after, t, cutoff);
    }
  }

  lemma WithinOneMore(log: seq<int>, x: int, after: int, t: int)
    ensures Within(log + [x], after, t) == Within(log, after, t) + if after < x <= t then 1 else 0
  {
  }

  lemma StepKeepsBounded(s: Bucketed, half: Half, limit: nat, window: nat, k: nat)
    requires limit > 0 && k > 0 && Bounded(s, limit, window, k) && Possible(s, half) && |Next(s, half, limit, window).passed| <= k
    ensures Bounded(Next(s, half, limit, window), limit, window, k)
  {
    hide Within, Recent;
    var s' := Next(s, half, limit, window);
    match half {
      case Check(id, now) =>
        if s'.passed != s.passed {
          forall t | now <= t ensures InWindow(s.log, window, t) + |s'.passed| <= limit + k - 1 {
            WithinIsRecent(s.log, t - window, t, now - window);
          }
        }
      case Record(id, now) =>
        assert |s.passed| == |s'.passed| + 1;
        forall t ensures InWindow(s'.log, window, t) == InWindow(s.log, window, t) + if t - window < now <= t then 1 else 0 {
          WithinOneMore(s.log, now, t - window, t);
        }
    }
  }

  ghost predicate IsRun(states: seq<Bucketed>, halves: seq<Half>, limit: nat, window: nat, k: nat) {
    && |states| == |halves| + 1 && states[0].log == [] && states[0].passed == {}
    && (forall i :: 0 <= i < |halves| ==> Possible(states[i], halves[i]) && states[i + 1] == Next(states[i], halves[i], limit, window))
    && (forall i :: 0 <= i < |states| ==> |states[i].passed| <= k)
  }

  /**
   With at most k callers at once, no window (t - window, t] of any run lets
   more than limit + k - 1 calls through; one caller at a time keeps the limit.
   */
  lemma {:induction false} ThrottleIsBounded(states: seq<Bucketed>, halves: seq<Half>, limit: nat, window: nat, k: nat, i: nat)
    requires limit > 0 && k > 0 && IsRun(states, halves, limit, window, k) && i <= |halves|
    ensures Bounded(states[i], limit, window, k)
    decreases i
  {
    if i == 0 {
      assert forall t :: InWindow([], window, t) == 0;
    } else {
      ThrottleIsBounded(states, halves, limit, window, k, i - 1);
      assert states[i - 1 + 1] == Next(states[i - 1], halves[i - 1], limit, window);
      StepKeepsBounded(states[i - 1], halves[i - 1], limit, window, k);
    }
  }

  // ---------- ... over the limiter ----------

  /** One thing that happens to the limiter, some time after the last: a call is checked, a passed call counts, a cleanup. */
  datatype Event =
    | Asks(id: nat, keys: seq<Key>, elapsed: nat)
    | Counts(id: nat, elapsed: nat)
    | Sweeps(elapsed: nat)

  /** A limiter that counts whole logs: every attempt since a bucket was last lost, the calls past check, and the clock. */
  datatype Ideal = Ideal(logs: map<string, seq<int>>, passed: map<nat, seq<Key>>, now: int)

  /** How a limiter is set up, and how many callers may be past check at a time. */
  datatype Setting = Setting(window: nat, threshold: nat, ipThreshold: nat, k: nat)

  predicate Over(logs: map<string, seq<int>>, key: Key, now: int, c: Setting) {
    && Counted(key, c.ipThreshold)
    && Recent(LogOf(logs, Bucket(key)), now - c.window) >= if key.ip then c.ipThreshold else c.threshold
  }

  predicate MayPass(s: Ideal, id: nat, keys: seq<Key>, now: int, c: Setting) {
    id !in s.passed && |s.passed| < c.k && forall i :: 0 <= i < |keys| ==> !Over(s.logs, keys[i], now, c)
  }

  /** What an event makes of it, with `gones` lost at the keys it records. */
  function Happens(s: Ideal, e: Event, gones: seq<set<string>>, c: Setting): Ideal {
    var now := s.now + e.elapsed;
    match e
    case Asks(id, keys, _) => Ideal(s.logs, if MayPass(s, id, keys, now, c) then s.passed[id := keys] else s.passed, now)
    case Counts(id, _) =>
      if id in s.passed then Ideal(Recorded(s.logs, s.passed[id], gones, now, c.ipThreshold), s.passed - {id}, now)
      else Ideal(s.logs, s.passed, now)
    case Sweeps(_) => Ideal(s.logs, s.passed, now)
  }

  function LostAt(lost: seq<seq<set<string>>>, n: nat): seq<set<string>> {
    if n < |lost| then lost[n] else []
  }

  function Played(events: seq<Event>, lost: seq<seq<set<string>>>, c: Setting): Ideal {
    if events == [] then Ideal(map[], map[], 0)
    else
      var n := |events| - 1;
      Happens(Played(events[..n], lost, c), events[n], LostAt(lost, n), c)
  }

  function Evicted(lost: seq<seq<set<string>>>): set<string> {
    if lost == [] then {} else Evicted(lost[..|lost| - 1]) + Union(lost[|lost| - 1])
  }

  lemma {:induction false} PlayedFront(events: seq<Event>, lost: seq<seq<set<string>>>, gones: seq<set<string>>, c: Setting)
    requires |events| <= |lost|
    ensures Played(events, lost + [gones], c) == Played(events, lost, c)
    decreases |events|
  {
    hide Happens;
    if events != [] {
      PlayedFront(events[..|events| - 1], lost, gones, c);
    }
  }

  lemma PlayedNext(events: seq<Event>, i: nat, lost: seq<seq<set<string>>>, gones: seq<set<string>>, c: Setting)
    requires i < |events| && |lost| == i
    ensures Played(events[..i + 1], lost + [gones], c) == Happens(Played(events[..i], lost, c), events[i], gones, c)
    ensures Evicted(lost + [gones]) == Evicted(lost) + Union(gones)
  {
    hide Happens;
    assert events[..i + 1][..i] == events[..i];
    PlayedFront(events[..i], lost, gones, c);
  }

  // ---------- What the events may evict ----------

  function TimeOf(events: seq<Event>): nat {
    if events == [] then 0 else TimeOf(events[..|events| - 1]) + events[|events| - 1].elapsed
  }

  function TimeAt(events: seq<Event>, i: nat): nat
    requires i < |events|
  {
    TimeOf(events[..i + 1])
  }

  /** Event i may count against b: it counts a call that named it. */
  ghost predicate MayCount(events: seq<Event>, b: string, i: nat, ipThreshold: nat) {
    && i < |events| && events[i].Counts?
    && exists j :: 0 <= j < i && events[j].Asks? && events[j].id == events[i].id && Times(events[j].keys, b, ipThreshold) > 0
  }

  ghost predicate MayCountSince(events: seq<Event>, b: string, i: nat, ipThreshold: nat)
    requires i < |events|
  {
    exists j {:trigger MayCount(events, b, j, ipThreshold)} :: 0 <= j < |events| && MayCount(events, b, j, ipThreshold)
      && TimeAt(events, i) <= TimeAt(events, j)
  }

  /** Calls that may count against b, and at that time or later against MAX_ENTRIES other buckets. */
  ghost predicate Overtaken(events: seq<Event>, b: string, ipThreshold: nat) {
    exists i {:trigger MayCount(events, b, i, ipThreshold)} :: 0 <= i < |events| && MayCount(events, b, i, ipThreshold)
      && OthersSince(events, b, i, ipThreshold)
  }

  ghost predicate OthersSince(events: seq<Event>, b: string, i: nat, ipThreshold: nat)
    requires i < |events|
  {
    exists others: set<string> :: MayAllCount(events, b, others, i, ipThreshold)
  }

  ghost predicate MayAllCount(events: seq<Event>, b: string, others: set<string>, i: nat, ipThreshold: nat)
    requires i < |events|
  {
    |others| == MAX_ENTRIES && b !in others && forall c :: c in others ==> MayCountSince(events, c, i, ipThreshold)
  }

  /** Every entry of the table is of a bucket that one of the first i events counted against, when it was last seen. */
  ghost predicate Listed(entries: map<string, Entry>, events: seq<Event>, i: nat, ipThreshold: nat) {
    forall b :: b in entries ==> SeenBy(entries[b], b, events, i, ipThreshold)
  }

  ghost predicate SeenBy(e: Entry, b: string, events: seq<Event>, i: nat, ipThreshold: nat) {
    exists j {:trigger MayCount(events, b, j, ipThreshold)} :: 0 <= j < i && j < |events| && MayCount(events, b, j, ipThreshold)
      && e.lastSeen == TimeAt(events, j)
  }

  /** The calls past check are among the first i events. */
  ghost predicate Asked(passed: map<nat, seq<Key>>, events: seq<Event>, i: nat) {
    i <= |events| && forall id :: id in passed ==>
      exists j :: 0 <= j < i && events[j].Asks? && events[j].id == id && events[j].keys == passed[id]
  }

  lemma ListedLater(before: map<string, Entry>, after: map<string, Entry>, events: seq<Event>, i: nat, ipThreshold: nat)
    requires Listed(before, events, i, ipThreshold) && after.Keys <= before.Keys && forall b :: b in after ==> after[b] == before[b]
    ensures Listed(after, events, i + 1, ipThreshold)
  {
    hide MayCount, TimeAt;
    forall b | b in after ensures SeenBy(after[b], b, events, i + 1, ipThreshold) {
      assert SeenBy(before[b], b, events, i, ipThreshold);
    }
  }

  /** Event i counts keys. */
  ghost predicate CountsAt(events: seq<Event>, i: nat, keys: seq<Key>, now: int) {
    && i < |events| && events[i].Counts? && now == TimeAt(events, i)
    && exists j :: 0 <= j < i && events[j].Asks? && events[j].id == events[i].id && events[j].keys == keys
  }

  lemma KeysCount(events: seq<Event>, i: nat, keys: seq<Key>, now: int, b: string, ipThreshold: nat)
    requires CountsAt(events, i, keys, now) && Times(keys, b, ipThreshold) > 0
    ensures MayCount(events, b, i, ipThreshold)
  {
  }

  lemma ListedOn(before: map<string, Entry>, after: map<string, Entry>, events: seq<Event>, i: nat, keys: seq<Key>, now: int,
                 ipThreshold: nat)
    requires Listed(before, events, i, ipThreshold) && Refreshed(before, after, keys, now, ipThreshold) && CountsAt(events, i, keys, now)
    ensures Listed(after, events, i + 1, ipThreshold)
  {
    hide MayCount, TimeAt, Times;
    forall b | b in after ensures SeenBy(after[b], b, events, i + 1, ipThreshold) {
      if Times(keys, b, ipThreshold) > 0 && after[b].lastSeen == now {
        NowCounts(events, i, keys, now, b, ipThreshold);
      } else {
        assert SeenBy(before[b], b, events, i, ipThreshold);
      }
    }
  }

  lemma NowCounts(events: seq<Event>, i: nat, keys: seq<Key>, now: int, b: string, ipThreshold: nat)
    requires CountsAt(events, i, keys, now) && Times(keys, b, ipThreshold) > 0
    ensures i < |events| && now == TimeAt(events, i) && MayCount(events, b, i, ipThreshold)
  {
    KeysCount(events, i, keys, now, b, ipThreshold);
  }

  lemma OvertakenNow(before: map<string, Entry>, events: seq<Event>, i: nat, keys: seq<Key>, now: int, b: string, ipThreshold: nat)
    requires Listed(before, events, i, ipThreshold) && CountsAt(events, i, keys, now) && Outlived(before, b, keys, now, ipThreshold)
    requires forall c :: c in before ==> before[c].lastSeen <= now
    ensures Overtaken(events, b, ipThreshold)
  {
    hide MayCount, TimeAt, Times;
    var ib: nat;
    if b in before {
      assert SeenBy(before[b], b, events, i, ipThreshold);
      ib :| ib < i && ib < |events| && MayCount(events, b, ib, ipThreshold) && before[b].lastSeen == TimeAt(events, ib);
    } else {
      NowCounts(events, i, keys, now, b, ipThreshold);
      ib := i;
    }
    var others: set<string> :| AreSeenSince(before, b, others, keys, now, ipThreshold);
    forall c | c in others ensures MayCountSince(events, c, ib, ipThreshold) {
      OtherCounts(before, events, i, ib, keys, now, b, c, ipThreshold);
    }
    assert MayAllCount(events, b, others, ib, ipThreshold) && OthersSince(events, b, ib, ipThreshold);
  }

  lemma OtherCounts(before: map<string, Entry>, events: seq<Event>, i: nat, ib: nat, keys: seq<Key>, now: int, b: string,
                    c: string, ipThreshold: nat)
    requires Listed(before, events, i, ipThreshold) && CountsAt(events, i, keys, now) && SeenSince(before, b, c, keys, now, ipThreshold)
    requires ib < |events| && TimeAt(events, ib) == SeenAt(before, b, now) <= now
    ensures MayCountSince(events, c, ib, ipThreshold)
  {
    hide MayCount, TimeAt, Times;
    if Times(keys, c, ipThreshold) > 0 {
      NowCounts(events, i, keys, now, c, ipThreshold);
    } else {
      assert SeenBy(before[c], c, events, i, ipThreshold);
    }
  }

  function BucketsIn(keys: seq<Key>, ipThreshold: nat): set<string> {
    set key | key in keys && Counted(key, ipThreshold) :: Bucket(key)
  }

  /** The buckets the calls name. */
  function Named(events: seq<Event>, ipThreshold: nat): set<string> {
    if events == [] then {}
    else
      var e := events[|events| - 1];
      Named(events[..|events| - 1], ipThreshold) + if e.Asks? then BucketsIn(e.keys, ipThreshold) else {}
  }

  lemma {:induction false} TimesIsIn(keys: seq<Key>, b: string, ipThreshold: nat)
    requires Times(keys, b, ipThreshold) > 0
    ensures b in BucketsIn(keys, ipThreshold)
    decreases |keys|
  {
    var n := |keys| - 1;
    if Hits(keys[n], b, ipThreshold) {
      assert keys[n] in keys;
    } else {
      TimesIsIn(keys[..n], b, ipThreshold);
      var key :| key in keys[..n] && Counted(key, ipThreshold) && Bucket(key) == b;
      assert key in keys;
    }
  }

  lemma {:induction false} AskedIsNamed(events: seq<Event>, j: nat, b: string, ipThreshold: nat)
    requires j < |events| && events[j].Asks? && Times(events[j].keys, b, ipThreshold) > 0
    ensures b in Named(events, ipThreshold)
    decreases |events|
  {
    var n := |events| - 1;
    if j == n {
      TimesIsIn(events[j].keys, b, ipThreshold);
    } else {
      AskedIsNamed(events[..n], j, b, ipThreshold);
    }
  }

  lemma CountIsNamed(events: seq<Event>, b: string, i: nat, ipThreshold: nat)
    requires MayCount(events, b, i, ipThreshold)
    ensures b in Named(events, ipThreshold)
  {
    var j :| 0 <= j < i && events[j].Asks? && events[j].id == events[i].id && Times(events[j].keys, b, ipThreshold) > 0;
    AskedIsNamed(events, j, b, ipThreshold);
  }

  /** No bucket is overtaken while the calls name no more than the table holds. */
  lemma FewBucketsStay(events: seq<Event>, b: string, ipThreshold: nat)
    requires Overtaken(events, b, ipThreshold)
    ensures |Named(events, ipThreshold)| > MAX_ENTRIES
  {
    hide MayCount, Named, TimeAt;
    var i :| 0 <= i < |events| && MayCount(events, b, i, ipThreshold) && OthersSince(events, b, i, ipThreshold);
    CountIsNamed(events, b, i, ipThreshold);
    var others: set<string> :| MayAllCount(events, b, others, i, ipThreshold);
    forall c | c in others ensures c in Named(events, ipThreshold) {
      assert MayCountSince(events, c, i, ipThreshold);
      var j :| 0 <= j < |events| && MayCount(events, c, j, ipThreshold) && TimeAt(events, i) <= TimeAt(events, j);
      CountIsNamed(events, c, j, ipThreshold);
    }
    assert |others + {b}| == MAX_ENTRIES + 1;
    Fewer(others + {b}, Named(events, ipThreshold));
  }

  // ---------- ... and what it keeps ----------

  /** The limiter counts as the ideal one does. */
  ghost predicate Exact(l: LoginLimiter, passed: map<nat, seq<Key>>, now: int, ideal: Ideal)
    reads l
  {
    SameLogs(l.full, ideal.logs) && passed == ideal.passed && now == ideal.now
  }

  lemma AsksAlike(l: LoginLimiter, passed: map<nat, seq<Key>>, now: int, ideal: Ideal, e: Event, c: Setting)
    requires Exact(l, passed, now, ideal) && e.Asks?
    requires c.window == l.window && c.threshold == l.threshold && c.ipThreshold == l.ipThreshold
    ensures MayPass(ideal, e.id, e.keys, now + e.elapsed, c) <==>
      e.id !in passed && |passed| < c.k && forall i :: 0 <= i < |e.keys| ==> !l.Exhausted(e.keys[i], now + e.elapsed)
  {
    hide LogOf, Counted, Recent;
    forall i | 0 <= i < |e.keys|
      ensures Over(ideal.logs, e.keys[i], now + e.elapsed, c) <==> l.Exhausted(e.keys[i], now + e.elapsed)
    {
      assert LogOf(l.full, Bucket(e.keys[i])) == LogOf(ideal.logs, Bucket(e.keys[i]));
    }
  }

  /** A call names the key's bucket by the key itself, and once, or not at all. */
  predicate NamesOnce(keys: seq<Key>, key: Key, ipThreshold: nat) {
    Times(keys, Bucket(key), ipThreshold) == if key in keys then 1 else 0
  }

  function Holding(passed: map<nat, seq<Key>>, key: Key): set<nat> {
    set id | id in passed && key in passed[id]
  }

  /** A call that names the key and passes check takes the bucket's Check step. */
  lemma CheckIsStep(l: LoginLimiter, keys: seq<Key>, now: int, key: Key, s: Bucketed, id: nat)
    requires Counted(key, l.ipThreshold) && key in keys && s.log == l.Full(Bucket(key))
    requires forall i :: 0 <= i < |keys| ==> !l.Exhausted(keys[i], now)
    ensures Next(s, Check(id, now), l.LimitOf(key), l.window) == Bucketed(l.Full(Bucket(key)), s.passed + {id}, now)
  {
  }

  /** One that is counted takes its Record step, unless the bucket is evicted. */
  lemma RecordIsStep(before: map<string, seq<int>>, after: map<string, seq<int>>, evicted: set<string>, keys: seq<Key>,
                     now: int, ipThreshold: nat, key: Key, s: Bucketed, id: nat, limit: nat, window: nat)
    requires Logged(before, after, evicted, keys, now, ipThreshold) && Bucket(key) !in evicted
    requires NamesOnce(keys, key, ipThreshold) && s.log == LogOf(before, Bucket(key))
    ensures LogOf(after, Bucket(key)) == if key in keys then Next(s, Record(id, now), limit, window).log else s.log
  {
    assert Repeat(now, 1) == [now] && Repeat(now, 0) == [];
    assert s.log + [] == s.log;
  }

  lemma OneMorePassed(passed: map<nat, seq<Key>>, id: nat, keys: seq<Key>, key: Key)
    requires id !in passed
    ensures Holding(passed[id := keys], key) == if key in keys then Holding(passed, key) + {id} else Holding(passed, key)
    ensures |passed[id := keys]| == |passed| + 1 && |Holding(passed[id := keys], key)| <= |passed| + 1
  {
    assert passed[id := keys].Keys == passed.Keys + {id};
    Fewer(Holding(passed[id := keys], key), passed[id := keys].Keys);
  }

  lemma OneLessPassed(passed: map<nat, seq<Key>>, id: nat, key: Key)
    requires id in passed
    ensures Holding(passed - {id}, key) == Holding(passed, key) - {id}
    ensures |passed - {id}| <= |passed| && |Holding(passed, key)| <= |passed|
  {
    assert (passed - {id}).Keys == passed.Keys - {id};
    Fewer(Holding(passed, key), passed.Keys);
    Fewer((passed - {id}).Keys, passed.Keys);
  }

  /** The key's bucket of the limiter is a Bucketed the bound holds of. */
  ghost predicate Mirrored(l: LoginLimiter, key: Key, k: nat, passed: map<nat, seq<Key>>, now: int, s: Bucketed)
    reads l
  {
    && s.log == l.Full(Bucket(key)) && s.passed == Holding(passed, key) && s.clock == now
    && Bounded(s, l.LimitOf(key), l.window, k)
  }

  ghost predicate Passing(passed: map<nat, seq<Key>>, key: Key, k: nat, ipThreshold: nat) {
    |passed| <= k && forall id :: id in passed ==> NamesOnce(passed[id], key, ipThreshold)
  }

  /** check, for a caller that no other k callers are ahead of. */
  method Ask(l: LoginLimiter, key: Key, k: nat, passed0: map<nat, seq<Key>>, id: nat, keys: seq<Key>, now0: int, now: int,
             ghost s: Bucketed)
    returns (passed: map<nat, seq<Key>>, ghost s': Bucketed)
    requires l.Valid() && l.clock <= now0 <= now && 0 < k && Counted(key, l.ipThreshold)
    requires Passing(passed0, key, k, l.ipThreshold) && NamesOnce(keys, key, l.ipThreshold)
    ensures Passing(passed, key, k, l.ipThreshold)
    ensures Mirrored(l, key, k, passed0, now0, s) ==> Mirrored(l, key, k, passed, now, s')
    ensures passed == if id !in passed0 && |passed0| < k && forall i :: 0 <= i < |keys| ==> !l.Exhausted(keys[i], now)
                      then passed0[id := keys] else passed0
  {
    hide Mirrored, NamesOnce, Counted, LoginLimiter.Exhausted, LoginLimiter.Valid;
    passed := passed0;
    s' := Waited(l, key, k, passed0, now0, now, s);
    if id !in passed0 && |passed0| < k {
      var ok, name := l.Check(keys, now);
      if ok {
        OneMorePassed(passed0, id, keys, key);
        s' := AskStep(l, key, k, passed0, id, keys, now0, now, s);
        passed := passed0[id := keys];
      }
    }
  }

  lemma AskStep(l: LoginLimiter, key: Key, k: nat, passed: map<nat, seq<Key>>, id: nat, keys: seq<Key>, now0: int, now: int, s: Bucketed)
    returns (s': Bucketed)
    requires l.Valid() && now0 <= now && Counted(key, l.ipThreshold) && id !in passed && |passed| < k
    requires forall i :: 0 <= i < |keys| ==> !l.Exhausted(keys[i], now)
    ensures Mirrored(l, key, k, passed, now0, s) ==> Mirrored(l, key, k, passed[id := keys], now, s')
  {
    hide Bounded, LoginLimiter.Valid, LoginLimiter.Exhausted, Counted;
    s' := s.(clock := now);
    OneMorePassed(passed, id, keys, key);
    BoundedLater(s, now, l.LimitOf(key), l.window, k);
    if key in keys && Mirrored(l, key, k, passed, now0, s) {
      CheckIsStep(l, keys, now, key, s, id);
      s' := Next(s, Check(id, now), l.LimitOf(key), l.window);
      Positive(l, key);
      StepKeepsBounded(s, Check(id, now), l.LimitOf(key), l.window, k);
    }
  }

  lemma Positive(l: LoginLimiter, key: Key)
    requires l.Valid() && Counted(key, l.ipThreshold)
    ensures l.LimitOf(key) > 0
  {
  }

  lemma BoundedLater(s: Bucketed, now: int, limit: nat, window: nat, k: nat)
    ensures s.clock <= now && Bounded(s, limit, window, k) ==> Bounded(s.(clock := now), limit, window, k)
  {
  }

  /** record, for a caller that passed. */
  method Count(l: LoginLimiter, key: Key, k: nat, passed0: map<nat, seq<Key>>, id: nat, now0: int, now: int, ghost s: Bucketed)
    returns (passed: map<nat, seq<Key>>, ghost s': Bucketed, ghost evicted: set<string>, ghost gones: seq<set<string>>)
    requires l.Valid() && l.clock <= now0 <= now && 0 < k && Counted(key, l.ipThreshold)
    requires Passing(passed0, key, k, l.ipThreshold) && id in passed0
    modifies l
    ensures l.Valid() && l.clock == now && Passing(passed, key, k, l.ipThreshold)
    ensures Refreshed(old(l.entries), l.entries, passed0[id], now, l.ipThreshold)
    ensures forall b :: b in evicted ==> Outlived(old(l.entries), b, passed0[id], now, l.ipThreshold)
    ensures evicted == Union(gones) && SameLogs(l.full, Recorded(old(l.full), passed0[id], gones, now, l.ipThreshold))
    ensures Bucket(key) !in evicted && old(Mirrored(l, key, k, passed0, now0, s)) ==> Mirrored(l, key, k, passed, now, s')
    ensures passed == passed0 - {id} && Logged(old(l.full), l.full, evicted, passed0[id], now, l.ipThreshold)
  {
    hide Bounded, NamesOnce, Counted, Logged, Oldest, LogOf, LoginLimiter.Valid, Refreshed, Outlived, SameLogs, Recorded, Union;
    var keys := passed0[id];
    passed, s' := passed0 - {id}, s.(clock := now);
    OneLessPassed(passed0, id, key);
    Positive(l, key);
    ghost var before, mirrored := l.full, Mirrored(l, key, k, passed0, now0, s);
    var due;
    due, evicted, gones := l.Record(keys, now);
    if mirrored && Bucket(key) !in evicted {
      s' := CountStep(before, l.full, evicted, keys, now, l.ipThreshold, key, s, id, l.LimitOf(key), l.window, k);
    }
  }

  lemma CountStep(before: map<string, seq<int>>, after: map<string, seq<int>>, evicted: set<string>, keys: seq<Key>,
                  now: int, ipThreshold: nat, key: Key, s: Bucketed, id: nat, limit: nat, window: nat, k: nat) returns (s': Bucketed)
    requires Logged(before, after, evicted, keys, now, ipThreshold) && Bucket(key) !in evicted
    requires NamesOnce(keys, key, ipThreshold) && s.log == LogOf(before, Bucket(key)) && s.clock <= now
    requires 0 < limit && 0 < k && Bounded(s, limit, window, k) && (id in s.passed <==> key in keys) && |s.passed| <= k
    ensures s' == Bucketed(LogOf(after, Bucket(key)), s.passed - {id}, now) && Bounded(s', limit, window, k)
  {
    hide Bounded, NamesOnce, Logged, LogOf;
    RecordIsStep(before, after, evicted, keys, now, ipThreshold, key, s, id, limit, window);
    s' := s.(clock := now);
    if key in keys {
      s' := Next(s, Record(id, now), limit, window);
      Fewer(s'.passed, s.passed);
      StepKeepsBounded(s, Record(id, now), limit, window, k);
    } else {
      BoundedLater(s, now, limit, window, k);
    }
  }

  /**
   Any callers of throttle over one new limiter, at most k of them past check
   at a time, with cleanups in between: but for the buckets that were evicted
   the limiter counts like one that keeps every attempt, and as long as a key's
   bucket is not evicted, no window holds more than its limit + k - 1 of their
   calls. A bucket is evicted only when calls since may have counted against
   MAX_ENTRIES others, so none while the calls name no more buckets than that.
   `lost` says what was evicted, event by event and key by key.
   */
  method Serve(l: LoginLimiter, key: Key, k: nat, events: seq<Event>) returns (ghost lost: seq<seq<set<string>>>)
    requires l.Valid() && l.full == map[] && l.entries == map[] && l.clock == 0 && 0 < k && Counted(key, l.ipThreshold)
    requires forall e :: e in events && e.Asks? ==> NamesOnce(e.keys, key, l.ipThreshold)
    modifies l
    ensures l.Valid() && |lost| == |events|
    ensures SameLogs(l.full, Played(events, lost, Setting(l.window, l.threshold, l.ipThreshold, k)).logs)
    ensures Bucket(key) !in Evicted(lost) ==> forall t :: InWindow(l.Full(Bucket(key)), l.window, t) <= l.LimitOf(key) + k - 1
    ensures forall b :: b in Evicted(lost) ==> Overtaken(events, b, l.ipThreshold)
    ensures |Named(events, l.ipThreshold)| <= MAX_ENTRIES ==> Evicted(lost) == {}
  {
    hide NamesOnce, Counted, LoginLimiter.Valid, Serving, SameLogs, Played, Happens, Overtaken, Named, Evicted, Union, TimeOf;
    var passed: map<nat, seq<Key>>, now := map[], 0;
    ghost var s, c := Bucketed([], {}, 0), Setting(l.window, l.threshold, l.ipThreshold, k);
    lost := [];
    Opens(l, key, k, events, c);
    assert events[..0] == [];
    var i := 0;
    while i < |events|
      invariant 0 <= i <= |events| && l.Valid() && |lost| == i
      invariant Serving(l, key, k, passed, now, s, Played(events[..i], lost, c), Evicted(lost), events, i)
      invariant forall b :: b in Evicted(lost) ==> Overtaken(events, b, l.ipThreshold)
    {
      assert events[i] in events;
      ghost var gones;
      passed, s, gones := ServeOne(l, key, k, passed, now, events, i, s, Played(events[..i], lost, c), Evicted(lost), c);
      PlayedNext(events, i, lost, gones, c);
      lost := lost + [gones];
      now := now + events[i].elapsed;
      i := i + 1;
    }
    assert events[..i] == events;
    Concludes(l, key, k, passed, now, s, Played(events, lost, c), Evicted(lost), events);
    if b :| b in Evicted(lost) {
      FewBucketsStay(events, b, l.ipThreshold);
    }
  }

  /** The key's bucket is mirrored while it is not evicted, and all logs are as in the ideal limiter. */
  ghost predicate Serving(l: LoginLimiter, key: Key, k: nat, passed: map<nat, seq<Key>>, now: int, s: Bucketed, ideal: Ideal,
                          evicted: set<string>, events: seq<Event>, i: nat)
    reads l
  {
    && l.clock <= now && Passing(passed, key, k, l.ipThreshold) && i <= |events| && now == TimeOf(events[..i])
    && (Bucket(key) !in evicted ==> Mirrored(l, key, k, passed, now, s))
    && Exact(l, passed, now, ideal) && Listed(l.entries, events, i, l.ipThreshold) && Asked(passed, events, i)
  }

  method ServeOne(l: LoginLimiter, key: Key, k: nat, passed0: map<nat, seq<Key>>, now: int, events: seq<Event>, i: nat,
                  ghost s0: Bucketed, ghost ideal: Ideal, ghost evicted: set<string>, ghost c: Setting)
    returns (passed: map<nat, seq<Key>>, ghost s: Bucketed, ghost gones: seq<set<string>>)
    requires l.Valid() && 0 < k && Counted(key, l.ipThreshold) && i < |events|
    requires events[i].Asks? ==> NamesOnce(events[i].keys, key, l.ipThreshold)
    requires Serving(l, key, k, passed0, now, s0, ideal, evicted, events, i) && c == Setting(l.window, l.threshold, l.ipThreshold, k)
    modifies l
    ensures l.Valid()
    ensures Serving(l, key, k, passed, now + events[i].elapsed, s, Happens(ideal, events[i], gones, c), evicted + Union(gones),
         events, i + 1)
    ensures forall b :: b in Union(gones) ==> Overtaken(events, b, l.ipThreshold)
  {
    hide NamesOnce, Counted, LoginLimiter.Valid, LoginLimiter.Exhausted, Mirrored, MayPass, Recorded, SameLogs, Logged, Passing,
         Refreshed, Outlived, Listed, Asked, Overtaken, TimeOf, Union;
    var e := events[i];
    var later := now + e.elapsed;
    passed, gones := passed0, [];
    NoneLost();
    TimeNext(events, i);
    ghost var table := l.entries;
    match e {
      case Asks(id, keys, _) =>
        AsksAlike(l, passed0, now, ideal, e, c);
        passed, s := Ask(l, key, k, passed0, id, keys, now, later, s0);
        AskedOn(passed0, passed, events, i);
        ListedLater(table, l.entries, events, i, l.ipThreshold);
      case Counts(id, _) =>
        AskedOn(passed0, passed0, events, i);
        if id in passed0 {
          ghost var before, gone := l.full, {};
          CountedAt(passed0, events, i, later);
          InTime(l, later);
          passed, s, gone, gones := Count(l, key, k, passed0, id, now, later, s0);
          AllOvertaken(table, events, i, passed0[id], later, gone, l.ipThreshold);
          ListedOn(table, l.entries, events, i, passed0[id], later, l.ipThreshold);
          AskedLess(passed0, id, events, i + 1);
          SameLogsStay(before, ideal.logs, passed0[id], gones, later, l.ipThreshold);
          SameAsBoth(l.full, Recorded(before, passed0[id], gones, later, l.ipThreshold),
                     Recorded(ideal.logs, passed0[id], gones, later, l.ipThreshold));
        } else {
          s := Waited(l, key, k, passed0, now, later, s0);
          ListedLater(table, l.entries, events, i, l.ipThreshold);
        }
      case Sweeps(_) =>
        AskedOn(passed0, passed0, events, i);
        s := Swept(l, key, k, passed0, now, later, s0);
        ListedLater(table, l.entries, events, i, l.ipThreshold);
    }
  }

  lemma NoneLost()
    ensures Union([]) == {}
  {
  }

  lemma TimeNext(events: seq<Event>, i: nat)
    requires i < |events|
    ensures TimeOf(events[..i + 1]) == TimeOf(events[..i]) + events[i].elapsed
  {
    assert events[..i + 1][..i] == events[..i];
  }

  lemma InTime(l: LoginLimiter, later: int)
    requires l.Valid() && l.clock <= later
    ensures forall c :: c in l.entries ==> l.entries[c].lastSeen <= later
  {
  }

  lemma SameAsBoth(a: map<string, seq<int>>, b: map<string, seq<int>>, c: map<string, seq<int>>)
    requires SameLogs(a, b) && SameLogs(b, c)
    ensures SameLogs(a, c)
  {
    forall x ensures LogOf(a, x) == LogOf(c, x) {
      assert LogOf(a, x) == LogOf(b, x) && LogOf(b, x) == LogOf(c, x);
    }
  }

  lemma AskedOn(passed: map<nat, seq<Key>>, passed': map<nat, seq<Key>>, events: seq<Event>, i: nat)
    requires Asked(passed, events, i) && i < |events|
    requires passed' == passed || (events[i].Asks? && passed' == passed[events[i].id := events[i].keys])
    ensures Asked(passed', events, i + 1)
  {
    forall id | id in passed'
      ensures exists j :: 0 <= j < i + 1 && events[j].Asks? && events[j].id == id && events[j].keys == passed'[id]
    {
      if id in passed && passed'[id] == passed[id] {
        var j :| 0 <= j < i && events[j].Asks? && events[j].id == id && events[j].keys == passed[id];
      } else {
        assert events[i].id == id;
      }
    }
  }

  lemma AskedLess(passed: map<nat, seq<Key>>, id: nat, events: seq<Event>, i: nat)
    requires Asked(passed, events, i)
    ensures Asked(passed - {id}, events, i)
  {
  }

  lemma CountedAt(passed: map<nat, seq<Key>>, events: seq<Event>, i: nat, now: int)
    requires Asked(passed, events, i) && i < |events| && events[i].Counts? && events[i].id in passed && now == TimeOf(events[..i + 1])
    ensures CountsAt(events, i, passed[events[i].id], now)
  {
  }

  lemma AllOvertaken(before: map<string, Entry>, events: seq<Event>, i: nat, keys: seq<Key>, now: int, gone: set<string>, ipThreshold: nat)
    requires Listed(before, events, i, ipThreshold) && CountsAt(events, i, keys, now)
    requires forall b :: b in gone ==> Outlived(before, b, keys, now, ipThreshold)
    requires forall c :: c in before ==> before[c].lastSeen <= now
    ensures forall b :: b in gone ==> Overtaken(events, b, ipThreshold)
  {
    hide Listed, CountsAt, Outlived, Overtaken;
    forall b | b in gone ensures Overtaken(events, b, ipThreshold) {
      OvertakenNow(before, events, i, keys, now, b, ipThreshold);
    }
  }

  lemma Opens(l: LoginLimiter, key: Key, k: nat, events: seq<Event>, c: Setting)
    requires l.Valid() && l.full == map[] && l.entries == map[] && l.clock == 0 && 0 < k && Counted(key, l.ipThreshold)
    ensures Serving(l, key, k, map[], 0, Bucketed([], {}, 0), Played([], [], c), Evicted([]), events, 0) && Evicted([]) == {}
    ensures Played(events[..0], [], c) == Played([], [], c)
  {
    NoLogs(l.full);
    StartsBounded(l, key, k);
    assert events[..0] == [];
  }

  lemma NoLogs(logs: map<string, seq<int>>)
    requires logs == map[]
    ensures SameLogs(logs, map[])
  {
  }

  lemma StartsBounded(l: LoginLimiter, key: Key, k: nat)
    requires l.Valid() && l.full == map[] && 0 < k && Counted(key, l.ipThreshold)
    ensures Mirrored(l, key, k, map[], 0, Bucketed([], {}, 0))
  {
    assert forall t :: InWindow([], l.window, t) == 0;
  }

  lemma Waited(l: LoginLimiter, key: Key, k: nat, passed: map<nat, seq<Key>>, now: int, later: int, s: Bucketed) returns (s': Bucketed)
    requires now <= later
    ensures Mirrored(l, key, k, passed, now, s) ==> Mirrored(l, key, k, passed, later, s')
  {
    s' := s.(clock := later);
    BoundedLater(s, later, l.LimitOf(key), l.window, k);
  }

  /** The cleanup another call started. */
  method Swept(l: LoginLimiter, key: Key, k: nat, passed: map<nat, seq<Key>>, now: int, later: int, ghost s: Bucketed)
    returns (ghost s': Bucketed)
    requires l.Valid() && l.clock <= now <= later
    modifies l`entries, l`clock
    ensures l.Valid() && l.clock == later
    ensures l.entries.Keys <= old(l.entries).Keys && forall b :: b in l.entries ==> l.entries[b] == old(l.entries)[b]
    ensures old(Mirrored(l, key, k, passed, now, s)) ==> Mirrored(l, key, k, passed, later, s')
  {
    hide Bounded, LoginLimiter.Valid;
    s' := s.(clock := later);
    BoundedLater(s, later, l.LimitOf(key), l.window, k);
    l.Cleanup(later);
  }

  lemma Concludes(l: LoginLimiter, key: Key, k: nat, passed: map<nat, seq<Key>>, now: int, s: Bucketed, ideal: Ideal,
                  evicted: set<string>, events: seq<Event>)
    requires Serving(l, key, k, passed, now, s, ideal, evicted, events, |events|)
    ensures Bucket(key) !in evicted ==> forall t :: InWindow(l.Full(Bucket(key)), l.window, t) <= l.LimitOf(key) + k - 1
    ensures SameLogs(l.full, ideal.logs)
  {
  }

  // ---------- ... and the bound is met ----------

  /** A run and one more half. */
  lemma OneMoreHalf(states: seq<Bucketed>, halves: seq<Half>, half: Half, limit: nat, window: nat, k: nat)
    returns (states': seq<Bucketed>, halves': seq<Half>)
    requires IsRun(states, halves, limit, window, k)
    requires var s := states[|halves|]; Possible(s, half) && |Next(s, half, limit, window).passed| <= k
    ensures IsRun(states', halves', limit, window, k) && |halves'| == |halves| + 1
    ensures states'[|halves'|] == Next(states[|halves|], half, limit, window)
  {
    states', halves' := states + [Next(states[|halves|], half, limit, window)], halves + [half];
  }

  lemma {:induction false} RecentRepeat(n: nat, cutoff: int)
    requires cutoff < 0
    ensures Recent(Repeat(0, n), cutoff) == n
  {
    if n > 0 {
      assert Repeat(0, n)[..n - 1] == Repeat(0, n - 1);
      RecentRepeat(n - 1, cutoff);
    }
  }

  lemma {:induction false} WithinRepeat(n: nat, after: int)
    requires after < 0
    ensures Within(Repeat(0, n), after, 0) == n
  {
    if n > 0 {
      assert Repeat(0, n)[..n - 1] == Repeat(0, n - 1);
      WithinRepeat(n - 1, after);
    }
  }

  /** n calls one after the other. */
  lemma {:induction false} OneByOne(n: nat, limit: nat, window: nat, k: nat) returns (states: seq<Bucketed>, halves: seq<Half>)
    requires n <= limit && 0 < k && 0 < window
    ensures IsRun(states, halves, limit, window, k) && states[|halves|] == Bucketed(Repeat(0, n), {}, 0)
  {
    states, halves := [Bucketed([], {}, 0)], [];
    if n > 0 {
      states, halves := OneByOne(n - 1, limit, window, k);
      RecentRepeat(n - 1, 0 - window);
      RepeatOnce(0, n - 1);
      states, halves := OneMoreHalf(states, halves, Check(0, 0), limit, window, k);
      states, halves := OneMoreHalf(states, halves, Record(0, 0), limit, window, k);
    }
  }

  function Below(n: nat): (ids: set<nat>)
    ensures |ids| == n && forall i: nat :: i in ids <==> i < n
  {
    if n == 0 then {} else Below(n - 1) + {n - 1}
  }

  /** m more callers check before any of them records. */
  lemma {:induction false} AllPass(m: nat, limit: nat, window: nat, k: nat) returns (states: seq<Bucketed>, halves: seq<Half>)
    requires 0 < limit && m <= k && 0 < k && 0 < window
    ensures IsRun(states, halves, limit, window, k) && states[|halves|] == Bucketed(Repeat(0, limit - 1), Below(m), 0)
  {
    hide Below;
    if m == 0 {
      states, halves := OneByOne(limit - 1, limit, window, k);
    } else {
      states, halves := AllPass(m - 1, limit, window, k);
      RecentRepeat(limit - 1, 0 - window);
      states, halves := OneMoreHalf(states, halves, Check(m - 1, 0), limit, window, k);
    }
  }

  /** ... and then m of the k record. */
  lemma {:induction false} AllCount(m: nat, limit: nat, window: nat, k: nat) returns (states: seq<Bucketed>, halves: seq<Half>)
    requires 0 < limit && m <= k && 0 < k && 0 < window
    ensures IsRun(states, halves, limit, window, k)
    ensures states[|halves|] == Bucketed(Repeat(0, limit - 1 + m), Below(k - m), 0)
  {
    if m == 0 {
      states, halves := AllPass(k, limit, window, k);
    } else {
      states, halves := AllCount(m - 1, limit, window, k);
      RepeatOnce(0, limit - 1 + m - 1);
      assert Below(k - m + 1) - {k - m} == Below(k - m);
      states, halves := OneMoreHalf(states, halves, Record(k - m, 0), limit, window, k);
    }
  }

  /** The bound is met: k callers that check before any of them records pass a limit that has one call left. */
  lemma CallersPassTogether(limit: nat, window: nat, k: nat) returns (states: seq<Bucketed>, halves: seq<Half>)
    requires 0 < limit && 0 < window && 0 < k
    ensures IsRun(states, halves, limit, window, k)
    ensures InWindow(states[|halves|].log, window, 0) == limit + k - 1
  {
    states, halves := AllCount(k, limit, window, k);
    WithinRepeat(limit - 1 + k, 0 - window);
  }
}
