/** realtime/replay.go: the latest events in a ring, with an index of their IDs. */
module Replays {
  import opened Frames

  const BLANK := Frame("", "", "", "")

  class Replay {
    const buf: array<Frame>
    var head: nat  // index of the oldest event
    var n: nat     // events kept
    var first: nat // position of the oldest event in the hub's sequence
    var pos: map<string, nat>
    ghost var log: seq<Frame>  // everything added, oldest first

    ghost predicate Valid()
      reads this, buf
    {
      (forall k :: 0 <= k < |log| ==> !Reserved(log[k].typ)) &&
      if buf.Length == 0 then n == 0 && pos == map[]
      else Ring() && Indexed() && n == if |log| < buf.Length then |log| else buf.Length
    }

    /** The ring holds the last n events. */
    ghost predicate Ring()
      reads this, buf
    {
      && head < buf.Length && n <= buf.Length && first + n == |log|
      && (forall k :: 0 <= k < n ==> buf[Slot(head, k, buf.Length)] == log[first + k])
    }

    /** The index has the latest position of every ID in the ring, and nothing else. */
    ghost predicate Indexed()
      reads this
    {
      && (forall id :: id in pos ==> first <= pos[id] && IsLatest(log, id, pos[id]))
      && (forall p :: first <= p < |log| ==> log[p].id in pos)
    }

    /** The event at position p of everything added is one of the last buf.Length. */
    ghost predicate Kept(p: nat)
      reads this, buf
    {
      |log| - buf.Length <= p < |log|
    }

    constructor (size: nat)
      ensures Valid() && log == [] && fresh(buf) && buf.Length == size
    {
      buf := new Frame[size](_ => BLANK);
      head, n, first, pos, log := 0, 0, 0, map[], [];
    }

    /** replay.add: keeps f, evicting the oldest event when full. */
    method Add(f: Frame)
      requires Valid() && !Reserved(f.typ)
      modifies this, buf
      ensures Valid() && log == old(log) + [f]
    {
      hide Slot;
      if buf.Length == 0 {
        log := log + [f];
        return;
      }
      if n == buf.Length {
        Evict();
      }
      Put(f);
    }

    /** The event goes behind the newest. */
    method Put(f: Frame)
      requires Ring() && Indexed() && n < buf.Length
      modifies this, buf
      ensures Ring() && Indexed() && n == old(n) + 1 && first == old(first)
      ensures log == old(log) + [f]
    {
      hide Slot, IsLatest;
      OneSlot(head, n, buf.Length);
      buf[Slot(head, n, buf.Length)] := f;
      Latest(log, f, pos);
      pos := pos[f.id := first + n];
      n := n + 1;
      log := log + [f];
    }

    /** The oldest event goes; its ID stays in the index when a later event has it too. */
    method Evict()
      requires Valid() && n == buf.Length > 0
      modifies this, buf
      ensures Ring() && Indexed() && n == buf.Length - 1 && log == old(log)
    {
      hide Slot, IsLatest;
      var oldest := buf[head];
      assert oldest == buf[Slot(head, 0, buf.Length)] == log[first + 0];
      Unindex(log, pos, first);
      if pos[oldest.id] == first {
        pos := pos - {oldest.id};
      }
      Shift(head, buf.Length);
      buf[head] := BLANK;
      head := Slot(head, 1, buf.Length);
      first := first + 1;
      n := n - 1;
    }

    /** replay.since: the later events of topics, oldest first, unless the one with id is gone. */
    method Since(id: string, topics: seq<Topic>) returns (out: seq<Frame>, kept: bool, ghost at: nat, ghost ps: seq<nat>)
      requires Valid()
      ensures kept <==> exists p: nat :: Kept(p) && log[p].id == id
      ensures kept ==> Kept(at) && IsLatest(log, id, at) && out == Wanted(log[at + 1..], Listed(topics))
      ensures kept ==> |out| == |ps| && forall k :: 0 <= k < |ps| ==> ps[k] < |log| && out[k] == log[ps[k]]
      ensures kept ==> forall i, j :: 0 <= i < j < |ps| ==> ps[i] < ps[j]
      ensures kept ==> forall p: nat :: p in ps <==> at < p < |log| && log[p].topic in topics
      ensures !kept ==> out == []
    {
      out, kept, at, ps := [], false, 0, [];
      if id in pos {
        kept, at := true, pos[id];
        out := Collect(pos[id], Listed(topics));
        ps := WantedIsAll(log, at + 1, topics, Listed(topics));
      }
    }

    /** The loop of since. */
    method Collect(p: nat, want: set<Topic>) returns (out: seq<Frame>)
      requires Ring() && first <= p < |log| && forall k :: 0 <= k < |log| ==> !Reserved(log[k].typ)
      ensures out == Wanted(log[p + 1..], want)
    {
      hide Slot;
      out := [];
      var q := p + 1;
      while q < first + n
        invariant p + 1 <= q <= |log| && out == Wanted(log[p + 1..q], want)
      {
        WantedNext(log, p + 1, q, want);
        var k := q - first;
        var f := buf[Slot(head, k, buf.Length)];
        assert f == log[first + k];
        if f.topic in want {
          out := out + [f];
        }
        q := q + 1;
      }
      assert log[p + 1..q] == log[p + 1..];
    }
  }

  /** The index without the oldest event. */
  lemma Unindex(log: seq<Frame>, pos: map<string, nat>, first: nat)
    requires first < |log| && forall id :: id in pos ==> first <= pos[id] && IsLatest(log, id, pos[id])
    requires forall p :: first <= p < |log| ==> log[p].id in pos
    ensures var id0 := log[first].id;
            var pos' := if pos[id0] == first then pos - {id0} else pos;
            && (forall id :: id in pos' ==> first < pos'[id] && IsLatest(log, id, pos'[id]))
            && (forall p :: first < p < |log| ==> log[p].id in pos')
  {
  }

  lemma Latest(log: seq<Frame>, f: Frame, pos: map<string, nat>)
    requires forall id :: id in pos ==> IsLatest(log, id, pos[id])
    ensures (log + [f])[|log|] == f && IsLatest(log + [f], f.id, |log|)
    ensures forall id :: id in pos && id != f.id ==> IsLatest(log + [f], id, pos[id])
  {
  }

  function Listed(topics: seq<Topic>): set<Topic> {
    set t | t in topics
  }

  /** p is the last position of an event with id. */
  ghost predicate IsLatest(log: seq<Frame>, id: string, p: nat) {
    p < |log| && log[p].id == id && forall k :: p < k < |log| ==> log[k].id != id
  }

  /** Where a ring that starts at head has its event k. */
  function Slot(head: nat, k: nat, size: nat): (slot: nat)
    requires head < size
    ensures slot < size
    ensures k == 0 ==> slot == head
  {
    (head + k) % size
  }

  /** The slots of a ring are different ones. */
  lemma OneSlot(head: nat, n: nat, size: nat)
    requires head < size && n < size
    ensures forall k :: 0 <= k < n ==> Slot(head, k, size) != Slot(head, n, size)
  {
    forall k | 0 <= k < n ensures Slot(head, k, size) != Slot(head, n, size) {
      Wrap(head, k, size);
      Wrap(head, n, size);
    }
  }

  lemma Wrap(head: nat, k: nat, size: nat)
    requires head < size && k < size
    ensures Slot(head, k, size) == if head + k < size then head + k else head + k - size
  {
    var x := head + k;
    Once(x / size, x % size, size);
  }

  lemma Once(q: nat, r: nat, size: nat)
    requires r < size && q * size + r < 2 * size
    ensures q == 0 || q == 1
  {
    assert q * size == 2 * size + (q - 2) * size;
    assert q > 1 ==> (q - 2) * size >= 0;
  }

  /** From the next slot on, the ring is the same without its first event. */
  lemma Shift(head: nat, size: nat)
    requires head < size
    ensures forall k :: 0 <= k < size - 1 ==> Slot(Slot(head, 1, size), k, size) == Slot(head, k + 1, size) != head
  {
    forall k | 0 <= k < size - 1 ensures Slot(Slot(head, 1, size), k, size) == Slot(head, k + 1, size) != head {
      Wrap(head, k + 1, size);
      Wrap(head, 1, size);
      Wrap(Slot(head, 1, size), k, size);
    }
  }
}
