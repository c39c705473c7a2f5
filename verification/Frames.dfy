/** Events as the hub queues them, and the events of some topics among them. */
module Frames {
  import opened Letters

  type Topic = string

  /** An encoded event; the hub's own, refused and reset, have no ID. */
  datatype Frame = Frame(id: string, topic: Topic, typ: string, data: string)

  const REFUSED := "refused"
  const RESET := "reset"
  const ERROR := "error"

  /** An event type no application may publish. */
  predicate Reserved(typ: string) {
    typ == REFUSED || typ == RESET || typ == ERROR
  }

  /** 1 to 128 of A-Z a-z 0-9 _ . : - */
  predicate ValidName(s: string) {
    0 < |s| <= 128 && forall k :: 0 <= k < |s| ==> NameChar(s[k])
  }

  predicate NameChar(c: char) {
    'a' <= c <= 'z' || 'A' <= c <= 'Z' || '0' <= c <= '9' || c == '_' || c == '.' || c == ':' || c == '-'
  }

  lemma NamesAre(s: string)
    ensures ValidName(s) <==>
      1 <= |s| <= 128 && forall k :: 0 <= k < |s| ==> s[k] in UPPER || s[k] in LOWER || s[k] in DIGITS || s[k] in "_.:-"
  {
    forall k | 0 <= k < |s| ensures NameChar(s[k]) <==> s[k] in UPPER || s[k] in LOWER || s[k] in DIGITS || s[k] in "_.:-" {
      UpperLetters(s[k]);
      LowerLetters(s[k]);
      Digits(s[k]);
    }
  }

  predicate Wants(f: Frame, topics: set<Topic>) {
    !Reserved(f.typ) && f.topic in topics
  }

  /** The published events of s that went to topics, in order. */
  function Wanted(s: seq<Frame>, topics: set<Topic>): seq<Frame> {
    if s == [] then []
    else
      var n := |s| - 1;
      if Wants(s[n], topics) then Wanted(s[..n], topics) + [s[n]] else Wanted(s[..n], topics)
  }

  lemma {:induction false} WantedConcat(a: seq<Frame>, b: seq<Frame>, topics: set<Topic>)
    ensures Wanted(a + b, topics) == Wanted(a, topics) + Wanted(b, topics)
    decreases |b|
  {
    if b == [] {
      assert a + b == a;
    } else {
      assert (a + b)[..|a + b| - 1] == a + b[..|b| - 1];
      WantedConcat(a, b[..|b| - 1], topics);
    }
  }

  lemma WantedOne(f: Frame, topics: set<Topic>)
    ensures Wanted([f], topics) == if Wants(f, topics) then [f] else []
  {
  }

  /** One topic's events among those of several. */
  lemma {:induction false} WantedWithin(s: seq<Frame>, topics: set<Topic>, t: Topic)
    ensures Wanted(Wanted(s, topics), {t}) == if t in topics then Wanted(s, {t}) else []
    decreases |s|
  {
    if s != [] {
      var n := |s| - 1;
      WantedWithin(s[..n], topics, t);
      if Wants(s[n], topics) {
        WantedConcat(Wanted(s[..n], topics), [s[n]], {t});
        WantedOne(s[n], {t});
      }
    }
  }

  lemma {:induction false} WantedIsShorter(s: seq<Frame>, topics: set<Topic>)
    ensures |Wanted(s, topics)| <= |s|
    decreases |s|
  {
    if s != [] {
      WantedIsShorter(s[..|s| - 1], topics);
    }
  }

  lemma {:induction false} NoneWanted(s: seq<Frame>, topics: set<Topic>)
    requires forall k :: 0 <= k < |s| ==> !Wants(s[k], topics)
    ensures Wanted(s, topics) == []
    decreases |s|
  {
    if s != [] {
      NoneWanted(s[..|s| - 1], topics);
    }
  }

  lemma WantedNext(log: seq<Frame>, p: nat, q: nat, topics: set<Topic>)
    requires p <= q < |log|
    ensures Wanted(log[p..q + 1], topics) ==
            if Wants(log[q], topics) then Wanted(log[p..q], topics) + [log[q]] else Wanted(log[p..q], topics)
  {
    assert log[p..q + 1][..q - p] == log[p..q];
  }

  // ---------- The wanted events by their positions ----------

  /** ps are positions of s, one after the other, and out has what stands there. */
  ghost predicate IsAt(s: seq<Frame>, out: seq<Frame>, ps: seq<nat>) {
    && |ps| == |out| && (forall i, j :: 0 <= i < j < |ps| ==> ps[i] < ps[j])
    && forall k :: 0 <= k < |ps| ==> ps[k] < |s| && out[k] == s[ps[k]]
  }

  /** ps are all the positions from..end that have an event of topics, and no event of the hub's own. */
  ghost predicate PicksAt(s: seq<Frame>, from: nat, end: nat, topics: set<Topic>, out: seq<Frame>, ps: seq<nat>) {
    && from <= end <= |s| && IsAt(s, out, ps)
    && forall p: nat :: p in ps <==> from <= p < end && s[p].topic in topics && s[p].typ !in {"refused", "reset", "error"}
  }

  /** The positions of the wanted events. */
  lemma {:induction false} WantedAt(s: seq<Frame>, from: nat, end: nat, topics: set<Topic>) returns (ps: seq<nat>)
    requires from <= end <= |s|
    ensures PicksAt(s, from, end, topics, Wanted(s[from..end], topics), ps)
    decreases end
  {
    ps := [];
    if from < end {
      ps := WantedAt(s, from, end - 1, topics);
      assert s[from..end][..end - 1 - from] == s[from..end - 1];
      if Wants(s[end - 1], topics) {
        ps := ps + [end - 1];
      }
    }
  }

  /** They are the only events that stand at such positions. */
  lemma {:induction false} PicksAreWanted(s: seq<Frame>, from: nat, end: nat, topics: set<Topic>, out: seq<Frame>, ps: seq<nat>)
    requires PicksAt(s, from, end, topics, out, ps) && from <= end <= |s|
    ensures out == Wanted(s[from..end], topics)
    decreases end
  {
    hide PicksAt, Wanted, Wants;
    if from < end {
      var n := |ps| - 1;
      PicksLast(s, from, end, topics, out, ps);
      WantedNext(s, from, end - 1, topics);
      if Wants(s[end - 1], topics) {
        PicksAreWanted(s, from, end - 1, topics, out[..n], ps[..n]);
      } else {
        PicksAreWanted(s, from, end - 1, topics, out, ps);
      }
    } else {
      PicksNothing(s, from, topics, out, ps);
    }
  }

  lemma PicksNothing(s: seq<Frame>, from: nat, topics: set<Topic>, out: seq<Frame>, ps: seq<nat>)
    requires PicksAt(s, from, from, topics, out, ps)
    ensures out == Wanted(s[from..from], topics)
  {
    SomePosition(ps);
  }

  lemma SomePosition(ps: seq<nat>)
    ensures ps == [] || exists p :: p in ps
  {
    if ps != [] {
      assert ps[0] in ps;
    }
  }

  lemma PicksLast(s: seq<Frame>, from: nat, end: nat, topics: set<Topic>, out: seq<Frame>, ps: seq<nat>)
    requires PicksAt(s, from, end, topics, out, ps) && from < end
    ensures end <= |s| && |ps| == |out|
    ensures if Wants(s[end - 1], topics) then
              ps != [] && out == out[..|ps| - 1] + [s[end - 1]] && PicksAt(s, from, end - 1, topics, out[..|ps| - 1], ps[..|ps| - 1])
            else PicksAt(s, from, end - 1, topics, out, ps)
  {
    if Wants(s[end - 1], topics) {
      var n := |ps| - 1;
      assert end - 1 in ps;
      assert ps[n] in ps;
      assert ps[n] == end - 1;
      assert forall p :: p in ps[..n] <==> p in ps && p != end - 1;
    }
  }

  /** out is every event of topics in s from position `from` on, each once, in order. */
  ghost predicate EventsFrom(s: seq<Frame>, from: nat, topics: seq<Topic>, out: seq<Frame>) {
    exists ps :: EventsAt(s, from, topics, out, ps)
  }

  ghost predicate EventsAt(s: seq<Frame>, from: nat, topics: seq<Topic>, out: seq<Frame>, ps: seq<nat>) {
    IsAt(s, out, ps) && forall p: nat :: p in ps <==> from <= p < |s| && s[p].topic in topics
  }

  /** Where nothing is the hub's own, the wanted events are all those of the topics. */
  lemma WantedIsAll(s: seq<Frame>, from: nat, topics: seq<Topic>, ts: set<Topic>) returns (ps: seq<nat>)
    requires from <= |s| && (forall k :: 0 <= k < |s| ==> !Reserved(s[k].typ)) && forall t :: t in ts <==> t in topics
    ensures EventsAt(s, from, topics, Wanted(s[from..], ts), ps) && EventsFrom(s, from, topics, Wanted(s[from..], ts))
  {
    assert s[from..] == s[from..|s|];
    ps := WantedAt(s, from, |s|, ts);
  }
}
