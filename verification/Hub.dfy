/** The realtime hub: realtime/hub.go, and the subscriptions of realtime/conn.go and realtime/ws.go. */
module Hubs {
  import opened Frames
  import opened Replays
  import opened Conns
  import opened Sets
  import Decimals

  /** The events the hub owes a subscription are the events it queued for it: the topic's, from where it began, in hub order. */
  ghost predicate Served(sent: seq<Frame>, mark: nat, history: seq<Frame>, from: nat, t: Topic) {
    mark <= |sent| && from <= |history| && Wanted(sent[mark..], {t}) == Wanted(history[from..], {t})
  }

  /** A connection that has not ended got all it is owed. */
  ghost predicate Owed(v: View, history: seq<Frame>) {
    !v.ended ==> forall t :: t in v.topics ==>
      t in v.from && t in v.mark && Served(v.sent, v.mark[t], history, v.from[t], t)
  }

  /**
   What it means, event by event: the positions from mark on where an event of
   the topic was queued, and those from `from` on where one is in the history,
   are as many, and the k-th has the same event.
   */
  lemma ServedAt(sent: seq<Frame>, mark: nat, history: seq<Frame>, from: nat, t: Topic)
      returns (out: seq<Frame>, ps: seq<nat>, qs: seq<nat>)
    requires Served(sent, mark, history, from, t)
    ensures PicksAt(sent, mark, |sent|, {t}, out, ps) && PicksAt(history, from, |history|, {t}, out, qs)
  {
    assert sent[mark..] == sent[mark..|sent|] && history[from..] == history[from..|history|];
    ps := WantedAt(sent, mark, |sent|, {t});
    qs := WantedAt(history, from, |history|, {t});
    out := Wanted(sent[mark..], {t});
  }

  lemma ServedWhenAt(sent: seq<Frame>, mark: nat, history: seq<Frame>, from: nat, t: Topic,
                     out: seq<Frame>, ps: seq<nat>, qs: seq<nat>)
    requires PicksAt(sent, mark, |sent|, {t}, out, ps) && PicksAt(history, from, |history|, {t}, out, qs)
    ensures Served(sent, mark, history, from, t)
  {
    assert sent[mark..] == sent[mark..|sent|] && history[from..] == history[from..|history|];
    PicksAreWanted(sent, mark, |sent|, {t}, out, ps);
    PicksAreWanted(history, from, |history|, {t}, out, qs);
  }

  lemma ServedMore(sent: seq<Frame>, mark: nat, history: seq<Frame>, from: nat, t: Topic, more: seq<Frame>, later: seq<Frame>)
    requires Served(sent, mark, history, from, t) && Wanted(more, {t}) == Wanted(later, {t})
    ensures Served(sent + more, mark, history + later, from, t)
  {
    hide Wanted;
    assert (sent + more)[mark..] == sent[mark..] + more;
    assert (history + later)[from..] == history[from..] + later;
    WantedConcat(sent[mark..], more, {t});
    WantedConcat(history[from..], later, {t});
  }

  /** The ID of the n-th event a hub publishes. */
  function IdOf(origin: string, n: nat): string {
    origin + "-" + Decimals.Text(n)
  }

  /** A hub's own events are numbered 1 to `last`. */
  ghost predicate UpTo(history: seq<Frame>, origin: string, last: nat) {
    && '-' !in origin
    && forall e, n: nat :: e in history && e.id == IdOf(origin, n) ==> n <= last
  }

  lemma UpToOneMore(history: seq<Frame>, origin: string, last: nat, f: Frame)
    requires UpTo(history, origin, last) && forall n: nat :: f.id == IdOf(origin, n) ==> n <= last
    ensures UpTo(history + [f], origin, last)
  {
    hide IdOf;
  }

  /** The next number is in no event so far, and stands for no other number. */
  lemma NextIdIsNew(history: seq<Frame>, origin: string, last: nat)
    requires UpTo(history, origin, last)
    ensures UpTo(history, origin, last + 1)
    ensures forall e :: e in history ==> e.id != IdOf(origin, last + 1)
    ensures forall n: nat :: IdOf(origin, n) == IdOf(origin, last + 1) ==> n <= last + 1
  {
    forall n: nat | IdOf(origin, n) == IdOf(origin, last + 1) ensures n <= last + 1 {
      var k := |origin| + 1;
      assert IdOf(origin, n)[k..] == Decimals.Text(n) && IdOf(origin, last + 1)[k..] == Decimals.Text(last + 1);
      Decimals.DifferentNumbers(n, last + 1);
    }
  }

  /** No event of another hub has an ID of this one's. */
  lemma ForeignIds(history: seq<Frame>, origin: string, last: nat, ev: Frame)
    requires UpTo(history, origin, last) && Foreign(ev, origin)
    ensures forall n: nat :: ev.id != IdOf(origin, n)
  {
    forall n: nat ensures ev.id != IdOf(origin, n) {
      DashBehind(origin, "-" + Decimals.Text(n));
      assert IdOf(origin, n) == origin + ("-" + Decimals.Text(n));
      assert IdOf(origin, n)[..|origin|] == origin;
    }
  }

  lemma {:induction false} DashBehind(s: string, rest: string)
    requires '-' !in s && rest != "" && rest[0] == '-'
    ensures Dash(s + rest) == |s|
    decreases |s|
  {
    if s == "" {
      assert s + rest == rest;
    } else {
      assert (s + rest)[1..] == s[1..] + rest;
      DashBehind(s[1..], rest);
    }
  }

  function Of(conns: set<Conn>, userID: string): set<Conn> {
    set c | c in conns && c.userID == userID
  }

  /** A connection is in a topic's set exactly when the topic is in the connection's; no topic's set is empty. */
  ghost predicate Linked(conns: set<Conn>, topics: map<Topic, set<Conn>>, subs: map<Conn, set<Topic>>) {
    && subs.Keys == conns
    && (forall t :: t in topics ==> topics[t] != {} && topics[t] <= conns)
    && (forall c, t :: c in conns ==> (t in subs[c] <==> t in topics && c in topics[t]))
  }

  lemma LinkedWithout(conns: set<Conn>, topics: map<Topic, set<Conn>>, subs: map<Conn, set<Topic>>, c: Conn, t: Topic)
    requires Linked(conns, topics, subs) && c in conns && t in subs[c]
    ensures t in topics && c in topics[t]
    ensures var left := topics[t] - {c};
            Linked(conns, if left == {} then topics - {t} else topics[t := left], subs[c := subs[c] - {t}])
  {
  }

  lemma LinkedWith(conns: set<Conn>, topics: map<Topic, set<Conn>>, subs: map<Conn, set<Topic>>, c: Conn, t: Topic)
    requires Linked(conns, topics, subs) && c in conns
    ensures Linked(conns, topics[t := (if t in topics then topics[t] else {}) + {c}], subs[c := subs[c] + {t}])
  {
  }

  lemma LinkedNew(conns: set<Conn>, topics: map<Topic, set<Conn>>, subs: map<Conn, set<Topic>>, c: Conn)
    requires Linked(conns, topics, subs) && c !in conns
    ensures Linked(conns + {c}, topics, subs[c := {}])
  {
  }

  lemma LinkedGone(conns: set<Conn>, topics: map<Topic, set<Conn>>, subs: map<Conn, set<Topic>>, c: Conn)
    requires Linked(conns, topics, subs) && c in conns && subs[c] == {}
    ensures Linked(conns - {c}, topics, subs - {c})
  {
  }

  function Count(users: map<string, nat>, u: string): nat {
    if u in users then users[u] else 0
  }

  /** users counts each user's connections, and knows no user without one; the anonymous connections are nobody's. */
  ghost predicate Counted(conns: set<Conn>, users: map<string, nat>) {
    && (forall u :: Count(users, u) == if u == "" then 0 else |Of(conns, u)|)
    && (forall u :: u in users ==> users[u] > 0)
  }

  lemma OfWith(conns: set<Conn>, c: Conn, u: string)
    requires c !in conns
    ensures |Of(conns + {c}, u)| == |Of(conns, u)| + if u == c.userID then 1 else 0
  {
    assert Of(conns + {c}, u) == if u == c.userID then Of(conns, u) + {c} else Of(conns, u);
  }

  lemma CountedWith(conns: set<Conn>, users: map<string, nat>, c: Conn)
    requires Counted(conns, users) && c !in conns
    ensures var u := c.userID; Counted(conns + {c}, if u == "" then users else users[u := Count(users, u) + 1])
  {
    hide Of;
    forall u ensures |Of(conns + {c}, u)| == |Of(conns, u)| + if u == c.userID then 1 else 0 {
      OfWith(conns, c, u);
    }
  }

  lemma CountedWithout(conns: set<Conn>, users: map<string, nat>, c: Conn)
    requires Counted(conns, users) && c in conns
    ensures var u := c.userID; u == "" || (u in users && users[u] > 0)
    ensures var u := c.userID;
            Counted(conns - {c}, if u == "" then users else if users[u] - 1 <= 0 then users - {u} else users[u := users[u] - 1])
  {
    hide Of;
    var less := conns - {c};
    assert Count(users, c.userID) == if c.userID == "" then 0 else |Of(conns, c.userID)|;
    assert conns == less + {c};
    forall u ensures |Of(conns, u)| == |Of(less, u)| + if u == c.userID then 1 else 0 {
      OfWith(less, c, u);
    }
  }

  /** user:<id> is that user's own topic. */
  predicate IsUserTopic(t: Topic) {
    |t| >= 5 && t[..5] == "user:"
  }

  predicate MayHave(userID: string, t: Topic) {
    IsUserTopic(t) ==> userID != "" && t[5..] == userID
  }

  lemma OwedFewer(v: View, history: seq<Frame>, ts: set<Topic>)
    requires Owed(v, history) && ts <= v.topics
    ensures Owed(v.(topics := ts), history)
  {
  }

  class Hub {
    const sendBuffer: nat
    const maxSubscriptions: nat
    const origin: string  // hexadecimal digits
    const replay: Replay
    const size: nat
    var sequence: nat
    var conns: set<Conn>
    var topics: map<Topic, set<Conn>>
    var users: map<string, nat>
    var closed: bool
    ghost var history: seq<Frame>  // every event published here or received, in hub order

    ghost predicate Valid()
      reads this, replay, replay.buf, conns
    {
      && Recorded() && (forall c :: c in conns ==> Healthy(c))
      && Linked(conns, topics, Subscriptions()) && Counted(conns, users)
      && UpTo(history, origin, sequence)
    }

    /** The replay buffer has seen the whole history. */
    ghost predicate Recorded()
      reads this`history, replay, replay.buf
    {
      replay.Valid() && replay.buf.Length == size && replay.log == history
    }

    ghost predicate Healthy(c: Conn)
      reads this`history, this`closed, c`queue, c`live, c`ended, c`topics, c`sent, c`from, c`mark
    {
      Base(c) && Owed(c.Seen(), history)
    }

    ghost predicate Base(c: Conn)
      reads this`closed, c`queue, c`live, c`ended, c`topics, c`sent
    {
      && Bounds(c) && (closed ==> c.ended)
      && |c.topics| <= maxSubscriptions && forall t :: t in c.topics ==> MayHave(c.userID, t)
    }

    ghost predicate Bounds(c: Conn)
      reads c`queue, c`live, c`ended, c`sent
    {
      c.Valid() && c.limit == sendBuffer && c.cap == sendBuffer + size + 2 * maxSubscriptions
    }

    /** The topics every connection has. */
    ghost function Subscriptions(): map<Conn, set<Topic>>
      reads this`conns, conns`topics
    {
      map c | c in conns :: c.topics
    }

    constructor (sendBuffer: nat, size: nat, maxSubscriptions: nat, origin: string)
      requires '-' !in origin
      ensures Valid() && conns == {} && history == [] && !closed && fresh(replay) && fresh(replay.buf)
      ensures this.sendBuffer == sendBuffer && this.size == size && this.maxSubscriptions == maxSubscriptions
    {
      this.sendBuffer, this.size, this.maxSubscriptions, this.origin := sendBuffer, size, maxSubscriptions, origin;
      replay := new Replay(size);
      sequence, conns, topics, users, closed, history := 0, {}, map[], map[], false, [];
    }

    // ---------- Connections ----------

    method Register(c: Conn) returns (ok: bool)
      requires Valid() && c !in conns && (closed || Base(c)) && c.topics == {}
      modifies this`conns, this`users
      ensures Valid()
      ensures ok == !closed && conns == if ok then old(conns) + {c} else old(conns)
    {
      hide Bounds, Count, Linked, Counted, UpTo, Recorded, Served;
      if closed {
        return false;
      }
      CountedWith(conns, users, c);
      ghost var subs := Subscriptions();
      LinkedNew(conns, topics, subs, c);
      conns := conns + {c};
      assert Subscriptions() == subs[c := {}];
      if c.userID != "" {
        users := users[c.userID := Count(users, c.userID) + 1];
      }
      assert Subscriptions() == subs[c := {}];
      assert forall d :: d in conns ==> Healthy(d);
      assert Counted(conns, users);
      assert Recorded();
      return true;
    }

    lemma HasBase(c: Conn)
      requires Healthy(c)
      ensures Base(c)
    {
    }

    method Unregister(c: Conn)
      requires Valid() && c in conns
      modifies this`conns, this`users, this`topics, c`topics
      ensures Valid() && conns == old(conns) - {c}
    {
      hide Owed, Linked, Counted, UpTo, Recorded, Healthy, Base;
      HasBase(c);
      DetachAll(c);
      CountedWithout(conns, users, c);
      ghost var subs := Subscriptions();
      LinkedGone(conns, topics, subs, c);
      conns := conns - {c};
      assert Subscriptions() == subs - {c};
      if c.userID != "" {
        if users[c.userID] - 1 <= 0 {
          users := users - {c.userID};
        } else {
          users := users[c.userID := users[c.userID] - 1];
        }
      }
      assert Subscriptions() == subs - {c};
      assert Counted(conns, users);
    }

    // ---------- Subscriptions ----------

    /** detachLocked without topics: every subscription of c. */
    method DetachAll(c: Conn)
      requires c in conns && Linked(conns, topics, Subscriptions()) && Base(c)
      modifies this`topics, c`topics
      ensures Linked(conns, topics, Subscriptions()) && Base(c) && c.topics == {}
    {
      hide Linked, Base;
      var rest := c.topics;
      while rest != {}
        invariant Linked(conns, topics, Subscriptions()) && Base(c) && c.topics == rest
        decreases |rest|
      {
        var t :| t in rest;
        DetachOne(c, t);
        rest := rest - {t};
      }
    }

    method DetachOne(c: Conn, t: Topic)
      requires c in conns && Linked(conns, topics, Subscriptions()) && Base(c)
      modifies this`topics, c`topics
      ensures Linked(conns, topics, Subscriptions()) && Base(c) && c.topics == old(c.topics) - {t}
    {
      hide Linked;
      if t !in c.topics {
        return;
      }
      ghost var subs := Subscriptions()[c := c.topics - {t}];
      LinkedWithout(conns, topics, Subscriptions(), c, t);
      Fewer(c.topics - {t}, c.topics);
      c.topics := c.topics - {t};
      var left := topics[t] - {c};
      topics := if left == {} then topics - {t} else topics[t := left];
      assert Subscriptions() == subs;
    }

    /** detach: the subscriptions of c to ts. */
    method Detach(c: Conn, ts: seq<Topic>)
      requires Valid() && c in conns
      modifies this`topics, c`topics
      ensures Valid() && c.topics == old(c.topics) - Listed(ts)
    {
      hide Linked, Counted, UpTo, Recorded, Owed, Base;
      var i := 0;
      while i < |ts|
        invariant 0 <= i <= |ts| && Linked(conns, topics, Subscriptions()) && Base(c)
        invariant c.topics == old(c.topics) - Listed(ts[..i])
      {
        DetachOne(c, ts[i]);
        assert Listed(ts[..i + 1]) == Listed(ts[..i]) + {ts[i]};
        i := i + 1;
      }
      assert ts[..i] == ts;
      OwedFewer(old(c.Seen()), history, c.topics);
    }

    /** dropLocked: c ends as a slow consumer, with no subscription left. */
    method Drop(c: Conn)
      requires c in conns && Linked(conns, topics, Subscriptions()) && Base(c)
      modifies this`topics, c`topics, c`queue, c`ended, c`code
      ensures Linked(conns, topics, Subscriptions()) && Healthy(c) && c.topics == {} && c.ended
      ensures c.Waits() == EndedWith(old(c.Waits()), CLOSE_SLOW)
    {
      hide Linked;
      DetachAll(c);
      var _ := c.End(CLOSE_SLOW);
    }

    /** fresh: the topics of ts that c does not have, each once, and how many more c may take. */
    method Fresh(c: Conn, ts: seq<Topic>) returns (out: seq<Topic>, room: int)
      requires Valid() && c in conns
      ensures NoDuplicates(out) && Listed(out) == Listed(ts) - c.topics
      ensures room == maxSubscriptions - |c.topics|
    {
      out := [];
      var i := 0;
      while i < |ts|
        invariant 0 <= i <= |ts| && NoDuplicates(out) && Listed(out) == Listed(ts[..i]) - c.topics
      {
        assert Listed(ts[..i + 1]) == Listed(ts[..i]) + {ts[i]};
        if ts[i] !in c.topics && ts[i] !in out {
          assert Listed(out + [ts[i]]) == Listed(out) + {ts[i]};
          out := out + [ts[i]];
        }
        i := i + 1;
      }
      assert ts[..i] == ts;
      room := maxSubscriptions - |c.topics|;
    }

    /** check: a user's own topic is that user's alone, any other the application's call. */
    method Check(c: Conn, ts: seq<Topic>, granted: set<Topic>) returns (ok: seq<Topic>, refused: seq<Topic>)
      requires NoDuplicates(ts)
      ensures NoDuplicates(ok) && |ok| + |refused| == |ts|
      ensures forall id :: "user:" + id in ok <==> "user:" + id in ts && id == c.userID && id != ""
      ensures forall t :: t in ts && !("user:" <= t) ==> (t in ok <==> t in granted)
      ensures forall t :: t in ok <==> t in ts && Allowed(c.userID, t, granted)
      ensures forall t :: t in refused <==> t in ts && !Allowed(c.userID, t, granted)
    {
      ok, refused := [], [];
      var i := 0;
      while i < |ts|
        invariant 0 <= i <= |ts| && |ok| + |refused| == i && NoDuplicates(ok)
        invariant forall t :: t in ok <==> t in ts[..i] && Allowed(c.userID, t, granted)
        invariant forall t :: t in refused <==> t in ts[..i] && !Allowed(c.userID, t, granted)
      {
        assert ts[..i + 1] == ts[..i] + [ts[i]];
        if Allowed(c.userID, ts[i], granted) {
          ok := ok + [ts[i]];
        } else {
          refused := refused + [ts[i]];
        }
        i := i + 1;
      }
      assert ts[..i] == ts;
      GrantedAre(c.userID, granted);
    }

    /** Pushes frames one after the other, whatever became of those before: attachLocked's own loops. */
    method QueueAll(c: Conn, frames: seq<Frame>) returns (overflow: bool)
      requires Base(c)
      modifies c`queue, c`live, c`wake, c`ended, c`code, c`transport, c`sent
      ensures Base(c) && (old(c.ended) ==> c.ended && !overflow && c.sent == old(c.sent))
      ensures !overflow && !c.ended ==> c.sent == old(c.sent) + frames
      ensures c.Waits() == QueuedAll(old(c.Waits()), frames, c.limit, c.cap)
      ensures overflow <==> Overflows(old(c.Waits()), frames, c.limit, c.cap)
    {
      hide Base, Offered, Reception, QueuedAll, Overflows;
      ghost var b := c.Waits();
      overflow := false;
      NothingQueued(b, c.limit, c.cap);
      assert frames[..0] == [];
      var i := 0;
      while i < |frames|
        invariant 0 <= i <= |frames| && Base(c)
        invariant old(c.ended) ==> c.ended && !overflow && c.sent == old(c.sent)
        invariant !overflow && !c.ended ==> c.sent == old(c.sent) + frames[..i]
        invariant c.Waits() == QueuedAll(b, frames[..i], c.limit, c.cap)
        invariant overflow <==> Overflows(b, frames[..i], c.limit, c.cap)
      {
        QueuedNext(b, frames, i, c.limit, c.cap);
        var full := QueueOne(c, frames[i]);
        overflow := overflow || full;
        assert frames[..i + 1] == frames[..i] + [frames[i]];
        i := i + 1;
      }
      assert frames[..i] == frames;
    }

    method QueueOne(c: Conn, f: Frame) returns (full: bool)
      requires Base(c)
      modifies c`queue, c`live, c`wake, c`ended, c`code, c`transport, c`sent
      ensures Base(c) && (old(c.ended) ==> c.ended && !full && c.sent == old(c.sent))
      ensures !full && !c.ended ==> c.sent == old(c.sent) + [f]
      ensures c.Waits() == Offered(old(c.Waits()), f, false, c.limit, c.cap)
      ensures full <==> Reception(old(c.Waits()), false, c.limit, c.cap).Full?
    {
      hide LiveIn;
      c.Drain();
      var r := c.Push(f, false);
      full := r.Full?;
    }

    method SubscribeOne(c: Conn, t: Topic)
      requires c in conns && Linked(conns, topics, Subscriptions())
      modifies this`topics, c`topics
      ensures Linked(conns, topics, Subscriptions()) && c.topics == old(c.topics) + {t}
    {
      hide Linked;
      ghost var subs := Subscriptions()[c := c.topics + {t}];
      LinkedWith(conns, topics, Subscriptions(), c, t);
      c.topics := c.topics + {t};
      var subscribers := if t in topics then topics[t] else {};
      topics := topics[t := subscribers + {c}];
      assert Subscriptions() == subs;
    }

    method SubscribeAll(c: Conn, ts: seq<Topic>)
      requires c in conns && Linked(conns, topics, Subscriptions()) && Base(c)
      requires |c.topics| + |ts| <= maxSubscriptions && forall t :: t in ts ==> MayHave(c.userID, t)
      modifies this`topics, c`topics
      ensures Linked(conns, topics, Subscriptions()) && Base(c) && c.topics == old(c.topics) + Listed(ts)
    {
      hide Linked, Bounds, Base, MayHave;
      BaseParts(c);
      var i := 0;
      while i < |ts|
        invariant 0 <= i <= |ts| && Linked(conns, topics, Subscriptions())
        invariant c.topics == old(c.topics) + Listed(ts[..i]) && |c.topics| <= |old(c.topics)| + i
      {
        assert Listed(ts[..i + 1]) == Listed(ts[..i]) + {ts[i]};
        SubscribeOne(c, ts[i]);
        i := i + 1;
      }
      assert ts[..i] == ts;
      BaseWhole(c);
    }

    lemma BaseParts(c: Conn)
      requires Base(c)
      ensures Bounds(c) && (closed ==> c.ended) && forall t :: t in c.topics ==> MayHave(c.userID, t)
    {
    }

    lemma BaseWhole(c: Conn)
      requires Bounds(c) && (closed ==> c.ended)
      requires |c.topics| <= maxSubscriptions && forall t :: t in c.topics ==> MayHave(c.userID, t)
      ensures Base(c)
    {
    }

    /**
     attachLocked: the refusals, the subscriptions, and then what the client
     missed of them since the event after, or resets when that is no longer kept.
     */
    method AttachLocked(c: Conn, ok: seq<Topic>, refused: seq<Topic>, after: string)
      returns (overflow: bool, ghost own: seq<Frame>, ghost from: nat)
      requires c in conns && Linked(conns, topics, Subscriptions()) && Recorded() && Healthy(c)
      requires |c.topics| + |ok| <= maxSubscriptions && forall t :: t in ok ==> MayHave(c.userID, t)
      modifies this`topics, c`topics, c`queue, c`live, c`wake, c`ended, c`code, c`transport, c`sent, c`from, c`mark
      ensures Linked(conns, topics, Subscriptions()) && Base(c) && (!overflow ==> Healthy(c))
      ensures c.topics == old(c.topics) + Listed(ok) && (old(c.ended) ==> c.ended && c.sent == old(c.sent) && !overflow)
      ensures own == Announced(ok, refused, Lost(history, size, ok, after))
      ensures Resumes(history, size, ok, after, from) && from <= |history|
      ensures EventsFrom(history, from, ok, Wanted(history[from..], Listed(ok)))
      ensures c.from == With(old(c.from), Listed(ok), from) && c.mark == With(old(c.mark), Listed(ok), |old(c.sent)|)
      ensures !overflow && !c.ended ==> c.sent == old(c.sent) + (own + Wanted(history[from..], Listed(ok)))
      ensures |own| + |Wanted(history[from..], Listed(ok))| <= |refused| + if size < |ok| then |ok| else size
      ensures var fs := own + Wanted(history[from..], Listed(ok));
        && c.Waits() == QueuedAll(old(c.Waits()), fs, c.limit, c.cap)
        && (overflow <==> Overflows(old(c.Waits()), fs, c.limit, c.cap))
    {
      hide QueuedAll, Overflows, Linked, Recorded, Base, Wanted, Resumes, Lost, Owed, OwnEvents, Listed, With, MayHave, EventsFrom;
      ghost var v, b := c.Seen(), c.Waits();
      overflow := QueueAll(c, OwnEvents(refused, REFUSED));
      own, from := OwnEvents(refused, REFUSED), |history|;
      ghost var resets: seq<Frame> := [];
      SubscribeAll(c, ok);
      var more;
      more, resets, from := Resume(c, ok, after);
      ghost var first, rest := own, resets + Wanted(history[from..], Listed(ok));
      QueuedConcat(b, first, rest, c.limit, c.cap);
      own, overflow := own + resets, overflow || more;
      assert own + Wanted(history[from..], Listed(ok)) == first + rest;
      MarkStart(c, v, Listed(ok), own, from, overflow);
    }

    /** Where the new subscriptions begin. */
    ghost method MarkStart(c: Conn, v: View, ts: set<Topic>, own: seq<Frame>, from: nat, overflow: bool)
      requires Owed(v, history) && from <= |history| && (forall k :: 0 <= k < |own| ==> Reserved(own[k].typ))
      requires c.topics == v.topics + ts && c.from == v.from && c.mark == v.mark && (v.ended ==> c.ended)
      requires !overflow && !c.ended ==> c.sent == v.sent + (own + Wanted(history[from..], ts))
      modifies c`from, c`mark
      ensures !overflow ==> Owed(c.Seen(), history)
      ensures c.from == With(old(c.from), ts, from) && c.mark == With(old(c.mark), ts, |v.sent|)
    {
      hide Wanted, Served;
      AttachServes(v, history, ts, own, Wanted(history[from..], ts), from);
      c.from, c.mark := With(c.from, ts, from), With(c.mark, ts, |v.sent|);
    }

    /** The resuming half of attachLocked: the replayed events, or resets. */
    method Resume(c: Conn, ok: seq<Topic>, after: string) returns (overflow: bool, ghost resets: seq<Frame>, ghost from: nat)
      requires Recorded() && Base(c)
      modifies c`queue, c`live, c`wake, c`ended, c`code, c`transport, c`sent
      ensures Base(c) && (old(c.ended) ==> c.ended && !overflow && c.sent == old(c.sent))
      ensures resets == if Lost(history, size, ok, after) then OwnEvents(ok, RESET) else []
      ensures Resumes(history, size, ok, after, from) && from <= |history|
      ensures EventsFrom(history, from, ok, Wanted(history[from..], Listed(ok)))
      ensures !overflow && !c.ended ==> c.sent == old(c.sent) + (resets + Wanted(history[from..], Listed(ok)))
      ensures |resets| + |Wanted(history[from..], Listed(ok))| <= if size < |ok| then |ok| else size
      ensures var fs := resets + Wanted(history[from..], Listed(ok));
        && c.Waits() == QueuedAll(old(c.Waits()), fs, c.limit, c.cap)
        && (overflow <==> Overflows(old(c.Waits()), fs, c.limit, c.cap))
    {
      hide Base, Wanted, IsLatest, QueuedAll, Overflows, EventsFrom;
      NothingQueued(c.Waits(), c.limit, c.cap);
      assert history[|history|..] == [];
      NoneWanted([], Listed(ok));
      overflow, resets, from := false, [], |history|;
      if ok == [] || after == "" {
        Missing(from, ok);
        assert resets + Wanted(history[from..], Listed(ok)) == [];
        return;
      }
      var frames, kept;
      ghost var at;
      ghost var ps;
      frames, kept, at, ps := replay.Since(after, ok);
      if !kept {
        frames := OwnEvents(ok, RESET);
        resets := frames;
      } else {
        from := at + 1;
        WantedIsShorter(history[from..], Listed(ok));
      }
      Missing(from, ok);
      assert resets + Wanted(history[from..], Listed(ok)) == frames;
      overflow := QueueAll(c, frames);
    }

    /** What a subscription to ok from there on is owed, event by event. */
    lemma Missing(from: nat, ok: seq<Topic>)
      requires Recorded() && from <= |history|
      ensures EventsFrom(history, from, ok, Wanted(history[from..], Listed(ok)))
    {
      var _ := WantedIsAll(history, from, ok, Listed(ok));
    }

    /** attach: what attachLocked does; a connection whose queue overflows meanwhile is dropped. */
    method Attach(c: Conn, ok: seq<Topic>, refused: seq<Topic>, after: string)
      returns (overflow: bool, ghost own: seq<Frame>, ghost from: nat)
      requires Valid() && c in conns && |c.topics| + |ok| <= maxSubscriptions
      requires forall t :: t in ok ==> MayHave(c.userID, t)
      modifies this`topics, c`topics, c`queue, c`live, c`wake, c`ended, c`code, c`transport, c`sent, c`from, c`mark
      ensures Valid() && (old(c.ended) ==> c.ended && c.sent == old(c.sent) && !overflow)
      ensures overflow ==> c.ended && c.topics == {}
      ensures !overflow ==> c.topics == old(c.topics) + Listed(ok)
      ensures own == Announced(ok, refused, Lost(history, size, ok, after)) && Resumes(history, size, ok, after, from)
      ensures from <= |history| && EventsFrom(history, from, ok, Wanted(history[from..], Listed(ok)))
      ensures !c.ended ==>
        && c.sent == old(c.sent) + (own + Wanted(history[from..], Listed(ok)))
        && forall t :: t in ok ==> t in c.from && c.from[t] == from && t in c.mark && c.mark[t] == |old(c.sent)|
      ensures |old(c.queue)| + |refused| + (if size < |ok| then |ok| else size) <= c.cap ==> !overflow
      ensures var fs := own + Wanted(history[from..], Listed(ok));
        && (overflow <==> Overflows(old(c.Waits()), fs, c.limit, c.cap))
        && var d := QueuedAll(old(c.Waits()), fs, c.limit, c.cap); c.Waits() == if overflow then EndedWith(d, CLOSE_SLOW) else d
    {
      hide EndedWith, Announced, Linked, Counted, UpTo, Recorded, Base, Owed, Wanted, Resumes, Lost, QueuedAll, Overflows, EventsFrom;
      ghost var b := c.Waits();
      overflow, own, from := AttachLocked(c, ok, refused, after);
      AllFit(b, own + Wanted(history[from..], Listed(ok)), c.limit, c.cap);
      if overflow {
        Drop(c);
      }
    }

    // ---------- Publishing ----------

    /** One subscriber of deliverLocked. */
    method DeliverOne(c: Conn, f: Frame, ghost h: seq<Frame>) returns (r: Pushed)
      requires Base(c) && Owed(c.Seen(), h) && f.topic in c.topics && !Reserved(f.typ)
      modifies c`queue, c`live, c`wake, c`ended, c`code, c`transport, c`sent
      ensures Base(c) && (old(c.ended) ==> c.ended)
      ensures r.Taken? ==> !c.ended && c.sent == old(c.sent) + [f] && Owed(c.Seen(), h + [f])
      ensures old(c.ended) ==> !r.Taken?
      ensures r.Gone? ==> c.sent == old(c.sent) && c.ended && Owed(c.Seen(), h + [f])
      ensures r.Gone? <==> old(c.ended) || EndsFirst(old(c.Waits()))
      ensures r.Full? ==> c.sent == old(c.sent) && !c.ended
      ensures r.Full? <==> !r.Gone? && Overfull(old(c.Waits()), c.limit, c.cap)
      ensures c.Waits() == Offered(old(c.Waits()), f, true, c.limit, c.cap) && r == Reception(old(c.Waits()), true, c.limit, c.cap)
    {
      hide Served, Wanted, Rest, LiveIn;
      ghost var v := c.Seen();
      c.Drain();
      r := c.Push(f, true);
      if r.Taken? {
        OwedOneMore(v, h, f);
      }
    }

    /** A subscriber deliverLocked has yet to come to. */
    ghost predicate Waiting(c: Conn, v: View, b: Line, f: Frame, h: seq<Frame>)
      reads this`closed, c`queue, c`live, c`ended, c`code, c`wake, c`transport, c`topics, c`sent, c`from, c`mark
    {
      Base(c) && c.Seen() == v && c.Waits() == b && Owed(v, h) && f.topic in v.topics
    }

    /** A connection deliverLocked is done with, or has nothing to do with. */
    ghost predicate Attended(c: Conn, v: View, b: Line, f: Frame)
      reads this`closed, this`history, c`queue, c`live, c`ended, c`code, c`wake, c`transport, c`topics, c`sent, c`from, c`mark
    {
      && Healthy(c) && Later(v, c.Seen()) && Delivered(c.ended, c.sent, v.ended, v.sent, f, f.topic in v.topics)
      && Spared(c, v, b, f)
    }

    /**
     Whoever is not subscribed is left alone. The event is pushed to a subscriber
     once its transport has had its turn: it waits last then, behind all that the
     transport left, unless the connection has ended, which it has exactly when
     its own transport ended it first or the queue has no room for the event.
     */
    ghost predicate Spared(c: Conn, v: View, b: Line, f: Frame)
      reads c`queue, c`ended, c`code, c`wake, c`transport, c`topics, c`sent, c`from, c`mark
    {
      if f.topic !in v.topics then
        c.Seen() == v && c.Waits() == b
      else
        && c.Waits() == AfterEvent(b, f, c.limit, c.cap)
        && (!v.ended ==>
              && (c.ended <==> EndsFirst(b) || Overfull(b, c.limit, c.cap))
              && (c.ended ==> c.code == if EndsFirst(b) then CLOSE_NORMAL else CLOSE_SLOW)
              && (!c.ended ==> c.queue == Rest(b) + [Queued(f, true)] && c.wake && c.topics == v.topics))
    }

    ghost predicate Dropped(c: Conn, v: View)
      reads c`ended, c`topics, c`sent
    {
      c.ended && c.sent == v.sent && c.topics == {}
    }

    /** deliverLocked: every subscriber of the event's topic takes it, has ended, or is dropped. */
    method Deliver(f: Frame, ghost h: seq<Frame>, ghost before: map<Conn, View>, ghost lines: map<Conn, Line>) returns (slow: set<Conn>)
      requires Linked(conns, topics, Subscriptions()) && !Reserved(f.typ) && history == h + [f]
      requires before.Keys == lines.Keys == conns
      requires forall c :: c in conns ==> Base(c) && c.Seen() == before[c] && c.Waits() == lines[c] && Owed(before[c], h)
      modifies this`topics, conns`topics, conns`queue, conns`live, conns`wake, conns`ended, conns`code, conns`transport, conns`sent
      ensures Linked(conns, topics, Subscriptions())
      ensures forall c :: c in conns ==> Attended(c, before[c], lines[c], f)
      ensures slow <= conns && forall c :: c in slow ==> Dropped(c, before[c])
    {
      hide Linked, Base, Owed, Delivered;
      var todo := if f.topic in topics then topics[f.topic] else {};
      slow := {};
      SubscribersAre(conns, topics, Subscriptions(), f.topic);
      forall c | c in conns && c !in todo ensures Attended(c, before[c], lines[c], f) {
        OwedNoMore(before[c], h, f);
        NotSubscribed(c.ended, c.sent, f);
      }
      assert forall c :: c in todo ==> Waiting(c, before[c], lines[c], f, h);
      slow := DeliverTo(todo, f, h, before, lines);
    }

    method DeliverTo(subscribers: set<Conn>, f: Frame, ghost h: seq<Frame>, ghost before: map<Conn, View>, ghost lines: map<Conn, Line>)
      returns (slow: set<Conn>)
      requires subscribers <= conns == before.Keys == lines.Keys && history == h + [f] && !Reserved(f.typ)
      requires Linked(conns, topics, Subscriptions())
      requires forall c :: c in conns ==> if c in subscribers then Waiting(c, before[c], lines[c], f, h) else Attended(c,
           before[c], lines[c], f)
      modifies this`topics, conns`topics, conns`queue, conns`live, conns`wake, conns`ended, conns`code, conns`transport, conns`sent
      ensures Linked(conns, topics, Subscriptions())
      ensures forall c :: c in conns ==> Attended(c, before[c], lines[c], f)
      ensures slow <= conns && forall c :: c in slow ==> Dropped(c, before[c])
    {
      hide Linked, Attended, Waiting, Dropped;
      var todo := subscribers;
      slow := {};
      while todo != {}
        invariant todo <= conns && slow <= conns && todo !! slow
        invariant Linked(conns, topics, Subscriptions())
        invariant forall c :: c in conns ==> if c in todo then Waiting(c, before[c], lines[c], f, h) else Attended(c,
             before[c], lines[c], f)
        invariant forall c :: c in slow ==> Dropped(c, before[c])
        decreases |todo|
      {
        var c :| c in todo;
        todo := todo - {c};
        var full := DeliverOrDrop(c, f, h, before[c], lines[c]);
        if full {
          slow := slow + {c};
        }
      }
    }

    method DeliverOrDrop(c: Conn, f: Frame, ghost h: seq<Frame>, ghost v: View, ghost b: Line) returns (full: bool)
      requires c in conns && Linked(conns, topics, Subscriptions()) && history == h + [f]
      requires Waiting(c, v, b, f, h) && !Reserved(f.typ)
      modifies this`topics, c`topics, c`queue, c`live, c`wake, c`ended, c`code, c`transport, c`sent
      ensures Linked(conns, topics, Subscriptions()) && Attended(c, v, b, f)
      ensures full ==> Dropped(c, v)
    {
      hide Linked, Base, Owed;
      var r := DeliverOne(c, f, h);
      full := r.Full?;
      if full {
        Drop(c);
      }
    }

    /** What every connection shows. */
    ghost function Views(): map<Conn, View>
      reads this`conns, conns
    {
      map c | c in conns :: c.Seen()
    }

    ghost function Lines(): map<Conn, Line>
      reads this`conns, conns
    {
      map c | c in conns :: c.Waits()
    }

    /** The locked half of Publish and receive: the event becomes history, and every subscriber gets it. */
    method Spread(f: Frame)
      requires Valid() && !Reserved(f.typ) && forall n: nat :: f.id == IdOf(origin, n) ==> n <= sequence
      modifies this`topics, this`history, replay, replay.buf
      modifies conns`topics, conns`queue, conns`live, conns`wake, conns`ended, conns`code, conns`transport, conns`sent
      ensures Valid() && history == old(history) + [f]
      ensures forall c :: c in conns ==> Attended(c, old(Views())[c], old(Lines())[c], f)
    {
      hide Valid, Healthy, IdOf, UpTo, Later, Spared, Linked, Counted, Recorded, Base, Owed, Delivered, Dropped;
      Parts();
      ghost var h, before, lines := history, Views(), Lines();
      Remember(f);
      UpToOneMore(h, origin, sequence, f);
      var slow := Deliver(f, h, before, lines);
      Whole();
    }

    lemma Parts()
      requires Valid()
      ensures Recorded() && Linked(conns, topics, Subscriptions()) && Counted(conns, users) && UpTo(history, origin, sequence)
      ensures forall c :: c in conns ==> Healthy(c) && Base(c) && Owed(c.Seen(), history)
    {
    }

    lemma Whole()
      requires Recorded() && Linked(conns, topics, Subscriptions()) && Counted(conns, users) && UpTo(history, origin, sequence)
      requires forall c :: c in conns ==> Healthy(c)
      ensures Valid()
    {
    }

    method Remember(f: Frame)
      requires Recorded() && !Reserved(f.typ)
      modifies this`history, replay, replay.buf
      ensures Recorded() && history == old(history) + [f]
    {
      replay.Add(f);
      history := history + [f];
    }

    /** Publish: refused for a bad topic or type, else the topic's next event. */
    method Publish(topic: Topic, typ: string, data: string) returns (ok: bool, ghost f: Frame)
      requires Valid()
      modifies this`sequence, this`topics, this`history, replay, replay.buf
      modifies conns`topics, conns`queue, conns`live, conns`wake, conns`ended, conns`code, conns`transport, conns`sent
      ensures Valid() && ok == (ValidName(topic) && ValidName(typ) && !Reserved(typ))
      ensures !ok ==> history == old(history) && Views() == old(Views()) && Lines() == old(Lines())
      ensures ok ==> f == Frame(IdOf(origin, old(sequence) + 1), topic, typ, data) && history == old(history) + [f]
      ensures ok ==> forall e :: e in old(history) ==> e.id != f.id
      ensures ok ==> forall c :: c in conns ==> Attended(c, old(Views())[c], old(Lines())[c], f)
    {
      hide Valid, IdOf, UpTo, Linked, Counted, Recorded, Healthy, Attended;
      Parts();
      ok := ValidName(topic) && ValidName(typ) && !Reserved(typ);
      f := Frame("", "", "", "");
      if ok {
        NextIdIsNew(history, origin, sequence);
        sequence := sequence + 1;
        Whole();
        f := Frame(IdOf(origin, sequence), topic, typ, data);
        Spread(Frame(IdOf(origin, sequence), topic, typ, data));
      }
    }

    /** receive: a well-formed event of another replica spreads here too. */
    method Receive(ev: Frame)
      requires Valid()
      modifies this`topics, this`history, replay, replay.buf
      modifies conns`topics, conns`queue, conns`live, conns`wake, conns`ended, conns`code, conns`transport, conns`sent
      ensures Valid() && history == old(history) + if Foreign(ev, origin) then [ev] else []
      ensures !Foreign(ev, origin) ==> Views() == old(Views()) && Lines() == old(Lines())
      ensures Foreign(ev, origin) ==> forall c :: c in conns ==> Attended(c, old(Views())[c], old(Lines())[c], ev)
    {
      hide Valid, UpTo, Linked, Counted, Recorded, Healthy, Attended;
      Parts();
      var dash := Dash(ev.id);
      if dash == 0 || dash + 1 >= |ev.id| || !ValidName(ev.id) || !ValidName(ev.topic) || !ValidName(ev.typ) || Reserved(ev.typ) {
        return;
      }
      if ev.id[..dash] != origin {
        ForeignIds(history, origin, sequence, ev);
        Spread(ev);
      }
    }

    // ---------- Ending connections ----------

    /** A connection that was ended, with the code unless it was before, keeps only the subscriptions ts. */
    ghost predicate Closed(c: Conn, v: View, b: Line, ts: set<Topic>, code: int)
      reads this`history, this`closed, c`queue, c`live, c`ended, c`code, c`wake, c`transport, c`topics, c`sent, c`from, c`mark
    {
      Healthy(c) && c.ended && c.Seen() == v.(ended := true, topics := ts) && c.Waits() == EndedWith(b, code)
    }

    ghost predicate Untouched(c: Conn, v: View, b: Line)
      reads this`history, this`closed, c`queue, c`live, c`ended, c`code, c`wake, c`transport, c`topics, c`sent, c`from, c`mark
    {
      Healthy(c) && c.Seen() == v && c.Waits() == b
    }

    /** Disconnect: every connection of the user ends without a subscription. */
    method Disconnect(userID: string)
      requires Valid()
      modifies this`topics, conns`topics, conns`queue, conns`ended, conns`code
      ensures Valid()
      ensures forall c :: c in conns ==>
        if userID != "" && c.userID == userID then Closed(c, old(Views())[c], old(Lines())[c], {}, CLOSE_POLICY)
        else Untouched(c, old(Views())[c], old(Lines())[c])
    {
      hide Linked, Counted, UpTo, Recorded, Base, Owed;
      if userID != "" {
        DisconnectUser(userID, Views(), Lines());
      }
    }

    method DisconnectUser(userID: string, ghost before: map<Conn, View>, ghost lines: map<Conn, Line>)
      requires Linked(conns, topics, Subscriptions()) && before.Keys == lines.Keys == conns
      requires forall c :: c in conns ==> Untouched(c, before[c], lines[c])
      modifies this`topics, conns`topics, conns`queue, conns`ended, conns`code
      ensures Linked(conns, topics, Subscriptions())
      ensures forall c :: c in conns ==> if c.userID == userID then Closed(c, before[c], lines[c], {}, CLOSE_POLICY)
          else Untouched(c, before[c], lines[c])
    {
      hide Linked, Closed, Untouched;
      var todo := conns;
      while todo != {}
        invariant todo <= conns && Linked(conns, topics, Subscriptions())
        invariant forall c :: c in conns ==>
          if c !in todo && c.userID == userID then Closed(c, before[c], lines[c], {}, CLOSE_POLICY) else Untouched(c, before[c], lines[c])
        decreases |todo|
      {
        var c :| c in todo;
        todo := todo - {c};
        if c.userID == userID {
          Revoke(c, before[c], lines[c]);
        }
      }
    }

    method Revoke(c: Conn, ghost v: View, ghost b: Line)
      requires c in conns && Linked(conns, topics, Subscriptions()) && Untouched(c, v, b)
      modifies this`topics, c`topics, c`queue, c`ended, c`code
      ensures Linked(conns, topics, Subscriptions()) && Closed(c, v, b, {}, CLOSE_POLICY)
    {
      hide Linked;
      DetachAll(c);
      var _ := c.End(CLOSE_POLICY);
    }

    /** The locked half of Close: every connection ends, and none registers any more. */
    method Close()
      requires Valid()
      modifies this`closed, conns`queue, conns`ended, conns`code
      ensures Valid() && closed
      ensures forall c :: c in conns ==> Closed(c, old(Views())[c], old(Lines())[c], old(c.topics), CLOSE_GOING_AWAY)
    {
      hide Valid, Closed, Untouched, GoneAway, Healthy, Linked, Counted, UpTo, Recorded;
      Parts();
      if closed {
        AllEnded();
        return;
      }
      AllUntouched();
      ghost var before, lines := Views(), Lines();
      EndAll(before, lines);
      SetClosed(before, lines);
    }

    method SetClosed(ghost before: map<Conn, View>, ghost lines: map<Conn, Line>)
      requires Recorded() && Linked(conns, topics, Subscriptions()) && Counted(conns, users) && UpTo(history, origin, sequence)
      requires before.Keys == lines.Keys == conns && forall c :: c in conns ==> GoneAway(c, before[c], lines[c])
      modifies this`closed
      ensures Valid() && closed
      ensures forall c :: c in conns ==> Closed(c, before[c], lines[c], before[c].topics, CLOSE_GOING_AWAY)
    {
      hide Valid, Closed, GoneAway, Healthy, Linked, Counted, UpTo, Recorded;
      closed := true;
      AllGone(before, lines);
      Whole();
    }

    lemma AllUntouched()
      requires Valid()
      ensures forall c :: c in conns ==> Untouched(c, Views()[c], Lines()[c])
    {
    }

    lemma AllEnded()
      requires Valid() && closed
      ensures forall c :: c in conns ==> Closed(c, Views()[c], Lines()[c], c.topics, CLOSE_GOING_AWAY)
    {
      hide Owed, Linked, Counted, UpTo, Recorded;
    }

    lemma AllGone(before: map<Conn, View>, lines: map<Conn, Line>)
      requires before.Keys == lines.Keys == conns && forall c :: c in conns ==> GoneAway(c, before[c], lines[c])
      ensures forall c :: c in conns ==> Healthy(c) && Closed(c, before[c], lines[c], before[c].topics, CLOSE_GOING_AWAY)
    {
      hide Owed, Bounds, MayHave;
    }

    /** A connection that Close is done with. */
    ghost predicate GoneAway(c: Conn, v: View, b: Line)
      reads this`history, c`queue, c`live, c`ended, c`code, c`wake, c`transport, c`topics, c`sent, c`from, c`mark
    {
      && Bounds(c) && Owed(c.Seen(), history)
      && |c.topics| <= maxSubscriptions && (forall t :: t in c.topics ==> MayHave(c.userID, t))
      && c.ended && c.Seen() == v.(ended := true) && c.Waits() == EndedWith(b, CLOSE_GOING_AWAY)
    }

    method EndAll(ghost before: map<Conn, View>, ghost lines: map<Conn, Line>)
      requires before.Keys == lines.Keys == conns && forall c :: c in conns ==> Untouched(c, before[c], lines[c])
      modifies conns`queue, conns`ended, conns`code
      ensures Subscriptions() == old(Subscriptions())
      ensures forall c :: c in conns ==> GoneAway(c, before[c], lines[c])
    {
      hide GoneAway, Untouched;
      var todo := conns;
      while todo != {}
        invariant todo <= conns
        invariant forall c :: c in conns ==> if c in todo then Untouched(c, before[c], lines[c]) else GoneAway(c, before[c], lines[c])
        decreases |todo|
      {
        var c :| c in todo;
        todo := todo - {c};
        GoAway(c, before[c], lines[c]);
      }
    }

    method GoAway(c: Conn, ghost v: View, ghost b: Line)
      requires Untouched(c, v, b)
      modifies c`queue, c`ended, c`code
      ensures GoneAway(c, v, b)
    {
      hide LiveIn;
      var _ := c.End(CLOSE_GOING_AWAY);
    }

    // ---------- A subscribe frame ----------

    /** One thing other goroutines do to the hub: anything but c's own subscribing and leaving. */
    method Do(act: Act, c: Conn)
      requires Valid() && c in conns
      modifies this`sequence, this`topics, this`history, this`closed, this`conns, this`users, replay, replay.buf
      modifies conns`topics, conns`queue, conns`live, conns`wake, conns`ended, conns`code, conns`transport, conns`sent
      modifies conns`from, conns`mark
      ensures Valid() && c in conns && Joined(old(conns)) && old(history) <= history
      ensures Later(old(c.Seen()), c.Seen()) && Onward(old(c.Waits()), c.Waits())
    {
      hide Later, Linked, Counted, UpTo, Recorded, Healthy, Base, Onward;
      OnwardSame(c.Waits(), 0);
      LaterClosed(c.Seen(), {});
      match act {
        case Spreads(news) => Announce(news, c);
        case Joins(userID, transport) => Join(userID, transport);
        case Leaves(d) =>
          if d in conns && d != c {
            Unregister(d);
          }
        case Unsubscribes(d, ts) =>
          if d in conns && d != c {
            Detach(d, ts);
          }
        case Attaches(d, ok, refused, after) =>
          if d in conns && d != c && |d.topics| + |ok| <= maxSubscriptions && forall t :: t in ok ==> MayHave(d.userID, t) {
            var _, _, _ := Attach(d, ok, refused, after);
          }
      }
    }

    /** One thing the application or another replica does to all connections. */
    method Announce(news: News, c: Conn)
      requires Valid() && c in conns
      modifies this`sequence, this`topics, this`history, this`closed, replay, replay.buf
      modifies conns`topics, conns`queue, conns`live, conns`wake, conns`ended, conns`code, conns`transport, conns`sent
      ensures Valid() && old(history) <= history
      ensures Later(old(c.Seen()), c.Seen()) && Onward(old(c.Waits()), c.Waits())
    {
      hide Valid, Healthy, Delivered, Later, Foreign, Onward;
      LaterClosed(c.Seen(), {});
      LaterClosed(c.Seen(), c.topics);
      OnwardSame(c.Waits(), CLOSE_POLICY);
      OnwardSame(c.Waits(), CLOSE_GOING_AWAY);
      ghost var b := c.Waits();
      forall f ensures Onward(b, AfterEvent(b, f, c.limit, c.cap)) {
        OnwardEvent(b, f, c.limit, c.cap);
      }
      match news {
        case Publishes(topic, typ, data) => var _, _ := Publish(topic, typ, data);
        case Receives(ev) => Receive(ev);
        case Disconnects(userID) => Disconnect(userID);
        case Closes => Close();
      }
      assert Views()[c] == c.Seen() && Lines()[c] == c.Waits();
    }

    /** A new connection's socket opens. */
    method Join(userID: string, transport: seq<Transport>)
      requires Valid()
      modifies this`conns, this`users
      ensures Valid() && old(conns) <= conns && Joined(old(conns))
    {
      hide Linked, Counted, UpTo, Recorded, Healthy;
      var d := new Conn(userID, sendBuffer, sendBuffer + size + 2 * maxSubscriptions, transport);
      var _ := Register(d);
    }

    /** Whoever is registered was before, or is new. */
    twostate predicate Joined(before: set<Conn>)
      reads this`conns
    {
      forall d :: d in conns ==> d in before || fresh(d)
    }

    /** What they do while the application is asked. */
    method Meanwhile(acts: seq<Act>, c: Conn)
      requires Valid() && c in conns
      modifies this`sequence, this`topics, this`history, this`closed, this`conns, this`users, replay, replay.buf
      modifies conns`topics, conns`queue, conns`live, conns`wake, conns`ended, conns`code, conns`transport, conns`sent
      modifies conns`from, conns`mark
      ensures Valid() && c in conns && Joined(old(conns)) && old(history) <= history
      ensures Later(old(c.Seen()), c.Seen()) && Onward(old(c.Waits()), c.Waits())
      ensures acts == [] ==> history == old(history) && c.Seen() == old(c.Seen()) && c.Waits() == old(c.Waits())
    {
      hide Linked, Counted, UpTo, Recorded, Healthy, Onward;
      OnwardSame(c.Waits(), 0);
      var i := 0;
      while i < |acts|
        invariant 0 <= i <= |acts| && Valid() && c in conns && Joined(old(conns)) && old(history) <= history
        invariant Later(old(c.Seen()), c.Seen()) && Onward(old(c.Waits()), c.Waits())
        invariant i == 0 ==> history == old(history) && c.Seen() == old(c.Seen()) && c.Waits() == old(c.Waits())
      {
        ghost var between := c.Waits();
        Do(acts[i], c);
        OnwardOn(old(c.Waits()), between, c.Waits());
        i := i + 1;
      }
    }

    /**
     wsSubscribe: the topics c does not have, asked about outside the lock and
     then attached in one step. A queue that holds only live events does not
     overflow by it.
     */
    method WsSubscribe(c: Conn, ts: seq<Topic>, after: string, granted: set<Topic>, acts: seq<Act>)
      returns (answer: Answer, ghost s: Subscribing)
      requires Valid() && c in conns
      modifies this`sequence, this`topics, this`history, this`closed, this`conns, this`users, replay, replay.buf
      modifies conns`topics, conns`queue, conns`live, conns`wake, conns`ended, conns`code, conns`transport, conns`sent
      modifies conns`from, conns`mark
      ensures Valid() && c in conns && Joined(old(conns)) && old(history) <= history
      ensures answer.BadTopic? <==> exists t :: t in ts && !ValidName(t)
      ensures answer.TooMany? <==> !answer.BadTopic? && |old(c.topics)| + |Listed(ts) - old(c.topics)| > maxSubscriptions
      ensures answer.BadTopic? || answer.TooMany? ==>
        history == old(history) && c.Seen() == old(c.Seen()) && c.Waits() == old(c.Waits())
      ensures acts == [] ==> history == old(history) && s.before == old(c.Seen()) && s.line == old(c.Waits())
      ensures answer.Overflow? ==> c.ended && c.topics == {}
      ensures old(c.ended) || (forall q :: q in old(c.queue) ==> q.live) ==> !answer.Overflow?
      ensures old(c.ended) || OwnIn(old(c.queue)) <= maxSubscriptions ==> !answer.Overflow?
      ensures answer.Subscribed? || answer.Overflow? ==>
        && Later(old(c.Seen()), s.before)
        && Listed(s.ok) == Grants(c.userID, Listed(ts) - old(c.topics), granted)
        && Listed(s.refused) == Listed(ts) - old(c.topics) - Listed(s.ok)
      ensures answer.Subscribed? ==> c.topics == s.before.topics + Listed(s.ok)
      ensures answer.Subscribed? || answer.Overflow? ==>
        && Onward(old(c.Waits()), s.line) && LiveIn(s.line.queue) <= sendBuffer && Began(s, history, size, after)
        && (answer.Overflow? <==> Overflows(s.line, Missed(s, history), c.limit, c.cap))
        && var d := QueuedAll(s.line, Missed(s, history), c.limit, c.cap);
           c.Waits() == if answer.Overflow? then EndedWith(d, CLOSE_SLOW) else d
      ensures answer.Subscribed? && !c.ended ==> Caught(c.Seen(), s, history, size, after)
    {
      hide Onward, QueuedAll, Overflows, OwnIn, Linked, Counted, UpTo, Recorded, Healthy, ValidName, Resumes, Lost, Announced, Wanted,
           EventsFrom;
      s := Subscribing(c.Seen(), c.Waits(), [], [], [], 0);
      NoneOwn(c.queue);
      if exists t :: t in ts && !ValidName(t) {
        return BadTopic, s;
      }
      var asked, room := Fresh(c, ts);
      CountListed(asked);
      if |asked| > room {
        return TooMany, s;
      }
      answer, s := AskAndAttach(c, asked, after, granted, acts);
    }

    /** The half of wsSubscribe past its checks. */
    method AskAndAttach(c: Conn, asked: seq<Topic>, after: string, granted: set<Topic>, acts: seq<Act>)
      returns (answer: Answer, ghost s: Subscribing)
      requires Valid() && c in conns && NoDuplicates(asked) && |c.topics| + |asked| <= maxSubscriptions
      modifies this`sequence, this`topics, this`history, this`closed, this`conns, this`users, replay, replay.buf
      modifies conns`topics, conns`queue, conns`live, conns`wake, conns`ended, conns`code, conns`transport, conns`sent
      modifies conns`from, conns`mark
      ensures Valid() && c in conns && Joined(old(conns)) && old(history) <= history && (answer.Overflow? || answer.Subscribed?)
      ensures acts == [] ==> history == old(history) && s.before == old(c.Seen()) && s.line == old(c.Waits())
      ensures answer.Overflow? ==> c.ended && c.topics == {}
      ensures old(c.ended) || OwnIn(old(c.queue)) <= maxSubscriptions ==> !answer.Overflow?
      ensures Later(old(c.Seen()), s.before)
      ensures Listed(s.ok) == Grants(c.userID, Listed(asked), granted) && Listed(s.refused) == Listed(asked) - Listed(s.ok)
      ensures answer.Subscribed? ==> c.topics == s.before.topics + Listed(s.ok)
      ensures answer.Subscribed? || answer.Overflow? ==>
        && Onward(old(c.Waits()), s.line) && LiveIn(s.line.queue) <= sendBuffer && Began(s, history, size, after)
        && (answer.Overflow? <==> Overflows(s.line, Missed(s, history), c.limit, c.cap))
        && var d := QueuedAll(s.line, Missed(s, history), c.limit, c.cap);
           c.Waits() == if answer.Overflow? then EndedWith(d, CLOSE_SLOW) else d
      ensures answer.Subscribed? && !c.ended ==> Caught(c.Seen(), s, history, size, after)
    {
      hide Onward, QueuedAll, Overflows, OwnIn, Linked, Counted, UpTo, Recorded, Healthy, Resumes, Lost, Announced, Wanted, EventsFrom;
      var ok, refused := Check(c, asked, granted);
      ghost var had := c.topics;
      Meanwhile(acts, c);
      Fewer(c.topics, had);
      ghost var before, line := c.Seen(), c.Waits();
      FewFit(c, old(c.Waits()));
      var overflow;
      ghost var own, from;
      overflow, own, from := Attach(c, ok, refused, after);
      s := Subscribing(before, line, ok, refused, own, from);
      answer := if overflow then Overflow else Subscribed;
    }

    /** With few of the hub's own and replayed events waiting there is room for as many more as an attach brings. */
    lemma FewFit(c: Conn, b: Line)
      requires Healthy(c) && Onward(b, c.Waits())
      ensures LiveIn(c.queue) <= sendBuffer
      ensures !c.ended && (b.ended || OwnIn(b.queue) <= maxSubscriptions) ==>
        |c.queue| <= sendBuffer + maxSubscriptions && c.cap == sendBuffer + size + 2 * maxSubscriptions
    {
    }
  }

  /** What a subscribe frame came to: the connection just before the attach, the topics, the hub's own events, the start. */
  datatype Subscribing =
    Subscribing(before: View, line: Line, ok: seq<Topic>, refused: seq<Topic>, own: seq<Frame>, from: nat)

  function Grants(userID: string, ts: set<Topic>, granted: set<Topic>): (may: set<Topic>)
    ensures forall id :: "user:" + id in may <==> "user:" + id in ts && id == userID && id != ""
    ensures forall t :: t in ts && !("user:" <= t) ==> (t in may <==> t in granted)
    ensures may <= ts
  {
    GrantedAre(userID, granted);
    set t | t in ts && Allowed(userID, t, granted)
  }

  /** The hub's own events, the place resumed from and the events from there on are what the attach calls for. */
  ghost predicate Began(s: Subscribing, history: seq<Frame>, size: nat, after: string) {
    && s.own == Announced(s.ok, s.refused, Lost(history, size, s.ok, after))
    && s.from <= |history| && Resumes(history, size, s.ok, after, s.from)
    && EventsFrom(history, s.from, s.ok, Wanted(history[s.from..], Listed(s.ok)))
  }

  /** What an attach queues: the hub's own events, and everything of the topics since the event resumed after. */
  ghost function Missed(s: Subscribing, history: seq<Frame>): seq<Frame>
    requires s.from <= |history|
  {
    s.own + Wanted(history[s.from..], Listed(s.ok))
  }

  /** The subscriptions of s begin with that. */
  ghost predicate Caught(v: View, s: Subscribing, history: seq<Frame>, size: nat, after: string) {
    && Began(s, history, size, after) && v.sent == s.before.sent + Missed(s, history)
    && forall t :: t in s.ok ==> t in v.from && v.from[t] == s.from && t in v.mark && v.mark[t] == |s.before.sent|
  }

  lemma NothingQueued(b: Line, limit: nat, cap: nat)
    ensures QueuedAll(b, [], limit, cap) == b && !Overflows(b, [], limit, cap)
  {
  }

  lemma NoneOwn(queue: seq<Queued>)
    ensures (forall q :: q in queue ==> q.live) ==> OwnIn(queue) == 0
  {
    if forall q :: q in queue ==> q.live {
      AllLive(queue);
    }
  }

  lemma {:induction false} CountListed(ts: seq<Topic>)
    requires NoDuplicates(ts)
    ensures |Listed(ts)| == |ts|
    decreases |ts|
  {
    if ts != [] {
      var n := |ts| - 1;
      CountListed(ts[..n]);
      assert Listed(ts) == Listed(ts[..n]) + {ts[n]};
    }
  }

  /** What the application and the other replicas tell all connections. */
  datatype News = Publishes(topic: Topic, typ: string, data: string) | Receives(ev: Frame) | Disconnects(userID: string) | Closes

  /** What other goroutines may do to the hub while it is not locked. */
  datatype Act =
    | Spreads(news: News)
    | Joins(userID: string, transport: seq<Transport>) | Leaves(d: Conn) | Unsubscribes(d: Conn, ts: seq<Topic>)
    | Attaches(d: Conn, ok: seq<Topic>, refused: seq<Topic>, after: string)

  datatype Answer = Subscribed | BadTopic | TooMany | Overflow

  /** Nobody but its own reader gives a connection subscriptions, and an ended one stays as it is. */
  ghost predicate Later(v: View, w: View) {
    && w.topics <= v.topics && v.sent <= w.sent && w.from == v.from && w.mark == v.mark
    && (v.ended ==> w.ended && w.sent == v.sent)
  }

  lemma LaterClosed(v: View, ts: set<Topic>)
    requires ts <= v.topics
    ensures Later(v, v) && Later(v, v.(ended := true, topics := ts))
  {
  }

  /** Where the first dash of s is, |s| without one. */
  function Dash(s: string): nat {
    if s == "" || s[0] == '-' then 0 else 1 + Dash(s[1..])
  }

  /** An event receive takes: <origin>-<seq> of another hub, every name valid. */
  predicate Foreign(ev: Frame, origin: string) {
    var dash := Dash(ev.id);
    && 0 < dash && dash + 1 < |ev.id| && ev.id[..dash] != origin
    && ValidName(ev.id) && ValidName(ev.topic) && ValidName(ev.typ) && !Reserved(ev.typ)
  }

  /** Up to its first dash, its ID names another hub, and something follows; the names and the type are those of Publish. */
  lemma ForeignIff(ev: Frame, origin: string)
    ensures Foreign(ev, origin) <==>
      && (exists k :: 0 < k < |ev.id| - 1 && ev.id[k] == '-' && '-' !in ev.id[..k] && ev.id[..k] != origin)
      && ValidName(ev.id) && ValidName(ev.topic) && ValidName(ev.typ) && ev.typ !in {"refused", "reset", "error"}
  {
    FirstDash(ev.id);
    var dash := Dash(ev.id);
    forall k | 0 < k < |ev.id| && ev.id[k] == '-' && '-' !in ev.id[..k] ensures k == dash {
      assert ev.id == ev.id[..k] + ev.id[k..];
      DashBehind(ev.id[..k], ev.id[k..]);
    }
  }

  lemma {:induction false} FirstDash(s: string)
    ensures Dash(s) <= |s| && '-' !in s[..Dash(s)] && (Dash(s) < |s| ==> s[Dash(s)] == '-')
  {
    if s != "" && s[0] != '-' {
      FirstDash(s[1..]);
      assert s[..Dash(s)] == [s[0]] + s[1..][..Dash(s[1..])];
    }
  }

  lemma NotSubscribed(ended: bool, sent: seq<Frame>, f: Frame)
    ensures Delivered(ended, sent, ended, sent, f, false)
  {
  }

  /** A subscriber gets the event last, or has ended without it; nobody else gets anything. */
  ghost predicate Delivered(ended: bool, sent: seq<Frame>, wasEnded: bool, before: seq<Frame>, f: Frame, subscribed: bool) {
    && (wasEnded ==> ended)
    && sent == if subscribed && !ended then before + [f] else before
  }

  lemma SubscribersAre(conns: set<Conn>, topics: map<Topic, set<Conn>>, subs: map<Conn, set<Topic>>, t: Topic)
    requires Linked(conns, topics, subs)
    ensures var todo := if t in topics then topics[t] else {};
            todo <= conns && forall c :: c in conns ==> (c in todo <==> t in subs[c])
  {
  }

  lemma OwedOneMore(v: View, h: seq<Frame>, f: Frame)
    requires Owed(v, h) && f.topic in v.topics && !Reserved(f.typ)
    ensures Owed(v.(sent := v.sent + [f]), h + [f])
  {
    hide Served, Wanted;
    forall t | t in v.topics && !v.ended ensures Served(v.sent + [f], v.mark[t], h + [f], v.from[t], t) {
      ServedMore(v.sent, v.mark[t], h, v.from[t], t, [f], [f]);
    }
  }

  lemma OwedNoMore(v: View, h: seq<Frame>, f: Frame)
    requires Owed(v, h) && f.topic !in v.topics
    ensures Owed(v, h + [f])
  {
    hide Served, Wanted;
    forall t | t in v.topics && !v.ended ensures Served(v.sent, v.mark[t], h + [f], v.from[t], t) {
      NoneWanted([f], {t});
      NoneWanted([], {t});
      ServedMore(v.sent, v.mark[t], h, v.from[t], t, [], [f]);
      assert v.sent + [] == v.sent;
    }
  }

  /** The event a client resumes after is not among the last size events. */
  ghost predicate Lost(history: seq<Frame>, size: nat, ok: seq<Topic>, after: string) {
    ok != [] && after != "" && !exists p: nat :: |history| - size <= p < |history| && history[p].id == after
  }

  /** Where a subscription begins: behind the event resumed after, the latest of its ID, or now. */
  ghost predicate Resumes(history: seq<Frame>, size: nat, ok: seq<Topic>, after: string, from: nat) {
    if ok == [] || after == "" || Lost(history, size, ok, after) then from == |history|
    else 0 < from <= |history| && |history| - size <= from - 1 && IsLatest(history, after, from - 1)
  }

  function Announced(ok: seq<Topic>, refused: seq<Topic>, lost: bool): (fs: seq<Frame>)
    ensures forall k :: 0 <= k < |fs| ==> Reserved(fs[k].typ)
    ensures |fs| == |refused| + if lost then |ok| else 0
    ensures forall k :: 0 <= k < |refused| ==> fs[k] == Frame("", refused[k], "refused", "")
    ensures lost ==> forall k :: 0 <= k < |ok| ==> fs[|refused| + k] == Frame("", ok[k], "reset", "")
  {
    OwnEvents(refused, REFUSED) + if lost then OwnEvents(ok, RESET) else []
  }

  /** One of the hub's own events for each topic. */
  function OwnEvents(ts: seq<Topic>, typ: string): (fs: seq<Frame>)
    requires Reserved(typ)
    ensures |fs| == |ts| && forall k :: 0 <= k < |fs| ==> fs[k] == Frame("", ts[k], typ, "")
  {
    seq(|ts|, k requires 0 <= k < |ts| => Frame("", ts[k], typ, ""))
  }

  /** m with value x for every key of ks. */
  ghost function With(m: map<Topic, nat>, ks: set<Topic>, x: nat): map<Topic, nat> {
    map t | t in m.Keys + ks :: if t in ks then x else m[t]
  }

  /**
   Subscribing to ts: own events, then the topics' history from `from` on. The
   old subscriptions get nothing of it, the new ones all of it.
   */
  lemma AttachServes(v: View, history: seq<Frame>, ts: set<Topic>, own: seq<Frame>, resumed: seq<Frame>, from: nat)
    requires Owed(v, history) && from <= |history| && (forall k :: 0 <= k < |own| ==> Reserved(own[k].typ))
    requires resumed == Wanted(history[from..], ts)
    ensures Owed(View(v.ended, v.topics + ts, v.sent + (own + resumed), With(v.from, ts, from), With(v.mark, ts, |v.sent|)), history)
  {
    hide Wanted;
    var more := own + resumed;
    forall t | t in v.topics + ts && !v.ended
      ensures Served(v.sent + more, With(v.mark, ts, |v.sent|)[t], history, With(v.from, ts, from)[t], t)
    {
      NoneWanted(own, {t});
      WantedConcat(own, resumed, {t});
      WantedWithin(history[from..], ts, t);
      if t in ts {
        assert (v.sent + more)[|v.sent|..] == more;
      } else {
        NoneWanted([], {t});
        assert history + [] == history;
        ServedMore(v.sent, v.mark[t], history, v.from[t], t, more, []);
      }
    }
  }

  /** A user's topic is granted to that user and nobody else, any other when the application grants it. */
  lemma GrantedAre(userID: string, granted: set<Topic>)
    ensures forall id :: Allowed(userID, "user:" + id, granted) <==> id == userID && id != ""
    ensures forall t: Topic :: !("user:" <= t) ==> (Allowed(userID, t, granted) <==> t in granted)
  {
    forall id ensures Allowed(userID, "user:" + id, granted) <==> id == userID && id != "" {
      var t := "user:" + id;
      assert t[..5] == "user:" && t[5..] == id;
    }
    forall t: Topic | !("user:" <= t) ensures !IsUserTopic(t) {
      assert |t| >= 5 && t[..5] == "user:" ==> "user:" <= t;
    }
  }

  /** The application's Authorize grants the topics of granted; it never sees a user's topic. */
  predicate Allowed(userID: string, t: Topic, granted: set<Topic>) {
    if IsUserTopic(t) then MayHave(userID, t) else t in granted
  }

  ghost predicate NoDuplicates(ts: seq<Topic>) {
    forall i, j :: 0 <= i < j < |ts| ==> ts[i] != ts[j]
  }
}
