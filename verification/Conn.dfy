/** The hub's side of a connection: the queue of realtime/conn.go and the loop of realtime/ws.go that drains it. */
module Conns {
  import opened Frames

  datatype Queued = Queued(f: Frame, live: bool)

  /** What push did with an event. */
  datatype Pushed = Taken | Full | Gone

  /** What the connection's transport did since the hub last touched it. */
  datatype Transport = Transport(pops: nat, ends: bool)

  const CLOSE_DEAD := -1
  const CLOSE_NORMAL := 1000
  const CLOSE_GOING_AWAY := 1001
  const CLOSE_POLICY := 1008
  const CLOSE_SLOW := 4408

  function LiveIn(queue: seq<Queued>): (n: nat)
    ensures n <= |queue|
  {
    if queue == [] then 0 else (if queue[0].live then 1 else 0) + LiveIn(queue[1..])
  }

  lemma {:induction false} LiveConcat(a: seq<Queued>, b: seq<Queued>)
    ensures LiveIn(a + b) == LiveIn(a) + LiveIn(b)
    decreases |a|
  {
    if a == [] {
      assert a + b == b;
    } else {
      assert (a + b)[1..] == a[1..] + b;
      LiveConcat(a[1..], b);
    }
  }

  lemma {:induction false} AllLive(queue: seq<Queued>)
    requires forall q :: q in queue ==> q.live
    ensures LiveIn(queue) == |queue|
    decreases |queue|
  {
    if queue != [] {
      AllLive(queue[1..]);
    }
  }

  /** What the hub's promises are about: the subscriptions of a connection and what it was sent for them. */
  datatype View = View(ended: bool, topics: set<Topic>, sent: seq<Frame>, from: map<Topic, nat>, mark: map<Topic, nat>)

  /** What its transport sees of a connection, and what the transport does before the hub next touches it. */
  datatype Line = Line(ended: bool, code: int, queue: seq<Queued>, wake: bool, transport: seq<Transport>)

  predicate EndsFirst(b: Line) {
    b.transport != [] && b.transport[0].ends
  }

  /** What still waits when the hub touches the connection. */
  function Rest(b: Line): seq<Queued> {
    if b.transport == [] then b.queue
    else if b.transport[0].pops <= |b.queue| then b.queue[b.transport[0].pops..]
    else []
  }

  /** There is no room for one more live event. */
  predicate Overfull(b: Line, limit: nat, cap: nat) {
    LiveIn(Rest(b)) >= limit || |Rest(b)| >= cap
  }

  /** The first end wins. */
  function EndedWith(b: Line, code: int): Line {
    if b.ended then b else b.(ended := true, code := code, queue := [])
  }

  /** Once the transport has had its turn. */
  function Touched(b: Line): Line {
    var d := b.(queue := Rest(b), transport := if b.transport == [] then [] else b.transport[1..]);
    if EndsFirst(b) then EndedWith(d, CLOSE_NORMAL) else d
  }

  /** How the push of one event after that fares. */
  function Reception(b: Line, live: bool, limit: nat, cap: nat): Pushed {
    if b.ended || EndsFirst(b) then Gone
    else if (live && LiveIn(Rest(b)) >= limit) || |Rest(b)| >= cap then Full
    else Taken
  }

  function Offered(b: Line, f: Frame, live: bool, limit: nat, cap: nat): Line {
    var d := Touched(b);
    if Reception(b, live, limit, cap).Taken? then d.(queue := d.queue + [Queued(f, live)], wake := true) else d
  }

  /** A live event: a connection that has no room for it ends. */
  function AfterEvent(b: Line, f: Frame, limit: nat, cap: nat): Line {
    var d := Offered(b, f, true, limit, cap);
    if Reception(b, true, limit, cap).Full? then EndedWith(d, CLOSE_SLOW) else d
  }

  /** Events of the hub's own and replayed ones, one after the other, whatever became of those before. */
  function QueuedAll(b: Line, fs: seq<Frame>, limit: nat, cap: nat): Line {
    if fs == [] then b else Offered(QueuedAll(b, fs[..|fs| - 1], limit, cap), fs[|fs| - 1], false, limit, cap)
  }

  /** One of them is refused. */
  predicate Overflows(b: Line, fs: seq<Frame>, limit: nat, cap: nat) {
    fs != [] &&
    var front := fs[..|fs| - 1];
    Overflows(b, front, limit, cap) || Reception(QueuedAll(b, front, limit, cap), false, limit, cap).Full?
  }

  lemma {:induction false} QueuedConcat(b: Line, fs: seq<Frame>, gs: seq<Frame>, limit: nat, cap: nat)
    ensures QueuedAll(b, fs + gs, limit, cap) == QueuedAll(QueuedAll(b, fs, limit, cap), gs, limit, cap)
    ensures Overflows(b, fs + gs, limit, cap) <==>
      Overflows(b, fs, limit, cap) || Overflows(QueuedAll(b, fs, limit, cap), gs, limit, cap)
    decreases |gs|
  {
    hide Offered, Reception;
    if gs == [] {
      assert fs + gs == fs;
    } else {
      var n := |gs| - 1;
      assert (fs + gs)[..|fs + gs| - 1] == fs + gs[..n] && (fs + gs)[|fs + gs| - 1] == gs[n];
      QueuedConcat(b, fs, gs[..n], limit, cap);
    }
  }

  lemma QueuedNext(b: Line, fs: seq<Frame>, i: nat, limit: nat, cap: nat)
    requires i < |fs|
    ensures var d := QueuedAll(b, fs[..i], limit, cap);
            && QueuedAll(b, fs[..i + 1], limit, cap) == Offered(d, fs[i], false, limit, cap)
            && (Overflows(b, fs[..i + 1], limit, cap) <==> Overflows(b, fs[..i], limit, cap) || Reception(d, false, limit, cap).Full?)
  {
    assert fs[..i + 1][..i] == fs[..i];
  }

  /** What fits is not refused. */
  lemma {:induction false} AllFit(b: Line, fs: seq<Frame>, limit: nat, cap: nat)
    ensures |QueuedAll(b, fs, limit, cap).queue| <= |b.queue| + |fs|
    ensures b.ended || |b.queue| + |fs| <= cap ==> !Overflows(b, fs, limit, cap)
    ensures b.ended ==> QueuedAll(b, fs, limit, cap).ended
    decreases |fs|
  {
    if fs != [] {
      AllFit(b, fs[..|fs| - 1], limit, cap);
    }
  }

  function Pops(transport: seq<Transport>): nat {
    if transport == [] then 0 else transport[0].pops + Pops(transport[1..])
  }

  /** The turns a transport has in the course of n pushes, and what is left of it. */
  function Turns(transport: seq<Transport>, n: nat): seq<Transport> {
    if n <= |transport| then transport[..n] else transport
  }

  function NoTurns(transport: seq<Transport>, n: nat): seq<Transport> {
    if n <= |transport| then transport[n..] else []
  }

  function OwnQueued(fs: seq<Frame>): (q: seq<Queued>)
    ensures |q| == |fs|
  {
    seq(|fs|, k requires 0 <= k < |fs| => Queued(fs[k], false))
  }

  lemma {:induction false} PopsConcat(a: seq<Transport>, t: Transport)
    ensures Pops(a + [t]) == Pops(a) + t.pops
    decreases |a|
  {
    if a == [] {
      assert a + [t] == [t];
    } else {
      assert (a + [t])[1..] == a[1..] + [t];
      PopsConcat(a[1..], t);
    }
  }

  lemma TurnsNext(t: seq<Transport>, n: nat)
    ensures Turns(t, n + 1) == if n < |t| then Turns(t, n) + [t[n]] else Turns(t, n)
    ensures var left := NoTurns(t, n); NoTurns(t, n + 1) == if left == [] then [] else left[1..]
    ensures n < |t| ==> NoTurns(t, n) != [] && NoTurns(t, n)[0] == t[n]
    ensures n >= |t| ==> NoTurns(t, n) == []
  {
  }

  /** A connection ends while events are pushed exactly when a turn of its transport ends it. */
  lemma {:induction false} OnlyTurnsEnd(b: Line, fs: seq<Frame>, limit: nat, cap: nat)
    ensures var d, turns := QueuedAll(b, fs, limit, cap), Turns(b.transport, |fs|);
            && d.transport == NoTurns(b.transport, |fs|)
            && (d.ended <==> b.ended || exists t :: t in turns && t.ends)
            && d.code == if d.ended && !b.ended then CLOSE_NORMAL else b.code
    decreases |fs|
  {
    hide Turns, NoTurns, Rest;
    if fs == [] {
      NoTurnYet(b.transport);
    } else {
      OnlyTurnsEnd(b, fs[..|fs| - 1], limit, cap);
      TurnsNext(b.transport, |fs| - 1);
    }
  }

  lemma NoTurnYet(t: seq<Transport>)
    ensures Turns(t, 0) == [] && NoTurns(t, 0) == t
  {
  }

  /**
   Pushing the hub's own and replayed events: when none is refused and the
   connection has not ended, all of them wait behind what waited before, less
   what the transport took from the front.
   */
  lemma {:induction false} OnlyPopsShorten(b: Line, fs: seq<Frame>, limit: nat, cap: nat) returns (p: nat)
    requires !Overflows(b, fs, limit, cap) && !QueuedAll(b, fs, limit, cap).ended
    ensures p <= Pops(Turns(b.transport, |fs|)) && p <= |b.queue| + |fs|
    ensures QueuedAll(b, fs, limit, cap).queue == (b.queue + OwnQueued(fs))[p..]
    decreases |fs|
  {
    hide Turns, NoTurns, Pops, Rest, OwnQueued, Offered, Reception, EndsFirst;
    if fs == [] {
      NoneWaits(b.queue, fs);
      p := 0;
    } else {
      var n := |fs| - 1;
      var c := QueuedAll(b, fs[..n], limit, cap);
      IsTaken(c, fs[n], limit, cap);
      p := OnlyPopsShorten(b, fs[..n], limit, cap);
      MorePops(b, fs, limit, cap);
      OneMoreWaits(b.queue, fs, p, c.queue, Rest(c));
      RestIsShorter(c);
      p := p + |c.queue| - |Rest(c)|;
    }
  }

  lemma NoneWaits(queue: seq<Queued>, fs: seq<Frame>)
    requires fs == []
    ensures queue == (queue + OwnQueued(fs))[0..]
  {
  }

  lemma IsTaken(c: Line, f: Frame, limit: nat, cap: nat)
    requires !Offered(c, f, false, limit, cap).ended && !Reception(c, false, limit, cap).Full?
    ensures !c.ended && Offered(c, f, false, limit, cap).queue == Rest(c) + [Queued(f, false)]
  {
  }

  lemma MorePops(b: Line, fs: seq<Frame>, limit: nat, cap: nat)
    requires fs != []
    ensures var n := |fs| - 1; var c := QueuedAll(b, fs[..n], limit, cap);
            Pops(Turns(b.transport, n + 1)) == Pops(Turns(b.transport, n)) + if c.transport == [] then 0 else c.transport[0].pops
  {
    hide Turns, NoTurns, Pops, QueuedAll;
    var n := |fs| - 1;
    OnlyTurnsEnd(b, fs[..n], limit, cap);
    TurnsNext(b.transport, n);
    if n < |b.transport| {
      PopsConcat(Turns(b.transport, n), b.transport[n]);
    }
  }

  lemma RestIsShorter(c: Line)
    ensures |c.queue| - (if c.transport == [] then 0 else c.transport[0].pops) <= |Rest(c)| <= |c.queue|
    ensures Rest(c) == c.queue[|c.queue| - |Rest(c)|..]
  {
  }

  lemma OneMoreWaits(queue: seq<Queued>, fs: seq<Frame>, p: nat, before: seq<Queued>, rest: seq<Queued>)
    requires fs != [] && p <= |queue| + |fs| - 1 && before == (queue + OwnQueued(fs[..|fs| - 1]))[p..]
    ensures |rest| <= |before| && rest == before[|before| - |rest|..] ==>
      rest + [Queued(fs[|fs| - 1], false)] == (queue + OwnQueued(fs))[p + |before| - |rest|..]
  {
    assert OwnQueued(fs) == OwnQueued(fs[..|fs| - 1]) + [Queued(fs[|fs| - 1], false)];
  }

  /** The hub's own and the replayed events among those that wait. */
  function OwnIn(queue: seq<Queued>): nat {
    |queue| - LiveIn(queue)
  }

  /** In time, unless it subscribes, a connection gets no more of them, and its transport takes its turns. */
  ghost predicate Onward(b: Line, w: Line) {
    Continues(b.transport, w.transport) && OwnIn(w.queue) <= OwnIn(b.queue) && (b.ended ==> w.ended)
  }

  lemma OnwardOn(a: Line, b: Line, c: Line)
    requires Onward(a, b) && Onward(b, c)
    ensures Onward(a, c)
  {
  }

  lemma OnwardSame(b: Line, code: int)
    ensures Onward(b, b) && Onward(b, EndedWith(b, code))
  {
  }

  lemma OnwardEvent(b: Line, f: Frame, limit: nat, cap: nat)
    ensures Onward(b, AfterEvent(b, f, limit, cap))
  {
    hide LiveIn, Continues;
    FewerOwn(b, f);
    TurnTaken(b.transport);
  }

  lemma TurnTaken(t: seq<Transport>)
    ensures Continues(t, t) && (t != [] ==> Continues(t, t[1..])) && Continues([], [])
  {
  }

  lemma FewerOwn(b: Line, f: Frame)
    ensures OwnIn(Rest(b)) <= OwnIn(b.queue) && OwnIn(Rest(b) + [Queued(f, true)]) == OwnIn(Rest(b)) && OwnIn([]) == 0
  {
    var q := Rest(b);
    var front := b.queue[..|b.queue| - |q|];
    assert b.queue == front + q;
    LiveConcat(front, q);
    LiveConcat(q, [Queued(f, true)]);
    assert LiveIn([Queued(f, true)]) == 1;
  }

  /** after is what is left of before. */
  ghost predicate Continues(before: seq<Transport>, after: seq<Transport>) {
    |after| <= |before| && after == before[|before| - |after|..]
  }

  class Conn {
    const userID: string
    const limit: nat  // live events that may wait
    const cap: nat    // every event that may wait
    var topics: set<Topic>
    var queue: seq<Queued>
    var live: nat     // live events in queue
    var wake: bool    // the wake channel holds its token
    var ended: bool
    var code: int
    var transport: seq<Transport>
    ghost var sent: seq<Frame>       // every event ever queued, in order
    ghost var from: map<Topic, nat>  // where in the hub's history each subscription begins
    ghost var mark: map<Topic, nat>  // where in sent it begins

    constructor (userID: string, limit: nat, cap: nat, transport: seq<Transport>)
      ensures Valid() && this.userID == userID && this.limit == limit && this.cap == cap
      ensures topics == {} && queue == [] && sent == [] && !ended
    {
      this.userID, this.limit, this.cap, this.transport := userID, limit, cap, transport;
      topics, queue, live, wake, ended, code := {}, [], 0, false, false, 0;
      sent, from, mark := [], map[], map[];
    }

    /**
     A connection not ended: live counts the live events, both bounds hold, and
     what waits is the end of what was queued. Nothing waits for an ended one.
     */
    ghost predicate Valid()
      reads this`queue, this`live, this`ended, this`sent
    {
      if ended then queue == [] else
        && live == LiveIn(queue) <= limit && |queue| <= cap && |queue| <= |sent|
        && forall k :: 0 <= k < |queue| ==> queue[k].f == sent[|sent| - |queue| + k]
    }

    ghost function Seen(): View
      reads this`ended, this`topics, this`sent, this`from, this`mark
    {
      View(ended, topics, sent, from, mark)
    }

    ghost function Waits(): Line
      reads this`queue, this`transport, this`ended, this`code, this`wake
    {
      Line(ended, code, queue, wake, transport)
    }

    method Push(f: Frame, isLive: bool) returns (r: Pushed)
      requires Valid()
      modifies this`queue, this`live, this`wake, this`sent
      ensures Valid()
      ensures r.Gone? <==> ended
      ensures r.Full? <==> !ended && ((isLive && old(live) >= limit) || |old(queue)| >= cap)
      ensures r.Taken? ==> queue == old(queue) + [Queued(f, isLive)] && sent == old(sent) + [f] && wake
      ensures !r.Taken? ==> queue == old(queue) && live == old(live) && sent == old(sent) && wake == old(wake)
    {
      if ended {
        return Gone;
      }
      if (isLive && live >= limit) || |queue| >= cap {
        return Full;
      }
      LiveConcat(queue, [Queued(f, isLive)]);
      queue := queue + [Queued(f, isLive)];
      sent := sent + [f];
      if isLive {
        live := live + 1;
      }
      wake := true;
      r := Taken;
    }

    method Pop() returns (f: Frame, ok: bool)
      requires Valid()
      modifies this`queue, this`live
      ensures Valid()
      ensures ok <==> !ended && old(queue) != []
      ensures ok ==> queue == old(queue)[1..] && live <= old(live) && |old(queue)| <= |sent| && f == sent[|sent| - |old(queue)|]
      ensures !ok ==> queue == old(queue) && live == old(live)
    {
      if ended || queue == [] {
        return Frame("", "", "", ""), false;
      }
      var q := queue[0];
      queue := queue[1..];
      if q.live {
        live := live - 1;
      }
      return q.f, true;
    }

    /** The first call wins. */
    method End(code: int) returns (won: bool)
      modifies this`queue, this`ended, this`code
      ensures ended && won == !old(ended)
      ensures this.code == if won then code else old(this.code)
      ensures queue == if won then [] else old(queue)
    {
      if ended {
        return false;
      }
      ended, this.code, queue := true, code, [];
      return true;
    }

    /** The transport's goroutines pop events and may end the connection at any moment the hub does not hold its lock. */
    method Drain()
      requires Valid()
      modifies this`queue, this`live, this`ended, this`code, this`transport
      ensures Valid() && Waits() == Touched(old(Waits()))
    {
      if transport != [] {
        var turn := transport[0];
        transport := transport[1..];
        PopMany(turn.pops);
        if turn.ends {
          var _ := End(CLOSE_NORMAL);
        }
      }
    }

    method PopMany(n: nat)
      requires Valid()
      modifies this`queue, this`live
      ensures Valid() && queue == if n <= |old(queue)| then old(queue)[n..] else []
    {
      var i := 0;
      while i < n
        invariant Valid() && i <= n && queue == if i <= |old(queue)| then old(queue)[i..] else []
      {
        var _, _ := Pop();
        i := i + 1;
      }
    }
  }

  // ---------- The writer ----------

  /** What the other goroutines do between two steps of the writer. */
  datatype Act = PushOne(f: Frame, live: bool) | EndIt(code: int)

  /** ... and which ready case its select then takes. */
  datatype Turn = Turn(acts: seq<Act>, takeWake: bool)

  /** One of the turns from..to ends the connection. */
  ghost predicate EndedIn(turns: seq<Turn>, from: nat, to: nat) {
    exists k, i :: from <= k < to && k < |turns| && 0 <= i < |turns[k].acts| && turns[k].acts[i].EndIt?
  }

  lemma EndedLater(turns: seq<Turn>, from: nat, mid: nat, to: nat)
    requires from <= mid <= to
    ensures EndedIn(turns, from, to) <==> EndedIn(turns, from, mid) || EndedIn(turns, mid, to)
  {
  }

  class Writer {
    const c: Conn
    const turns: seq<Turn>
    const writes: seq<bool>        // whether the n-th write succeeds; those not listed do
    var at: nat                    // turns the other goroutines have had
    var written: seq<Frame>        // the events handed to the transport, in order

    constructor (c: Conn, turns: seq<Turn>, writes: seq<bool>)
      requires c.Valid() && c.sent == [] && !c.ended
      ensures Valid() && this.c == c && this.turns == turns && this.writes == writes && at == 0 && Awake()
    {
      this.c, this.turns, this.writes, at, written := c, turns, writes, 0, [];
    }

    predicate WriteOk(n: nat) {
      n < |writes| ==> writes[n]
    }

    /** A write failed: the last one. */
    ghost predicate WriteFailed()
      reads this`written
    {
      written != [] && !WriteOk(|written| - 1)
    }

    /**
     First in, first out: what was written is the front of what was queued, and
     what waits is the rest. Nothing is written after a write that failed.
     */
    ghost predicate Valid()
      reads this, c
    {
      && c.Valid() && written <= c.sent
      && (!c.ended ==> |written| + |c.queue| == |c.sent|)
      && (forall n :: 0 <= n < |written| - 1 ==> WriteOk(n)) && (WriteFailed() ==> c.ended)
    }

    /** No lost wakeup: while something waits, so does the token. */
    ghost predicate Awake()
      reads c
    {
      !c.ended && c.queue != [] ==> c.wake
    }

    /** The connection was ended since, by others or by a failed write. */
    ghost predicate EndedSince(ended: bool, from: nat)
      reads this`at, this`written
    {
      ended || EndedIn(turns, from, at) || WriteFailed()
    }

    /** The other goroutines' turn. */
    method Others(ghost from: nat) returns (takeWake: bool)
      requires c.Valid() && from <= at
      modifies this`at, c`queue, c`live, c`wake, c`ended, c`code, c`sent
      ensures c.Valid() && at == old(at) + 1 && old(c.sent) <= c.sent
      ensures old(c.ended) ==> c.ended
      ensures c.ended ==> old(c.ended) || EndedIn(turns, from, at)
      ensures EndedIn(turns, from, old(at)) ==> EndedIn(turns, from, at)
      ensures !c.ended ==> |c.sent| - |c.queue| == |old(c.sent)| - |old(c.queue)|
      ensures old(Awake()) ==> Awake()
      ensures old(at) >= |turns| ==> c.ended == old(c.ended) && c.queue == old(c.queue) && c.wake == old(c.wake)
    {
      takeWake := false;
      EndedLater(turns, from, at, at + 1);
      if at < |turns| {
        var turn := turns[at];
        takeWake := turn.takeWake;
        var i := 0;
        while i < |turn.acts|
          invariant 0 <= i <= |turn.acts| && at == old(at)
          invariant c.Valid() && old(c.sent) <= c.sent
          invariant c.ended <==> old(c.ended) || exists j :: 0 <= j < i && turn.acts[j].EndIt?
          invariant !c.ended ==> |c.sent| - |c.queue| == |old(c.sent)| - |old(c.queue)|
          invariant old(Awake()) ==> Awake()
        {
          match turn.acts[i] {
            case PushOne(f, isLive) => var _ := c.Push(f, isLive);
            case EndIt(code) => var _ := c.End(code);
          }
          i := i + 1;
        }
      }
      at := at + 1;
    }

    /** The inner loop of wsWrite: writes until nothing is queued, or the connection has ended. */
    method WriteQueued() returns (failed: bool)
      requires Valid()
      modifies this`at, this`written, c`queue, c`live, c`wake, c`ended, c`code, c`sent
      ensures Valid() && Awake() && old(at) < at && old(written) <= written
      ensures if failed then WriteFailed() else c.ended || c.queue == []
      ensures c.ended ==> EndedSince(old(c.ended), old(at))
      ensures old(at) >= |turns| ==> c.wake == old(c.wake)
    {
      hide EndedIn, Conn.Valid, EndedSince, Awake;
      var more := true;
      failed := false;
      Since(c.ended, at);
      while more
        invariant Valid() && old(at) <= at && (more || old(at) < at) && old(written) <= written && (failed ==> !more)
        invariant c.ended ==> EndedSince(old(c.ended), old(at))
        invariant old(at) >= |turns| ==> c.wake == old(c.wake)
        invariant !more ==> Awake() && if failed then WriteFailed() else c.ended || c.queue == []
        decreases more, if at < |turns| then |turns| - at else 0, |c.queue|
      {
        more, failed := WriteOne(old(c.ended), old(at));
      }
    }

    lemma Since(ended: bool, from: nat)
      ensures ended ==> EndedSince(ended, from)
    {
    }

    /** Pops one event and writes it; no more when there was none or the write failed. */
    method WriteOne(ghost ended: bool, ghost from: nat) returns (more: bool, failed: bool)
      requires Valid() && from <= at && (c.ended ==> EndedSince(ended, from))
      modifies this`at, this`written, c`queue, c`live, c`wake, c`ended, c`code, c`sent
      ensures Valid() && old(at) < at && old(written) <= written && (failed ==> !more)
      ensures c.ended ==> EndedSince(ended, from)
      ensures old(at) >= |turns| ==> c.wake == old(c.wake) && (more ==> |c.queue| < |old(c.queue)|)
      ensures !more ==> Awake() && if failed then WriteFailed() else c.ended || c.queue == []
    {
      hide EndedIn, LiveIn;
      var _ := Others(from);
      var f, ok := c.Pop();
      if !ok {
        return false, false;
      }
      var n := |written|;
      written := written + [f];
      var _ := Others(from);
      if !WriteOk(n) {
        var _ := c.End(CLOSE_DEAD);
        return false, true;
      }
      return true, false;
    }

    /**
     wsWrite: waits for a token or the end, then writes what is queued. It
     returns closed, or blocked once the other goroutines do no more.
     */
    method WsWrite() returns (closed: bool)
      requires Valid() && Awake()
      modifies this`at, this`written, c`queue, c`live, c`wake, c`ended, c`code, c`sent
      ensures Valid() && old(written) <= written
      ensures closed ==> c.ended && EndedSince(old(c.ended), old(at))
      ensures !closed ==> !c.ended && |turns| <= at && c.queue == [] && written == c.sent
    {
      hide EndedIn, Conn.Valid, LiveIn;
      ghost var from := at;
      while true
        invariant Valid() && Awake() && old(written) <= written && old(at) <= at
        invariant c.ended ==> EndedSince(old(c.ended), old(at))
        decreases if at < |turns| then |turns| - at else 0, if c.wake then 1 else 0
      {
        var takeWake := Others(from);
        if c.ended && !(c.wake && takeWake) {
          return true;
        }
        if c.wake {
          c.wake := false;
          ghost var mid := at;
          var failed := WriteQueued();
          EndedLater(turns, from, mid, at);
          if failed {
            return true;
          }
        } else if at >= |turns| {
          return false;
        }
      }
    }
  }
}
