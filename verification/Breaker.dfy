/** The circuit breaker around Redis: cache/breaker.go. */
module Breakers {

  datatype State = Closed | Open | HalfOpen

  /** The breaker's fields. */
  datatype View = View(state: State, failures: nat, streak: nat, openedAt: int, probing: bool, probeAt: int)

  datatype Verdict = Refused | Call | Probe

  datatype Limits = Limits(threshold: nat, reset: nat, successes: nat)

  function Reopened(v: View, now: int): View {
    v.(state := Open, openedAt := now, streak := 0, probing := false)
  }

  function Allowed(v: View, l: Limits, now: int): (View, Verdict) {
    if v.state.Closed? then (v, Call)
    else if v.state.Open? && now - v.openedAt < l.reset then (v, Refused)
    else
      var h := if v.state.Open? then v.(state := HalfOpen, streak := 0, probing := false) else v;
      if !h.probing then (h.(probing := true, probeAt := now), Probe)
      else if now - h.probeAt < l.reset then (h, Refused)
      else (Reopened(h, now), Refused)
  }

  /** gone: the caller's own context ended. */
  function Recorded(v: View, l: Limits, now: int, failed: bool, probe: bool, gone: bool): View {
    var p := if probe then v.(probing := false) else v;
    if failed && !probe && gone then p
    else if p.state.Closed? then
      if !failed then p.(failures := 0)
      else if p.failures + 1 >= l.threshold then p.(failures := p.failures + 1, state := Open, openedAt := now)
      else p.(failures := p.failures + 1)
    else if p.state.HalfOpen? && probe then
      if failed then Reopened(p, now)
      else if p.streak + 1 >= l.successes then p.(state := Closed, failures := 0, streak := 0)
      else p.(streak := p.streak + 1)
    else p
  }

  class Breaker {
    const limits: Limits
    var state: State
    var failures: nat
    var streak: nat
    var openedAt: int
    var probing: bool
    var probeAt: int

    constructor (limits: Limits)
      ensures this.limits == limits && Current() == View(Closed, 0, 0, 0, false, 0)
    {
      this.limits := limits;
      state, failures, streak, openedAt, probing, probeAt := Closed, 0, 0, 0, false, 0;
    }

    function Current(): View
      reads this
    {
      View(state, failures, streak, openedAt, probing, probeAt)
    }

    method Allow(now: int) returns (verdict: Verdict)
      modifies this
      ensures (Current(), verdict) == Allowed(old(Current()), limits, now)
    {
      match state {
        case Closed => return Call;
        case Open =>
          if now - openedAt < limits.reset {
            return Refused;
          }
          state, streak, probing := HalfOpen, 0, false;
        case HalfOpen =>
      }
      if probing {
        if now - probeAt < limits.reset {
          return Refused;
        }
        Reopen(now);
        return Refused;
      }
      probing, probeAt := true, now;
      return Probe;
    }

    method Record(now: int, failed: bool, probe: bool, gone: bool)
      modifies this
      ensures Current() == Recorded(old(Current()), limits, now, failed, probe, gone)
    {
      if probe {
        probing := false;
      }
      if failed && !probe && gone {
        return;
      }
      if state.Closed? && !failed {
        failures := 0;
      } else if state.Closed? {
        failures := failures + 1;
        if failures >= limits.threshold {
          state, openedAt := Open, now;
        }
      } else if state.HalfOpen? && probe && !failed {
        streak := streak + 1;
        if streak >= limits.successes {
          state, failures, streak := Closed, 0, 0;
        }
      } else if state.HalfOpen? && probe {
        Reopen(now);
      }
    }

    method Reopen(now: int)
      modifies this
      ensures Current() == Reopened(old(Current()), now)
    {
      state, openedAt, streak, probing := Open, now, 0, false;
    }
  }

  // ---------- Over whole runs ----------

  /** A call in flight. */
  datatype Flight = Flight(probe: bool, at: int)

  /** One call asks to begin, or a call that began ends. */
  datatype Step = Begin(id: nat, now: int) | End(id: nat, now: int, failed: bool, gone: bool)

  /**
   A run so far: the breaker, the calls in flight, the clock, when it last
   opened, the outcomes counted since it was last closed anew, and the probes'
   outcomes since it last became half-open.
   */
  datatype Run = Run(b: View, flights: map<nat, Flight>, now: int, lastOpen: int, outcomes: seq<bool>, probes: seq<bool>)

  const START := Run(View(Closed, 0, 0, 0, false, 0), map[], 0, 0, [], [])

  predicate Possible(r: Run, step: Step) {
    r.now <= step.now && if step.Begin? then step.id !in r.flights else step.id in r.flights
  }

  /** An outcome counts unless the caller gave up. */
  predicate Counts(step: Step, probe: bool) {
    step.End? && !(step.failed && !probe && step.gone)
  }

  function Next(r: Run, l: Limits, step: Step): Run
    requires Possible(r, step)
  {
    match step
    case Begin(id, now) =>
      var (b, verdict) := Allowed(r.b, l, now);
      Run(b, if verdict.Refused? then r.flights else r.flights[id := Flight(verdict.Probe?, now)], now,
          if b.state.Open? && !r.b.state.Open? then now else r.lastOpen, r.outcomes,
          if b.state.HalfOpen? && !r.b.state.HalfOpen? then [] else r.probes)
    case End(id, now, failed, gone) =>
      var probe := r.flights[id].probe;
      var b := Recorded(r.b, l, now, failed, probe, gone);
      Run(b, r.flights - {id}, now,
          if b.state.Open? && !r.b.state.Open? then now else r.lastOpen,
          if b.state.Closed? && !r.b.state.Closed? then []
          else if r.b.state.Closed? && Counts(step, probe) then r.outcomes + [!failed] else r.outcomes,
          if r.b.state.HalfOpen? && probe then r.probes + [!failed] else r.probes)
  }

  /** How many failures in a row end the outcomes. */
  function FailuresInARow(outcomes: seq<bool>): nat {
    if outcomes == [] || outcomes[|outcomes| - 1] then 0 else 1 + FailuresInARow(outcomes[..|outcomes| - 1])
  }

  ghost predicate Consistent(r: Run, l: Limits) {
    && (r.b.state.Closed? ==> r.b.failures == FailuresInARow(r.outcomes) < l.threshold)
    && (r.b.state.HalfOpen? ==> r.b.streak == |r.probes| < l.successes && forall k :: 0 <= k < |r.probes| ==> r.probes[k])
    && (r.b.state.Open? ==> r.b.openedAt == r.lastOpen)
    && (!r.b.state.HalfOpen? ==> !r.b.probing)
    && r.lastOpen <= r.now && r.b.probeAt <= r.now
  }

  /** steps can happen one after the other, from START. */
  ghost predicate IsRun(l: Limits, steps: seq<Step>, runs: seq<Run>) {
    && |runs| == |steps| + 1 && runs[0] == START
    && forall i :: 0 <= i < |steps| ==> Possible(runs[i], steps[i]) && runs[i + 1] == Next(runs[i], l, steps[i])
  }

  lemma StepKeepsConsistent(r: Run, l: Limits, step: Step)
    requires l.threshold >= 1 && l.successes >= 1 && Consistent(r, l) && Possible(r, step)
    ensures Consistent(Next(r, l, step), l)
  {
  }

  lemma {:induction false} AlwaysConsistent(l: Limits, steps: seq<Step>, runs: seq<Run>, i: nat)
    requires l.threshold >= 1 && l.successes >= 1 && IsRun(l, steps, runs) && i <= |steps|
    ensures Consistent(runs[i], l)
    decreases i
  {
    if i > 0 {
      AlwaysConsistent(l, steps, runs, i - 1);
      StepKeepsConsistent(runs[i - 1], l, steps[i - 1]);
    }
  }

  /**
   The breaker leaves the closed state exactly at the threshold-th counted
   failure in a row, and the closed state is entered exactly at the last of
   `successes` probes of one half-open spell, all of them successes.
   */
  lemma OpensAndCloses(l: Limits, steps: seq<Step>, runs: seq<Run>, i: nat)
    requires l.threshold >= 1 && l.successes >= 1 && IsRun(l, steps, runs) && i < |steps|
    ensures var r, r', step := runs[i], runs[i + 1], steps[i];
            && (r.b.state.Closed? ==>
                  (r'.b.state.Open? <==> step.End? && step.failed && Counts(step, r.flights[step.id].probe)
                                         && FailuresInARow(r.outcomes + [false]) == l.threshold)
                  && !r'.b.state.HalfOpen?)
            && (!r.b.state.Closed? ==>
                  (r'.b.state.Closed? <==> r.b.state.HalfOpen? && step.End? && r.flights[step.id].probe && !step.failed
                                           && |r.probes| + 1 == l.successes && forall k :: 0 <= k < |r.probes| ==> r.probes[k]))
  {
    AlwaysConsistent(l, steps, runs, i);
    assert (runs[i].outcomes + [false])[..|runs[i].outcomes|] == runs[i].outcomes;
  }

  /** For `reset` after it opened nothing gets through, and no call but a probe moves a breaker that is not closed. */
  lemma SilentWhileOpen(l: Limits, steps: seq<Step>, runs: seq<Run>, i: nat)
    requires l.threshold >= 1 && l.successes >= 1 && IsRun(l, steps, runs) && i < |steps|
    ensures var r, r', step := runs[i], runs[i + 1], steps[i];
            && (r.b.state.Open? && step.Begin? && step.now - r.lastOpen < l.reset ==> r'.flights == r.flights && r'.b == r.b)
            && (!r.b.state.Closed? && step.End? && !r.flights[step.id].probe ==> r'.b == r.b)
            && (!r.b.state.Closed? && step.Begin? && step.id in r'.flights ==>
                  r'.flights[step.id].probe && r'.b.state.HalfOpen? && (r.b.state.Open? ==> step.now - r.lastOpen >= l.reset))
  {
    AlwaysConsistent(l, steps, runs, i);
  }

  /**
   A breaker that opens at T is open at every later point of the run before
   T + reset, whatever ends meanwhile, late probes included; nothing begins, and
   the next call from then on does begin, as a probe.
   */
  lemma {:induction false} OpenForReset(l: Limits, steps: seq<Step>, runs: seq<Run>, j: nat, i: nat)
    requires l.threshold >= 1 && l.successes >= 1 && IsRun(l, steps, runs) && j < i <= |steps|
    requires !runs[j].b.state.Open? && runs[j + 1].b.state.Open?
    requires runs[i].now < steps[j].now + l.reset || i == j + 1
    ensures runs[i].b.state.Open? && runs[i].b.openedAt == steps[j].now
    ensures forall id :: id in runs[i].flights ==> id in runs[j + 1].flights && runs[i].flights[id] == runs[j + 1].flights[id]
    ensures i < |steps| && steps[i].Begin? ==>
      if steps[i].now < steps[j].now + l.reset then runs[i + 1].flights == runs[i].flights
      else runs[i + 1].flights == runs[i].flights[steps[i].id := Flight(true, steps[i].now)]
    decreases i
  {
    assert runs[j + 1] == Next(runs[j], l, steps[j]);
    if i > j + 1 {
      assert runs[i - 1 + 1] == Next(runs[i - 1], l, steps[i - 1]);
      OpenForReset(l, steps, runs, j, i - 1);
    }
    AlwaysConsistent(l, steps, runs, i);
  }

  // ---------- Probes ----------

  /** The probe the breaker waits for is in flight. */
  lemma {:induction false} AwaitedIsInFlight(l: Limits, steps: seq<Step>, runs: seq<Run>, i: nat)
    requires IsRun(l, steps, runs) && i <= |steps|
    ensures runs[i].b.probing ==>
      exists id :: id in runs[i].flights && runs[i].flights[id] == Flight(true, runs[i].b.probeAt)
    decreases i
  {
    if i > 0 {
      AwaitedIsInFlight(l, steps, runs, i - 1);
      var r, r', step := runs[i - 1], runs[i], steps[i - 1];
      assert r' == Next(r, l, step);
      if r'.b.probing {
        if step.Begin? && Allowed(r.b, l, step.now).1.Probe? {
          assert r'.flights[step.id] == Flight(true, r'.b.probeAt);
        } else {
          var id :| id in r.flights && r.flights[id] == Flight(true, r.b.probeAt);
          assert id in r'.flights && r'.flights[id] == Flight(true, r'.b.probeAt);
        }
      }
    }
  }

  /**
   Which calls get through: every one while the breaker is closed, whatever
   failures it has counted; the first one `reset` after it opened, as a probe;
   and another probe whenever none is in flight in a half-open spell. A probe
   that is late ends the spell instead.
   */
  lemma CallsGetThrough(l: Limits, steps: seq<Step>, runs: seq<Run>, i: nat)
    requires l.threshold >= 1 && l.successes >= 1 && IsRun(l, steps, runs) && i < |steps| && steps[i].Begin?
    ensures var r, r', id, now := runs[i], runs[i + 1], steps[i].id, steps[i].now;
            && (r.b.state.Closed? ==> r'.flights == r.flights[id := Flight(false, now)] && r'.b == r.b)
            && (r.b.state.Open? && r.lastOpen + l.reset <= now ==>
                  r'.flights == r.flights[id := Flight(true, now)] && r'.b.state.HalfOpen?)
            && (r.b.state.HalfOpen? && (forall p :: p in r.flights ==> !r.flights[p].probe) ==>
                  r'.flights == r.flights[id := Flight(true, now)] && r'.b.state.HalfOpen?)
            && (r.b.state.HalfOpen? && r.b.probing ==>
                  && r'.flights == r.flights
                  && if now < r.b.probeAt + l.reset then r'.b == r.b else r'.b.state.Open? && r'.lastOpen == now)
  {
    AlwaysConsistent(l, steps, runs, i);
    AwaitedIsInFlight(l, steps, runs, i);
    assert runs[i + 1] == Next(runs[i], l, steps[i]);
  }

  /** Every probe in flight when the clock shows now began less than reset ago. */
  ghost predicate Prompt(r: Run, l: Limits, now: int) {
    forall id :: id in r.flights && r.flights[id].probe ==> now - r.flights[id].at < l.reset
  }

  /** There is at most one probe, and only while the breaker knows of it. */
  ghost predicate SingleProbe(r: Run) {
    forall id :: id in r.flights && r.flights[id].probe ==>
      && r.b.state.HalfOpen? && r.b.probing && r.flights[id].at == r.b.probeAt
      && forall other :: other in r.flights && r.flights[other].probe ==> other == id
  }

  /** When each probe returns within reset, at most one is in flight. */
  lemma {:induction false} OneProbeAtATime(l: Limits, steps: seq<Step>, runs: seq<Run>, i: nat)
    requires IsRun(l, steps, runs) && i <= |steps|
    requires forall k :: 0 <= k < i ==> Prompt(runs[k], l, steps[k].now)
    ensures SingleProbe(runs[i])
    decreases i
  {
    if i > 0 {
      OneProbeAtATime(l, steps, runs, i - 1);
      assert Prompt(runs[i - 1], l, steps[i - 1].now);
    }
  }

  /**
   A probe that outlives reset: the breaker gives it up and sends another, so
   two are in flight, and the late one's success closes the breaker.
   */
  lemma LateProbe() returns (runs: seq<Run>)
    ensures IsRun(Limits(1, 1, 1),
                  [Begin(0, 0), End(0, 0, true, false), Begin(1, 1), Begin(2, 2), Begin(3, 3), End(1, 3, false, false)], runs)
    ensures runs[5].flights == map[1 := Flight(true, 1), 3 := Flight(true, 3)]
    ensures runs[6].b.state.Closed? && runs[6].flights == map[3 := Flight(true, 3)]
  {
    var l := Limits(1, 1, 1);
    var r1 := Next(START, l, Begin(0, 0));
    var r2 := Next(r1, l, End(0, 0, true, false));
    var r3 := Next(r2, l, Begin(1, 1));
    var r4 := Next(r3, l, Begin(2, 2));
    var r5 := Next(r4, l, Begin(3, 3));
    var r6 := Next(r5, l, End(1, 3, false, false));
    runs := [START, r1, r2, r3, r4, r5, r6];
  }
}
