/**
 The carrier circuit breaker (backend/internal/carriers/breaker.go).

 The class is the counter machine under its mutex. The system below adds what the breaker cannot
 see: which admitted calls are still running and which half-open period admitted them.
 */
module Breaker {
  import opened Core

  datatype Phase = Closed | Open | HalfOpen

  datatype Config = Config(threshold: int, resetTimeout: int, halfOpenProbe: int)

  /** The mutable fields. */
  datatype Counters = Counters(phase: Phase, failures: int, successes: int, inFlight: int, lastTrip: Time)

  // ---------------------------------------------------------------- specification of the three operations

  function Admits(c: Config, k: Counters, now: Time): bool {
    match k.phase
    case Closed => true
    case Open => now - k.lastTrip > c.resetTimeout
    case HalfOpen => k.inFlight < c.halfOpenProbe
  }

  function AfterAllow(c: Config, k: Counters, now: Time): Counters {
    if !Admits(c, k, now) then k
    else match k.phase
      case Closed => k
      case Open => k.(phase := HalfOpen, successes := 0, inFlight := 1)
      case HalfOpen => k.(inFlight := k.inFlight + 1)
  }

  function Lowered(n: int): int {
    if n > 0 then n - 1 else n
  }

  function AfterSuccess(c: Config, k: Counters): Counters {
    if k.phase != HalfOpen then k.(failures := 0)
    else if k.successes + 1 >= c.halfOpenProbe then
      k.(phase := Closed, failures := 0, successes := k.successes + 1, inFlight := 0)
    else k.(failures := 0, successes := k.successes + 1, inFlight := Lowered(k.inFlight))
  }

  function AfterFailure(c: Config, k: Counters, now: Time): Counters {
    if k.failures + 1 >= c.threshold then k.(phase := Open, failures := k.failures + 1, inFlight := 0, lastTrip := now)
    else k.(failures := k.failures + 1, inFlight := if k.phase == HalfOpen then Lowered(k.inFlight) else k.inFlight)
  }

  // ---------------------------------------------------------------- the breaker

  datatype CallResult = Success | TransientError | OtherError

  class Breaker {
    var phase: Phase
    var failures: int
    var successes: int
    var inFlight: int
    var lastTrip: Time
    const config: Config

    constructor (config: Config)
      ensures K() == Counters(Closed, 0, 0, 0, 0) && this.config == config
    {
      this.config := config;
      phase, failures, successes, inFlight, lastTrip := Closed, 0, 0, 0, 0;
    }

    function K(): Counters
      reads this
    {
      Counters(phase, failures, successes, inFlight, lastTrip)
    }

    method Allow(now: Time) returns (ok: bool)
      modifies this
      ensures ok == Admits(config, old(K()), now)
      ensures K() == AfterAllow(config, old(K()), now)
    {
      match phase {
        case Closed => return true;
        case Open =>
          if now - lastTrip > config.resetTimeout {
            phase := HalfOpen;
            successes := 0;
            inFlight := 1;
            return true;
          }
          return false;
        case HalfOpen =>
          if inFlight >= config.halfOpenProbe {
            return false;
          }
          inFlight := inFlight + 1;
          return true;
      }
    }

    method RecordSuccess()
      modifies this
      ensures K() == AfterSuccess(config, old(K()))
    {
      failures := 0;
      if phase == HalfOpen {
        if inFlight > 0 {
          inFlight := inFlight - 1;
        }
        successes := successes + 1;
        if successes >= config.halfOpenProbe {
          phase := Closed;
          inFlight := 0;
        }
      }
    }

    method RecordFailure(now: Time)
      modifies this
      ensures K() == AfterFailure(config, old(K()), now)
    {
      if phase == HalfOpen && inFlight > 0 {
        inFlight := inFlight - 1;
      }
      failures := failures + 1;
      if failures >= config.threshold {
        phase := Open;
        lastTrip := now;
        inFlight := 0;
      }
    }

    /** The wrapper's Book and Cancel, when nothing else runs in between: a non-transient error is not recorded. */
    method Guarded(result: CallResult, started: Time, ended: Time) returns (called: bool)
      modifies this
      ensures called == Admits(config, old(K()), started)
      ensures K() == if called then Recorded(config, AfterAllow(config, old(K()), started), result, ended) else old(K())
    {
      called := Allow(started);
      if !called {
        return;
      }
      if result == Success {
        RecordSuccess();
      } else if result == TransientError {
        RecordFailure(ended);
      }
    }
  }

  function Recorded(c: Config, k: Counters, result: CallResult, now: Time): Counters {
    match result
    case Success => AfterSuccess(c, k)
    case TransientError => AfterFailure(c, k, now)
    case OtherError => k
  }

  // ---------------------------------------------------------------- the breaker with its callers

  type CallId = nat

  /**
   `calls` are the admitted calls still running, tagged with the half-open period that admitted them
   (0 when the breaker was closed); `period` is the number of half-open periods so far. For the
   current period, `leaked` counts its probes that ended in a non-transient error and `stolen` the
   in-flight slots given back by calls that were not its probes. `streak` counts recorded failures
   since the last recorded success.
   */
  datatype System = System(
    k: Counters, calls: map<CallId, nat>, period: nat, leaked: nat, stolen: int, streak: nat)

  datatype Action = Begin(id: CallId, now: Time) | Finish(id: CallId, result: CallResult, now: Time)

  predicate Ready(c: Config) {
    c.threshold >= 1 && c.halfOpenProbe >= 1
  }

  function BeginCall(c: Config, s: System, id: CallId, now: Time): System {
    if id in s.calls || !Admits(c, s.k, now) then s
    else
      var k := AfterAllow(c, s.k, now);
      match s.k.phase
      case Closed => s.(k := k, calls := s.calls[id := 0])
      case Open => s.(k := k, calls := s.calls[id := s.period + 1], period := s.period + 1, leaked := 0, stolen := 0)
      case HalfOpen => s.(k := k, calls := s.calls[id := s.period])
  }

  /** A completion of a call other than a current probe, recorded while half-open. */
  predicate Stale(s: System, id: CallId) {
    id in s.calls && s.calls[id] != s.period
  }

  function FinishCall(c: Config, s: System, id: CallId, result: CallResult, now: Time): System {
    if id !in s.calls then s
    else
      var k := Recorded(c, s.k, result, now);
      var own := s.calls[id] == s.period && s.period > 0;
      s.(k := k,
         calls := s.calls - {id},
         leaked := if s.k.phase == HalfOpen && own && result == OtherError then s.leaked + 1 else s.leaked,
         stolen := if s.k.phase != HalfOpen || result == OtherError then s.stolen
                   else if own then (if s.k.inFlight > 0 then s.stolen else s.stolen - 1)
                   else (if s.k.inFlight > 0 then s.stolen + 1 else s.stolen),
         streak := match result case Success => 0 case TransientError => s.streak + 1 case OtherError => s.streak)
  }

  function Next(c: Config, s: System, a: Action): System {
    match a
    case Begin(id, now) => BeginCall(c, s, id, now)
    case Finish(id, result, now) => FinishCall(c, s, id, result, now)
  }

  function Init(): System {
    System(Counters(Closed, 0, 0, 0, 0), map[], 0, 0, 0, 0)
  }

  function Run(c: Config, s: System, actions: seq<Action>): System
    decreases |actions|
  {
    if actions == [] then s else Next(c, Run(c, s, actions[..|actions| - 1]), actions[|actions| - 1])
  }

  /** The current period's probes that are still running. */
  function Probes(s: System): set<CallId> {
    InPeriod(s.calls, s.period)
  }

  function InPeriod(calls: map<CallId, nat>, period: nat): set<CallId> {
    set id | id in calls && calls[id] == period
  }

  predicate CounterLaws(c: Config, s: System) {
    && s.k.failures == s.streak
    && (s.k.phase == Closed ==> s.k.failures < c.threshold)
    && (s.k.phase == HalfOpen ==> 0 <= s.k.inFlight <= c.halfOpenProbe && 0 <= s.k.successes < c.halfOpenProbe)
    && (s.k.phase != HalfOpen ==> s.k.inFlight == 0)
  }

  /** The slots taken are the running probes and the leaked ones, less the stolen. */
  predicate SlotLaw(s: System) {
    && (s.k.phase == HalfOpen ==> s.period > 0 && s.k.inFlight == |Probes(s)| + s.leaked - s.stolen && s.stolen >= 0)
    && (forall id :: id in s.calls ==> s.calls[id] <= s.period)
  }

  lemma BeginKeepsLaws(c: Config, s: System, id: CallId, now: Time)
    requires Ready(c) && CounterLaws(c, s) && SlotLaw(s)
    ensures CounterLaws(c, BeginCall(c, s, id, now)) && SlotLaw(BeginCall(c, s, id, now))
  {
    var s' := BeginCall(c, s, id, now);
    if s'.calls != s.calls {
      if s.k.phase == Open {
        assert Probes(s') == {id};
      } else if s.k.phase == HalfOpen {
        assert Probes(s') == Probes(s) + {id};
      }
    }
  }

  lemma FinishKeepsLaws(c: Config, s: System, id: CallId, result: CallResult, now: Time)
    requires Ready(c) && CounterLaws(c, s) && SlotLaw(s)
    ensures CounterLaws(c, FinishCall(c, s, id, result, now)) && SlotLaw(FinishCall(c, s, id, result, now))
  {
    FinishKeepsCounters(c, s, id, result, now);
    if id in s.calls {
      ProbesAfter(s.calls, s.period, id);
      FinishKeepsSlots(c, s, id, result, now);
    }
  }

  lemma FinishKeepsCounters(c: Config, s: System, id: CallId, result: CallResult, now: Time)
    requires Ready(c) && CounterLaws(c, s)
    ensures CounterLaws(c, FinishCall(c, s, id, result, now))
  {
  }

  /** Taking one call off the list takes it off the probes, if it was one. */
  lemma ProbesAfter(calls: map<CallId, nat>, period: nat, id: CallId)
    requires id in calls
    ensures var left := calls - {id};
      |InPeriod(left, period)| == |InPeriod(calls, period)| - (if calls[id] == period then 1 else 0)
  {
    var left := calls - {id};
    if calls[id] == period {
      assert InPeriod(calls, period) == InPeriod(left, period) + {id};
    } else {
      assert InPeriod(calls, period) == InPeriod(left, period);
    }
  }

  lemma FinishKeepsSlots(c: Config, s: System, id: CallId, result: CallResult, now: Time)
    requires Ready(c) && CounterLaws(c, s) && SlotLaw(s) && id in s.calls
    requires |InPeriod(s.calls - {id}, s.period)| == |Probes(s)| - (if s.calls[id] == s.period then 1 else 0)
    ensures SlotLaw(FinishCall(c, s, id, result, now))
  {
  }

  /** Main result: the counter laws and the exact slot count hold after every run. */
  lemma {:induction false} LawsHold(c: Config, actions: seq<Action>)
    requires Ready(c)
    ensures CounterLaws(c, Run(c, Init(), actions)) && SlotLaw(Run(c, Init(), actions))
    decreases |actions|
  {
    if actions != [] {
      var init, a := actions[..|actions| - 1], actions[|actions| - 1];
      LawsHold(c, init);
      match a
      case Begin(id, now) => BeginKeepsLaws(c, Run(c, Init(), init), id, now);
      case Finish(id, result, now) => FinishKeepsLaws(c, Run(c, Init(), init), id, result, now);
    }
  }

  /** The documented bound on concurrent probes, with what it leaves out: slots stolen by older calls. */
  lemma ProbeBound(c: Config, actions: seq<Action>)
    requires Ready(c)
    ensures var s := Run(c, Init(), actions);
      s.k.phase == HalfOpen ==> |Probes(s)| + s.leaked <= c.halfOpenProbe + s.stolen
  {
    LawsHold(c, actions);
  }

  /** No recorded completion so far came from an older call while half-open. */
  predicate NeverStale(c: Config, actions: seq<Action>)
    decreases |actions|
  {
    actions == [] ||
    var before := Run(c, Init(), actions[..|actions| - 1]);
    var a := actions[|actions| - 1];
    && NeverStale(c, actions[..|actions| - 1])
    && (a.Finish? && a.result != OtherError && before.k.phase == HalfOpen ==> !Stale(before, a.id))
  }

  /**
   Main result: without stale completions the bound is as documented, and slots are running probes plus
   leaked ones.
   */
  lemma {:induction false} NothingStolenWithoutStale(c: Config, actions: seq<Action>)
    requires Ready(c) && NeverStale(c, actions)
    ensures var s := Run(c, Init(), actions);
      && s.stolen == 0
      && (s.k.phase == HalfOpen ==> s.k.inFlight == |Probes(s)| + s.leaked && |Probes(s)| <= c.halfOpenProbe)
    decreases |actions|
  {
    LawsHold(c, actions);
    if actions != [] {
      var init, a := actions[..|actions| - 1], actions[|actions| - 1];
      NothingStolenWithoutStale(c, init);
      LawsHold(c, init);
      var before := Run(c, Init(), init);
      if a.Finish? && a.id in before.calls && before.k.phase == HalfOpen && a.result != OtherError {
        assert a.id in Probes(before);
        assert |Probes(before)| >= 1;
      }
    }
  }

  /** More of the current period's probes are running than the breaker allows. */
  predicate TooManyProbes(c: Config, s: System) {
    s.k.phase == HalfOpen && |Probes(s)| > c.halfOpenProbe
  }

  /** Main result, exact, state by state: too many probes run when more slots were stolen than are leaked or free. */
  lemma TooManyProbesExactly(c: Config, actions: seq<Action>)
    requires Ready(c)
    ensures var s := Run(c, Init(), actions);
      s.k.phase == HalfOpen ==>
        (TooManyProbes(c, s) <==> s.stolen > s.leaked + (c.halfOpenProbe - s.k.inFlight))
  {
    LawsHold(c, actions);
  }

  ghost predicate Reached(c: Config, s: System) {
    exists actions :: Run(c, Init(), actions) == s
  }

  lemma OneMore(c: Config, s: System, a: Action) returns (s': System)
    requires Reached(c, s)
    ensures s' == Next(c, s, a) && Reached(c, s')
  {
    var actions :| Run(c, Init(), actions) == s;
    s' := Next(c, s, a);
    assert (actions + [a])[..|actions|] == actions;
    assert Run(c, Init(), actions + [a]) == s';
  }

  /** With one failure to trip and one success to close, nothing is recorded in a half-open period that lasts. */
  lemma {:induction false} SingleStepNeverSteals(c: Config, actions: seq<Action>)
    requires c.threshold == 1 && c.halfOpenProbe == 1
    ensures var s := Run(c, Init(), actions); s.k.phase == HalfOpen ==> s.stolen == 0
    decreases |actions|
  {
    if actions != [] {
      var init := actions[..|actions| - 1];
      SingleStepNeverSteals(c, init);
      LawsHold(c, init);
    }
  }

  /** Failing calls, one after the other, trip a closed breaker. */
  lemma {:induction false} Trip(c: Config, s: System, id: CallId) returns (s': System)
    requires Ready(c) && Reached(c, s) && s.k.phase == Closed && s.k.failures < c.threshold && id !in s.calls
    ensures Reached(c, s') && s'.k.phase == Open && s'.calls == s.calls && s'.period == s.period
    decreases c.threshold - s.k.failures
  {
    var begun := OneMore(c, s, Begin(id, 0));
    assert begun.calls - {id} == s.calls;
    s' := OneMore(c, begun, Finish(id, TransientError, 0));
    if s'.k.phase == Closed {
      s' := Trip(c, s', id);
    }
  }

  /** Probes take every free slot. */
  lemma {:induction false} FillSlots(c: Config, s: System, unused: CallId) returns (s': System)
    requires Reached(c, s) && s.k.phase == HalfOpen && s.k.inFlight <= c.halfOpenProbe
    requires forall id :: id in s.calls ==> id < unused
    ensures Reached(c, s') && s'.k.phase == HalfOpen && s'.k.inFlight == c.halfOpenProbe
    ensures s'.stolen == s.stolen && s'.leaked == s.leaked
    decreases c.halfOpenProbe - s.k.inFlight
  {
    s' := s;
    if s.k.inFlight < c.halfOpenProbe {
      s' := OneMore(c, s, Begin(unused, 0));
      s' := FillSlots(c, s', unused + 1);
    }
  }

  /** Two calls outlive the trip; one comes back while the breaker is open, its success wiping the failures. */
  lemma HalfOpenWithAnOldCall(c: Config) returns (s: System)
    requires Ready(c)
    ensures Reached(c, s) && s.k.phase == HalfOpen && s.k.failures == 0 && s.k.successes == 0 && s.k.inFlight == 1
    ensures s.calls == map[1 := 0, 2 := 1] && s.period == 1 && s.leaked == 0 && s.stolen == 0
  {
    assert Run(c, Init(), []) == Init();
    s := OneMore(c, Init(), Begin(0, 0));
    s := OneMore(c, s, Begin(1, 0));
    s := Trip(c, s, 2);
    var two: map<CallId, nat> := map[0 := 0, 1 := 0];
    assert s.calls == two && two - {0} == map[1 := 0];
    s := OneMore(c, s, Finish(0, Success, 0));
    s := OneMore(c, s, Begin(2, s.k.lastTrip + c.resetTimeout + 1));
  }

  /** Some run breaks the documented bound. */
  ghost predicate BoundCanFail(c: Config) {
    exists actions :: TooManyProbes(c, Run(c, Init(), actions))
  }

  /**
   Main result, exact: the documented bound on concurrent probes can be broken in every configuration
   but the one that trips on the first failure and closes on the first success.
   */
  lemma BoundCanFailExactly(c: Config)
    requires Ready(c)
    ensures BoundCanFail(c) <==> c.threshold >= 2 || c.halfOpenProbe >= 2
  {
    if c.threshold >= 2 || c.halfOpenProbe >= 2 {
      var s := HalfOpenWithAnOldCall(c);
      s := OneMore(c, s, Finish(1, if c.halfOpenProbe >= 2 then Success else TransientError, 0));
      s := FillSlots(c, s, 3);
      var actions :| Run(c, Init(), actions) == s;
      TooManyProbesExactly(c, actions);
      assert TooManyProbes(c, Run(c, Init(), actions));
    } else if actions :| TooManyProbes(c, Run(c, Init(), actions)) {
      SingleStepNeverSteals(c, actions);
      LawsHold(c, actions);
      assert false;
    }
  }

  // ---------------------------------------------------------------- how it trips, waits and closes

  /** These running calls, in this order, all end in one result at one time. */
  function AllEnd(ids: seq<CallId>, result: CallResult, now: Time): seq<Action> {
    if ids == [] then [] else AllEnd(ids[..|ids| - 1], result, now) + [Finish(ids[|ids| - 1], result, now)]
  }

  predicate Running(s: System, ids: seq<CallId>) {
    && (forall i :: 0 <= i < |ids| ==> ids[i] in s.calls)
    && (forall i, j :: 0 <= i < j < |ids| ==> ids[i] != ids[j])
  }

  lemma {:induction false} OthersKeepRunning(c: Config, s: System, ids: seq<CallId>, result: CallResult, now: Time)
    requires Running(s, ids)
    ensures forall id :: id in Run(c, s, AllEnd(ids, result, now)).calls <==> id in s.calls && id !in ids
    decreases |ids|
  {
    if ids != [] {
      var init, last := ids[..|ids| - 1], ids[|ids| - 1];
      OthersKeepRunning(c, s, init, result, now);
      OneMoreEnds(c, s, init, last, result, now);
      assert ids == init + [last];
    }
  }

  lemma OneMoreEnds(c: Config, s: System, init: seq<CallId>, last: CallId, result: CallResult, now: Time)
    ensures Run(c, s, AllEnd(init + [last], result, now))
      == FinishCall(c, Run(c, s, AllEnd(init, result, now)), last, result, now)
  {
    var before := AllEnd(init, result, now);
    assert (init + [last])[..|init|] == init;
    assert (before + [Finish(last, result, now)])[..|before|] == before;
  }

  lemma LastOneEnds(c: Config, s: System, ids: seq<CallId>, result: CallResult, now: Time)
    requires ids != [] && Running(s, ids)
    ensures var init, last := ids[..|ids| - 1], ids[|ids| - 1];
      var before := Run(c, s, AllEnd(init, result, now));
      && Running(s, init) && last in before.calls
      && Run(c, s, AllEnd(ids, result, now)) == FinishCall(c, before, last, result, now)
  {
    var init, last := ids[..|ids| - 1], ids[|ids| - 1];
    OthersKeepRunning(c, s, init, result, now);
    OneMoreEnds(c, s, init, last, result, now);
    assert init + [last] == ids && last !in init;
  }

  /**
   Main result, exact: of a closed breaker's running calls, so many transient failures in a row trip it
   as, with those recorded since the last success, make the threshold; one fewer leaves it closed. It
   then refuses every call until more than the reset timeout has passed, and lets one through.
   */
  lemma {:induction false} FailuresTrip(c: Config, s: System, ids: seq<CallId>, now: Time)
    requires s.k.phase == Closed && s.k.failures < c.threshold && Running(s, ids)
    requires s.k.failures + |ids| <= c.threshold
    ensures var s' := Run(c, s, AllEnd(ids, TransientError, now));
      && s'.k.failures == s.k.failures + |ids|
      && (if s.k.failures + |ids| < c.threshold then s'.k.phase == Closed
          else s'.k.phase == Open && s'.k.inFlight == 0
               && forall later :: Admits(c, s'.k, later) <==> later > now + c.resetTimeout)
    decreases |ids|
  {
    if ids != [] {
      var init, last := ids[..|ids| - 1], ids[|ids| - 1];
      LastOneEnds(c, s, ids, TransientError, now);
      FailuresTrip(c, s, init, now);
    }
  }

  /** The counters of a half-open breaker, n successes later. */
  predicate SucceededBy(c: Config, k: Counters, k': Counters, n: nat) {
    && (n > 0 ==> k'.failures == 0)
    && k'.successes == k.successes + n
    && k'.phase == if k.successes + n < c.halfOpenProbe then HalfOpen else Closed
  }

  /**
   Main result, exact: in half-open, successes in a row close the breaker as soon as they make the
   configured number, with the failures forgotten; one fewer leaves it half-open.
   */
  lemma {:induction false} SuccessesClose(c: Config, s: System, ids: seq<CallId>, now: Time)
    requires s.k.phase == HalfOpen && s.k.successes < c.halfOpenProbe && Running(s, ids)
    requires s.k.successes + |ids| <= c.halfOpenProbe
    ensures SucceededBy(c, s.k, Run(c, s, AllEnd(ids, Success, now)).k, |ids|)
    decreases |ids|
  {
    if ids != [] {
      var init, last := ids[..|ids| - 1], ids[|ids| - 1];
      LastOneEnds(c, s, ids, Success, now);
      SuccessesClose(c, s, init, now);
      OneSuccess(c, s.k, Run(c, s, AllEnd(init, Success, now)), |init|, last, now);
    }
  }

  lemma OneSuccess(c: Config, k: Counters, s: System, n: nat, id: CallId, now: Time)
    requires SucceededBy(c, k, s.k, n) && k.successes + n < c.halfOpenProbe && id in s.calls
    ensures SucceededBy(c, k, FinishCall(c, s, id, Success, now).k, n + 1)
  {
  }

  /** The call that finds the timeout passed opens a half-open period with one slot taken and no success yet. */
  lemma TimeoutHalfOpens(c: Config, s: System, id: CallId, now: Time)
    requires Ready(c) && s.k.phase == Open && id !in s.calls
    ensures var s' := Next(c, s, Begin(id, now));
      if now > s.k.lastTrip + c.resetTimeout then
        && s'.k.phase == HalfOpen && s'.k.inFlight == 1 && s'.k.successes == 0
        && s'.calls.Keys == s.calls.Keys + {id} && s'.period == s.period + 1
      else s' == s
  {
  }

  // ---------------------------------------------------------------- stuck for good

  /** Half-open with every slot taken and no call left that could give one back. */
  predicate Wedged(c: Config, s: System) {
    s.k.phase == HalfOpen && s.k.inFlight >= c.halfOpenProbe && s.calls == map[]
  }

  lemma {:induction false} WedgedStays(c: Config, s: System, actions: seq<Action>)
    requires Wedged(c, s)
    ensures Run(c, s, actions) == s
    decreases |actions|
  {
    if actions != [] {
      WedgedStays(c, s, actions[..|actions| - 1]);
    }
  }

  /** Some future call is let through. */
  ghost predicate CanAdmitAgain(c: Config, s: System) {
    exists actions, now :: Admits(c, Run(c, s, actions).k, now)
  }

  /** Main result, exact: a reachable breaker never admits a call again if and only if it is wedged. */
  lemma StuckExactlyWhenWedged(c: Config, before: seq<Action>)
    requires Ready(c)
    ensures var s := Run(c, Init(), before);
      CanAdmitAgain(c, s) <==> !Wedged(c, s)
  {
    var s := Run(c, Init(), before);
    LawsHold(c, before);
    if Wedged(c, s) {
      forall actions, now ensures !Admits(c, Run(c, s, actions).k, now) {
        WedgedStays(c, s, actions);
      }
    } else if s.k.phase != HalfOpen || s.k.inFlight < c.halfOpenProbe {
      assert Run(c, s, []) == s;
      assert Admits(c, Run(c, s, []).k, s.k.lastTrip + c.resetTimeout + 1);
    } else {
      var id :| id in s.calls;
      var actions := [Finish(id, Success, 0)];
      assert actions[..0] == [] && Run(c, s, actions[..0]) == s;
      assert Run(c, s, actions) == FinishCall(c, s, id, Success, 0);
      assert Admits(c, Run(c, s, actions).k, 0);
    }
  }

  /** How it happens: each free slot taken by a probe that ends in a non-transient error is gone. */
  lemma {:induction false} OtherErrorsWedge(c: Config, s: System, id: CallId, now: Time)
    requires Ready(c) && s.k.phase == HalfOpen && s.calls == map[] && s.k.inFlight <= c.halfOpenProbe
    ensures Wedged(c, Run(c, s, Repeat(id, now, c.halfOpenProbe - s.k.inFlight)))
    decreases c.halfOpenProbe - s.k.inFlight
  {
    var n := c.halfOpenProbe - s.k.inFlight;
    if n > 0 {
      var s1 := BeginCall(c, s, id, now);
      var s2 := FinishCall(c, s1, id, OtherError, now);
      assert s2.calls == map[] && s2.k.inFlight == s.k.inFlight + 1;
      OtherErrorsWedge(c, s2, id, now);
      var pair := [Begin(id, now), Finish(id, OtherError, now)];
      RunTwo(c, s, pair);
      RunSplits(c, s, pair, Repeat(id, now, n - 1));
    }
  }

  lemma RunTwo(c: Config, s: System, pair: seq<Action>)
    requires |pair| == 2
    ensures Run(c, s, pair) == Next(c, Next(c, s, pair[0]), pair[1])
  {
    assert pair[..1][..0] == [] && pair[..1][0] == pair[0];
    assert Run(c, s, []) == s && Run(c, s, pair[..1]) == Next(c, s, pair[0]);
  }

  function Repeat(id: CallId, now: Time, n: nat): seq<Action> {
    if n == 0 then [] else [Begin(id, now), Finish(id, OtherError, now)] + Repeat(id, now, n - 1)
  }

  lemma {:induction false} RunSplits(c: Config, s: System, a: seq<Action>, b: seq<Action>)
    ensures Run(c, s, a + b) == Run(c, Run(c, s, a), b)
    decreases |b|
  {
    if b == [] {
      assert a + b == a;
    } else {
      assert (a + b)[..|a + b| - 1] == a + b[..|b| - 1];
      RunSplits(c, s, a, b[..|b| - 1]);
    }
  }
}
