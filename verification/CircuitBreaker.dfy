/**
 * The circuit breaker around Redis calls. Its lock covers the start of a call and the recording of its outcome, not
 * the call in between, so calls begun in one state report in another: begin, success and failure are separate steps.
 */
module CircuitBreaking {

  datatype CircuitState = Closed | Open | HalfOpen

  datatype Settings = Settings(failureThreshold: int, recoveryTimeout: int, successThreshold: int)

  datatype View = View(state: CircuitState, failureCount: nat, successCount: nat, lastFailureTime: real)

  // ---------- the three critical sections, on values ----------

  predicate Admits(c: Settings, v: View, now: real) {
    v.state.Open? ==> now - v.lastFailureTime >= c.recoveryTimeout as real
  }

  function Begun(c: Settings, v: View, now: real): View {
    if v.state.Open? && Admits(c, v, now) then v.(state := HalfOpen, successCount := 0) else v
  }

  function Succeeded(c: Settings, v: View): View {
    match v.state
    case HalfOpen =>
      if v.successCount + 1 >= c.successThreshold then View(Closed, 0, 0, v.lastFailureTime)
      else v.(successCount := v.successCount + 1)
    case Closed => v.(failureCount := 0)
    case Open => v
  }

  function FailedAt(c: Settings, v: View, now: real): View {
    View(if v.state.HalfOpen? || (v.state.Closed? && v.failureCount + 1 >= c.failureThreshold) then Open else v.state,
         v.failureCount + 1, v.successCount, now)
  }

  const FRESH := View(Closed, 0, 0, 0.0)

  datatype Reply = Rejected | Returned | Raised

  class CircuitBreaker {
    const settings: Settings
    var state: CircuitState
    var failureCount: nat
    var successCount: nat
    var lastFailureTime: real

    function Now(): View
      reads this
    {
      View(state, failureCount, successCount, lastFailureTime)
    }

    constructor (settings: Settings)
      ensures this.settings == settings && Now() == FRESH
    {
      this.settings := settings;
      state, failureCount, successCount, lastFailureTime := Closed, 0, 0, 0.0;
    }

    /** The section before the call: rejects while open, unless the recovery timeout has passed. */
    method Begin(now: real) returns (admitted: bool)
      modifies this
      ensures admitted == Admits(settings, old(Now()), now)
      ensures Now() == Begun(settings, old(Now()), now)
    {
      if state == Open {
        if !(now - lastFailureTime >= settings.recoveryTimeout as real) {
          return false;
        }
        TransitionToHalfOpen();
      }
      return true;
    }

    method RecordSuccess()
      modifies this
      ensures Now() == Succeeded(settings, old(Now()))
    {
      if state == HalfOpen {
        successCount := successCount + 1;
        if successCount >= settings.successThreshold {
          TransitionToClosed();
        }
      } else if state == Closed {
        failureCount := 0;
      }
    }

    method RecordFailure(now: real)
      modifies this
      ensures Now() == FailedAt(settings, old(Now()), now)
    {
      failureCount := failureCount + 1;
      lastFailureTime := now;
      if state == HalfOpen {
        TransitionToOpen();
      } else if state == Closed {
        if failureCount >= settings.failureThreshold {
          TransitionToOpen();
        }
      }
    }

    method TransitionToHalfOpen()
      modifies this
      ensures Now() == old(Now()).(state := HalfOpen, successCount := 0)
    {
      state := HalfOpen;
      successCount := 0;
    }

    method TransitionToOpen()
      modifies this
      ensures Now() == old(Now()).(state := Open)
    {
      state := Open;
    }

    method TransitionToClosed()
      modifies this
      ensures Now() == View(Closed, 0, 0, old(lastFailureTime))
    {
      state, failureCount, successCount := Closed, 0, 0;
    }

    method Reset()
      modifies this
      ensures Now() == FRESH
    {
      state, failureCount, successCount, lastFailureTime := Closed, 0, 0, 0.0;
    }

    /** One call with nothing in between; `succeeds` is what the wrapped function does. */
    method Call(succeeds: bool, started: real, finished: real) returns (reply: Reply)
      modifies this
      ensures reply.Rejected? <==> !Admits(settings, old(Now()), started)
      ensures reply.Rejected? ==> Now() == old(Now())
      ensures !reply.Rejected? ==> reply == if succeeds then Returned else Raised
      ensures var v := Begun(settings, old(Now()), started);
              !reply.Rejected? ==> Now() == if succeeds then Succeeded(settings, v) else FailedAt(settings, v, finished)
    {
      var admitted := Begin(started);
      if !admitted {
        return Rejected;
      }
      if !succeeds {
        RecordFailure(finished);
        return Raised;
      }
      RecordSuccess();
      return Returned;
    }
  }

  // ---------- overlapping calls ----------

  datatype Event =
    | Begin(call: nat, at: real)
    | Succeed(call: nat)
    | Fail(call: nat, at: real)
    | Reset

  datatype System = System(view: View, inFlight: set<nat>)

  function Step(c: Settings, s: System, e: Event): System {
    match e
    case Begin(call, at) =>
      System(Begun(c, s.view, at), if Admits(c, s.view, at) then s.inFlight + {call} else s.inFlight)
    case Succeed(call) => System(Succeeded(c, s.view), s.inFlight - {call})
    case Fail(call, at) => System(FailedAt(c, s.view, at), s.inFlight - {call})
    case Reset => s.(view := FRESH)
  }

  function After(c: Settings, events: seq<Event>): System {
    if events == [] then System(FRESH, {}) else Step(c, After(c, events[..|events| - 1]), events[|events| - 1])
  }

  /** The outcomes recorded since the breaker entered its present state, or since a reset. */
  function Period(c: Settings, events: seq<Event>): seq<bool> {
    if events == [] then []
    else
      var init, last := events[..|events| - 1], events[|events| - 1];
      if last.Reset? || After(c, events).view.state != After(c, init).view.state then []
      else Period(c, init) + (if last.Succeed? then [true] else if last.Fail? then [false] else [])
  }

  function TrailingFailures(outcomes: seq<bool>): nat {
    if outcomes == [] || outcomes[|outcomes| - 1] then 0 else 1 + TrailingFailures(outcomes[..|outcomes| - 1])
  }

  lemma TrailingAppend(outcomes: seq<bool>, ok: bool)
    ensures TrailingFailures(outcomes + [ok]) == if ok then 0 else 1 + TrailingFailures(outcomes)
  {
    assert (outcomes + [ok])[..|outcomes|] == outcomes;
  }

  ghost predicate CountsHistory(c: Settings, v: View, period: seq<bool>) {
    && (v.state.Closed? ==> v.failureCount == TrailingFailures(period) < c.failureThreshold)
    && (v.state.HalfOpen? ==>
          v.successCount == |period| < c.successThreshold && forall i | 0 <= i < |period| :: period[i])
  }

  /**
   * Whatever calls overlap: while closed the failure count is the unbroken row of failures recorded in this closed
   * period, below its threshold; while half-open only successes have been recorded, all counted, below theirs.
   */
  lemma {:induction false} CountersMatchHistory(c: Settings, events: seq<Event>)
    requires c.failureThreshold >= 1 && c.successThreshold >= 1
    ensures CountsHistory(c, After(c, events).view, Period(c, events))
  {
    if events != [] {
      var init, last := events[..|events| - 1], events[|events| - 1];
      CountersMatchHistory(c, init);
      TrailingAppend(Period(c, init), last.Succeed?);
      assert Period(c, init) + [] == Period(c, init);
    }
  }

  /**
   * The state changes exactly at: the failure that completes a row of failureThreshold while closed; the success
   * that completes successThreshold while half-open; any failure while half-open; the first call after the recovery
   * timeout while open; and a reset.
   */
  lemma TransitionsExactly(c: Settings, events: seq<Event>, e: Event)
    requires c.failureThreshold >= 1 && c.successThreshold >= 1
    ensures var v, v' := After(c, events).view, After(c, events + [e]).view;
            var period := Period(c, events);
            match v.state
            case Closed =>
              && (v'.state.Open? <==> e.Fail? && TrailingFailures(period) + 1 == c.failureThreshold)
              && !v'.state.HalfOpen?
            case HalfOpen =>
              && (v'.state.Closed? <==> e.Reset? || (e.Succeed? && |period| + 1 == c.successThreshold))
              && (v'.state.Open? <==> e.Fail?)
              && (forall i | 0 <= i < |period| :: period[i])
            case Open =>
              && (v'.state.HalfOpen? <==> e.Begin? && Admits(c, v, e.at))
              && (v'.state.Closed? <==> e.Reset?)
  {
    assert (events + [e])[..|events|] == events;
    CountersMatchHistory(c, events);
  }

  // ---------- timing ----------

  predicate Timed(e: Event) {
    e.Begin? || e.Fail?
  }

  ghost predicate ForwardClock(events: seq<Event>) {
    forall i, j | 0 <= i <= j < |events| && Timed(events[i]) && Timed(events[j]) :: events[i].at <= events[j].at
  }

  /** Outside the closed state the stored time is that of the last failure recorded, resets or not. */
  lemma {:induction false} LastFailureKept(c: Settings, events: seq<Event>) returns (k: nat)
    requires !After(c, events).view.state.Closed?
    ensures k < |events| && events[k].Fail? && After(c, events).view.lastFailureTime == events[k].at
    ensures forall i | k < i < |events| :: !events[i].Fail?
  {
    var init, last := events[..|events| - 1], events[|events| - 1];
    if last.Fail? {
      k := |events| - 1;
    } else {
      k := LastFailureKept(c, init);
    }
  }

  /**
   * A call that finds the breaker open is admitted exactly when the recovery timeout has passed since every failure
   * recorded so far, late failures of calls begun before it opened included.
   */
  lemma OpenAdmitsExactlyAfterTimeout(c: Settings, events: seq<Event>, now: real)
    requires ForwardClock(events) && After(c, events).view.state.Open?
    ensures Admits(c, After(c, events).view, now)
            <==> forall i | 0 <= i < |events| && events[i].Fail? :: now - events[i].at >= c.recoveryTimeout as real
  {
    var k := LastFailureKept(c, events);
    forall i | 0 <= i < |events| && events[i].Fail? ensures events[i].at <= events[k].at {
      assert i <= k && Timed(events[i]) && Timed(events[k]);
    }
  }

  // ---------- what half-open does not do ----------

  function Burst(first: nat, n: nat, at: real): seq<Event> {
    seq(n, i requires 0 <= i => Begin(first + i, at))
  }

  /** Half-open puts no limit on concurrent calls: any number of calls begun in that state are in flight together. */
  lemma {:induction false} HalfOpenAdmitsAnyNumber(c: Settings, events: seq<Event>, first: nat, n: nat, at: real)
    requires After(c, events).view.state.HalfOpen?
    ensures var s := After(c, events + Burst(first, n, at));
            s.view == After(c, events).view && forall call | first <= call < first + n :: call in s.inFlight
  {
    var all := events + Burst(first, n, at);
    if n == 0 {
      assert all == events;
    } else {
      HalfOpenAdmitsAnyNumber(c, events, first, n - 1, at);
      assert all[..|all| - 1] == events + Burst(first, n - 1, at);
      assert all[|all| - 1] == Begin(first + n - 1, at);
    }
  }
}
