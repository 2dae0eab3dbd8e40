/**
 * The action manager: a provider loop with per-provider metrics, and a bounded queue served by workers that is
 * joined and then closed with one sentinel for each worker.
 */
module ActionManagement {
  import opened Prelude

  datatype Action = Lock(email: string, reason: string) | Unlock(email: string)

  datatype Settings = Settings(continueOnError: bool, asyncExecution: bool, queueSize: int, workers: int)

  function Capacity(c: Settings): nat {
    Max(c.queueSize, 1)
  }

  function WorkerCount(c: Settings): nat {
    Max(c.workers, 1)
  }

  // ---------- metrics ----------

  datatype Metric = Metric(totalCalls: nat, successCalls: nat, failedCalls: nat)

  /** One call of a provider, by name, and whether it went through. */
  datatype Attempt = Attempt(provider: string, ok: bool)

  /** What the metrics of a provider should read after a history of attempts. */
  function Tally(log: seq<Attempt>, provider: string): Metric {
    Metric(CountIf(log, (a: Attempt) => a.provider == provider),
           CountIf(log, (a: Attempt) => a.provider == provider && a.ok),
           CountIf(log, (a: Attempt) => a.provider == provider && !a.ok))
  }

  ghost predicate Summarises(metrics: map<string, Metric>, log: seq<Attempt>) {
    forall p: string :: MetricOf(metrics, p) == Tally(log, p)
  }

  lemma TallyAppend(log: seq<Attempt>, a: Attempt, p: string)
    ensures Tally(log + [a], p)
            == var t := Tally(log, p);
               if a.provider != p then t
               else Metric(t.totalCalls + 1, t.successCalls + (if a.ok then 1 else 0),
                            t.failedCalls + if a.ok then 0 else 1)
  {
    assert (log + [a])[..|log|] == log;
  }

  function MetricOf(metrics: map<string, Metric>, p: string): Metric {
    if p in metrics then metrics[p] else Metric(0, 0, 0)
  }

  /** The metrics after one more attempt. */
  function Counted(metrics: map<string, Metric>, a: Attempt): map<string, Metric> {
    var entry := MetricOf(metrics, a.provider);
    metrics[a.provider := if a.ok then Metric(entry.totalCalls + 1, entry.successCalls + 1, entry.failedCalls)
                          else Metric(entry.totalCalls + 1, entry.successCalls, entry.failedCalls + 1)]
  }

  lemma CountedSummarises(metrics: map<string, Metric>, log: seq<Attempt>, a: Attempt)
    requires Summarises(metrics, log)
    ensures Summarises(Counted(metrics, a), log + [a])
  {
    forall p: string ensures MetricOf(Counted(metrics, a), p) == Tally(log + [a], p) {
      TallyAppend(log, a, p);
    }
  }

  lemma {:induction false} TallyConserved(log: seq<Attempt>, p: string)
    ensures Tally(log, p).totalCalls == Tally(log, p).successCalls + Tally(log, p).failedCalls
  {
    if log != [] {
      var init, last := log[..|log| - 1], log[|log| - 1];
      TallyConserved(init, p);
      assert init + [last] == log;
      TallyAppend(init, last, p);
    }
  }

  /** Calls are conserved in the metrics: each ended in success or failure, for every provider name. */
  lemma CallsConserved(metrics: map<string, Metric>, log: seq<Attempt>, p: string)
    requires Summarises(metrics, log) && p in metrics
    ensures metrics[p].totalCalls == metrics[p].successCalls + metrics[p].failedCalls
  {
    TallyConserved(log, p);
    assert MetricOf(metrics, p) == Tally(log, p);
  }

  function SumTotals(log: seq<Attempt>, names: seq<string>): nat {
    if names == [] then 0 else SumTotals(log, names[..|names| - 1]) + Tally(log, names[|names| - 1]).totalCalls
  }

  lemma {:induction false} SumAppend(log: seq<Attempt>, a: Attempt, names: seq<string>)
    requires forall i, j | 0 <= i < j < |names| :: names[i] != names[j]
    ensures SumTotals(log + [a], names) == SumTotals(log, names) + if a.provider in names then 1 else 0
  {
    if names != [] {
      SumAppend(log, a, names[..|names| - 1]);
      TallyAppend(log, a, names[|names| - 1]);
    }
  }

  lemma {:induction false} TalliesSumToAttempts(log: seq<Attempt>, names: seq<string>)
    requires forall i, j | 0 <= i < j < |names| :: names[i] != names[j]
    requires forall a | a in log :: a.provider in names
    ensures SumTotals(log, names) == |log|
  {
    if log == [] {
      NothingTallied(names);
    } else {
      var init, last := log[..|log| - 1], log[|log| - 1];
      assert init + [last] == log;
      TalliesSumToAttempts(init, names);
      SumAppend(init, last, names);
    }
  }

  lemma {:induction false} NothingTallied(names: seq<string>)
    ensures SumTotals([], names) == 0
  {
    if names != [] {
      NothingTallied(names[..|names| - 1]);
    }
  }

  /** All calls that the metrics count under the names. */
  function TotalCalls(metrics: map<string, Metric>, names: seq<string>): nat {
    if names == [] then 0
    else TotalCalls(metrics, names[..|names| - 1]) + MetricOf(metrics, names[|names| - 1]).totalCalls
  }

  lemma {:induction false} TotalsAreTallies(metrics: map<string, Metric>, log: seq<Attempt>, names: seq<string>)
    requires Summarises(metrics, log)
    ensures TotalCalls(metrics, names) == SumTotals(log, names)
  {
    if names != [] {
      TotalsAreTallies(metrics, log, names[..|names| - 1]);
      assert MetricOf(metrics, names[|names| - 1]) == Tally(log, names[|names| - 1]);
    }
  }

  /** The totals in the metrics, over all provider names, add up to the number of attempts ever made. */
  lemma TotalsSumToAttempts(metrics: map<string, Metric>, log: seq<Attempt>, names: seq<string>)
    requires Summarises(metrics, log)
    requires forall i, j | 0 <= i < j < |names| :: names[i] != names[j]
    requires forall a | a in log :: a.provider in names
    ensures TotalCalls(metrics, names) == |log|
  {
    TotalsAreTallies(metrics, log, names);
    TalliesSumToAttempts(log, names);
  }

  // ---------- the provider loop ----------

  /** How many providers one execution tries when provider `i` would answer `answers[i]`. */
  function Tried(answers: seq<bool>, continueOnError: bool): nat {
    var allowed := if continueOnError || |answers| <= 2 then |answers| else 2;
    var k := FirstSuccess(answers);
    if k < allowed then k + 1 else allowed
  }

  function FirstSuccess(answers: seq<bool>): (k: nat)
    ensures k <= |answers| && (k < |answers| ==> answers[k]) && forall i | 0 <= i < k :: !answers[i]
  {
    if answers == [] || answers[0] then 0 else 1 + FirstSuccess(answers[1..])
  }

  function Attempts(providers: seq<string>, answers: seq<bool>): seq<Attempt>
    requires |providers| <= |answers|
  {
    seq(|providers|, i requires 0 <= i < |providers| => Attempt(providers[i], answers[i]))
  }

  /**
   * An execution tries a prefix of the providers: it succeeds only at the last one tried, stops at the first success,
   * and without continue-on-error goes no further than the first fallback.
   */
  lemma TriedIsPrefix(answers: seq<bool>, continueOnError: bool)
    requires answers != []
    ensures var n := Tried(answers, continueOnError);
            && 1 <= n <= |answers| && (!continueOnError ==> n <= 2)
            && (forall i | 0 <= i < n - 1 :: !answers[i])
            && (!answers[n - 1] ==> n == |answers| || (!continueOnError && n == 2))
  {
  }

  datatype Outcome = Done | Queued | NotStarted | Closing | QueueFull | AllFailed

  // ---------- the queue shared by submitters, workers and close ----------

  /** `unfinished` is the counter that join waits on: it falls when a worker reports a task done. */
  datatype Shared = Shared(queue: seq<Option<Action>>, unfinished: int, closing: bool)

  function Put(s: Shared, item: Option<Action>): Shared {
    s.(queue := s.queue + [item], unfinished := s.unfinished + 1)
  }

  function Submission(c: Settings, s: Shared): Outcome {
    if s.closing then Closing else if |s.queue| >= Capacity(c) then QueueFull else Queued
  }

  class ActionManager {
    const settings: Settings
    const providers: seq<string>
    var started: bool
    var queue: seq<Option<Action>>
    var unfinished: int
    var closing: bool
    var metrics: map<string, Metric>
    ghost var attempts: seq<Attempt>

    ghost predicate Valid()
      reads this
    {
      providers != [] && Summarises(metrics, attempts)
    }

    function Now(): Shared
      reads this
    {
      Shared(queue, unfinished, closing)
    }

    constructor (settings: Settings, primary: string, fallbacks: seq<string>)
      ensures Valid() && this.settings == settings && providers == [primary] + fallbacks
      ensures attempts == [] && Now() == Shared([], 0, false) && !started
    {
      this.settings := settings;
      providers := [primary] + fallbacks;
      started, queue, unfinished, closing := false, [], 0, false;
      metrics, attempts := map[], [];
    }

    method RecordMetric(provider: string, success: bool)
      requires Valid()
      modifies this`metrics, this`attempts
      ensures Valid() && attempts == old(attempts) + [Attempt(provider, success)]
      ensures metrics == Counted(old(metrics), Attempt(provider, success))
    {
      var entry := if provider in metrics then metrics[provider] else Metric(0, 0, 0);
      entry := entry.(totalCalls := entry.totalCalls + 1);
      if success {
        entry := entry.(successCalls := entry.successCalls + 1);
      } else {
        entry := entry.(failedCalls := entry.failedCalls + 1);
      }
      CountedSummarises(metrics, attempts, Attempt(provider, success));
      metrics := metrics[provider := entry];
      attempts := attempts + [Attempt(provider, success)];
    }

    /** `answers[i]` says whether provider `i` would carry out the action. */
    method ExecuteSync(answers: seq<bool>) returns (ok: bool)
      requires Valid() && |answers| == |providers|
      modifies this`metrics, this`attempts
      ensures Valid()
      ensures var n := Tried(answers, settings.continueOnError);
              n <= |providers| && ok == answers[n - 1]
              && attempts == old(attempts) + Attempts(providers[..n], answers)
    {
      var idx := 0;
      while idx < |providers|
        invariant 0 <= idx <= |providers|
        invariant Valid() && attempts == old(attempts) + Attempts(providers[..idx], answers)
        invariant forall i | 0 <= i < idx :: !answers[i]
        invariant idx > 1 ==> settings.continueOnError
      {
        RecordMetric(providers[idx], answers[idx]);
        assert Attempts(providers[..idx + 1], answers)
               == Attempts(providers[..idx], answers) + [Attempt(providers[idx], answers[idx])];
        if answers[idx] {
          return true;
        }
        if idx > 0 && !settings.continueOnError {
          return false;
        }
        idx := idx + 1;
      }
      assert providers[..|providers|] == providers;
      return false;
    }

    method GetAccountStatus(ok: bool)
      requires Valid()
      modifies this`metrics, this`attempts
      ensures Valid() && attempts == old(attempts) + [Attempt(providers[0], ok)]
    {
      RecordMetric(providers[0], ok);
    }

    /** lock_account and unlock_account: hand the action to the queue, or carry it out at once. */
    method Submit(action: Action, answers: seq<bool>) returns (outcome: Outcome)
      requires Valid() && |answers| == |providers|
      modifies this
      ensures Valid() && started == old(started)
      ensures settings.asyncExecution && old(started) ==>
                outcome == Submission(settings, old(Now()))
                && Now() == (if outcome.Queued? then Put(old(Now()), Some(action)) else old(Now()))
      ensures settings.asyncExecution && old(started) ==>
                var room := |old(queue)| < if settings.queueSize >= 1 then settings.queueSize else 1;
                && (outcome == Closing <==> old(closing)) && (outcome == QueueFull <==> !old(closing) && !room)
                && (outcome == Queued <==> !old(closing) && room)
                && queue == old(queue) + (if outcome == Queued then [Some(action)] else [])
      ensures settings.asyncExecution && !old(started) ==> outcome.NotStarted? && Now() == old(Now())
      ensures settings.asyncExecution ==> attempts == old(attempts)
      ensures !settings.asyncExecution ==>
                var n := Tried(answers, settings.continueOnError);
                && Now() == old(Now()) && (outcome.Done? || outcome.AllFailed?)
                && n <= |providers| && (outcome.Done? <==> answers[n - 1])
                && attempts == old(attempts) + Attempts(providers[..n], answers)
    {
      if settings.asyncExecution {
        if !started {
          return NotStarted;
        }
        if closing {
          return Closing;
        }
        if |queue| >= Capacity(settings) {
          return QueueFull;
        }
        queue := queue + [Some(action)];
        unfinished := unfinished + 1;
        return Queued;
      }
      var ok := ExecuteSync(answers);
      return if ok then Done else AllFailed;
    }

    /** The head of the queue, as a worker's get returns it. */
    method Take() returns (item: Option<Action>)
      requires queue != []
      modifies this`queue
      ensures item == old(queue)[0] && Now() == old(Now()).(queue := old(queue)[1..])
    {
      item := queue[0];
      queue := queue[1..];
    }

    method TaskDone()
      modifies this`unfinished
      ensures Now() == old(Now()).(unfinished := old(unfinished) - 1)
    {
      unfinished := unfinished - 1;
    }

    /** One turn of a worker: it leaves at a sentinel, and reports the task done whether or not a provider succeeded. */
    method WorkerTurn(answers: seq<bool>) returns (left: bool)
      requires Valid() && |answers| == |providers| && queue != []
      modifies this
      ensures Valid() && started == old(started)
      ensures Now() == Shared(old(queue)[1..], old(unfinished) - 1, old(closing))
      ensures left <==> old(queue)[0].None?
      ensures var n := Tried(answers, settings.continueOnError);
              n <= |providers|
              && attempts == old(attempts) + if left then [] else Attempts(providers[..n], answers)
    {
      var item := Take();
      if item.None? {
        TaskDone();
        assert answers != [];
        return true;
      }
      var ok := ExecuteSync(answers);
      TaskDone();
      return false;
    }
  }
}
