/**
 * Actions carried out at the same time: workers take turns at calling providers, status queries come in between, and
 * every call is recorded in the one log that the metrics tally.
 */
module ProviderCalls {
  import opened ActionManagement

  /** An action in progress: provider `i` would answer `answers[i]`, and the first `made` of them were asked. */
  datatype Execution = Execution(answers: seq<bool>, made: nat)

  datatype System = System(executions: seq<Execution>, statusCalls: nat, log: seq<Attempt>,
                           metrics: map<string, Metric>)

  datatype Event =
    | Begin(answers: seq<bool>)
    | Try(execution: nat)
    | StatusCall(ok: bool)

  predicate Enabled(c: Settings, providers: seq<string>, s: System, e: Event) {
    match e
    case Begin(answers) => |answers| == |providers| > 0
    case Try(x) => x < |s.executions| && s.executions[x].made < Tried(s.executions[x].answers, c.continueOnError)
                   && s.executions[x].made < |providers| <= |s.executions[x].answers|
    case StatusCall(_) => providers != []
  }

  function Called(s: System, a: Attempt): System {
    s.(log := s.log + [a], metrics := Counted(s.metrics, a))
  }

  function Step(c: Settings, providers: seq<string>, s: System, e: Event): System
    requires Enabled(c, providers, s, e)
  {
    match e
    case Begin(answers) => s.(executions := s.executions + [Execution(answers, 0)])
    case Try(x) =>
      var run := s.executions[x];
      Called(s.(executions := s.executions[x := run.(made := run.made + 1)]),
             Attempt(providers[run.made], run.answers[run.made]))
    case StatusCall(ok) => Called(s.(statusCalls := s.statusCalls + 1), Attempt(providers[0], ok))
  }

  ghost predicate Run(c: Settings, providers: seq<string>, events: seq<Event>, states: seq<System>) {
    && |states| == |events| + 1 && states[0] == System([], 0, [], map[])
    && forall i | 0 <= i < |events| ::
         Enabled(c, providers, states[i], events[i]) && states[i + 1] == Step(c, providers, states[i], events[i])
  }

  function SumMade(executions: seq<Execution>): nat {
    if executions == [] then 0 else SumMade(executions[..|executions| - 1]) + executions[|executions| - 1].made
  }

  /** What the executions try altogether: for each the length of its prefix of the providers. */
  function SumTried(c: Settings, executions: seq<Execution>): nat {
    if executions == [] then 0
    else SumTried(c, executions[..|executions| - 1]) + Tried(executions[|executions| - 1].answers, c.continueOnError)
  }

  lemma {:induction false} SumMadeUpdate(executions: seq<Execution>, x: nat, run: Execution)
    requires x < |executions|
    ensures SumMade(executions[x := run]) + executions[x].made == SumMade(executions) + run.made
  {
    var last := |executions| - 1;
    if x == last {
      assert executions[x := run][..last] == executions[..last];
    } else {
      assert executions[x := run][..last] == executions[..last][x := run];
      SumMadeUpdate(executions[..last], x, run);
    }
  }

  /** Every call on record is a provider's, and was made by one of the executions or by a status query. */
  ghost predicate Recorded(c: Settings, providers: seq<string>, s: System) {
    && Summarises(s.metrics, s.log)
    && |s.log| == SumMade(s.executions) + s.statusCalls
    && (forall a | a in s.log :: a.provider in providers)
    && (forall x | x in s.executions :: x.made <= Tried(x.answers, c.continueOnError))
  }

  lemma StepRecorded(c: Settings, providers: seq<string>, s: System, e: Event)
    requires Recorded(c, providers, s) && Enabled(c, providers, s, e)
    ensures Recorded(c, providers, Step(c, providers, s, e))
  {
    var s' := Step(c, providers, s, e);
    match e
    case Begin(answers) => assert s'.executions[..|s.executions|] == s.executions;
    case Try(x) =>
      SumMadeUpdate(s.executions, x, s'.executions[x]);
      CountedSummarises(s.metrics, s.log, s'.log[|s.log|]);
    case StatusCall(_) =>
      CountedSummarises(s.metrics, s.log, s'.log[|s.log|]);
  }

  lemma {:induction false} RunRecorded(c: Settings, providers: seq<string>, events: seq<Event>, states: seq<System>,
                                       i: nat)
    requires Run(c, providers, events, states) && i < |states|
    ensures Recorded(c, providers, states[i])
  {
    if i > 0 {
      RunRecorded(c, providers, events, states, i - 1);
      StepRecorded(c, providers, states[i - 1], events[i - 1]);
    }
  }

  lemma {:induction false} AllMade(c: Settings, executions: seq<Execution>)
    requires forall x | x in executions :: x.made == Tried(x.answers, c.continueOnError)
    ensures SumMade(executions) == SumTried(c, executions)
  {
    if executions != [] {
      assert executions[|executions| - 1] in executions;
      AllMade(c, executions[..|executions| - 1]);
    }
  }

  /**
   * However executions and status queries interleave, the total calls in the metrics add up, over all provider names,
   * to the calls made; once no execution is under way, to the prefixes tried and one for each status query.
   */
  lemma TotalsOverExecutions(c: Settings, providers: seq<string>, events: seq<Event>, states: seq<System>, i: nat,
                             names: seq<string>)
    requires Run(c, providers, events, states) && i < |states|
    requires forall j, k | 0 <= j < k < |names| :: names[j] != names[k]
    requires forall p | p in providers :: p in names
    ensures var s := states[i];
            && TotalCalls(s.metrics, names) == SumMade(s.executions) + s.statusCalls
            && ((forall x | x in s.executions :: x.made == Tried(x.answers, c.continueOnError)) ==>
                  TotalCalls(s.metrics, names) == SumTried(c, s.executions) + s.statusCalls)
  {
    var s := states[i];
    RunRecorded(c, providers, events, states, i);
    TotalsSumToAttempts(s.metrics, s.log, names);
    if forall x | x in s.executions :: x.made == Tried(x.answers, c.continueOnError) {
      AllMade(c, s.executions);
    }
  }
}
