/**
 * The action queue under concurrency: submitters, workers and one close, each step one uninterrupted stretch of code
 * between two awaits. Actions are numbered by tickets in the order in which they were accepted.
 */
module ActionQueue {
  import opened Prelude
  import opened ActionManagement

  datatype Worker = Idle | Busy(ticket: nat) | Exited

  /**
   * How far close has come: waiting for join, posting sentinels, waiting for workers, or past closing the providers.
   */
  datatype Phase = Serving | Joining | Posting(posted: nat) | Awaiting | ProvidersClosed

  /** `takers[t]` is the worker that took ticket `t`; `finished` holds the tickets whose attempt is over. */
  datatype System = System(
    shared: Shared, workers: seq<Worker>, phase: Phase, accepted: seq<Action>, takers: seq<nat>, finished: set<nat>)

  datatype Event =
    | Submit(action: Action)
    | Take(worker: nat)
    | Finish(worker: nat)
    | StartClose
    | JoinReturns
    | PostSentinel
    | CloseProviders

  function Initial(c: Settings): System {
    System(Shared([], 0, false), seq(WorkerCount(c), i => Idle), Serving, [], [], {})
  }

  function IsBusy(): Worker -> bool {
    (w: Worker) => w.Busy?
  }

  function IsExited(): Worker -> bool {
    (w: Worker) => w.Exited?
  }

  predicate Enabled(c: Settings, s: System, e: Event) {
    match e
    case Submit(_) => true
    case Take(w) => w < |s.workers| && s.workers[w].Idle? && s.shared.queue != []
    case Finish(w) => w < |s.workers| && s.workers[w].Busy?
    case StartClose => s.phase.Serving?
    case JoinReturns => s.phase.Joining? && s.shared.unfinished == 0
    case PostSentinel => s.phase.Posting? && |s.shared.queue| < Capacity(c)
    case CloseProviders => s.phase.Awaiting? && CountIf(s.workers, IsExited()) == |s.workers|
  }

  function Step(c: Settings, s: System, e: Event): System
    requires Enabled(c, s, e)
  {
    match e
    case Submit(a) =>
      if Submission(c, s.shared).Queued? then s.(shared := Put(s.shared, Some(a)), accepted := s.accepted + [a]) else s
    case Take(w) =>
      var rest := s.shared.(queue := s.shared.queue[1..]);
      if s.shared.queue[0].None?
      then s.(shared := rest.(unfinished := rest.unfinished - 1), workers := s.workers[w := Exited])
      else s.(shared := rest, workers := s.workers[w := Busy(|s.takers|)], takers := s.takers + [w])
    case Finish(w) =>
      s.(shared := s.shared.(unfinished := s.shared.unfinished - 1), workers := s.workers[w := Idle],
         finished := s.finished + {s.workers[w].ticket})
    case StartClose => s.(shared := s.shared.(closing := true), phase := Joining)
    case JoinReturns => s.(phase := Posting(0))
    case PostSentinel =>
      var k := s.phase.posted + 1;
      s.(shared := Put(s.shared, None), phase := if k == |s.workers| then Awaiting else Posting(k))
    case CloseProviders => s.(phase := ProvidersClosed)
  }

  ghost predicate Execution(c: Settings, events: seq<Event>, states: seq<System>) {
    && |states| == |events| + 1 && states[0] == Initial(c)
    && forall i | 0 <= i < |events| ::
       Enabled(c, states[i], events[i]) && states[i + 1] == Step(c, states[i], events[i])
  }

  // ---------- what every step keeps ----------

  function Posted(s: System): nat {
    match s.phase
    case Posting(k) => k
    case Awaiting => |s.workers|
    case ProvidersClosed => |s.workers|
    case _ => 0
  }

  /** Accepted actions that no worker has taken yet. */
  function Waiting(s: System): int {
    |s.accepted| - |s.takers|
  }

  /** The queue holds the untaken actions in the order of acceptance, then only sentinels. */
  ghost predicate InOrder(s: System) {
    && 0 <= Waiting(s) <= |s.shared.queue|
    && (forall i | 0 <= i < Waiting(s) :: s.shared.queue[i] == Some(s.accepted[|s.takers| + i]))
    && (forall i | Waiting(s) <= i < |s.shared.queue| :: s.shared.queue[i].None?)
  }

  /** Each taken ticket is either finished or in the hands of the one worker that took it. */
  ghost predicate Tracked(s: System) {
    && (forall t | 0 <= t < |s.takers| ::
          s.takers[t] < |s.workers| && (t in s.finished <==> s.workers[s.takers[t]] != Busy(t)))
    && (forall t | t in s.finished :: t < |s.takers|)
    && (forall w | 0 <= w < |s.workers| && s.workers[w].Busy? ::
          s.workers[w].ticket < |s.takers| && s.takers[s.workers[w].ticket] == w)
  }

  ghost predicate Counted(c: Settings, s: System) {
    && |s.workers| == WorkerCount(c)
    && s.shared.unfinished == |s.shared.queue| + CountIf(s.workers, IsBusy())
    && |s.shared.queue| - Waiting(s) + CountIf(s.workers, IsExited()) == Posted(s)
    && |s.shared.queue| <= Capacity(c)
  }

  ghost predicate Phased(s: System) {
    && (s.shared.closing <==> !s.phase.Serving?)
    && (s.phase.Posting? ==> s.phase.posted < |s.workers|)
    && (s.phase.Posting? || s.phase.Awaiting? || s.phase.ProvidersClosed? ==>
          Waiting(s) == 0 && CountIf(s.workers, IsBusy()) == 0)
    && (s.phase.ProvidersClosed? ==> CountIf(s.workers, IsExited()) == |s.workers|)
  }

  ghost predicate Safe(c: Settings, s: System) {
    InOrder(s) && Tracked(s) && Counted(c, s) && Phased(s)
  }

  lemma InitialSafe(c: Settings)
    ensures Safe(c, Initial(c))
  {
    CountIfZero(Initial(c).workers, IsBusy());
    CountIfZero(Initial(c).workers, IsExited());
  }

  lemma TakeActionSafe(c: Settings, s: System, w: nat)
    requires Safe(c, s) && Enabled(c, s, Take(w)) && s.shared.queue[0].Some?
    ensures Safe(c, Step(c, s, Take(w)))
  {
    var s' := Step(c, s, Take(w));
    CountIfUpdate(s.workers, w, s'.workers[w], IsBusy());
    CountIfUpdate(s.workers, w, s'.workers[w], IsExited());
    assert forall i | 0 <= i < |s'.shared.queue| :: s'.shared.queue[i] == s.shared.queue[i + 1];
  }

  lemma TakeSentinelSafe(c: Settings, s: System, w: nat)
    requires Safe(c, s) && Enabled(c, s, Take(w)) && s.shared.queue[0].None?
    ensures Safe(c, Step(c, s, Take(w)))
  {
    var s' := Step(c, s, Take(w));
    CountIfUpdate(s.workers, w, s'.workers[w], IsBusy());
    CountIfUpdate(s.workers, w, s'.workers[w], IsExited());
    assert forall i | 0 <= i < |s'.shared.queue| :: s'.shared.queue[i] == s.shared.queue[i + 1];
  }

  lemma FinishSafe(c: Settings, s: System, w: nat)
    requires Safe(c, s) && Enabled(c, s, Finish(w))
    ensures Safe(c, Step(c, s, Finish(w)))
  {
    CountIfUpdate(s.workers, w, Idle, IsBusy());
    CountIfUpdate(s.workers, w, Idle, IsExited());
  }

  lemma StepSafe(c: Settings, s: System, e: Event)
    requires Safe(c, s) && Enabled(c, s, e)
    ensures Safe(c, Step(c, s, e))
  {
    match e {
      case Take(w) =>
        if s.shared.queue[0].Some? {
          TakeActionSafe(c, s, w);
        } else {
          TakeSentinelSafe(c, s, w);
        }
      case Finish(w) => FinishSafe(c, s, w);
      case _ =>
    }
  }

  lemma {:induction false} ExecutionSafe(c: Settings, events: seq<Event>, states: seq<System>, i: nat)
    requires Execution(c, events, states) && i < |states|
    ensures Safe(c, states[i])
  {
    if i == 0 {
      InitialSafe(c);
    } else {
      ExecutionSafe(c, events, states, i - 1);
      StepSafe(c, states[i - 1], events[i - 1]);
    }
  }

  // ---------- clean shutdown ----------

  /**
   * By the time providers are closed, every action ever accepted was taken by one worker and its attempt is over,
   * every worker has left after its one sentinel, and the queue is empty.
   */
  lemma CleanShutdown(c: Settings, events: seq<Event>, states: seq<System>, i: nat)
    requires Execution(c, events, states) && i < |states| && states[i].phase.ProvidersClosed?
    ensures var s := states[i];
            && |s.takers| == |s.accepted| && (forall t: nat :: t in s.finished <==> t < |s.accepted|)
            && s.shared.queue == [] && s.shared.unfinished == 0
            && (forall w | 0 <= w < |s.workers| :: s.workers[w].Exited?)
  {
    var s := states[i];
    ExecutionSafe(c, events, states, i);
    CountIfAll(s.workers, IsExited());
    forall w | 0 <= w < |s.workers| ensures s.workers[w].Exited? { assert IsExited()(s.workers[w]); }
  }

  /** Once closing has begun no action is accepted any more. */
  lemma {:induction false} NothingAcceptedAfterClose(c: Settings, events: seq<Event>, states: seq<System>, i: nat,
                                                     j: nat)
    requires Execution(c, events, states) && i <= j < |states| && !states[i].phase.Serving?
    ensures !states[j].phase.Serving? && states[j].accepted == states[i].accepted
  {
    if i < j {
      NothingAcceptedAfterClose(c, events, states, i, j - 1);
      ExecutionSafe(c, events, states, j - 1);
      ClosingKept(c, states[j - 1], events[j - 1]);
    }
  }

  lemma ClosingKept(c: Settings, s: System, e: Event)
    requires Safe(c, s) && Enabled(c, s, e) && !s.phase.Serving?
    ensures !Step(c, s, e).phase.Serving? && Step(c, s, e).accepted == s.accepted
  {
  }

  /**
   * An action is accepted, at the end of the queue, exactly when close has not begun and there is room for one more.
   */
  lemma AcceptedExactlyWhenRoom(c: Settings, events: seq<Event>, states: seq<System>, i: nat)
    requires Execution(c, events, states) && i < |events| && events[i].Submit?
    ensures var room := |states[i].shared.queue| < if c.queueSize >= 1 then c.queueSize else 1;
            var s, s', a := states[i], states[i + 1], events[i].action;
            if s.phase.Serving? && room
            then s'.accepted == s.accepted + [a] && s'.shared.queue == s.shared.queue + [Some(a)]
            else s'.accepted == s.accepted && s'.shared.queue == s.shared.queue
  {
    ExecutionSafe(c, events, states, i);
    assert states[i + 1] == Step(c, states[i], events[i]);
  }

  /** One worker at least, and otherwise as many as configured. */
  lemma {:induction false} WorkersStay(c: Settings, events: seq<Event>, states: seq<System>, i: nat)
    requires Execution(c, events, states) && i < |states|
    ensures |states[i].workers| == if c.workers >= 1 then c.workers else 1
  {
    if i > 0 {
      WorkersStay(c, events, states, i - 1);
      assert states[i] == Step(c, states[i - 1], events[i - 1]);
    }
  }

  /** Tickets are never lost or handed out twice: accepted and taken only grow, and a taken ticket keeps its taker. */
  lemma {:induction false} TicketsKeepTheirTaker(c: Settings, events: seq<Event>, states: seq<System>, i: nat, j: nat)
    requires Execution(c, events, states) && i <= j < |states|
    ensures states[i].accepted <= states[j].accepted && states[i].takers <= states[j].takers
    ensures states[i].finished <= states[j].finished
  {
    if i < j {
      TicketsKeepTheirTaker(c, events, states, i, j - 1);
      assert states[j] == Step(c, states[j - 1], events[j - 1]);
    }
  }

  // ---------- close always gets through ----------

  predicate Internal(e: Event) {
    !e.Submit? && !e.StartClose?
  }

  /** The steps still to be made before the providers are closed. */
  function Remaining(s: System): int {
    var exited := CountIf(s.workers, IsExited());
    2 * Waiting(s) + CountIf(s.workers, IsBusy())
    + match s.phase
      case Serving => 2 * |s.workers| + 3
      case Joining => 2 * |s.workers| + 2
      case Posting(k) => |s.workers| - k + |s.workers| - exited + 1
      case Awaiting => |s.workers| - exited + 1
      case ProvidersClosed => 0
  }

  lemma SomeWorkerIdle(workers: seq<Worker>) returns (w: nat)
    requires CountIf(workers, IsBusy()) == 0 && CountIf(workers, IsExited()) < |workers|
    ensures w < |workers| && workers[w].Idle?
  {
    CountIfZero(workers, IsBusy());
    CountIfAll(workers, IsExited());
    w :| 0 <= w < |workers| && !IsExited()(workers[w]);
    assert !IsBusy()(workers[w]);
  }

  /** From the call of close on, until the providers are closed, some worker or close itself can always move. */
  lemma CloseNeverStuck(c: Settings, s: System) returns (e: Event)
    requires Safe(c, s) && !s.phase.Serving? && !s.phase.ProvidersClosed?
    ensures Internal(e) && Enabled(c, s, e)
  {
    if CountIf(s.workers, IsBusy()) > 0 {
      CountIfZero(s.workers, IsBusy());
      var w :| 0 <= w < |s.workers| && IsBusy()(s.workers[w]);
      e := Finish(w);
    } else if s.phase.Joining? && s.shared.queue == [] {
      e := JoinReturns;
    } else if s.phase.Posting? && |s.shared.queue| < Capacity(c) {
      e := PostSentinel;
    } else if s.phase.Awaiting? && CountIf(s.workers, IsExited()) == |s.workers| {
      e := CloseProviders;
    } else {
      var w := SomeWorkerIdle(s.workers);
      e := Take(w);
    }
  }

  /**
   * Each such move brings close exactly one step nearer, so close returns after `Remaining` steps, in whatever order.
   */
  lemma CloseAdvances(c: Settings, s: System, e: Event)
    requires Safe(c, s) && Enabled(c, s, e) && Internal(e) && !s.phase.Serving?
    ensures 0 <= Remaining(Step(c, s, e)) == Remaining(s) - 1
    ensures Remaining(Step(c, s, e)) == 0 <==> Step(c, s, e).phase.ProvidersClosed?
  {
    StepSafe(c, s, e);
    if e.Take? || e.Finish? {
      var s' := Step(c, s, e);
      CountIfUpdate(s.workers, e.worker, s'.workers[e.worker], IsBusy());
      CountIfUpdate(s.workers, e.worker, s'.workers[e.worker], IsExited());
    }
  }

  /** Submissions during the shutdown change nothing. */
  lemma LateSubmissionIgnored(c: Settings, s: System, a: Action)
    requires Safe(c, s) && !s.phase.Serving?
    ensures Step(c, s, Submit(a)) == s
  {
  }

  function IsInternal(): Event -> bool {
    (e: Event) => Internal(e)
  }

  /** A run from any state: moves of workers and close, and whatever submissions come in between. */
  ghost predicate RunFrom(c: Settings, s: System, events: seq<Event>, states: seq<System>) {
    && |states| == |events| + 1 && states[0] == s
    && forall i | 0 <= i < |events| ::
       Enabled(c, states[i], events[i]) && states[i + 1] == Step(c, states[i], events[i])
  }

  /**
   * After the start of close, however many submissions are refused meanwhile, a run never holds more than `Remaining`
   * moves of workers and close, and that many exactly when it ends with the providers closed.
   */
  lemma CloseTerminates(c: Settings, s: System, events: seq<Event>, states: seq<System>)
    requires Safe(c, s) && !s.phase.Serving? && RunFrom(c, s, events, states)
    ensures CountIf(events, IsInternal()) <= Remaining(s)
    ensures CountIf(events, IsInternal()) == Remaining(s) <==> states[|events|].phase.ProvidersClosed?
  {
    StepsCounted(c, s, events, states, |events|);
    assert events[..|events|] == events;
    NearlyClosed(c, states[|events|]);
  }

  lemma NearlyClosed(c: Settings, s: System)
    requires Safe(c, s)
    ensures Remaining(s) >= 0 && (Remaining(s) == 0 <==> s.phase.ProvidersClosed?)
  {
  }

  lemma ClosingStepCounted(c: Settings, s: System, e: Event)
    requires Safe(c, s) && !s.phase.Serving? && Enabled(c, s, e)
    ensures Safe(c, Step(c, s, e)) && !Step(c, s, e).phase.Serving?
    ensures Remaining(Step(c, s, e)) == Remaining(s) - One(Internal(e))
  {
    StepSafe(c, s, e);
    ClosingKept(c, s, e);
    if e.Submit? {
      LateSubmissionIgnored(c, s, e.action);
    } else {
      CloseAdvances(c, s, e);
    }
  }

  lemma {:induction false} StepsCounted(c: Settings, s: System, events: seq<Event>, states: seq<System>, i: nat)
    requires Safe(c, s) && !s.phase.Serving? && RunFrom(c, s, events, states) && i < |states|
    ensures Safe(c, states[i]) && !states[i].phase.Serving?
    ensures Remaining(states[i]) == Remaining(s) - CountIf(events[..i], IsInternal())
  {
    if i > 0 {
      StepsCounted(c, s, events, states, i - 1);
      ClosingStepCounted(c, states[i - 1], events[i - 1]);
      assert events[..i] == events[..i - 1] + [events[i - 1]];
      CountIfAppend(events[..i - 1], events[i - 1], IsInternal());
    }
  }
}
