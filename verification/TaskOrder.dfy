/** The shared task list is first in, first out: each task is taken once, in the order of listing. */
module TaskOrder {
  import opened Prelude
  import opened AccountLocks

  /** The tasks listed by the events before `i`: those by which the list grew. */
  function Listed(states: seq<System>, i: nat): seq<Task>
    requires i < |states|
  {
    if i == 0 then []
    else
      var before, after := states[i - 1].shared.tasks, states[i].shared.tasks;
      Listed(states, i - 1) + if |after| > |before| then [after[|before|]] else []
  }

  /** How many tasks the events before `i` have taken: by how much the list shrank. */
  function TakenCount(states: seq<System>, i: nat): nat
    requires i < |states|
  {
    if i == 0 then 0
    else TakenCount(states, i - 1) + One(|states[i].shared.tasks| < |states[i - 1].shared.tasks|)
  }

  lemma WorkTasks(c: Settings, s: Shared, pc: Pc, fault: bool, exceeding: bool)
    ensures var (s', _) := Work(c, s, pc, fault, exceeding);
            s'.tasks == s.tasks || (|s'.tasks| == |s.tasks| + 1 && s.tasks <= s'.tasks)
  {
  }

  lemma StepTasks(c: Settings, s: System, ev: Event)
    requires Enabled(s, ev)
    ensures var tasks, tasks' := s.shared.tasks, Step(c, s, ev).shared.tasks;
            || (!ev.Pop? && tasks' == tasks)
            || (!ev.Pop? && |tasks'| == |tasks| + 1 && tasks <= tasks')
            || (ev.Pop? && tasks != [] && tasks' == tasks[1..])
  {
    if ev.Proceed? {
      WorkTasks(c, s.shared, s.actors[ev.actor].pc, ev.fault, ev.exceeding);
    }
  }

  /** At any moment the list holds what was listed and not yet taken, in order. */
  lemma {:induction false} ListIsRest(c: Settings, events: seq<Event>, states: seq<System>, roles: seq<Role>, i: nat)
    requires Execution(c, events, states, roles) && i < |states|
    ensures TakenCount(states, i) <= |Listed(states, i)|
    ensures states[i].shared.tasks == Listed(states, i)[TakenCount(states, i)..]
  {
    if i > 0 {
      ListIsRest(c, events, states, roles, i - 1);
      assert Enabled(states[i - 1], events[i - 1]) && states[i] == Step(c, states[i - 1], events[i - 1]);
      StepTasks(c, states[i - 1], events[i - 1]);
      assert Listed(states, i - 1) + [] == Listed(states, i - 1);
      var before, after := states[i - 1].shared.tasks, states[i].shared.tasks;
      if |after| > |before| {
        assert after == before + [after[|before|]];
        AddedToRest(Listed(states, i - 1), TakenCount(states, i - 1), before, after[|before|]);
      } else if |after| < |before| {
        TakenFromRest(Listed(states, i - 1), TakenCount(states, i - 1), before);
      }
    }
  }

  lemma AddedToRest(listed: seq<Task>, n: nat, rest: seq<Task>, task: Task)
    requires n <= |listed| && rest == listed[n..]
    ensures rest + [task] == (listed + [task])[n..]
  {
  }

  lemma TakenFromRest(listed: seq<Task>, n: nat, rest: seq<Task>)
    requires n <= |listed| && rest == listed[n..] && rest != []
    ensures n < |listed| && rest[1..] == listed[n + 1..]
  {
  }

  /** A worker that takes a task begins the one listed first among those not yet taken. */
  lemma TakenInOrder(c: Settings, events: seq<Event>, states: seq<System>, roles: seq<Role>, i: nat)
    requires Execution(c, events, states, roles) && i < |events| && events[i].Pop?
    ensures var n := TakenCount(states, i);
            && n < |Listed(states, i)| && TakenCount(states, i + 1) == n + 1
            && events[i].actor < |states[i + 1].actors|
            && var pc := states[i + 1].actors[events[i].actor].pc;
               match Listed(states, i)[n]
               case LockTask(e, selector) => pc == LockStart(e, selector)
               case UnlockTask(e) => pc == UnlockStart(e)
               case NotifyTask => pc == Idle
  {
    ListIsRest(c, events, states, roles, i);
    assert Enabled(states[i], events[i]) && states[i + 1] == Step(c, states[i], events[i]);
    assert states[i].shared.tasks[0] == Listed(states, i)[TakenCount(states, i)];
  }

  // ---------- lock requests ----------

  function AsksFor(e: string): Event -> bool {
    (ev: Event) => ev.HandOff? && ev.email == e
  }

  function IsLock(e: string): Task -> bool {
    (t: Task) => t.LockTask? && t.email == e
  }

  /** Event `k` has a requester or a worker begin a lock of the account. */
  predicate BeginsLock(events: seq<Event>, states: seq<System>, k: nat, e: string)
    requires k < |events| && k + 1 < |states|
  {
    && (events[k].Pop? || events[k].HandOff?)
    && events[k].actor < |states[k + 1].actors|
    && states[k + 1].actors[events[k].actor].pc.LockStart?
    && states[k + 1].actors[events[k].actor].pc.email == e
  }

  function Begun(events: seq<Event>, states: seq<System>, i: nat, e: string): nat
    requires i <= |events| && |states| == |events| + 1
  {
    if i == 0 then 0 else Begun(events, states, i - 1, e) + One(BeginsLock(events, states, i - 1, e))
  }

  lemma WorkLocks(c: Settings, s: Shared, pc: Pc, fault: bool, exceeding: bool, e: string)
    ensures CountIf(Work(c, s, pc, fault, exceeding).0.tasks, IsLock(e)) == CountIf(s.tasks, IsLock(e))
  {
    if pc.Claimed? {
      CountIfAppend(s.tasks, UnlockTask(pc.email), IsLock(e));
    }
  }

  lemma StepLocks(c: Settings, events: seq<Event>, states: seq<System>, roles: seq<Role>, k: nat, e: string)
    requires Execution(c, events, states, roles) && k < |events|
    ensures CountIf(states[k + 1].shared.tasks, IsLock(e)) + One(BeginsLock(events, states, k, e))
            == CountIf(states[k].shared.tasks, IsLock(e)) + One(AsksFor(e)(events[k]))
  {
    var ev, s := events[k], states[k];
    assert Enabled(s, ev) && states[k + 1] == Step(c, s, ev);
    match ev
    case Proceed(a, fault, exceeding) => WorkLocks(c, s.shared, s.actors[a].pc, fault, exceeding, e);
    case Pop(_) => CountIfTail(s.shared.tasks, IsLock(e));
    case HandOff(_, email, selector, fault) => CountIfAppend(s.shared.tasks, LockTask(email, selector), IsLock(e));
    case Notify => CountIfAppend(s.shared.tasks, NotifyTask, IsLock(e));
    case _ =>
  }

  /**
   * No lock request is lost or doubled: each one handed off waits in the task list, or a worker has begun it, or the
   * requester has because the list could not be reached.
   */
  lemma {:induction false} LockRequestsConserved(c: Settings, events: seq<Event>, states: seq<System>, roles: seq<Role>,
                                                 i: nat, e: string)
    requires Execution(c, events, states, roles) && i < |states|
    ensures CountIf(events[..i], AsksFor(e)) == CountIf(states[i].shared.tasks, IsLock(e)) + Begun(events, states, i, e)
  {
    if i > 0 {
      LockRequestsConserved(c, events, states, roles, i - 1, e);
      StepLocks(c, events, states, roles, i - 1, e);
      assert events[..i] == events[..i - 1] + [events[i - 1]];
      CountIfAppend(events[..i - 1], events[i - 1], AsksFor(e));
    }
  }
}
