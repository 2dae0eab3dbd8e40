/** Scheduled unlocks are neither lost nor duplicated, and what is put off is not rescheduled. */
module ScheduledUnlocks {
  import opened Prelude
  import opened AccountLocks

  predicate UnlockOf(pc: Pc, e: string) {
    Unlocking(pc) && pc.email == e
  }

  function Holds(e: string): Actor -> bool {
    (a: Actor) => UnlockOf(a.pc, e)
  }

  function IsUnlock(e: string): Task -> bool {
    (t: Task) => t == UnlockTask(e)
  }

  /** Claims of `e` that have come to an end, whatever the end. */
  function EndedCount(l: Ledger, e: string): nat {
    CountIf(l.ended, EndingOf(e))
  }

  function EndingOf(e: string): Ending -> bool {
    (x: Ending) => x.email == e
  }

  /**
   * Every entry ever added is still scheduled, was claimed, was added again over itself, or was taken out by an
   * operator.
   */
  predicate Accounted(s: Shared, e: string) {
    s.ledger.zadds[e] == s.ledger.claims[e] + One(e in s.scheduled) + s.ledger.overwritten[e] + s.ledger.removed[e]
  }

  ghost predicate Conserved(s: System, e: string) {
    && s.shared.ledger.claims[e]
       == CountIf(s.actors, Holds(e)) + CountIf(s.shared.tasks, IsUnlock(e)) + EndedCount(s.shared.ledger, e)
    && Accounted(s.shared, e)
  }

  predicate Unlocking(pc: Pc) {
    pc.Claimed? || pc.UnlockStart? || pc.Exceeding? || pc.Prolonged? || pc.Cleared? || pc.Provided? || pc.Failed?
  }

  lemma LockingTouchesNoClaim(c: Settings, s: Shared, pc: Pc, fault: bool, exceeding: bool)
    requires !Unlocking(pc)
    ensures var (s', pc') := Work(c, s, pc, fault, exceeding);
            !Unlocking(pc') && s'.tasks == s.tasks
            && s'.ledger.ended == s.ledger.ended && s'.ledger.claims == s.ledger.claims
  {
  }

  /** An unlock in progress keeps its account, adds itself to the task list, or ends. */
  lemma UnlockingMovesOn(c: Settings, s: Shared, pc: Pc, fault: bool, exceeding: bool)
    requires Unlocking(pc)
    ensures var (s', pc') := Work(c, s, pc, fault, exceeding);
            && s'.ledger.claims == s.ledger.claims && s'.scheduled == s.scheduled && s'.ledger.zadds == s.ledger.zadds
            && (if Unlocking(pc') then pc'.email == pc.email && s'.tasks == s.tasks && s'.ledger.ended == s.ledger.ended
                else if pc.Claimed? then
                  s'.tasks == s.tasks + [UnlockTask(pc.email)] && s'.ledger.ended == s.ledger.ended
                else s'.tasks == s.tasks && exists o :: s'.ledger.ended == s.ledger.ended + [Ending(pc.email, o)])
  {
  }

  /** A command moves a claim on, ends it or leaves it: it neither drops nor copies one. */
  lemma WorkMovesClaims(c: Settings, s: Shared, pc: Pc, fault: bool, exceeding: bool, e: string)
    ensures var (s', pc') := Work(c, s, pc, fault, exceeding);
            && s'.ledger.claims == s.ledger.claims
            && One(UnlockOf(pc', e)) + CountIf(s'.tasks, IsUnlock(e)) + EndedCount(s'.ledger, e)
               == One(UnlockOf(pc, e)) + CountIf(s.tasks, IsUnlock(e)) + EndedCount(s.ledger, e)
  {
    var (s', pc') := Work(c, s, pc, fault, exceeding);
    if !Unlocking(pc) {
      LockingTouchesNoClaim(c, s, pc, fault, exceeding);
    } else {
      UnlockingMovesOn(c, s, pc, fault, exceeding);
      if !Unlocking(pc') && pc.Claimed? {
        CountIfAppend(s.tasks, UnlockTask(pc.email), IsUnlock(e));
      } else if !Unlocking(pc') {
        var o :| s'.ledger.ended == s.ledger.ended + [Ending(pc.email, o)];
        CountIfAppend(s.ledger.ended, Ending(pc.email, o), EndingOf(e));
      }
    }
  }

  /** Only the schedule step of a lock adds an entry; an unlock, an extension and a retry put nothing back. */
  lemma WorkSchedules(c: Settings, s: Shared, pc: Pc, fault: bool, exceeding: bool, e: string)
    ensures var (s', _) := Work(c, s, pc, fault, exceeding);
            && s'.ledger.zadds[e] - One(e in s'.scheduled) - s'.ledger.overwritten[e]
               == s.ledger.zadds[e] - One(e in s.scheduled) - s.ledger.overwritten[e]
            && s'.ledger.removed == s.ledger.removed
            && (!pc.Described? ==> s'.scheduled == s.scheduled && s'.ledger.zadds == s.ledger.zadds)
  {
  }

  lemma ActorMoves(actors: seq<Actor>, a: nat, actor: Actor, e: string)
    requires a < |actors|
    ensures CountIf(actors[a := actor], Holds(e)) + One(UnlockOf(actors[a].pc, e))
            == CountIf(actors, Holds(e)) + One(UnlockOf(actor.pc, e))
  {
    CountIfUpdate(actors, a, actor, Holds(e));
  }

  lemma ProceedConserves(c: Settings, s: System, ev: Event, e: string)
    requires Enabled(s, ev) && ev.Proceed? && Conserved(s, e)
    ensures Conserved(Step(c, s, ev), e)
  {
    var pc := s.actors[ev.actor].pc;
    var (sh, pc') := Work(c, s.shared, pc, ev.fault, ev.exceeding);
    var moved := s.actors[ev.actor].(pc := pc');
    assert Step(c, s, ev) == System(sh, s.actors[ev.actor := moved]);
    ActorMoves(s.actors, ev.actor, moved, e);
    WorkMovesClaims(c, s.shared, pc, ev.fault, ev.exceeding, e);
    WorkSchedules(c, s.shared, pc, ev.fault, ev.exceeding, e);
  }

  lemma PopConserves(c: Settings, s: System, ev: Event, e: string)
    requires Enabled(s, ev) && ev.Pop? && Conserved(s, e)
    ensures Conserved(Step(c, s, ev), e)
  {
    var actor := s.actors[ev.actor].(pc := Started(s.shared.tasks[0]));
    assert Step(c, s, ev) == System(s.shared.(tasks := s.shared.tasks[1..]), s.actors[ev.actor := actor]);
    ActorMoves(s.actors, ev.actor, actor, e);
    CountIfTail(s.shared.tasks, IsUnlock(e));
  }

  lemma ClaimConserves(c: Settings, s: System, ev: Event, e: string)
    requires Enabled(s, ev) && ev.Claim? && Conserved(s, e)
    ensures Conserved(Step(c, s, ev), e)
  {
    var s' := Step(c, s, ev);
    assert s'.actors == s.actors[ev.actor := s'.actors[ev.actor]];
    ActorMoves(s.actors, ev.actor, s'.actors[ev.actor], e);
  }

  /** A task at the end of the list that is no unlock. */
  lemma NewTaskConserves(s: System, task: Task, e: string)
    requires Conserved(s, e) && !task.UnlockTask?
    ensures Conserved(s.(shared := s.shared.(tasks := s.shared.tasks + [task])), e)
  {
    CountIfAppend(s.shared.tasks, task, IsUnlock(e));
  }

  /** An actor without an unlock goes on to something else than an unlock. */
  lemma OtherActorConserves(s: System, a: nat, actor: Actor, e: string)
    requires Conserved(s, e) && a < |s.actors| && !Unlocking(s.actors[a].pc) && !Unlocking(actor.pc)
    ensures Conserved(s.(actors := s.actors[a := actor]), e)
  {
    ActorMoves(s.actors, a, actor, e);
  }

  lemma HandOffConserves(c: Settings, s: System, ev: Event, e: string)
    requires Enabled(s, ev) && (ev.HandOff? || ev.ManualLock? || ev.Scan? || ev.Notify?) && Conserved(s, e)
    ensures Conserved(Step(c, s, ev), e)
  {
    if ev.Notify? {
      NewTaskConserves(s, NotifyTask, e);
    } else if ev.HandOff? && !ev.fault {
      NewTaskConserves(s, LockTask(ev.email, ev.selector), e);
    } else {
      OtherActorConserves(s, ev.actor, Step(c, s, ev).actors[ev.actor], e);
    }
  }

  lemma StepConserves(c: Settings, s: System, ev: Event, e: string)
    requires Enabled(s, ev) && Conserved(s, e)
    ensures Conserved(Step(c, s, ev), e)
  {
    if ev.Proceed? {
      ProceedConserves(c, s, ev, e);
    } else if ev.Claim? {
      ClaimConserves(c, s, ev, e);
    } else if ev.Pop? {
      PopConserves(c, s, ev, e);
    } else if ev.HandOff? || ev.ManualLock? || ev.Scan? || ev.Notify? {
      HandOffConserves(c, s, ev, e);
    }
  }

  /**
   * For every account and every interleaving: each claimed unlock is in exactly one place, or has ended as an unlock,
   * an extension or a retry; and each entry added to the schedule is still there, claimed, overwritten or taken out.
   */
  lemma {:induction false} UnlocksConserved(c: Settings, events: seq<Event>, states: seq<System>, roles: seq<Role>,
                                            i: nat, e: string)
    requires Execution(c, events, states, roles) && i < |states|
    ensures Conserved(states[i], e)
  {
    if i == 0 {
      CountIfZero(states[0].actors, Holds(e));
    } else {
      UnlocksConserved(c, events, states, roles, i - 1, e);
      StepConserves(c, states[i - 1], events[i - 1], e);
    }
  }
}
