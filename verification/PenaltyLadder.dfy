/** Lock contention between workers, and the penalty ladder that sets how long locks run. */
module PenaltyLadder {
  import opened Prelude
  import opened AccountLocks

  predicate Racing(pc: Pc) {
    pc.Bumped? || (pc.Ready? && !pc.cause.Manual?)
  }

  predicate Uncounted(pc: Pc) {
    pc.Won? || pc.Described?
  }

  function IsRacing(): Actor -> bool {
    (a: Actor) => Racing(a.pc)
  }

  function IsUncounted(): Actor -> bool {
    (a: Actor) => Uncounted(a.pc)
  }

  function IsCounted(): Actor -> bool {
    (a: Actor) => a.pc.Counted?
  }

  /** Won locks, lock counters and provider calls, with what is still on its way from one to the next. */
  ghost predicate Contended(s: System) {
    var l := s.shared.ledger;
    && |l.autoWins| + CountIf(s.actors, IsRacing()) <= |l.bumps|
    && l.usersLocked + CountIf(s.actors, IsUncounted()) <= |l.autoWins| + |l.manualWins|
    && |l.providerLocks| + CountIf(s.actors, IsCounted()) <= l.usersLocked
  }

  /** Every lock request carries a selector, so each passes through the penalty counter. */
  ghost predicate Selective(s: System) {
    && (forall a | 0 <= a < |s.actors| && (s.actors[a].pc.LockStart? || s.actors[a].pc.NeedPenalty?) ::
       s.actors[a].pc.selector != "")
    && (forall t | t in s.shared.tasks && t.LockTask? :: t.selector != "")
  }

  predicate WithSelector(ev: Event) {
    ev.HandOff? ==> ev.selector != ""
  }

  lemma ActorCounts(actors: seq<Actor>, a: nat, actor: Actor)
    requires a < |actors|
    ensures CountIf(actors[a := actor], IsRacing()) + One(Racing(actors[a].pc))
            == CountIf(actors, IsRacing()) + One(Racing(actor.pc))
    ensures CountIf(actors[a := actor], IsUncounted()) + One(Uncounted(actors[a].pc))
            == CountIf(actors, IsUncounted()) + One(Uncounted(actor.pc))
    ensures CountIf(actors[a := actor], IsCounted()) + One(actors[a].pc.Counted?)
            == CountIf(actors, IsCounted()) + One(actor.pc.Counted?)
  {
    CountIfUpdate(actors, a, actor, IsRacing());
    CountIfUpdate(actors, a, actor, IsUncounted());
    CountIfUpdate(actors, a, actor, IsCounted());
  }

  lemma WorkCounts(c: Settings, s: Shared, pc: Pc, fault: bool, exceeding: bool)
    requires c.penaltyEnabled && (pc.LockStart? || pc.NeedPenalty? ==> pc.selector != "")
    ensures var (s', pc') := Work(c, s, pc, fault, exceeding);
            var l, l' := s.ledger, s'.ledger;
            && |l'.autoWins| + One(Racing(pc')) - |l'.bumps| <= |l.autoWins| + One(Racing(pc)) - |l.bumps|
            && l'.usersLocked + One(Uncounted(pc')) - |l'.autoWins| - |l'.manualWins|
               <= l.usersLocked + One(Uncounted(pc)) - |l.autoWins| - |l.manualWins|
            && |l'.providerLocks| + One(pc'.Counted?) - l'.usersLocked
               <= |l.providerLocks| + One(pc.Counted?) - l.usersLocked
            && (pc'.LockStart? || pc'.NeedPenalty? ==> pc'.selector != "")
            && (forall t | t in s'.tasks && t.LockTask? :: t in s.tasks)
  {
  }

  lemma ProceedContended(c: Settings, s: System, ev: Event)
    requires c.penaltyEnabled && Enabled(s, ev) && ev.Proceed? && Contended(s) && Selective(s)
    ensures Contended(Step(c, s, ev)) && Selective(Step(c, s, ev))
  {
    var pc := s.actors[ev.actor].pc;
    var (sh, pc') := Work(c, s.shared, pc, ev.fault, ev.exceeding);
    var moved := s.actors[ev.actor].(pc := pc');
    assert Step(c, s, ev) == System(sh, s.actors[ev.actor := moved]);
    ActorCounts(s.actors, ev.actor, moved);
    WorkCounts(c, s.shared, pc, ev.fault, ev.exceeding);
  }

  /** An actor goes on from something that counts for nothing to something that counts for nothing. */
  lemma ActorContended(s: System, a: nat, actor: Actor)
    requires Contended(s) && a < |s.actors| && s.actors[a].pc.Idle?
    requires !Racing(actor.pc) && !Uncounted(actor.pc) && !actor.pc.Counted?
    ensures Contended(s.(actors := s.actors[a := actor]))
  {
    ActorCounts(s.actors, a, actor);
  }

  lemma OtherContended(c: Settings, s: System, ev: Event)
    requires Enabled(s, ev) && !ev.Proceed? && !ev.Pop? && WithSelector(ev) && Contended(s) && Selective(s)
    ensures Contended(Step(c, s, ev)) && Selective(Step(c, s, ev))
  {
    var s' := Step(c, s, ev);
    if ev.Scan? || ev.Claim? || ev.ManualLock? || (ev.HandOff? && ev.fault) {
      assert s'.actors == s.actors[ev.actor := s'.actors[ev.actor]];
      ActorContended(s, ev.actor, s'.actors[ev.actor]);
    }
  }

  lemma PopContended(c: Settings, s: System, ev: Event)
    requires Enabled(s, ev) && ev.Pop? && Contended(s) && Selective(s)
    ensures Contended(Step(c, s, ev)) && Selective(Step(c, s, ev))
  {
    assert s.shared.tasks[0] in s.shared.tasks;
    ActorCounts(s.actors, ev.actor, Step(c, s, ev).actors[ev.actor]);
  }

  /**
   * With penalties on and a selector in every lock request, however commands interleave: automatic locks never
   * outnumber penalty increments, nor provider calls the users counted as locked, nor these the locks won.
   */
  lemma {:induction false} LocksNeverOutrunPenalties(c: Settings, events: seq<Event>, states: seq<System>,
                                                     roles: seq<Role>, i: nat)
    requires Execution(c, events, states, roles) && i < |states|
    requires c.penaltyEnabled && forall k | 0 <= k < |events| :: WithSelector(events[k])
    ensures Contended(states[i]) && Selective(states[i])
    ensures var l := states[i].shared.ledger;
            |l.autoWins| <= |l.bumps| && |l.providerLocks| <= l.usersLocked <= |l.autoWins| + |l.manualWins|
  {
    if i == 0 {
      CountIfZero(states[0].actors, IsRacing());
      CountIfZero(states[0].actors, IsUncounted());
      CountIfZero(states[0].actors, IsCounted());
    } else {
      LocksNeverOutrunPenalties(c, events, states, roles, i - 1);
      if events[i - 1].Proceed? {
        ProceedContended(c, states[i - 1], events[i - 1]);
      } else if events[i - 1].Pop? {
        PopContended(c, states[i - 1], events[i - 1]);
      } else {
        OtherContended(c, states[i - 1], events[i - 1]);
      }
    }
  }

  // ---------- one worker without faults ----------

  predicate Calm(ev: Event) {
    match ev
    case Claim(_, fault) => !fault
    case Proceed(_, fault, _) => !fault
    case HandOff(_, email, selector, fault) => !fault && email != "" && selector != ""
    case ManualLock(_, _) => false
    case _ => true
  }

  /**
   * Only actor `w` works on tasks, and nobody takes a lock between its look at the lock key and its attempt to set
   * it.
   */
  ghost predicate Alone(s: System, w: nat) {
    && (forall a | 0 <= a < |s.actors| && a != w ::
       !s.actors[a].role.Worker? && (s.actors[a].pc.Idle? || s.actors[a].pc.Claimed?))
    && (w < |s.actors| && s.actors[w].role.Worker?)
    && (forall t | t in s.shared.tasks && t.LockTask? :: t.email != "" && t.selector != "")
    && var pc := s.actors[w].pc;
       && !pc.Claimed?
       && (pc.LockStart? ==> pc.email != "" && pc.selector != "")
       && (pc.NeedPenalty? || pc.Bumped? || pc.Ready? ==> pc.email != "" && pc.email !in s.shared.locks)
       && (pc.Ready? ==> !pc.cause.Manual?)
       && |s.shared.ledger.autoWins| + One(Racing(pc)) == |s.shared.ledger.bumps|
  }

  lemma WorkAlone(c: Settings, s: Shared, pc: Pc, exceeding: bool)
    requires c.penaltyEnabled && !pc.Claimed?
    requires pc.LockStart? ==> pc.email != "" && pc.selector != ""
    requires pc.NeedPenalty? || pc.Bumped? || pc.Ready? ==> pc.email != "" && pc.email !in s.locks
    requires pc.Ready? ==> !pc.cause.Manual?
    requires |s.ledger.autoWins| + One(Racing(pc)) == |s.ledger.bumps|
    ensures var (s', pc') := Work(c, s, pc, false, exceeding);
            && !pc'.Claimed? && !pc'.LockStart? && s'.tasks == s.tasks
            && (pc'.NeedPenalty? || pc'.Bumped? || pc'.Ready? ==> pc'.email != "" && pc'.email !in s'.locks)
            && (pc'.Ready? ==> !pc'.cause.Manual?)
            && |s'.ledger.autoWins| + One(Racing(pc')) == |s'.ledger.bumps|
  {
  }

  lemma StepAlone(c: Settings, s: System, ev: Event, w: nat)
    requires c.penaltyEnabled && Enabled(s, ev) && Calm(ev) && Alone(s, w)
    ensures Alone(Step(c, s, ev), w)
  {
    if ev.Proceed? && ev.actor == w {
      WorkAlone(c, s.shared, s.actors[w].pc, ev.exceeding);
    } else if ev.Pop? {
      assert s.shared.tasks[0] in s.shared.tasks;
    }
  }

  /** With a single worker, no fault and no manual lock, every penalty increment is followed by exactly one lock won. */
  lemma {:induction false} SingleWorkerWinsEveryLock(c: Settings, events: seq<Event>, states: seq<System>,
                                                     roles: seq<Role>, w: nat, i: nat)
    requires Execution(c, events, states, roles) && i < |states| && c.penaltyEnabled
    requires w < |roles| && forall a | 0 <= a < |roles| :: (roles[a].Worker? <==> a == w)
    requires forall k | 0 <= k < |events| :: Calm(events[k])
    ensures Alone(states[i], w)
    ensures states[i].actors[w].pc.Idle? ==> |states[i].shared.ledger.autoWins| == |states[i].shared.ledger.bumps|
  {
    if i > 0 {
      SingleWorkerWinsEveryLock(c, events, states, roles, w, i - 1);
      StepAlone(c, states[i - 1], events[i - 1], w);
    }
  }

  // ---------- the penalty ladder ----------

  function Penalty(s: Shared, key: string): nat {
    if key in s.penalties then s.penalties[key] else 0
  }

  ghost predicate Climbing(c: Settings, s: Shared, key: string) {
    && |Ladder(s.ledger, key)| == Penalty(s, key)
    && forall k | 0 <= k < |Ladder(s.ledger, key)| :: Ladder(s.ledger, key)[k] == Rung(c, k + 1)
  }

  lemma IncrementClimbs(c: Settings, s: Shared, pc: Pc, key: string)
    requires Climbing(c, s, key) && pc.NeedPenalty?
    ensures Climbing(c, Work(c, s, pc, false, false).0, key)
  {
    var s' := Work(c, s, pc, false, false).0;
    assert Ladder(s'.ledger, key)
        == if key == Lower(pc.selector) then Ladder(s.ledger, key) + [Rung(c, Penalty(s, key) + 1)]
           else Ladder(s.ledger, key);
  }

  lemma WorkClimbs(c: Settings, s: Shared, pc: Pc, fault: bool, exceeding: bool, key: string)
    requires Climbing(c, s, key)
    ensures Climbing(c, Work(c, s, pc, fault, exceeding).0, key)
  {
    if pc.NeedPenalty? && !fault {
      IncrementClimbs(c, s, pc, key);
    } else if !pc.NeedPenalty? {
      WorkTouches(c, s, pc, fault, exceeding);
      SameLadderClimbs(c, s, Work(c, s, pc, fault, exceeding).0, key);
    }
  }

  lemma SameLadderClimbs(c: Settings, s: Shared, s': Shared, key: string)
    requires Climbing(c, s, key) && s'.penalties == s.penalties && s'.ledger.ladders == s.ledger.ladders
    ensures Climbing(c, s', key)
  {
  }

  lemma StepClimbs(c: Settings, s: System, ev: Event, key: string)
    requires Enabled(s, ev) && Climbing(c, s.shared, key)
    ensures Climbing(c, Step(c, s, ev).shared, key)
  {
    if ev.Proceed? {
      WorkClimbs(c, s.shared, s.actors[ev.actor].pc, ev.fault, ev.exceeding, key);
    }
  }

  /**
   * For every penalty key and every interleaving of workers, the k-th increment since the counter was last empty
   * gave the lock duration of the k-th step of the ladder, the last step from there on.
   */
  lemma {:induction false} LadderClimbed(c: Settings, events: seq<Event>, states: seq<System>, roles: seq<Role>,
                                         i: nat, key: string)
    requires Execution(c, events, states, roles) && i < |states|
    ensures var ladder, steps := Ladder(states[i].shared.ledger, key), Steps(c);
            && |ladder| == Penalty(states[i].shared, key)
            && forall k | 0 <= k < |ladder| :: ladder[k] == Max(1, steps[if k < |steps| then k else |steps| - 1])
  {
    RunClimbs(c, events, states, roles, i, key);
  }

  lemma {:induction false} RunClimbs(c: Settings, events: seq<Event>, states: seq<System>, roles: seq<Role>, i: nat,
                                     key: string)
    requires Execution(c, events, states, roles) && i < |states|
    ensures Climbing(c, states[i].shared, key)
  {
    if i > 0 {
      RunClimbs(c, events, states, roles, i - 1, key);
      StepClimbs(c, states[i - 1], events[i - 1], key);
    }
  }

  /** Steps that never get shorter make locks that never get shorter, until the penalty expires or is reset. */
  lemma LadderNeverShortens(c: Settings, events: seq<Event>, states: seq<System>, roles: seq<Role>, i: nat, key: string)
    requires Execution(c, events, states, roles) && i < |states| && Nondecreasing(Steps(c))
    ensures Nondecreasing(Ladder(states[i].shared.ledger, key))
  {
    LadderClimbed(c, events, states, roles, i, key);
  }
}
