/**
 * How long a won lock runs: each automatic lock is paid for by a penalty increment of its own, and runs for its rung.
 */
module LockDurations {
  import opened Prelude
  import opened AccountLocks

  /** A lock on its way that will use up increment `n`. */
  predicate Uses(pc: Pc, n: nat) {
    (pc.Bumped? && pc.increment == n) || (pc.Ready? && pc.cause == Penalised(n))
  }

  function IsUsing(n: nat): Actor -> bool {
    (a: Actor) => Uses(a.pc, n)
  }

  function UsedBy(n: nat): Win -> bool {
    (w: Win) => w.cause == Penalised(n)
  }

  /** The duration is the one that the increment gave, or the default where penalties are out of play. */
  predicate RightDuration(c: Settings, l: Ledger, duration: int, cause: Cause) {
    match cause
    case Penalised(n) => n < |l.bumps| && duration == Rung(c, l.bumps[n].count)
    case _ => duration == DefaultDuration(c)
  }

  predicate RightSoFar(c: Settings, l: Ledger, pc: Pc) {
    && (pc.Bumped? ==> pc.increment < |l.bumps| && l.bumps[pc.increment].count == pc.count)
    && (pc.Ready? ==> RightDuration(c, l, pc.duration, pc.cause))
  }

  ghost predicate Durations(c: Settings, s: System) {
    && (forall a | 0 <= a < |s.actors| :: RightSoFar(c, s.shared.ledger, s.actors[a].pc))
    && (forall k | 0 <= k < |s.shared.ledger.autoWins| ::
          var w := s.shared.ledger.autoWins[k]; RightDuration(c, s.shared.ledger, w.duration, w.cause))
  }

  /** An increment is used at most once, and none before it happens. */
  ghost predicate UsedOnce(s: System, n: nat) {
    CountIf(s.actors, IsUsing(n)) + CountIf(s.shared.ledger.autoWins, UsedBy(n)) <= One(n < |s.shared.ledger.bumps|)
  }

  lemma WorkPays(c: Settings, s: Shared, pc: Pc, fault: bool, exceeding: bool)
    requires RightSoFar(c, s.ledger, pc)
    ensures var (s', pc') := Work(c, s, pc, fault, exceeding);
            && s.ledger.bumps <= s'.ledger.bumps && RightSoFar(c, s'.ledger, pc')
            && (s'.ledger.autoWins == s.ledger.autoWins
                || (pc.Ready? && !pc.cause.Manual?
                    && s'.ledger.autoWins == s.ledger.autoWins + [Win(pc.email, pc.duration, pc.cause)]))
  {
  }

  lemma WorkUses(c: Settings, s: Shared, pc: Pc, fault: bool, exceeding: bool, n: nat)
    requires One(Uses(pc, n)) + CountIf(s.ledger.autoWins, UsedBy(n)) <= One(n < |s.ledger.bumps|)
    ensures var (s', pc') := Work(c, s, pc, fault, exceeding);
            One(Uses(pc', n)) + CountIf(s'.ledger.autoWins, UsedBy(n)) - One(n < |s'.ledger.bumps|)
            <= One(Uses(pc, n)) + CountIf(s.ledger.autoWins, UsedBy(n)) - One(n < |s.ledger.bumps|)
  {
    if pc.Ready? {
      CountIfAppend(s.ledger.autoWins, Win(pc.email, pc.duration, pc.cause), UsedBy(n));
    }
  }

  lemma LongerBumps(c: Settings, l: Ledger, l': Ledger, duration: int, cause: Cause)
    requires RightDuration(c, l, duration, cause) && l.bumps <= l'.bumps
    ensures RightDuration(c, l', duration, cause)
  {
  }

  lemma ActorUses(actors: seq<Actor>, a: nat, actor: Actor, n: nat)
    requires a < |actors|
    ensures CountIf(actors[a := actor], IsUsing(n)) + One(Uses(actors[a].pc, n))
            == CountIf(actors, IsUsing(n)) + One(Uses(actor.pc, n))
    ensures One(Uses(actors[a].pc, n)) <= CountIf(actors, IsUsing(n))
  {
    CountIfUpdate(actors, a, actor, IsUsing(n));
    CountIfZero(actors, IsUsing(n));
  }

  lemma ProceedPays(c: Settings, s: System, ev: Event)
    requires Enabled(s, ev) && ev.Proceed? && Durations(c, s)
    ensures Durations(c, Step(c, s, ev))
  {
    var s', pc := Step(c, s, ev), s.actors[ev.actor].pc;
    var l, l' := s.shared.ledger, s'.shared.ledger;
    WorkPays(c, s.shared, pc, ev.fault, ev.exceeding);
    forall k | 0 <= k < |l'.autoWins| ensures RightDuration(c, l', l'.autoWins[k].duration, l'.autoWins[k].cause) {
      if k < |l.autoWins| {
        LongerBumps(c, l, l', l.autoWins[k].duration, l.autoWins[k].cause);
      } else {
        LongerBumps(c, l, l', pc.duration, pc.cause);
      }
    }
  }

  lemma ProceedUses(c: Settings, s: System, ev: Event, n: nat)
    requires Enabled(s, ev) && ev.Proceed? && UsedOnce(s, n)
    ensures UsedOnce(Step(c, s, ev), n)
  {
    var pc := s.actors[ev.actor].pc;
    var (sh, pc') := Work(c, s.shared, pc, ev.fault, ev.exceeding);
    ActorUses(s.actors, ev.actor, s.actors[ev.actor].(pc := pc'), n);
    WorkUses(c, s.shared, pc, ev.fault, ev.exceeding, n);
  }

  /** No other event touches a lock on its way, an increment or a win. */
  lemma OtherPays(c: Settings, s: System, ev: Event)
    requires Enabled(s, ev) && !ev.Proceed? && Durations(c, s)
    ensures Durations(c, Step(c, s, ev))
  {
  }

  lemma OtherUses(c: Settings, s: System, ev: Event, n: nat)
    requires Enabled(s, ev) && !ev.Proceed? && UsedOnce(s, n)
    ensures UsedOnce(Step(c, s, ev), n)
  {
    var s' := Step(c, s, ev);
    if ev.Scan? || ev.Claim? || ev.Pop? || ev.ManualLock? || (ev.HandOff? && ev.fault) {
      assert s'.actors == s.actors[ev.actor := s'.actors[ev.actor]];
      ActorUses(s.actors, ev.actor, s'.actors[ev.actor], n);
    }
  }

  lemma {:induction false} RunPays(c: Settings, events: seq<Event>, states: seq<System>, roles: seq<Role>, i: nat)
    requires Execution(c, events, states, roles) && i < |states|
    ensures Durations(c, states[i])
  {
    if i > 0 {
      RunPays(c, events, states, roles, i - 1);
      if events[i - 1].Proceed? {
        ProceedPays(c, states[i - 1], events[i - 1]);
      } else {
        OtherPays(c, states[i - 1], events[i - 1]);
      }
    }
  }

  lemma {:induction false} RunUses(c: Settings, events: seq<Event>, states: seq<System>, roles: seq<Role>, i: nat,
                                   n: nat)
    requires Execution(c, events, states, roles) && i < |states|
    ensures UsedOnce(states[i], n)
  {
    if i == 0 {
      CountIfZero(states[0].actors, IsUsing(n));
    } else {
      RunUses(c, events, states, roles, i - 1, n);
      if events[i - 1].Proceed? {
        ProceedUses(c, states[i - 1], events[i - 1], n);
      } else {
        OtherUses(c, states[i - 1], events[i - 1], n);
      }
    }
  }

  /**
   * In every interleaving each lock won after a penalty increment runs for the rung of that increment, any other
   * automatic lock for the default duration, and no two locks are won with the same increment.
   */
  lemma LocksRunForTheirRungs(c: Settings, events: seq<Event>, states: seq<System>, roles: seq<Role>, i: nat)
    requires Execution(c, events, states, roles) && i < |states|
    ensures var l := states[i].shared.ledger;
            && (forall k | 0 <= k < |l.autoWins| :: RightDuration(c, l, l.autoWins[k].duration, l.autoWins[k].cause))
            && (forall j, k | 0 <= j < k < |l.autoWins| && l.autoWins[j].cause.Penalised? ::
                  l.autoWins[j].cause != l.autoWins[k].cause)
  {
    var l := states[i].shared.ledger;
    RunPays(c, events, states, roles, i);
    forall j, k | 0 <= j < k < |l.autoWins| && l.autoWins[j].cause.Penalised?
      ensures l.autoWins[j].cause != l.autoWins[k].cause
    {
      var n := l.autoWins[j].cause.increment;
      RunUses(c, events, states, roles, i, n);
      if l.autoWins[j].cause == l.autoWins[k].cause {
        CountIfTwo(l.autoWins, j, k, UsedBy(n));
      }
    }
  }
}
