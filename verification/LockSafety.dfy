/** Mutual exclusion by lock keys, over every interleaving: a lock is won only where no key is set. */
module LockSafety {
  import opened Prelude
  import opened AccountLocks

  function OfAccount(e: string): Win -> bool {
    (w: Win) => w.email == e
  }

  /** How often the account was locked so far, automatically or by hand. */
  function Wins(l: Ledger, e: string): nat {
    CountIf(l.autoWins, OfAccount(e)) + CountIf(l.manualWins, OfAccount(e))
  }

  lemma WinCounts(l: Ledger, w: Win, e: string)
    ensures Wins(WinCounted(l, w), e) == Wins(l, e) + One(w.email == e)
  {
    CountIfAppend(l.autoWins, w, OfAccount(e));
    CountIfAppend(l.manualWins, w, OfAccount(e));
  }

  lemma WorkWins(c: Settings, s: Shared, pc: Pc, fault: bool, exceeding: bool, e: string)
    ensures var (s', _) := Work(c, s, pc, fault, exceeding);
            && s.locks <= s'.locks
            && (Wins(s'.ledger, e) == Wins(s.ledger, e)
                || (Wins(s'.ledger, e) == Wins(s.ledger, e) + 1 && e !in s.locks && e in s'.locks))
  {
    WorkTouches(c, s, pc, fault, exceeding);
    if pc.Ready? {
      WinCounts(s.ledger, Win(pc.email, pc.duration, pc.cause), e);
    }
  }

  lemma StepWins(c: Settings, s: System, ev: Event, e: string)
    requires Enabled(s, ev)
    ensures var s' := Step(c, s, ev);
            && (e in s.shared.locks && e !in s'.shared.locks ==> ev == LockGone(e))
            && (Wins(s'.shared.ledger, e) == Wins(s.shared.ledger, e)
                || (Wins(s'.shared.ledger, e) == Wins(s.shared.ledger, e) + 1
                    && e !in s.shared.locks && e in s'.shared.locks))
  {
    if ev.Proceed? {
      WorkWins(c, s.shared, s.actors[ev.actor].pc, ev.fault, ev.exceeding, e);
    }
  }

  /** The event locks the account. */
  predicate LocksAt(states: seq<System>, k: nat, e: string)
    requires k + 1 < |states|
  {
    Wins(states[k + 1].shared.ledger, e) != Wins(states[k].shared.ledger, e)
  }

  /** An event that locks an account finds no key of it and leaves one; only expiry or deletion takes a key away. */
  lemma WonOnlyWhenFree(c: Settings, events: seq<Event>, states: seq<System>, roles: seq<Role>, k: nat, e: string)
    requires Execution(c, events, states, roles) && k < |events|
    ensures LocksAt(states, k, e) ==>
              && Wins(states[k + 1].shared.ledger, e) == Wins(states[k].shared.ledger, e) + 1
              && e !in states[k].shared.locks && e in states[k + 1].shared.locks
    ensures e in states[k].shared.locks && e !in states[k + 1].shared.locks ==> events[k] == LockGone(e)
  {
    assert Enabled(states[k], events[k]) && states[k + 1] == Step(c, states[k], events[k]);
    StepWins(c, states[k], events[k], e);
  }

  lemma {:induction false} KeyStays(c: Settings, events: seq<Event>, states: seq<System>, roles: seq<Role>, i: nat,
                                    j: nat, e: string)
    requires Execution(c, events, states, roles) && i <= j < |states| && e in states[i].shared.locks
    requires forall k | i <= k < j :: events[k] != LockGone(e)
    ensures e in states[j].shared.locks
  {
    if i < j {
      KeyStays(c, events, states, roles, i, j - 1, e);
      WonOnlyWhenFree(c, events, states, roles, j - 1, e);
    }
  }

  /** Between two locks of one account its key has expired or was deleted. */
  lemma KeyGoneBetweenLocks(c: Settings, events: seq<Event>, states: seq<System>, roles: seq<Role>, i: nat, j: nat,
                            e: string)
    requires Execution(c, events, states, roles) && i < j < |events| && LocksAt(states, i, e) && LocksAt(states, j, e)
    ensures exists k :: i < k < j && events[k] == LockGone(e)
  {
    WonOnlyWhenFree(c, events, states, roles, i, e);
    WonOnlyWhenFree(c, events, states, roles, j, e);
    if forall k | i + 1 <= k < j :: events[k] != LockGone(e) {
      KeyStays(c, events, states, roles, i + 1, j, e);
    }
  }

  // ---------- one schedule entry for each user counted as locked ----------

  lemma StepSchedules(c: Settings, s: System, ev: Event)
    requires Enabled(s, ev)
    ensures var l, l' := s.shared.ledger, Step(c, s, ev).shared.ledger;
            |l'.zadds| - |l.zadds| == l'.usersLocked - l.usersLocked
  {
  }

  /** Each user counted as locked got exactly one entry in the schedule of unlocks, and nothing else gets one. */
  lemma {:induction false} LockedMeansScheduled(c: Settings, events: seq<Event>, states: seq<System>,
                                                roles: seq<Role>, i: nat)
    requires Execution(c, events, states, roles) && i < |states|
    ensures |states[i].shared.ledger.zadds| == states[i].shared.ledger.usersLocked
  {
    if i > 0 {
      LockedMeansScheduled(c, events, states, roles, i - 1);
      assert Enabled(states[i - 1], events[i - 1]) && states[i] == Step(c, states[i - 1], events[i - 1]);
      StepSchedules(c, states[i - 1], events[i - 1]);
    }
  }

  // ---------- when penalties apply ----------

  predicate Penalises(c: Settings, pc: Pc) {
    && (pc.NeedPenalty? ==> c.penaltyEnabled && pc.selector != "")
    && (pc.Bumped? ==> c.penaltyEnabled)
  }

  ghost predicate Keyed(c: Settings, bumps: seq<Bump>) {
    forall k | 0 <= k < |bumps| :: c.penaltyEnabled && |bumps[k].key| > 0
  }

  ghost predicate PenaltiesInPlace(c: Settings, s: System) {
    && (forall a | 0 <= a < |s.actors| :: Penalises(c, s.actors[a].pc))
    && Keyed(c, s.shared.ledger.bumps)
  }

  lemma WorkPenalises(c: Settings, s: Shared, pc: Pc, fault: bool, exceeding: bool)
    requires Penalises(c, pc)
    ensures var (s', pc') := Work(c, s, pc, fault, exceeding);
            && Penalises(c, pc')
            && (Keyed(c, s.ledger.bumps) ==> Keyed(c, s'.ledger.bumps))
  {
    if pc.NeedPenalty? {
      assert |Lower(pc.selector)| == |pc.selector| > 0;
    }
  }

  lemma StepPenalises(c: Settings, s: System, ev: Event)
    requires Enabled(s, ev) && PenaltiesInPlace(c, s)
    ensures PenaltiesInPlace(c, Step(c, s, ev))
  {
    if ev.Proceed? {
      WorkPenalises(c, s.shared, s.actors[ev.actor].pc, ev.fault, ev.exceeding);
    } else {
      assert Step(c, s, ev).shared.ledger.bumps == s.shared.ledger.bumps;
    }
  }

  /** Penalty counters are incremented only when penalties are enabled, and only for a selector. */
  lemma {:induction false} PenaltiesOnlyWhenEnabled(c: Settings, events: seq<Event>, states: seq<System>,
                                                    roles: seq<Role>,
                                                    i: nat)
    requires Execution(c, events, states, roles) && i < |states|
    ensures PenaltiesInPlace(c, states[i])
    ensures !c.penaltyEnabled ==> states[i].shared.ledger.bumps == []
  {
    if i > 0 {
      PenaltiesOnlyWhenEnabled(c, events, states, roles, i - 1);
      assert Enabled(states[i - 1], events[i - 1]) && states[i] == Step(c, states[i - 1], events[i - 1]);
      StepPenalises(c, states[i - 1], events[i - 1]);
    }
  }
}
