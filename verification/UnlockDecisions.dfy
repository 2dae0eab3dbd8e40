/** What decides how a due unlock ends: the finding of the recheck, in every interleaving. */
module UnlockDecisions {
  import opened Prelude
  import opened AccountLocks
  import opened Limits
  import L = Limiter
  import P = PolicyHandling
  import R = Recheck

  /** Event `k` is the recheck by actor `a` of an unlock of `e`, with this finding. */
  predicate Rechecks(events: seq<Event>, states: seq<System>, k: nat, a: nat, e: string, exceeding: bool) {
    && k < |events| && k < |states| && a < |states[k].actors|
    && events[k] == Proceed(a, false, exceeding) && states[k].actors[a].pc == UnlockStart(e)
  }

  /** The last recheck of actor `a` before state `i` had this finding. */
  ghost predicate Found(events: seq<Event>, states: seq<System>, i: nat, a: nat, e: string, exceeding: bool)
    requires i < |states|
  {
    exists k: nat :: k < i && Rechecks(events, states, k, a, e, exceeding) && NotAgain(states, k, i, a)
  }

  ghost predicate NotAgain(states: seq<System>, k: nat, i: nat, a: nat)
    requires i < |states|
  {
    forall m | k < m <= i :: a < |states[m].actors| && !states[m].actors[a].pc.UnlockStart?
  }

  predicate PuttingOff(pc: Pc) {
    pc.Exceeding? || pc.Prolonged?
  }

  predicate LettingGo(pc: Pc) {
    pc.Cleared? || pc.Provided? || (pc.Failed? && pc.unlocked)
  }

  ghost predicate Justified(events: seq<Event>, states: seq<System>, i: nat, a: nat)
    requires i < |states| && a < |states[i].actors|
  {
    var pc := states[i].actors[a].pc;
    && (PuttingOff(pc) ==> Found(events, states, i, a, pc.email, true))
    && (LettingGo(pc) ==> Found(events, states, i, a, pc.email, false))
  }

  /** An actor gets into one of the two branches at its recheck, and only there. */
  lemma WorkBranches(c: Settings, s: Shared, pc: Pc, fault: bool, exceeding: bool)
    ensures var (_, pc') := Work(c, s, pc, fault, exceeding);
            && (PuttingOff(pc') ==>
                  pc'.email == pc.email && (PuttingOff(pc) || (pc.UnlockStart? && !fault && exceeding)))
            && (LettingGo(pc') ==>
                  pc'.email == pc.email && (LettingGo(pc) || (pc.UnlockStart? && !fault && !exceeding)))
  {
  }

  lemma StepBranches(c: Settings, s: System, ev: Event, a: nat)
    requires Enabled(s, ev) && a < |s.actors|
    ensures var s' := Step(c, s, ev);
            && |s'.actors| == |s.actors|
            && var pc, pc' := s.actors[a].pc, s'.actors[a].pc;
               && (ev.Proceed? && ev.actor == a ==> pc' == Work(c, s.shared, pc, ev.fault, ev.exceeding).1)
               && (PuttingOff(pc') || LettingGo(pc') ==> pc' == pc || (ev.Proceed? && ev.actor == a))
  {
  }

  lemma FoundLater(events: seq<Event>, states: seq<System>, i: nat, a: nat, e: string, exceeding: bool)
    requires i + 1 < |states| && Found(events, states, i, a, e, exceeding)
    requires a < |states[i + 1].actors| && !states[i + 1].actors[a].pc.UnlockStart?
    ensures Found(events, states, i + 1, a, e, exceeding)
  {
    var k: nat :| k < i && Rechecks(events, states, k, a, e, exceeding) && NotAgain(states, k, i, a);
    assert NotAgain(states, k, i + 1, a);
  }

  lemma FoundNow(events: seq<Event>, states: seq<System>, i: nat, a: nat, e: string, exceeding: bool)
    requires i + 1 < |states| && Rechecks(events, states, i, a, e, exceeding)
    requires a < |states[i + 1].actors| && !states[i + 1].actors[a].pc.UnlockStart?
    ensures Found(events, states, i + 1, a, e, exceeding)
  {
    assert NotAgain(states, i, i + 1, a);
  }

  lemma JustifiedKept(c: Settings, events: seq<Event>, states: seq<System>, roles: seq<Role>, i: nat, a: nat)
    requires Execution(c, events, states, roles) && i < |events|
    requires a < |states[i].actors| && Justified(events, states, i, a)
    ensures a < |states[i + 1].actors| && Justified(events, states, i + 1, a)
  {
    var ev, pc := events[i], states[i].actors[a].pc;
    assert Enabled(states[i], ev) && states[i + 1] == Step(c, states[i], ev);
    StepBranches(c, states[i], ev, a);
    var pc' := states[i + 1].actors[a].pc;
    if PuttingOff(pc') || LettingGo(pc') {
      if ev.Proceed? && ev.actor == a {
        WorkBranches(c, states[i].shared, pc, ev.fault, ev.exceeding);
        if pc.UnlockStart? {
          FoundNow(events, states, i, a, pc.email, ev.exceeding);
        } else {
          FoundLater(events, states, i, a, pc.email, PuttingOff(pc));
        }
      } else {
        FoundLater(events, states, i, a, pc.email, PuttingOff(pc));
      }
    }
  }

  lemma {:induction false} RunJustified(c: Settings, events: seq<Event>, states: seq<System>, roles: seq<Role>,
                                        i: nat, a: nat)
    requires Execution(c, events, states, roles) && i < |states| && a < |roles|
    ensures a < |states[i].actors| && Justified(events, states, i, a)
  {
    if i > 0 {
      RunJustified(c, events, states, roles, i - 1, a);
      JustifiedKept(c, events, states, roles, i - 1, a);
    }
  }

  /** Event `i` ends an unlock of `e` in this way. */
  predicate Ends(events: seq<Event>, states: seq<System>, i: nat, e: string, o: Outcome) {
    && i < |events| && i + 1 < |states|
    && states[i + 1].shared.ledger.ended == states[i].shared.ledger.ended + [Ending(e, o)]
  }

  lemma WorkEnds(c: Settings, s: Shared, pc: Pc, fault: bool, exceeding: bool, e: string, o: Outcome)
    requires Work(c, s, pc, fault, exceeding).0.ledger.ended == s.ledger.ended + [Ending(e, o)]
    ensures pc.email == e
    ensures o == Extended ==> PuttingOff(pc)
    ensures o == Unlocked || (o.Retry? && o.unlocked) ==> LettingGo(pc)
  {
    assert (s.ledger.ended + [Ending(e, o)])[|s.ledger.ended|] == Ending(e, o);
  }

  /**
   * In every interleaving an unlock ends as an extension only when its recheck found the account still exceeding, and
   * the account is unlocked, or was unlocked before something raised, only when it did not.
   */
  lemma EndingFollowsRecheck(c: Settings, events: seq<Event>, states: seq<System>, roles: seq<Role>, i: nat, e: string,
                             o: Outcome)
    requires Execution(c, events, states, roles) && Ends(events, states, i, e, o)
    ensures events[i].Proceed?
    ensures var a := events[i].actor;
            && (o == Extended ==> Found(events, states, i, a, e, true))
            && (o == Unlocked || (o.Retry? && o.unlocked) ==> Found(events, states, i, a, e, false))
  {
    var ev, ended := events[i], states[i].shared.ledger.ended;
    assert Enabled(states[i], ev) && states[i + 1] == Step(c, states[i], ev);
    assert |states[i + 1].shared.ledger.ended| == |ended| + 1;
    ActorsStay(c, events, states, roles, i);
    var a := ev.actor;
    RunJustified(c, events, states, roles, i, a);
    WorkEnds(c, states[i].shared, states[i].actors[a].pc, ev.fault, ev.exceeding, e, o);
  }

  lemma {:induction false} ActorsStay(c: Settings, events: seq<Event>, states: seq<System>, roles: seq<Role>, i: nat)
    requires Execution(c, events, states, roles) && i < |states|
    ensures |states[i].actors| == |roles|
  {
    if i > 0 {
      ActorsStay(c, events, states, roles, i - 1);
      assert Enabled(states[i - 1], events[i - 1]) && states[i] == Step(c, states[i - 1], events[i - 1]);
    }
  }

  // ---------- calls of the provider ----------

  function AfterUnlock(e: string): Ending -> bool {
    (x: Ending) => x.email == e && (x.outcome == Unlocked || (x.outcome.Retry? && x.outcome.unlocked))
  }

  predicate HasUnlocked(pc: Pc, e: string) {
    (pc.Provided? || (pc.Failed? && pc.unlocked)) && pc.email == e
  }

  function UnlockedBy(e: string): Actor -> bool {
    (x: Actor) => HasUnlocked(x.pc, e)
  }

  ghost predicate UnlockCalls(s: System, e: string) {
    s.shared.ledger.providerUnlocks[e]
    == CountIf(s.shared.ledger.ended, AfterUnlock(e)) + CountIf(s.actors, UnlockedBy(e))
  }

  lemma EndingCounts(ended: seq<Ending>, x: Ending, e: string)
    ensures CountIf(ended + [x], AfterUnlock(e)) == CountIf(ended, AfterUnlock(e)) + One(AfterUnlock(e)(x))
  {
    CountIfAppend(ended, x, AfterUnlock(e));
  }

  lemma WorkUnlockCalls(c: Settings, s: Shared, pc: Pc, fault: bool, exceeding: bool, e: string)
    ensures var (s', pc') := Work(c, s, pc, fault, exceeding);
            s'.ledger.providerUnlocks[e] - CountIf(s'.ledger.ended, AfterUnlock(e)) - One(HasUnlocked(pc', e))
            == s.ledger.providerUnlocks[e] - CountIf(s.ledger.ended, AfterUnlock(e)) - One(HasUnlocked(pc, e))
  {
    WorkTouches(c, s, pc, fault, exceeding);
    if pc.Prolonged? {
      EndingCounts(s.ledger.ended, Ending(pc.email, Extended), e);
    } else if pc.Provided? {
      EndingCounts(s.ledger.ended, Ending(pc.email, Unlocked), e);
    } else if pc.Failed? {
      EndingCounts(s.ledger.ended, Ending(pc.email, Retry(!fault, pc.unlocked)), e);
    }
  }

  lemma StepUnlockCalls(c: Settings, s: System, ev: Event, e: string)
    requires Enabled(s, ev) && UnlockCalls(s, e)
    ensures UnlockCalls(Step(c, s, ev), e)
  {
    var s' := Step(c, s, ev);
    if ev.Proceed? {
      WorkUnlockCalls(c, s.shared, s.actors[ev.actor].pc, ev.fault, ev.exceeding, e);
      CountIfUpdate(s.actors, ev.actor, s'.actors[ev.actor], UnlockedBy(e));
    } else if ev.Scan? || ev.Claim? || ev.Pop? || ev.ManualLock? || (ev.HandOff? && ev.fault) {
      assert s'.actors == s.actors[ev.actor := s'.actors[ev.actor]];
      CountIfUpdate(s.actors, ev.actor, s'.actors[ev.actor], UnlockedBy(e));
    }
  }

  /** The provider's unlocks of an account are those that ended as such, or raised or wait to end after that call. */
  lemma {:induction false} ProviderUnlocksConserved(c: Settings, events: seq<Event>, states: seq<System>,
                                                    roles: seq<Role>,
                                                    i: nat, e: string)
    requires Execution(c, events, states, roles) && i < |states|
    ensures UnlockCalls(states[i], e)
  {
    if i == 0 {
      CountIfZero(states[0].actors, UnlockedBy(e));
    } else {
      ProviderUnlocksConserved(c, events, states, roles, i - 1, e);
      assert Enabled(states[i - 1], events[i - 1]) && states[i] == Step(c, states[i - 1], events[i - 1]);
      StepUnlockCalls(c, states[i - 1], events[i - 1], e);
    }
  }

  // ---------- the finding itself ----------

  /** What is kept beside a lock: under whom and under which limits the account was found out. */
  datatype LockMetadata = LockMetadata(selector: string, limits: seq<RateLimit>)

  function RecheckedLimits(metadata: Option<LockMetadata>, defaultQuota: seq<RateLimit>): seq<RateLimit> {
    if metadata.Some? && metadata.value.limits != [] then metadata.value.limits else defaultQuota
  }

  function RecheckedSelector(metadata: Option<LockMetadata>, email: string): string {
    if metadata.Some? && metadata.value.selector != "" then metadata.value.selector else email
  }

  /**
   * A due unlock with its recheck: left to itself and without faults it is put off, under a renewed key, exactly when
   * some bounded limit kept with the lock, or of the default quota, is still used up; otherwise the provider unlocks.
   */
  method UnlockWhenDue(handler: P.PolicyHandler, limiter: L.RateLimiter, email: string, metadata: Option<LockMetadata>,
                       defaultQuota: seq<RateLimit>, clock: seq<nat>, faults: seq<bool>)
    requires |clock| == |RecheckedLimits(metadata, defaultQuota)| && |faults| >= 4
    modifies handler
    ensures !faults[0] && !faults[1] && !faults[2] ==>
              if R.StillExceeding(limiter.redis.db, RecheckedSelector(metadata, email), RecheckedLimits(metadata,
                         defaultQuota), clock)
              then handler.ledger.ended == old(handler.ledger.ended) + [Ending(email, Extended)]
                   && handler.locks == old(handler.locks) + {email}
                   && handler.ledger.providerUnlocks == old(handler.ledger.providerUnlocks)
              else handler.ledger.ended == old(handler.ledger.ended) + [Ending(email, Unlocked)]
                   && handler.locks == old(handler.locks)
                   && handler.ledger.providerUnlocks == old(handler.ledger.providerUnlocks) + multiset{email}
  {
    var selector := if metadata.Some? then Some(metadata.value.selector) else Some(email);
    var limits := if metadata.Some? then metadata.value.limits else [];
    var exceeding := R.IsStillExceedingLimit(limiter, email, selector, limits, defaultQuota, clock);
    handler.ProcessUnlockEvent(email, faults, exceeding);
  }
}
