/** An unlock that is put off, by an extension or for a retry, is never taken up again of its own accord. */
module PutOffUnlocks {
  import opened Prelude
  import opened AccountLocks
  import opened ScheduledUnlocks

  predicate Locking(pc: Pc, e: string) {
    (pc.LockStart? || pc.NeedPenalty? || pc.Bumped? || pc.Ready? || pc.Won? || pc.Described?) && pc.email == e
  }

  /** No lock of the account is in progress or on the task list. */
  ghost predicate NoLockNear(s: System, e: string) {
    && (forall a | 0 <= a < |s.actors| :: !Locking(s.actors[a].pc, e))
    && (forall t | t in s.shared.tasks && t.LockTask? :: t.email != e)
  }

  /** Nothing in sight will schedule an unlock of the account. */
  ghost predicate Dormant(s: System, e: string) {
    e !in s.shared.scheduled && NoLockNear(s, e)
  }

  predicate NewLockOf(ev: Event, e: string) {
    (ev.HandOff? || ev.ManualLock?) && ev.email == e
  }

  lemma WorkLeavesDormant(c: Settings, s: Shared, pc: Pc, fault: bool, exceeding: bool, e: string)
    requires !Locking(pc, e)
    ensures var (s', pc') := Work(c, s, pc, fault, exceeding);
            && !Locking(pc', e) && (e in s'.scheduled <==> e in s.scheduled)
            && (forall t | t in s'.tasks && t.LockTask? :: t in s.tasks)
            && s'.ledger.claims == s.ledger.claims
  {
  }

  lemma DormantKept(c: Settings, s: System, ev: Event, e: string)
    requires Enabled(s, ev) && Dormant(s, e) && !NewLockOf(ev, e)
    ensures Dormant(Step(c, s, ev), e)
    ensures Step(c, s, ev).shared.ledger.claims[e] == s.shared.ledger.claims[e]
  {
    if ev.Pop? {
      assert s.shared.tasks[0] in s.shared.tasks;
      assert forall t | t in s.shared.tasks[1..] :: t in s.shared.tasks;
    } else if ev.Proceed? {
      WorkLeavesDormant(c, s.shared, s.actors[ev.actor].pc, ev.fault, ev.exceeding, e);
    }
  }

  // ---------- an account whose unlock was put off ----------

  /** How the claimed unlocks of an account ended, in order. */
  function EndingsOf(ended: seq<Ending>, e: string): seq<Outcome> {
    if ended == [] then []
    else
      var last := ended[|ended| - 1];
      EndingsOf(ended[..|ended| - 1], e) + if last.email == e then [last.outcome] else []
  }

  lemma EndingsAppend(ended: seq<Ending>, x: Ending, e: string)
    ensures EndingsOf(ended + [x], e) == EndingsOf(ended, e) + if x.email == e then [x.outcome] else []
  {
    assert (ended + [x])[..|ended|] == ended;
  }

  /** The last unlock of the account ended with an extension or a retry mark. */
  predicate PutOff(l: Ledger, e: string) {
    var endings := EndingsOf(l.ended, e);
    endings != [] && !endings[|endings| - 1].Unlocked?
  }

  /** Every entry ever added was claimed, overwritten or taken out, and every claim has ended. */
  predicate BooksClosed(l: Ledger, e: string) {
    l.zadds[e] == l.claims[e] + l.overwritten[e] + l.removed[e] && l.claims[e] == EndedCount(l, e)
  }

  ghost predicate Settled(s: System, e: string) {
    BooksClosed(s.shared.ledger, e) && NoLockNear(s, e)
  }

  /** Nothing of the account is scheduled, on the task list or in anyone's hands. */
  ghost predicate Gone(s: System, e: string) {
    && Dormant(s, e)
    && (forall a | 0 <= a < |s.actors| :: !UnlockOf(s.actors[a].pc, e))
    && (forall t | t in s.shared.tasks :: t != UnlockTask(e))
  }

  /** In every reachable state the books tell the truth. */
  lemma SettledIsGone(s: System, e: string)
    requires Conserved(s, e) && Settled(s, e)
    ensures Gone(s, e)
  {
    CountIfZero(s.actors, Holds(e));
    CountIfZero(s.shared.tasks, IsUnlock(e));
    forall a | 0 <= a < |s.actors| ensures !UnlockOf(s.actors[a].pc, e) { assert !Holds(e)(s.actors[a]); }
    forall t | t in s.shared.tasks ensures t != UnlockTask(e) { assert !IsUnlock(e)(t); }
  }

  /** The command that ends an unlock with an extension or a retry. */
  predicate PutsOff(pc: Pc, fault: bool, e: string, o: Outcome) {
    (pc.Prolonged? || pc.Failed?) && pc.email == e
    && if pc.Prolonged? then !fault && o == Extended else o == Retry(!fault, pc.unlocked)
  }

  /** An extension or a retry of the last claim in sight leads there, unless a lock is near or an entry scheduled. */
  lemma PutOffSettles(c: Settings, s: System, ev: Event, e: string, o: Outcome)
    requires Enabled(s, ev) && ev.Proceed? && PutsOff(s.actors[ev.actor].pc, ev.fault, e, o)
    requires Accounted(s.shared, e) && Dormant(s, e)
    requires s.shared.ledger.claims[e] == EndedCount(s.shared.ledger, e) + 1
    ensures Settled(Step(c, s, ev), e) && PutOff(Step(c, s, ev).shared.ledger, e)
  {
    EndsWith(c, s, ev, e, o);
    EndingSettles(s.shared, e, o);
    DormantKept(c, s, ev, e);
  }

  lemma EndingSettles(s: Shared, e: string, o: Outcome)
    requires Accounted(s, e) && e !in s.scheduled && s.ledger.claims[e] == EndedCount(s.ledger, e) + 1 && !o.Unlocked?
    ensures var l := s.ledger.(ended := s.ledger.ended + [Ending(e, o)]); BooksClosed(l, e) && PutOff(l, e)
  {
    CountIfAppend(s.ledger.ended, Ending(e, o), EndingOf(e));
    EndingsAppend(s.ledger.ended, Ending(e, o), e);
  }

  lemma EndsWith(c: Settings, s: System, ev: Event, e: string, o: Outcome)
    requires Enabled(s, ev) && ev.Proceed? && PutsOff(s.actors[ev.actor].pc, ev.fault, e, o)
    ensures var l := s.shared.ledger; Step(c, s, ev).shared.ledger == l.(ended := l.ended + [Ending(e, o)])
  {
  }

  lemma WorkOnOthers(c: Settings, s: Shared, pc: Pc, fault: bool, exceeding: bool, e: string)
    requires !UnlockOf(pc, e) && !Locking(pc, e)
    ensures var (s', pc') := Work(c, s, pc, fault, exceeding);
            && !UnlockOf(pc', e) && !Locking(pc', e)
            && EndingsOf(s'.ledger.ended, e) == EndingsOf(s.ledger.ended, e)
            && (forall t | t in s'.tasks && t !in s.tasks :: t.UnlockTask? && t.email != e)
  {
    if Unlocking(pc) {
      UnlockingMovesOn(c, s, pc, fault, exceeding);
      var (s', pc') := Work(c, s, pc, fault, exceeding);
      if s'.ledger.ended != s.ledger.ended {
        var o :| s'.ledger.ended == s.ledger.ended + [Ending(pc.email, o)];
        EndingsAppend(s.ledger.ended, Ending(pc.email, o), e);
      }
    } else {
      LockingTouchesNoClaim(c, s, pc, fault, exceeding);
    }
  }

  lemma StepKeepsGone(c: Settings, s: System, ev: Event, e: string)
    requires Enabled(s, ev) && Gone(s, e) && !NewLockOf(ev, e)
    ensures Gone(Step(c, s, ev), e)
    ensures EndingsOf(Step(c, s, ev).shared.ledger.ended, e) == EndingsOf(s.shared.ledger.ended, e)
  {
    DormantKept(c, s, ev, e);
    if ev.Proceed? {
      WorkOnOthers(c, s.shared, s.actors[ev.actor].pc, ev.fault, ev.exceeding, e);
    } else if ev.Pop? {
      assert s.shared.tasks[0] in s.shared.tasks;
      assert forall t | t in s.shared.tasks[1..] :: t in s.shared.tasks;
    }
  }

  /**
   * An extended or retried unlock is final. Once the books of an account are settled, no poller claims it and no
   * unlock of it ends, whatever happens, until some new lock of that account begins: if its last unlock was put off,
   * it stays put off, and the provider is never asked again.
   */
  lemma {:induction false} PutOffIsFinal(c: Settings, events: seq<Event>, states: seq<System>, roles: seq<Role>,
                                         i: nat, j: nat,
                                         e: string)
    requires Execution(c, events, states, roles) && i <= j < |states|
    requires Settled(states[i], e) && forall k | i <= k < j :: !NewLockOf(events[k], e)
    ensures Gone(states[j], e)
    ensures states[j].shared.ledger.claims[e] == states[i].shared.ledger.claims[e]
    ensures EndingsOf(states[j].shared.ledger.ended, e) == EndingsOf(states[i].shared.ledger.ended, e)
    ensures PutOff(states[i].shared.ledger, e) ==> PutOff(states[j].shared.ledger, e)
  {
    if i == j {
      UnlocksConserved(c, events, states, roles, i, e);
      SettledIsGone(states[i], e);
    } else {
      PutOffIsFinal(c, events, states, roles, i, j - 1, e);
      assert Enabled(states[j - 1], events[j - 1]) && states[j] == Step(c, states[j - 1], events[j - 1]);
      DormantKept(c, states[j - 1], events[j - 1], e);
      StepKeepsGone(c, states[j - 1], events[j - 1], e);
    }
  }

  // ---------- a run that gets there ----------

  const ROLES := [Poller, Worker, Requester]

  lemma Extend(c: Settings, events: seq<Event>, states: seq<System>, e: Event)
    requires Execution(c, events, states, ROLES) && Enabled(states[|events|], e)
    ensures Execution(c, events + [e], states + [Step(c, states[|events|], e)], ROLES)
  {
  }

  lemma Append(c: Settings, events: seq<Event>, states: seq<System>, e: Event, next: System)
    returns (events': seq<Event>, states': seq<System>)
    requires Execution(c, events, states, ROLES) && Enabled(states[|events|], e) && next == Step(c, states[|events|], e)
    ensures Execution(c, events', states', ROLES) && |events'| == |events| + 1 && states'[|events'|] == next
  {
    Extend(c, events, states, e);
    events', states' := events + [e], states + [next];
  }

  /** The three actors idle, except that one of them has got to `pc`. */
  function Actors(a: nat, pc: Pc, items: seq<string>): seq<Actor>
    requires a < 3
  {
    [Actor(Poller, Idle, []), Actor(Worker, Idle, []), Actor(Requester, Idle, [])][a := Actor(ROLES[a], pc, items)]
  }

  function OneWin(c: Settings, u: string): seq<Win> {
    [Win(u, DefaultDuration(c), Unpenalised)]
  }

  /** A request over its limit has a worker set the lock key ... */
  lemma LockIsWon(c: Settings, u: string) returns (events: seq<Event>, states: seq<System>)
    requires u != ""
    ensures Execution(c, events, states, ROLES)
    ensures var s := Initial(ROLES).shared;
            states[|events|] == System(s.(locks := {u}, ledger := s.ledger.(autoWins := OneWin(c, u))),
                                       Actors(1, Won(u, DefaultDuration(c)), []))
  {
    var s, d := Initial(ROLES), DefaultDuration(c);
    events, states := [], [s];
    assert s.actors == Actors(0, Idle, []);
    var sh := s.shared;
    events, states := Append(c, events, states, HandOff(2, u, "", false),
                             System(sh.(tasks := [LockTask(u, "")]), Actors(0, Idle, [])));
    events, states := Append(c, events, states, Pop(1), System(sh, Actors(1, LockStart(u, ""), [])));
    events, states := Append(c, events, states, Proceed(1, false, false), System(sh, Actors(1, Ready(u, d,
               Unpenalised), [])));
    var won := sh.(locks := {u}, ledger := sh.ledger.(autoWins := OneWin(c, u)));
    events, states := Append(c, events, states, Proceed(1, false, false), System(won, Actors(1, Won(u, d), [])));
  }

  /** The database and the books once the account is locked and its unlock scheduled. */
  function Locked(c: Settings, u: string): Shared {
    var s := Initial(ROLES).shared;
    s.(locks := {u}, scheduled := {u},
       ledger := s.ledger.(zadds := multiset{u}, autoWins := OneWin(c, u), usersLocked := 1,
                  providerLocks := multiset{u}))
  }

  /** ... and schedule the unlock. */
  lemma LockHappens(c: Settings, u: string) returns (events: seq<Event>, states: seq<System>)
    requires u != ""
    ensures Execution(c, events, states, ROLES)
    ensures states[|events|] == System(Locked(c, u), Actors(0, Idle, []))
  {
    events, states := LockIsWon(c, u);
    var won, d := states[|events|].shared, DefaultDuration(c);
    events, states := Append(c, events, states, Proceed(1, false, false), System(won, Actors(1, Described(u, d), [])));
    var counted := Locked(c, u).(ledger := Locked(c, u).ledger.(providerLocks := multiset{}));
    events, states := Append(c, events, states, Proceed(1, false, false), System(counted, Actors(1, Counted(u), [])));
    events, states := Append(c, events, states, Proceed(1, false, false), System(Locked(c, u), Actors(0, Idle, [])));
  }

  function Taken(c: Settings, u: string): Shared {
    Locked(c, u).(scheduled := {}, ledger := Locked(c, u).ledger.(claims := multiset{u}))
  }

  /** The unlock falls due and reaches a worker. */
  lemma UnlockIsTaken(c: Settings, u: string) returns (events: seq<Event>, states: seq<System>)
    requires u != ""
    ensures Execution(c, events, states, ROLES)
    ensures states[|events|] == System(Taken(c, u), Actors(1, UnlockStart(u), []))
  {
    events, states := LockHappens(c, u);
    assert forall x | x in [u] :: x in Locked(c, u).scheduled;
    events, states := Append(c, events, states, Scan(0, [u]), System(Locked(c, u), Actors(0, Idle, [u])));
    assert Locked(c, u).scheduled - {u} == {} && [u][1..] == [];
    assert Locked(c, u).ledger.claims + multiset{u} == multiset{u};
    events, states := Append(c, events, states, Claim(0, false), System(Taken(c, u), Actors(0, Claimed(u), [])));
    var listed := Taken(c, u).(tasks := [UnlockTask(u)]);
    events, states := Append(c, events, states, Proceed(0, false, false), System(listed, Actors(0, Idle, [])));
    events, states := Append(c, events, states, Pop(1), System(Taken(c, u), Actors(1, UnlockStart(u), [])));
  }

  /**
   * The recheck finds the account still exceeding, the extended lock key runs out: the account is no longer locked
   * in Redis, and by `PutOffIsFinal` the provider is not asked to unlock it.
   */
  lemma PutOffHappens(c: Settings, u: string) returns (events: seq<Event>, states: seq<System>)
    requires u != ""
    ensures Execution(c, events, states, ROLES)
    ensures var s := states[|events|];
            && Settled(s, u) && PutOff(s.shared.ledger, u) && EndingsOf(s.shared.ledger.ended, u) == [Extended]
            && u !in s.shared.locks && s.shared.ledger.providerLocks == multiset{u}
            && s.shared.ledger.providerUnlocks == multiset{}
  {
    events, states := UnlockIsTaken(c, u);
    var sh := Taken(c, u);
    events, states := Append(c, events, states, Proceed(1, false, true), System(sh, Actors(1, Exceeding(u), [])));
    events, states := Append(c, events, states, Proceed(1, false, true), System(sh, Actors(1, Prolonged(u), [])));
    var ended := sh.(ledger := sh.ledger.(ended := [Ending(u, Extended)]));
    events, states := Append(c, events, states, Proceed(1, false, true), System(ended, Actors(0, Idle, [])));
    events, states := Append(c, events, states, LockGone(u), System(ended.(locks := {}), Actors(0, Idle, [])));
    OneEnding(u);
  }

  lemma OneEnding(u: string)
    ensures EndingsOf([Ending(u, Extended)], u) == [Extended] && CountIf([Ending(u, Extended)], EndingOf(u)) == 1
  {
    assert [Ending(u, Extended)] == [] + [Ending(u, Extended)];
    CountIfAppend([], Ending(u, Extended), EndingOf(u));
    EndingsAppend([], Ending(u, Extended), u);
  }
}
