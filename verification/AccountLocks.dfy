/**
 * Account locks, the penalty ladder and scheduled unlocks, one Redis command at a time. Pollers claim due unlocks,
 * workers serve the shared task list, and requests hand off locks or carry them out themselves when the list cannot
 * be reached; any of their commands may be interleaved, and any may fail without effect.
 */
module AccountLocks {
  import opened Prelude

  datatype Settings = Settings(lockDuration: int, penaltyEnabled: bool, steps: seq<int>)

  function DefaultDuration(c: Settings): int {
    Max(1, c.lockDuration)
  }

  function Steps(c: Settings): seq<int> {
    if c.steps == [] then [DefaultDuration(c)] else c.steps
  }

  /** The duration of a lock for the `count`-th penalty since the counter was last empty. */
  function Rung(c: Settings, count: nat): int {
    var last := |Steps(c)| - 1;
    var index := if Max(count - 1, 0) <= last then Max(count - 1, 0) else last;
    Max(1, Steps(c)[index])
  }

  datatype Task = LockTask(email: string, selector: string) | NotifyTask | UnlockTask(email: string)

  /** How the processing of a claimed unlock ended; `unlocked` says whether the provider had already unlocked. */
  datatype Outcome = Unlocked | Extended | Retry(marked: bool, unlocked: bool)

  datatype Ending = Ending(email: string, outcome: Outcome)

  /** One increment of a penalty counter, and the count that it returned. Increments are numbered as they happen. */
  datatype Bump = Bump(key: string, count: nat)

  /** Why an account is locked: by hand, automatically with penalties out of play, or after a numbered increment. */
  datatype Cause = Manual | Unpenalised | Penalised(increment: nat)

  /** A lock key that was set, with its time to live. */
  datatype Win = Win(email: string, duration: int, cause: Cause)

  /**
   * What has happened so far, counted; no command reads it. `overwritten` are the entries of the schedule that were
   * there already when added again, `removed` those that an operator took out.
   */
  datatype Ledger = Ledger(
    zadds: multiset<string>, overwritten: multiset<string>, removed: multiset<string>, claims: multiset<string>,
    ended: seq<Ending>,
    bumps: seq<Bump>, autoWins: seq<Win>, manualWins: seq<Win>, usersLocked: nat,
    providerLocks: multiset<string>, providerUnlocks: multiset<string>,
    ladders: map<string, seq<int>>)

  /** Redis keys and the counters. `locks` are the live lock keys, `scheduled` the members of the sorted set. */
  datatype Shared = Shared(
    locks: set<string>, penalties: map<string, nat>, scheduled: set<string>, tasks: seq<Task>, ledger: Ledger)

  /** Where a task, or a lock or unlock carried out inline, has got to: each value names what is to be done next. */
  datatype Pc =
    | Idle
    | LockStart(email: string, selector: string)
    | NeedPenalty(email: string, selector: string)
    | Bumped(email: string, count: nat, increment: nat)
    | Ready(email: string, duration: int, cause: Cause)
    | Won(email: string, duration: int)
    | Described(email: string, duration: int)
    | Counted(email: string)
    | Claimed(email: string)
    | UnlockStart(email: string)
    | Exceeding(email: string)
    | Prolonged(email: string)
    | Cleared(email: string)
    | Provided(email: string)
    | Failed(email: string, unlocked: bool)

  function Present(e: string, scheduled: set<string>): multiset<string> {
    if e in scheduled then multiset{e} else multiset{}
  }

  function Ended(s: Shared, email: string, o: Outcome): Shared {
    s.(ledger := s.ledger.(ended := s.ledger.ended + [Ending(email, o)]))
  }

  function WinCounted(l: Ledger, w: Win): Ledger {
    if w.cause.Manual? then l.(manualWins := l.manualWins + [w]) else l.(autoWins := l.autoWins + [w])
  }

  /** The lock durations handed out under a penalty key since it was last empty. */
  function Ladder(l: Ledger, key: string): seq<int> {
    if key in l.ladders then l.ladders[key] else []
  }

  /**
   * The next command of a lock or unlock in progress. `fault` says that it raises, `exceeding` what the recheck finds.
   */
  function Work(c: Settings, s: Shared, pc: Pc, fault: bool, exceeding: bool): (Shared, Pc) {
    match pc
    case Idle => (s, Idle)
    case LockStart(e, selector) =>
      if fault || e == "" || e in s.locks then (s, Idle)
      else if c.penaltyEnabled && selector != "" then (s, NeedPenalty(e, selector))
      else (s, Ready(e, DefaultDuration(c), Unpenalised))
    case NeedPenalty(e, selector) =>
      if fault then (s, Idle)
      else
        var key := Lower(selector);
        var count := (if key in s.penalties then s.penalties[key] else 0) + 1;
        (s.(penalties := s.penalties[key := count],
            ledger := s.ledger.(bumps := s.ledger.bumps + [Bump(key, count)],
                                ladders := s.ledger.ladders[key := Ladder(s.ledger, key) + [Rung(c, count)]])),
         Bumped(e, count, |s.ledger.bumps|))
    case Bumped(e, count, n) => if fault then (s, Idle) else (s, Ready(e, Rung(c, count), Penalised(n)))
    case Ready(e, duration, cause) =>
      if fault || e == "" || e in s.locks then (s, Idle)
      else
        (s.(locks := s.locks + {e},
            ledger := WinCounted(s.ledger, Win(e, duration, cause))),
         Won(e, duration))
    case Won(e, duration) => if fault then (s, Idle) else (s, Described(e, duration))
    case Described(e, duration) =>
      if fault then (s, Idle)
      else
        (s.(scheduled := s.scheduled + {e},
            ledger := s.ledger.(zadds := s.ledger.zadds + multiset{e},
                                overwritten := s.ledger.overwritten + Present(e, s.scheduled),
                                usersLocked := s.ledger.usersLocked + 1)),
         Counted(e))
    case Counted(e) => (s.(ledger := s.ledger.(providerLocks := s.ledger.providerLocks + multiset{e})), Idle)
    case Claimed(e) => if fault then (s, UnlockStart(e)) else (s.(tasks := s.tasks + [UnlockTask(e)]), Idle)
    case UnlockStart(e) => (s, if fault then Failed(e, false) else if exceeding then Exceeding(e) else Cleared(e))
    case Exceeding(e) => if fault then (s, Failed(e, false)) else (s.(locks := s.locks + {e}), Prolonged(e))
    case Prolonged(e) => if fault then (s, Failed(e, false)) else (Ended(s, e, Extended), Idle)
    case Cleared(e) =>
      if fault then (s, Failed(e, false))
      else (s.(ledger := s.ledger.(providerUnlocks := s.ledger.providerUnlocks + multiset{e})), Provided(e))
    case Provided(e) => if fault then (s, Failed(e, true)) else (Ended(s, e, Unlocked), Idle)
    case Failed(e, unlocked) =>
      (Ended(if fault then s else s.(locks := s.locks + {e}), e, Retry(!fault, unlocked)), Idle)
  }

  /** Which part of the books a command can touch. */
  lemma WorkTouches(c: Settings, s: Shared, pc: Pc, fault: bool, exceeding: bool)
    ensures var (s', _) := Work(c, s, pc, fault, exceeding);
            && (!pc.Ready? ==> s'.ledger.autoWins == s.ledger.autoWins && s'.ledger.manualWins == s.ledger.manualWins)
            && (!pc.NeedPenalty? ==> s'.penalties == s.penalties && s'.ledger.ladders == s.ledger.ladders)
            && (!pc.Cleared? ==> s'.ledger.providerUnlocks == s.ledger.providerUnlocks)
            && (!pc.Prolonged? && !pc.Provided? && !pc.Failed? ==> s'.ledger.ended == s.ledger.ended)
            && s.locks <= s'.locks
  {
  }

  // ---------- all actors together ----------

  datatype Role = Poller | Worker | Requester

  /** `items` are the due members a poller has read and not yet tried to claim. */
  datatype Actor = Actor(role: Role, pc: Pc, items: seq<string>)

  datatype System = System(shared: Shared, actors: seq<Actor>)

  datatype Event =
    | Scan(actor: nat, due: seq<string>)
    | Claim(actor: nat, fault: bool)
    | Pop(actor: nat)
    | Proceed(actor: nat, fault: bool, exceeding: bool)
    | Notify
    | HandOff(actor: nat, email: string, selector: string, fault: bool)
    | ManualLock(actor: nat, email: string)
    | LockGone(email: string)
    | PenaltyGone(key: string)
    | Unscheduled(email: string)

  function Initial(actors: seq<Role>): System {
    System(Shared({}, map[], {}, [], Ledger(multiset{}, multiset{}, multiset{}, multiset{}, [], [], [], [], 0,
               multiset{}, multiset{}, map[])),
           seq(|actors|, i requires 0 <= i < |actors| => Actor(actors[i], Idle, [])))
  }

  predicate Acts(s: System, actor: nat, role: Role) {
    actor < |s.actors| && s.actors[actor].role == role && s.actors[actor].pc.Idle?
  }

  predicate Enabled(s: System, e: Event) {
    match e
    case Scan(a, due) => Acts(s, a, Poller) && s.actors[a].items == [] && forall x | x in due :: x in s.shared.scheduled
    case Claim(a, _) => Acts(s, a, Poller) && s.actors[a].items != []
    case Pop(a) => Acts(s, a, Worker) && s.shared.tasks != []
    case Proceed(a, _, _) => a < |s.actors| && !s.actors[a].pc.Idle?
    case HandOff(a, _, _, _) => Acts(s, a, Requester)
    case ManualLock(a, _) => Acts(s, a, Requester)
    case _ => true
  }

  function Started(t: Task): Pc {
    match t
    case LockTask(e, selector) => LockStart(e, selector)
    case NotifyTask => Idle
    case UnlockTask(e) => UnlockStart(e)
  }

  function Step(c: Settings, s: System, e: Event): System
    requires Enabled(s, e)
  {
    var sh := s.shared;
    match e
    case Scan(a, due) => s.(actors := s.actors[a := s.actors[a].(items := due)])
    case Claim(a, fault) =>
      var x := s.actors[a].items[0];
      var rest := s.actors[a].(items := s.actors[a].items[1..]);
      if fault then s.(actors := s.actors[a := s.actors[a].(items := [])])
      else if x !in sh.scheduled then s.(actors := s.actors[a := rest])
      else
        System(sh.(scheduled := sh.scheduled - {x}, ledger := sh.ledger.(claims := sh.ledger.claims + multiset{x})),
               s.actors[a := rest.(pc := Claimed(x))])
    case Pop(a) =>
      System(sh.(tasks := sh.tasks[1..]), s.actors[a := s.actors[a].(pc := Started(sh.tasks[0]))])
    case Proceed(a, fault, exceeding) =>
      var (sh', pc) := Work(c, sh, s.actors[a].pc, fault, exceeding);
      System(sh', s.actors[a := s.actors[a].(pc := pc)])
    case Notify => s.(shared := sh.(tasks := sh.tasks + [NotifyTask]))
    case HandOff(a, email, selector, fault) =>
      if fault then s.(actors := s.actors[a := s.actors[a].(pc := LockStart(email, selector))])
      else s.(shared := sh.(tasks := sh.tasks + [LockTask(email, selector)]))
    case ManualLock(a, email) =>
      s.(actors := s.actors[a := s.actors[a].(pc := Ready(email, DefaultDuration(c), Manual))])
    case LockGone(email) => s.(shared := sh.(locks := sh.locks - {email}))
    case PenaltyGone(key) =>
      s.(shared := sh.(penalties := sh.penalties - {key}, ledger := sh.ledger.(ladders := sh.ledger.ladders - {key})))
    case Unscheduled(email) =>
      s.(shared := sh.(scheduled := sh.scheduled - {email},
                       ledger := sh.ledger.(removed := sh.ledger.removed + Present(email, sh.scheduled))))
  }

  ghost predicate Execution(c: Settings, events: seq<Event>, states: seq<System>, roles: seq<Role>) {
    && |states| == |events| + 1 && states[0] == Initial(roles)
    && forall i | 0 <= i < |events| :: Enabled(states[i], events[i]) && states[i + 1] == Step(c, states[i], events[i])
  }
}
