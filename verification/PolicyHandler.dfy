/** The handler's lock and unlock methods, each proved against the steps that the interleaved model takes. */
module PolicyHandling {
  import opened Prelude
  import opened AccountLocks
  import opened PenaltyLadder
  import opened ScheduledUnlocks

  /** A lock or unlock followed to its end with nothing in between; each command consumes one entry of `faults`. */
  function Drive(c: Settings, s: Shared, pc: Pc, faults: seq<bool>, exceeding: bool): Shared
    decreases |faults|
  {
    if pc.Idle? || faults == [] then s
    else
      var (s', pc') := Work(c, s, pc, faults[0], exceeding);
      Drive(c, s', pc', faults[1..], exceeding)
  }

  lemma DriveStep(c: Settings, s: Shared, pc: Pc, faults: seq<bool>, exceeding: bool)
    requires !pc.Idle? && faults != []
    ensures var (s', pc') := Work(c, s, pc, faults[0], exceeding);
            Drive(c, s, pc, faults, exceeding) == if pc'.Idle? then s' else Drive(c, s', pc', faults[1..], exceeding)
  {
  }

  /** What Redis and the recheck answer while one due entry is dealt with; `fault` is the reply to the removal. */
  datatype EntryReply = EntryReply(fault: bool, handOff: seq<bool>, exceeding: bool)

  function AfterEntry(c: Settings, s: Shared, email: string, r: EntryReply): Shared {
    if email !in s.scheduled then s
    else
      var taken := s.(scheduled := s.scheduled - {email}, ledger := s.ledger.(claims := s.ledger.claims
          + multiset{email}));
      Drive(c, taken, Claimed(email), r.handOff, r.exceeding)
  }

  /** One round over the due entries; a removal that raises ends it. */
  function AfterRound(c: Settings, s: Shared, due: seq<string>, replies: seq<EntryReply>): Shared
    requires |due| == |replies|
    decreases |due|
  {
    if due == [] || replies[0].fault then s
    else AfterRound(c, AfterEntry(c, s, due[0], replies[0]), due[1..], replies[1..])
  }

  /** A lock proceeds the same whatever a recheck would find. */
  lemma {:induction false} LockIgnoresRecheck(c: Settings, s: Shared, pc: Pc, faults: seq<bool>, exceeding: bool)
    requires !Unlocking(pc)
    ensures Drive(c, s, pc, faults, exceeding) == Drive(c, s, pc, faults, false)
    decreases |faults|
  {
    if !pc.Idle? && faults != [] {
      var (s', pc') := Work(c, s, pc, faults[0], exceeding);
      LockingTouchesNoClaim(c, s, pc, faults[0], exceeding);
      LockIgnoresRecheck(c, s', pc', faults[1..], exceeding);
    }
  }

  class PolicyHandler {
    const settings: Settings
    var locks: set<string>
    var penalties: map<string, nat>
    var scheduled: set<string>
    var tasks: seq<Task>
    ghost var ledger: Ledger

    ghost function Now(): Shared
      reads this
    {
      Shared(locks, penalties, scheduled, tasks, ledger)
    }

    constructor (settings: Settings)
      ensures this.settings == settings && Now() == Initial([]).shared
    {
      this.settings := settings;
      locks, penalties, scheduled, tasks := {}, map[], {}, [];
      ledger := Initial([]).shared.ledger;
    }

    /** None when Redis raised; otherwise the duration that the penalty ladder gives. */
    method ResolveLockDuration(selector: string, faults: seq<bool>) returns (duration: Option<int>, used: nat)
      requires |faults| >= 2
      modifies this
      ensures used <= 2
      ensures !settings.penaltyEnabled || selector == "" ==>
                used == 0 && duration == Some(DefaultDuration(settings)) && Now() == old(Now())
      ensures settings.penaltyEnabled && selector != "" ==>
                var (s1, pc1) := Work(settings, old(Now()), NeedPenalty("", selector), faults[0], false);
                Now() == s1 && used == (if faults[0] then 1 else 2)
                && duration == if faults[0] || faults[1] then None
                   else Some(Rung(settings, Penalty(s1, Lower(selector))))
      ensures settings.penaltyEnabled && selector != "" && !faults[0] && !faults[1] ==>
                var key := Lower(selector);
                var count := 1 + if key in old(penalties) then old(penalties)[key] else 0;
                var steps := if settings.steps == [] then [Max(1, settings.lockDuration)] else settings.steps;
                && penalties == old(penalties)[key := count] && locks == old(locks)
                && scheduled == old(scheduled) && tasks == old(tasks)
                && ledger.bumps == old(ledger.bumps) + [Bump(key, count)]
                && ledger.autoWins == old(ledger.autoWins) && ledger.manualWins == old(ledger.manualWins)
                && duration == Some(Max(1, if count <= |steps| then steps[count - 1] else steps[|steps| - 1]))
    {
      var defaultDuration := Max(1, settings.lockDuration);
      if !settings.penaltyEnabled || selector == "" {
        return Some(defaultDuration), 0;
      }
      var steps := if settings.steps == [] then [defaultDuration] else settings.steps;
      var key := Lower(selector);
      if faults[0] {
        return None, 1;
      }
      var count := (if key in penalties then penalties[key] else 0) + 1;
      penalties := penalties[key := count];
      ledger := ledger.(bumps := ledger.bumps + [Bump(key, count)],
                        ladders := ledger.ladders[key := Ladder(ledger, key) + [Rung(settings, count)]]);
      if faults[1] {
        return None, 2;
      }
      var index := if Max(count - 1, 0) <= |steps| - 1 then Max(count - 1, 0) else |steps| - 1;
      return Some(Max(1, steps[index])), 2;
    }

    method SafeLockUser(email: string, duration: int, ghost cause: Cause, faults: seq<bool>)
      requires |faults| >= 4
      modifies this
      ensures Now() == Drive(settings, old(Now()), Ready(email, duration, cause), faults, false)
      ensures email == "" || email in old(locks) || faults[0] ==> Now() == old(Now())
      ensures email != "" && email !in old(locks) && !faults[0] ==>
                && locks == old(locks) + {email} && penalties == old(penalties) && tasks == old(tasks)
                && ledger.autoWins
                   == old(ledger.autoWins) + (if cause.Manual? then [] else [Win(email, duration, cause)])
                && ledger.manualWins
                   == old(ledger.manualWins) + (if cause.Manual? then [Win(email, duration, cause)] else [])
                && (!faults[1] && !faults[2] ==>
                      && scheduled == old(scheduled) + {email} && ledger.usersLocked == old(ledger.usersLocked) + 1
                      && ledger.providerLocks == old(ledger.providerLocks) + multiset{email})
                && (faults[1] || faults[2] ==>
                      && scheduled == old(scheduled) && ledger.usersLocked == old(ledger.usersLocked)
                      && ledger.providerLocks == old(ledger.providerLocks))
    {
      DriveStep(settings, Now(), Ready(email, duration, cause), faults, false);
      if email == "" || faults[0] || email in locks {
        return;
      }
      locks := locks + {email};
      ledger := WinCounted(ledger, Win(email, duration, cause));
      ScheduleUnlock(email, duration, faults[1..]);
    }

    /** The rest of a lock once its key is set: metadata, schedule, counter, provider. */
    method ScheduleUnlock(email: string, duration: int, faults: seq<bool>)
      requires |faults| >= 3
      modifies this
      ensures Now() == Drive(settings, old(Now()), Won(email, duration), faults, false)
      ensures locks == old(locks) && penalties == old(penalties) && tasks == old(tasks)
      ensures ledger.autoWins == old(ledger.autoWins) && ledger.manualWins == old(ledger.manualWins)
      ensures var scheduling := !faults[0] && !faults[1];
              && scheduled == old(scheduled) + (if scheduling then {email} else {})
              && ledger.usersLocked == old(ledger.usersLocked) + One(scheduling)
              && ledger.providerLocks
                 == old(ledger.providerLocks) + (if scheduling then multiset{email} else multiset{})
    {
      DriveStep(settings, Now(), Won(email, duration), faults, false);
      if faults[0] {
        return;
      }
      DriveStep(settings, Now(), Described(email, duration), faults[1..], false);
      if faults[1] {
        return;
      }
      ledger := ledger.(zadds := ledger.zadds + multiset{email},
                        overwritten := ledger.overwritten + Present(email, scheduled),
                        usersLocked := ledger.usersLocked + 1);
      scheduled := scheduled + {email};
      DriveStep(settings, Now(), Counted(email), faults[1..][1..], false);
      ledger := ledger.(providerLocks := ledger.providerLocks + multiset{email});
    }

    method SafeLockUserWithPenalty(email: string, selector: string, faults: seq<bool>)
      requires |faults| >= 7
      modifies this
      ensures Now() == Drive(settings, old(Now()), LockStart(email, selector), faults, false)
      ensures email == "" || email in old(locks) || faults[0] ==> Now() == old(Now())
      ensures email != "" && email !in old(locks) && (forall i | 0 <= i < 7 :: !faults[i])
              && (!settings.penaltyEnabled || selector == "") ==>
                && locks == old(locks) + {email} && penalties == old(penalties)
                && ledger.autoWins == old(ledger.autoWins) + [Win(email, Max(1, settings.lockDuration), Unpenalised)]
      ensures email != "" && email !in old(locks) && (forall i | 0 <= i < 7 :: !faults[i])
              && settings.penaltyEnabled && selector != "" ==>
                var key := Lower(selector);
                var count := 1 + if key in old(penalties) then old(penalties)[key] else 0;
                var steps := if settings.steps == [] then [Max(1, settings.lockDuration)] else settings.steps;
                var duration := Max(1, if count <= |steps| then steps[count - 1] else steps[|steps| - 1]);
                && locks == old(locks) + {email} && penalties == old(penalties)[key := count]
                && ledger.autoWins == old(ledger.autoWins) + [Win(email, duration, Penalised(|old(ledger.bumps)|))]
    {
      DriveStep(settings, Now(), LockStart(email, selector), faults, false);
      if email == "" || faults[0] || email in locks {
        return;
      }
      var rest := faults[1..];
      if !settings.penaltyEnabled || selector == "" {
        var duration, _ := ResolveLockDuration(selector, rest);
        SafeLockUser(email, duration.value, Unpenalised, rest);
      } else {
        PenaltyStep(settings, Now(), email, selector, rest);
        ghost var increment := |ledger.bumps|;
        var duration, used := ResolveLockDuration(selector, rest);
        if duration.None? {
          return;
        }
        SafeLockUser(email, duration.value, Penalised(increment), rest[used..]);
      }
    }

    /** The branch that puts the unlock off; returns the faults left over when a command raised. */
    method ExtendLock(email: string, faults: seq<bool>) returns (raised: bool, rest: seq<bool>)
      requires |faults| >= 3
      modifies this
      ensures rest == (if faults[0] then faults[1..] else faults[2..])
      ensures scheduled == old(scheduled) && tasks == old(tasks) && penalties == old(penalties)
      ensures Drive(settings, old(Now()), Exceeding(email), faults, true)
              == if raised then Drive(settings, Now(), Failed(email, false), rest, true) else Now()
      ensures raised <==> faults[0] || faults[1]
      ensures locks == (if faults[0] then old(locks) else old(locks) + {email})
      ensures ledger.ended == old(ledger.ended) + (if raised then [] else [Ending(email, Extended)])
      ensures ledger.providerUnlocks == old(ledger.providerUnlocks)
    {
      DriveStep(settings, Now(), Exceeding(email), faults, true);
      rest := faults[1..];
      if faults[0] {
        return true, rest;
      }
      locks := locks + {email};
      DriveStep(settings, Now(), Prolonged(email), rest, true);
      raised := rest[0];
      rest := rest[1..];
      if !raised {
        ledger := ledger.(ended := ledger.ended + [Ending(email, Extended)]);
      }
    }

    /** The branch that unlocks at the provider and notifies. */
    method UnlockAtProvider(email: string, faults: seq<bool>) returns (raised: bool, unlocked: bool, rest: seq<bool>)
      requires |faults| >= 3
      modifies this
      ensures rest == (if faults[0] then faults[1..] else faults[2..])
      ensures scheduled == old(scheduled) && tasks == old(tasks) && penalties == old(penalties)
      ensures Drive(settings, old(Now()), Cleared(email), faults, false)
              == if raised then Drive(settings, Now(), Failed(email, unlocked), rest, false) else Now()
      ensures (raised <==> faults[0] || faults[1]) && (unlocked <==> !faults[0]) && locks == old(locks)
      ensures ledger.ended == old(ledger.ended) + (if raised then [] else [Ending(email, Unlocked)])
      ensures ledger.providerUnlocks == old(ledger.providerUnlocks) + (if unlocked then multiset{email} else multiset{})
    {
      DriveStep(settings, Now(), Cleared(email), faults, false);
      rest := faults[1..];
      if faults[0] {
        return true, false, rest;
      }
      ledger := ledger.(providerUnlocks := ledger.providerUnlocks + multiset{email});
      DriveStep(settings, Now(), Provided(email), rest, false);
      raised, unlocked := rest[0], true;
      rest := rest[1..];
      if !raised {
        ledger := ledger.(ended := ledger.ended + [Ending(email, Unlocked)]);
      }
    }

    /** What is left after a command raised: a mark under the lock key, if Redis can be reached. */
    method MarkRetry(email: string, unlocked: bool, faults: seq<bool>, exceeding: bool)
      requires faults != []
      modifies this
      ensures Now() == Drive(settings, old(Now()), Failed(email, unlocked), faults, exceeding)
      ensures locks == (if faults[0] then old(locks) else old(locks) + {email})
      ensures scheduled == old(scheduled) && tasks == old(tasks) && penalties == old(penalties)
      ensures ledger == old(ledger).(ended := old(ledger.ended) + [Ending(email, Retry(!faults[0], unlocked))])
    {
      DriveStep(settings, Now(), Failed(email, unlocked), faults, exceeding);
      if !faults[0] {
        locks := locks + {email};
      }
      ledger := ledger.(ended := ledger.ended + [Ending(email, Retry(!faults[0], unlocked))]);
    }

    /** An unlock taken from the task list; `exceeding` is what the recheck over the selector's counters finds. */
    method ProcessUnlockEvent(email: string, faults: seq<bool>, exceeding: bool)
      requires |faults| >= 4
      modifies this
      ensures Now() == Drive(settings, old(Now()), UnlockStart(email), faults, exceeding)
      ensures var raised, marking := faults[0] || faults[1] || faults[2], if faults[0] then 1 else if faults[1] then 2
              else 3;
              var unlocked, extended := !exceeding && !faults[0] && !faults[1], exceeding && !faults[0] && !faults[1];
              && ledger.ended == old(ledger.ended)
                 + [Ending(email, if raised then Retry(!faults[marking], unlocked) else if exceeding then Extended
                     else Unlocked)]
              && ledger.providerUnlocks
                 == old(ledger.providerUnlocks) + (if unlocked then multiset{email} else multiset{})
              && locks == old(locks) + (if extended || (raised && !faults[marking]) then {email} else {})
              && scheduled == old(scheduled) && tasks == old(tasks) && penalties == old(penalties)
    {
      DriveStep(settings, Now(), UnlockStart(email), faults, exceeding);
      var raised, unlocked, rest := true, false, faults[1..];
      if !faults[0] {
        if exceeding {
          raised, rest := ExtendLock(email, rest);
        } else {
          raised, unlocked, rest := UnlockAtProvider(email, rest);
        }
      }
      if raised {
        MarkRetry(email, unlocked, rest, exceeding);
      }
    }

    /** Puts a lock on the task list, or carries it out when the list cannot be reached. */
    method EnqueueLock(email: string, selector: string, faults: seq<bool>)
      requires |faults| >= 8
      modifies this
      ensures Now() == if faults[0] then Drive(settings, old(Now()), LockStart(email, selector), faults[1..], false)
                       else old(Now()).(tasks := old(tasks) + [LockTask(email, selector)])
    {
      if faults[0] {
        SafeLockUserWithPenalty(email, selector, faults[1..]);
      } else {
        tasks := tasks + [LockTask(email, selector)];
      }
    }

    /** The same for a claimed unlock. */
    method EnqueueUnlock(email: string, faults: seq<bool>, exceeding: bool)
      requires |faults| >= 5
      modifies this
      ensures Now() == Drive(settings, old(Now()), Claimed(email), faults, exceeding)
      ensures !faults[0] ==> Now() == old(Now()).(tasks := old(tasks) + [UnlockTask(email)])
      ensures faults[0] ==>
                tasks == old(tasks)
                && exists o :: ledger.ended == old(ledger.ended) + [Ending(email, o)]
    {
      DriveStep(settings, Now(), Claimed(email), faults, exceeding);
      if faults[0] {
        ProcessUnlockEvent(email, faults[1..], exceeding);
      } else {
        tasks := tasks + [UnlockTask(email)];
      }
    }

    /** One round of the listener over the entries that the scan returned. */
    method PollScheduledUnlocks(due: seq<string>, replies: seq<EntryReply>)
      requires |due| == |replies| && forall r | r in replies :: |r.handOff| >= 5
      modifies this
      ensures Now() == AfterRound(settings, old(Now()), due, replies)
      ensures due == [] || replies[0].fault ==> Now() == old(Now())
    {
      for i := 0 to |due|
        invariant AfterRound(settings, Now(), due[i..], replies[i..]) == AfterRound(settings, old(Now()), due, replies)
      {
        var r := replies[i];
        assert due[i..][0] == due[i] && due[i..][1..] == due[i + 1..];
        assert replies[i..][0] == r && replies[i..][1..] == replies[i + 1..];
        if r.fault {
          return;
        }
        if due[i] in scheduled {
          scheduled := scheduled - {due[i]};
          ledger := ledger.(claims := ledger.claims + multiset{due[i]});
          EnqueueUnlock(due[i], r.handOff, r.exceeding);
        }
      }
    }

    /** One turn of a background worker: the oldest task, if there is one, is taken and carried out. */
    method ServeTask(faults: seq<bool>, exceeding: bool)
      requires |faults| >= 7
      modifies this
      ensures Now() == if old(tasks) == [] then old(Now())
                       else Drive(settings, old(Now()).(tasks := old(tasks)[1..]), Started(old(tasks)[0]), faults,
                                  exceeding)
    {
      if tasks == [] {
        return;
      }
      var task := tasks[0];
      tasks := tasks[1..];
      match task
      case LockTask(email, selector) =>
        LockIgnoresRecheck(settings, Now(), LockStart(email, selector), faults, exceeding);
        SafeLockUserWithPenalty(email, selector, faults);
      case NotifyTask =>
      case UnlockTask(email) =>
        ProcessUnlockEvent(email, faults, exceeding);
    }
  }

  lemma PenaltyStep(c: Settings, s: Shared, email: string, selector: string, faults: seq<bool>)
    requires |faults| >= 2
    ensures var (s1, pc1) := Work(c, s, NeedPenalty("", selector), faults[0], false);
            Drive(c, s, NeedPenalty(email, selector), faults, false)
            == if faults[0] || faults[1] then s1
               else Drive(c, s1, Ready(email, Rung(c, Penalty(s1, Lower(selector))), Penalised(|s.ledger.bumps|)),
                          faults[2..], false)
  {
    assert faults[1..][1..] == faults[2..];
    var (s1, pc1) := Work(c, s, NeedPenalty(email, selector), faults[0], false);
    DriveStep(c, s, NeedPenalty(email, selector), faults, false);
    if !faults[0] {
      DriveStep(c, s1, pc1, faults[1..], false);
    }
  }
}
