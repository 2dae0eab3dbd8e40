/**
 * The handler's loops as runs of the interleaved model: what a poller or a worker does when nothing comes between its
 * commands is a run of that actor's steps, so every theorem about interleavings covers the methods.
 */
module HandlerRuns {
  import opened AccountLocks
  import opened PolicyHandling

  predicate Possible(c: Settings, s: System, events: seq<Event>)
    decreases |events|
  {
    events == [] || (Enabled(s, events[0]) && Possible(c, Step(c, s, events[0]), events[1..]))
  }

  function After(c: Settings, s: System, events: seq<Event>): System
    requires Possible(c, s, events)
    decreases |events|
  {
    if events == [] then s else After(c, Step(c, s, events[0]), events[1..])
  }

  predicate ActsAlone(events: seq<Event>, a: nat) {
    forall e | e in events :: (e.Claim? || e.Pop? || e.Proceed?) && e.actor == a
  }

  lemma {:induction false} RunsCompose(c: Settings, s: System, first: seq<Event>, second: seq<Event>)
    requires Possible(c, s, first) && Possible(c, After(c, s, first), second)
    ensures Possible(c, s, first + second) && After(c, s, first + second) == After(c, After(c, s, first), second)
    decreases |first|
  {
    if first == [] {
      assert first + second == second;
    } else {
      assert (first + second)[1..] == first[1..] + second;
      RunsCompose(c, Step(c, s, first[0]), first[1..], second);
    }
  }

  /** The system in which actor `a` has moved on to `actor` and nobody else has moved. */
  function Moved(s: System, a: nat, actor: Actor, shared: Shared): System
    requires a < |s.actors|
  {
    System(shared, s.actors[a := actor])
  }

  /** An unlock needs at most this many more commands. */
  function Remaining(pc: Pc): nat {
    match pc
    case Idle => 0
    case Claimed(_) => 5
    case UnlockStart(_) => 4
    case Exceeding(_) => 3
    case Cleared(_) => 3
    case Prolonged(_) => 2
    case Provided(_) => 2
    case Failed(_, _) => 1
    case LockStart(_, _) => 7
    case NeedPenalty(_, _) => 6
    case Bumped(_, _, _) => 5
    case Ready(_, _, _) => 4
    case Won(_, _) => 3
    case Described(_, _) => 2
    case Counted(_) => 1
  }

  lemma WorkShrinks(c: Settings, s: Shared, pc: Pc, fault: bool, exceeding: bool)
    requires !pc.Idle?
    ensures Remaining(Work(c, s, pc, fault, exceeding).1) < Remaining(pc)
  {
  }

  /** A lock or unlock in progress, left alone, runs to its end. */
  lemma {:induction false} DriveIsRun(c: Settings, s: System, a: nat, faults: seq<bool>, exceeding: bool)
    returns (events: seq<Event>)
    requires a < |s.actors| && Remaining(s.actors[a].pc) <= |faults|
    ensures ActsAlone(events, a) && Possible(c, s, events)
    ensures After(c, s, events)
            == Moved(s, a, s.actors[a].(pc := Idle), Drive(c, s.shared, s.actors[a].pc, faults, exceeding))
    decreases |faults|
  {
    var pc := s.actors[a].pc;
    if pc.Idle? {
      events := [];
    } else {
      var e := Proceed(a, faults[0], exceeding);
      WorkShrinks(c, s.shared, pc, faults[0], exceeding);
      DriveStep(c, s.shared, pc, faults, exceeding);
      var rest := DriveIsRun(c, Step(c, s, e), a, faults[1..], exceeding);
      events := [e] + rest;
      assert events[1..] == rest;
    }
  }

  /** The listener's round is a run of one poller: claims, hand-offs and inline fallbacks in the order of the scan. */
  lemma {:induction false} RoundIsRun(c: Settings, s: System, a: nat, replies: seq<EntryReply>)
    returns (events: seq<Event>)
    requires Acts(s, a, Poller) && |s.actors[a].items| == |replies|
    requires forall r | r in replies :: |r.handOff| >= 5
    ensures ActsAlone(events, a) && Possible(c, s, events)
    ensures After(c, s, events)
            == Moved(s, a, Actor(Poller, Idle, []), AfterRound(c, s.shared, s.actors[a].items, replies))
    decreases |replies|
  {
    var items := s.actors[a].items;
    if items == [] {
      events := [];
    } else {
      var r := replies[0];
      var claim := Claim(a, r.fault);
      var claimed := Step(c, s, claim);
      if r.fault {
        events := [claim];
      } else {
        var handOff := DriveIsRun(c, claimed, a, r.handOff, r.exceeding);
        var next := After(c, claimed, handOff);
        assert next == Moved(s, a, Actor(Poller, Idle, items[1..]), AfterEntry(c, s.shared, items[0], r));
        var rest := RoundIsRun(c, next, a, replies[1..]);
        RunsCompose(c, claimed, handOff, rest);
        events := [claim] + (handOff + rest);
        assert events[1..] == handOff + rest;
      }
    }
  }

  /** A worker's turn is a run of one worker: the oldest task is popped and carried out to its end. */
  lemma TurnIsRun(c: Settings, s: System, a: nat, faults: seq<bool>, exceeding: bool) returns (events: seq<Event>)
    requires Acts(s, a, Worker) && s.shared.tasks != [] && |faults| >= 7
    ensures ActsAlone(events, a) && Possible(c, s, events)
    ensures var popped := s.shared.(tasks := s.shared.tasks[1..]);
            After(c, s, events)
            == Moved(s, a, s.actors[a], Drive(c, popped, Started(s.shared.tasks[0]), faults, exceeding))
  {
    var rest := DriveIsRun(c, Step(c, s, Pop(a)), a, faults, exceeding);
    events := [Pop(a)] + rest;
    assert events[1..] == rest;
  }

  function Unlocks(due: seq<string>): seq<Task> {
    seq(|due|, i requires 0 <= i < |due| => UnlockTask(due[i]))
  }

  /** Exactly the due entries claimed and, in scan order, at the end of the task list. */
  function AllHandedOff(s: Shared, due: seq<string>): Shared {
    s.(scheduled := s.scheduled - (set x | x in due), tasks := s.tasks + Unlocks(due),
       ledger := s.ledger.(claims := s.ledger.claims + multiset(due)))
  }

  lemma HandedOffOneByOne(s: Shared, due: seq<string>)
    requires due != []
    ensures AllHandedOff(s, due) == AllHandedOff(AllHandedOff(s, due[..1]), due[1..])
  {
    assert due == due[..1] + due[1..];
    assert s.scheduled - (set x | x in due) == s.scheduled - (set x | x in due[..1]) - (set x | x in due[1..]);
    assert Unlocks(due) == Unlocks(due[..1]) + Unlocks(due[1..]);
  }

  lemma FaultlessEntry(c: Settings, s: Shared, x: string, r: EntryReply)
    requires x in s.scheduled && r.handOff != [] && !r.handOff[0]
    ensures AfterEntry(c, s, x, r) == AllHandedOff(s, [x])
  {
    var taken := s.(scheduled := s.scheduled - {x}, ledger := s.ledger.(claims := s.ledger.claims + multiset{x}));
    DriveStep(c, taken, Claimed(x), r.handOff, r.exceeding);
    assert (set y | y in [x]) == {x};
  }

  /** A round without faults moves the due entries from the schedule to the task list, each once and in scan order. */
  lemma {:induction false} FaultlessRound(c: Settings, s: Shared, due: seq<string>, replies: seq<EntryReply>)
    requires |due| == |replies| && forall r | r in replies :: !r.fault && r.handOff != [] && !r.handOff[0]
    requires forall x | x in due :: x in s.scheduled
    requires forall i, j | 0 <= i < j < |due| :: due[i] != due[j]
    ensures AfterRound(c, s, due, replies) == AllHandedOff(s, due)
    decreases |due|
  {
    if due == [] {
      assert s.scheduled - (set x | x in due) == s.scheduled;
      assert s.tasks + Unlocks(due) == s.tasks;
      assert s.ledger.claims + multiset(due) == s.ledger.claims;
    } else {
      FaultlessEntry(c, s, due[0], replies[0]);
      assert due[..1] == [due[0]];
      forall y | y in due[1..] ensures y in AllHandedOff(s, [due[0]]).scheduled { assert y != due[0]; }
      FaultlessRound(c, AllHandedOff(s, [due[0]]), due[1..], replies[1..]);
      HandedOffOneByOne(s, due);
    }
  }
}
