/**
 * The schedule of unlocks with its due times. A poller reads the due entries and removes them one by one, without
 * looking at their times again; adding an entry that is there already moves its time.
 */
module DueTimes {
  import opened Prelude

  /** `found[p]` are the entries that poller `p` has read and not yet tried to remove. */
  datatype System = System(due: map<string, int>, found: seq<seq<string>>)

  datatype Event =
    | Add(email: string, due: int)
    | TakeOut(email: string)
    | Scan(poller: nat, at: int, entries: seq<string>)
    | Claim(poller: nat, at: int)
    | GiveUp(poller: nat)

  predicate Enabled(s: System, e: Event) {
    match e
    case Scan(p, at, entries) =>
      p < |s.found| && s.found[p] == [] && forall x | x in entries :: x in s.due && s.due[x] <= at
    case Claim(p, _) => p < |s.found| && s.found[p] != []
    case GiveUp(p) => p < |s.found|
    case _ => true
  }

  function Step(s: System, e: Event): System
    requires Enabled(s, e)
  {
    match e
    case Add(x, due) => s.(due := s.due[x := due])
    case TakeOut(x) => s.(due := s.due - {x})
    case Scan(p, _, entries) => s.(found := s.found[p := entries])
    case Claim(p, _) => System(s.due - {s.found[p][0]}, s.found[p := s.found[p][1..]])
    case GiveUp(p) => s.(found := s.found[p := []])
  }

  ghost predicate Execution(events: seq<Event>, states: seq<System>, pollers: nat) {
    && |states| == |events| + 1 && states[0] == System(map[], seq(pollers, i => []))
    && (forall i | 0 <= i < |events| :: Enabled(states[i], events[i]) && states[i + 1] == Step(states[i], events[i]))
    && (forall i, j | 0 <= i < j < |events| && Timed(events[i]) && Timed(events[j]) :: events[i].at <= events[j].at)
  }

  predicate Timed(e: Event) {
    e.Scan? || e.Claim?
  }

  /** The scan before `k` to which poller `p` owes what it still has to try. */
  ghost predicate LastScan(events: seq<Event>, i: nat, k: nat, p: nat) {
    && i < k <= |events| && events[i].Scan? && events[i].poller == p
    && forall j | i < j < k :: !(events[j].Scan? && events[j].poller == p)
  }

  lemma {:induction false} FoundByLastScan(events: seq<Event>, states: seq<System>, pollers: nat, k: nat, p: nat)
    returns (i: nat)
    requires Execution(events, states, pollers) && k < |states|
    requires p < |states[k].found| && states[k].found[p] != []
    ensures LastScan(events, i, k, p) && forall x | x in states[k].found[p] :: x in events[i].entries
  {
    var e, s := events[k - 1], states[k - 1];
    assert Enabled(s, e) && states[k] == Step(s, e);
    if e.Scan? && e.poller == p {
      i := k - 1;
    } else {
      i := FoundByLastScan(events, states, pollers, k - 1, p);
    }
  }

  /** The time given by the last addition of an entry after event `i` and before event `k`. */
  function LastAdded(events: seq<Event>, i: nat, k: nat, x: string): Option<int>
    requires i < k <= |events|
  {
    if k == i + 1 then None
    else if events[k - 1].Add? && events[k - 1].email == x then Some(events[k - 1].due)
    else LastAdded(events, i, k - 1, x)
  }

  lemma {:induction false} DueSinceScan(events: seq<Event>, states: seq<System>, pollers: nat, i: nat, k: nat,
                                        x: string)
    requires Execution(events, states, pollers) && i < k < |states| && x in states[k].due
    ensures var added := LastAdded(events, i, k, x);
            if added.Some? then states[k].due[x] == added.value
            else x in states[i + 1].due && states[k].due[x] == states[i + 1].due[x]
  {
    if k > i + 1 {
      assert Enabled(states[k - 1], events[k - 1]) && states[k] == Step(states[k - 1], events[k - 1]);
      if !(events[k - 1].Add? && events[k - 1].email == x) {
        DueSinceScan(events, states, pollers, i, k - 1, x);
      }
    }
  }

  /**
   * An entry is claimed before its time exactly when it was added again between the scan that found it and the claim,
   * the last time with a later due time than the moment of the claim.
   */
  lemma EarlyExactlyWhenAddedAgain(events: seq<Event>, states: seq<System>, pollers: nat, k: nat) returns (i: nat)
    requires Execution(events, states, pollers) && k < |events| && events[k].Claim?
    requires Enabled(states[k], events[k]) && states[k].found[events[k].poller][0] in states[k].due
    ensures LastScan(events, i, k, events[k].poller)
    ensures var x, now := states[k].found[events[k].poller][0], events[k].at;
            var added := LastAdded(events, i, k, x);
            && x in events[i].entries
            && (states[k].due[x] > now <==> added.Some? && added.value > now)
  {
    var p := events[k].poller;
    var x := states[k].found[p][0];
    i := FoundByLastScan(events, states, pollers, k, p);
    DueSinceScan(events, states, pollers, i, k, x);
    assert Enabled(states[i], events[i]) && states[i + 1] == Step(states[i], events[i]);
    assert Timed(events[i]) && Timed(events[k]);
  }
}
