/**
 * Concurrent checks. Any number of check_limit calls are in flight at once; between two of its script calls a check
 * may see any interleaving of the others. Each step is one script call, as Redis runs them.
 */
module Composition {
  import opened Prelude
  import opened RedisStore
  import opened Limits
  import opened Scripts
  import opened KeyRuns
  import L = Limiter
  import F = FixedWindowRuns
  import S = SlidingWindowRuns
  import T = TokenBucketRuns

  datatype Status = Running | Accepted | Denied | Failed

  /** A check in flight: the limits before `next` are passed. */
  datatype Check = Check(sender: string, limits: seq<RateLimit>, next: nat, status: Status)

  /** One executed script call. */
  datatype Charge = Charge(check: nat, index: nat, key: string, attempt: Attempt, allowed: bool)

  datatype System = System(db: Database, checks: seq<Check>, history: seq<Charge>)

  datatype Event =
    | Arrive(sender: string, limits: seq<RateLimit>)
    | Advance(check: nat, at: nat, fault: bool)

  predicate Enabled(s: System, e: Event) {
    match e
    case Arrive(_, limits) => forall l | l in limits :: Countable(l)
    case Advance(c, at, _) =>
      && c < |s.checks| && s.checks[c].status.Running?
      && (s.history != [] ==> s.history[|s.history| - 1].attempt.at <= at)
      && (forall l | l in s.checks[c].limits :: Countable(l)) && s.checks[c].next <= |s.checks[c].limits|
  }

  /** One turn of the loop over the limits of a check. */
  function Step(s: System, e: Event): System
    requires Enabled(s, e)
  {
    match e
    case Arrive(sender, limits) => s.(checks := s.checks + [Check(sender, limits, 0, Running)])
    case Advance(c, at, fault) =>
      var check := s.checks[c];
      if check.next == |check.limits| then s.(checks := s.checks[c := check.(status := Accepted)])
      else
        var l := check.limits[check.next];
        if l.unlimited then s.(checks := s.checks[c := check.(next := check.next + 1)])
        else if fault then s.(checks := s.checks[c := check.(status := Failed)])
        else
          var key := KeyForLimit(check.sender, l);
          var v := VerdictFor(l, Visible(Lookup(s.db, key), at), at);
          var moved := if v.allowed then check.(next := check.next + 1) else check.(status := Denied);
          System(Stored(s.db, key, v, TtlSeconds(l), at), s.checks[c := moved],
                 s.history + [Charge(c, check.next, key, Attempt(at, l), v.allowed)])
  }

  ghost predicate Execution(events: seq<Event>, states: seq<System>) {
    && |states| == |events| + 1
    && states[0] == System(map[], [], [])
    && forall i | 0 <= i < |events| :: Enabled(states[i], events[i]) && states[i + 1] == Step(states[i], events[i])
  }

  // ---------- each counter on its own ----------

  /** The calls on one key, in execution order. */
  function OnKey(history: seq<Charge>, key: string): seq<Attempt> {
    if history == [] then []
    else
      var last := history[|history| - 1];
      OnKey(history[..|history| - 1], key) + if last.key == key then [last.attempt] else []
  }

  lemma OnKeyAppend(history: seq<Charge>, c: Charge, key: string)
    ensures OnKey(history + [c], key) == OnKey(history, key) + if c.key == key then [c.attempt] else []
  {
    assert (history + [c])[..|history|] == history;
  }

  /** Every check keeps to its limits, and every history entry was made for the limit and sender it names. */
  ghost predicate WellKept(s: System) {
    && (forall c | 0 <= c < |s.checks| ::
          s.checks[c].next <= |s.checks[c].limits| && forall l | l in s.checks[c].limits :: Countable(l))
    && (forall h | 0 <= h < |s.history| :: Named(s, s.history[h]))
    && (forall g, h | 0 <= g <= h < |s.history| :: s.history[g].attempt.at <= s.history[h].attempt.at)
  }

  predicate Named(s: System, c: Charge) {
    && c.check < |s.checks| && c.index < |s.checks[c.check].limits|
    && var l := s.checks[c.check].limits[c.index];
       c.attempt.limit == l && !l.unlimited && Countable(l) && c.key == KeyForLimit(s.checks[c.check].sender, l)
  }

  lemma {:induction false} OnKeyIsUniform(s: System, history: seq<Charge>, key: string, sender: string, l: RateLimit)
    requires forall h | 0 <= h < |history| :: Named(s, history[h])
    requires forall g, h | 0 <= g <= h < |history| :: history[g].attempt.at <= history[h].attempt.at
    requires key == KeyForLimit(sender, l) && Countable(l)
    ensures var run := OnKey(history, key);
            Uniform(run, l.algorithm, l.duration) && Ordered(run)
            && (forall i | 0 <= i < |run| :: history != [] && run[i].at <= history[|history| - 1].attempt.at)
  {
    if history != [] {
      var last := history[|history| - 1];
      OnKeyIsUniform(s, history[..|history| - 1], key, sender, l);
      if last.key == key {
        KeysAgree(s.checks[last.check].sender, last.attempt.limit, sender, l);
      }
    }
  }

  /** The admission times on one key, as the history shows them. */
  function AdmittedOn(history: seq<Charge>, key: string): seq<int> {
    if history == [] then []
    else
      var last := history[|history| - 1];
      AdmittedOn(history[..|history| - 1], key) + if last.key == key && last.allowed then [last.attempt.at] else []
  }

  /** The counter under `key` is where its own calls alone, run without any interleaving, would have left it. */
  ghost predicate Separate(db: Database, history: seq<Charge>, key: string) {
    var run := OnKey(history, key);
    AllCountable(run) && Run(run).entry == Lookup(db, key) && Run(run).log == AdmittedOn(history, key)
  }

  lemma ChargeSeparate(db: Database, history: seq<Charge>, c: Charge, key: string)
    requires Separate(db, history, key) && Countable(c.attempt.limit)
    requires var v := VerdictFor(c.attempt.limit, Visible(Lookup(db, c.key), c.attempt.at), c.attempt.at);
             c.allowed == v.allowed
    ensures var v := VerdictFor(c.attempt.limit, Visible(Lookup(db, c.key), c.attempt.at), c.attempt.at);
            Separate(Stored(db, c.key, v, TtlSeconds(c.attempt.limit), c.attempt.at), history + [c], key)
  {
    var run := OnKey(history, key);
    OnKeyAppend(history, c, key);
    assert (history + [c])[..|history|] == history;
    if c.key == key {
      RunAppend(run, c.attempt);
    } else {
      assert OnKey(history + [c], key) == run;
      assert AdmittedOn(history + [c], key) == AdmittedOn(history, key);
    }
  }

  // ---------- each check on its own ----------

  function ChargedBy(c: nat, i: nat): Charge -> bool {
    (h: Charge) => h.check == c && h.index == i && h.allowed
  }

  function DeniedBy(c: nat, i: nat): Charge -> bool {
    (h: Charge) => h.check == c && h.index == i && !h.allowed
  }

  /**
   * A check has charged each bounded limit it has passed exactly once and no other; only a denied one was ever
   * refused.
   */
  ghost predicate ChargedOnce(s: System, c: nat, i: nat)
    requires c < |s.checks| && i < |s.checks[c].limits|
  {
    var check := s.checks[c];
    && CountIf(s.history, ChargedBy(c, i)) == (if i < check.next && !check.limits[i].unlimited then 1 else 0)
    && CountIf(s.history, DeniedBy(c, i)) == (if check.status.Denied? && i == check.next then 1 else 0)
  }

  ghost predicate Safe(s: System) {
    && WellKept(s)
    && (forall key: string :: Separate(s.db, s.history, key))
    && (forall c, i | 0 <= c < |s.checks| && 0 <= i < |s.checks[c].limits| :: ChargedOnce(s, c, i))
    && (forall c | 0 <= c < |s.checks| && s.checks[c].status.Accepted? :: s.checks[c].next == |s.checks[c].limits|)
  }

  lemma UnseenCheck(history: seq<Charge>, c: nat, i: nat)
    requires forall h | 0 <= h < |history| :: history[h].check != c
    ensures CountIf(history, ChargedBy(c, i)) == 0 && CountIf(history, DeniedBy(c, i)) == 0
  {
    CountIfZero(history, ChargedBy(c, i));
    CountIfZero(history, DeniedBy(c, i));
  }

  lemma ArriveSafe(s: System, e: Event)
    requires Safe(s) && Enabled(s, e) && e.Arrive?
    ensures Safe(Step(s, e))
  {
    var s' := Step(s, e);
    forall c, i | 0 <= c < |s'.checks| && 0 <= i < |s'.checks[c].limits| ensures ChargedOnce(s', c, i) {
      if c < |s.checks| {
        assert ChargedOnce(s, c, i);
      } else {
        forall h | 0 <= h < |s.history| ensures s.history[h].check != c { assert Named(s, s.history[h]); }
        UnseenCheck(s.history, c, i);
      }
    }
    forall h | 0 <= h < |s'.history| ensures Named(s', s'.history[h]) { assert Named(s, s.history[h]); }
  }

  /** A step that executes no script only moves one check along. */
  lemma QuietSafe(s: System, c: nat, check: Check)
    requires Safe(s) && c < |s.checks|
    requires check.sender == s.checks[c].sender && check.limits == s.checks[c].limits && check.next <= |check.limits|
    requires !s.checks[c].status.Denied? && !check.status.Denied?
    requires check.status.Accepted? ==> check.next == |check.limits|
    requires check.next == s.checks[c].next
             || (check.next == s.checks[c].next + 1 && s.checks[c].limits[s.checks[c].next].unlimited)
    ensures Safe(s.(checks := s.checks[c := check]))
  {
    var s' := s.(checks := s.checks[c := check]);
    forall d, i | 0 <= d < |s'.checks| && 0 <= i < |s'.checks[d].limits| ensures ChargedOnce(s', d, i) {
      assert ChargedOnce(s, d, i);
    }
    forall h | 0 <= h < |s'.history| ensures Named(s', s'.history[h]) { assert Named(s, s.history[h]); }
    forall key: string ensures Separate(s'.db, s'.history, key) { assert Separate(s.db, s.history, key); }
  }

  lemma ScriptCharges(s: System, charge: Charge, db: Database)
    requires Safe(s) && charge.check < |s.checks|
    requires s.checks[charge.check].status.Running? && charge.index == s.checks[charge.check].next
    requires charge.index < |s.checks[charge.check].limits| && !s.checks[charge.check].limits[charge.index].unlimited
    ensures var s' := AfterScript(s, charge, db);
            && (forall c, i | 0 <= c < |s'.checks| && 0 <= i < |s'.checks[c].limits| :: ChargedOnce(s', c, i))
            && (forall c | 0 <= c < |s'.checks| && s'.checks[c].status.Accepted? ::
               s'.checks[c].next == |s'.checks[c].limits|)
  {
    var s' := AfterScript(s, charge, db);
    forall c, i | 0 <= c < |s'.checks| && 0 <= i < |s'.checks[c].limits| ensures ChargedOnce(s', c, i) {
      assert ChargedOnce(s, c, i);
      CountIfAppend(s.history, charge, ChargedBy(c, i));
      CountIfAppend(s.history, charge, DeniedBy(c, i));
    }
  }

  lemma ScriptNamed(s: System, charge: Charge, db: Database)
    requires WellKept(s) && Named(s, charge) && charge.index == s.checks[charge.check].next
    requires s.history != [] ==> s.history[|s.history| - 1].attempt.at <= charge.attempt.at
    ensures WellKept(AfterScript(s, charge, db))
  {
    var s' := AfterScript(s, charge, db);
    forall h | 0 <= h < |s'.history| ensures Named(s', s'.history[h]) {
      if h < |s.history| { assert Named(s, s.history[h]); }
    }
  }

  /** The system after one script call with the recorded answer. */
  function AfterScript(s: System, charge: Charge, db: Database): System
    requires charge.check < |s.checks|
  {
    var check := s.checks[charge.check];
    var moved := if charge.allowed then check.(next := check.next + 1) else check.(status := Denied);
    System(db, s.checks[charge.check := moved], s.history + [charge])
  }

  lemma ScriptSafe(s: System, e: Event)
    requires Safe(s) && Enabled(s, e) && e.Advance? && !e.fault
    requires s.checks[e.check].next < |s.checks[e.check].limits|
            && !s.checks[e.check].limits[s.checks[e.check].next].unlimited
    ensures Safe(Step(s, e))
  {
    var check := s.checks[e.check];
    var l := check.limits[check.next];
    assert Countable(l);
    var key := KeyForLimit(check.sender, l);
    var v := VerdictFor(l, Visible(Lookup(s.db, key), e.at), e.at);
    var db := Stored(s.db, key, v, TtlSeconds(l), e.at);
    var charge := Charge(e.check, check.next, key, Attempt(e.at, l), v.allowed);
    assert Step(s, e) == AfterScript(s, charge, db);
    ScriptNamed(s, charge, db);
    ScriptCharges(s, charge, db);
    forall k: string ensures Separate(db, s.history + [charge], k) {
      assert Separate(s.db, s.history, k);
      ChargeSeparate(s.db, s.history, charge, k);
    }
  }

  lemma StepSafe(s: System, e: Event)
    requires Safe(s) && Enabled(s, e)
    ensures Safe(Step(s, e))
  {
    if e.Arrive? {
      ArriveSafe(s, e);
    } else {
      var check := s.checks[e.check];
      if check.next == |check.limits| {
        QuietSafe(s, e.check, check.(status := Accepted));
      } else if check.limits[check.next].unlimited {
        QuietSafe(s, e.check, check.(next := check.next + 1));
      } else if e.fault {
        QuietSafe(s, e.check, check.(status := Failed));
      } else {
        ScriptSafe(s, e);
      }
    }
  }

  /**
   * In every state of every interleaving each counter stands where its own calls alone would have left it, and each
   * check has charged exactly the bounded limits it has passed: all of them if accepted, those before the refusing
   * one if denied.
   */
  lemma {:induction false} InterleavingSafe(events: seq<Event>, states: seq<System>, i: nat)
    requires Execution(events, states) && i < |states|
    ensures Safe(states[i])
  {
    if i == 0 {
      forall key: string ensures Separate(map[], [], key) {}
    } else {
      InterleavingSafe(events, states, i - 1);
      StepSafe(states[i - 1], events[i - 1]);
    }
  }

  // ---------- what accepted checks obey ----------

  function AcceptedCharge(s: System, key: string, lo: int, hi: int): Charge -> bool {
    (h: Charge) => h.allowed && h.key == key && lo <= h.attempt.at < hi
                   && h.check < |s.checks| && s.checks[h.check].status.Accepted?
  }

  /** Charges in [lo, hi) on a key by checks that went on to be accepted; each such check has one per bounded limit. */
  function AcceptedCharges(s: System, key: string, lo: int, hi: int): nat {
    CountIf(s.history, AcceptedCharge(s, key, lo, hi))
  }

  lemma {:induction false} AcceptedAreAdmitted(s: System, history: seq<Charge>, key: string, lo: int, hi: int)
    ensures CountIf(history, AcceptedCharge(s, key, lo, hi)) <= CountIn(AdmittedOn(history, key), lo, hi)
  {
    if history != [] {
      var init, last := history[..|history| - 1], history[|history| - 1];
      AcceptedAreAdmitted(s, init, key, lo, hi);
      CountAppend(AdmittedOn(init, key), last.attempt.at, lo, hi);
      assert AdmittedOn(init, key) + [] == AdmittedOn(init, key);
    }
  }

  ghost predicate ChargedWithin(history: seq<Charge>, key: string, bound: nat) {
    forall h | 0 <= h < |history| && history[h].key == key :: history[h].attempt.limit.count <= bound
  }

  lemma {:induction false} OnKeyWithin(history: seq<Charge>, key: string, bound: nat)
    requires ChargedWithin(history, key, bound)
    ensures CountsAtMost(OnKey(history, key), bound)
  {
    if history != [] {
      OnKeyWithin(history[..|history| - 1], key, bound);
    }
  }

  lemma {:induction false} OnKeyBelow(history: seq<Charge>, key: string, top: RateLimit, error: real)
    requires ChargedBelow(history, key, top, error)
    ensures forall i | 0 <= i < |OnKey(history, key)| :: T.Below(OnKey(history, key)[i].limit, top, error)
  {
    if history != [] {
      OnKeyBelow(history[..|history| - 1], key, top, error);
    }
  }

  lemma OnKeyVaries(history: seq<Charge>, key: string, top: RateLimit, error: real)
    requires T.Bucket(top) && ChargedBelow(history, key, top, error) && Ordered(OnKey(history, key))
    ensures T.VaryingRun(OnKey(history, key), top, error)
  {
    OnKeyBelow(history, key, top, error);
  }

  /** In any span, accepted checks have charged a key no more often than the run of its own calls admits. */
  lemma AcceptedFitTheRun(events: seq<Event>, states: seq<System>, i: nat, sender: string, l: RateLimit, lo: int,
                          hi: int)
    requires Execution(events, states) && i < |states| && Countable(l)
    ensures var key := KeyForLimit(sender, l);
            var run := OnKey(states[i].history, key);
            && Ordered(run) && Uniform(run, l.algorithm, l.duration)
            && AcceptedCharges(states[i], key, lo, hi) <= CountIn(Run(run).log, lo, hi)
  {
    var s, key := states[i], KeyForLimit(sender, l);
    InterleavingSafe(events, states, i);
    assert Separate(s.db, s.history, key);
    OnKeyIsUniform(s, s.history, key, sender, l);
    AcceptedAreAdmitted(s, s.history, key, lo, hi);
  }

  /** However checks interleave, accepted ones obey the whole-run bound of every fixed window they list ... */
  lemma AcceptedObeyFixedWindow(events: seq<Event>, states: seq<System>, i: nat, sender: string, l: RateLimit,
                                bound: nat, from: int, hi: int, q: nat)
    requires Execution(events, states) && i < |states|
    requires l.algorithm.FixedWindow? && l.duration > 0 && hi - from <= q * (1000 * l.duration)
    requires ChargedWithin(states[i].history, KeyForLimit(sender, l), bound)
    ensures AcceptedCharges(states[i], KeyForLimit(sender, l), from, hi) <= bound * q + bound
  {
    var key := KeyForLimit(sender, l);
    AcceptedFitTheRun(events, states, i, sender, l, from, hi);
    OnKeyWithin(states[i].history, key, bound);
    F.SpanBound(OnKey(states[i].history, key), l.duration, bound, from, hi, q);
  }

  /** ... of every sliding window ... */
  lemma AcceptedObeySlidingWindow(events: seq<Event>, states: seq<System>, i: nat, sender: string, l: RateLimit,
                                  bound: nat, from: int)
    requires Execution(events, states) && i < |states|
    requires l.algorithm.SlidingWindowCounter? && l.duration > 0
    requires ChargedWithin(states[i].history, KeyForLimit(sender, l), bound)
    ensures AcceptedCharges(states[i], KeyForLimit(sender, l), from, from + 1000 * l.duration) <= 2 * bound
  {
    var key := KeyForLimit(sender, l);
    AcceptedFitTheRun(events, states, i, sender, l, from, from + 1000 * l.duration);
    OnKeyWithin(states[i].history, key, bound);
    S.StretchBound(OnKey(states[i].history, key), l.duration, bound, from);
  }

  ghost predicate ChargedBelow(history: seq<Charge>, key: string, top: RateLimit, error: real) {
    forall h | 0 <= h < |history| && history[h].key == key :: T.Below(history[h].attempt.limit, top, error)
  }

  /**
   * ... and of every token bucket, with the highest capacity and rate that were charged on its key, or the rate at
   * which
   * expiry of the key refills it if that is higher.
   */
  lemma AcceptedObeyTokenBucket(events: seq<Event>, states: seq<System>, i: nat, sender: string, top: RateLimit,
                                error: real, from: int, span: nat)
    requires Execution(events, states) && i < |states|
    requires T.Bucket(top) && error <= 1.0
    requires ChargedBelow(states[i].history, KeyForLimit(sender, top), top, error)
    ensures T.Fits(T.Renewed(top), AcceptedCharges(states[i], KeyForLimit(sender, top), from, from + span), span, error)
    ensures T.FullBeforeExpiry(top) ==>
              T.Fits(top, AcceptedCharges(states[i], KeyForLimit(sender, top), from, from + span), span, error)
  {
    var key := KeyForLimit(sender, top);
    AcceptedFitTheRun(events, states, i, sender, top, from, from + span);
    OnKeyVaries(states[i].history, key, top, error);
    T.SpanBoundFewer(OnKey(states[i].history, key), top, error, from, span,
                     AcceptedCharges(states[i], key, from, from + span));
  }

  // ---------- one check left alone ----------

  predicate Decided(status: Status, o: L.Outcome) {
    match o
    case Accepted => status.Accepted?
    case Denied(_, _) => status.Denied?
    case Failed(_) => status.Failed?
  }

  /** The loop of the sequential check at a bounded limit, given what the script answers there. */
  lemma LoopAtScript(db: Database, sender: string, limits: seq<RateLimit>, clock: seq<nat>, replies: seq<L.Reply>,
                     i: nat,
                     v: Verdict)
    requires i < |limits| == |clock| == |replies| && forall l | l in limits :: Countable(l)
    requires !limits[i].unlimited && !replies[i].Unavailable?
    requires v == VerdictFor(limits[i], Visible(Lookup(db, KeyForLimit(sender, limits[i])), clock[i]), clock[i])
    ensures L.CheckFrom(db, sender, limits, clock, replies, i)
            == if v.allowed
               then L.CheckFrom(Stored(db, KeyForLimit(sender, limits[i]), v, TtlSeconds(limits[i]), clock[i]),
                                sender, limits, clock, replies, i + 1)
               else (db, L.Denied(i, Max(v.usage, 0)))
  {
  }

  /** What a check still has to do before a step is what it has to do after it, and it ends where the step ends. */
  ghost predicate SameRest(s: System, s': System, c: nat, clock: seq<nat>, replies: seq<L.Reply>)
    requires c < |s.checks| && c < |s'.checks|
    requires |s.checks[c].limits| == |clock| == |replies| && s.checks[c].next <= |clock|
    requires forall l | l in s.checks[c].limits :: Countable(l)
  {
    var check, check' := s.checks[c], s'.checks[c];
    var rest := L.CheckFrom(s.db, check.sender, check.limits, clock, replies, check.next);
    if check'.status.Running?
    then check'.next <= |clock| && rest == L.CheckFrom(s'.db, check.sender, check.limits, clock, replies, check'.next)
    else rest.0 == s'.db && Decided(check'.status, rest.1)
  }

  lemma ScriptIsLoopTurn(s: System, e: Event, clock: seq<nat>, replies: seq<L.Reply>)
    requires e.Advance? && !e.fault && Enabled(s, e)
    requires |s.checks[e.check].limits| == |clock| == |replies|
    requires var i := s.checks[e.check].next; i < |clock| && clock[i] == e.at && !replies[i].Unavailable?
    requires !s.checks[e.check].limits[s.checks[e.check].next].unlimited
    ensures SameRest(s, Step(s, e), e.check, clock, replies)
  {
    var check := s.checks[e.check];
    var l := check.limits[check.next];
    var key := KeyForLimit(check.sender, l);
    var v := VerdictFor(l, Visible(Lookup(s.db, key), e.at), e.at);
    var charge := Charge(e.check, check.next, key, Attempt(e.at, l), v.allowed);
    LoopAtScript(s.db, check.sender, check.limits, clock, replies, check.next, v);
    assert Step(s, e) == AfterScript(s, charge, Stored(s.db, key, v, TtlSeconds(l), e.at));
  }

  /** A step is one turn of the loop of the sequential check. */
  lemma StepIsLoopTurn(s: System, e: Event, clock: seq<nat>, replies: seq<L.Reply>)
    requires e.Advance? && Enabled(s, e)
    requires |s.checks[e.check].limits| == |clock| == |replies|
    requires var i := s.checks[e.check].next; i < |clock| ==> clock[i] == e.at && replies[i].Unavailable? == e.fault
    ensures SameRest(s, Step(s, e), e.check, clock, replies)
  {
    var check := s.checks[e.check];
    if check.next < |clock| && !check.limits[check.next].unlimited && !e.fault {
      ScriptIsLoopTurn(s, e, clock, replies);
    }
  }

  /** The step meets the moment and the reply that the sequential check would meet at the same limit. */
  predicate Meets(s: System, e: Event, c: nat, clock: seq<nat>, replies: seq<L.Reply>)
    requires |clock| == |replies|
  {
    && e.Advance? && e.check == c && c < |s.checks|
    && var i := s.checks[c].next; i < |clock| ==> clock[i] == e.at && replies[i].Unavailable? == e.fault
  }

  /**
   * A check whose steps from some point to its end are not interleaved with others ends as the sequential check does.
   */
  lemma {:induction false} AloneIsSequential(events: seq<Event>, states: seq<System>, i: nat, j: nat, c: nat,
                                             clock: seq<nat>, replies: seq<L.Reply>)
    requires Execution(events, states) && i <= j < |states|
    requires c < |states[i].checks| && |states[i].checks[c].limits| == |clock| == |replies|
    requires forall k | i <= k < j :: Meets(states[k], events[k], c, clock, replies)
    requires states[i].checks[c].status.Running? && c < |states[j].checks| && !states[j].checks[c].status.Running?
    ensures var check := states[i].checks[c];
            && check.next <= |clock| && (forall l | l in check.limits :: Countable(l))
            && var rest := L.CheckFrom(states[i].db, check.sender, check.limits, clock, replies, check.next);
               rest.0 == states[j].db && Decided(states[j].checks[c].status, rest.1)
    decreases j - i
  {
    var s, s' := states[i], states[i + 1];
    assert Enabled(s, events[i]) && s' == Step(s, events[i]);
    StepIsLoopTurn(s, events[i], clock, replies);
    StepKeepsCheck(s, events[i]);
    assert i + 1 < j ==> Enabled(s', events[i + 1]);
    if s'.checks[c].status.Running? {
      AloneIsSequential(events, states, i + 1, j, c, clock, replies);
    }
  }

  lemma StepKeepsCheck(s: System, e: Event)
    requires e.Advance? && Enabled(s, e)
    ensures var check, s' := s.checks[e.check], Step(s, e);
            && |s'.checks| == |s.checks|
            && s'.checks[e.check].sender == check.sender && s'.checks[e.check].limits == check.limits
  {
  }
}
