/**
 * Request accounting. A request runs in segments: between two awaits nothing else runs, at an await anything may.
 * The counters are those of the runtime statistics; each segment updates them in place.
 */
module Accounting {
  import opened Prelude
  import opened Adaptive

  datatype Counters = Counters(
    requests: nat, accepted: nat, rejected: nat, deferred: nat, errors: nat,
    validationErrors: nat, blacklisted: nat, rateLimited: nat, slidingWindowChecks: nat,
    adaptiveAdjustments: nat, adaptiveRelaxed: nat, adaptiveTightened: nat)

  class RuntimeStats {
    var totalRequests: nat
    var totalAccepted: nat
    var totalRejected: nat
    var totalDeferred: nat
    var totalErrors: nat
    var totalValidationErrors: nat
    var totalBlacklisted: nat
    var totalRateLimited: nat
    var totalSlidingWindowChecks: nat
    var totalAdaptiveAdjustments: nat
    var totalAdaptiveRelaxed: nat
    var totalAdaptiveTightened: nat

    function Snapshot(): Counters
      reads this
    {
      Counters(totalRequests, totalAccepted, totalRejected, totalDeferred, totalErrors,
               totalValidationErrors, totalBlacklisted, totalRateLimited, totalSlidingWindowChecks,
               totalAdaptiveAdjustments, totalAdaptiveRelaxed, totalAdaptiveTightened)
    }

    constructor ()
      ensures Snapshot() == Counters(0, 0, 0, 0, 0, 0, 0, 0, 0, 0, 0, 0)
    {
      totalRequests, totalAccepted, totalRejected, totalDeferred, totalErrors := 0, 0, 0, 0, 0;
      totalValidationErrors, totalBlacklisted, totalRateLimited, totalSlidingWindowChecks := 0, 0, 0, 0;
      totalAdaptiveAdjustments, totalAdaptiveRelaxed, totalAdaptiveTightened := 0, 0, 0;
    }
  }

  /** What an await or a validator call yields. */
  datatype Check = Passed | Refused | Raised

  datatype Verdict = Allowed | Denied | Unreadable | Interrupted

  /** Everything a request meets on its way, settled by the outside world. */
  datatype Facts = Facts(
    enabled: bool, stateMatches: bool, syntax: Check, deliverability: Check, blacklist: Check,
    matchRaised: bool, hasLimits: bool, hasSelector: bool,
    adaptiveRaised: bool, adjustment: Adjustment, firstUnlimited: bool, anySliding: bool,
    verdict: Verdict, handOffRaised: bool)

  datatype Response = Dunno | Reject | Defer | DbError

  /** Where a request stands: about to run, waiting at an await, or answered. `late` marks a failed hand-off. */
  datatype Stage =
    | Arriving | AtDeliverability | AtMatch | AtAdaptive | AtLimits | AtHandOff
    | Answered(response: Response, late: bool)

  function Fail(k: Counters): (Counters, Stage) {
    (k.(errors := k.errors + 1), Answered(DbError, false))
  }

  function Accept(k: Counters): (Counters, Stage) {
    (k.(accepted := k.accepted + 1), Answered(Dunno, false))
  }

  function ValidationResponse(monitorOnly: bool, k: Counters, blacklisted: bool): (Counters, Stage) {
    var noted := if blacklisted then k.(blacklisted := k.blacklisted + 1)
        else k.(validationErrors := k.validationErrors + 1);
    if monitorOnly then Accept(noted) else (noted.(rejected := noted.rejected + 1), Answered(Reject, false))
  }

  function Adjusted(k: Counters, a: Adjustment): Counters {
    match a
    case Unchanged => k
    case Relaxed => k.(adaptiveAdjustments := k.adaptiveAdjustments + 1, adaptiveRelaxed := k.adaptiveRelaxed + 1)
    case Tightened => k.(adaptiveAdjustments := k.adaptiveAdjustments + 1, adaptiveTightened := k.adaptiveTightened + 1)
  }

  /** The code up to the next await. */
  function Segment(monitorOnly: bool, k: Counters, stage: Stage, q: Facts): (Counters, Stage) {
    match stage
    case Arriving =>
      var counted := k.(requests := k.requests + 1);
      if !q.enabled || !q.stateMatches then Accept(counted)
      else (match q.syntax
            case Raised => Fail(counted)
            case Refused => ValidationResponse(monitorOnly, counted, false)
            case Passed => (counted, AtDeliverability))
    case AtDeliverability =>
      if q.deliverability.Raised? then Fail(k)
      else if q.deliverability.Refused? then ValidationResponse(monitorOnly, k, false)
      else if q.blacklist.Raised? then Fail(k)
      else if q.blacklist.Refused? then ValidationResponse(monitorOnly, k, true)
      else (k, AtMatch)
    case AtMatch =>
      if q.matchRaised then Fail(k) else if !q.hasLimits || !q.hasSelector then Accept(k) else (k, AtAdaptive)
    case AtAdaptive =>
      if q.adaptiveRaised then Fail(k)
      else
        var adjusted := Adjusted(k, q.adjustment);
        if q.firstUnlimited then Accept(adjusted)
        else (if q.anySliding then adjusted.(slidingWindowChecks := adjusted.slidingWindowChecks + 1) else adjusted,
              AtLimits)
    case AtLimits =>
      (match q.verdict
       case Allowed => Accept(k)
       case Denied => (k.(rateLimited := k.rateLimited + 1, deferred := k.deferred + 1), AtHandOff)
       case Unreadable => Fail(k)
       case Interrupted => Fail(k))
    case AtHandOff =>
      if q.handOffRaised then (k.(errors := k.errors + 1), Answered(DbError, true)) else (k, Answered(Defer, false))
    case Answered(_, _) => (k, stage)
  }

  /** A request left to itself, from stage to answer. */
  function Handled(monitorOnly: bool, k: Counters, stage: Stage, q: Facts): (Counters, Stage)
    decreases Distance(stage)
  {
    if stage.Answered? then (k, stage)
    else
      var (k', stage') := Segment(monitorOnly, k, stage, q);
      Handled(monitorOnly, k', stage', q)
  }

  function Distance(stage: Stage): nat {
    match stage
    case Arriving => 6
    case AtDeliverability => 5
    case AtMatch => 4
    case AtAdaptive => 3
    case AtLimits => 2
    case AtHandOff => 1
    case Answered(_, _) => 0
  }

  // ---------- the answer, from the facts alone ----------

  predicate Evaluated(q: Facts) {
    q.enabled && q.stateMatches
  }

  predicate BadAddress(q: Facts) {
    Evaluated(q) && (q.syntax.Refused? || (q.syntax.Passed? && q.deliverability.Refused?))
  }

  predicate Addressed(q: Facts) {
    Evaluated(q) && q.syntax.Passed? && q.deliverability.Passed?
  }

  predicate Blacklisted(q: Facts) {
    Addressed(q) && q.blacklist.Refused?
  }

  predicate Limited(q: Facts) {
    Addressed(q) && q.blacklist.Passed? && !q.matchRaised && q.hasLimits && q.hasSelector
  }

  /** The request gets as far as the check against its limits. */
  predicate Checked(q: Facts) {
    Limited(q) && !q.adaptiveRaised && !q.firstUnlimited
  }

  predicate OverLimit(q: Facts) {
    Checked(q) && q.verdict.Denied?
  }

  /** Something on the way of the request raises, or the verdict cannot be read. */
  predicate Broken(q: Facts) {
    || (Evaluated(q) && (q.syntax.Raised? || (q.syntax.Passed? && q.deliverability.Raised?)))
    || (Addressed(q) && (q.blacklist.Raised? || (q.blacklist.Passed? && q.matchRaised)))
    || (Limited(q) && q.adaptiveRaised)
    || (Checked(q) && (q.verdict.Unreadable? || q.verdict.Interrupted?))
    || (OverLimit(q) && q.handOffRaised)
  }

  /**
   * A request is deferred exactly when it is over its limit, answered with the database error exactly when something
   * raises, rejected exactly when validation refuses it outside monitor-only mode, and let through otherwise.
   */
  predicate RightAnswer(monitorOnly: bool, q: Facts, r: Response) {
    && (r == Defer <==> OverLimit(q) && !q.handOffRaised)
    && (r == DbError <==> Broken(q))
    && (r == Reject <==> !monitorOnly && (BadAddress(q) || Blacklisted(q)))
  }

  /** What the request adds to each counter by the time it is answered. */
  predicate RightCounts(k: Counters, k': Counters, q: Facts, r: Response) {
    && k'.requests == k.requests + 1
    && k'.accepted == k.accepted + One(r == Dunno)
    && k'.rejected == k.rejected + One(r == Reject)
    && k'.errors == k.errors + One(r == DbError)
    && k'.deferred == k.deferred + One(OverLimit(q))
    && k'.rateLimited == k.rateLimited + One(OverLimit(q))
    && k'.validationErrors == k.validationErrors + One(BadAddress(q))
    && k'.blacklisted == k.blacklisted + One(Blacklisted(q))
    && k'.slidingWindowChecks == k.slidingWindowChecks + One(Checked(q) && q.anySliding)
    && k'.adaptiveRelaxed == k.adaptiveRelaxed + One(Limited(q) && !q.adaptiveRaised && q.adjustment == Relaxed)
    && k'.adaptiveTightened == k.adaptiveTightened + One(Limited(q) && !q.adaptiveRaised && q.adjustment == Tightened)
    && k'.adaptiveAdjustments
       == k.adaptiveAdjustments + One(Limited(q) && !q.adaptiveRaised && q.adjustment != Unchanged)
  }

  /** What the facts must be like for a request to have got to a stage. */
  predicate OnTrack(monitorOnly: bool, q: Facts, stage: Stage) {
    match stage
    case Arriving => true
    case AtDeliverability => Evaluated(q) && q.syntax.Passed?
    case AtMatch => Addressed(q) && q.blacklist.Passed?
    case AtAdaptive => Limited(q)
    case AtLimits => Checked(q)
    case AtHandOff => OverLimit(q)
    case Answered(r, late) => RightAnswer(monitorOnly, q, r) && (late <==> OverLimit(q) && q.handOffRaised)
  }

  predicate Past(stage: Stage) {
    stage.AtLimits? || stage.AtHandOff? || stage.Answered?
  }

  predicate HasRelaxed(q: Facts, stage: Stage) {
    Past(stage) && Limited(q) && !q.adaptiveRaised && q.adjustment == Relaxed
  }

  predicate HasTightened(q: Facts, stage: Stage) {
    Past(stage) && Limited(q) && !q.adaptiveRaised && q.adjustment == Tightened
  }

  /** What a request has added to the counters by the time it gets to a stage. */
  function Share(q: Facts, stage: Stage): Counters {
    var over := stage.AtHandOff? || (stage.Answered? && OverLimit(q));
    Counters(One(!stage.Arriving?), One(stage.Answered? && stage.response == Dunno),
             One(stage.Answered? && stage.response == Reject), One(over),
             One(stage.Answered? && stage.response == DbError),
             One(stage.Answered? && BadAddress(q)), One(stage.Answered? && Blacklisted(q)), One(over),
             One(Past(stage) && Checked(q) && q.anySliding),
             One(HasRelaxed(q, stage)) + One(HasTightened(q, stage)),
             One(HasRelaxed(q, stage)), One(HasTightened(q, stage)))
  }

  function Plus(a: Counters, b: Counters): Counters {
    Counters(a.requests + b.requests, a.accepted + b.accepted, a.rejected + b.rejected, a.deferred + b.deferred,
             a.errors + b.errors, a.validationErrors + b.validationErrors, a.blacklisted + b.blacklisted,
             a.rateLimited + b.rateLimited, a.slidingWindowChecks + b.slidingWindowChecks,
             a.adaptiveAdjustments + b.adaptiveAdjustments, a.adaptiveRelaxed + b.adaptiveRelaxed,
             a.adaptiveTightened + b.adaptiveTightened)
  }

  predicate Right(monitorOnly: bool, k: Counters, stage: Stage, q: Facts) {
    var (k', stage') := Segment(monitorOnly, k, stage, q);
    OnTrack(monitorOnly, q, stage') && Plus(k', Share(q, stage)) == Plus(k, Share(q, stage'))
  }

  lemma ArrivalRight(monitorOnly: bool, k: Counters, q: Facts)
    ensures Right(monitorOnly, k, Arriving, q)
  {
    if !Evaluated(q) {
    } else if q.syntax.Raised? {
    } else if q.syntax.Refused? {
    }
  }

  lemma DeliverabilityRight(monitorOnly: bool, k: Counters, q: Facts)
    requires Evaluated(q) && q.syntax.Passed?
    ensures Right(monitorOnly, k, AtDeliverability, q)
  {
    if q.deliverability.Raised? {
    } else if q.deliverability.Refused? {
    } else if q.blacklist.Raised? {
    } else if q.blacklist.Refused? {
    }
  }

  lemma MatchRight(monitorOnly: bool, k: Counters, q: Facts)
    requires Addressed(q) && q.blacklist.Passed?
    ensures Right(monitorOnly, k, AtMatch, q)
  {
    if q.matchRaised {
    } else if !q.hasLimits || !q.hasSelector {
    }
  }

  lemma AdaptiveRight(monitorOnly: bool, k: Counters, q: Facts)
    requires Limited(q)
    ensures Right(monitorOnly, k, AtAdaptive, q)
  {
    if q.adaptiveRaised {
    } else if q.firstUnlimited {
    } else if q.anySliding {
    }
  }

  lemma CheckedShares(q: Facts, r: Response)
    requires Checked(q) && !OverLimit(q) && (r == Dunno || r == DbError)
    ensures var share := Share(q, AtLimits);
            Share(q, Answered(r, false))
            == share.(accepted := share.accepted + One(r == Dunno), errors := share.errors + One(r == DbError))
  {
  }

  lemma DeniedShares(q: Facts)
    requires OverLimit(q)
    ensures var share := Share(q, AtLimits);
            Share(q, AtHandOff) == share.(deferred := share.deferred + 1, rateLimited := share.rateLimited + 1)
  {
  }

  lemma PlusAnswer(k: Counters, share: Counters, a: nat, e: nat)
    ensures Plus(k.(accepted := k.accepted + a, errors := k.errors + e), share)
            == Plus(k, share.(accepted := share.accepted + a, errors := share.errors + e))
  {
  }

  lemma PlusDenial(k: Counters, share: Counters)
    ensures Plus(k.(deferred := k.deferred + 1, rateLimited := k.rateLimited + 1), share)
            == Plus(k, share.(deferred := share.deferred + 1, rateLimited := share.rateLimited + 1))
  {
  }

  lemma CheckedAnswers(monitorOnly: bool, q: Facts)
    requires Checked(q)
    ensures q.verdict.Allowed? ==> OnTrack(monitorOnly, q, Answered(Dunno, false))
    ensures q.verdict.Unreadable? || q.verdict.Interrupted? ==> OnTrack(monitorOnly, q, Answered(DbError, false))
  {
  }

  lemma DeniedRight(monitorOnly: bool, k: Counters, q: Facts)
    requires OverLimit(q)
    ensures Right(monitorOnly, k, AtLimits, q)
  {
    DeniedShares(q);
    PlusDenial(k, Share(q, AtLimits));
    assert Segment(monitorOnly, k, AtLimits, q)
        == (k.(rateLimited := k.rateLimited + 1, deferred := k.deferred + 1), AtHandOff);
  }

  lemma NotDeniedRight(monitorOnly: bool, k: Counters, q: Facts, r: Response)
    requires Checked(q) && !OverLimit(q) && r == if q.verdict.Allowed? then Dunno else DbError
    ensures Right(monitorOnly, k, AtLimits, q)
  {
    CheckedAnswers(monitorOnly, q);
    CheckedShares(q, r);
    PlusAnswer(k, Share(q, AtLimits), One(r == Dunno), One(r == DbError));
    assert Segment(monitorOnly, k, AtLimits, q)
        == (k.(accepted := k.accepted + One(r == Dunno), errors := k.errors + One(r == DbError)), Answered(r, false));
  }

  lemma OverLimitAnswers(monitorOnly: bool, q: Facts)
    requires OverLimit(q)
    ensures if q.handOffRaised then OnTrack(monitorOnly, q, Answered(DbError, true))
            else OnTrack(monitorOnly, q, Answered(Defer, false))
  {
  }

  lemma OverLimitShares(q: Facts, r: Response, late: bool)
    requires OverLimit(q) && (r == Defer || r == DbError)
    ensures var share := Share(q, AtHandOff);
            Share(q, Answered(r, late)) == share.(errors := share.errors + One(r == DbError))
  {
  }

  lemma PlusErrors(k: Counters, share: Counters, n: nat)
    ensures Plus(k.(errors := k.errors + n), share) == Plus(k, share.(errors := share.errors + n))
  {
  }

  lemma HandOffRaisedRight(monitorOnly: bool, k: Counters, q: Facts)
    requires OverLimit(q) && q.handOffRaised
    ensures Right(monitorOnly, k, AtHandOff, q)
  {
    OverLimitAnswers(monitorOnly, q);
    OverLimitShares(q, DbError, true);
    PlusErrors(k, Share(q, AtHandOff), 1);
    assert Segment(monitorOnly, k, AtHandOff, q) == (k.(errors := k.errors + 1), Answered(DbError, true));
  }

  lemma HandOffDoneRight(monitorOnly: bool, k: Counters, q: Facts)
    requires OverLimit(q) && !q.handOffRaised
    ensures Right(monitorOnly, k, AtHandOff, q)
  {
    OverLimitAnswers(monitorOnly, q);
    OverLimitShares(q, Defer, false);
    assert Segment(monitorOnly, k, AtHandOff, q) == (k, Answered(Defer, false));
  }

  /** One segment keeps the request on track and adds its part of the share. */
  lemma SegmentRight(monitorOnly: bool, k: Counters, stage: Stage, q: Facts)
    requires OnTrack(monitorOnly, q, stage)
    ensures Right(monitorOnly, k, stage, q)
  {
    match stage
    case Arriving => ArrivalRight(monitorOnly, k, q);
    case AtDeliverability => DeliverabilityRight(monitorOnly, k, q);
    case AtMatch => MatchRight(monitorOnly, k, q);
    case AtAdaptive => AdaptiveRight(monitorOnly, k, q);
    case AtLimits =>
      if OverLimit(q) {
        DeniedRight(monitorOnly, k, q);
      } else {
        NotDeniedRight(monitorOnly, k, q, if q.verdict.Allowed? then Dunno else DbError);
      }
    case AtHandOff =>
      if q.handOffRaised {
        HandOffRaisedRight(monitorOnly, k, q);
      } else {
        HandOffDoneRight(monitorOnly, k, q);
      }
    case Answered(_, _) =>
  }

  /** A segment keeps a request on track and a measure of it level with the counters. */
  ghost predicate Keeps(monitorOnly: bool, q: Facts, share: Stage -> Counters, k: Counters, stage: Stage) {
    OnTrack(monitorOnly, q, stage) ==>
      var (k', stage') := Segment(monitorOnly, k, stage, q);
      OnTrack(monitorOnly, q, stage') && Plus(k', share(stage)) == Plus(k, share(stage'))
  }

  lemma PlusChain(k: Counters, k1: Counters, k2: Counters, a: Counters, b: Counters, c: Counters)
    requires Plus(k1, a) == Plus(k, b) && Plus(k2, b) == Plus(k1, c)
    ensures Plus(k2, a) == Plus(k, c)
  {
  }

  lemma {:induction false} HandledKeeps(monitorOnly: bool, k: Counters, stage: Stage, q: Facts,
                                        share: Stage -> Counters)
    requires OnTrack(monitorOnly, q, stage) && forall k, stage :: Keeps(monitorOnly, q, share, k, stage)
    ensures var (k', stage') := Handled(monitorOnly, k, stage, q);
            stage'.Answered? && OnTrack(monitorOnly, q, stage') && Plus(k', share(stage)) == Plus(k, share(stage'))
    decreases Distance(stage)
  {
    if !stage.Answered? {
      assert Keeps(monitorOnly, q, share, k, stage);
      var (k1, stage1) := Segment(monitorOnly, k, stage, q);
      HandledKeeps(monitorOnly, k1, stage1, q, share);
      var (k2, stage2) := Handled(monitorOnly, k1, stage1, q);
      PlusChain(k, k1, k2, share(stage), share(stage1), share(stage2));
    }
  }

  lemma HandledRight(monitorOnly: bool, k: Counters, q: Facts)
    ensures var (k', stage) := Handled(monitorOnly, k, Arriving, q);
            stage.Answered? && OnTrack(monitorOnly, q, stage) && Plus(k', Share(q, Arriving))
                == Plus(k, Share(q, stage))
  {
    var share := (stage: Stage) => Share(q, stage);
    forall k, stage ensures Keeps(monitorOnly, q, share, k, stage) {
      if OnTrack(monitorOnly, q, stage) {
        SegmentRight(monitorOnly, k, stage, q);
      }
    }
    HandledKeeps(monitorOnly, k, Arriving, q, share);
  }

  lemma ShareCounts(k: Counters, k': Counters, q: Facts, r: Response, late: bool)
    requires Plus(k', Share(q, Arriving)) == Plus(k, Share(q, Answered(r, late)))
    ensures RightCounts(k, k', q, r)
  {
  }

  /** A request by itself gets the right answer and moves the right counters. */
  lemma AnsweredRight(monitorOnly: bool, k: Counters, q: Facts)
    ensures var (k', stage) := Handled(monitorOnly, k, Arriving, q);
            stage.Answered? && RightAnswer(monitorOnly, q, stage.response) && RightCounts(k, k', q, stage.response)
  {
    var (k', stage) := Handled(monitorOnly, k, Arriving, q);
    HandledRight(monitorOnly, k, q);
    ShareCounts(k, k', q, stage.response, stage.late);
  }

  class RequestHandler {
    const stats: RuntimeStats
    const monitorOnly: bool

    constructor (stats: RuntimeStats, monitorOnly: bool)
      ensures this.stats == stats && this.monitorOnly == monitorOnly
    {
      this.stats := stats;
      this.monitorOnly := monitorOnly;
    }

    method RespondToValidation(blacklisted: bool) returns (response: Response)
      modifies stats
      ensures (stats.Snapshot(), Answered(response, false))
              == ValidationResponse(monitorOnly, old(stats.Snapshot()), blacklisted)
    {
      if blacklisted {
        stats.totalBlacklisted := stats.totalBlacklisted + 1;
      } else {
        stats.totalValidationErrors := stats.totalValidationErrors + 1;
      }
      if monitorOnly {
        stats.totalAccepted := stats.totalAccepted + 1;
        return Dunno;
      }
      stats.totalRejected := stats.totalRejected + 1;
      return Reject;
    }

    /** One request with nothing in between its segments. */
    method Handle(q: Facts) returns (response: Response)
      modifies stats
      ensures var (k, stage) := Handled(monitorOnly, old(stats.Snapshot()), Arriving, q);
              stats.Snapshot() == k && stage.Answered? && response == stage.response
      ensures RightAnswer(monitorOnly, q, response) && RightCounts(old(stats.Snapshot()), stats.Snapshot(), q, response)
    {
      AnsweredRight(monitorOnly, stats.Snapshot(), q);
      stats.totalRequests := stats.totalRequests + 1;
      if !q.enabled || !q.stateMatches {
        stats.totalAccepted := stats.totalAccepted + 1;
        return Dunno;
      }
      if q.syntax.Raised? {
        stats.totalErrors := stats.totalErrors + 1;
        return DbError;
      }
      if q.syntax.Refused? {
        response := RespondToValidation(false);
        return;
      }
      assert Handled(monitorOnly, old(stats.Snapshot()), Arriving, q)
             == Handled(monitorOnly, stats.Snapshot(), AtDeliverability, q);
      response := Continue(q);
    }

    /** The part of the evaluation after the deliverability check has been started. */
    method Continue(q: Facts) returns (response: Response)
      modifies stats
      ensures var (k, stage) := Handled(monitorOnly, old(stats.Snapshot()), AtDeliverability, q);
              stats.Snapshot() == k && stage.Answered? && response == stage.response
    {
      if q.deliverability.Raised? || (q.deliverability.Passed? && q.blacklist.Raised?) {
        stats.totalErrors := stats.totalErrors + 1;
        return DbError;
      }
      if q.deliverability.Refused? || q.blacklist.Refused? {
        response := RespondToValidation(q.deliverability.Passed?);
        return;
      }
      if q.matchRaised {
        stats.totalErrors := stats.totalErrors + 1;
        return DbError;
      }
      if !q.hasLimits || !q.hasSelector {
        stats.totalAccepted := stats.totalAccepted + 1;
        return Dunno;
      }
      assert Handled(monitorOnly, old(stats.Snapshot()), AtDeliverability, q)
             == Handled(monitorOnly, stats.Snapshot(), AtMatch, q);
      assert Handled(monitorOnly, stats.Snapshot(), AtMatch, q)
             == Handled(monitorOnly, stats.Snapshot(), AtAdaptive, q);
      response := Limit(q);
    }

    method CountAdjustment(a: Adjustment)
      modifies stats
      ensures stats.Snapshot() == Adjusted(old(stats.Snapshot()), a)
    {
      if a != Unchanged {
        stats.totalAdaptiveAdjustments := stats.totalAdaptiveAdjustments + 1;
        if a == Relaxed {
          stats.totalAdaptiveRelaxed := stats.totalAdaptiveRelaxed + 1;
        } else {
          stats.totalAdaptiveTightened := stats.totalAdaptiveTightened + 1;
        }
      }
    }

    /** The part from adaptive scaling on. */
    method Limit(q: Facts) returns (response: Response)
      modifies stats
      ensures var (k, stage) := Handled(monitorOnly, old(stats.Snapshot()), AtAdaptive, q);
              stats.Snapshot() == k && stage.Answered? && response == stage.response
    {
      if q.adaptiveRaised {
        stats.totalErrors := stats.totalErrors + 1;
        return DbError;
      }
      CountAdjustment(q.adjustment);
      if q.firstUnlimited {
        stats.totalAccepted := stats.totalAccepted + 1;
        return Dunno;
      }
      if q.anySliding {
        stats.totalSlidingWindowChecks := stats.totalSlidingWindowChecks + 1;
      }
      response := Answer(q);
    }

    /** The part after the check against the limits has been started. */
    method Answer(q: Facts) returns (response: Response)
      modifies stats
      ensures var (k, stage) := Handled(monitorOnly, old(stats.Snapshot()), AtLimits, q);
              stats.Snapshot() == k && stage.Answered? && response == stage.response
    {
      if q.verdict.Unreadable? || q.verdict.Interrupted? {
        stats.totalErrors := stats.totalErrors + 1;
        return DbError;
      }
      if q.verdict.Denied? {
        stats.totalRateLimited := stats.totalRateLimited + 1;
        stats.totalDeferred := stats.totalDeferred + 1;
        if q.handOffRaised {
          stats.totalErrors := stats.totalErrors + 1;
          return DbError;
        }
        return Defer;
      }
      stats.totalAccepted := stats.totalAccepted + 1;
      return Dunno;
    }
  }

  // ---------- many requests at once ----------

  datatype Request = Request(facts: Facts, stage: Stage)

  datatype System = System(counters: Counters, requests: seq<Request>)

  datatype Event = Arrive(facts: Facts) | Resume(request: nat)

  predicate Enabled(s: System, e: Event) {
    e.Resume? ==> e.request < |s.requests|
  }

  function Step(monitorOnly: bool, s: System, e: Event): System
    requires Enabled(s, e)
  {
    match e
    case Arrive(q) => s.(requests := s.requests + [Request(q, Arriving)])
    case Resume(i) =>
      var (k, stage) := Segment(monitorOnly, s.counters, s.requests[i].stage, s.requests[i].facts);
      System(k, s.requests[i := s.requests[i].(stage := stage)])
  }

  ghost predicate Execution(monitorOnly: bool, events: seq<Event>, states: seq<System>) {
    && |states| == |events| + 1 && states[0] == System(Counters(0, 0, 0, 0, 0, 0, 0, 0, 0, 0, 0, 0), [])
    && forall i | 0 <= i < |events| ::
       Enabled(states[i], events[i]) && states[i + 1] == Step(monitorOnly, states[i], events[i])
  }

  function AnsweredWith(r: Response): Request -> bool {
    (x: Request) => x.stage.Answered? && x.stage.response == r
  }

  function AnsweredLate(): Request -> bool {
    (x: Request) => x.stage.Answered? && x.stage.late
  }

  function HandingOff(): Request -> bool {
    (x: Request) => x.stage.AtHandOff?
  }

  function Running(): Request -> bool {
    (x: Request) => !x.stage.Arriving?
  }

  /** Each counter is the number of requests that have had that answer; a deferral is counted before its hand-off. */
  ghost predicate Booked(monitorOnly: bool, s: System) {
    var k := s.counters;
    && k.requests == CountIf(s.requests, Running())
    && k.accepted == CountIf(s.requests, AnsweredWith(Dunno))
    && k.rejected == CountIf(s.requests, AnsweredWith(Reject))
    && k.errors == CountIf(s.requests, AnsweredWith(DbError))
    && k.deferred == CountIf(s.requests, AnsweredWith(Defer)) + CountIf(s.requests, HandingOff())
                     + CountIf(s.requests, AnsweredLate())
    && k.rateLimited == k.deferred
    && k.adaptiveAdjustments == k.adaptiveRelaxed + k.adaptiveTightened
    && (if monitorOnly then k.rejected == 0 else k.rejected == k.validationErrors + k.blacklisted)
  }

  /** What one segment adds to the counters matches what it does to the request. */
  lemma SegmentBooked(monitorOnly: bool, k: Counters, stage: Stage, q: Facts)
    requires k.rateLimited == k.deferred && k.adaptiveAdjustments == k.adaptiveRelaxed + k.adaptiveTightened
    requires if monitorOnly then k.rejected == 0 else k.rejected == k.validationErrors + k.blacklisted
    ensures var (k', stage') := Segment(monitorOnly, k, stage, q);
            var was, now := Request(q, stage), Request(q, stage');
            && k'.requests - k.requests == One(Running()(now)) - One(Running()(was))
            && k'.accepted - k.accepted == One(AnsweredWith(Dunno)(now)) - One(AnsweredWith(Dunno)(was))
            && k'.rejected - k.rejected == One(AnsweredWith(Reject)(now)) - One(AnsweredWith(Reject)(was))
            && k'.errors - k.errors == One(AnsweredWith(DbError)(now)) - One(AnsweredWith(DbError)(was))
            && k'.deferred - k.deferred
               == One(AnsweredWith(Defer)(now)) - One(AnsweredWith(Defer)(was))
                  + One(HandingOff()(now)) - One(HandingOff()(was))
                  + One(AnsweredLate()(now)) - One(AnsweredLate()(was))
            && k'.rateLimited == k'.deferred && k'.adaptiveAdjustments == k'.adaptiveRelaxed + k'.adaptiveTightened
            && (if monitorOnly then k'.rejected == 0 else k'.rejected == k'.validationErrors + k'.blacklisted)
  {
  }

  lemma ResumeBooked(monitorOnly: bool, s: System, i: nat)
    requires i < |s.requests| && Booked(monitorOnly, s)
    ensures Booked(monitorOnly, Step(monitorOnly, s, Resume(i)))
  {
    var x := s.requests[i];
    SegmentBooked(monitorOnly, s.counters, x.stage, x.facts);
    var (k, stage) := Segment(monitorOnly, s.counters, x.stage, x.facts);
    var y := x.(stage := stage);
    assert y == Request(x.facts, stage) && x == Request(x.facts, x.stage);
    CountIfUpdate(s.requests, i, y, Running());
    CountIfUpdate(s.requests, i, y, AnsweredWith(Dunno));
    CountIfUpdate(s.requests, i, y, AnsweredWith(Reject));
    CountIfUpdate(s.requests, i, y, AnsweredWith(DbError));
    CountIfUpdate(s.requests, i, y, AnsweredWith(Defer));
    CountIfUpdate(s.requests, i, y, HandingOff());
    CountIfUpdate(s.requests, i, y, AnsweredLate());
  }

  lemma ArriveBooked(monitorOnly: bool, s: System, q: Facts)
    requires Booked(monitorOnly, s)
    ensures Booked(monitorOnly, Step(monitorOnly, s, Arrive(q)))
  {
    var x := Request(q, Arriving);
    CountIfAppend(s.requests, x, Running());
    CountIfAppend(s.requests, x, AnsweredWith(Dunno));
    CountIfAppend(s.requests, x, AnsweredWith(Reject));
    CountIfAppend(s.requests, x, AnsweredWith(DbError));
    CountIfAppend(s.requests, x, AnsweredWith(Defer));
    CountIfAppend(s.requests, x, HandingOff());
    CountIfAppend(s.requests, x, AnsweredLate());
  }

  /** At every await point of every interleaving the counters agree with the answers given. */
  lemma {:induction false} CountersMatchAnswers(monitorOnly: bool, events: seq<Event>, states: seq<System>, i: nat)
    requires Execution(monitorOnly, events, states) && i < |states|
    ensures Booked(monitorOnly, states[i])
  {
    if i > 0 {
      CountersMatchAnswers(monitorOnly, events, states, i - 1);
      match events[i - 1] {
        case Arrive(q) => ArriveBooked(monitorOnly, states[i - 1], q);
        case Resume(j) => ResumeBooked(monitorOnly, states[i - 1], j);
      }
    }
  }

  ghost predicate Quiet(s: System) {
    forall i | 0 <= i < |s.requests| :: s.requests[i].stage.Answered?
  }

  lemma {:induction false} AnswersPartition(requests: seq<Request>)
    requires forall i | 0 <= i < |requests| :: requests[i].stage.Answered?
    ensures CountIf(requests, AnsweredWith(Dunno)) + CountIf(requests, AnsweredWith(Reject))
            + CountIf(requests, AnsweredWith(Defer)) + CountIf(requests, AnsweredWith(DbError)) == |requests|
    ensures CountIf(requests, HandingOff()) == 0 && CountIf(requests, Running()) == |requests|
  {
    if requests != [] {
      AnswersPartition(requests[..|requests| - 1]);
    }
  }

  /**
   * Conservation: when no request is under way, accepted, rejected, deferred and errors add up to the requests plus
   * those whose hand-off failed after they had been counted as deferred, which are counted twice.
   */
  lemma RequestsConserved(monitorOnly: bool, events: seq<Event>, states: seq<System>, i: nat)
    requires Execution(monitorOnly, events, states) && i < |states| && Quiet(states[i])
    ensures var k := states[i].counters;
            k.accepted + k.rejected + k.deferred + k.errors == k.requests + CountIf(states[i].requests, AnsweredLate())
    ensures states[i].counters.rateLimited == states[i].counters.deferred
    ensures states[i].counters.adaptiveAdjustments
            == states[i].counters.adaptiveRelaxed + states[i].counters.adaptiveTightened
  {
    CountersMatchAnswers(monitorOnly, events, states, i);
    AnswersPartition(states[i].requests);
  }

  // ---------- the right answers, whatever the interleaving ----------

  function ShareOf(): Request -> Counters {
    (x: Request) => Share(x.facts, x.stage)
  }

  /** The shares of all requests together. */
  function Shares(requests: seq<Request>, share: Request -> Counters): Counters {
    if requests == [] then Counters(0, 0, 0, 0, 0, 0, 0, 0, 0, 0, 0, 0)
    else Plus(Shares(requests[..|requests| - 1], share), share(requests[|requests| - 1]))
  }

  lemma {:induction false} SharesUpdate(requests: seq<Request>, i: nat, x: Request, share: Request -> Counters)
    requires i < |requests|
    ensures Plus(Shares(requests[i := x], share), share(requests[i])) == Plus(Shares(requests, share), share(x))
  {
    var last := |requests| - 1;
    if i == last {
      assert requests[i := x][..last] == requests[..last];
    } else {
      assert requests[i := x][..last] == requests[..last][i := x];
      SharesUpdate(requests[..last], i, x, share);
    }
  }

  lemma SharesAppend(requests: seq<Request>, x: Request, share: Request -> Counters)
    ensures Shares(requests + [x], share) == Plus(Shares(requests, share), share(x))
  {
    assert (requests + [x])[..|requests|] == requests;
  }

  ghost predicate AllOnTrack(monitorOnly: bool, s: System) {
    forall i | 0 <= i < |s.requests| :: OnTrack(monitorOnly, s.requests[i].facts, s.requests[i].stage)
  }

  ghost predicate AllRight(monitorOnly: bool, s: System) {
    s.counters == Shares(s.requests, ShareOf()) && AllOnTrack(monitorOnly, s)
  }

  lemma PlusSwaps(k: Counters, k': Counters, shares: Counters, was: Counters, now: Counters)
    requires Plus(k', was) == Plus(k, now) && Plus(shares, was) == Plus(k, now)
    ensures k' == shares
  {
  }

  lemma ResumeRight(monitorOnly: bool, s: System, i: nat)
    requires i < |s.requests| && AllRight(monitorOnly, s)
    ensures AllRight(monitorOnly, Step(monitorOnly, s, Resume(i)))
  {
    var x := s.requests[i];
    var (k, stage) := Segment(monitorOnly, s.counters, x.stage, x.facts);
    var y := x.(stage := stage);
    SegmentRight(monitorOnly, s.counters, x.stage, x.facts);
    SharesUpdate(s.requests, i, y, ShareOf());
    PlusSwaps(s.counters, k, Shares(s.requests[i := y], ShareOf()), ShareOf()(x), ShareOf()(y));
  }

  lemma NothingYet(q: Facts)
    ensures ShareOf()(Request(q, Arriving)) == Counters(0, 0, 0, 0, 0, 0, 0, 0, 0, 0, 0, 0)
  {
  }

  lemma ArriveOnTrack(monitorOnly: bool, s: System, q: Facts)
    requires AllOnTrack(monitorOnly, s)
    ensures AllOnTrack(monitorOnly, s.(requests := s.requests + [Request(q, Arriving)]))
  {
  }

  lemma ArriveRight(monitorOnly: bool, s: System, q: Facts)
    requires AllRight(monitorOnly, s)
    ensures AllRight(monitorOnly, s.(requests := s.requests + [Request(q, Arriving)]))
  {
    var share := ShareOf();
    SharesAppend(s.requests, Request(q, Arriving), share);
    NothingYet(q);
    PlusNothing(Shares(s.requests, share));
    ArriveOnTrack(monitorOnly, s, q);
  }

  lemma PlusNothing(k: Counters)
    ensures Plus(k, Counters(0, 0, 0, 0, 0, 0, 0, 0, 0, 0, 0, 0)) == k
  {
  }

  lemma {:induction false} RunRight(monitorOnly: bool, events: seq<Event>, states: seq<System>, i: nat)
    requires Execution(monitorOnly, events, states) && i < |states|
    ensures AllRight(monitorOnly, states[i])
  {
    if i > 0 {
      RunRight(monitorOnly, events, states, i - 1);
      assert Enabled(states[i - 1], events[i - 1]) && states[i] == Step(monitorOnly, states[i - 1], events[i - 1]);
      match events[i - 1] {
        case Arrive(q) => ArriveRight(monitorOnly, states[i - 1], q);
        case Resume(j) => ResumeRight(monitorOnly, states[i - 1], j);
      }
    }
  }

  /** In every interleaving the counters are the sum, over all requests, of what each has called for so far. */
  lemma CountersAreShares(monitorOnly: bool, events: seq<Event>, states: seq<System>, i: nat)
    requires Execution(monitorOnly, events, states) && i < |states|
    ensures states[i].counters == Shares(states[i].requests, ShareOf())
  {
    RunRight(monitorOnly, events, states, i);
  }

  lemma AnsweredOnTrack(monitorOnly: bool, x: Request)
    requires OnTrack(monitorOnly, x.facts, x.stage) && x.stage.Answered?
    ensures RightAnswer(monitorOnly, x.facts, x.stage.response)
  {
  }

  lemma TrackOf(monitorOnly: bool, s: System, j: nat)
    requires AllRight(monitorOnly, s) && j < |s.requests|
    ensures OnTrack(monitorOnly, s.requests[j].facts, s.requests[j].stage)
  {
  }

  /** In every interleaving each answered request got the answer that its facts call for. */
  lemma AnswersRight(monitorOnly: bool, events: seq<Event>, states: seq<System>, i: nat, j: nat)
    requires Execution(monitorOnly, events, states) && i < |states|
    requires j < |states[i].requests| && states[i].requests[j].stage.Answered?
    ensures RightAnswer(monitorOnly, states[i].requests[j].facts, states[i].requests[j].stage.response)
  {
    RunRight(monitorOnly, events, states, i);
    TrackOf(monitorOnly, states[i], j);
    AnsweredOnTrack(monitorOnly, states[i].requests[j]);
  }
}
