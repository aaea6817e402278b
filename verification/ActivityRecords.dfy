/** Persisted activity records and the loader's validator for one record. */
module ActivityRecords {
  import opened Basics
  import opened RetrySchedule

  datatype ActivityState = Prepared | Running | Completed | Failed | Unknown

  datatype FailureClass = NoClass | Retryable | NonRetryable | Ambiguous

  datatype Origin = NoOrigin | Live | Replayed | Reconciled | Manual | Simulated

  datatype ResolutionAction = ResolveComplete | ResolveFail | ResolveRetry | OtherAction(name: string)

  datatype Attempt = Attempt(
    number: int, incarnation: uint64, state: ActivityState, error: string,
    classification: FailureClass, startedAt: Time,
    retrySchedule: Option<ScheduleDecision>, finishedAt: Time)

  /** One operator decision, retained without altering old attempts. */
  datatype ResolutionRecord = ResolutionRecord(
    decisionID: string, attempt: int, action: ResolutionAction, priorState: ActivityState,
    sourceRevision: uint64, incarnation: uint64, reason: string, evidence: string,
    safeRetryContract: string, retrySchedule: Option<ScheduleDecision>, at: Time)

  datatype ActivityRecord = ActivityRecord(
    identity: Digest, executionID: string, node: string, activation: uint64, key: string,
    inputDigest: Digest, implementation: string, state: ActivityState, outcome: Bytes,
    origin: Origin, attempts: seq<Attempt>, retry: RetryPolicy, classification: FailureClass,
    nextAttemptAt: Time, resolutions: seq<ResolutionRecord>)

  function Last(r: ActivityRecord): Attempt
    requires r.attempts != []
  {
    r.attempts[|r.attempts| - 1]
  }

  predicate Unresolved(state: ActivityState) {
    state.Prepared? || state.Running? || state.Unknown?
  }

  function AttemptLimit(p: RetryPolicy): int {
    if p.maxAttempts == 0 then 1 else p.maxAttempts
  }

  // -------------------------------------------------------------- attempts

  predicate ValidAddress(r: ActivityRecord) {
    && r.executionID != "" && r.node != "" && r.activation != 0
    && r.identity == ActivityAddress(r.executionID, r.node, r.activation, r.key)
  }

  predicate ValidAttempt(a: Attempt) {
    match a.state
    case Prepared => false
    case Running => a.classification.NoClass? && a.finishedAt == 0 && a.error == ""
    case Completed => a.classification.NoClass? && a.finishedAt != 0 && a.error == ""
    case Failed => (a.classification.Retryable? || a.classification.NonRetryable?) && a.finishedAt != 0
    case Unknown => a.classification.Ambiguous?
  }

  predicate ValidAttempts(attempts: seq<Attempt>) {
    forall i :: 0 <= i < |attempts| ==>
      && attempts[i].number == i + 1 && attempts[i].incarnation != 0 && attempts[i].startedAt != 0
      && ValidAttempt(attempts[i])
      && (attempts[i].state.Running? ==> i == |attempts| - 1)
  }

  /** An earlier attempt may be followed by another one only if it failed
      retryably, or if it is unknown and an operator decided to retry it. */
  predicate MayBeRetried(r: ActivityRecord, i: nat)
    requires i < |r.attempts|
  {
    && r.retry.safeRetryContract != ""
    && (|| (r.attempts[i].state.Failed? && r.attempts[i].classification.Retryable?)
        || (r.attempts[i].state.Unknown? && HasRetryDecision(r.resolutions, r.attempts[i].number)))
  }

  predicate HasRetryDecision(resolutions: seq<ResolutionRecord>, attempt: int) {
    exists k :: 0 <= k < |resolutions| && resolutions[k].attempt == attempt && resolutions[k].action.ResolveRetry?
  }

  predicate ValidHistory(r: ActivityRecord) {
    forall i: nat :: i + 1 < |r.attempts| ==> MayBeRetried(r, i)
  }

  // ------------------------------------------------------------- decisions

  predicate ValidDecisionAction(d: ResolutionRecord, policy: RetryPolicy) {
    match d.action
    case ResolveComplete => d.safeRetryContract == "" && d.retrySchedule.None?
    case ResolveFail => d.safeRetryContract == "" && d.retrySchedule.None?
    case ResolveRetry =>
      && d.safeRetryContract != "" && d.safeRetryContract == policy.safeRetryContract
      && d.attempt < policy.maxAttempts
      && d.retrySchedule.Some? && ValidScheduleDecision(policy, d.retrySchedule.value)
      && d.retrySchedule.value.rejection.Accepted?
      && d.retrySchedule.value.attempt == d.attempt && d.retrySchedule.value.preparedAt == d.at
    case OtherAction(_) => false
  }

  /** What one decision must satisfy by itself. */
  predicate ValidDecision(d: ResolutionRecord, attempts: seq<Attempt>, policy: RetryPolicy) {
    && d.decisionID != "" && d.reason != "" && d.evidence != "" && d.at != 0 && d.incarnation != 0
    && 0 < d.sourceRevision && 0 < d.attempt <= |attempts|
    && (d.priorState.Unknown? || d.priorState.Running?)
    && attempts[d.attempt - 1].state.Unknown?
    && ValidDecisionAction(d, policy)
    && (if d.action.ResolveRetry? then
          d.attempt < |attempts| ==> attempts[d.attempt].startedAt >= d.retrySchedule.value.deadline
        else d.attempt == |attempts|)
  }

  /** Decisions are distinct and ordered by both attempt and revision. */
  predicate OrderedDecisions(ds: seq<ResolutionRecord>) {
    forall i, j :: 0 <= i < j < |ds| ==>
      && ds[i].decisionID != ds[j].decisionID
      && ds[i].attempt < ds[j].attempt
      && ds[i].sourceRevision < ds[j].sourceRevision
  }

  predicate ValidManualOrigin(r: ActivityRecord) {
    && r.resolutions != []
    && var last := r.resolutions[|r.resolutions| - 1];
       match r.state
       case Completed => last.action.ResolveComplete? && last.attempt == |r.attempts|
       case Failed => last.action.ResolveFail? && last.attempt == |r.attempts|
       case Prepared => last.action.ResolveRetry? && last.attempt == |r.attempts|
       case Running => last.action.ResolveRetry? && last.attempt < |r.attempts|
       case Unknown => last.action.ResolveRetry? && last.attempt < |r.attempts|
  }

  predicate ValidDecisions(r: ActivityRecord) {
    && (forall i :: 0 <= i < |r.resolutions| ==> ValidDecision(r.resolutions[i], r.attempts, r.retry))
    && OrderedDecisions(r.resolutions)
    && (r.origin.Manual? ==> ValidManualOrigin(r))
  }

  /** The source's single pass with a seen-set and the previous attempt and
      revision decides the pairwise ordering above. */
  method ValidateActivityDecisions(r: ActivityRecord) returns (ok: bool)
    ensures ok <==> ValidDecisions(r)
  {
    hide ValidDecision;
    var seen: set<string> := {};
    var previousAttempt, previousRevision := 0, 0;
    var ds := r.resolutions;
    for i := 0 to |ds|
      invariant seen == set k | 0 <= k < i :: ds[k].decisionID
      invariant forall k :: 0 <= k < i ==> ValidDecision(ds[k], r.attempts, r.retry)
      invariant OrderedDecisions(ds[..i])
      invariant if i == 0 then previousAttempt == previousRevision == 0
                else previousAttempt == ds[i - 1].attempt && previousRevision == ds[i - 1].sourceRevision
    {
      var d := ds[i];
      if d.decisionID in seen || d.sourceRevision <= previousRevision || d.attempt <= previousAttempt {
        Misplaced(r, i);
        return false;
      }
      if !ValidDecision(d, r.attempts, r.retry) {
        return false;
      }
      assert ds[..i + 1] == ds[..i] + [d];
      ExtendOrder(ds[..i], d);
      seen := seen + {d.decisionID};
      previousAttempt, previousRevision := d.attempt, d.sourceRevision;
    }
    assert ds[..|ds|] == ds;
    ok := r.origin.Manual? ==> ValidManualOrigin(r);
  }

  lemma Misplaced(r: ActivityRecord, i: nat)
    requires i < |r.resolutions|
    requires var d := r.resolutions[i];
      || (exists k :: 0 <= k < i && r.resolutions[k].decisionID == d.decisionID)
      || d.sourceRevision <= (if i == 0 then 0 else r.resolutions[i - 1].sourceRevision)
      || d.attempt <= (if i == 0 then 0 else r.resolutions[i - 1].attempt)
    ensures !ValidDecisions(r)
  {
  }

  /** Appending a fresh decision above the last one keeps the order. */
  lemma ExtendOrder(ds: seq<ResolutionRecord>, d: ResolutionRecord)
    requires OrderedDecisions(ds)
    requires forall k :: 0 <= k < |ds| ==> ds[k].decisionID != d.decisionID
    requires ds != [] ==> ds[|ds| - 1].attempt < d.attempt && ds[|ds| - 1].sourceRevision < d.sourceRevision
    ensures OrderedDecisions(ds + [d])
  {
    var es := ds + [d];
    forall i, j | 0 <= i < j < |es|
      ensures es[i].decisionID != es[j].decisionID
      ensures es[i].attempt < es[j].attempt && es[i].sourceRevision < es[j].sourceRevision
    {
      if j == |ds| && i < |ds| - 1 {
        assert ds[i].attempt < ds[|ds| - 1].attempt && ds[i].sourceRevision < ds[|ds| - 1].sourceRevision;
      }
    }
  }

  // ------------------------------------------------------------- schedules

  predicate ValidAttemptSchedule(r: ActivityRecord, i: nat)
    requires i < |r.attempts|
  {
    var a := r.attempts[i];
    match a.retrySchedule
    case None => !(a.state.Failed? && a.classification.Retryable? && a.number < r.retry.maxAttempts)
    case Some(choice) =>
      && a.state.Failed? && a.classification.Retryable?
      && choice.attempt == a.number && choice.preparedAt == a.finishedAt
      && ValidScheduleDecision(r.retry, choice)
      && (i + 1 < |r.attempts| ==>
            choice.rejection.Accepted? && r.attempts[i + 1].startedAt >= choice.deadline)
  }

  predicate ValidSchedules(r: ActivityRecord) {
    forall i: nat :: i < |r.attempts| ==> ValidAttemptSchedule(r, i)
  }

  /** The schedule a prepared retry waits for: the operator's, if the operator
      asked for this retry, and otherwise the failed attempt's own. */
  function PendingSchedule(r: ActivityRecord): Option<ScheduleDecision>
    requires r.attempts != []
  {
    if r.origin.Manual? then
      if r.resolutions == [] then None else r.resolutions[|r.resolutions| - 1].retrySchedule
    else Last(r).retrySchedule
  }

  predicate ValidPreparedSchedule(r: ActivityRecord)
    requires r.attempts != []
  {
    var choice := PendingSchedule(r);
    choice.Some? && choice.value.rejection.Accepted? && choice.value.deadline == r.nextAttemptAt
  }

  // ----------------------------------------------------------- whole record

  predicate ValidState(r: ActivityRecord) {
    if r.state.Prepared? && r.attempts == [] then
      r.classification.NoClass? && r.nextAttemptAt == 0 && r.origin.NoOrigin? && r.outcome == []
    else if r.attempts == [] then false
    else
      var last := Last(r);
      match r.state
      case Prepared =>
        && r.classification.Retryable? && r.nextAttemptAt != 0
        && r.retry.safeRetryContract != "" && |r.attempts| < r.retry.maxAttempts
        && (last.state.Failed? || (r.origin.Manual? && last.state.Unknown?))
        && r.outcome == [] && ValidPreparedSchedule(r)
      case Running =>
        last.state.Running? && r.classification.NoClass? && r.nextAttemptAt == 0 && r.outcome == []
      case Unknown =>
        last.state.Unknown? && r.classification.Ambiguous? && r.nextAttemptAt == 0 && r.outcome == []
      case Completed =>
        && r.nextAttemptAt == 0
        && (|| ((r.origin.Live? || r.origin.Simulated?) && last.state.Completed?)
            || ((r.origin.Reconciled? || r.origin.Manual?) && last.state.Unknown?))
      case Failed =>
        && r.nextAttemptAt == 0 && r.outcome == []
        && (r.classification.NonRetryable? || r.classification.Retryable?)
        && (last.state.Failed? || (r.origin.Manual? && last.state.Unknown?))
  }

  predicate ValidRecord(r: ActivityRecord) {
    && ValidAddress(r) && CanonicalDigest(r.inputDigest) && r.key != "" && r.implementation != ""
    && ValidRetry(r.retry)
    && ValidAttempts(r.attempts)
    && |r.attempts| <= AttemptLimit(r.retry)
    && ValidDecisions(r) && ValidSchedules(r) && ValidHistory(r) && ValidState(r)
  }
}
