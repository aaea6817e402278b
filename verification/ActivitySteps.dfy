/** The transitions of one activity record, and the inductive invariant that
    keeps every reachable record inside the loader's validator. */
module ActivitySteps {
  import opened Basics
  import opened RetrySchedule
  import opened ActivityRecords

  datatype ActivityRequest = ActivityRequest(
    key: string, implementation: string, input: Bytes, retry: RetryPolicy)

  datatype FailureDecision = FailureDecision(classification: FailureClass, notBefore: Time)

  datatype ActivityResolution = ActivityResolution(
    identity: Digest, inputDigest: Digest, implementation: string, decisionID: string,
    action: ResolutionAction, reason: string, evidence: string, outcome: Bytes,
    safeRetryContract: string, notBefore: Time)

  /** The validator is not inductive: it tolerates a running or unknown record
      whose last attempt already carries a decision. No step produces one. */
  predicate RecordInv(r: ActivityRecord) {
    && ValidRecord(r)
    && (r.state.Running? || r.state.Unknown? ==> r.origin.NoOrigin? && LastUndecided(r))
  }

  predicate LastUndecided(r: ActivityRecord) {
    forall k :: 0 <= k < |r.resolutions| ==> r.resolutions[k].attempt < |r.attempts|
  }

  /** How a record may look later: its contract is fixed, settled records are
      frozen, decisions are only appended, and an attempt changes only by leaving
      the running state. */
  predicate RecordExtends(r: ActivityRecord, s: ActivityRecord) {
    && SameContract(r, s)
    && r.resolutions <= s.resolutions
    && |r.attempts| <= |s.attempts|
    && (forall i :: 0 <= i < |r.attempts| ==> AttemptExtends(r.attempts[i], s.attempts[i]))
    && (r.state.Completed? || r.state.Failed? ==> s == r)
  }

  predicate SameContract(r: ActivityRecord, s: ActivityRecord) {
    && s.identity == r.identity && s.executionID == r.executionID && s.node == r.node
    && s.activation == r.activation && s.key == r.key && s.inputDigest == r.inputDigest
    && s.implementation == r.implementation && s.retry == r.retry
  }

  predicate AttemptExtends(a: Attempt, b: Attempt) {
    || b == a
    || (&& a.state.Running? && !b.state.Running?
        && b.number == a.number && b.incarnation == a.incarnation && b.startedAt == a.startedAt)
  }

  lemma RecordExtendsTransitive(r: ActivityRecord, s: ActivityRecord, t: ActivityRecord)
    requires RecordExtends(r, s) && RecordExtends(s, t)
    ensures RecordExtends(r, t)
  {
    forall i | 0 <= i < |r.attempts| ensures AttemptExtends(r.attempts[i], t.attempts[i]) {
      assert AttemptExtends(r.attempts[i], s.attempts[i]) && AttemptExtends(s.attempts[i], t.attempts[i]);
    }
  }

  // ----------------------------------------------------------------- prepare

  function NewRecord(executionID: string, node: string, activation: uint64, request: ActivityRequest): ActivityRecord {
    ActivityRecord(
      ActivityAddress(executionID, node, activation, request.key), executionID, node, activation, request.key,
      PayloadHash(request.input), request.implementation, Prepared, [], NoOrigin, [], request.retry, NoClass, 0, [])
  }

  lemma NewRecordValid(executionID: string, node: string, activation: uint64, request: ActivityRequest)
    requires executionID != "" && node != "" && activation != 0
    requires request.key != "" && request.implementation != "" && ValidRetry(request.retry)
    ensures RecordInv(NewRecord(executionID, node, activation, request))
  {
  }

  // ------------------------------------------------------------------- begin

  function RecordError(r: ActivityRecord): Error {
    match r.state
    case Prepared => ErrActivityRetryPending
    case Failed =>
      if r.attempts != [] && Last(r).retrySchedule.Some? && !Last(r).retrySchedule.value.rejection.Accepted? then
        ErrActivityScheduleInvalid
      else if r.classification.Retryable? then ErrActivityAttemptsExhausted
      else ErrActivityFailed
    case _ => ErrActivityUnknown
  }

  /** Why an existing record may not start another attempt at `now`. */
  function PreparedError(r: ActivityRecord, now: Time): Option<Error> {
    if r.state.Failed? then Some(RecordError(r))
    else if !r.state.Prepared? then Some(ErrActivityConflict)
    else if r.attempts == [] then None
    else if |r.attempts| >= r.retry.maxAttempts || r.retry.safeRetryContract == "" || r.nextAttemptAt == 0 then
      Some(ErrActivityConflict)
    else if now < r.nextAttemptAt then Some(RecordError(r))
    else None
  }

  function BeginAttempt(r: ActivityRecord, incarnation: uint64, startedAt: Time): ActivityRecord {
    r.(state := Running, origin := NoOrigin, nextAttemptAt := 0, classification := NoClass,
       attempts := r.attempts +
         [Attempt(|r.attempts| + 1, incarnation, Running, "", NoClass, startedAt, None, 0)])
  }

  /** Under the invariant the deadline that `nextAttemptAt` repeats is exactly
      the deadline the loader compares the new attempt's start with. */
  lemma PreparedDeadline(r: ActivityRecord)
    requires RecordInv(r) && r.state.Prepared? && r.attempts != []
    ensures
      if r.origin.Manual? then
        && r.resolutions != []
        && var d := r.resolutions[|r.resolutions| - 1];
           && d.action.ResolveRetry? && d.attempt == |r.attempts| && Last(r).state.Unknown?
           && d.retrySchedule.Some? && d.retrySchedule.value.deadline == r.nextAttemptAt
      else
        && Last(r).state.Failed? && Last(r).retrySchedule.Some?
        && Last(r).retrySchedule.value.deadline == r.nextAttemptAt
  {
    assert ValidState(r) && ValidPreparedSchedule(r);
    if r.origin.Manual? {
      assert ValidManualOrigin(r);
      assert ValidDecision(r.resolutions[|r.resolutions| - 1], r.attempts, r.retry);
    }
  }

  /** Starting an attempt is persistable exactly when the second clock reading
      has also reached the committed deadline. */
  lemma BeginValidIff(r: ActivityRecord, checkedAt: Time, incarnation: uint64, startedAt: Time)
    requires RecordInv(r) && PreparedError(r, checkedAt).None?
    ensures var s := BeginAttempt(r, incarnation, startedAt);
      ValidRecord(s) <==>
        incarnation != 0 && startedAt != 0 && (r.attempts == [] || startedAt >= r.nextAttemptAt)
  {
    var s := BeginAttempt(r, incarnation, startedAt);
    var n := |r.attempts|;
    if r.attempts != [] {
      PreparedDeadline(r);
    }
    if incarnation == 0 || startedAt == 0 {
      assert s.attempts[n].incarnation == 0 || s.attempts[n].startedAt == 0;
    } else if r.attempts == [] || startedAt >= r.nextAttemptAt {
      BeginValid(r, incarnation, startedAt);
    } else if r.origin.Manual? {
      assert !ValidDecision(s.resolutions[|s.resolutions| - 1], s.attempts, s.retry);
    } else {
      assert !ValidAttemptSchedule(s, n - 1);
    }
  }

  lemma BeginValid(r: ActivityRecord, incarnation: uint64, startedAt: Time)
    requires RecordInv(r) && r.state.Prepared?
    requires incarnation != 0 && startedAt != 0 && (r.attempts == [] || startedAt >= r.nextAttemptAt)
    ensures var s := BeginAttempt(r, incarnation, startedAt); RecordInv(s) && RecordExtends(r, s)
  {
    hide ValidDecision, ValidAttemptSchedule, MayBeRetried, ValidRetry;
    var s := BeginAttempt(r, incarnation, startedAt);
    BeginUndecided(r);
    forall k | 0 <= k < |s.resolutions| ensures ValidDecision(s.resolutions[k], s.attempts, s.retry) {
      BegunDecision(r, incarnation, startedAt, k);
    }
    forall i: nat | i < |s.attempts| ensures ValidAttemptSchedule(s, i) {
      BegunSchedule(r, incarnation, startedAt, i);
    }
    forall i: nat | i + 1 < |s.attempts| ensures MayBeRetried(s, i) {
      BegunHistory(r, incarnation, startedAt, i);
    }
    assert ValidAttempts(s.attempts);
  }

  /** No decision addresses the attempt that is about to start. */
  lemma BeginUndecided(r: ActivityRecord)
    requires RecordInv(r)
    ensures forall k :: 0 <= k < |r.resolutions| ==> r.resolutions[k].attempt <= |r.attempts|
  {
    forall k | 0 <= k < |r.resolutions| ensures r.resolutions[k].attempt <= |r.attempts| {
      assert ValidDecision(r.resolutions[k], r.attempts, r.retry);
    }
  }

  lemma BegunDecision(r: ActivityRecord, incarnation: uint64, startedAt: Time, k: nat)
    requires RecordInv(r) && r.state.Prepared? && k < |r.resolutions|
    requires r.attempts == [] || startedAt >= r.nextAttemptAt
    ensures var s := BeginAttempt(r, incarnation, startedAt); ValidDecision(s.resolutions[k], s.attempts, s.retry)
  {
    var d := r.resolutions[k];
    assert ValidDecision(d, r.attempts, r.retry);
    BeginKeepsAction(r, k);
    PreparedDeadline(r);
  }

  lemma BegunSchedule(r: ActivityRecord, incarnation: uint64, startedAt: Time, i: nat)
    requires RecordInv(r) && r.state.Prepared? && i <= |r.attempts|
    requires r.attempts == [] || startedAt >= r.nextAttemptAt
    ensures ValidAttemptSchedule(BeginAttempt(r, incarnation, startedAt), i)
  {
    hide ValidDecisions, ValidHistory, ValidScheduleDecision;
    if r.attempts != [] {
      PreparedDeadline(r);
    }
    assert i < |r.attempts| ==> ValidAttemptSchedule(r, i);
  }

  lemma BegunHistory(r: ActivityRecord, incarnation: uint64, startedAt: Time, i: nat)
    requires RecordInv(r) && r.state.Prepared? && i < |r.attempts|
    ensures MayBeRetried(BeginAttempt(r, incarnation, startedAt), i)
  {
    hide ValidDecision, ValidScheduleDecision;
    PreparedDeadline(r);
    assert i + 1 < |r.attempts| ==> MayBeRetried(r, i);
    assert ValidAttemptSchedule(r, i) && r.attempts[i].number == i + 1;
    if i + 1 == |r.attempts| && r.origin.Manual? {
      assert HasRetryDecision(r.resolutions, i + 1);
    }
  }

  /** A prepared record carries no completing or failing decision. */
  lemma BeginKeepsAction(r: ActivityRecord, k: nat)
    requires RecordInv(r) && r.state.Prepared? && k < |r.resolutions|
    ensures r.attempts != [] && r.resolutions[k].action.ResolveRetry?
    ensures r.resolutions[k].attempt == |r.attempts| ==> r.origin.Manual? && k == |r.resolutions| - 1
  {
    assert ValidDecision(r.resolutions[k], r.attempts, r.retry);
    PreparedDeadline(r);
    if !r.origin.Manual? {
      assert Last(r).state.Failed?;
    } else if k < |r.resolutions| - 1 {
      assert r.resolutions[k].attempt < r.resolutions[|r.resolutions| - 1].attempt;
    }
  }

  // --------------------------------------------- settling the last attempt

  function WithLast(r: ActivityRecord, a: Attempt): ActivityRecord
    requires r.attempts != []
  {
    r.(attempts := r.attempts[|r.attempts| - 1 := a])
  }

  /** Replacing an undecided last attempt leaves the older history valid. */
  lemma SettleLast(r: ActivityRecord, s: ActivityRecord)
    requires RecordInv(r) && (r.state.Running? || r.state.Unknown?)
    requires |s.attempts| == |r.attempts| && s.attempts[..|r.attempts| - 1] == r.attempts[..|r.attempts| - 1]
    requires SameContract(r, s) && s.resolutions == r.resolutions
    requires Last(s).startedAt == Last(r).startedAt
    ensures forall i: nat :: i < |r.attempts| - 1 ==> s.attempts[i] == r.attempts[i]
    ensures forall k :: 0 <= k < |s.resolutions| ==> ValidDecision(s.resolutions[k], s.attempts, s.retry)
    ensures forall i: nat :: i < |s.attempts| - 1 ==> ValidAttemptSchedule(s, i)
    ensures ValidHistory(s)
  {
    var n := |r.attempts|;
    forall i: nat | i < n - 1 ensures s.attempts[i] == r.attempts[i] {
      assert s.attempts[i] == s.attempts[..n - 1][i] == r.attempts[..n - 1][i];
    }
    forall k | 0 <= k < |s.resolutions| ensures ValidDecision(s.resolutions[k], s.attempts, s.retry) {
      var d := r.resolutions[k];
      assert ValidDecision(d, r.attempts, r.retry) && d.attempt < n;
      assert s.attempts[d.attempt].startedAt == r.attempts[d.attempt].startedAt;
    }
    forall i: nat | i < n - 1 ensures ValidAttemptSchedule(s, i) {
      assert ValidAttemptSchedule(r, i);
      assert s.attempts[i + 1].startedAt == r.attempts[i + 1].startedAt;
    }
    forall i: nat | i + 1 < n ensures MayBeRetried(s, i) {
      assert MayBeRetried(r, i);
    }
  }

  /** Settling the last attempt of a running or unknown record keeps the record
      valid if the new last attempt, its schedule and the new state are. */
  lemma SettledValid(r: ActivityRecord, s: ActivityRecord)
    requires RecordInv(r) && (r.state.Running? || r.state.Unknown?)
    requires |s.attempts| == |r.attempts| && s.attempts[..|r.attempts| - 1] == r.attempts[..|r.attempts| - 1]
    requires SameContract(r, s) && s.resolutions == r.resolutions && !s.origin.Manual?
    requires Last(s).number == Last(r).number && Last(s).incarnation == Last(r).incarnation
    requires Last(s).startedAt == Last(r).startedAt && ValidAttempt(Last(s)) && !Last(s).state.Running?
    requires Last(r) == Last(s) || Last(r).state.Running?
    requires ValidAttemptSchedule(s, |s.attempts| - 1) && ValidState(s)
    requires s.state.Unknown? ==> s.origin.NoOrigin?
    ensures RecordInv(s) && RecordExtends(r, s)
  {
    SettleLast(r, s);
    hide ValidAttemptSchedule, ValidDecision, MayBeRetried, ValidAddress, ValidRetry, ValidPreparedSchedule;
    forall i | 0 <= i < |s.attempts| ensures AttemptExtends(r.attempts[i], s.attempts[i]) {
      assert i < |r.attempts| - 1 ==> s.attempts[i] == r.attempts[i];
    }
    assert ValidAttempts(s.attempts);
  }

  lemma LastFacts(r: ActivityRecord)
    requires RecordInv(r) && (r.state.Running? || r.state.Unknown?)
    ensures r.attempts != [] && ValidAttempt(Last(r)) && ValidAttemptSchedule(r, |r.attempts| - 1)
    ensures r.origin.NoOrigin? && r.outcome == [] && r.nextAttemptAt == 0
    ensures if r.state.Running? then Last(r).state.Running? else Last(r).state.Unknown?
    ensures Last(r).number == |r.attempts| && ValidRetry(r.retry)
  {
    hide ValidDecisions, ValidHistory, ValidAddress, ValidSchedule;
    assert ValidAttemptSchedule(r, |r.attempts| - 1);
  }

  /** A takeover finds an attempt that another incarnation left running. */
  function AbandonAttempt(r: ActivityRecord): ActivityRecord
    requires r.attempts != []
  {
    WithLast(r, Last(r).(state := Unknown, classification := Ambiguous))
      .(state := Unknown, classification := Ambiguous)
  }

  lemma AbandonValid(r: ActivityRecord)
    requires RecordInv(r) && r.state.Running?
    ensures RecordInv(AbandonAttempt(r)) && RecordExtends(r, AbandonAttempt(r))
  {
    hide ValidRecord, RecordExtends;
    LastFacts(r);
    hide RecordInv;
    SettledValid(r, AbandonAttempt(r));
  }

  function CompleteAttempt(r: ActivityRecord, payload: Bytes, origin: Origin, now: Time): ActivityRecord
    requires r.attempts != []
  {
    var s := r.(state := Completed, outcome := payload, origin := origin);
    if origin.Reconciled? || origin.Manual? then s
    else WithLast(s, Last(s).(state := Completed, finishedAt := now))
  }

  lemma CompleteValidIff(r: ActivityRecord, payload: Bytes, origin: Origin, now: Time)
    requires RecordInv(r)
    requires (r.state.Running? && (origin.Live? || origin.Simulated?)) || (r.state.Unknown? && origin.Reconciled?)
    ensures var s := CompleteAttempt(r, payload, origin, now);
      && (ValidRecord(s) <==> (now != 0 || origin.Reconciled?))
      && (ValidRecord(s) ==> RecordInv(s) && RecordExtends(r, s))
  {
    hide RecordExtends, ValidDecisions, ValidHistory, ValidAddress, ValidRetry;
    var s := CompleteAttempt(r, payload, origin, now);
    LastFacts(r);
    if now != 0 || origin.Reconciled? {
      hide ValidRecord, RecordInv;
      SettledValid(r, s);
      SettledRecord(s);
    } else {
      assert !ValidAttempt(s.attempts[|s.attempts| - 1]);
    }
  }

  lemma SettledRecord(s: ActivityRecord)
    requires RecordInv(s)
    ensures ValidRecord(s)
  {
  }

  /** `sample` is the random source of the retry schedule, None if it panics. */
  function FailAttempt(
    r: ActivityRecord, message: string, decision: FailureDecision, now: Time, sample: Option<uint64>): ActivityRecord
    requires r.attempts != []
  {
    var last := Last(r).(classification := decision.classification, error := message, finishedAt := now);
    var s := r.(classification := decision.classification, nextAttemptAt := 0);
    match decision.classification
    case Retryable =>
      var failed := last.(state := Failed);
      if |r.attempts| < r.retry.maxAttempts then
        var chosen := ChooseSchedule(r.retry, |r.attempts|, now, decision.notBefore, sample);
        var t := WithLast(s, failed.(retrySchedule := Some(chosen)));
        if chosen.rejection.Accepted? then t.(state := Prepared, nextAttemptAt := chosen.deadline)
        else t.(state := Failed)
      else WithLast(s, failed).(state := Failed)
    case NonRetryable => WithLast(s, last.(state := Failed)).(state := Failed)
    case _ => WithLast(s, last.(state := Unknown)).(state := Unknown)
  }

  /** A failure of a live attempt is persistable exactly when its clock reading
      is usable; an ambiguous one always is. */
  lemma FailValidIff(
    r: ActivityRecord, message: string, decision: FailureDecision, now: Time, sample: Option<uint64>)
    requires RecordInv(r) && r.state.Running? && !decision.classification.NoClass?
    ensures var s := FailAttempt(r, message, decision, now, sample);
      && (ValidRecord(s) <==>
            || decision.classification.Ambiguous?
            || (if decision.classification.Retryable? && |r.attempts| < r.retry.maxAttempts then TimeValid(now)
                else now != 0))
      && (ValidRecord(s) ==> RecordInv(s) && RecordExtends(r, s))
  {
    hide RecordExtends, ValidDecisions, ValidHistory, ValidAddress, ValidRetry, ChooseSchedule, ValidScheduleDecision;
    var s := FailAttempt(r, message, decision, now, sample);
    var n := |r.attempts|;
    LastFacts(r);
    ChosenScheduleValid(r.retry, n, now, decision.notBefore, sample);
    if decision.classification.Retryable? && n < r.retry.maxAttempts && !TimeValid(now) {
      assert !ValidAttemptSchedule(s, n - 1);
    } else if decision.classification.Ambiguous? || now != 0 {
      FailedParts(r, message, decision, now, sample);
      hide ValidRecord, RecordInv, FailAttempt;
      SettledValid(r, s);
      SettledRecord(s);
    } else {
      assert !ValidAttempt(s.attempts[n - 1]);
    }
  }

  lemma FailedParts(
    r: ActivityRecord, message: string, decision: FailureDecision, now: Time, sample: Option<uint64>)
    requires RecordInv(r) && r.state.Running? && !decision.classification.NoClass?
    requires decision.classification.Ambiguous? || now != 0
    requires decision.classification.Retryable? && |r.attempts| < r.retry.maxAttempts ==> TimeValid(now)
    ensures var s := FailAttempt(r, message, decision, now, sample); var n := |r.attempts|;
      && n > 0 && |s.attempts| == n && s.attempts[..n - 1] == r.attempts[..n - 1] && SameContract(r, s)
      && s.resolutions == r.resolutions && s.origin.NoOrigin? && Last(r).state.Running?
      && Last(s).number == Last(r).number && Last(s).incarnation == Last(r).incarnation
      && Last(s).startedAt == Last(r).startedAt && ValidAttempt(Last(s)) && !Last(s).state.Running?
    ensures var s := FailAttempt(r, message, decision, now, sample);
      ValidAttemptSchedule(s, |r.attempts| - 1) && ValidState(s)
  {
    hide ValidRecord, ChooseSchedule, ValidScheduleDecision;
    LastFacts(r);
    PolicyFacts(r);
    hide RecordInv;
    if decision.classification.Retryable? && |r.attempts| < r.retry.maxAttempts {
      ChosenScheduleValid(r.retry, |r.attempts|, now, decision.notBefore, sample);
      if ChooseSchedule(r.retry, |r.attempts|, now, decision.notBefore, sample).rejection.Accepted? {
        ChosenTime(r.retry, |r.attempts|, now, decision.notBefore, sample);
      }
    }
  }

  /** A policy with several attempts has a safe retry contract. */
  lemma PolicyFacts(r: ActivityRecord)
    requires RecordInv(r)
    ensures r.retry.maxAttempts > 1 ==> r.retry.safeRetryContract != ""
  {
    hide ValidAttempts, ValidDecisions, ValidSchedules, ValidHistory, ValidState, ValidSchedule;
  }

  // -------------------------------------------------------- operator decisions

  function ApplyResolution(
    r: ActivityRecord, q: ActivityResolution, now: Time, sample: Option<uint64>)
    : Result<(ActivityRecord, Option<ScheduleDecision>)>
  {
    var s := r.(classification := NoClass, nextAttemptAt := 0);
    match q.action
    case ResolveComplete =>
      if q.safeRetryContract != "" || q.notBefore != 0 then Err(ErrActivityConflict)
      else Ok((s.(state := Completed, origin := Manual, outcome := q.outcome), None))
    case ResolveFail =>
      if q.outcome != [] || q.safeRetryContract != "" || q.notBefore != 0 then Err(ErrActivityConflict)
      else Ok((s.(state := Failed, origin := Manual, classification := NonRetryable), None))
    case ResolveRetry =>
      if || q.outcome != [] || !ValidRetry(r.retry) || r.retry.safeRetryContract == ""
         || q.safeRetryContract != r.retry.safeRetryContract || |r.attempts| >= r.retry.maxAttempts then
        Err(ErrActivityConflict)
      else
        var schedule := ChooseSchedule(r.retry, |r.attempts|, now, q.notBefore, sample);
        if !schedule.rejection.Accepted? then Err(ErrActivityScheduleInvalid)
        else Ok((s.(state := Prepared, origin := Manual, classification := Retryable,
                    nextAttemptAt := schedule.deadline), Some(schedule)))
    case OtherAction(_) => Err(ErrActivityConflict)
  }

  /** The record a resolution publishes. Nothing re-validates it before commit. */
  function ResolveRecord(
    r: ActivityRecord, q: ActivityResolution, sourceRevision: uint64, incarnation: uint64,
    now: Time, sample: Option<uint64>): Result<ActivityRecord>
    requires r.attempts != []
  {
    var s := if r.state.Running? then
        WithLast(r, Last(r).(state := Unknown, classification := Ambiguous))
      else r;
    match ApplyResolution(s, q, now, sample)
    case Err(e) => Err(e)
    case Ok(applied) =>
      Ok(applied.0.(resolutions := applied.0.resolutions +
        [ResolutionRecord(q.decisionID, |s.attempts|, q.action, r.state, sourceRevision, incarnation,
                          q.reason, q.evidence, q.safeRetryContract, applied.1, now)]))
  }

  predicate ResolutionAddresses(r: ActivityRecord, q: ActivityResolution, sourceRevision: uint64) {
    && (r.state.Running? || r.state.Unknown?)
    && q.decisionID != "" && q.reason != "" && q.evidence != ""
    && (forall k :: 0 <= k < |r.resolutions| ==>
          r.resolutions[k].decisionID != q.decisionID && r.resolutions[k].sourceRevision < sourceRevision)
  }

  /** A resolution that is not refused publishes a record the loader accepts
      exactly when the clock did not return the zero time. */
  lemma ResolveValidIff(
    r: ActivityRecord, q: ActivityResolution, sourceRevision: uint64, incarnation: uint64,
    now: Time, sample: Option<uint64>)
    requires RecordInv(r) && ResolutionAddresses(r, q, sourceRevision)
    requires sourceRevision != 0 && incarnation != 0
    requires ResolveRecord(r, q, sourceRevision, incarnation, now, sample).Ok?
    ensures var s := ResolveRecord(r, q, sourceRevision, incarnation, now, sample).value;
      && (ValidRecord(s) <==> now != 0)
      && (now != 0 ==> RecordInv(s) && RecordExtends(r, s))
  {
    var s := ResolveRecord(r, q, sourceRevision, incarnation, now, sample).value;
    if now == 0 {
      hide ChooseSchedule, ValidRetry, ValidHistory, ValidSchedules, ValidState;
      assert !ValidDecision(s.resolutions[|s.resolutions| - 1], s.attempts, s.retry);
    } else {
      hide ChooseSchedule, ValidRecord, RecordInv, RecordExtends;
      ResolvedParts(r, q, sourceRevision, incarnation, now, sample);
      hide ResolveRecord, ResolutionAddresses;
      Resolved(r, s);
    }
  }

  /** The last attempt of a resolved record: unknown, otherwise as it was. */
  predicate ResolvedLast(r: ActivityRecord, s: ActivityRecord) {
    && r.attempts != [] && |s.attempts| == |r.attempts|
    && s.attempts[..|r.attempts| - 1] == r.attempts[..|r.attempts| - 1]
    && Last(s).state.Unknown? && Last(s).classification.Ambiguous? && Last(s).retrySchedule.None?
    && Last(s).startedAt == Last(r).startedAt && Last(s).number == Last(r).number
    && Last(s).incarnation == Last(r).incarnation && (Last(s) == Last(r) || Last(r).state.Running?)
  }

  /** The one decision a resolution appends. */
  predicate ResolvedBy(r: ActivityRecord, s: ActivityRecord, d: ResolutionRecord) {
    && s.resolutions == r.resolutions + [d] && d.attempt == |r.attempts| && ValidDecision(d, s.attempts, s.retry)
    && forall k :: 0 <= k < |r.resolutions| ==>
      r.resolutions[k].decisionID != d.decisionID && r.resolutions[k].sourceRevision < d.sourceRevision
  }

  lemma ResolvedParts(
    r: ActivityRecord, q: ActivityResolution, sourceRevision: uint64, incarnation: uint64,
    now: Time, sample: Option<uint64>)
    requires RecordInv(r) && ResolutionAddresses(r, q, sourceRevision)
    requires sourceRevision != 0 && incarnation != 0 && now != 0
    requires ResolveRecord(r, q, sourceRevision, incarnation, now, sample).Ok?
    ensures var s := ResolveRecord(r, q, sourceRevision, incarnation, now, sample).value;
      && s.resolutions != [] && ResolvedLast(r, s) && SameContract(r, s) && s.origin.Manual?
      && ResolvedBy(r, s, s.resolutions[|s.resolutions| - 1]) && ValidState(s) && ValidManualOrigin(s)
  {
    hide ValidRecord, ChooseSchedule, ValidScheduleDecision;
    LastFacts(r);
    hide RecordInv, ValidRetry;
    if q.action.ResolveRetry? {
      ChosenScheduleValid(r.retry, |r.attempts|, now, q.notBefore, sample);
      ChosenTime(r.retry, |r.attempts|, now, q.notBefore, sample);
    }
  }

  /** An accepted schedule has a deadline that is not the zero time. */
  lemma ChosenTime(policy: RetryPolicy, attempt: int, now: Time, notBefore: Time, sample: Option<uint64>)
    requires ChooseSchedule(policy, attempt, now, notBefore, sample).rejection.Accepted?
    ensures TimeValid(now) && TimeValid(ChooseSchedule(policy, attempt, now, notBefore, sample).deadline)
  {
    hide BaseDelay, JitterWidth, Jittered, ValidRetry, TimeValid;
  }

  lemma Resolved(r: ActivityRecord, s: ActivityRecord)
    requires RecordInv(r) && (r.state.Running? || r.state.Unknown?)
    requires s.resolutions != [] && ResolvedLast(r, s) && SameContract(r, s) && s.origin.Manual?
    requires ResolvedBy(r, s, s.resolutions[|s.resolutions| - 1]) && ValidState(s) && ValidManualOrigin(s)
    requires s.state.Completed? || s.state.Failed? || s.state.Prepared?
    ensures ValidRecord(s) && RecordInv(s) && RecordExtends(r, s)
  {
    hide ValidDecision, ValidState, ValidManualOrigin, ValidAttemptSchedule, MayBeRetried, ValidRetry;
    var d := s.resolutions[|s.resolutions| - 1];
    var t := s.(resolutions := r.resolutions);
    LastFacts(r);
    SettleLast(r, t);
    DecisionsGrow(r, t, s, d);
    SchedulesSurvive(t, s);
    forall i | 0 <= i < |s.attempts| ensures AttemptExtends(r.attempts[i], s.attempts[i]) {
      assert i < |r.attempts| - 1 ==> t.attempts[i] == r.attempts[i];
    }
    assert ValidAttempts(s.attempts);
  }

  lemma DecisionsGrow(r: ActivityRecord, t: ActivityRecord, s: ActivityRecord, d: ResolutionRecord)
    requires RecordInv(r) && (r.state.Running? || r.state.Unknown?)
    requires s == t.(resolutions := r.resolutions + [d]) && d.attempt == |r.attempts|
    requires ValidDecision(d, s.attempts, s.retry) && t.resolutions == r.resolutions
    requires forall k :: 0 <= k < |t.resolutions| ==> ValidDecision(t.resolutions[k], t.attempts, t.retry)
    requires forall k :: 0 <= k < |r.resolutions| ==>
      && r.resolutions[k].decisionID != d.decisionID && r.resolutions[k].sourceRevision < d.sourceRevision
    ensures OrderedDecisions(s.resolutions)
    ensures forall k :: 0 <= k < |s.resolutions| ==> ValidDecision(s.resolutions[k], s.attempts, s.retry)
  {
    if r.resolutions != [] {
      assert r.resolutions[|r.resolutions| - 1].attempt < |r.attempts|;
    }
    ExtendOrder(r.resolutions, d);
  }

  /** Schedules and history only gain from an appended decision. */
  lemma SchedulesSurvive(r: ActivityRecord, s: ActivityRecord)
    requires s.attempts == r.attempts && s.retry == r.retry && r.resolutions <= s.resolutions
    requires forall i: nat :: i < |r.attempts| - 1 ==> ValidAttemptSchedule(r, i)
    requires ValidHistory(r) && s.attempts != [] && Last(s).state.Unknown? && Last(s).retrySchedule.None?
    ensures ValidSchedules(s)
    ensures ValidHistory(s)
  {
    forall i: nat | i < |s.attempts| ensures ValidAttemptSchedule(s, i) {
      assert i < |r.attempts| - 1 ==> ValidAttemptSchedule(r, i);
    }
    forall i: nat | i + 1 < |s.attempts| ensures MayBeRetried(s, i) {
      assert MayBeRetried(r, i);
      if r.attempts[i].state.Unknown? {
        var k :| 0 <= k < |r.resolutions| && r.resolutions[k].attempt == r.attempts[i].number &&
          r.resolutions[k].action.ResolveRetry?;
        assert s.resolutions[k] == r.resolutions[k];
      }
    }
  }
}
