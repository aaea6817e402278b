/** What the activity boundary answers: which stored record answers a call, what
    an outcome or an operator's decision leaves behind, and what the next call
    then gets. */
module ActivityAnswers {
  import opened Basics
  import opened Envelopes
  import opened AggregateInvariant
  import opened RetrySchedule
  import opened ActivityRecords
  import opened ActivitySteps
  import opened ActivityOps

  // ------------------------------------------------------------------- calls

  /** A stored record answers only the call with its own input, implementation
      and policy; any other one is a conflict, whatever the record's state. */
  lemma OtherRequestConflicts(
    e: Envelope, q: ActivityRequest, k: Digest, incarnation: uint64, checkedAt: Time, startedAt: Time)
    requires k == BoundActivity(e, q.key) && k in e.journal
    requires var r := e.journal[k];
      r.inputDigest != PayloadHash(q.input) || r.implementation != q.implementation || r.retry != q.retry
    ensures Begin(e, q, incarnation, checkedAt, startedAt) == Refused(ErrActivityConflict)
    ensures Abandon(e, q, incarnation) == Refused(ErrActivityConflict)
    ensures !Prepare(e, q).Write?
  {
  }

  /** Nothing is started, taken over or finished that was not prepared. */
  lemma MissingRecord(
    e: Envelope, q: ActivityRequest, k: Digest, incarnation: uint64, checkedAt: Time, startedAt: Time, outcome: Outcome,
    origin: Origin, now: Time, sample: Option<uint64>)
    requires k == BoundActivity(e, q.key) && (k in e.journal ==> e.journal[k].attempts == [])
    ensures k !in e.journal ==> Begin(e, q, incarnation, checkedAt, startedAt) == Refused(ErrActivityConflict)
    ensures k !in e.journal ==> Abandon(e, q, incarnation) == Refused(ErrActivityConflict)
    ensures Finish(e, k, outcome, origin, now, sample) == Refused(ErrActivityConflict)
  {
  }

  /** A takeover leaves a record that is not running as it is. */
  lemma NothingToTakeOver(e: Envelope, q: ActivityRequest, k: Digest, incarnation: uint64)
    requires k == BoundActivity(e, q.key) && k in e.journal && Matches(e.journal[k], q) && !e.journal[k].state.Running?
    ensures Abandon(e, q, incarnation) == Unchanged
  {
  }

  predicate ScheduleRejected(r: ActivityRecord) {
    r.attempts != [] && Last(r).retrySchedule.Some? && Last(r).retrySchedule.value.rejection != Accepted
  }

  /** One attempt more than before: running, numbered next, started now by this
      incarnation; nothing else of the history or of the contract changes. */
  predicate Started(r: ActivityRecord, s: ActivityRecord, incarnation: uint64, at: Time) {
    && SameContract(r, s) && s.resolutions == r.resolutions && s.state.Running? && s.outcome == r.outcome
    && s.classification.NoClass? && s.nextAttemptAt == 0 && s.origin.NoOrigin?
    && |s.attempts| == |r.attempts| + 1 && s.attempts[..|r.attempts|] == r.attempts
    && var a := s.attempts[|r.attempts|];
       a.number == |s.attempts| && a.incarnation == incarnation && a.state.Running? && a.startedAt == at
  }

  predicate MayStart(r: ActivityRecord, incarnation: uint64, startedAt: Time) {
    incarnation != 0 && startedAt != 0 && (r.attempts == [] || startedAt >= r.nextAttemptAt)
  }

  predicate StartsIn(e: Envelope, step: Step, k: Digest, incarnation: uint64, at: Time) {
    && step.Write? && k in e.journal && k in step.target.journal
    && Started(e.journal[k], step.target.journal[k], incarnation, at)
    && step.target == e.(journal := e.journal[k := step.target.journal[k]])
  }

  /** What a call with the stored contract gets. In particular a retry waits for
      its deadline and starts from then on, and nothing else ever starts. */
  lemma CallAnswer(e: Envelope, q: ActivityRequest, k: Digest, incarnation: uint64, checkedAt: Time, startedAt: Time)
    requires k in e.journal && k == BoundActivity(e, q.key) && EnvInv(e)
    requires var r := e.journal[k];
      r.inputDigest == PayloadHash(q.input) && r.implementation == q.implementation && r.retry == q.retry
    ensures var r := e.journal[k]; var step := Begin(e, q, incarnation, checkedAt, startedAt);
      match r.state
      case Completed => step == Unchanged
      case Running => step == Refused(ErrActivityBusy)
      case Unknown => step == Refused(ErrActivityUnknown)
      case Failed =>
        step == Refused(if ScheduleRejected(r) then ErrActivityScheduleInvalid
                        else if r.classification.Retryable? then ErrActivityAttemptsExhausted else ErrActivityFailed)
      case Prepared =>
        if r.attempts != [] && checkedAt < r.nextAttemptAt then step == Refused(ErrActivityRetryPending)
        else if MayStart(r, incarnation, startedAt) then StartsIn(e, step, k, incarnation, startedAt)
        else step == Refused(ErrExecutionCorrupt)
  {
    hide EnvInv, RecordAt;
    RecordFacts(e, k);
    var r := e.journal[k];
    FailedAttempts(r);
    if r.state.Prepared? {
      if r.attempts != [] {
        PreparedFacts(r);
      }
      if r.attempts == [] || checkedAt >= r.nextAttemptAt {
        BeginValidIff(r, checkedAt, incarnation, startedAt);
      }
    }
    hide ValidRecord;
  }

  lemma FailedAttempts(r: ActivityRecord)
    requires RecordInv(r)
    ensures r.state.Failed? ==> r.attempts != []
  {
    hide ValidAttempts, ValidDecisions, ValidSchedules, ValidHistory;
  }

  lemma PreparedFacts(r: ActivityRecord)
    requires RecordInv(r) && r.state.Prepared? && r.attempts != []
    ensures |r.attempts| < r.retry.maxAttempts && r.retry.safeRetryContract != "" && r.nextAttemptAt != 0
  {
    hide ValidAttempts, ValidDecisions, ValidSchedules, ValidHistory;
  }

  /** The first write of a call: a record of this very request under the current
      cursor, with nothing attempted yet. */
  lemma PrepareAnswer(e: Envelope, q: ActivityRequest)
    requires EnvInv(e)
    ensures var k := BoundActivity(e, q.key); var step := Prepare(e, q);
      if q.key == "" || q.implementation == "" || !ValidRetry(q.retry) then step == Refused(ErrExecutionCapability)
      else if k in e.journal then step == Unchanged
      else step.Write? && PreparesIn(e, step.target, k, q)
  {
    hide EnvInv;
    AddressFacts(e);
    if ValidRequest(q) {
      NewRecordValid(e.executionID, e.progress.pointer, e.activation, q);
    }
    hide ValidRecord;
  }

  predicate PreparesIn(e: Envelope, t: Envelope, k: Digest, q: ActivityRequest) {
    k in t.journal && Fresh(e, t.journal[k], q) && t == e.(journal := e.journal[k := t.journal[k]])
  }

  predicate Fresh(e: Envelope, r: ActivityRecord, q: ActivityRequest) {
    && r.executionID == e.executionID && r.node == e.progress.pointer && r.activation == e.activation && r.key == q.key
    && r.inputDigest == PayloadHash(q.input) && r.implementation == q.implementation && r.retry == q.retry
    && r.state.Prepared? && r.attempts == [] && r.resolutions == [] && r.outcome == [] && r.nextAttemptAt == 0
  }

  /** A takeover leaves another incarnation's running attempt unknown, after which
      no call starts it; its own running attempt is busy. */
  lemma TakeoverAnswer(
    e: Envelope, q: ActivityRequest, k: Digest, incarnation: uint64, checkedAt: Time, startedAt: Time)
    requires k in e.journal && k == BoundActivity(e, q.key) && EnvInv(e)
    requires e.journal[k].state.Running? && e.journal[k].attempts != [] && Matches(e.journal[k], q)
    ensures var r := e.journal[k]; var step := Abandon(e, q, incarnation);
      if Last(r).incarnation == incarnation then step == Refused(ErrActivityBusy)
      else step.Write? && OnlyAt(e, step.target, k) && Unsettled(r, step.target.journal[k])
    ensures var step := Abandon(e, q, incarnation);
      step.Write? ==>
        Begin(Next(e, step.target), q, incarnation, checkedAt, startedAt) == Refused(ErrActivityUnknown)
  {
    hide EnvInv, RecordAt;
    RecordFacts(e, k);
    AbandonValid(e.journal[k]);
    assert RecordInv(AbandonAttempt(e.journal[k]));
    hide ValidRecord;
  }

  /** Unknown, with the same attempts; only the last one turned unknown. */
  predicate Unsettled(r: ActivityRecord, s: ActivityRecord) {
    && Settles(r, s) && s.resolutions == r.resolutions && s.outcome == r.outcome
    && s.state.Unknown? && Last(s).state.Unknown?
  }

  // ---------------------------------------------------------------- outcomes

  /** Only the last attempt of the record changed, and of it only how it ended. */
  predicate Settles(r: ActivityRecord, s: ActivityRecord) {
    && SameContract(r, s)
    && |s.attempts| == |r.attempts| > 0 && s.attempts[..|r.attempts| - 1] == r.attempts[..|r.attempts| - 1]
    && Last(s).number == Last(r).number && Last(s).incarnation == Last(r).incarnation
    && Last(s).startedAt == Last(r).startedAt
  }

  predicate OnlyAt(e: Envelope, t: Envelope, k: Digest) {
    k in e.journal && k in t.journal && t == e.(journal := e.journal[k := t.journal[k]])
  }

  /** A returned outcome is the one recorded, and with it the activity is complete. */
  lemma SuccessAnswer(
    e: Envelope, k: Digest, payload: Bytes, origin: Origin, now: Time, sample: Option<uint64>, t: Envelope)
    requires EnvInv(e) && Finish(e, k, Succeeded(payload), origin, now, sample) == Write(t)
    requires Finishes(e, k, Succeeded(payload), origin)
    ensures OnlyAt(e, t, k)
    ensures var r, s := e.journal[k], t.journal[k];
      && Settles(r, s) && s.resolutions == r.resolutions && s.nextAttemptAt == 0
      && s.state.Completed? && s.outcome == payload && s.origin == origin
      && (if origin.Reconciled? then Last(s) == Last(r)
          else Last(s).state.Completed? && Last(s).finishedAt == now && Last(s).error == "")
  {
    hide EnvInv, RecordAt;
    RecordFacts(e, k);
    var r := e.journal[k];
    LastFacts(r);
    hide RecordInv, ValidRecord;
  }

  /** An outcome presented again for a completed activity is replayed if it is the
      recorded one and a conflict otherwise. */
  lemma RepeatedOutcome(e: Envelope, k: Digest, outcome: Outcome, origin: Origin, now: Time, sample: Option<uint64>)
    requires k in e.journal && EnvInv(e) && e.journal[k].state.Completed?
    ensures Finish(e, k, outcome, origin, now, sample) ==
      match outcome
      case FailedWith(_, _) => Refused(ErrActivityConflict)
      case Succeeded(payload) => if payload == e.journal[k].outcome then Unchanged else Refused(ErrActivityConflict)
  {
    hide EnvInv, RecordAt;
    RecordFacts(e, k);
    CompletedAttempts(e.journal[k]);
    hide RecordInv, ValidRecord;
  }

  lemma CompletedAttempts(r: ActivityRecord)
    requires RecordInv(r)
    ensures r.state.Completed? ==> r.attempts != []
  {
    hide ValidAttempts, ValidDecisions, ValidSchedules, ValidHistory;
  }

  /** The attempt failed with this message at this time, in this class. */
  predicate FailedAs(r: ActivityRecord, s: ActivityRecord, message: string, kind: FailureClass, now: Time) {
    && Settles(r, s) && s.resolutions == r.resolutions && s.outcome == [] && s.classification == kind
    && Last(s).error == message && Last(s).classification == kind && Last(s).finishedAt == now
    && (Last(s).state.Unknown? <==> kind.Ambiguous?) && (Last(s).state.Failed? <==> !kind.Ambiguous?)
  }

  /** A failure is recorded in its own class: an ambiguous one leaves the activity
      unknown, a retryable one with attempts left is scheduled by its policy, and
      any other one is final. */
  lemma FailureAnswer(
    e: Envelope, k: Digest, message: string, decision: FailureDecision, now: Time, sample: Option<uint64>, t: Envelope)
    requires EnvInv(e) && k in e.journal && e.journal[k].state.Running? && !decision.classification.NoClass?
    requires Finish(e, k, FailedWith(message, decision), DispatchOrigin(e), now, sample) == Write(t)
    ensures OnlyAt(e, t, k) && FailedAs(e.journal[k], t.journal[k], message, decision.classification, now)
    ensures EndsIn(e.journal[k], t.journal[k], decision, now, sample)
  {
    hide EnvInv, RecordAt, ChooseSchedule, RecordInv, ValidRecord, FailAttempt, EndsIn;
    RecordFacts(e, k);
    FailedRecordIs(e.journal[k], message, decision, now, sample);
  }

  /** The state a failure of this class leaves the record in. */
  predicate EndsIn(r: ActivityRecord, s: ActivityRecord, decision: FailureDecision, now: Time, sample: Option<uint64>) {
    var n := |r.attempts|;
    match decision.classification
    case Ambiguous => s.state.Unknown?
    case Retryable =>
      if n >= r.retry.maxAttempts then s.state.Failed? && !ScheduleRejected(s)
      else
        var d := ChooseSchedule(r.retry, n, now, decision.notBefore, sample);
        && s.attempts != [] && Last(s).retrySchedule == Some(d)
        && (if d.rejection == Accepted then s.state.Prepared? && s.nextAttemptAt == d.deadline else s.state.Failed?)
    case _ => s.state.Failed? && !ScheduleRejected(s)
  }

  lemma FailedRecordIs(
    r: ActivityRecord, message: string, decision: FailureDecision, now: Time, sample: Option<uint64>)
    requires RecordInv(r) && r.state.Running? && r.attempts != [] && !decision.classification.NoClass?
    ensures var s := FailAttempt(r, message, decision, now, sample);
      FailedAs(r, s, message, decision.classification, now) && EndsIn(r, s, decision, now, sample)
  {
    hide ChooseSchedule, RecordInv;
    LastFacts(r);
    NoScheduleYet(r);
  }

  lemma NoScheduleYet(r: ActivityRecord)
    requires RecordInv(r) && (r.state.Running? || r.state.Unknown?) && r.attempts != []
    ensures Last(r).retrySchedule.None?
  {
    hide ValidDecisions, ValidHistory, ValidAddress, ValidSchedule;
    assert ValidAttemptSchedule(r, |r.attempts| - 1);
  }

  /** ... and so the next call of the same request is refused for good, refused
      until reconciled, or waits for the policy's deadline and then starts. */
  lemma FailureThenCall(
    e: Envelope, k: Digest, message: string, decision: FailureDecision, now: Time, sample: Option<uint64>, t: Envelope,
    q: ActivityRequest, incarnation: uint64, checkedAt: Time, startedAt: Time)
    requires EnvInv(e) && k in e.journal && e.journal[k].state.Running? && !decision.classification.NoClass?
    requires Finish(e, k, FailedWith(message, decision), DispatchOrigin(e), now, sample) == Write(t)
    requires e.revision < MAX_UINT64 && k == BoundActivity(e, q.key) && Matches(e.journal[k], q)
    ensures var r := e.journal[k]; var n := |r.attempts|;
      var step := Begin(Next(e, t), q, incarnation, checkedAt, startedAt);
      match decision.classification
      case Ambiguous => step == Refused(ErrActivityUnknown)
      case Retryable =>
        if n >= r.retry.maxAttempts then step == Refused(ErrActivityAttemptsExhausted)
        else
          var d := ChooseSchedule(r.retry, n, now, decision.notBefore, sample);
          if d.rejection != Accepted then step == Refused(ErrActivityScheduleInvalid)
          else if checkedAt < d.deadline then step == Refused(ErrActivityRetryPending)
          else step.Write? <==> incarnation != 0 && startedAt != 0 && startedAt >= d.deadline
      case _ => step == Refused(ErrActivityFailed)
  {
    hide EnvInv, ValidRecord, ChooseSchedule, Begin, Finish, Settles;
    FailureAnswer(e, k, message, decision, now, sample, t);
    FinishSound(e, k, FailedWith(message, decision), DispatchOrigin(e), now, sample);
    SettledContract(e.journal[k], t.journal[k]);
    CallAnswer(Next(e, t), q, k, incarnation, checkedAt, startedAt);
  }

  lemma SettledContract(r: ActivityRecord, s: ActivityRecord)
    requires Settles(r, s)
    ensures SameContract(r, s) && s.attempts != []
  {
  }

  // ------------------------------------------------------ operator decisions

  /** The decision that was appended is the operator's own, about the last attempt
      in the state it was in, and that attempt counts as unknown. */
  predicate Recorded(
    r: ActivityRecord, s: ActivityRecord, q: ActivityResolution, revision: uint64, incarnation: uint64, now: Time)
  {
    && Settles(r, s) && Last(s).state.Unknown? && |s.resolutions| == |r.resolutions| + 1
    && s.resolutions[..|r.resolutions|] == r.resolutions
    && var d := s.resolutions[|r.resolutions|];
       && d.decisionID == q.decisionID && d.action == q.action && d.reason == q.reason && d.evidence == q.evidence
       && d.safeRetryContract == q.safeRetryContract && d.attempt == |r.attempts| && d.priorState == r.state
       && d.sourceRevision == revision && d.incarnation == incarnation && d.at == now
  }

  /** What an operator's decision leaves: the operator's outcome, a definite
      failure, or a retry due at the policy's delay or the operator's time,
      whichever is later. */
  lemma ResolutionAnswer(
    e: Envelope, token: uint64, q: ActivityResolution, incarnation: uint64, now: Time, sample: Option<uint64>,
    t: Envelope)
    requires EnvInv(e) && Resolve(e, token, q, incarnation, now, sample) == Write(t)
    ensures OnlyAt(e, t, q.identity)
    ensures Recorded(e.journal[q.identity], t.journal[q.identity], q, e.revision, incarnation, now)
    ensures ResolvedAs(e.journal[q.identity], t.journal[q.identity], q, now, sample)
  {
    hide EnvInv, RecordAt, ChooseSchedule, ApplyResolution, RecordInv, ValidRecord, ResolvedAs;
    RecordFacts(e, q.identity);
    ResolvedRecordIs(e.journal[q.identity], q, e.revision, incarnation, now, sample);
    SettledContract(e.journal[q.identity], t.journal[e.journal[q.identity].identity]);
  }

  predicate ResolvedAs(
    r: ActivityRecord, s: ActivityRecord, q: ActivityResolution, now: Time, sample: Option<uint64>)
  {
    match q.action
    case ResolveComplete => s.state.Completed? && s.outcome == q.outcome && s.origin.Manual?
    case ResolveFail => s.state.Failed? && s.classification.NonRetryable? && s.outcome == []
    case ResolveRetry =>
      var d := ChooseSchedule(r.retry, |r.attempts|, now, q.notBefore, sample);
      && s.state.Prepared? && s.outcome == [] && d.rejection == Accepted
      && |r.resolutions| < |s.resolutions| && s.resolutions[|r.resolutions|].retrySchedule == Some(d)
      && s.nextAttemptAt >= now + d.selectedDelay && s.nextAttemptAt >= q.notBefore
      && (s.nextAttemptAt == now + d.selectedDelay || s.nextAttemptAt == q.notBefore)
    case OtherAction(_) => false
  }

  lemma ChosenAt(p: RetryPolicy, attempt: int, at: Time, hint: Time, sample: Option<uint64>)
    ensures var d := ChooseSchedule(p, attempt, at, hint, sample);
      d.rejection == Accepted ==>
        && d.deadline >= at + d.selectedDelay && d.deadline >= hint
        && (d.deadline == at + d.selectedDelay || d.deadline == hint)
  {
    hide ChooseSchedule;
    if ChooseSchedule(p, attempt, at, hint, sample).rejection == Accepted {
      ChosenDeadline(p, attempt, at, hint, sample);
    }
  }

  lemma ResolvedRecordIs(
    r: ActivityRecord, q: ActivityResolution, revision: uint64, incarnation: uint64, now: Time, sample: Option<uint64>)
    requires RecordInv(r) && (r.state.Running? || r.state.Unknown?) && r.attempts != []
    requires ResolveRecord(r, q, revision, incarnation, now, sample).Ok?
    ensures var s := ResolveRecord(r, q, revision, incarnation, now, sample).value;
      Recorded(r, s, q, revision, incarnation, now) && ResolvedAs(r, s, q, now, sample) && !ScheduleRejected(s)
  {
    hide ChooseSchedule, RecordInv, ValidRetry, ValidSchedule, JitterWidth, BaseDelay;
    LastFacts(r);
    NoScheduleYet(r);
    if q.action.ResolveRetry? {
      ChosenAt(r.retry, |r.attempts|, now, q.notBefore, sample);
    }
  }

  /** Every later call, by any incarnation, gets what the operator decided. */
  lemma ResolutionThenCall(
    e: Envelope, token: uint64, q: ActivityResolution, incarnation: uint64, now: Time, sample: Option<uint64>,
    t: Envelope, g: Envelope, call: ActivityRequest, caller: uint64, checkedAt: Time, startedAt: Time)
    requires EnvInv(e) && e.revision < MAX_UINT64 && Resolve(e, token, q, incarnation, now, sample) == Write(t)
    requires !q.action.ResolveRetry? && EnvInv(g) && Extends(Next(e, t), g)
    requires BoundActivity(g, call.key) == q.identity && q.identity in t.journal && Matches(t.journal[q.identity], call)
    ensures q.identity in g.journal
    ensures if q.action.ResolveComplete? then
        && g.journal[q.identity].state.Completed? && g.journal[q.identity].outcome == q.outcome
        && Begin(g, call, caller, checkedAt, startedAt) == Unchanged
      else Begin(g, call, caller, checkedAt, startedAt) == Refused(ErrActivityFailed)
  {
    hide EnvInv, Resolve, ChooseSchedule, Begin, ChildrenExtend, WaitsExtend, Settles, RecordExtends;
    ResolutionAnswer(e, token, q, incarnation, now, sample, t);
    RecordFrozen(Next(e, t), g, q.identity);
    CallAnswer(g, call, q.identity, caller, checkedAt, startedAt);
    NotScheduled(e, token, q, incarnation, now, sample, t);
  }

  lemma RecordFrozen(e: Envelope, g: Envelope, k: Digest)
    requires k in e.journal && !Unresolved(e.journal[k].state) && Extends(e, g)
    ensures k in g.journal && g.journal[k] == e.journal[k]
  {
    hide ChildrenExtend, WaitsExtend;
    assert RecordExtends(e.journal[k], g.journal[k]);
  }

  lemma NotScheduled(
    e: Envelope, token: uint64, q: ActivityResolution, incarnation: uint64, now: Time, sample: Option<uint64>,
    t: Envelope)
    requires EnvInv(e) && Resolve(e, token, q, incarnation, now, sample) == Write(t) && !q.action.ResolveRetry?
    ensures q.identity in t.journal && !ScheduleRejected(t.journal[q.identity])
  {
    hide EnvInv, RecordAt, ChooseSchedule, ApplyResolution, RecordInv, ValidRecord, ResolvedAs, ScheduleRejected;
    RecordFacts(e, q.identity);
    ResolvedRecordIs(e.journal[q.identity], q, e.revision, incarnation, now, sample);
    SettledContract(e.journal[q.identity], t.journal[e.journal[q.identity].identity]);
  }

  /** A retry the operator ordered waits for its time, and then starts the next
      attempt. */
  lemma RetryThenCall(
    e: Envelope, token: uint64, q: ActivityResolution, incarnation: uint64, now: Time, sample: Option<uint64>,
    t: Envelope, call: ActivityRequest, caller: uint64, checkedAt: Time, startedAt: Time)
    requires EnvInv(e) && e.revision < MAX_UINT64 && Resolve(e, token, q, incarnation, now, sample) == Write(t)
    requires q.action.ResolveRetry? && incarnation != 0 && now != 0
    requires q.identity in t.journal && Matches(t.journal[q.identity], call) && BoundActivity(e, call.key) == q.identity
    ensures var due := t.journal[q.identity].nextAttemptAt;
      var step := Begin(Next(e, t), call, caller, checkedAt, startedAt);
      if checkedAt < due then step == Refused(ErrActivityRetryPending)
      else step.Write? <==> caller != 0 && startedAt != 0 && startedAt >= due
  {
    hide EnvInv, Resolve, ChooseSchedule, Begin, Settles;
    ResolutionAnswer(e, token, q, incarnation, now, sample, t);
    ResolveSound(e, token, q, incarnation, now, sample);
    SettledContract(e.journal[q.identity], t.journal[q.identity]);
    CallAnswer(Next(e, t), call, q.identity, caller, checkedAt, startedAt);
  }

  /** Exactly which decisions are accepted: stated in full, about the current
      revision of an unfinished run, for the contract of a record that is running
      or unknown, under a new ID, and within what their action allows. */
  lemma ResolveWritesIff(
    e: Envelope, token: uint64, q: ActivityResolution, incarnation: uint64, now: Time, sample: Option<uint64>)
    requires EnvInv(e)
    ensures Resolve(e, token, q, incarnation, now, sample).Write? <==>
      && q.decisionID != "" && q.reason != "" && q.evidence != "" && token == e.revision && e.terminal.None?
      && q.identity in e.journal && Decides(e.journal[q.identity], q)
      && ActionAllowed(e.journal[q.identity], q, now, sample)
    ensures var step := Resolve(e, token, q, incarnation, now, sample);
      !step.Write? ==>
        if Blank(q) then step == Refused(ErrActivityConflict)
        else if token != e.revision then step == Refused(ErrConcurrencyConflict)
        else if OnlyUnscheduled(e, q) then step == Refused(ErrActivityScheduleInvalid)
        else step == Refused(ErrActivityConflict)
  {
    hide EnvInv, ChooseSchedule, ValidRetry, RecordInv;
    RevisionIsPositive(e);
    if q.identity in e.journal {
      RecordFacts(e, q.identity);
      if e.journal[q.identity].state.Running? || e.journal[q.identity].state.Unknown? {
        ResolvableFacts(e.journal[q.identity]);
      }
    }
  }

  predicate Blank(q: ActivityResolution) {
    || q.identity == OtherText("") || q.inputDigest == OtherText("") || q.implementation == ""
    || q.decisionID == "" || q.reason == "" || q.evidence == ""
  }

  /** All that is wrong with the decision is that its retry cannot be scheduled. */
  predicate OnlyUnscheduled(e: Envelope, q: ActivityResolution) {
    && e.terminal.None? && q.identity in e.journal && Decides(e.journal[q.identity], q) && q.action.ResolveRetry?
    && q.outcome == [] && q.safeRetryContract == e.journal[q.identity].retry.safeRetryContract
    && |e.journal[q.identity].attempts| < e.journal[q.identity].retry.maxAttempts
  }

  predicate Decides(r: ActivityRecord, q: ActivityResolution) {
    && (r.state.Running? || r.state.Unknown?) && r.inputDigest == q.inputDigest && r.implementation == q.implementation
    && forall i :: 0 <= i < |r.resolutions| ==> r.resolutions[i].decisionID != q.decisionID
  }

  predicate ActionAllowed(r: ActivityRecord, q: ActivityResolution, now: Time, sample: Option<uint64>) {
    match q.action
    case ResolveComplete => q.safeRetryContract == "" && q.notBefore == 0
    case ResolveFail => q.safeRetryContract == "" && q.notBefore == 0 && q.outcome == []
    case ResolveRetry =>
      && q.outcome == [] && q.safeRetryContract == r.retry.safeRetryContract && |r.attempts| < r.retry.maxAttempts
      && ChooseSchedule(r.retry, |r.attempts|, now, q.notBefore, sample).rejection == Accepted
    case OtherAction(_) => false
  }

  lemma RevisionIsPositive(e: Envelope)
    requires EnvInv(e)
    ensures e.revision > 0
  {
    hide CollectionsValid, RecordsInductive;
  }

  lemma ResolvableFacts(r: ActivityRecord)
    requires RecordInv(r) && (r.state.Running? || r.state.Unknown?)
    ensures r.attempts != [] && ValidRetry(r.retry) && r.implementation != "" && r.inputDigest != OtherText("")
    ensures r.identity == ActivityAddress(r.executionID, r.node, r.activation, r.key)
    ensures |r.attempts| < r.retry.maxAttempts ==> r.retry.safeRetryContract != ""
  {
    LastFacts(r);
    PolicyFacts(r);
    hide RecordInv;
  }
}
