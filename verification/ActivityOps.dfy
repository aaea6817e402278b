/** The activity boundary of a durable node and the operator's decisions on it,
    as writes to the aggregate's journal. */
module ActivityOps {
  import opened Basics
  import opened Envelopes
  import opened AggregateInvariant
  import R = RetrySchedule
  import A = ActivityRecords
  import S = ActivitySteps

  /** What a dispatch, or a reconciliation, returned. */
  datatype Outcome = Succeeded(payload: Bytes) | FailedWith(message: string, decision: S.FailureDecision)

  predicate ValidRequest(q: S.ActivityRequest) {
    q.key != "" && q.implementation != "" && R.ValidRetry(q.retry)
  }

  predicate Matches(r: A.ActivityRecord, q: S.ActivityRequest) {
    r.inputDigest == PayloadHash(q.input) && r.implementation == q.implementation && r.retry == q.retry
  }

  /** The record is validated before it is written. */
  function Persist(e: Envelope, r: A.ActivityRecord): Step {
    if A.ValidRecord(r) then Write(WithRecord(e, r)) else Refused(ErrExecutionCorrupt)
  }

  function Prepare(e: Envelope, q: S.ActivityRequest): Step {
    var id := BoundActivity(e, q.key);
    if !ValidRequest(q) then Refused(ErrExecutionCapability)
    else if id in e.journal then Unchanged
    else Persist(e, S.NewRecord(e.executionID, e.progress.pointer, e.activation, q).(identity := id))
  }

  /** `checkedAt` and `startedAt` are the two clock readings of one call. */
  function Begin(e: Envelope, q: S.ActivityRequest, incarnation: uint64, checkedAt: Time, startedAt: Time): Step {
    var id := BoundActivity(e, q.key);
    if id !in e.journal || !Matches(e.journal[id], q) then Refused(ErrActivityConflict)
    else
      var r := e.journal[id];
      match r.state
      case Completed => Unchanged
      case Running => Refused(ErrActivityBusy)
      case Unknown => Refused(ErrActivityUnknown)
      case _ =>
        if S.PreparedError(r, checkedAt).Some? then Refused(S.PreparedError(r, checkedAt).value)
        else Persist(e, S.BeginAttempt(r, incarnation, startedAt))
  }

  /** A takeover marks an attempt of another incarnation unknown before it may
      be reconciled. */
  function Abandon(e: Envelope, q: S.ActivityRequest, incarnation: uint64): Step {
    var id := BoundActivity(e, q.key);
    if id !in e.journal || !Matches(e.journal[id], q) then Refused(ErrActivityConflict)
    else
      var r := e.journal[id];
      if !r.state.Running? then Unchanged
      else if r.attempts == [] then Refused(ErrActivityConflict)
      else if A.Last(r).incarnation == incarnation then Refused(ErrActivityBusy)
      else Persist(e, S.AbandonAttempt(r))
  }

  function DispatchOrigin(e: Envelope): A.Origin {
    if FakeFork(e) then A.Simulated else A.Live
  }

  function Finish(
    e: Envelope, id: Digest, outcome: Outcome, origin: A.Origin, now: Time, sample: Option<uint64>): Step
  {
    if id !in e.journal || e.journal[id].attempts == [] then Refused(ErrActivityConflict)
    else
      var r := e.journal[id];
      if r.state.Completed? then
        if outcome != Succeeded(r.outcome) then Refused(ErrActivityConflict) else Unchanged
      else match outcome
        case Succeeded(payload) => Persist(e, S.CompleteAttempt(r, payload, origin, now))
        case FailedWith(message, decision) => Persist(e, S.FailAttempt(r, message, decision, now, sample))
  }

  /** An operator's decision, addressed to one revision of the aggregate. The
      published record is not validated again. */
  function Resolve(
    e: Envelope, tokenRevision: uint64, q: S.ActivityResolution, incarnation: uint64, now: Time, sample: Option<uint64>)
    : Step
  {
    if || q.identity == OtherText("") || q.inputDigest == OtherText("") || q.implementation == ""
       || q.decisionID == "" || q.reason == "" || q.evidence == "" then Refused(ErrActivityConflict)
    else if tokenRevision == 0 || tokenRevision != e.revision then Refused(ErrConcurrencyConflict)
    else if e.terminal.Some? || q.identity !in e.journal then Refused(ErrActivityConflict)
    else
      var r := e.journal[q.identity];
      if || r.identity != BoundActivity(e, r.key) || r.inputDigest != q.inputDigest
         || r.implementation != q.implementation || r.attempts == []
         || (exists i :: 0 <= i < |r.resolutions| && r.resolutions[i].decisionID == q.decisionID)
         || !(r.state.Running? || r.state.Unknown?) then Refused(ErrActivityConflict)
      else match S.ResolveRecord(r, q, e.revision, incarnation, now, sample)
        case Err(error) => Refused(error)
        case Ok(s) => Write(WithRecord(e, s))
  }

  // ------------------------------------------------------------- soundness

  /** What the aggregate knows about one record. */
  lemma RecordFacts(e: Envelope, id: Digest)
    requires id in e.journal && EnvInv(e)
    ensures S.RecordInv(e.journal[id]) && e.journal[id].identity == id && RecordAt(e, e.journal[id])
  {
    hide A.ValidRecord, ChildrenValid, WaitsValid, RecordAt;
  }

  lemma AddressFacts(e: Envelope)
    requires EnvInv(e)
    ensures e.executionID != "" && e.progress.pointer != "" && e.activation != 0 && JournalRefsValid(e)
  {
    hide A.ValidRecord, ChildrenValid, WaitsValid, RecordAt;
  }

  lemma PrepareSound(e: Envelope, q: S.ActivityRequest)
    requires EnvInv(e) && e.revision < MAX_UINT64
    ensures StepSound(e, Prepare(e, q))
  {
    hide EnvInv, Sound;
    if Prepare(e, q).Write? {
      AddressFacts(e);
      var r := S.NewRecord(e.executionID, e.progress.pointer, e.activation, q).(identity := BoundActivity(e, q.key));
      S.NewRecordValid(e.executionID, e.progress.pointer, e.activation, q);
      hide A.ValidRecord, S.RecordExtends;
      assert RecordFits(e, r, Increment(e.revision));
      hide RecordFits;
      RecordWritten(e, r);
    }
  }

  /** A changed record that extends the stored one may be written. */
  lemma ChangeSound(e: Envelope, id: Digest, s: A.ActivityRecord)
    requires EnvInv(e) && e.revision < MAX_UINT64 && Changes(e, id, s)
    ensures Sound(e, WithRecord(e, s))
  {
    hide EnvInv, Sound, A.ValidRecord;
    RecordFacts(e, id);
    assert RecordFits(e, s, Increment(e.revision)) by {
      forall i | 0 <= i < |s.resolutions| ensures s.resolutions[i].sourceRevision < Increment(e.revision) {
        if i < |e.journal[id].resolutions| {
          assert s.resolutions[i] == e.journal[id].resolutions[i];
        }
      }
    }
    hide RecordFits, S.RecordExtends;
    RecordWritten(e, s);
  }

  predicate Changes(e: Envelope, id: Digest, s: A.ActivityRecord) {
    && id in e.journal && A.Unresolved(e.journal[id].state)
    && S.RecordInv(s) && S.RecordExtends(e.journal[id], s)
    && (s.origin.Simulated? ==> FakeFork(e)) && (s.origin.Live? ==> !FakeFork(e))
    && forall i :: |e.journal[id].resolutions| <= i < |s.resolutions| ==> s.resolutions[i].sourceRevision <= e.revision
  }

  lemma BeginSound(e: Envelope, q: S.ActivityRequest, incarnation: uint64, checkedAt: Time, startedAt: Time)
    requires EnvInv(e) && e.revision < MAX_UINT64
    ensures StepSound(e, Begin(e, q, incarnation, checkedAt, startedAt))
  {
    hide EnvInv, Sound, RecordAt, A.ValidRecord;
    if Begin(e, q, incarnation, checkedAt, startedAt).Write? {
      var id := BoundActivity(e, q.key);
      var r := e.journal[id];
      RecordFacts(e, id);
      S.BeginValidIff(r, checkedAt, incarnation, startedAt);
      S.BeginValid(r, incarnation, startedAt);
      hide S.RecordInv, S.RecordExtends;
      ChangeSound(e, id, S.BeginAttempt(r, incarnation, startedAt));
    }
  }

  lemma AbandonSound(e: Envelope, q: S.ActivityRequest, incarnation: uint64)
    requires EnvInv(e) && e.revision < MAX_UINT64
    ensures StepSound(e, Abandon(e, q, incarnation))
  {
    hide EnvInv, Sound, RecordAt, A.ValidRecord;
    if Abandon(e, q, incarnation).Write? {
      var id := BoundActivity(e, q.key);
      RecordFacts(e, id);
      S.AbandonValid(e.journal[id]);
      assert e.journal[id].origin.NoOrigin?;
      hide S.RecordInv, S.RecordExtends;
      ChangeSound(e, id, S.AbandonAttempt(e.journal[id]));
    }
  }

  /** The record a finish may find: the one its own dispatch left running, or an
      unknown one that was reconciled. */
  predicate Finishes(e: Envelope, id: Digest, outcome: Outcome, origin: A.Origin) {
    && (outcome.FailedWith? ==> !outcome.decision.classification.NoClass?)
    && (id in e.journal ==>
          || (e.journal[id].state.Running? && origin == DispatchOrigin(e))
          || (e.journal[id].state.Unknown? && origin.Reconciled? && outcome.Succeeded?)
          || e.journal[id].state.Completed?)
  }

  lemma FinishSound(
    e: Envelope, id: Digest, outcome: Outcome, origin: A.Origin, now: Time, sample: Option<uint64>)
    requires e.revision < MAX_UINT64 && EnvInv(e) && Finishes(e, id, outcome, origin)
    ensures StepSound(e, Finish(e, id, outcome, origin, now, sample))
  {
    hide EnvInv, Sound, RecordAt, A.ValidRecord;
    if Finish(e, id, outcome, origin, now, sample).Write? {
      var r := e.journal[id];
      RecordFacts(e, id);
      hide S.RecordInv, S.RecordExtends;
      if outcome.Succeeded? {
        S.CompleteValidIff(r, outcome.payload, origin, now);
        ChangeSound(e, id, S.CompleteAttempt(r, outcome.payload, origin, now));
      } else {
        S.FailValidIff(r, outcome.message, outcome.decision, now, sample);
        RunningOrigin(r);
        ChangeSound(e, id, S.FailAttempt(r, outcome.message, outcome.decision, now, sample));
      }
    }
  }

  lemma RunningOrigin(r: A.ActivityRecord)
    requires S.RecordInv(r) && r.state.Running?
    ensures r.origin.NoOrigin? && r.attempts != []
  {
    hide A.ValidAttempts, A.ValidDecisions, A.ValidSchedules, A.ValidHistory;
  }

  /** A resolution publishes a record the loader accepts, although nothing
      validates it, provided the clock did not return the zero time. */
  lemma ResolveSound(
    e: Envelope, tokenRevision: uint64, q: S.ActivityResolution, incarnation: uint64, now: Time, sample: Option<uint64>)
    requires EnvInv(e) && e.revision < MAX_UINT64 && incarnation != 0 && now != 0
    ensures StepSound(e, Resolve(e, tokenRevision, q, incarnation, now, sample))
  {
    hide EnvInv, Sound, S.RecordInv, S.RecordExtends, A.ValidRecord;
    if Resolve(e, tokenRevision, q, incarnation, now, sample).Write? {
      var r := e.journal[q.identity];
      RecordFacts(e, q.identity);
      S.ResolveValidIff(r, q, e.revision, incarnation, now, sample);
      hide RecordAt;
      ChangeSound(e, q.identity, S.ResolveRecord(r, q, e.revision, incarnation, now, sample).value);
    }
  }

  /** Exactly: what a resolution publishes loads if and only if the clock did not
      return the zero time. */
  lemma ResolveLoadsIff(
    e: Envelope, tokenRevision: uint64, q: S.ActivityResolution, incarnation: uint64, now: Time, sample: Option<uint64>,
    t: Envelope)
    requires EnvInv(e) && e.revision < MAX_UINT64 && incarnation != 0
    requires Resolve(e, tokenRevision, q, incarnation, now, sample) == Write(t)
    ensures CollectionsValid(Next(e, t)) <==> now != 0
  {
    hide EnvInv, Sound, S.RecordInv, S.RecordExtends, A.ValidRecord, CollectionsValid;
    if now != 0 {
      ResolveSound(e, tokenRevision, q, incarnation, now, sample);
      SoundLoads(e, t);
    } else {
      var r := e.journal[q.identity];
      RecordFacts(e, q.identity);
      S.ResolveValidIff(r, q, e.revision, incarnation, now, sample);
      hide RecordAt;
      var s := S.ResolveRecord(r, q, e.revision, incarnation, now, sample).value;
      assert Next(e, t).journal[s.identity] == s;
      InvalidDoesNotLoad(Next(e, t), s.identity);
    }
  }

  lemma SoundLoads(e: Envelope, t: Envelope)
    requires Sound(e, t)
    ensures CollectionsValid(Next(e, t))
  {
    hide CollectionsValid;
  }

  lemma InvalidDoesNotLoad(e: Envelope, k: Digest)
    requires k in e.journal && !A.ValidRecord(e.journal[k])
    ensures !CollectionsValid(e)
  {
    hide A.ValidRecord, ChildrenValid, WaitsValid;
  }
}
