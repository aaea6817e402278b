/** What durable waits answer: what is armed, which deliveries decide, what a
    decision, a continuation or a cancellation leaves behind, and what the next
    delivery or cancellation then gets. */
module WaitAnswers {
  import opened Basics
  import opened Envelopes
  import opened AggregateInvariant
  import opened StepOps
  import opened WaitArbitration
  import opened WaitOps

  // ------------------------------------------------------------------ arming

  /** The wait that is armed: the node's own spec under the backend's profile, in
      the generation of the revision that arms it, with an empty ledger. */
  predicate ArmedAs(e: Envelope, r: WaitRecord, spec: WaitSpec, profile: WaitProfile) {
    && r.executionID == e.executionID && r.node == e.progress.pointer && r.activation == e.activation
    && r.spec == spec && r.profile == profile && r.armRevision == Increment(e.revision)
    && r.generation ==
         WaitGeneration(WaitAddress(e.executionID, e.progress.pointer, e.activation, spec.id), r.armRevision)
    && r.state.Armed? && r.winnerID == "" && r.decisions == map[] && r.cancellation.None?
  }

  /** Exactly when a wait is armed, and what else that commit changes. */
  lemma ArmAnswer(e: Envelope, s: Snapshot, spec: WaitSpec, profile: WaitProfile)
    requires EnvInv(e)
    ensures var k := WaitAddress(e.executionID, e.progress.pointer, e.activation, spec.id);
      Arm(e, s, spec, profile).Write? <==>
        && (e.profile.Some? ==> e.profile.value == profile) && s.pointer == e.progress.pointer
        && e.revision < MAX_UINT64 && Idle(e) && !HasArmed(e) && ValidSpec(spec) && ValidProfile(profile)
        && k !in e.waits
    ensures Arm(e, s, spec, profile).Write? ==>
      var t := Arm(e, s, spec, profile).target;
      var k := WaitAddress(e.executionID, e.progress.pointer, e.activation, spec.id);
      && k in t.waits && ArmedAs(e, t.waits[k], spec, profile)
      && t == e.(waits := e.waits[k := t.waits[k]], progress := e.progress.(state := s.state),
                 effects := s.effects, runMeta := s.runMeta)
  {
    hide EnvInv, StepOps.Resolved, Idle, HasArmed, ValidSpec, ValidProfile;
    ResolvedIsIdle(e);
    Located(e);
  }

  /** Why a wait is not armed, in the order of the checks. */
  lemma ArmRefuses(e: Envelope, s: Snapshot, spec: WaitSpec, profile: WaitProfile)
    requires EnvInv(e) && !Arm(e, s, spec, profile).Write?
    ensures Arm(e, s, spec, profile) ==
      if e.profile.Some? && e.profile.value != profile then Refused(ErrExecutionCapability)
      else if s.pointer != e.progress.pointer then Refused(ErrConcurrencyConflict)
      else if e.revision == MAX_UINT64 then Refused(ErrWaitInvalid)
      else if !Idle(e) || HasArmed(e) then Outstanding
      else if !ValidSpec(spec) || !ValidProfile(profile) then Refused(ErrWaitInvalid)
      else Refused(ErrWaitConflict)
  {
    hide EnvInv, StepOps.Resolved, Idle, HasArmed, ValidSpec, ValidProfile;
    ResolvedIsIdle(e);
    Located(e);
  }

  lemma Located(e: Envelope)
    requires EnvInv(e)
    ensures e.executionID != "" && e.progress.pointer != "" && e.activation != 0
  {
    hide CollectionsValid, RecordsInductive;
  }

  // -------------------------------------------------------------- deliveries

  /** The ledger entry of a delivery that was not there before. */
  predicate Entered(
    r: WaitRecord, v: Verdict, delivery: WaitDelivery, revision: uint64, incarnation: uint64, now: Time)
  {
    && delivery.id !in r.decisions && v.target.decisions == r.decisions[delivery.id := v.decision]
    && v.decision.id == delivery.id && v.decision.kind == delivery.kind
    && v.decision.correlationID == delivery.correlationID && v.decision.payloadDigest == PayloadHash(delivery.payload)
    && v.decision.sourceRevision == revision && v.decision.incarnation == incarnation && v.decision.at == now
    && v.target.spec == r.spec && v.target.generation == r.generation && v.target.cancellation == r.cancellation
  }

  /** A timer, or an event the host matched, decides an armed wait. An event it
      refused leaves the wait armed, and no other delivery changes its fate. */
  lemma VerdictAnswer(
    r: WaitRecord, delivery: WaitDelivery, revision: uint64, incarnation: uint64, now: Time, matched: bool, v: Verdict)
    requires PrepareWaitDecision(r, delivery, revision, incarnation, now, matched) == Ok(v) && !v.replay
    ensures Entered(r, v, delivery, revision, incarnation, now)
    ensures v.decision.status.WaitAccepted? <==> r.state.Armed? && (delivery.kind.Timer? || matched)
    ensures v.decision.status.WaitUnmatched? <==> r.state.Armed? && delivery.kind.Event? && !matched
    ensures v.decision.status.WaitLost? <==> r.state.Resolved? || r.state.Expired?
    ensures v.decision.status.WaitRejectedCanceled? <==> r.state.Canceled?
    ensures if v.decision.status.WaitAccepted?
      then v.target.winnerID == delivery.id && v.target.state == (if delivery.kind.Timer? then Expired else Resolved)
      else v.target.winnerID == r.winnerID && v.target.state == r.state
  {
    hide ValidWait;
  }

  /** Exactly which deliveries are recorded: for this generation and correlation,
      under a new ID, about a revision since the arming, the current one while
      the wait is armed, and a timer empty-handed and not before its deadline. */
  lemma RecordedIff(
    r: WaitRecord, delivery: WaitDelivery, revision: uint64, incarnation: uint64, now: Time, matched: bool)
    requires ValidWait(r, revision) && incarnation != 0 && now != 0
    ensures var v := PrepareWaitDecision(r, delivery, revision, incarnation, now, matched);
      v.Ok? && !v.value.replay <==>
        && delivery.generation == r.generation && delivery.correlationID == r.spec.correlationID
        && delivery.id != "" && delivery.id !in r.decisions && !delivery.kind.OtherDelivery? && revision < MAX_UINT64
        && r.armRevision <= delivery.expectedRevision <= revision
        && (r.state.Armed? ==> delivery.expectedRevision == revision)
        && (delivery.kind.Timer? ==> delivery.payload == [] && now >= r.spec.deadline)
    ensures delivery.generation != r.generation || delivery.expectedRevision > revision
            || delivery.expectedRevision < r.armRevision ==>
      PrepareWaitDecision(r, delivery, revision, incarnation, now, matched) == Err(ErrWaitStale)
  {
    hide ValidWait;
  }

  /** Why a delivery under a new ID is not recorded: a stale revision of an armed
      wait, or a delivery that is malformed or early. */
  lemma NotRecorded(
    r: WaitRecord, delivery: WaitDelivery, revision: uint64, incarnation: uint64, now: Time, matched: bool)
    requires ValidWait(r, revision) && incarnation != 0 && now != 0 && revision < MAX_UINT64
    requires delivery.generation == r.generation && r.armRevision <= delivery.expectedRevision <= revision
    requires delivery.id !in r.decisions && PrepareWaitDecision(r, delivery, revision, incarnation, now, matched).Err?
    ensures PrepareWaitDecision(r, delivery, revision, incarnation, now, matched) ==
      if || delivery.id == "" || delivery.kind.OtherDelivery? || delivery.correlationID != r.spec.correlationID
         || (delivery.kind.Timer? && (delivery.payload != [] || now < r.spec.deadline))
      then Err(ErrWaitInvalid) else Err(ErrWaitStale)
  {
    hide ValidWait;
  }

  /** Where a decided wait continues. */
  predicate Resumes(e: Envelope, t: Envelope, spec: WaitSpec, kind: DeliveryKind, state: Bytes) {
    && t.activation == Increment(e.activation) && t.progress.state == state
    && t.progress.pointer == (if kind.Timer? then spec.timeoutPointer else spec.eventPointer)
    && t.progress.journalRefs == map[] && t.progress.groupRefs == map[]
    && t.progress.childCursors == e.progress.childCursors
    && t == e.(waits := t.waits, activation := t.activation, progress := t.progress)
  }

  /** What a delivery commits: the continuation with the winner if it decides the
      wait, and otherwise its ledger entry alone. */
  lemma DeliverAnswer(
    e: Envelope, delivery: WaitDelivery, incarnation: uint64, now: Time, matched: bool, state: Bytes, t: Envelope)
    requires Deliver(e, delivery, incarnation, now, matched, state) == Write(t)
    ensures Addressed(e.waits, delivery.generation).Some?
    ensures var k := Addressed(e.waits, delivery.generation).value; var r := e.waits[k];
      && k in t.waits && t.waits == e.waits[k := t.waits[k]]
      && (if r.state.Armed? && (delivery.kind.Timer? || matched) then
            && Resumes(e, t, r.spec, delivery.kind, state)
            && !t.waits[k].state.Armed? && t.waits[k].winnerID == delivery.id
          else
            t == e.(waits := t.waits) && t.waits[k].state == r.state && t.waits[k].winnerID == r.winnerID)
  {
    hide PrepareWaitDecision;
    var k := Addressed(e.waits, delivery.generation).value;
    var v := PrepareWaitDecision(e.waits[k], delivery, e.revision, incarnation, now, matched).value;
    VerdictAnswer(e.waits[k], delivery, e.revision, incarnation, now, matched, v);
  }

  /** Exactly when a delivery writes. */
  lemma DeliverWritesIff(
    e: Envelope, delivery: WaitDelivery, incarnation: uint64, now: Time, matched: bool, state: Bytes)
    requires EnvInv(e) && incarnation != 0 && now != 0 && e.revision < MAX_UINT64
    ensures Deliver(e, delivery, incarnation, now, matched, state).Write? <==>
      && Addressed(e.waits, delivery.generation).Some?
      && var r := e.waits[Addressed(e.waits, delivery.generation).value];
         && delivery.correlationID == r.spec.correlationID && delivery.id != "" && delivery.id !in r.decisions
         && !delivery.kind.OtherDelivery? && r.armRevision <= delivery.expectedRevision <= e.revision
         && (r.state.Armed? ==> delivery.expectedRevision == e.revision)
         && (delivery.kind.Timer? ==> delivery.payload == [] && now >= r.spec.deadline)
    ensures delivery.generation == OtherText("") || delivery.id == "" ==>
      Deliver(e, delivery, incarnation, now, matched, state) == Refused(ErrWaitInvalid)
    ensures (&& delivery.generation != OtherText("") && delivery.id != ""
             && Addressed(e.waits, delivery.generation).None?) ==>
      Deliver(e, delivery, incarnation, now, matched, state) ==
        Refused(if e.waits == map[] then ErrWaitNotArmed else ErrWaitUnknown)
  {
    hide EnvInv, PrepareWaitDecision, ValidWait;
    if Addressed(e.waits, delivery.generation).Some? {
      var k := Addressed(e.waits, delivery.generation).value;
      ArmFacts(e);
      hide WaitsValid;
      WaitFacts(e, k);
      RecordedIff(e.waits[k], delivery, e.revision, incarnation, now, matched);
    }
  }

  // ------------------------------------------------------------ cancellation

  /** The wait after a cancellation: canceled by this very request, in the same
      ledger. */
  predicate CanceledBy(
    r: WaitRecord, s: WaitRecord, q: WaitCancellation, revision: uint64, incarnation: uint64, now: Time)
  {
    && s == r.(state := Canceled, cancellation := s.cancellation) && s.cancellation.Some?
    && var c := s.cancellation.value;
       && c.id == q.id && c.reason == q.reason && c.evidence == q.evidence
       && c.sourceRevision == revision && c.incarnation == incarnation && c.at == now
  }

  /** Exactly when a cancellation writes, and that it ends the run as failed by
      that cancellation without moving the cursor. */
  lemma CancelAnswer(
    e: Envelope, token: uint64, q: WaitCancellation, incarnation: uint64, now: Time, runMeta: RunMeta)
    requires EnvInv(e)
    ensures Cancel(e, token, q, incarnation, now, runMeta).Write? <==>
      && q.id != "" && q.reason != "" && q.evidence != "" && now != 0 && token == e.revision < MAX_UINT64
      && Addressed(e.waits, q.generation).Some? && e.waits[Addressed(e.waits, q.generation).value].state.Armed?
    ensures Cancel(e, token, q, incarnation, now, runMeta).Write? ==>
      var t := Cancel(e, token, q, incarnation, now, runMeta).target; var k := Addressed(e.waits, q.generation).value;
      && k in t.waits && CanceledBy(e.waits[k], t.waits[k], q, e.revision, incarnation, now)
      && t.terminal.Some? && t.terminal.value.status.RunFailed? && t.terminal.value.reason == CANCELED_REASON
      && t.terminal.value.failure == Some(CANCELED_REASON + ": " + q.reason)
      && t == e.(waits := e.waits[k := t.waits[k]], terminal := t.terminal, runMeta := runMeta)
  {
    hide EnvInv, ValidWait;
    if Addressed(e.waits, q.generation).Some? {
      var k := Addressed(e.waits, q.generation).value;
      ArmFacts(e);
      Positive(e);
      hide WaitsValid;
      WaitFacts(e, k);
      ArmedSince(e.waits[k], e.revision);
    }
  }

  /** Why a cancellation is refused: its fields, the wait it names, or its revision. */
  lemma CancelRefuses(
    e: Envelope, token: uint64, q: WaitCancellation, incarnation: uint64, now: Time, runMeta: RunMeta)
    requires EnvInv(e) && e.revision < MAX_UINT64
    requires !Cancel(e, token, q, incarnation, now, runMeta).Write?
    ensures token == 0 || q.generation == OtherText("") || q.id == "" || q.reason == "" || q.evidence == "" ==>
      Cancel(e, token, q, incarnation, now, runMeta) == Refused(ErrWaitInvalid)
    ensures token != 0 && q.generation != OtherText("") && q.id != "" && q.reason != "" && q.evidence != "" ==>
      match Addressed(e.waits, q.generation)
      case None =>
        Cancel(e, token, q, incarnation, now, runMeta) ==
          Refused(if e.waits == map[] then ErrWaitNotArmed else ErrWaitUnknown)
      case Some(k) =>
        && (token < e.waits[k].armRevision || token > e.revision ==>
              Cancel(e, token, q, incarnation, now, runMeta) == Refused(ErrWaitStale))
        && (e.waits[k].state.Armed? ==>
              Cancel(e, token, q, incarnation, now, runMeta) ==
                Refused(if token != e.revision then ErrWaitStale else ErrWaitInvalid))
  {
    hide EnvInv, ValidWait, WaitsValid;
    if Addressed(e.waits, q.generation).Some? {
      var k := Addressed(e.waits, q.generation).value;
      ArmFacts(e);
      WaitFacts(e, k);
      ArmedSince(e.waits[k], e.revision);
    }
  }

  lemma Positive(e: Envelope)
    requires EnvInv(e)
    ensures e.revision > 0
  {
    hide CollectionsValid, RecordsInductive;
  }

  lemma ArmedSince(r: WaitRecord, revision: uint64)
    requires ValidWait(r, revision)
    ensures 0 < r.armRevision <= revision
  {
    hide ValidDecisions, ValidSpec, ValidProfile;
  }

  /** What a cancellation of a wait that is no longer armed gets, at any later
      envelope: the same one is replayed, another one is refused by the reason the
      wait ended. None writes. */
  lemma LateCancellation(
    f: Envelope, g: Envelope, k: Digest, token: uint64, q: WaitCancellation, incarnation: uint64, now: Time,
    runMeta: RunMeta)
    requires k in f.waits && EnvInv(f) && !f.waits[k].state.Armed? && WaitsExtend(f, g)
    requires Addressed(g.waits, q.generation) == Some(k) && f.waits[k].armRevision <= token <= g.revision
    requires q.id != "" && q.reason != "" && q.evidence != ""
    ensures var r := f.waits[k]; var step := Cancel(g, token, q, incarnation, now, runMeta);
      match r.state
      case Canceled =>
        && r.cancellation.Some?
        && step == (if r.cancellation.value.id != q.id then Refused(ErrWaitCanceled)
                    else if r.cancellation.value.reason == q.reason && r.cancellation.value.evidence == q.evidence
                    then Unchanged else Refused(ErrWaitConflict))
      case Expired => step == Refused(ErrWaitExpired)
      case _ => step == Refused(ErrWaitConflict)
  {
    hide EnvInv, ValidWait;
    ArmFacts(f);
    assert WaitExtends(f.waits[k], g.waits[k]);
    hide WaitsValid, WaitsExtend;
    WaitFacts(f, k);
    ArmedSince(f.waits[k], f.revision);
    CanceledHas(f.waits[k], f.revision);
  }

  lemma CanceledHas(r: WaitRecord, revision: uint64)
    requires ValidWait(r, revision)
    ensures r.state.Canceled? ==> r.cancellation.Some?
  {
    hide ValidDecisions, ValidSpec, ValidProfile;
  }

  /** A cancellation carried out and presented again, after whatever happened in
      between, is replayed. */
  lemma CancellationReplays(
    e: Envelope, token: uint64, q: WaitCancellation, incarnation: uint64, now: Time, runMeta: RunMeta, t: Envelope,
    g: Envelope, again: uint64, incarnation': uint64, now': Time, runMeta': RunMeta)
    requires EnvInv(e) && incarnation != 0 && Cancel(e, token, q, incarnation, now, runMeta) == Write(t)
    requires WaitsExtend(Next(e, t), g) && token <= again <= g.revision && EnvInv(g)
    ensures Cancel(g, again, q, incarnation', now', runMeta') == Unchanged
  {
    hide EnvInv, Cancel, WaitsValid, ValidWait;
    CancelAnswer(e, token, q, incarnation, now, runMeta);
    CancelSound(e, token, q, incarnation, now, runMeta);
    ArmFacts(e);
    ArmFacts(g);
    var k := Addressed(e.waits, q.generation).value;
    var f := Next(e, t);
    assert WaitExtends(f.waits[k], g.waits[k]);
    WaitFacts(e, k);
    ArmedSince(e.waits[k], e.revision);
    hide WaitsExtend;
    GenerationNames(g, k);
    LateCancellation(f, g, k, again, q, incarnation', now', runMeta');
  }
}
