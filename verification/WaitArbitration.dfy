/** Durable waits: arming, first-committed-wins arbitration between events and
    the timer, cancellation, and the permanent ledger of delivery decisions. */
module WaitArbitration {
  import opened Basics

  datatype WaitState = Armed | Resolved | Expired | Canceled

  datatype DeliveryKind = Event | Timer | OtherDelivery(name: string)

  datatype DecisionStatus = WaitAccepted | WaitUnmatched | WaitLost | WaitRejectedCanceled

  datatype WaitSpec = WaitSpec(
    id: string, correlationID: string, deadline: Time, matcherLabel: string, payloadCodec: string,
    continuationLabel: string, eventPointer: string, timeoutPointer: string, firstCommitted: bool)

  datatype WaitProfile = WaitProfile(
    name: string, journalOwner: string, leaseOwner: string, timerOwner: string,
    clockOwner: string, retryOwner: string, recoveryOwner: string)

  datatype WaitDecision = WaitDecision(
    id: string, kind: DeliveryKind, correlationID: string, payloadDigest: Digest,
    status: DecisionStatus, sourceRevision: uint64, incarnation: uint64, at: Time)

  datatype CancellationRecord = CancellationRecord(
    id: string, reason: string, evidence: string, sourceRevision: uint64, incarnation: uint64, at: Time)

  datatype WaitRecord = WaitRecord(
    executionID: string, node: string, activation: uint64, generation: Digest, armRevision: uint64,
    spec: WaitSpec, profile: WaitProfile, state: WaitState, winnerID: string,
    decisions: map<string, WaitDecision>, cancellation: Option<CancellationRecord>)

  datatype WaitDelivery = WaitDelivery(
    generation: Digest, id: string, kind: DeliveryKind, correlationID: string,
    expectedRevision: uint64, payload: Bytes)

  datatype WaitCancellation = WaitCancellation(generation: Digest, id: string, reason: string, evidence: string)

  /** The first instant of year 0, the earliest one JSON can carry. */
  const START_OF_YEAR_ZERO: Time := -366 * 86_400 * 1_000_000_000

  predicate ValidSpec(s: WaitSpec) {
    && s.id != "" && s.correlationID != "" && s.deadline != 0
    && START_OF_YEAR_ZERO <= s.deadline < END_OF_TIME
    && s.matcherLabel != "" && s.payloadCodec != "" && s.continuationLabel != ""
    && s.eventPointer != "" && s.timeoutPointer != "" && s.firstCommitted
  }

  predicate ValidProfile(p: WaitProfile) {
    && p.name != "" && p.journalOwner != "" && p.leaseOwner != "" && p.timerOwner != ""
    && p.clockOwner != "" && p.retryOwner != "" && p.recoveryOwner != ""
  }

  function WaitIdentity(r: WaitRecord): Digest {
    WaitAddress(r.executionID, r.node, r.activation, r.spec.id)
  }

  // --------------------------------------------------------------- validator

  predicate ValidCancellation(r: WaitRecord, revision: uint64) {
    if !r.state.Canceled? then r.cancellation.None? else
      && r.cancellation.Some?
      && var c := r.cancellation.value;
         && c.id != "" && c.reason != "" && c.evidence != ""
         && r.armRevision <= c.sourceRevision < revision && c.incarnation != 0 && c.at != 0
  }

  predicate ValidDecisionState(r: WaitRecord, d: WaitDecision, winner: Option<WaitDecision>)
    requires r.winnerID != "" ==> winner.Some?
  {
    match d.status
    case WaitAccepted =>
      && d.id == r.winnerID
      && ((r.state.Resolved? && d.kind.Event?) || (r.state.Expired? && d.kind.Timer?))
    case WaitUnmatched =>
      && d.kind.Event?
      && (r.winnerID == "" || d.sourceRevision < winner.value.sourceRevision)
      && (r.cancellation.None? || d.sourceRevision < r.cancellation.value.sourceRevision)
    case WaitLost => r.winnerID != "" && d.sourceRevision > winner.value.sourceRevision
    case WaitRejectedCanceled =>
      r.state.Canceled? && r.cancellation.Some? && d.sourceRevision > r.cancellation.value.sourceRevision
  }

  function Winner(r: WaitRecord): Option<WaitDecision> {
    if r.winnerID in r.decisions then Some(r.decisions[r.winnerID]) else None
  }

  predicate HasWinner(r: WaitRecord) {
    r.winnerID != "" ==> Winner(r).Some? && Winner(r).value.status.WaitAccepted?
  }

  /** One ledger entry, apart from the uniqueness of its source revision. */
  predicate ValidEntry(r: WaitRecord, id: string, revision: uint64)
    requires id in r.decisions && HasWinner(r)
  {
    var d := r.decisions[id];
    && id != "" && id == d.id && d.correlationID == r.spec.correlationID
    && d.incarnation != 0 && d.at != 0
    && r.armRevision <= d.sourceRevision < revision
    && CanonicalDigest(d.payloadDigest)
    && (d.kind.Event? || d.kind.Timer?)
    && (d.kind.Timer? ==> d.at >= r.spec.deadline && d.payloadDigest == PayloadHash([]))
    && ValidDecisionState(r, d, Winner(r))
  }

  predicate DistinctSources(r: WaitRecord) {
    && (forall a, b :: a in r.decisions && b in r.decisions && a != b ==>
          r.decisions[a].sourceRevision != r.decisions[b].sourceRevision)
    && (r.cancellation.Some? ==> forall a :: a in r.decisions ==>
          r.decisions[a].sourceRevision != r.cancellation.value.sourceRevision)
  }

  predicate ValidDecisions(r: WaitRecord, revision: uint64) {
    && HasWinner(r)
    && (forall id :: id in r.decisions ==> ValidEntry(r, id, revision))
    && DistinctSources(r)
  }

  predicate ValidWait(r: WaitRecord, revision: uint64) {
    && r.executionID != "" && r.node != "" && r.activation != 0 && ValidSpec(r.spec) && ValidProfile(r.profile)
    && 0 < r.armRevision <= revision
    && r.generation == WaitGeneration(WaitIdentity(r), r.armRevision)
    && ValidCancellation(r, revision)
    && (r.winnerID == "" <==> r.state.Armed? || r.state.Canceled?)
    && ValidDecisions(r, revision)
  }

  /** The source's pass over the ledger in map order with a set of seen source
      revisions. The verdict does not depend on the order. */
  method ValidateWaitDecisions(r: WaitRecord, revision: uint64) returns (ok: bool)
    ensures ok <==> ValidDecisions(r, revision)
  {
    hide HasWinner, ValidEntry;
    if !HasWinner(r) {
      return false;
    }
    var sources: set<uint64> := if r.cancellation.Some? then {r.cancellation.value.sourceRevision} else {};
    var todo := r.decisions.Keys;
    while todo != {}
      invariant todo <= r.decisions.Keys
      invariant forall id :: id in r.decisions && id !in todo ==>
        ValidEntry(r, id, revision) && r.decisions[id].sourceRevision in sources
      invariant forall s :: s in sources ==>
        || (r.cancellation.Some? && s == r.cancellation.value.sourceRevision)
        || exists id :: id in r.decisions && id !in todo && r.decisions[id].sourceRevision == s
      invariant r.cancellation.Some? ==> r.cancellation.value.sourceRevision in sources
      invariant forall a, b :: a in r.decisions && b in r.decisions && a !in todo && b !in todo && a != b ==>
        r.decisions[a].sourceRevision != r.decisions[b].sourceRevision
      invariant r.cancellation.Some? ==> forall a :: a in r.decisions && a !in todo ==>
        r.decisions[a].sourceRevision != r.cancellation.value.sourceRevision
      decreases todo
    {
      var id :| id in todo;
      if !ValidEntry(r, id, revision) || r.decisions[id].sourceRevision in sources {
        return false;
      }
      sources := sources + {r.decisions[id].sourceRevision};
      todo := todo - {id};
    }
    return true;
  }

  /** A wait that was valid at one revision is valid at every later one. */
  lemma ValidWaitLater(r: WaitRecord, revision: uint64, later: uint64)
    requires ValidWait(r, revision) && revision <= later
    ensures ValidWait(r, later)
  {
    forall id | id in r.decisions ensures ValidEntry(r, id, later) {
      assert ValidEntry(r, id, revision);
    }
  }

  // ------------------------------------------------------------- arbitration

  function PlanWait(
    executionID: string, node: string, activation: uint64, revision: uint64, spec: WaitSpec, profile: WaitProfile)
    : Result<WaitRecord>
  {
    if !ValidSpec(spec) || !ValidProfile(profile) || executionID == "" || node == "" || activation == 0 || revision == 0
    then Err(ErrWaitInvalid)
    else Ok(WaitRecord(executionID, node, activation,
      WaitGeneration(WaitAddress(executionID, node, activation, spec.id), revision),
      revision, spec, profile, Armed, "", map[], None))
  }

  lemma PlannedWaitValid(
    executionID: string, node: string, activation: uint64, revision: uint64, spec: WaitSpec, profile: WaitProfile)
    requires PlanWait(executionID, node, activation, revision, spec, profile).Ok?
    ensures ValidWait(PlanWait(executionID, node, activation, revision, spec, profile).value, revision)
  {
  }

  function DecisionStatusOf(r: WaitRecord, kind: DeliveryKind, matched: bool): DecisionStatus {
    if r.state.Canceled? then WaitRejectedCanceled
    else if !r.state.Armed? then WaitLost
    else if kind.Event? && !matched then WaitUnmatched
    else WaitAccepted
  }

  datatype Verdict = Verdict(target: WaitRecord, decision: WaitDecision, replay: bool)

  function PrepareWaitDecision(
    r: WaitRecord, delivery: WaitDelivery, revision: uint64, incarnation: uint64, now: Time, matched: bool)
    : Result<Verdict>
  {
    if !ValidWait(r, revision) || incarnation == 0 || now == 0 then Err(ErrWaitInvalid)
    else if delivery.generation != r.generation || delivery.expectedRevision < r.armRevision
            || delivery.expectedRevision > revision then Err(ErrWaitStale)
    else if delivery.id == "" || delivery.kind.OtherDelivery? then Err(ErrWaitInvalid)
    else if delivery.id in r.decisions then
      var prior := r.decisions[delivery.id];
      if prior.kind != delivery.kind || prior.correlationID != delivery.correlationID
         || prior.payloadDigest != PayloadHash(delivery.payload) then Err(ErrWaitConflict)
      else Ok(Verdict(r, prior, true))
    else if revision == MAX_UINT64 then Err(ErrWaitInvalid)
    else if delivery.correlationID != r.spec.correlationID || (delivery.kind.Timer? && delivery.payload != [])
    then Err(ErrWaitInvalid)
    else if delivery.kind.Timer? && now < r.spec.deadline then Err(ErrWaitInvalid)
    else if r.state.Armed? && delivery.expectedRevision != revision then Err(ErrWaitStale)
    else
      var decision := WaitDecision(
        delivery.id, delivery.kind, delivery.correlationID, PayloadHash(delivery.payload),
        DecisionStatusOf(r, delivery.kind, matched), revision, incarnation, now);
      Ok(Verdict(Decided(r, decision), decision, false))
  }

  /** The wait after a new decision; an accepted one settles its fate. */
  function Decided(r: WaitRecord, d: WaitDecision): WaitRecord {
    var s := r.(decisions := r.decisions[d.id := d]);
    if d.status.WaitAccepted? then s.(winnerID := d.id, state := if d.kind.Timer? then Expired else Resolved) else s
  }

  /** What may happen to a wait later: entries are permanent, and once the wait
      has left the armed state its fate never changes again. */
  predicate WaitExtends(r: WaitRecord, s: WaitRecord) {
    && s.executionID == r.executionID && s.node == r.node && s.activation == r.activation
    && s.generation == r.generation && s.armRevision == r.armRevision
    && s.spec == r.spec && s.profile == r.profile
    && (forall id :: id in r.decisions ==> id in s.decisions && s.decisions[id] == r.decisions[id])
    && (!r.state.Armed? ==> s.state == r.state && s.winnerID == r.winnerID && s.cancellation == r.cancellation)
  }

  lemma WaitExtendsTransitive(r: WaitRecord, s: WaitRecord, t: WaitRecord)
    requires WaitExtends(r, s) && WaitExtends(s, t)
    ensures WaitExtends(r, t)
  {
  }

  lemma DeliveryPreserves(
    r: WaitRecord, delivery: WaitDelivery, revision: uint64, incarnation: uint64, now: Time, matched: bool)
    requires PrepareWaitDecision(r, delivery, revision, incarnation, now, matched).Ok?
    ensures var v := PrepareWaitDecision(r, delivery, revision, incarnation, now, matched).value;
      && WaitExtends(r, v.target)
      && delivery.id in v.target.decisions && v.target.decisions[delivery.id] == v.decision
      && (v.replay ==> v.target == r)
      && (!v.replay ==> revision < MAX_UINT64 && ValidWait(v.target, revision + 1))
  {
    hide ValidSpec, ValidProfile, CanonicalDigest;
    var v := PrepareWaitDecision(r, delivery, revision, incarnation, now, matched).value;
    if !v.replay {
      DecisionAdmissible(r, delivery, revision, incarnation, now, matched);
      hide PrepareWaitDecision;
      LedgerGrows(r, v.decision, revision);
      hide ValidDecisions;
    }
  }

  /** What arbitration guarantees of a fresh decision. */
  predicate Admissible(r: WaitRecord, d: WaitDecision, revision: uint64) {
    && d.id != "" && d.id !in r.decisions && d.correlationID == r.spec.correlationID
    && d.incarnation != 0 && d.at != 0 && d.sourceRevision == revision && CanonicalDigest(d.payloadDigest)
    && (d.kind.Event? || d.kind.Timer?)
    && (d.kind.Timer? ==> d.at >= r.spec.deadline && d.payloadDigest == PayloadHash([]))
    && (match d.status
        case WaitAccepted => r.state.Armed?
        case WaitUnmatched => r.state.Armed? && d.kind.Event?
        case WaitLost => r.state.Resolved? || r.state.Expired?
        case WaitRejectedCanceled => r.state.Canceled?)
  }

  lemma DecisionAdmissible(
    r: WaitRecord, delivery: WaitDelivery, revision: uint64, incarnation: uint64, now: Time, matched: bool)
    requires PrepareWaitDecision(r, delivery, revision, incarnation, now, matched).Ok?
    requires !PrepareWaitDecision(r, delivery, revision, incarnation, now, matched).value.replay
    ensures var v := PrepareWaitDecision(r, delivery, revision, incarnation, now, matched).value;
      Admissible(r, v.decision, revision) && v.target == Decided(r, v.decision) && v.decision.id == delivery.id
  {
    hide ValidWait;
  }

  /** An admissible decision is later than every recorded one, so each old entry
      keeps its place relative to the fate of the wait. */
  lemma LedgerGrows(r: WaitRecord, d: WaitDecision, revision: uint64)
    requires revision < MAX_UINT64 && ValidWait(r, revision) && Admissible(r, d, revision)
    ensures ValidWait(Decided(r, d), revision + 1) && WaitExtends(r, Decided(r, d))
  {
    hide ValidSpec, ValidProfile;
    var t := Decided(r, d);
    CancellationBefore(r, revision);
    forall id | id in t.decisions
      ensures HasWinner(t) && ValidEntry(t, id, revision + 1)
      ensures id in r.decisions ==> t.decisions[id] == r.decisions[id] && r.decisions[id].sourceRevision < revision
    {
      EntryKept(r, d, id, revision);
    }
    SourcesDistinct(r, d, revision);
    hide ValidEntry, HasWinner, DistinctSources;
  }

  lemma SourcesDistinct(r: WaitRecord, d: WaitDecision, revision: uint64)
    requires DistinctSources(r) && d.id !in r.decisions && d.sourceRevision == revision
    requires forall id :: id in r.decisions ==> r.decisions[id].sourceRevision < revision
    requires r.cancellation.Some? ==> r.cancellation.value.sourceRevision < revision
    ensures DistinctSources(Decided(r, d))
  {
  }

  lemma EntryKept(r: WaitRecord, d: WaitDecision, id: string, revision: uint64)
    requires revision < MAX_UINT64 && ValidWait(r, revision) && Admissible(r, d, revision)
    requires id in Decided(r, d).decisions
    ensures HasWinner(Decided(r, d)) && ValidEntry(Decided(r, d), id, revision + 1)
    ensures id in r.decisions ==> Decided(r, d).decisions[id] == r.decisions[id]
    ensures id in r.decisions ==> r.decisions[id].sourceRevision < revision
  {
    hide ValidSpec, ValidProfile, DistinctSources;
    assert r.winnerID != "" ==> ValidEntry(r, r.winnerID, revision);
    assert id in r.decisions ==> ValidEntry(r, id, revision);
  }

  lemma CancellationBefore(r: WaitRecord, revision: uint64)
    requires ValidCancellation(r, revision)
    ensures r.cancellation.Some? <==> r.state.Canceled?
    ensures r.cancellation.Some? ==> r.cancellation.value.sourceRevision < revision
  {
  }

  // ------------------------------------------------------------ cancellation

  /** Whether a cancellation addressed to `tokenRevision` is refused, replayed
      (Ok(true)) or may be written (Ok(false)). */
  function CheckCancellation(
    r: WaitRecord, sourceRevision: uint64, terminal: bool, tokenRevision: uint64, request: WaitCancellation)
    : Result<bool>
  {
    if tokenRevision < r.armRevision || tokenRevision > sourceRevision then Err(ErrWaitStale)
    else if r.state.Canceled? then
      if r.cancellation.Some? && r.cancellation.value.id != request.id then Err(ErrWaitCanceled)
      else if r.cancellation.None? || r.cancellation.value.reason != request.reason
              || r.cancellation.value.evidence != request.evidence then Err(ErrWaitConflict)
      else Ok(true)
    else if r.state.Expired? then Err(ErrWaitExpired)
    else if !r.state.Armed? || terminal then Err(ErrWaitConflict)
    else if tokenRevision != sourceRevision then Err(ErrWaitStale)
    else if sourceRevision == MAX_UINT64 then Err(ErrWaitInvalid)
    else Ok(false)
  }

  function CancelRecord(
    r: WaitRecord, request: WaitCancellation, sourceRevision: uint64, incarnation: uint64, now: Time): WaitRecord
  {
    r.(state := Canceled, cancellation := Some(
      CancellationRecord(request.id, request.reason, request.evidence, sourceRevision, incarnation, now)))
  }

  lemma CancellationPreserves(
    r: WaitRecord, request: WaitCancellation, sourceRevision: uint64, incarnation: uint64, now: Time)
    requires ValidWait(r, sourceRevision) && r.state.Armed? && sourceRevision < MAX_UINT64
    requires request.id != "" && request.reason != "" && request.evidence != "" && incarnation != 0 && now != 0
    ensures var s := CancelRecord(r, request, sourceRevision, incarnation, now);
      ValidWait(s, sourceRevision + 1) && WaitExtends(r, s)
  {
    var s := CancelRecord(r, request, sourceRevision, incarnation, now);
    forall id | id in s.decisions ensures ValidEntry(s, id, sourceRevision + 1) {
      assert ValidEntry(r, id, sourceRevision);
    }
  }

  // ------------------------------------------- what the arbitration promises

  /** The instant at which the wait was decided: its winner's or its
      cancellation's source revision. */
  function FateRevision(r: WaitRecord): Option<uint64> {
    if r.winnerID in r.decisions && r.winnerID != "" then Some(r.decisions[r.winnerID].sourceRevision)
    else if r.cancellation.Some? then Some(r.cancellation.value.sourceRevision)
    else None
  }

  /** The place of a decision relative to the fate of its wait: the accepted one
      is the winner, unmatched events precede the fate, and everything after it
      lost or was refused because of the cancellation; no timer fired early. */
  predicate Placed(r: WaitRecord, d: WaitDecision) {
    var fate := FateRevision(r);
    && (d.status.WaitAccepted? <==> d.id == r.winnerID)
    && (d.status.WaitUnmatched? <==> fate.None? || d.sourceRevision < fate.value)
    && (d.status.WaitLost? <==> r.winnerID != "" && fate.Some? && d.sourceRevision > fate.value)
    && (d.status.WaitRejectedCanceled? <==> r.state.Canceled? && fate.Some? && d.sourceRevision > fate.value)
    && (d.kind.Timer? ==> d.at >= r.spec.deadline)
    && (d.kind.Timer? && d.status.WaitAccepted? ==> r.state.Expired?)
  }

  /** First committed wins, in every valid wait. */
  lemma ArbitrationVerdict(r: WaitRecord, revision: uint64)
    requires ValidWait(r, revision)
    ensures FateRevision(r).None? <==> r.state.Armed?
    ensures forall id :: id in r.decisions ==> r.decisions[id].id == id && Placed(r, r.decisions[id])
  {
    forall id | id in r.decisions ensures r.decisions[id].id == id && Placed(r, r.decisions[id]) {
      assert ValidEntry(r, id, revision);
      if r.winnerID != "" && id != r.winnerID {
        assert r.decisions[id].sourceRevision != r.decisions[r.winnerID].sourceRevision;
      }
    }
  }

  /** A recorded delivery that is presented again, at any later revision of the
      same wait, returns its recorded decision and writes nothing; presented with
      another kind, correlation or payload it is a conflict. */
  lemma RedeliveryReplays(
    r: WaitRecord, first: WaitDelivery, revision: uint64, incarnation: uint64, now: Time, matched: bool,
    s: WaitRecord, again: WaitDelivery, later: uint64, incarnation': uint64, now': Time, matched': bool)
    requires PrepareWaitDecision(r, first, revision, incarnation, now, matched).Ok?
    requires var v := PrepareWaitDecision(r, first, revision, incarnation, now, matched).value;
      WaitExtends(v.target, s) && ValidWait(s, later)
    requires again.id == first.id && again.generation == first.generation
    requires s.armRevision <= again.expectedRevision <= later
    requires incarnation' != 0 && now' != 0
    ensures var v := PrepareWaitDecision(r, first, revision, incarnation, now, matched).value;
      PrepareWaitDecision(s, again, later, incarnation', now', matched') ==
        if again.kind == first.kind && again.correlationID == first.correlationID && again.payload == first.payload
        then Ok(Verdict(s, v.decision, true))
        else if again.kind.OtherDelivery? then Err(ErrWaitInvalid)
        else Err(ErrWaitConflict)
  {
    DeliveryPreserves(r, first, revision, incarnation, now, matched);
    hide ValidWait, Decided;
  }
}
