/** The execution store as a value: leases and fences, immutable history under
    optimistic concurrency, creation anchors, rollover pairs and retention. */
module StoreModel {
  import opened Basics
  import opened Envelopes
  import opened Lifecycle
  import opened Retention

  /** Anchors, heads and fences outlive the payloads in `history`. */
  datatype Store = Store(
    history: map<string, map<uint64, Envelope>>, heads: map<string, uint64>, leases: map<string, Lease>,
    fences: map<string, uint64>, lineage: map<string, ForkLineage>,
    incoming: map<string, RolloverReceipt>, outgoing: map<string, RolloverReceipt>)

  const EMPTY := Store(map[], map[], map[], map[], map[], map[], map[])

  function Lookup<T>(m: map<string, T>, id: string): Option<T> {
    if id in m then Some(m[id]) else None
  }

  function Head(s: Store, id: string): uint64 {
    if id in s.heads then s.heads[id] else 0
  }

  function Fence(s: Store, id: string): uint64 {
    if id in s.fences then s.fences[id] else 0
  }

  function Payload(s: Store, id: string, revision: uint64): Option<Envelope> {
    if id in s.history && revision in s.history[id] then Some(s.history[id][revision]) else None
  }

  // ------------------------------------------------------------------ loading

  predicate Anchored(s: Store, e: Envelope, id: string) {
    && ForkAnchored(e, Lookup(s.lineage, id))
    && IncomingAnchored(e, Lookup(s.incoming, id)) && OutgoingAnchored(e, Lookup(s.outgoing, id))
  }

  function Decode(s: Store, data: Option<Envelope>, id: string, revision: uint64): Result<Envelope> {
    if data.None? then Err(ErrExecutionCheckpointUnavailable)
    else if !IntegrityHolds(data.value, id, revision) || !Anchored(s, data.value, id) then Err(ErrExecutionCorrupt)
    else Ok(data.value)
  }

  function Load(s: Store, id: string): Result<Envelope> {
    if Head(s, id) == 0 then Err(ErrThreadNotFound) else Decode(s, Payload(s, id, Head(s, id)), id, Head(s, id))
  }

  function LoadCheckpoint(s: Store, id: string, revision: uint64): Result<Envelope> {
    if revision == 0 then Err(ErrInvalidSnapshot)
    else if revision > Head(s, id) then Err(ErrThreadNotFound)
    else Decode(s, Payload(s, id, revision), id, revision)
  }

  // ------------------------------------------------------------------- leases

  predicate Held(s: Store, now: Time, lease: Lease) {
    && lease.incarnation != 0 && lease.executionID in s.leases
    && s.leases[lease.executionID].owner == lease.owner
    && s.leases[lease.executionID].incarnation == lease.incarnation && s.leases[lease.executionID].expiresAt > now
  }

  predicate Busy(s: Store, now: Time, id: string) {
    id in s.leases && s.leases[id].expiresAt > now
  }

  function Acquire(s: Store, now: Time, id: string, owner: string, ttl: int): Result<(Store, Lease)> {
    if id == "" || owner == "" || ttl <= 0 then Err(ErrInvalidLease)
    else if Busy(s, now, id) then Err(if s.leases[id].owner == owner then ErrThreadLeaseBusy else ErrLeaseHeld)
    else if Fence(s, id) == MAX_UINT64 then Err(ErrExecutionCapability)
    else
      var lease := Lease(id, owner, Fence(s, id) + 1, now + ttl);
      Ok((s.(fences := s.fences[id := lease.incarnation], leases := s.leases[id := lease]), lease))
  }

  function Renew(s: Store, now: Time, lease: Lease, ttl: int): Result<(Store, Lease)> {
    if ttl <= 0 then Err(ErrInvalidLease)
    else if !Held(s, now, lease) then Err(ErrLeaseLost)
    else
      var renewed := lease.(expiresAt := now + ttl);
      Ok((s.(leases := s.leases[lease.executionID := renewed]), renewed))
  }

  function Release(s: Store, lease: Lease): Result<Store> {
    if lease.executionID !in s.leases then
      if Fence(s, lease.executionID) == lease.incarnation && lease.incarnation != 0 then Ok(s) else Err(ErrLeaseLost)
    else if s.leases[lease.executionID].owner != lease.owner
            || s.leases[lease.executionID].incarnation != lease.incarnation then Err(ErrLeaseLost)
    else Ok(s.(leases := s.leases - {lease.executionID}))
  }

  // ------------------------------------------------------------------ commits

  function Put(history: map<string, map<uint64, Envelope>>, e: Envelope): map<string, map<uint64, Envelope>> {
    history[e.executionID := (if e.executionID in history then history[e.executionID] else map[])[e.revision := e]]
  }

  /** The predecessor a commit must be checked against. */
  function Predecessor(s: Store, id: string, expected: uint64): Result<Option<Envelope>> {
    if expected == 0 then Ok(None)
    else match Decode(s, Payload(s, id, expected), id, expected)
      case Err(error) => Err(error)
      case Ok(e) => Ok(Some(e))
  }

  /** Why a commit is rejected, in the order of the source's checks. */
  function CommitError(s: Store, now: Time, expected: uint64, lease: Lease, e: Envelope): Option<Error> {
    if expected == MAX_UINT64 then Some(ErrExecutionCapability)
    else if !Held(s, now, lease) || e.executionID != lease.executionID then Some(ErrLeaseLost)
    else if !ValidDescriptor(e.descriptor) then Some(ErrExecutionIncompatible)
    else if e.progress.pointer == "" then Some(ErrInvalidSnapshot)
    else if Head(s, e.executionID) != expected then Some(ErrConcurrencyConflict)
    else match Predecessor(s, e.executionID, expected)
      case Err(error) => Some(error)
      case Ok(previous) =>
        if RolloverTransitionError(previous, e).Some? then RolloverTransitionError(previous, e)
        else if !ForkTransition(previous, e) then Some(ErrExecutionCorrupt)
        else if e.executionID == "" then Some(ErrExecutionCorrupt)
        else None
  }

  function Commit(s: Store, now: Time, expected: uint64, lease: Lease, e: Envelope): Result<(Store, Envelope)> {
    match CommitError(s, now, expected, lease, e)
    case Some(error) => Err(error)
    case None =>
      var sealed := Sealed(e, Increment(expected));
      Ok((s.(history := Put(s.history, sealed), heads := s.heads[e.executionID := sealed.revision],
             lineage := if expected == 0 && e.fork.Some? then s.lineage[e.executionID := e.fork.value] else s.lineage),
          sealed))
  }

  // ----------------------------------------------------------------- rollover

  ghost function RolloverResult(
    s: Store, now: Time, lease: Lease, source: Reference, target: Envelope, sizes: Sizes): Result<Publication>
  {
    if !Held(s, now, lease) || lease.executionID != source.executionID then Err(ErrLeaseLost)
    else if source.executionID in s.outgoing then Err(ErrExecutionRolloverConflict)
    else if Head(s, source.executionID) != source.revision then Err(ErrConcurrencyConflict)
    else if source.revision == 0 then Err(ErrThreadNotFound)
    else match Decode(s, Payload(s, source.executionID, source.revision), source.executionID, source.revision)
      case Err(error) => Err(error)
      case Ok(current) =>
        if current.digest != source.digest then Err(ErrExecutionRolloverConflict)
        else if Head(s, target.executionID) != 0 || Fence(s, target.executionID) != 0
        then Err(ErrExecutionRolloverConflict)
        else PreparePublication(current, target, lease, sizes)
  }

  function PublishPair(s: Store, p: Publication): Store {
    s.(history := Put(s.history, p.transferred)[p.created.executionID := map[1 := p.created]],
       heads := s.heads[p.transferred.executionID := p.transferred.revision][p.created.executionID := 1],
       outgoing := s.outgoing[p.transferred.executionID := p.receipt],
       incoming := s.incoming[p.created.executionID := p.receipt])
  }

  ghost function CommitRollover(
    s: Store, now: Time, lease: Lease, source: Reference, target: Envelope, sizes: Sizes)
    : Result<(Store, RolloverReceipt)>
  {
    match RolloverResult(s, now, lease, source, target, sizes)
    case Err(error) => Err(error)
    case Ok(p) => Ok((PublishPair(s, p), p.receipt))
  }

  // ---------------------------------------------------------------- retention

  predicate Available(s: Store, id: string, r: uint64) {
    Decode(s, Payload(s, id, r), id, r).Ok?
  }

  predicate ProtectedAvailable(s: Store, q: RetentionRequest) {
    forall i :: 0 <= i < |q.policy.protectedRevisions| ==> Available(s, q.executionID, q.policy.protectedRevisions[i])
  }

  function Kept(s: Store, q: RetentionRequest): map<uint64, Envelope> {
    if q.executionID !in s.history then map[]
    else map r | r in s.history[q.executionID] && Retained(q, r) :: s.history[q.executionID][r]
  }

  /** Maintenance needs an idle execution at a safe boundary; deleting the whole
      payload needs a terminal one. */
  ghost function RetainError(s: Store, now: Time, q: RetentionRequest): Option<Error> {
    var id := q.executionID;
    if !ValidRetention(q) then Some(ErrExecutionLifecycleUnsafe)
    else if Busy(s, now, id) then Some(ErrThreadLeaseBusy)
    else if Head(s, id) == 0 then Some(ErrThreadNotFound)
    else if Head(s, id) != q.revision then Some(ErrConcurrencyConflict)
    else match Decode(s, Payload(s, id, q.revision), id, q.revision)
      case Err(error) =>
        if Payload(s, id, q.revision).None? && q.policy.deletePayload then None else Some(error)
      case Ok(source) =>
        if BoundaryError(source).Some? then BoundaryError(source)
        else if q.policy.deletePayload && source.terminal.None? then Some(ErrExecutionLifecycleUnsafe)
        else if !ProtectedAvailable(s, q) then Some(ErrExecutionCheckpointUnavailable)
        else None
  }

  /** The store without the revisions that are not retained, and their number.
      Deleting a payload that is already gone is a no-op. */
  ghost function Retain(s: Store, now: Time, q: RetentionRequest): Result<(Store, nat)> {
    match RetainError(s, now, q)
    case Some(error) => Err(error)
    case None =>
      if Payload(s, q.executionID, q.revision).None? then Ok((s, 0))
      else Ok((s.(history := s.history[q.executionID := Kept(s, q)]),
               |s.history[q.executionID].Keys - Kept(s, q).Keys|))
  }

  // ---------------------------------------------------------------- invariant

  /** A stored payload lies between the first revision and the head and passes
      every check of a load. */
  predicate PayloadSound(s: Store, id: string, r: uint64) {
    Payload(s, id, r).Some? ==>
      && 1 <= r <= Head(s, id) && IntegrityHolds(Payload(s, id, r).value, id, r)
      && Anchored(s, Payload(s, id, r).value, id)
  }

  ghost predicate HistoryConsistent(s: Store) {
    && s.history.Keys == s.heads.Keys
    && (forall id :: id in s.heads ==> id != "" && s.heads[id] >= 1)
    && (forall id, r: uint64 :: PayloadSound(s, id, r))
  }

  predicate LeasesFenced(s: Store) {
    && (forall id :: id in s.leases ==> s.leases[id].executionID == id && s.leases[id].incarnation == Fence(s, id))
    && (forall id :: id in s.fences ==> s.fences[id] > 0)
    && (forall id :: id in s.leases ==> id in s.fences)
  }

  /** What a link of a rollover chain records about its two ends. */
  predicate LinkSound(s: Store, a: string, r: RolloverReceipt) {
    && ValidReceipt(r) && r.lineage.source.executionID == a
    && r.lineage.source.digest.SealOf? && r.target.digest.SealOf?
    && r.lineage.source.digest.body.rollover ==
         (match Lookup(s.incoming, a) case None => None case Some(i) => Some(i.lineage))
    && r.target.digest.body.rollover == Some(r.lineage)
    && r.target.digest.body.runMeta.stepCount == 0
    && r.target.digest.body.runMeta.retryCounts == r.lineage.source.digest.body.runMeta.retryCounts
    && r.target.digest.body.runMeta.budgetCounts == r.lineage.source.digest.body.runMeta.budgetCounts
  }

  /** The source end of a link: its head is the transferred revision, and the
      target end holds the same receipt. */
  predicate SourceLinked(s: Store, a: string) {
    a in s.outgoing ==>
      && Head(s, a) == s.outgoing[a].sourceRevision && LinkSound(s, a, s.outgoing[a]) && a in s.heads
      && Lookup(s.incoming, s.outgoing[a].lineage.targetID) == Some(s.outgoing[a])
  }

  predicate TargetLinked(s: Store, b: string) {
    b in s.incoming ==>
      && b in s.heads && s.incoming[b].lineage.targetID == b
      && Lookup(s.outgoing, s.incoming[b].lineage.source.executionID) == Some(s.incoming[b])
  }

  ghost predicate ChainsLinked(s: Store) {
    && (forall a :: SourceLinked(s, a)) && (forall b :: TargetLinked(s, b))
    && s.lineage.Keys <= s.heads.Keys
  }

  ghost predicate StoreInv(s: Store) {
    HistoryConsistent(s) && LeasesFenced(s) && ChainsLinked(s)
  }
}
