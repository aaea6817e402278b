/** The in-memory execution store: maps changed in place, each method proved to
    be the corresponding function on the store as a value. */
module MemoryStore {
  import opened Basics
  import opened Envelopes
  import opened Lifecycle
  import opened LifecycleChecks
  import opened Retention
  import opened StoreModel

  class MemoryExecutionStore {
    var history: map<string, map<uint64, Envelope>>
    var heads: map<string, uint64>
    var leases: map<string, Lease>
    var fences: map<string, uint64>
    var lineage: map<string, ForkLineage>
    var incoming: map<string, RolloverReceipt>
    var outgoing: map<string, RolloverReceipt>

    /** The store as a value. */
    function Contents(): Store
      reads this
    {
      Store(history, heads, leases, fences, lineage, incoming, outgoing)
    }

    constructor ()
      ensures Contents() == EMPTY
    {
      history, heads, leases, fences := map[], map[], map[], map[];
      lineage, incoming, outgoing := map[], map[], map[];
    }

    method LoadExecution(id: string) returns (r: Result<Envelope>)
      ensures r == Load(Contents(), id)
    {
      var revision := if id in heads then heads[id] else 0;
      if revision == 0 {
        return Err(ErrThreadNotFound);
      }
      r := DecodeAnchored(id, revision);
    }

    method LoadCheckpointAt(id: string, revision: uint64) returns (r: Result<Envelope>)
      ensures r == LoadCheckpoint(Contents(), id, revision)
    {
      if revision == 0 {
        return Err(ErrInvalidSnapshot);
      }
      if revision > (if id in heads then heads[id] else 0) {
        return Err(ErrThreadNotFound);
      }
      r := DecodeAnchored(id, revision);
    }

    /** Integrity of the payload itself, then its three independent anchors. */
    method DecodeAnchored(id: string, revision: uint64) returns (r: Result<Envelope>)
      ensures r == Decode(Contents(), Payload(Contents(), id, revision), id, revision)
    {
      hide IntegrityHolds, ForkAnchored, IncomingAnchored, OutgoingAnchored;
      if id !in history || revision !in history[id] {
        return Err(ErrExecutionCheckpointUnavailable);
      }
      var e := history[id][revision];
      if !IntegrityHolds(e, id, revision) {
        return Err(ErrExecutionCorrupt);
      }
      if !ForkAnchored(e, Lookup(lineage, id)) {
        return Err(ErrExecutionCorrupt);
      }
      if !IncomingAnchored(e, Lookup(incoming, id)) || !OutgoingAnchored(e, Lookup(outgoing, id)) {
        return Err(ErrExecutionCorrupt);
      }
      return Ok(e);
    }

    /** A commit is fenced, compared with the head, checked against its
        predecessor, sealed and stored; a rejected one changes nothing. */
    method CommitExecution(now: Time, expected: uint64, lease: Lease, e: Envelope) returns (r: Result<Envelope>)
      modifies this
      ensures match Commit(old(Contents()), now, expected, lease, e)
        case Err(error) => r == Err(error) && Contents() == old(Contents())
        case Ok(x) => r == Ok(x.1) && Contents() == x.0
    {
      hide CommitError;
      var err := CheckCommit(now, expected, lease, e);
      if err.Some? {
        return Err(err.value);
      }
      var sealed := Sealed(e, Increment(expected));
      var items: map<uint64, Envelope> := if e.executionID in history then history[e.executionID] else map[];
      history := history[e.executionID := items[sealed.revision := sealed]];
      heads := heads[e.executionID := sealed.revision];
      if expected == 0 && sealed.fork.Some? {
        lineage := lineage[e.executionID := sealed.fork.value];
      }
      return Ok(sealed);
    }

    method CheckCommit(now: Time, expected: uint64, lease: Lease, e: Envelope) returns (err: Option<Error>)
      ensures err == CommitError(Contents(), now, expected, lease, e)
    {
      hide ForkTransition, RolloverTransitionError, ValidDescriptor, Decode;
      if expected == MAX_UINT64 {
        return Some(ErrExecutionCapability);
      }
      if !Held(Contents(), now, lease) || e.executionID != lease.executionID {
        return Some(ErrLeaseLost);
      }
      if !ValidDescriptor(e.descriptor) {
        return Some(ErrExecutionIncompatible);
      }
      if e.progress.pointer == "" {
        return Some(ErrInvalidSnapshot);
      }
      if (if e.executionID in heads then heads[e.executionID] else 0) != expected {
        return Some(ErrConcurrencyConflict);
      }
      var previous: Option<Envelope> := None;
      if expected > 0 {
        var stored := DecodeAnchored(e.executionID, expected);
        if stored.Err? {
          return Some(stored.error);
        }
        previous := Some(stored.value);
      }
      if RolloverTransitionError(previous, e).Some? {
        return RolloverTransitionError(previous, e);
      }
      if !ForkTransition(previous, e) || e.executionID == "" {
        return Some(ErrExecutionCorrupt);
      }
      return None;
    }

    method AcquireExecution(now: Time, id: string, owner: string, ttl: int) returns (r: Result<Lease>)
      modifies this`leases, this`fences
      ensures match Acquire(old(Contents()), now, id, owner, ttl)
        case Err(error) => r == Err(error) && Contents() == old(Contents())
        case Ok(x) => r == Ok(x.1) && Contents() == x.0
    {
      if id == "" || owner == "" || ttl <= 0 {
        return Err(ErrInvalidLease);
      }
      if id in leases && leases[id].expiresAt > now {
        return Err(if leases[id].owner == owner then ErrThreadLeaseBusy else ErrLeaseHeld);
      }
      var fence := if id in fences then fences[id] else 0;
      if fence == MAX_UINT64 {
        return Err(ErrExecutionCapability);
      }
      fences := fences[id := fence + 1];
      var lease := Lease(id, owner, fences[id], now + ttl);
      leases := leases[id := lease];
      return Ok(lease);
    }

    method RenewExecution(now: Time, lease: Lease, ttl: int) returns (r: Result<Lease>)
      modifies this`leases
      ensures match Renew(old(Contents()), now, lease, ttl)
        case Err(error) => r == Err(error) && Contents() == old(Contents())
        case Ok(x) => r == Ok(x.1) && Contents() == x.0
    {
      if ttl <= 0 {
        return Err(ErrInvalidLease);
      }
      if !Held(Contents(), now, lease) {
        return Err(ErrLeaseLost);
      }
      var renewed := lease.(expiresAt := now + ttl);
      leases := leases[lease.executionID := renewed];
      return Ok(renewed);
    }

    method ReleaseExecution(lease: Lease) returns (err: Option<Error>)
      modifies this`leases
      ensures match Release(old(Contents()), lease)
        case Err(error) => err == Some(error) && Contents() == old(Contents())
        case Ok(s) => err == None && Contents() == s
    {
      if lease.executionID !in leases {
        if (if lease.executionID in fences then fences[lease.executionID] else 0) == lease.incarnation
           && lease.incarnation != 0 {
          return None;
        }
        return Some(ErrLeaseLost);
      }
      var current := leases[lease.executionID];
      if current.owner != lease.owner || current.incarnation != lease.incarnation {
        return Some(ErrLeaseLost);
      }
      leases := leases - {lease.executionID};
      return None;
    }

    /** The receipt of an earlier rollover, if any; it outlives both payloads. In
        a consistent store the read never fails. */
    method LoadRollover(id: string) returns (r: Result<Option<RolloverReceipt>>)
      ensures StoreInv(Contents()) ==> r == Ok(Lookup(Contents().outgoing, id))
      ensures r.Ok? && r.value.Some? ==> ValidReceipt(r.value.value)
    {
      OutgoingIsValid(Contents(), id);
      if id !in outgoing {
        return Ok(None);
      }
      if !ValidReceipt(outgoing[id]) {
        return Err(ErrExecutionCorrupt);
      }
      return Ok(Some(outgoing[id]));
    }

    /** All validation precedes the six map updates that publish the pair. */
    method CommitRolloverPair(now: Time, lease: Lease, source: Reference, target: Envelope, sizes: Sizes)
      returns (r: Result<RolloverReceipt>)
      modifies this
      ensures match CommitRollover(old(Contents()), now, lease, source, target, sizes)
        case Err(error) => r == Err(error) && Contents() == old(Contents())
        case Ok(x) => r == Ok(x.1) && Contents() == x.0
    {
      hide PreparePublication, Decode;
      if !Held(Contents(), now, lease) || lease.executionID != source.executionID {
        return Err(ErrLeaseLost);
      }
      if source.executionID in outgoing {
        return Err(ErrExecutionRolloverConflict);
      }
      if Head(Contents(), source.executionID) != source.revision {
        return Err(ErrConcurrencyConflict);
      }
      if source.revision == 0 {
        return Err(ErrThreadNotFound);
      }
      var current := DecodeAnchored(source.executionID, source.revision);
      if current.Err? {
        return Err(current.error);
      }
      if current.value.digest != source.digest {
        return Err(ErrExecutionRolloverConflict);
      }
      if Head(Contents(), target.executionID) != 0 || Fence(Contents(), target.executionID) != 0 {
        return Err(ErrExecutionRolloverConflict);
      }
      var published := PrepareRolloverPublication(current.value, target, lease, sizes);
      if published.Err? {
        return Err(published.error);
      }
      var p := published.value;
      history := Put(history, p.transferred);
      heads := heads[p.transferred.executionID := p.transferred.revision];
      history := history[p.created.executionID := map[1 := p.created]];
      heads := heads[p.created.executionID := 1];
      outgoing := outgoing[p.transferred.executionID := p.receipt];
      incoming := incoming[p.created.executionID := p.receipt];
      return Ok(p.receipt);
    }

    /** Deletes the payloads that are not retained. */
    method RetainExecution(now: Time, q: RetentionRequest) returns (r: Result<nat>)
      modifies this`history
      ensures match Retain(old(Contents()), now, q)
        case Err(error) => r == Err(error) && Contents() == old(Contents())
        case Ok(x) => r == Ok(x.1) && Contents() == x.0
    {
      hide RetainError, Retained;
      var err := CheckRetention(now, q);
      if err.Some? {
        return Err(err.value);
      }
      if q.executionID !in history || q.revision !in history[q.executionID] {
        return Ok(0);
      }
      var items, deleted := Survivors(history[q.executionID], q);
      history := history[q.executionID := items];
      assert items == Kept(old(Contents()), q);
      return Ok(deleted);
    }

    method CheckRetention(now: Time, q: RetentionRequest) returns (err: Option<Error>)
      ensures err == RetainError(Contents(), now, q)
    {
      hide Decode, BoundaryError, Retained, ProtectedAvailable;
      var id := q.executionID;
      var valid := ValidateRetention(q);
      hide ValidRetention;
      if !valid {
        return Some(ErrExecutionLifecycleUnsafe);
      }
      if id in leases && leases[id].expiresAt > now {
        return Some(ErrThreadLeaseBusy);
      }
      if Head(Contents(), id) == 0 {
        return Some(ErrThreadNotFound);
      }
      if Head(Contents(), id) != q.revision {
        return Some(ErrConcurrencyConflict);
      }
      var source := DecodeAnchored(id, q.revision);
      NoPayload(Contents(), id, q.revision);
      if id !in history || q.revision !in history[id] {
        return if q.policy.deletePayload then None else Some(ErrExecutionCheckpointUnavailable);
      }
      if source.Err? {
        return Some(source.error);
      }
      var boundary := ValidateLifecycleBoundary(source.value);
      if boundary.Some? {
        return boundary;
      }
      if q.policy.deletePayload && source.value.terminal.None? {
        return Some(ErrExecutionLifecycleUnsafe);
      }
      var available := ProtectedRevisionsAvailable(q);
      return if available then None else Some(ErrExecutionCheckpointUnavailable);
    }

    method ProtectedRevisionsAvailable(q: RetentionRequest) returns (ok: bool)
      ensures ok <==> ProtectedAvailable(Contents(), q)
    {
      hide Decode;
      for i := 0 to |q.policy.protectedRevisions|
        invariant forall k :: 0 <= k < i ==> Available(Contents(), q.executionID, q.policy.protectedRevisions[k])
      {
        var decoded := DecodeAnchored(q.executionID, q.policy.protectedRevisions[i]);
        if decoded.Err? {
          return false;
        }
      }
      return true;
    }
  }

  /** The delete loop of the source, in map order. */
  method Survivors(history: map<uint64, Envelope>, q: RetentionRequest)
    returns (items: map<uint64, Envelope>, deleted: nat)
    ensures items == map k | k in history && Retained(q, k) :: history[k]
    ensures deleted == |history.Keys - items.Keys|
  {
    hide Retained;
    items, deleted := history, 0;
    var todo := history.Keys;
    while todo != {}
      invariant todo <= history.Keys
      invariant items == map k | k in history && (k in todo || Retained(q, k)) :: history[k]
      invariant deleted == |history.Keys - items.Keys|
      decreases todo
    {
      var k :| k in todo;
      if !Retained(q, k) {
        Deletes(history.Keys, items.Keys, k);
        items := items - {k};
        deleted := deleted + 1;
      }
      todo := todo - {k};
    }
  }

  lemma NoPayload(s: Store, id: string, revision: uint64)
    ensures Payload(s, id, revision).None? ==>
      Decode(s, Payload(s, id, revision), id, revision) == Err(ErrExecutionCheckpointUnavailable)
  {
  }

  lemma Deletes(all: set<uint64>, items: set<uint64>, k: uint64)
    requires k in items && items <= all
    ensures |all - (items - {k})| == |all - items| + 1
  {
    assert all - (items - {k}) == (all - items) + {k};
  }

  lemma OutgoingIsValid(s: Store, id: string)
    ensures StoreInv(s) && id in s.outgoing ==> ValidReceipt(s.outgoing[id])
  {
    hide HistoryConsistent, LeasesFenced, TargetLinked, ValidReceipt;
    if StoreInv(s) {
      assert SourceLinked(s, id);
    }
  }
}
