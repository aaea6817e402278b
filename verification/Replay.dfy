/** Recovery after a crash: what a later call finds is what an earlier one left.
    Snapshots read back as they were saved, settled activities are replayed and
    never started again, and each activation binds its own records. */
module Replay {
  import opened Basics
  import opened Envelopes
  import opened Lifecycle
  import opened AggregateInvariant
  import opened StoreModel
  import opened StoreSteps
  import A = ActivityRecords
  import S = ActivitySteps
  import AO = ActivityOps
  import SO = StepOps
  import WO = WaitOps
  import CO = ChildOps
  import G = ChildGroups
  import W = WaitArbitration
  import opened StepAnswers

  // --------------------------------------------------------------- snapshots

  /** What a load decodes for the host. */
  function SnapshotOf(e: Envelope): SO.Snapshot {
    SO.Snapshot(e.progress.pointer, e.progress.state, e.effects, e.runMeta)
  }

  /** If the store takes the write, the next load returns the snapshot that was
      passed in, with the journal and the children untouched. */
  ghost predicate LoadsSnapshot(store: Store, now: Time, lease: Lease, e: Envelope, t: Envelope, s: SO.Snapshot) {
    match Commit(store, now, e.revision, lease, t)
    case Err(_) => true
    case Ok(x) =>
      match Load(x.0, e.executionID)
      case Err(_) => false
      case Ok(f) => SnapshotOf(f) == s && f.journal == e.journal && f.children == e.children && f.terminal == t.terminal
  }

  lemma WriteLoads(store: Store, now: Time, lease: Lease, e: Envelope, t: Envelope, s: SO.Snapshot)
    requires StoreInv(store) && t.executionID == e.executionID && SnapshotOf(Next(e, t)) == s
    requires t.journal == e.journal && t.children == e.children
    ensures LoadsSnapshot(store, now, lease, e, t, s)
  {
    hide StoreInv, Commit, Load;
    if Commit(store, now, e.revision, lease, t).Ok? {
      CommitThenLoad(store, now, e.revision, lease, t, t.executionID);
      CommitIs(store, now, e, lease, t);
    }
  }

  lemma CommitIs(store: Store, now: Time, e: Envelope, lease: Lease, t: Envelope)
    requires StoreInv(store) && Commit(store, now, e.revision, lease, t).Ok?
    ensures Commit(store, now, e.revision, lease, t).value.1 == Next(e, t)
  {
    hide CommitError;
  }

  lemma SavedSnapshotLoads(store: Store, now: Time, lease: Lease, e: Envelope, s: SO.Snapshot, t: Envelope)
    requires StoreInv(store) && SO.Save(e, s) == Write(t)
    ensures LoadsSnapshot(store, now, lease, e, t, s)
  {
    hide StoreInv, SO.Resolved, LoadsSnapshot;
    WriteLoads(store, now, lease, e, t, s);
  }

  lemma StepSnapshotLoads(
    store: Store, now: Time, lease: Lease, e: Envelope, retry: bool, end: SO.StepEnd, s: SO.Snapshot, t: Envelope)
    requires StoreInv(store) && SO.CommitStep(e, retry, end, s) == Write(t)
    ensures LoadsSnapshot(store, now, lease, e, t, s)
    ensures EndsAs(end, t.terminal) && (!end.Ends? ==> t.terminal == e.terminal)
  {
    hide StoreInv, SO.Resolved, LoadsSnapshot;
    WriteLoads(store, now, lease, e, t, s);
  }

  lemma FailureSnapshotLoads(
    store: Store, now: Time, lease: Lease, e: Envelope, recoverable: bool, reason: string, message: string,
    s: SO.Snapshot, t: Envelope)
    requires StoreInv(store) && SO.CommitRunFailure(e, recoverable, reason, message, s) == Write(t)
    ensures LoadsSnapshot(store, now, lease, e, t, s)
    ensures t.terminal.Some? && t.terminal.value.status.RunFailed? && t.terminal.value.reason == reason
    ensures t.terminal.value.failure == Some(message)
  {
    hide StoreInv, SO.Resolved, LoadsSnapshot;
    WriteLoads(store, now, lease, e, t, s);
  }

  lemma ArmedSnapshotLoads(
    store: Store, now: Time, lease: Lease, e: Envelope, s: SO.Snapshot, spec: W.WaitSpec, profile: W.WaitProfile,
    t: Envelope)
    requires StoreInv(store) && WO.Arm(e, s, spec, profile) == Write(t)
    ensures LoadsSnapshot(store, now, lease, e, t, s) && !HasArmed(e) && HasArmed(t)
  {
    hide StoreInv, SO.ActivityResolved, SO.GroupResolved, W.ValidSpec, W.ValidProfile, LoadsSnapshot;
    var r := W.PlanWait(e.executionID, s.pointer, e.activation, e.revision + 1, spec, profile).value;
    assert t.waits[W.WaitIdentity(r)].state.Armed?;
    WriteLoads(store, now, lease, e, t, s);
  }

  // -------------------------------------------------------------- activations

  /** The next activation sees none of the records and groups of earlier ones:
      graph cycles are separated from replay. */
  ghost predicate StartsAfresh(f: Envelope) {
    && (forall key :: BoundActivity(f, key) !in f.journal)
    && (forall key :: BoundGroup(f, key) !in f.children)
  }

  /** The same activation finds every record and group under its old key. */
  ghost predicate SameBindings(e: Envelope, f: Envelope) {
    forall key :: BoundActivity(f, key) == BoundActivity(e, key) && BoundGroup(f, key) == BoundGroup(e, key)
  }

  lemma NextActivationIsFresh(e: Envelope, f: Envelope)
    requires EnvInv(e) && f.journal == e.journal && f.children == e.children && e.activation < f.activation
    requires f.progress.journalRefs == map[] && f.progress.groupRefs == map[]
    ensures StartsAfresh(f)
  {
    hide EnvInv;
    forall key ensures BoundActivity(f, key) !in f.journal {
      if BoundActivity(f, key) in e.journal {
        AddressOf(e, BoundActivity(f, key));
      }
    }
    forall key ensures BoundGroup(f, key) !in f.children {
      if BoundGroup(f, key) in e.children {
        GroupAddressOf(e, BoundGroup(f, key));
      }
    }
  }

  lemma AddressOf(e: Envelope, k: Digest)
    requires k in e.journal && EnvInv(e)
    ensures k.ActivityAddress? && k.activation <= e.activation
  {
    hide A.ValidAttempts, A.ValidDecisions, A.ValidSchedules, A.ValidHistory, A.ValidState, ChildrenValid, WaitsValid;
    assert RecordAt(e, e.journal[k]);
  }

  lemma GroupAddressOf(e: Envelope, k: Digest)
    requires k in e.children && EnvInv(e)
    ensures k.ChildAddress? && k.activation <= e.activation
  {
    hide EnvInv, G.GroupInv;
    CO.GroupFacts(e, k);
  }

  /** A committed step starts a fresh activation, except when a node retries
      itself: then the node finds what it left. */
  lemma StepsBindAfresh(e: Envelope, retry: bool, end: SO.StepEnd, s: SO.Snapshot, t: Envelope)
    requires EnvInv(e) && e.revision < MAX_UINT64 && SO.CommitStep(e, retry, end, s) == Write(t)
    ensures if retry && s.pointer == e.progress.pointer then SameBindings(e, Next(e, t)) else StartsAfresh(Next(e, t))
  {
    hide EnvInv, SO.Resolved, StartsAfresh;
    BelowMax(e);
    if !(retry && s.pointer == e.progress.pointer) {
      NextActivationIsFresh(e, Next(e, t));
    }
  }

  /** So does the continuation of a decided wait. */
  lemma ContinuationsBindAfresh(
    e: Envelope, delivery: W.WaitDelivery, incarnation: uint64, now: Time, matched: bool, state: Bytes, t: Envelope)
    requires EnvInv(e) && e.revision < MAX_UINT64
    requires WO.Deliver(e, delivery, incarnation, now, matched, state) == Write(t) && t.activation != e.activation
    ensures StartsAfresh(Next(e, t))
  {
    hide EnvInv, W.PrepareWaitDecision, StartsAfresh;
    BelowMax(e);
    NextActivationIsFresh(e, Next(e, t));
  }

  lemma BelowMax(e: Envelope)
    requires EnvInv(e) && e.revision < MAX_UINT64
    ensures e.activation < MAX_UINT64 && Increment(e.activation) == e.activation + 1
  {
    hide CollectionsValid, RecordsInductive;
  }

  // --------------------------------------------------------------- activities

  /** Once an activity has completed, every later call for it in its activation,
      by any incarnation, returns the recorded outcome without a write. */
  lemma CompletedIsReplayed(
    e: Envelope, k: Digest, payload: Bytes, origin: A.Origin, now: Time, sample: Option<uint64>, t: Envelope,
    g: Envelope, q: S.ActivityRequest, incarnation: uint64, checkedAt: Time, startedAt: Time)
    requires EnvInv(e) && AO.Finish(e, k, AO.Succeeded(payload), origin, now, sample) == Write(t)
    requires Extends(Next(e, t), g) && BoundActivity(g, q.key) == k && AO.ValidRequest(q)
    ensures k in g.journal && g.journal[k].outcome == payload && g.journal[k].state.Completed?
    ensures AO.Prepare(g, q) == Unchanged
    ensures var r := g.journal[k];
      AO.Begin(g, q, incarnation, checkedAt, startedAt) ==
        if r.inputDigest == PayloadHash(q.input) && r.implementation == q.implementation && r.retry == q.retry
        then Unchanged else Refused(ErrActivityConflict)
  {
    hide EnvInv, A.ValidRecord, ChildrenExtend, WaitsExtend, RecordAt, S.RecordInv;
    AO.RecordFacts(e, k);
    assert S.RecordExtends(t.journal[k], g.journal[k]);
  }

  /** A freshly prepared activity can be started at once, whatever the clock says
      as long as it is not the zero time. */
  lemma PreparedCanStart(
    e: Envelope, q: S.ActivityRequest, t: Envelope, incarnation: uint64, checkedAt: Time, startedAt: Time)
    requires EnvInv(e) && e.revision < MAX_UINT64 && AO.Prepare(e, q) == Write(t)
    requires incarnation != 0 && startedAt != 0
    ensures AO.Begin(Next(e, t), q, incarnation, checkedAt, startedAt).Write?
  {
    hide EnvInv, Sound, A.ValidRecord;
    AO.AddressFacts(e);
    var f := Next(e, t);
    var k := BoundActivity(e, q.key);
    assert k == ActivityAddress(e.executionID, e.progress.pointer, e.activation, q.key);
    var r := S.NewRecord(e.executionID, e.progress.pointer, e.activation, q);
    S.NewRecordValid(e.executionID, e.progress.pointer, e.activation, q);
    assert f.journal[k] == r && BoundActivity(f, q.key) == k;
    S.BeginValidIff(r, checkedAt, incarnation, startedAt);
  }

  // --------------------------------------------------------------- the store

  /** What was committed is what the next load returns; other executions load as
      before. */
  lemma CommitThenLoad(s: Store, now: Time, expected: uint64, lease: Lease, e: Envelope, id: string)
    requires StoreInv(s) && Commit(s, now, expected, lease, e).Ok?
    ensures var (t, c) := Commit(s, now, expected, lease, e).value;
      && Load(t, e.executionID) == Ok(c)
      && (id != e.executionID && Load(s, id).Ok? ==> Load(t, id) == Load(s, id))
  {
    hide StoreInv, StoreExtends, Commit, IntegrityHolds, Anchored;
    var (t, c) := Commit(s, now, expected, lease, e).value;
    CommitKeeps(s, now, expected, lease, e);
    assert c.executionID == e.executionID;
    PayloadFacts(t, e.executionID, c.revision);
    if id != e.executionID && Load(s, id).Ok? {
      assert Head(t, id) == Head(s, id) && Payload(t, id, Head(s, id)) == Payload(s, id, Head(s, id));
      PayloadFacts(t, id, Head(s, id));
      PayloadFacts(s, id, Head(s, id));
    }
  }

  /** While a handle is live nobody else can acquire the execution; after its
      release, or its expiry, anyone can, under a larger incarnation. */
  lemma AcquireNeedsRelease(s: Store, now: Time, lease: Lease, owner: string, ttl: int)
    requires StoreInv(s) && Held(s, now, lease) && lease.executionID != "" && owner != "" && ttl > 0
    requires Fence(s, lease.executionID) < MAX_UINT64
    ensures Acquire(s, now, lease.executionID, owner, ttl).Err?
    ensures Release(s, lease).Ok? && Acquire(Release(s, lease).value, now, lease.executionID, owner, ttl).Ok?
    ensures
      Acquire(Release(s, lease).value, now, lease.executionID, owner, ttl).value.1.incarnation == lease.incarnation + 1
  {
    hide HistoryConsistent, ChainsLinked;
    LeaseFacts(s, now, lease);
  }
}
