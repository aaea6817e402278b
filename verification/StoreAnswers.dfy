/** What the store answers: how long a lease lives, exactly which commits,
    rollovers and retentions are accepted, and what the next load then returns. */
module StoreAnswers {
  import opened Basics
  import opened Envelopes
  import opened Lifecycle
  import opened Retention
  import opened StoreModel
  import opened StoreSteps
  import A = ActivityRecords
  import C = ChildRecords
  import G = ChildGroups
  import L = ChildCapacity

  // ------------------------------------------------------------------ leases

  /** The lease is live exactly before this time, and so long nobody else gets it. */
  ghost predicate LivesUntil(s: Store, lease: Lease, end: Time) {
    forall at: Time :: LiveAt(s, lease, at) <==> at < end
  }

  predicate LiveAt(s: Store, lease: Lease, at: Time) {
    Held(s, at, lease) && Busy(s, at, lease.executionID)
  }

  ghost predicate OtherLeasesKept(s: Store, t: Store, id: string) {
    forall x :: x != id ==> Lookup(t.leases, x) == Lookup(s.leases, x) && Fence(t, x) == Fence(s, x)
  }

  /** A free execution is acquired by anyone, for the time asked and under the next
      incarnation; one that is held is refused. */
  lemma AcquireAnswer(s: Store, now: Time, id: string, owner: string, ttl: int)
    requires StoreInv(s)
    ensures Acquire(s, now, id, owner, ttl).Ok? <==>
      id != "" && owner != "" && ttl > 0 && !Busy(s, now, id) && Fence(s, id) < MAX_UINT64
    ensures id != "" && owner != "" && ttl > 0 && Busy(s, now, id) ==>
      Acquire(s, now, id, owner, ttl) == Err(if s.leases[id].owner == owner then ErrThreadLeaseBusy else ErrLeaseHeld)
    ensures Acquire(s, now, id, owner, ttl).Ok? ==>
      var (t, lease) := Acquire(s, now, id, owner, ttl).value;
      && lease.executionID == id && lease.owner == owner && lease.incarnation == Fence(s, id) + 1 == Fence(t, id)
      && LivesUntil(t, lease, now + ttl) && OtherLeasesKept(s, t, id)
  {
    hide StoreInv;
  }

  /** Exactly a live lease is renewed, and it then lives for the time asked from
      now on. */
  lemma RenewAnswer(s: Store, now: Time, lease: Lease, ttl: int)
    requires StoreInv(s)
    ensures Renew(s, now, lease, ttl).Ok? <==> ttl > 0 && Held(s, now, lease)
    ensures ttl > 0 && !Held(s, now, lease) ==> Renew(s, now, lease, ttl) == Err(ErrLeaseLost)
    ensures Renew(s, now, lease, ttl).Ok? ==>
      var (t, renewed) := Renew(s, now, lease, ttl).value;
      && renewed == lease.(expiresAt := renewed.expiresAt) && LivesUntil(t, lease, now + ttl)
      && OtherLeasesKept(s, t, lease.executionID) && Fence(t, lease.executionID) == Fence(s, lease.executionID)
  {
    hide HistoryConsistent, ChainsLinked;
  }

  /** The newest handle may release, live or expired, and again afterwards; then
      nobody holds the execution at any time. */
  lemma ReleaseAnswer(s: Store, lease: Lease, at: Time)
    requires StoreInv(s)
    ensures Release(s, lease).Ok? <==>
      && lease.incarnation == Fence(s, lease.executionID) && lease.incarnation != 0
      && (lease.executionID in s.leases ==> s.leases[lease.executionID].owner == lease.owner)
    ensures Release(s, lease).Err? ==> Release(s, lease) == Err(ErrLeaseLost)
    ensures Release(s, lease).Ok? ==>
      var t := Release(s, lease).value;
      && !Busy(t, at, lease.executionID) && !Held(t, at, lease) && OtherLeasesKept(s, t, lease.executionID)
      && Release(t, lease) == Ok(t)
  {
    hide HistoryConsistent, ChainsLinked;
  }

  // ----------------------------------------------------------------- commits

  /** Exactly which commits a consistent store takes: under the live lease of the
      execution, over its head, of a compatible envelope that neither touches the
      transfer nor changes the lineage. */
  lemma CommitIff(s: Store, now: Time, expected: uint64, lease: Lease, e: Envelope)
    requires StoreInv(s)
    ensures Commit(s, now, expected, lease, e).Ok? <==>
      && Held(s, now, lease) && e.executionID == lease.executionID && Head(s, e.executionID) == expected < MAX_UINT64
      && ValidDescriptor(e.descriptor) && e.progress.pointer != "" && e.executionID != "" && e.transfer.None?
      && (e.fork.Some? ==> ValidFork(e.fork.value) && e.fork.value.targetID == e.executionID)
      && (if expected == 0 then e.rollover.None?
          else
            && Payload(s, e.executionID, expected).Some?
            && var p := Payload(s, e.executionID, expected).value;
               p.transfer.None? && p.rollover == e.rollover && p.fork == e.fork)
    ensures expected < MAX_UINT64 && (!Held(s, now, lease) || e.executionID != lease.executionID) ==>
      Commit(s, now, expected, lease, e) == Err(ErrLeaseLost)
    ensures (&& expected < MAX_UINT64 && Held(s, now, lease) && e.executionID == lease.executionID
             && ValidDescriptor(e.descriptor) && e.progress.pointer != "" && Head(s, e.executionID) != expected) ==>
      Commit(s, now, expected, lease, e) == Err(ErrConcurrencyConflict)
  {
    hide StoreInv, Anchored, ValidDescriptor, ValidFork, Held;
    if expected > 0 && Payload(s, e.executionID, expected).Some? {
      PayloadFacts(s, e.executionID, expected);
    }
  }

  /** A new execution may name the one it was forked from: a sealed revision of
      another execution, with its policy, its transformation and its time, and
      for a fork with live effects also the projection that cleared them. What
      the first commit names is anchored; anything less is refused as corrupt. */
  lemma ForkAnswer(s: Store, now: Time, lease: Lease, e: Envelope, f: ForkLineage)
    requires StoreInv(s) && Held(s, now, lease) && e.executionID == lease.executionID && Head(s, e.executionID) == 0
    requires ValidDescriptor(e.descriptor) && e.progress.pointer != "" && e.executionID != ""
    requires e.transfer.None? && e.rollover.None? && e.fork == Some(f)
    ensures Commit(s, now, 0, lease, e).Ok? <==>
      && f.targetID == e.executionID != f.source.executionID
      && f.source.executionID != "" && f.source.revision > 0 && f.source.digest != NoSeal
      && ValidDescriptor(f.sourceDescriptor) && ValidDescriptor(f.targetDescriptor)
      && f.policyLabel != "" && f.transformLabel != "" && f.createdAt != 0
      && (f.mode.ForkFake? || (f.mode.ForkLive? && f.projectionLabel != ""))
    ensures match Commit(s, now, 0, lease, e)
      case Err(error) => error == ErrExecutionCorrupt
      case Ok((t, c)) => Lookup(t.lineage, e.executionID) == c.fork == Some(f)
  {
    hide StoreInv, ValidDescriptor, Held;
  }

  // ---------------------------------------------------------------- rollover

  /** The envelope that ends a transferred execution: its last one, only marked as
      transferred by this receipt. */
  predicate TransferredBy(current: Envelope, f: Envelope, receipt: RolloverReceipt) {
    && f == current.(transfer := Some(receipt), terminal := f.terminal, revision := f.revision, digest := f.digest)
    && f.revision == Increment(current.revision) && f.terminal.Some? && f.terminal.value.status.RunTransferred?
    && f.terminal.value.failure.None?
  }

  /** The receipt names both ends: the exact source, and the first revision of the
      target as it is stored. */
  predicate ReceiptNames(receipt: RolloverReceipt, current: Envelope, created: Envelope) {
    && receipt.lineage.source == Reference(current.executionID, current.revision, current.digest)
    && receipt.lineage.targetID == created.executionID && Some(receipt.lineage) == created.rollover
    && receipt.lineage.sourceDescriptor == current.descriptor && receipt.lineage.targetDescriptor == created.descriptor
    && receipt.target == Reference(created.executionID, created.revision, created.digest)
    && receipt.sourceRevision == Increment(current.revision)
  }

  /** After a rollover the source loads as transferred and the target as it was
      handed over, both under one receipt; leases and fences stay. */
  lemma RolloverLoads(s: Store, now: Time, lease: Lease, source: Reference, target: Envelope, sizes: Sizes)
    returns (current: Envelope)
    requires StoreInv(s) && CommitRollover(s, now, lease, source, target, sizes).Ok?
    ensures Load(s, source.executionID) == Ok(current)
    ensures source == Reference(current.executionID, current.revision, current.digest)
    ensures var (t, receipt) := CommitRollover(s, now, lease, source, target, sizes).value;
      && Load(t, source.executionID).Ok? && TransferredBy(current, Load(t, source.executionID).value, receipt)
      && Load(t, target.executionID) == Ok(Sealed(target, 1)) && ReceiptNames(receipt, current, Sealed(target, 1))
      && Lookup(t.outgoing, source.executionID) == Some(receipt)
      && Lookup(t.incoming, target.executionID) == Some(receipt)
      && t.leases == s.leases && t.fences == s.fences
  {
    hide StoreInv, BoundaryError, CollectionsValid, Anchored, StoreExtends, CommitRollover;
    current := RolloverFacts(s, now, lease, source, target, sizes);
    RolloverKeeps(s, current, target);
    var p := Publish(current, target, target.rollover.value);
    var t := PublishPair(s, p);
    PayloadFacts(s, current.executionID, current.revision);
    FreshFacts(current, target);
    PayloadFacts(t, current.executionID, p.transferred.revision);
    PayloadFacts(t, target.executionID, 1);
    RolloverSource(s, now, lease, source, target, sizes, current);
  }

  lemma RolloverSource(
    s: Store, now: Time, lease: Lease, source: Reference, target: Envelope, sizes: Sizes, current: Envelope)
    requires CommitRollover(s, now, lease, source, target, sizes).Ok?
    requires current.executionID == source.executionID && Head(s, current.executionID) == current.revision
    requires Payload(s, current.executionID, current.revision) == Some(current)
    ensures source == Reference(current.executionID, current.revision, current.digest)
  {
    hide PreparePublication, Anchored, IntegrityHolds;
  }

  // --------------------------------------------------------- safe boundaries

  /** The provenance and the terminal an envelope carries are consistent with it. */
  predicate MetadataHolds(e: Envelope) {
    && (e.rollover.Some? ==> ValidLineage(e.rollover.value) && e.rollover.value.targetID == e.executionID)
    && (e.fork.Some? ==> ValidFork(e.fork.value) && e.fork.value.targetID == e.executionID)
    && (e.transfer.Some? <==> e.terminal.Some? && e.terminal.value.status.RunTransferred?)
    && (e.transfer.Some? ==>
          && ValidReceipt(e.transfer.value) && e.transfer.value.lineage.source.executionID == e.executionID
          && e.transfer.value.sourceRevision == e.revision)
    && (e.imported.Some? ==>
          && e.imported.value.importerID != "" && e.imported.value.id != "" && e.imported.value.revision != 0
          && e.imported.value.format != "" && e.imported.value.payload != []
          && e.imported.value.digest == PayloadHash(e.imported.value.payload))
    && (e.terminal.Some? ==>
          && !e.terminal.value.status.OtherStatus?
          && (e.terminal.value.failure.Some? <==> e.terminal.value.status.RunFailed?))
  }

  /** Nothing is outstanding, nothing of an unfinished activation is left, and
      every child with an allocation has returned what it did not use. */
  predicate Quiet(e: Envelope) {
    && (forall k :: k in e.journal ==> e.journal[k].state.Completed? || e.journal[k].state.Failed?)
    && (forall k :: k in e.children ==> C.Merged(e.children[k]))
    && (forall k :: k in e.waits ==> !e.waits[k].state.Armed?)
    && (e.terminal.None? ==>
          && e.runMeta.stepCount > 0
          && (forall k :: k in e.journal ==> e.journal[k].activation < e.activation)
          && (forall k :: k in e.children ==> e.children[k].activation < e.activation))
    && (forall k, i: nat :: k in e.children && i < |e.children[k].children| ==> Accounted(e.children[k], i))
    && e.progress.childCursors == map[]
  }

  predicate Accounted(g: C.ChildGroup, i: nat)
    requires i < |g.children|
  {
    var c := g.children[i];
    || c.spec.allocation == map[]
    || (c.spec.id in g.budgetReturns && g.budgetReturns[c.spec.id].childRevision == c.revision)
  }

  /** A safe boundary is exactly that of a sound envelope. */
  lemma BoundaryIff(e: Envelope)
    ensures BoundaryError(e).None? <==>
      && IntegrityHolds(e, e.executionID, e.revision) && ValidDescriptor(e.descriptor) && MetadataHolds(e)
      && CollectionsValid(e) && Quiet(e)
  {
    hide IntegrityHolds, ValidDescriptor, CollectionsValid;
    MetadataIff(e);
    hide MetadataError, MetadataHolds;
    if CollectionsValid(e) {
      QuietIff(e);
    }
  }

  lemma MetadataIff(e: Envelope)
    ensures MetadataError(e).None? <==> MetadataHolds(e)
  {
    hide ValidLineage, ValidFork, ValidReceipt;
  }

  lemma QuietIff(e: Envelope)
    requires CollectionsValid(e)
    ensures Quiet(e) <==>
      && (e.terminal.None? ==> e.runMeta.stepCount > 0) && JournalSettled(e) && ChildrenSettled(e)
      && (forall k :: k in e.waits ==> !e.waits[k].state.Armed?) && e.progress.childCursors == map[]
  {
    hide WaitsValid;
    NotAfter(e);
    hide CollectionsValid;
    if Quiet(e) {
      forall k | k in e.children
        ensures forall i :: 0 <= i < |e.children[k].children| ==>
          ChildAccounted(e.children[k], e.children[k].children[i])
      {
        forall i: nat | i < |e.children[k].children| ensures ChildAccounted(e.children[k], e.children[k].children[i]) {
          assert Accounted(e.children[k], i);
        }
      }
    } else if ChildrenSettled(e) {
      forall k, i: nat | k in e.children && i < |e.children[k].children| ensures Accounted(e.children[k], i) {
        assert ChildAccounted(e.children[k], e.children[k].children[i]);
      }
    }
  }

  /** Nothing belongs to a later activation, and a merged group is settled. */
  lemma NotAfter(e: Envelope)
    requires CollectionsValid(e)
    ensures forall k :: k in e.journal ==> e.journal[k].activation <= e.activation
    ensures forall k :: k in e.children ==> e.children[k].activation <= e.activation
    ensures forall k, i :: k in e.children && C.Merged(e.children[k]) && 0 <= i < |e.children[k].children| ==>
      C.Settled(e.children[k].children[i])
  {
    hide A.ValidRecord, WaitsValid, OutcomesDistinct, L.LedgerHolds, JournalRefsValid, GroupRefsValid;
    forall k | k in e.journal ensures e.journal[k].activation <= e.activation {
      assert RecordAt(e, e.journal[k]);
    }
    forall k | k in e.children
      ensures e.children[k].activation <= e.activation
      ensures C.Merged(e.children[k]) ==>
        forall i :: 0 <= i < |e.children[k].children| ==> C.Settled(e.children[k].children[i])
    {
      assert GroupAt(e, e.children[k]);
      MergedSettled(e.children[k], e.revision);
    }
  }

  lemma MergedSettled(g: C.ChildGroup, revision: uint64)
    requires G.GroupInv(g, revision)
    ensures C.Merged(g) ==> forall i :: 0 <= i < |g.children| ==> C.Settled(g.children[i])
  {
    hide C.Plannable, G.ValidProvenance, G.ValidBudgetReturns, G.ChildAt;
  }

  // ------------------------------------------- which rollovers and retentions

  /** A target that continues exactly this source and carries nothing else over. */
  predicate Successor(current: Envelope, target: Envelope) {
    && target.rollover.Some? && ValidLineage(target.rollover.value)
    && target.rollover.value.targetID == target.executionID
    && target.rollover.value.source == Reference(current.executionID, current.revision, current.digest)
    && target.rollover.value.sourceDescriptor == current.descriptor
    && target.rollover.value.targetDescriptor == target.descriptor
    && target.journal == map[] && target.children == map[] && target.waits == map[]
    && target.progress == Progress(target.progress.state, target.progress.pointer, map[], map[], map[])
    && target.revision == 0 && target.digest.NoSeal? && target.activation == 1 && target.progress.pointer != ""
    && target.terminal.None? && target.transfer.None? && target.fork.None? && target.imported.None?
    && target.migration.None? && target.runMeta.stepCount == 0
    && target.runMeta.retryCounts == current.runMeta.retryCounts
    && target.runMeta.budgetCounts == current.runMeta.budgetCounts
  }

  ghost predicate WithinLimits(current: Envelope, target: Envelope, policy: RolloverPolicy, sizes: Sizes) {
    && WithinRecordLimit(current, policy) && sizes.source <= policy.maxAggregateBytes
    && |target.progress.state| + |target.effects| <= policy.maxTargetBytes && sizes.target <= policy.maxTargetBytes
  }

  /** A source at a safe boundary and a target that continues it within the limits. */
  ghost predicate Publishable(current: Envelope, target: Envelope, sizes: Sizes) {
    && current.revision < MAX_UINT64 && current.fork.None?
    && (current.terminal.Some? ==> current.terminal.value.status.RunCompleted?)
    && BoundaryError(current).None? && Successor(current, target) && CollectionsValid(target)
    && WithinLimits(current, target, target.rollover.value.policy, sizes)
  }

  lemma PublishIff(current: Envelope, target: Envelope, lease: Lease, sizes: Sizes)
    requires current.executionID == lease.executionID && lease.incarnation != 0 && current.transfer.None?
    ensures PreparePublication(current, target, lease, sizes).Ok? <==>
      lease.owner != "" && Publishable(current, target, sizes)
  {
    hide BoundaryError, CollectionsValid, WithinRecordLimit, ValidLineage, Publish;
  }

  /** Exactly which rollovers are published: by the live lease, of the untransferred
      head at a safe boundary, to an unused identity, within the policy's limits. */
  lemma RolloverIff(s: Store, now: Time, lease: Lease, source: Reference, target: Envelope, sizes: Sizes)
    requires StoreInv(s)
    ensures CommitRollover(s, now, lease, source, target, sizes).Ok? <==>
      && Held(s, now, lease) && lease.executionID == source.executionID && lease.owner != ""
      && source.executionID !in s.outgoing && Head(s, target.executionID) == 0 && Fence(s, target.executionID) == 0
      && Load(s, source.executionID).Ok?
      && var current := Load(s, source.executionID).value;
         && source == Reference(current.executionID, current.revision, current.digest)
         && Publishable(current, target, sizes)
  {
    hide StoreInv, Anchored, PreparePublication, Publishable, PublishPair;
    var id := source.executionID;
    if Load(s, id).Ok? {
      PayloadFacts(s, id, Head(s, id));
      AnchorFacts(s, Load(s, id).value, id);
      if Held(s, now, lease) && lease.executionID == id && id !in s.outgoing {
        PublishIff(Load(s, id).value, target, lease, sizes);
      }
    }
  }

  /** Exactly which retentions are carried out: of the idle head at a safe boundary,
      with everything protected still there, and a deletion only of a finished
      run. Deleting again is accepted. */
  lemma RetainIff(s: Store, now: Time, q: RetentionRequest)
    requires StoreInv(s)
    ensures Retain(s, now, q).Ok? <==>
      && ValidRetention(q) && !Busy(s, now, q.executionID) && Head(s, q.executionID) == q.revision
      && match Payload(s, q.executionID, q.revision)
         case None => q.policy.deletePayload
         case Some(e) =>
           && BoundaryError(e).None? && (q.policy.deletePayload ==> e.terminal.Some?)
           && forall i :: 0 <= i < |q.policy.protectedRevisions| ==>
                Payload(s, q.executionID, q.policy.protectedRevisions[i]).Some?
  {
    hide StoreInv, BoundaryError, Anchored, IntegrityHolds;
    var id := q.executionID;
    if Payload(s, id, q.revision).Some? {
      PayloadFacts(s, id, q.revision);
    }
    forall i | 0 <= i < |q.policy.protectedRevisions| && Payload(s, id, q.policy.protectedRevisions[i]).Some?
      ensures Available(s, id, q.policy.protectedRevisions[i])
    {
      PayloadFacts(s, id, q.policy.protectedRevisions[i]);
    }
  }
}
