/** The lifecycle validators as the source runs them: passes over the collections
    in map order, proved to decide the predicates and errors they stand for. */
module LifecycleChecks {
  import opened Basics
  import opened Envelopes
  import opened Lifecycle
  import C = ChildRecords
  import G = ChildGroups
  import L = ChildCapacity
  import W = WaitArbitration

  /** The loader's validation of all three collections. */
  method ValidateCollections(e: Envelope) returns (ok: bool)
    ensures ok <==> CollectionsValid(e)
  {
    hide JournalValid, WaitsValid, GroupRefsValid, G.GroupInv, GroupAt, OutcomesDistinct, L.LedgerHolds;
    if (e.profile.Some? && !ProfileOk(e)) || !JournalValid(e) {
      return false;
    }
    ok := ValidateOutcomeIDs(e.children);
    if !ok {
      return false;
    }
    if exists k :: k in e.children && !(k == C.GroupIdentity(e.children[k]) && G.GroupInv(e.children[k], e.revision)) {
      return false;
    }
    if exists k :: k in e.children && !GroupAt(e, e.children[k]) {
      return false;
    }
    if !GroupRefsValid(e) {
      return false;
    }
    CapacitiesNamed(e);
    ok := L.ValidateChildCapacityLedger(e.children);
    if !ok {
      return false;
    }
    ok := ValidateWaits(e);
  }

  predicate ProfileOk(e: Envelope) {
    e.profile.Some? ==> W.ValidProfile(e.profile.value)
  }

  lemma CapacitiesNamed(e: Envelope)
    requires forall k :: k in e.children ==> G.GroupInv(e.children[k], e.revision)
    ensures forall k :: k in e.children ==> C.NamedUnits(e.children[k].capacity)
  {
    hide G.ValidProvenance, G.ChildAt, G.ValidBudgetReturns, G.ValidJoin, G.ValidGroupCancellation;
  }

  method ValidateLifecycleBoundary(e: Envelope) returns (err: Option<Error>)
    ensures err == BoundaryError(e)
  {
    hide CollectionsValid, MetadataError, JournalSettled, ChildrenSettled;
    if !IntegrityHolds(e, e.executionID, e.revision) {
      return Some(ErrExecutionCorrupt);
    }
    if !ValidDescriptor(e.descriptor) {
      return Some(ErrExecutionIncompatible);
    }
    if MetadataError(e).Some? {
      return MetadataError(e);
    }
    var ok := ValidateCollections(e);
    if !ok {
      return Some(ErrExecutionCorrupt);
    }
    if e.terminal.None? && e.runMeta.stepCount <= 0 {
      return Some(ErrExecutionLifecycleUnsafe);
    }
    if !JournalSettled(e) || !ChildrenSettled(e) {
      return Some(ErrExecutionLifecycleUnsafe);
    }
    var todo := e.waits.Keys;
    while todo != {}
      invariant todo <= e.waits.Keys && forall k :: k in e.waits && k !in todo ==> !e.waits[k].state.Armed?
      decreases todo
    {
      var k :| k in todo;
      if e.waits[k].state.Armed? {
        return Some(ErrExecutionLifecycleUnsafe);
      }
      todo := todo - {k};
    }
    if e.progress.childCursors != map[] {
      return Some(ErrExecutionLifecycleUnsafe);
    }
    return None;
  }

  method PrepareRolloverPublication(source: Envelope, target: Envelope, lease: Lease, sizes: Sizes)
    returns (r: Result<Publication>)
    ensures r == PreparePublication(source, target, lease, sizes)
  {
    hide CollectionsValid, BoundaryError, FreshTarget, WithinRecordLimit;
    if source.executionID != lease.executionID || lease.incarnation == 0 || lease.owner == "" {
      return Err(ErrLeaseLost);
    }
    var sourceError := RolloverSourceCheck(source);
    if sourceError.Some? {
      return Err(sourceError.value);
    }
    var targetError := RolloverTargetCheck(source, target);
    if targetError.Some? {
      return Err(targetError.value);
    }
    TargetHasLineage(source, target);
    var policy := target.rollover.value.policy;
    if sizes.source > policy.maxAggregateBytes {
      return Err(ErrExecutionLifecycleLimit);
    }
    var within := ValidateRecordLimit(source, policy);
    if !within {
      return Err(ErrExecutionLifecycleLimit);
    }
    if target.progress.pointer == "" {
      return Err(ErrExecutionCorrupt);
    }
    if sizes.target > policy.maxTargetBytes {
      return Err(ErrExecutionLifecycleLimit);
    }
    return Ok(Publish(source, target, target.rollover.value));
  }

  method RolloverSourceCheck(e: Envelope) returns (err: Option<Error>)
    ensures err == RolloverSourceError(e)
  {
    hide BoundaryError;
    if || e.fork.Some? || e.transfer.Some? || (e.terminal.Some? && !e.terminal.value.status.RunCompleted?)
       || e.revision == MAX_UINT64 {
      return Some(ErrExecutionLifecycleUnsafe);
    }
    err := ValidateLifecycleBoundary(e);
  }

  method RolloverTargetCheck(source: Envelope, target: Envelope) returns (err: Option<Error>)
    ensures err == RolloverTargetError(source, target)
  {
    hide CollectionsValid, Continues;
    if !FreshTarget(source, target) {
      return Some(ErrExecutionRolloverConflict);
    }
    var ok := ValidateCollections(target);
    if !ok {
      return Some(ErrExecutionCorrupt);
    }
    if || target.runMeta.stepCount != 0 || target.runMeta.retryCounts != source.runMeta.retryCounts
       || target.runMeta.budgetCounts != source.runMeta.budgetCounts {
      return Some(ErrExecutionLifecycleUnsafe);
    }
    var limit := target.rollover.value.policy.maxTargetBytes;
    if |target.progress.state| > limit || |target.effects| > limit - |target.progress.state| {
      return Some(ErrExecutionLifecycleLimit);
    }
    return None;
  }

  lemma TargetHasLineage(source: Envelope, target: Envelope)
    requires RolloverTargetError(source, target).None?
    ensures target.rollover.Some?
  {
    hide CollectionsValid;
  }
}
