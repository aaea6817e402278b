/** Creation and transfer provenance: fork and rollover lineage, the anchors a
    store keeps beside the payloads, and the publication of a rollover pair. */
module Lifecycle {
  import opened Basics
  import opened Envelopes
  import C = ChildRecords
  import L = ChildCapacity

  datatype Lease = Lease(executionID: string, owner: string, incarnation: uint64, expiresAt: Time)

  predicate ValidReference(r: Reference) {
    r.executionID != "" && r.revision != 0 && !r.digest.NoSeal?
  }

  // ------------------------------------------------------------------- forks

  predicate ValidFork(f: ForkLineage) {
    && ValidReference(f.source) && ValidDescriptor(f.sourceDescriptor) && ValidDescriptor(f.targetDescriptor)
    && f.targetID != "" && f.targetID != f.source.executionID && f.policyLabel != "" && f.transformLabel != ""
    && f.createdAt != 0 && !f.mode.OtherMode? && (f.mode.ForkLive? ==> f.projectionLabel != "")
  }

  /** Fork lineage is fixed by the first commit. */
  predicate ForkTransition(previous: Option<Envelope>, next: Envelope) {
    && (next.fork.Some? ==> ValidFork(next.fork.value) && next.fork.value.targetID == next.executionID)
    && (previous.Some? ==> previous.value.executionID == next.executionID && previous.value.fork == next.fork)
  }

  predicate ForkAnchored(e: Envelope, anchor: Option<ForkLineage>) {
    ForkTransition(Some(e.(fork := anchor)), e)
  }

  // ---------------------------------------------------------------- rollover

  predicate ValidPolicy(p: RolloverPolicy) {
    p.name != "" && p.maxRecords > 0 && p.maxAggregateBytes > 0 && p.maxTargetBytes > 0
  }

  function KeyOf(l: RolloverLineage): RolloverKey {
    RolloverKey(l.source, l.sourceDescriptor, l.targetDescriptor, l.targetID, l.decisionID, l.policy, l.projection)
  }

  predicate ValidLineage(l: RolloverLineage) {
    && ValidReference(l.source) && ValidDescriptor(l.sourceDescriptor) && ValidDescriptor(l.targetDescriptor)
    && ValidPolicy(l.policy) && l.targetID != "" && l.targetID != l.source.executionID && l.decisionID != ""
    && l.projection != "" && TimeValid(l.createdAt) && l.requestDigest == KeyOf(l)
  }

  predicate ValidReceipt(r: RolloverReceipt) {
    && ValidLineage(r.lineage) && ValidReference(r.target) && r.target.executionID == r.lineage.targetID
    && r.target.revision == 1 && r.lineage.source.revision < MAX_UINT64
    && r.sourceRevision == r.lineage.source.revision + 1
  }

  /** Ordinary writes neither create nor change transfer authority. */
  function RolloverTransitionError(previous: Option<Envelope>, next: Envelope): Option<Error> {
    match previous
    case None => if next.rollover.Some? || next.transfer.Some? then Some(ErrExecutionRolloverConflict) else None
    case Some(p) =>
      if p.transfer.Some? then Some(ErrExecutionTransferred)
      else if p.rollover != next.rollover || next.transfer.Some? then Some(ErrExecutionCorrupt)
      else None
  }

  predicate IncomingAnchored(e: Envelope, incoming: Option<RolloverReceipt>) {
    match incoming
    case None => e.rollover.None?
    case Some(r) =>
      && e.rollover == Some(r.lineage) && ValidReceipt(r) && r.target.executionID == e.executionID
      && (e.revision == r.target.revision ==> e.digest == r.target.digest)
  }

  predicate OutgoingAnchored(e: Envelope, outgoing: Option<RolloverReceipt>) {
    match outgoing
    case None => e.transfer.None?
    case Some(r) =>
      && ValidReceipt(r) && r.lineage.source.executionID == e.executionID
      && if e.revision < r.sourceRevision then
           e.transfer.None? && (e.revision == r.lineage.source.revision ==> e.digest == r.lineage.source.digest)
         else
           && e.transfer == Some(r) && e.revision == r.sourceRevision
           && e.terminal.Some? && e.terminal.value.status.RunTransferred?
  }

  // -------------------------------------------------------- source metadata

  predicate ValidImport(i: ImportProvenance) {
    && i.importerID != "" && i.id != "" && i.revision != 0 && i.format != "" && i.payload != []
    && i.digest == PayloadHash(i.payload)
  }

  predicate ValidTerminal(t: Terminal) {
    match t.status
    case RunTransferred => t.failure.None?
    case RunCompleted => t.failure.None?
    case RunFailed => t.failure.Some?
    case OtherStatus(_) => false
  }

  function MetadataError(e: Envelope): Option<Error> {
    if e.rollover.Some? && (!ValidLineage(e.rollover.value) || e.rollover.value.targetID != e.executionID) then
      Some(ErrExecutionCorrupt)
    else if e.transfer.Some? && !(
              && ValidReceipt(e.transfer.value) && e.transfer.value.lineage.source.executionID == e.executionID
              && e.revision == e.transfer.value.sourceRevision
              && e.terminal.Some? && e.terminal.value.status.RunTransferred?) then Some(ErrExecutionCorrupt)
    else if e.terminal.Some? && e.terminal.value.status.RunTransferred? && e.transfer.None?
    then Some(ErrExecutionCorrupt)
    else if e.fork.Some? && (!ValidFork(e.fork.value) || e.fork.value.targetID != e.executionID) then
      Some(ErrExecutionCorrupt)
    else if e.imported.Some? && !ValidImport(e.imported.value) then Some(ErrExecutionImportInvalid)
    else if e.terminal.Some? && !ValidTerminal(e.terminal.value) then Some(ErrInvalidSnapshot)
    else None
  }

  // -------------------------------------------------------- safe boundaries

  predicate JournalSettled(e: Envelope) {
    forall k :: k in e.journal ==>
      && (e.journal[k].state.Completed? || e.journal[k].state.Failed?)
      && (e.terminal.None? ==> e.journal[k].activation != e.activation)
  }

  predicate ChildAccounted(g: C.ChildGroup, c: C.ChildRecord) {
    && C.Settled(c)
    && (c.spec.allocation != map[] ==>
          c.spec.id in g.budgetReturns && g.budgetReturns[c.spec.id].childRevision == c.revision)
  }

  predicate ChildrenSettled(e: Envelope) {
    forall k :: k in e.children ==>
      && C.Merged(e.children[k]) && (e.terminal.None? ==> e.children[k].activation != e.activation)
      && forall i :: 0 <= i < |e.children[k].children| ==> ChildAccounted(e.children[k], e.children[k].children[i])
  }

  /** Nothing the runtime owns depends on the envelope any more. */
  ghost function BoundaryError(e: Envelope): Option<Error> {
    if !IntegrityHolds(e, e.executionID, e.revision) then Some(ErrExecutionCorrupt)
    else if !ValidDescriptor(e.descriptor) then Some(ErrExecutionIncompatible)
    else if MetadataError(e).Some? then MetadataError(e)
    else if !CollectionsValid(e) then Some(ErrExecutionCorrupt)
    else if e.terminal.None? && e.runMeta.stepCount <= 0 then Some(ErrExecutionLifecycleUnsafe)
    else if !JournalSettled(e) || !ChildrenSettled(e) then Some(ErrExecutionLifecycleUnsafe)
    else if exists k :: k in e.waits && e.waits[k].state.Armed? then Some(ErrExecutionLifecycleUnsafe)
    else if e.progress.childCursors != map[] then Some(ErrExecutionLifecycleUnsafe)
    else None
  }

  ghost function RolloverSourceError(e: Envelope): Option<Error> {
    if || e.fork.Some? || e.transfer.Some? || (e.terminal.Some? && !e.terminal.value.status.RunCompleted?)
       || e.revision == MAX_UINT64 then Some(ErrExecutionLifecycleUnsafe)
    else BoundaryError(e)
  }

  predicate Continues(source: Envelope, target: Envelope, l: RolloverLineage) {
    && ValidLineage(l) && l.targetID == target.executionID
    && l.source == Reference(source.executionID, source.revision, source.digest)
    && l.sourceDescriptor == source.descriptor && l.targetDescriptor == target.descriptor
  }

  predicate FreshTarget(source: Envelope, target: Envelope) {
    && target.rollover.Some? && Continues(source, target, target.rollover.value)
    && target.revision == 0 && target.digest.NoSeal? && target.activation == 1
    && target.transfer.None? && target.terminal.None? && target.fork.None? && target.imported.None?
    && target.migration.None? && target.journal == map[] && target.children == map[] && target.waits == map[]
    && target.progress.childCursors == map[] && target.progress.journalRefs == map[]
    && target.progress.groupRefs == map[]
  }

  ghost function RolloverTargetError(source: Envelope, target: Envelope): Option<Error> {
    if !FreshTarget(source, target) then Some(ErrExecutionRolloverConflict)
    else if !CollectionsValid(target) then Some(ErrExecutionCorrupt)
    else if || target.runMeta.stepCount != 0 || target.runMeta.retryCounts != source.runMeta.retryCounts
            || target.runMeta.budgetCounts != source.runMeta.budgetCounts then Some(ErrExecutionLifecycleUnsafe)
    else if |target.progress.state| + |target.effects| > target.rollover.value.policy.maxTargetBytes then
      Some(ErrExecutionLifecycleLimit)
    else None
  }

  // ----------------------------------------------------------- record limit

  /** Children of all groups of an aggregate. */
  ghost function ChildCount(groups: L.Groups): nat
    decreases |groups|
  {
    if groups == map[] then 0 else
      var k :| k in groups;
      assert |groups.Keys - {k}| < |groups.Keys|;
      |groups[k].children| + ChildCount(groups - {k})
  }

  lemma ChildCountWithout(groups: L.Groups, k: Digest)
    requires k in groups
    ensures ChildCount(groups) == |groups[k].children| + ChildCount(groups - {k})
    decreases |groups|
  {
    var j :| j in groups && ChildCount(groups) == |groups[j].children| + ChildCount(groups - {j});
    if j != k {
      assert |groups.Keys - {j}| < |groups.Keys| && |groups.Keys - {k}| < |groups.Keys|;
      ChildCountWithout(groups - {j}, k);
      ChildCountWithout(groups - {k}, j);
      assert groups - {j} - {k} == groups - {k} - {j};
    }
  }

  ghost predicate WithinRecordLimit(e: Envelope, policy: RolloverPolicy) {
    |e.journal| + ChildCount(e.children) + |e.waits| <= policy.maxRecords
  }

  /** The source subtracts collection by collection and stops at the first
      overdraft; the order of the groups does not matter. */
  method ValidateRecordLimit(e: Envelope, policy: RolloverPolicy) returns (ok: bool)
    ensures ok <==> WithinRecordLimit(e, policy)
  {
    var remaining := policy.maxRecords - |e.journal|;
    if remaining < 0 {
      return false;
    }
    var todo := e.children;
    while todo != map[]
      invariant remaining >= 0 && todo.Keys <= e.children.Keys
      invariant remaining - ChildCount(todo) == policy.maxRecords - |e.journal| - ChildCount(e.children)
      decreases |todo|
    {
      var k :| k in todo;
      ChildCountWithout(todo, k);
      if |todo[k].children| > remaining {
        return false;
      }
      remaining := remaining - |todo[k].children|;
      assert |todo.Keys - {k}| < |todo.Keys|;
      todo := todo - {k};
    }
    return |e.waits| <= remaining;
  }

  // ------------------------------------------------------------ publication

  datatype Publication = Publication(transferred: Envelope, created: Envelope, receipt: RolloverReceipt)

  /** Encoded sizes of the source and of the sealed target. */
  datatype Sizes = Sizes(source: nat, target: nat)

  /** Both halves: the fresh target and the source that ends in its transfer. */
  function Publish(source: Envelope, target: Envelope, lineage: RolloverLineage): Publication {
    var created := Sealed(target, 1);
    var receipt := RolloverReceipt(
      lineage, Reference(target.executionID, 1, created.digest), Increment(source.revision));
    var transferred := source.(transfer := Some(receipt), terminal := Some(Terminal(RunTransferred, "rollover", None)));
    Publication(Sealed(transferred, Increment(source.revision)), created, receipt)
  }

  /** Validates and seals the pair; the store commits both or neither. */
  ghost function PreparePublication(source: Envelope, target: Envelope, lease: Lease, sizes: Sizes)
    : Result<Publication>
  {
    if source.executionID != lease.executionID || lease.incarnation == 0 || lease.owner == "" then Err(ErrLeaseLost)
    else if RolloverSourceError(source).Some? then Err(RolloverSourceError(source).value)
    else if RolloverTargetError(source, target).Some? then Err(RolloverTargetError(source, target).value)
    else if sizes.source > target.rollover.value.policy.maxAggregateBytes then Err(ErrExecutionLifecycleLimit)
    else if !WithinRecordLimit(source, target.rollover.value.policy) then Err(ErrExecutionLifecycleLimit)
    else if target.progress.pointer == "" then Err(ErrExecutionCorrupt)
    else if sizes.target > target.rollover.value.policy.maxTargetBytes then Err(ErrExecutionLifecycleLimit)
    else Ok(Publish(source, target, target.rollover.value))
  }

  /** What a publication may rely on. */
  lemma PublicationFacts(source: Envelope, target: Envelope, lease: Lease, sizes: Sizes)
    requires PreparePublication(source, target, lease, sizes).Ok?
    ensures source.executionID == lease.executionID && FreshTarget(source, target) && target.progress.pointer != ""
    ensures PreparePublication(source, target, lease, sizes) == Ok(Publish(source, target, target.rollover.value))
    ensures source.fork.None? && source.transfer.None? && source.revision < MAX_UINT64
    ensures source.terminal.Some? ==> source.terminal.value.status.RunCompleted?
    ensures BoundaryError(source).None? && CollectionsValid(target)
    ensures target.runMeta.stepCount == 0 && target.runMeta.retryCounts == source.runMeta.retryCounts
    ensures target.runMeta.budgetCounts == source.runMeta.budgetCounts
  {
    hide CollectionsValid;
  }
}
