/** The execution aggregate and the loader's validator of its collections. */
module Envelopes {
  import opened Basics
  import A = ActivityRecords
  import C = ChildRecords
  import G = ChildGroups
  import L = ChildCapacity
  import W = WaitArbitration

  datatype Descriptor = Descriptor(
    graphID: string, graphRevision: string, stateCodec: string, effectsCodec: string, executionContract: string,
    replayLabel: string, replaySafe: bool)

  /** `journalRefs` and `groupRefs` bind logical keys of the current activation
      to the identities they had before a migration moved the cursor. */
  datatype Progress = Progress(
    state: Bytes, pointer: string, childCursors: map<string, string>,
    journalRefs: map<string, Digest>, groupRefs: map<string, Digest>)

  datatype RunStatus = RunCompleted | RunFailed | RunTransferred | OtherStatus(name: string)

  datatype Terminal = Terminal(status: RunStatus, reason: string, failure: Option<string>)

  datatype RunMeta = RunMeta(stepCount: int, retryCounts: map<string, int>, budgetCounts: map<string, int>)

  /** The integrity digest of an envelope, as the sealed body itself. */
  datatype Seal = NoSeal | SealOf(body: Envelope) | OtherSeal(text: string)

  datatype Reference = Reference(executionID: string, revision: uint64, digest: Seal)

  datatype MigrationProvenance = MigrationProvenance(sourceRevision: uint64, sourceDigest: Seal, chain: seq<string>)

  datatype ImportProvenance = ImportProvenance(
    importerID: string, id: string, revision: uint64, format: string, digest: Digest, payload: Bytes)

  datatype RolloverPolicy = RolloverPolicy(name: string, maxRecords: int, maxAggregateBytes: int, maxTargetBytes: int)

  /** The hashed part of a rollover request. */
  datatype RolloverKey = RolloverKey(
    source: Reference, sourceDescriptor: Descriptor, targetDescriptor: Descriptor, targetID: string,
    decisionID: string, policy: RolloverPolicy, projection: string)

  datatype RolloverLineage = RolloverLineage(
    source: Reference, sourceDescriptor: Descriptor, targetDescriptor: Descriptor, targetID: string,
    decisionID: string, policy: RolloverPolicy, projection: string, requestDigest: RolloverKey, createdAt: Time)

  datatype RolloverReceipt = RolloverReceipt(lineage: RolloverLineage, target: Reference, sourceRevision: uint64)

  datatype ForkMode = ForkFake | ForkLive | OtherMode(name: string)

  datatype ForkLineage = ForkLineage(
    source: Reference, sourceDescriptor: Descriptor, targetDescriptor: Descriptor, targetID: string,
    mode: ForkMode, policyLabel: string, transformLabel: string, projectionLabel: string, createdAt: Time)

  datatype Envelope = Envelope(
    executionID: string, revision: uint64, digest: Seal, descriptor: Descriptor, profile: Option<W.WaitProfile>,
    progress: Progress, effects: Bytes,
    journal: map<Digest, A.ActivityRecord>, children: map<Digest, C.ChildGroup>, waits: map<Digest, W.WaitRecord>,
    runMeta: RunMeta, activation: uint64, terminal: Option<Terminal>,
    migration: Option<MigrationProvenance>, imported: Option<ImportProvenance>,
    rollover: Option<RolloverLineage>, transfer: Option<RolloverReceipt>, fork: Option<ForkLineage>)

  // -------------------------------------------------------------- integrity

  predicate ValidDescriptor(d: Descriptor) {
    && d.graphID != "" && d.graphRevision != "" && d.stateCodec != "" && d.effectsCodec != ""
    && d.executionContract != "" && d.replayLabel != "" && d.replaySafe
  }

  function EnvelopeDigest(e: Envelope): Seal {
    SealOf(e.(digest := NoSeal))
  }

  /** The envelope storage writes: it assigns the revision, then the seal. */
  function Sealed(target: Envelope, revision: uint64): Envelope {
    var numbered := target.(revision := revision);
    numbered.(digest := EnvelopeDigest(numbered))
  }

  predicate IntegrityHolds(e: Envelope, id: string, revision: uint64) {
    && id != "" && revision != 0 && e.executionID == id && e.revision == revision
    && e.progress.pointer != "" && e.digest == EnvelopeDigest(e)
  }

  // ---------------------------------------------------------------- journal

  function BoundActivity(e: Envelope, key: string): Digest {
    if key in e.progress.journalRefs then e.progress.journalRefs[key]
    else ActivityAddress(e.executionID, e.progress.pointer, e.activation, key)
  }

  predicate FakeFork(e: Envelope) {
    e.fork.Some? && e.fork.value.mode.ForkFake?
  }

  /** The record belongs to the execution, wherever its cursor is. */
  predicate RecordHeld(e: Envelope, r: A.ActivityRecord) {
    && (r.origin.Simulated? ==> FakeFork(e)) && (r.origin.Live? ==> !FakeFork(e))
    && r.executionID == e.executionID && r.activation <= e.activation
    && (forall i :: 0 <= i < |r.resolutions| ==> r.resolutions[i].sourceRevision < e.revision)
  }

  predicate CurrentRecord(e: Envelope, r: A.ActivityRecord) {
    r.activation == e.activation && BoundActivity(e, r.key) == r.identity
  }

  predicate RecordAt(e: Envelope, r: A.ActivityRecord) {
    RecordHeld(e, r) && (A.Unresolved(r.state) ==> CurrentRecord(e, r))
  }

  predicate JournalRefsValid(e: Envelope) {
    forall key :: key in e.progress.journalRefs ==>
      && e.progress.journalRefs[key] in e.journal
      && e.journal[e.progress.journalRefs[key]].key == key
      && e.journal[e.progress.journalRefs[key]].activation == e.activation
  }

  predicate JournalValid(e: Envelope) {
    && (forall k :: k in e.journal ==> k == e.journal[k].identity && A.ValidRecord(e.journal[k]))
    && (forall k :: k in e.journal ==> RecordAt(e, e.journal[k]))
    && JournalRefsValid(e)
  }

  // --------------------------------------------------------------- children

  function BoundGroup(e: Envelope, key: string): Digest {
    if key in e.progress.groupRefs then e.progress.groupRefs[key]
    else ChildAddress(e.executionID, e.progress.pointer, e.activation, key, "")
  }

  predicate CurrentGroup(e: Envelope, g: C.ChildGroup) {
    && g.parentID == e.executionID && g.activation == e.activation
    && BoundGroup(e, g.plan.key) == C.GroupIdentity(g)
  }

  predicate GroupHeld(e: Envelope, g: C.ChildGroup) {
    g.parentID == e.executionID && 0 < g.activation <= e.activation
  }

  predicate GroupAt(e: Envelope, g: C.ChildGroup) {
    GroupHeld(e, g) && (!C.Merged(g) ==> CurrentGroup(e, g))
  }

  predicate GroupRefsValid(e: Envelope) {
    forall key :: key in e.progress.groupRefs ==>
      && e.progress.groupRefs[key] in e.children
      && e.children[e.progress.groupRefs[key]].plan.key == key
      && e.children[e.progress.groupRefs[key]].activation == e.activation
  }

  predicate HasOutcome(groups: L.Groups, k: Digest, i: int, id: string) {
    && k in groups && 0 <= i < |groups[k].children| && groups[k].children[i].outcomeResolution.Some?
    && groups[k].children[i].outcomeResolution.value.decisionID == id
  }

  /** No outcome decision ID is used twice in the aggregate. */
  ghost predicate OutcomesDistinct(groups: L.Groups) {
    forall k, i, l, j, id :: HasOutcome(groups, k, i, id) && HasOutcome(groups, l, j, id) ==> k == l && i == j
  }

  ghost predicate ChildrenValid(e: Envelope) {
    && OutcomesDistinct(e.children)
    && (forall k :: k in e.children ==> k == C.GroupIdentity(e.children[k]) && G.GroupInv(e.children[k], e.revision))
    && (forall k :: k in e.children ==> GroupAt(e, e.children[k]))
    && GroupRefsValid(e)
    && L.LedgerHolds(e.children)
  }

  // ------------------------------------------------------------------ waits

  const CANCELED_REASON := "durable_wait_canceled"

  predicate CanceledTerminal(e: Envelope, r: W.WaitRecord) {
    r.state.Canceled? ==>
      && r.cancellation.Some? && e.terminal.Some? && e.terminal.value.status.RunFailed?
      && e.terminal.value.reason == CANCELED_REASON
      && e.terminal.value.failure == Some(CANCELED_REASON + ": " + r.cancellation.value.reason)
      && e.activation == r.activation && e.progress.pointer == r.node
  }

  predicate WaitAt(e: Envelope, r: W.WaitRecord) {
    && (e.profile.Some? ==> r.profile == e.profile.value)
    && r.executionID == e.executionID && r.activation <= e.activation
    && (r.state.Armed? ==> e.terminal.None? && r.activation == e.activation && r.node == e.progress.pointer)
    && CanceledTerminal(e, r)
  }

  predicate OneArmed(waits: map<Digest, W.WaitRecord>) {
    forall j, k :: j in waits && k in waits && waits[j].state.Armed? && waits[k].state.Armed? ==> j == k
  }

  predicate WaitsValid(e: Envelope) {
    && (forall k :: k in e.waits ==> k == W.WaitIdentity(e.waits[k]) && W.ValidWait(e.waits[k], e.revision))
    && (forall k :: k in e.waits ==> WaitAt(e, e.waits[k]))
    && OneArmed(e.waits)
  }

  /** What every load demands of the three collections. */
  ghost predicate CollectionsValid(e: Envelope) {
    && (e.profile.Some? ==> W.ValidProfile(e.profile.value))
    && JournalValid(e) && ChildrenValid(e) && WaitsValid(e)
  }

  // ------------------------------------------- validating loops of the source

  /** One pass over the waits in map order with a counter of armed waits. */
  method ValidateWaits(e: Envelope) returns (ok: bool)
    ensures ok <==> WaitsValid(e)
  {
    hide WaitAt;
    hide W.WaitIdentity, W.ValidWait;
    var armed := 0;
    ghost var holder: Option<Digest> := None;
    var todo := e.waits.Keys;
    while todo != {}
      invariant todo <= e.waits.Keys && 0 <= armed <= 1 && (armed == 0 <==> holder.None?)
      invariant forall k :: k in e.waits && k !in todo ==>
        k == W.WaitIdentity(e.waits[k]) && W.ValidWait(e.waits[k], e.revision) && WaitAt(e, e.waits[k])
      invariant forall k :: k in e.waits && k !in todo && e.waits[k].state.Armed? ==> holder == Some(k)
      invariant holder.Some? ==> holder.value in e.waits && holder.value !in todo && e.waits[holder.value].state.Armed?
      decreases todo
    {
      var k :| k in todo;
      var r := e.waits[k];
      if k != W.WaitIdentity(r) || !W.ValidWait(r, e.revision) || !WaitAt(e, r) {
        return false;
      }
      if r.state.Armed? {
        armed := armed + 1;
        if armed > 1 {
          return false;
        }
        holder := Some(k);
      }
      todo := todo - {k};
    }
    return true;
  }

  ghost predicate OutcomeSeen(groups: L.Groups, todo: set<Digest>, k: Digest, n: int, id: string) {
    exists l, j :: HasOutcome(groups, l, j, id) && (l !in todo || (l == k && j < n))
  }

  /** The seen-set pass over all children of all groups. */
  method ValidateOutcomeIDs(groups: L.Groups) returns (ok: bool)
    ensures ok <==> OutcomesDistinct(groups)
  {
    var seen: set<string> := {};
    var todo := groups.Keys;
    while todo != {}
      invariant todo <= groups.Keys
      invariant forall id :: id in seen <==> exists l, j :: HasOutcome(groups, l, j, id) && l !in todo
      invariant forall k, i, l, j, id ::
        HasOutcome(groups, k, i, id) && HasOutcome(groups, l, j, id) && k !in todo && l !in todo ==> k == l && i == j
      decreases todo
    {
      var k :| k in todo;
      var children := groups[k].children;
      for n := 0 to |children|
        invariant forall id :: id in seen <==> OutcomeSeen(groups, todo, k, n, id)
        invariant forall a, i, b, j, id :: (
          (&& HasOutcome(groups, a, i, id) && HasOutcome(groups, b, j, id)
           && (a !in todo || (a == k && i < n)) && (b !in todo || (b == k && j < n))) ==> a == b && i == j)
      {
        if children[n].outcomeResolution.Some? {
          var id := children[n].outcomeResolution.value.decisionID;
          assert HasOutcome(groups, k, n, id);
          if id in seen {
            return false;
          }
          seen := seen + {id};
        }
      }
      todo := todo - {k};
    }
    return true;
  }
}
