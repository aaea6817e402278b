/** Structured children as writes to the aggregate: the node's own launches,
    joins and returns, and the operator's decisions. */
module ChildOps {
  import opened Basics
  import opened Envelopes
  import opened AggregateInvariant
  import C = ChildRecords
  import G = ChildGroups
  import H = ChildSteps
  import L = ChildCapacity
  import K = ChildLedger

  /** Where an operator's decision points: the original address of a group. */
  datatype GroupAddress = GroupAddress(node: string, activation: uint64, key: string)

  function Changed(e: Envelope, r: Result<C.ChildGroup>): Step {
    match r
    case Err(error) => Refused(error)
    case Ok(h) => Write(WithGroup(e, h))
  }

  /** A result that may be the replay of a recorded decision. */
  function Replayed(e: Envelope, r: Result<(C.ChildGroup, bool)>): Step {
    match r
    case Err(error) => Refused(error)
    case Ok(x) => if x.1 then Unchanged else Write(WithGroup(e, x.0))
  }

  /** The plan is fixed before any launch; a repeated call replays it. Which of
      the planner's errors a bad plan gets is for PlanChildGroup to say. */
  ghost function Prepare(e: Envelope, plan: C.ChildGroupPlan, available: C.Units): Step {
    var id := BoundGroup(e, plan.key);
    if id in e.children then
      if e.children[id].capacity != available then Refused(ErrBudgetExceeded)
      else if SortedPlan(e.children[id].plan) != SortedPlan(plan) then Refused(ErrChildInvalid)
      else Unchanged
    else if !C.Plannable(e.executionID, e.progress.pointer, e.activation, plan, available) then Refused(ErrChildInvalid)
    else
      var g := C.PlannedGroup(e.executionID, e.progress.pointer, e.activation, plan, available);
      if !L.LedgerHolds(e.children[id := g]) then Refused(ErrBudgetExceeded)
      else Write(e.(children := e.children[id := g]))
  }

  function SortedPlan(plan: C.ChildGroupPlan): C.ChildGroupPlan {
    plan.(children := C.SortSpecs(plan.children))
  }

  function Queue(e: Envelope, k: Digest, childID: string): Step {
    if k !in e.children then Refused(ErrChildInvalid) else Changed(e, H.QueueChild(e.children[k], childID))
  }

  function Run(e: Envelope, k: Digest, childID: string, incarnation: uint64): Step {
    if k !in e.children then Refused(ErrChildInvalid) else Changed(e, H.RunChild(e.children[k], childID, incarnation))
  }

  function Finish(
    e: Envelope, k: Digest, invocation: H.ChildInvocation, result: C.ChildResult, dispatchError: Option<string>,
    incarnation: uint64): Step
  {
    if k !in e.children then Refused(ErrChildInvalid)
    else Changed(e, H.FinishChild(e.children[k], invocation, result, dispatchError, incarnation))
  }

  /** A takeover turns the launches of earlier incarnations into unknown ones. */
  function Recover(e: Envelope, k: Digest, incarnation: uint64): Step {
    if k !in e.children then Unchanged
    else match H.RecoverError(e.children[k].children, incarnation)
      case Some(error) => Refused(error)
      case None =>
        if H.NeedsRecovery(e.children[k]) then Write(WithGroup(e, H.RecoverGroup(e.children[k]))) else Unchanged
  }

  /** The caller's group is an exact assertion about the stored one. */
  predicate Asserted(e: Envelope, expected: C.ChildGroup) {
    && C.GroupIdentity(expected) in e.children && e.children[C.GroupIdentity(expected)] == expected
    && CurrentGroup(e, expected)
  }

  function StampOf(e: Envelope, incarnation: uint64, at: Time): H.Stamp {
    H.Stamp(e.revision, incarnation, at)
  }

  function Cancel(e: Envelope, expected: C.ChildGroup, q: H.CancelRequest, incarnation: uint64, at: Time): Step {
    if q.id == "" || q.reason == "" then Refused(ErrChildInvalid)
    else if !Asserted(e, expected) then Refused(ErrChildRevision)
    else Replayed(e, H.RequestCancellation(expected, q, StampOf(e, incarnation, at)))
  }

  function Join(e: Envelope, expected: C.ChildGroup, merged: Bytes): Step {
    if !Asserted(e, expected) then Refused(ErrChildRevision)
    else if C.Merged(expected) then Unchanged
    else Changed(e, H.JoinChildren(expected, merged))
  }

  function Return(e: Envelope, expected: C.ChildGroup, claim: H.BudgetClaim, incarnation: uint64, at: Time): Step {
    if || claim.childID == "" || claim.childRevision == 0 || claim.decisionID == "" || claim.reason == ""
       || claim.evidence == ""
    then Refused(ErrChildInvalid)
    else if !Asserted(e, expected) then Refused(ErrChildRevision)
    else Replayed(e, H.ReturnUnits(expected, claim, StampOf(e, incarnation, at)))
  }

  /** The admission of an operator's decision: the exact current revision of an
      unfinished run, and a group that is still current. */
  function Admit(e: Envelope, tokenRevision: uint64, address: GroupAddress): Result<C.ChildGroup> {
    var k := ChildAddress(e.executionID, address.node, address.activation, address.key, "");
    if tokenRevision == 0 || tokenRevision != e.revision then Err(ErrConcurrencyConflict)
    else if e.terminal.Some? || k !in e.children || !CurrentGroup(e, e.children[k]) then Err(ErrChildRevision)
    else Ok(e.children[k])
  }

  /** A decision that names no child at all. */
  predicate Unaddressed(address: GroupAddress, childID: string, executionID: Digest, childRevision: uint64) {
    || address.node == "" || address.activation == 0 || address.key == "" || childID == ""
    || executionID == OtherText("") || childRevision == 0
  }

  function Confirm(
    e: Envelope, tokenRevision: uint64, address: GroupAddress, q: H.CancelConfirmation, incarnation: uint64, at: Time)
    : Step
  {
    if || Unaddressed(address, q.childID, q.executionID, q.childRevision)
       || q.requestID == "" || q.decisionID == "" || q.reason == "" || q.evidence == "" then Refused(ErrChildInvalid)
    else match Admit(e, tokenRevision, address)
      case Err(error) => Refused(error)
      case Ok(g) => Changed(e, H.ConfirmCancellation(g, q, StampOf(e, incarnation, at)))
  }

  function ResolveWait(
    e: Envelope, tokenRevision: uint64, address: GroupAddress, q: H.WaitResolution, incarnation: uint64, at: Time): Step
  {
    if || Unaddressed(address, q.childID, q.executionID, q.childRevision)
       || q.waitID == "" || q.decisionID == "" || q.result.waitID != ""
       || !(q.result.state.Completed? || q.result.state.Failed?) then Refused(ErrChildInvalid)
    else match Admit(e, tokenRevision, address)
      case Err(error) => Refused(error)
      case Ok(g) => Changed(e, H.ResolveWait(g, q, StampOf(e, incarnation, at)))
  }

  ghost predicate OutcomeUsed(e: Envelope, id: string) {
    exists k, i :: HasOutcome(e.children, k, i, id)
  }

  ghost predicate OutcomeRecorded(e: Envelope, q: C.OutcomeRequest) {
    exists k, i :: HasOutcome(e.children, k, i, q.decisionID) && (
      && e.children[k].children[i].executionID == q.executionID
      && e.children[k].children[i].outcomeResolution.value.requestDigest == q)
  }

  /** A decision ID is looked up in the whole aggregate before it is applied. */
  ghost function ResolveOutcome(
    e: Envelope, tokenRevision: uint64, q: C.OutcomeRequest, incarnation: uint64, at: Time): Step
  {
    if !G.ValidOutcomeRequest(q) then Refused(ErrChildInvalid)
    else match Admit(e, tokenRevision, GroupAddress(q.node, q.activation, q.groupKey))
      case Err(error) => Refused(error)
      case Ok(g) =>
        if g.mergedIDs != [] || g.plan.title != q.groupTitle then Refused(ErrChildRevision)
        else if at == 0 || incarnation == 0 then Refused(ErrExecutionCapability)
        else if OutcomeUsed(e, q.decisionID) then
          if OutcomeRecorded(e, q) then Unchanged else Refused(ErrChildRevision)
        else Changed(e, H.ResolveOutcome(g, q, StampOf(e, incarnation, at)))
  }

  // ------------------------------------------------------------- soundness

  /** What the aggregate knows about one group. */
  lemma GroupFacts(e: Envelope, k: Digest)
    requires k in e.children && EnvInv(e)
    ensures G.GroupInv(e.children[k], e.revision) && k == C.GroupIdentity(e.children[k]) && GroupAt(e, e.children[k])
    ensures e.revision != 0 && L.LedgerHolds(e.children) && OutcomesDistinct(e.children)
  {
    hide JournalValid, WaitsValid, RecordsInductive, G.GroupInv, L.LedgerHolds, OutcomesDistinct, GroupAt;
  }

  /** A changed group that extends the stored one may be written. */
  lemma ChangeSound(e: Envelope, k: Digest, h: C.ChildGroup)
    requires e.revision < MAX_UINT64 && k in e.children
    requires H.GroupExtends(e.children[k], h) && G.GroupInv(h, e.revision + 1) && CurrentGroup(e, e.children[k])
    requires L.LedgerHolds(e.children[k := h]) && OutcomesDistinct(e.children[k := h])
    requires EnvInv(e)
    ensures Sound(e, WithGroup(e, h))
  {
    hide EnvInv, Sound, G.GroupInv, L.LedgerHolds, OutcomesDistinct;
    GroupFacts(e, k);
    IdentityKept(e, e.children[k], h);
    hide H.GroupExtends, CurrentGroup;
    assert GroupFits(e, h, Increment(e.revision));
    hide GroupFits;
    GroupWritten(e, h);
  }

  lemma IdentityKept(e: Envelope, g: C.ChildGroup, h: C.ChildGroup)
    requires H.GroupExtends(g, h)
    ensures C.GroupIdentity(h) == C.GroupIdentity(g) && (CurrentGroup(e, g) ==> CurrentGroup(e, h))
  {
    hide H.ChildExtends;
  }

  /** Changes that touch neither the ledger nor the outcome decisions. */
  lemma PlainChangeSound(e: Envelope, k: Digest, h: C.ChildGroup)
    requires e.revision < MAX_UINT64 && k in e.children
    requires H.GroupExtends(e.children[k], h) && G.GroupInv(h, e.revision + 1) && CurrentGroup(e, e.children[k])
    requires H.SameLedger(e.children[k], h) && H.SameOutcomes(e.children[k], h)
    requires EnvInv(e)
    ensures Sound(e, WithGroup(e, h))
  {
    hide EnvInv, Sound, G.GroupInv, L.LedgerHolds, OutcomesDistinct, H.GroupExtends, CurrentGroup;
    hide H.SameLedger, H.SameOutcomes;
    GroupFacts(e, k);
    K.LedgerUntouched(e.children, k, h);
    OutcomesKept(e.children, k, h);
    ChangeSound(e, k, h);
  }

  lemma OutcomesKept(groups: L.Groups, k: Digest, h: C.ChildGroup)
    requires OutcomesDistinct(groups) && k in groups && H.SameOutcomes(groups[k], h)
    ensures OutcomesDistinct(groups[k := h])
  {
    var next := groups[k := h];
    forall a, i, b, j, id | HasOutcome(next, a, i, id) && HasOutcome(next, b, j, id) ensures a == b && i == j {
      assert HasOutcome(groups, a, i, id) && HasOutcome(groups, b, j, id);
    }
  }

  /** A group without outcomes brings no decision ID along. */
  lemma OutcomesWithNew(groups: L.Groups, k: Digest, h: C.ChildGroup)
    requires OutcomesDistinct(groups) && k !in groups
    requires forall i :: 0 <= i < |h.children| ==> h.children[i].outcomeResolution.None?
    ensures OutcomesDistinct(groups[k := h])
  {
    var next := groups[k := h];
    forall a, i, b, j, id | HasOutcome(next, a, i, id) && HasOutcome(next, b, j, id) ensures a == b && i == j {
      assert HasOutcome(groups, a, i, id) && HasOutcome(groups, b, j, id);
    }
  }

  lemma OutcomeAdded(groups: L.Groups, k: Digest, n: nat, c: C.ChildRecord)
    requires k in groups && n < |groups[k].children| && c.outcomeResolution.Some?
    requires OutcomesDistinct(groups) && groups[k].children[n].outcomeResolution.None?
    requires forall l, j :: !HasOutcome(groups, l, j, c.outcomeResolution.value.decisionID)
    ensures OutcomesDistinct(groups[k := H.WithChild(groups[k], n, c)])
  {
    var next := groups[k := H.WithChild(groups[k], n, c)];
    forall a, i, b, j, id | HasOutcome(next, a, i, id) && HasOutcome(next, b, j, id) ensures a == b && i == j {
      if a == k && i == n {
        assert (b == k && j == n) || HasOutcome(groups, b, j, id);
      } else {
        assert HasOutcome(groups, a, i, id);
        assert (b == k && j == n) || HasOutcome(groups, b, j, id);
      }
    }
  }

  lemma PrepareSound(e: Envelope, plan: C.ChildGroupPlan, available: C.Units)
    requires EnvInv(e) && e.revision < MAX_UINT64
    ensures StepSound(e, Prepare(e, plan, available))
  {
    hide EnvInv, Sound, L.LedgerHolds, OutcomesDistinct, G.GroupInv, C.Plannable, H.GroupExtends;
    if Prepare(e, plan, available).Write? {
      var g := C.PlannedGroup(e.executionID, e.progress.pointer, e.activation, plan, available);
      PlanFacts(e);
      G.PlannedGroupValid(e.executionID, e.progress.pointer, e.activation, plan, available, Increment(e.revision));
      OutcomesWithNew(e.children, C.GroupIdentity(g), g);
      assert GroupFits(e, g, Increment(e.revision));
      hide GroupFits;
      GroupWritten(e, g);
    }
  }

  lemma PlanFacts(e: Envelope)
    requires EnvInv(e)
    ensures GroupRefsValid(e) && OutcomesDistinct(e.children)
  {
    hide JournalValid, WaitsValid, RecordsInductive, G.GroupInv, L.LedgerHolds, OutcomesDistinct, GroupAt;
  }

  /** Launch, finish and recovery change an unsettled child, so their group is
      not merged yet and therefore current. */
  lemma UnsettledFacts(e: Envelope, k: Digest, i: nat)
    requires k in e.children && i < |e.children[k].children| && !C.Settled(e.children[k].children[i]) && EnvInv(e)
    ensures CurrentGroup(e, e.children[k]) && e.children[k].mergedIDs == []
  {
    hide EnvInv, CurrentGroup;
    GroupFacts(e, k);
    MergedIsSettled(e.children[k], i);
  }

  lemma MergedIsSettled(g: C.ChildGroup, i: nat)
    requires i < |g.children| && G.ValidJoin(g) && !C.Settled(g.children[i])
    ensures !C.Merged(g) && g.mergedIDs == []
  {
  }

  lemma QueueSound(e: Envelope, k: Digest, childID: string)
    requires EnvInv(e) && e.revision < MAX_UINT64
    ensures StepSound(e, Queue(e, k, childID))
  {
    hide EnvInv, Sound, G.GroupInv, H.GroupExtends, CurrentGroup, H.SameLedger, H.SameOutcomes;
    if Queue(e, k, childID).Write? {
      GroupFacts(e, k);
      UnsettledFacts(e, k, C.FindChild(e.children[k].children, childID).value);
      H.BeginPreserves(e.children[k], childID, 1, e.revision);
      PlainChangeSound(e, k, H.QueueChild(e.children[k], childID).value);
    }
  }

  lemma RunSound(e: Envelope, k: Digest, childID: string, incarnation: uint64)
    requires EnvInv(e) && e.revision < MAX_UINT64 && incarnation != 0
    ensures StepSound(e, Run(e, k, childID, incarnation))
  {
    hide EnvInv, Sound, G.GroupInv, H.GroupExtends, CurrentGroup, H.SameLedger, H.SameOutcomes;
    if Run(e, k, childID, incarnation).Write? {
      GroupFacts(e, k);
      UnsettledFacts(e, k, C.FindChild(e.children[k].children, childID).value);
      H.BeginPreserves(e.children[k], childID, incarnation, e.revision);
      PlainChangeSound(e, k, H.RunChild(e.children[k], childID, incarnation).value);
    }
  }

  lemma FinishSound(
    e: Envelope, k: Digest, invocation: H.ChildInvocation, result: C.ChildResult, dispatchError: Option<string>,
    incarnation: uint64)
    requires EnvInv(e) && e.revision < MAX_UINT64
    ensures StepSound(e, Finish(e, k, invocation, result, dispatchError, incarnation))
  {
    hide EnvInv, Sound, G.GroupInv, H.GroupExtends, CurrentGroup, H.SameLedger, H.SameOutcomes;
    hide C.ValidChild;
    if Finish(e, k, invocation, result, dispatchError, incarnation).Write? {
      GroupFacts(e, k);
      UnsettledFacts(e, k, C.FindChild(e.children[k].children, invocation.childID).value);
      H.FinishPreserves(e.children[k], invocation, result, dispatchError, incarnation, e.revision);
      PlainChangeSound(e, k, H.FinishChild(e.children[k], invocation, result, dispatchError, incarnation).value);
    }
  }

  lemma RecoverSound(e: Envelope, k: Digest, incarnation: uint64)
    requires EnvInv(e) && e.revision < MAX_UINT64
    ensures StepSound(e, Recover(e, k, incarnation))
  {
    hide EnvInv, Sound, G.GroupInv, H.GroupExtends, CurrentGroup, H.SameLedger, H.SameOutcomes;
    hide H.RecoverError;
    if Recover(e, k, incarnation).Write? {
      var i :| 0 <= i < |e.children[k].children| && e.children[k].children[i].state.Running?;
      GroupFacts(e, k);
      UnsettledFacts(e, k, i);
      H.RecoverPreserves(e.children[k], incarnation, e.revision);
      PlainChangeSound(e, k, H.RecoverGroup(e.children[k]));
    }
  }

  /** An unmerged group of a valid aggregate may be acted on. */
  lemma UnmergedFacts(e: Envelope, k: Digest)
    requires k in e.children && e.children[k].mergedIDs == [] && EnvInv(e)
    ensures CurrentGroup(e, e.children[k])
  {
    hide EnvInv, CurrentGroup;
    GroupFacts(e, k);
    HasChildren(e.children[k], e.revision);
  }

  lemma HasChildren(g: C.ChildGroup, revision: uint64)
    requires G.GroupInv(g, revision)
    ensures g.children != []
  {
    hide G.ValidProvenance, G.ValidBudgetReturns;
    C.SortIsOrdered(g.plan.children);
  }

  lemma CancelSound(e: Envelope, expected: C.ChildGroup, q: H.CancelRequest, incarnation: uint64, at: Time)
    requires EnvInv(e) && e.revision < MAX_UINT64 && incarnation != 0 && at != 0
    ensures StepSound(e, Cancel(e, expected, q, incarnation, at))
  {
    hide EnvInv, Sound, G.GroupInv, H.GroupExtends, CurrentGroup, H.SameLedger, H.SameOutcomes;
    if Cancel(e, expected, q, incarnation, at).Write? {
      var k := C.GroupIdentity(expected);
      GroupFacts(e, k);
      UnmergedFacts(e, k);
      H.CancelPreserves(expected, q, StampOf(e, incarnation, at));
      hide H.RequestCancellation;
      PlainChangeSound(e, k, H.RequestCancellation(expected, q, StampOf(e, incarnation, at)).value.0);
    }
  }

  lemma JoinSound(e: Envelope, expected: C.ChildGroup, merged: Bytes)
    requires EnvInv(e) && e.revision < MAX_UINT64
    ensures StepSound(e, Join(e, expected, merged))
  {
    hide EnvInv, Sound, G.GroupInv, H.GroupExtends, CurrentGroup, H.SameLedger, H.SameOutcomes;
    if Join(e, expected, merged).Write? {
      var k := C.GroupIdentity(expected);
      GroupFacts(e, k);
      NotJoined(expected, e.revision);
      H.JoinPreserves(expected, merged, e.revision);
      hide H.JoinChildren;
      PlainChangeSound(e, k, H.JoinChildren(expected, merged).value);
    }
  }

  lemma NotJoined(g: C.ChildGroup, revision: uint64)
    requires G.GroupInv(g, revision) && !C.Merged(g)
    ensures g.mergedIDs == []
  {
    hide G.ValidProvenance, G.ValidBudgetReturns, C.Plannable, G.ChildAt;
  }

  lemma ReturnSound(e: Envelope, expected: C.ChildGroup, claim: H.BudgetClaim, incarnation: uint64, at: Time)
    requires EnvInv(e) && e.revision < MAX_UINT64 && incarnation != 0 && at != 0
    ensures StepSound(e, Return(e, expected, claim, incarnation, at))
  {
    hide EnvInv, Sound, G.GroupInv, H.GroupExtends, CurrentGroup, H.SameOutcomes;
    hide L.LedgerHolds, OutcomesDistinct, H.ReturnUnits;
    if Return(e, expected, claim, incarnation, at).Write? {
      var k := C.GroupIdentity(expected);
      var stamp := StampOf(e, incarnation, at);
      GroupFacts(e, k);
      H.ReturnPreserves(expected, claim, stamp);
      K.LedgerReturned(e.children, k, claim, stamp, e.revision);
      OutcomesKept(e.children, k, H.ReturnUnits(expected, claim, stamp).value.0);
      ChangeSound(e, k, H.ReturnUnits(expected, claim, stamp).value.0);
    }
  }

  lemma ConfirmSound(
    e: Envelope, tokenRevision: uint64, address: GroupAddress, q: H.CancelConfirmation, incarnation: uint64, at: Time)
    requires EnvInv(e) && e.revision < MAX_UINT64
    ensures StepSound(e, Confirm(e, tokenRevision, address, q, incarnation, at))
  {
    hide EnvInv, Sound, G.GroupInv, H.GroupExtends, CurrentGroup, H.SameLedger, H.SameOutcomes;
    if Confirm(e, tokenRevision, address, q, incarnation, at).Write? {
      var k := ChildAddress(e.executionID, address.node, address.activation, address.key, "");
      GroupFacts(e, k);
      UnmergedFacts(e, k);
      H.ConfirmPreserves(e.children[k], q, StampOf(e, incarnation, at));
      hide H.ConfirmCancellation;
      PlainChangeSound(e, k, H.ConfirmCancellation(e.children[k], q, StampOf(e, incarnation, at)).value);
    }
  }

  lemma ResolveWaitSound(
    e: Envelope, tokenRevision: uint64, address: GroupAddress, q: H.WaitResolution, incarnation: uint64, at: Time)
    requires EnvInv(e) && e.revision < MAX_UINT64
    ensures StepSound(e, ResolveWait(e, tokenRevision, address, q, incarnation, at))
  {
    hide EnvInv, Sound, G.GroupInv, H.GroupExtends, CurrentGroup, H.SameLedger, H.SameOutcomes;
    if ResolveWait(e, tokenRevision, address, q, incarnation, at).Write? {
      var k := ChildAddress(e.executionID, address.node, address.activation, address.key, "");
      GroupFacts(e, k);
      UnmergedFacts(e, k);
      H.ResolveWaitPreserves(e.children[k], q, StampOf(e, incarnation, at));
      hide H.ResolveWait;
      PlainChangeSound(e, k, H.ResolveWait(e.children[k], q, StampOf(e, incarnation, at)).value);
    }
  }

  lemma ResolveOutcomeSound(e: Envelope, tokenRevision: uint64, q: C.OutcomeRequest, incarnation: uint64, at: Time)
    requires EnvInv(e) && e.revision < MAX_UINT64
    ensures StepSound(e, ResolveOutcome(e, tokenRevision, q, incarnation, at))
  {
    hide EnvInv, Sound, G.GroupInv, H.GroupExtends, CurrentGroup, H.SameLedger, G.ValidOutcomeRequest;
    hide L.LedgerHolds, OutcomesDistinct;
    if ResolveOutcome(e, tokenRevision, q, incarnation, at).Write? {
      var k := ChildAddress(e.executionID, q.node, q.activation, q.groupKey, "");
      var g := e.children[k];
      var stamp := StampOf(e, incarnation, at);
      var i := C.FindChild(g.children, q.childID).value;
      GroupFacts(e, k);
      UnmergedFacts(e, k);
      H.ResolveOutcomePreserves(g, q, stamp);
      hide H.ResolveOutcome;
      var h := H.ResolveOutcome(g, q, stamp).value;
      assert !OutcomeUsed(e, q.decisionID);
      OutcomeAdded(e.children, k, i, h.children[i]);
      K.LedgerUntouched(e.children, k, h);
      ChangeSound(e, k, h);
    }
  }
}
