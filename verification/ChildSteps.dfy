/** Every transition of a child group, each proved to keep the group valid and
    to make child revisions faithful version numbers. */
module ChildSteps {
  import opened Basics
  import opened ChildRecords
  import opened ChildGroups

  datatype ChildInvocation = ChildInvocation(childID: string, revision: uint64)

  datatype CancelRequest = CancelRequest(id: string, reason: string)

  datatype CancelConfirmation = CancelConfirmation(
    childID: string, executionID: Digest, childRevision: uint64, requestID: string,
    decisionID: string, reason: string, evidence: string)

  datatype WaitResolution = WaitResolution(
    childID: string, executionID: Digest, childRevision: uint64, waitID: string, decisionID: string,
    result: ChildResult)

  datatype BudgetClaim = BudgetClaim(
    childID: string, childRevision: uint64, decisionID: string, reason: string, evidence: string, used: Units)

  /** Provenance stamped on a decision: where it was taken, by whom, and when. */
  datatype Stamp = Stamp(sourceRevision: uint64, incarnation: uint64, at: Time)

  predicate ValidStamp(stamp: Stamp) {
    0 < stamp.sourceRevision < MAX_UINT64 && stamp.incarnation != 0 && stamp.at != 0
  }

  // ------------------------------------------------------ how groups evolve

  /** A child is either unchanged or was unsettled and got a larger revision;
      a launched child is never planned or queued again. */
  predicate ChildExtends(c: ChildRecord, d: ChildRecord) {
    && d.spec == c.spec && d.executionID == c.executionID
    && (d != c ==> !Settled(c) && d.revision > c.revision)
    && (Launched(c) ==> Launched(d))
  }

  predicate GroupExtends(g: ChildGroup, h: ChildGroup) {
    && h.parentID == g.parentID && h.node == g.node && h.activation == g.activation
    && h.plan == g.plan && h.capacity == g.capacity
    && |h.children| == |g.children|
    && (forall i :: 0 <= i < |g.children| ==> ChildExtends(g.children[i], h.children[i]))
    && (g.mergedIDs != [] ==> h.mergedIDs == g.mergedIDs && h.mergedResult == g.mergedResult)
    && (g.cancelRequest.Some? ==> h.cancelRequest == g.cancelRequest)
    && (forall id :: id in g.budgetReturns ==> id in h.budgetReturns && h.budgetReturns[id] == g.budgetReturns[id])
  }

  lemma GroupExtendsTransitive(g: ChildGroup, h: ChildGroup, k: ChildGroup)
    requires GroupExtends(g, h) && GroupExtends(h, k)
    ensures GroupExtends(g, k)
  {
    forall i | 0 <= i < |g.children| ensures ChildExtends(g.children[i], k.children[i]) {
      assert ChildExtends(g.children[i], h.children[i]) && ChildExtends(h.children[i], k.children[i]);
    }
  }

  /** Equal revisions mean equal records, whichever two versions are compared. */
  lemma ChildRevisionsAreFaithful(g: ChildGroup, h: ChildGroup, i: nat)
    requires GroupExtends(g, h) && i < |g.children|
    ensures g.children[i].revision == h.children[i].revision <==> g.children[i] == h.children[i]
    ensures Settled(g.children[i]) ==> h.children[i] == g.children[i]
  {
    assert ChildExtends(g.children[i], h.children[i]);
  }

  /** Neither claims, returns nor capacity changed. */
  predicate SameLedger(g: ChildGroup, h: ChildGroup) {
    && h.activation == g.activation && h.capacity == g.capacity && h.budgetReturns == g.budgetReturns
    && |h.children| == |g.children|
    && forall i :: 0 <= i < |g.children| ==> h.children[i].spec == g.children[i].spec
  }

  /** No outcome decision was added or removed. */
  predicate SameOutcomes(g: ChildGroup, h: ChildGroup) {
    && |h.children| == |g.children|
    && forall i :: 0 <= i < |g.children| ==> h.children[i].outcomeResolution == g.children[i].outcomeResolution
  }

  // --------------------------------------------------- changing one child

  function WithChild(g: ChildGroup, i: nat, c: ChildRecord): ChildGroup
    requires i < |g.children|
  {
    g.(children := g.children[i := c])
  }

  /** Changing one unsettled child keeps the group valid if the new record is
      valid by itself and agrees with the group's cancellation. */
  lemma ChildChange(g: ChildGroup, i: nat, c: ChildRecord, revision: uint64)
    requires revision < MAX_UINT64 && GroupInv(g, revision) && i < |g.children|
    requires !Settled(g.children[i]) && ChildExtends(g.children[i], c)
    requires ValidChild(c) && ChildCancellation(g, c) && ChildProvenance(g, c, revision + 1)
    ensures g.mergedIDs == []
    ensures var h := WithChild(g, i, c);
      GroupInv(h, revision + 1) && GroupExtends(g, h) && SameLedger(g, h)
  {
    var h := WithChild(g, i, c);
    forall k: nat | k < |h.children|
      ensures ChildAt(h, k) && ChildCancellation(h, h.children[k])
      ensures ChildExtends(g.children[k], h.children[k]) && ChildProvenance(h, h.children[k], revision + 1)
    {
      ChildCarries(g, h, k, revision);
    }
    UnsettledIsUnmerged(g, i);
    Assemble(g, h, revision);
  }

  lemma UnsettledIsUnmerged(g: ChildGroup, i: nat)
    requires ValidGroup(g) && i < |g.children| && !Settled(g.children[i])
    ensures g.mergedIDs == [] && g.mergedResult == []
  {
  }

  /** An unchanged child keeps every per-child fact in a group with the same
      plan and cancellation. */
  lemma ChildCarries(g: ChildGroup, h: ChildGroup, k: nat, revision: uint64)
    requires revision < MAX_UINT64 && GroupInv(g, revision) && k < |g.children| == |h.children|
    requires h.parentID == g.parentID && h.node == g.node && h.activation == g.activation && h.plan == g.plan
    requires h.cancelRequested == g.cancelRequested && h.cancelRequest == g.cancelRequest
    ensures h.children[k] == g.children[k] ==>
      && ChildAt(h, k) && ChildCancellation(h, h.children[k]) && ChildExtends(g.children[k], h.children[k])
      && ChildProvenance(h, h.children[k], revision + 1)
    ensures ValidChild(h.children[k]) && ChildExtends(g.children[k], h.children[k]) ==> ChildAt(h, k)
    ensures ChildCancellation(g, h.children[k]) ==> ChildCancellation(h, h.children[k])
    ensures ChildProvenance(g, h.children[k], revision + 1) ==> ChildProvenance(h, h.children[k], revision + 1)
  {
    assert ChildAt(g, k) && ChildCancellation(g, g.children[k]) && ChildProvenance(g, g.children[k], revision);
  }

  /** The conditions on single children of a successor of a valid group. */
  predicate ChildrenCarry(g: ChildGroup, h: ChildGroup, revision: uint64) {
    && h.parentID == g.parentID && h.node == g.node && h.activation == g.activation
    && h.plan == g.plan && h.capacity == g.capacity
    && |h.children| == |g.children| == |SortSpecs(g.plan.children)|
    && (forall k: nat :: k < |h.children| ==> ChildAt(h, k))
    && (forall k :: 0 <= k < |h.children| ==> ChildCancellation(h, h.children[k]))
    && (forall k :: 0 <= k < |h.children| ==> ChildExtends(g.children[k], h.children[k]))
    && (forall k :: 0 <= k < |h.children| ==> ChildProvenance(h, h.children[k], revision))
  }

  predicate CancellationCarries(g: ChildGroup, h: ChildGroup, revision: uint64) {
    || (h.cancelRequested == g.cancelRequested && h.cancelRequest == g.cancelRequest)
    || (&& g.cancelRequest.None? && h.cancelRequested && h.cancelRequest.Some?
        && var q := h.cancelRequest.value;
           q.id != "" && q.reason != "" && 0 < q.sourceRevision < revision && q.incarnation != 0 && q.at != 0)
  }

  /** A group whose children satisfy the per-child conditions is valid. */
  lemma Assemble(g: ChildGroup, h: ChildGroup, revision: uint64)
    requires revision < MAX_UINT64 && GroupInv(g, revision)
    requires ChildrenCarry(g, h, revision + 1) && CancellationCarries(g, h, revision + 1)
    requires h.budgetReturns == g.budgetReturns && g.mergedIDs == []
    requires ValidJoin(h)
    ensures GroupInv(h, revision + 1) && GroupExtends(g, h) && SameLedger(g, h)
  {
    ReturnsUntouched(g, h);
  }

  // ------------------------------------------------------------------ begin

  predicate MayBegin(g: ChildGroup, c: ChildRecord) {
    !g.cancelRequested && c.revision <= MAX_UINT64 - 2 && !Launched(c)
  }

  /** The first write of a begin; a queued child skips it. */
  function QueueChild(g: ChildGroup, id: string): Result<ChildGroup> {
    match FindChild(g.children, id)
    case None => Err(ErrChildInvalid)
    case Some(i) =>
      var c := g.children[i];
      if !MayBegin(g, c) || !c.state.Planned? then Err(ErrChildRevision)
      else Ok(WithChild(g, i, c.(state := Queued, revision := c.revision + 1)))
  }

  /** The second write of a begin; its acknowledgement permits one dispatch. */
  function RunChild(g: ChildGroup, id: string, incarnation: uint64): Result<ChildGroup> {
    match FindChild(g.children, id)
    case None => Err(ErrChildInvalid)
    case Some(i) =>
      var c := g.children[i];
      if !MayBegin(g, c) || !c.state.Queued? then Err(ErrChildRevision)
      else Ok(WithChild(g, i, c.(state := Running, revision := c.revision + 1, incarnation := incarnation)))
  }

  lemma BeginPreserves(g: ChildGroup, id: string, incarnation: uint64, revision: uint64)
    requires revision < MAX_UINT64 && GroupInv(g, revision) && incarnation != 0
    ensures QueueChild(g, id).Ok? ==> var h := QueueChild(g, id).value;
      GroupInv(h, revision + 1) && GroupExtends(g, h) && SameLedger(g, h) && SameOutcomes(g, h)
    ensures RunChild(g, id, incarnation).Ok? ==> var h := RunChild(g, id, incarnation).value;
      GroupInv(h, revision + 1) && GroupExtends(g, h) && SameLedger(g, h) && SameOutcomes(g, h)
  {
    var found := FindChild(g.children, id);
    if found.Some? {
      var i := found.value;
      assert ChildAt(g, i);
      if QueueChild(g, id).Ok? {
        ChildChange(g, i, QueueChild(g, id).value.children[i], revision);
      }
      if RunChild(g, id, incarnation).Ok? {
        ChildChange(g, i, RunChild(g, id, incarnation).value.children[i], revision);
      }
    }
  }

  // ----------------------------------------------------------------- finish

  predicate InvocationMatches(c: ChildRecord, invocation: ChildInvocation, incarnation: uint64) {
    && c.state.Running? && c.revision < MAX_UINT64 && c.incarnation == incarnation
    && (|| c.revision == invocation.revision
        || (c.cancelRequested && invocation.revision < MAX_UINT64 && c.revision == invocation.revision + 1))
  }

  predicate ResultState(state: ChildState) {
    state.Completed? || state.Failed? || state.Waiting? || state.Unknown? || state.Canceled?
  }

  function FinishedChild(
    c: ChildRecord, invocation: ChildInvocation, result: ChildResult, dispatchError: Option<string>,
    incarnation: uint64): Result<ChildRecord>
  {
    if !InvocationMatches(c, invocation, incarnation) then Err(ErrChildRevision)
    else
      var r := if dispatchError.Some? then ChildResult(Unknown, [], dispatchError.value, "") else result;
      if !ResultState(r.state) then Err(ErrChildInvalid)
      else
        var d := c.(state := r.state, result := r.payload, error := r.error, waitID := r.waitID,
                    cancelConfirmed := c.cancelConfirmed || (r.state.Canceled? && c.cancelRequested),
                    revision := c.revision + 1);
        if ValidChild(d) then Ok(d) else Err(ErrExecutionCorrupt)
  }

  function FinishChild(
    g: ChildGroup, invocation: ChildInvocation, result: ChildResult, dispatchError: Option<string>, incarnation: uint64)
    : Result<ChildGroup>
  {
    match FindChild(g.children, invocation.childID)
    case None => Err(ErrChildInvalid)
    case Some(i) =>
      match FinishedChild(g.children[i], invocation, result, dispatchError, incarnation)
      case Err(e) => Err(e)
      case Ok(c) => Ok(WithChild(g, i, c))
  }

  lemma FinishPreserves(
    g: ChildGroup, invocation: ChildInvocation, result: ChildResult, dispatchError: Option<string>,
    incarnation: uint64, revision: uint64)
    requires revision < MAX_UINT64 && GroupInv(g, revision)
    requires FinishChild(g, invocation, result, dispatchError, incarnation).Ok?
    ensures var h := FinishChild(g, invocation, result, dispatchError, incarnation).value;
      GroupInv(h, revision + 1) && GroupExtends(g, h) && SameLedger(g, h) && SameOutcomes(g, h)
  {
    var i := FindChild(g.children, invocation.childID).value;
    assert ChildAt(g, i) && ChildCancellation(g, g.children[i]);
    ChildChange(g, i, FinishedChild(g.children[i], invocation, result, dispatchError, incarnation).value, revision);
  }

  // ---------------------------------------------------------------- recover

  /** The first running child that stops a recovery, in child order. */
  function RecoverError(children: seq<ChildRecord>, incarnation: uint64): Option<Error> {
    if children == [] then None
    else if !children[0].state.Running? then RecoverError(children[1..], incarnation)
    else if children[0].revision == MAX_UINT64 then Some(ErrChildRevision)
    else if children[0].incarnation == incarnation then Some(ErrChildBusy)
    else RecoverError(children[1..], incarnation)
  }

  function RecoveredChild(c: ChildRecord): ChildRecord {
    if c.state.Running? && c.revision < MAX_UINT64 then c.(state := Unknown, revision := c.revision + 1) else c
  }

  function RecoverGroup(g: ChildGroup): ChildGroup {
    g.(children := seq(|g.children|, i requires 0 <= i < |g.children| => RecoveredChild(g.children[i])))
  }

  predicate NeedsRecovery(g: ChildGroup) {
    exists i :: 0 <= i < |g.children| && g.children[i].state.Running?
  }

  lemma RecoverErrorNone(children: seq<ChildRecord>, incarnation: uint64)
    requires RecoverError(children, incarnation).None?
    ensures forall i :: 0 <= i < |children| && children[i].state.Running? ==>
      children[i].revision < MAX_UINT64 && children[i].incarnation != incarnation
  {
    if children != [] {
      RecoverErrorNone(children[1..], incarnation);
      forall i | 0 <= i < |children| && children[i].state.Running?
        ensures children[i].revision < MAX_UINT64 && children[i].incarnation != incarnation
      {
        assert i > 0 ==> children[i] == children[1..][i - 1];
      }
    }
  }

  lemma RecoverPreserves(g: ChildGroup, incarnation: uint64, revision: uint64)
    requires revision < MAX_UINT64 && GroupInv(g, revision) && NeedsRecovery(g)
    requires RecoverError(g.children, incarnation).None?
    ensures var h := RecoverGroup(g);
      && GroupInv(h, revision + 1) && GroupExtends(g, h) && SameLedger(g, h) && SameOutcomes(g, h)
      && g.mergedIDs == [] && !NeedsRecovery(h)
  {
    RecoverErrorNone(g.children, incarnation);
    hide RecoverError, Plannable, ChildAt, ChildProvenance, ValidBudgetReturn;
    var h := RecoverGroup(g);
    RecoverCarries(g, revision);
    var i :| 0 <= i < |g.children| && g.children[i].state.Running?;
    UnsettledIsUnmerged(g, i);
    Assemble(g, h, revision);
  }

  lemma RecoverCarries(g: ChildGroup, revision: uint64)
    requires revision < MAX_UINT64 && GroupInv(g, revision)
    requires forall i :: 0 <= i < |g.children| && g.children[i].state.Running? ==> g.children[i].revision < MAX_UINT64
    ensures ChildrenCarry(g, RecoverGroup(g), revision + 1)
    ensures SameOutcomes(g, RecoverGroup(g)) && !NeedsRecovery(RecoverGroup(g))
  {
    hide ValidChild, ChildProvenance, Plannable, ValidBudgetReturns;
    var h := RecoverGroup(g);
    forall k: nat | k < |h.children|
      ensures ChildAt(h, k) && ChildCancellation(h, h.children[k])
      ensures ChildExtends(g.children[k], h.children[k]) && ChildProvenance(h, h.children[k], revision + 1)
      ensures h.children[k].outcomeResolution == g.children[k].outcomeResolution && !h.children[k].state.Running?
    {
      RecoveredChildValid(g, k, revision);
      ChildCarries(g, h, k, revision);
    }
  }

  lemma RecoveredChildValid(g: ChildGroup, k: nat, revision: uint64)
    requires revision < MAX_UINT64 && GroupInv(g, revision) && k < |g.children|
    requires g.children[k].state.Running? ==> g.children[k].revision < MAX_UINT64
    ensures var d := RecoveredChild(g.children[k]);
      && ValidChild(d) && ChildExtends(g.children[k], d) && ChildCancellation(g, d)
      && ChildProvenance(g, d, revision + 1) && !d.state.Running?
      && d.outcomeResolution == g.children[k].outcomeResolution
  {
    assert ChildAt(g, k) && ChildCancellation(g, g.children[k]) && ChildProvenance(g, g.children[k], revision);
  }

  /** Returns address settled children, which stay as they are. */
  lemma ReturnsUntouched(g: ChildGroup, h: ChildGroup)
    requires ValidGroup(g) && h.budgetReturns == g.budgetReturns && |h.children| == |g.children|
    requires forall i :: 0 <= i < |g.children| ==> ChildExtends(g.children[i], h.children[i])
    ensures ValidBudgetReturns(h)
  {
    forall id | id in h.budgetReturns ensures ValidBudgetReturn(h, id) {
      assert ValidBudgetReturn(g, id);
      FindChildSame(g.children, h.children, id);
      assert ChildExtends(g.children[FindChild(g.children, id).value], h.children[FindChild(g.children, id).value]);
    }
  }

  // ----------------------------------------------------------------- cancel

  predicate CancelOverflows(c: ChildRecord) {
    !Settled(c) && (c.revision == MAX_UINT64 || (c.state.Running? && c.revision >= MAX_UINT64 - 1))
  }

  function CanceledChild(c: ChildRecord): ChildRecord {
    if Settled(c) || c.revision == MAX_UINT64 then c
    else
      var d := c.(cancelRequested := true, revision := c.revision + 1);
      if Launched(c) then d else d.(state := Canceled, cancelConfirmed := true)
  }

  /** The canceled group and whether the request had already been recorded. */
  function RequestCancellation(g: ChildGroup, request: CancelRequest, stamp: Stamp): Result<(ChildGroup, bool)> {
    if g.mergedIDs != [] then Err(ErrChildRevision)
    else if g.cancelRequest.Some? then
      if g.cancelRequest.value.id != request.id || g.cancelRequest.value.reason != request.reason
      then Err(ErrChildRevision) else Ok((g, true))
    else if exists i :: 0 <= i < |g.children| && CancelOverflows(g.children[i]) then Err(ErrChildRevision)
    else
      Ok((g.(cancelRequested := true,
             cancelRequest := Some(CancelRequestRecord(
               request.id, request.reason, stamp.sourceRevision, stamp.incarnation, stamp.at)),
             children := seq(|g.children|, i requires 0 <= i < |g.children| => CanceledChild(g.children[i]))),
          false))
  }

  /** The source's loop over the children, which stops at the first overflow. */
  method RequestChildCancellation(g: ChildGroup, request: CancelRequest, stamp: Stamp)
    returns (r: Result<(ChildGroup, bool)>)
    ensures r == RequestCancellation(g, request, stamp)
  {
    if g.mergedIDs != [] {
      return Err(ErrChildRevision);
    }
    if g.cancelRequest.Some? {
      if g.cancelRequest.value.id != request.id || g.cancelRequest.value.reason != request.reason {
        return Err(ErrChildRevision);
      }
      return Ok((g, true));
    }
    var children := g.children;
    for index := 0 to |children|
      invariant |children| == |g.children|
      invariant forall k :: 0 <= k < index ==>
        !CancelOverflows(g.children[k]) && children[k] == CanceledChild(g.children[k])
      invariant forall k :: index <= k < |children| ==> children[k] == g.children[k]
    {
      var child := children[index];
      if !Settled(child) {
        if child.revision == MAX_UINT64 || (child.state.Running? && child.revision >= MAX_UINT64 - 1) {
          assert CancelOverflows(g.children[index]);
          return Err(ErrChildRevision);
        }
        var planned := child.state.Planned? || child.state.Queued?;
        child := child.(cancelRequested := true, revision := child.revision + 1);
        if planned {
          child := child.(state := Canceled, cancelConfirmed := true);
        }
        children := children[index := child];
      }
    }
    assert children == seq(|g.children|, i requires 0 <= i < |g.children| => CanceledChild(g.children[i]));
    return Ok((g.(cancelRequested := true,
                  cancelRequest := Some(CancelRequestRecord(
                    request.id, request.reason, stamp.sourceRevision, stamp.incarnation, stamp.at)),
                  children := children), false));
  }

  lemma CancelPreserves(g: ChildGroup, request: CancelRequest, stamp: Stamp)
    requires ValidStamp(stamp) && GroupInv(g, stamp.sourceRevision)
    requires request.id != "" && request.reason != ""
    requires RequestCancellation(g, request, stamp).Ok?
    ensures var h := RequestCancellation(g, request, stamp).value.0;
      && GroupInv(h, stamp.sourceRevision + 1) && GroupExtends(g, h) && SameLedger(g, h) && SameOutcomes(g, h)
      && h.cancelRequested && forall i :: 0 <= i < |h.children| ==> Launched(h.children[i])
  {
    hide ValidChild, ChildProvenance, Plannable, ValidBudgetReturns;
    var h := RequestCancellation(g, request, stamp).value.0;
    if RequestCancellation(g, request, stamp).value.1 {
      GroupInvLater(g, stamp.sourceRevision, stamp.sourceRevision + 1);
    } else {
      forall k: nat | k < |h.children|
        ensures ChildAt(h, k) && ChildCancellation(h, h.children[k]) && ChildExtends(g.children[k], h.children[k])
        ensures ChildProvenance(h, h.children[k], stamp.sourceRevision + 1)
      {
        assert !CancelOverflows(g.children[k]) && ChildAt(g, k);
        CanceledChildValid(g, h, k, stamp.sourceRevision);
      }
      Assemble(g, h, stamp.sourceRevision);
    }
  }

  lemma CanceledChildValid(g: ChildGroup, h: ChildGroup, k: nat, revision: uint64)
    requires revision < MAX_UINT64 && GroupInv(g, revision) && k < |g.children| && !CancelOverflows(g.children[k])
    requires g.cancelRequest.None? && h.cancelRequested && h.node == g.node && h.activation == g.activation
    requires h.plan == g.plan
    ensures var d := CanceledChild(g.children[k]);
      && ValidChild(d) && ChildExtends(g.children[k], d) && ChildCancellation(h, d)
      && ChildProvenance(h, d, revision + 1) && Launched(d)
      && d.outcomeResolution == g.children[k].outcomeResolution
  {
    assert ChildAt(g, k) && ChildCancellation(g, g.children[k]) && ChildProvenance(g, g.children[k], revision);
  }

  // ----------------------------------------------------- operator decisions

  function ConfirmedChild(c: ChildRecord, q: CancelConfirmation, stamp: Stamp): Result<ChildRecord> {
    if || c.executionID != q.executionID || c.revision != q.childRevision || c.revision == MAX_UINT64
       || !c.cancelRequested || c.cancelConfirmed || !Cancelable(c.state) then Err(ErrChildRevision)
    else
      var d := c.(
        cancelConfirmation := Some(CancelConfirmationRecord(
          q.requestID, q.decisionID, q.reason, q.evidence, c.state, c.revision,
          stamp.sourceRevision, stamp.incarnation, stamp.at)),
        state := Canceled, cancelConfirmed := true, waitID := "", revision := c.revision + 1);
      if ValidChild(d) then Ok(d) else Err(ErrExecutionCorrupt)
  }

  function ConfirmCancellation(g: ChildGroup, q: CancelConfirmation, stamp: Stamp): Result<ChildGroup> {
    if g.mergedIDs != [] || g.cancelRequest.None? || g.cancelRequest.value.id != q.requestID then Err(ErrChildRevision)
    else match FindChild(g.children, q.childID)
      case None => Err(ErrChildRevision)
      case Some(i) =>
        match ConfirmedChild(g.children[i], q, stamp)
        case Err(e) => Err(e)
        case Ok(c) => Ok(WithChild(g, i, c))
  }

  lemma ConfirmPreserves(g: ChildGroup, q: CancelConfirmation, stamp: Stamp)
    requires stamp.sourceRevision < MAX_UINT64 && GroupInv(g, stamp.sourceRevision)
    requires ConfirmCancellation(g, q, stamp).Ok?
    ensures var h := ConfirmCancellation(g, q, stamp).value;
      GroupInv(h, stamp.sourceRevision + 1) && GroupExtends(g, h) && SameLedger(g, h) && SameOutcomes(g, h)
  {
    var i := FindChild(g.children, q.childID).value;
    assert ChildAt(g, i) && ChildCancellation(g, g.children[i]);
    ChildChange(g, i, ConfirmedChild(g.children[i], q, stamp).value, stamp.sourceRevision);
  }

  function WaitResolvedChild(c: ChildRecord, q: WaitResolution, stamp: Stamp): Result<ChildRecord> {
    if || c.executionID != q.executionID || c.revision != q.childRevision || c.revision == MAX_UINT64
       || !c.state.Waiting? || c.waitID != q.waitID || c.waitResolution.Some? then Err(ErrChildRevision)
    else
      var d := c.(
        state := q.result.state, result := q.result.payload, error := q.result.error, waitID := "",
        revision := c.revision + 1,
        waitResolution := Some(WaitResolutionRecord(
          q.waitID, q.decisionID, q.childRevision, stamp.sourceRevision, stamp.incarnation, stamp.at)));
      if ValidChild(d) then Ok(d) else Err(ErrExecutionCorrupt)
  }

  function ResolveWait(g: ChildGroup, q: WaitResolution, stamp: Stamp): Result<ChildGroup> {
    if g.mergedIDs != [] then Err(ErrChildRevision)
    else match FindChild(g.children, q.childID)
      case None => Err(ErrChildRevision)
      case Some(i) =>
        match WaitResolvedChild(g.children[i], q, stamp)
        case Err(e) => Err(e)
        case Ok(c) => Ok(WithChild(g, i, c))
  }

  lemma ResolveWaitPreserves(g: ChildGroup, q: WaitResolution, stamp: Stamp)
    requires stamp.sourceRevision < MAX_UINT64 && GroupInv(g, stamp.sourceRevision)
    requires ResolveWait(g, q, stamp).Ok?
    ensures var h := ResolveWait(g, q, stamp).value;
      GroupInv(h, stamp.sourceRevision + 1) && GroupExtends(g, h) && SameLedger(g, h) && SameOutcomes(g, h)
  {
    var i := FindChild(g.children, q.childID).value;
    assert ChildAt(g, i) && ChildCancellation(g, g.children[i]);
    ChildChange(g, i, WaitResolvedChild(g.children[i], q, stamp).value, stamp.sourceRevision);
  }

  function OutcomeResolvedChild(c: ChildRecord, q: OutcomeRequest, stamp: Stamp): Result<ChildRecord> {
    if || c.executionID != q.executionID || c.revision != q.childRevision || c.revision == MAX_UINT64
       || c.outcomeResolution.Some? || c.cancelConfirmed then Err(ErrChildRevision)
    else if !c.state.Unknown? && (!c.state.Running? || c.incarnation >= stamp.incarnation) then Err(ErrChildRevision)
    else
      var d := c.(
        outcomeResolution := Some(OutcomeResolutionRecord(
          q.decisionID, q.reason, q.evidence, q, c.state, c.revision, c.incarnation,
          stamp.sourceRevision, stamp.incarnation, stamp.at)),
        state := q.result.state, result := q.result.payload, error := q.result.error, waitID := "",
        revision := c.revision + 1);
      if ValidChild(d) then Ok(d) else Err(ErrExecutionCorrupt)
  }

  function ResolveOutcome(g: ChildGroup, q: OutcomeRequest, stamp: Stamp): Result<ChildGroup> {
    if g.mergedIDs != [] || g.plan.title != q.groupTitle then Err(ErrChildRevision)
    else match FindChild(g.children, q.childID)
      case None => Err(ErrChildRevision)
      case Some(i) =>
        match OutcomeResolvedChild(g.children[i], q, stamp)
        case Err(e) => Err(e)
        case Ok(c) => Ok(WithChild(g, i, c))
  }

  /** The provenance digest is re-derivable because the request addressed this
      very group: identities determine node, activation and key. */
  lemma ResolveOutcomePreserves(g: ChildGroup, q: OutcomeRequest, stamp: Stamp)
    requires ValidStamp(stamp) && GroupInv(g, stamp.sourceRevision) && ValidOutcomeRequest(q)
    requires GroupIdentity(g) == ChildAddress(g.parentID, q.node, q.activation, q.groupKey, "")
    requires ResolveOutcome(g, q, stamp).Ok?
    ensures var h := ResolveOutcome(g, q, stamp).value; var i := FindChild(g.children, q.childID).value;
      && GroupInv(h, stamp.sourceRevision + 1) && GroupExtends(g, h) && SameLedger(g, h)
      && g.children[i].outcomeResolution.None?
      && h == WithChild(g, i, h.children[i]) && h.children[i].outcomeResolution.Some?
      && h.children[i].outcomeResolution.value.decisionID == q.decisionID
  {
    var i := FindChild(g.children, q.childID).value;
    assert ChildAt(g, i) && ChildCancellation(g, g.children[i]);
    var c := OutcomeResolvedChild(g.children[i], q, stamp).value;
    ChildChange(g, i, c, stamp.sourceRevision);
  }

  // --------------------------------------------------------- join and return

  function JoinChildren(g: ChildGroup, merged: Bytes): Result<ChildGroup> {
    if exists i :: 0 <= i < |g.children| && !Settled(g.children[i]) then Err(ErrChildrenUnresolved)
    else Ok(g.(mergedIDs := seq(|g.children|, i requires 0 <= i < |g.children| => g.children[i].spec.id),
               mergedResult := merged))
  }

  lemma JoinPreserves(g: ChildGroup, merged: Bytes, revision: uint64)
    requires revision < MAX_UINT64 && GroupInv(g, revision) && g.mergedIDs == []
    requires JoinChildren(g, merged).Ok?
    ensures var h := JoinChildren(g, merged).value;
      && GroupInv(h, revision + 1) && GroupExtends(g, h) && SameLedger(g, h) && SameOutcomes(g, h) && Merged(h)
  {
    var h := JoinChildren(g, merged).value;
    KeepChildren(g, h, revision);
    Assemble(g, h, revision);
  }

  /** Changing only the join result or the returns leaves the children valid. */
  lemma KeepChildren(g: ChildGroup, h: ChildGroup, revision: uint64)
    requires revision < MAX_UINT64 && GroupInv(g, revision)
    requires h == g.(mergedIDs := h.mergedIDs, mergedResult := h.mergedResult, budgetReturns := h.budgetReturns)
    ensures ChildrenCarry(g, h, revision + 1)
  {
    forall k: nat | k < |h.children|
      ensures ChildAt(h, k) && ChildCancellation(h, h.children[k])
      ensures ChildExtends(g.children[k], h.children[k]) && ChildProvenance(h, h.children[k], revision + 1)
    {
      ChildCarries(g, h, k, revision);
    }
  }

  /** The group after a return claim and whether the claim had been recorded. */
  function ReturnUnits(g: ChildGroup, claim: BudgetClaim, stamp: Stamp): Result<(ChildGroup, bool)> {
    if claim.childID in g.budgetReturns then
      var prior := g.budgetReturns[claim.childID];
      if || prior.decisionID != claim.decisionID || prior.childRevision != claim.childRevision
         || prior.reason != claim.reason || prior.evidence != claim.evidence || prior.used != claim.used
      then Err(ErrChildRevision) else Ok((g, true))
    else match FindChild(g.children, claim.childID)
      case None => Err(ErrChildRevision)
      case Some(i) =>
        if g.children[i].revision != claim.childRevision then Err(ErrChildRevision)
        else match BudgetReturn(g.children[i], claim.used)
          case Err(e) => Err(e)
          case Ok(returned) =>
            Ok((g.(budgetReturns := g.budgetReturns[claim.childID := BudgetReturnRecord(
                  claim.childRevision, claim.decisionID, claim.reason, claim.evidence, claim.used, returned,
                  stamp.sourceRevision, stamp.incarnation, stamp.at)]), false))
  }

  lemma ReturnPreserves(g: ChildGroup, claim: BudgetClaim, stamp: Stamp)
    requires ValidStamp(stamp) && GroupInv(g, stamp.sourceRevision)
    requires claim.decisionID != "" && claim.reason != "" && claim.evidence != ""
    requires ReturnUnits(g, claim, stamp).Ok?
    ensures var h := ReturnUnits(g, claim, stamp).value.0;
      && GroupInv(h, stamp.sourceRevision + 1) && GroupExtends(g, h) && SameOutcomes(g, h)
      && h.children == g.children && h.mergedIDs == g.mergedIDs
  {
    hide ValidChild, ChildProvenance, Plannable, ChildAt, ValidBudgetReturn, ChildrenCarry;
    var h := ReturnUnits(g, claim, stamp).value.0;
    if claim.childID in g.budgetReturns {
      GroupInvLater(g, stamp.sourceRevision, stamp.sourceRevision + 1);
    } else {
      KeepChildren(g, h, stamp.sourceRevision);
      ReturnsGrow(g, claim, stamp);
      AssembleReturn(g, h, stamp.sourceRevision);
    }
  }

  lemma AssembleReturn(g: ChildGroup, h: ChildGroup, revision: uint64)
    requires revision < MAX_UINT64 && GroupInv(g, revision)
    requires h == g.(budgetReturns := h.budgetReturns) && ChildrenCarry(g, h, revision + 1)
    requires ValidBudgetReturns(h)
    requires forall id :: id in h.budgetReturns ==> h.budgetReturns[id].sourceRevision <= revision
    requires forall id :: id in g.budgetReturns ==> id in h.budgetReturns && h.budgetReturns[id] == g.budgetReturns[id]
    ensures GroupInv(h, revision + 1) && GroupExtends(g, h) && SameOutcomes(g, h)
  {
  }

  lemma ReturnsGrow(g: ChildGroup, claim: BudgetClaim, stamp: Stamp)
    requires ValidStamp(stamp) && GroupInv(g, stamp.sourceRevision)
    requires claim.decisionID != "" && claim.reason != "" && claim.evidence != ""
    requires ReturnUnits(g, claim, stamp).Ok?
    ensures ValidBudgetReturns(ReturnUnits(g, claim, stamp).value.0)
  {
    var h := ReturnUnits(g, claim, stamp).value.0;
    forall id | id in h.budgetReturns ensures ValidBudgetReturn(h, id) {
      if id in g.budgetReturns {
        assert ValidBudgetReturn(g, id);
      }
    }
  }
}
