/** What operations on structured children answer: when each writes, what it
    records for which child, and that nothing else changes. */
module ChildAnswers {
  import opened Basics
  import opened Envelopes
  import opened AggregateInvariant
  import opened ChildRecords
  import opened ChildGroups
  import opened ChildSteps
  import opened ChildOps
  import L = ChildCapacity

  /** The write changes one child of one group and nothing else. */
  predicate OneChild(e: Envelope, t: Envelope, k: Digest, i: nat) {
    && k in e.children && k in t.children && i < |e.children[k].children| == |t.children[k].children|
    && t == e.(children := e.children[k := t.children[k]])
    && t.children[k] == e.children[k].(children := e.children[k].children[i := t.children[k].children[i]])
  }

  /** The one child with this ID. */
  predicate ChildIs(e: Envelope, k: Digest, i: nat, id: string) {
    k in e.children && i < |e.children[k].children| && e.children[k].children[i].spec.id == id
  }

  lemma Found(e: Envelope, k: Digest, i: nat, id: string)
    requires ChildIs(e, k, i, id) && EnvInv(e)
    ensures FindChild(e.children[k].children, id) == Some(i) && k == GroupIdentity(e.children[k])
    ensures ValidChild(e.children[k].children[i])
  {
    hide EnvInv, ValidGroup;
    GroupFacts(e, k);
    FindChildIs(e.children[k], i);
    ValidAt(e.children[k], i);
  }

  lemma ValidAt(g: ChildGroup, i: nat)
    requires ValidGroup(g) && i < |g.children|
    ensures ValidChild(g.children[i]) && ChildCancellation(g, g.children[i])
  {
    hide Plannable, ValidBudgetReturns, ValidJoin, ValidChild, ChildCancellation;
    assert ChildAt(g, i);
  }

  /** The new version of a child that was changed once. */
  predicate NextVersion(c: ChildRecord, d: ChildRecord) {
    d.spec == c.spec && d.executionID == c.executionID && c.revision < MAX_UINT64 && d.revision == c.revision + 1
  }

  /** A group, or a child, that does not exist is refused by every operation. */
  lemma MissingChild(
    e: Envelope, k: Digest, id: string, invocation: ChildInvocation, result: ChildResult, dispatchError: Option<string>,
    incarnation: uint64)
    requires invocation.childID == id
    requires k in e.children ==>
      forall i :: 0 <= i < |e.children[k].children| ==> e.children[k].children[i].spec.id != id
    ensures Queue(e, k, id) == Run(e, k, id, incarnation) == Refused(ErrChildInvalid)
    ensures Finish(e, k, invocation, result, dispatchError, incarnation) == Refused(ErrChildInvalid)
    ensures k !in e.children ==> Recover(e, k, incarnation) == Unchanged
  {
  }

  // ------------------------------------------------------------------ launch

  /** Exactly a planned child of a group that is not canceled is queued, and
      exactly a queued one is then run, under this incarnation. */
  lemma LaunchAnswer(e: Envelope, k: Digest, i: nat, id: string, incarnation: uint64)
    requires ChildIs(e, k, i, id) && EnvInv(e)
    ensures var g := e.children[k]; var c := g.children[i];
      var queue, run := Queue(e, k, id), Run(e, k, id, incarnation);
      && (if !g.cancelRequested && c.state.Planned? then
            && queue.Write? && OneChild(e, queue.target, k, i)
            && var d := queue.target.children[k].children[i];
               d == c.(state := d.state, revision := 1) && d.state.Queued?
          else queue == Refused(ErrChildRevision))
      && (if !g.cancelRequested && c.state.Queued? && c.revision <= MAX_UINT64 - 2 then
            && run.Write? && OneChild(e, run.target, k, i)
            && var d := run.target.children[k].children[i];
               && NextVersion(c, d) && d.state.Running? && d.incarnation == incarnation
               && d == c.(state := d.state, revision := d.revision, incarnation := d.incarnation)
          else run == Refused(ErrChildRevision))
  {
    hide EnvInv, FindChild, GroupInv;
    Found(e, k, i, id);
  }

  // ------------------------------------------------------------------ finish

  /** The child a dispatch may still finish: running under this incarnation in the
      version it was dispatched in, or in the next one if only a cancellation was
      requested meanwhile. */
  predicate Dispatched(c: ChildRecord, invocation: ChildInvocation, incarnation: uint64) {
    && c.state.Running? && c.incarnation == incarnation && c.revision < MAX_UINT64
    && (c.revision == invocation.revision || (c.cancelRequested && c.revision == invocation.revision as int + 1))
  }

  /** A result in the form its state demands. */
  predicate ResultFits(c: ChildRecord, r: ChildResult) {
    match r.state
    case Completed => r.error == "" && r.waitID == ""
    case Failed => r.error != "" && r.waitID == ""
    case Waiting => r.error == "" && r.waitID != ""
    case Unknown => r.waitID == ""
    case Canceled => c.cancelRequested
    case _ => false
  }

  /** A dispatch never ends before it began. */
  predicate EndsDispatch(state: ChildState) {
    !state.Planned? && !state.Queued? && !state.Running?
  }

  /** Exactly when the end of a dispatch is recorded. A dispatch that failed is
      always recorded as unknown: the child is not settled, so its group cannot be
      joined and its units cannot be returned. Otherwise the host's result is
      recorded as it is. */
  lemma FinishAnswer(
    e: Envelope, k: Digest, i: nat, invocation: ChildInvocation, result: ChildResult, dispatchError: Option<string>,
    incarnation: uint64)
    requires ChildIs(e, k, i, invocation.childID) && EnvInv(e)
    ensures var c := e.children[k].children[i];
      var step := Finish(e, k, invocation, result, dispatchError, incarnation);
      step.Write? <==> Dispatched(c, invocation, incarnation) && (dispatchError.None? ==> ResultFits(c, result))
    ensures var c := e.children[k].children[i];
      var step := Finish(e, k, invocation, result, dispatchError, incarnation);
      if !Dispatched(c, invocation, incarnation) then step == Refused(ErrChildRevision)
      else dispatchError.None? && !ResultFits(c, result) ==>
        step == Refused(if EndsDispatch(result.state) then ErrExecutionCorrupt else ErrChildInvalid)
    ensures var step := Finish(e, k, invocation, result, dispatchError, incarnation);
      step.Write? ==>
        && OneChild(e, step.target, k, i)
        && FinishedAs(e.children[k].children[i], step.target.children[k].children[i], result, dispatchError)
  {
    hide EnvInv, FindChild, GroupInv;
    Found(e, k, i, invocation.childID);
    RunningFacts(e, k, i);
  }

  predicate FinishedAs(c: ChildRecord, d: ChildRecord, result: ChildResult, dispatchError: Option<string>) {
    && NextVersion(c, d) && d.incarnation == c.incarnation && d.cancelRequested == c.cancelRequested
    && (d.cancelConfirmed <==> c.cancelConfirmed || (d.state.Canceled? && c.cancelRequested))
    && match dispatchError
       case Some(message) => d.state.Unknown? && d.error == message && d.result == [] && d.waitID == ""
       case None =>
         d.state == result.state && d.result == result.payload && d.error == result.error && d.waitID == result.waitID
  }

  lemma RunningFacts(e: Envelope, k: Digest, i: nat)
    requires k in e.children && i < |e.children[k].children| && EnvInv(e)
    ensures var c := e.children[k].children[i];
      c.state.Running? ==>
        && c.revision > 1 && c.incarnation > 0 && !c.cancelConfirmed
        && c.waitResolution.None? && c.outcomeResolution.None? && c.cancelConfirmation.None?
  {
    hide EnvInv, ValidGroup;
    GroupFacts(e, k);
    ValidAt(e.children[k], i);
  }

  /** An unknown child keeps its group from being joined and its units from being
      returned. */
  lemma UnknownBlocks(g: ChildGroup, i: nat, merged: Bytes, used: Units)
    requires i < |g.children| && g.children[i].state.Unknown?
    ensures JoinChildren(g, merged) == Err(ErrChildrenUnresolved)
    ensures ValidChild(g.children[i]) ==> BudgetReturn(g.children[i], used) == Err(ErrChildrenUnresolved)
  {
    hide ValidChild;
  }

  lemma FailedDispatchBlocks(
    e: Envelope, k: Digest, i: nat, invocation: ChildInvocation, result: ChildResult, message: string,
    incarnation: uint64, t: Envelope, merged: Bytes)
    requires ChildIs(e, k, i, invocation.childID) && EnvInv(e)
    requires Finish(e, k, invocation, result, Some(message), incarnation) == Write(t)
    ensures k in t.children && Join(t, t.children[k], merged) == Refused(ErrChildrenUnresolved)
  {
    hide EnvInv, Finish;
    FinishAnswer(e, k, i, invocation, result, Some(message), incarnation);
    GroupFacts(e, k);
    Unjoined(e, k, i);
    hide GroupInv, GroupAt;
  }

  lemma Unjoined(e: Envelope, k: Digest, i: nat)
    requires k in e.children && i < |e.children[k].children| && EnvInv(e) && e.children[k].children[i].state.Running?
    ensures e.children[k].mergedIDs == [] && CurrentGroup(e, e.children[k])
  {
    hide EnvInv;
    UnsettledFacts(e, k, i);
  }

  // ----------------------------------------------------------------- recover

  /** The write changes one group. */
  predicate OneGroup(e: Envelope, t: Envelope, k: Digest) {
    k in e.children && k in t.children && t == e.(children := e.children[k := t.children[k]])
  }

  predicate AnyRunning(g: ChildGroup, incarnation: uint64) {
    exists i :: 0 <= i < |g.children| && g.children[i].state.Running? && g.children[i].incarnation == incarnation
  }

  /** Exactly the children that earlier incarnations left running become unknown;
      a running child of this incarnation makes the group busy. */
  lemma RecoverAnswer(e: Envelope, k: Digest, incarnation: uint64)
    requires k in e.children && EnvInv(e)
    requires forall i :: 0 <= i < |e.children[k].children| ==> e.children[k].children[i].revision < MAX_UINT64
    ensures var g := e.children[k]; var step := Recover(e, k, incarnation);
      if AnyRunning(g, incarnation) then step == Refused(ErrChildBusy)
      else if exists i :: 0 <= i < |g.children| && g.children[i].state.Running? then
        step.Write? && OneGroup(e, step.target, k) && RecoveredAs(g, step.target.children[k])
      else step == Unchanged
  {
    hide EnvInv;
    GroupFacts(e, k);
    RecoverErrorIs(e.children[k].children, incarnation);
    assert RecoveredAs(e.children[k], RecoverGroup(e.children[k]));
    hide RecoverError, GroupInv, GroupAt, RecoverGroup, RecoveredAs;
  }

  predicate RecoveredAs(g: ChildGroup, h: ChildGroup) {
    && h == g.(children := h.children) && |h.children| == |g.children|
    && forall i :: 0 <= i < |g.children| ==>
         if g.children[i].state.Running? then
           && NextVersion(g.children[i], h.children[i]) && h.children[i].state.Unknown?
           && h.children[i] == g.children[i].(state := h.children[i].state, revision := h.children[i].revision)
         else h.children[i] == g.children[i]
  }

  lemma {:induction false} RecoverErrorIs(children: seq<ChildRecord>, incarnation: uint64)
    requires forall i :: 0 <= i < |children| ==> children[i].revision < MAX_UINT64
    ensures RecoverError(children, incarnation) ==
      if exists i :: 0 <= i < |children| && children[i].state.Running? && children[i].incarnation == incarnation
      then Some(ErrChildBusy) else None
  {
    if children != [] {
      RecoverErrorIs(children[1..], incarnation);
      assert forall i :: 0 < i < |children| ==> children[i] == children[1..][i - 1];
    }
  }

  // ------------------------------------------------------------ cancellation

  /** What a cancellation request does to each child: one not launched is canceled
      at once, a launched one is asked to stop, a settled one is left alone. */
  predicate AskedToStop(c: ChildRecord, d: ChildRecord) {
    if Settled(c) then d == c
    else
      && NextVersion(c, d) && d.cancelRequested
      && d == c.(cancelRequested := true, revision := d.revision, state := d.state,
                 cancelConfirmed := d.cancelConfirmed)
      && (if Launched(c) then d.state == c.state && d.cancelConfirmed == c.cancelConfirmed
          else d.state.Canceled? && d.cancelConfirmed)
  }

  predicate CanceledAs(
    g: ChildGroup, h: ChildGroup, q: CancelRequest, revision: uint64, incarnation: uint64, at: Time)
  {
    && h == g.(children := h.children, cancelRequested := true, cancelRequest := h.cancelRequest)
    && h.cancelRequest == Some(CancelRequestRecord(q.id, q.reason, revision, incarnation, at))
    && |h.children| == |g.children| && forall i :: 0 <= i < |g.children| ==> AskedToStop(g.children[i], h.children[i])
  }

  /** A first request is recorded and passed on to every child. The same request
      again is replayed, another one is refused. */
  lemma CancelAnswer(e: Envelope, g: ChildGroup, q: CancelRequest, incarnation: uint64, at: Time)
    requires EnvInv(e) && q.id != "" && q.reason != "" && Asserted(e, g) && g.mergedIDs == []
    requires forall i :: 0 <= i < |g.children| ==> g.children[i].revision < MAX_UINT64 - 1
    ensures var step := Cancel(e, g, q, incarnation, at);
      match g.cancelRequest
      case None => step.Write? && OneGroup(e, step.target, GroupIdentity(g))
        && CanceledAs(g, step.target.children[GroupIdentity(g)], q, e.revision, incarnation, at)
      case Some(prior) =>
        step == (if prior.id == q.id && prior.reason == q.reason then Unchanged else Refused(ErrChildRevision))
  {
    hide EnvInv, CurrentGroup;
  }

  /** Requests that do not name the stored group as it is, or come after its join,
      are refused. */
  lemma CancelRefuses(e: Envelope, g: ChildGroup, q: CancelRequest, incarnation: uint64, at: Time)
    requires !Asserted(e, g) || g.mergedIDs != []
    ensures Cancel(e, g, q, incarnation, at) ==
      Refused(if q.id == "" || q.reason == "" then ErrChildInvalid else ErrChildRevision)
  {
  }

  // ----------------------------------------------------- operator decisions

  /** The exact group and child an operator's decision is about. */
  predicate Points(
    e: Envelope, token: uint64, address: GroupAddress, k: Digest, i: nat, id: string, child: Digest, revision: uint64)
  {
    && k == ChildAddress(e.executionID, address.node, address.activation, address.key, "") && ChildIs(e, k, i, id)
    && token == e.revision && e.terminal.None? && e.children[k].mergedIDs == []
    && e.children[k].children[i].executionID == child && e.children[k].children[i].revision == revision < MAX_UINT64
  }

  predicate Names(address: GroupAddress, childID: string, executionID: Digest, childRevision: uint64) {
    && address.node != "" && address.activation > 0 && address.key != "" && childID != ""
    && executionID != OtherText("") && childRevision > 0
  }

  /** A decision that names no child is invalid. */
  lemma NamelessRefused(
    e: Envelope, token: uint64, address: GroupAddress, q: CancelConfirmation, w: WaitResolution, incarnation: uint64,
    at: Time)
    ensures !Names(address, q.childID, q.executionID, q.childRevision) ==>
      Confirm(e, token, address, q, incarnation, at) == Refused(ErrChildInvalid)
    ensures !Names(address, w.childID, w.executionID, w.childRevision) ==>
      ChildOps.ResolveWait(e, token, address, w, incarnation, at) == Refused(ErrChildInvalid)
  {
  }

  /** A decision about another revision conflicts; one about a finished run, or a
      group that is joined or gone, is refused. */
  lemma DecisionRefused(
    e: Envelope, token: uint64, address: GroupAddress, q: CancelConfirmation, w: WaitResolution, incarnation: uint64,
    at: Time)
    requires q.requestID != "" && q.decisionID != "" && q.reason != "" && q.evidence != ""
    requires w.waitID != "" && w.decisionID != "" && w.result.waitID == "" && FinalResult(w.result)
    requires Names(address, q.childID, q.executionID, q.childRevision)
    requires Names(address, w.childID, w.executionID, w.childRevision)
    ensures var k := ChildAddress(e.executionID, address.node, address.activation, address.key, "");
      var confirm, resolve := Confirm(e, token, address, q, incarnation, at),
        ChildOps.ResolveWait(e, token, address, w, incarnation, at);
      if token == 0 || token != e.revision then
        confirm == resolve == Refused(ErrConcurrencyConflict)
      else if e.terminal.Some? || k !in e.children || e.children[k].mergedIDs != [] then
        confirm == resolve == Refused(ErrChildRevision)
      else true
  {
    hide ConfirmedChild, WaitResolvedChild, FindChild;
  }

  /** Why a stop is not confirmed. */
  lemma ConfirmRefuses(
    e: Envelope, token: uint64, address: GroupAddress, k: Digest, i: nat, q: CancelConfirmation, incarnation: uint64,
    at: Time)
    requires EnvInv(e) && ChildIs(e, k, i, q.childID)
    requires k == ChildAddress(e.executionID, address.node, address.activation, address.key, "")
    requires !Confirm(e, token, address, q, incarnation, at).Write?
    ensures var c := e.children[k].children[i]; var g := e.children[k];
      Confirm(e, token, address, q, incarnation, at) == Refused(
        if || q.childRevision == 0 || q.executionID == OtherText("")
           || q.requestID == "" || q.decisionID == "" || q.reason == "" || q.evidence == ""
        then ErrChildInvalid
        else if token != e.revision then ErrConcurrencyConflict
        else if || !Points(e, token, address, k, i, q.childID, q.executionID, q.childRevision)
                || g.cancelRequest.None? || g.cancelRequest.value.id != q.requestID || !c.cancelRequested
                || !(c.state.Running? || c.state.Waiting? || c.state.Unknown?)
        then ErrChildRevision
        else ErrExecutionCorrupt)
  {
    hide EnvInv, FindChild, GroupInv;
    Found(e, k, i, q.childID);
    DecisionFacts(e, k, i);
  }

  /** A confirmed stop settles the child as canceled, with its evidence. */
  lemma ConfirmAnswer(
    e: Envelope, token: uint64, address: GroupAddress, k: Digest, i: nat, q: CancelConfirmation, incarnation: uint64,
    at: Time)
    requires EnvInv(e) && ChildIs(e, k, i, q.childID)
    requires k == ChildAddress(e.executionID, address.node, address.activation, address.key, "")
    ensures var c := e.children[k].children[i]; var g := e.children[k];
      Confirm(e, token, address, q, incarnation, at).Write? <==>
        && Points(e, token, address, k, i, q.childID, q.executionID, q.childRevision)
        && q.requestID != "" && q.decisionID != "" && q.reason != "" && q.evidence != "" && incarnation != 0 && at != 0
        && g.cancelRequest.Some? && g.cancelRequest.value.id == q.requestID
        && c.cancelRequested && (c.state.Running? || c.state.Waiting? || c.state.Unknown?)
    ensures var step := Confirm(e, token, address, q, incarnation, at);
      step.Write? ==>
        && OneChild(e, step.target, k, i)
        && ConfirmedAs(e.children[k].children[i], step.target.children[k].children[i], q, e.revision, incarnation, at)
  {
    hide EnvInv, FindChild, GroupInv;
    Found(e, k, i, q.childID);
    DecisionFacts(e, k, i);
  }

  predicate ConfirmedAs(
    c: ChildRecord, d: ChildRecord, q: CancelConfirmation, revision: uint64, incarnation: uint64, at: Time)
  {
    && NextVersion(c, d) && d.state.Canceled? && d.cancelConfirmed && d.waitID == ""
    && d.result == c.result && d.error == c.error && d.cancelConfirmation == Some(CancelConfirmationRecord(
         q.requestID, q.decisionID, q.reason, q.evidence, c.state, c.revision, revision, incarnation, at))
  }

  /** A stored child has an address. */
  lemma NamedAt(g: ChildGroup, i: nat)
    requires i < |g.children| && ValidGroup(g)
    ensures g.node != "" && g.activation > 0 && g.plan.key != "" && g.children[i].spec.id != ""
    ensures g.children[i].executionID != OtherText("")
  {
    hide ValidChild, Fits, ValidBudgetReturns, ValidJoin;
    SortIsOrdered(g.plan.children);
    assert ChildAt(g, i) && SortSpecs(g.plan.children)[i] in g.plan.children;
  }

  /** What a decision may rely on about the child it addresses. */
  lemma DecisionFacts(e: Envelope, k: Digest, i: nat)
    requires k in e.children && i < |e.children[k].children| && EnvInv(e)
    ensures e.revision > 0 && ValidChild(e.children[k].children[i])
    ensures var g := e.children[k];
      && k == ChildAddress(e.executionID, g.node, g.activation, g.plan.key, "") && g.node != "" && g.activation > 0
      && g.plan.key != "" && g.children[i].spec.id != "" && g.children[i].executionID != OtherText("")
    ensures e.children[k].mergedIDs == [] ==> CurrentGroup(e, e.children[k])
    ensures var c := e.children[k].children[i];
      !Settled(c) ==> c.waitResolution.None? && c.outcomeResolution.None? && c.cancelConfirmation.None?
  {
    hide EnvInv, ValidGroup, CurrentGroup;
    GroupFacts(e, k);
    ValidAt(e.children[k], i);
    NamedAt(e.children[k], i);
    if e.children[k].mergedIDs == [] {
      UnmergedFacts(e, k);
    }
  }

  /** The operator's result settles a waiting child, or one whose outcome is not
      known. */
  predicate SettledAs(c: ChildRecord, d: ChildRecord, result: ChildResult) {
    && NextVersion(c, d) && d.state == result.state && d.result == result.payload && d.error == result.error
    && d.waitID == "" && d.incarnation == c.incarnation && Settled(d)
    && d.cancelRequested == c.cancelRequested && d.cancelConfirmed == c.cancelConfirmed
  }

  predicate FinalResult(r: ChildResult) {
    (r.state.Completed? && r.error == "") || (r.state.Failed? && r.error != "")
  }

  lemma WaitResolutionAnswer(
    e: Envelope, token: uint64, address: GroupAddress, k: Digest, i: nat, q: WaitResolution, incarnation: uint64,
    at: Time)
    requires EnvInv(e) && ChildIs(e, k, i, q.childID)
    requires k == ChildAddress(e.executionID, address.node, address.activation, address.key, "")
    ensures var c := e.children[k].children[i];
      ChildOps.ResolveWait(e, token, address, q, incarnation, at).Write? <==>
        && Points(e, token, address, k, i, q.childID, q.executionID, q.childRevision)
        && q.waitID != "" && q.decisionID != "" && q.result.waitID == "" && FinalResult(q.result)
        && incarnation != 0 && at != 0 && c.state.Waiting? && c.waitID == q.waitID
    ensures var step := ChildOps.ResolveWait(e, token, address, q, incarnation, at);
      step.Write? ==>
        && OneChild(e, step.target, k, i)
        && var c, d := e.children[k].children[i], step.target.children[k].children[i];
           && SettledAs(c, d, q.result) && d.waitResolution == Some(WaitResolutionRecord(
                q.waitID, q.decisionID, q.childRevision, e.revision, incarnation, at))
  {
    hide EnvInv, FindChild, GroupInv;
    Found(e, k, i, q.childID);
    DecisionFacts(e, k, i);
  }

  /** Why a child's wait is not resolved. */
  lemma WaitResolutionRefuses(
    e: Envelope, token: uint64, address: GroupAddress, k: Digest, i: nat, q: WaitResolution, incarnation: uint64,
    at: Time)
    requires EnvInv(e) && ChildIs(e, k, i, q.childID)
    requires k == ChildAddress(e.executionID, address.node, address.activation, address.key, "")
    requires !ChildOps.ResolveWait(e, token, address, q, incarnation, at).Write?
    ensures var c := e.children[k].children[i];
      ChildOps.ResolveWait(e, token, address, q, incarnation, at) == Refused(
        if || q.childRevision == 0 || q.executionID == OtherText("")
           || q.waitID == "" || q.decisionID == "" || q.result.waitID != ""
           || !(q.result.state.Completed? || q.result.state.Failed?)
        then ErrChildInvalid
        else if token != e.revision then ErrConcurrencyConflict
        else if || !Points(e, token, address, k, i, q.childID, q.executionID, q.childRevision)
                || !c.state.Waiting? || c.waitID != q.waitID
        then ErrChildRevision
        else ErrExecutionCorrupt)
  {
    hide EnvInv, FindChild, GroupInv;
    Found(e, k, i, q.childID);
    DecisionFacts(e, k, i);
  }

  /** All that is wrong with a new decision about an unknown child is that its session
      is not newer than the one that ran the child. */
  ghost predicate StaleOperator(
    e: Envelope, token: uint64, k: Digest, i: nat, q: OutcomeRequest, incarnation: uint64)
  {
    && Points(e, token, GroupAddress(q.node, q.activation, q.groupKey), k, i, q.childID, q.executionID, q.childRevision)
    && (forall l, j :: !HasOutcome(e.children, l, j, q.decisionID))
    && e.children[k].children[i].state.Unknown? && e.children[k].children[i].incarnation >= incarnation
  }

  /** Why an operator's outcome is not taken, whether or not its ID was used: a group
      that is joined or has another title does not even replay. */
  lemma OutcomeRefuses(
    e: Envelope, token: uint64, k: Digest, i: nat, q: OutcomeRequest, incarnation: uint64, at: Time)
    requires EnvInv(e) && ChildIs(e, k, i, q.childID)
    requires k == ChildAddress(e.executionID, q.node, q.activation, q.groupKey, "")
    ensures var step := ChildOps.ResolveOutcome(e, token, q, incarnation, at);
      if !ValidOutcomeRequest(q) then step == Refused(ErrChildInvalid)
      else if token != e.revision then step == Refused(ErrConcurrencyConflict)
      else if e.terminal.Some? || e.children[k].mergedIDs != [] || e.children[k].plan.title != q.groupTitle then
        step == Refused(ErrChildRevision)
      else if at == 0 || incarnation == 0 then step == Refused(ErrExecutionCapability)
      else
        || step.Write? || step == Unchanged
        || step == Refused(if StaleOperator(e, token, k, i, q, incarnation) then ErrExecutionCorrupt
                           else ErrChildRevision)
  {
    hide EnvInv, FindChild, GroupInv;
    Found(e, k, i, q.childID);
    DecisionFacts(e, k, i);
  }

  lemma OutcomeAnswer(e: Envelope, token: uint64, k: Digest, i: nat, q: OutcomeRequest, incarnation: uint64, at: Time)
    requires EnvInv(e) && ChildIs(e, k, i, q.childID)
    requires k == ChildAddress(e.executionID, q.node, q.activation, q.groupKey, "")
    requires forall l, j :: !HasOutcome(e.children, l, j, q.decisionID)
    ensures var c := e.children[k].children[i];
      ChildOps.ResolveOutcome(e, token, q, incarnation, at).Write? <==>
        && Points(e, token, GroupAddress(q.node, q.activation, q.groupKey), k, i,
                  q.childID, q.executionID, q.childRevision)
        && ValidOutcomeRequest(q) && q.groupTitle == e.children[k].plan.title && at != 0
        && (c.state.Running? || c.state.Unknown?) && c.incarnation < incarnation
    ensures var step := ChildOps.ResolveOutcome(e, token, q, incarnation, at);
      step.Write? ==>
        && OneChild(e, step.target, k, i)
        && var c, d := e.children[k].children[i], step.target.children[k].children[i];
           && SettledAs(c, d, q.result) && d.outcomeResolution == Some(OutcomeResolutionRecord(
                q.decisionID, q.reason, q.evidence, q, c.state, c.revision, c.incarnation, e.revision, incarnation, at))
  {
    hide EnvInv, FindChild, GroupInv;
    Found(e, k, i, q.childID);
    DecisionFacts(e, k, i);
  }

  /** A decision ID used anywhere in the aggregate never writes again: the same
      decision is replayed, another one is refused. */
  lemma RepeatedOutcome(
    e: Envelope, token: uint64, k: Digest, q: OutcomeRequest, incarnation: uint64, at: Time, l: Digest, j: int)
    requires EnvInv(e) && HasOutcome(e.children, l, j, q.decisionID) && ValidOutcomeRequest(q)
    requires k == ChildAddress(e.executionID, q.node, q.activation, q.groupKey, "") && k in e.children
    requires token == e.revision && e.terminal.None? && e.children[k].mergedIDs == []
    requires e.children[k].plan.title == q.groupTitle && at != 0 && incarnation != 0
    ensures var c := e.children[l].children[j];
      ChildOps.ResolveOutcome(e, token, q, incarnation, at) ==
        if c.executionID == q.executionID && c.outcomeResolution.value.requestDigest == q then Unchanged
        else Refused(ErrChildRevision)
  {
    hide EnvInv, ValidOutcomeRequest, CurrentGroup, ChildSteps.ResolveOutcome;
    GroupFacts(e, k);
    UnmergedFacts(e, k);
    PositiveRevision(e);
    hide GroupInv, GroupAt;
    var c := e.children[l].children[j];
    if OutcomeRecorded(e, q) {
      var m, n :| HasOutcome(e.children, m, n, q.decisionID) && e.children[m].children[n].executionID == q.executionID
        && e.children[m].children[n].outcomeResolution.value.requestDigest == q;
      assert m == l && n == j;
    }
  }

  lemma PositiveRevision(e: Envelope)
    requires EnvInv(e)
    ensures e.revision > 0
  {
    hide CollectionsValid, RecordsInductive;
  }

  // --------------------------------------------------------- join and return

  /** A join or return names the stored group exactly as it is. */
  lemma AssertionRefused(e: Envelope, g: ChildGroup, merged: Bytes, claim: BudgetClaim, incarnation: uint64, at: Time)
    requires !Asserted(e, g)
    ensures Join(e, g, merged) == Refused(ErrChildRevision)
    ensures Return(e, g, claim, incarnation, at) == Refused(
      if || claim.childID == "" || claim.childRevision == 0 || claim.decisionID == "" || claim.reason == ""
         || claim.evidence == ""
      then ErrChildInvalid else ErrChildRevision)
  {
  }

  /** Exactly a group whose children are all settled is joined, once, with the
      host's merge and its IDs in order; every later join replays that merge. */
  lemma JoinAnswer(e: Envelope, g: ChildGroup, merged: Bytes)
    requires EnvInv(e) && Asserted(e, g)
    ensures var k := GroupIdentity(g); var step := Join(e, g, merged);
      if Merged(g) then step == Unchanged
      else if exists i :: 0 <= i < |g.children| && !Settled(g.children[i]) then step == Refused(ErrChildrenUnresolved)
      else step.Write? && OneGroup(e, step.target, k) && JoinedAs(g, step.target.children[k], merged)
    ensures var k := GroupIdentity(g); var step := Join(e, g, merged);
      step.Write? ==> k in step.target.children && Join(step.target, step.target.children[k], merged) == Unchanged
  {
    hide EnvInv;
  }

  predicate JoinedAs(g: ChildGroup, h: ChildGroup, merged: Bytes) {
    && h == g.(mergedIDs := h.mergedIDs, mergedResult := merged) && Merged(h)
    && forall i :: 0 <= i < |g.children| ==> h.mergedIDs[i] == g.children[i].spec.id
  }

  /** Units go back exactly for a settled child, in the version the claim names, and
      a claim within its allocation: what was not used, once. */
  lemma ReturnAnswer(e: Envelope, g: ChildGroup, i: nat, claim: BudgetClaim, incarnation: uint64, at: Time)
    requires EnvInv(e) && Asserted(e, g) && ChildIs(e, GroupIdentity(g), i, claim.childID)
    requires claim.childID != "" && claim.decisionID != "" && claim.reason != "" && claim.evidence != ""
    ensures var c := g.children[i]; var step := Return(e, g, claim, incarnation, at);
      step.Write? <==>
        && claim.childID !in g.budgetReturns && claim.childRevision == c.revision && Settled(c)
        && claim.used.Keys == c.spec.allocation.Keys
        && forall name :: name in claim.used ==> 0 <= claim.used[name] <= c.spec.allocation[name]
    ensures var step := Return(e, g, claim, incarnation, at);
      step.Write? ==>
        && OneGroup(e, step.target, GroupIdentity(g))
        && ReturnedAs(g, step.target.children[GroupIdentity(g)], i, claim, e.revision, incarnation, at)
  {
    hide EnvInv, FindChild, ReturnUnits, ReturnedAs, CurrentGroup, GroupInv;
    Found(e, GroupIdentity(g), i, claim.childID);
    ReturnFacts(e, GroupIdentity(g), i);
    ReturnUnitsIs(g, i, claim, StampOf(e, incarnation, at));
  }

  lemma ReturnFacts(e: Envelope, k: Digest, i: nat)
    requires k in e.children && i < |e.children[k].children| && EnvInv(e)
    ensures var c := e.children[k].children[i];
      NamedUnits(c.spec.allocation) && ValidChild(c) && (Settled(c) ==> c.revision != 0)
  {
    hide EnvInv, ValidGroup;
    GroupFacts(e, k);
    AllocationNamed(e.children[k], i);
    ValidAt(e.children[k], i);
    hide GroupInv, NamedUnits;
  }

  lemma ReturnUnitsIs(g: ChildGroup, i: nat, claim: BudgetClaim, stamp: Stamp)
    requires i < |g.children| && FindChild(g.children, claim.childID) == Some(i)
    requires NamedUnits(g.children[i].spec.allocation) && ValidChild(g.children[i])
    ensures var c := g.children[i]; var r := ReturnUnits(g, claim, stamp);
      r.Ok? && !r.value.1 <==>
        && claim.childID !in g.budgetReturns && claim.childRevision == c.revision && Settled(c)
        && claim.used.Keys == c.spec.allocation.Keys
        && forall name :: name in claim.used ==> 0 <= claim.used[name] <= c.spec.allocation[name]
    ensures var r := ReturnUnits(g, claim, stamp);
      r.Ok? && !r.value.1 ==>
        && GroupIdentity(r.value.0) == GroupIdentity(g)
        && ReturnedAs(g, r.value.0, i, claim, stamp.sourceRevision, stamp.incarnation, stamp.at)
  {
    hide ValidChild, FindChild;
  }

  predicate ReturnedAs(
    g: ChildGroup, h: ChildGroup, i: nat, claim: BudgetClaim, revision: uint64, incarnation: uint64, at: Time)
  {
    && i < |g.children| && h == g.(budgetReturns := h.budgetReturns) && claim.childID in h.budgetReturns
    && h.budgetReturns == g.budgetReturns[claim.childID := h.budgetReturns[claim.childID]]
    && var d := h.budgetReturns[claim.childID];
       && d.childRevision == claim.childRevision && d.decisionID == claim.decisionID && d.reason == claim.reason
       && d.evidence == claim.evidence && d.used == claim.used && d.sourceRevision == revision
       && d.incarnation == incarnation && d.at == at
       && d.returned.Keys == d.used.Keys == g.children[i].spec.allocation.Keys
       && forall name :: name in d.used ==> d.used[name] + d.returned[name] == g.children[i].spec.allocation[name]
  }

  lemma AllocationNamed(g: ChildGroup, i: nat)
    requires ValidGroup(g) && i < |g.children|
    ensures NamedUnits(g.children[i].spec.allocation)
  {
    SortIsOrdered(g.plan.children);
    assert ChildAt(g, i);
    var spec := SortSpecs(g.plan.children)[i];
    assert spec in SortSpecs(g.plan.children);
    var j :| 0 <= j < |g.plan.children| && g.plan.children[j] == spec;
  }

  /** The same claim again is replayed, another one for the same child refused. */
  lemma RepeatedReturn(e: Envelope, g: ChildGroup, claim: BudgetClaim, incarnation: uint64, at: Time)
    requires Asserted(e, g) && claim.childID in g.budgetReturns && claim.childRevision != 0
    requires claim.childID != "" && claim.decisionID != "" && claim.reason != "" && claim.evidence != ""
    ensures var d := g.budgetReturns[claim.childID];
      Return(e, g, claim, incarnation, at) ==
        if && d.decisionID == claim.decisionID && d.childRevision == claim.childRevision && d.reason == claim.reason
           && d.evidence == claim.evidence && d.used == claim.used
        then Unchanged else Refused(ErrChildRevision)
  {
  }

  // ---------------------------------------------------------------- planning

  /** The group as planned: every spec once, in ID order, as a child of its own
      identity that has not been queued yet. */
  predicate PlannedAs(e: Envelope, g: ChildGroup, plan: ChildGroupPlan, available: Units) {
    && g.parentID == e.executionID && g.node == e.progress.pointer && g.activation == e.activation
    && g.plan == plan.(children := g.plan.children) && Ordered(g.plan.children)
    && multiset(g.plan.children) == multiset(plan.children)
    && |g.children| == |g.plan.children| && g.mergedIDs == [] && g.mergedResult == [] && !g.cancelRequested
    && g.cancelRequest.None? && g.capacity == available && g.budgetReturns == map[]
    && forall i :: 0 <= i < |g.children| ==>
         && g.children[i].spec == g.plan.children[i] && g.children[i].state.Planned? && g.children[i].revision == 0
         && g.children[i].executionID ==
              ChildAddress(e.executionID, e.progress.pointer, e.activation, plan.key, g.children[i].spec.id)
  }

  lemma {:induction false} InsertAdds(x: ChildSpec, specs: seq<ChildSpec>)
    ensures multiset(Insert(x, specs)) == multiset{x} + multiset(specs)
  {
    if specs != [] && !Below(x.id, specs[0].id) {
      InsertAdds(x, specs[1..]);
      assert specs == [specs[0]] + specs[1..];
    }
  }

  /** Sorting permutes. */
  lemma {:induction false} SortPermutes(specs: seq<ChildSpec>)
    ensures multiset(SortSpecs(specs)) == multiset(specs)
  {
    if specs != [] {
      SortPermutes(specs[1..]);
      InsertAdds(specs[0], SortSpecs(specs[1..]));
      assert specs == [specs[0]] + specs[1..];
    }
  }

  /** Exactly a plannable group that fits beside what its activation already holds
      is stored, under the key of its plan. */
  lemma PlanAnswer(e: Envelope, plan: ChildGroupPlan, available: Units)
    requires EnvInv(e) && BoundGroup(e, plan.key) !in e.children
    ensures var k := BoundGroup(e, plan.key); var step := Prepare(e, plan, available);
      if !Plannable(e.executionID, e.progress.pointer, e.activation, plan, available)
      then step == Refused(ErrChildInvalid)
      else
        && k == ChildAddress(e.executionID, e.progress.pointer, e.activation, plan.key, "")
        && (step.Write? || step == Refused(ErrBudgetExceeded))
        && (step.Write? <==> L.LedgerHolds(
              e.children[k := PlannedGroup(e.executionID, e.progress.pointer, e.activation, plan, available)]))
        && (step.Write? ==>
              && k in step.target.children && PlannedAs(e, step.target.children[k], plan, available)
              && step.target == e.(children := e.children[k := step.target.children[k]])
              && L.LedgerHolds(step.target.children))
  {
    hide EnvInv, L.LedgerHolds, PlannedGroup, PlannedAs, Plannable;
    PlanFacts(e);
    if Plannable(e.executionID, e.progress.pointer, e.activation, plan, available) {
      PlannedGroupIs(e, plan, available);
    }
  }

  lemma PlannedGroupIs(e: Envelope, plan: ChildGroupPlan, available: Units)
    requires Plannable(e.executionID, e.progress.pointer, e.activation, plan, available)
    ensures var g := PlannedGroup(e.executionID, e.progress.pointer, e.activation, plan, available);
      PlannedAs(e, g, plan, available)
  {
    SortPermutes(plan.children);
    SortIsOrdered(plan.children);
  }

  /** The plan of an existing group is replayed in whatever order its specs come;
      other specs, labels or capacities are refused. */
  lemma ReplanAnswer(e: Envelope, plan: ChildGroupPlan, available: Units)
    requires BoundGroup(e, plan.key) in e.children && DistinctIDs(plan.children)
    requires DistinctIDs(e.children[BoundGroup(e, plan.key)].plan.children)
    ensures var g := e.children[BoundGroup(e, plan.key)];
      Prepare(e, plan, available) ==
        if g.capacity != available then Refused(ErrBudgetExceeded)
        else if multiset(g.plan.children) == multiset(plan.children) && g.plan == plan.(children := g.plan.children)
        then Unchanged else Refused(ErrChildInvalid)
  {
    var g := e.children[BoundGroup(e, plan.key)];
    SortPermutes(plan.children);
    SortPermutes(g.plan.children);
    SortIsOrdered(plan.children);
    SortIsOrdered(g.plan.children);
    if multiset(g.plan.children) == multiset(plan.children) {
      OrderedUnique(SortSpecs(g.plan.children), SortSpecs(plan.children));
    }
  }

  /** One multiset of specs has one order. */
  lemma {:induction false} OrderedUnique(a: seq<ChildSpec>, b: seq<ChildSpec>)
    requires Ordered(a) && Ordered(b) && multiset(a) == multiset(b)
    ensures a == b
  {
    if a == [] {
      assert |multiset(b)| == 0;
    } else {
      assert |multiset(a)| == |a| && |multiset(b)| == |b|;
      FirstIsLeast(a, b);
      assert a == [a[0]] + a[1..] && b == [b[0]] + b[1..];
      assert multiset(a[1..]) == multiset(a) - multiset{a[0]};
      assert multiset(b[1..]) == multiset(b) - multiset{b[0]};
      OrderedUnique(a[1..], b[1..]);
    }
  }

  lemma FirstIsLeast(a: seq<ChildSpec>, b: seq<ChildSpec>)
    requires Ordered(a) && Ordered(b) && multiset(a) == multiset(b) && a != [] && b != []
    ensures a[0] == b[0]
  {
    assert a[0] in multiset(b) && b[0] in multiset(a);
    var i :| 0 <= i < |b| && b[i] == a[0];
    var j :| 0 <= j < |a| && a[j] == b[0];
    if i > 0 && j > 0 {
      assert Below(b[0].id, b[i].id) && Below(a[0].id, a[j].id);
      BelowTransitive(a[0].id, b[0].id, a[0].id);
      NotBelowSelf(a[0].id);
    }
  }

  lemma NotBelowSelf(a: string)
    ensures !Below(a, a)
  {
  }
}
