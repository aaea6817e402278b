/** What holds only while node code keeps to its own step: nothing is outstanding
    behind a terminal or an armed wait. The runtime does not enforce it. */
module Gates {
  import opened Basics
  import opened Envelopes
  import opened AggregateInvariant
  import opened RuntimeOps
  import A = ActivityRecords
  import S = ActivitySteps
  import C = ChildRecords
  import G = ChildGroups
  import H = ChildSteps
  import L = ChildCapacity
  import K = ChildLedger
  import W = WaitArbitration
  import AO = ActivityOps
  import SO = StepOps
  import WO = WaitOps
  import CO = ChildOps

  /** The two operations that make new work outstanding. */
  predicate Prepares(op: Op) {
    op.PrepareActivity? || op.PrepareChildren?
  }

  // -------------------------------------------------------- exact conditions

  /** A prepared activity always loads; the gate holds afterwards exactly when
      the run was neither over nor waiting. */
  lemma PrepareGateIff(e: Envelope, q: S.ActivityRequest, t: Envelope)
    requires EnvInv(e) && e.revision < MAX_UINT64 && AO.Prepare(e, q) == Write(t)
    ensures EnvInv(Next(e, t)) && (Gated(Next(e, t)) <==> NodeActive(e))
  {
    hide EnvInv, A.ValidRecord, AO.ValidRequest;
    AO.PrepareSound(e, q);
    var f := Next(e, t);
    var k := BoundActivity(e, q.key);
    assert k in f.journal && A.Unresolved(f.journal[k].state);
    assert f.waits == e.waits && f.terminal == e.terminal;
  }

  /** Likewise for a group of children. */
  lemma PrepareChildrenGateIff(e: Envelope, plan: C.ChildGroupPlan, available: C.Units, t: Envelope)
    requires EnvInv(e) && e.revision < MAX_UINT64 && CO.Prepare(e, plan, available) == Write(t)
    ensures EnvInv(Next(e, t)) && (Gated(Next(e, t)) <==> NodeActive(e))
  {
    hide EnvInv, L.LedgerHolds;
    CO.PrepareSound(e, plan, available);
    var f := Next(e, t);
    var k := BoundGroup(e, plan.key);
    C.SortIsOrdered(plan.children);
    assert k in f.children && !C.Merged(f.children[k]);
    assert f.waits == e.waits && f.terminal == e.terminal;
  }

  // ------------------------------------------------------ every other write

  /** Every write but an untimely preparation keeps the gate. */
  lemma GateKept(e: Envelope, op: Op, incarnation: uint64, t: Envelope)
    requires EnvInv(e) && Gated(e) && Enabled(e, op, incarnation) && Apply(e, op, incarnation) == Write(t)
    requires Prepares(op) ==> NodeActive(e)
    ensures Gated(Next(e, t))
  {
    hide EnvInv, Enabled, Apply, Idle, HasArmed;
    if Prepares(op) {
      SameGate(e, op, incarnation, t);
    } else if Idle(e) {
      StaysIdle(e, op, incarnation, t);
    } else {
      StaysActive(e, op, incarnation, t);
    }
    NextParts(e, t);
  }

  lemma NextParts(e: Envelope, t: Envelope)
    ensures Idle(Next(e, t)) == Idle(t) && NodeActive(Next(e, t)) == NodeActive(t)
  {
  }

  /** Operations on activities and children touch neither waits nor terminal. */
  lemma SameGate(e: Envelope, op: Op, incarnation: uint64, t: Envelope)
    requires EnvInv(e) && Apply(e, op, incarnation) == Write(t) && (Touched(e, op).Some? || ChildOp(op))
    ensures t.waits == e.waits && t.terminal == e.terminal && NodeActive(t) == NodeActive(e)
  {
    hide EnvInv, Apply;
    if Touched(e, op).Some? {
      IdentityIs(e, Touched(e, op).value);
      OneRecord(e, op, incarnation, t, Touched(e, op).value);
    } else {
      ChildrenOnly(e, op, incarnation, t);
    }
  }

  lemma StaysIdle(e: Envelope, op: Op, incarnation: uint64, t: Envelope)
    requires EnvInv(e) && Idle(e) && Enabled(e, op, incarnation) && Apply(e, op, incarnation) == Write(t)
    requires !Prepares(op)
    ensures Idle(t)
  {
    hide EnvInv, Apply, Enabled;
    if Touched(e, op).Some? {
      hide Idle;
      TouchesUnresolved(e, op, incarnation, t, Touched(e, op).value);
      SettledThere(e, Touched(e, op).value);
      assert false;
    } else if ChildOp(op) {
      ChildrenStayMerged(e, op, incarnation, t);
    } else {
      NoRecord(e, op, incarnation, t);
    }
  }

  lemma SettledThere(e: Envelope, k: Digest)
    requires Idle(e) && k in e.journal
    ensures !A.Unresolved(e.journal[k].state)
  {
  }

  /** Only unresolved records are ever changed. */
  lemma TouchesUnresolved(e: Envelope, op: Op, incarnation: uint64, t: Envelope, k: Digest)
    requires EnvInv(e) && Enabled(e, op, incarnation) && Apply(e, op, incarnation) == Write(t)
    requires Touched(e, op) == Some(k) && !Prepares(op)
    ensures k in e.journal && A.Unresolved(e.journal[k].state)
  {
    hide EnvInv, A.ValidRecord;
    hide CO.Prepare, CO.Queue, CO.Run, CO.Finish, CO.Recover, CO.Cancel, CO.Join, CO.Return, CO.Confirm, CO.ResolveWait;
    hide CO.ResolveOutcome;
    hide WO.Arm, WO.Deliver, WO.Cancel, SO.Save, SO.CommitStep, SO.CommitRunFailure, SO.Migrate;
  }

  /** With every group merged only a budget return still writes, and it leaves
      its group merged. */
  lemma ChildrenStayMerged(e: Envelope, op: Op, incarnation: uint64, t: Envelope)
    requires EnvInv(e) && Idle(e) && Enabled(e, op, incarnation) && Apply(e, op, incarnation) == Write(t)
    requires ChildOp(op) && !Prepares(op)
    ensures Idle(t)
  {
    hide EnvInv, Idle;
    hide AO.Prepare, AO.Begin, AO.Abandon, AO.Finish, AO.Resolve, WO.Arm, WO.Deliver, WO.Cancel, SO.Migrate;
    hide CO.Prepare, CO.Queue, CO.Run, CO.Finish, CO.Recover, CO.Cancel, CO.Join, CO.Return, CO.Confirm, CO.ResolveWait;
    hide CO.ResolveOutcome, SO.Save, SO.CommitStep, SO.CommitRunFailure;
    match op
    case QueueChild(k, id) => LaunchWrites(e, k, id, incarnation);
    case RunChild(k, id) => LaunchWrites(e, k, id, incarnation);
    case FinishChild(k, invocation, result, error) => FinishWrites(e, k, invocation, result, error, incarnation);
    case RecoverChildren(k) => RecoverWrites(e, k, incarnation);
    case CancelChildren(expected, q, at) => CancelWrites(e, expected, q, incarnation, at);
    case JoinChildren(expected, merged) => JoinWrites(e, expected, merged);
    case ReturnBudget(expected, claim, at) => ReturnWrites(e, expected, claim, incarnation, at);
    case ConfirmChildCancel(token, address, q, at) => DecisionWrites(e, token, address, q, incarnation, at);
    case ResolveChildWait(token, address, q, at) => WaitWrites(e, token, address, q, incarnation, at);
    case ResolveChildOutcome(token, q, at) => OutcomeWrites(e, token, q, incarnation, at);
  }

  lemma AllJoined(e: Envelope, k: Digest)
    requires EnvInv(e) && Idle(e) && k in e.children
    ensures e.children[k].mergedIDs != [] && C.Merged(e.children[k])
    ensures forall i: nat :: i < |e.children[k].children| ==> C.Settled(e.children[k].children[i])
  {
    hide EnvInv, G.GroupInv;
    CO.GroupFacts(e, k);
    CO.HasChildren(e.children[k], e.revision);
    forall i: nat | i < |e.children[k].children| ensures C.Settled(e.children[k].children[i]) {
      if !C.Settled(e.children[k].children[i]) {
        CO.UnsettledFacts(e, k, i);
        assert false;
      }
    }
  }

  lemma LaunchWrites(e: Envelope, k: Digest, id: string, incarnation: uint64)
    requires EnvInv(e) && Idle(e)
    ensures !CO.Queue(e, k, id).Write? && !CO.Run(e, k, id, incarnation).Write?
  {
    hide EnvInv, Idle;
    if k in e.children {
      AllJoined(e, k);
    }
  }

  lemma FinishWrites(
    e: Envelope, k: Digest, invocation: H.ChildInvocation, result: C.ChildResult, dispatchError: Option<string>,
    incarnation: uint64)
    requires EnvInv(e) && Idle(e)
    ensures !CO.Finish(e, k, invocation, result, dispatchError, incarnation).Write?
  {
    hide EnvInv, Idle, C.ValidChild;
    if k in e.children {
      AllJoined(e, k);
    }
  }

  lemma RecoverWrites(e: Envelope, k: Digest, incarnation: uint64)
    requires EnvInv(e) && Idle(e)
    ensures !CO.Recover(e, k, incarnation).Write?
  {
    hide EnvInv, Idle, H.RecoverError;
    if k in e.children {
      AllJoined(e, k);
    }
  }

  lemma CancelWrites(e: Envelope, expected: C.ChildGroup, q: H.CancelRequest, incarnation: uint64, at: Time)
    requires EnvInv(e) && Idle(e)
    ensures !CO.Cancel(e, expected, q, incarnation, at).Write?
  {
    hide EnvInv, Idle;
    if CO.Asserted(e, expected) {
      AllJoined(e, C.GroupIdentity(expected));
    }
  }

  lemma JoinWrites(e: Envelope, expected: C.ChildGroup, merged: Bytes)
    requires EnvInv(e) && Idle(e)
    ensures !CO.Join(e, expected, merged).Write?
  {
    hide EnvInv, Idle;
    if CO.Asserted(e, expected) {
      AllJoined(e, C.GroupIdentity(expected));
    }
  }

  lemma ReturnWrites(e: Envelope, expected: C.ChildGroup, claim: H.BudgetClaim, incarnation: uint64, at: Time)
    requires EnvInv(e) && Idle(e)
    ensures CO.Return(e, expected, claim, incarnation, at).Write? ==>
      Idle(CO.Return(e, expected, claim, incarnation, at).target)
  {
    hide EnvInv;
    if CO.Return(e, expected, claim, incarnation, at).Write? {
      AllJoined(e, C.GroupIdentity(expected));
      KeepsJoin(expected, claim, CO.StampOf(e, incarnation, at));
      hide H.ReturnUnits;
    }
  }

  lemma KeepsJoin(g: C.ChildGroup, claim: H.BudgetClaim, stamp: H.Stamp)
    requires H.ReturnUnits(g, claim, stamp).Ok?
    ensures var h := H.ReturnUnits(g, claim, stamp).value.0; C.Merged(h) == C.Merged(g)
  {
    hide G.BudgetReturn;
  }

  lemma DecisionWrites(
    e: Envelope, token: uint64, address: CO.GroupAddress, q: H.CancelConfirmation, incarnation: uint64, at: Time)
    requires EnvInv(e) && Idle(e)
    ensures !CO.Confirm(e, token, address, q, incarnation, at).Write?
  {
    hide EnvInv, Idle, C.ValidChild;
    if CO.Admit(e, token, address).Ok? {
      AllJoined(e, ChildAddress(e.executionID, address.node, address.activation, address.key, ""));
    }
  }

  lemma WaitWrites(
    e: Envelope, token: uint64, address: CO.GroupAddress, q: H.WaitResolution, incarnation: uint64, at: Time)
    requires EnvInv(e) && Idle(e)
    ensures !CO.ResolveWait(e, token, address, q, incarnation, at).Write?
  {
    hide EnvInv, Idle, C.ValidChild;
    if CO.Admit(e, token, address).Ok? {
      AllJoined(e, ChildAddress(e.executionID, address.node, address.activation, address.key, ""));
    }
  }

  lemma OutcomeWrites(e: Envelope, token: uint64, q: C.OutcomeRequest, incarnation: uint64, at: Time)
    requires EnvInv(e) && Idle(e)
    ensures !CO.ResolveOutcome(e, token, q, incarnation, at).Write?
  {
    hide EnvInv, Idle, C.ValidChild, CO.OutcomeUsed, CO.OutcomeRecorded;
    if CO.Admit(e, token, CO.GroupAddress(q.node, q.activation, q.groupKey)).Ok? {
      AllJoined(e, ChildAddress(e.executionID, q.node, q.activation, q.groupKey, ""));
    }
  }

  /** While something is outstanding no write ends the run or arms a wait. */
  lemma StaysActive(e: Envelope, op: Op, incarnation: uint64, t: Envelope)
    requires EnvInv(e) && NodeActive(e) && !Idle(e) && Apply(e, op, incarnation) == Write(t)
    ensures NodeActive(t)
  {
    hide EnvInv, Apply, HasArmed, Idle;
    if Touched(e, op).Some? || ChildOp(op) {
      SameGate(e, op, incarnation, t);
    } else {
      SO.ResolvedIsIdle(e);
      CursorStays(e, op, incarnation, t);
    }
  }

  lemma CursorStays(e: Envelope, op: Op, incarnation: uint64, t: Envelope)
    requires NodeActive(e) && !SO.Resolved(e) && Apply(e, op, incarnation) == Write(t)
    requires Touched(e, op).None? && !ChildOp(op)
    ensures NodeActive(t)
  {
    hide AO.Prepare, AO.Begin, AO.Abandon, AO.Finish, AO.Resolve, WO.Deliver, CollectionsValid, SO.Resolved;
    hide CO.Prepare, CO.Queue, CO.Run, CO.Finish, CO.Recover, CO.Cancel, CO.Join, CO.Return, CO.Confirm, CO.ResolveWait;
    hide CO.ResolveOutcome, W.PlanWait;
    if op.DeliverWait? {
      DeliveryStays(e, op.delivery, incarnation, op.at, op.matched, op.state, t);
    }
  }

  /** Without an armed wait a delivery only adds to the ledger. */
  lemma DeliveryStays(
    e: Envelope, delivery: W.WaitDelivery, incarnation: uint64, now: Time, matched: bool, state: Bytes, t: Envelope)
    requires NodeActive(e) && WO.Deliver(e, delivery, incarnation, now, matched, state) == Write(t)
    ensures NodeActive(t)
  {
    hide W.PrepareWaitDecision;
    var k := WO.Addressed(e.waits, delivery.generation).value;
    WO.DeliveryShape(e.waits[k], delivery, e.revision, incarnation, now, matched);
  }

  /** A write that raises the activation of a gated envelope by a delivery found
      an armed wait, and so nothing outstanding. */
  lemma DeliveryNeedsArmed(e: Envelope, op: Op, incarnation: uint64, t: Envelope)
    requires Apply(e, op, incarnation) == Write(t) && Stranding(e, op, t)
    ensures HasArmed(e)
  {
    hide AO.Prepare, AO.Begin, AO.Abandon, AO.Finish, AO.Resolve, WO.Arm, WO.Cancel, SO.Migrate;
    hide CO.Prepare, CO.Queue, CO.Run, CO.Finish, CO.Recover, CO.Cancel, CO.Join, CO.Return, CO.Confirm, CO.ResolveWait;
    hide CO.ResolveOutcome, SO.Save, SO.CommitStep, SO.CommitRunFailure, W.PrepareWaitDecision, Idle;
    var k := WO.Addressed(e.waits, op.delivery.generation).value;
    WO.DeliveryShape(e.waits[k], op.delivery, e.revision, incarnation, op.at, op.matched);
    assert e.waits[k].state.Armed?;
  }
}
