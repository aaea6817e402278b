/** All operations of the runtime on one aggregate, and what a session must have
    done before it may issue them. */
module RuntimeOps {
  import opened Basics
  import opened Envelopes
  import opened AggregateInvariant
  import A = ActivityRecords
  import S = ActivitySteps
  import AO = ActivityOps
  import SO = StepOps
  import WO = WaitOps
  import CO = ChildOps
  import C = ChildRecords
  import H = ChildSteps
  import W = WaitArbitration

  datatype Op =
    | PrepareActivity(request: S.ActivityRequest)
    | BeginActivity(request: S.ActivityRequest, checkedAt: Time, startedAt: Time)
    | AbandonActivity(request: S.ActivityRequest)
    | FinishDispatch(identity: Digest, attempt: int, outcome: AO.Outcome, now: Time, sample: Option<uint64>)
    | FinishReconcile(identity: Digest, payload: Bytes)
    | ResolveActivity(token: uint64, resolution: S.ActivityResolution, at: Time, sample: Option<uint64>)
    | SaveSnapshot(snapshot: SO.Snapshot)
    | CommitStep(retry: bool, end: SO.StepEnd, snapshot: SO.Snapshot)
    | CommitRunFailure(recoverable: bool, reason: string, message: string, snapshot: SO.Snapshot)
    | Migrate(descriptor: Descriptor, progress: Progress, effects: Bytes, chain: seq<string>)
    | ArmWait(snapshot: SO.Snapshot, spec: W.WaitSpec, profile: W.WaitProfile)
    | DeliverWait(delivery: W.WaitDelivery, at: Time, matched: bool, state: Bytes)
    | CancelWait(token: uint64, cancellation: W.WaitCancellation, at: Time, runMeta: RunMeta)
    | PrepareChildren(plan: C.ChildGroupPlan, available: C.Units)
    | QueueChild(group: Digest, childID: string)
    | RunChild(group: Digest, childID: string)
    | FinishChild(group: Digest, invocation: H.ChildInvocation, result: C.ChildResult, dispatchError: Option<string>)
    | RecoverChildren(group: Digest)
    | CancelChildren(expected: C.ChildGroup, cancel: H.CancelRequest, at: Time)
    | JoinChildren(expected: C.ChildGroup, merged: Bytes)
    | ReturnBudget(expected: C.ChildGroup, claim: H.BudgetClaim, at: Time)
    | ConfirmChildCancel(token: uint64, address: CO.GroupAddress, confirmation: H.CancelConfirmation, at: Time)
    | ResolveChildWait(token: uint64, address: CO.GroupAddress, waitResolution: H.WaitResolution, at: Time)
    | ResolveChildOutcome(token: uint64, outcomeRequest: C.OutcomeRequest, at: Time)

  ghost function Apply(e: Envelope, op: Op, incarnation: uint64): Step {
    match op
    case PrepareActivity(q) => AO.Prepare(e, q)
    case BeginActivity(q, checkedAt, startedAt) => AO.Begin(e, q, incarnation, checkedAt, startedAt)
    case AbandonActivity(q) => AO.Abandon(e, q, incarnation)
    case FinishDispatch(id, _, outcome, now, sample) => AO.Finish(e, id, outcome, AO.DispatchOrigin(e), now, sample)
    case FinishReconcile(id, payload) => AO.Finish(e, id, AO.Succeeded(payload), A.Reconciled, 0, None)
    case ResolveActivity(token, q, at, sample) => AO.Resolve(e, token, q, incarnation, at, sample)
    case SaveSnapshot(s) => SO.Save(e, s)
    case CommitStep(retry, end, s) => SO.CommitStep(e, retry, end, s)
    case CommitRunFailure(recoverable, reason, message, s) => SO.CommitRunFailure(e, recoverable, reason, message, s)
    case Migrate(descriptor, progress, effects, chain) => SO.Migrate(e, descriptor, progress, effects, chain)
    case ArmWait(s, spec, profile) => WO.Arm(e, s, spec, profile)
    case DeliverWait(delivery, at, matched, state) => WO.Deliver(e, delivery, incarnation, at, matched, state)
    case CancelWait(token, q, at, runMeta) => WO.Cancel(e, token, q, incarnation, at, runMeta)
    case PrepareChildren(plan, available) => CO.Prepare(e, plan, available)
    case QueueChild(k, id) => CO.Queue(e, k, id)
    case RunChild(k, id) => CO.Run(e, k, id, incarnation)
    case FinishChild(k, invocation, result, error) => CO.Finish(e, k, invocation, result, error, incarnation)
    case RecoverChildren(k) => CO.Recover(e, k, incarnation)
    case CancelChildren(expected, q, at) => CO.Cancel(e, expected, q, incarnation, at)
    case JoinChildren(expected, merged) => CO.Join(e, expected, merged)
    case ReturnBudget(expected, claim, at) => CO.Return(e, expected, claim, incarnation, at)
    case ConfirmChildCancel(token, address, q, at) => CO.Confirm(e, token, address, q, incarnation, at)
    case ResolveChildWait(token, address, q, at) => CO.ResolveWait(e, token, address, q, incarnation, at)
    case ResolveChildOutcome(token, q, at) => CO.ResolveOutcome(e, token, q, incarnation, at)
  }

  /** Issued by the run loop itself, which ends with the commit of a terminal.
      Every other operation of a run comes from node code through its context,
      at any time, also after the step of that node. */
  predicate LoopOp(op: Op) {
    op.SaveSnapshot? || op.CommitStep? || op.ArmWait?
  }

  /** Issued in a session of its own, which ends with it. */
  predicate OneShot(op: Op) {
    || op.ResolveActivity? || op.DeliverWait? || op.CancelWait?
    || op.ConfirmChildCancel? || op.ResolveChildWait? || op.ResolveChildOutcome?
  }

  /** Issued without node code. */
  predicate OperatorOp(op: Op) {
    OneShot(op) || op.Migrate?
  }

  /** The clock never returns the zero time, and classifiers decide. */
  predicate HostSane(op: Op) {
    match op
    case ResolveActivity(_, _, at, _) => at != 0
    case CancelChildren(_, _, at) => at != 0
    case ReturnBudget(_, _, at) => at != 0
    case FinishDispatch(_, _, outcome, _, _) =>
      outcome.FailedWith? ==> !outcome.decision.classification.NoClass?
    case _ => true
  }

  /** The attempt a session dispatched is still the running one. */
  predicate StillRunning(e: Envelope, id: Digest, attempt: int, incarnation: uint64) {
    && id in e.journal && e.journal[id].state.Running? && |e.journal[id].attempts| == attempt > 0
    && A.Last(e.journal[id]).incarnation == incarnation
  }

  predicate StillUnknown(e: Envelope, id: Digest) {
    id in e.journal && (e.journal[id].state.Unknown? || e.journal[id].state.Completed?)
  }

  /** What the issuing session must know about its envelope. */
  predicate Enabled(e: Envelope, op: Op, incarnation: uint64) {
    && incarnation != 0 && HostSane(op) && (LoopOp(op) ==> e.terminal.None?)
    && (match op
        case FinishDispatch(id, attempt, _, _, _) => StillRunning(e, id, attempt, incarnation)
        case FinishReconcile(id, _) => StillUnknown(e, id)
        case _ => true)
  }

  /** A delivery that decides its wait over outstanding work. */
  predicate Stranding(e: Envelope, op: Op, t: Envelope) {
    op.DeliverWait? && WO.Strands(e, t)
  }

  /** Every write of every operation extends the history of its source, and it
      keeps the aggregate invariant unless it strands outstanding work. */
  ghost predicate Succession(e: Envelope, op: Op, t: Envelope) {
    && Extends(e, Next(e, t))
    && if Stranding(e, op, t) then CoreInv(Next(e, t)) && !Current(Next(e, t)) else EnvInv(Next(e, t))
  }

  lemma ApplySound(e: Envelope, op: Op, incarnation: uint64, t: Envelope)
    requires EnvInv(e) && e.revision < MAX_UINT64 && Enabled(e, op, incarnation)
    requires Apply(e, op, incarnation) == Write(t) && t.progress.pointer != ""
    ensures Succession(e, op, t)
  {
    hide EnvInv, Extends, CoreInv, Current, WO.Strands, Enabled, Apply;
    if op.DeliverWait? {
      DeliveredBy(e, op, incarnation, t);
    } else {
      WritesSound(e, op, incarnation, t);
    }
  }

  lemma DeliveredBy(e: Envelope, op: Op, incarnation: uint64, t: Envelope)
    requires EnvInv(e) && e.revision < MAX_UINT64 && op.DeliverWait? && Apply(e, op, incarnation) == Write(t)
    ensures Succession(e, op, t)
  {
    hide EnvInv, Extends, CoreInv, Current, WO.Strands;
    hide AO.Prepare, AO.Begin, AO.Abandon, AO.Finish, AO.Resolve, WO.Arm, WO.Deliver, WO.Cancel, SO.Migrate;
    hide CO.Prepare, CO.Queue, CO.Run, CO.Finish, CO.Recover, CO.Cancel, CO.Join, CO.Return, CO.Confirm, CO.ResolveWait;
    hide CO.ResolveOutcome, SO.Save, SO.CommitStep, SO.CommitRunFailure;
    WO.DeliverSound(e, op.delivery, incarnation, op.at, op.matched, op.state);
  }

  lemma WritesSound(e: Envelope, op: Op, incarnation: uint64, t: Envelope)
    requires EnvInv(e) && e.revision < MAX_UINT64 && Enabled(e, op, incarnation) && !op.DeliverWait?
    requires Apply(e, op, incarnation) == Write(t) && t.progress.pointer != ""
    ensures Sound(e, t)
  {
    hide EnvInv, Sound;
    hide AO.Prepare, AO.Begin, AO.Abandon, AO.Finish, AO.Resolve, WO.Arm, WO.Deliver, WO.Cancel, SO.Migrate;
    hide CO.Prepare, CO.Queue, CO.Run, CO.Finish, CO.Recover, CO.Cancel, CO.Join, CO.Return, CO.Confirm, CO.ResolveWait;
    hide CO.ResolveOutcome, SO.Resolved;
    match op
    case PrepareActivity(q) => AO.PrepareSound(e, q);
    case BeginActivity(q, checkedAt, startedAt) => AO.BeginSound(e, q, incarnation, checkedAt, startedAt);
    case AbandonActivity(q) => AO.AbandonSound(e, q, incarnation);
    case FinishDispatch(id, _, outcome, now, sample) =>
      AO.FinishSound(e, id, outcome, AO.DispatchOrigin(e), now, sample);
    case FinishReconcile(id, payload) => AO.FinishSound(e, id, AO.Succeeded(payload), A.Reconciled, 0, None);
    case ResolveActivity(token, q, at, sample) => AO.ResolveSound(e, token, q, incarnation, at, sample);
    case SaveSnapshot(s) => SO.SaveSound(e, s);
    case CommitStep(retry, end, s) => SO.CommitStepSound(e, retry, end, s);
    case CommitRunFailure(recoverable, reason, message, s) =>
      SO.CommitRunFailureSound(e, recoverable, reason, message, s);
    case Migrate(descriptor, progress, effects, chain) => SO.MigrateSound(e, descriptor, progress, effects, chain);
    case ArmWait(s, spec, profile) => WO.ArmSound(e, s, spec, profile);
    case DeliverWait(_, _, _, _) =>
    case CancelWait(token, q, at, runMeta) => WO.CancelSound(e, token, q, incarnation, at, runMeta);
    case PrepareChildren(plan, available) => CO.PrepareSound(e, plan, available);
    case QueueChild(k, id) => CO.QueueSound(e, k, id);
    case RunChild(k, id) => CO.RunSound(e, k, id, incarnation);
    case FinishChild(k, invocation, result, error) => CO.FinishSound(e, k, invocation, result, error, incarnation);
    case RecoverChildren(k) => CO.RecoverSound(e, k, incarnation);
    case CancelChildren(expected, q, at) => CO.CancelSound(e, expected, q, incarnation, at);
    case JoinChildren(expected, merged) => CO.JoinSound(e, expected, merged);
    case ReturnBudget(expected, claim, at) => CO.ReturnSound(e, expected, claim, incarnation, at);
    case ConfirmChildCancel(token, address, q, at) => CO.ConfirmSound(e, token, address, q, incarnation, at);
    case ResolveChildWait(token, address, q, at) => CO.ResolveWaitSound(e, token, address, q, incarnation, at);
    case ResolveChildOutcome(token, q, at) => CO.ResolveOutcomeSound(e, token, q, incarnation, at);
  }

  // ------------------------------------------------ what an operation touches

  /** The one activity record an operation may write. */
  function Touched(e: Envelope, op: Op): Option<Digest> {
    match op
    case PrepareActivity(q) => Some(BoundActivity(e, q.key))
    case BeginActivity(q, _, _) => Some(BoundActivity(e, q.key))
    case AbandonActivity(q) => Some(BoundActivity(e, q.key))
    case FinishDispatch(id, _, _, _, _) => Some(id)
    case FinishReconcile(id, _) => Some(id)
    case ResolveActivity(_, q, _, _) => Some(q.identity)
    case _ => None
  }

  predicate Finishing(op: Op, k: Digest) {
    op.FinishDispatch? && op.identity == k
  }

  predicate Identified(e: Envelope, k: Digest) {
    k in e.journal ==> e.journal[k].identity == k
  }

  /** Only the record `k` changed, and it still carries its own identity. */
  predicate OnlyRecord(e: Envelope, t: Envelope, k: Digest) {
    k in t.journal && t == e.(journal := e.journal[k := t.journal[k]]) && t.journal[k].identity == k
  }

  predicate SameRecord(e: Envelope, t: Envelope, k: Digest) {
    k in e.journal && k in t.journal && t.journal[k] == e.journal[k]
  }

  lemma OthersUntouched(e: Envelope, op: Op, incarnation: uint64, t: Envelope, k: Digest)
    requires k in e.journal && EnvInv(e) && Apply(e, op, incarnation) == Write(t) && Touched(e, op) != Some(k)
    ensures SameRecord(e, t, k)
  {
    hide EnvInv, Apply;
    if ChildOp(op) {
      ChildrenOnly(e, op, incarnation, t);
    } else if Touched(e, op).Some? {
      IdentityIs(e, Touched(e, op).value);
      OneRecord(e, op, incarnation, t, Touched(e, op).value);
    } else {
      NoRecord(e, op, incarnation, t);
    }
  }

  predicate ChildOp(op: Op) {
    || op.PrepareChildren? || op.QueueChild? || op.RunChild? || op.FinishChild? || op.RecoverChildren?
    || op.CancelChildren? || op.JoinChildren? || op.ReturnBudget? || op.ConfirmChildCancel? || op.ResolveChildWait?
    || op.ResolveChildOutcome?
  }

  lemma OneRecord(e: Envelope, op: Op, incarnation: uint64, t: Envelope, k: Digest)
    requires Touched(e, op) == Some(k) && Apply(e, op, incarnation) == Write(t) && Identified(e, k)
    ensures OnlyRecord(e, t, k)
  {
    hide CO.Prepare, CO.Queue, CO.Run, CO.Finish, CO.Recover, CO.Cancel, CO.Join, CO.Return, CO.Confirm, CO.ResolveWait;
    hide CO.ResolveOutcome;
    hide WO.Arm, WO.Deliver, WO.Cancel, SO.Save, SO.CommitStep, SO.CommitRunFailure, SO.Migrate;
    hide AO.Prepare, AO.Begin, AO.Abandon, AO.Finish, AO.Resolve, OnlyRecord, Identified;
    if op.PrepareActivity? || op.BeginActivity? || op.AbandonActivity? {
      StartsOne(e, op, incarnation, t, k);
    } else if op.ResolveActivity? {
      ResolvesOne(e, op, incarnation, t, k);
    } else {
      FinishesOne(e, op, incarnation, t, k);
    }
  }

  lemma StartsOne(e: Envelope, op: Op, incarnation: uint64, t: Envelope, k: Digest)
    requires op.PrepareActivity? || op.BeginActivity? || op.AbandonActivity?
    requires Touched(e, op) == Some(k) && Apply(e, op, incarnation) == Write(t) && Identified(e, k)
    ensures OnlyRecord(e, t, k)
  {
    hide CO.Prepare, CO.Queue, CO.Run, CO.Finish, CO.Recover, CO.Cancel, CO.Join, CO.Return, CO.Confirm, CO.ResolveWait;
    hide CO.ResolveOutcome;
    hide WO.Arm, WO.Deliver, WO.Cancel, SO.Save, SO.CommitStep, SO.CommitRunFailure, SO.Migrate;
    hide A.ValidRecord, AO.ValidRequest, AO.Finish, AO.Resolve;
  }

  lemma FinishesOne(e: Envelope, op: Op, incarnation: uint64, t: Envelope, k: Digest)
    requires op.FinishDispatch? || op.FinishReconcile?
    requires Touched(e, op) == Some(k) && Apply(e, op, incarnation) == Write(t) && Identified(e, k)
    ensures OnlyRecord(e, t, k)
  {
    hide CO.Prepare, CO.Queue, CO.Run, CO.Finish, CO.Recover, CO.Cancel, CO.Join, CO.Return, CO.Confirm, CO.ResolveWait;
    hide CO.ResolveOutcome;
    hide WO.Arm, WO.Deliver, WO.Cancel, SO.Save, SO.CommitStep, SO.CommitRunFailure, SO.Migrate;
    hide A.ValidRecord, AO.ValidRequest, AO.Prepare, AO.Begin, AO.Abandon, AO.Resolve;
  }

  lemma ResolvesOne(e: Envelope, op: Op, incarnation: uint64, t: Envelope, k: Digest)
    requires op.ResolveActivity?
    requires Touched(e, op) == Some(k) && Apply(e, op, incarnation) == Write(t) && Identified(e, k)
    ensures OnlyRecord(e, t, k)
  {
    hide CO.Prepare, CO.Queue, CO.Run, CO.Finish, CO.Recover, CO.Cancel, CO.Join, CO.Return, CO.Confirm, CO.ResolveWait;
    hide CO.ResolveOutcome;
    hide WO.Arm, WO.Deliver, WO.Cancel, SO.Save, SO.CommitStep, SO.CommitRunFailure, SO.Migrate;
    hide A.ValidRecord, AO.ValidRequest, AO.Prepare, AO.Begin, AO.Abandon, AO.Finish;
  }

  lemma NoRecord(e: Envelope, op: Op, incarnation: uint64, t: Envelope)
    requires Touched(e, op).None? && !ChildOp(op) && Apply(e, op, incarnation) == Write(t)
    ensures t.journal == e.journal && t.children == e.children
  {
    hide CO.Prepare, CO.Queue, CO.Run, CO.Finish, CO.Recover, CO.Cancel, CO.Join, CO.Return, CO.Confirm, CO.ResolveWait;
    hide CO.ResolveOutcome;
    hide AO.Prepare, AO.Begin, AO.Abandon, AO.Finish, AO.Resolve;
    hide CollectionsValid, W.PrepareWaitDecision, W.PlanWait, SO.Resolved;
  }

  lemma ChildrenOnly(e: Envelope, op: Op, incarnation: uint64, t: Envelope)
    requires ChildOp(op) && Apply(e, op, incarnation) == Write(t)
    ensures t == e.(children := t.children)
  {
    hide AO.Prepare, AO.Begin, AO.Abandon, AO.Finish, AO.Resolve;
    hide WO.Arm, WO.Deliver, WO.Cancel, SO.Save, SO.CommitStep, SO.CommitRunFailure, SO.Migrate;
    hide H.QueueChild, H.RunChild, H.FinishChild, H.RecoverGroup, H.RequestCancellation, H.JoinChildren, H.ReturnUnits;
    hide H.ConfirmCancellation, H.ResolveWait, H.ResolveOutcome, C.Plannable, C.PlannedGroup, CO.Asserted;
  }

  lemma IdentityIs(e: Envelope, id: Digest)
    requires EnvInv(e)
    ensures Identified(e, id)
  {
    hide A.ValidRecord, ChildrenValid, WaitsValid, RecordAt;
  }

  /** A dispatched attempt stays the running one until it is finished. */
  lemma RunningKept(e: Envelope, op: Op, incarnation: uint64, t: Envelope, k: Digest, n: int)
    requires EnvInv(e) && Enabled(e, op, incarnation) && Apply(e, op, incarnation) == Write(t) && !op.ResolveActivity?
    requires StillRunning(e, k, n, incarnation) && !Finishing(op, k)
    ensures StillRunning(t, k, n, incarnation)
  {
    hide EnvInv, Apply, Enabled;
    TouchedNotRunning(e, op, incarnation, t, k, n);
    OthersUntouched(e, op, incarnation, t, k);
  }

  lemma TouchedNotRunning(e: Envelope, op: Op, incarnation: uint64, t: Envelope, k: Digest, n: int)
    requires Enabled(e, op, incarnation) && Apply(e, op, incarnation) == Write(t) && !op.ResolveActivity?
    requires StillRunning(e, k, n, incarnation) && !Finishing(op, k)
    ensures Touched(e, op) != Some(k)
  {
    hide CO.Prepare, CO.Queue, CO.Run, CO.Finish, CO.Recover, CO.Cancel, CO.Join, CO.Return, CO.Confirm, CO.ResolveWait;
    hide CO.ResolveOutcome;
    hide WO.Arm, WO.Deliver, WO.Cancel, SO.Save, SO.CommitStep, SO.CommitRunFailure, SO.Migrate;
    hide A.ValidRecord;
  }

  lemma UnknownKept(e: Envelope, op: Op, incarnation: uint64, t: Envelope, k: Digest)
    requires EnvInv(e) && Enabled(e, op, incarnation) && Apply(e, op, incarnation) == Write(t) && !op.ResolveActivity?
    requires StillUnknown(e, k)
    ensures StillUnknown(t, k)
  {
    hide EnvInv, Apply, Enabled;
    if Touched(e, op) == Some(k) {
      IdentityIs(e, k);
      TouchedUnknown(e, op, incarnation, t, k);
    } else {
      OthersUntouched(e, op, incarnation, t, k);
    }
  }

  lemma TouchedUnknown(e: Envelope, op: Op, incarnation: uint64, t: Envelope, k: Digest)
    requires Enabled(e, op, incarnation) && Apply(e, op, incarnation) == Write(t) && !op.ResolveActivity?
    requires StillUnknown(e, k) && Touched(e, op) == Some(k) && Identified(e, k)
    ensures StillUnknown(t, k)
  {
    hide CO.Prepare, CO.Queue, CO.Run, CO.Finish, CO.Recover, CO.Cancel, CO.Join, CO.Return, CO.Confirm, CO.ResolveWait;
    hide CO.ResolveOutcome;
    hide WO.Arm, WO.Deliver, WO.Cancel, SO.Save, SO.CommitStep, SO.CommitRunFailure, SO.Migrate;
    hide A.ValidRecord;
  }

  /** What the acknowledgement of a begin shows: a running record with one more
      attempt than before. */
  predicate Begun(e: Envelope, t: Envelope, k: Digest, incarnation: uint64) {
    && k in e.journal && k in t.journal && t.journal[k].identity == k
    && |t.journal[k].attempts| == |e.journal[k].attempts| + 1
    && StillRunning(t, k, |t.journal[k].attempts|, incarnation)
  }

  lemma BegunRecord(
    e: Envelope, q: S.ActivityRequest, checkedAt: Time, startedAt: Time, incarnation: uint64, t: Envelope)
    requires EnvInv(e) && AO.Begin(e, q, incarnation, checkedAt, startedAt) == Write(t)
    ensures Begun(e, t, BoundActivity(e, q.key), incarnation)
  {
    hide EnvInv, A.ValidRecord;
    IdentityIs(e, BoundActivity(e, q.key));
  }

  /** ... and of a launch: a running child that was not launched before. */
  predicate Starts(e: Envelope, t: Envelope, k: Digest, childID: string, i: nat) {
    && k in e.children && k in t.children && i < |e.children[k].children| == |t.children[k].children|
    && e.children[k].children[i].spec.id == childID == t.children[k].children[i].spec.id
    && !C.Launched(e.children[k].children[i]) && t.children[k].children[i].state.Running?
  }

  lemma LaunchedChild(e: Envelope, k: Digest, childID: string, incarnation: uint64, t: Envelope) returns (i: nat)
    requires EnvInv(e) && CO.Run(e, k, childID, incarnation) == Write(t)
    ensures Starts(e, t, k, childID, i)
  {
    hide EnvInv;
    GroupIdentityIs(e, k);
    i := C.FindChild(e.children[k].children, childID).value;
  }

  lemma GroupIdentityIs(e: Envelope, k: Digest)
    requires EnvInv(e)
    ensures k in e.children ==> k == C.GroupIdentity(e.children[k])
  {
    hide JournalValid, WaitsValid, RecordsInductive, GroupAt;
  }
}
