/** The late call as a run: the world reaches a delivery that strands its
    execution, so the conditions on runs are not empty. */
module LateRuns {
  import opened Basics
  import opened Envelopes
  import opened Lifecycle
  import opened StoreModel
  import opened StoreSteps
  import opened AggregateInvariant
  import opened RuntimeOps
  import opened Transfers
  import opened DurableRuns
  import opened DurableSafety
  import opened DurablePerform
  import opened DurableLoads
  import opened DurableTheorems
  import opened LateFindings
  import S = ActivitySteps
  import W = WaitArbitration
  import AO = ActivityOps
  import SO = StepOps
  import WO = WaitOps
  import CO = ChildOps

  /** The session holds its lease and knows the head of its execution. */
  predicate Ready(w: World, sid: nat, incarnation: uint64, e: Envelope) {
    && w.sessions.Keys == {sid} && w.now == 0 && Fence(w.store, e.executionID) == incarnation
    && w.sessions[sid] == Session(Lease(e.executionID, "owner", incarnation, 10), Some(e), {}, {})
    && Held(w.store, w.now, w.sessions[sid].lease)
    && Head(w.store, e.executionID) == e.revision && Payload(w.store, e.executionID, e.revision) == Some(e)
  }

  /** Nothing in the target stops the store from taking it. */
  predicate Acceptable(e: Envelope, t: Envelope) {
    && t.executionID == e.executionID && e.revision < MAX_UINT64 && t.progress.pointer != ""
    && t.executionID != "" && ValidDescriptor(t.descriptor)
    && RolloverTransitionError(Some(e), t).None? && ForkTransition(Some(e), t)
  }

  lemma CommitLands(s: Store, now: Time, lease: Lease, e: Envelope, t: Envelope)
    requires StoreInv(s) && Held(s, now, lease) && lease.executionID == e.executionID && Acceptable(e, t)
    requires Head(s, e.executionID) == e.revision && Payload(s, e.executionID, e.revision) == Some(e)
    ensures Commit(s, now, e.revision, lease, t).Ok?
  {
    hide StoreInv, Held, ValidDescriptor, RolloverTransitionError, ForkTransition, IntegrityHolds, Anchored;
    PayloadFacts(s, e.executionID, e.revision);
  }

  lemma PerformIs(w: World, sid: nat, ss: Session, e: Envelope, op: Op)
    requires SessionAt(w, sid) == Some(ss) && ss.envelope == Some(e) && Allowed(ss, e, op)
    ensures Moved(w, Perform(sid, op, true)) == Performed(w, ss, e, sid, op, true)
  {
    hide Performed, Allowed, Retain, Acquire, Leasing, Created, CommitRollover, Load;
  }

  /** A session that is ready commits what its operation writes. */
  lemma OperationLands(w: World, sid: nat, incarnation: uint64, e: Envelope, op: Op, t: Envelope)
    requires StoreInv(w.store) && Ready(w, sid, incarnation, e) && Acceptable(e, t)
    requires (op.ArmWait? && e.terminal.None?) || op.PrepareActivity?
    requires Apply(e, op, incarnation) == Write(t)
    ensures Ready(Moved(w, Perform(sid, op, true)), sid, incarnation, Next(e, t))
  {
    hide Apply, StoreInv, StoreExtends, Acceptable, Commit, Moved;
    var ss := w.sessions[sid];
    PerformIs(w, sid, ss, e, op);
    CommitLands(w.store, w.now, ss.lease, e, t);
    CommitKeeps(w.store, w.now, e.revision, ss.lease, t);
    HeldAfter(w.store, w.now, ss.lease, e, t);
    SameOwner(e, t);
  }

  lemma SameOwner(e: Envelope, t: Envelope)
    requires Acceptable(e, t)
    ensures t.executionID == e.executionID
  {
    hide ValidDescriptor, RolloverTransitionError, ForkTransition;
  }

  lemma HeldAfter(s: Store, now: Time, lease: Lease, e: Envelope, t: Envelope)
    requires Held(s, now, lease) && Commit(s, now, e.revision, lease, t).Ok?
    ensures var u := Commit(s, now, e.revision, lease, t).value.0; Held(u, now, lease) && u.fences == s.fences
  {
    hide CommitError;
  }

  const ARM := Perform(0, ArmWait(SNAPSHOT, SPEC, PROFILE), true)
  const CALL := Perform(0, PrepareActivity(REQUEST), true)
  const DELIVER := Perform(1, DeliverWait(DELIVERY, 50, true, []), true)
  const MOVES: seq<Move> := [
    Attach(0, "run", "owner", 10), Create(0, FIRST, true), ARM, CALL, Detach(0), Attach(1, "run", "owner", 10), Open(1),
    DELIVER]

  lemma NextMove(n: nat)
    requires n < |MOVES|
    ensures Run(MOVES[..n + 1]) == Moved(Run(MOVES[..n]), MOVES[n])
  {
    hide Moved;
    assert MOVES[..n + 1][..n] == MOVES[..n];
  }

  const LEASE := Lease("run", "owner", 1, 10)

  /** The worker holds the lease of an execution that does not exist yet. */
  predicate Attached(w: World) {
    && w.now == 0 && w.store == EMPTY.(fences := map["run" := 1], leases := map["run" := LEASE])
    && w.sessions == map[0 := Session(LEASE, None, {}, {})]
  }

  lemma AttachLands()
    ensures Attached(Moved(START, Attach(0, "run", "owner", 10)))
  {
    hide OnSession, Retain;
  }

  lemma CreateLands(w: World)
    requires Attached(w)
    ensures Ready(Moved(w, Create(0, FIRST, true)), 0, 1, Started())
  {
    StartedSound();
    hide Fresh, EnvInv, Performed, Leasing, CommitRollover, Retain, Acquire;
    assert Commit(w.store, 0, 0, LEASE, FIRST).Ok?;
    assert Commit(w.store, 0, 0, LEASE, FIRST).value.1 == Started();
    hide CommitError, Started;
  }

  /** The worker has ended and its lease is free again. */
  predicate Ended(w: World, e: Envelope) {
    && w.now == 0 && w.sessions == map[] && e.executionID == "run"
    && "run" !in w.store.leases && Fence(w.store, "run") == 1
    && Head(w.store, "run") == e.revision && Payload(w.store, "run", e.revision) == Some(e)
  }

  lemma DetachLands(w: World, e: Envelope)
    requires Ready(w, 0, 1, e) && e.executionID == "run"
    ensures Ended(Moved(w, Detach(0)), e)
  {
    hide Performed, CommitRollover, Retain, Acquire;
  }

  /** The operator holds the lease next. */
  predicate Reattached(w: World, e: Envelope) {
    && w.now == 0 && e.executionID == "run" && Fence(w.store, "run") == 2
    && w.sessions == map[1 := Session(Lease("run", "owner", 2, 10), None, {}, {})]
    && Held(w.store, 0, Lease("run", "owner", 2, 10))
    && Head(w.store, "run") == e.revision && Payload(w.store, "run", e.revision) == Some(e)
  }

  lemma ReattachLands(w: World, e: Envelope)
    requires Ended(w, e)
    ensures Reattached(Moved(w, Attach(1, "run", "owner", 10)), e)
  {
    hide OnSession, Retain;
  }

  lemma OpenLands(w: World, e: Envelope)
    requires StoreInv(w.store) && Reattached(w, e) && CollectionsValid(e)
    ensures Ready(Moved(w, Open(1)), 1, 2, e)
  {
    hide StoreInv, CollectionsValid, Retain, Acquire, Performed, CommitRollover, Created, Leasing;
    PayloadFacts(w.store, "run", e.revision);
    hide Decode;
  }

  lemma StoreOf(n: nat)
    requires n <= |MOVES|
    ensures StoreInv(Run(MOVES[..n]).store)
  {
    hide Run, StoreInv, HistorySound, HistoryOrdered, SessionSound, TracesSound;
    RunKeeps(MOVES[..n]);
  }

  /** The worker's part: the wait is armed and the late call accepted. */
  lemma WorkerRuns()
    ensures Ready(Run(MOVES[..4]), 0, 1, Late())
  {
    hide Moved, Ready, StoreInv, Apply, Acceptable;
    assert MOVES[..0] == [];
    NextMove(0);
    NextMove(1);
    NextMove(2);
    NextMove(3);
    AttachLands();
    CreateLands(Run(MOVES[..1]));
    StoreOf(2);
    StoreOf(3);
    var armed, called := Started().(waits := map[ADDRESS := WAIT]), LateTarget();
    ArmApplies();
    CallApplies();
    OperationLands(Run(MOVES[..2]), 0, 1, Started(), ArmWait(SNAPSHOT, SPEC, PROFILE), armed);
    OperationLands(Run(MOVES[..3]), 0, 1, Waiting(), PrepareActivity(REQUEST), called);
  }

  function LateTarget(): Envelope {
    WithRecord(Waiting(), S.NewRecord("run", "node", 1, REQUEST))
  }

  lemma ArmApplies()
    ensures var t := Started().(waits := map[ADDRESS := WAIT]);
      Apply(Started(), ArmWait(SNAPSHOT, SPEC, PROFILE), 1) == Write(t) && Acceptable(Started(), t)
  {
    WaitArmed();
    hide WO.Arm;
  }

  lemma CallApplies()
    ensures Apply(Waiting(), PrepareActivity(REQUEST), 1) == Write(LateTarget()) && Acceptable(Waiting(), LateTarget())
  {
    LateCallAccepted();
    hide AO.Prepare;
  }

  /** The operator's part: the delivery lands and strands the late record. */
  lemma SomeRunStrands()
    ensures StrandingMove(Run(MOVES[..7]), DELIVER)
  {
    hide Moved, Ready, StoreInv, Apply, Acceptable, CollectionsValid, EnvInv, Idle, Commits;
    WorkerRuns();
    NextMove(4);
    NextMove(5);
    NextMove(6);
    DetachLands(Run(MOVES[..4]), Late());
    ReattachLands(Run(MOVES[..5]), Late());
    LateSound();
    LoadsNow(Late());
    StoreOf(6);
    OpenLands(Run(MOVES[..6]), Late());
    StoreOf(7);
    DeliveryStrands(Run(MOVES[..7]));
  }

  lemma DeliveryStrands(w: World)
    requires StoreInv(w.store) && Ready(w, 1, 2, Late())
    ensures StrandingMove(w, DELIVER)
  {
    hide Apply, StoreInv, EnvInv, Idle, Late, Acceptable, WO.Deliver, Commit;
    var t := DeliveryAccepted();
    LateSound();
    LateIsFirst();
    DeliveryApplies(t);
    DeliveryAcceptable(t);
    DeliveryMoves(w, Late(), t);
  }

  lemma LateIsFirst()
    ensures Late().activation == 1
  {
  }

  lemma DeliveryMoves(w: World, e: Envelope, t: Envelope)
    requires StoreInv(w.store) && Ready(w, 1, 2, e) && Acceptable(e, t) && Apply(e, DELIVER.op, 2) == Write(t)
    requires !Idle(e) && t.activation != e.activation
    ensures StrandingMove(w, DELIVER)
  {
    hide Apply, StoreInv, Idle, Acceptable, Commit;
    var ss := w.sessions[1];
    CommitLands(w.store, w.now, ss.lease, e, t);
    assert Commits(w, DELIVER, ss, e, t) && Stranding(e, DELIVER.op, t);
  }

  lemma DeliveryApplies(t: Envelope)
    requires WO.Deliver(Late(), DELIVERY, 2, 50, true, []) == Write(t)
    ensures Apply(Late(), DELIVER.op, 2) == Write(t)
  {
    hide AO.Prepare, AO.Begin, AO.Abandon, AO.Finish, AO.Resolve, WO.Arm, WO.Deliver, WO.Cancel, SO.Migrate, Late;
    hide CO.Prepare, CO.Queue, CO.Run, CO.Finish, CO.Recover, CO.Cancel, CO.Join, CO.Return, CO.Confirm, CO.ResolveWait;
    hide CO.ResolveOutcome, SO.Save, SO.CommitStep, SO.CommitRunFailure;
  }

  lemma DeliveryAcceptable(t: Envelope)
    requires WO.Deliver(Late(), DELIVERY, 2, 50, true, []) == Write(t)
    ensures Acceptable(Late(), t)
  {
    hide Late, WO.Deliver;
    LateFields();
    DeliveryKeeps(Late(), t);
  }

  lemma LateFields()
    ensures var e := Late();
      && e.executionID == "run" && e.revision == 3 && e.descriptor == FIRST.descriptor && e.progress.pointer == "node"
      && e.fork.None? && e.rollover.None? && e.transfer.None?
      && ADDRESS in e.waits && e.waits[ADDRESS].spec == SPEC
  {
  }

  lemma DeliveryKeeps(e: Envelope, t: Envelope)
    requires WO.Deliver(e, DELIVERY, 2, 50, true, []) == Write(t)
    requires ADDRESS in e.waits && e.waits[ADDRESS].spec == SPEC && e.executionID == "run" && e.revision == 3
    requires e.progress.pointer == "node" && e.descriptor == FIRST.descriptor
    requires e.fork.None? && e.rollover.None? && e.transfer.None?
    ensures Acceptable(e, t)
  {
    hide W.PrepareWaitDecision;
  }

  /** The late call breaks the promise that every committed aggregate loads. */
  lemma SomeRunNeverLoads()
    ensures !Punctual(MOVES) && !Timely(MOVES) && !AllLoad(MOVES)
  {
    hide Run, StrandingMove, AllLoad;
    SomeRunStrands();
    assert MOVES[7] == DELIVER;
    assert !Timely(MOVES);
    LoadsIffTimely(MOVES);
    if Punctual(MOVES) {
      PunctualGates(MOVES);
      assert false;
    }
  }
}
