/** Arming, delivering to and canceling the durable wait of an execution. */
module WaitOps {
  import opened Basics
  import opened Envelopes
  import opened AggregateInvariant
  import opened StepOps
  import A = ActivityRecords
  import S = ActivitySteps
  import C = ChildRecords
  import G = ChildGroups
  import L = ChildCapacity
  import W = WaitArbitration

  // -------------------------------------------------------------- operations

  /** Await stores the state and the armed wait in one commit. */
  function Arm(e: Envelope, s: Snapshot, spec: W.WaitSpec, profile: W.WaitProfile): Step {
    if e.profile.Some? && e.profile.value != profile then Refused(ErrExecutionCapability)
    else if s.pointer != e.progress.pointer then Refused(ErrConcurrencyConflict)
    else if e.revision == MAX_UINT64 then Refused(ErrWaitInvalid)
    else if !Resolved(e) then Outstanding
    else match W.PlanWait(e.executionID, s.pointer, e.activation, e.revision + 1, spec, profile)
      case Err(error) => Refused(error)
      case Ok(r) =>
        if W.WaitIdentity(r) in e.waits then Refused(ErrWaitConflict)
        else Write(WithSnapshot(e.(waits := e.waits[W.WaitIdentity(r) := r]), s))
  }

  /** Generations hash the identity, so a generation names at most one wait. */
  function Addressed(waits: map<Digest, W.WaitRecord>, generation: Digest): Option<Digest> {
    if generation.WaitGeneration? && generation.identity in waits && waits[generation.identity].generation == generation
    then Some(generation.identity) else None
  }

  /** The source's search in map order. */
  method FindWaitGeneration(e: Envelope, generation: Digest) returns (r: Result<Digest>)
    requires WaitsValid(e)
    ensures r == if e.waits == map[] then Err(ErrWaitNotArmed)
      else if Addressed(e.waits, generation).None? then Err(ErrWaitUnknown)
      else Ok(Addressed(e.waits, generation).value)
  {
    hide WaitsValid;
    if e.waits == map[] {
      return Err(ErrWaitNotArmed);
    }
    var todo := e.waits.Keys;
    while todo != {}
      invariant todo <= e.waits.Keys
      invariant forall k :: k in e.waits && k !in todo ==> e.waits[k].generation != generation
      decreases todo
    {
      var k :| k in todo;
      if e.waits[k].generation == generation {
        GenerationNames(e, k);
        return Ok(k);
      }
      todo := todo - {k};
    }
    return Err(ErrWaitUnknown);
  }

  /** Distinct waits of an execution have distinct generations. */
  lemma GenerationNames(e: Envelope, k: Digest)
    requires k in e.waits && WaitsValid(e)
    ensures Addressed(e.waits, e.waits[k].generation) == Some(k)
    ensures forall j :: j in e.waits && e.waits[j].generation == e.waits[k].generation ==> j == k
  {
    hide W.ValidDecisions, W.ValidSpec, W.ValidProfile, WaitAt;
  }

  function Continue(e: Envelope, spec: W.WaitSpec, kind: W.DeliveryKind, state: Bytes): Envelope {
    e.(progress := e.progress.(state := state,
         pointer := if kind.Timer? then spec.timeoutPointer else spec.eventPointer,
         journalRefs := map[], groupRefs := map[]),
       activation := Increment(e.activation))
  }

  /** One commit records the decision and, for the winner, the continuation.
      `state` is what the host's pure continuation computed. */
  function Deliver(
    e: Envelope, delivery: W.WaitDelivery, incarnation: uint64, now: Time, matched: bool, state: Bytes): Step
  {
    if delivery.generation == OtherText("") || delivery.id == "" then Refused(ErrWaitInvalid)
    else if e.waits == map[] then Refused(ErrWaitNotArmed)
    else match Addressed(e.waits, delivery.generation)
      case None => Refused(ErrWaitUnknown)
      case Some(k) =>
        match W.PrepareWaitDecision(e.waits[k], delivery, e.revision, incarnation, now, matched)
        case Err(error) => Refused(error)
        case Ok(v) =>
          if v.replay then Unchanged
          else if !v.decision.status.WaitAccepted? then Write(e.(waits := e.waits[k := v.target]))
          else if e.activation == MAX_UINT64 then Refused(ErrWaitInvalid)
          else Write(Continue(e, e.waits[k].spec, delivery.kind, state).(waits := e.waits[k := v.target]))
  }

  /** Cancellation and its terminal are one commit. */
  function Cancel(
    e: Envelope, tokenRevision: uint64, q: W.WaitCancellation, incarnation: uint64, now: Time, runMeta: RunMeta): Step
  {
    if || tokenRevision == 0 || q.generation == OtherText("") || q.id == "" || q.reason == "" || q.evidence == ""
    then Refused(ErrWaitInvalid)
    else if e.waits == map[] then Refused(ErrWaitNotArmed)
    else match Addressed(e.waits, q.generation)
      case None => Refused(ErrWaitUnknown)
      case Some(k) =>
        match W.CheckCancellation(e.waits[k], e.revision, e.terminal.Some?, tokenRevision, q)
        case Err(error) => Refused(error)
        case Ok(replay) =>
          if replay then Unchanged
          else if now == 0 then Refused(ErrWaitInvalid)
          else Write(e.(waits := e.waits[k := W.CancelRecord(e.waits[k], q, e.revision, incarnation, now)],
                        terminal := Some(Terminal(RunFailed, CANCELED_REASON, Some(CANCELED_REASON + ": " + q.reason))),
                        runMeta := runMeta))
  }

  // --------------------------------------------------------------- soundness

  /** A wait enters an aggregate whose other waits keep their place. */
  lemma WaitEnters(e: Envelope, f: Envelope, k: Digest, r: W.WaitRecord)
    requires WaitsValid(e) && SameExecution(e, f) && f.waits == e.waits[k := r]
    requires k == W.WaitIdentity(r) && W.ValidWait(r, f.revision) && WaitAt(f, r)
    requires
      || (f.activation == e.activation && f.progress.pointer == e.progress.pointer && f.terminal == e.terminal)
      || (e.terminal.None? && forall j :: j in e.waits && j != k ==> !e.waits[j].state.Armed?)
    requires r.state.Armed? ==> forall j :: j in e.waits && j != k ==> !e.waits[j].state.Armed?
    requires k in e.waits ==> W.WaitExtends(e.waits[k], r)
    ensures WaitsValid(f) && WaitsExtend(e, f)
  {
    hide W.ValidWait, WaitAt, W.WaitExtends;
    forall j | j in f.waits
      ensures j == W.WaitIdentity(f.waits[j]) && W.ValidWait(f.waits[j], f.revision) && WaitAt(f, f.waits[j])
    {
      if j != k {
        W.ValidWaitLater(e.waits[j], e.revision, f.revision);
        WaitCarried(e, f, e.waits[j]);
      }
    }
    forall j | j in e.waits ensures j in f.waits && W.WaitExtends(e.waits[j], f.waits[j]) {
      if j != k {
        WaitSame(e.waits[j]);
      }
    }
  }

  lemma WaitSame(r: W.WaitRecord)
    ensures W.WaitExtends(r, r)
  {
  }

  /** What the aggregate knows about one wait. */
  lemma WaitFacts(e: Envelope, k: Digest)
    requires k in e.waits && WaitsValid(e)
    ensures W.ValidWait(e.waits[k], e.revision) && k == W.WaitIdentity(e.waits[k]) && WaitAt(e, e.waits[k])
    ensures forall j :: j in e.waits && j != k && e.waits[k].state.Armed? ==> !e.waits[j].state.Armed?
  {
    hide W.ValidWait, WaitAt;
  }

  /** Everything but the waits carries over to a successor. */
  lemma RestCarried(e: Envelope, f: Envelope)
    requires EnvInv(e) && e.revision < MAX_UINT64 && SameExecution(e, f) && f.revision == e.revision + 1
    requires f.journal == e.journal && f.children == e.children && f.transfer == e.transfer
    requires f.progress.pointer != "" && f.activation <= f.revision
    requires SameCursor(e, f) || (Idle(e) && f.progress.journalRefs == map[] && f.progress.groupRefs == map[])
    requires f.terminal == e.terminal || (e.terminal.None? && f.terminal.Some? && f.terminal.value.status.RunFailed?)
    requires WaitsValid(f) && WaitsExtend(e, f)
    ensures EnvInv(f) && Extends(e, f)
  {
    hide JournalValid, RecordsInductive, JournalExtends, ChildrenValid, WaitsValid, ChildrenExtend;
    hide WaitsExtend, W.ValidProfile, JournalRefsValid, GroupRefsValid;
    RefsCarriedIf(e, f);
    JournalCarried(e, f);
    InductiveCarried(e, f);
    ChildrenCarried(e, f);
    JournalSame(e, f);
    ChildrenSame(e, f);
  }

  lemma RefsCarriedIf(e: Envelope, f: Envelope)
    ensures f.progress.journalRefs == map[] ==> JournalRefsValid(f)
    ensures f.progress.groupRefs == map[] ==> GroupRefsValid(f)
  {
  }

  lemma ArmSound(e: Envelope, s: Snapshot, spec: W.WaitSpec, profile: W.WaitProfile)
    requires EnvInv(e) && e.revision < MAX_UINT64 && e.terminal.None?
    ensures StepSound(e, Arm(e, s, spec, profile))
    ensures Arm(e, s, spec, profile).Write? ==> Idle(e)
  {
    hide EnvInv, WaitsValid, WaitsExtend, Resolved, Idle;
    if Arm(e, s, spec, profile).Write? {
      ResolvedIsIdle(e);
      ArmFacts(e);
      var f := Next(e, Arm(e, s, spec, profile).target);
      W.PlannedWaitValid(e.executionID, s.pointer, e.activation, e.revision + 1, spec, profile);
      var r := W.PlanWait(e.executionID, s.pointer, e.activation, e.revision + 1, spec, profile).value;
      hide W.ValidWait;
      WaitEnters(e, f, W.WaitIdentity(r), r);
      RestCarried(e, f);
    }
  }

  lemma ArmFacts(e: Envelope)
    requires EnvInv(e)
    ensures WaitsValid(e) && e.progress.pointer != "" && e.activation <= e.revision
  {
    hide JournalValid, ChildrenValid, WaitsValid;
  }

  /** The written waits are valid, and only an accepted delivery moves the cursor. */
  predicate Carries(e: Envelope, t: Envelope, accepted: bool) {
    && SameExecution(e, Next(e, t)) && t.journal == e.journal && t.children == e.children
    && t.transfer == e.transfer && t.terminal == e.terminal && WaitsValid(Next(e, t)) && WaitsExtend(e, Next(e, t))
    && (if accepted then
          && t.activation == Increment(e.activation) > e.activation && t.progress.pointer != ""
          && t.progress.journalRefs == map[] && t.progress.groupRefs == map[]
        else SameCursor(e, t))
  }

  lemma DeliverCarries(
    e: Envelope, delivery: W.WaitDelivery, incarnation: uint64, now: Time, matched: bool, state: Bytes)
    requires WaitsValid(e) && e.revision < MAX_UINT64
    requires Deliver(e, delivery, incarnation, now, matched, state).Write?
    ensures var t := Deliver(e, delivery, incarnation, now, matched, state).target;
      Carries(e, t, t.activation != e.activation)
  {
    hide WaitsValid, WaitsExtend, W.PrepareWaitDecision, W.WaitExtends, W.ValidWait;
    var step := Deliver(e, delivery, incarnation, now, matched, state);
    var k := Addressed(e.waits, delivery.generation).value;
    var r := e.waits[k];
    var v := W.PrepareWaitDecision(r, delivery, e.revision, incarnation, now, matched).value;
    var f := Next(e, step.target);
    WaitFacts(e, k);
    W.DeliveryPreserves(r, delivery, e.revision, incarnation, now, matched);
    DeliveryShape(r, delivery, e.revision, incarnation, now, matched);
    DeliveredAt(e, f, k, v);
    WaitEnters(e, f, k, v.target);
  }

  /** A delivery that decides its wait raises the activation without looking at
      what is outstanding, so what it commits loads exactly when nothing is. Any
      envelope the loader accepts may be the source. */
  lemma DeliverLoadsIff(
    e: Envelope, delivery: W.WaitDelivery, incarnation: uint64, now: Time, matched: bool, state: Bytes, t: Envelope)
    requires CollectionsValid(e) && e.revision < MAX_UINT64
    requires Deliver(e, delivery, incarnation, now, matched, state) == Write(t)
    ensures CollectionsValid(Next(e, t)) <==> t.activation == e.activation || Idle(e)
  {
    hide JournalValid, ChildrenValid, WaitsValid, WaitsExtend, W.ValidProfile, Idle, JournalRefsValid, GroupRefsValid;
    hide Deliver, NoneUnresolved, AllMerged;
    DeliverCarries(e, delivery, incarnation, now, matched, state);
    var f := Next(e, t);
    ProfileKept(e, delivery, incarnation, now, matched, state, t);
    if t.activation == e.activation || Idle(e) {
      IdleParts(e);
      RefsCarriedIf(e, f);
      JournalCarried(e, f);
      ChildrenCarried(e, f);
    } else {
      LeftBehind(e, f);
    }
  }

  lemma ProfileKept(
    e: Envelope, delivery: W.WaitDelivery, incarnation: uint64, now: Time, matched: bool, state: Bytes, t: Envelope)
    requires Deliver(e, delivery, incarnation, now, matched, state) == Write(t)
    ensures t.profile == e.profile
  {
    hide W.PrepareWaitDecision;
  }

  lemma IdleParts(e: Envelope)
    ensures Idle(e) <==> NoneUnresolved(e) && AllMerged(e)
  {
  }

  /** Work of an earlier activation that is still outstanding does not load. */
  lemma LeftBehind(e: Envelope, f: Envelope)
    requires JournalValid(e) && ChildrenValid(e) && f.journal == e.journal && f.children == e.children
    requires e.activation < f.activation && !Idle(e)
    ensures !(JournalValid(f) && ChildrenValid(f)) && !Current(f)
  {
    hide A.ValidRecord, G.GroupInv, L.LedgerHolds, OutcomesDistinct, JournalRefsValid, GroupRefsValid;
    if k :| k in e.journal && A.Unresolved(e.journal[k].state) {
      assert RecordAt(e, e.journal[k]) && !RecordAt(f, f.journal[k]);
    } else {
      var k :| k in e.children && !C.Merged(e.children[k]);
      assert GroupAt(e, e.children[k]) && !GroupAt(f, f.children[k]);
    }
  }

  /** The write leaves outstanding work of an earlier activation behind. */
  predicate Strands(e: Envelope, t: Envelope) {
    t.activation != e.activation && !Idle(e)
  }

  /** A delivery commits a sound successor, unless it strands outstanding work;
      then it still keeps everything but the cursor's hold on that work. */
  lemma DeliverSound(
    e: Envelope, delivery: W.WaitDelivery, incarnation: uint64, now: Time, matched: bool, state: Bytes)
    requires EnvInv(e) && e.revision < MAX_UINT64
    requires Deliver(e, delivery, incarnation, now, matched, state).Write?
    ensures var t := Deliver(e, delivery, incarnation, now, matched, state).target;
      if Strands(e, t) then CoreInv(Next(e, t)) && Extends(e, Next(e, t)) && !Current(Next(e, t)) else Sound(e, t)
  {
    hide EnvInv, WaitsValid, WaitsExtend, Idle, Deliver, CoreInv, Current;
    var t := Deliver(e, delivery, incarnation, now, matched, state).target;
    var f := Next(e, t);
    ArmFacts(e);
    DeliverCarries(e, delivery, incarnation, now, matched, state);
    ProfileKept(e, delivery, incarnation, now, matched, state, t);
    if Strands(e, t) {
      CoreCarried(e, f);
      CollectionFacts(e);
      LeftBehind(e, f);
    } else {
      RestCarried(e, f);
    }
  }

  lemma CollectionFacts(e: Envelope)
    requires EnvInv(e)
    ensures JournalValid(e) && ChildrenValid(e)
  {
    hide JournalValid, ChildrenValid, WaitsValid, RecordsInductive;
  }

  lemma CoreCarried(e: Envelope, f: Envelope)
    requires EnvInv(e) && SameExecution(e, f) && e.revision < f.revision && f.activation <= f.revision
    requires f.journal == e.journal && f.children == e.children && f.transfer == e.transfer && f.terminal == e.terminal
    requires f.progress.pointer != "" && f.progress.journalRefs == map[] && f.progress.groupRefs == map[]
    requires WaitsValid(f) && WaitsExtend(e, f)
    ensures CoreInv(f) && Extends(e, f)
  {
    EnvIsCore(e);
    hide EnvInv, WaitsValid, WaitsExtend, JournalExtends, ChildrenExtend, JournalRefsValid, GroupRefsValid;
    hide W.ValidProfile;
    RefsCarriedIf(e, f);
    JournalSame(e, f);
    ChildrenSame(e, f);
    JournalHeldLater(e, f);
    ChildrenHeldLater(e, f);
    hide JournalHeld, ChildrenHeld, Current;
  }

  lemma JournalHeldLater(e: Envelope, f: Envelope)
    requires JournalHeld(e) && SameExecution(e, f) && f.journal == e.journal && JournalRefsValid(f)
    ensures JournalHeld(f)
  {
    hide S.RecordInv, JournalRefsValid;
  }

  lemma ChildrenHeldLater(e: Envelope, f: Envelope)
    requires ChildrenHeld(e) && SameExecution(e, f) && f.children == e.children && GroupRefsValid(f)
    ensures ChildrenHeld(f)
  {
    hide G.GroupInv, GroupRefsValid, L.LedgerHolds, OutcomesDistinct;
    forall k | k in f.children ensures G.GroupInv(f.children[k], f.revision) {
      G.GroupInvLater(e.children[k], e.revision, f.revision);
    }
  }

  /** Only an accepted decision changes more than the ledger. */
  lemma DeliveryShape(
    r: W.WaitRecord, delivery: W.WaitDelivery, revision: uint64, incarnation: uint64, now: Time, matched: bool)
    requires W.PrepareWaitDecision(r, delivery, revision, incarnation, now, matched).Ok?
    requires !W.PrepareWaitDecision(r, delivery, revision, incarnation, now, matched).value.replay
    ensures var v := W.PrepareWaitDecision(r, delivery, revision, incarnation, now, matched).value;
      && v.target == W.Decided(r, v.decision) && W.WaitIdentity(v.target) == W.WaitIdentity(r)
      && (v.decision.status.WaitAccepted? ==> r.state.Armed? && !v.target.state.Armed? && !v.target.state.Canceled?)
      && (!v.decision.status.WaitAccepted? ==> v.target.state == r.state && v.target.cancellation == r.cancellation)
      && (v.decision.status.WaitAccepted? ==> r.spec.eventPointer != "" && r.spec.timeoutPointer != "")
  {
    hide W.ValidDecisions, W.ValidProfile;
  }

  lemma DeliveredAt(e: Envelope, f: Envelope, k: Digest, v: W.Verdict)
    requires k in e.waits && SameExecution(e, f) && WaitAt(e, e.waits[k])
    requires v.target == W.Decided(e.waits[k], v.decision)
    requires if v.decision.status.WaitAccepted? then !v.target.state.Armed? && !v.target.state.Canceled?
      else f.activation == e.activation && f.progress.pointer == e.progress.pointer && f.terminal == e.terminal
    ensures WaitAt(f, v.target)
  {
  }

  lemma CancelSound(
    e: Envelope, tokenRevision: uint64, q: W.WaitCancellation, incarnation: uint64, now: Time, runMeta: RunMeta)
    requires EnvInv(e) && e.revision < MAX_UINT64 && incarnation != 0
    ensures StepSound(e, Cancel(e, tokenRevision, q, incarnation, now, runMeta))
  {
    hide EnvInv, WaitsValid, WaitsExtend, Idle, W.WaitExtends, W.ValidWait;
    var step := Cancel(e, tokenRevision, q, incarnation, now, runMeta);
    if step.Write? {
      var k := Addressed(e.waits, q.generation).value;
      var f := Next(e, step.target);
      ArmFacts(e);
      WaitFacts(e, k);
      W.CancellationPreserves(e.waits[k], q, e.revision, incarnation, now);
      NoTransfer(e);
      WaitEnters(e, f, k, f.waits[k]);
      RestCarried(e, f);
    }
  }

  lemma NoTransfer(e: Envelope)
    requires EnvInv(e) && e.terminal.None?
    ensures e.transfer.None?
  {
    hide JournalValid, ChildrenValid, WaitsValid;
  }

  // ------------------------------------------------- the continuation is once

  /** The wait at `k` is decided in this write, in favour of `id`. */
  predicate Decides(e: Envelope, t: Envelope, k: Digest, id: string) {
    && k in e.waits && k in t.waits && e.waits[k].state.Armed? && !t.waits[k].state.Armed? && t.waits[k].winnerID == id
  }

  /** A delivery moves the cursor exactly when it decides its wait, in the commit
      that records it as the winner; any other delivery only adds to the ledger. */
  lemma ContinuationWithWinner(
    e: Envelope, delivery: W.WaitDelivery, incarnation: uint64, now: Time, matched: bool, state: Bytes, t: Envelope)
    requires Deliver(e, delivery, incarnation, now, matched, state) == Write(t)
    ensures Addressed(e.waits, delivery.generation).Some?
    ensures var k := Addressed(e.waits, delivery.generation).value;
      if Decides(e, t, k, delivery.id) then
        && t.activation == Increment(e.activation) && t.progress.state == state
        && t.progress.pointer ==
             (if delivery.kind.Timer? then e.waits[k].spec.timeoutPointer else e.waits[k].spec.eventPointer)
      else t == e.(waits := t.waits)
  {
    hide W.PrepareWaitDecision;
    var k := Addressed(e.waits, delivery.generation).value;
    DeliveryShape(e.waits[k], delivery, e.revision, incarnation, now, matched);
    FreshDecision(e.waits[k], delivery, e.revision, incarnation, now, matched);
  }

  lemma FreshDecision(
    r: W.WaitRecord, delivery: W.WaitDelivery, revision: uint64, incarnation: uint64, now: Time, matched: bool)
    requires W.PrepareWaitDecision(r, delivery, revision, incarnation, now, matched).Ok?
    requires !W.PrepareWaitDecision(r, delivery, revision, incarnation, now, matched).value.replay
    ensures W.PrepareWaitDecision(r, delivery, revision, incarnation, now, matched).value.decision.id == delivery.id
  {
    hide W.ValidWait;
  }

  /** The continuation of a generation is applied at most once: after the deciding
      commit no delivery to it moves the cursor of any later envelope again. */
  lemma ContinuationOnce(
    f: Envelope, g: Envelope, k: Digest, delivery: W.WaitDelivery, incarnation: uint64, now: Time, matched: bool,
    state: Bytes, t: Envelope)
    requires k in f.waits && !f.waits[k].state.Armed? && WaitsExtend(f, g)
    requires Addressed(g.waits, delivery.generation) == Some(k)
    requires Deliver(g, delivery, incarnation, now, matched, state) == Write(t)
    ensures t == g.(waits := t.waits) && t.waits[k].winnerID == f.waits[k].winnerID
  {
    assert W.WaitExtends(f.waits[k], g.waits[k]);
    hide W.PrepareWaitDecision, WaitsExtend;
    DeliveryShape(g.waits[k], delivery, g.revision, incarnation, now, matched);
  }
}
