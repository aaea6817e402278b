/** The checkpointer of one run: it holds the lease and the last acknowledged
    envelope, and every method is one operation, or two, carried out as fenced
    commits against the store. */
module Checkpointing {
  import opened Basics
  import opened Envelopes
  import opened Lifecycle
  import opened StoreModel
  import opened MemoryStore
  import opened AggregateInvariant
  import opened RuntimeOps
  import A = ActivityRecords
  import S = ActivitySteps
  import AO = ActivityOps
  import SO = StepOps
  import WO = WaitOps
  import CO = ChildOps
  import C = ChildRecords
  import G = ChildGroups
  import H = ChildSteps
  import L = ChildCapacity
  import W = WaitArbitration
  import opened StepAnswers
  import opened ChildAnswers

  datatype CallResult =
    | Replays(payload: Bytes) | Recovers(identity: Digest) | Dispatches(identity: Digest, attempt: int)
    | Fails(error: Error)

  /** What carrying out one step does: a write is rejected, or committed and then
      acknowledged unless its reply is lost; anything else leaves store and
      envelope as they were. */
  ghost predicate Follows(
    s: Store, e: Envelope, now: Time, lease: Lease, acked: bool, step: Step, t: Store, f: Envelope)
  {
    match step
    case Write(target) =>
      (match Commit(s, now, e.revision, lease, target)
       case Err(_) => t == s && f == e
       case Ok(x) => t == x.0 && f == (if acked then x.1 else e))
    case _ => t == s && f == e
  }

  /** What the caller is told about one step: nothing if it was committed and
      acknowledged or had already happened, and otherwise why not. */
  ghost predicate Answers(s: Store, e: Envelope, now: Time, lease: Lease, acked: bool, step: Step, err: Option<Error>) {
    match step
    case Write(target) => err.None? <==> acked && Commit(s, now, e.revision, lease, target).Ok?
    case Unchanged => err.None?
    case Refused(error) => err == Some(error)
    case Outstanding => err.Some?
  }

  lemma FollowsKeeps(s: Store, e: Envelope, now: Time, lease: Lease, acked: bool, step: Step, t: Store, f: Envelope)
    requires EnvInv(e) && Follows(s, e, now, lease, acked, step, t, f)
    requires step.Write? && step.target.progress.pointer != "" && e.revision < MAX_UINT64 ==> Sound(e, step.target)
    ensures EnvInv(f) && f.executionID == e.executionID
  {
    hide EnvInv, Predecessor;
    if step.Write? && Commit(s, now, e.revision, lease, step.target).Ok? {
      hide JournalExtends, ChildrenExtend, WaitsExtend;
    }
  }

  function ErrorOf<T>(r: Result<T>): Option<Error> {
    match r case Ok(_) => None case Err(error) => Some(error)
  }

  /** The record bound to the request's key has exactly its contract. */
  predicate Stored(e: Envelope, q: S.ActivityRequest) {
    var k := BoundActivity(e, q.key);
    && k in e.journal && e.journal[k].inputDigest == PayloadHash(q.input)
    && e.journal[k].implementation == q.implementation && e.journal[k].retry == q.retry
  }

  /** Outcomes nobody knows, or a failure that must stop its siblings first. */
  predicate Pending(g: C.ChildGroup) {
    exists i :: 0 <= i < |g.children| && (
      || g.children[i].state.Unknown? || g.children[i].state.Running?
      || (g.plan.failurePolicy.FailFast? && g.children[i].state.Failed? && !g.cancelRequested))
  }

  /** The child runs in the version and incarnation it is dispatched in. */
  predicate Invoked(e: Envelope, k: Digest, invocation: H.ChildInvocation, incarnation: uint64) {
    && k in e.children
    && var i := C.FindChild(e.children[k].children, invocation.childID);
       i.Some? && Dispatched(e.children[k].children[i.value], invocation, incarnation)
  }

  /** The child carries the host's result. */
  predicate ChildHas(g: C.ChildGroup, id: string, result: C.ChildResult) {
    var i := C.FindChild(g.children, id);
    && i.Some?
    && var c := g.children[i.value];
       c.state == result.state && c.result == result.payload && c.error == result.error && c.waitID == result.waitID
  }

  class ExecutionCheckpointer {
    const store: MemoryExecutionStore
    const lease: Lease
    var envelope: Envelope
    var stepRevision: uint64
    var persistenceFailed: bool

    /** The envelope belongs to the lease and is one a run may hold. */
    ghost predicate Valid()
      reads this
    {
      EnvInv(envelope) && envelope.executionID == lease.executionID && lease.incarnation != 0
    }

    constructor (store: MemoryExecutionStore, lease: Lease, envelope: Envelope)
      requires EnvInv(envelope) && envelope.executionID == lease.executionID && lease.incarnation != 0
      ensures Valid() && this.store == store && this.lease == lease && this.envelope == envelope
      ensures stepRevision == envelope.revision && !persistenceFailed
    {
      this.store, this.lease, this.envelope := store, lease, envelope;
      stepRevision, persistenceFailed := envelope.revision, false;
    }

    /** One fenced commit of a target prepared from the current envelope. A lost
        reply is an error although the commit took effect. */
    method Persist(now: Time, acked: bool, target: Envelope) returns (err: Option<Error>)
      modifies this`envelope, this`persistenceFailed, store
      ensures Follows(old(store.Contents()), old(envelope), now, lease, acked, Write(target),
        store.Contents(), envelope)
      ensures err.None? <==> acked && Commit(old(store.Contents()), now, old(envelope).revision, lease, target).Ok?
      ensures err.None? ==> envelope == Next(old(envelope), target)
      ensures err.None? ==> Payload(store.Contents(), envelope.executionID, envelope.revision) == Some(envelope)
      ensures persistenceFailed == (old(persistenceFailed) || err.Some?)
      ensures err.None? ==> old(envelope).revision < MAX_UINT64
    {
      CommitBelow(store.Contents(), now, envelope.revision, lease, target);
      hide CommitError;
      var r := store.CommitExecution(now, envelope.revision, lease, target);
      if r.Err? {
        persistenceFailed := true;
        return Some(r.error);
      }
      if !acked {
        persistenceFailed := true;
        return Some(ErrReplyLost);
      }
      envelope := r.value;
      return None;
    }

    /** Snapshot commits also move the revision the next step must quote. */
    method PersistSnapshot(now: Time, acked: bool, target: Envelope) returns (r: Result<uint64>)
      modifies this, store
      ensures Follows(old(store.Contents()), old(envelope), now, lease, acked, Write(target),
        store.Contents(), envelope)
      ensures r.Ok? <==> acked && Commit(old(store.Contents()), now, old(envelope).revision, lease, target).Ok?
      ensures r.Ok? ==> r.value == stepRevision == envelope.revision && envelope == Next(old(envelope), target)
      ensures r.Err? ==> stepRevision == old(stepRevision) && persistenceFailed
    {
      var err := Persist(now, acked, target);
      if err.Some? {
        return Err(err.value);
      }
      stepRevision := envelope.revision;
      return Ok(envelope.revision);
    }

    method Save(now: Time, acked: bool, expectedRevision: uint64, threadID: string, s: SO.Snapshot)
      returns (r: Result<uint64>)
      requires Valid()
      modifies this, store
      ensures old(envelope).terminal.None? ==> Valid()
      ensures expectedRevision != old(stepRevision) || threadID != lease.executionID ==>
        r == Err(ErrConcurrencyConflict) && envelope == old(envelope) && store.Contents() == old(store.Contents())
      ensures expectedRevision == old(stepRevision) && threadID == lease.executionID ==>
        Follows(old(store.Contents()), old(envelope), now, lease, acked, SO.Save(old(envelope), s),
          store.Contents(), envelope)
      ensures expectedRevision == old(stepRevision) && threadID == lease.executionID ==>
        Answers(old(store.Contents()), old(envelope), now, lease, acked, SO.Save(old(envelope), s), ErrorOf(r))
      ensures r.Ok? ==> stepRevision == envelope.revision == r.value
    {
      hide EnvInv, Sound, Commit, SO.Resolved;
      if expectedRevision != stepRevision || threadID != lease.executionID {
        return Err(ErrConcurrencyConflict);
      }
      var e := envelope;
      ghost var before := store.Contents();
      var outstanding := SO.ResolvedActivities(envelope);
      if outstanding.Some? {
        return Err(outstanding.value);
      }
      r := PersistSnapshot(now, acked, SO.WithSnapshot(envelope, s));
      if e.terminal.None? {
        if s.pointer != "" && e.revision < MAX_UINT64 {
          SO.SaveSound(e, s);
        }
        FollowsKeeps(before, e, now, lease, acked, SO.Save(e, s), store.Contents(), envelope);
      }
    }

    /** The commit of a finished step: nothing may be outstanding, and unless a
        node retries itself the activation advances. */
    method CommitStep(now: Time, acked: bool, retry: bool, end: SO.StepEnd, s: SO.Snapshot) returns (r: Result<uint64>)
      requires Valid()
      modifies this, store
      ensures old(envelope).terminal.None? ==> Valid()
      ensures Follows(old(store.Contents()), old(envelope), now, lease, acked,
        SO.CommitStep(old(envelope), retry, end, s), store.Contents(), envelope)
      ensures Answers(old(store.Contents()), old(envelope), now, lease, acked,
        SO.CommitStep(old(envelope), retry, end, s), ErrorOf(r))
      ensures r.Ok? && SO.CommitStep(old(envelope), retry, end, s).Write? ==>
        stepRevision == envelope.revision == r.value && EndsAs(end, envelope.terminal)
    {
      hide EnvInv, Sound, Commit, SO.Resolved;
      var e := envelope;
      ghost var before := store.Contents();
      StepAnswer(e, retry, end, s);
      if end.Waits? {
        return Ok(envelope.revision);
      }
      var outstanding := SO.ResolvedActivities(envelope);
      if outstanding.Some? {
        return Err(outstanding.value);
      }
      var target := e;
      if end.EndsUnsaved? {
        return Ok(envelope.revision);
      }
      if end.Ends? {
        if !end.status.RunCompleted? && !end.status.RunFailed? {
          return Ok(envelope.revision);
        }
        target := target.(terminal := Some(SO.MakeTerminal(end.status, end.reason, end.error)));
      }
      if !retry || s.pointer != e.progress.pointer {
        target := target.(activation := Increment(target.activation),
                          progress := target.progress.(journalRefs := map[], groupRefs := map[]));
      }
      r := PersistSnapshot(now, acked, SO.WithSnapshot(target, s));
      if e.terminal.None? {
        if s.pointer != "" && e.revision < MAX_UINT64 {
          SO.CommitStepSound(e, retry, end, s);
        }
        FollowsKeeps(before, e, now, lease, acked, SO.CommitStep(e, retry, end, s), store.Contents(), envelope);
      }
    }

    /** Neither a failed commit before it, nor recoverable errors, nor unresolved
        work may turn into a terminal failure. */
    method CommitRunFailure(
      now: Time, acked: bool, canceled: bool, recoverable: bool, reason: string, message: string, s: SO.Snapshot)
      returns (err: Option<Error>)
      requires Valid()
      modifies this, store
      ensures Valid()
      ensures canceled || old(persistenceFailed) ==>
        envelope == old(envelope) && store.Contents() == old(store.Contents())
      ensures !canceled && !old(persistenceFailed) ==>
        Follows(old(store.Contents()), old(envelope), now, lease, acked,
          SO.CommitRunFailure(old(envelope), recoverable, reason, message, s), store.Contents(), envelope)
      ensures !canceled && !old(persistenceFailed) ==>
        Answers(old(store.Contents()), old(envelope), now, lease, acked,
          SO.CommitRunFailure(old(envelope), recoverable, reason, message, s), err)
    {
      hide EnvInv, Sound, Commit, SO.Resolved;
      var e := envelope;
      ghost var before := store.Contents();
      if canceled || persistenceFailed || e.terminal.Some? || recoverable {
        return None;
      }
      var outstanding := SO.ResolvedActivities(envelope);
      if outstanding.Some? {
        return None;
      }
      var failed := e.(terminal := Some(Terminal(RunFailed, reason, Some(message))));
      var r := PersistSnapshot(now, acked, SO.WithSnapshot(failed, s));
      if s.pointer != "" && e.revision < MAX_UINT64 {
        SO.CommitRunFailureSound(e, recoverable, reason, message, s);
      }
      FollowsKeeps(before, e, now, lease, acked, SO.CommitRunFailure(e, recoverable, reason, message, s),
        store.Contents(), envelope);
      return if r.Err? then Some(r.error) else None;
    }

    /** Await stores the state together with the armed wait. */
    method ArmWait(
      now: Time, acked: bool, expectedRevision: uint64, threadID: string, s: SO.Snapshot, spec: W.WaitSpec,
      profile: W.WaitProfile)
      returns (r: Result<W.WaitRecord>)
      requires Valid()
      requires envelope.profile.Some? ==> envelope.profile.value == profile
      modifies this, store
      ensures old(envelope).terminal.None? ==> Valid()
      ensures expectedRevision != old(stepRevision) || threadID != lease.executionID ==>
        r == Err(ErrConcurrencyConflict) && envelope == old(envelope) && store.Contents() == old(store.Contents())
      ensures expectedRevision == old(stepRevision) && threadID == lease.executionID ==>
        Follows(old(store.Contents()), old(envelope), now, lease, acked, WO.Arm(old(envelope), s, spec, profile),
          store.Contents(), envelope)
      ensures r.Ok? ==>
        && WO.Arm(old(envelope), s, spec, profile).Write? && stepRevision == envelope.revision
        && W.WaitIdentity(r.value) in envelope.waits && envelope.waits[W.WaitIdentity(r.value)] == r.value
      ensures expectedRevision == old(stepRevision) && threadID == lease.executionID ==>
        Answers(old(store.Contents()), old(envelope), now, lease, acked, WO.Arm(old(envelope), s, spec, profile),
          ErrorOf(r))
    {
      hide EnvInv, Sound, Commit, SO.Resolved, W.PlanWait;
      if expectedRevision != stepRevision || threadID != lease.executionID {
        return Err(ErrConcurrencyConflict);
      }
      var e := envelope;
      ghost var before := store.Contents();
      if s.pointer != e.progress.pointer {
        return Err(ErrConcurrencyConflict);
      }
      if e.revision == MAX_UINT64 {
        return Err(ErrWaitInvalid);
      }
      var outstanding := SO.ResolvedActivities(envelope);
      if outstanding.Some? {
        return Err(outstanding.value);
      }
      var planned := W.PlanWait(e.executionID, s.pointer, e.activation, e.revision + 1, spec, profile);
      if planned.Err? {
        return Err(planned.error);
      }
      var identity := W.WaitIdentity(planned.value);
      if identity in e.waits {
        return Err(ErrWaitConflict);
      }
      var saved := PersistSnapshot(now, acked, SO.WithSnapshot(e.(waits := e.waits[identity := planned.value]), s));
      if e.terminal.None? {
        WO.ArmSound(e, s, spec, profile);
        FollowsKeeps(before, e, now, lease, acked, WO.Arm(e, s, spec, profile), store.Contents(), envelope);
      }
      return if saved.Err? then Err(saved.error) else Ok(planned.value);
    }

    // ------------------------------------------------------------ activities

    /** Carry out one step that writes no snapshot. */
    method Carry(now: Time, acked: bool, step: Step) returns (err: Option<Error>)
      modifies this`envelope, this`persistenceFailed, store
      ensures Follows(old(store.Contents()), old(envelope), now, lease, acked, step, store.Contents(), envelope)
      ensures err.None? ==> step.Write? && envelope == Next(old(envelope), step.target)
      ensures !step.Unchanged? ==> Answers(old(store.Contents()), old(envelope), now, lease, acked, step, err)
      ensures err.None? ==> old(envelope).revision < MAX_UINT64
      ensures err.None? ==> Payload(store.Contents(), envelope.executionID, envelope.revision) == Some(envelope)
      ensures err.Some? ==> envelope == old(envelope)
    {
      hide CommitError;
      if !step.Write? {
        return Some(if step.Refused? then step.error else ErrActivityConflict);
      }
      err := Persist(now, acked, step.target);
    }

    /** One call of an activity up to its dispatch. A missing record is prepared
        first, in a commit of its own (the state after it is `middle`); the
        dispatch is returned only after the running record is acknowledged. Only a
        record of this very request is replayed, recovered or dispatched. */
    method CallActivity(now: Time, acked: bool, begun: bool, q: S.ActivityRequest, checkedAt: Time, startedAt: Time)
      returns (r: CallResult, ghost middle: (Store, Envelope))
      requires Valid()
      modifies this`envelope, this`persistenceFailed, store
      ensures Valid()
      ensures Follows(old(store.Contents()), old(envelope), now, lease, acked, AO.Prepare(old(envelope), q),
        middle.0, middle.1)
      ensures Follows(middle.0, middle.1, now, lease, begun,
        AO.Begin(middle.1, q, lease.incarnation, checkedAt, startedAt), store.Contents(), envelope)
      ensures r.Dispatches? ==>
        && r.identity == BoundActivity(old(envelope), q.key) && Stored(envelope, q)
        && StillRunning(envelope, r.identity, r.attempt, lease.incarnation)
        && Payload(store.Contents(), envelope.executionID, envelope.revision) == Some(envelope)
      ensures !r.Dispatches? && !r.Fails? ==>
        envelope == old(envelope) && store.Contents() == old(store.Contents()) && Stored(envelope, q)
      ensures r.Replays? ==>
        && Stored(envelope, q) && envelope.journal[BoundActivity(envelope, q.key)].state.Completed?
        && r.payload == envelope.journal[BoundActivity(envelope, q.key)].outcome
      ensures r.Recovers? ==>
        && Stored(envelope, q) && r.identity == BoundActivity(envelope, q.key)
        && (envelope.journal[r.identity].state.Running? || envelope.journal[r.identity].state.Unknown?)
    {
      hide EnvInv, Sound, Commit, A.ValidRecord, Payload, AO.Begin, Follows;
      var e := envelope;
      ghost var before := store.Contents();
      var id := BoundActivity(e, q.key);
      if id in e.journal {
        middle := (before, e);
        ghost var begin := AO.Begin(e, q, lease.incarnation, checkedAt, startedAt);
        FollowsUnwritten(before, e, now, lease, acked, AO.Prepare(e, q));
        var record := e.journal[id];
        if !AO.Matches(record, q) || record.state.Completed? || record.state.Running? || record.state.Unknown?
           || S.PreparedError(record, checkedAt).Some? {
          CallRefused(e, q, id, lease.incarnation, checkedAt, startedAt);
          FollowsUnwritten(before, e, now, lease, begun, begin);
        }
        if !AO.Matches(record, q) {
          return Fails(ErrActivityConflict), middle;
        }
        if record.state.Completed? {
          return Replays(record.outcome), middle;
        }
        if record.state.Running? || record.state.Unknown? {
          return Recovers(id), middle;
        }
        if S.PreparedError(record, checkedAt).Some? {
          return Fails(S.PreparedError(record, checkedAt).value), middle;
        }
      } else {
        var failed := Carry(now, acked, AO.Prepare(e, q));
        middle := (store.Contents(), envelope);
        if failed.Some? {
          CallRefused(e, q, id, lease.incarnation, checkedAt, startedAt);
          FollowsUnwritten(middle.0, e, now, lease, begun, AO.Begin(e, q, lease.incarnation, checkedAt, startedAt));
          return Fails(failed.value), middle;
        }
        if e.revision < MAX_UINT64 {
          AO.PrepareSound(e, q);
        }
        FollowsKeeps(before, e, now, lease, acked, AO.Prepare(e, q), middle.0, middle.1);
        SameBinding(e, q);
      }
      r := StartActivity(now, begun, q, checkedAt, startedAt);
    }

    /** The second commit of a call: the running attempt. */
    method StartActivity(now: Time, acked: bool, q: S.ActivityRequest, checkedAt: Time, startedAt: Time)
      returns (r: CallResult)
      requires Valid()
      modifies this`envelope, this`persistenceFailed, store
      ensures Valid()
      ensures Follows(old(store.Contents()), old(envelope), now, lease, acked,
        AO.Begin(old(envelope), q, lease.incarnation, checkedAt, startedAt), store.Contents(), envelope)
      ensures r.Fails? || r.Dispatches?
      ensures AO.Begin(old(envelope), q, lease.incarnation, checkedAt, startedAt).Refused? ==>
        r == Fails(AO.Begin(old(envelope), q, lease.incarnation, checkedAt, startedAt).error)
      ensures r.Dispatches? ==>
        && r.identity == BoundActivity(old(envelope), q.key) && Stored(envelope, q)
        && StillRunning(envelope, r.identity, r.attempt, lease.incarnation)
        && Payload(store.Contents(), envelope.executionID, envelope.revision) == Some(envelope)
    {
      hide EnvInv, Sound, Commit, A.ValidRecord, Payload, AO.Begin, Follows;
      var m := envelope;
      ghost var before := store.Contents();
      var step := AO.Begin(m, q, lease.incarnation, checkedAt, startedAt);
      var refused := Carry(now, acked, step);
      if m.revision < MAX_UINT64 {
        AO.BeginSound(m, q, lease.incarnation, checkedAt, startedAt);
      }
      FollowsKeeps(before, m, now, lease, acked, step, store.Contents(), envelope);
      if refused.Some? {
        return Fails(refused.value);
      }
      BegunRecord(m, q, checkedAt, startedAt, lease.incarnation, step.target);
      BegunContract(m, q, checkedAt, startedAt, lease.incarnation, step.target);
      var identity := BoundActivity(m, q.key);
      return Dispatches(identity, |envelope.journal[identity].attempts|);
    }

    /** A record another incarnation left running becomes unknown before it may be
        reconciled; one of this incarnation is busy. */
    method RecoverActivity(now: Time, acked: bool, q: S.ActivityRequest) returns (err: Option<Error>)
      requires Valid()
      modifies this`envelope, this`persistenceFailed, store
      ensures Valid()
      ensures Follows(old(store.Contents()), old(envelope), now, lease, acked,
        AO.Abandon(old(envelope), q, lease.incarnation), store.Contents(), envelope)
      ensures Answers(old(store.Contents()), old(envelope), now, lease, acked,
        AO.Abandon(old(envelope), q, lease.incarnation), err)
      ensures err.None? ==> StillUnknown(envelope, BoundActivity(old(envelope), q.key)) || envelope == old(envelope)
    {
      hide EnvInv, Sound, Commit, A.ValidRecord;
      var e := envelope;
      ghost var before := store.Contents();
      var step := AO.Abandon(e, q, lease.incarnation);
      if step.Unchanged? {
        return None;
      }
      IdentityIs(e, BoundActivity(e, q.key));
      err := Carry(now, acked, step);
      if e.revision < MAX_UINT64 {
        AO.AbandonSound(e, q, lease.incarnation);
      }
      FollowsKeeps(before, e, now, lease, acked, step, store.Contents(), envelope);
    }

    /** The outcome of a dispatch, or of a reconciliation, is recorded once; a
        repeated outcome of a completed record is replayed or a conflict. */
    method FinishActivity(
      now: Time, acked: bool, id: Digest, outcome: AO.Outcome, origin: A.Origin, sample: Option<uint64>)
      returns (err: Option<Error>)
      requires Valid() && AO.Finishes(envelope, id, outcome, origin)
      modifies this`envelope, this`persistenceFailed, store
      ensures Valid()
      ensures Follows(old(store.Contents()), old(envelope), now, lease, acked,
        AO.Finish(old(envelope), id, outcome, origin, now, sample), store.Contents(), envelope)
      ensures outcome.Succeeded? ==>
        Answers(old(store.Contents()), old(envelope), now, lease, acked,
          AO.Finish(old(envelope), id, outcome, origin, now, sample), err)
      ensures outcome.FailedWith? ==> err.Some?
      ensures outcome.FailedWith? && envelope != old(envelope) ==>
        id in envelope.journal && err == Some(S.RecordError(envelope.journal[id]))
    {
      hide EnvInv, Sound, Commit, A.ValidRecord, AO.Finishes, S.CompleteAttempt, S.FailAttempt, S.RecordError;
      var e := envelope;
      ghost var before := store.Contents();
      var step := AO.Finish(e, id, outcome, origin, now, sample);
      if step.Unchanged? {
        return None;
      }
      err := Carry(now, acked, step);
      if e.revision < MAX_UINT64 {
        AO.FinishSound(e, id, outcome, origin, now, sample);
      }
      FollowsKeeps(before, e, now, lease, acked, step, store.Contents(), envelope);
      if err.None? && outcome.FailedWith? {
        KeptIdentity(e, id, outcome, origin, now, sample);
        return Some(S.RecordError(envelope.journal[id]));
      }
    }

    // -------------------------------------------------------------- children

    /** The plan is fixed, and its claims are checked against everything the
        activation already holds, before any child is launched. */
    method PrepareChildren(now: Time, acked: bool, plan: C.ChildGroupPlan, available: C.Units)
      returns (r: Result<C.ChildGroup>)
      requires Valid()
      modifies this`envelope, this`persistenceFailed, store
      ensures Valid()
      ensures Follows(old(store.Contents()), old(envelope), now, lease, acked,
        CO.Prepare(old(envelope), plan, available), store.Contents(), envelope)
      ensures r.Ok? ==>
        && BoundGroup(envelope, plan.key) in envelope.children
        && r.value == envelope.children[BoundGroup(envelope, plan.key)]
      ensures CO.Prepare(old(envelope), plan, available).Unchanged? ==> r.Ok?
      ensures CO.Prepare(old(envelope), plan, available).Refused? ==> r.Err?
      ensures CO.Prepare(old(envelope), plan, available).Write? ==>
        (r.Ok? <==> acked && Commit(old(store.Contents()), now, old(envelope).revision, lease,
          CO.Prepare(old(envelope), plan, available).target).Ok?)
    {
      hide EnvInv, Sound, Commit, L.LedgerHolds, C.Plannable;
      var e := envelope;
      ghost var before := store.Contents();
      var id := BoundGroup(e, plan.key);
      if id in e.children {
        var prior := e.children[id];
        if prior.capacity != available {
          return Err(ErrBudgetExceeded);
        }
        if CO.SortedPlan(prior.plan) != CO.SortedPlan(plan) {
          return Err(ErrChildInvalid);
        }
        return Ok(prior);
      }
      var group := C.PlanChildGroup(e.executionID, e.progress.pointer, e.activation, plan, available);
      if group.Err? {
        return Err(group.error);
      }
      CapacityNames(e, e.children[id := group.value], id, plan, available);
      var fits := L.ValidateChildCapacityLedger(e.children[id := group.value]);
      if !fits {
        return Err(ErrBudgetExceeded);
      }
      var err := Persist(now, acked, e.(children := e.children[id := group.value]));
      if e.revision < MAX_UINT64 {
        CO.PrepareSound(e, plan, available);
      }
      FollowsKeeps(before, e, now, lease, acked, CO.Prepare(e, plan, available), store.Contents(), envelope);
      return if err.Some? then Err(err.value) else Ok(group.value);
    }

    /** A launch commits the queued child first (the state after it is `middle`)
        and the running child second; only then is it dispatched, in the version
        that was stored. */
    method BeginChild(now: Time, acked: bool, begun: bool, k: Digest, childID: string)
      returns (r: Result<H.ChildInvocation>, ghost middle: (Store, Envelope))
      requires Valid()
      modifies this`envelope, this`persistenceFailed, store
      ensures Valid()
      ensures Follows(old(store.Contents()), old(envelope), now, lease, acked, CO.Queue(old(envelope), k, childID),
        middle.0, middle.1)
      ensures Follows(middle.0, middle.1, now, lease, begun, CO.Run(middle.1, k, childID, lease.incarnation),
        store.Contents(), envelope)
      ensures r.Ok? ==>
        && CO.Run(middle.1, k, childID, lease.incarnation).Write?
        && Payload(store.Contents(), envelope.executionID, envelope.revision) == Some(envelope)
        && r.value.childID == childID && Invoked(envelope, k, r.value, lease.incarnation)
      ensures !CO.Queue(old(envelope), k, childID).Write? && CO.Run(middle.1, k, childID, lease.incarnation).Refused?
        ==>
        r == Err(CO.Run(middle.1, k, childID, lease.incarnation).error)
    {
      hide EnvInv, Sound, Commit, Payload, Invoked, C.FindChild;
      var e := envelope;
      ghost var before := store.Contents();
      var queue := CO.Queue(e, k, childID);
      if queue.Write? {
        var failed := Carry(now, acked, queue);
        middle := (store.Contents(), envelope);
        if e.revision < MAX_UINT64 {
          CO.QueueSound(e, k, childID);
        }
        FollowsKeeps(before, e, now, lease, acked, queue, middle.0, middle.1);
        if failed.Some? {
          return Err(failed.value), middle;
        }
      } else {
        middle := (before, e);
      }
      r := RunQueued(now, begun, k, childID);
    }

    /** The second commit of a launch: the running child. */
    method RunQueued(now: Time, acked: bool, k: Digest, childID: string) returns (r: Result<H.ChildInvocation>)
      requires Valid()
      modifies this`envelope, this`persistenceFailed, store
      ensures Valid()
      ensures Follows(old(store.Contents()), old(envelope), now, lease, acked,
        CO.Run(old(envelope), k, childID, lease.incarnation), store.Contents(), envelope)
      ensures Answers(old(store.Contents()), old(envelope), now, lease, acked,
        CO.Run(old(envelope), k, childID, lease.incarnation), ErrorOf(r))
      ensures r.Ok? ==>
        && CO.Run(old(envelope), k, childID, lease.incarnation).Write?
        && Payload(store.Contents(), envelope.executionID, envelope.revision) == Some(envelope)
        && r.value.childID == childID && Invoked(envelope, k, r.value, lease.incarnation)
    {
      hide EnvInv, Sound, Commit, Payload, Invoked, CO.Run;
      var m := envelope;
      ghost var before := store.Contents();
      var run := CO.Run(m, k, childID, lease.incarnation);
      NeverUnchanged(m, k, childID, lease.incarnation);
      var refused := Carry(now, acked, run);
      if m.revision < MAX_UINT64 {
        CO.RunSound(m, k, childID, lease.incarnation);
      }
      FollowsKeeps(before, m, now, lease, acked, run, store.Contents(), envelope);
      if refused.Some? {
        return Err(refused.value);
      }
      RunStored(m, k, childID, lease.incarnation);
      var i := C.FindChild(envelope.children[k].children, childID).value;
      return Ok(H.ChildInvocation(childID, envelope.children[k].children[i].revision));
    }

    /** The end of a dispatch is recorded; if the outcome is not known the caller is
        told that the group is unresolved. */
    method FinishChild(
      now: Time, acked: bool, k: Digest, invocation: H.ChildInvocation, result: C.ChildResult,
      dispatchError: Option<string>)
      returns (err: Option<Error>)
      requires Valid()
      modifies this`envelope, this`persistenceFailed, store
      ensures Valid()
      ensures Follows(old(store.Contents()), old(envelope), now, lease, acked,
        CO.Finish(old(envelope), k, invocation, result, dispatchError, lease.incarnation), store.Contents(), envelope)
      ensures CO.Finish(old(envelope), k, invocation, result, dispatchError, lease.incarnation).Refused? ==>
        err == Some(CO.Finish(old(envelope), k, invocation, result, dispatchError, lease.incarnation).error)
      ensures dispatchError.Some? || result.state.Unknown? ==> err.Some?
      ensures err.None? ==>
        && envelope != old(envelope) && k in envelope.children
        && ChildHas(envelope.children[k], invocation.childID, result)
    {
      hide EnvInv, Sound, Commit, CO.Finish, ChildHas;
      var e := envelope;
      ghost var before := store.Contents();
      var step := CO.Finish(e, k, invocation, result, dispatchError, lease.incarnation);
      err := Carry(now, acked, step);
      if e.revision < MAX_UINT64 {
        CO.FinishSound(e, k, invocation, result, dispatchError, lease.incarnation);
      }
      FollowsKeeps(before, e, now, lease, acked, step, store.Contents(), envelope);
      if err.None? {
        FinishStored(e, k, invocation, result, dispatchError, lease.incarnation);
        Advanced(e, step.target);
        if dispatchError.Some? || result.state.Unknown? {
          return Some(ErrChildrenUnresolved);
        }
      }
    }

    /** The launches of earlier incarnations become unknown; if one of this
        incarnation still runs the group is busy. */
    method RecoverChildLaunches(now: Time, acked: bool, k: Digest) returns (err: Option<Error>)
      requires Valid()
      modifies this`envelope, this`persistenceFailed, store
      ensures Valid()
      ensures Follows(old(store.Contents()), old(envelope), now, lease, acked,
        CO.Recover(old(envelope), k, lease.incarnation), store.Contents(), envelope)
      ensures err.None? && k in envelope.children ==>
        !H.NeedsRecovery(envelope.children[k]) && !Pending(envelope.children[k])
      ensures CO.Recover(old(envelope), k, lease.incarnation).Refused? ==>
        err == Some(CO.Recover(old(envelope), k, lease.incarnation).error)
      ensures k in envelope.children && Pending(envelope.children[k]) ==> err.Some?
    {
      hide EnvInv, Sound, Commit, H.RecoverError;
      var e := envelope;
      ghost var before := store.Contents();
      var step := CO.Recover(e, k, lease.incarnation);
      if step.Unchanged? {
        return if k in e.children && Pending(e.children[k]) then Some(ErrChildrenUnresolved) else None;
      }
      GroupIdentityIs(e, k);
      err := Carry(now, acked, step);
      if e.revision < MAX_UINT64 {
        CO.RecoverSound(e, k, lease.incarnation);
      }
      FollowsKeeps(before, e, now, lease, acked, step, store.Contents(), envelope);
      if err.None? {
        NoneRunning(e, k, lease.incarnation);
        if Pending(envelope.children[k]) {
          return Some(ErrChildrenUnresolved);
        }
      }
    }

    /** The request is persisted before anyone is notified. */
    method RequestCancellation(now: Time, acked: bool, expected: C.ChildGroup, q: H.CancelRequest)
      returns (err: Option<Error>)
      requires Valid()
      modifies this`envelope, this`persistenceFailed, store
      ensures now != 0 ==> Valid()
      ensures Follows(old(store.Contents()), old(envelope), now, lease, acked,
        CO.Cancel(old(envelope), expected, q, lease.incarnation, now), store.Contents(), envelope)
      ensures Answers(old(store.Contents()), old(envelope), now, lease, acked,
        CO.Cancel(old(envelope), expected, q, lease.incarnation, now), err)
    {
      hide EnvInv, Sound, Commit, H.RequestCancellation;
      var e := envelope;
      ghost var before := store.Contents();
      if q.id == "" || q.reason == "" {
        return Some(ErrChildInvalid);
      }
      if !CO.Asserted(e, expected) {
        return Some(ErrChildRevision);
      }
      var changed := H.RequestChildCancellation(expected, q, CO.StampOf(e, lease.incarnation, now));
      if changed.Err? {
        return Some(changed.error);
      }
      if changed.value.1 {
        return None;
      }
      err := Persist(now, acked, WithGroup(e, changed.value.0));
      var step := CO.Cancel(e, expected, q, lease.incarnation, now);
      hide CO.Cancel;
      if now != 0 {
        if e.revision < MAX_UINT64 {
          CO.CancelSound(e, expected, q, lease.incarnation, now);
        }
        FollowsKeeps(before, e, now, lease, acked, step, store.Contents(), envelope);
      }
    }

    /** `merged` is what the host's pure merge computed from the settled group. */
    method JoinChildren(now: Time, acked: bool, expected: C.ChildGroup, merged: Bytes) returns (r: Result<Bytes>)
      requires Valid()
      modifies this`envelope, this`persistenceFailed, store
      ensures Valid()
      ensures Follows(old(store.Contents()), old(envelope), now, lease, acked,
        CO.Join(old(envelope), expected, merged), store.Contents(), envelope)
      ensures Answers(old(store.Contents()), old(envelope), now, lease, acked,
        CO.Join(old(envelope), expected, merged), ErrorOf(r))
      ensures r.Ok? ==>
        r.value == if CO.Join(old(envelope), expected, merged).Write? then merged else expected.mergedResult
    {
      hide EnvInv, Sound, Commit;
      var e := envelope;
      ghost var before := store.Contents();
      var step := CO.Join(e, expected, merged);
      if step.Unchanged? {
        return Ok(expected.mergedResult);
      }
      hide CO.Join;
      var err := Carry(now, acked, step);
      if e.revision < MAX_UINT64 {
        CO.JoinSound(e, expected, merged);
      }
      FollowsKeeps(before, e, now, lease, acked, step, store.Contents(), envelope);
      if err.Some? {
        return Err(err.value);
      }
      return Ok(merged);
    }

    method ReturnChildBudget(now: Time, acked: bool, expected: C.ChildGroup, claim: H.BudgetClaim)
      returns (err: Option<Error>)
      requires Valid()
      modifies this`envelope, this`persistenceFailed, store
      ensures now != 0 ==> Valid()
      ensures Follows(old(store.Contents()), old(envelope), now, lease, acked,
        CO.Return(old(envelope), expected, claim, lease.incarnation, now), store.Contents(), envelope)
      ensures Answers(old(store.Contents()), old(envelope), now, lease, acked,
        CO.Return(old(envelope), expected, claim, lease.incarnation, now), err)
    {
      hide EnvInv, Sound, Commit, CO.Return;
      var e := envelope;
      ghost var before := store.Contents();
      var step := CO.Return(e, expected, claim, lease.incarnation, now);
      if step.Unchanged? {
        return None;
      }
      err := Carry(now, acked, step);
      if now != 0 {
        if e.revision < MAX_UINT64 {
          CO.ReturnSound(e, expected, claim, lease.incarnation, now);
        }
        FollowsKeeps(before, e, now, lease, acked, step, store.Contents(), envelope);
      }
    }
  }

  /** A step that writes nothing changes nothing. */
  lemma FollowsUnwritten(s: Store, e: Envelope, now: Time, lease: Lease, acked: bool, step: Step)
    ensures !step.Write? ==> Follows(s, e, now, lease, acked, step, s, e)
  {
    hide Commit;
  }

  lemma CallRefused(e: Envelope, q: S.ActivityRequest, k: Digest, incarnation: uint64, checkedAt: Time, startedAt: Time)
    requires k == BoundActivity(e, q.key)
    requires k in e.journal ==> var r := e.journal[k];
      || !AO.Matches(r, q) || r.state.Completed? || r.state.Running? || r.state.Unknown?
      || S.PreparedError(r, checkedAt).Some?
    ensures !AO.Begin(e, q, incarnation, checkedAt, startedAt).Write?
  {
    hide A.ValidRecord;
  }

  lemma NeverUnchanged(e: Envelope, k: Digest, childID: string, incarnation: uint64)
    ensures !CO.Run(e, k, childID, incarnation).Unchanged? && !CO.Run(e, k, childID, incarnation).Outstanding?
  {
    hide H.RunChild;
  }

  lemma RunStored(e: Envelope, k: Digest, childID: string, incarnation: uint64)
    requires EnvInv(e) && CO.Run(e, k, childID, incarnation).Write?
    ensures var t := CO.Run(e, k, childID, incarnation).target;
      && k in t.children && C.FindChild(t.children[k].children, childID).Some?
      && var i := C.FindChild(t.children[k].children, childID).value;
         Invoked(Next(e, t), k, H.ChildInvocation(childID, t.children[k].children[i].revision), incarnation)
  {
    hide EnvInv, C.FindChild, G.GroupInv;
    var i := C.FindChild(e.children[k].children, childID).value;
    LaunchAnswer(e, k, i, childID, incarnation);
    var t := CO.Run(e, k, childID, incarnation).target;
    FoundAfter(e, t, k, i, childID);
  }

  /** Child IDs do not change, so a child is found where it was. */
  lemma FoundAfter(e: Envelope, t: Envelope, k: Digest, i: nat, id: string)
    requires EnvInv(e) && ChildIs(e, k, i, id) && OneChild(e, t, k, i) && ChildIs(t, k, i, id)
    ensures C.FindChild(t.children[k].children, id) == Some(i)
  {
    hide EnvInv, G.ValidGroup;
    CO.GroupFacts(e, k);
    var j := C.FindChild(t.children[k].children, id).value;
    if j != i {
      G.ChildIDsDistinct(e.children[k], i, j);
    }
  }

  lemma FinishStored(
    e: Envelope, k: Digest, invocation: H.ChildInvocation, result: C.ChildResult, dispatchError: Option<string>,
    incarnation: uint64)
    requires EnvInv(e) && CO.Finish(e, k, invocation, result, dispatchError, incarnation).Write?
    ensures var t := CO.Finish(e, k, invocation, result, dispatchError, incarnation).target;
      k in t.children && (dispatchError.None? ==> ChildHas(t.children[k], invocation.childID, result))
  {
    hide EnvInv, C.FindChild, G.GroupInv;
    var i := C.FindChild(e.children[k].children, invocation.childID).value;
    FinishAnswer(e, k, i, invocation, result, dispatchError, incarnation);
    hide C.ValidChild;
    FoundAfter(e, CO.Finish(e, k, invocation, result, dispatchError, incarnation).target, k, i, invocation.childID);
  }

  lemma KeptIdentity(
    e: Envelope, id: Digest, outcome: AO.Outcome, origin: A.Origin, now: Time, sample: Option<uint64>)
    requires EnvInv(e) && AO.Finish(e, id, outcome, origin, now, sample).Write?
    ensures id in Next(e, AO.Finish(e, id, outcome, origin, now, sample).target).journal
  {
    hide EnvInv, A.ValidRecord;
    IdentityIs(e, id);
  }

  lemma SameBinding(e: Envelope, q: S.ActivityRequest)
    requires AO.Prepare(e, q).Write?
    ensures BoundActivity(Next(e, AO.Prepare(e, q).target), q.key) == BoundActivity(e, q.key)
  {
    hide A.ValidRecord;
  }

  lemma BegunContract(
    e: Envelope, q: S.ActivityRequest, checkedAt: Time, startedAt: Time, incarnation: uint64, t: Envelope)
    requires EnvInv(e) && AO.Begin(e, q, incarnation, checkedAt, startedAt) == Write(t)
    ensures Stored(Next(e, t), q) && BoundActivity(Next(e, t), q.key) == BoundActivity(e, q.key)
  {
    hide EnvInv, A.ValidRecord;
    IdentityIs(e, BoundActivity(e, q.key));
  }

  lemma CommitBelow(s: Store, now: Time, expected: uint64, lease: Lease, e: Envelope)
    ensures Commit(s, now, expected, lease, e).Ok? ==> expected < MAX_UINT64
  {
    hide Decode, ForkTransition;
  }

  lemma CapacityNames(e: Envelope, groups: L.Groups, id: Digest, plan: C.ChildGroupPlan, available: C.Units)
    requires id in groups && groups == e.children[id := groups[id]] && groups[id].capacity == available
    requires EnvInv(e) && C.Plannable(e.executionID, e.progress.pointer, e.activation, plan, available)
    ensures forall k :: k in groups ==> C.NamedUnits(groups[k].capacity)
  {
    hide EnvInv, G.GroupInv;
    forall k | k in e.children ensures C.NamedUnits(e.children[k].capacity) {
      CO.GroupFacts(e, k);
      CapacityOf(e.children[k], e.revision);
    }
  }

  lemma CapacityOf(g: C.ChildGroup, revision: uint64)
    requires G.GroupInv(g, revision)
    ensures C.NamedUnits(g.capacity)
  {
    hide G.ValidProvenance, G.ChildAt, G.ValidBudgetReturns, G.ValidJoin, G.ValidGroupCancellation;
  }

  lemma NoneRunning(e: Envelope, k: Digest, incarnation: uint64)
    requires EnvInv(e) && k in e.children && H.RecoverError(e.children[k].children, incarnation).None?
    requires H.NeedsRecovery(e.children[k]) && e.revision < MAX_UINT64
    ensures !H.NeedsRecovery(H.RecoverGroup(e.children[k]))
  {
    hide EnvInv, G.GroupInv, H.RecoverGroup, H.RecoverError;
    CO.GroupFacts(e, k);
    H.RecoverPreserves(e.children[k], incarnation, e.revision);
  }

  lemma Advanced(e: Envelope, target: Envelope)
    requires e.revision < MAX_UINT64
    ensures Next(e, target) != e
  {
    assert Next(e, target).revision == e.revision + 1;
  }
}
