/** Properties of whole runs of the store, under arbitrary clients: fencing,
    immutable linear history, deletion, and rollover chains. */
module StoreRuns {
  import opened Basics
  import opened Envelopes
  import opened Lifecycle
  import opened Retention
  import opened StoreModel
  import opened StoreSteps

  /** One call by any client at any time, successful or not. */
  datatype StoreOp =
    | OpAcquire(now: Time, id: string, owner: string, ttl: int)
    | OpRenew(now: Time, lease: Lease, ttl: int)
    | OpRelease(lease: Lease)
    | OpCommit(now: Time, expected: uint64, lease: Lease, envelope: Envelope)
    | OpRollover(now: Time, lease: Lease, source: Reference, target: Envelope, sizes: Sizes)
    | OpRetain(now: Time, request: RetentionRequest)

  ghost function Call(s: Store, op: StoreOp): Result<Store> {
    match op
    case OpAcquire(now, id, owner, ttl) => Of(Acquire(s, now, id, owner, ttl))
    case OpRenew(now, lease, ttl) => Of(Renew(s, now, lease, ttl))
    case OpRelease(lease) => Release(s, lease)
    case OpCommit(now, expected, lease, e) => Of(Commit(s, now, expected, lease, e))
    case OpRollover(now, lease, source, target, sizes) => Of(CommitRollover(s, now, lease, source, target, sizes))
    case OpRetain(now, q) => Of(Retain(s, now, q))
  }

  function Of<T>(r: Result<(Store, T)>): Result<Store> {
    match r case Err(e) => Err(e) case Ok(x) => Ok(x.0)
  }

  ghost function After(s: Store, op: StoreOp): Store {
    match Call(s, op) case Err(_) => s case Ok(t) => t
  }

  ghost function Run(s: Store, ops: seq<StoreOp>): Store {
    if ops == [] then s else After(Run(s, ops[..|ops| - 1]), ops[|ops| - 1])
  }

  // ------------------------------------------------------- the run invariant

  lemma AfterKeeps(s: Store, op: StoreOp)
    requires StoreInv(s)
    ensures StoreInv(After(s, op)) && StoreExtends(s, After(s, op))
  {
    hide StoreInv, StoreExtends, Acquire, Renew, Release, Commit, CommitRollover, Retain, PublishPair, Publish;
    if Call(s, op).Err? {
      StoreExtendsSelf(s);
    } else {
      match op
      case OpAcquire(now, id, owner, ttl) => AcquireKeeps(s, now, id, owner, ttl);
      case OpRenew(now, lease, ttl) => RenewKeeps(s, now, lease, ttl);
      case OpRelease(lease) => ReleaseKeeps(s, lease);
      case OpCommit(now, expected, lease, e) => CommitKeeps(s, now, expected, lease, e);
      case OpRollover(now, lease, source, target, sizes) =>
        var current := RolloverFacts(s, now, lease, source, target, sizes);
        RolloverKeeps(s, current, target);
      case OpRetain(now, q) => RetainKeeps(s, now, q);
    }
  }

  lemma {:induction false} RunKeeps(s: Store, ops: seq<StoreOp>)
    requires StoreInv(s)
    ensures StoreInv(Run(s, ops)) && StoreExtends(s, Run(s, ops))
  {
    hide StoreInv, StoreExtends, After;
    if ops == [] {
      StoreExtendsSelf(s);
    } else {
      var before := Run(s, ops[..|ops| - 1]);
      RunKeeps(s, ops[..|ops| - 1]);
      AfterKeeps(before, ops[|ops| - 1]);
      StoreExtendsTransitive(s, before, Run(s, ops));
    }
  }

  lemma EmptyConsistent()
    ensures StoreInv(EMPTY)
  {
  }

  ghost predicate Reachable(s: Store) {
    exists ops :: Run(EMPTY, ops) == s
  }

  lemma ReachableInv(s: Store)
    requires Reachable(s)
    ensures StoreInv(s)
  {
    hide StoreInv, Run;
    var ops :| Run(EMPTY, ops) == s;
    EmptyConsistent();
    RunKeeps(EMPTY, ops);
  }

  // ------------------------------------------------------------ main results

  /** Self-consistency: in every reachable store every retained revision loads,
      whatever forks, rollovers and retention happened before or after it. */
  lemma EveryRevisionLoads(s: Store, id: string, r: uint64)
    requires Reachable(s)
    ensures Payload(s, id, r).Some? ==> LoadCheckpoint(s, id, r) == Ok(Payload(s, id, r).value)
    ensures Payload(s, id, Head(s, id)).Some? ==> Load(s, id) == Ok(Payload(s, id, Head(s, id)).value)
  {
    hide Reachable, StoreInv, IntegrityHolds, Anchored;
    ReachableInv(s);
    if Payload(s, id, r).Some? {
      PayloadFacts(s, id, r);
    }
    if Payload(s, id, Head(s, id)).Some? {
      PayloadFacts(s, id, Head(s, id));
    }
  }

  /** History is immutable and linear: after any further calls a revision that
      is still stored is the one stored before, and heads never move back. */
  lemma HistoryIsImmutable(s: Store, more: seq<StoreOp>, id: string, r: uint64)
    requires Reachable(s)
    ensures var t := Run(s, more);
      && Head(s, id) <= Head(t, id) && Fence(s, id) <= Fence(t, id)
      && (r <= Head(s, id) && Payload(t, id, r).Some? ==> Payload(t, id, r) == Payload(s, id, r))
  {
    hide Reachable, StoreInv, Run;
    ReachableInv(s);
    RunKeeps(s, more);
  }

  /** A successful commit is made under the newest incarnation and raises the
      head by exactly one. */
  lemma CommitIsFenced(s: Store, now: Time, expected: uint64, lease: Lease, e: Envelope)
    requires Reachable(s) && Commit(s, now, expected, lease, e).Ok?
    ensures lease.incarnation == Fence(s, e.executionID) && expected == Head(s, e.executionID)
    ensures Head(Commit(s, now, expected, lease, e).value.0, e.executionID) == Head(s, e.executionID) + 1
  {
    hide Reachable, StoreInv, StoreExtends, Commit, Written;
    ReachableInv(s);
    CommitKeeps(s, now, expected, lease, e);
  }

  /** The call replaces the head of this execution: a commit, or a rollover of it
      as the source. */
  predicate Replaces(op: StoreOp, id: string) {
    (op.OpCommit? && op.envelope.executionID == id) || (op.OpRollover? && op.source.executionID == id)
  }

  /** The revision it replaces. */
  function Base(op: StoreOp): uint64 {
    match op
    case OpCommit(_, expected, _, _) => expected
    case OpRollover(_, _, source, _, _) => source.revision
    case _ => 0
  }

  function Writer(op: StoreOp): uint64 {
    match op
    case OpCommit(_, _, lease, _) => lease.incarnation
    case OpRollover(_, lease, _, _, _) => lease.incarnation
    case _ => 0
  }

  /** A call that replaces a head is made by the newest incarnation on the head
      itself, and raises it by one. */
  lemma ReplacesHead(s: Store, op: StoreOp, id: string)
    requires StoreInv(s) && Replaces(op, id) && Call(s, op).Ok?
    ensures Base(op) == Head(s, id) < Head(After(s, op), id) == Increment(Head(s, id)) && Writer(op) == Fence(s, id)
    ensures StoreInv(After(s, op)) && StoreExtends(s, After(s, op))
  {
    hide StoreInv, StoreExtends, Commit;
    match op
    case OpCommit(now, expected, lease, e) => CommitKeeps(s, now, expected, lease, e);
    case OpRollover(now, lease, source, target, sizes) =>
      hide PreparePublication, CollectionsValid, BoundaryError, FreshTarget, PublishPair;
      var current := RolloverFacts(s, now, lease, source, target, sizes);
      hide CommitRollover;
      RolloverKeeps(s, current, target);
      FreshFacts(current, target);
      RolloverAtHead(s, now, lease, source, target, sizes);
  }

  lemma RolloverAtHead(s: Store, now: Time, lease: Lease, source: Reference, target: Envelope, sizes: Sizes)
    requires CommitRollover(s, now, lease, source, target, sizes).Ok?
    ensures Head(s, source.executionID) == source.revision
  {
    hide PreparePublication, Decode;
  }

  /** Along the revisions of an execution, its transferred one included, the
      writing incarnations do not decrease: of two successful writes the later one
      has the larger revision and no smaller incarnation. */
  lemma WritersAreOrdered(s: Store, id: string, first: StoreOp, between: seq<StoreOp>, second: StoreOp)
    requires Reachable(s) && Replaces(first, id) && Replaces(second, id)
    requires Call(s, first).Ok? && Call(Run(After(s, first), between), second).Ok?
    ensures Base(first) < Base(second) && Writer(first) <= Writer(second)
  {
    var t := After(s, first);
    var u := Run(t, between);
    hide Reachable, StoreInv, StoreExtends, Call, Run, After;
    ReachableInv(s);
    ReplacesHead(s, first, id);
    RunKeeps(t, between);
    ReplacesHead(u, second, id);
    GrowthAt(s, t, id);
    GrowthAt(t, u, id);
  }

  /** After a retention an earlier revision loads as before if it is the head, is
      protected or is among the last KeepLast ones, and otherwise not at all. */
  lemma RetentionLoads(s: Store, now: Time, q: RetentionRequest, r: uint64)
    requires Reachable(s) && Retain(s, now, q).Ok?
    requires 1 <= r <= q.revision && Payload(s, q.executionID, q.revision).Some?
    ensures LoadCheckpoint(Retain(s, now, q).value.0, q.executionID, r) ==
      if Survives(q, r) then LoadCheckpoint(s, q.executionID, r) else Err(ErrExecutionCheckpointUnavailable)
  {
    hide Reachable, StoreInv, StoreExtends, Retained, ValidRetention, Survives, Retain, IntegrityHolds, Anchored;
    ReachableInv(s);
    RetainKeeps(s, now, q);
    RetainAtHead(s, now, q);
    RetainedAre(q, r);
    var t := Retain(s, now, q).value.0;
    if Payload(t, q.executionID, r).Some? {
      PayloadFacts(t, q.executionID, r);
      PayloadFacts(s, q.executionID, r);
    }
  }

  lemma RetainAtHead(s: Store, now: Time, q: RetentionRequest)
    requires Retain(s, now, q).Ok?
    ensures ValidRetention(q) && Head(s, q.executionID) == q.revision
  {
    hide ValidRetention, Decode, BoundaryError;
  }

  lemma GrowthAt(s: Store, t: Store, id: string)
    requires StoreExtends(s, t)
    ensures Fence(s, id) <= Fence(t, id) && Head(s, id) <= Head(t, id)
  {
    hide PayloadsStay, AnchorsStay;
  }

  /** Acquisitions of one execution get strictly increasing incarnations. */
  lemma IncarnationsIncrease(
    s: Store, id: string, now: Time, owner: string, ttl: int, between: seq<StoreOp>, now': Time, owner': string,
    ttl': int)
    requires Reachable(s) && Acquire(s, now, id, owner, ttl).Ok?
    requires Acquire(Run(Acquire(s, now, id, owner, ttl).value.0, between), now', id, owner', ttl').Ok?
    ensures
      Acquire(s, now, id, owner, ttl).value.1.incarnation <
        Acquire(Run(Acquire(s, now, id, owner, ttl).value.0, between), now', id, owner', ttl').value.1.incarnation
  {
    hide Reachable, StoreInv, StoreExtends, Run;
    ReachableInv(s);
    AcquireKeeps(s, now, id, owner, ttl);
    var t := Acquire(s, now, id, owner, ttl).value.0;
    RunKeeps(t, between);
    GrowthAt(t, Run(t, between), id);
    AcquireKeeps(Run(t, between), now', id, owner', ttl');
  }

  /** A handle with a successor is fenced off for good: it never commits, renews,
      releases or rolls over again, whatever happens later. */
  lemma StaleHandleNeverActs(
    s: Store, more: seq<StoreOp>, lease: Lease, now: Time, ttl: int, expected: uint64, e: Envelope,
    source: Reference, target: Envelope, sizes: Sizes)
    requires Reachable(s) && lease.incarnation < Fence(s, lease.executionID)
    ensures var t := Run(s, more);
      && Commit(t, now, expected, lease, e).Err? && Renew(t, now, lease, ttl).Err?
      && Release(t, lease) == Err(ErrLeaseLost) && CommitRollover(t, now, lease, source, target, sizes).Err?
  {
    hide Reachable, StoreInv, StoreExtends, Run, PreparePublication;
    var t := Run(s, more);
    ReachableInv(s);
    RunKeeps(s, more);
    GrowthAt(s, t, lease.executionID);
    NotHeld(t, now, lease);
  }

  lemma NotHeld(s: Store, now: Time, lease: Lease)
    requires StoreInv(s) && lease.incarnation < Fence(s, lease.executionID)
    ensures !Held(s, now, lease)
    ensures lease.executionID in s.leases ==> s.leases[lease.executionID].incarnation != lease.incarnation
  {
    hide HistoryConsistent, ChainsLinked;
  }

  // ----------------------------------------------------------------- deletion

  /** The payload of the head was deleted; identity, fence and anchors remain. */
  predicate Deleted(s: Store, id: string) {
    Head(s, id) != 0 && Payload(s, id, Head(s, id)).None?
  }

  lemma DeletedAfter(s: Store, op: StoreOp, id: string)
    requires StoreInv(s) && Deleted(s, id)
    ensures Deleted(After(s, op), id) && Head(After(s, op), id) == Head(s, id)
  {
    hide StoreInv, Retain, Commit, CommitRollover, Retained;
    if Call(s, op).Ok? {
      match op
      case OpAcquire(now, other, owner, ttl) =>
      case OpRenew(now, lease, ttl) =>
      case OpRelease(lease) =>
      case OpCommit(now, expected, lease, e) => DeletedCommit(s, now, expected, lease, e, id);
      case OpRollover(now, lease, source, target, sizes) => DeletedRollover(s, now, lease, source, target, sizes, id);
      case OpRetain(now, q) =>
        hide StoreExtends;
        RetainKeeps(s, now, q);
    }
  }

  lemma DeletedCommit(s: Store, now: Time, expected: uint64, lease: Lease, e: Envelope, id: string)
    requires StoreInv(s) && Deleted(s, id) && Commit(s, now, expected, lease, e).Ok?
    ensures var t := Commit(s, now, expected, lease, e).value.0; Deleted(t, id) && Head(t, id) == Head(s, id)
  {
    hide StoreInv, StoreExtends, IntegrityHolds, Anchored, ForkTransition;
    CommitFacts(s, now, expected, lease, e);
    CommitKeeps(s, now, expected, lease, e);
    assert id != e.executionID;
    hide Commit, CommitError;
  }

  lemma DeletedRollover(
    s: Store, now: Time, lease: Lease, source: Reference, target: Envelope, sizes: Sizes, id: string)
    requires StoreInv(s) && Deleted(s, id) && CommitRollover(s, now, lease, source, target, sizes).Ok?
    ensures var t := CommitRollover(s, now, lease, source, target, sizes).value.0;
      Deleted(t, id) && Head(t, id) == Head(s, id)
  {
    hide StoreInv, StoreExtends, CommitRollover, PublishPair, CollectionsValid, BoundaryError;
    var current := RolloverFacts(s, now, lease, source, target, sizes);
    RolloverKeeps(s, current, target);
    hide FreshTarget;
  }

  /** A deleted identity stays deleted: it never loads, is never committed to,
      restarted or rolled over, and is never the target of a rollover. */
  lemma {:induction false} DeletedForever(s: Store, more: seq<StoreOp>, id: string)
    requires StoreInv(s) && Deleted(s, id)
    ensures var t := Run(s, more);
      Deleted(t, id) && Head(t, id) == Head(s, id) && Load(t, id) == Err(ErrExecutionCheckpointUnavailable)
  {
    hide StoreInv, StoreExtends, After;
    if more != [] {
      DeletedForever(s, more[..|more| - 1], id);
      RunKeeps(s, more[..|more| - 1]);
      DeletedAfter(Run(s, more[..|more| - 1]), more[|more| - 1], id);
    }
  }

  lemma DeletedRefuses(
    s: Store, id: string, now: Time, expected: uint64, lease: Lease, e: Envelope,
    source: Reference, target: Envelope, sizes: Sizes)
    requires StoreInv(s) && Deleted(s, id)
    ensures e.executionID == id ==> Commit(s, now, expected, lease, e).Err?
    ensures source.executionID == id || target.executionID == id ==>
      CommitRollover(s, now, lease, source, target, sizes).Err?
  {
    hide StoreInv, PreparePublication, IntegrityHolds, Anchored;
  }
}
