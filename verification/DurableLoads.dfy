/** Which committed aggregates load, over whole runs: all of them do exactly when
    no delivery decides its wait over outstanding work, and that never happens
    while node code keeps to its own step. */
module DurableLoads {
  import opened Basics
  import opened Envelopes
  import opened Lifecycle
  import opened StoreModel
  import opened StoreSteps
  import opened AggregateInvariant
  import opened RuntimeOps
  import opened Transfers
  import opened Gates
  import opened DurableRuns
  import opened DurableSafety
  import opened DurablePerform
  import Q = Retention

  /** An envelope stored at some point of some run. */
  ghost predicate CommittedIn(moves: seq<Move>, e: Envelope) {
    Payload(Run(moves).store, e.executionID, e.revision) == Some(e)
  }

  /** The operation a move performs, on the envelope its session knows. */
  ghost predicate Performing(w: World, m: Move, ss: Session, e: Envelope) {
    m.Perform? && SessionAt(w, m.sid) == Some(ss) && ss.envelope == Some(e) && Allowed(ss, e, m.op)
  }

  /** The move commits `Next(e, t)`, acknowledged or not. */
  ghost predicate Commits(w: World, m: Move, ss: Session, e: Envelope, t: Envelope) {
    && Performing(w, m, ss, e) && Apply(e, m.op, ss.lease.incarnation) == Write(t)
    && Commit(w.store, w.now, e.revision, ss.lease, t).Ok?
  }

  /** A delivery decides its wait over outstanding work. */
  ghost predicate StrandingMove(w: World, m: Move) {
    m.Perform? && exists ss, e, t :: Commits(w, m, ss, e, t) && Stranding(e, m.op, t)
  }

  /** Node code prepares work although its run is over or waiting. */
  ghost predicate LateMove(w: World, m: Move) {
    m.Perform? && Prepares(m.op) && exists ss, e :: Performing(w, m, ss, e) && !NodeActive(e)
  }

  ghost predicate Timely(moves: seq<Move>) {
    forall n :: 0 <= n < |moves| ==> !StrandingMove(Run(moves[..n]), moves[n])
  }

  ghost predicate Punctual(moves: seq<Move>) {
    forall n :: 0 <= n < |moves| ==> !LateMove(Run(moves[..n]), moves[n])
  }

  /** Every envelope committed at any point of the run loads. */
  ghost predicate AllLoad(moves: seq<Move>) {
    forall n, e :: 0 <= n <= |moves| && CommittedIn(moves[..n], e) ==> CollectionsValid(e)
  }

  // ------------------------------------------------ where a new head comes from

  /** A new head is the commit of an operation, or a first or transferred
      revision, which loads and has nothing outstanding behind it. */
  ghost predicate Added(w: World, m: Move, c: Envelope) {
    || (EnvInv(c) && Gated(c))
    || (exists ss, e, t :: Commits(w, m, ss, e, t) && c == Next(e, t))
  }

  ghost predicate HeadAdded(w: World, m: Move, t: Store, id: string) {
    Head(t, id) != Head(w.store, id) ==>
      Payload(t, id, Head(t, id)).Some? && Added(w, m, Payload(t, id, Head(t, id)).value)
  }

  lemma MovedAdds(w: World, m: Move, id: string)
    requires WorldInv(w)
    ensures HeadAdded(w, m, Moved(w, m).store, id)
  {
    hide WorldInv, OnSession, Acquire, Retain, Added;
    match m {
      case Tick(_) =>
      case Maintain(q) => RetainHeads(w, q, id);
      case Attach(sid, x, owner, ttl) => AcquireHeads(w, sid, x, owner, ttl, id);
      case Open(sid) => SessionAdds(w, sid, m, id);
      case Create(sid, _, _) => SessionAdds(w, sid, m, id);
      case Perform(sid, _, _) => SessionAdds(w, sid, m, id);
      case Probe(sid, _) => SessionAdds(w, sid, m, id);
      case KeepAlive(sid, _) => SessionAdds(w, sid, m, id);
      case Detach(sid) => SessionAdds(w, sid, m, id);
      case Crash(sid) => SessionAdds(w, sid, m, id);
      case RollOver(sid, _, _) => SessionAdds(w, sid, m, id);
    }
  }

  lemma RetainHeads(w: World, q: Q.RetentionRequest, id: string)
    requires WorldInv(w)
    ensures Head(Moved(w, Maintain(q)).store, id) == Head(w.store, id)
  {
    hide StoreInv, HistorySound, HistoryOrdered, TracesSound, SessionSound, Retain, StoreExtends, Q.Retained;
    hide OnSession;
    if Retain(w.store, w.now, q).Ok? {
      RetainKeeps(w.store, w.now, q);
    }
  }

  lemma AcquireHeads(w: World, sid: nat, x: string, owner: string, ttl: int, id: string)
    requires WorldInv(w)
    ensures Head(Moved(w, Attach(sid, x, owner, ttl)).store, id) == Head(w.store, id)
  {
    hide StoreInv, HistorySound, HistoryOrdered, TracesSound, SessionSound, Acquire, StoreExtends, Held;
    hide OnSession;
    if Acquire(w.store, w.now, x, owner, ttl).Ok? {
      AcquireKeeps(w.store, w.now, x, owner, ttl);
    }
  }

  lemma LeasingHeads(w: World, ss: Session, sid: nat, m: Move, id: string)
    requires WorldInv(w)
    ensures Head(Leasing(w, ss, sid, m).store, id) == Head(w.store, id)
  {
    hide StoreInv, HistorySound, HistoryOrdered, TracesSound, SessionSound, StoreExtends, Held, Renew, Release;
    match m {
      case KeepAlive(_, ttl) =>
        if Renew(w.store, w.now, ss.lease, ttl).Ok? {
          RenewKeeps(w.store, w.now, ss.lease, ttl);
        }
      case Detach(_) =>
        if Release(w.store, ss.lease).Ok? {
          ReleaseKeeps(w.store, ss.lease);
        }
      case _ =>
    }
  }

  lemma SessionAdds(w: World, sid: nat, m: Move, id: string)
    requires WorldInv(w) && (m.Perform? ==> m.sid == sid)
    ensures HeadAdded(w, m, OnSession(w, sid, m).store, id)
  {
    hide WorldInv, Performed, Created, Leasing, CommitRollover, Fresh, Allowed, Load, CollectionsValid, Added;
    match SessionAt(w, sid) {
      case None =>
      case Some(ss) =>
        LeasingHeads(w, ss, sid, m, id);
        if ss.envelope.None? {
          if m.Create? && Fresh(m.first) {
            CreateAdds(w, m, ss, sid, m.first, m.acked, id);
          }
        } else {
          var e := ss.envelope.value;
          if m.Perform? && Allowed(ss, e, m.op) {
            PerformAdds(w, m, ss, e, id);
          } else if m.RollOver? && CommitRollover(w.store, w.now, ss.lease, ReferenceOf(e), m.target, m.sizes).Ok? {
            RollOverAdds(w, m, ss.lease, ReferenceOf(e), m.target, m.sizes, id);
          }
        }
    }
  }

  lemma CreateAdds(w: World, m: Move, ss: Session, sid: nat, first: Envelope, acked: bool, id: string)
    requires WorldInv(w) && Fresh(first)
    ensures HeadAdded(w, m, Created(w, ss, sid, first, acked).store, id)
  {
    hide StoreInv, HistorySound, HistoryOrdered, StoreExtends, TracesSound, EnvInv, Commit, SessionSound;
    hide CollectionsValid, Commits;
    if Commit(w.store, w.now, 0, ss.lease, first).Ok? {
      CommitKeeps(w.store, w.now, 0, ss.lease, first);
      FreshSound(first);
      var c := Sealed(first, 1);
      assert c.waits == first.waits && c.terminal == first.terminal;
      assert NodeActive(c);
    }
  }

  lemma PerformAdds(w: World, m: Move, ss: Session, e: Envelope, id: string)
    requires WorldInv(w) && Performing(w, m, ss, e)
    ensures HeadAdded(w, m, Performed(w, ss, e, m.sid, m.op, m.acked).store, id)
  {
    hide StoreInv, HistorySound, HistoryOrdered, StoreExtends, TracesSound, EnvInv, Apply, Commit, SessionSound;
    assert m.Perform?;
    hide Performing, Gated;
    if Apply(e, m.op, ss.lease.incarnation).Write? {
      var t := Apply(e, m.op, ss.lease.incarnation).target;
      if Commit(w.store, w.now, e.revision, ss.lease, t).Ok? {
        CommitKeeps(w.store, w.now, e.revision, ss.lease, t);
        assert Commits(w, m, ss, e, t);
        hide Commits;
      }
    }
  }

  lemma RollOverAdds(w: World, m: Move, lease: Lease, source: Reference, target: Envelope, sizes: Sizes, id: string)
    requires WorldInv(w) && CommitRollover(w.store, w.now, lease, source, target, sizes).Ok?
    ensures HeadAdded(w, m, CommitRollover(w.store, w.now, lease, source, target, sizes).value.0, id)
  {
    hide HistoryOrdered, StoreExtends, TracesSound, EnvInv, CommitRollover, Fresh, SessionSound, StoreInv, CoreInv;
    hide PublishPair, CollectionsValid, BoundaryError, FreshTarget, Performed, Leasing, Commits, Gated, Current;
    var current := RolloverFacts(w.store, w.now, lease, source, target, sizes);
    RolloverKeeps(w.store, current, target);
    assert CoreInv(current);
    hide HistorySound, WorldInv;
    PairGated(w.store, current, target);
  }

  /** Both halves of a rollover load, and nothing is outstanding in either. */
  lemma PairGated(s: Store, current: Envelope, target: Envelope)
    requires StoreInv(s) && Publishable(s, current, target) && target.rollover.Some? && CoreInv(current)
    requires BoundaryError(current).None? && CollectionsValid(target)
    ensures var p := Publish(current, target, target.rollover.value);
      EnvInv(p.transferred) && Gated(p.transferred) && EnvInv(p.created) && Gated(p.created)
  {
    hide StoreInv, EnvInv, BoundaryError, CollectionsValid, Fresh, CoreInv, Current, Extends;
    var p := Publish(current, target, target.rollover.value);
    BoundaryLoads(current);
    LoadsIff(current);
    BoundaryIsIdle(current);
    NotTransferred(s, current);
    TransferredSound(current, p.receipt);
    TargetIsFresh(current, target);
    FreshSound(target);
    FreshGated(target);
    assert p.transferred.journal == current.journal && p.transferred.children == current.children;
  }

  lemma FreshGated(e: Envelope)
    requires Fresh(e)
    ensures Gated(Sealed(e, 1))
  {
    hide CollectionsValid;
  }

  // -------------------------------------------------------------- stored heads

  ghost predicate HistoryLoads(s: Store) {
    forall id, r: uint64 :: Payload(s, id, r).Some? ==> Current(Payload(s, id, r).value)
  }

  ghost predicate HistoryGated(s: Store) {
    forall id, r: uint64 :: Payload(s, id, r).Some? ==> Gated(Payload(s, id, r).value)
  }

  /** Each stored revision was stored before, or it is a new head. */
  lemma NewHead(s: Store, t: Store, id: string, r: uint64)
    requires StoreMoves(s, t) && Payload(t, id, r).Some?
    ensures Payload(t, id, r) == Payload(s, id, r) || (r == Head(t, id) != Head(s, id))
  {
    hide StoreInv, HistorySound, HistoryOrdered, Extends, Current, FencesGrow, AnchorsStay;
    PayloadFacts(t, id, r);
    assert HeadExtends(s, t, id);
  }

  lemma CommitsSound(w: World, m: Move, ss: Session, e: Envelope, t: Envelope)
    requires WorldInv(w) && Commits(w, m, ss, e, t)
    ensures m.Perform? && EnvInv(e) && e.revision < MAX_UINT64 && Payload(w.store, e.executionID, e.revision) == Some(e)
    ensures Enabled(e, m.op, ss.lease.incarnation)
    ensures if Stranding(e, m.op, t) then !Current(Next(e, t)) else EnvInv(Next(e, t))
  {
    hide StoreInv, HistorySound, HistoryOrdered, StoreExtends, TracesSound, EnvInv, Apply, Commit, SessionSound;
    hide Written, CoreInv, Current, Extends, Stranding, Allowed, Enabled;
    var (s, c) := Commit(w.store, w.now, e.revision, ss.lease, t).value;
    PerformFacts(w, ss, e, m.op, t, s, c);
  }

  lemma CommitsStored(w: World, m: Move, ss: Session, e: Envelope, t: Envelope)
    requires WorldInv(w) && Commits(w, m, ss, e, t)
    ensures Payload(Moved(w, m).store, t.executionID, Next(e, t).revision) == Some(Next(e, t))
  {
    hide StoreInv, HistorySound, HistoryOrdered, StoreExtends, TracesSound, SessionSound, Apply, Commit, Allowed;
    CommitKeeps(w.store, w.now, e.revision, ss.lease, t);
  }

  lemma LoadsKept(w: World, m: Move)
    requires WorldInv(w) && HistoryLoads(w.store) && !StrandingMove(w, m)
    ensures HistoryLoads(Moved(w, m).store)
  {
    hide WorldInv, Moved, StoreMoves, EnvInv, Current, Commits, Gated, Stranding;
    MovedKeeps(w, m);
    var t := Moved(w, m).store;
    forall id, r: uint64 | Payload(t, id, r).Some? ensures Current(Payload(t, id, r).value) {
      NewHead(w.store, t, id, r);
      if Payload(t, id, r) != Payload(w.store, id, r) {
        MovedAdds(w, m, id);
        AddedLoads(w, m, Payload(t, id, r).value);
      }
    }
  }

  lemma AddedLoads(w: World, m: Move, c: Envelope)
    requires WorldInv(w) && Added(w, m, c) && !StrandingMove(w, m)
    ensures Current(c)
  {
    hide WorldInv, EnvInv, Current, Commits, Gated, Stranding, Enabled;
    if !(EnvInv(c) && Gated(c)) {
      var ss, e, t :| Commits(w, m, ss, e, t) && c == Next(e, t);
      CommitsSound(w, m, ss, e, t);
    }
    EnvIsCore(c);
  }

  lemma GatesKept(w: World, m: Move)
    requires WorldInv(w) && HistoryGated(w.store) && !LateMove(w, m)
    ensures HistoryGated(Moved(w, m).store) && !StrandingMove(w, m)
  {
    hide WorldInv, Moved, StoreMoves, EnvInv, Commits, Gated, Stranding;
    MovedKeeps(w, m);
    var t := Moved(w, m).store;
    forall id, r: uint64 | Payload(t, id, r).Some? ensures Gated(Payload(t, id, r).value) {
      NewHead(w.store, t, id, r);
      if Payload(t, id, r) != Payload(w.store, id, r) {
        MovedAdds(w, m, id);
        AddedGated(w, m, Payload(t, id, r).value);
      }
    }
    NothingStranded(w, m);
  }

  lemma AddedGated(w: World, m: Move, c: Envelope)
    requires WorldInv(w) && Added(w, m, c) && !LateMove(w, m) && HistoryGated(w.store)
    ensures Gated(c)
  {
    hide WorldInv, EnvInv, Current, Gated, Stranding, Enabled, Apply, Commit, Allowed, NodeActive;
    if !(EnvInv(c) && Gated(c)) {
      var ss, e, t :| Commits(w, m, ss, e, t) && c == Next(e, t);
      CommitsSound(w, m, ss, e, t);
      assert Performing(w, m, ss, e);
      hide Performing;
      GateKept(e, m.op, ss.lease.incarnation, t);
    }
  }

  /** An envelope with an armed wait and a closed gate is idle. */
  lemma NothingStranded(w: World, m: Move)
    requires WorldInv(w) && HistoryGated(w.store)
    ensures !StrandingMove(w, m)
  {
    hide WorldInv, EnvInv, Current, Gated, Stranding, Enabled, Commits, Apply;
    if StrandingMove(w, m) {
      var ss, e, t :| Commits(w, m, ss, e, t) && Stranding(e, m.op, t);
      CommitsSound(w, m, ss, e, t);
      assert Gated(e);
      CommitsApply(w, m, ss, e, t);
      NotStranding(e, m.op, ss.lease.incarnation, t);
      assert false;
    }
  }

  lemma CommitsApply(w: World, m: Move, ss: Session, e: Envelope, t: Envelope)
    requires Commits(w, m, ss, e, t)
    ensures Apply(e, m.op, ss.lease.incarnation) == Write(t)
  {
    hide Apply, Commit, Performing;
  }

  lemma NotStranding(e: Envelope, op: Op, incarnation: uint64, t: Envelope)
    requires Gated(e) && Apply(e, op, incarnation) == Write(t)
    ensures !Stranding(e, op, t)
  {
    hide Apply, Idle;
    if Stranding(e, op, t) {
      DeliveryNeedsArmed(e, op, incarnation, t);
      assert false;
    }
  }

  // ------------------------------------------------------------------ all runs

  lemma {:induction false} TimelyLoads(moves: seq<Move>)
    requires Timely(moves)
    ensures HistoryLoads(Run(moves).store)
  {
    hide WorldInv, Moved, StrandingMove, Current;
    if moves != [] {
      var rest := moves[..|moves| - 1];
      assert forall n :: 0 <= n < |rest| ==> rest[..n] == moves[..n] && rest[n] == moves[n];
      TimelyLoads(rest);
      RunKeeps(rest);
      LoadsKept(Run(rest), moves[|moves| - 1]);
    }
  }

  lemma {:induction false} PunctualGates(moves: seq<Move>)
    requires Punctual(moves)
    ensures HistoryGated(Run(moves).store) && Timely(moves)
  {
    hide WorldInv, Moved, StrandingMove, LateMove, Gated;
    if moves != [] {
      var rest := moves[..|moves| - 1];
      assert forall n :: 0 <= n < |rest| ==> rest[..n] == moves[..n] && rest[n] == moves[n];
      PunctualGates(rest);
      RunKeeps(rest);
      GatesKept(Run(rest), moves[|moves| - 1]);
    }
  }
}
