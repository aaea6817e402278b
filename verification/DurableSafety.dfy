/** Every move of the world keeps its invariant. */
module DurableSafety {
  import opened Basics
  import opened Envelopes
  import opened Lifecycle
  import opened StoreModel
  import opened StoreSteps
  import opened AggregateInvariant
  import opened RuntimeOps
  import opened Transfers
  import opened DurableRuns
  import Q = Retention

  /** Each session is an old one, unchanged, or sound anew. */
  ghost predicate SessionsFollow(w: World, v: World) {
    forall sid :: sid in v.sessions ==>
      (sid in w.sessions && v.sessions[sid] == w.sessions[sid]) || SessionSound(v.store, v.sessions[sid])
  }

  /** A move keeps the invariant and moves the store forward. */
  ghost predicate Steps(w: World, v: World) {
    WorldInv(v) && StoreMoves(w.store, v.store)
  }

  /** What a move must show when it leaves the traces alone. */
  lemma WorldKept(w: World, v: World)
    requires v.dispatches == w.dispatches && v.launches == w.launches && SessionsFollow(w, v)
    requires WorldInv(w) && StoreMoves(w.store, v.store)
    ensures Steps(w, v)
  {
    hide StoreInv, HistorySound, HistoryOrdered, StoreExtends, HeadsExtend, SessionSound;
    SessionsKept(w, v);
    TracesKept(w, v.store);
    hide TracesSound;
    assert TracesSound(v) by {
      SameTraces(w.(store := v.store), v);
    }
  }

  lemma WorldStays(w: World)
    requires WorldInv(w)
    ensures StoreMoves(w.store, w.store) && Steps(w, w)
  {
    hide StoreInv, HistorySound, HistoryOrdered, StoreMoves, TracesSound, SessionSound;
    StoreStays(w.store);
  }

  lemma SameTraces(w: World, v: World)
    requires TracesSound(w) && v.store == w.store && v.dispatches == w.dispatches && v.launches == w.launches
    ensures TracesSound(v)
  {
    hide DispatchesSound, LaunchesSound, DispatchesOrdered, LaunchesDistinct;
  }

  lemma SessionsKept(w: World, v: World)
    requires forall sid :: sid in w.sessions ==> SessionSound(w.store, w.sessions[sid])
    requires StoreExtends(w.store, v.store) && SessionsFollow(w, v)
    ensures forall sid :: sid in v.sessions ==> SessionSound(v.store, v.sessions[sid])
  {
    hide SessionSound, StoreExtends;
    forall sid | sid in v.sessions ensures SessionSound(v.store, v.sessions[sid]) {
      if sid in w.sessions && v.sessions[sid] == w.sessions[sid] {
        SessionKept(w.store, v.store, w.sessions[sid]);
      }
    }
  }

  lemma TracesKept(w: World, t: Store)
    requires TracesSound(w) && StoreExtends(w.store, t) && HeadsExtend(w.store, t)
    ensures TracesSound(w.(store := t))
  {
    hide DispatchSound, LaunchSound, StoreExtends, HeadsExtend, DispatchesOrdered, LaunchesDistinct;
    forall i | 0 <= i < |w.dispatches| ensures DispatchSound(t, w.dispatches[i]) {
      DispatchKept(w.store, t, w.dispatches[i]);
    }
    forall i | 0 <= i < |w.launches| ensures LaunchSound(t, w.launches[i]) {
      LaunchKept(w.store, t, w.launches[i]);
    }
  }

  // ------------------------------------------------- leases and maintenance

  lemma LeaseMove(s: Store, t: Store)
    requires StoreInv(s) && HistorySound(s) && HistoryOrdered(s)
    requires StoreInv(t) && StoreExtends(s, t) && t == s.(fences := t.fences, leases := t.leases)
    ensures StoreMoves(s, t)
  {
    hide StoreInv, HistorySound, HistoryOrdered, StoreExtends, StoreMoves;
    StoreShrinks(s, t);
  }

  lemma AttachKeeps(w: World, sid: nat, id: string, owner: string, ttl: int)
    requires WorldInv(w)
    ensures Steps(w, Moved(w, Attach(sid, id, owner, ttl)))
  {
    hide StoreInv, HistorySound, HistoryOrdered, StoreExtends, StoreMoves, TracesSound, Held, OnSession, Retain;
    WorldStays(w);
    if sid !in w.sessions && Acquire(w.store, w.now, id, owner, ttl).Ok? {
      AcquireKeeps(w.store, w.now, id, owner, ttl);
      var (t, lease) := Acquire(w.store, w.now, id, owner, ttl).value;
      LeaseMove(w.store, t);
      assert SessionSound(t, Session(lease, None, {}, {})) by {
        hide EnvInv;
      }
      hide SessionSound, Acquire, WorldInv;
      var v := w.(store := t, sessions := w.sessions[sid := Session(lease, None, {}, {})]);
      WorldKept(w, v);
    }
  }

  lemma LeasingKeeps(w: World, ss: Session, sid: nat, m: Move)
    requires WorldInv(w) && SessionAt(w, sid) == Some(ss)
    ensures Steps(w, Leasing(w, ss, sid, m))
  {
    hide StoreInv, HistorySound, HistoryOrdered, StoreExtends, StoreMoves, TracesSound, Held, SessionSound;
    var v := Leasing(w, ss, sid, m);
    StoreStays(w.store);
    match m {
      case KeepAlive(_, ttl) =>
        if Renew(w.store, w.now, ss.lease, ttl).Ok? {
          RenewKeeps(w.store, w.now, ss.lease, ttl);
          LeaseMove(w.store, v.store);
        }
      case Detach(_) =>
        if Release(w.store, ss.lease).Ok? {
          ReleaseKeeps(w.store, ss.lease);
          LeaseMove(w.store, v.store);
        }
      case _ =>
    }
    hide WorldInv;
    WorldKept(w, v);
  }

  lemma MaintainKeeps(w: World, q: Q.RetentionRequest)
    requires WorldInv(w)
    ensures Steps(w, Moved(w, Maintain(q)))
  {
    hide StoreInv, HistorySound, HistoryOrdered, StoreExtends, StoreMoves, TracesSound, SessionSound, Retain;
    hide OnSession, Q.Retained;
    WorldStays(w);
    if Retain(w.store, w.now, q).Ok? {
      RetainKeeps(w.store, w.now, q);
      var t := Retain(w.store, w.now, q).value.0;
      StoreShrinks(w.store, t);
      hide WorldInv;
      WorldKept(w, w.(store := t));
    }
  }

  // ------------------------------------------------------- opening, creating

  lemma OpenKeeps(w: World, ss: Session, sid: nat)
    requires WorldInv(w) && SessionAt(w, sid) == Some(ss) && ss.envelope.None?
    ensures Steps(w, Unopened(w, ss, sid, Open(sid)))
  {
    hide StoreInv, HistoryOrdered, StoreExtends, StoreMoves, TracesSound, EnvInv, CollectionsValid, CoreInv, Current;
    WorldStays(w);
    if Load(w.store, ss.lease.executionID).Ok? && CollectionsValid(Load(w.store, ss.lease.executionID).value) {
      var e := Load(w.store, ss.lease.executionID).value;
      LoadedIs(w.store, ss.lease.executionID);
      assert SessionSound(w.store, ss) && CoreInv(e);
      LoadsIff(e);
      assert SessionSound(w.store, ss.(envelope := Some(e)));
      hide HistorySound, SessionSound, WorldInv;
      StoreStays(w.store);
      WorldKept(w, w.(sessions := w.sessions[sid := ss.(envelope := Some(e))]));
    }
  }

  lemma LoadedIs(s: Store, id: string)
    requires StoreInv(s) && Load(s, id).Ok?
    ensures Load(s, id).value.executionID == id && Recalls(s, Load(s, id).value)
    ensures Payload(s, id, Head(s, id)) == Some(Load(s, id).value)
  {
    hide StoreInv, Anchored;
  }

  lemma CreateKeeps(w: World, ss: Session, sid: nat, first: Envelope, acked: bool)
    requires WorldInv(w) && SessionAt(w, sid) == Some(ss) && ss.envelope.None? && Fresh(first)
    ensures Steps(w, Created(w, ss, sid, first, acked))
  {
    hide StoreInv, HistorySound, HistoryOrdered, StoreExtends, StoreMoves, TracesSound, EnvInv, Fresh, Commit, Written;
    hide CoreInv, Current;
    WorldStays(w);
    if Commit(w.store, w.now, 0, ss.lease, first).Ok? {
      assert SessionSound(w.store, ss);
      var (t, c) := Commit(w.store, w.now, 0, ss.lease, first).value;
      FreshSound(first);
      EnvIsCore(Sealed(first, 1));
      CommitKeeps(w.store, w.now, 0, ss.lease, first);
      StoreGrows(w.store, t, c);
      CommitOwner(w.store, w.now, 0, ss.lease, first);
      WrittenRecalls(w.store, t, c);
      assert SessionSound(t, ss.(envelope := Some(c)));
      hide SessionSound, WorldInv;
      WorldKept(w, Created(w, ss, sid, first, acked));
    }
  }

  lemma CommitOwner(s: Store, now: Time, expected: uint64, lease: Lease, e: Envelope)
    requires Commit(s, now, expected, lease, e).Ok?
    ensures e.executionID == lease.executionID && lease.incarnation != 0 && e.progress.pointer != ""
  {
    hide ForkTransition, Decode;
  }

  lemma WrittenRecalls(s: Store, t: Store, c: Envelope)
    requires Written(s, t, c)
    ensures Recalls(t, c)
  {
  }

  // ---------------------------------------------------------------- rollover

  lemma RollOverKeeps(w: World, ss: Session, sid: nat, e: Envelope, target: Envelope, sizes: Sizes)
    requires WorldInv(w) && SessionAt(w, sid) == Some(ss)
    ensures Steps(w, Opened(w, ss, e, sid, RollOver(sid, target, sizes)))
  {
    hide StoreInv, HistoryOrdered, StoreExtends, TracesSound, EnvInv, CommitRollover, Fresh, SessionSound, Published;
    hide PublishPair, CollectionsValid, BoundaryError, FreshTarget, StoreMoves, Performed, Leasing, CoreInv, Current;
    WorldStays(w);
    if CommitRollover(w.store, w.now, ss.lease, ReferenceOf(e), target, sizes).Ok? {
      var current := RolloverFacts(w.store, w.now, ss.lease, ReferenceOf(e), target, sizes);
      RolloverKeeps(w.store, current, target);
      var p := Publish(current, target, target.rollover.value);
      var t := PublishPair(w.store, p);
      assert CoreInv(current);
      BoundaryLoads(current);
      LoadsIff(current);
      hide HistorySound;
      PublishedPair(w.store, current, target);
      hide Publishable, Publish;
      hide WorldInv;
      WorldKept(w, w.(store := t));
    }
  }

  lemma BoundaryLoads(e: Envelope)
    requires BoundaryError(e).None?
    ensures CollectionsValid(e)
  {
    hide CollectionsValid, IntegrityHolds, MetadataError;
  }

  lemma PublishedPair(s: Store, current: Envelope, target: Envelope)
    requires StoreInv(s) && HistorySound(s) && HistoryOrdered(s) && Publishable(s, current, target)
    requires EnvInv(current) && BoundaryError(current).None? && CollectionsValid(target)
    requires var p := Publish(current, target, target.rollover.value); var t := PublishPair(s, p);
      StoreInv(t) && StoreExtends(s, t) && Published(s, t, p)
    ensures StoreMoves(s, PublishPair(s, Publish(current, target, target.rollover.value)))
  {
    hide StoreInv, HistorySound, HistoryOrdered, StoreExtends, EnvInv, BoundaryError, CollectionsValid, Fresh;
    hide PublishPair, Published, Extends, CoreInv, Current;
    var p := Publish(current, target, target.rollover.value);
    var t := PublishPair(s, p);
    NotTransferred(s, current);
    TransferredSound(current, p.receipt);
    TargetIsFresh(current, target);
    FreshSound(target);
    EnvIsCore(current);
    EnvIsCore(p.transferred);
    EnvIsCore(p.created);
    FreshFacts(current, target);
    HeadOf(s, target.executionID);
    hide FreshTarget;
    PairSound(s, t, p);
    PairOrdered(s, t, p);
    PairHeads(s, t, p);
  }

  lemma NotTransferred(s: Store, e: Envelope)
    requires StoreInv(s) && Payload(s, e.executionID, e.revision) == Some(e) && e.executionID !in s.outgoing
    ensures e.transfer.None?
  {
    hide StoreInv, Anchored, IntegrityHolds;
    PayloadFacts(s, e.executionID, e.revision);
    AnchorFacts(s, e, e.executionID);
  }

  lemma HeadOf(s: Store, id: string)
    requires id !in s.heads
    ensures Head(s, id) == 0
  {
  }

  lemma PairSound(s: Store, t: Store, p: Publication)
    requires StoreInv(s) && HistorySound(s) && Published(s, t, p) && CoreInv(p.transferred) && CoreInv(p.created)
    requires p.created.revision == 1 && Precedes(s, p.transferred, p.transferred.executionID)
    requires Head(s, p.transferred.executionID) < p.transferred.revision && Head(s, p.created.executionID) == 0
    ensures HistorySound(t)
  {
    hide CoreInv, Current, Extends, StoreInv;
    forall id, r: uint64 | Payload(t, id, r).Some?
      ensures CoreInv(Payload(t, id, r).value) && (r < Head(t, id) ==> Current(Payload(t, id, r).value))
    {
      if (id != p.transferred.executionID || r != p.transferred.revision) && (id != p.created.executionID || r != 1) {
        assert Payload(t, id, r) == Payload(s, id, r);
        PayloadFacts(s, id, r);
      }
    }
  }

  lemma PairHeads(s: Store, t: Store, p: Publication)
    requires Published(s, t, p) && Precedes(s, p.transferred, p.transferred.executionID)
    requires Head(s, p.transferred.executionID) < p.transferred.revision
    requires p.transferred.revision == Increment(Head(s, p.transferred.executionID))
    requires Head(s, p.created.executionID) == 0 && p.transferred.executionID != p.created.executionID
    ensures HeadsExtend(s, t)
  {
    hide Extends, Current;
    forall id ensures HeadExtends(s, t, id) {
      if id != p.transferred.executionID && id != p.created.executionID {
        assert Head(t, id) == Head(s, id) && Payload(t, id, Head(s, id)) == Payload(s, id, Head(s, id));
      }
    }
  }

  lemma PairOrdered(s: Store, t: Store, p: Publication)
    requires StoreInv(s) && HistoryOrdered(s) && Published(s, t, p)
    requires Precedes(s, p.transferred, p.transferred.executionID)
    requires Head(s, p.transferred.executionID) < p.transferred.revision && Head(s, p.created.executionID) == 0
    requires p.transferred.executionID != p.created.executionID
    ensures HistoryOrdered(t)
  {
    hide Extends, StoreInv, Current;
    var a, b := p.transferred.executionID, p.created.executionID;
    forall id, q: uint64, r: uint64 | q < r && Payload(t, id, q).Some? && Payload(t, id, r).Some?
      ensures Extends(Payload(t, id, q).value, Payload(t, id, r).value)
    {
      if id == b {
        if q == 1 {
          PayloadFacts(s, id, r);
          assert false;
        } else {
          PayloadFacts(s, id, q);
          assert false;
        }
      } else if id == a && q == p.transferred.revision {
        PayloadFacts(s, id, r);
        assert false;
      } else if id == a && r == p.transferred.revision {
        PayloadFacts(s, id, q);
        var h := Payload(s, id, Head(s, id)).value;
        if q < Head(s, id) {
          assert Extends(Payload(s, id, q).value, h);
          ExtendsTransitive(Payload(s, id, q).value, h, p.transferred);
        }
      } else {
        assert Payload(t, id, q) == Payload(s, id, q) && Payload(t, id, r) == Payload(s, id, r);
      }
    }
  }
}
