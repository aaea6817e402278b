/** The operations of open sessions, and with them every run of the world. */
module DurablePerform {
  import opened Basics
  import opened Envelopes
  import opened Lifecycle
  import opened StoreModel
  import opened StoreSteps
  import opened AggregateInvariant
  import opened RuntimeOps
  import opened Transfers
  import opened DurableRuns
  import opened DurableSafety
  import A = ActivityRecords
  import S = ActivitySteps
  import AO = ActivityOps
  import CO = ChildOps
  import WO = WaitOps
  import C = ChildRecords
  import G = ChildGroups

  lemma ProbeKeeps(w: World, ss: Session, e: Envelope, sid: nat, q: S.ActivityRequest)
    requires WorldInv(w) && SessionAt(w, sid) == Some(ss) && ss.envelope == Some(e)
    ensures Steps(w, Opened(w, ss, e, sid, Probe(sid, q)))
  {
    hide StoreInv, HistorySound, HistoryOrdered, StoreMoves, TracesSound, EnvInv, Performed, Leasing, CommitRollover;
    WorldStays(w);
    if Reconcilable(e, q) {
      assert SessionSound(w.store, ss);
      var probing := ss.(reconciling := ss.reconciling + {BoundActivity(e, q.key)});
      assert SessionSound(w.store, probing);
      hide SessionSound, Reconcilable, WorldInv;
      WorldKept(w, w.(sessions := w.sessions[sid := probing]));
    }
  }

  // -------------------------------------------------------------- performing

  /** The committed successor of an operation of an open session. */
  ghost predicate Succeeds(w: World, ss: Session, e: Envelope, op: Op, t: Envelope, s: Store, c: Envelope) {
    && ss.envelope == Some(e) && Allowed(ss, e, op) && Apply(e, op, ss.lease.incarnation) == Write(t)
    && Commit(w.store, w.now, e.revision, ss.lease, t) == Ok((s, c))
  }

  /** A successful commit replaces exactly the session's envelope. */
  lemma PerformFacts(w: World, ss: Session, e: Envelope, op: Op, t: Envelope, s: Store, c: Envelope)
    requires StoreInv(w.store) && SessionSound(w.store, ss) && Succeeds(w, ss, e, op, t, s, c)
    ensures c == Next(e, t) && t.executionID == e.executionID && Head(w.store, e.executionID) == e.revision < MAX_UINT64
    ensures Payload(w.store, e.executionID, e.revision) == Some(e)
    ensures StoreInv(s) && StoreExtends(w.store, s) && Written(w.store, s, c)
    ensures Succession(e, op, t) && Follows(e, c) && (!Stranding(e, op, t) ==> EnvInv(c))
    ensures Enabled(e, op, ss.lease.incarnation)
  {
    hide StoreInv, StoreExtends, EnvInv, Succession, Follows, Stranding, Apply, Commit, Written, HostSane;
    CommitKeeps(w.store, w.now, e.revision, ss.lease, t);
    CommitOwner(w.store, w.now, e.revision, ss.lease, t);
    CommitSource(w.store, w.now, e.revision, ss.lease, t);
    PositiveRevision(e);
    hide SessionSound;
    EnabledFacts(w.store, ss, e, op);
    ApplySound(e, op, ss.lease.incarnation, t);
    SuccessionFollows(e, op, t);
  }

  lemma CommitSource(s: Store, now: Time, expected: uint64, lease: Lease, t: Envelope)
    requires StoreInv(s) && Commit(s, now, expected, lease, t).Ok?
    ensures expected > 0 ==> Payload(s, t.executionID, expected).Some?
  {
    hide StoreInv, CommitError;
    CommitFacts(s, now, expected, lease, t);
  }

  lemma PositiveRevision(e: Envelope)
    requires EnvInv(e)
    ensures e.revision > 0
  {
    hide CollectionsValid, RecordsInductive;
  }

  lemma EnabledFacts(s: Store, ss: Session, e: Envelope, op: Op)
    requires SessionSound(s, ss) && ss.envelope == Some(e) && Allowed(ss, e, op)
    ensures Enabled(e, op, ss.lease.incarnation)
  {
    hide EnvInv, HostSane, Recalls;
  }

  /** The acknowledged session knows its new envelope and what still runs. */
  lemma AcknowledgedSound(w: World, ss: Session, e: Envelope, op: Op, t: Envelope, s: Store, c: Envelope)
    requires StoreInv(w.store) && SessionSound(w.store, ss) && Succeeds(w, ss, e, op, t, s, c)
    ensures SessionSound(s, Acknowledge(ss, e, op, c))
  {
    hide StoreInv, StoreExtends, EnvInv, Succession, Apply, Commit, Written, HostSane, Enabled, Recalls, CoreInv;
    hide WO.Strands, Extends;
    PerformFacts(w, ss, e, op, t, s, c);
    assert Recalls(s, c) by {
      WrittenRecalls(w.store, s, c);
    }
    var known := Acknowledge(ss, e, op, c);
    forall p | p in known.pending ensures StillRunning(c, p.0, p.1, ss.lease.incarnation) {
      PendingKept(w, ss, e, op, t, s, c, p);
    }
    forall k | k in known.reconciling ensures StillUnknown(c, k) {
      assert !op.ResolveActivity?;
      UnknownKept(e, op, ss.lease.incarnation, t, k);
    }
  }

  lemma PendingKept(w: World, ss: Session, e: Envelope, op: Op, t: Envelope, s: Store, c: Envelope, p: (Digest, int))
    requires StoreInv(w.store) && SessionSound(w.store, ss) && Succeeds(w, ss, e, op, t, s, c)
    requires p in Acknowledge(ss, e, op, c).pending
    ensures StillRunning(c, p.0, p.1, ss.lease.incarnation)
  {
    hide StoreInv, StoreExtends, EnvInv, Succession, Apply, Commit, Written, HostSane, Enabled, Recalls, CoreInv;
    hide WO.Strands, Extends;
    PerformFacts(w, ss, e, op, t, s, c);
    if p in ss.pending {
      assert StillRunning(e, p.0, p.1, ss.lease.incarnation);
      RunningKept(e, op, ss.lease.incarnation, t, p.0, p.1);
    } else {
      BeginsPair(e, op.request, op.checkedAt, op.startedAt, ss.lease.incarnation, t);
    }
  }

  lemma BeginsPair(
    e: Envelope, q: S.ActivityRequest, checkedAt: Time, startedAt: Time, incarnation: uint64, t: Envelope)
    requires EnvInv(e) && Apply(e, BeginActivity(q, checkedAt, startedAt), incarnation) == Write(t)
    ensures Begun(e, t, BoundActivity(e, q.key), incarnation)
  {
    hide CO.Prepare, CO.Queue, CO.Finish, CO.Recover, CO.Cancel, CO.Join, CO.Return, CO.Confirm, CO.ResolveWait;
    hide CO.ResolveOutcome;
    hide EnvInv, AO.Begin, AO.Prepare, AO.Abandon, AO.Finish, AO.Resolve, CO.Run;
    BegunRecord(e, q, checkedAt, startedAt, incarnation, t);
  }

  lemma RunsChild(e: Envelope, k: Digest, childID: string, incarnation: uint64, t: Envelope) returns (i: nat)
    requires EnvInv(e) && Apply(e, RunChild(k, childID), incarnation) == Write(t)
    ensures Starts(e, t, k, childID, i)
  {
    hide CO.Prepare, CO.Queue, CO.Finish, CO.Recover, CO.Cancel, CO.Join, CO.Return, CO.Confirm, CO.ResolveWait;
    hide CO.ResolveOutcome;
    hide EnvInv, AO.Begin, AO.Prepare, AO.Abandon, AO.Finish, AO.Resolve, CO.Run;
    i := LaunchedChild(e, k, childID, incarnation, t);
  }

  // ------------------------------------------------------------------ traces

  /** A begin that is acknowledged permits the next attempt and no other. */
  lemma DispatchesGrow(w: World, ss: Session, e: Envelope, op: Op, t: Envelope, s: Store, c: Envelope)
    requires WorldInv(w) && SessionSound(w.store, ss) && Succeeds(w, ss, e, op, t, s, c)
    requires DispatchesSound(s, w.dispatches)
    ensures DispatchesOrdered(w.dispatches + Dispatched(e, op, c))
    ensures DispatchesSound(s, w.dispatches + Dispatched(e, op, c))
  {
    hide StoreInv, StoreExtends, EnvInv, Extends, Apply, Commit, HostSane, Enabled, Recalls, SessionSound, CoreInv;
    hide HistorySound, HistoryOrdered, Succession, WO.Strands;
    var ds := w.dispatches + Dispatched(e, op, c);
    PerformFacts(w, ss, e, op, t, s, c);
    if op.BeginActivity? {
      var k := BoundActivity(e, op.request.key);
      BeginsPair(e, op.request, op.checkedAt, op.startedAt, ss.lease.incarnation, t);
      ValidIn(c, k);
      RecordSame(c.journal[k]);
      hide S.RecordExtends;
      var d := Dispatch(c.executionID, c.revision, c.journal[k]);
      assert ds == w.dispatches + [d];
      assert DispatchSound(s, d);
      forall i | 0 <= i < |w.dispatches| && SameActivity(w.dispatches[i], d) ensures Supersedes(d, w.dispatches[i]) {
        assert DispatchSound(w.store, w.dispatches[i]);
        RecordLater(e, c, w.dispatches[i].record);
        AttemptsNotFewer(w.dispatches[i].record, e.journal[k]);
      }
      hide DispatchSound, Begun, Supersedes;
      assert DispatchesOrdered(w.dispatches);
    } else {
      assert ds == w.dispatches;
    }
  }

  lemma AttemptsNotFewer(r: A.ActivityRecord, s: A.ActivityRecord)
    requires S.RecordExtends(r, s)
    ensures |r.attempts| <= |s.attempts|
  {
  }

  lemma ValidIn(e: Envelope, k: Digest)
    requires k in e.journal && EnvInv(e)
    ensures A.ValidRecord(e.journal[k])
  {
    hide A.ValidRecord, ChildrenValid, WaitsValid, RecordAt;
  }

  /** An acknowledged launch is the first one of its child. */
  lemma LaunchesGrow(w: World, ss: Session, e: Envelope, op: Op, t: Envelope, s: Store, c: Envelope)
    requires WorldInv(w) && SessionSound(w.store, ss) && Succeeds(w, ss, e, op, t, s, c)
    requires LaunchesSound(s, w.launches)
    ensures LaunchesDistinct(w.launches + Launches(op, c)) && LaunchesSound(s, w.launches + Launches(op, c))
  {
    hide StoreInv, StoreExtends, EnvInv, Extends, Apply, Commit, HostSane, Enabled, Recalls, SessionSound, CoreInv;
    hide HistorySound, HistoryOrdered, Succession, WO.Strands;
    var ls := w.launches + Launches(op, c);
    PerformFacts(w, ss, e, op, t, s, c);
    if op.RunChild? {
      var l := Launch(c.executionID, c.revision, op.group, op.childID);
      var n := RunsChild(e, op.group, op.childID, ss.lease.incarnation, t);
      assert IsLaunched(c.children[op.group].children[n], op.childID);
      assert ls == w.launches + [l] && LaunchSound(s, l);
      FirstLaunch(e, op.group, op.childID, n);
      hide Starts;
      forall i | 0 <= i < |w.launches| && w.launches[i].executionID == l.executionID
        ensures w.launches[i].group != l.group || w.launches[i].childID != l.childID
      {
        assert LaunchSound(w.store, w.launches[i]);
      }
      hide LaunchSound, ChildLaunched;
      assert LaunchesDistinct(w.launches);
    } else {
      assert ls == w.launches;
    }
  }

  lemma FirstLaunch(e: Envelope, k: Digest, childID: string, n: nat)
    requires k in e.children && n < |e.children[k].children| && e.children[k].children[n].spec.id == childID
    requires !C.Launched(e.children[k].children[n]) && EnvInv(e)
    ensures !ChildLaunched(e, k, childID)
  {
    hide EnvInv, G.ValidGroup;
    CO.GroupFacts(e, k);
    if i :| 0 <= i < |e.children[k].children| && IsLaunched(e.children[k].children[i], childID) {
      G.ChildIDsDistinct(e.children[k], n, i);
    }
  }

  lemma PerformKeeps(w: World, ss: Session, e: Envelope, sid: nat, op: Op, acked: bool)
    requires WorldInv(w) && SessionAt(w, sid) == Some(ss) && ss.envelope == Some(e) && Allowed(ss, e, op)
    ensures Steps(w, Performed(w, ss, e, sid, op, acked))
  {
    hide StoreInv, HistorySound, HistoryOrdered, StoreExtends, TracesSound, EnvInv, Apply, Commit, Extends, Written;
    hide SessionSound, Allowed, HeadsExtend, Succession, Follows, Stranding, StoreMoves;
    WorldStays(w);
    if Apply(e, op, ss.lease.incarnation).Write? {
      var t := Apply(e, op, ss.lease.incarnation).target;
      if Commit(w.store, w.now, e.revision, ss.lease, t).Ok? {
        var (s, c) := Commit(w.store, w.now, e.revision, ss.lease, t).value;
        PerformFacts(w, ss, e, op, t, s, c);
        StoreGrowsBy(w.store, s, e, c);
        var v := Performed(w, ss, e, sid, op, acked);
        if acked {
          AcknowledgedSound(w, ss, e, op, t, s, c);
          AcknowledgedWorld(w, ss, e, sid, op, t, s, c);
        } else {
          hide WorldInv;
          WorldKept(w, v);
        }
      }
    }
  }

  /** The successor of a session's envelope, whether it loads or not. */
  ghost predicate Follows(e: Envelope, c: Envelope) {
    && EnvInv(e) && CoreInv(c) && Extends(e, c) && c.executionID == e.executionID
    && e.revision < c.revision == Increment(e.revision)
  }

  lemma SuccessionFollows(e: Envelope, op: Op, t: Envelope)
    requires EnvInv(e) && e.revision < MAX_UINT64 && Succession(e, op, t)
    ensures Follows(e, Next(e, t))
    ensures !Stranding(e, op, t) ==> EnvInv(Next(e, t))
  {
    hide EnvInv, CoreInv, Current, Stranding, JournalExtends, ChildrenExtend, WaitsExtend;
    if !Stranding(e, op, t) {
      EnvIsCore(Next(e, t));
    }
  }

  lemma StoreGrowsBy(s: Store, t: Store, e: Envelope, c: Envelope)
    requires StoreInv(s) && HistorySound(s) && HistoryOrdered(s) && StoreInv(t) && StoreExtends(s, t)
    requires Written(s, t, c) && Follows(e, c)
    requires Head(s, e.executionID) == e.revision && Payload(s, e.executionID, e.revision) == Some(e)
    ensures StoreMoves(s, t)
  {
    hide StoreInv, HistorySound, HistoryOrdered, StoreExtends, EnvInv, Extends, Written, StoreMoves, CoreInv, Current;
    EnvIsCore(e);
    StoreGrows(s, t, c);
  }

  lemma AcknowledgedWorld(
    w: World, ss: Session, e: Envelope, sid: nat, op: Op, t: Envelope, s: Store, c: Envelope)
    requires WorldInv(w) && SessionSound(w.store, ss) && Succeeds(w, ss, e, op, t, s, c) && StoreMoves(w.store, s)
    requires SessionSound(s, Acknowledge(ss, e, op, c))
    ensures Steps(w, w.(store := s, sessions := w.sessions[sid := Acknowledge(ss, e, op, c)],
      dispatches := w.dispatches + Dispatched(e, op, c), launches := w.launches + Launches(op, c)))
  {
    hide StoreInv, HistorySound, HistoryOrdered, StoreExtends, Succeeds, SessionSound, HeadsExtend, Acknowledge;
    hide DispatchesSound, LaunchesSound, DispatchesOrdered, LaunchesDistinct, Dispatched, Launches;
    var v := w.(store := s, sessions := w.sessions[sid := Acknowledge(ss, e, op, c)],
      dispatches := w.dispatches + Dispatched(e, op, c), launches := w.launches + Launches(op, c));
    SessionsKept(w, v);
    TracesKept(w, s);
    DispatchesGrow(w, ss, e, op, t, s, c);
    LaunchesGrow(w, ss, e, op, t, s, c);
  }

  // ----------------------------------------------------------------- all runs

  lemma OnSessionKeeps(w: World, sid: nat, m: Move)
    requires WorldInv(w)
    ensures Steps(w, OnSession(w, sid, m))
  {
    hide WorldInv, Performed, Created, Leasing, CommitRollover, Fresh, Allowed, Load, CollectionsValid, StoreMoves;
    hide Steps;
    WorldStays(w);
    match SessionAt(w, sid) {
      case None =>
      case Some(ss) =>
        LeasingKeeps(w, ss, sid, m);
        if ss.envelope.None? {
          match m {
            case Open(x) => OpenKeeps(w, ss, sid);
            case Create(_, first, acked) =>
              if Fresh(first) {
                CreateKeeps(w, ss, sid, first, acked);
              }
            case _ =>
          }
        } else {
          var e := ss.envelope.value;
          match m {
            case Perform(_, op, acked) =>
              if Allowed(ss, e, op) {
                PerformKeeps(w, ss, e, sid, op, acked);
              }
            case Probe(_, q) => ProbeKeeps(w, ss, e, sid, q);
            case RollOver(_, target, sizes) => RollOverKeeps(w, ss, sid, e, target, sizes);
            case _ =>
          }
        }
    }
  }

  lemma MovedKeeps(w: World, m: Move)
    requires WorldInv(w)
    ensures Steps(w, Moved(w, m))
  {
    hide OnSession, Retain, Acquire, WorldInv, Steps;
    match m {
      case Tick(now) => TickKeeps(w, now);
      case Maintain(q) => MaintainKeeps(w, q);
      case Attach(sid, id, owner, ttl) => AttachKeeps(w, sid, id, owner, ttl);
      case Open(sid) => OnSessionKeeps(w, sid, m);
      case Create(sid, _, _) => OnSessionKeeps(w, sid, m);
      case Perform(sid, _, _) => OnSessionKeeps(w, sid, m);
      case Probe(sid, _) => OnSessionKeeps(w, sid, m);
      case KeepAlive(sid, _) => OnSessionKeeps(w, sid, m);
      case Detach(sid) => OnSessionKeeps(w, sid, m);
      case Crash(sid) => OnSessionKeeps(w, sid, m);
      case RollOver(sid, _, _) => OnSessionKeeps(w, sid, m);
    }
  }

  lemma TickKeeps(w: World, now: Time)
    requires WorldInv(w)
    ensures Steps(w, w.(now := now))
  {
    hide StoreInv, HistorySound, HistoryOrdered, SessionSound, StoreMoves;
    WorldStays(w);
    hide WorldInv, TracesSound;
    WorldKept(w, w.(now := now));
  }

  lemma StartSound()
    ensures WorldInv(START)
  {
    hide CoreInv, Extends;
  }

  /** Every run, with any interleaving of sessions, operations, crashes, lost
      replies, takeovers, rollovers and retention, keeps the invariant. */
  lemma {:induction false} RunKeeps(moves: seq<Move>)
    ensures WorldInv(Run(moves))
  {
    hide WorldInv, Moved, StoreMoves;
    if moves == [] {
      StartSound();
    } else {
      RunKeeps(moves[..|moves| - 1]);
      MovedKeeps(Run(moves[..|moves| - 1]), moves[|moves| - 1]);
    }
  }
}
