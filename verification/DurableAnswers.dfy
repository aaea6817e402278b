/** What a run does with an operation: which request each dispatch serves, that
    every acknowledged start is dispatched, and what a session may do next. */
module DurableAnswers {
  import opened Basics
  import opened Envelopes
  import opened StoreModel
  import opened StoreSteps
  import opened AggregateInvariant
  import opened RuntimeOps
  import opened Transfers
  import opened DurableRuns
  import opened DurableSafety
  import opened DurablePerform
  import opened DurableLoads
  import A = ActivityRecords
  import S = ActivitySteps
  import AO = ActivityOps
  import SO = StepOps
  import WO = WaitOps
  import CO = ChildOps
  import C = ChildRecords

  /** The dispatch serves this request: its key, input, implementation and policy. */
  predicate Serves(d: Dispatch, q: S.ActivityRequest) {
    && d.record.key == q.key && d.record.inputDigest == PayloadHash(q.input)
    && d.record.implementation == q.implementation && d.record.retry == q.retry
  }

  /** An acknowledged start of this request by the session's own incarnation. */
  ghost predicate Starts(w: World, m: Move, d: Dispatch) {
    && m.Perform? && m.acked && m.op.BeginActivity? && Serves(d, m.op.request)
    && SessionAt(w, m.sid).Some? && d.executionID == SessionAt(w, m.sid).value.lease.executionID
    && d.record.attempts != [] && A.Last(d.record).incarnation == SessionAt(w, m.sid).value.lease.incarnation
    && A.Last(d.record).startedAt == m.op.startedAt
  }

  lemma MoveDispatches(w: World, m: Move)
    requires WorldInv(w)
    ensures var ds := Moved(w, m).dispatches;
      ds == w.dispatches || (exists d :: ds == w.dispatches + [d] && Starts(w, m, d))
  {
    hide WorldInv, Performed, Created, Leasing, CommitRollover, Fresh, Allowed, Load, CollectionsValid, Acquire, Retain;
    hide Starts;
    LeasingTraces(w, m);
    CreatedTraces(w, m);
    if m.Perform? && SessionAt(w, m.sid).Some? && SessionAt(w, m.sid).value.envelope.Some? {
      var ss := SessionAt(w, m.sid).value;
      if Allowed(ss, ss.envelope.value, m.op) {
        PerformDispatches(w, m, ss, ss.envelope.value);
      }
    }
  }

  predicate TracesAlone(w: World, v: World) {
    v.dispatches == w.dispatches && v.launches == w.launches
  }

  lemma LeasingTraces(w: World, m: Move)
    ensures forall ss, sid :: TracesAlone(w, Leasing(w, ss, sid, m))
  {
    hide Renew, Release;
  }

  lemma CreatedTraces(w: World, m: Move)
    ensures forall ss, sid, first, acked :: TracesAlone(w, Created(w, ss, sid, first, acked))
  {
    hide Commit;
  }

  lemma PerformDispatches(w: World, m: Move, ss: Session, e: Envelope)
    requires WorldInv(w) && Performing(w, m, ss, e)
    ensures var ds := Performed(w, ss, e, m.sid, m.op, m.acked).dispatches;
      ds == w.dispatches || (exists d :: ds == w.dispatches + [d] && Starts(w, m, d))
  {
    hide WorldInv, Apply, Commit, Allowed;
    if Apply(e, m.op, ss.lease.incarnation).Write? && m.acked && m.op.BeginActivity? {
      var t := Apply(e, m.op, ss.lease.incarnation).target;
      if Commit(w.store, w.now, e.revision, ss.lease, t).Ok? {
        var d := BeginDispatches(w, m.sid, m.op.request, m.op.checkedAt, m.op.startedAt, ss, e, t);
      }
    }
  }

  /** The record of the dispatch is the committed one. */
  predicate CommittedAs(d: Dispatch, c: Envelope) {
    && d.executionID == c.executionID && d.revision == c.revision
    && d.record.identity in c.journal && c.journal[d.record.identity] == d.record
  }

  /** An acknowledged start is dispatched once, as it was committed, and to the
      request that started it. */
  lemma BeginDispatches(
    w: World, sid: nat, q: S.ActivityRequest, checkedAt: Time, startedAt: Time, ss: Session, e: Envelope, t: Envelope)
    returns (d: Dispatch)
    requires WorldInv(w) && Commits(w, Perform(sid, BeginActivity(q, checkedAt, startedAt), true), ss, e, t)
    ensures var m := Perform(sid, BeginActivity(q, checkedAt, startedAt), true);
      Moved(w, m).dispatches == w.dispatches + [d] && Starts(w, m, d) && CommittedAs(d, Next(e, t))
  {
    var m := Perform(sid, BeginActivity(q, checkedAt, startedAt), true);
    hide StoreInv, HistorySound, HistoryOrdered, TracesSound, SessionSound, EnvInv, CoreInv, Extends, Apply, Commit;
    hide Stranding, Enabled, Allowed, Current, Written, StoreExtends;
    CommitsSound(w, m, ss, e, t);
    var (s, c) := Commit(w.store, w.now, e.revision, ss.lease, t).value;
    PerformFacts(w, ss, e, m.op, t, s, c);
    BeginAnswers(e, q, checkedAt, startedAt, ss.lease.incarnation, t);
    OwnLease(w, sid, ss, e);
    d := Dispatch(c.executionID, c.revision, t.journal[BoundActivity(e, q.key)]);
    assert Moved(w, m).dispatches == w.dispatches + [d];
    assert CommittedAs(d, c);
  }

  lemma OwnLease(w: World, sid: nat, ss: Session, e: Envelope)
    requires WorldInv(w) && SessionAt(w, sid) == Some(ss) && ss.envelope == Some(e)
    ensures ss.lease.executionID == e.executionID
  {
    hide StoreInv, HistorySound, HistoryOrdered, TracesSound, EnvInv;
    assert SessionSound(w.store, ss);
  }

  lemma BeginAnswers(
    e: Envelope, q: S.ActivityRequest, checkedAt: Time, startedAt: Time, incarnation: uint64, t: Envelope)
    requires EnvInv(e) && Apply(e, BeginActivity(q, checkedAt, startedAt), incarnation) == Write(t)
    ensures var k := BoundActivity(e, q.key);
      && k in t.journal && t.journal[k].identity == k && t.journal[k].key == q.key
      && t.journal[k].inputDigest == PayloadHash(q.input)
      && t.journal[k].implementation == q.implementation && t.journal[k].retry == q.retry
      && t.journal[k].attempts != [] && A.Last(t.journal[k]).incarnation == incarnation
      && A.Last(t.journal[k]).startedAt == startedAt
  {
    hide CO.Prepare, CO.Queue, CO.Run, CO.Finish, CO.Recover, CO.Cancel, CO.Join, CO.Return, CO.Confirm, CO.ResolveWait;
    hide CO.ResolveOutcome, AO.Prepare, AO.Abandon, AO.Finish, AO.Resolve, EnvInv, A.ValidRecord;
    var k := BoundActivity(e, q.key);
    IdentityIs(e, k);
    if k in e.journal {
      KeyIs(e, q.key);
    }
  }

  /** What a key is bound to carries that key. */
  lemma KeyIs(e: Envelope, key: string)
    requires EnvInv(e) && BoundActivity(e, key) in e.journal
    ensures e.journal[BoundActivity(e, key)].key == key
  {
    hide A.ValidAttempts, A.ValidDecisions, A.ValidSchedules, A.ValidHistory, A.ValidState, ChildrenValid, WaitsValid;
  }

  /** Every dispatch of every run serves the request of one acknowledged move. */
  ghost predicate Requested(moves: seq<Move>, d: Dispatch, n: int) {
    0 <= n < |moves| && Starts(Run(moves[..n]), moves[n], d)
  }

  lemma {:induction false} DispatchesAreRequested(moves: seq<Move>, i: int) returns (n: int)
    requires 0 <= i < |Run(moves).dispatches|
    ensures Requested(moves, Run(moves).dispatches[i], n)
  {
    hide WorldInv, Moved, Starts;
    var rest := moves[..|moves| - 1];
    var w, m := Run(rest), moves[|moves| - 1];
    RunKeeps(rest);
    MoveDispatches(w, m);
    assert Run(moves) == Moved(w, m);
    if i < |w.dispatches| {
      n := DispatchesAreRequested(rest, i);
      assert rest[..n] == moves[..n];
    } else {
      n := |moves| - 1;
      assert moves[..n] == rest;
    }
  }

  // ----------------------------------------------------------------- launches

  /** An acknowledged running child, and the launch it permits. */
  lemma RunLaunches(w: World, sid: nat, k: Digest, childID: string, ss: Session, e: Envelope, t: Envelope)
    requires WorldInv(w) && Commits(w, Perform(sid, RunChild(k, childID), true), ss, e, t)
    ensures Moved(w, Perform(sid, RunChild(k, childID), true)).launches ==
      w.launches + [Launch(t.executionID, Next(e, t).revision, k, childID)]
    ensures ChildLaunched(t, k, childID)
  {
    var m := Perform(sid, RunChild(k, childID), true);
    hide StoreInv, HistorySound, HistoryOrdered, TracesSound, SessionSound, EnvInv, CoreInv, Extends, Apply, Commit;
    hide Stranding, Enabled, Allowed, Current, Written, StoreExtends;
    CommitsSound(w, m, ss, e, t);
    var (s, c) := Commit(w.store, w.now, e.revision, ss.lease, t).value;
    PerformFacts(w, ss, e, m.op, t, s, c);
    var i := RunsChild(e, k, childID, ss.lease.incarnation, t);
    assert IsLaunched(t.children[k].children[i], childID);
  }

  /** Nothing else launches a child. */
  lemma MoveLaunches(w: World, m: Move)
    ensures !(m.Perform? && m.acked && m.op.RunChild?) ==> Moved(w, m).launches == w.launches
  {
    hide Created, Leasing, CommitRollover, Fresh, Allowed, Load, CollectionsValid, Acquire, Retain, Apply, Commit;
    LeasingTraces(w, m);
    CreatedTraces(w, m);
  }

  // ----------------------------------------------------------------- sessions

  /** Nothing but this restrains an operation of a session that knows `e`. */
  lemma SessionMay(ss: Session, e: Envelope, op: Op)
    requires HostSane(op)
    requires op.SaveSnapshot? || op.CommitStep? || op.ArmWait? ==> e.terminal.None?
    requires (|| op.ResolveActivity? || op.DeliverWait? || op.CancelWait? || op.ConfirmChildCancel?
              || op.ResolveChildWait? || op.ResolveChildOutcome? || op.Migrate?) ==>
      ss.pending == {} && ss.reconciling == {}
    requires op.FinishDispatch? ==> (op.identity, op.attempt) in ss.pending
    requires op.FinishReconcile? ==> op.identity in ss.reconciling
    ensures Allowed(ss, e, op)
  {
  }

  /** An acknowledged operation is what its session knows afterwards. */
  lemma SessionAfter(w: World, sid: nat, op: Op, ss: Session, e: Envelope, t: Envelope)
    requires WorldInv(w) && Commits(w, Perform(sid, op, true), ss, e, t)
    ensures SessionAt(Moved(w, Perform(sid, op, true)), sid) == Some(Acknowledge(ss, e, op, Next(e, t)))
  {
    hide StoreInv, HistorySound, HistoryOrdered, TracesSound, SessionSound, EnvInv, CoreInv, Extends, Apply, Commit;
    hide Stranding, Enabled, Allowed, Current, Written, StoreExtends, Acknowledge;
    CommitsSound(w, Perform(sid, op, true), ss, e, t);
    var (s, c) := Commit(w.store, w.now, e.revision, ss.lease, t).value;
    PerformFacts(w, ss, e, op, t, s, c);
  }

  /** After an acknowledged start the session may finish exactly that attempt, once,
      with any outcome. */
  lemma StartedMayFinish(
    ss: Session, e: Envelope, q: S.ActivityRequest, checkedAt: Time, startedAt: Time, c: Envelope,
    outcome: AO.Outcome, now: Time, sample: Option<uint64>, d: Envelope)
    requires outcome.FailedWith? ==> !outcome.decision.classification.NoClass?
    ensures var later := Acknowledge(ss, e, BeginActivity(q, checkedAt, startedAt), c);
      var k := BoundActivity(e, q.key);
      var finish := FinishDispatch(k, AttemptOf(c, k), outcome, now, sample);
      && later.envelope == Some(c) && later.lease == ss.lease && Allowed(later, c, finish)
      && !Allowed(Acknowledge(later, c, finish, d), d, finish)
  {
  }
}
