/** What holds in every run of the durable runtime. */
module DurableTheorems {
  import opened Basics
  import opened Envelopes
  import opened Lifecycle
  import opened StoreModel
  import opened StoreSteps
  import opened AggregateInvariant
  import opened RuntimeOps
  import opened DurableRuns
  import opened DurablePerform
  import opened DurableLoads
  import A = ActivityRecords
  import S = ActivitySteps
  import C = ChildRecords
  import G = ChildGroups
  import H = ChildSteps
  import L = ChildCapacity
  import W = WaitArbitration
  import WO = WaitOps
  import CO = ChildOps

  lemma CommittedCore(moves: seq<Move>, e: Envelope)
    requires CommittedIn(moves, e)
    ensures CoreInv(e) && (Current(e) ==> EnvInv(e)) && (CollectionsValid(e) <==> Current(e))
    ensures e.revision > 0 && Recalls(Run(moves).store, e)
    ensures !Current(e) ==> Head(Run(moves).store, e.executionID) == e.revision
  {
    hide Run, CoreInv, Current, EnvInv, CollectionsValid, StoreInv, HistoryOrdered, TracesSound, SessionSound;
    RunKeeps(moves);
    var s := Run(moves).store;
    assert Payload(s, e.executionID, e.revision).Some?;
    PayloadFacts(s, e.executionID, e.revision);
    LoadsIff(e);
  }

  // ---------------------------------------- envelopes of two points of one run

  /** A committed envelope is recalled, and every later stored revision of its
      execution extends it. */
  ghost predicate Ahead(s: Store, e: Envelope) {
    && Recalls(s, e) && e.revision > 0
    && forall r: uint64 :: e.revision < r && Payload(s, e.executionID, r).Some? ==>
         Extends(e, Payload(s, e.executionID, r).value)
  }

  lemma AheadKept(s: Store, t: Store, e: Envelope)
    requires Ahead(s, e) && StoreMoves(s, t)
    ensures Ahead(t, e)
  {
    hide StoreInv, HistorySound, HistoryOrdered, Extends, Current, FencesGrow, AnchorsStay;
    RecallKept(s, t, e);
    var id := e.executionID;
    assert HeadExtends(s, t, id);
    forall r: uint64 | e.revision < r && Payload(t, id, r).Some? ensures Extends(e, Payload(t, id, r).value) {
      PayloadFacts(t, id, r);
      if r > Head(s, id) {
        var h := Payload(s, id, Head(s, id));
        if Head(s, id) != e.revision && Head(s, id) > 0 {
          ExtendsTransitive(e, h.value, Payload(t, id, r).value);
        }
      }
    }
  }

  lemma AheadStarts(moves: seq<Move>, e: Envelope)
    requires CommittedIn(moves, e)
    ensures Ahead(Run(moves).store, e)
  {
    hide Run, Extends, StoreInv, HistorySound, TracesSound, SessionSound, CoreInv, EnvInv, CollectionsValid, Current;
    CommittedCore(moves, e);
    RunKeeps(moves);
    assert Payload(Run(moves).store, e.executionID, e.revision).Some?;
  }

  lemma {:induction false} StaysAhead(moves: seq<Move>, more: seq<Move>, e: Envelope)
    requires CommittedIn(moves, e)
    ensures Ahead(Run(moves + more).store, e)
  {
    hide WorldInv, Moved, StoreMoves, Ahead, CommittedIn;
    if more == [] {
      assert moves + more == moves;
      AheadStarts(moves, e);
    } else {
      var all := moves + more;
      var rest := more[..|more| - 1];
      assert all[..|all| - 1] == moves + rest;
      StaysAhead(moves, rest, e);
      RunKeeps(moves + rest);
      MovedKeeps(Run(moves + rest), all[|all| - 1]);
      AheadKept(Run(moves + rest).store, Run(all).store, e);
    }
  }

  /** Two envelopes of one execution, committed at any two points of a run,
      whatever retention removed in between: the later one extends the earlier. */
  lemma LaterExtends(moves: seq<Move>, more: seq<Move>, e: Envelope, f: Envelope)
    requires CommittedIn(moves, e) && CommittedIn(moves + more, f)
    requires e.executionID == f.executionID && e.revision <= f.revision
    ensures if e.revision == f.revision then f == e else Extends(e, f)
  {
    hide Run, Extends;
    StaysAhead(moves, more, e);
  }

  // ------------------------------------------------ the whole-aggregate theorem

  /** Every committed envelope keeps the core invariant. It passes the loader's
      validator, at its own revision and at every later one, exactly when its
      cursor addresses everything outstanding. */
  lemma AggregatesAreAlwaysSound(moves: seq<Move>, e: Envelope, later: uint64)
    requires CommittedIn(moves, e) && e.revision <= later
    ensures CoreInv(e) && (CollectionsValid(e) <==> Current(e))
    ensures Current(e) ==> CollectionsValid(e.(revision := later))
  {
    hide Run, CommittedIn, JournalValid, ChildrenValid, WaitsValid, RecordsInductive, W.ValidProfile, JournalRefsValid;
    hide GroupRefsValid, CoreInv, Current;
    CommittedCore(moves, e);
    var f := e.(revision := later);
    if Current(e) {
      JournalCarried(e, f);
      ChildrenCarried(e, f);
      WaitsCarried(e, f);
    }
  }

  /** All envelopes a run ever commits load, if and only if none of its deliveries
      decides a wait over outstanding work. */
  lemma LoadsIffTimely(moves: seq<Move>)
    ensures AllLoad(moves) <==> Timely(moves)
  {
    hide Run, StrandingMove, CollectionsValid, CommittedIn, Commits, Stranding;
    if Timely(moves) {
      forall n, e | 0 <= n <= |moves| && CommittedIn(moves[..n], e) ensures CollectionsValid(e) {
        assert forall i :: 0 <= i < n ==> moves[..n][..i] == moves[..i] && moves[..n][i] == moves[i];
        TimelyLoads(moves[..n]);
        StoredLoads(moves[..n], e);
      }
    } else {
      var n :| 0 <= n < |moves| && StrandingMove(Run(moves[..n]), moves[n]);
      var c := StrandedCommit(moves[..n], moves[n]);
      assert moves[..n + 1] == moves[..n] + [moves[n]];
      assert CommittedIn(moves[..n + 1], c) && !CollectionsValid(c);
    }
  }

  lemma StoredLoads(moves: seq<Move>, e: Envelope)
    requires CommittedIn(moves, e) && HistoryLoads(Run(moves).store)
    ensures CollectionsValid(e)
  {
    hide Run, CollectionsValid, CoreInv, Current, EnvInv;
    CommittedCore(moves, e);
    assert Payload(Run(moves).store, e.executionID, e.revision).Some?;
  }

  lemma StrandedCommit(moves: seq<Move>, m: Move) returns (c: Envelope)
    requires StrandingMove(Run(moves), m)
    ensures CommittedIn(moves + [m], c) && !CollectionsValid(c)
  {
    hide Run, WorldInv, Commits, Stranding, CollectionsValid, EnvInv, Enabled, Current, Moved;
    var w := Run(moves);
    RunKeeps(moves);
    var ss, e, t :| Commits(w, m, ss, e, t) && Stranding(e, m.op, t);
    c := Next(e, t);
    CommitsSound(w, m, ss, e, t);
    CommitsStored(w, m, ss, e, t);
    LastMove(moves, m);
    CommittedCore(moves + [m], c);
  }

  lemma LastMove(moves: seq<Move>, m: Move)
    ensures Run(moves + [m]) == Moved(Run(moves), m)
  {
    hide Moved;
    assert (moves + [m])[..|moves|] == moves;
  }

  /** While node code prepares work only in a run that is neither over nor
      waiting, every committed envelope loads and its gate is closed. */
  lemma PunctualRunsLoad(moves: seq<Move>, e: Envelope)
    requires Punctual(moves) && CommittedIn(moves, e)
    ensures CollectionsValid(e) && Gated(e) && AllLoad(moves)
  {
    hide Run, CollectionsValid, Gated, Punctual, Timely;
    PunctualGates(moves);
    TimelyLoads(moves);
    StoredLoads(moves, e);
    LoadsIffTimely(moves);
    assert Payload(Run(moves).store, e.executionID, e.revision).Some?;
  }

  /** A committed envelope that does not load is the last revision of its
      execution for ever. */
  lemma UnloadableIsLast(moves: seq<Move>, more: seq<Move>, e: Envelope, f: Envelope)
    requires CommittedIn(moves, e) && !CollectionsValid(e)
    requires CommittedIn(moves + more, f) && f.executionID == e.executionID
    ensures f.revision <= e.revision && Head(Run(moves + more).store, e.executionID) == e.revision
  {
    hide Run, CollectionsValid, CoreInv, Current, EnvInv, WorldInv, StoreMoves;
    CommittedCore(moves, e);
    StaysLast(moves, more, e);
    RunKeeps(moves + more);
    HeadBounds(Run(moves + more), f);
  }

  lemma HeadBounds(w: World, f: Envelope)
    requires WorldInv(w) && Payload(w.store, f.executionID, f.revision) == Some(f)
    ensures f.revision <= Head(w.store, f.executionID)
  {
    hide StoreInv, HistorySound, HistoryOrdered, TracesSound, SessionSound;
    PayloadFacts(w.store, f.executionID, f.revision);
  }

  lemma {:induction false} StaysLast(moves: seq<Move>, more: seq<Move>, e: Envelope)
    requires CommittedIn(moves, e) && !Current(e) && Head(Run(moves).store, e.executionID) == e.revision
    ensures Head(Run(moves + more).store, e.executionID) == e.revision
  {
    hide WorldInv, Moved, StoreMoves, Ahead, CommittedIn, Current;
    if more == [] {
      assert moves + more == moves;
    } else {
      var all := moves + more;
      var rest := more[..|more| - 1];
      assert all[..|all| - 1] == moves + rest;
      StaysLast(moves, rest, e);
      StaysAhead(moves, rest, e);
      RunKeeps(moves + rest);
      MovedKeeps(Run(moves + rest), all[|all| - 1]);
      LastKept(Run(moves + rest).store, Run(all).store, e);
    }
  }

  lemma LastKept(s: Store, t: Store, e: Envelope)
    requires Ahead(s, e) && StoreMoves(s, t) && !Current(e) && Head(s, e.executionID) == e.revision
    ensures Head(t, e.executionID) == e.revision
  {
    hide StoreInv, HistorySound, HistoryOrdered, StoreExtends, Extends, Current;
    assert HeadExtends(s, t, e.executionID);
  }

  /** In every envelope that loads everything outstanding belongs to the current
      activation, and activations never wrap around. Behind a terminal nothing is
      outstanding, provided node code kept to its own step. */
  lemma ActivationGate(moves: seq<Move>, e: Envelope)
    requires CommittedIn(moves, e)
    ensures Current(e) ==>
      forall k :: k in e.journal && A.Unresolved(e.journal[k].state) ==> e.journal[k].activation == e.activation
    ensures Current(e) ==>
      forall k :: k in e.children && !C.Merged(e.children[k]) ==> e.children[k].activation == e.activation
    ensures forall k :: k in e.waits && e.waits[k].state.Armed? ==> e.waits[k].activation == e.activation
    ensures Punctual(moves) && e.terminal.Some? ==> Idle(e)
    ensures e.terminal.Some? ==> !HasArmed(e)
    ensures 1 <= e.activation <= e.revision
  {
    hide Run, CommittedIn, JournalHeld, ChildrenHeld, W.ValidWait, CanceledTerminal, CollectionsValid, EnvInv;
    CommittedCore(moves, e);
    forall k | k in e.waits ensures WaitAt(e, e.waits[k]) {
    }
    if Punctual(moves) {
      hide Punctual;
      PunctualRunsLoad(moves, e);
    }
  }

  /** A terminal never changes again, except that a completed run may later be
      shown as transferred; activations never decrease. */
  lemma TerminalIsFinal(moves: seq<Move>, more: seq<Move>, e: Envelope, f: Envelope)
    requires CommittedIn(moves, e) && CommittedIn(moves + more, f)
    requires e.executionID == f.executionID && e.revision < f.revision
    ensures e.activation <= f.activation
    ensures e.terminal.Some? ==>
      f.terminal == e.terminal || (e.terminal.value.status.RunCompleted? && f.transfer.Some?)
  {
    hide Run, CommittedIn, EnvInv, JournalExtends, ChildrenExtend, WaitsExtend, CoreInv, Current, CollectionsValid;
    LaterExtends(moves, more, e, f);
    CommittedCore(moves + more, f);
    TransferShown(f);
  }

  lemma TransferShown(e: Envelope)
    requires CoreInv(e)
    ensures Transferred(e) ==> e.transfer.Some?
  {
    hide JournalHeld, ChildrenHeld, WaitsValid;
  }

  // --------------------------------------------------------- activity dispatch

  predicate DispatchedIn(w: World, i: int) {
    0 <= i < |w.dispatches|
  }

  lemma DispatchFacts(moves: seq<Move>)
    ensures DispatchesSound(Run(moves).store, Run(moves).dispatches) && DispatchesOrdered(Run(moves).dispatches)
  {
    hide Run, StoreInv, HistorySound, HistoryOrdered, SessionSound, LaunchesSound, LaunchesDistinct;
    RunKeeps(moves);
  }

  /** No dispatch precedes the acknowledgement of its running record, and the
      attempt number never exceeds the limit of its policy. */
  lemma DispatchesAreAcknowledged(moves: seq<Move>, i: int)
    requires DispatchedIn(Run(moves), i)
    ensures var d := Run(moves).dispatches[i]; var s := Run(moves).store;
      && d.record.state.Running? && 1 <= |d.record.attempts| <= A.AttemptLimit(d.record.retry)
      && d.revision <= Head(s, d.executionID)
      && (Payload(s, d.executionID, d.revision).Some? ==>
            var e := Payload(s, d.executionID, d.revision).value;
            d.record.identity in e.journal && e.journal[d.record.identity] == d.record)
  {
    hide Run, S.RecordExtends, A.ValidAttempts, A.ValidDecisions, A.ValidSchedules, A.ValidHistory, A.ValidState;
    DispatchFacts(moves);
    assert DispatchSound(Run(moves).store, Run(moves).dispatches[i]);
  }

  /** Each attempt of an activity is dispatched at most once over the whole run,
      and the contract of the activity does not change between attempts. */
  lemma AttemptsAreDispatchedOnce(moves: seq<Move>, i: int, j: int)
    requires DispatchedIn(Run(moves), i) && DispatchedIn(Run(moves), j) && i < j
    requires SameActivity(Run(moves).dispatches[i], Run(moves).dispatches[j])
    ensures var a, b := Run(moves).dispatches[i].record, Run(moves).dispatches[j].record;
      |a.attempts| < |b.attempts| && S.SameContract(a, b)
  {
    hide Run;
    DispatchFacts(moves);
    assert Supersedes(Run(moves).dispatches[j], Run(moves).dispatches[i]);
  }

  /** Attempt n + 1 is dispatched only after attempt n was stored as retryably
      failed, or as unknown with an operator's decision to retry it. */
  lemma RetriesAreJustified(moves: seq<Move>, i: int)
    requires DispatchedIn(Run(moves), i)
    ensures var r := Run(moves).dispatches[i].record; var n := |r.attempts|;
      n > 1 ==>
        && r.retry.safeRetryContract != ""
        && (|| (r.attempts[n - 2].state.Failed? && r.attempts[n - 2].classification.Retryable?)
            || (r.attempts[n - 2].state.Unknown? && A.HasRetryDecision(r.resolutions, n - 1)))
  {
    hide Run, S.RecordExtends, A.ValidDecisions, A.ValidSchedules, A.ValidState;
    DispatchFacts(moves);
    var r := Run(moves).dispatches[i].record;
    assert DispatchSound(Run(moves).store, Run(moves).dispatches[i]);
    if |r.attempts| > 1 {
      assert A.MayBeRetried(r, |r.attempts| - 2) && r.attempts[|r.attempts| - 2].number == |r.attempts| - 1;
    }
  }

  function DispatchCount(ds: seq<Dispatch>, d: Dispatch): nat {
    if ds == [] then 0
    else DispatchCount(ds[..|ds| - 1], d) + (if SameActivity(ds[|ds| - 1], d) then 1 else 0)
  }

  lemma {:induction false} CountIsBounded(ds: seq<Dispatch>, d: Dispatch, bound: nat)
    requires DispatchesOrdered(ds)
    requires forall i :: 0 <= i < |ds| && SameActivity(ds[i], d) ==> 1 <= |ds[i].record.attempts| <= bound
    ensures DispatchCount(ds, d) <= bound
  {
    hide S.RecordExtends;
    if ds != [] {
      var rest, last := ds[..|ds| - 1], ds[|ds| - 1];
      if SameActivity(last, d) {
        forall i | 0 <= i < |rest| && SameActivity(rest[i], d)
          ensures 1 <= |rest[i].record.attempts| <= |last.record.attempts| - 1
        {
          assert SameActivity(ds[i], last) && Supersedes(last, ds[i]);
        }
        CountIsBounded(rest, d, |last.record.attempts| - 1);
      } else {
        CountIsBounded(rest, d, bound);
      }
    }
  }

  /** Over the whole run, with all its crashes, takeovers and lost replies, an
      activity is dispatched at most max(1, MaxAttempts) times. */
  lemma DispatchesAreBounded(moves: seq<Move>, i: int)
    requires DispatchedIn(Run(moves), i)
    ensures var d := Run(moves).dispatches[i];
      DispatchCount(Run(moves).dispatches, d) <= A.AttemptLimit(d.record.retry)
  {
    hide Run;
    DispatchFacts(moves);
    var ds := Run(moves).dispatches;
    var d := ds[i];
    forall j | 0 <= j < |ds| && SameActivity(ds[j], d)
      ensures 1 <= |ds[j].record.attempts| <= A.AttemptLimit(d.record.retry)
    {
      DispatchesAreAcknowledged(moves, j);
      if j < i {
        AttemptsAreDispatchedOnce(moves, j, i);
      } else if i < j {
        AttemptsAreDispatchedOnce(moves, i, j);
      }
    }
    CountIsBounded(ds, d, A.AttemptLimit(d.record.retry));
  }

  /** A settled activity outcome is never rewritten. */
  lemma OutcomesArePermanent(moves: seq<Move>, more: seq<Move>, e: Envelope, f: Envelope, k: Digest)
    requires k in e.journal && e.executionID == f.executionID && e.revision < f.revision
    requires CommittedIn(moves, e) && CommittedIn(moves + more, f)
    ensures k in f.journal && S.RecordExtends(e.journal[k], f.journal[k])
    ensures !A.Unresolved(e.journal[k].state) ==> f.journal[k] == e.journal[k]
  {
    hide Run, CommittedIn, ChildrenExtend, WaitsExtend;
    LaterExtends(moves, more, e, f);
  }

  /** An unknown outcome is never retried by the runtime alone: another attempt
      exists later only if an operator decided meanwhile to retry this one. */
  lemma UnknownNeedsDecision(moves: seq<Move>, more: seq<Move>, e: Envelope, f: Envelope, k: Digest)
    requires k in e.journal && e.journal[k].state.Unknown? && e.executionID == f.executionID && e.revision < f.revision
    requires CommittedIn(moves, e) && CommittedIn(moves + more, f)
    requires k in f.journal && |e.journal[k].attempts| < |f.journal[k].attempts|
    ensures A.HasRetryDecision(f.journal[k].resolutions, |e.journal[k].attempts|)
    ensures !A.HasRetryDecision(e.journal[k].resolutions, |e.journal[k].attempts|)
  {
    hide Run, CommittedIn;
    OutcomesArePermanent(moves, more, e, f, k);
    CommittedRecord(moves, e, k);
    CommittedRecord(moves + more, f, k);
    DecidedBetween(e.journal[k], f.journal[k]);
  }

  lemma CommittedRecord(moves: seq<Move>, e: Envelope, k: Digest)
    requires k in e.journal && CommittedIn(moves, e)
    ensures S.RecordInv(e.journal[k])
  {
    hide Run, CommittedIn, EnvInv, Current, CollectionsValid, S.RecordInv;
    CommittedCore(moves, e);
    hide ChildrenHeld, WaitsValid;
  }

  lemma DecidedBetween(r: A.ActivityRecord, s: A.ActivityRecord)
    requires S.RecordInv(r) && S.RecordInv(s) && S.RecordExtends(r, s) && r.state.Unknown?
    requires |r.attempts| < |s.attempts|
    ensures A.HasRetryDecision(s.resolutions, |r.attempts|) && !A.HasRetryDecision(r.resolutions, |r.attempts|)
  {
    hide A.ValidDecisions, A.ValidSchedules, A.ValidAddress;
    var n := |r.attempts|;
    assert S.AttemptExtends(r.attempts[n - 1], s.attempts[n - 1]);
    assert A.MayBeRetried(s, n - 1);
  }

  // ------------------------------------------------------------------ children

  /** A child is dispatched at most once over the whole run. */
  lemma ChildrenAreLaunchedOnce(moves: seq<Move>, i: int, j: int)
    requires 0 <= i < j < |Run(moves).launches|
    requires Run(moves).launches[i].executionID == Run(moves).launches[j].executionID
    ensures
      || Run(moves).launches[i].group != Run(moves).launches[j].group
      || Run(moves).launches[i].childID != Run(moves).launches[j].childID
  {
    hide Run, StoreInv, HistorySound, HistoryOrdered, SessionSound, LaunchesSound, DispatchesSound, DispatchesOrdered;
    RunKeeps(moves);
  }

  /** Child revisions are faithful versions: equal revisions mean equal records,
      and settled children never change. */
  lemma ChildVersionsAreFaithful(moves: seq<Move>, more: seq<Move>, e: Envelope, f: Envelope, k: Digest, i: nat)
    requires k in e.children && i < |e.children[k].children|
    requires e.executionID == f.executionID && e.revision < f.revision
    requires CommittedIn(moves, e) && CommittedIn(moves + more, f)
    ensures k in f.children && i < |f.children[k].children|
    ensures var c, d := e.children[k].children[i], f.children[k].children[i];
      && (c.revision == d.revision <==> c == d) && c.revision <= d.revision && (C.Settled(c) ==> d == c)
  {
    hide Run, CommittedIn, JournalExtends, WaitsExtend, TerminalExtends;
    LaterExtends(moves, more, e, f);
    H.ChildRevisionsAreFaithful(e.children[k], f.children[k], i);
    assert H.ChildExtends(e.children[k].children[i], f.children[k].children[i]);
  }

  /** Conservation: in every committed aggregate the groups of one activation
      together hold at most the declared capacity of every counter. */
  lemma CapacityIsConserved(moves: seq<Move>, e: Envelope, k: Digest, name: string)
    requires k in e.children && name in e.children[k].capacity && CommittedIn(moves, e)
    ensures L.ActivationUse(e.children, e.children[k].activation, name) <= e.children[k].capacity[name]
  {
    hide Run, CommittedIn, EnvInv, Current, CollectionsValid, CoreInv, L.ActivationUse;
    CommittedCore(moves, e);
    LedgerOf(e);
  }

  lemma LedgerOf(e: Envelope)
    requires CoreInv(e)
    ensures L.LedgerHolds(e.children)
  {
    hide L.LedgerHolds, G.GroupInv, OutcomesDistinct, GroupHeld, JournalHeld, WaitsValid;
  }

  // --------------------------------------------------------------------- waits

  /** First committed wins: in every committed wait every decision has the place
      its status claims, and at most one is accepted. */
  lemma ArbitrationHolds(moves: seq<Move>, e: Envelope, k: Digest, id: string)
    requires k in e.waits && id in e.waits[k].decisions && CommittedIn(moves, e)
    ensures W.Placed(e.waits[k], e.waits[k].decisions[id])
    ensures e.waits[k].decisions[id].status.WaitAccepted? <==> id == e.waits[k].winnerID
  {
    hide Run, CommittedIn, EnvInv, Current, CollectionsValid;
    CommittedCore(moves, e);
    hide JournalHeld, ChildrenHeld, WaitsValid;
    WO.WaitFacts(e, k);
    W.ArbitrationVerdict(e.waits[k], e.revision);
    hide W.ValidWait, WaitAt;
  }

  /** The ledger is append-only: a recorded decision is in every later revision,
      and once decided a wait keeps its fate. Generations name one wait. */
  lemma DecisionsArePermanent(moves: seq<Move>, more: seq<Move>, e: Envelope, f: Envelope, k: Digest)
    requires k in e.waits && e.executionID == f.executionID && e.revision < f.revision
    requires CommittedIn(moves, e) && CommittedIn(moves + more, f)
    ensures k in f.waits && W.WaitExtends(e.waits[k], f.waits[k])
    ensures forall j :: j in f.waits && f.waits[j].generation == e.waits[k].generation ==> j == k
  {
    hide Run, CommittedIn, JournalExtends, ChildrenExtend, EnvInv, Current, CollectionsValid;
    LaterExtends(moves, more, e, f);
    CommittedCore(moves + more, f);
    hide JournalHeld, ChildrenHeld, WaitsValid;
    WO.GenerationNames(f, k);
  }

  /** The delivery states again exactly what was recorded. */
  predicate SameDelivery(prior: W.WaitDecision, again: W.WaitDelivery) {
    && prior.kind == again.kind && prior.correlationID == again.correlationID
    && prior.payloadDigest == PayloadHash(again.payload)
  }

  /** A delivery ID recorded once is never decided again: at any later point of
      the run the same delivery is replayed and another one with its ID is a
      conflict. Neither writes. */
  lemma RedeliveryNeverWrites(
    moves: seq<Move>, more: seq<Move>, e: Envelope, f: Envelope, k: Digest, again: W.WaitDelivery, incarnation: uint64,
    now: Time, matched: bool, state: Bytes)
    requires k in e.waits && again.id in e.waits[k].decisions && again.generation == e.waits[k].generation
    requires e.executionID == f.executionID && e.revision < f.revision
    requires CommittedIn(moves, e) && CommittedIn(moves + more, f)
    ensures !WO.Deliver(f, again, incarnation, now, matched, state).Write?
    ensures (&& incarnation != 0 && now != 0 && !again.kind.OtherDelivery?
             && e.waits[k].armRevision <= again.expectedRevision <= f.revision) ==>
      WO.Deliver(f, again, incarnation, now, matched, state) ==
        if SameDelivery(e.waits[k].decisions[again.id], again) then Unchanged else Refused(ErrWaitConflict)
  {
    hide Run, CommittedIn;
    DecisionsArePermanent(moves, more, e, f, k);
    CommittedWait(moves + more, f, k);
    RecordedID(f.waits[k], f.revision, again.id);
    hide W.ValidWait;
  }

  lemma CommittedWait(moves: seq<Move>, e: Envelope, k: Digest)
    requires k in e.waits && CommittedIn(moves, e)
    ensures W.ValidWait(e.waits[k], e.revision) && WO.Addressed(e.waits, e.waits[k].generation) == Some(k)
  {
    hide Run, CommittedIn, EnvInv, Current, CollectionsValid;
    CommittedCore(moves, e);
    hide JournalHeld, ChildrenHeld, WaitsValid;
    WO.WaitFacts(e, k);
    WO.GenerationNames(e, k);
  }

  lemma RecordedID(r: W.WaitRecord, revision: uint64, id: string)
    requires W.ValidWait(r, revision) && id in r.decisions
    ensures id != ""
  {
  }
}
