/** Clock readings that break what the runtime otherwise guarantees, each with a
    concrete input and the exact condition. For activities the conditions are
    BeginValidIff and ResolveLoadsIff; for the two child operations that stamp an
    unchecked clock reading they are here. */
module ClockFindings {
  import opened Basics
  import opened RetrySchedule
  import opened ActivityRecords
  import opened ActivitySteps
  import C = ChildRecords
  import G = ChildGroups
  import H = ChildSteps
  import AO = ActivityOps
  import CO = ChildOps
  import opened Envelopes
  import opened AggregateInvariant

  const POLICY := RetryPolicy("twice", 2, Schedule(Fixed, 5, 5, 0, 0, ""), "idempotent")
  const REQUEST := ActivityRequest("charge", "v1", [], POLICY)

  /** A record whose first attempt is running since time 1. */
  function Running1(): ActivityRecord {
    BeginAttempt(NewRecord("run", "node", 1, REQUEST), 1, 1)
  }

  lemma Running1Valid()
    ensures RecordInv(Running1()) && Running1().state.Running? && |Running1().attempts| == 1
  {
    NewRecordValid("run", "node", 1, REQUEST);
    hide ValidRecord;
    BeginValid(NewRecord("run", "node", 1, REQUEST), 1, 1);
  }

  /** The first attempt failed retryably at time 10; the next is due at 15. */
  function Failed1(): ActivityRecord
  {
    FailAttempt(Running1(), "busy", FailureDecision(Retryable, 0), 10, None)
  }

  lemma Failed1Valid()
    ensures RecordInv(Failed1()) && Failed1().state.Prepared? && Failed1().nextAttemptAt == 15
  {
    Running1Valid();
    FailValidIff(Running1(), "busy", FailureDecision(Retryable, 0), 10, None);
    hide ValidRecord;
    assert ChooseSchedule(POLICY, 1, 10, 0, None).deadline == 15;
  }

  /** One call reads the clock twice. If the second reading, 14, lies before the
      first, 15, the validation before the commit rejects the new attempt. */
  lemma BackwardClockIsRejected()
    ensures RecordInv(Failed1()) && PreparedError(Failed1(), 15).None?
    ensures !ValidRecord(BeginAttempt(Failed1(), 2, 14))
  {
    Failed1Valid();
    BeginValidIff(Failed1(), 15, 2, 14);
  }

  const COMPLETE := ActivityResolution(
    ActivityAddress("run", "node", 1, "charge"), PayloadHash([]), "v1", "decision", ResolveComplete,
    "confirmed", "ticket", [], "", 0)

  /** An operator's resolution is committed without validation. With a clock that
      returns the zero time it publishes a record that no load accepts. */
  lemma ZeroClockPublishesCorruptRecord()
    ensures RecordInv(Running1()) && ResolutionAddresses(Running1(), COMPLETE, 3)
    ensures ResolveRecord(Running1(), COMPLETE, 3, 2, 0, None).Ok?
    ensures !ValidRecord(ResolveRecord(Running1(), COMPLETE, 3, 2, 0, None).value)
  {
    Running1Valid();
    ResolveValidIff(Running1(), COMPLETE, 3, 2, 0, None);
  }

  /** A cancellation request is persisted without checking its clock reading: the
      written group is one a load accepts exactly when it is not the zero time. */
  lemma CancellationValidIff(g: C.ChildGroup, q: H.CancelRequest, stamp: H.Stamp)
    requires 0 < stamp.sourceRevision < MAX_UINT64 && stamp.incarnation != 0 && q.id != "" && q.reason != ""
    requires G.GroupInv(g, stamp.sourceRevision)
    requires H.RequestCancellation(g, q, stamp).Ok? && !H.RequestCancellation(g, q, stamp).value.1
    ensures G.GroupInv(H.RequestCancellation(g, q, stamp).value.0, stamp.sourceRevision + 1) <==> stamp.at != 0
  {
    hide G.GroupInv;
    if stamp.at != 0 {
      H.CancelPreserves(g, q, stamp);
    } else {
      ZeroCancellation(H.RequestCancellation(g, q, stamp).value.0, stamp.sourceRevision + 1);
    }
  }

  lemma ZeroCancellation(h: C.ChildGroup, revision: uint64)
    requires h.cancelRequested && h.cancelRequest.Some? && h.cancelRequest.value.at == 0
    ensures !G.GroupInv(h, revision)
  {
    hide C.Plannable, G.ChildAt, G.ValidProvenance, G.ValidBudgetReturns;
  }

  /** Likewise for a budget return. */
  lemma ReturnValidIff(g: C.ChildGroup, claim: H.BudgetClaim, stamp: H.Stamp)
    requires 0 < stamp.sourceRevision < MAX_UINT64 && stamp.incarnation != 0
    requires claim.decisionID != "" && claim.reason != "" && claim.evidence != ""
    requires G.GroupInv(g, stamp.sourceRevision)
    requires H.ReturnUnits(g, claim, stamp).Ok? && !H.ReturnUnits(g, claim, stamp).value.1
    ensures G.GroupInv(H.ReturnUnits(g, claim, stamp).value.0, stamp.sourceRevision + 1) <==> stamp.at != 0
  {
    hide G.GroupInv;
    if stamp.at != 0 {
      H.ReturnPreserves(g, claim, stamp);
    } else {
      ZeroReturn(H.ReturnUnits(g, claim, stamp).value.0, claim.childID, stamp.sourceRevision + 1);
    }
  }

  lemma ZeroReturn(h: C.ChildGroup, id: string, revision: uint64)
    requires id in h.budgetReturns && h.budgetReturns[id].at == 0
    ensures !G.GroupInv(h, revision)
  {
    hide C.Plannable, G.ChildAt, G.ValidProvenance, G.BudgetReturn;
    assert !G.ValidBudgetReturn(h, id);
  }

  // -------------------------------------------------- the loader's conditions

  lemma BadGroup(e: Envelope, k: Digest)
    requires k in e.children && !G.GroupInv(e.children[k], e.revision)
    ensures !CollectionsValid(e)
  {
    hide G.GroupInv, JournalValid, WaitsValid;
  }

  /** The envelope a cancellation request publishes loads if and only if the clock
      did not return the zero time. */
  lemma CancelLoadsIff(
    e: Envelope, expected: C.ChildGroup, q: H.CancelRequest, incarnation: uint64, at: Time, t: Envelope)
    requires EnvInv(e) && e.revision < MAX_UINT64 && incarnation != 0
    requires CO.Cancel(e, expected, q, incarnation, at) == Write(t)
    ensures CollectionsValid(Next(e, t)) <==> at != 0
  {
    hide EnvInv, Sound, G.GroupInv, CollectionsValid, CurrentGroup;
    if at != 0 {
      CO.CancelSound(e, expected, q, incarnation, at);
      AO.SoundLoads(e, t);
    } else {
      var k := C.GroupIdentity(expected);
      var h := H.RequestCancellation(expected, q, CO.StampOf(e, incarnation, at)).value.0;
      ZeroCancellation(h, Increment(e.revision));
      BadGroup(Next(e, t), k);
    }
  }

  /** Likewise for a budget return. */
  lemma ReturnLoadsIff(
    e: Envelope, expected: C.ChildGroup, claim: H.BudgetClaim, incarnation: uint64, at: Time, t: Envelope)
    requires EnvInv(e) && e.revision < MAX_UINT64 && incarnation != 0
    requires CO.Return(e, expected, claim, incarnation, at) == Write(t)
    ensures CollectionsValid(Next(e, t)) <==> at != 0
  {
    hide EnvInv, Sound, G.GroupInv, CollectionsValid, CurrentGroup, G.BudgetReturn;
    if at != 0 {
      CO.ReturnSound(e, expected, claim, incarnation, at);
      AO.SoundLoads(e, t);
    } else {
      var k := C.GroupIdentity(expected);
      var h := H.ReturnUnits(expected, claim, CO.StampOf(e, incarnation, at)).value.0;
      ZeroReturn(h, claim.childID, Increment(e.revision));
      BadGroup(Next(e, t), k);
    }
  }

  // ---------------------------------------------------------- concrete groups

  const CHILD := C.ChildSpec("a", [], map["tokens" := 5])
  const PLAN := C.ChildGroupPlan("fan", "fan", "merge", "budget", "cancel", 1, C.FailFast, [CHILD])
  const CAPACITY: C.Units := map["tokens" := 9]

  function PlannedOne(): C.ChildGroup {
    C.PlannedGroup("run", "node", 1, PLAN, CAPACITY)
  }

  lemma PlannedOneValid()
    ensures G.GroupInv(PlannedOne(), 1) && |PlannedOne().children| == 1 && PlannedOne().mergedIDs == []
    ensures PlannedOne().children[0] == C.PlannedChild("run", "node", 1, "fan", CHILD)
    ensures PlannedOne().cancelRequest.None? && !PlannedOne().cancelRequested && PlannedOne().budgetReturns == map[]
  {
    assert C.SortSpecs([CHILD]) == [CHILD];
    assert C.Fits([CHILD], CAPACITY) by {
      assert C.Claimed([CHILD], "tokens") == 5;
    }
    G.PlannedGroupValid("run", "node", 1, PLAN, CAPACITY, 1);
    hide G.GroupInv;
  }

  const STOP := H.CancelRequest("stop", "no longer needed")

  /** A cancellation request at the zero time publishes a group that no load
      accepts. */
  lemma ZeroClockPublishesCorruptCancellation()
    ensures G.GroupInv(PlannedOne(), 1) && H.RequestCancellation(PlannedOne(), STOP, H.Stamp(1, 1, 0)).Ok?
    ensures !G.GroupInv(H.RequestCancellation(PlannedOne(), STOP, H.Stamp(1, 1, 0)).value.0, 2)
  {
    PlannedOneValid();
    hide PlannedOne, G.GroupInv;
    CancellationValidIff(PlannedOne(), STOP, H.Stamp(1, 1, 0));
  }

  /** The same group after its child was queued, run and completed. */
  function CompletedOne(): C.ChildGroup {
    var done := C.PlannedChild("run", "node", 1, "fan", CHILD).(state := C.Completed, revision := 3, incarnation := 1);
    PlannedOne().(children := [done])
  }

  lemma FindsOne(g: C.ChildGroup)
    requires |g.children| == 1 && g.children[0].spec.id == "a"
    ensures C.FindChild(g.children, "a") == Some(0)
  {
    assert g.children[..0] == [];
  }

  lemma CompletedOneValid()
    ensures G.GroupInv(CompletedOne(), 4)
  {
    PlannedOneValid();
    var planned := PlannedOne();
    hide G.GroupInv, PlannedOne, C.PlannedGroup, H.GroupExtends, H.SameLedger, H.SameOutcomes;
    FindsOne(planned);
    H.BeginPreserves(planned, "a", 1, 1);
    var queued := H.QueueChild(planned, "a").value;
    FindsOne(queued);
    H.BeginPreserves(queued, "a", 1, 2);
    var running := H.RunChild(queued, "a", 1).value;
    FindsOne(running);
    var invocation, result := H.ChildInvocation("a", 2), C.ChildResult(C.Completed, [], "", "");
    H.FinishPreserves(running, invocation, result, None, 1, 3);
    assert H.FinishChild(running, invocation, result, None, 1).value == CompletedOne();
  }

  const CLAIM := H.BudgetClaim("a", 3, "decision", "unused", "ticket", map["tokens" := 2])

  /** A budget return at the zero time publishes a group that no load accepts. */
  lemma ZeroClockPublishesCorruptReturn()
    ensures G.GroupInv(CompletedOne(), 4) && H.ReturnUnits(CompletedOne(), CLAIM, H.Stamp(4, 1, 0)).Ok?
    ensures !G.GroupInv(H.ReturnUnits(CompletedOne(), CLAIM, H.Stamp(4, 1, 0)).value.0, 5)
  {
    CompletedOneValid();
    PlannedOneValid();
    FindsOne(CompletedOne());
    hide PlannedOne, G.GroupInv;
    ReturnValidIff(CompletedOne(), CLAIM, H.Stamp(4, 1, 0));
  }
}
