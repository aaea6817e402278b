/** Node code that calls back after its step, on one concrete execution: the call
    is accepted, and the next delivery commits an aggregate that never loads. */
module LateFindings {
  import opened Basics
  import opened Envelopes
  import opened AggregateInvariant
  import opened Transfers
  import opened Gates
  import R = RetrySchedule
  import A = ActivityRecords
  import S = ActivitySteps
  import W = WaitArbitration
  import AO = ActivityOps
  import SO = StepOps
  import WO = WaitOps

  const NO_META := RunMeta(0, map[], map[])
  const FIRST := Envelope(
    "run", 0, NoSeal, Descriptor("graph", "1", "json", "json", "contract", "label", true), None,
    Progress([], "node", map[], map[], map[]), [], map[], map[], map[], NO_META, 1, None, None, None, None, None, None)

  const SNAPSHOT := SO.Snapshot("node", [], [], NO_META)
  const SPEC := W.WaitSpec("approval", "order", 100, "matcher", "json", "continue", "approved", "expired", true)
  const PROFILE := W.WaitProfile("profile", "a", "b", "c", "d", "e", "f")
  const REQUEST := S.ActivityRequest(
    "charge", "v1", [], R.RetryPolicy("once", 1, R.Schedule(R.Fixed, 0, 0, 0, 0, ""), ""))
  const DELIVERY := W.WaitDelivery(
    WaitGeneration(WaitAddress("run", "node", 1, "approval"), 2), "event", W.Event, "order", 3, [])

  const ADDRESS := WaitAddress("run", "node", 1, "approval")
  const WAIT := W.WaitRecord(
    "run", "node", 1, WaitGeneration(ADDRESS, 2), 2, SPEC, PROFILE, W.Armed, "", map[], None)

  function Started(): Envelope {
    Sealed(FIRST, 1)
  }

  /** The node awaits an approval. */
  function Waiting(): Envelope {
    Next(Started(), Started().(waits := map[ADDRESS := WAIT]))
  }

  /** A goroutine it left behind prepares an activity. */
  function Late(): Envelope {
    Next(Waiting(), WithRecord(Waiting(), S.NewRecord("run", "node", 1, REQUEST)))
  }

  lemma StartedSound()
    ensures Fresh(FIRST) && EnvInv(Started())
  {
    assert ChildrenValid(FIRST);
    FreshSound(FIRST);
    hide EnvInv, Fresh;
  }

  lemma WaitArmed()
    ensures WO.Arm(Started(), SNAPSHOT, SPEC, PROFILE) == Write(Started().(waits := map[ADDRESS := WAIT]))
  {
    var e := Started();
    assert e.journal == map[] && e.children == map[] && e.waits == map[];
    assert SO.Resolved(e);
    hide SO.Resolved;
    assert W.PlanWait("run", "node", 1, 2, SPEC, PROFILE) == Ok(WAIT);
    hide W.PlanWait;
    assert SO.WithSnapshot(e.(waits := map[ADDRESS := WAIT]), SNAPSHOT) == e.(waits := map[ADDRESS := WAIT]);
  }

  lemma LateCallAccepted()
    ensures AO.Prepare(Waiting(), REQUEST) == Write(WithRecord(Waiting(), S.NewRecord("run", "node", 1, REQUEST)))
  {
    var e := Waiting();
    assert e.journal == map[] && e.progress == FIRST.progress && e.activation == 1 && e.executionID == "run";
    S.NewRecordValid("run", "node", 1, REQUEST);
    hide Waiting, A.ValidRecord;
  }

  lemma DeliveryAccepted() returns (t: Envelope)
    ensures WO.Deliver(Late(), DELIVERY, 2, 50, true, []) == Write(t) && t.activation == 2
  {
    var e := Late();
    assert e.waits == map[ADDRESS := WAIT] && e.revision == 3 && e.activation == 1;
    assert W.PlanWait("run", "node", 1, 2, SPEC, PROFILE) == Ok(WAIT);
    W.PlannedWaitValid("run", "node", 1, 2, SPEC, PROFILE);
    W.ValidWaitLater(WAIT, 2, 3);
    hide W.ValidWait, Late, W.PlanWait;
    assert WO.Addressed(e.waits, DELIVERY.generation) == Some(ADDRESS);
    assert W.PrepareWaitDecision(WAIT, DELIVERY, 3, 2, 50, true).Ok?;
    t := WO.Deliver(e, DELIVERY, 2, 50, true, []).target;
  }

  lemma WaitingSound()
    ensures EnvInv(Waiting()) && HasArmed(Waiting())
  {
    StartedSound();
    WaitArmed();
    assert Waiting().waits[ADDRESS].state.Armed?;
    var e := Started();
    assert e.terminal.None? && e.revision == 1;
    hide EnvInv, Started, WO.Arm, Fresh, Extends;
    WO.ArmSound(e, SNAPSHOT, SPEC, PROFILE);
  }

  lemma LateSound()
    ensures EnvInv(Late()) && !Idle(Late())
  {
    WaitingSound();
    LateCallAccepted();
    var e := Waiting();
    assert e.revision == 2;
    assert Late().journal[ActivityAddress("run", "node", 1, "charge")].state.Prepared?;
    hide EnvInv, Waiting, AO.Prepare, Extends;
    AO.PrepareSound(e, REQUEST);
  }

  /** The loader accepts the aggregate with the armed wait and the one with the
      late record, and rejects the one the delivery commits. */
  lemma LateCallStrandsExecution() returns (resumed: Envelope)
    ensures WO.Arm(Started(), SNAPSHOT, SPEC, PROFILE).Write? && HasArmed(Waiting()) && EnvInv(Waiting())
    ensures AO.Prepare(Waiting(), REQUEST).Write? && CollectionsValid(Late())
    ensures WO.Deliver(Late(), DELIVERY, 2, 50, true, []) == Write(resumed) && !CollectionsValid(Next(Late(), resumed))
  {
    hide EnvInv, WO.Arm, AO.Prepare, WO.Deliver, Idle, HasArmed;
    WaitArmed();
    WaitingSound();
    LateCallAccepted();
    LateSound();
    resumed := DeliveryAccepted();
    var e := Late();
    assert e.activation == 1 && e.revision == 3;
    hide Started, Waiting, Late;
    LoadsNow(e);
    hide CollectionsValid;
    WO.DeliverLoadsIff(e, DELIVERY, 2, 50, true, [], resumed);
  }

  lemma LoadsNow(e: Envelope)
    requires EnvInv(e)
    ensures CollectionsValid(e)
  {
    hide CollectionsValid;
  }
}
