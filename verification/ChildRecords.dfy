/** Structured children: planned groups, persisted child records and their
    validators. */
module ChildRecords {
  import opened Basics

  datatype ChildState = Planned | Queued | Running | Waiting | Completed | Failed | Canceled | Unknown

  datatype FailurePolicy = FailFast | CollectErrors | OtherPolicy(name: string)

  type Units = map<string, int>

  datatype ChildSpec = ChildSpec(id: string, input: Bytes, allocation: Units)

  datatype ChildGroupPlan = ChildGroupPlan(
    key: string, title: string, mergeLabel: string, budgetLabel: string, cancelLabel: string,
    maxConcurrency: int, failurePolicy: FailurePolicy, children: seq<ChildSpec>)

  datatype ChildResult = ChildResult(state: ChildState, payload: Bytes, error: string, waitID: string)

  datatype WaitResolutionRecord = WaitResolutionRecord(
    waitID: string, decisionID: string, childRevision: uint64, sourceRevision: uint64, incarnation: uint64, at: Time)

  /** The request digest of an outcome decision, as the hashed request itself. */
  datatype OutcomeRequest = OutcomeRequest(
    node: string, activation: uint64, groupKey: string, groupTitle: string, childID: string, executionID: Digest,
    childRevision: uint64, decisionID: string, reason: string, evidence: string, result: ChildResult)

  datatype OutcomeResolutionRecord = OutcomeResolutionRecord(
    decisionID: string, reason: string, evidence: string, requestDigest: OutcomeRequest, priorState: ChildState,
    childRevision: uint64, priorIncarnation: uint64, sourceRevision: uint64, incarnation: uint64, at: Time)

  datatype CancelConfirmationRecord = CancelConfirmationRecord(
    requestID: string, decisionID: string, reason: string, evidence: string, priorState: ChildState,
    childRevision: uint64, sourceRevision: uint64, incarnation: uint64, at: Time)

  datatype CancelRequestRecord = CancelRequestRecord(
    id: string, reason: string, sourceRevision: uint64, incarnation: uint64, at: Time)

  datatype BudgetReturnRecord = BudgetReturnRecord(
    childRevision: uint64, decisionID: string, reason: string, evidence: string, used: Units, returned: Units,
    sourceRevision: uint64, incarnation: uint64, at: Time)

  datatype ChildRecord = ChildRecord(
    spec: ChildSpec, executionID: Digest, revision: uint64, incarnation: uint64, waitID: string,
    state: ChildState, result: Bytes, error: string, cancelRequested: bool, cancelConfirmed: bool,
    waitResolution: Option<WaitResolutionRecord>, outcomeResolution: Option<OutcomeResolutionRecord>,
    cancelConfirmation: Option<CancelConfirmationRecord>)

  datatype ChildGroup = ChildGroup(
    parentID: string, node: string, activation: uint64, plan: ChildGroupPlan, children: seq<ChildRecord>,
    mergedIDs: seq<string>, mergedResult: Bytes, cancelRequested: bool,
    cancelRequest: Option<CancelRequestRecord>, capacity: Units, budgetReturns: map<string, BudgetReturnRecord>)

  function GroupIdentity(g: ChildGroup): Digest {
    ChildAddress(g.parentID, g.node, g.activation, g.plan.key, "")
  }

  predicate Settled(c: ChildRecord) {
    c.state.Completed? || c.state.Failed? || c.state.Canceled?
  }

  predicate Launched(c: ChildRecord) {
    !c.state.Planned? && !c.state.Queued?
  }

  predicate Merged(g: ChildGroup) {
    |g.mergedIDs| == |g.children|
  }

  /** The position of the child with this ID, if any. */
  function FindChild(children: seq<ChildRecord>, id: string): (i: Option<nat>)
    ensures i.Some? ==> i.value < |children| && children[i.value].spec.id == id
    ensures i.None? ==> forall k :: 0 <= k < |children| ==> children[k].spec.id != id
  {
    if children == [] then None
    else if children[|children| - 1].spec.id == id && FindChild(children[..|children| - 1], id).None? then
      Some(|children| - 1)
    else FindChild(children[..|children| - 1], id)
  }

  // ------------------------------------------------------- one child record

  predicate ValidWaitResolution(c: ChildRecord) {
    c.waitResolution.None? ||
    var d := c.waitResolution.value;
    && d.waitID != "" && d.decisionID != "" && d.sourceRevision > 0 && d.incarnation > 0 && d.at != 0
    && 2 < d.childRevision < MAX_UINT64 && c.revision == d.childRevision + 1
    && (c.state.Completed? || c.state.Failed?) && c.waitID == ""
  }

  predicate Cancelable(state: ChildState) {
    state.Running? || state.Waiting? || state.Unknown?
  }

  predicate ValidCancelConfirmation(c: ChildRecord) {
    c.cancelConfirmation.None? ||
    var d := c.cancelConfirmation.value;
    && c.state.Canceled? && c.cancelConfirmed && c.cancelRequested && c.waitID == ""
    && d.requestID != "" && d.decisionID != "" && d.reason != "" && d.evidence != ""
    && Cancelable(d.priorState) && 1 < d.childRevision < MAX_UINT64
    && c.revision == d.childRevision + 1 && d.sourceRevision > 0 && d.incarnation > 0 && d.at != 0
  }

  predicate ValidOutcomeResolution(c: ChildRecord) {
    c.outcomeResolution.None? ||
    var d := c.outcomeResolution.value;
    && (c.state.Completed? || c.state.Failed?) && c.waitID == "" && !c.cancelConfirmed
    && c.waitResolution.None? && c.cancelConfirmation.None?
    && d.decisionID != "" && d.reason != "" && d.evidence != ""
    && 1 < d.childRevision < MAX_UINT64 && c.revision == d.childRevision + 1
    && d.priorIncarnation > 0 && c.incarnation == d.priorIncarnation
    && d.sourceRevision > 0 && d.incarnation > d.priorIncarnation && d.at != 0
    && (d.priorState.Unknown? || d.priorState.Running?)
  }

  predicate ValidStateMachine(c: ChildRecord) {
    && (c.cancelConfirmed ==> c.cancelRequested && c.state.Canceled?)
    && var noOutcome := c.error == "" && c.result == [] && c.waitID == "";
       var settled := c.revision > 2 && c.incarnation > 0;
       match c.state
       case Planned => c.revision == 0 && c.incarnation == 0 && noOutcome
       case Queued => c.revision > 0 && c.incarnation == 0 && noOutcome
       case Running => c.revision > 1 && c.incarnation > 0 && noOutcome
       case Completed => settled && c.error == "" && c.waitID == ""
       case Failed => settled && c.error != "" && c.waitID == ""
       case Waiting => settled && c.waitID != "" && c.error == ""
       case Unknown => settled && c.waitID == ""
       case Canceled => c.revision > 0 && c.cancelConfirmed
  }

  predicate ValidChild(c: ChildRecord) {
    ValidWaitResolution(c) && ValidCancelConfirmation(c) && ValidOutcomeResolution(c) && ValidStateMachine(c)
  }

  // --------------------------------------------------------------- planning

  /** Byte order on child IDs. */
  predicate Below(a: string, b: string) {
    b != [] && (a == [] || a[0] < b[0] || (a[0] == b[0] && Below(a[1..], b[1..])))
  }

  lemma BelowTotal(a: string, b: string)
    ensures Below(a, b) || Below(b, a) || a == b
  {
    if a != [] && b != [] && a[0] == b[0] {
      BelowTotal(a[1..], b[1..]);
      assert a[1..] == b[1..] ==> a == [a[0]] + a[1..] == [b[0]] + b[1..] == b;
    }
  }

  lemma BelowTransitive(a: string, b: string, c: string)
    requires Below(a, b) && Below(b, c)
    ensures Below(a, c)
  {
  }

  function Insert(x: ChildSpec, specs: seq<ChildSpec>): seq<ChildSpec> {
    if specs == [] || Below(x.id, specs[0].id) then [x] + specs else [specs[0]] + Insert(x, specs[1..])
  }

  /** The specs in ID order. */
  function SortSpecs(specs: seq<ChildSpec>): seq<ChildSpec> {
    if specs == [] then [] else Insert(specs[0], SortSpecs(specs[1..]))
  }

  predicate Ordered(specs: seq<ChildSpec>) {
    forall i, j :: 0 <= i < j < |specs| ==> Below(specs[i].id, specs[j].id)
  }

  predicate DistinctIDs(specs: seq<ChildSpec>) {
    forall i, j :: 0 <= i < j < |specs| ==> specs[i].id != specs[j].id
  }

  /** Units of one counter claimed by a sequence of specs. */
  function Claimed(specs: seq<ChildSpec>, name: string): int {
    if specs == [] then 0
    else (if name in specs[0].allocation then specs[0].allocation[name] else 0) + Claimed(specs[1..], name)
  }

  predicate NamedUnits(u: Units) {
    forall name :: name in u ==> name != "" && u[name] >= 0
  }

  /** All claims name known counters and together fit the capacity. */
  predicate Fits(specs: seq<ChildSpec>, available: Units) {
    && (forall i :: 0 <= i < |specs| ==>
          NamedUnits(specs[i].allocation) && specs[i].allocation.Keys <= available.Keys)
    && (forall name :: name in available ==> Claimed(specs, name) <= available[name])
  }

  predicate ValidPlanLabels(parentID: string, node: string, activation: uint64, plan: ChildGroupPlan) {
    && parentID != "" && node != "" && activation != 0 && plan.key != "" && plan.title != ""
    && plan.mergeLabel != "" && plan.budgetLabel != "" && plan.cancelLabel != ""
    && plan.maxConcurrency > 0 && plan.children != []
    && !plan.failurePolicy.OtherPolicy?
  }

  predicate Plannable(parentID: string, node: string, activation: uint64, plan: ChildGroupPlan, available: Units) {
    && ValidPlanLabels(parentID, node, activation, plan)
    && NamedUnits(available)
    && (forall i :: 0 <= i < |plan.children| ==> plan.children[i].id != "")
    && DistinctIDs(plan.children)
    && Fits(plan.children, available)
  }

  function PlannedChild(parentID: string, node: string, activation: uint64, key: string, spec: ChildSpec): ChildRecord {
    ChildRecord(spec, ChildAddress(parentID, node, activation, key, spec.id), 0, 0, "", Planned, [], "",
      false, false, None, None, None)
  }

  function PlannedGroup(
    parentID: string, node: string, activation: uint64, plan: ChildGroupPlan, available: Units): ChildGroup
  {
    var sorted := SortSpecs(plan.children);
    ChildGroup(parentID, node, activation, plan.(children := sorted),
      seq(|sorted|, i requires 0 <= i < |sorted| => PlannedChild(parentID, node, activation, plan.key, sorted[i])),
      [], [], false, None, available, map[])
  }

  // -------------------------------------------------------- sorting is sound

  lemma {:induction false} InsertKeeps(x: ChildSpec, specs: seq<ChildSpec>)
    ensures |Insert(x, specs)| == |specs| + 1
    ensures forall s :: s in Insert(x, specs) <==> s == x || s in specs
  {
    if specs != [] && !Below(x.id, specs[0].id) {
      var rest := specs[1..];
      InsertKeeps(x, rest);
      assert specs == [specs[0]] + rest;
      assert Insert(x, specs) == [specs[0]] + Insert(x, rest);
    }
  }

  lemma {:induction false} InsertClaims(x: ChildSpec, specs: seq<ChildSpec>, name: string)
    ensures Claimed(Insert(x, specs), name) == Claimed([x] + specs, name)
  {
    if specs != [] && !Below(x.id, specs[0].id) {
      var rest, out := specs[1..], Insert(x, specs);
      InsertClaims(x, rest, name);
      assert ([x] + specs)[1..] == specs && ([x] + rest)[1..] == rest && out[1..] == Insert(x, rest);
    }
  }

  lemma {:induction false} InsertIsOrdered(x: ChildSpec, specs: seq<ChildSpec>)
    requires Ordered(specs) && forall i :: 0 <= i < |specs| ==> specs[i].id != x.id
    ensures Ordered(Insert(x, specs))
  {
    if specs == [] {
    } else if Below(x.id, specs[0].id) {
      forall j | 0 < j < |specs| ensures Below(x.id, specs[j].id) {
        BelowTransitive(x.id, specs[0].id, specs[j].id);
      }
    } else {
      var rest, out := specs[1..], Insert(x, specs);
      InsertIsOrdered(x, rest);
      InsertKeeps(x, rest);
      BelowTotal(x.id, specs[0].id);
      assert out == [specs[0]] + Insert(x, rest);
      forall j | 0 < j < |out| ensures Below(specs[0].id, out[j].id) {
        assert out[j] == Insert(x, rest)[j - 1];
        assert out[j] in Insert(x, rest);
        if out[j] != x {
          var k :| 0 <= k < |rest| && rest[k] == out[j];
          assert rest[k] == specs[k + 1];
        }
      }
      forall i, j | 0 <= i < j < |out| ensures Below(out[i].id, out[j].id) {
        if i > 0 {
          assert out[i] == Insert(x, rest)[i - 1] && out[j] == Insert(x, rest)[j - 1];
        }
      }
    }
  }

  /** Sorting keeps the specs and their claims and puts the IDs in order. */
  lemma SortIsOrdered(specs: seq<ChildSpec>)
    requires DistinctIDs(specs)
    ensures Ordered(SortSpecs(specs)) && |SortSpecs(specs)| == |specs|
    ensures forall s :: s in SortSpecs(specs) <==> s in specs
    ensures forall name :: Claimed(SortSpecs(specs), name) == Claimed(specs, name)
  {
    if specs != [] {
      var rest := specs[1..];
      SortIsOrdered(rest);
      var sorted := SortSpecs(rest);
      forall i | 0 <= i < |sorted| ensures sorted[i].id != specs[0].id {
        assert sorted[i] in rest;
        var k :| 0 <= k < |rest| && rest[k] == sorted[i];
        assert rest[k] == specs[k + 1];
      }
      InsertIsOrdered(specs[0], sorted);
      InsertKeeps(specs[0], sorted);
      forall name ensures Claimed(SortSpecs(specs), name) == Claimed([specs[0]] + sorted, name) {
        InsertClaims(specs[0], sorted, name);
      }
      assert ([specs[0]] + sorted)[1..] == sorted;
      assert specs == [specs[0]] + rest;
    }
  }

  lemma InsertFirst(x: ChildSpec, specs: seq<ChildSpec>)
    requires Ordered([x] + specs)
    ensures Insert(x, specs) == [x] + specs
  {
    if specs != [] {
      var all := [x] + specs;
      assert Below(all[0].id, all[1].id);
    }
  }

  /** Sorting specs that are already in order changes nothing. */
  lemma SortIsIdempotent(specs: seq<ChildSpec>)
    requires Ordered(specs)
    ensures SortSpecs(specs) == specs
  {
    if specs != [] {
      var rest := specs[1..];
      assert forall i :: 0 <= i < |rest| ==> rest[i] == specs[i + 1];
      SortIsIdempotent(rest);
      assert specs == [specs[0]] + rest;
      InsertFirst(specs[0], rest);
    }
  }

  lemma OrderedIsDistinct(specs: seq<ChildSpec>)
    requires Ordered(specs)
    ensures DistinctIDs(specs)
  {
    forall i, j | 0 <= i < j < |specs| ensures specs[i].id != specs[j].id {
      BelowIrreflexive(specs[i].id);
    }
  }

  lemma BelowIrreflexive(a: string)
    ensures !Below(a, a)
  {
  }

  // ------------------------------------------------------- the plan builder

  /** The source's planning loop: it decrements a remaining map, counter by
      counter in map order, and rejects the first duplicate or misfit. */
  method PlanChildGroup(
    parentID: string, node: string, activation: uint64, plan: ChildGroupPlan, available: Units)
    returns (r: Result<ChildGroup>)
    ensures r.Ok? <==> Plannable(parentID, node, activation, plan, available)
    ensures r.Ok? ==> r.value == PlannedGroup(parentID, node, activation, plan, available)
    ensures r.Err? && ValidPlanLabels(parentID, node, activation, plan) && NamedUnits(available) ==>
      r.error == ErrChildInvalid || r.error == ErrChildDuplicate || r.error == ErrBudgetExceeded
  {
    if !ValidPlanLabels(parentID, node, activation, plan) {
      return Err(ErrChildInvalid);
    }
    if !NamedUnits(available) {
      return Err(ErrBudgetExceeded);
    }
    var remaining := available;
    var seen: set<string> := {};
    var specs := plan.children;
    for index := 0 to |specs|
      invariant seen == set k | 0 <= k < index :: specs[k].id
      invariant forall k :: 0 <= k < index ==> specs[k].id != ""
      invariant forall i, j :: 0 <= i < j < index ==> specs[i].id != specs[j].id
      invariant Fits(specs[..index], available)
      invariant Left(available, specs[..index], remaining)
    {
      var spec := specs[index];
      if spec.id == "" {
        return Err(ErrChildInvalid);
      }
      if spec.id in seen {
        return Err(ErrChildDuplicate);
      }
      seen := seen + {spec.id};
      var ok, left := AllocateCounters(remaining, spec.allocation);
      if !ok {
        MisfitStays(specs, index, available, remaining);
        return Err(ErrBudgetExceeded);
      }
      ClaimFits(specs, index, available, remaining, left);
      remaining := left;
    }
    assert specs[..|specs|] == specs;
    return Ok(PlannedGroup(parentID, node, activation, plan, available));
  }

  /** What remains of the capacity after the given claims. */
  ghost predicate Left(available: Units, specs: seq<ChildSpec>, remaining: Units) {
    && remaining.Keys == available.Keys
    && forall name :: name in available ==> remaining[name] == available[name] - Claimed(specs, name)
  }

  predicate Affordable(remaining: Units, allocation: Units) {
    forall name :: name in allocation ==>
      name != "" && allocation[name] >= 0 && name in remaining && allocation[name] <= remaining[name]
  }

  method AllocateCounters(remaining: Units, allocation: Units) returns (ok: bool, left: Units)
    ensures ok <==> Affordable(remaining, allocation)
    ensures ok ==> left.Keys == remaining.Keys
    ensures ok ==> forall name :: name in left ==>
      left[name] == remaining[name] - (if name in allocation then allocation[name] else 0)
  {
    left := remaining;
    var todo := allocation.Keys;
    while todo != {}
      invariant todo <= allocation.Keys && left.Keys == remaining.Keys
      invariant forall name :: name in allocation && name !in todo ==>
        name != "" && allocation[name] >= 0 && name in remaining && allocation[name] <= remaining[name]
      invariant forall name :: name in left ==>
        left[name] == remaining[name] - (if name in allocation && name !in todo then allocation[name] else 0)
      decreases todo
    {
      var name :| name in todo;
      var units := allocation[name];
      if name == "" || units < 0 || name !in left || left[name] < units {
        return false, left;
      }
      left := left[name := left[name] - units];
      todo := todo - {name};
    }
    return true, left;
  }

  lemma ClaimedAppend(specs: seq<ChildSpec>, spec: ChildSpec)
    ensures forall name :: (
      Claimed(specs + [spec], name) ==
        Claimed(specs, name) + (if name in spec.allocation then spec.allocation[name] else 0))
  {
    if specs != [] {
      ClaimedAppend(specs[1..], spec);
      assert (specs + [spec])[1..] == specs[1..] + [spec];
    }
  }

  lemma ClaimedPrefix(specs: seq<ChildSpec>, index: nat, name: string)
    requires index <= |specs|
    requires forall k :: 0 <= k < |specs| ==> NamedUnits(specs[k].allocation)
    ensures Claimed(specs[..index], name) <= Claimed(specs, name)
    decreases |specs| - index
  {
    if index < |specs| {
      ClaimedPrefix(specs, index + 1, name);
      ClaimedAppend(specs[..index], specs[index]);
      assert specs[..index + 1] == specs[..index] + [specs[index]];
    } else {
      assert specs[..index] == specs;
    }
  }

  /** An affordable claim extends what fits and lowers what is left. */
  lemma ClaimFits(specs: seq<ChildSpec>, index: nat, available: Units, remaining: Units, left: Units)
    requires index < |specs| && Fits(specs[..index], available) && Left(available, specs[..index], remaining)
    requires Affordable(remaining, specs[index].allocation) && left.Keys == remaining.Keys
    requires forall name :: name in left ==> (
      left[name] == remaining[name] -
        (if name in specs[index].allocation then specs[index].allocation[name] else 0))
    ensures Fits(specs[..index + 1], available) && Left(available, specs[..index + 1], left)
  {
    ClaimedAppend(specs[..index], specs[index]);
    assert specs[..index + 1] == specs[..index] + [specs[index]];
  }

  /** A claim that does not fit is not rescued by later claims. */
  lemma MisfitStays(specs: seq<ChildSpec>, index: nat, available: Units, remaining: Units)
    requires index < |specs| && Left(available, specs[..index], remaining)
    requires !Affordable(remaining, specs[index].allocation)
    ensures !Fits(specs, available)
  {
    if Fits(specs, available) {
      var spec := specs[index];
      assert NamedUnits(spec.allocation);
      var name :| name in spec.allocation && !(name in remaining && spec.allocation[name] <= remaining[name]);
      ClaimedAppend(specs[..index], spec);
      assert specs[..index + 1] == specs[..index] + [spec];
      ClaimedPrefix(specs, index + 1, name);
      assert false;
    }
  }
}
