/** Validators of one persisted child group: plan, cancellation, join, budget
    returns and provenance. */
module ChildGroups {
  import opened Basics
  import opened ChildRecords

  // ---------------------------------------------------------- budget returns

  predicate ClaimMatches(child: ChildRecord, used: Units) {
    && used.Keys == child.spec.allocation.Keys
    && forall name :: name in used ==> name != "" && 0 <= used[name] <= child.spec.allocation[name]
  }

  /** Unused units of an explicit consumption claim: allocation minus use. */
  function BudgetReturn(child: ChildRecord, used: Units): Result<Units> {
    if !ValidChild(child) then Err(ErrChildInvalid)
    else if !Settled(child) then Err(ErrChildrenUnresolved)
    else if !ClaimMatches(child, used) then Err(ErrBudgetExceeded)
    else Ok(map name | name in child.spec.allocation :: child.spec.allocation[name] - used[name])
  }

  /** The two loops of the source: one over the claim, one over the allocation. */
  method ComputeChildBudgetReturn(child: ChildRecord, used: Units) returns (r: Result<Units>)
    ensures r == BudgetReturn(child, used)
  {
    if !ValidChild(child) {
      return Err(ErrChildInvalid);
    }
    if !Settled(child) {
      return Err(ErrChildrenUnresolved);
    }
    var allocation := child.spec.allocation;
    var todo := used.Keys;
    while todo != {}
      invariant todo <= used.Keys
      invariant forall name :: name in used && name !in todo ==>
        name in allocation && name != "" && 0 <= used[name] <= allocation[name]
      decreases todo
    {
      var name :| name in todo;
      if name !in allocation || name == "" || used[name] < 0 || allocation[name] < used[name] {
        return Err(ErrBudgetExceeded);
      }
      todo := todo - {name};
    }
    var returned: Units := map[];
    todo := allocation.Keys;
    while todo != {}
      invariant todo <= allocation.Keys
      invariant allocation.Keys - todo <= used.Keys
      invariant returned == map name | name in allocation.Keys - todo :: allocation[name] - used[name]
      decreases todo
    {
      var name :| name in todo;
      if name == "" || allocation[name] < 0 || name !in used {
        return Err(ErrBudgetExceeded);
      }
      returned := returned[name := allocation[name] - used[name]];
      todo := todo - {name};
    }
    assert used.Keys == allocation.Keys && allocation.Keys - todo == allocation.Keys;
    assert returned == map name | name in allocation :: allocation[name] - used[name];
    return Ok(returned);
  }

  predicate ValidBudgetReturn(g: ChildGroup, id: string)
    requires id in g.budgetReturns
  {
    var d := g.budgetReturns[id];
    var i := FindChild(g.children, id);
    && i.Some? && g.children[i.value].revision == d.childRevision
    && d.decisionID != "" && d.reason != "" && d.evidence != ""
    && d.sourceRevision != 0 && d.incarnation != 0 && d.at != 0
    && BudgetReturn(g.children[i.value], d.used) == Ok(d.returned)
  }

  predicate ValidBudgetReturns(g: ChildGroup) {
    forall id :: id in g.budgetReturns ==> ValidBudgetReturn(g, id)
  }

  // ---------------------------------------------------- cancellation and join

  predicate ChildCancellation(g: ChildGroup, c: ChildRecord) {
    if g.cancelRequested then !c.state.Planned? && !c.state.Queued? && (Settled(c) || c.cancelRequested)
    else !c.cancelRequested && !c.cancelConfirmed
  }

  predicate ValidGroupCancellation(g: ChildGroup) {
    && (if g.cancelRequested then
          && g.cancelRequest.Some?
          && var q := g.cancelRequest.value;
             q.id != "" && q.reason != "" && q.sourceRevision != 0 && q.incarnation != 0 && q.at != 0
        else g.cancelRequest.None?)
    && forall i :: 0 <= i < |g.children| ==> ChildCancellation(g, g.children[i])
  }

  predicate ValidJoin(g: ChildGroup) {
    if g.mergedIDs == [] then g.mergedResult == []
    else
      && |g.mergedIDs| == |g.children|
      && forall i :: 0 <= i < |g.children| ==> g.mergedIDs[i] == g.children[i].spec.id && Settled(g.children[i])
  }

  // --------------------------------------------------------- the whole group

  predicate ChildAt(g: ChildGroup, i: nat)
    requires i < |g.children| == |SortSpecs(g.plan.children)|
  {
    && g.children[i].spec == SortSpecs(g.plan.children)[i]
    && g.children[i].executionID == ChildAddress(g.parentID, g.node, g.activation, g.plan.key, g.children[i].spec.id)
    && ValidChild(g.children[i])
  }

  predicate ValidGroup(g: ChildGroup) {
    && Plannable(g.parentID, g.node, g.activation, g.plan, g.capacity)
    && |g.children| == |SortSpecs(g.plan.children)|
    && (forall i: nat :: i < |g.children| ==> ChildAt(g, i))
    && ValidGroupCancellation(g) && ValidJoin(g) && ValidBudgetReturns(g)
  }

  predicate ValidOutcomeRequest(q: OutcomeRequest) {
    && q.node != "" && q.groupKey != "" && q.groupTitle != "" && q.childID != ""
    && q.executionID != OtherText("") && q.decisionID != "" && q.reason != "" && q.evidence != ""
    && q.activation != 0 && 1 < q.childRevision < MAX_UINT64 && q.result.waitID == ""
    && match q.result.state
       case Completed => q.result.error == ""
       case Failed => q.result.error != ""
       case _ => false
  }

  /** Where an outcome decision says its child's result came from. */
  predicate OutcomeProvenance(g: ChildGroup, c: ChildRecord, revision: uint64) {
    c.outcomeResolution.None? ||
    var d := c.outcomeResolution.value;
    var q := OutcomeRequest(g.node, g.activation, g.plan.key, g.plan.title, c.spec.id, c.executionID,
      d.childRevision, d.decisionID, d.reason, d.evidence, ChildResult(c.state, c.result, c.error, c.waitID));
    d.sourceRevision < revision && ValidOutcomeRequest(q) && q == d.requestDigest
  }

  predicate ChildProvenance(g: ChildGroup, c: ChildRecord, revision: uint64) {
    && OutcomeProvenance(g, c, revision)
    && (c.cancelConfirmation.Some? ==>
          && c.cancelConfirmation.value.sourceRevision < revision
          && g.cancelRequest.Some?
          && c.cancelConfirmation.value.requestID == g.cancelRequest.value.id
          && c.cancelConfirmation.value.sourceRevision > g.cancelRequest.value.sourceRevision)
    && (c.waitResolution.Some? ==> c.waitResolution.value.sourceRevision < revision)
  }

  predicate ValidProvenance(g: ChildGroup, revision: uint64) {
    && (g.cancelRequest.Some? ==> g.cancelRequest.value.sourceRevision < revision)
    && (forall i :: 0 <= i < |g.children| ==> ChildProvenance(g, g.children[i], revision))
    && (forall id :: id in g.budgetReturns ==> g.budgetReturns[id].sourceRevision < revision)
  }

  /** What every reachable group satisfies at its aggregate's revision. */
  predicate GroupInv(g: ChildGroup, revision: uint64) {
    ValidGroup(g) && ValidProvenance(g, revision)
  }

  lemma GroupInvLater(g: ChildGroup, revision: uint64, later: uint64)
    requires GroupInv(g, revision) && revision <= later
    ensures GroupInv(g, later)
  {
  }

  /** A freshly planned group is valid. */
  lemma PlannedGroupValid(
    parentID: string, node: string, activation: uint64, plan: ChildGroupPlan, available: Units, revision: uint64)
    requires Plannable(parentID, node, activation, plan, available)
    ensures GroupInv(PlannedGroup(parentID, node, activation, plan, available), revision)
  {
    var g := PlannedGroup(parentID, node, activation, plan, available);
    SortIsOrdered(plan.children);
    OrderedIsDistinct(g.plan.children);
    SortIsIdempotent(g.plan.children);
    forall i | 0 <= i < |g.plan.children|
      ensures g.plan.children[i].id != "" && NamedUnits(g.plan.children[i].allocation)
      ensures g.plan.children[i].allocation.Keys <= available.Keys
    {
      assert g.plan.children[i] in plan.children;
    }
    assert Fits(g.plan.children, available);
  }

  /** Child IDs are unique within a valid group. */
  lemma ChildIDsDistinct(g: ChildGroup, i: nat, j: nat)
    requires ValidGroup(g) && i < |g.children| && j < |g.children|
    ensures g.children[i].spec.id == g.children[j].spec.id ==> i == j
  {
    SortIsOrdered(g.plan.children);
    OrderedIsDistinct(SortSpecs(g.plan.children));
    assert ChildAt(g, i) && ChildAt(g, j);
  }

  lemma FindChildIs(g: ChildGroup, i: nat)
    requires ValidGroup(g) && i < |g.children|
    ensures FindChild(g.children, g.children[i].spec.id) == Some(i)
  {
    ChildIDsDistinct(g, i, FindChild(g.children, g.children[i].spec.id).value);
  }

  /** Lookups depend only on the IDs. */
  lemma FindChildSame(a: seq<ChildRecord>, b: seq<ChildRecord>, id: string)
    requires |a| == |b| && forall k :: 0 <= k < |a| ==> a[k].spec.id == b[k].spec.id
    ensures FindChild(a, id) == FindChild(b, id)
  {
    if a != [] {
      FindChildSame(a[..|a| - 1], b[..|b| - 1], id);
    }
  }
}
