/** The transitions of child groups keep the capacity law of their activation. */
module ChildLedger {
  import opened Basics
  import opened ChildRecords
  import opened ChildGroups
  import opened ChildSteps
  import opened ChildCapacity

  lemma SameHeld(g: ChildGroup, h: ChildGroup, n: nat, name: string)
    requires SameLedger(g, h) && n <= |g.children|
    ensures HeldBy(h, n, name) == HeldBy(g, n, name)
  {
    if n > 0 {
      SameHeld(g, h, n - 1, name);
      assert h.children[n - 1].spec == g.children[n - 1].spec;
    }
  }

  /** Group changes that touch no claim, return or capacity keep the law. */
  lemma LedgerUntouched(groups: Groups, k: Digest, h: ChildGroup)
    requires LedgerHolds(groups) && k in groups && SameLedger(groups[k], h)
    ensures LedgerHolds(groups[k := h])
  {
    var g := groups[k];
    forall name ensures Held(h, name) == Held(g, name) {
      SameHeld(g, h, |g.children|, name);
    }
    forall i | 0 <= i < |h.children| ensures ClaimNamed(h, h.children[i], h.capacity) {
      assert h.children[i].spec == g.children[i].spec && ClaimNamed(g, g.children[i], g.capacity);
    }
    LedgerReplaced(groups, k, h);
  }

  /** Replacing a group by one that holds no more keeps the law. */
  lemma LedgerReplaced(groups: Groups, k: Digest, h: ChildGroup)
    requires LedgerHolds(groups) && k in groups && ClaimsNamed(h)
    requires h.activation == groups[k].activation && h.capacity == groups[k].capacity
    requires forall name :: Held(h, name) <= Held(groups[k], name)
    ensures LedgerHolds(groups[k := h])
  {
    var next := groups[k := h];
    forall j, name | j in next && name in next[j].capacity
      ensures ActivationUse(next, next[j].activation, name) <= next[j].capacity[name]
    {
      UseUpdated(groups, k, h, next[j].activation, name);
      UseWithout(groups, k, next[j].activation, name);
      assert j in groups && groups[j].activation == next[j].activation && groups[j].capacity == next[j].capacity;
    }
  }

  /** A committed return lowers what the child holds to what it consumed. */
  lemma LedgerReturned(groups: Groups, k: Digest, claim: BudgetClaim, stamp: Stamp, revision: uint64)
    requires LedgerHolds(groups) && k in groups && GroupInv(groups[k], revision)
    requires ReturnUnits(groups[k], claim, stamp).Ok?
    ensures LedgerHolds(groups[k := ReturnUnits(groups[k], claim, stamp).value.0])
  {
    var g := groups[k];
    var h := ReturnUnits(g, claim, stamp).value.0;
    if claim.childID in g.budgetReturns {
      assert groups[k := h] == groups;
    } else {
      forall i | 0 <= i < |h.children| ensures ClaimNamed(h, h.children[i], h.capacity) {
        ReturnLowers(g, claim, stamp, i, revision);
      }
      forall name ensures Held(h, name) <= Held(g, name) {
        HeldLowered(g, claim, stamp, |g.children|, name, revision);
      }
      LedgerReplaced(groups, k, h);
    }
  }

  /** What a return writes: for the claiming child, exactly the unused units. */
  lemma ReturnWrites(g: ChildGroup, claim: BudgetClaim, stamp: Stamp, i: nat, revision: uint64)
    requires GroupInv(g, revision) && i < |g.children|
    requires claim.childID !in g.budgetReturns && ReturnUnits(g, claim, stamp).Ok?
    ensures var h := ReturnUnits(g, claim, stamp).value.0; var c := g.children[i];
      if c.spec.id != claim.childID then
        forall name :: Returned(h, c.spec.id, name) == Returned(g, c.spec.id, name)
      else
        && ClaimMatches(c, claim.used)
        && forall name :: name in c.spec.allocation ==>
          Returned(g, c.spec.id, name) == 0 && Outstanding(h, c, name) == claim.used[name]
  {
    hide ValidChild, ValidProvenance, ChildAt, Plannable, ValidBudgetReturns, ValidGroupCancellation, ValidJoin;
    if g.children[i].spec.id == claim.childID {
      FindChildIs(g, i);
    }
  }

  lemma ReturnLowers(g: ChildGroup, claim: BudgetClaim, stamp: Stamp, i: nat, revision: uint64)
    requires GroupInv(g, revision) && ClaimsNamed(g) && i < |g.children|
    requires claim.childID !in g.budgetReturns && ReturnUnits(g, claim, stamp).Ok?
    ensures var h := ReturnUnits(g, claim, stamp).value.0; var c := g.children[i];
      ClaimNamed(h, c, g.capacity) && forall name :: Outstanding(h, c, name) <= Outstanding(g, c, name)
  {
    ReturnWrites(g, claim, stamp, i, revision);
    hide GroupInv, ReturnUnits;
    assert ClaimNamed(g, g.children[i], g.capacity);
  }

  lemma HeldLowered(g: ChildGroup, claim: BudgetClaim, stamp: Stamp, n: nat, name: string, revision: uint64)
    requires GroupInv(g, revision) && ClaimsNamed(g) && n <= |g.children|
    requires claim.childID !in g.budgetReturns && ReturnUnits(g, claim, stamp).Ok?
    ensures HeldBy(ReturnUnits(g, claim, stamp).value.0, n, name) <= HeldBy(g, n, name)
  {
    if n > 0 {
      HeldLowered(g, claim, stamp, n - 1, name, revision);
      ReturnLowers(g, claim, stamp, n - 1, revision);
    }
  }
}
