/** The named-unit ledger of an activation: all groups of one activation share
    one declared capacity, and a committed return frees what was not used. */
module ChildCapacity {
  import opened Basics
  import opened ChildRecords

  type Groups = map<Digest, ChildGroup>

  function Returned(g: ChildGroup, id: string, name: string): int {
    if id in g.budgetReturns && name in g.budgetReturns[id].returned then g.budgetReturns[id].returned[name] else 0
  }

  /** Units of one counter that one child still holds. */
  function Outstanding(g: ChildGroup, c: ChildRecord, name: string): int {
    if name in c.spec.allocation then c.spec.allocation[name] - Returned(g, c.spec.id, name) else 0
  }

  /** Units of one counter held by the first `n` children of a group. */
  function HeldBy(g: ChildGroup, n: nat, name: string): int
    requires n <= |g.children|
  {
    if n == 0 then 0 else HeldBy(g, n - 1, name) + Outstanding(g, g.children[n - 1], name)
  }

  function Held(g: ChildGroup, name: string): int {
    HeldBy(g, |g.children|, name)
  }

  /** Units of one counter held by all groups of one activation. */
  ghost function ActivationUse(groups: Groups, activation: uint64, name: string): int
    decreases |groups|
  {
    if groups == map[] then 0 else
      var k :| k in groups;
      assert |groups.Keys - {k}| < |groups.Keys|;
      Share(groups[k], activation, name) + ActivationUse(groups - {k}, activation, name)
  }

  function Share(g: ChildGroup, activation: uint64, name: string): int {
    if g.activation == activation then Held(g, name) else 0
  }

  /** Every claim of a group names a declared counter and is nonnegative. */
  predicate ClaimsNamed(g: ChildGroup) {
    forall i :: 0 <= i < |g.children| ==> ClaimNamed(g, g.children[i], g.capacity)
  }

  predicate ClaimNamed(g: ChildGroup, c: ChildRecord, available: Units) {
    forall name :: name in c.spec.allocation ==> name in available && Outstanding(g, c, name) >= 0
  }

  /** The conservation law: groups of one activation agree on its capacity and
      together never hold more of any counter than was declared. */
  ghost predicate LedgerHolds(groups: Groups) {
    && (forall k :: k in groups ==> ClaimsNamed(groups[k]))
    && (forall j, k :: j in groups && k in groups && groups[j].activation == groups[k].activation ==>
          groups[j].capacity == groups[k].capacity)
    && (forall k, name :: k in groups && name in groups[k].capacity ==>
          ActivationUse(groups, groups[k].activation, name) <= groups[k].capacity[name])
  }

  // ------------------------------------------------------- sums over groups

  /** The sum does not depend on which group is taken first. */
  lemma UseWithout(groups: Groups, k: Digest, activation: uint64, name: string)
    requires k in groups
    ensures ActivationUse(groups, activation, name) ==
      Share(groups[k], activation, name) + ActivationUse(groups - {k}, activation, name)
    decreases |groups|
  {
    var j :| j in groups && ActivationUse(groups, activation, name) ==
      Share(groups[j], activation, name) + ActivationUse(groups - {j}, activation, name);
    if j != k {
      assert |groups.Keys - {j}| < |groups.Keys| && |groups.Keys - {k}| < |groups.Keys|;
      UseWithout(groups - {j}, k, activation, name);
      UseWithout(groups - {k}, j, activation, name);
      assert groups - {j} - {k} == groups - {k} - {j};
    }
  }

  lemma UseUpdated(groups: Groups, k: Digest, g: ChildGroup, activation: uint64, name: string)
    ensures ActivationUse(groups[k := g], activation, name) ==
      ActivationUse(groups - {k}, activation, name) + Share(g, activation, name)
  {
    UseWithout(groups[k := g], k, activation, name);
    assert groups[k := g] - {k} == groups - {k};
  }

  lemma HeldNonnegative(g: ChildGroup, name: string)
    requires ClaimsNamed(g)
    ensures Held(g, name) >= 0
  {
    HeldGrows(g, 0, |g.children|, g.capacity, name);
  }

  lemma UseNonnegative(groups: Groups, activation: uint64, name: string)
    requires forall k :: k in groups ==> ClaimsNamed(groups[k])
    ensures ActivationUse(groups, activation, name) >= 0
    decreases |groups|
  {
    if groups != map[] {
      var k :| k in groups;
      UseWithout(groups, k, activation, name);
      assert |groups.Keys - {k}| < |groups.Keys|;
      UseNonnegative(groups - {k}, activation, name);
      HeldNonnegative(groups[k], name);
    }
  }

  /** Taking a group away only frees capacity. */
  lemma LedgerShrinks(groups: Groups, k: Digest)
    requires LedgerHolds(groups)
    ensures LedgerHolds(groups - {k})
  {
    var rest := groups - {k};
    if k in groups {
      forall j, name | j in rest && name in rest[j].capacity
        ensures ActivationUse(rest, rest[j].activation, name) <= rest[j].capacity[name]
      {
        UseWithout(groups, k, rest[j].activation, name);
        HeldNonnegative(groups[k], name);
      }
    } else {
      assert rest == groups;
    }
  }

  lemma LedgerPart(groups: Groups, part: Groups)
    requires LedgerHolds(groups) && part.Keys <= groups.Keys
    requires forall k :: k in part ==> part[k] == groups[k]
    ensures LedgerHolds(part)
    decreases |groups|
  {
    if part.Keys == groups.Keys {
      assert part == groups;
    } else {
      var k :| k in groups && k !in part;
      LedgerShrinks(groups, k);
      assert |groups.Keys - {k}| < |groups.Keys|;
      LedgerPart(groups - {k}, part);
    }
  }

  // ---------------------------------------------------- the validating loop

  predicate ChildCoverable(available: Units, g: ChildGroup, c: ChildRecord) {
    forall name :: name in c.spec.allocation ==> name in available && 0 <= Outstanding(g, c, name) <= available[name]
  }

  /** Spend one child's outstanding units, counter by counter in map order. */
  method SpendChild(available: Units, g: ChildGroup, c: ChildRecord) returns (ok: bool, left: Units)
    ensures ok <==> ChildCoverable(available, g, c)
    ensures ok ==> left.Keys == available.Keys
    ensures ok ==> forall name :: name in left ==> left[name] == available[name] - Outstanding(g, c, name)
  {
    left := available;
    var todo := c.spec.allocation.Keys;
    while todo != {}
      invariant todo <= c.spec.allocation.Keys && left.Keys == available.Keys
      invariant forall name :: name in c.spec.allocation && name !in todo ==>
        name in available && 0 <= Outstanding(g, c, name) <= available[name]
      invariant forall name :: name in left ==>
        left[name] == available[name] - (if name in todo then 0 else Outstanding(g, c, name))
      decreases todo
    {
      var name :| name in todo;
      var outstanding := c.spec.allocation[name] - Returned(g, c.spec.id, name);
      if name !in left || outstanding < 0 || outstanding > left[name] {
        return false, left;
      }
      left := left[name := left[name] - outstanding];
      todo := todo - {name};
    }
    return true, left;
  }

  predicate GroupCoverable(available: Units, g: ChildGroup) {
    && (forall i :: 0 <= i < |g.children| ==> ClaimNamed(g, g.children[i], available))
    && (forall name :: name in available ==> Held(g, name) <= available[name])
  }

  method SpendGroup(available: Units, g: ChildGroup) returns (ok: bool, left: Units)
    requires forall name :: name in available ==> available[name] >= 0
    ensures ok <==> GroupCoverable(available, g)
    ensures ok ==> left.Keys == available.Keys
    ensures ok ==> forall name :: name in left ==> left[name] == available[name] - Held(g, name)
  {
    left := available;
    for i := 0 to |g.children|
      invariant left.Keys == available.Keys
      invariant forall j :: 0 <= j < i ==> ClaimNamed(g, g.children[j], available)
      invariant forall name :: name in available ==>
        left[name] == available[name] - HeldBy(g, i, name) && HeldBy(g, i, name) <= available[name]
    {
      var fits, rest := SpendChild(left, g, g.children[i]);
      if !fits {
        NotCoverable(available, left, g, i);
        return false, left;
      }
      assert forall name :: name in available ==> (
        HeldBy(g, i + 1, name) == HeldBy(g, i, name) + Outstanding(g, g.children[i], name));
      left := rest;
    }
    return true, left;
  }

  lemma HeldGrows(g: ChildGroup, n: nat, m: nat, available: Units, name: string)
    requires n <= m <= |g.children|
    requires forall i :: 0 <= i < |g.children| ==> ClaimNamed(g, g.children[i], available)
    ensures HeldBy(g, n, name) <= HeldBy(g, m, name)
    decreases m
  {
    if n < m {
      assert ClaimNamed(g, g.children[m - 1], available);
      HeldGrows(g, n, m - 1, available, name);
    }
  }

  /** A claim that does not fit is not rescued by later claims. */
  lemma NotCoverable(available: Units, left: Units, g: ChildGroup, i: nat)
    requires i < |g.children| && left.Keys == available.Keys
    requires forall name :: name in available ==> left[name] == available[name] - HeldBy(g, i, name)
    requires !ChildCoverable(left, g, g.children[i])
    ensures !GroupCoverable(available, g)
  {
    var c := g.children[i];
    var name :| name in c.spec.allocation && !(name in left && 0 <= Outstanding(g, c, name) <= left[name]);
    if GroupCoverable(available, g) {
      assert ClaimNamed(g, c, available);
      assert HeldBy(g, i + 1, name) == HeldBy(g, i, name) + Outstanding(g, c, name);
      HeldGrows(g, i + 1, |g.children|, available, name);
      assert false;
    }
  }

  /** The source's loop over the groups in map order. It keeps, per activation,
      the declared capacity and what remains of it; its verdict is the
      conservation law, whatever the order. */
  method ValidateChildCapacityLedger(groups: Groups) returns (ok: bool)
    requires forall k :: k in groups ==> NamedUnits(groups[k].capacity)
    ensures ok <==> LedgerHolds(groups)
  {
    hide *;
    var remaining: map<uint64, Units> := map[];
    var capacities: map<uint64, Units> := map[];
    EmptyLedger();
    var todo := groups.Keys;
    ghost var done: Groups := map[];
    while todo != {}
      invariant todo <= groups.Keys && done.Keys == groups.Keys - todo
      invariant forall k :: k in done ==> done[k] == groups[k]
      invariant LedgerHolds(done) && Tracks(done, capacities, remaining)
      decreases todo
    {
      var k :| k in todo;
      var fits, left := EnterGroup(done, k, groups[k], capacities, remaining);
      if !fits {
        if LedgerHolds(groups) {
          LedgerPart(groups, done[k := groups[k]]);
          assert false;
        }
        return false;
      }
      capacities, remaining := left.0, left.1;
      done := done[k := groups[k]];
      todo := todo - {k};
    }
    assert done == groups;
    return true;
  }

  lemma EmptyLedger()
    ensures LedgerHolds(map[]) && Tracks(map[], map[], map[])
  {
  }

  /** One round of the loop: enter a group into the ledger kept so far. */
  method EnterGroup(
    ghost done: Groups, ghost k: Digest, g: ChildGroup,
    capacities: map<uint64, Units>, remaining: map<uint64, Units>)
    returns (ok: bool, next: (map<uint64, Units>, map<uint64, Units>))
    requires k !in done && LedgerHolds(done) && Tracks(done, capacities, remaining) && NamedUnits(g.capacity)
    ensures ok <==> LedgerHolds(done[k := g])
    ensures ok ==> Tracks(done[k := g], next.0, next.1)
  {
    hide *;
    var declared, open := capacities, remaining;
    OpenActivation(done, k, g, capacities, remaining);
    if g.activation in declared {
      if declared[g.activation] != g.capacity {
        return false, (declared, open);
      }
    } else {
      declared := declared[g.activation := g.capacity];
      open := open[g.activation := g.capacity];
    }
    var left;
    OpenedFor(done, g, declared, open);
    ok, left := SpendGroup(open[g.activation], g);
    GroupSpent(done, k, g, open[g.activation]);
    next := (declared, open[g.activation := left]);
    if ok {
      TracksSpent(done, k, g, declared, open, left);
    }
  }

  /** The loop's maps once the activation of the group at hand is entered. */
  ghost predicate Opened(done: Groups, g: ChildGroup, declared: map<uint64, Units>, open: map<uint64, Units>) {
    && declared.Keys == open.Keys == Activations(done) + {g.activation} && declared[g.activation] == g.capacity
    && (forall j :: j in done ==> done[j].activation in declared && declared[done[j].activation] == done[j].capacity)
    && (forall a :: a in declared ==> TracksOne(done, a, declared[a], open[a]))
  }

  lemma OpenActivation(
    done: Groups, k: Digest, g: ChildGroup, capacities: map<uint64, Units>, remaining: map<uint64, Units>)
    requires k !in done && Tracks(done, capacities, remaining)
    ensures capacities.Keys == remaining.Keys
    ensures
      if g.activation !in capacities then
        Opened(done, g, capacities[g.activation := g.capacity], remaining[g.activation := g.capacity])
      else if capacities[g.activation] == g.capacity then Opened(done, g, capacities, remaining)
      else !LedgerHolds(done[k := g])
  {
    hide ActivationUse;
    if g.activation !in capacities {
      FreshActivation(done, g.activation);
      hide LedgerHolds, Activations;
      var declared, open := capacities[g.activation := g.capacity], remaining[g.activation := g.capacity];
      forall a | a in declared ensures TracksOne(done, a, declared[a], open[a]) {
        assert a != g.activation ==> TracksOne(done, a, capacities[a], remaining[a]);
      }
    } else if capacities[g.activation] != g.capacity {
      var j :| j in done && done[j].activation == g.activation;
      var next := done[k := g];
      assert next[j].capacity != next[k].capacity;
    }
  }

  lemma OpenedFor(done: Groups, g: ChildGroup, declared: map<uint64, Units>, open: map<uint64, Units>)
    requires Opened(done, g, declared, open) && LedgerHolds(done) && NamedUnits(g.capacity)
    ensures g.activation in open && open[g.activation].Keys == g.capacity.Keys
    ensures TracksOne(done, g.activation, g.capacity, open[g.activation])
    ensures forall j :: j in done && done[j].activation == g.activation ==> done[j].capacity == g.capacity
    ensures forall name :: name in open[g.activation] ==> open[g.activation][name] >= 0
  {
    if j :| j in done && done[j].activation == g.activation {
      assert forall name :: name in done[j].capacity ==>
        ActivationUse(done, done[j].activation, name) <= done[j].capacity[name];
    } else {
      FreshActivation(done, g.activation);
    }
  }

  /** The loop's maps: one entry per activation met so far. */
  ghost predicate Tracks(done: Groups, capacities: map<uint64, Units>, remaining: map<uint64, Units>) {
    && capacities.Keys == remaining.Keys == Activations(done)
    && (forall k :: k in done ==>
          done[k].activation in capacities && capacities[done[k].activation] == done[k].capacity)
    && (forall a :: a in capacities ==> TracksOne(done, a, capacities[a], remaining[a]))
  }

  function Activations(groups: Groups): set<uint64> {
    set k | k in groups :: groups[k].activation
  }

  ghost predicate TracksOne(done: Groups, activation: uint64, capacity: Units, remaining: Units) {
    && remaining.Keys == capacity.Keys
    && forall name :: name in capacity ==> remaining[name] == capacity[name] - ActivationUse(done, activation, name)
  }

  /** An activation no group belongs to holds nothing. */
  lemma FreshActivation(groups: Groups, activation: uint64)
    requires forall k :: k in groups ==> groups[k].activation != activation
    ensures forall name :: ActivationUse(groups, activation, name) == 0
    decreases |groups|
  {
    forall name ensures ActivationUse(groups, activation, name) == 0 {
      if groups != map[] {
        var k :| k in groups;
        UseWithout(groups, k, activation, name);
        assert |groups.Keys - {k}| < |groups.Keys|;
        FreshActivation(groups - {k}, activation);
      }
    }
  }

  /** Adding a group keeps the law exactly when what remains covers it. */
  lemma GroupSpent(done: Groups, k: Digest, g: ChildGroup, remaining: Units)
    requires k !in done && LedgerHolds(done)
    requires forall j :: j in done && done[j].activation == g.activation ==> done[j].capacity == g.capacity
    requires TracksOne(done, g.activation, g.capacity, remaining)
    ensures GroupCoverable(remaining, g) <==> LedgerHolds(done[k := g])
  {
    var next := done[k := g];
    assert done - {k} == done;
    forall a, name ensures ActivationUse(next, a, name) == ActivationUse(done, a, name) + Share(g, a, name) {
      UseUpdated(done, k, g, a, name);
    }
    if GroupCoverable(remaining, g) {
      forall j, name | j in next && name in next[j].capacity
        ensures ActivationUse(next, next[j].activation, name) <= next[j].capacity[name]
      {
        if next[j].activation == g.activation {
          assert Held(g, name) <= remaining[name];
        }
      }
    } else if ClaimsNamed(g) {
      var name :| name in g.capacity && Held(g, name) > remaining[name];
      assert next[k] == g && ActivationUse(next, g.activation, name) > g.capacity[name];
    } else {
      assert next[k] == g;
    }
  }

  lemma TracksSpent(
    done: Groups, k: Digest, g: ChildGroup, declared: map<uint64, Units>, open: map<uint64, Units>, left: Units)
    requires k !in done && Opened(done, g, declared, open) && left.Keys == open[g.activation].Keys
    requires forall name :: name in left ==> left[name] == open[g.activation][name] - Held(g, name)
    ensures Tracks(done[k := g], declared, open[g.activation := left])
  {
    var next := done[k := g];
    var rest := open[g.activation := left];
    ActivationsWith(done, k, g);
    forall a | a in declared ensures TracksOne(next, a, declared[a], rest[a]) {
      SpentOne(done, k, g, a, declared[a], open[a], rest[a]);
    }
    hide ActivationUse, TracksOne, Activations;
  }

  lemma ActivationsWith(done: Groups, k: Digest, g: ChildGroup)
    requires k !in done
    ensures Activations(done[k := g]) == Activations(done) + {g.activation}
  {
    var next := done[k := g];
    assert next[k].activation == g.activation;
    forall j | j in done ensures done[j].activation in Activations(next) {
      assert next[j] == done[j];
    }
  }

  lemma SpentOne(
    done: Groups, k: Digest, g: ChildGroup, a: uint64, capacity: Units, before: Units, after: Units)
    requires k !in done && TracksOne(done, a, capacity, before) && after.Keys == before.Keys
    requires forall name :: name in after ==> after[name] == before[name] - Share(g, a, name)
    ensures TracksOne(done[k := g], a, capacity, after)
  {
    assert done - {k} == done;
    forall name
      ensures ActivationUse(done[k := g], a, name) == ActivationUse(done, a, name) + Share(g, a, name)
    {
      UseUpdated(done, k, g, a, name);
    }
  }
}
