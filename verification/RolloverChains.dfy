/** Rollover chains in a reachable store: links are mutually inverse, chains are
    acyclic, and each ends in exactly one execution that was not transferred. */
module RolloverChains {
  import opened Basics
  import opened Envelopes
  import opened Lifecycle
  import opened StoreModel
  import opened StoreSteps
  import opened StoreRuns

  /** Where the continuation of an execution was transferred to. */
  function Successor(s: Store, a: string): Option<string> {
    if a in s.outgoing then Some(s.outgoing[a].lineage.targetID) else None
  }

  /** Where an execution was continued from. */
  function Origin(s: Store, b: string): Option<string> {
    if b in s.incoming then Some(s.incoming[b].lineage.source.executionID) else None
  }

  /** Outgoing and incoming receipts are mutually inverse. */
  lemma LinksAreInverse(s: Store, a: string, b: string)
    requires StoreInv(s)
    ensures Successor(s, a) == Some(b) <==> Origin(s, b) == Some(a)
    ensures Successor(s, a) == Some(b) ==> s.outgoing[a] == s.incoming[b] && a != b
  {
    hide StoreInv;
    ChainFacts(s, a);
    ChainFacts(s, b);
  }

  lemma ChainFacts(s: Store, a: string)
    requires StoreInv(s)
    ensures SourceLinked(s, a) && TargetLinked(s, a)
  {
    hide SourceLinked, TargetLinked, HistoryConsistent, LeasesFenced;
  }

  /** How many transfers the seals inside a lineage witness. */
  function Depth(l: RolloverLineage): nat {
    match l.source.digest
    case SealOf(body) => (match body.rollover case None => 0 case Some(earlier) => 1 + Depth(earlier))
    case _ => 0
  }

  /** Each transfer seals the lineage of the one before it. */
  lemma DepthGrows(s: Store, a: string, b: string)
    requires StoreInv(s) && Successor(s, a) == Some(b) && b in s.outgoing
    ensures Depth(s.outgoing[b].lineage) == Depth(s.outgoing[a].lineage) + 1
  {
    hide StoreInv, ValidReceipt;
    ChainFacts(s, a);
    ChainFacts(s, b);
  }

  /** Executions that continue one another, oldest first. */
  predicate Chain(s: Store, path: seq<string>) {
    path != [] && forall i :: 0 <= i < |path| - 1 ==> Successor(s, path[i]) == Some(path[i + 1])
  }

  lemma {:induction false} DepthAlong(s: Store, path: seq<string>, i: nat, j: nat)
    requires StoreInv(s) && Chain(s, path) && i <= j < |path| && path[j] in s.outgoing && path[i] in s.outgoing
    ensures Depth(s.outgoing[path[j]].lineage) == Depth(s.outgoing[path[i]].lineage) + (j - i)
    decreases j
  {
    hide StoreInv, Depth;
    if i < j {
      assert Successor(s, path[j - 1]) == Some(path[j]);
      DepthAlong(s, path, i, j - 1);
      DepthGrows(s, path[j - 1], path[j]);
    }
  }

  /** Chains are acyclic. */
  lemma ChainIsAcyclic(s: Store, path: seq<string>, i: nat, j: nat)
    requires StoreInv(s) && Chain(s, path) && i < j < |path|
    ensures path[i] != path[j]
  {
    hide StoreInv, Depth;
    assert Successor(s, path[i]) == Some(path[i + 1]);
    if path[j] in s.outgoing {
      DepthAlong(s, path, i, j);
    }
  }

  predicate Members(path: seq<string>, ids: set<string>) {
    forall i :: 0 <= i < |path| ==> path[i] in ids
  }

  lemma {:induction false} DistinctFit(path: seq<string>, ids: set<string>)
    requires Members(path, ids) && forall i, j :: 0 <= i < j < |path| ==> path[i] != path[j]
    ensures |path| <= |ids|
  {
    if path != [] {
      var rest := path[..|path| - 1];
      var last := path[|path| - 1];
      DistinctFit(rest, ids - {last});
      assert |ids - {last}| == |ids| - 1;
    }
  }

  /** Transferred members of a chain are bounded by the transfers on record. */
  lemma ChainIsBounded(s: Store, path: seq<string>)
    requires StoreInv(s) && Chain(s, path)
    ensures |path| <= |s.outgoing| + 1
  {
    hide StoreInv;
    var transferred := path[..|path| - 1];
    forall i, j | 0 <= i < j < |transferred| ensures transferred[i] != transferred[j] {
      ChainIsAcyclic(s, path, i, j);
    }
    forall i | 0 <= i < |transferred| ensures transferred[i] in s.outgoing.Keys {
      assert Successor(s, path[i]) == Some(path[i + 1]);
    }
    DistinctFit(transferred, s.outgoing.Keys);
  }

  /** Follow the transfers from any execution to the one that still runs. */
  lemma ExtendForward(s: Store, path: seq<string>) returns (full: seq<string>)
    requires StoreInv(s) && Chain(s, path)
    ensures Chain(s, full) && path <= full && full[|full| - 1] !in s.outgoing
    decreases |s.outgoing| + 1 - |path|
  {
    hide StoreInv;
    var last := path[|path| - 1];
    if last !in s.outgoing {
      return path;
    }
    var longer := path + [s.outgoing[last].lineage.targetID];
    assert Chain(s, longer);
    ChainIsBounded(s, longer);
    full := ExtendForward(s, longer);
  }

  lemma ExtendBackward(s: Store, path: seq<string>) returns (full: seq<string>, k: nat)
    requires StoreInv(s) && Chain(s, path)
    ensures Chain(s, full) && k <= |full| && full[k..] == path && full[0] !in s.incoming
    decreases |s.outgoing| + 1 - |path|
  {
    hide StoreInv;
    if path[0] !in s.incoming {
      return path, 0;
    }
    var source := s.incoming[path[0]].lineage.source.executionID;
    LinksAreInverse(s, source, path[0]);
    var longer := [source] + path;
    assert Chain(s, longer);
    ChainIsBounded(s, longer);
    full, k := ExtendBackward(s, longer);
    assert full[k + 1..] == full[k..][1..] == path;
    k := k + 1;
  }

  /** Exactly one member of a complete chain is not transferred: its last. */
  predicate OneAuthority(s: Store, chain: seq<string>) {
    && Chain(s, chain) && chain[0] !in s.incoming
    && forall i :: 0 <= i < |chain| ==> (chain[i] !in s.outgoing <==> i == |chain| - 1)
  }

  /** Every execution of a reachable store belongs to a complete chain. */
  lemma EveryChainHasOneAuthority(s: Store, id: string) returns (chain: seq<string>)
    requires Reachable(s)
    ensures OneAuthority(s, chain) && id in chain
  {
    hide StoreInv, Reachable;
    ReachableInv(s);
    assert Chain(s, [id]);
    var forward := ExtendForward(s, [id]);
    assert forward[0] == id;
    var k;
    chain, k := ExtendBackward(s, forward);
    assert chain[k] == chain[k..][0] == id;
    assert chain[|chain| - 1] == chain[k..][|chain| - k - 1];
    forall i | 0 <= i < |chain| ensures chain[i] !in s.outgoing <==> i == |chain| - 1 {
      if i < |chain| - 1 {
        assert Successor(s, chain[i]) == Some(chain[i + 1]);
      }
    }
  }

  /** ... and to only one: two complete chains that share a member are equal. */
  lemma ChainsAreUnique(s: Store, p: seq<string>, q: seq<string>, i: nat, j: nat)
    requires StoreInv(s) && OneAuthority(s, p) && OneAuthority(s, q) && i < |p| && j < |q| && p[i] == q[j]
    ensures p == q
    decreases i + j, |p| - i
  {
    hide StoreInv;
    if i > 0 && j > 0 {
      assert Successor(s, p[i - 1]) == Some(p[i]) && Successor(s, q[j - 1]) == Some(q[j]);
      LinksAreInverse(s, p[i - 1], p[i]);
      LinksAreInverse(s, q[j - 1], q[j]);
      ChainsAreUnique(s, p, q, i - 1, j - 1);
    } else if i > 0 {
      assert Successor(s, p[i - 1]) == Some(p[i]);
      LinksAreInverse(s, p[i - 1], p[i]);
      assert false;
    } else if j > 0 {
      assert Successor(s, q[j - 1]) == Some(q[j]);
      LinksAreInverse(s, q[j - 1], q[j]);
      assert false;
    } else {
      SameForward(s, p, q, 0);
    }
  }

  lemma SameForward(s: Store, p: seq<string>, q: seq<string>, n: nat)
    requires OneAuthority(s, p) && OneAuthority(s, q) && n < |p| && n < |q|
    requires forall k :: 0 <= k <= n ==> p[k] == q[k]
    ensures p == q
    decreases |p| - n
  {
    assert (p[n] !in s.outgoing <==> n == |p| - 1) && (q[n] !in s.outgoing <==> n == |q| - 1);
    if p[n] in s.outgoing {
      assert Successor(s, p[n]) == Some(p[n + 1]) && Successor(s, q[n]) == Some(q[n + 1]);
      SameForward(s, p, q, n + 1);
    }
  }

  /** Each transfer carries the retry and budget accounting of its source, as
      both seals on the receipt witness, and restarts the step count. */
  lemma AccountingIsInherited(s: Store, a: string)
    requires StoreInv(s) && a in s.outgoing
    ensures var r := s.outgoing[a];
      && r.lineage.source.digest.SealOf? && r.target.digest.SealOf?
      && r.target.digest.body.runMeta.retryCounts == r.lineage.source.digest.body.runMeta.retryCounts
      && r.target.digest.body.runMeta.budgetCounts == r.lineage.source.digest.body.runMeta.budgetCounts
      && r.target.digest.body.runMeta.stepCount == 0
  {
    hide StoreInv, ValidReceipt;
    ChainFacts(s, a);
  }

  /** A transferred execution accepts no further commit and no second rollover,
      now or after any later calls. */
  lemma TransferIsFinal(
    s: Store, more: seq<StoreOp>, a: string, now: Time, expected: uint64, lease: Lease, e: Envelope,
    source: Reference, target: Envelope, sizes: Sizes)
    requires StoreInv(s) && a in s.outgoing && e.executionID == a && source.executionID == a
    ensures var t := Run(s, more);
      && Lookup(t.outgoing, a) == Some(s.outgoing[a])
      && Commit(t, now, expected, lease, e).Err? && CommitRollover(t, now, lease, source, target, sizes).Err?
  {
    hide StoreInv, Run, PreparePublication, FencesGrow, HeadsGrow, PayloadsStay;
    var t := Run(s, more);
    RunKeeps(s, more);
    if Commit(t, now, expected, lease, e).Ok? {
      CommitFacts(t, now, expected, lease, e);
      assert false;
    }
  }

  /** A rollover target was never acquired and never committed before. */
  lemma TargetWasFresh(
    s: Store, ops: seq<StoreOp>, now: Time, lease: Lease, source: Reference, target: Envelope, sizes: Sizes)
    requires StoreInv(s) && CommitRollover(Run(s, ops), now, lease, source, target, sizes).Ok?
    ensures Head(s, target.executionID) == 0 && Fence(s, target.executionID) == 0
  {
    hide StoreInv, Run, PreparePublication, PublishPair, StoreExtends;
    RunKeeps(s, ops);
    GrowthAt(s, Run(s, ops), target.executionID);
  }
}
