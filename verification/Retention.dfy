/** Retention: which revisions of an execution survive maintenance, as the
    runtime's predicate and as the SQL selection of the database adapter. */
module Retention {
  import opened Basics

  datatype RetentionPolicy = RetentionPolicy(
    name: string, keepLast: int64, deletePayload: bool, protectedRevisions: seq<uint64>)

  datatype RetentionRequest = RetentionRequest(executionID: string, revision: uint64, policy: RetentionPolicy)

  predicate Increasing(s: seq<uint64>) {
    forall i, j :: 0 <= i < j < |s| ==> s[i] < s[j]
  }

  /** Protected revisions are distinct, in order and not after the head. */
  predicate ValidRetention(q: RetentionRequest) {
    && q.executionID != "" && q.revision != 0 && q.policy.name != "" && q.policy.keepLast >= 0
    && Increasing(q.policy.protectedRevisions)
    && (forall i :: 0 <= i < |q.policy.protectedRevisions| ==> 0 < q.policy.protectedRevisions[i] <= q.revision)
    && (q.policy.deletePayload ==> q.policy.keepLast == 0 && q.policy.protectedRevisions == [])
  }

  predicate IsSorted(s: seq<uint64>) {
    forall i :: 0 < i < |s| ==> s[i - 1] <= s[i]
  }

  lemma SortedPrefixes(s: seq<uint64>, i: nat, j: nat)
    requires IsSorted(s) && i <= j < |s|
    ensures s[i] <= s[j]
    decreases j
  {
    if i < j {
      SortedPrefixes(s, i, j - 1);
    }
  }

  /** The source sorts out duplicates with one remembered value, relying on the
      order it checked before. */
  method ValidateRetention(q: RetentionRequest) returns (ok: bool)
    ensures ok <==> ValidRetention(q)
  {
    var p := q.policy;
    if q.executionID == "" || q.revision == 0 || p.name == "" || p.keepLast < 0 || !IsSorted(p.protectedRevisions) {
      return false;
    }
    if p.deletePayload && (p.keepLast != 0 || p.protectedRevisions != []) {
      return false;
    }
    var prior: uint64 := 0;
    for i := 0 to |p.protectedRevisions|
      invariant prior == if i == 0 then 0 else p.protectedRevisions[i - 1]
      invariant forall k :: 0 <= k < i ==> 0 < p.protectedRevisions[k] <= q.revision
      invariant forall k :: 0 < k < i ==> p.protectedRevisions[k - 1] != p.protectedRevisions[k]
    {
      var revision := p.protectedRevisions[i];
      if revision == 0 || revision > q.revision || revision == prior {
        return false;
      }
      prior := revision;
    }
    StrictlySorted(p.protectedRevisions);
    return true;
  }

  lemma StrictlySorted(s: seq<uint64>)
    requires IsSorted(s) && forall k :: 0 < k < |s| ==> s[k - 1] != s[k]
    ensures Increasing(s)
  {
    forall i, j | 0 <= i < j < |s| ensures s[i] < s[j] {
      SortedPrefixes(s, i, j - 1);
      assert s[j - 1] <= s[j] && s[j - 1] != s[j];
    }
  }

  /** The runtime's exact selection. */
  predicate Retained(q: RetentionRequest, revision: uint64) {
    if q.policy.deletePayload then false
    else if revision == q.revision || revision in q.policy.protectedRevisions then true
    else if q.policy.keepLast < 0 then false
    else revision <= q.revision && q.revision - revision < q.policy.keepLast
  }

  /** The adapter's delete predicate over one history row. */
  predicate SqlDeletes(q: RetentionRequest, firstRetained: uint64, protected: seq<int64>, revision: uint64) {
    q.policy.deletePayload || (revision < firstRetained && revision !in protected)
  }

  /** The adapter clamps the first retained revision and copies the protected
      ones to signed integers. Over the rows that can exist, 1 to the head, the
      delete predicate removes exactly what the runtime does not retain. */
  method RetentionSelection(q: RetentionRequest, revision: uint64) returns (r: Result<(uint64, seq<int64>)>)
    requires ValidRetention(q) && revision == q.revision
    ensures r.Ok? <==> revision <= MAX_INT64
    ensures r.Err? ==> r.error == ErrExecutionLifecycleUnsafe
    ensures r.Ok? ==> forall row: uint64 :: 1 <= row <= revision ==>
      (SqlDeletes(q, r.value.0, r.value.1, row) <==> !Retained(q, row))
  {
    if q.policy.keepLast < 0 || revision > MAX_INT64 {
      return Err(ErrExecutionLifecycleUnsafe);
    }
    var firstRetained: uint64 := 1;
    if q.policy.keepLast < revision {
      firstRetained := revision - q.policy.keepLast + 1;
    }
    if !q.policy.deletePayload && firstRetained > revision {
      firstRetained := revision;
    }
    var protected: seq<int64> := [];
    for index := 0 to |q.policy.protectedRevisions|
      invariant |protected| == index && forall k :: 0 <= k < index ==> protected[k] == q.policy.protectedRevisions[k]
    {
      var value := q.policy.protectedRevisions[index];
      if value > MAX_INT64 {
        return Err(ErrExecutionLifecycleUnsafe);
      }
      protected := protected + [value];
    }
    forall row: uint64 | 1 <= row <= revision
      ensures SqlDeletes(q, firstRetained, protected, row) <==> !Retained(q, row)
    {
      assert row in protected <==> row in q.policy.protectedRevisions;
    }
    return Ok((firstRetained, protected));
  }

  /** Unless the payload is deleted, the head, every protected revision and the
      last `keepLast` ones survive, and nothing else does. */
  predicate Survives(q: RetentionRequest, revision: uint64) {
    && !q.policy.deletePayload
    && (|| revision == q.revision || revision in q.policy.protectedRevisions
        || revision > q.revision - q.policy.keepLast)
  }

  lemma RetainedAre(q: RetentionRequest, revision: uint64)
    requires ValidRetention(q) && 1 <= revision <= q.revision
    ensures Retained(q, revision) <==> Survives(q, revision)
  {
  }
}
