/** MachineRequests as the rotation engine classifies them, the counts it takes over them,
    and the in-place sort that fixes the order in which victims are picked. */
module Requests {
  import opened Text

  datatype Stage = UNKNOWN | PROVISIONING | PROVISIONED | FAILED

  datatype RequestStatus = RequestStatus(id: string, generation: string, stale: bool, stage: Stage, createdAt: int)

  // ----- Counting over requests

  predicate IsStale(r: RequestStatus) { r.stale }

  predicate IsProvisioned(r: RequestStatus) { r.stage == PROVISIONED }

  predicate IsProvisioning(r: RequestStatus) { r.stage == PROVISIONING }

  predicate IsFreshProvisioned(r: RequestStatus) { !r.stale && r.stage == PROVISIONED }

  predicate IsStaleProvisioned(r: RequestStatus) { r.stale && r.stage == PROVISIONED }

  function Count(reqs: seq<RequestStatus>, f: RequestStatus -> bool): (n: nat)
    ensures n <= |reqs|
  {
    if reqs == [] then 0
    else Count(reqs[..|reqs| - 1], f) + if f(reqs[|reqs| - 1]) then 1 else 0
  }

  lemma {:induction false} CountConcat(a: seq<RequestStatus>, b: seq<RequestStatus>, f: RequestStatus -> bool)
    ensures Count(a + b, f) == Count(a, f) + Count(b, f)
  {
    if b == [] {
      assert a + b == a;
    } else {
      var front := b[..|b| - 1];
      assert (a + b)[..|a + b| - 1] == a + front;
      CountConcat(a, front, f);
    }
  }

  /** Splitting a list around one member splits every count. */
  lemma CountAround(reqs: seq<RequestStatus>, i: nat, f: RequestStatus -> bool)
    requires i < |reqs|
    ensures Count(reqs, f) == Count(reqs[..i], f) + (if f(reqs[i]) then 1 else 0) + Count(reqs[i + 1..], f)
  {
    assert reqs == (reqs[..i] + [reqs[i]]) + reqs[i + 1..];
    CountConcat(reqs[..i] + [reqs[i]], reqs[i + 1..], f);
    CountConcat(reqs[..i], [reqs[i]], f);
  }

  /** Removing member i lowers each count by what that member contributed. */
  lemma CountRemove(reqs: seq<RequestStatus>, i: nat, f: RequestStatus -> bool)
    requires i < |reqs|
    ensures Count(reqs[..i] + reqs[i + 1..], f) == Count(reqs, f) - if f(reqs[i]) then 1 else 0
  {
    CountAround(reqs, i, f);
    CountConcat(reqs[..i], reqs[i + 1..], f);
  }

  lemma CountTail(reqs: seq<RequestStatus>, f: RequestStatus -> bool)
    requires reqs != []
    ensures Count(reqs[1..], f) == Count(reqs, f) - if f(reqs[0]) then 1 else 0
  {
    CountConcat([reqs[0]], reqs[1..], f);
    assert [reqs[0]] + reqs[1..] == reqs;
  }

  lemma CountUpdate(reqs: seq<RequestStatus>, i: nat, r: RequestStatus, f: RequestStatus -> bool)
    requires i < |reqs|
    ensures Count(reqs[i := r], f) == Count(reqs, f) - (if f(reqs[i]) then 1 else 0) + if f(r) then 1 else 0
  {
    CountAround(reqs, i, f);
    CountAround(reqs[i := r], i, f);
    assert reqs[i := r][..i] == reqs[..i] && reqs[i := r][i + 1..] == reqs[i + 1..];
  }

  lemma CountAppend(reqs: seq<RequestStatus>, r: RequestStatus, f: RequestStatus -> bool)
    ensures Count(reqs + [r], f) == Count(reqs, f) + if f(r) then 1 else 0
  {
    assert (reqs + [r])[..|reqs|] == reqs;
  }

  /** A positive count has a witness, and a witness makes the count positive. */
  lemma {:induction false} CountPositive(reqs: seq<RequestStatus>, f: RequestStatus -> bool)
    ensures Count(reqs, f) > 0 <==> exists i :: 0 <= i < |reqs| && f(reqs[i])
  {
    if reqs == [] {
    } else {
      var n := |reqs| - 1;
      CountPositive(reqs[..n], f);
      if Count(reqs[..n], f) > 0 {
        var i :| 0 <= i < n && f(reqs[..n][i]);
        assert f(reqs[i]);
      }
      if i :| 0 <= i < |reqs| && f(reqs[i]) {
        assert i < n ==> f(reqs[..n][i]);
      }
    }
  }

  /** Fresh and stale provisioned members together are the provisioned members; fresh provisioned
      members are at most the non-stale ones. */
  lemma {:induction false} CountSplit(reqs: seq<RequestStatus>)
    ensures Count(reqs, IsProvisioned) == Count(reqs, IsFreshProvisioned) + Count(reqs, IsStaleProvisioned)
    ensures Count(reqs, IsFreshProvisioned) <= |reqs| - Count(reqs, IsStale)
    ensures Count(reqs, IsStaleProvisioned) <= Count(reqs, IsStale)
  {
    if reqs == [] {
    } else {
      CountSplit(reqs[..|reqs| - 1]);
    }
  }

  /** `StaleRequests`: the stale members, in the order they are listed. */
  function Stale(reqs: seq<RequestStatus>): (s: seq<RequestStatus>)
    ensures |s| == Count(reqs, IsStale)
  {
    if reqs == [] then []
    else Stale(reqs[..|reqs| - 1]) + if reqs[|reqs| - 1].stale then [reqs[|reqs| - 1]] else []
  }

  lemma {:induction false} StaleMembers(reqs: seq<RequestStatus>)
    ensures forall r :: r in Stale(reqs) <==> r in reqs && r.stale
  {
    if reqs == [] {
    } else {
      StaleMembers(reqs[..|reqs| - 1]);
      assert reqs == reqs[..|reqs| - 1] + [reqs[|reqs| - 1]];
    }
  }

  lemma StaleExistsIff(reqs: seq<RequestStatus>)
    ensures Stale(reqs) != [] <==> exists r :: r in reqs && r.stale
  {
    StaleMembers(reqs);
    var stale := Stale(reqs);
    assert stale != [] ==> stale[0] in stale;
  }

  lemma {:induction false} StaleProvisionedCount(reqs: seq<RequestStatus>)
    ensures Count(Stale(reqs), IsProvisioned) == Count(reqs, IsStaleProvisioned)
  {
    if reqs == [] {
    } else {
      var front := reqs[..|reqs| - 1];
      StaleProvisionedCount(front);
      CountAppend(Stale(front), reqs[|reqs| - 1], IsProvisioned);
      assert Stale(front) + [] == Stale(front);
    }
  }

  /** A list of one member. */
  lemma Single(r: RequestStatus, f: RequestStatus -> bool)
    ensures Stale([r]) == if r.stale then [r] else []
    ensures Count([r], f) == if f(r) then 1 else 0
  {
    assert [r][..0] == [];
  }

  // ----- The loops of the source, each against its specification above

  /** `FreshCount`. */
  method FreshCount(reqs: seq<RequestStatus>) returns (n: nat)
    ensures n == Count(reqs, IsFreshProvisioned)
  {
    n := 0;
    for i := 0 to |reqs|
      invariant n == Count(reqs[..i], IsFreshProvisioned)
    {
      CountAppend(reqs[..i], reqs[i], IsFreshProvisioned);
      assert reqs[..i + 1] == reqs[..i] + [reqs[i]];
      if !reqs[i].stale && reqs[i].stage == PROVISIONED {
        n := n + 1;
      }
    }
    assert reqs[..|reqs|] == reqs;
  }

  /** `countStaleProvisioned`, over the list `StaleRequests` returned. */
  method CountStaleProvisioned(stale: seq<RequestStatus>) returns (n: nat)
    ensures n == Count(stale, IsProvisioned)
  {
    n := 0;
    for i := 0 to |stale|
      invariant n == Count(stale[..i], IsProvisioned)
    {
      CountAppend(stale[..i], stale[i], IsProvisioned);
      assert stale[..i + 1] == stale[..i] + [stale[i]];
      if stale[i].stage == PROVISIONED {
        n := n + 1;
      }
    }
    assert stale[..|stale|] == stale;
  }

  /** `hasInFlightProvisioning`. */
  method HasInFlightProvisioning(reqs: seq<RequestStatus>) returns (found: bool)
    ensures found <==> exists i :: 0 <= i < |reqs| && reqs[i].stage == PROVISIONING
    ensures found <==> Count(reqs, IsProvisioning) > 0
  {
    CountPositive(reqs, IsProvisioning);
    for i := 0 to |reqs|
      invariant forall j :: 0 <= j < i ==> reqs[j].stage != PROVISIONING
    {
      if reqs[i].stage == PROVISIONING {
        assert IsProvisioning(reqs[i]);
        return true;
      }
    }
    return false;
  }

  /** `StaleRequests` as the loop that appends. */
  method StaleRequests(reqs: seq<RequestStatus>) returns (out: seq<RequestStatus>)
    ensures out == Stale(reqs)
  {
    out := [];
    for i := 0 to |reqs|
      invariant out == Stale(reqs[..i])
    {
      assert reqs[..i + 1][..i] == reqs[..i];
      if reqs[i].stale {
        out := out + [reqs[i]];
      }
    }
    assert reqs[..|reqs|] == reqs;
  }

  // ----- The order of requests

  /** Go's `<=` on strings. */
  predicate LexLeq(a: string, b: string) {
    a == "" || (b != "" && (a[0] < b[0] || (a[0] == b[0] && LexLeq(a[1..], b[1..]))))
  }

  /** A prefix comes first; otherwise the first difference decides. */
  lemma {:induction false} LexLeqIff(a: string, b: string)
    ensures LexLeq(a, b) <==>
            a <= b || exists k :: 0 <= k < |a| && k < |b| && a[..k] == b[..k] && a[k] < b[k]
  {
    if a == "" {
    } else if b != "" && a[0] == b[0] {
      LexLeqIff(a[1..], b[1..]);
      if k :| 0 <= k < |a| && k < |b| && a[..k] == b[..k] && a[k] < b[k] {
        assert a[..k][1..] == a[1..][..k - 1] && b[..k][1..] == b[1..][..k - 1];
      }
      if k :| 0 <= k < |a| - 1 && k < |b| - 1 && a[1..][..k] == b[1..][..k] && a[1..][k] < b[1..][k] {
        assert a[..k + 1] == [a[0]] + a[1..][..k] && b[..k + 1] == [b[0]] + b[1..][..k];
      }
      assert a <= b <==> a[1..] <= b[1..] by {
        assert a == [a[0]] + a[1..] && b == [b[0]] + b[1..];
      }
    } else if b != "" && a[0] < b[0] {
      assert a[..0] == b[..0];
    } else {
      assert forall k :: 0 < k <= |a| && k <= |b| ==> a[..k][0] == a[0] && b[..k][0] == b[0];
    }
  }

  lemma {:induction false} LexTotal(a: string, b: string)
    ensures LexLeq(a, b) || LexLeq(b, a)
    ensures LexLeq(a, b) && LexLeq(b, a) ==> a == b
  {
    if a != "" && b != "" && a[0] == b[0] {
      LexTotal(a[1..], b[1..]);
      assert a == [a[0]] + a[1..] && b == [b[0]] + b[1..];
    }
  }

  lemma {:induction false} LexTransitive(a: string, b: string, c: string)
    requires LexLeq(a, b) && LexLeq(b, c)
    ensures LexLeq(a, c)
  {
    if a != "" && a[0] == b[0] == c[0] {
      LexTransitive(a[1..], b[1..], c[1..]);
    }
  }

  /** Older first; requests created at the same instant are ordered by ID. */
  predicate Leq(a: RequestStatus, b: RequestStatus) {
    a.createdAt < b.createdAt || (a.createdAt == b.createdAt && LexLeq(a.id, b.id))
  }

  lemma LeqTotal(a: RequestStatus, b: RequestStatus)
    ensures Leq(a, b) || Leq(b, a)
    ensures Leq(a, b) && Leq(b, a) ==> a.id == b.id && a.createdAt == b.createdAt
  {
    LexTotal(a.id, b.id);
  }

  lemma LeqTransitive(a: RequestStatus, b: RequestStatus, c: RequestStatus)
    requires Leq(a, b) && Leq(b, c)
    ensures Leq(a, c)
  {
    if a.createdAt == c.createdAt {
      LexTransitive(a.id, b.id, c.id);
    }
  }

  ghost predicate Sorted(reqs: seq<RequestStatus>) {
    forall i, j :: 0 <= i < j < |reqs| ==> Leq(reqs[i], reqs[j])
  }

  ghost predicate DistinctIds(reqs: seq<RequestStatus>) {
    forall i, j :: 0 <= i < j < |reqs| ==> reqs[i].id != reqs[j].id
  }

  method SwapWithPrevious(a: array<RequestStatus>, j: nat)
    requires 0 < j < a.Length
    modifies a
    ensures a[j] == old(a[j - 1]) && a[j - 1] == old(a[j])
    ensures forall k :: 0 <= k < a.Length && k != j && k != j - 1 ==> a[k] == old(a[k])
    ensures multiset(a[..]) == old(multiset(a[..]))
  {
    a[j - 1], a[j] := a[j], a[j - 1];
  }

  /** Members before and after position j are in order; the member at j is at most every later one. */
  ghost predicate SinkingAt(a: seq<RequestStatus>, i: nat, j: nat)
    requires j <= i < |a|
  {
    && (forall p, q :: 0 <= p < q <= i && p != j && q != j ==> Leq(a[p], a[q]))
    && (forall q :: j < q <= i ==> Leq(a[j], a[q]))
  }

  /** Swapping an out-of-order pair moves the sinking position one place down. */
  lemma SinkingStep(a: seq<RequestStatus>, b: seq<RequestStatus>, i: nat, j: nat)
    requires 0 < j <= i < |a| == |b| && SinkingAt(a, i, j) && Leq(a[j], a[j - 1])
    requires b == a[j - 1 := a[j]][j := a[j - 1]]
    ensures SinkingAt(b, i, j - 1)
  {
    forall p, q | 0 <= p < q <= i && p != j - 1 && q != j - 1 ensures Leq(b[p], b[q]) {
      if p == j {
        assert Leq(a[j - 1], a[q]);
      } else if q == j {
        assert Leq(a[p], a[j - 1]);
      }
    }
  }

  /** Once the member at j is in order with the one before it, the whole prefix is sorted. */
  lemma SinkingDone(a: seq<RequestStatus>, i: nat, j: nat)
    requires j <= i < |a| && SinkingAt(a, i, j) && (j > 0 ==> Leq(a[j - 1], a[j]))
    ensures Sorted(a[..i + 1])
  {
    forall p | 0 <= p < j ensures Leq(a[p], a[j]) {
      if p < j - 1 {
        LeqTransitive(a[p], a[j - 1], a[j]);
      }
    }
  }

  /** The inner loop of the insertion sort: sink member i into the sorted prefix before it. */
  method Sink(a: array<RequestStatus>, i: nat)
    requires i < a.Length && Sorted(a[..i])
    modifies a
    ensures Sorted(a[..i + 1])
    ensures multiset(a[..]) == old(multiset(a[..]))
  {
    var j := i;
    assert forall p, q :: 0 <= p < q < i ==> a[..i][p] == a[p] && a[..i][q] == a[q];
    while j > 0
      invariant 0 <= j <= i && SinkingAt(a[..], i, j)
      invariant multiset(a[..]) == old(multiset(a[..]))
    {
      if a[j - 1].createdAt < a[j].createdAt {
        break;
      }
      if a[j - 1].createdAt == a[j].createdAt && LexLeq(a[j - 1].id, a[j].id) {
        break;
      }
      LeqTotal(a[j - 1], a[j]);
      ghost var before := a[..];
      SwapWithPrevious(a, j);
      SinkingStep(before, a[..], i, j);
      j := j - 1;
    }
    SinkingDone(a[..], i, j);
    assert a[..][..i + 1] == a[..i + 1];
  }

  /** `sortRequestsByCreatedAt`: sorts in place by creation time and then ID. */
  method SortRequestsByCreatedAt(a: array<RequestStatus>)
    modifies a
    ensures Sorted(a[..])
    ensures forall i, j :: 0 <= i < j < a.Length ==>
              a[i].createdAt < a[j].createdAt || (a[i].createdAt == a[j].createdAt && LexLeq(a[i].id, a[j].id))
    ensures multiset(a[..]) == old(multiset(a[..]))
  {
    if a.Length == 0 {
      return;
    }
    for i := 1 to a.Length
      invariant Sorted(a[..i])
      invariant multiset(a[..]) == old(multiset(a[..]))
    {
      Sink(a, i);
    }
    assert a[..a.Length] == a[..];
  }

  /** The least member of a listing is the same wherever it is listed. */
  lemma SortedHeadsAgree(s: seq<RequestStatus>, t: seq<RequestStatus>)
    requires Sorted(s) && Sorted(t) && DistinctIds(s) && s != [] && t != [] && s[0] in t && t[0] in s
    ensures s[0] == t[0]
  {
    var i :| 0 <= i < |t| && t[i] == s[0];
    var j :| 0 <= j < |s| && s[j] == t[0];
    LeqTotal(s[0], t[0]);
    assert i > 0 ==> Leq(t[0], t[i]);
  }

  lemma TailMultiset(s: seq<RequestStatus>)
    requires s != []
    ensures multiset(s[1..]) == multiset(s) - multiset{s[0]}
  {
    assert s == [s[0]] + s[1..];
  }

  lemma HeadsOccur(s: seq<RequestStatus>, t: seq<RequestStatus>)
    requires multiset(s) == multiset(t) && s != []
    ensures t != [] && s[0] in t && t[0] in s
  {
    assert s[0] in multiset(t);
    assert t[0] in multiset(s);
  }

  lemma SameHeadAndTail(s: seq<RequestStatus>, t: seq<RequestStatus>)
    requires s != [] && t != [] && s[0] == t[0] && s[1..] == t[1..]
    ensures s == t
  {
    assert s == [s[0]] + s[1..] && t == [t[0]] + t[1..];
  }

  lemma TailSorted(s: seq<RequestStatus>)
    requires s != [] && Sorted(s)
    ensures Sorted(s[1..]) && (DistinctIds(s) ==> DistinctIds(s[1..]))
  {
  }

  /** With distinct IDs the sorted order depends only on which requests there are: two listings of
      the same requests sort to the same sequence. */
  lemma {:induction false} SortedOrderIsCanonical(s: seq<RequestStatus>, t: seq<RequestStatus>)
    requires Sorted(s) && Sorted(t) && multiset(s) == multiset(t) && DistinctIds(s)
    ensures s == t
  {
    hide Leq, Sorted, DistinctIds;
    if s == [] {
      assert |multiset(t)| == 0;
    } else {
      HeadsOccur(s, t);
      SortedHeadsAgree(s, t);
      TailMultiset(s);
      TailMultiset(t);
      TailSorted(s);
      TailSorted(t);
      SortedOrderIsCanonical(s[1..], t[1..]);
      SameHeadAndTail(s, t);
    }
  }

  /** The first member of `StaleRequests` of a sorted listing is the oldest stale one. */
  lemma {:induction false} StaleHeadIsOldest(reqs: seq<RequestStatus>)
    requires Sorted(reqs) && Stale(reqs) != []
    ensures forall r :: r in reqs && r.stale ==> Leq(Stale(reqs)[0], r)
    ensures forall r :: r in reqs && r.stale ==> Stale(reqs)[0].createdAt <= r.createdAt
  {
    var front, last := reqs[..|reqs| - 1], reqs[|reqs| - 1];
    assert reqs == front + [last];
    LeqTotal(last, last);
    StaleMembers(front);
    if Stale(front) != [] {
      StaleHeadIsOldest(front);
      var h := Stale(front)[0];
      assert h in front;
      var i :| 0 <= i < |front| && front[i] == h;
      assert Leq(reqs[i], reqs[|reqs| - 1]);
    }
  }

  // ----- A request the controller could create next

  ghost function LatestCreation(reqs: seq<RequestStatus>): (t: int)
    ensures forall i :: 0 <= i < |reqs| ==> reqs[i].createdAt <= t
  {
    if reqs == [] then 0
    else
      var t := LatestCreation(reqs[..|reqs| - 1]);
      if reqs[|reqs| - 1].createdAt > t then reqs[|reqs| - 1].createdAt else t
  }

  ghost function LongerThanAll(reqs: seq<RequestStatus>): (id: string)
    ensures forall i :: 0 <= i < |reqs| ==> |reqs[i].id| < |id|
  {
    if reqs == [] then "a" else LongerThanAll(reqs[..|reqs| - 1]) + reqs[|reqs| - 1].id + "a"
  }

  /** A fresh request younger than all others, under an ID none of them uses. */
  ghost function Newest(reqs: seq<RequestStatus>): (r: RequestStatus)
    ensures !r.stale && forall i :: 0 <= i < |reqs| ==> Leq(reqs[i], r) && reqs[i].id != r.id
  {
    RequestStatus(LongerThanAll(reqs), "", false, UNKNOWN, LatestCreation(reqs) + 1)
  }
}
