/** Which running jobs a quota pass pauses, for every order of equal priorities. */
module JobPausingLaws {
  import opened Basics
  import opened JobDispatcherSpec

  lemma {:induction false} ToPauseIsAPrefix(jobs: seq<Job>, q: Quota, order: seq<nat>)
    requires Indices(order, |jobs|)
    ensures var p := ToPause(jobs, q, order);
            && (forall i | 0 <= i < |p| :: Over(q, jobs[order[i]]))
            && (|p| < |order| ==> !Over(q, jobs[order[|p|]]))
  {
    if order != [] {
      ToPauseIsAPrefix(jobs, q, order[1..]);
      assert forall i | 1 <= i < |order| :: order[i] == order[1..][i - 1];
    }
  }

  /** Every paused job had reached its threshold, and every running job of strictly lower priority is paused too. */
  lemma PausedFromTheBottom(jobs: seq<Job>, q: Quota, order: seq<nat>, j: nat, k: nat)
    requires RunningOrder(jobs, order) && j in ToPause(jobs, q, order)
    requires k < |jobs| && jobs[k].status.Running? && jobs[k].priority < jobs[j].priority
    ensures Over(q, jobs[j]) && k in ToPause(jobs, q, order)
  {
    ToPauseIsAPrefix(jobs, q, order);
    var p := ToPause(jobs, q, order);
    var a :| 0 <= a < |p| && p[a] == j;
    assert p[a] == order[a] == j;
    assert k in order;
    var b :| 0 <= b < |order| && order[b] == k;
    assert b < a by { assert jobs[order[b]].priority < jobs[order[a]].priority; }
    assert p[b] == order[b];
  }

  /** The paused jobs are exactly the running jobs at or over their threshold. */
  ghost predicate PausesAllOver(jobs: seq<Job>, q: Quota, order: seq<nat>)
    requires Indices(order, |jobs|)
  {
    forall j: nat :: j in ToPause(jobs, q, order) <==> j < |jobs| && jobs[j].status.Running? && Over(q, jobs[j])
  }

  /** Every job over its threshold has strictly lower priority than every job within its own. */
  ghost predicate OverIsLower(jobs: seq<Job>, q: Quota) {
    forall a, b | 0 <= a < |jobs| && 0 <= b < |jobs| && jobs[a].status.Running? && jobs[b].status.Running? ::
      Over(q, jobs[b]) && !Over(q, jobs[a]) ==> jobs[b].priority < jobs[a].priority
  }

  lemma OverIsPaused(jobs: seq<Job>, q: Quota, order: seq<nat>, b: nat)
    requires RunningOrder(jobs, order) && OverIsLower(jobs, q) && b < |order| && Over(q, jobs[order[b]])
    ensures b < |ToPause(jobs, q, order)|
  {
    ToPauseIsAPrefix(jobs, q, order);
    var n := |ToPause(jobs, q, order)|;
    assert order[b] in order;
    assert n < |order| ==> order[n] in order;
  }

  lemma OverIsLowerPausesAll(jobs: seq<Job>, q: Quota, order: seq<nat>)
    requires RunningOrder(jobs, order) && OverIsLower(jobs, q)
    ensures PausesAllOver(jobs, q, order)
  {
    var p := ToPause(jobs, q, order);
    ToPauseIsAPrefix(jobs, q, order);
    forall j: nat ensures j in p <==> j < |jobs| && jobs[j].status.Running? && Over(q, jobs[j]) {
      if j in p {
        var i :| 0 <= i < |p| && p[i] == j;
        assert order[i] == j && j in order;
      }
      if j in order && Over(q, jobs[j]) {
        var b :| 0 <= b < |order| && order[b] == j;
        OverIsPaused(jobs, q, order, b);
        assert p[b] == j;
      }
    }
  }

  /** `x` inserted before the first job of higher priority. */
  function Insert(jobs: seq<Job>, x: nat, order: seq<nat>): (s: seq<nat>)
    requires x < |jobs| && Indices(order, |jobs|)
    ensures Indices(s, |jobs|) && multiset(s) == multiset(order) + multiset{x}
  {
    if order == [] || jobs[x].priority < jobs[order[0]].priority then [x] + order
    else
      assert order == [order[0]] + order[1..];
      [order[0]] + Insert(jobs, x, order[1..])
  }

  lemma {:induction false} InsertAscends(jobs: seq<Job>, x: nat, order: seq<nat>)
    requires x < |jobs| && Indices(order, |jobs|) && Ascending(jobs, order)
    ensures Ascending(jobs, Insert(jobs, x, order))
  {
    if order != [] && jobs[order[0]].priority <= jobs[x].priority {
      var rest := Insert(jobs, x, order[1..]);
      InsertAscends(jobs, x, order[1..]);
      forall i | 0 <= i < |rest| ensures jobs[order[0]].priority <= jobs[rest[i]].priority {
        assert rest[i] in multiset(rest);
        assert rest[i] == x || rest[i] in order[1..];
      }
    }
  }

  function Copies(s: seq<nat>, k: nat): nat { multiset(s)[k] }

  /** A listing with every multiplicity at most one has no repetition. */
  lemma OnceEach(s: seq<nat>)
    requires forall k: nat :: Copies(s, k) <= 1
    ensures Distinct(s)
  {
    forall i, j | 0 <= i < j < |s| ensures s[i] != s[j] {
      assert s == s[..j] + s[j..];
      assert s[..j][i] in multiset(s[..j]) && s[j..][0] in multiset(s[j..]);
      assert Copies(s, s[i]) == Copies(s[..j], s[i]) + Copies(s[j..], s[i]);
    }
  }

  /** The running jobs among the first `n`, in one of the orders of a sort. */
  function SomeOrder(jobs: seq<Job>, n: nat): (order: seq<nat>)
    requires n <= |jobs|
    ensures Indices(order, |jobs|)
  {
    if n == 0 then []
    else
      var rest := SomeOrder(jobs, n - 1);
      if jobs[n - 1].status.Running? then Insert(jobs, n - 1, rest) else rest
  }

  lemma {:induction false} SomeOrderAscends(jobs: seq<Job>, n: nat)
    requires n <= |jobs|
    ensures Ascending(jobs, SomeOrder(jobs, n))
  {
    if n > 0 {
      SomeOrderAscends(jobs, n - 1);
      if jobs[n - 1].status.Running? { InsertAscends(jobs, n - 1, SomeOrder(jobs, n - 1)); }
    }
  }

  lemma {:induction false} SomeOrderCopies(jobs: seq<Job>, n: nat, k: nat)
    requires n <= |jobs|
    ensures Copies(SomeOrder(jobs, n), k) == if k < n && jobs[k].status.Running? then 1 else 0
  {
    if n > 0 { SomeOrderCopies(jobs, n - 1, k); }
  }

  lemma SwapKeepsOrder(jobs: seq<Job>, order: seq<nat>, i: nat, j: nat)
    requires i < j < |order| && Indices(order, |jobs|) && Ascending(jobs, order)
    requires jobs[order[i]].priority == jobs[order[j]].priority
    ensures var s := order[i := order[j]][j := order[i]];
            Indices(s, |jobs|) && Ascending(jobs, s) && multiset(s) == multiset(order)
  {
    var s := order[i := order[j]][j := order[i]];
    assert forall k | 0 <= k < |order| :: jobs[s[k]].priority == jobs[order[k]].priority;
  }

  lemma CountedOrder(jobs: seq<Job>, order: seq<nat>)
    requires Indices(order, |jobs|) && Ascending(jobs, order)
    requires forall k: nat :: Copies(order, k) == if k < |jobs| && jobs[k].status.Running? then 1 else 0
    ensures RunningOrder(jobs, order)
  {
    OnceEach(order);
    assert forall k: nat :: k in order <==> Copies(order, k) > 0;
  }

  /** Some order puts `a` before `b` when its priority is no higher. */
  lemma OrderWithFirst(jobs: seq<Job>, a: nat, b: nat) returns (order: seq<nat>, i: nat, j: nat)
    requires a < |jobs| && b < |jobs| && a != b && jobs[a].status.Running? && jobs[b].status.Running?
    requires jobs[a].priority <= jobs[b].priority
    ensures RunningOrder(jobs, order) && i < j < |order| && order[i] == a && order[j] == b
  {
    var some := SomeOrder(jobs, |jobs|);
    SomeOrderAscends(jobs, |jobs|);
    SomeOrderCopies(jobs, |jobs|, a);
    SomeOrderCopies(jobs, |jobs|, b);
    order := some;
    i :| 0 <= i < |order| && order[i] == a;
    j :| 0 <= j < |order| && order[j] == b;
    if j < i {
      SwapKeepsOrder(jobs, some, j, i);
      order := some[j := some[i]][i := some[j]];
      i, j := j, i;
    }
    forall k: nat ensures Copies(order, k) == if k < |jobs| && jobs[k].status.Running? then 1 else 0 {
      SomeOrderCopies(jobs, |jobs|, k);
    }
    CountedOrder(jobs, order);
  }

  lemma UnderInFrontStopsTheLoop(jobs: seq<Job>, q: Quota, a: nat, b: nat)
    requires a < |jobs| && b < |jobs| && jobs[a].status.Running? && jobs[b].status.Running?
    requires Over(q, jobs[b]) && !Over(q, jobs[a]) && jobs[a].priority <= jobs[b].priority
    ensures exists order :: RunningOrder(jobs, order) && b !in ToPause(jobs, q, order)
  {
    var order, i, j := OrderWithFirst(jobs, a, b);
    var p := ToPause(jobs, q, order);
    ToPauseIsAPrefix(jobs, q, order);
    assert |p| <= i;
    assert forall k | 0 <= k < |p| :: p[k] == order[k];
    assert b !in p;
  }

  /**
   Whatever order equal priorities take, exactly the jobs over threshold are paused, if and only if those are
   all of lower priority.
   */
  lemma PausesAllOverIff(jobs: seq<Job>, q: Quota)
    ensures (forall order | RunningOrder(jobs, order) :: PausesAllOver(jobs, q, order)) <==> OverIsLower(jobs, q)
  {
    if OverIsLower(jobs, q) {
      forall order | RunningOrder(jobs, order)
        ensures PausesAllOver(jobs, q, order)
      {
        OverIsLowerPausesAll(jobs, q, order);
      }
    } else {
      var a, b :| 0 <= a < |jobs| && 0 <= b < |jobs| && jobs[a].status.Running? && jobs[b].status.Running?
                  && Over(q, jobs[b]) && !Over(q, jobs[a]) && jobs[a].priority <= jobs[b].priority;
      UnderInFrontStopsTheLoop(jobs, q, a, b);
    }
  }

  /** In particular when thresholds never decrease along the priority order, equal priorities included. */
  lemma MonotoneThresholdsPauseAllOver(jobs: seq<Job>, q: Quota, order: seq<nat>)
    requires RunningOrder(jobs, order)
    requires forall a, b | 0 <= a < |jobs| && 0 <= b < |jobs| && jobs[a].status.Running? && jobs[b].status.Running? ::
               jobs[a].priority <= jobs[b].priority ==> jobs[a].threshold <= jobs[b].threshold
    ensures PausesAllOver(jobs, q, order)
  {
    OverIsLowerPausesAll(jobs, q, order);
  }
}
