/**
 * The EHAMM allocator (the private `EHAMM.HAMM` with its own `maxMin`,
 * `minMin` and `addToMinVM`).  It runs the HAMM loop on caller-supplied
 * workers over a pool made of whatever `taskSizes` already held followed by
 * the cloudlet lengths, but takes the pool's mean ONCE, before the loop, and
 * compares every later pool against that stale value.
 */
module StaleMeanAllocator {
  import opened Loads
  import opened Allocator

  /** The pool the loop drains: the prior contents of `taskSizes`, then the cloudlet lengths. */
  function Pool(prior: seq<int>, lengths: seq<int>): (pool: seq<int>)
    ensures |pool| == |prior| + |lengths|
    ensures multiset(pool) == multiset(prior) + multiset(lengths)
    ensures pool[..|prior|] == prior
  {
    prior + lengths
  }

  /**
   * `HAMM(cloudlets, taskSizes, vms)`: the workers `vms` are extended in
   * place.  Each ends with its own tasks followed by the ones appended to it,
   * and between them they gain exactly the pool; with a non-empty pool and
   * no worker, `vms.get(0)` fails.
   */
  function Ehamm(prior: seq<int>, lengths: seq<int>, vms: Assignment): (r: Result<Assignment>)
    ensures r.Err? <==> |prior| + |lengths| > 0 && |vms| == 0
    ensures r.Err? ==> r.error == IndexOutOfBounds
    ensures r.Ok? ==> |r.value| == |vms|
    ensures r.Ok? ==> forall k :: 0 <= k < |vms| ==> vms[k] <= r.value[k]
    ensures r.Ok? ==> AllTasks(r.value) == AllTasks(vms) + multiset(prior) + multiset(lengths)
  {
    var pool := Pool(prior, lengths);
    Drain(pool, vms, Fixed(PoolMean(pool)))
  }

  /** Against a fixed mean the number of tasks above it can only fall as the pool shrinks. */
  lemma HigherNeverGrows(pool: seq<int>, v: int, m: Mean)
    requires v in pool
    ensures HigherCount(RemoveFirst(pool, v), m) <= HigherCount(pool, m)
    ensures HigherCount(pool, m) == 0 ==> HigherCount(RemoveFirst(pool, v), m) == 0
  {
    CountsAfterRemoval(pool, v, m);
  }

  /** A sequence that never increases from left to right. */
  predicate NonIncreasing(s: seq<int>)
  {
    forall i, j :: 0 <= i < j < |s| ==> s[i] >= s[j]
  }

  lemma ConsNonIncreasing(v: int, tail: seq<int>)
    requires NonIncreasing(tail)
    requires forall j :: 0 <= j < |tail| ==> tail[j] <= v
    ensures NonIncreasing([v] + tail)
  {
    var order := [v] + tail;
    forall i, j | 0 <= i < j < |order|
      ensures order[i] >= order[j]
    {
      assert order[j] == tail[j - 1];
      if i > 0 {
        assert order[i] == tail[i - 1];
      }
    }
  }

  /** A rearrangement of part of a pool is bounded by the pool's maximum. */
  lemma BoundedByPoolMax(tail: seq<int>, pool: seq<int>, v: int)
    requires multiset(tail) <= multiset(pool)
    requires forall i :: 0 <= i < |pool| ==> pool[i] <= v
    ensures forall j :: 0 <= j < |tail| ==> tail[j] <= v
  {
    forall j | 0 <= j < |tail|
      ensures tail[j] <= v
    {
      assert tail[j] in multiset(tail);
      assert tail[j] in multiset(pool);
    }
  }

  /**
   * Once no pool task lies above the fixed mean, every later iteration is in
   * max-min mode: the loop hands out the rest of the pool largest first.
   */
  lemma {:induction false} StaleMeanStaysMaxMode(pool: seq<int>, m: Mean)
    requires HigherCount(pool, m) == 0
    ensures NonIncreasing(SelectionOrder(pool, Fixed(m)))
    ensures |pool| > 0 ==> SelectionOrder(pool, Fixed(m))[0] == MaxOf(pool)
    decreases |pool|
  {
    if |pool| > 0 {
      var v := Pick(pool, m);
      assert v == MaxOf(pool) by {
        assert MaxMode(pool, m);
      }
      var rest := RemoveFirst(pool, v);
      var tail := SelectionOrder(rest, Fixed(m));
      SelectionStep(pool, Fixed(m), v);
      assert NonIncreasing(tail) by {
        HigherNeverGrows(pool, v, m);
        StaleMeanStaysMaxMode(rest, m);
      }
      assert forall j :: 0 <= j < |tail| ==> tail[j] <= v by {
        assert multiset(tail) == multiset(rest);
        assert multiset(tail) <= multiset(pool);
        BoundedByPoolMax(tail, pool, v);
      }
      ConsNonIncreasing(v, tail);
    }
  }
}
