/**
 * The HAMM initial allocator (`HAMMSimulation.HAMM` with `maxMin`, `minMin`
 * and `addToMinVM`).  While the pool of unassigned tasks is non-empty it
 * counts the tasks at or below the pool's mean ("lower") against those above
 * it ("higher"); when lower >= higher it takes the pool maximum, otherwise
 * the pool minimum, appends that value to the first worker of least load and
 * removes one occurrence of it from the pool.
 *
 * The EHAMM variant differs only in when the mean is taken, so the step is
 * written once, parameterised by a `MeanPolicy`.
 */
module Allocator {
  import opened Loads

  type Positive = n: int | n > 0 witness 1

  /** An arithmetic mean kept exactly as the fraction num / den. */
  datatype Mean = Mean(num: int, den: Positive)

  /** `stream().average().orElse(0.0)`: the mean of a pool, 0 for an empty one. */
  function PoolMean(pool: seq<int>): Mean
  {
    if |pool| == 0 then Mean(0, 1) else Mean(Sum(pool), |pool|)
  }

  /** `size <= average`, decided exactly by cross-multiplication. */
  predicate AtMost(x: int, m: Mean)
  {
    x * m.den <= m.num
  }

  /**
   * Whether the mean is recomputed over the current pool on every iteration
   * (HAMM) or was computed once, before the loop, and is kept (EHAMM).
   */
  datatype MeanPolicy = Recomputed | Fixed(mean: Mean)

  function Threshold(policy: MeanPolicy, pool: seq<int>): Mean
  {
    match policy
    case Recomputed => PoolMean(pool)
    case Fixed(m) => m
  }

  /** Number of pool tasks with `size <= average`. */
  function LowerCount(pool: seq<int>, m: Mean): nat
  {
    if |pool| == 0 then 0
    else LowerCount(pool[..|pool| - 1], m) + (if AtMost(pool[|pool| - 1], m) then 1 else 0)
  }

  /** Number of pool tasks with `size > average`. */
  function HigherCount(pool: seq<int>, m: Mean): nat
  {
    if |pool| == 0 then 0
    else HigherCount(pool[..|pool| - 1], m) + (if AtMost(pool[|pool| - 1], m) then 0 else 1)
  }

  /** The two tests partition the pool: lower + higher is the pool size. */
  lemma {:induction false} CountsComplementary(pool: seq<int>, m: Mean)
    ensures LowerCount(pool, m) + HigherCount(pool, m) == |pool|
    decreases |pool|
  {
    if |pool| > 0 {
      CountsComplementary(pool[..|pool| - 1], m);
    }
  }

  lemma {:induction false} CountsConcat(a: seq<int>, b: seq<int>, m: Mean)
    ensures LowerCount(a + b, m) == LowerCount(a, m) + LowerCount(b, m)
    ensures HigherCount(a + b, m) == HigherCount(a, m) + HigherCount(b, m)
    decreases |b|
  {
    if |b| == 0 {
      assert a + b == a;
    } else {
      assert (a + b)[..|a + b| - 1] == a + b[..|b| - 1];
      CountsConcat(a, b[..|b| - 1], m);
    }
  }

  /**
   * Removing one occurrence of `v` lowers exactly the count on `v`'s side of
   * the mean by one and leaves the other count alone.
   */
  lemma CountsAfterRemoval(pool: seq<int>, v: int, m: Mean)
    requires v in pool
    ensures LowerCount(RemoveFirst(pool, v), m) + (if AtMost(v, m) then 1 else 0) == LowerCount(pool, m)
    ensures HigherCount(RemoveFirst(pool, v), m) + (if AtMost(v, m) then 0 else 1) == HigherCount(pool, m)
  {
    var i := FirstIndexOf(pool, v);
    assert pool == pool[..i] + [v] + pool[i + 1..];
    CountsConcat(pool[..i] + [v], pool[i + 1..], m);
    CountsConcat(pool[..i], [v], m);
    CountsConcat(pool[..i], pool[i + 1..], m);
    assert [v][..0] == [];
  }

  /** The mode test of the loop: max-min mode when lower >= higher. */
  predicate MaxMode(pool: seq<int>, m: Mean)
  {
    LowerCount(pool, m) >= HigherCount(pool, m)
  }

  /** Max-min mode is chosen exactly when at least half of the pool lies at or below the mean. */
  lemma MaxModeIffHalfLower(pool: seq<int>, m: Mean)
    ensures MaxMode(pool, m) <==> 2 * LowerCount(pool, m) >= |pool|
  {
    CountsComplementary(pool, m);
  }

  /**
   * The value one iteration takes from the pool: `Collections.max` in
   * max-min mode, `Collections.min` in min-min mode.
   */
  function Pick(pool: seq<int>, m: Mean): (v: int)
    requires |pool| > 0
    ensures v in pool
    ensures MaxMode(pool, m) ==> forall i :: 0 <= i < |pool| ==> pool[i] <= v
    ensures !MaxMode(pool, m) ==> forall i :: 0 <= i < |pool| ==> v <= pool[i]
  {
    if MaxMode(pool, m) then MaxOf(pool) else MinOf(pool)
  }

  /** On a pool whose tasks all have the same size, either mode takes that size. */
  lemma PickUniform(pool: seq<int>, m: Mean, c: int)
    requires |pool| > 0
    requires forall i :: 0 <= i < |pool| ==> pool[i] == c
    ensures Pick(pool, m) == c
  {
    var v := Pick(pool, m);
    var i :| 0 <= i < |pool| && pool[i] == v;
  }

  /** In max-min mode a task no smaller than every other is the one taken. */
  lemma PickLargest(pool: seq<int>, m: Mean, v: int)
    requires MaxMode(pool, m) && v in pool
    requires forall i :: 0 <= i < |pool| ==> pool[i] <= v
    ensures Pick(pool, m) == v
  {
    var i :| 0 <= i < |pool| && pool[i] == v;
    var j :| 0 <= j < |pool| && pool[j] == Pick(pool, m);
  }

  /** In min-min mode a task no larger than every other is the one taken. */
  lemma PickSmallest(pool: seq<int>, m: Mean, v: int)
    requires !MaxMode(pool, m) && v in pool
    requires forall i :: 0 <= i < |pool| ==> v <= pool[i]
    ensures Pick(pool, m) == v
  {
    var i :| 0 <= i < |pool| && pool[i] == v;
    var j :| 0 <= j < |pool| && pool[j] == Pick(pool, m);
  }

  /** When every task lies at or below the mean, all are "lower" and none "higher". */
  lemma {:induction false} AllAtMostCounts(pool: seq<int>, m: Mean)
    requires forall i :: 0 <= i < |pool| ==> AtMost(pool[i], m)
    ensures LowerCount(pool, m) == |pool| && HigherCount(pool, m) == 0
    decreases |pool|
  {
    if |pool| > 0 {
      AllAtMostCounts(pool[..|pool| - 1], m);
    }
  }

  /** When every task lies above the mean, none are "lower" and all "higher". */
  lemma {:induction false} AllAboveCounts(pool: seq<int>, m: Mean)
    requires forall i :: 0 <= i < |pool| ==> !AtMost(pool[i], m)
    ensures LowerCount(pool, m) == 0 && HigherCount(pool, m) == |pool|
    decreases |pool|
  {
    if |pool| > 0 {
      AllAboveCounts(pool[..|pool| - 1], m);
    }
  }

  /** The worker `addToMinVM` chooses: the lowest index among those of least load. */
  function MinLoadIndex(ws: Assignment): (i: nat)
    requires |ws| > 0
    ensures i < |ws|
    ensures forall j :: 0 <= j < |ws| ==> Sum(ws[i]) <= Sum(ws[j])
    ensures forall j :: 0 <= j < i ==> Sum(ws[i]) < Sum(ws[j])
  {
    FirstMinIndex(LoadsOf(ws))
  }

  /**
   * `addToMinVM`: append `value` to the first least-loaded worker; every
   * other worker is unchanged and the union of tasks grows by `value` alone.
   */
  function AddToMinVM(value: int, ws: Assignment): (r: Assignment)
    requires |ws| > 0
    ensures |r| == |ws|
    ensures r[MinLoadIndex(ws)] == ws[MinLoadIndex(ws)] + [value]
    ensures forall k :: 0 <= k < |ws| && k != MinLoadIndex(ws) ==> r[k] == ws[k]
    ensures AllTasks(r) == AllTasks(ws) + multiset{value}
  {
    var i := MinLoadIndex(ws);
    AllTasksAppendAt(ws, i, value);
    ws[i := ws[i] + [value]]
  }

  /** After `addToMinVM` every worker still starts with the tasks it had. */
  lemma AddToMinVMExtends(value: int, ws: Assignment)
    requires |ws| > 0
    ensures forall k :: 0 <= k < |ws| ==> ws[k] <= AddToMinVM(value, ws)[k]
  {
    var r := AddToMinVM(value, ws);
    forall k | 0 <= k < |ws|
      ensures ws[k] <= r[k]
    {
      if k == MinLoadIndex(ws) {
        assert r[k] == ws[k] + [value];
      }
    }
  }

  /** A worker of least load with every earlier worker strictly heavier is the one chosen. */
  lemma PlaceAt(value: int, ws: Assignment, k: nat)
    requires k < |ws|
    requires forall j :: 0 <= j < |ws| ==> Sum(ws[k]) <= Sum(ws[j])
    requires forall j :: 0 <= j < k ==> Sum(ws[k]) < Sum(ws[j])
    ensures MinLoadIndex(ws) == k
    ensures AddToMinVM(value, ws) == ws[k := ws[k] + [value]]
  {
    var i := MinLoadIndex(ws);
    assert Sum(ws[i]) <= Sum(ws[k]) && Sum(ws[k]) <= Sum(ws[i]);
  }

  /**
   * `addToMinVM` as the source writes it: one pass over the workers, summing
   * each, keeping the first strictly smaller sum, then `vms.get(min_index)`.
   * The initial `Integer.MAX_VALUE` candidate is "no candidate yet", which is
   * what it amounts to when no load overflows.
   */
  method AddToMinVMScan(value: int, ws: Assignment) returns (r: Result<Assignment>)
    ensures |ws| == 0 ==> r == Err(IndexOutOfBounds)
    ensures |ws| > 0 ==> r == Ok(AddToMinVM(value, ws))
  {
    var minSum: Option<int> := None;
    var minIndex := 0;
    var i := 0;
    while i < |ws|
      invariant 0 <= i <= |ws|
      invariant minSum.None? <==> i == 0
      invariant i == 0 ==> minIndex == 0
      invariant i > 0 ==> minIndex < i && minSum.value == Sum(ws[minIndex])
      invariant forall j :: 0 <= j < i ==> Sum(ws[minIndex]) <= Sum(ws[j])
      invariant forall j :: 0 <= j < minIndex ==> Sum(ws[minIndex]) < Sum(ws[j])
    {
      var vm := ws[i];
      var sum := 0;
      var k := 0;
      while k < |vm|
        invariant 0 <= k <= |vm|
        invariant sum == Sum(vm[..k])
      {
        assert vm[..k + 1][..k] == vm[..k];
        sum := sum + vm[k];
        k := k + 1;
      }
      assert vm[..k] == vm;
      if minSum.None? || sum < minSum.value {
        minSum := Some(sum);
        minIndex := i;
      }
      i := i + 1;
    }
    if |ws| == 0 {
      return Err(IndexOutOfBounds);
    }
    assert minIndex == MinLoadIndex(ws) by {
      var m := MinLoadIndex(ws);
      assert Sum(ws[minIndex]) <= Sum(ws[m]);
      assert Sum(ws[m]) <= Sum(ws[minIndex]);
    }
    r := Ok(ws[minIndex := ws[minIndex] + [value]]);
  }

  /**
   * The `while (!taskSizes.isEmpty())` loop: each iteration picks a value,
   * hands it to `addToMinVM` (which fails on an empty worker list) and
   * removes one occurrence of it from the pool.  Each worker ends with its
   * original tasks followed by the ones appended to it, and the union of all
   * tasks grows by exactly the pool.
   */
  function Drain(pool: seq<int>, ws: Assignment, policy: MeanPolicy): (r: Result<Assignment>)
    ensures r.Err? <==> |pool| > 0 && |ws| == 0
    ensures r.Err? ==> r.error == IndexOutOfBounds
    ensures r.Ok? ==> |r.value| == |ws|
    ensures r.Ok? ==> forall k :: 0 <= k < |ws| ==> ws[k] <= r.value[k]
    ensures r.Ok? ==> AllTasks(r.value) == AllTasks(ws) + multiset(pool)
    decreases |pool|
  {
    if |pool| == 0 then Ok(ws)
    else if |ws| == 0 then Err(IndexOutOfBounds)
    else
      var v := Pick(pool, Threshold(policy, pool));
      var ws' := AddToMinVM(v, ws);
      var rest := RemoveFirst(pool, v);
      var r := Drain(rest, ws', policy);
      AddToMinVMExtends(v, ws);
      DrainLink(pool, rest, v, ws, ws', r);
      r
  }

  /** How one iteration composes with the rest of the loop. */
  lemma DrainLink(pool: seq<int>, rest: seq<int>, v: int, ws: Assignment, ws': Assignment, r: Result<Assignment>)
    requires |ws'| == |ws|
    requires forall k :: 0 <= k < |ws| ==> ws[k] <= ws'[k]
    requires AllTasks(ws') == AllTasks(ws) + multiset{v}
    requires multiset(rest) + multiset{v} == multiset(pool)
    requires r.Ok? ==> |r.value| == |ws'|
    requires r.Ok? ==> forall k :: 0 <= k < |ws'| ==> ws'[k] <= r.value[k]
    requires r.Ok? ==> AllTasks(r.value) == AllTasks(ws') + multiset(rest)
    ensures r.Ok? ==> forall k :: 0 <= k < |ws| ==> ws[k] <= r.value[k]
    ensures r.Ok? ==> AllTasks(r.value) == AllTasks(ws) + multiset(pool)
  {
    if r.Ok? {
      forall k | 0 <= k < |ws|
        ensures ws[k] <= r.value[k]
      {
        assert ws[k] <= ws'[k] && ws'[k] <= r.value[k];
      }
    }
  }

  /** One iteration of the loop, given the value it picks. */
  lemma DrainStep(pool: seq<int>, ws: Assignment, policy: MeanPolicy, v: int)
    requires |pool| > 0 && |ws| > 0
    requires Pick(pool, Threshold(policy, pool)) == v
    ensures Drain(pool, ws, policy) == Drain(RemoveFirst(pool, v), AddToMinVM(v, ws), policy)
  {
  }

  /** `vmCount` new empty workers (none when `vmCount <= 0`). */
  function EmptyWorkers(vmCount: int): (ws: Assignment)
    ensures |ws| == (if vmCount > 0 then vmCount else 0)
    ensures forall k :: 0 <= k < |ws| ==> ws[k] == []
    ensures AllTasks(ws) == multiset{}
  {
    if vmCount <= 0 then []
    else
      var ws := EmptyWorkers(vmCount - 1);
      assert (ws + [[]])[..|ws|] == ws;
      ws + [[]]
  }

  /**
   * `HAMM(taskSizes, vmCount)`: `vmCount` workers receive every task exactly
   * once; with no tasks they stay empty; with tasks but no worker the first
   * `vms.get(0)` fails.
   */
  function Allocate(tasks: seq<int>, vmCount: int): (r: Result<Assignment>)
    ensures r.Err? <==> |tasks| > 0 && vmCount <= 0
    ensures r.Ok? ==> |r.value| == (if vmCount > 0 then vmCount else 0)
    ensures r.Ok? ==> AllTasks(r.value) == multiset(tasks)
    ensures |tasks| == 0 ==> r.Ok? && forall k :: 0 <= k < |r.value| ==> r.value[k] == []
  {
    Drain(tasks, EmptyWorkers(vmCount), Recomputed)
  }

  /**
   * The values the loop takes from the pool, in the order it takes them.
   * They are the pool itself, rearranged: one value per iteration, so the
   * loop runs exactly `|pool|` times.
   */
  function SelectionOrder(pool: seq<int>, policy: MeanPolicy): (order: seq<int>)
    ensures |order| == |pool|
    ensures multiset(order) == multiset(pool)
    decreases |pool|
  {
    if |pool| == 0 then []
    else
      var v := Pick(pool, Threshold(policy, pool));
      [v] + SelectionOrder(RemoveFirst(pool, v), policy)
  }

  /** One step of the selection order, given the value picked. */
  lemma SelectionStep(pool: seq<int>, policy: MeanPolicy, v: int)
    requires |pool| > 0
    requires Pick(pool, Threshold(policy, pool)) == v
    ensures SelectionOrder(pool, policy) == [v] + SelectionOrder(RemoveFirst(pool, v), policy)
  {
  }

  /** Hands the values of `order` one after the other to `addToMinVM`. */
  function Distribute(order: seq<int>, ws: Assignment): (r: Assignment)
    requires |ws| > 0
    ensures |r| == |ws|
    decreases |order|
  {
    if |order| == 0 then ws else Distribute(order[1..], AddToMinVM(order[0], ws))
  }

  /**
   * The choice of value never looks at the workers: the allocator is the
   * pool's selection order followed by greedy placement of each value.
   */
  lemma {:induction false} DrainIsDistribute(pool: seq<int>, ws: Assignment, policy: MeanPolicy)
    requires |ws| > 0
    ensures Drain(pool, ws, policy) == Ok(Distribute(SelectionOrder(pool, policy), ws))
    decreases |pool|
  {
    if |pool| > 0 {
      var v := Pick(pool, Threshold(policy, pool));
      DrainIsDistribute(RemoveFirst(pool, v), AddToMinVM(v, ws), policy);
      assert ([v] + SelectionOrder(RemoveFirst(pool, v), policy))[1..] == SelectionOrder(RemoveFirst(pool, v), policy);
    }
  }
}
