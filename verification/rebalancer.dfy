/**
 * The EHAMM rebalancer (`EHAMMSimulation.reschedule` and
 * `highAndLowSplit`).  The workers are split by their mean task size against
 * the mean of all the per-worker means; then, while the "high" list is not
 * empty, the first high worker with the most tasks offers its smallest task
 * to the first "low" worker with the fewest tasks.  The task moves when that
 * strictly narrows the gap between the two loads; otherwise the high worker
 * is appended to the low list for good.  The low list is the result.
 *
 * As in the source, a worker goes to the HIGH list when its mean is BELOW
 * the mean of means (`overallAvg > average`).
 */
module Rebalancer {
  import opened Loads

  /**
   * One worker list during rebalancing; `id` is its position in the input
   * assignment and stands for the identity of the Java list object, which
   * the lists move around by reference.
   */
  datatype Machine = Machine(id: nat, tasks: seq<int>)

  /** The two lists `reschedule` keeps: `highLoad` and `lowLoad`. */
  datatype Phase = Phase(high: seq<Machine>, low: seq<Machine>)

  function TasksOf(ms: seq<Machine>): (ws: Assignment)
    ensures |ws| == |ms|
    ensures forall i :: 0 <= i < |ms| ==> ws[i] == ms[i].tasks
  {
    seq(|ms|, i requires 0 <= i < |ms| => ms[i].tasks)
  }

  function IdsOf(ms: seq<Machine>): (ids: seq<nat>)
    ensures |ids| == |ms|
    ensures forall i :: 0 <= i < |ms| ==> ids[i] == ms[i].id
  {
    seq(|ms|, i requires 0 <= i < |ms| => ms[i].id)
  }

  /** The worker positions 0, 1, ..., n - 1. */
  function Positions(n: nat): (r: seq<nat>)
    ensures |r| == n
    ensures forall i :: 0 <= i < n ==> r[i] == i
  {
    seq(n, i requires 0 <= i < n => i)
  }

  predicate Increasing(s: seq<nat>)
  {
    forall i, j :: 0 <= i < j < |s| ==> s[i] < s[j]
  }

  /** Every task held by either list. */
  function PhaseTasks(p: Phase): multiset<int>
  {
    AllTasks(TasksOf(p.high)) + AllTasks(TasksOf(p.low))
  }

  // ---------------------------------------------------------------------
  // highAndLowSplit

  /** `vm.stream().average().orElse(0.0)`: a worker's mean task size. */
  function WorkerMean(w: Worker): real
  {
    if |w| == 0 then 0.0 else (Sum(w) as real) / (|w| as real)
  }

  function SumOfMeans(ws: Assignment): real
  {
    if |ws| == 0 then 0.0 else SumOfMeans(ws[..|ws| - 1]) + WorkerMean(ws[|ws| - 1])
  }

  /** `overallAvg`: the mean of the per-worker means (0 for no worker). */
  function OverallMean(ws: Assignment): real
  {
    if |ws| == 0 then 0.0 else SumOfMeans(ws) / (|ws| as real)
  }

  /** The split test `overallAvg > average` that sends worker `i` to `highLoad`. */
  predicate IsHigh(ws: Assignment, i: nat)
    requires i < |ws|
  {
    OverallMean(ws) > WorkerMean(ws[i])
  }

  lemma TasksOfConcat(a: seq<Machine>, b: seq<Machine>)
    ensures TasksOf(a + b) == TasksOf(a) + TasksOf(b)
  {
  }

  lemma IdsOfConcat(a: seq<Machine>, b: seq<Machine>)
    ensures IdsOf(a + b) == IdsOf(a) + IdsOf(b)
  {
  }

  /** The verdict of the split test for every worker, in worker order. */
  function HighFlags(ws: Assignment): (f: seq<bool>)
    ensures |f| == |ws|
    ensures forall i :: 0 <= i < |ws| ==> f[i] == IsHigh(ws, i)
  {
    seq(|ws|, i requires 0 <= i < |ws| => IsHigh(ws, i))
  }

  /** The split loop after its first `k` iterations, over workers 0 .. k - 1. */
  function SplitPrefix(ws: Assignment, flags: seq<bool>, k: nat): (p: Phase)
    requires |flags| == |ws| && k <= |ws|
    ensures |p.high| + |p.low| == k
  {
    if k == 0 then Phase([], [])
    else
      var p := SplitPrefix(ws, flags, k - 1);
      var m := Machine(k - 1, ws[k - 1]);
      if flags[k - 1] then Phase(p.high + [m], p.low) else Phase(p.high, p.low + [m])
  }

  /**
   * After `k` iterations each list holds workers below `k`, with their tasks,
   * in the list their flag names, in increasing position.
   */
  lemma {:induction false} SplitPrefixShape(ws: Assignment, flags: seq<bool>, k: nat)
    requires |flags| == |ws| && k <= |ws|
    ensures forall j :: 0 <= j < |SplitPrefix(ws, flags, k).high| ==>
              var m := SplitPrefix(ws, flags, k).high[j]; m.id < k && m.tasks == ws[m.id] && flags[m.id]
    ensures forall j :: 0 <= j < |SplitPrefix(ws, flags, k).low| ==>
              var m := SplitPrefix(ws, flags, k).low[j]; m.id < k && m.tasks == ws[m.id] && !flags[m.id]
    ensures Increasing(IdsOf(SplitPrefix(ws, flags, k).high))
    ensures Increasing(IdsOf(SplitPrefix(ws, flags, k).low))
    decreases k
  {
    if k > 0 {
      SplitPrefixShape(ws, flags, k - 1);
      var p := SplitPrefix(ws, flags, k - 1);
      var m := Machine(k - 1, ws[k - 1]);
      if flags[k - 1] {
        assert SplitPrefix(ws, flags, k) == Phase(p.high + [m], p.low);
        IdsOfConcat(p.high, [m]);
      } else {
        assert SplitPrefix(ws, flags, k) == Phase(p.high, p.low + [m]);
        IdsOfConcat(p.low, [m]);
      }
    }
  }

  /** Appending one more machine to either list adds its id to the combined ids. */
  lemma IdsAppendOne(p: Phase, q: Phase, m: Machine, toHigh: bool)
    requires q == if toHigh then Phase(p.high + [m], p.low) else Phase(p.high, p.low + [m])
    ensures multiset(IdsOf(q.high) + IdsOf(q.low)) == multiset(IdsOf(p.high) + IdsOf(p.low)) + multiset{m.id}
  {
    assert IdsOf([m]) == [m.id];
    if toHigh {
      IdsOfConcat(p.high, [m]);
    } else {
      IdsOfConcat(p.low, [m]);
    }
  }

  lemma PositionsSnoc(k: nat)
    requires k > 0
    ensures multiset(Positions(k)) == multiset(Positions(k - 1)) + multiset{(k - 1) as nat}
  {
    assert Positions(k) == Positions(k - 1) + [k - 1];
  }

  /** The two lists together hold each of the first `k` positions exactly once. */
  lemma {:induction false} SplitPrefixIds(ws: Assignment, flags: seq<bool>, k: nat)
    requires |flags| == |ws| && k <= |ws|
    ensures multiset(IdsOf(SplitPrefix(ws, flags, k).high) + IdsOf(SplitPrefix(ws, flags, k).low)) == multiset(Positions(k))
    decreases k
  {
    if k > 0 {
      var p, q := SplitPrefix(ws, flags, k - 1), SplitPrefix(ws, flags, k);
      calc {
        multiset(IdsOf(q.high) + IdsOf(q.low));
        { IdsAppendOne(p, q, Machine(k - 1, ws[k - 1]), flags[k - 1]); }
        multiset(IdsOf(p.high) + IdsOf(p.low)) + multiset{(k - 1) as nat};
        { SplitPrefixIds(ws, flags, k - 1); }
        multiset(Positions(k - 1)) + multiset{(k - 1) as nat};
        { PositionsSnoc(k); }
        multiset(Positions(k));
      }
    } else {
      assert IdsOf(SplitPrefix(ws, flags, 0).high) == [];
      assert IdsOf(SplitPrefix(ws, flags, 0).low) == [];
      assert Positions(0) == [];
    }
  }

  /** Appending one more machine to either list adds exactly its tasks. */
  lemma TasksAppendOne(p: Phase, q: Phase, m: Machine, toHigh: bool)
    requires q == if toHigh then Phase(p.high + [m], p.low) else Phase(p.high, p.low + [m])
    ensures PhaseTasks(q) == PhaseTasks(p) + multiset(m.tasks)
  {
    assert TasksOf([m]) == [m.tasks];
    assert AllTasks([m.tasks]) == multiset(m.tasks) by {
      assert [m.tasks][..0] == [];
    }
    if toHigh {
      TasksOfConcat(p.high, [m]);
      AllTasksConcat(TasksOf(p.high), [m.tasks]);
    } else {
      TasksOfConcat(p.low, [m]);
      AllTasksConcat(TasksOf(p.low), [m.tasks]);
    }
  }

  /** The first `k` workers' tasks, one worker more than the first `k - 1`. */
  lemma AllTasksPrefixSnoc(ws: Assignment, k: nat)
    requires 0 < k <= |ws|
    ensures AllTasks(ws[..k]) == AllTasks(ws[..k - 1]) + multiset(ws[k - 1])
  {
    assert ws[..k][..k - 1] == ws[..k - 1];
  }

  /** The two lists together hold exactly the tasks of the first `k` workers. */
  lemma {:induction false} SplitPrefixTasks(ws: Assignment, flags: seq<bool>, k: nat)
    requires |flags| == |ws| && k <= |ws|
    ensures PhaseTasks(SplitPrefix(ws, flags, k)) == AllTasks(ws[..k])
    decreases k
  {
    if k > 0 {
      SplitPrefixTasks(ws, flags, k - 1);
      AllTasksPrefixSnoc(ws, k);
      TasksAppendOne(SplitPrefix(ws, flags, k - 1), SplitPrefix(ws, flags, k), Machine(k - 1, ws[k - 1]), flags[k - 1]);
    }
  }

  /** `highAndLowSplit(vms, highLoad, lowLoad)`. */
  function Split(ws: Assignment): Phase
  {
    SplitPrefix(ws, HighFlags(ws), |ws|)
  }

  /**
   * `highAndLowSplit` places worker `i` in `highLoad` exactly when its mean
   * is below the mean of means, and in `lowLoad` otherwise; each list keeps
   * input order and every worker appears in exactly one of them, with its
   * tasks.
   */
  lemma SplitPlacesEveryWorker(ws: Assignment)
    ensures |Split(ws).high| + |Split(ws).low| == |ws|
    ensures forall i :: 0 <= i < |ws| && IsHigh(ws, i) ==> Machine(i, ws[i]) in Split(ws).high
    ensures forall i :: 0 <= i < |ws| && !IsHigh(ws, i) ==> Machine(i, ws[i]) in Split(ws).low
    ensures forall m :: m in Split(ws).high ==> m.id < |ws| && m.tasks == ws[m.id] && IsHigh(ws, m.id)
    ensures forall m :: m in Split(ws).low ==> m.id < |ws| && m.tasks == ws[m.id] && !IsHigh(ws, m.id)
    ensures Increasing(IdsOf(Split(ws).high)) && Increasing(IdsOf(Split(ws).low))
  {
    var flags := HighFlags(ws);
    var p := Split(ws);
    SplitPrefixIds(ws, flags, |ws|);
    SplitPrefixShape(ws, flags, |ws|);
    forall i | 0 <= i < |ws|
      ensures IsHigh(ws, i) ==> Machine(i, ws[i]) in p.high
      ensures !IsHigh(ws, i) ==> Machine(i, ws[i]) in p.low
    {
      assert Positions(|ws|)[i] == i;
      assert i in multiset(IdsOf(p.high) + IdsOf(p.low));
      if i in IdsOf(p.high) {
        var j :| 0 <= j < |p.high| && IdsOf(p.high)[j] == i;
        assert p.high[j] == Machine(i, ws[i]);
      } else {
        var j :| 0 <= j < |p.low| && IdsOf(p.low)[j] == i;
        assert p.low[j] == Machine(i, ws[i]);
      }
    }
  }

  lemma {:induction false} SumOfMeansBelow(ws: Assignment, c: real)
    requires |ws| > 0
    requires forall i :: 0 <= i < |ws| ==> WorkerMean(ws[i]) < c
    ensures SumOfMeans(ws) < (|ws| as real) * c
    decreases |ws|
  {
    if |ws| > 1 {
      SumOfMeansBelow(ws[..|ws| - 1], c);
    }
  }

  /** Some worker's mean is at least the mean of means, so it is not high. */
  lemma SomeWorkerNotHigh(ws: Assignment)
    requires |ws| > 0
    ensures exists i :: 0 <= i < |ws| && !IsHigh(ws, i)
  {
    if forall i :: 0 <= i < |ws| ==> IsHigh(ws, i) {
      var n := |ws| as real;
      forall i | 0 <= i < |ws|
        ensures WorkerMean(ws[i]) < OverallMean(ws)
      {
        assert IsHigh(ws, i);
      }
      SumOfMeansBelow(ws, OverallMean(ws));
      assert false;
    }
  }

  /** With at least one worker the split leaves `lowLoad` non-empty. */
  lemma SplitLowNonEmpty(ws: Assignment)
    requires |ws| > 0
    ensures |Split(ws).low| > 0
  {
    SomeWorkerNotHigh(ws);
    SplitPlacesEveryWorker(ws);
    var i :| 0 <= i < |ws| && !IsHigh(ws, i);
    assert Machine(i, ws[i]) in Split(ws).low;
  }

  lemma {:induction false} SumOfMeansConstant(ws: Assignment, c: real)
    requires forall i :: 0 <= i < |ws| ==> WorkerMean(ws[i]) == c
    ensures SumOfMeans(ws) == (|ws| as real) * c
    decreases |ws|
  {
    if |ws| > 0 {
      SumOfMeansConstant(ws[..|ws| - 1], c);
    }
  }

  /** When all workers have the same mean task size, none of them is high. */
  lemma UniformMeansNoneHigh(ws: Assignment)
    requires forall i, j :: 0 <= i < |ws| && 0 <= j < |ws| ==> WorkerMean(ws[i]) == WorkerMean(ws[j])
    ensures forall i :: 0 <= i < |ws| ==> !IsHigh(ws, i)
  {
    if |ws| > 0 {
      SumOfMeansConstant(ws, WorkerMean(ws[0]));
    }
  }

  // ---------------------------------------------------------------------
  // reschedule

  /** The loop's termination measure: tasks on high workers plus high workers. */
  function Measure(p: Phase): nat
  {
    |AllTasks(TasksOf(p.high))| + |p.high|
  }

  /** `Collections.max(highLoad, comparing(List::size))`: the first high worker of most tasks. */
  function Source(high: seq<Machine>): (h: nat)
    requires |high| > 0
    ensures h < |high|
    ensures forall j :: 0 <= j < |high| ==> |high[j].tasks| <= |high[h].tasks|
    ensures forall j :: 0 <= j < h ==> |high[j].tasks| < |high[h].tasks|
  {
    FirstMaxIndex(Sizes(TasksOf(high)))
  }

  /** `Collections.min(lowLoad, comparing(List::size))`: the first low worker of fewest tasks. */
  function Target(low: seq<Machine>): (l: nat)
    requires |low| > 0
    ensures l < |low|
    ensures forall j :: 0 <= j < |low| ==> |low[l].tasks| <= |low[j].tasks|
    ensures forall j :: 0 <= j < l ==> |low[l].tasks| < |low[j].tasks|
  {
    FirstMinIndex(Sizes(TasksOf(low)))
  }

  function Abs(x: int): nat
  {
    if x < 0 then -x else x
  }

  /**
   * The migration test: the gap between the source load `hi` and the target
   * load `lo` is strictly larger than it would be after moving `t`.
   */
  predicate ShouldMigrate(hi: int, lo: int, t: int)
  {
    Abs(hi - lo) > Abs((hi - t) - (lo + t))
  }

  /**
   * The test in closed form: a positive task moves exactly when the source
   * leads the target by more than the task, a negative one exactly when the
   * source trails by more than its magnitude, and a zero task never moves.
   */
  lemma MigrationTest(hi: int, lo: int, t: int)
    ensures ShouldMigrate(hi, lo, t) <==> (t > 0 && hi - lo > t) || (t < 0 && hi - lo < t)
  {
  }

  /**
   * Moving task `t` from high worker `h` to low worker `l`: one occurrence
   * of `t` leaves the source, `t` is appended to the target, and no other
   * worker changes.
   */
  function Migrate(p: Phase, h: nat, l: nat, t: int): (q: Phase)
    requires h < |p.high| && l < |p.low|
    ensures |q.high| == |p.high| && |q.low| == |p.low|
    ensures IdsOf(q.high) == IdsOf(p.high) && IdsOf(q.low) == IdsOf(p.low)
    ensures t in p.high[h].tasks ==> multiset(q.high[h].tasks) + multiset{t} == multiset(p.high[h].tasks)
    ensures q.low[l].tasks == p.low[l].tasks + [t]
    ensures forall j :: 0 <= j < |p.high| && j != h ==> q.high[j] == p.high[j]
    ensures forall j :: 0 <= j < |p.low| && j != l ==> q.low[j] == p.low[j]
  {
    var src := p.high[h];
    var dst := p.low[l];
    Phase(p.high[h := Machine(src.id, RemoveFirst(src.tasks, t))],
          p.low[l := Machine(dst.id, dst.tasks + [t])])
  }

  /** A migration keeps every task and takes exactly one off the high workers. */
  lemma MigrateConserves(p: Phase, h: nat, l: nat, t: int)
    requires h < |p.high| && l < |p.low|
    requires t in p.high[h].tasks
    ensures PhaseTasks(Migrate(p, h, l, t)) == PhaseTasks(p)
    ensures Measure(Migrate(p, h, l, t)) + 1 == Measure(p)
  {
    var q := Migrate(p, h, l, t);
    assert TasksOf(q.high) == TasksOf(p.high)[h := q.high[h].tasks];
    assert TasksOf(q.low) == TasksOf(p.low)[l := p.low[l].tasks + [t]];
    AllTasksUpdate(TasksOf(p.high), h, q.high[h].tasks);
    AllTasksAppendAt(TasksOf(p.low), l, t);
    var before, after := AllTasks(TasksOf(p.high)), AllTasks(TasksOf(q.high));
    assert after + multiset(p.high[h].tasks) == before + multiset(q.high[h].tasks);
    assert after + multiset{t} == before by {
      forall x
        ensures (after + multiset{t})[x] == before[x]
      {
        assert (after + multiset(p.high[h].tasks))[x] == (before + multiset(q.high[h].tasks))[x];
      }
    }
  }

  /** A migration that passes the test narrows the gap between the two loads. */
  lemma MigrateNarrowsGap(p: Phase, h: nat, l: nat, t: int)
    requires h < |p.high| && l < |p.low|
    requires t in p.high[h].tasks
    requires ShouldMigrate(Sum(p.high[h].tasks), Sum(p.low[l].tasks), t)
    ensures Sum(Migrate(p, h, l, t).high[h].tasks) == Sum(p.high[h].tasks) - t
    ensures Sum(Migrate(p, h, l, t).low[l].tasks) == Sum(p.low[l].tasks) + t
    ensures var q := Migrate(p, h, l, t);
      Abs(Sum(q.high[h].tasks) - Sum(q.low[l].tasks)) < Abs(Sum(p.high[h].tasks) - Sum(p.low[l].tasks))
  {
    SumConcat(p.low[l].tasks, [t]);
    SumSingleton(t);
  }

  /**
   * `List.remove(Object)` on a list of worker lists: the position of the
   * first list whose contents equal `w` (Java's `List.equals`).
   */
  function FirstWithTasks(ms: seq<Machine>, w: seq<int>): (k: nat)
    requires exists j :: 0 <= j < |ms| && ms[j].tasks == w
    ensures k < |ms| && ms[k].tasks == w
    ensures forall j :: 0 <= j < k ==> ms[j].tasks != w
  {
    if ms[0].tasks == w then 0
    else
      assert exists j :: 0 <= j < |ms[1..]| && ms[1..][j].tasks == w by {
        var j :| 0 <= j < |ms| && ms[j].tasks == w;
        assert ms[1..][j - 1].tasks == w;
      }
      FirstWithTasks(ms[1..], w) + 1
  }

  /**
   * Demoting high worker `h`: `lowLoad.add(highLoadMachine)` appends it, as
   * it is, to `lowLoad`, and `highLoad.remove(highLoadMachine)` drops the
   * first high list with the same contents.  When no earlier high list has
   * those contents, as holds for the selected worker, that is `h` itself and
   * the other high workers keep their order.
   */
  function Demote(p: Phase, h: nat): (q: Phase)
    requires h < |p.high|
    ensures q.low == p.low + [p.high[h]]
    ensures (forall j :: 0 <= j < h ==> p.high[j].tasks != p.high[h].tasks) ==>
              q.high == p.high[..h] + p.high[h + 1..]
  {
    var k := FirstWithTasks(p.high, p.high[h].tasks);
    assert (forall j :: 0 <= j < h ==> p.high[j].tasks != p.high[h].tasks) ==> k == h;
    Phase(p.high[..k] + p.high[k + 1..], p.low + [p.high[h]])
  }

  /** Dropping the worker at position `h` drops exactly its tasks. */
  lemma RemoveAtTasks(ms: seq<Machine>, h: nat)
    requires h < |ms|
    ensures AllTasks(TasksOf(ms[..h] + ms[h + 1..])) + multiset(ms[h].tasks) == AllTasks(TasksOf(ms))
  {
    TasksOfConcat(ms[..h], ms[h + 1..]);
    assert TasksOf(ms[..h] + ms[h + 1..]) == TasksOf(ms)[..h] + TasksOf(ms)[h + 1..];
    AllTasksRemoveAt(TasksOf(ms), h);
  }

  /** Appending a worker adds exactly its tasks. */
  lemma AppendTasks(ms: seq<Machine>, m: Machine)
    ensures AllTasks(TasksOf(ms + [m])) == AllTasks(TasksOf(ms)) + multiset(m.tasks)
  {
    TasksOfConcat(ms, [m]);
    assert TasksOf([m]) == [m.tasks];
    AllTasksConcat(TasksOf(ms), [m.tasks]);
    assert [m.tasks][..0] == [];
  }

  /** Dropping the worker at position `h` drops exactly its id. */
  lemma RemoveAtIds(ms: seq<Machine>, h: nat)
    requires h < |ms|
    ensures multiset(IdsOf(ms[..h] + ms[h + 1..])) + multiset{ms[h].id} == multiset(IdsOf(ms))
  {
    IdsOfConcat(ms[..h], ms[h + 1..]);
    assert ms == ms[..h] + [ms[h]] + ms[h + 1..];
    IdsOfConcat(ms[..h] + [ms[h]], ms[h + 1..]);
    IdsOfConcat(ms[..h], [ms[h]]);
    assert IdsOf([ms[h]]) == [ms[h].id];
  }

  lemma DemoteKeepsTasks(p: Phase)
    requires |p.high| > 0
    ensures PhaseTasks(Demote(p, Source(p.high))) == PhaseTasks(p)
    ensures Measure(Demote(p, Source(p.high))) < Measure(p)
  {
    var h := Source(p.high);
    var q := Demote(p, h);
    var t := multiset(p.high[h].tasks);
    DemoteSourceShape(p);
    RemoveAtTasks(p.high, h);
    AppendTasks(p.low, p.high[h]);
    var hi, lo := AllTasks(TasksOf(q.high)), AllTasks(TasksOf(p.low));
    assert hi + t == AllTasks(TasksOf(p.high));
    assert AllTasks(TasksOf(q.low)) == lo + t;
    assert |hi| <= |AllTasks(TasksOf(p.high))|;
  }

  lemma DemoteKeepsIds(p: Phase)
    requires |p.high| > 0
    ensures var q := Demote(p, Source(p.high));
      multiset(IdsOf(q.high) + IdsOf(q.low)) == multiset(IdsOf(p.high) + IdsOf(p.low))
    ensures IdsOf(Demote(p, Source(p.high)).low) == IdsOf(p.low) + [p.high[Source(p.high)].id]
  {
    var h := Source(p.high);
    DemoteSourceShape(p);
    RemoveAtIds(p.high, h);
    IdsOfConcat(p.low, [p.high[h]]);
    assert IdsOf([p.high[h]]) == [p.high[h].id];
  }

  /** Demoting the selected worker drops it at its own position, keeps every task and every worker and lowers the measure. */
  lemma DemoteConserves(p: Phase, h: nat)
    requires |p.high| > 0 && h == Source(p.high)
    ensures PhaseTasks(Demote(p, h)) == PhaseTasks(p)
    ensures multiset(IdsOf(Demote(p, h).high) + IdsOf(Demote(p, h).low)) == multiset(IdsOf(p.high) + IdsOf(p.low))
    ensures IdsOf(Demote(p, h).low) == IdsOf(p.low) + [p.high[h].id]
    ensures Measure(Demote(p, h)) < Measure(p)
    ensures Demote(p, h).high == p.high[..h] + p.high[h + 1..]
  {
    DemoteKeepsTasks(p);
    DemoteKeepsIds(p);
    DemoteSourceShape(p);
  }

  /**
   * One iteration of the `while (!highLoad.isEmpty())` loop.  It fails with
   * `NoSuchElement` when the selected high worker has no task
   * (`Collections.min` on it) or when `lowLoad` is empty.
   */
  function Step(p: Phase): (r: Result<Phase>)
    requires |p.high| > 0
    ensures r.Err? <==> |p.high[Source(p.high)].tasks| == 0 || |p.low| == 0
    ensures r.Err? ==> r.error == NoSuchElement
    ensures r.Ok? ==> Measure(r.value) < Measure(p)
    ensures r.Ok? ==> PhaseTasks(r.value) == PhaseTasks(p)
    ensures r.Ok? ==> multiset(IdsOf(r.value.high) + IdsOf(r.value.low)) == multiset(IdsOf(p.high) + IdsOf(p.low))
    ensures r.Ok? ==> IdsOf(p.low) <= IdsOf(r.value.low)
  {
    var h := Source(p.high);
    var src := p.high[h];
    if |src.tasks| == 0 then Err(NoSuchElement)
    else if |p.low| == 0 then Err(NoSuchElement)
    else
      var t := MinOf(src.tasks);
      var l := Target(p.low);
      if ShouldMigrate(Sum(src.tasks), Sum(p.low[l].tasks), t) then
        MigrateConserves(p, h, l, t);
        Ok(Migrate(p, h, l, t))
      else
        DemoteConserves(p, h);
        Ok(Demote(p, h))
  }

  /**
   * The whole loop.  It ends because every iteration lowers `Measure`; on
   * success it returns `lowLoad`, which by then holds every worker: the
   * initially low ones first, in their order, then the demoted ones.
   */
  function Reschedule(p: Phase): (r: Result<seq<Machine>>)
    ensures r.Ok? ==> AllTasks(TasksOf(r.value)) == PhaseTasks(p)
    ensures r.Ok? ==> multiset(IdsOf(r.value)) == multiset(IdsOf(p.high) + IdsOf(p.low))
    ensures r.Ok? ==> IdsOf(p.low) <= IdsOf(r.value)
    decreases Measure(p)
  {
    if |p.high| == 0 then
      assert IdsOf(p.high) + IdsOf(p.low) == IdsOf(p.low);
      assert TasksOf(p.high) == [];
      Ok(p.low)
    else
      match Step(p)
      case Err(e) => Err(e)
      case Ok(q) => Reschedule(q)
  }

  /** `reschedule(vms)`, keeping track of which input worker each output list is. */
  function RebalanceMachines(vms: Assignment): (r: Result<seq<Machine>>)
    ensures r.Ok? ==> multiset(IdsOf(r.value)) == multiset(Positions(|vms|))
    ensures r.Ok? ==> IdsOf(Split(vms).low) <= IdsOf(r.value)
    ensures r.Ok? ==> AllTasks(TasksOf(r.value)) == AllTasks(vms)
  {
    SplitPrefixIds(vms, HighFlags(vms), |vms|);
    SplitPrefixTasks(vms, HighFlags(vms), |vms|);
    assert vms[..|vms|] == vms;
    Reschedule(Split(vms))
  }

  /**
   * `reschedule(vms)`: as many workers as `vms`, holding between them
   * exactly the tasks of `vms`.
   */
  function Rebalance(vms: Assignment): (r: Result<Assignment>)
    ensures r.Ok? ==> |r.value| == |vms|
    ensures r.Ok? ==> AllTasks(r.value) == AllTasks(vms)
  {
    match RebalanceMachines(vms)
    case Err(e) => Err(e)
    case Ok(ms) =>
      assert |multiset(IdsOf(ms))| == |multiset(Positions(|vms|))|;
      Ok(TasksOf(ms))
  }

  // ---------------------------------------------------------------------
  // When reschedule fails

  predicate AllNonNegative(ms: seq<Machine>)
  {
    forall j :: 0 <= j < |ms| ==> NonNegative(ms[j].tasks)
  }

  predicate HasIdleWorker(ms: seq<Machine>)
  {
    exists j :: 0 <= j < |ms| && |ms[j].tasks| == 0
  }

  /** With non-negative tasks a worker holding one task never gives it away. */
  lemma SingleTaskStays(tasks: seq<int>, lo: int)
    requires |tasks| == 1 && NonNegative(tasks) && lo >= 0
    ensures !ShouldMigrate(Sum(tasks), lo, MinOf(tasks))
  {
    assert tasks == [tasks[0]];
    SumSingleton(tasks[0]);
    MigrationTest(Sum(tasks), lo, MinOf(tasks));
  }

  /** With non-negative tasks, only a worker with two or more tasks passes the migration test. */
  lemma MigrationNeedsTwoTasks(src: seq<int>, lo: int)
    requires |src| > 0 && NonNegative(src) && lo >= 0
    requires ShouldMigrate(Sum(src), lo, MinOf(src))
    ensures |src| >= 2
  {
    if |src| == 1 {
      SingleTaskStays(src, lo);
    }
  }

  lemma MigrateKeepsNonNegative(p: Phase, h: nat, l: nat, t: int)
    requires h < |p.high| && l < |p.low| && t >= 0
    requires AllNonNegative(p.high) && AllNonNegative(p.low)
    ensures AllNonNegative(Migrate(p, h, l, t).high) && AllNonNegative(Migrate(p, h, l, t).low)
  {
    var q := Migrate(p, h, l, t);
    NonNegativeRemoveFirst(p.high[h].tasks, t);
    assert q.high[h].tasks == RemoveFirst(p.high[h].tasks, t);
    assert forall j :: 0 <= j < |q.high| && j != h ==> q.high[j] == p.high[j];
    assert NonNegative(q.low[l].tasks);
  }

  lemma MigrateKeepsIdleSet(p: Phase, h: nat, l: nat, t: int)
    requires h < |p.high| && l < |p.low|
    requires |p.high[h].tasks| > 0 && |Migrate(p, h, l, t).high[h].tasks| > 0
    ensures HasIdleWorker(Migrate(p, h, l, t).high) <==> HasIdleWorker(p.high)
  {
    var q := Migrate(p, h, l, t);
    if HasIdleWorker(p.high) {
      var j :| 0 <= j < |p.high| && |p.high[j].tasks| == 0;
      assert |q.high[j].tasks| == 0;
    }
    if HasIdleWorker(q.high) {
      var j :| 0 <= j < |q.high| && |q.high[j].tasks| == 0;
      assert |p.high[j].tasks| == 0;
    }
  }

  /**
   * A migration that passes the test keeps the tasks non-negative, keeps
   * `lowLoad` non-empty and leaves the source worker non-empty, so it
   * neither creates nor removes an empty high worker.
   */
  lemma MigrateKeepsIdleWorkers(p: Phase)
    requires |p.high| > 0 && |p.low| > 0
    requires AllNonNegative(p.high) && AllNonNegative(p.low)
    requires |p.high[Source(p.high)].tasks| > 0
    requires var src := p.high[Source(p.high)].tasks;
      ShouldMigrate(Sum(src), Sum(p.low[Target(p.low)].tasks), MinOf(src))
    ensures var q := Migrate(p, Source(p.high), Target(p.low), MinOf(p.high[Source(p.high)].tasks));
      && AllNonNegative(q.high) && AllNonNegative(q.low) && |q.low| > 0
      && (HasIdleWorker(q.high) <==> HasIdleWorker(p.high))
  {
    var h, l := Source(p.high), Target(p.low);
    var src := p.high[h].tasks;
    var t := MinOf(src);
    SumNonNegative(p.low[l].tasks);
    MigrationNeedsTwoTasks(src, Sum(p.low[l].tasks));
    assert t >= 0;
    MigrateKeepsNonNegative(p, h, l, t);
    MigrateKeepsIdleSet(p, h, l, t);
  }

  lemma DemoteKeepsNonNegative(p: Phase, h: nat)
    requires h < |p.high|
    requires AllNonNegative(p.high) && AllNonNegative(p.low)
    ensures AllNonNegative(Demote(p, h).high) && AllNonNegative(Demote(p, h).low)
  {
    var q := Demote(p, h);
    var k := FirstWithTasks(p.high, p.high[h].tasks);
    assert q.high == p.high[..k] + p.high[k + 1..];
    assert forall j :: 0 <= j < |q.high| ==> q.high[j] == if j < k then p.high[j] else p.high[j + 1];
  }

  /** The selected source is dropped at its own position. */
  lemma DemoteSourceShape(p: Phase)
    requires |p.high| > 0
    ensures Demote(p, Source(p.high)).high == p.high[..Source(p.high)] + p.high[Source(p.high) + 1..]
  {
    var h := Source(p.high);
    assert forall j :: 0 <= j < h ==> |p.high[j].tasks| < |p.high[h].tasks|;
  }

  lemma DroppingBusyKeepsIdleSet(ms: seq<Machine>, h: nat)
    requires h < |ms| && |ms[h].tasks| > 0
    ensures HasIdleWorker(ms[..h] + ms[h + 1..]) <==> HasIdleWorker(ms)
  {
    var rest := ms[..h] + ms[h + 1..];
    if HasIdleWorker(rest) {
      var j :| 0 <= j < |rest| && |rest[j].tasks| == 0;
      if j < h {
        assert |ms[j].tasks| == 0;
      } else {
        assert |ms[j + 1].tasks| == 0;
      }
    }
    if HasIdleWorker(ms) {
      var j :| 0 <= j < |ms| && |ms[j].tasks| == 0;
      if j < h {
        assert |rest[j].tasks| == 0;
      } else {
        assert |rest[j - 1].tasks| == 0;
      }
    }
  }

  lemma DemoteKeepsIdleSet(p: Phase)
    requires |p.high| > 0
    requires |p.high[Source(p.high)].tasks| > 0
    ensures HasIdleWorker(Demote(p, Source(p.high)).high) <==> HasIdleWorker(p.high)
  {
    DemoteSourceShape(p);
    DroppingBusyKeepsIdleSet(p.high, Source(p.high));
  }

  /**
   * With non-negative tasks and a non-empty `lowLoad`, the loop fails exactly
   * when some high worker is empty: migrations never empty a worker, and an
   * empty high worker stays high until it is selected, which is when
   * `Collections.min` fails on it.
   */
  lemma {:induction false} RescheduleFailsIff(p: Phase)
    requires AllNonNegative(p.high) && AllNonNegative(p.low)
    requires |p.low| > 0
    ensures Reschedule(p).Err? <==> HasIdleWorker(p.high)
    decreases Measure(p)
  {
    if |p.high| > 0 {
      var h := Source(p.high);
      if |p.high[h].tasks| > 0 {
        var src := p.high[h].tasks;
        var l := Target(p.low);
        if ShouldMigrate(Sum(src), Sum(p.low[l].tasks), MinOf(src)) {
          MigrateKeepsIdleWorkers(p);
        } else {
          DemoteKeepsNonNegative(p, h);
          DemoteKeepsIdleSet(p);
        }
        RescheduleFailsIff(Step(p).value);
      }
    }
  }

  /** Splitting keeps the tasks non-negative. */
  lemma SplitNonNegative(vms: Assignment)
    requires forall i :: 0 <= i < |vms| ==> NonNegative(vms[i])
    ensures AllNonNegative(Split(vms).high) && AllNonNegative(Split(vms).low)
  {
    var p := Split(vms);
    SplitPlacesEveryWorker(vms);
    forall j | 0 <= j < |p.high|
      ensures NonNegative(p.high[j].tasks)
    {
      assert p.high[j] in p.high;
    }
    forall j | 0 <= j < |p.low|
      ensures NonNegative(p.low[j].tasks)
    {
      assert p.low[j] in p.low;
    }
  }

  /** An empty worker is high exactly when the mean of means is positive. */
  lemma SplitIdleHighIff(vms: Assignment)
    ensures HasIdleWorker(Split(vms).high) <==> (exists i :: 0 <= i < |vms| && vms[i] == []) && OverallMean(vms) > 0.0
  {
    var p := Split(vms);
    SplitPlacesEveryWorker(vms);
    if HasIdleWorker(p.high) {
      var j :| 0 <= j < |p.high| && |p.high[j].tasks| == 0;
      assert p.high[j] in p.high;
      assert vms[p.high[j].id] == [];
    }
    if (exists i :: 0 <= i < |vms| && vms[i] == []) && OverallMean(vms) > 0.0 {
      var i :| 0 <= i < |vms| && vms[i] == [];
      assert IsHigh(vms, i);
      var m := Machine(i, vms[i]);
      assert m in p.high;
      var j :| 0 <= j < |p.high| && p.high[j] == m;
      assert |p.high[j].tasks| == 0;
    }
  }

  /**
   * With non-negative tasks, `reschedule` fails (a `NoSuchElementException`
   * from `Collections.min`) exactly when some worker is empty and the mean
   * of the per-worker means is positive, because an empty worker's mean is
   * 0 and so it is classified high.
   */
  lemma RebalanceFailsIff(vms: Assignment)
    requires forall i :: 0 <= i < |vms| ==> NonNegative(vms[i])
    ensures Rebalance(vms).Err? <==> (exists i :: 0 <= i < |vms| && vms[i] == []) && OverallMean(vms) > 0.0
  {
    var p := Split(vms);
    SplitIdleHighIff(vms);
    if |vms| == 0 {
      assert p == Phase([], []);
    } else {
      SplitLowNonEmpty(vms);
      SplitNonNegative(vms);
      RescheduleFailsIff(p);
    }
  }

  // ---------------------------------------------------------------------
  // Assignments reschedule leaves alone

  /** Each worker tagged with its own position. */
  function Labelled(ws: Assignment): (ms: seq<Machine>)
    ensures |ms| == |ws|
    ensures TasksOf(ms) == ws
  {
    seq(|ws|, i requires 0 <= i < |ws| => Machine(i, ws[i]))
  }

  lemma {:induction false} SplitPrefixAllLow(ws: Assignment, flags: seq<bool>, k: nat)
    requires |flags| == |ws| && k <= |ws|
    requires forall i :: 0 <= i < k ==> !flags[i]
    ensures SplitPrefix(ws, flags, k) == Phase([], Labelled(ws)[..k])
    decreases k
  {
    if k > 0 {
      SplitPrefixAllLow(ws, flags, k - 1);
      assert Labelled(ws)[..k] == Labelled(ws)[..k - 1] + [Machine(k - 1, ws[k - 1])];
    }
  }

  /**
   * An assignment whose workers all have the same mean task size (in
   * particular one whose tasks are all equal) has no high worker, so
   * `reschedule` returns it unchanged.
   */
  lemma UniformAssignmentUnchanged(vms: Assignment)
    requires forall i, j :: 0 <= i < |vms| && 0 <= j < |vms| ==> WorkerMean(vms[i]) == WorkerMean(vms[j])
    ensures Rebalance(vms) == Ok(vms)
  {
    UniformMeansNoneHigh(vms);
    SplitPrefixAllLow(vms, HighFlags(vms), |vms|);
    assert Labelled(vms)[..|vms|] == Labelled(vms);
    assert Reschedule(Split(vms)) == Ok(Labelled(vms));
  }
}
