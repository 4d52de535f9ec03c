# HAMM / EHAMM task scheduling, modelled in Dafny

This project models the scheduling core of a cloud-task research code base
(CloudSim simulations in Java):

- **HAMM**, the initial allocator (`HAMMSimulation.HAMM`, `maxMin`, `minMin`,
  `addToMinVM`). While tasks remain, it compares the tasks at or below the
  pool mean ("lower") with those above it ("higher"). If lower >= higher it
  takes the pool maximum, otherwise the pool minimum. It appends the value to
  the first worker of least total load and removes one occurrence of it from
  the pool.
- **EHAMM's allocator** (the private `EHAMM.HAMM` and its helpers). It is the
  same loop, but it runs on caller-supplied workers over the prior
  `taskSizes` followed by the cloudlet lengths. It computes the mean once,
  before the loop, and never updates it.
- **The rebalancer** (`EHAMMSimulation.reschedule` and `highAndLowSplit`). It
  splits workers into `highLoad` and `lowLoad` by mean task size. Then, while
  `highLoad` is non-empty, it does one of two things:
  - *migrate*: move the smallest task of the first high worker with the most
    tasks to the first low worker with the fewest tasks, when that strictly
    narrows the gap between their loads;
  - *demote*: otherwise, append the high worker to `lowLoad`.

  The result is `lowLoad`.
- **`calculateLoadBalance`**: the sample variance of the per-worker task
  counts.

Modules:

| file | module | contents |
|---|---|---|
| `loads.dfy` | `Loads` | Workers as `seq<int>`, `Result`/`Option`, sums, and the JDK list operations the code relies on. `Collections.max`/`min` return the *first* extreme element. `List.remove(Object)` removes the *first* equal element. |
| `allocator.dfy` | `Allocator` | The HAMM loop. It is parameterised by a `MeanPolicy` (mean recomputed each iteration, or fixed), so both allocators share one step. |
| `ehamm.dfy` | `StaleMeanAllocator` | EHAMM's allocator and the consequences of its stale mean. |
| `rebalancer.dfy` | `Rebalancer` | `highAndLowSplit`, the migrate/demote loop, termination, conservation and failure. |
| `balance.dfy` | `BalanceMetric` | `calculateLoadBalance`. |
| `hamm_trace.dfy`, `stale_mean_trace.dfy`, `reschedule_trace.dfy` | `HammTrace`, `StaleMeanTrace`, `RescheduleTrace` | Worked runs, proved equal to concrete results. |

Modelling decisions:

- **Exact means.** Means are compared exactly. `size <= average` becomes
  `size * den <= num` for the mean `num/den`. The empty pool's mean is `0/1`,
  matching `orElse(0.0)`. The variance is taken over the common denominator
  n² (n − 1): each deviation `x − S/n` is `(n·x − S)/n`.
- **The `addToMinVM` sentinel.** The code starts from `Integer.MAX_VALUE`
  (`Long.MAX_VALUE` in EHAMM). This is modelled as "no candidate yet", so the
  chosen worker is the first one of minimal sum.
- **Worker identity.** `reschedule` moves Java list objects around. A worker
  is modelled as `Machine(id, tasks)`, where `id` is its position in the input.
  `highLoad.remove(highLoadMachine)` compares contents, and the model proves
  that it removes exactly the selected worker.
- **Runtime exceptions.** Exceptions are error results, not preconditions:
  - `vms.get(0)` on no worker gives `IndexOutOfBounds`;
  - `Collections.min` on an empty worker gives `NoSuchElement`.
- **Label inversion.** As in the code, a worker goes to `highLoad` when its
  mean is *below* the mean of the per-worker means (`overallAvg > average`).

Because of the label inversion, `reschedule([[50, 50], [10]])` labels `[10]`
high. Moving its 10 would widen the gap from 90 to 110, so the result is
`[[50, 50], [10]]` (`RescheduleTrace.RebalanceKeepExample`).

## Model

| member | source | states |
|---|---|---|
| Loads.MaxOf | HAMMSimulation.java:305-310 | `Collections.max` on a non-empty list returns one of its elements, and no element exceeds it. |
| Loads.MinOf | HAMMSimulation.java:312-317 | `Collections.min` on a non-empty list returns one of its elements, and no element is below it. |
| Loads.RemoveFirst | HAMMSimulation.java:309 | `tasks.remove(val)` leaves the list unchanged when `val` is absent. Otherwise it drops the first occurrence: one element fewer, the multiset loses exactly one `val`, and the sum falls by `val`. |
| Loads.RemoveFirstSplit | HAMMSimulation.java:309 | In a list `a + [val] + b` where `a` has no `val`, `tasks.remove(val)` leaves exactly `a + b`. This is the removal described from outside, without its index search. |
| Loads.NonNegativeRemoveFirst | EHAMMSimulation.java:184 | Removing a task from a worker of non-negative tasks leaves them non-negative. |
| Loads.FirstMinIndex | HAMMSimulation.java:322-331 | The scan with strict `<` picks a minimal key, and every earlier key is strictly larger (first argmin). |
| Loads.FirstMaxIndex | EHAMMSimulation.java:170 | The scan with strict `>` picks a maximal key, and every earlier key is strictly smaller (first argmax). |
| Loads.AllTasksAppendAt | HAMMSimulation.java:333 | Appending one task to one worker grows the multiset union of all tasks by exactly that task. |
| Allocator.CountsComplementary | HAMMSimulation.java:287-295 | The `size <= average` test and its else branch partition the pool: lower + higher = pool size. |
| Allocator.CountsAfterRemoval | EHAMM.java:284-300 | Against a fixed mean, removing one value lowers exactly one of the two counts by one, according to which side of the mean the value lies on. |
| Allocator.MaxModeIffHalfLower | HAMMSimulation.java:296-300 | Max-min mode (`lower >= higher`) is chosen exactly when at least half of the pool lies at or below the mean. |
| Allocator.Pick | HAMMSimulation.java:296-317 | The value taken is in the pool. In max-min mode it is at least every pool value; in min-min mode it is at most every pool value. |
| Allocator.PickLargest | HAMMSimulation.java:305-310 | In max-min mode, a pool value that no other value exceeds is exactly the value `Collections.max` takes. |
| Allocator.PickSmallest | HAMMSimulation.java:312-317 | In min-min mode, a pool value that no other value is below is exactly the value `Collections.min` takes. |
| Allocator.AllAtMostCounts | HAMMSimulation.java:289-295 | When every task is at or below the mean, the loop counts all of them as lower and none as higher. |
| Allocator.AllAboveCounts | HAMMSimulation.java:289-295 | When every task is above the mean, the loop counts none of them as lower and all of them as higher. |
| Allocator.MinLoadIndex | HAMMSimulation.java:319-332 | `addToMinVM` chooses a worker of minimal sum, and every earlier worker has a strictly larger sum. |
| Allocator.AddToMinVM | HAMMSimulation.java:319-334 | The value is appended to the chosen worker. Every other worker is unchanged, the worker count is kept, and the union of tasks grows by exactly the value. |
| Allocator.PlaceAt | HAMMSimulation.java:319-334 | A worker of least sum whose earlier workers all have strictly larger sums is the one `addToMinVM` appends to. This characterises the choice independently of the scan. |
| Allocator.AddToMinVMScan | HAMMSimulation.java:319-334 | The loop with the running minimum and the inner summing loop fails with `IndexOutOfBounds` exactly on no worker. Otherwise it gives the same result as `AddToMinVM`. |
| Allocator.Drain | HAMMSimulation.java:285-301 | The loop fails exactly when tasks remain and there is no worker. Otherwise it keeps the worker count, each worker keeps its tasks as a prefix, and the union grows by exactly the pool's multiset. |
| Allocator.EmptyWorkers | HAMMSimulation.java:280-283 | `vmCount` empty workers, and none when `vmCount <= 0`. |
| Allocator.Allocate | HAMMSimulation.java:279-303 | `HAMM(taskSizes, vmCount)` fails exactly when there are tasks and `vmCount <= 0`. Otherwise it returns `vmCount` workers whose union is exactly the input multiset; with no tasks they are all empty. |
| Allocator.SelectionOrder | HAMMSimulation.java:285-317 | The values the loop takes, in order, are a permutation of the pool. So the loop runs exactly once per task and empties `taskSizes`. |
| Allocator.DrainIsDistribute | HAMMSimulation.java:285-334 | The loop equals the pool's selection order followed by greedy placement. The choice of value never depends on the workers. |
| StaleMeanAllocator.Pool | EHAMM.java:278-280 | The pool is the prior `taskSizes` followed by the cloudlet lengths. The prior part is its prefix and its multiset is the union of both. |
| StaleMeanAllocator.Ehamm | EHAMM.java:275-303 | EHAMM's allocator fails exactly on a non-empty pool with no worker. Otherwise each worker keeps its tasks as a prefix, and the union grows by exactly the prior tasks plus the lengths. |
| StaleMeanAllocator.HigherNeverGrows | EHAMM.java:281-294 | Against the mean fixed at line 281, the count above the mean never grows as the pool shrinks, and once it is 0 it stays 0. |
| StaleMeanAllocator.StaleMeanStaysMaxMode | EHAMM.java:281-314 | Once no task lies above the fixed mean, every later step is max-min. The remaining pool is handed out in non-increasing order, starting with its maximum. |
| StaleMeanTrace.OrdersDiffer | EHAMM.java:281 | On `[1, 7, 8]` the recomputed mean (HAMM) takes 1, 8, 7 but the fixed mean (EHAMM) takes 1, 7, 8. The stale mean changes the schedule. |
| StaleMeanTrace.HammExample | HAMMSimulation.java:279-334 | `HAMM([1, 7, 8], 2)` = `[[1, 7], [8]]`. |
| StaleMeanTrace.EhammExample | EHAMM.java:275-338 | EHAMM on `[1, 7, 8]` with two empty workers gives `[[1, 8], [7]]`. |
| HammTrace.Example | HAMMSimulation.java:279-334 | `HAMM([1, 1, 1, 100], 2)` = `[[100], [1, 1, 1]]`. |
| Rebalancer.SplitPlacesEveryWorker | EHAMMSimulation.java:193-210 | Worker i goes to `highLoad` exactly when its mean (0 if empty) is below the mean of means, and to `lowLoad` otherwise. Both lists keep input order, and every worker lands in exactly one of them with its tasks. |
| Rebalancer.SomeWorkerNotHigh | EHAMMSimulation.java:199-208 | With at least one worker, some worker's mean is at least the mean of means. |
| Rebalancer.SplitLowNonEmpty | EHAMMSimulation.java:172 | With at least one worker, `lowLoad` is non-empty after the split. So the first target lookup cannot fail. |
| Rebalancer.UniformMeansNoneHigh | EHAMMSimulation.java:199-205 | When all worker means are equal, no worker is high. |
| Rebalancer.Source | EHAMMSimulation.java:170 | The source is a high worker of maximal task count, and every earlier one has strictly fewer tasks. |
| Rebalancer.Target | EHAMMSimulation.java:172 | The target is a low worker of minimal task count, and every earlier one has strictly more tasks. |
| Rebalancer.MigrationTest | EHAMMSimulation.java:174-182 | The test passes exactly when t > 0 and H − L > t, or t < 0 and H − L < t. A zero task never moves. |
| Rebalancer.Migrate | EHAMMSimulation.java:182-184 | One occurrence of t leaves the source and t is appended to the target. No other worker changes and the list shapes are kept. |
| Rebalancer.MigrateConserves | EHAMMSimulation.java:182-184 | A migration keeps the multiset of all tasks and lowers the termination measure by exactly one. |
| Rebalancer.MigrateNarrowsGap | EHAMMSimulation.java:174-184 | The source load falls by t, the target load rises by t, and the gap between them strictly shrinks. |
| Rebalancer.FirstWithTasks | EHAMMSimulation.java:187 | `List.remove(Object)` on worker lists hits the first list with equal contents. |
| Rebalancer.Demote | EHAMMSimulation.java:185-188 | The worker is appended to `lowLoad`. When no earlier high list has the same contents, it is removed at its own position and the other high workers keep their order. |
| Rebalancer.DemoteConserves | EHAMMSimulation.java:185-188 | For the selected worker: it is removed from the high list at its own position, every task and worker is kept, its id goes to the end of the low ids, and the measure falls. |
| Rebalancer.Step | EHAMMSimulation.java:169-189 | One iteration fails with `NoSuchElement` exactly when the source is empty or `lowLoad` is empty. Otherwise it lowers the measure, keeps all tasks and worker ids, and keeps the low ids as a prefix. |
| Rebalancer.Reschedule | EHAMMSimulation.java:169-190 | The loop terminates (decreasing measure). On success it returns every worker once, with exactly the tasks it started with, the initially-low workers first. |
| Rebalancer.RebalanceMachines | EHAMMSimulation.java:159-190 | `reschedule(vms)` returns a permutation of the input workers, with the initially-low ones first in input order and the multiset of all tasks unchanged. |
| Rebalancer.Rebalance | EHAMMSimulation.java:159-191 | `reschedule(vms)` returns `|vms|` workers holding exactly the tasks of `vms`. |
| Rebalancer.MigrateKeepsIdleWorkers | EHAMMSimulation.java:178-184 | With non-negative tasks, a migration that passes the test never empties the source. Tasks stay non-negative, `lowLoad` stays non-empty, and the set of empty high workers is unchanged. |
| Rebalancer.DemoteKeepsIdleSet | EHAMMSimulation.java:185-188 | Demoting a non-empty source leaves the empty high workers exactly as they were. |
| Rebalancer.RescheduleFailsIff | EHAMMSimulation.java:169-189 | With non-negative tasks and a non-empty `lowLoad`, the loop fails exactly when some high worker is empty. |
| Rebalancer.SplitIdleHighIff | EHAMMSimulation.java:196-205 | An empty worker is labelled high exactly when the mean of means is positive. |
| Rebalancer.RebalanceFailsIff | EHAMMSimulation.java:159-210 | With non-negative tasks, `reschedule` throws exactly when some worker is empty and the mean of means is positive. |
| Rebalancer.UniformAssignmentUnchanged | EHAMMSimulation.java:159-210 | When all workers have the same mean task size, `reschedule` returns the input unchanged. |
| RescheduleTrace.RebalanceKeepExample | EHAMMSimulation.java:159-210 | `reschedule([[50, 50], [10]])` = `[[50, 50], [10]]`. |
| RescheduleTrace.RebalanceMoveExample | EHAMMSimulation.java:159-210 | `reschedule([[2, 2, 2, 2, 2], [5]])` = `[[5, 2], [2, 2, 2, 2]]`: one migration, then a demotion. |
| BalanceMetric.LoadVariance | HAMMSimulation.java:336-353 | No result (NaN) exactly for one worker, 0 for no worker, and never negative. |
| BalanceMetric.VarianceShortcut | HAMMSimulation.java:338-350 | The squared-deviation numerator equals n (n Σx² − (Σx)²). This is the shortcut formula, an independent reference for the variance. |
| BalanceMetric.VarianceZeroIffBalanced | HAMMSimulation.java:338-352 | For two or more workers, the variance is 0 exactly when every worker holds the same number of tasks. |
| BalanceMetric.EmptyAllocationBalanced | HAMMSimulation.java:279-285 | `HAMM([], vmCount)` with two or more workers has variance 0. |
| BalanceMetric.ExampleVariance | HAMMSimulation.java:336-353 | The allocation `[[100], [1, 1, 1]]` has variance 2. |

## Left out

- All `main` methods and the CloudSim plumbing: datacenter and broker creation, `Vm`/`Cloudlet` construction, submission, `bindCloudletToVm`, and starting and stopping the simulation. These are external library calls.
- `printCloudletList` and all logging: output formatting only.
- Random task generation with `java.util.Random` and EHAMM's random VM binding. Their values come from the library's generator. In the model the task lists are parameters.
- `getCloudletLength`: a foreign call. Its results are the `lengths` parameter of `StaleMeanAllocator.Ehamm`.
- EHAMM's empty `reschedule()` and `bindCloudletToVM()` stubs, and its unused `taskToVM` map. They do nothing.
- `HAMM Test.py` is not part of this model.
- Integer width: sums, counts and the migration arithmetic use unbounded integers. The source's `int`/`long` overflow (including `Math.abs(Integer.MIN_VALUE)`) is not modelled.
- Floating point: means, the mean of means and the variance are exact rationals. Double rounding is not modelled.
- Rebalancer.SplitLowNonEmpty, Rebalancer.UniformAssignmentUnchanged, Rebalancer.RescheduleFailsIff and Rebalancer.RebalanceFailsIff: hold for exact means only. With `double` averages the mean of means can round above every worker's mean (three workers `[1,0,0,0,0,0,0,0,0,0]` give 0.10000000000000002 against 0.1), so `lowLoad` is empty and `Collections.min` at EHAMMSimulation.java:172 throws where the model returns the input unchanged.
- BalanceMetric.LoadVariance: the NaN of a single worker is `None`, and the IEEE negative zero returned for no worker is the real 0.
- BalanceMetric.LoadVariance: computed as the squared deviations over a common denominator, Σ(n·x − S)² / (n²(n − 1)), and not proved equal, term by term, to the source's Σ(x − mean)² / (n − 1) over reals. `VarianceShortcut` is the independent reference that it matches.
- Aliasing: an input to `reschedule` that holds the same list object twice is not modelled. Every worker is a distinct value with its own id.
- Rebalancer.RebalanceMachines: states that the initially-low workers come first in input order. The order of the demoted workers after them is not stated as a contract.
- Rebalancer.Demote: states the removal position only when no earlier high worker has the same contents. `DemoteConserves` (through `DemoteSourceShape`) establishes it for the selected worker.
- Rebalancer.RescheduleFailsIff and Rebalancer.RebalanceFailsIff: the failure characterisation assumes non-negative task sizes. With negative tasks a migration can empty a worker.
