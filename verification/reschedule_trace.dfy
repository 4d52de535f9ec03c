/**
 * Two worked runs of `reschedule`.  In the first, the only worker labelled
 * high holds a single task, which never passes the migration test, so the
 * assignment comes back unchanged.  In the second, one task moves from the
 * worker of many small tasks to the worker of one large task, after which
 * the gap would widen and the loop demotes the source.
 */
module RescheduleTrace {
  import opened Loads
  import opened Rebalancer

  lemma SmallSums()
    ensures Sum([10]) == 10 && Sum([50, 50]) == 100
    ensures Sum([5]) == 5 && Sum([5, 2]) == 7
    ensures Sum([2, 2, 2, 2]) == 8 && Sum([2, 2, 2, 2, 2]) == 10
  {
    assert [10][..0] == [];
    assert [50, 50][..1] == [50];
    assert [50][..0] == [];
    assert [5][..0] == [];
    assert [5, 2][..1] == [5];
    assert [2, 2, 2, 2, 2][..4] == [2, 2, 2, 2];
    assert [2, 2, 2, 2][..3] == [2, 2, 2];
    assert [2, 2, 2][..2] == [2, 2];
    assert [2, 2][..1] == [2];
    assert [2][..0] == [];
  }

  /** Means 50 and 10, mean of means 30: the worker of mean 10 is labelled high. */
  lemma SplitKeepExample()
    ensures Split([[50, 50], [10]]) == Phase([Machine(1, [10])], [Machine(0, [50, 50])])
  {
    var ws := [[50, 50], [10]];
    SmallSums();
    assert ws[..1] == [[50, 50]];
    assert [[50, 50]][..0] == [];
    assert WorkerMean(ws[0]) == 50.0;
    assert WorkerMean(ws[1]) == 10.0;
    assert OverallMean(ws) == 30.0;
    assert HighFlags(ws) == [false, true];
  }

  /** Moving the 10 would turn a gap of 90 into one of 110, so the worker is demoted. */
  lemma RescheduleKeepExample()
    ensures Reschedule(Phase([Machine(1, [10])], [Machine(0, [50, 50])]))
            == Ok([Machine(0, [50, 50]), Machine(1, [10])])
  {
    var p := Phase([Machine(1, [10])], [Machine(0, [50, 50])]);
    SmallSums();
    assert Source(p.high) == 0;
    assert Target(p.low) == 0;
    assert MinOf([10]) == 10;
    assert !ShouldMigrate(10, 100, 10);
    var q := Demote(p, 0);
    assert q == Phase([], [Machine(0, [50, 50]), Machine(1, [10])]);
    assert Step(p) == Ok(q);
  }

  /** `reschedule` hands back the task lists of the workers its loop ends with. */
  lemma RebalanceFromMachines(vms: Assignment)
    ensures RebalanceMachines(vms).Ok? ==> Rebalance(vms) == Ok(TasksOf(RebalanceMachines(vms).value))
  {
  }

  lemma TasksOfTwo(a: nat, s: seq<int>, b: nat, w: seq<int>)
    ensures TasksOf([Machine(a, s), Machine(b, w)]) == [s, w]
  {
  }

  lemma MachinesKeepExample()
    ensures RebalanceMachines([[50, 50], [10]]) == Ok([Machine(0, [50, 50]), Machine(1, [10])])
  {
    SplitKeepExample();
    RescheduleKeepExample();
  }

  /** `reschedule([[50, 50], [10]])` leaves the assignment as it is. */
  lemma RebalanceKeepExample()
    ensures Rebalance([[50, 50], [10]]) == Ok([[50, 50], [10]])
  {
    MachinesKeepExample();
    RebalanceFromMachines([[50, 50], [10]]);
    TasksOfTwo(0, [50, 50], 1, [10]);
  }

  /** Means 2 and 5, mean of means 3.5: the worker of five 2s is labelled high. */
  lemma SplitMoveExample()
    ensures Split([[2, 2, 2, 2, 2], [5]]) == Phase([Machine(0, [2, 2, 2, 2, 2])], [Machine(1, [5])])
  {
    var ws := [[2, 2, 2, 2, 2], [5]];
    SmallSums();
    assert ws[..1] == [[2, 2, 2, 2, 2]];
    assert [[2, 2, 2, 2, 2]][..0] == [];
    assert WorkerMean(ws[0]) == 2.0;
    assert WorkerMean(ws[1]) == 5.0;
    assert OverallMean(ws) == 3.5;
    assert HighFlags(ws) == [true, false];
  }

  /** A migration between a lone high worker and a lone low worker. */
  lemma MigrateBetweenTwo(a: nat, s: seq<int>, b: nat, w: seq<int>, t: int)
    ensures Migrate(Phase([Machine(a, s)], [Machine(b, w)]), 0, 0, t)
            == Phase([Machine(a, RemoveFirst(s, t))], [Machine(b, w + [t])])
  {
  }

  lemma Prepend(x: int, y: int)
    ensures [x] + [x, x, x, x] == [x, x, x, x, x]
    ensures [y] + [x] == [y, x]
  {
  }

  /** The lists the move produces: one task leaves the first worker and joins the second. */
  lemma MoveLists(x: int, y: int)
    ensures RemoveFirst([x, x, x, x, x], x) == [x, x, x, x]
    ensures [y] + [x] == [y, x]
  {
    Prepend(x, y);
    RemoveFirstHead(x, [x, x, x, x]);
  }

  lemma MoveMigrate()
    ensures Migrate(Phase([Machine(0, [2, 2, 2, 2, 2])], [Machine(1, [5])]), 0, 0, 2)
            == Phase([Machine(0, [2, 2, 2, 2])], [Machine(1, [5, 2])])
  {
    MoveLists(2, 5);
    MigrateBetweenTwo(0, [2, 2, 2, 2, 2], 1, [5], 2);
  }

  /** Loads 10 and 5: moving a 2 narrows the gap from 5 to 1. */
  lemma MoveStep()
    ensures Step(Phase([Machine(0, [2, 2, 2, 2, 2])], [Machine(1, [5])]))
            == Ok(Phase([Machine(0, [2, 2, 2, 2])], [Machine(1, [5, 2])]))
  {
    var p := Phase([Machine(0, [2, 2, 2, 2, 2])], [Machine(1, [5])]);
    SmallSums();
    assert Source(p.high) == 0;
    assert Target(p.low) == 0;
    assert [2, 2, 2, 2, 2][..4] == [2, 2, 2, 2];
    assert [2, 2, 2, 2][..3] == [2, 2, 2];
    assert [2, 2, 2][..2] == [2, 2];
    assert [2, 2][..1] == [2];
    assert MinOf([2, 2, 2, 2, 2]) == 2;
    assert Sum(p.high[0].tasks) == 10 && Sum(p.low[0].tasks) == 5;
    assert ShouldMigrate(10, 5, 2);
    MoveMigrate();
  }

  /** Loads 8 and 7: moving another 2 would widen the gap to 3, so the worker is demoted. */
  lemma DemoteStep()
    ensures Step(Phase([Machine(0, [2, 2, 2, 2])], [Machine(1, [5, 2])]))
            == Ok(Phase([], [Machine(1, [5, 2]), Machine(0, [2, 2, 2, 2])]))
  {
    var p := Phase([Machine(0, [2, 2, 2, 2])], [Machine(1, [5, 2])]);
    SmallSums();
    assert Source(p.high) == 0;
    assert Target(p.low) == 0;
    assert [2, 2, 2, 2][..3] == [2, 2, 2];
    assert [2, 2, 2][..2] == [2, 2];
    assert [2, 2][..1] == [2];
    assert MinOf([2, 2, 2, 2]) == 2;
    assert !ShouldMigrate(8, 7, 2);
    assert Demote(p, 0) == Phase([], [Machine(1, [5, 2]), Machine(0, [2, 2, 2, 2])]);
  }

  lemma RescheduleMoveExample()
    ensures Reschedule(Phase([Machine(0, [2, 2, 2, 2, 2])], [Machine(1, [5])]))
            == Ok([Machine(1, [5, 2]), Machine(0, [2, 2, 2, 2])])
  {
    MoveStep();
    DemoteStep();
    var p1 := Phase([Machine(0, [2, 2, 2, 2])], [Machine(1, [5, 2])]);
    var p2 := Phase([], [Machine(1, [5, 2]), Machine(0, [2, 2, 2, 2])]);
    assert Reschedule(p1) == Reschedule(p2);
  }

  lemma MachinesMoveExample()
    ensures RebalanceMachines([[2, 2, 2, 2, 2], [5]]) == Ok([Machine(1, [5, 2]), Machine(0, [2, 2, 2, 2])])
  {
    SplitMoveExample();
    RescheduleMoveExample();
  }

  /** `reschedule([[2, 2, 2, 2, 2], [5]])` moves one task and puts the low worker first. */
  lemma RebalanceMoveExample()
    ensures Rebalance([[2, 2, 2, 2, 2], [5]]) == Ok([[5, 2], [2, 2, 2, 2]])
  {
    MachinesMoveExample();
    RebalanceFromMachines([[2, 2, 2, 2, 2], [5]]);
    TasksOfTwo(1, [5, 2], 0, [2, 2, 2, 2]);
  }
}
