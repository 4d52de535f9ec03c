/**
 * A worked run of the HAMM allocator on four tasks and two workers: the
 * mean of [1, 1, 1, 100] is 25.75, three tasks lie below it, so the
 * allocator takes the largest task first; after that every remaining task
 * equals the mean, so it stays in max-min mode and, the remaining tasks all
 * being 1, takes a 1, always into the least-loaded worker.
 */
module HammTrace {
  import opened Loads
  import opened Allocator

  lemma FirstSum()
    ensures Sum([1, 1, 1, 100]) == 103
  {
    assert [1, 1, 1, 100] == [1, 1, 1] + [100];
    assert [1, 1, 1] == [1, 1] + [1] && [1, 1] == [1] + [1];
    SumConcat([1, 1, 1], [100]);
    SumConcat([1, 1], [1]);
    SumConcat([1], [1]);
    SumSingleton(1);
    SumSingleton(100);
  }

  /** Three of the four tasks lie at or below 103 / 4: max-min mode. */
  lemma FirstMode()
    ensures MaxMode([1, 1, 1, 100], Mean(103, 4))
  {
    var m := Mean(103, 4);
    assert [1, 1, 1, 100] == [1, 1, 1] + [100];
    AllAtMostCounts([1, 1, 1], m);
    CountsConcat([1, 1, 1], [100], m);
    CountsComplementary([100], m);
  }

  /** So the first pick is 100, the largest task. */
  lemma FirstPick()
    ensures Pick([1, 1, 1, 100], PoolMean([1, 1, 1, 100])) == 100
    ensures RemoveFirst([1, 1, 1, 100], 100) == [1, 1, 1]
  {
    FirstSum();
    FirstMode();
    PickLargest([1, 1, 1, 100], Mean(103, 4), 100);
    RemoveFirstSplit([1, 1, 1], 100, []);
    assert [1, 1, 1] + [100] + [] == [1, 1, 1, 100];
  }

  /** Each later pick takes a 1, since all remaining tasks are equal. */
  lemma OnePick(rest: seq<int>)
    requires forall i :: 0 <= i < |rest| ==> rest[i] == 1
    ensures Pick([1] + rest, PoolMean([1] + rest)) == 1
    ensures RemoveFirst([1] + rest, 1) == rest
  {
    PickUniform([1] + rest, PoolMean([1] + rest), 1);
    RemoveFirstHead(1, rest);
  }

  /** Where each value lands: the least-loaded worker, the first one on a tie. */
  lemma PlaceFirst()
    ensures AddToMinVM(100, [[], []]) == [[100], []]
  {
    PlaceAt(100, [[], []], 0);
    var r := AddToMinVM(100, [[], []]);
    assert r[0] == [100] && r[1] == [];
  }

  lemma PlaceSecond()
    ensures AddToMinVM(1, [[100], []]) == [[100], [1]]
  {
    SumSingleton(100);
    PlaceAt(1, [[100], []], 1);
    var r := AddToMinVM(1, [[100], []]);
    assert r[0] == [100] && r[1] == [1];
  }

  lemma PlaceThird()
    ensures AddToMinVM(1, [[100], [1]]) == [[100], [1, 1]]
  {
    SumSingleton(100);
    SumSingleton(1);
    PlaceAt(1, [[100], [1]], 1);
    var r := AddToMinVM(1, [[100], [1]]);
    assert r[0] == [100] && r[1] == [1, 1];
  }

  lemma PlaceFourth()
    ensures AddToMinVM(1, [[100], [1, 1]]) == [[100], [1, 1, 1]]
  {
    SumSingleton(100);
    SumSingleton(1);
    SumConcat([1], [1]);
    assert [1, 1] == [1] + [1];
    PlaceAt(1, [[100], [1, 1]], 1);
    var r := AddToMinVM(1, [[100], [1, 1]]);
    assert r[0] == [100] && r[1] == [1, 1, 1];
  }

  lemma Step1()
    ensures Drain([1, 1, 1, 100], [[], []], Recomputed) == Drain([1, 1, 1], [[100], []], Recomputed)
  {
    FirstPick();
    PlaceFirst();
    DrainStep([1, 1, 1, 100], [[], []], Recomputed, 100);
  }

  lemma Step2()
    ensures Drain([1, 1, 1], [[100], []], Recomputed) == Drain([1, 1], [[100], [1]], Recomputed)
  {
    OnePick([1, 1]);
    PlaceSecond();
    DrainStep([1, 1, 1], [[100], []], Recomputed, 1);
  }

  lemma Step3()
    ensures Drain([1, 1], [[100], [1]], Recomputed) == Drain([1], [[100], [1, 1]], Recomputed)
  {
    OnePick([1]);
    PlaceThird();
    DrainStep([1, 1], [[100], [1]], Recomputed, 1);
  }

  lemma Step4()
    ensures Drain([1], [[100], [1, 1]], Recomputed) == Ok([[100], [1, 1, 1]])
  {
    OnePick([]);
    PlaceFourth();
    DrainStep([1], [[100], [1, 1]], Recomputed, 1);
  }

  /** `HAMM([1, 1, 1, 100], 2)` puts the large task alone on the first worker. */
  lemma Example()
    ensures Allocate([1, 1, 1, 100], 2) == Ok([[100], [1, 1, 1]])
  {
    assert EmptyWorkers(2) == [[], []];
    Step1();
    Step2();
    Step3();
    Step4();
  }
}
