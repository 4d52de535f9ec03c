/**
 * The same three tasks [1, 7, 8] taken by both allocators.  Both start in
 * min-min mode (only 1 lies below the mean 16/3).  HAMM then recomputes the
 * mean of [7, 8] as 7.5 and switches to max-min mode; EHAMM keeps 16/3, so
 * 7 and 8 both stay above it and it keeps taking the minimum.
 */
module StaleMeanTrace {
  import opened Loads
  import opened Allocator
  import opened StaleMeanAllocator

  lemma SmallSums()
    ensures Sum([1, 7, 8]) == 16 && Sum([7, 8]) == 15 && Sum([7]) == 7 && Sum([8]) == 8
    ensures Sum([1]) == 1 && Sum([1, 7]) == 8 && Sum([1, 8]) == 9
  {
    assert [1, 7, 8][..2] == [1, 7];
    assert [1, 7][..1] == [1];
    assert [1, 8][..1] == [1];
    assert [7, 8][..1] == [7];
    assert [1][..0] == [];
    assert [7][..0] == [];
    assert [8][..0] == [];
  }

  /** Only 1 lies at or below 16 / 3, so min mode takes it. */
  lemma FirstPickValue()
    ensures PoolMean([1, 7, 8]) == Mean(16, 3)
    ensures Pick([1, 7, 8], Mean(16, 3)) == 1
    ensures RemoveFirst([1, 7, 8], 1) == [7, 8]
  {
    var m := Mean(16, 3);
    SmallSums();
    assert [1, 7, 8] == [1] + [7, 8];
    AllAtMostCounts([1], m);
    AllAboveCounts([7, 8], m);
    CountsConcat([1], [7, 8], m);
    PickSmallest([1, 7, 8], m, 1);
    RemoveFirstHead(1, [7, 8]);
  }

  /** The first pick under either policy. */
  lemma FirstPick(policy: MeanPolicy)
    requires policy == Recomputed || policy == Fixed(Mean(16, 3))
    ensures SelectionOrder([1, 7, 8], policy) == [1] + SelectionOrder([7, 8], policy)
  {
    FirstPickValue();
    SelectionStep([1, 7, 8], policy, 1);
  }

  lemma LastPick(v: int, policy: MeanPolicy)
    ensures SelectionOrder([v], policy) == [v]
  {
    assert [v][..0] == [];
    assert RemoveFirst([v], v) == [];
  }

  /** HAMM: the mean of [7, 8] is 7.5 and half the pool lies at or below it, so max mode takes 8. */
  lemma RecomputedSecondValue()
    ensures Pick([7, 8], PoolMean([7, 8])) == 8
    ensures RemoveFirst([7, 8], 8) == [7]
  {
    var m := Mean(15, 2);
    SmallSums();
    assert PoolMean([7, 8]) == m;
    assert [7, 8] == [7] + [8];
    AllAtMostCounts([7], m);
    AllAboveCounts([8], m);
    CountsConcat([7], [8], m);
    PickLargest([7, 8], m, 8);
    RemoveFirstSplit([7], 8, []);
    assert [7] + [8] + [] == [7, 8];
  }

  lemma RecomputedSecondPick()
    ensures SelectionOrder([7, 8], Recomputed) == [8, 7]
  {
    RecomputedSecondValue();
    SelectionStep([7, 8], Recomputed, 8);
    LastPick(7, Recomputed);
  }

  lemma RecomputedOrder()
    ensures SelectionOrder([1, 7, 8], Recomputed) == [1, 8, 7]
  {
    FirstPick(Recomputed);
    RecomputedSecondPick();
  }

  /** EHAMM: against the stale 16 / 3 both 7 and 8 lie above the mean, so min mode takes 7. */
  lemma FixedSecondValue()
    ensures Pick([7, 8], Mean(16, 3)) == 7
    ensures RemoveFirst([7, 8], 7) == [8]
  {
    var m := Mean(16, 3);
    AllAboveCounts([7, 8], m);
    PickSmallest([7, 8], m, 7);
    RemoveFirstHead(7, [8]);
    assert [7] + [8] == [7, 8];
  }

  lemma FixedSecondPick()
    ensures SelectionOrder([7, 8], Fixed(Mean(16, 3))) == [7, 8]
  {
    FixedSecondValue();
    SelectionStep([7, 8], Fixed(Mean(16, 3)), 7);
    LastPick(8, Fixed(Mean(16, 3)));
  }

  lemma FixedOrder()
    ensures SelectionOrder([1, 7, 8], Fixed(Mean(16, 3))) == [1, 7, 8]
  {
    FirstPick(Fixed(Mean(16, 3)));
    FixedSecondPick();
  }

  /** The two allocators disagree on the order in which they take [1, 7, 8]. */
  lemma OrdersDiffer()
    ensures SelectionOrder([1, 7, 8], Recomputed) != SelectionOrder([1, 7, 8], Fixed(PoolMean([1, 7, 8])))
  {
    SmallSums();
    RecomputedOrder();
    FixedOrder();
  }

  /** Three values handed in turn to two workers that start empty. */
  lemma PlaceThree(a: int, b: int, c: int)
    requires 0 < a < b
    ensures Distribute([a, b, c], [[], []]) == [[a, c], [b]]
  {
    assert [a][..0] == [] && [b][..0] == [];
    var w1 := AddToMinVM(a, [[], []]);
    assert MinLoadIndex([[], []]) == 0;
    assert [] + [a] == [a];
    assert w1[0] == [a] && w1[1] == [];
    assert w1 == [[a], []];
    var w2 := AddToMinVM(b, w1);
    assert MinLoadIndex(w1) == 1;
    assert [] + [b] == [b];
    assert w2[0] == [a] && w2[1] == [b];
    assert w2 == [[a], [b]];
    var w3 := AddToMinVM(c, w2);
    assert MinLoadIndex(w2) == 0;
    assert [a] + [c] == [a, c];
    assert w3[0] == [a, c] && w3[1] == [b];
    assert w3 == [[a, c], [b]];
    assert [a, b, c][1..] == [b, c];
    assert [b, c][1..] == [c];
    assert [c][1..] == [];
    assert Distribute([a, b, c], [[], []]) == Distribute([b, c], w1);
    assert Distribute([b, c], w1) == Distribute([c], w2);
    assert Distribute([c], w2) == Distribute([], w3);
  }

  /** `HAMM([1, 7, 8], 2)` pairs 1 with 7. */
  lemma HammExample()
    ensures Allocate([1, 7, 8], 2) == Ok([[1, 7], [8]])
  {
    assert EmptyWorkers(2) == [[], []];
    DrainIsDistribute([1, 7, 8], [[], []], Recomputed);
    RecomputedOrder();
    PlaceThree(1, 8, 7);
  }

  /** EHAMM on the same tasks and two empty workers pairs 1 with 8. */
  lemma EhammExample()
    ensures Ehamm([], [1, 7, 8], [[], []]) == Ok([[1, 8], [7]])
  {
    SmallSums();
    assert Pool([], [1, 7, 8]) == [1, 7, 8];
    DrainIsDistribute([1, 7, 8], [[], []], Fixed(Mean(16, 3)));
    FixedOrder();
    PlaceThree(1, 7, 8);
  }
}
