/**
 * Shared vocabulary of the scheduler: a task is an integer magnitude, a
 * worker (a virtual machine) is the ordered list of the tasks assigned to
 * it, and an assignment is the list of all workers.  This module holds the
 * list operations the Java code takes from the JDK: summing a list,
 * `Collections.max` / `Collections.min` (which return the FIRST extreme
 * element in iteration order), and `List.remove(Object)` (which removes the
 * FIRST equal element).
 */
module Loads {

  type Worker = seq<int>
  type Assignment = seq<Worker>

  /** The two runtime exceptions the modelled code can raise. */
  datatype Error =
    | NoSuchElement     // Collections.max/min on an empty collection
    | IndexOutOfBounds  // vms.get(0) on an empty worker list

  datatype Result<T> = Ok(value: T) | Err(error: Error)

  datatype Option<T> = None | Some(value: T)

  /** The load of a worker: the sum of its task magnitudes (unbounded). */
  function Sum(s: seq<int>): int
  {
    if |s| == 0 then 0 else Sum(s[..|s| - 1]) + s[|s| - 1]
  }

  lemma {:induction false} SumConcat(a: seq<int>, b: seq<int>)
    ensures Sum(a + b) == Sum(a) + Sum(b)
    decreases |b|
  {
    if |b| == 0 {
      assert a + b == a;
    } else {
      assert (a + b)[..|a + b| - 1] == a + b[..|b| - 1];
      SumConcat(a, b[..|b| - 1]);
    }
  }

  lemma SumSingleton(x: int)
    ensures Sum([x]) == x
  {
    assert [x][..0] == [];
  }

  /** Every task of a list is non-negative. */
  predicate NonNegative(s: seq<int>)
  {
    forall i :: 0 <= i < |s| ==> s[i] >= 0
  }

  lemma {:induction false} SumNonNegative(s: seq<int>)
    requires NonNegative(s)
    ensures Sum(s) >= 0
    decreases |s|
  {
    if |s| > 0 {
      SumNonNegative(s[..|s| - 1]);
    }
  }

  /** The value `Collections.max` returns on a non-empty list. */
  function MaxOf(s: seq<int>): (r: int)
    requires |s| > 0
    ensures r in s
    ensures forall i :: 0 <= i < |s| ==> s[i] <= r
  {
    if |s| == 1 then s[0]
    else
      var m := MaxOf(s[..|s| - 1]);
      if s[|s| - 1] > m then s[|s| - 1] else m
  }

  /** The value `Collections.min` returns on a non-empty list. */
  function MinOf(s: seq<int>): (r: int)
    requires |s| > 0
    ensures r in s
    ensures forall i :: 0 <= i < |s| ==> r <= s[i]
  {
    if |s| == 1 then s[0]
    else
      var m := MinOf(s[..|s| - 1]);
      if s[|s| - 1] < m then s[|s| - 1] else m
  }

  /** Position of the first occurrence of `v`. */
  function FirstIndexOf(s: seq<int>, v: int): (i: nat)
    requires v in s
    ensures i < |s| && s[i] == v
    ensures v !in s[..i]
  {
    if s[0] == v then 0
    else
      assert v in s[1..] by { assert s == [s[0]] + s[1..]; }
      var j := FirstIndexOf(s[1..], v);
      assert s[..j + 1] == [s[0]] + s[1..][..j];
      j + 1
  }

  /**
   * `List.remove(Object)` on a list of tasks: drop the first element equal
   * to `v`; a list without `v` is returned unchanged.
   */
  function RemoveFirst(s: seq<int>, v: int): (r: seq<int>)
    ensures v !in s ==> r == s
    ensures v in s ==> r == s[..FirstIndexOf(s, v)] + s[FirstIndexOf(s, v) + 1..]
    ensures v in s ==> |r| == |s| - 1
    ensures v in s ==> multiset(r) + multiset{v} == multiset(s)
    ensures v in s ==> Sum(r) + v == Sum(s)
  {
    if v !in s then s
    else
      var i := FirstIndexOf(s, v);
      var r := s[..i] + s[i + 1..];
      assert s == s[..i] + [v] + s[i + 1..];
      SumConcat(s[..i] + [v], s[i + 1..]);
      SumConcat(s[..i], [v]);
      SumConcat(s[..i], s[i + 1..]);
      SumSingleton(v);
      r
  }

  /**
   * `List.remove(Object)` characterised from the outside: in a list with
   * no `v` before a given occurrence of it, exactly that occurrence goes.
   */
  lemma RemoveFirstSplit(a: seq<int>, v: int, b: seq<int>)
    requires v !in a
    ensures RemoveFirst(a + [v] + b, v) == a + b
  {
    var s := a + [v] + b;
    assert s[|a|] == v;
    assert s[..|a|] == a;
    assert s[|a| + 1..] == b;
  }

  /** A list that starts with `v` loses exactly its head. */
  lemma RemoveFirstHead(v: int, rest: seq<int>)
    ensures RemoveFirst([v] + rest, v) == rest
  {
    assert ([v] + rest)[1..] == rest;
  }

  /** Removing a task from a list of non-negative tasks leaves them non-negative. */
  lemma NonNegativeRemoveFirst(s: seq<int>, v: int)
    requires NonNegative(s)
    ensures NonNegative(RemoveFirst(s, v))
  {
    var r := RemoveFirst(s, v);
    forall j | 0 <= j < |r|
      ensures r[j] >= 0
    {
      assert r[j] in multiset(r);
      assert r[j] in multiset(s);
      var k :| 0 <= k < |s| && s[k] == r[j];
    }
  }

  /**
   * Index of the first minimal key: the left-to-right scan that replaces its
   * candidate only on a strictly smaller key.
   */
  function FirstMinIndex(keys: seq<int>): (i: nat)
    requires |keys| > 0
    ensures i < |keys|
    ensures forall j :: 0 <= j < |keys| ==> keys[i] <= keys[j]
    ensures forall j :: 0 <= j < i ==> keys[i] < keys[j]
  {
    if |keys| == 1 then 0
    else
      var i := FirstMinIndex(keys[..|keys| - 1]);
      if keys[|keys| - 1] < keys[i] then |keys| - 1 else i
  }

  /**
   * Index of the first maximal key: the left-to-right scan that replaces its
   * candidate only on a strictly greater key.
   */
  function FirstMaxIndex(keys: seq<int>): (i: nat)
    requires |keys| > 0
    ensures i < |keys|
    ensures forall j :: 0 <= j < |keys| ==> keys[j] <= keys[i]
    ensures forall j :: 0 <= j < i ==> keys[j] < keys[i]
  {
    if |keys| == 1 then 0
    else
      var i := FirstMaxIndex(keys[..|keys| - 1]);
      if keys[|keys| - 1] > keys[i] then |keys| - 1 else i
  }

  /** The multiset union of the task lists of all workers. */
  function AllTasks(ws: Assignment): multiset<int>
  {
    if |ws| == 0 then multiset{} else AllTasks(ws[..|ws| - 1]) + multiset(ws[|ws| - 1])
  }

  lemma {:induction false} AllTasksConcat(a: Assignment, b: Assignment)
    ensures AllTasks(a + b) == AllTasks(a) + AllTasks(b)
    decreases |b|
  {
    if |b| == 0 {
      assert a + b == a;
    } else {
      assert (a + b)[..|a + b| - 1] == a + b[..|b| - 1];
      AllTasksConcat(a, b[..|b| - 1]);
    }
  }

  /** Replacing one worker's list changes the union by exactly that list. */
  lemma AllTasksUpdate(ws: Assignment, k: nat, w: Worker)
    requires k < |ws|
    ensures AllTasks(ws[k := w]) + multiset(ws[k]) == AllTasks(ws) + multiset(w)
  {
    assert ws == ws[..k] + [ws[k]] + ws[k + 1..];
    assert ws[k := w] == ws[..k] + [w] + ws[k + 1..];
    AllTasksConcat(ws[..k] + [ws[k]], ws[k + 1..]);
    AllTasksConcat(ws[..k] + [w], ws[k + 1..]);
    AllTasksConcat(ws[..k], [ws[k]]);
    AllTasksConcat(ws[..k], [w]);
    assert [ws[k]][..0] == [];
    assert [w][..0] == [];
  }

  /** Appending one task to one worker adds exactly that task to the union. */
  lemma AllTasksAppendAt(ws: Assignment, k: nat, v: int)
    requires k < |ws|
    ensures AllTasks(ws[k := ws[k] + [v]]) == AllTasks(ws) + multiset{v}
  {
    var after := AllTasks(ws[k := ws[k] + [v]]);
    AllTasksUpdate(ws, k, ws[k] + [v]);
    assert multiset(ws[k] + [v]) == multiset(ws[k]) + multiset{v};
    assert after + multiset(ws[k]) == AllTasks(ws) + multiset{v} + multiset(ws[k]);
    forall x
      ensures after[x] == (AllTasks(ws) + multiset{v})[x]
    {
      assert (after + multiset(ws[k]))[x] == (AllTasks(ws) + multiset{v} + multiset(ws[k]))[x];
    }
  }

  /** Removing one worker from the list removes exactly its tasks from the union. */
  lemma AllTasksRemoveAt(ws: Assignment, k: nat)
    requires k < |ws|
    ensures AllTasks(ws[..k] + ws[k + 1..]) + multiset(ws[k]) == AllTasks(ws)
  {
    var a, b := ws[..k], ws[k + 1..];
    assert ws == a + [ws[k]] + b;
    AllTasksConcat(a + [ws[k]], b);
    AllTasksConcat(a, [ws[k]]);
    AllTasksConcat(a, b);
    assert [ws[k]][..0] == [];
    assert AllTasks([ws[k]]) == multiset(ws[k]);
  }

  /** The loads (sums) of all workers, in worker order. */
  function LoadsOf(ws: Assignment): (r: seq<int>)
    ensures |r| == |ws|
    ensures forall i :: 0 <= i < |ws| ==> r[i] == Sum(ws[i])
  {
    seq(|ws|, i requires 0 <= i < |ws| => Sum(ws[i]))
  }

  /** The task counts of all workers, in worker order. */
  function Sizes(ws: Assignment): (r: seq<int>)
    ensures |r| == |ws|
    ensures forall i :: 0 <= i < |ws| ==> r[i] == |ws[i]|
  {
    seq(|ws|, i requires 0 <= i < |ws| => |ws[i]|)
  }
}
