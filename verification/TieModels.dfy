/** When no two operations look alike, ties are exactly what can make a verdict depend on the sort. */
module TieModels {
  import opened Linearizability
  import opened Histories
  import opened Sorting

  /** No two operations have both the same input and the same output. */
  ghost predicate Distinguishable<I, O>(history: seq<Operation<I, O>>) {
    forall i, j | 0 <= i < j < |history| ::
      history[i].input != history[j].input || history[i].output != history[j].output
  }

  predicate Looks<I(==), O(==)>(op: Operation<I, O>, input: I, output: O) {
    op.input == input && op.output == output
  }

  /** A specification that refuses one operation until it has seen another, and accepts everything else. */
  function After<I(==), O(==)>(first: Operation<I, O>, second: Operation<I, O>): Model<bool, I, O> {
    Model(false,
          (seen: bool, input: I, output: O) =>
            if Looks(first, input, output) then (true, true)
            else if Looks(second, input, output) then (seen, seen)
            else (true, seen),
          ShallowEqual)
  }

  /** Wherever the order has i, it has j before. */
  ghost predicate Precedes(order: seq<nat>, j: nat, i: nat) {
    forall k | 0 <= k < |order| && order[k] == i :: j in order[..k]
  }

  lemma PrecedesAppend(before: seq<nat>, x: nat, j: nat, i: nat)
    ensures Precedes(before + [x], j, i) <==> Precedes(before, j, i) && (x == i ==> j in before)
  {
    var order := before + [x];
    assert order[..|before|] == before;
    forall k | 0 <= k < |before| ensures order[k] == before[k] && order[..k] == before[..k] {}
    if Precedes(order, j, i) {
      forall k | 0 <= k < |before| && before[k] == i ensures j in before[..k] {
        assert order[k] == i;
      }
      assert order[|before|] == x;
    }
  }

  lemma AfterStep<I, O>(history: seq<Operation<I, O>>, j: nat, i: nat, x: nat, seen: bool)
    requires Distinguishable(history) && i < |history| && j < |history| && i != j && x < |history|
    ensures StepOp(After(history[j], history[i]), seen, history[x]) ==
            if x == j then (true, true) else if x == i then (seen, seen) else (true, seen)
  {}

  lemma {:induction false} RunAfter<I, O>(history: seq<Operation<I, O>>, j: nat, i: nat, order: seq<nat>)
    requires Distinguishable(history) && IdsBelow(order, |history|)
    requires i < |history| && j < |history| && i != j
    ensures Run(After(history[j], history[i]), history, order) ==
            if Precedes(order, j, i) then Some(j in order) else None
  {
    hide After, StepOp, Distinguishable, Run;
    var model := After(history[j], history[i]);
    if order == [] {
      NothingSeen(history, history[j], history[i]);
    } else {
      var last := |order| - 1;
      var before := order[..last];
      RunAfter(history, j, i, before);
      assert order == before + [order[last]];
      PrecedesAppend(before, order[last], j, i);
      AfterStep(history, j, i, order[last], j in before);
      RunAppend(model, history, before, order[last]);
      hide Precedes;
    }
  }

  lemma {:induction false} NothingSeen<I, O>(history: seq<Operation<I, O>>, first: Operation<I, O>,
                                             second: Operation<I, O>)
    ensures Run(After(first, second), history, []) == Some(false)
  {}

  /** The numbers below n. */
  function Upto(n: nat): (ids: seq<nat>)
    ensures |ids| == n && forall k | 0 <= k < n :: ids[k] == k
  {
    seq(n, (k: nat) => k)
  }

  /** An operation takes effect when it is called; but i when it returns. */
  function Point<I, O>(history: seq<Operation<I, O>>, i: nat, x: nat): int {
    if x >= |history| then 0 else if x == i then history[x].ret else history[x].call
  }

  predicate Earlier<I, O>(history: seq<Operation<I, O>>, j: nat, i: nat, x: nat, y: nat) {
    var p, q := Point(history, i, x), Point(history, i, y);
    p < q || (p == q && (x == j || y != j))
  }

  /** The history has a linearization in which j is before i, although i returns when j is called. */
  lemma TouchingSwapped<I, O>(history: seq<Operation<I, O>>, j: nat, i: nat) returns (order: seq<nat>)
    requires CallsBeforeReturns(history) && i < |history| && j < |history| && history[i].ret == history[j].call
    ensures IdsBelow(order, |history|) && Distinct(order) && |order| == |history|
    ensures RespectsTime(history, order) && Precedes(order, j, i)
  {
    var leq := (x: nat, y: nat) => Earlier(history, j, i, x, y);
    var ids := Upto(|history|);
    order := SortedExists(ids, leq);
    PermutationDistinct(ids, order);
    forall k | 0 <= k < |order| ensures order[k] < |history| {
      assert order[k] in order;
    }
    forall a, b | 0 <= a < b < |order| ensures !(history[order[b]].ret < history[order[a]].call) {
      assert leq(order[a], order[b]);
    }
    forall k | 0 <= k < |order| && order[k] == i ensures j in order[..k] {
      assert ids[j] == j && j in order;
      var m :| 0 <= m < |order| && order[m] == j;
      assert !leq(order[k], order[m]);
      assert order[..k][m] == j;
    }
  }

  /** No linearization keeps them apart and has j before i. */
  lemma NotApart<I, O>(history: seq<Operation<I, O>>, j: nat, i: nat)
    requires CallsBeforeReturns(history) && Distinguishable(history)
    requires i < |history| && j < |history| && history[i].ret == history[j].call
    ensures !LinearizableTiesApart(After(history[j], history[i]), history)
  {
    var model := After(history[j], history[i]);
    forall order: seq<nat> | IsLinearization(model, history, order) ensures !RespectsTies(history, order) {
      RunAfter(history, j, i, order);
      FullOrder(order, |history|);
      BelowFacts(|history|);
      assert i in SetOf(order);
      var k :| 0 <= k < |order| && order[k] == i;
      assert j in order[..k];
      var m :| 0 <= m < k && order[m] == j;
    }
  }

  /** Every specification's verdict is independent of the sort exactly if the history has no ties. */
  lemma NoTiesExactly<I(!new), O(!new)>(history: seq<Operation<I, O>>)
    requires CallsBeforeReturns(history) && Distinguishable(history)
    ensures NoTies(history) <==> forall model: Model<bool, I, O> :: EverySortAgrees(model, history)
  {
    if NoTies(history) {
      forall model: Model<bool, I, O> ensures EverySortAgrees(model, history) {
        SortIndependence(model, history);
      }
    } else {
      var i: nat, j: nat :| i < |history| && j < |history| && history[i].ret == history[j].call;
      var model := After(history[j], history[i]);
      var order := TouchingSwapped(history, j, i);
      RunAfter(history, j, i, order);
      assert IsLinearization(model, history, order);
      NotApart(history, j, i);
      SortIndependence(model, history);
      assert !EverySortAgrees(model, history);
    }
  }
}
