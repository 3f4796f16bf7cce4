/** What it means for a concurrent history to be linearizable. */
module Linearizability {

  datatype Option<+T> = None | Some(value: T)

  /**
   * A sequential specification: step says whether the output is allowed, and the new state; equal is when
   * two states need not be told apart.
   */
  datatype Model<!S, !I, !O> = Model(init: S, step: (S, I, O) -> (bool, S), equal: (S, S) -> bool)

  predicate ShallowEqual<S(==)>(a: S, b: S) {
    a == b
  }

  /** What makes equal an equality of states: it is reflexive and transitive, and no step tells equal states apart. */
  ghost predicate EqualAgrees<S(!new), I(!new), O(!new)>(model: Model<S, I, O>) {
    && (forall s :: model.equal(s, s))
    && (forall s, t, u :: model.equal(s, t) && model.equal(t, u) ==> model.equal(s, u))
    && (forall s, t, i, o | model.equal(s, t) && model.step(s, i, o).0 ::
          model.step(t, i, o).0 && model.equal(model.step(s, i, o).1, model.step(t, i, o).1))
  }

  datatype Operation<+I, +O> = Operation(clientId: int, input: I, call: int, output: O, ret: int)

  function StepOp<S, I, O>(model: Model<S, I, O>, s: S, op: Operation<I, O>): (bool, S) {
    model.step(s, op.input, op.output)
  }

  lemma StepOpIs<S, I, O>(model: Model<S, I, O>, s: S, op: Operation<I, O>)
    ensures StepOp(model, s, op) == model.step(s, op.input, op.output)
  {}

  /** Every element of an order names one of n operations. */
  predicate IdsBelow(order: seq<nat>, n: nat) {
    forall i | 0 <= i < |order| :: order[i] < n
  }

  predicate Distinct<T(==)>(order: seq<T>) {
    forall i, j | 0 <= i < j < |order| :: order[i] != order[j]
  }

  /** Position of an element. */
  ghost function PosOf<T>(s: seq<T>, x: T): (i: nat)
    requires x in s
    ensures i < |s| && s[i] == x
  {
    var i :| 0 <= i < |s| && s[i] == x; i
  }

  /** The state reached by replaying an order from the initial state, or None if a step is refused. */
  function Run<S, I, O>(model: Model<S, I, O>, ops: seq<Operation<I, O>>, order: seq<nat>): Option<S>
    requires IdsBelow(order, |ops|)
  {
    if order == [] then Some(model.init) else
      var last := |order| - 1;
      match Run(model, ops, order[..last])
      case None => None
      case Some(s) =>
        var (ok, s') := StepOp(model, s, ops[order[last]]);
        if ok then Some(s') else None
  }

  /** Replaying one operation more. */
  lemma {:induction false} RunAppend<S, I, O>(model: Model<S, I, O>, ops: seq<Operation<I, O>>, order: seq<nat>, c: nat)
    requires IdsBelow(order, |ops|) && c < |ops|
    ensures IdsBelow(order + [c], |ops|)
    ensures Run(model, ops, order + [c]) ==
              match Run(model, ops, order)
              case None => None
              case Some(s) => if StepOp(model, s, ops[c]).0 then Some(StepOp(model, s, ops[c]).1) else None
  {
    assert (order + [c])[..|order|] == order;
  }

  /** No operation is placed before one that had returned when it was called. */
  predicate RespectsTime<I, O>(ops: seq<Operation<I, O>>, order: seq<nat>)
    requires IdsBelow(order, |ops|)
  {
    forall i, j | 0 <= i < j < |order| :: !(ops[order[j]].ret < ops[order[i]].call)
  }

  ghost predicate IsLinearization<S, I, O>(model: Model<S, I, O>, ops: seq<Operation<I, O>>, order: seq<nat>) {
    && |order| == |ops|
    && IdsBelow(order, |ops|)
    && Distinct(order)
    && Run(model, ops, order).Some?
    && RespectsTime(ops, order)
  }

  ghost predicate Linearizable<S, I, O>(model: Model<S, I, O>, ops: seq<Operation<I, O>>) {
    exists order: seq<nat> :: IsLinearization(model, ops, order)
  }

  // ---- partial linearizations ----

  ghost function SetOf(order: seq<nat>): set<nat> {
    set i | 0 <= i < |order| :: order[i]
  }

  /** Operation c may take effect next: it is pending and no pending operation returned before its call. */
  ghost predicate MayBeNext<I, O>(ops: seq<Operation<I, O>>, done: set<nat>, c: nat) {
    && c < |ops| && c !in done
    && forall d: nat | d < |ops| && d !in done :: !(ops[d].ret < ops[c].call)
  }

  /** A prefix of a candidate linearization: legal, and every element could be next when it was placed. */
  ghost predicate Partial<S, I, O>(model: Model<S, I, O>, ops: seq<Operation<I, O>>, order: seq<nat>) {
    && IdsBelow(order, |ops|)
    && Run(model, ops, order).Some?
    && forall i | 0 <= i < |order| :: MayBeNext(ops, SetOf(order[..i]), order[i])
  }

  lemma PrefixMembers(order: seq<nat>, j: nat)
    requires j <= |order|
    ensures forall k | 0 <= k < j :: order[k] in SetOf(order[..j])
    ensures forall i | 0 <= i <= j :: SetOf(order[..i]) <= SetOf(order[..j])
  {
    forall k | 0 <= k < j ensures order[k] in SetOf(order[..j]) {
      assert order[..j][k] == order[k];
    }
  }

  lemma PartialDistinct<S, I, O>(model: Model<S, I, O>, ops: seq<Operation<I, O>>, order: seq<nat>)
    requires Partial(model, ops, order)
    ensures IdsBelow(order, |ops|) && Distinct(order) && RespectsTime(ops, order)
  {
    forall i, j | 0 <= i < j < |order|
      ensures order[i] != order[j] && !(ops[order[j]].ret < ops[order[i]].call)
    {
      assert MayBeNext(ops, SetOf(order[..i]), order[i]);
      assert MayBeNext(ops, SetOf(order[..j]), order[j]);
      PrefixMembers(order, j);
    }
  }

  lemma {:induction false} PartialPrefix<S, I, O>(model: Model<S, I, O>, ops: seq<Operation<I, O>>, order: seq<nat>,
                                                  k: nat)
    requires Partial(model, ops, order) && k <= |order|
    ensures Partial(model, ops, order[..k])
    decreases |order| - k
  {
    if k == |order| {
      assert order[..k] == order;
    } else {
      PartialPrefix(model, ops, order, k + 1);
      assert order[..k + 1][..k] == order[..k];
      forall i | 0 <= i < k ensures MayBeNext(ops, SetOf(order[..k][..i]), order[..k][i]) {
        assert order[..k][..i] == order[..i];
        assert MayBeNext(ops, SetOf(order[..i]), order[i]);
      }
    }
  }

  lemma SetOfAppend(order: seq<nat>, c: nat)
    ensures SetOf(order + [c]) == SetOf(order) + {c}
  {
    var longer := order + [c];
    forall x | x in SetOf(order) + {c} ensures x in SetOf(longer) {
      if x == c {
        assert longer[|order|] == c;
      } else {
        var i :| 0 <= i < |order| && order[i] == x;
        assert longer[i] == x;
      }
    }
  }

  lemma {:induction false} DistinctSize(order: seq<nat>)
    requires Distinct(order)
    ensures |SetOf(order)| == |order|
  {
    if order != [] {
      var last := |order| - 1;
      DistinctSize(order[..last]);
      assert order == order[..last] + [order[last]];
      SetOfAppend(order[..last], order[last]);
    }
  }

  /** The naturals below n. */
  function Below(n: nat): set<nat> {
    if n == 0 then {} else Below(n - 1) + {n - 1}
  }

  lemma {:induction false} BelowFacts(n: nat)
    ensures |Below(n)| == n
    ensures forall x: nat :: x in Below(n) <==> x < n
  {
    if n > 0 {
      BelowFacts(n - 1);
      assert |Below(n - 1) + {n - 1}| == |Below(n - 1)| + 1;
    }
  }

  lemma SubsetSize<T>(a: set<T>, b: set<T>)
    requires a <= b
    ensures |a| <= |b|
    ensures |a| == |b| ==> a == b
  {
    assert b == a + (b - a);
  }

  /** A repetition-free order is no longer than the number of operations; one of full length has them all. */
  lemma {:induction false} FullOrder(order: seq<nat>, n: nat)
    requires IdsBelow(order, n) && Distinct(order)
    ensures |order| <= n
    ensures |order| == n ==> SetOf(order) == Below(n)
  {
    DistinctSize(order);
    BelowFacts(n);
    SubsetSize(SetOf(order), Below(n));
  }

  /** The linearizations are exactly the partial linearizations that hold every operation. */
  lemma LinearizationIffFullPartial<S, I, O>(model: Model<S, I, O>, ops: seq<Operation<I, O>>, order: seq<nat>)
    requires forall c: nat | c < |ops| :: ops[c].call <= ops[c].ret
    ensures IsLinearization(model, ops, order) <==> Partial(model, ops, order) && |order| == |ops|
  {
    if Partial(model, ops, order) {
      PartialDistinct(model, ops, order);
    }
    if IsLinearization(model, ops, order) {
      FullOrder(order, |ops|);
      BelowFacts(|ops|);
      forall i | 0 <= i < |order| ensures MayBeNext(ops, SetOf(order[..i]), order[i]) {
        PrefixMembers(order, i);
        forall d: nat | d < |ops| && d !in SetOf(order[..i]) ensures !(ops[d].ret < ops[order[i]].call) {
          assert d in SetOf(order);
          var j :| 0 <= j < |order| && order[j] == d;
          assert i <= j;
        }
      }
    }
  }
}
