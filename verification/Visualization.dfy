/** The data behind the visualization: partial linearizations replayed step by step. */
module Visualization {
  import opened Linearizability
  import opened Search
  import opened Entries
  import opened Sorting
  import opened Histories

  datatype HistoryElement = HistoryElement(clientId: int, start: int, end: int)

  /** One step of a replay: the operation and the state after it. */
  datatype LinearizationStep<S> = LinearizationStep(index: nat, state: S)

  datatype PartitionData<S> = PartitionData(
    history: seq<HistoryElement>,
    partialLinearizations: seq<seq<LinearizationStep<S>>>,
    largest: map<nat, nat>)

  ghost predicate AllPartial<S, I, O>(model: Model<S, I, O>, ops: seq<Operation<I, O>>, partials: seq<seq<nat>>) {
    forall p | p in partials :: Partial(model, ops, p)
  }

  /** The values and times of the entries, by operation. */
  ghost predicate Tabulated<I, O>(entries: seq<Entry<I, O>>, n: nat, history: seq<HistoryElement>,
                                  callValue: map<nat, I>, returnValue: map<nat, O>)
    requires n <= |entries|
  {
    forall a: nat | a < n :: TabulatedAt(entries[a], history, callValue, returnValue)
  }

  ghost predicate TabulatedAt<I, O>(e: Entry<I, O>, history: seq<HistoryElement>, callValue: map<nat, I>,
                                    returnValue: map<nat, O>)
  {
    e.id < |history| &&
    match e
    case CallEntry(input, id, time, clientId) =>
      id in callValue && callValue[id] == input && history[id].start == time && history[id].clientId == clientId
    case ReturnEntry(output, id, time, _) =>
      id in returnValue && returnValue[id] == output && history[id].end == time
  }

  method Tabulate<I, O>(entries: seq<Entry<I, O>>)
    returns (history: seq<HistoryElement>, callValue: map<nat, I>, returnValue: map<nat, O>)
    requires WellFormed(entries)
    ensures |history| == |entries| / 2 && Tabulated(entries, |entries|, history, callValue, returnValue)
  {
    var n := |entries| / 2;
    history := seq(n, _ => HistoryElement(0, 0, 0));
    callValue, returnValue := map[], map[];
    for a := 0 to |entries|
      invariant |history| == n
      invariant Tabulated(entries, a, history, callValue, returnValue)
    {
      hide HasPair;
      var elem := entries[a];
      match elem {
        case CallEntry(input, id, time, clientId) =>
          history := history[id := history[id].(clientId := clientId, start := time)];
          callValue := callValue[id := input];
        case ReturnEntry(output, id, time, _) =>
          history := history[id := history[id].(end := time)];
          returnValue := returnValue[id := output];
      }
    }
  }

  lemma TabulatedOps<I, O>(entries: seq<Entry<I, O>>, history: seq<HistoryElement>,
                           callValue: map<nat, I>, returnValue: map<nat, O>, id: nat)
    requires WellFormed(entries) && Tabulated(entries, |entries|, history, callValue, returnValue)
    requires id < |entries| / 2
    ensures id in callValue && callValue[id] == Ops(entries)[id].input
    ensures id in returnValue && returnValue[id] == Ops(entries)[id].output
  {
    OpOfPair(entries, id);
    var op := Ops(entries)[id];
    assert TabulatedAt(entries[op.call], history, callValue, returnValue);
    assert TabulatedAt(entries[op.ret], history, callValue, returnValue);
  }

  /** Every operation is shown with its client and the times of its call and return. */
  ghost predicate Shows<I, O>(entries: seq<Entry<I, O>>, history: seq<HistoryElement>)
    requires WellFormed(entries)
  {
    && |history| == |Ops(entries)|
    && forall id: nat | id < |history| ::
         var op := Ops(entries)[id];
         && op.call >= 0 && op.ret >= 0 && Pair(entries, id, op.call, op.ret)
         && history[id] == HistoryElement(entries[op.call].clientId, entries[op.call].time, entries[op.ret].time)
  }

  lemma TabulatedShows<I, O>(entries: seq<Entry<I, O>>, history: seq<HistoryElement>,
                             callValue: map<nat, I>, returnValue: map<nat, O>)
    requires WellFormed(entries) && |history| == |entries| / 2
    requires Tabulated(entries, |entries|, history, callValue, returnValue)
    ensures Shows(entries, history)
  {
    forall id: nat | id < |history|
      ensures var op := Ops(entries)[id];
              && op.call >= 0 && op.ret >= 0 && Pair(entries, id, op.call, op.ret)
              && history[id] == HistoryElement(entries[op.call].clientId, entries[op.call].time, entries[op.ret].time)
    {
      OpOfPair(entries, id);
      var op := Ops(entries)[id];
      assert TabulatedAt(entries[op.call], history, callValue, returnValue);
      assert TabulatedAt(entries[op.ret], history, callValue, returnValue);
    }
  }

  /** What is shown of an operation is its own client and its own times. */
  lemma ShowsOperations<I, O>(history: seq<Operation<I, O>>, entries: seq<Entry<I, O>>, shown: seq<HistoryElement>,
                              id: nat)
    requires CallsBeforeReturns(history) && EntriesOf(history, entries) && WellFormed(entries)
    requires Shows(entries, shown) && id < |history|
    ensures |shown| == |history|
    ensures shown[id] == HistoryElement(history[id].clientId, history[id].call, history[id].ret)
  {
    EntriesWellFormed(history, entries);
    SameOperation(history, entries, id);
    OpOfPair(entries, id);
  }

  predicate LongerFirst(a: seq<nat>, b: seq<nat>) {
    |a| >= |b|
  }

  /** Step j of a replay shows operation order[j] and the state it leads to. */
  ghost predicate Replays<S, I, O>(model: Model<S, I, O>, ops: seq<Operation<I, O>>, order: seq<nat>,
                                   steps: seq<LinearizationStep<S>>)
  {
    IdsBelow(order, |ops|) && |steps| == |order|
        && forall j: nat | j < |order| :: ReplayedAt(model, ops, order, steps, j)
  }

  ghost predicate ReplayedAt<S, I, O>(model: Model<S, I, O>, ops: seq<Operation<I, O>>, order: seq<nat>,
                                      steps: seq<LinearizationStep<S>>, j: nat)
    requires IdsBelow(order, |ops|) && j < |order| == |steps|
  {
    steps[j].index == order[j] && Run(model, ops, order[..j + 1]) == Some(steps[j].state)
  }

  /** Replays one partial linearization; where the source would panic there is an assertion instead. */
  method Replay<S, I, O>(model: Model<S, I, O>, ghost ops: seq<Operation<I, O>>, partial: seq<nat>,
                         callValue: map<nat, I>, returnValue: map<nat, O>) returns (steps: seq<LinearizationStep<S>>)
    requires Partial(model, ops, partial)
    requires forall id: nat | id < |ops| ::
               id in callValue && callValue[id] == ops[id].input
               && id in returnValue && returnValue[id] == ops[id].output
    ensures Replays(model, ops, partial, steps)
  {
    hide MayBeNext, SetOf;
    steps := [];
    var state := model.init;
    assert partial[..0] == [];
    for j := 0 to |partial|
      invariant |steps| == j && Run(model, ops, partial[..j]) == Some(state)
      invariant forall k: nat | k < j ::
                  steps[k].index == partial[k] && Run(model, ops, partial[..k + 1]) == Some(steps[k].state)
    {
      var histId := partial[j];
      var (ok, next) := model.step(state, callValue[histId], returnValue[histId]);
      PrefixRuns(model, ops, partial, j);
      assert ok;
      state := next;
      steps := steps + [LinearizationStep(histId, state)];
    }
  }

  /** In a legal order every step is accepted. */
  lemma {:induction false} PrefixRuns<S, I, O>(model: Model<S, I, O>, ops: seq<Operation<I, O>>, order: seq<nat>,
                                               j: nat)
    requires Partial(model, ops, order) && j < |order|
    ensures Run(model, ops, order[..j]).Some?
    ensures var (ok, next) := StepOp(model, Run(model, ops, order[..j]).value, ops[order[j]]);
            ok && Run(model, ops, order[..j + 1]) == Some(next)
  {
    PartialPrefix(model, ops, order, j + 1);
    PartialPrefix(model, ops, order, j);
    assert order[..j + 1][..j] == order[..j];
  }

  /** Among the first i lists, largest[id] is the first of the longest ones that contain id. */
  ghost predicate LargestAmong(partials: seq<seq<nat>>, i: nat, largest: map<nat, nat>)
    requires i <= |partials|
  {
    && (forall k, id | 0 <= k < i && id in partials[k] :: id in largest)
    && (forall id | id in largest :: LargestFor(partials, i, largest[id], id))
  }

  ghost predicate LargestFor(partials: seq<seq<nat>>, i: nat, best: nat, id: nat)
    requires i <= |partials|
  {
    && best < i && id in partials[best]
    && (forall k | 0 <= k < i && id in partials[k] :: |partials[k]| <= |partials[best]|)
    && (forall k | 0 <= k < best && id in partials[k] :: |partials[k]| < |partials[best]|)
  }

  function SizeSoFar(sizes: map<nat, nat>, id: nat): nat {
    if id in sizes then sizes[id] else 0
  }

  /** Only operations seen on list i whose best list was shorter have changed: they point to list i now. */
  ghost predicate Updated(partial: seq<nat>, i: nat, seen: seq<nat>, largest: map<nat, nat>, sizes: map<nat, nat>,
                          largest': map<nat, nat>, sizes': map<nat, nat>)
  {
    forall id: nat :: UpdatedAt(partial, i, seen, largest, sizes, largest', sizes', id)
  }

  ghost predicate UpdatedAt(partial: seq<nat>, i: nat, seen: seq<nat>, largest: map<nat, nat>, sizes: map<nat, nat>,
                            largest': map<nat, nat>, sizes': map<nat, nat>, id: nat)
  {
    if id in seen && SizeSoFar(sizes, id) < |partial| then
      id in largest' && largest'[id] == i && id in sizes' && sizes'[id] == |partial|
    else
      && (id in largest' <==> id in largest) && (id in sizes' <==> id in sizes)
      && (id in largest' && id in largest ==> largest'[id] == largest[id])
      && (id in sizes' && id in sizes ==> sizes'[id] == sizes[id])
  }

  /** The sizes table goes with the index table. */
  ghost predicate SizesFit(partials: seq<seq<nat>>, i: nat, largest: map<nat, nat>, sizes: map<nat, nat>)
    requires i <= |partials|
  {
    && sizes.Keys == largest.Keys
    && forall id | id in largest :: largest[id] < i && sizes[id] == |partials[largest[id]]|
  }

  method UpdateLargest(partial: seq<nat>, i: nat, largest: map<nat, nat>, sizes: map<nat, nat>)
    returns (largest': map<nat, nat>, sizes': map<nat, nat>)
    ensures Updated(partial, i, partial, largest, sizes, largest', sizes')
  {
    largest', sizes' := largest, sizes;
    for j := 0 to |partial|
      invariant Updated(partial, i, partial[..j], largest, sizes, largest', sizes')
    {
      var histId := partial[j];
      assert partial[..j + 1] == partial[..j] + [histId];
      ghost var before, sizesBefore := largest', sizes';
      assert UpdatedAt(partial, i, partial[..j], largest, sizes, before, sizesBefore, histId);
      if SizeSoFar(sizes', histId) < |partial| {
        sizes' := sizes'[histId := |partial|];
        largest' := largest'[histId := i];
      }
      ghost var seen := partial[..j + 1];
      forall id: nat ensures UpdatedAt(partial, i, seen, largest, sizes, largest', sizes', id) {
        assert UpdatedAt(partial, i, partial[..j], largest, sizes, before, sizesBefore, id);
      }
    }
    assert partial[..|partial|] == partial;
  }

  lemma UpdatedLargest(partials: seq<seq<nat>>, i: nat, largest: map<nat, nat>, sizes: map<nat, nat>,
                       largest': map<nat, nat>, sizes': map<nat, nat>)
    requires i < |partials| && LargestAmong(partials, i, largest) && SizesFit(partials, i, largest, sizes)
    requires Updated(partials[i], i, partials[i], largest, sizes, largest', sizes')
    ensures LargestAmong(partials, i + 1, largest') && SizesFit(partials, i + 1, largest', sizes')
  {
    forall id: nat
      ensures id in largest' <==> id in sizes'
      ensures id in largest' ==> LargestFor(partials, i + 1, largest'[id], id) && sizes'[id] == |partials[largest'[id]]|
    {
      assert UpdatedAt(partials[i], i, partials[i], largest, sizes, largest', sizes', id);
      if id in largest {
        assert LargestFor(partials, i, largest[id], id);
      }
    }
    forall k, id | 0 <= k < i + 1 && id in partials[k] ensures id in largest' {
      assert UpdatedAt(partials[i], i, partials[i], largest, sizes, largest', sizes', id);
    }
  }

  method VisualizePartition<S, I, O>(model: Model<S, I, O>, entries: seq<Entry<I, O>>, partials: seq<seq<nat>>)
    returns (data: PartitionData<S>, ghost sorted: seq<seq<nat>>)
    requires WellFormed(entries) && AllPartial(model, Ops(entries), partials)
    ensures multiset(sorted) == multiset(partials) && forall i, j | 0 <= i < j < |sorted| :: |sorted[i]| >= |sorted[j]|
    ensures AllPartial(model, Ops(entries), sorted) && |data.partialLinearizations| == |sorted|
    ensures forall i | 0 <= i < |sorted| :: Replays(model, Ops(entries), sorted[i], data.partialLinearizations[i])
    ensures LargestAmong(sorted, |sorted|, data.largest)
    ensures Shows(entries, data.history)
  {
    hide Tabulated, Partial, WellFormed, Ops, Replays, LargestAmong, SizesFit, Updated, MayBeNext, Run;
    ghost var ops := Ops(entries);
    var history, callValue, returnValue := Tabulate(entries);
    var ordered := Sort(partials, LongerFirst);
    sorted := ordered;
    SameMembers(partials, ordered);
    forall id: nat | id < |ops|
      ensures id in callValue && callValue[id] == ops[id].input
              && id in returnValue && returnValue[id] == ops[id].output
    {
      OpsLength(entries);
      TabulatedOps(entries, history, callValue, returnValue, id);
    }
    var linearizations: seq<seq<LinearizationStep<S>>> := [];
    var largestIndex: map<nat, nat>, largestSize: map<nat, nat> := map[], map[];
    NothingYet(ordered);
    for i := 0 to |ordered|
      invariant |linearizations| == i
      invariant forall k | 0 <= k < i ::
                  Partial(model, ops, ordered[k]) && Replays(model, ops, ordered[k], linearizations[k])
      invariant LargestAmong(ordered, i, largestIndex) && SizesFit(ordered, i, largestIndex, largestSize)
    {
      assert ordered[i] in ordered;
      var steps := Replay(model, ops, ordered[i], callValue, returnValue);
      linearizations := linearizations + [steps];
      ghost var indexBefore, sizeBefore := largestIndex, largestSize;
      largestIndex, largestSize := UpdateLargest(ordered[i], i, largestIndex, largestSize);
      UpdatedLargest(ordered, i, indexBefore, sizeBefore, largestIndex, largestSize);
    }
    TabulatedShows(entries, history, callValue, returnValue);
    data := PartitionData(history, linearizations, largestIndex);
  }

  lemma SameMembers<T>(a: seq<T>, b: seq<T>)
    requires multiset(a) == multiset(b)
    ensures forall x :: x in a <==> x in b
  {
    forall x ensures x in a <==> x in b {
      assert x in multiset(a) <==> x in multiset(b);
    }
  }

  lemma NothingYet(partials: seq<seq<nat>>)
    ensures LargestAmong(partials, 0, map[]) && SizesFit(partials, 0, map[], map[])
  {}

  lemma OpsLength<I, O>(entries: seq<Entry<I, O>>)
    requires WellFormed(entries)
    ensures |Ops(entries)| == |entries| / 2
  {}

  /**
   * When the lists hold a longest partial linearization through every operation, as those of a completed check do,
   * Largest points to one, and leaves out exactly the operations that are on none.
   */
  lemma LargestIsMaximal<S, I, O>(model: Model<S, I, O>, ops: seq<Operation<I, O>>, sorted: seq<seq<nat>>,
                                  largest: map<nat, nat>, id: nat)
    requires AllPartial(model, ops, sorted) && ListsLongest(model, ops, sorted)
        && LargestAmong(sorted, |sorted|, largest)
    ensures id in largest <==> exists order: seq<nat> :: Partial(model, ops, order) && id in SetOf(order)
    ensures id in largest ==> largest[id] < |sorted| && id in sorted[largest[id]]
    ensures id in largest ==> forall order: seq<nat> | Partial(model, ops, order) && id in SetOf(order) ::
              |sorted[largest[id]]| >= |order|
  {
    forall order: seq<nat> | Partial(model, ops, order) && id in SetOf(order)
      ensures id in largest && largest[id] < |sorted| && |sorted[largest[id]]| >= |order|
    {
      assert LongEnough(sorted, id, |order|);
      var k :| 0 <= k < |sorted| && id in sorted[k] && |sorted[k]| >= |order|;
      assert LargestFor(sorted, |sorted|, largest[id], id);
    }
    if id in largest {
      assert LargestFor(sorted, |sorted|, largest[id], id);
      var order := sorted[largest[id]];
      assert order in sorted;
      assert id in SetOf(order);
    }
  }
}
