/** From timed operations to the entries the checker scans. */
module Histories {
  import opened Linearizability
  import opened Entries
  import opened Sorting

  predicate CallsBeforeReturns<I, O>(history: seq<Operation<I, O>>) {
    forall i | 0 <= i < |history| :: history[i].call < history[i].ret
  }

  /** No operation returns at the very time another is called. */
  predicate NoTies<I, O>(history: seq<Operation<I, O>>) {
    forall i, j | 0 <= i < |history| && 0 <= j < |history| :: history[i].ret != history[j].call
  }

  function CallOf<I, O>(op: Operation<I, O>, id: nat): Entry<I, O> {
    CallEntry(op.input, id, op.call, op.clientId)
  }

  function ReturnOf<I, O>(op: Operation<I, O>, id: nat): Entry<I, O> {
    ReturnEntry(op.output, id, op.ret, op.clientId)
  }

  /** The entries of a history before they are sorted. */
  function Unsorted<I, O>(history: seq<Operation<I, O>>): seq<Entry<I, O>> {
    if history == [] then [] else
      var id := |history| - 1;
      Unsorted(history[..id]) + [CallOf(history[id], id), ReturnOf(history[id], id)]
  }

  predicate ByTime<I, O>(a: Entry<I, O>, b: Entry<I, O>) {
    a.time <= b.time
  }

  ghost predicate EntriesOf<I, O>(history: seq<Operation<I, O>>, entries: seq<Entry<I, O>>) {
    Ordered(ByTime, entries) && multiset(entries) == multiset(Unsorted(history))
  }

  method MakeEntries<I(!new), O(!new)>(history: seq<Operation<I, O>>) returns (entries: seq<Entry<I, O>>)
    ensures EntriesOf(history, entries)
  {
    entries := [];
    var id := 0;
    while id < |history|
      invariant 0 <= id <= |history|
      invariant entries == Unsorted(history[..id])
    {
      assert history[..id + 1][..id] == history[..id];
      entries := entries + [CallOf(history[id], id)];
      entries := entries + [ReturnOf(history[id], id)];
      id := id + 1;
    }
    assert history[..|history|] == history;
    entries := Sort(entries, ByTime);
  }

  // ---- the sorted entries are a well-formed list for the same operations ----

  ghost predicate EntryIn<I, O>(history: seq<Operation<I, O>>, e: Entry<I, O>) {
    e.id < |history| && e == if e.CallEntry? then CallOf(history[e.id], e.id) else ReturnOf(history[e.id], e.id)
  }

  lemma {:induction false} UnsortedFacts<I, O>(history: seq<Operation<I, O>>)
    ensures |Unsorted(history)| == 2 * |history|
    ensures forall e :: e in Unsorted(history) <==> EntryIn(history, e)
    ensures Distinct(Unsorted(history))
  {
    if history != [] {
      var id := |history| - 1;
      var before := Unsorted(history[..id]);
      var last := [CallOf(history[id], id), ReturnOf(history[id], id)];
      UnsortedFacts(history[..id]);
      assert Unsorted(history) == before + last;
      forall k | 0 <= k < |before| ensures before[k].id < id && EntryIn(history, before[k]) {
        assert before[k] in before;
        assert EntryIn(history[..id], before[k]);
      }
      forall e ensures e in before + last <==> EntryIn(history, e) {
        if EntryIn(history, e) {
          if e.id == id {
            assert e == last[0] || e == last[1];
          } else {
            assert EntryIn(history[..id], e);
            assert e in before;
          }
        }
      }
    }
  }

  lemma EntriesFacts<I, O>(history: seq<Operation<I, O>>, entries: seq<Entry<I, O>>)
    requires EntriesOf(history, entries)
    ensures |entries| == 2 * |history| && Distinct(entries)
    ensures forall e :: e in entries <==> EntryIn(history, e)
  {
    UnsortedFacts(history);
    PermutationDistinct(Unsorted(history), entries);
  }

  lemma EntriesWellFormed<I, O>(history: seq<Operation<I, O>>, entries: seq<Entry<I, O>>)
    requires CallsBeforeReturns(history) && EntriesOf(history, entries)
    ensures WellFormed(entries) && |entries| == 2 * |history|
  {
    EntriesFacts(history, entries);
    forall a | 0 <= a < |entries| ensures EntryIn(history, entries[a]) {
      assert entries[a] in entries;
    }
    forall a, b | 0 <= a < b < |entries| && entries[a].id == entries[b].id
      ensures entries[a].CallEntry? && entries[b].ReturnEntry?
    {
      assert entries[a] != entries[b] && ByTime(entries[a], entries[b]);
    }
    forall id: nat | id < |history| ensures HasPair(entries, id) {
      assert EntryIn(history, CallOf(history[id], id)) && EntryIn(history, ReturnOf(history[id], id));
      var c: nat :| c < |entries| && entries[c] == CallOf(history[id], id);
      var r: nat :| r < |entries| && entries[r] == ReturnOf(history[id], id);
      assert Pair(entries, id, c, r);
    }
  }

  /** Operation id of the entries is operation id of the history, timed by positions instead. */
  lemma SameOperation<I, O>(history: seq<Operation<I, O>>, entries: seq<Entry<I, O>>, id: nat)
    requires EntriesOf(history, entries) && WellFormed(entries) && |entries| == 2 * |history| && id < |history|
    ensures var (op, timed) := (Ops(entries)[id], history[id]);
            && op.input == timed.input && op.output == timed.output && op.clientId == timed.clientId
            && 0 <= op.call < op.ret < |entries|
            && entries[op.call].time == timed.call && entries[op.ret].time == timed.ret
            && entries[op.call].clientId == entries[op.ret].clientId == timed.clientId
  {
    OpOfPair(entries, id);
    EntriesFacts(history, entries);
    assert entries[Ops(entries)[id].call] in entries && entries[Ops(entries)[id].ret] in entries;
  }

  /** Replay looks at inputs and outputs only. */
  lemma {:induction false} RunIgnoresTimes<S, I, O>(model: Model<S, I, O>, a: seq<Operation<I, O>>,
                                                    b: seq<Operation<I, O>>, order: seq<nat>)
    requires |a| == |b| && IdsBelow(order, |a|)
    requires forall i | 0 <= i < |a| :: a[i].input == b[i].input && a[i].output == b[i].output
    ensures Run(model, a, order) == Run(model, b, order)
  {
    if order != [] {
      RunIgnoresTimes(model, a, b, order[..|order| - 1]);
    }
  }

  /** An order that also keeps operations apart that only touch: one returns when the other is called. */
  ghost predicate LinearizableTiesApart<S, I, O>(model: Model<S, I, O>, ops: seq<Operation<I, O>>) {
    exists order: seq<nat> :: IsLinearization(model, ops, order) && RespectsTies(ops, order)
  }

  predicate RespectsTies<I, O>(ops: seq<Operation<I, O>>, order: seq<nat>)
    requires IdsBelow(order, |ops|)
  {
    forall i, j | 0 <= i < j < |order| :: !(ops[order[j]].ret <= ops[order[i]].call)
  }

  /**
   * However the unstable sort orders entries of equal time, the verdict on the sorted list lies between
   * the two readings of ties; without ties it is the verdict on the timed history.
   */
  lemma EntriesVerdict<S, I, O>(model: Model<S, I, O>, history: seq<Operation<I, O>>, entries: seq<Entry<I, O>>)
    requires CallsBeforeReturns(history) && EntriesOf(history, entries)
    ensures WellFormed(entries)
    ensures Linearizable(model, Ops(entries)) ==> Linearizable(model, history)
    ensures LinearizableTiesApart(model, history) ==> Linearizable(model, Ops(entries))
    ensures NoTies(history) ==> (Linearizable(model, Ops(entries)) <==> Linearizable(model, history))
  {
    EntriesWellFormed(history, entries);
    var ops := Ops(entries);
    forall id: nat | id < |history|
      ensures ops[id].input == history[id].input && ops[id].output == history[id].output
    {
      SameOperation(history, entries, id);
    }
    if Linearizable(model, ops) {
      var order: seq<nat> :| IsLinearization(model, ops, order);
      RunIgnoresTimes(model, ops, history, order);
      TimesToPositions(history, entries, order);
      assert IsLinearization(model, history, order);
    }
    if LinearizableTiesApart(model, history) {
      var order: seq<nat> :| IsLinearization(model, history, order) && RespectsTies(history, order);
      PositionsFromTies(model, history, entries, order);
    }
    if NoTies(history) && Linearizable(model, history) {
      var order: seq<nat> :| IsLinearization(model, history, order);
      PositionsFromTies(model, history, entries, order);
    }
  }

  lemma TimesSorted<I, O>(entries: seq<Entry<I, O>>, a: nat, b: nat)
    requires Ordered(ByTime, entries) && a < |entries| && b < |entries|
    ensures a < b ==> entries[a].time <= entries[b].time
  {
    assert a < b ==> ByTime(entries[a], entries[b]);
  }

  lemma TimesToPositions<I, O>(history: seq<Operation<I, O>>, entries: seq<Entry<I, O>>, order: seq<nat>)
    requires EntriesOf(history, entries) && WellFormed(entries) && |entries| == 2 * |history|
    requires IdsBelow(order, |history|) && RespectsTime(Ops(entries), order)
    ensures RespectsTime(history, order)
  {
    forall i, j | 0 <= i < j < |order| ensures !(history[order[j]].ret < history[order[i]].call) {
      SameOperation(history, entries, order[i]);
      SameOperation(history, entries, order[j]);
      var c, r := Ops(entries)[order[i]].call, Ops(entries)[order[j]].ret;
      TimesSorted(entries, c, r);
    }
  }

  lemma PositionsFromTies<S, I, O>(model: Model<S, I, O>, history: seq<Operation<I, O>>, entries: seq<Entry<I, O>>,
                                   order: seq<nat>)
    requires EntriesOf(history, entries) && WellFormed(entries) && |entries| == 2 * |history|
    requires IsLinearization(model, history, order) && (RespectsTies(history, order) || NoTies(history))
    ensures Linearizable(model, Ops(entries))
  {
    var ops := Ops(entries);
    forall id: nat | id < |history|
      ensures ops[id].input == history[id].input && ops[id].output == history[id].output
    {
      SameOperation(history, entries, id);
    }
    RunIgnoresTimes(model, ops, history, order);
    forall i, j | 0 <= i < j < |order| ensures !(ops[order[j]].ret < ops[order[i]].call) {
      SameOperation(history, entries, order[i]);
      SameOperation(history, entries, order[j]);
      var c, r := ops[order[i]].call, ops[order[j]].ret;
      TimesSorted(entries, r, c);
    }
    assert IsLinearization(model, ops, order);
  }

  // ---- both readings of ties are reached ----

  /** At equal times returns come before calls. */
  predicate ReturnsFirst<I, O>(a: Entry<I, O>, b: Entry<I, O>) {
    a.time < b.time || (a.time == b.time && (a.ReturnEntry? || b.CallEntry?))
  }

  /** At equal times calls come before returns. */
  predicate CallsFirst<I, O>(a: Entry<I, O>, b: Entry<I, O>) {
    a.time < b.time || (a.time == b.time && (a.CallEntry? || b.ReturnEntry?))
  }

  /** An order replays on the entries as on the history, and the entries of its operations are known. */
  lemma {:induction false} OrderOfEntries<S, I, O>(model: Model<S, I, O>, history: seq<Operation<I, O>>,
                                                   entries: seq<Entry<I, O>>, order: seq<nat>)
    requires EntriesOf(history, entries) && WellFormed(entries) && |entries| == 2 * |history|
    requires IdsBelow(order, |history|)
    ensures Run(model, Ops(entries), order) == Run(model, history, order)
    ensures forall i | 0 <= i < |order| ::
              var (op, timed) := (Ops(entries)[order[i]], history[order[i]]);
              && 0 <= op.call < op.ret < |entries|
              && entries[op.call] == CallOf(timed, order[i]) && entries[op.ret] == ReturnOf(timed, order[i])
  {
    forall id: nat | id < |history|
      ensures Ops(entries)[id].input == history[id].input && Ops(entries)[id].output == history[id].output
      ensures var (op, timed) := (Ops(entries)[id], history[id]);
              && 0 <= op.call < op.ret < |entries|
              && entries[op.call] == CallOf(timed, id) && entries[op.ret] == ReturnOf(timed, id)
    {
      SameOperation(history, entries, id);
      EntriesFacts(history, entries);
      OpOfPair(entries, id);
      assert EntryIn(history, entries[Ops(entries)[id].call]) && EntryIn(history, entries[Ops(entries)[id].ret]);
    }
    RunIgnoresTimes(model, Ops(entries), history, order);
  }

  /** Sorted with returns first, the entries are linearizable exactly if touching operations can be kept apart. */
  lemma ReturnsFirstVerdict<S, I(!new), O(!new)>(model: Model<S, I, O>, history: seq<Operation<I, O>>)
    returns (entries: seq<Entry<I, O>>)
    requires CallsBeforeReturns(history)
    ensures EntriesOf(history, entries) && WellFormed(entries)
    ensures Linearizable(model, Ops(entries)) <==> LinearizableTiesApart(model, history)
  {
    hide Unsorted, WellFormed, Run;
    entries := SortedExists(Unsorted(history), ReturnsFirst);
    assert Ordered(ByTime, entries) by {
      forall i, j | 0 <= i < j < |entries| ensures ByTime(entries[i], entries[j]) {
        assert ReturnsFirst(entries[i], entries[j]);
      }
    }
    EntriesVerdict(model, history, entries);
    EntriesWellFormed(history, entries);
    var ops := Ops(entries);
    if Linearizable(model, ops) {
      var order: seq<nat> :| IsLinearization(model, ops, order);
      OrderOfEntries(model, history, entries, order);
      TimesToPositions(history, entries, order);
      forall i, j | 0 <= i < j < |order| ensures !(history[order[j]].ret <= history[order[i]].call) {
        var c, r := ops[order[i]].call, ops[order[j]].ret;
        assert c != r && !(r < c);
        assert ReturnsFirst(entries[c], entries[r]);
      }
      assert IsLinearization(model, history, order) && RespectsTies(history, order);
    }
  }

  /** Sorted with calls first, the entries are linearizable exactly if the timed history is. */
  lemma CallsFirstVerdict<S, I(!new), O(!new)>(model: Model<S, I, O>, history: seq<Operation<I, O>>)
    returns (entries: seq<Entry<I, O>>)
    requires CallsBeforeReturns(history)
    ensures EntriesOf(history, entries) && WellFormed(entries)
    ensures Linearizable(model, Ops(entries)) <==> Linearizable(model, history)
  {
    hide Unsorted, WellFormed, Run;
    entries := SortedExists(Unsorted(history), CallsFirst);
    assert Ordered(ByTime, entries) by {
      forall i, j | 0 <= i < j < |entries| ensures ByTime(entries[i], entries[j]) {
        assert CallsFirst(entries[i], entries[j]);
      }
    }
    EntriesVerdict(model, history, entries);
    EntriesWellFormed(history, entries);
    var ops := Ops(entries);
    if Linearizable(model, history) {
      var order: seq<nat> :| IsLinearization(model, history, order);
      OrderOfEntries(model, history, entries, order);
      forall i, j | 0 <= i < j < |order| ensures !(ops[order[j]].ret < ops[order[i]].call) {
        assert history[order[i]].call <= history[order[j]].ret;
      }
      assert IsLinearization(model, ops, order);
    }
  }

  /** Every way the unstable sort may order the entries gives the verdict on the timed history. */
  ghost predicate EverySortAgrees<S, I(!new), O(!new)>(model: Model<S, I, O>, history: seq<Operation<I, O>>) {
    forall entries | EntriesOf(history, entries) ::
      WellFormed(entries) && (Linearizable(model, Ops(entries)) <==> Linearizable(model, history))
  }

  /**
   * The exact condition: the verdict is that on the timed history whatever the sort does with equal times if and
   * only if a linearizable history is so even with touching operations kept apart. Without ties it always is.
   */
  lemma SortIndependence<S, I(!new), O(!new)>(model: Model<S, I, O>, history: seq<Operation<I, O>>)
    requires CallsBeforeReturns(history)
    ensures EverySortAgrees(model, history) <==>
              (Linearizable(model, history) ==> LinearizableTiesApart(model, history))
    ensures NoTies(history) ==> EverySortAgrees(model, history)
    ensures !EverySortAgrees(model, history) ==>
              exists a, b :: EntriesOf(history, a) && EntriesOf(history, b) && WellFormed(a) && WellFormed(b)
                             && Linearizable(model, Ops(a)) && !Linearizable(model, Ops(b))
  {
    forall entries | EntriesOf(history, entries)
      ensures WellFormed(entries)
      ensures Linearizable(model, Ops(entries)) ==> Linearizable(model, history)
      ensures LinearizableTiesApart(model, history) ==> Linearizable(model, Ops(entries))
      ensures NoTies(history) ==> (Linearizable(model, Ops(entries)) <==> Linearizable(model, history))
    {
      EntriesVerdict(model, history, entries);
    }
    var returnsFirst := ReturnsFirstVerdict(model, history);
    var callsFirst := CallsFirstVerdict(model, history);
  }
}
