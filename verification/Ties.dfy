/** Why ties matter: when one operation returns at the time another is called, the unstable sort decides. */
module Ties {
  import opened Linearizability
  import opened Entries
  import opened Histories
  import opened KvModel

  const PUT: KvOperation := Operation(0, KvInput(1, "x", "a"), 0, KvOutput(""), 1)
  const GET: KvOperation := Operation(1, KvInput(0, "x", ""), 1, KvOutput(""), 2)

  /** The put returns at the time the get is called. */
  const HISTORY: seq<KvOperation> := [PUT, GET]

  const CALL_FIRST: seq<Entry<KvInput, KvOutput>> :=
    [CallOf(PUT, 0), CallOf(GET, 1), ReturnOf(PUT, 0), ReturnOf(GET, 1)]
  const RETURN_FIRST: seq<Entry<KvInput, KvOutput>> :=
    [CallOf(PUT, 0), ReturnOf(PUT, 0), CallOf(GET, 1), ReturnOf(GET, 1)]

  lemma SwapMiddle<T>(a: T, b: T, c: T, d: T)
    ensures multiset([a, b, c, d]) == multiset([a, c, b, d])
  {}

  lemma UnsortedPair(p: KvOperation, q: KvOperation)
    ensures Unsorted([p, q]) == [CallOf(p, 0), ReturnOf(p, 0), CallOf(q, 1), ReturnOf(q, 1)]
  {
    assert [p, q][..1] == [p] && [p][..0] == [];
    assert Unsorted([p]) == [CallOf(p, 0), ReturnOf(p, 0)];
  }

  lemma BothSorted()
    ensures EntriesOf(HISTORY, CALL_FIRST) && EntriesOf(HISTORY, RETURN_FIRST)
    ensures CallsBeforeReturns(HISTORY)
  {
    hide Unsorted;
    UnsortedPair(PUT, GET);
    SwapMiddle(CallOf(PUT, 0), CallOf(GET, 1), ReturnOf(PUT, 0), ReturnOf(GET, 1));
  }

  lemma OpsOf(entries: seq<Entry<KvInput, KvOutput>>, call1: nat, ret0: nat)
    requires WellFormed(entries) && |entries| == 4
    requires Pair(entries, 0, 0, ret0) && Pair(entries, 1, call1, 3)
    ensures var ops := Ops(entries);
            |ops| == 2 && ops[0].call == 0 && ops[0].ret == ret0 && ops[1].call == call1 && ops[1].ret == 3
  {
    OpOfPair(entries, 0);
    OpOfPair(entries, 1);
  }

  lemma {:induction false} Replays(ops: seq<KvOperation>)
    requires |ops| == 2
    requires ops[0].input == PUT.input && ops[1].input == GET.input && ops[1].output == GET.output
    ensures Run(KV_MODEL, ops, [1, 0]) == Some("a")
    ensures Run(KV_MODEL, ops, [0, 1]).None?
  {
    assert [1, 0][..1] == [1] && [0, 1][..1] == [0] && [1][..0] == [] && [0][..0] == [];
    assert Run(KV_MODEL, ops, []) == Some("");
    assert Run(KV_MODEL, ops, [1]) == Some("");
    assert Run(KV_MODEL, ops, [0]) == Some("a");
  }

  lemma SortedOps(entries: seq<Entry<KvInput, KvOutput>>, call1: nat, ret0: nat)
    requires EntriesOf(HISTORY, entries) && CallsBeforeReturns(HISTORY) && |entries| == 4
    requires Pair(entries, 0, 0, ret0) && Pair(entries, 1, call1, 3)
    ensures WellFormed(entries) && |Ops(entries)| == 2
    ensures var ops := Ops(entries);
            && ops[0].input == PUT.input && ops[1].input == GET.input && ops[1].output == GET.output
            && ops[0].call == 0 && ops[0].ret == ret0 && ops[1].call == call1 && ops[1].ret == 3
  {
    hide EntriesOf, WellFormed, Ops;
    EntriesWellFormed(HISTORY, entries);
    SameOperation(HISTORY, entries, 0);
    SameOperation(HISTORY, entries, 1);
    OpsOf(entries, call1, ret0);
  }

  lemma {:induction false} PutFirstRefused(ops: seq<KvOperation>)
    requires |ops| == 2 && ops[0].ret < ops[1].call
    requires Run(KV_MODEL, ops, [0, 1]).None?
    ensures !Linearizable(KV_MODEL, ops)
  {
    hide Run;
    forall order: seq<nat> ensures !IsLinearization(KV_MODEL, ops, order) {
      if |order| == 2 && IdsBelow(order, 2) && Distinct(order) {
        TwoIds(order);
        if order == [1, 0] {
          assert ops[order[1]].ret < ops[order[0]].call;
        }
      }
    }
  }

  /** The same history, sorted two ways the source allows, gets two different verdicts. */
  lemma TiesChangeTheVerdict()
    ensures EntriesOf(HISTORY, CALL_FIRST) && WellFormed(CALL_FIRST) && Linearizable(KV_MODEL, Ops(CALL_FIRST))
    ensures EntriesOf(HISTORY, RETURN_FIRST) && WellFormed(RETURN_FIRST) && !Linearizable(KV_MODEL, Ops(RETURN_FIRST))
  {
    hide EntriesOf, WellFormed, Ops, Run;
    BothSorted();
    SortedOps(CALL_FIRST, 1, 2);
    SortedOps(RETURN_FIRST, 2, 1);
    Replays(Ops(CALL_FIRST));
    Replays(Ops(RETURN_FIRST));
    assert IsLinearization(KV_MODEL, Ops(CALL_FIRST), [1, 0]);
    PutFirstRefused(Ops(RETURN_FIRST));
  }

  lemma TwoIds(order: seq<nat>)
    requires |order| == 2 && IdsBelow(order, 2) && Distinct(order)
    ensures order == [0, 1] || order == [1, 0]
  {
    assert order[0] != order[1];
  }
}
