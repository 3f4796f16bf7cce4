/** Call and return entries of a history, in time order. */
module Entries {
  import opened Linearizability
  import opened Search

  datatype Entry<+I, +O> =
    | CallEntry(input: I, id: nat, time: int, clientId: int)
    | ReturnEntry(output: O, id: nat, time: int, clientId: int)

  /** Operation id is called at position c and returns at position r. */
  predicate Pair<I, O>(history: seq<Entry<I, O>>, id: nat, c: nat, r: nat) {
    && c < r < |history|
    && history[c].CallEntry? && history[c].id == id
    && history[r].ReturnEntry? && history[r].id == id
  }

  /** The ids are 0 to n-1, and each occurs twice: as a call and, later, as a return. */
  ghost predicate WellFormed<I, O>(history: seq<Entry<I, O>>) {
    && |history| % 2 == 0
    && (forall a | 0 <= a < |history| :: history[a].id < |history| / 2)
    && (forall id: nat | id < |history| / 2 :: HasPair(history, id))
    && (forall a, b | 0 <= a < b < |history| && history[a].id == history[b].id ::
          history[a].CallEntry? && history[b].ReturnEntry?)
  }

  ghost predicate HasPair<I, O>(history: seq<Entry<I, O>>, id: nat) {
    exists c: nat, r: nat :: Pair(history, id, c, r)
  }

  ghost function OpAt<I, O>(history: seq<Entry<I, O>>, id: nat): Operation<I, O>
    requires WellFormed(history) && id < |history| / 2
  {
    assert HasPair(history, id);
    var c: nat, r: nat :| Pair(history, id, c, r);
    Operation(history[c].clientId, history[c].input, c, history[r].output, r)
  }

  /** The operations of a history, each timed by the positions of its two entries. */
  ghost function Ops<I, O>(history: seq<Entry<I, O>>): (ops: seq<Operation<I, O>>)
    requires WellFormed(history)
  {
    seq(|history| / 2, (id: nat) requires id < |history| / 2 => OpAt(history, id))
  }

  lemma OpOfPair<I, O>(history: seq<Entry<I, O>>, id: nat)
    requires WellFormed(history) && id < |history| / 2
    ensures var op := Ops(history)[id];
            && op.call >= 0 && op.ret >= 0 && Pair(history, id, op.call, op.ret)
            && op.input == history[op.call].input && op.output == history[op.ret].output
            && op.clientId == history[op.call].clientId
  {}

  /** Each position is the call or the return of exactly the operation its entry names. */
  lemma PositionOfEntry<I, O>(history: seq<Entry<I, O>>, a: nat)
    requires WellFormed(history) && a < |history|
    ensures var op := Ops(history)[history[a].id];
            a == if history[a].CallEntry? then op.call else op.ret
  {
    OpOfPair(history, history[a].id);
  }

  lemma OpsPositions<I, O>(history: seq<Entry<I, O>>)
    requires WellFormed(history)
    ensures Positions(Ops(history))
  {
    var ops := Ops(history);
    forall id: nat | id < |ops|
      ensures var op := ops[id]; op.call >= 0 && op.ret >= 0 && Pair(history, id, op.call, op.ret)
    {
      OpOfPair(history, id);
    }
  }
}
