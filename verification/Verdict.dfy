/** The verdict on a history of timed operations. */
module Verdict {
  import opened Linearizability
  import opened Search
  import opened Entries
  import opened Histories
  import opened Parallel
  import opened KvModel
  import opened Locality

  ghost predicate AllEntriesOf<I, O>(partitions: seq<seq<Operation<I, O>>>, lists: seq<seq<Entry<I, O>>>) {
    |lists| == |partitions| && forall i | 0 <= i < |lists| :: EntriesOf(partitions[i], lists[i])
  }

  /** No order keeps touching operations apart; and without ties no order will do at all. */
  ghost predicate Refuted<S, I, O>(model: Model<S, I, O>, ops: seq<Operation<I, O>>) {
    !LinearizableTiesApart(model, ops) && (NoTies(ops) ==> !Linearizable(model, ops))
  }

  /** Checks every partition; arrivals, timeoutAfter and kills describe the interleaving, as for CheckParallel. */
  method CheckOperations<S(!new), I(!new), O(!new)>(model: Model<S, I, O>, partitions: seq<seq<Operation<I, O>>>,
                                                    verbose: bool, arrivals: seq<nat>, timeoutAfter: Option<nat>,
                                                    kills: (nat, nat) -> bool)
    returns (result: CheckResult, lists: seq<seq<Entry<I, O>>>, partialLinearizations: seq<seq<seq<nat>>>)
    requires EqualAgrees(model) && forall i | 0 <= i < |partitions| :: CallsBeforeReturns(partitions[i])
    requires Arrivals(arrivals, |partitions|)
    requires partitions != [] || timeoutAfter == Some(0)
    ensures AllEntriesOf(partitions, lists)
    ensures result == Ok ==> forall i | 0 <= i < |partitions| :: Linearizable(model, partitions[i])
    ensures result == Illegal ==> exists i | 0 <= i < |partitions| :: Refuted(model, partitions[i])
    ensures AllWellFormed(lists)
    ensures result == Illegal <==> Rejected(model, lists, arrivals, Received(timeoutAfter, |partitions|))
    ensures result == Unknown <==> result != Illegal && TimerFirst(timeoutAfter, |partitions|)
    ensures |partialLinearizations| == if verbose then |partitions| else 0
    ensures verbose ==> forall i, p | 0 <= i < |partitions| && p in partialLinearizations[i] ::
              Partial(model, Ops(lists[i]), p)
    ensures verbose ==> forall i: nat | i < |partitions| ::
              timeoutAfter.None? || Finished(arrivals, Received(timeoutAfter, |partitions|), kills, i) ==>
                ListsLongest(model, Ops(lists[i]), partialLinearizations[i])
  {
    hide WellFormed, Ops, Linearizable, LinearizableTiesApart, ListsLongest, LongestSound, Maximal, EntriesOf,
         CallsBeforeReturns, NoTies, EqualAgrees;
    lists := [];
    for i := 0 to |partitions|
      invariant |lists| == i
      invariant forall k | 0 <= k < i :: EntriesOf(partitions[k], lists[k])
    {
      var l := MakeEntries(partitions[i]);
      lists := lists + [l];
    }
    forall i | 0 <= i < |partitions|
      ensures WellFormed(lists[i])
      ensures Linearizable(model, Ops(lists[i])) ==> Linearizable(model, partitions[i])
      ensures LinearizableTiesApart(model, partitions[i]) ==> Linearizable(model, Ops(lists[i]))
      ensures NoTies(partitions[i]) ==> (Linearizable(model, Ops(lists[i])) <==> Linearizable(model, partitions[i]))
    {
      EntriesVerdict(model, partitions[i], lists[i]);
    }
    ghost var longest;
    result, partialLinearizations, longest := CheckParallel(model, lists, verbose, arrivals, timeoutAfter, kills);
    if verbose {
      forall i, p | 0 <= i < |partitions| && p in partialLinearizations[i] ensures Partial(model, Ops(lists[i]), p) {
        assert PartSound(model, lists, longest, i);
        assert Some(p) in longest[i];
        RecordedPartial(model, Ops(lists[i]), longest[i], p);
      }
    }
    if verbose {
      AllFinish(arrivals, |partitions|, kills);
      forall i: nat | i < |partitions| &&
                      (timeoutAfter.None? || Finished(arrivals, Received(timeoutAfter, |partitions|), kills, i))
        ensures ListsLongest(model, Ops(lists[i]), partialLinearizations[i])
      {
        assert PartMaximal(model, lists, longest, i);
        MaximalListed(model, Ops(lists[i]), longest[i], partialLinearizations[i]);
      }
    }
    if result == Ok {
      forall i | 0 <= i < |partitions| ensures Linearizable(model, partitions[i]) {
        assert PartLinearizable(model, lists, i);
      }
    }
    if result == Illegal {
      ghost var k: nat :| k < |partitions| && !PartLinearizable(model, lists, arrivals[k]);
      ghost var i := arrivals[k];
      assert Refuted(model, partitions[i]);
    }
  }

  // ---- the key/value store ----

  lemma {:induction false} GroupFacts(history: seq<KvOperation>, k: string)
    ensures CallsBeforeReturns(history) ==> CallsBeforeReturns(GroupOf(history, k))
    ensures NoTies(history) ==> NoTies(GroupOf(history, k))
  {
    GroupByIndices(history, k);
  }

  /**
   * The end-to-end verdict on a key/value history. Without a timeout the answer is never Unknown, so it is Ok
   * exactly when the history of the whole store is linearizable, whatever order the searches finish in.
   */
  method CheckKvOperations(history: seq<KvOperation>, verbose: bool, arrivals: nat -> seq<nat>,
                           timeoutAfter: Option<nat>, kills: (nat, nat) -> bool)
    returns (result: CheckResult, groups: seq<seq<KvOperation>>, lists: seq<seq<Entry<KvInput, KvOutput>>>)
    requires CallsBeforeReturns(history)
    requires forall n :: Arrivals(arrivals(n), n)
    requires history != [] || timeoutAfter == Some(0)
    ensures result == Ok ==> Linearizable(STORE_MODEL, history)
    ensures result == Illegal && NoTies(history) ==> !Linearizable(STORE_MODEL, history)
    ensures timeoutAfter.None? && NoTies(history) ==> (result == Ok <==> Linearizable(STORE_MODEL, history))
    ensures (exists keys :: PartitionOf(history, keys, groups)) && AllEntriesOf(groups, lists) && AllWellFormed(lists)
    ensures Arrivals(arrivals(|groups|), |groups|)
    ensures result == Illegal <==> Rejected(KV_MODEL, lists, arrivals(|groups|), Received(timeoutAfter, |groups|))
    ensures result == Unknown <==> result != Illegal && TimerFirst(timeoutAfter, |groups|)
  {
    hide Linearizable, LinearizableTiesApart, GroupOf, CallsBeforeReturns, NoTies, LexLeq, Run;
    ghost var keys;
    groups, keys := Partition(history);
    forall j | 0 <= j < |groups|
      ensures CallsBeforeReturns(groups[j]) && (NoTies(history) ==> NoTies(groups[j]))
    {
      GroupFacts(history, keys[j]);
    }
    NonStrict(history);
    KvEqual();
    PartitionIsLocal(history, keys, groups);
    if history != [] {
      assert history[0].input.key in keys;
    }
    var partials;
    result, lists, partials := CheckOperations(KV_MODEL, groups, verbose, arrivals(|groups|), timeoutAfter, kills);
  }

  /** Comparing states with the default equality agrees with every specification. */
  lemma KvEqual()
    ensures EqualAgrees(KV_MODEL)
  {}

  lemma NonStrict(history: seq<KvOperation>)
    ensures CallsBeforeReturns(history) ==> CallsThenReturns(history)
  {}
}
