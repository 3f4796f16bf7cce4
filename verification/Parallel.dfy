/**
 * Checking the partitions of a history side by side. The interleaving is a parameter: arrivals is the order
 * in which the searches deliver their results, timeoutAfter the number of results received when the timer
 * fires (None: it never does), and kills what each search's polls of the kill flag read once the flag may be set.
 */
module Parallel {
  import opened Linearizability
  import opened Search
  import opened Entries
  import opened Checker

  datatype CheckResult = Unknown | Ok | Illegal

  ghost predicate AllWellFormed<I, O>(history: seq<seq<Entry<I, O>>>) {
    forall i | 0 <= i < |history| :: WellFormed(history[i])
  }

  ghost predicate PartLinearizable<S, I, O>(model: Model<S, I, O>, history: seq<seq<Entry<I, O>>>, i: nat)
    requires AllWellFormed(history) && i < |history|
  {
    Linearizable(model, Ops(history[i]))
  }

  ghost predicate PartSound<S, I, O>(model: Model<S, I, O>, history: seq<seq<Entry<I, O>>>,
                                     longest: seq<seq<Option<seq<nat>>>>, i: nat)
    requires AllWellFormed(history) && i < |history| == |longest|
  {
    LongestSound(model, Ops(history[i]), longest[i])
  }

  ghost predicate PartMaximal<S, I, O>(model: Model<S, I, O>, history: seq<seq<Entry<I, O>>>,
                                       longest: seq<seq<Option<seq<nat>>>>, i: nat)
    requires AllWellFormed(history) && i < |history| == |longest|
  {
    Maximal(model, Ops(history[i]), longest[i])
  }

  /** The different orders recorded for one partition. */
  method Uniques(longest: seq<Option<seq<nat>>>) returns (partials: seq<seq<nat>>)
    ensures Distinct(partials)
    ensures forall p :: p in partials <==> Some(p) in longest
  {
    var recorded: set<seq<nat>> := {};
    for k := 0 to |longest|
      invariant forall p :: p in recorded <==> Some(p) in longest[..k]
    {
      assert longest[..k + 1] == longest[..k] + [longest[k]];
      if longest[k].Some? {
        recorded := recorded + {longest[k].value};
      }
    }
    assert longest[..|longest|] == longest;
    partials := [];
    while recorded != {}
      invariant Distinct(partials)
      invariant forall p :: p in partials || p in recorded <==> Some(p) in longest
      invariant forall p :: p in partials ==> p !in recorded
      decreases recorded
    {
      var p :| p in recorded;
      recorded := recorded - {p};
      partials := partials + [p];
    }
  }

  ghost predicate Arrivals(arrivals: seq<nat>, n: nat) {
    |arrivals| == n && IdsBelow(arrivals, n) && Distinct(arrivals)
  }

  /** The first count results have arrived: ok is their conjunction. */
  ghost predicate OkSoFar<S, I, O>(model: Model<S, I, O>, history: seq<seq<Entry<I, O>>>, arrivals: seq<nat>,
                                   count: nat, ok: bool)
    requires AllWellFormed(history) && Arrivals(arrivals, |history|) && count <= |arrivals|
  {
    ok <==> forall k | 0 <= k < count :: PartLinearizable(model, history, arrivals[k])
  }

  /** How many of n results are received: all of them, unless the timer is due before the last. */
  function Received(timeoutAfter: Option<nat>, n: nat): (count: nat)
    ensures count <= n
  {
    if timeoutAfter.Some? && timeoutAfter.value < n then timeoutAfter.value else n
  }

  /** One of the results received is a rejection. */
  ghost predicate Rejected<S, I, O>(model: Model<S, I, O>, history: seq<seq<Entry<I, O>>>, arrivals: seq<nat>,
                                    count: nat)
    requires AllWellFormed(history) && Arrivals(arrivals, |history|) && count <= |arrivals|
  {
    exists k | 0 <= k < count :: !PartLinearizable(model, history, arrivals[k])
  }

  /** The timer is due before the last result, or there is no result to wait for. */
  predicate TimerFirst(timeoutAfter: Option<nat>, n: nat) {
    timeoutAfter.Some? && (timeoutAfter.value < n || n == 0)
  }

  /** The search of partition i ran to its end: its result was received, or no poll of the kill flag stopped it. */
  ghost predicate Finished(arrivals: seq<nat>, count: nat, kills: (nat, nat) -> bool, i: nat)
    requires count <= |arrivals|
  {
    i in arrivals[..count] || forall k :: !kills(i, k)
  }

  method CheckParallel<S(!new), I(!new), O(!new)>(model: Model<S, I, O>, history: seq<seq<Entry<I, O>>>,
                                                  computeInfo: bool, arrivals: seq<nat>, timeoutAfter: Option<nat>,
                                                  kills: (nat, nat) -> bool)
    returns (result: CheckResult, partialLinearizations: seq<seq<seq<nat>>>, ghost longest: seq<seq<Option<seq<nat>>>>)
    requires EqualAgrees(model) && AllWellFormed(history) && Arrivals(arrivals, |history|)
    requires history != [] || timeoutAfter == Some(0)
    ensures result == Ok ==> forall i: nat | i < |history| :: PartLinearizable(model, history, i)
    ensures result == Illegal ==> exists i: nat | i < |history| :: !PartLinearizable(model, history, i)
    ensures result == Illegal <==> Rejected(model, history, arrivals, Received(timeoutAfter, |history|))
    ensures result == Unknown <==> result != Illegal && TimerFirst(timeoutAfter, |history|)
    ensures computeInfo ==> |longest| == |history| == |partialLinearizations|
    ensures !computeInfo ==> partialLinearizations == []
    ensures computeInfo ==> forall i: nat | i < |history| ::
              && PartSound(model, history, longest, i)
              && (Finished(arrivals, Received(timeoutAfter, |history|), kills, i) ==>
                    PartMaximal(model, history, longest, i))
    ensures computeInfo ==> forall i: nat | i < |history| ::
              Distinct(partialLinearizations[i]) && forall p :: p in partialLinearizations[i] <==> Some(p) in longest[i]
  {
    hide WellFormed, Ops, EqualAgrees, Linearizable, LongestSound, Maximal;
    var ok := true;
    var timedOut := false;
    longest := seq(|history|, _ => []);
    var found: seq<seq<Option<seq<nat>>>> := seq(|history|, _ => []);
    var count := 0;
    while true
      invariant 0 <= count <= Received(timeoutAfter, |history|) && (count == 0 || count < |history|) && !timedOut
      invariant |found| == |history|
      invariant OkSoFar(model, history, arrivals, count, ok) && (ok || computeInfo)
      invariant computeInfo ==> forall k | 0 <= k < count ::
                  PartSound(model, history, found, arrivals[k]) && PartMaximal(model, history, found, arrivals[k])
      decreases |history| - count
    {
      if timeoutAfter == Some(count) {
        timedOut := true;
        break;
      }
      var i := arrivals[count];
      var single, l, killed := CheckSingle(model, history[i], computeInfo, _ => false);
      found := found[i := l];
      count := count + 1;
      ok := ok && single;
      if !ok && !computeInfo {
        break;
      }
      if count >= |history| {
        break;
      }
    }
    if !ok {
      SomeRejected(model, history, arrivals, count);
    } else if !timedOut {
      AllArrived(model, history, arrivals);
    }
    partialLinearizations := [];
    if computeInfo {
      // wait for every search to finish before reading what it recorded
      ghost var received := count;
      while count < |history|
        invariant received <= count <= |history| && |found| == |history|
        invariant forall k | 0 <= k < count ::
                    && PartSound(model, history, found, arrivals[k])
                    && (k < received || (forall p :: !kills(arrivals[k], p)) ==>
                          PartMaximal(model, history, found, arrivals[k]))
      {
        var i := arrivals[count];
        var single, l, killed := CheckSingle(model, history[i], computeInfo, (k: nat) => kills(i, k));
        found := found[i := l];
        count := count + 1;
      }
      EveryoneArrives(arrivals, |history|);
      forall i: nat | i < |history|
        ensures PartSound(model, history, found, i)
        ensures Finished(arrivals, received, kills, i) ==> PartMaximal(model, history, found, i)
      {
        assert i in arrivals;
        if i in arrivals[..received] {
          var k :| 0 <= k < received && arrivals[k] == i;
        } else {
          var k :| 0 <= k < |arrivals| && arrivals[k] == i;
        }
      }
      for i := 0 to |history|
        invariant |partialLinearizations| == i
        invariant forall k | 0 <= k < i ::
                    Distinct(partialLinearizations[k])
                        && forall p :: p in partialLinearizations[k] <==> Some(p) in found[k]
      {
        var partials := Uniques(found[i]);
        partialLinearizations := partialLinearizations + [partials];
      }
    }
    longest := found;
    result := if !ok then Illegal else if timedOut then Unknown else Ok;
  }

  /** Without a timer every search finishes. */
  lemma AllFinish(arrivals: seq<nat>, n: nat, kills: (nat, nat) -> bool)
    requires Arrivals(arrivals, n)
    ensures forall i: nat | i < n :: Finished(arrivals, Received(None, n), kills, i)
  {
    EveryoneArrives(arrivals, n);
    assert arrivals[..n] == arrivals;
  }

  /** A repetition-free sequence of n indices names every index. */
  lemma EveryoneArrives(arrivals: seq<nat>, n: nat)
    requires Arrivals(arrivals, n)
    ensures forall i: nat | i < n :: i in arrivals
  {
    FullOrder(arrivals, n);
    BelowFacts(n);
    forall i: nat | i < n ensures i in arrivals {
      assert i in SetOf(arrivals);
    }
  }

  lemma SomeRejected<S, I, O>(model: Model<S, I, O>, history: seq<seq<Entry<I, O>>>, arrivals: seq<nat>, count: nat)
    requires AllWellFormed(history) && Arrivals(arrivals, |history|) && count <= |history|
    requires OkSoFar(model, history, arrivals, count, false)
    ensures exists i: nat | i < |history| :: !PartLinearizable(model, history, i)
  {
    var k :| 0 <= k < count && !PartLinearizable(model, history, arrivals[k]);
  }

  lemma AllArrived<S, I, O>(model: Model<S, I, O>, history: seq<seq<Entry<I, O>>>, arrivals: seq<nat>)
    requires AllWellFormed(history) && Arrivals(arrivals, |history|)
    requires OkSoFar(model, history, arrivals, |history|, true)
    ensures forall i: nat | i < |history| :: PartLinearizable(model, history, i)
  {
    EveryoneArrives(arrivals, |history|);
    forall i: nat | i < |history| ensures PartLinearizable(model, history, i) {
      assert i in arrivals;
      var k :| 0 <= k < |arrivals| && arrivals[k] == i;
    }
  }
}
