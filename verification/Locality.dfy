/** Checking a store key by key is checking the whole store. */
module Locality {
  import opened Linearizability
  import opened KvModel

  predicate CallsThenReturns(history: seq<KvOperation>) {
    forall i | 0 <= i < |history| :: history[i].call <= history[i].ret
  }

  /** The part of an order that concerns key k. */
  function Restrict(history: seq<KvOperation>, order: seq<nat>, k: string): seq<nat>
    requires IdsBelow(order, |history|)
  {
    if order == [] then [] else
      var last := |order| - 1;
      Restrict(history, order[..last], k) + if history[order[last]].input.key == k then [order[last]] else []
  }

  lemma {:induction false} RestrictMembers(history: seq<KvOperation>, order: seq<nat>, k: string)
    requires IdsBelow(order, |history|)
    ensures IdsBelow(Restrict(history, order, k), |history|)
    ensures forall x :: x in Restrict(history, order, k) <==> x in order && history[x].input.key == k
  {
    if order != [] {
      var last := |order| - 1;
      RestrictMembers(history, order[..last], k);
      assert order == order[..last] + [order[last]];
    }
  }

  /** Restricting keeps an order repetition-free and in time order. */
  lemma {:induction false} RestrictFacts(history: seq<KvOperation>, order: seq<nat>, k: string)
    requires IdsBelow(order, |history|)
    ensures IdsBelow(Restrict(history, order, k), |history|)
    ensures forall x :: x in Restrict(history, order, k) <==> x in order && history[x].input.key == k
    ensures Distinct(order) ==> Distinct(Restrict(history, order, k))
    ensures RespectsTime(history, order) ==> RespectsTime(history, Restrict(history, order, k))
  {
    RestrictMembers(history, order, k);
    if order != [] {
      var last := |order| - 1;
      RestrictFacts(history, order[..last], k);
      AppendKeepsOrder(history, order[..last], Restrict(history, order[..last], k), order[last]);
      assert order == order[..last] + [order[last]];
    }
  }

  lemma AppendKeepsOrder(history: seq<KvOperation>, before: seq<nat>, part: seq<nat>, c: nat)
    requires IdsBelow(before, |history|) && IdsBelow(part, |history|) && c < |history|
    requires forall x | x in part :: x in before
    ensures IdsBelow(before + [c], |history|) && IdsBelow(part + [c], |history|)
    ensures Distinct(before + [c]) && Distinct(part) ==> Distinct(part + [c])
    ensures Distinct(before + [c]) ==> Distinct(before)
    ensures RespectsTime(history, before + [c]) ==> RespectsTime(history, before)
    ensures RespectsTime(history, before + [c]) && RespectsTime(history, part) ==> RespectsTime(history, part + [c])
  {
    var longer := before + [c];
    forall i | 0 <= i < |part|
      ensures Distinct(longer) ==> part[i] != c
      ensures RespectsTime(history, longer) ==> !(history[c].ret < history[part[i]].call)
    {
      assert part[i] in part;
      var j :| 0 <= j < |before| && before[j] == part[i];
      assert longer[j] == part[i] && longer[|before|] == c;
    }
    assert forall i | 0 <= i < |before| :: longer[i] == before[i];
  }

  // ---- legality is per key ----

  lemma {:induction false} RestrictAppend(history: seq<KvOperation>, order: seq<nat>, c: nat, k: string)
    requires IdsBelow(order, |history|) && c < |history|
    ensures IdsBelow(order + [c], |history|)
    ensures Restrict(history, order + [c], k) ==
              Restrict(history, order, k) + if history[c].input.key == k then [c] else []
  {
    assert (order + [c])[..|order|] == order;
  }

  /** The order is legal for key k on its own, and leaves it with this value. */
  ghost predicate KeyRuns(history: seq<KvOperation>, order: seq<nat>, k: string, value: string)
    requires IdsBelow(order, |history|)
  {
    IdsBelow(Restrict(history, order, k), |history|) &&
    Run(KV_MODEL, history, Restrict(history, order, k)) == Some(value)
  }

  lemma KeyRunsAppend(history: seq<KvOperation>, order: seq<nat>, c: nat, k: string, store: Store)
    requires IdsBelow(order, |history|) && c < |history| && KeyRuns(history, order, k, Lookup(store, k))
    ensures IdsBelow(order + [c], |history|)
    ensures history[c].input.key != k || StepOp(STORE_MODEL, store, history[c]).0 ==>
              KeyRuns(history, order + [c], k, Lookup(StepOp(STORE_MODEL, store, history[c]).1, k))
    ensures history[c].input.key == k && !StepOp(STORE_MODEL, store, history[c]).0 ==>
              forall v :: !KeyRuns(history, order + [c], k, v)
  {
    hide Run, Restrict;
    RestrictAppend(history, order, c, k);
    if history[c].input.key == k {
      RunAppend(KV_MODEL, history, Restrict(history, order, k), c);
    } else {
      assert Restrict(history, order, k) + [] == Restrict(history, order, k);
    }
  }

  /** Replaying the whole store replays each key on its own. */
  lemma {:induction false} Projection(history: seq<KvOperation>, order: seq<nat>, k: string)
    requires IdsBelow(order, |history|) && Run(STORE_MODEL, history, order).Some?
    ensures KeyRuns(history, order, k, Lookup(Run(STORE_MODEL, history, order).value, k))
  {
    if order != [] {
      var before, c := order[..|order| - 1], order[|order| - 1];
      assert order == before + [c];
      RunAppend(STORE_MODEL, history, before, c);
      Projection(history, before, k);
      KeyRunsAppend(history, before, c, k, Run(STORE_MODEL, history, before).value);
    }
  }

  ghost predicate KeyLegal(history: seq<KvOperation>, order: seq<nat>, k: string)
    requires IdsBelow(order, |history|)
  {
    exists value :: KeyRuns(history, order, k, value)
  }

  lemma KeyLegalPrefix(history: seq<KvOperation>, order: seq<nat>, c: nat, k: string)
    requires IdsBelow(order + [c], |history|) && IdsBelow(order, |history|) && c < |history|
    requires KeyLegal(history, order + [c], k)
    ensures KeyLegal(history, order, k)
  {
    hide Run, Restrict;
    RestrictAppend(history, order, c, k);
    var value :| KeyRuns(history, order + [c], k, value);
    RestrictFacts(history, order, k);
    if history[c].input.key == k {
      RunAppend(KV_MODEL, history, Restrict(history, order, k), c);
      assert KeyRuns(history, order, k, Run(KV_MODEL, history, Restrict(history, order, k)).value);
    } else {
      assert Restrict(history, order, k) + [] == Restrict(history, order, k);
      assert KeyRuns(history, order, k, value);
    }
  }

  /** And an order legal for every key is legal for the store. */
  lemma {:induction false} LegalPerKey(history: seq<KvOperation>, order: seq<nat>)
    requires IdsBelow(order, |history|)
    requires forall k :: KeyLegal(history, order, k)
    ensures Run(STORE_MODEL, history, order).Some?
  {
    if order != [] {
      hide KeyLegal, KeyRuns, StepOp;
      var before, c := order[..|order| - 1], order[|order| - 1];
      assert order == before + [c];
      forall k ensures KeyLegal(history, before, k) {
        KeyLegalPrefix(history, before, c, k);
      }
      LegalPerKey(history, before);
      var k, store := history[c].input.key, Run(STORE_MODEL, history, before).value;
      Projection(history, before, k);
      KeyRunsAppend(history, before, c, k, store);
      RunAppend(STORE_MODEL, history, before, c);
      LegalMeansRuns(history, order, k);
    }
  }

  lemma LegalMeansRuns(history: seq<KvOperation>, order: seq<nat>, k: string)
    requires IdsBelow(order, |history|) && KeyLegal(history, order, k)
    ensures exists v :: KeyRuns(history, order, k, v)
  {}

  // ---- one key's group inside the history ----

  /** order places exactly the operations on key k, legally and in time order. */
  ghost predicate KeyOrder(history: seq<KvOperation>, order: seq<nat>, k: string) {
    && IdsBelow(order, |history|) && Distinct(order)
    && (forall x: nat | x < |history| :: x in order <==> history[x].input.key == k)
    && Run(KV_MODEL, history, order).Some?
    && RespectsTime(history, order)
  }

  lemma {:induction false} IndicesFacts(history: seq<KvOperation>, k: string)
    ensures IdsBelow(IndicesOf(history, k), |history|) && Distinct(IndicesOf(history, k))
    ensures forall x: nat | x < |history| :: x in IndicesOf(history, k) <==> history[x].input.key == k
  {
    if history != [] {
      var last := |history| - 1;
      IndicesFacts(history[..last], k);
      assert forall x: nat | x < last :: history[..last][x] == history[x];
    }
  }

  lemma {:induction false} GroupByIndices(history: seq<KvOperation>, k: string)
    ensures IdsBelow(IndicesOf(history, k), |history|)
    ensures var idx := IndicesOf(history, k);
            |GroupOf(history, k)| == |idx| && forall j | 0 <= j < |idx| :: GroupOf(history, k)[j] == history[idx[j]]
  {
    if history != [] {
      var last := |history| - 1;
      GroupByIndices(history[..last], k);
      assert forall x: nat | x < last :: history[..last][x] == history[x];
    }
  }

  /** Positions in a group, as positions in the history. */
  function Globally(idx: seq<nat>, local: seq<nat>): (order: seq<nat>)
    requires IdsBelow(local, |idx|)
    ensures |order| == |local| && forall i | 0 <= i < |local| :: order[i] == idx[local[i]]
  {
    seq(|local|, i requires 0 <= i < |local| => idx[local[i]])
  }

  lemma {:induction false} RunGlobally<S, I, O>(model: Model<S, I, O>, history: seq<Operation<I, O>>,
                                                group: seq<Operation<I, O>>, idx: seq<nat>, local: seq<nat>)
    requires IdsBelow(local, |idx|) && IdsBelow(idx, |history|) && |group| == |idx|
    requires forall j | 0 <= j < |idx| :: group[j] == history[idx[j]]
    ensures Run(model, group, local) == Run(model, history, Globally(idx, local))
  {
    if local != [] {
      var last := |local| - 1;
      RunGlobally(model, history, group, idx, local[..last]);
      assert Globally(idx, local)[..last] == Globally(idx, local[..last]);
    }
  }

  lemma MembersGlobally(idx: seq<nat>, local: seq<nat>, x: nat)
    requires IdsBelow(local, |idx|) && Distinct(local) && |local| == |idx|
    ensures x in Globally(idx, local) <==> x in idx
  {
    var order := Globally(idx, local);
    FullOrder(local, |idx|);
    BelowFacts(|idx|);
    if x in idx {
      var j :| 0 <= j < |idx| && idx[j] == x;
      assert j in SetOf(local);
      var i :| 0 <= i < |local| && local[i] == j;
      assert order[i] == x;
    }
    if x in order {
      var i :| 0 <= i < |order| && order[i] == x;
      assert idx[local[i]] in idx;
    }
  }

  lemma {:induction false} GroupToKeyOrder(history: seq<KvOperation>, k: string)
    requires Linearizable(KV_MODEL, GroupOf(history, k))
    ensures exists order: seq<nat> :: KeyOrder(history, order, k)
  {
    hide Run, GroupOf, IndicesOf;
    var group, idx := GroupOf(history, k), IndicesOf(history, k);
    IndicesFacts(history, k);
    GroupByIndices(history, k);
    var local: seq<nat> :| IsLinearization(KV_MODEL, group, local);
    var order := Globally(idx, local);
    RunGlobally(KV_MODEL, history, group, idx, local);
    forall x: nat | x < |history| ensures x in order <==> history[x].input.key == k {
      MembersGlobally(idx, local, x);
    }
    assert KeyOrder(history, order, k);
  }

  lemma {:induction false} KeyOrderToGroup(history: seq<KvOperation>, order: seq<nat>, k: string)
    requires KeyOrder(history, order, k)
    ensures Linearizable(KV_MODEL, GroupOf(history, k))
  {
    hide Run, GroupOf, IndicesOf;
    var group, idx := GroupOf(history, k), IndicesOf(history, k);
    IndicesFacts(history, k);
    GroupByIndices(history, k);
    forall i | 0 <= i < |order| ensures order[i] in idx {
      assert order[i] in order;
    }
    var local: seq<nat> := seq(|order|, i requires 0 <= i < |order| => PosOf(idx, order[i]));
    assert Globally(idx, local) == order;
    RunGlobally(KV_MODEL, history, group, idx, local);
    DistinctSize(order);
    DistinctSize(idx);
    assert SetOf(order) == SetOf(idx) by {
      forall x: nat ensures x in SetOf(order) <==> x in SetOf(idx) {
        assert x in SetOf(order) <==> x in order;
        assert x in SetOf(idx) <==> x in idx;
        assert x in order <==> x in idx;
      }
    }
    assert IsLinearization(KV_MODEL, group, local);
  }

  // ---- merging the orders of all keys ----

  /** Places an operation of one key's order: the latest call up to and including it. */
  function LatestCall(history: seq<KvOperation>, order: seq<nat>): int
    requires IdsBelow(order, |history|) && order != []
  {
    var last := |order| - 1;
    var call := history[order[last]].call;
    if last == 0 then call else
      var before := LatestCall(history, order[..last]);
      if before < call then call else before
  }

  lemma {:induction false} LatestCallIsMax(history: seq<KvOperation>, order: seq<nat>)
    requires IdsBelow(order, |history|) && order != []
    ensures forall i | 0 <= i < |order| :: history[order[i]].call <= LatestCall(history, order)
    ensures exists i :: 0 <= i < |order| && history[order[i]].call == LatestCall(history, order)
  {
    var last := |order| - 1;
    assert history[order[last]].call == LatestCall(history, order) || last > 0;
    if last > 0 {
      LatestCallIsMax(history, order[..last]);
      var i :| 0 <= i < last && history[order[..last][i]].call == LatestCall(history, order[..last]);
      assert history[order[i]].call == LatestCall(history, order)
          || history[order[last]].call == LatestCall(history, order);
    }
  }

  lemma {:induction false} LatestCallGrows(history: seq<KvOperation>, order: seq<nat>, i: nat, j: nat)
    requires IdsBelow(order, |history|) && i <= j < |order|
    ensures LatestCall(history, order[..i + 1]) <= LatestCall(history, order[..j + 1])
  {
    if i < j {
      LatestCallGrows(history, order, i, j - 1);
      assert order[..j + 1][..j] == order[..j];
    }
  }

  /** pt puts every operation between its call and its return. */
  ghost predicate Points(history: seq<KvOperation>, pt: seq<int>) {
    |pt| == |history| && forall i | 0 <= i < |history| :: history[i].call <= pt[i] <= history[i].ret
  }

  predicate SortedBy(pt: seq<int>, order: seq<nat>)
    requires IdsBelow(order, |pt|)
  {
    forall i, j | 0 <= i < j < |order| :: pt[order[i]] <= pt[order[j]]
  }

  /** Any order sorted by such points keeps the time order. */
  lemma PointsRespectTime(history: seq<KvOperation>, pt: seq<int>, order: seq<nat>)
    requires Points(history, pt) && IdsBelow(order, |history|) && SortedBy(pt, order)
    ensures RespectsTime(history, order)
  {
    forall i, j | 0 <= i < j < |order| ensures !(history[order[j]].ret < history[order[i]].call) {
      assert pt[order[i]] <= pt[order[j]];
    }
  }

  function Merge(pt: seq<int>, a: seq<nat>, b: seq<nat>): (r: seq<nat>)
    requires IdsBelow(a, |pt|) && IdsBelow(b, |pt|)
    ensures IdsBelow(r, |pt|)
    decreases |a| + |b|
  {
    if a == [] then b
    else if b == [] then a
    else
      var x, y := a[|a| - 1], b[|b| - 1];
      if pt[x] <= pt[y] then Merge(pt, a, b[..|b| - 1]) + [y] else Merge(pt, a[..|a| - 1], b) + [x]
  }

  lemma {:induction false} MergeMembers(pt: seq<int>, a: seq<nat>, b: seq<nat>)
    requires IdsBelow(a, |pt|) && IdsBelow(b, |pt|)
    ensures forall x :: x in Merge(pt, a, b) <==> x in a || x in b
    decreases |a| + |b|
  {
    if a != [] && b != [] {
      assert a == a[..|a| - 1] + [a[|a| - 1]];
      assert b == b[..|b| - 1] + [b[|b| - 1]];
      if pt[a[|a| - 1]] <= pt[b[|b| - 1]] {
        MergeMembers(pt, a, b[..|b| - 1]);
      } else {
        MergeMembers(pt, a[..|a| - 1], b);
      }
    }
  }

  lemma SortedAppend(pt: seq<int>, order: seq<nat>, x: nat)
    requires IdsBelow(order, |pt|) && x < |pt| && SortedBy(pt, order)
    requires forall y | y in order :: pt[y] <= pt[x]
    ensures IdsBelow(order + [x], |pt|) && SortedBy(pt, order + [x])
  {
    forall i | 0 <= i < |order| ensures pt[order[i]] <= pt[x] {
      assert order[i] in order;
    }
  }

  lemma LastIsLargest(pt: seq<int>, order: seq<nat>)
    requires IdsBelow(order, |pt|) && SortedBy(pt, order) && order != []
    ensures var last := |order| - 1;
            SortedBy(pt, order[..last]) && forall y | y in order :: pt[y] <= pt[order[last]]
  {}

  lemma {:induction false} MergeSorted(pt: seq<int>, a: seq<nat>, b: seq<nat>)
    requires IdsBelow(a, |pt|) && IdsBelow(b, |pt|) && SortedBy(pt, a) && SortedBy(pt, b)
    ensures SortedBy(pt, Merge(pt, a, b))
    decreases |a| + |b|
  {
    if a != [] && b != [] {
      var x, y := a[|a| - 1], b[|b| - 1];
      LastIsLargest(pt, a);
      LastIsLargest(pt, b);
      if pt[x] <= pt[y] {
        var rest := b[..|b| - 1];
        MergeSorted(pt, a, rest);
        MergeMembers(pt, a, rest);
        SortedAppend(pt, Merge(pt, a, rest), y);
      } else {
        var rest := a[..|a| - 1];
        MergeSorted(pt, rest, b);
        MergeMembers(pt, rest, b);
        SortedAppend(pt, Merge(pt, rest, b), x);
      }
    }
  }

  lemma {:induction false} RestrictAllOrNone(history: seq<KvOperation>, order: seq<nat>, k: string)
    requires IdsBelow(order, |history|)
    ensures (forall x | x in order :: history[x].input.key == k) ==> Restrict(history, order, k) == order
    ensures (forall x | x in order :: history[x].input.key != k) ==> Restrict(history, order, k) == []
  {
    if order != [] {
      var last := |order| - 1;
      assert order == order[..last] + [order[last]];
      RestrictAllOrNone(history, order[..last], k);
    }
  }

  /** Merging in the order of one key leaves every key's order what it was. */
  lemma {:induction false} MergeRestrict(history: seq<KvOperation>, pt: seq<int>, a: seq<nat>, b: seq<nat>, k: string,
                                         k': string)
    requires |pt| == |history| && IdsBelow(a, |pt|) && IdsBelow(b, |pt|)
    requires forall x | x in a :: history[x].input.key != k
    requires forall x | x in b :: history[x].input.key == k
    ensures Restrict(history, Merge(pt, a, b), k') == if k' == k then b else Restrict(history, a, k')
    decreases |a| + |b|
  {
    hide Restrict;
    if a == [] || b == [] {
      RestrictAllOrNone(history, a, k');
      RestrictAllOrNone(history, b, k');
    } else {
      var x, y := a[|a| - 1], b[|b| - 1];
      if pt[x] <= pt[y] {
        var rest := b[..|b| - 1];
        assert b == rest + [y];
        MergeRestrict(history, pt, a, rest, k, k');
        RestrictAppend(history, Merge(pt, a, rest), y, k');
      } else {
        var rest := a[..|a| - 1];
        assert a == rest + [x];
        MergeRestrict(history, pt, rest, b, k, k');
        RestrictAppend(history, Merge(pt, rest, b), x, k');
        RestrictAppend(history, rest, x, k');
      }
    }
  }

  /** A choice of an order for each key. */
  type KeyOrders = map<string, seq<nat>>

  ghost predicate OrdersFor(history: seq<KvOperation>, keys: seq<string>, orders: KeyOrders) {
    forall k | k in keys :: k in orders && KeyOrder(history, orders[k], k)
  }

  /** The point of operation x: the latest call in its key's order up to it. */
  function PointOf(history: seq<KvOperation>, order: seq<nat>, i: nat): int
    requires IdsBelow(order, |history|) && i < |order|
  {
    LatestCall(history, order[..i + 1])
  }

  lemma PointInside(history: seq<KvOperation>, order: seq<nat>, i: nat)
    requires IdsBelow(order, |history|) && i < |order|
    requires RespectsTime(history, order) && CallsThenReturns(history)
    ensures history[order[i]].call <= PointOf(history, order, i) <= history[order[i]].ret
  {
    LatestCallIsMax(history, order[..i + 1]);
    var j :| 0 <= j < i + 1 && history[order[..i + 1][j]].call == PointOf(history, order, i);
    assert order[..i + 1][i] == order[i];
    if j < i {
      assert !(history[order[i]].ret < history[order[j]].call);
    }
  }

  /** The points of all operations, given an order for every key. */
  ghost function AllPoints(history: seq<KvOperation>, keys: seq<string>, orders: KeyOrders): (pt: seq<int>)
    requires OrdersFor(history, keys, orders)
    requires forall i | 0 <= i < |history| :: history[i].input.key in keys
    ensures |pt| == |history|
  {
    seq(|history|, (x: nat) requires x < |history| => PointAt(history, keys, orders, x))
  }

  ghost function PointAt(history: seq<KvOperation>, keys: seq<string>, orders: KeyOrders, x: nat): int
    requires OrdersFor(history, keys, orders)
    requires x < |history| && history[x].input.key in keys
  {
    var order := orders[history[x].input.key];
    assert x in order;
    PointOf(history, order, PosOf(order, x))
  }

  lemma AllPointsFit(history: seq<KvOperation>, keys: seq<string>, orders: KeyOrders)
    requires OrdersFor(history, keys, orders) && CallsThenReturns(history)
    requires forall i | 0 <= i < |history| :: history[i].input.key in keys
    ensures Points(history, AllPoints(history, keys, orders))
    ensures forall k | k in keys :: SortedBy(AllPoints(history, keys, orders), orders[k])
  {
    var pt := AllPoints(history, keys, orders);
    forall x: nat | x < |history| ensures history[x].call <= pt[x] <= history[x].ret {
      var order := orders[history[x].input.key];
      assert x in order;
      PointInside(history, order, PosOf(order, x));
    }
    forall k | k in keys ensures SortedBy(pt, orders[k]) {
      var order := orders[k];
      forall i: nat, j: nat | i < j < |order| ensures pt[order[i]] <= pt[order[j]] {
        PointOfMember(history, keys, orders, k, i);
        PointOfMember(history, keys, orders, k, j);
        LatestCallGrows(history, order, i, j);
      }
    }
  }

  lemma PointOfMember(history: seq<KvOperation>, keys: seq<string>, orders: KeyOrders, k: string, i: nat)
    requires OrdersFor(history, keys, orders) && k in keys && i < |orders[k]|
    requires forall i | 0 <= i < |history| :: history[i].input.key in keys
    ensures AllPoints(history, keys, orders)[orders[k][i]] == PointOf(history, orders[k], i)
  {
    var order := orders[k];
    assert order[i] in order;
    assert PosOf(order, order[i]) == i;
  }

  function MergeAll(pt: seq<int>, keys: seq<string>, orders: KeyOrders): (r: seq<nat>)
    requires forall k | k in keys :: k in orders && IdsBelow(orders[k], |pt|)
    ensures IdsBelow(r, |pt|)
  {
    if keys == [] then [] else
      var last := |keys| - 1;
      Merge(pt, MergeAll(pt, keys[..last], orders), orders[keys[last]])
  }

  /** The merged order is sorted by the points and keeps every key's order. */
  lemma {:induction false} MergeAllFacts(history: seq<KvOperation>, pt: seq<int>, keys: seq<string>, orders: KeyOrders)
    requires |pt| == |history| && Distinct(keys) && OrdersFor(history, keys, orders)
    requires forall k | k in keys :: SortedBy(pt, orders[k])
    ensures SortedBy(pt, MergeAll(pt, keys, orders))
    ensures forall x :: x in MergeAll(pt, keys, orders) ==> history[x].input.key in keys
    ensures forall k :: Restrict(history, MergeAll(pt, keys, orders), k) == if k in keys then orders[k] else []
  {
    if keys != [] {
      hide *;
      var last := |keys| - 1;
      MergeAllStep(history, pt, keys, orders);
      var before, k0 := keys[..last], keys[last];
      var a, b := MergeAll(pt, before, orders), orders[k0];
      MergeAllFacts(history, pt, before, orders);
      MergeSorted(pt, a, b);
      MergeMembers(pt, a, b);
      forall k ensures Restrict(history, Merge(pt, a, b), k) == if k in keys then orders[k] else [] {
        MergeRestrict(history, pt, a, b, k0, k);
      }
    }
  }

  /** The last key is new, and its order holds exactly its operations. */
  lemma {:induction false} MergeAllStep(history: seq<KvOperation>, pt: seq<int>, keys: seq<string>, orders: KeyOrders)
    requires |pt| == |history| && Distinct(keys) && OrdersFor(history, keys, orders) && keys != []
    ensures var (before, k0) := (keys[..|keys| - 1], keys[|keys| - 1]);
            && Distinct(before) && OrdersFor(history, before, orders)
            && k0 !in before && (forall k :: k in keys <==> k in before || k == k0)
            && k0 in orders && IdsBelow(orders[k0], |pt|)
            && (forall x | x in orders[k0] :: history[x].input.key == k0)
            && (forall k | k in before :: k in orders && IdsBelow(orders[k], |pt|))
            && MergeAll(pt, keys, orders) == Merge(pt, MergeAll(pt, before, orders), orders[k0])
  {
    hide Run, RespectsTime;
    var before, k0 := keys[..|keys| - 1], keys[|keys| - 1];
    assert keys == before + [k0];
    assert k0 in keys;
  }

  /** An order whose part for every key has no repetitions has none itself. */
  lemma {:induction false} DistinctPerKey(history: seq<KvOperation>, order: seq<nat>)
    requires IdsBelow(order, |history|)
    requires forall k :: Distinct(Restrict(history, order, k))
    ensures Distinct(order)
  {
    if order != [] {
      hide Restrict;
      var before, c := order[..|order| - 1], order[|order| - 1];
      assert order == before + [c];
      forall k ensures Distinct(Restrict(history, before, k)) {
        RestrictAppend(history, before, c, k);
        assert Distinct(Restrict(history, order, k));
        DistinctPrefix(Restrict(history, before, k), if history[c].input.key == k then [c] else []);
      }
      DistinctPerKey(history, before);
      var k := history[c].input.key;
      RestrictAppend(history, before, c, k);
      RestrictFacts(history, before, k);
      NotBefore(Restrict(history, before, k), c);
    }
  }

  lemma DistinctPrefix(s: seq<nat>, t: seq<nat>)
    requires Distinct(s + t)
    ensures Distinct(s)
  {
    assert (s + t)[..|s|] == s;
    forall i, j | 0 <= i < j < |s| ensures s[i] != s[j] {
      assert (s + t)[i] != (s + t)[j];
    }
  }

  lemma NotBefore(s: seq<nat>, c: nat)
    requires Distinct(s + [c])
    ensures c !in s
  {
    var t := s + [c];
    forall i | 0 <= i < |s| ensures s[i] != c {
      assert t[i] != t[|s|];
    }
  }

  /** One legal order per key merges into a linearization of the store. */
  lemma MergeLinearizes(history: seq<KvOperation>, keys: seq<string>, orders: KeyOrders)
    requires CallsThenReturns(history) && Distinct(keys) && OrdersFor(history, keys, orders)
    requires forall i | 0 <= i < |history| :: history[i].input.key in keys
    ensures Linearizable(STORE_MODEL, history)
  {
    hide Run, Restrict, RespectsTime, SortedBy, Merge, AllPoints, Points;
    var pt := AllPoints(history, keys, orders);
    AllPointsFit(history, keys, orders);
    var order := MergeAll(pt, keys, orders);
    MergeAllFacts(history, pt, keys, orders);
    PointsRespectTime(history, pt, order);
    forall k ensures KeyLegal(history, order, k) && Distinct(Restrict(history, order, k)) {
      if k in keys {
        assert KeyRuns(history, order, k, Run(KV_MODEL, history, orders[k]).value);
      } else {
        EmptyRun(history);
        assert KeyRuns(history, order, k, "");
      }
    }
    DistinctPerKey(history, order);
    LegalPerKey(history, order);
    forall x: nat | x < |history| ensures x in order {
      RestrictFacts(history, order, history[x].input.key);
    }
    AllThere(order, |history|);
    assert IsLinearization(STORE_MODEL, history, order);
  }

  lemma {:induction false} EmptyRun(history: seq<KvOperation>)
    ensures Run(KV_MODEL, history, []) == Some("")
  {}

  lemma AllThere(order: seq<nat>, n: nat)
    requires IdsBelow(order, n) && Distinct(order)
    requires forall x: nat | x < n :: x in order
    ensures |order| == n
  {
    BelowFacts(n);
    DistinctSize(order);
    assert SetOf(order) == Below(n) by {
      forall x: nat | x < n ensures x in SetOf(order) {
        assert x in order;
      }
    }
  }

  /** A linearization of the store gives one for each key. */
  lemma {:induction false} StoreToKey(history: seq<KvOperation>, k: string)
    requires Linearizable(STORE_MODEL, history)
    ensures Linearizable(KV_MODEL, GroupOf(history, k))
  {
    var order: seq<nat> :| IsLinearization(STORE_MODEL, history, order);
    hide Run, GroupOf, Restrict;
    RestrictFacts(history, order, k);
    Projection(history, order, k);
    FullOrder(order, |history|);
    BelowFacts(|history|);
    forall x: nat | x < |history| ensures x in order {
      assert x in SetOf(order);
    }
    KeyOrderToGroup(history, Restrict(history, order, k), k);
  }

  /**
   * Locality: a history of the whole store is linearizable exactly when every group of the partition
   * is linearizable for a single key.
   */
  lemma PartitionIsLocal(history: seq<KvOperation>, keys: seq<string>, groups: seq<seq<KvOperation>>)
    requires CallsThenReturns(history) && PartitionOf(history, keys, groups)
    ensures Linearizable(STORE_MODEL, history) <==> forall j | 0 <= j < |groups| :: Linearizable(KV_MODEL, groups[j])
  {
    hide Linearizable, GroupOf, LexLeq;
    if Linearizable(STORE_MODEL, history) {
      forall j | 0 <= j < |groups| ensures Linearizable(KV_MODEL, groups[j]) {
        StoreToKey(history, keys[j]);
      }
    }
    if forall j | 0 <= j < |groups| :: Linearizable(KV_MODEL, groups[j]) {
      forall k | k in keys ensures exists order: seq<nat> :: KeyOrder(history, order, k) {
        var j :| 0 <= j < |keys| && keys[j] == k;
        assert Linearizable(KV_MODEL, groups[j]);
        GroupToKeyOrder(history, k);
      }
      var orders := ChooseOrders(history, keys);
      MergeLinearizes(history, keys, orders);
    }
  }

  lemma ChooseOrders(history: seq<KvOperation>, keys: seq<string>) returns (orders: KeyOrders)
    requires forall k | k in keys :: exists order: seq<nat> :: KeyOrder(history, order, k)
    ensures OrdersFor(history, keys, orders)
  {
    hide KeyOrder;
    orders := map k | k in keys :: SomeOrder(history, k);
    forall k | k in keys ensures KeyOrder(history, orders[k], k) {
      assert orders[k] == SomeOrder(history, k);
    }
  }

  ghost function SomeOrder(history: seq<KvOperation>, k: string): (order: seq<nat>)
    requires exists order: seq<nat> :: KeyOrder(history, order, k)
    ensures KeyOrder(history, order, k)
  {
    var order: seq<nat> :| KeyOrder(history, order, k); order
  }
}
