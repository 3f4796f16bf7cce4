/** The key/value specification, for one key and for the whole store, and the partition by key. */
module KvModel {
  import opened Linearizability
  import opened Sorting

  type Uint8 = x: nat | x < 256

  /** op: 0 is get, 1 is put, anything else is append. */
  datatype KvInput = KvInput(op: Uint8, key: string, value: string)

  datatype KvOutput = KvOutput(value: string)

  type KvOperation = Operation<KvInput, KvOutput>

  function KvStep(state: string, input: KvInput, output: KvOutput): (bool, string) {
    if input.op == 0 then (output.value == state, state)
    else if input.op == 1 then (true, input.value)
    else (true, state + input.value)
  }

  /** One key's value, starting empty. */
  const KV_MODEL: Model<string, KvInput, KvOutput> := Model("", KvStep, ShallowEqual)

  type Store = map<string, string>

  /** A missing key reads as the empty string. */
  function Lookup(store: Store, key: string): string {
    if key in store then store[key] else ""
  }

  function StoreStep(store: Store, input: KvInput, output: KvOutput): (bool, Store) {
    if input.op == 0 then (output.value == Lookup(store, input.key), store)
    else if input.op == 1 then (true, store[input.key := input.value])
    else (true, store[input.key := Lookup(store, input.key) + input.value])
  }

  /** The whole store, starting without keys. */
  const STORE_MODEL: Model<Store, KvInput, KvOutput> := Model(map[], StoreStep, ShallowEqual)

  // ---- the partition by key ----

  /** The positions of the operations on key k, in order. */
  function IndicesOf(history: seq<KvOperation>, k: string): seq<nat> {
    if history == [] then [] else
      var last := |history| - 1;
      IndicesOf(history[..last], k) + if history[last].input.key == k then [last] else []
  }

  /** The operations on key k, in order. */
  function GroupOf(history: seq<KvOperation>, k: string): seq<KvOperation> {
    if history == [] then [] else
      var last := |history| - 1;
      GroupOf(history[..last], k) + if history[last].input.key == k then [history[last]] else []
  }

  predicate LexLeq(a: string, b: string) {
    a == "" || (b != "" && (a[0] < b[0] || (a[0] == b[0] && LexLeq(a[1..], b[1..]))))
  }

  /** a is before b: it is a prefix of b, or has the smaller character where they first differ. */
  ghost predicate Ascending(a: string, b: string) {
    a <= b || exists k | 0 <= k < |a| && k < |b| :: a[..k] == b[..k] && a[k] < b[k]
  }

  lemma {:induction false} LexLeqAscends(a: string, b: string)
    ensures LexLeq(a, b) <==> Ascending(a, b)
  {
    if a != "" && b != "" && a[0] == b[0] {
      LexLeqAscends(a[1..], b[1..]);
      assert a == [a[0]] + a[1..] && b == [b[0]] + b[1..];
      if k :| 0 <= k < |a[1..]| && k < |b[1..]| && a[1..][..k] == b[1..][..k] && a[1..][k] < b[1..][k] {
        assert a[..k + 1] == [a[0]] + a[1..][..k] && b[..k + 1] == [b[0]] + b[1..][..k];
      }
      if k :| 0 <= k < |a| && k < |b| && a[..k] == b[..k] && a[k] < b[k] {
        assert a[1..][..k - 1] == a[..k][1..] && b[1..][..k - 1] == b[..k][1..];
      }
    }
  }

  lemma {:induction false} LexLeqTotal(a: string, b: string)
    ensures LexLeq(a, b) || LexLeq(b, a)
  {
    if a != "" && b != "" && a[0] == b[0] {
      LexLeqTotal(a[1..], b[1..]);
    }
  }

  lemma {:induction false} LexLeqTransitive(a: string, b: string, c: string)
    requires LexLeq(a, b) && LexLeq(b, c)
    ensures LexLeq(a, c)
  {
    if a != "" && a[0] == b[0] && b[0] == c[0] {
      LexLeqTransitive(a[1..], b[1..], c[1..]);
    }
  }

  lemma LexLeqPreorder()
    ensures TotalPreorder(LexLeq)
  {
    forall a, b ensures LexLeq(a, b) || LexLeq(b, a) {
      LexLeqTotal(a, b);
    }
    forall a, b, c | LexLeq(a, b) && LexLeq(b, c) ensures LexLeq(a, c) {
      LexLeqTransitive(a, b, c);
    }
  }

  /** keys lists every key of the history once, in order. */
  ghost predicate KeysOf(history: seq<KvOperation>, keys: seq<string>) {
    && Ordered(LexLeq, keys) && Distinct(keys)
    && (forall i | 0 <= i < |history| :: history[i].input.key in keys)
    && (forall k | k in keys :: HasKey(history, k))
  }

  ghost predicate HasKey(history: seq<KvOperation>, k: string) {
    exists i | 0 <= i < |history| :: history[i].input.key == k
  }

  /** One group for each key, in the order of the keys, each in the order of the history. */
  ghost predicate PartitionOf(history: seq<KvOperation>, keys: seq<string>, groups: seq<seq<KvOperation>>) {
    && KeysOf(history, keys) && |groups| == |keys|
    && forall j | 0 <= j < |keys| :: groups[j] == GroupOf(history, keys[j])
  }

  /** m holds the group of every key that occurs. */
  ghost predicate Grouped(history: seq<KvOperation>, m: map<string, seq<KvOperation>>) {
    && (forall k | k in m :: m[k] == GroupOf(history, k) && HasKey(history, k))
    && (forall k | k !in m :: GroupOf(history, k) == [])
    && (forall i | 0 <= i < |history| :: history[i].input.key in m)
  }

  lemma GroupedNothing()
    ensures Grouped([], map[])
  {}

  lemma GroupedAppend(history: seq<KvOperation>, m: map<string, seq<KvOperation>>, v: KvOperation)
    requires Grouped(history, m)
    ensures var key := v.input.key;
            Grouped(history + [v], m[key := (if key in m then m[key] else []) + [v]])
  {
    var key, after := v.input.key, history + [v];
    assert after[..|history|] == history;
    assert after[|history|].input.key == key;
    forall k | HasKey(history, k) ensures HasKey(after, k) {
      var i :| 0 <= i < |history| && history[i].input.key == k;
      assert after[i].input.key == k;
    }
  }

  method GroupByKey(history: seq<KvOperation>) returns (m: map<string, seq<KvOperation>>)
    ensures Grouped(history, m)
  {
    hide *;
    m := map[];
    GroupedNothing();
    assert history[..0] == [];
    for n := 0 to |history|
      invariant Grouped(history[..n], m)
    {
      var v := history[n];
      GroupedAppend(history[..n], m, v);
      assert history[..n + 1] == history[..n] + [v];
      m := m[v.input.key := (if v.input.key in m then m[v.input.key] else []) + [v]];
    }
    assert history[..|history|] == history;
  }

  method Partition(history: seq<KvOperation>) returns (ret: seq<seq<KvOperation>>, ghost sorted: seq<string>)
    ensures PartitionOf(history, sorted, ret)
    ensures forall i, j | 0 <= i < j < |sorted| :: Ascending(sorted[i], sorted[j])
  {
    hide GroupOf, HasKey, LexLeq, TotalPreorder, Ascending;
    var m := GroupByKey(history);
    var keys := KeysInSomeOrder(m.Keys);
    LexLeqPreorder();
    keys := SortKeys(keys);
    sorted := keys;
    forall i, j | 0 <= i < j < |keys| ensures Ascending(keys[i], keys[j]) {
      LexLeqAscends(keys[i], keys[j]);
    }
    ret := [];
    for j := 0 to |keys|
      invariant |ret| == j
      invariant forall i | 0 <= i < j :: ret[i] == GroupOf(history, keys[i])
    {
      assert keys[j] in keys;
      ret := ret + [m[keys[j]]];
    }
  }

  /** The keys of a map, in the arbitrary order of a map iteration. */
  method KeysInSomeOrder(s: set<string>) returns (keys: seq<string>)
    ensures Distinct(keys) && forall k :: k in keys <==> k in s
  {
    keys := [];
    var rest := s;
    while rest != {}
      invariant rest <= s && Distinct(keys)
      invariant forall k :: k in keys <==> k in s && k !in rest
      decreases rest
    {
      var k :| k in rest;
      rest := rest - {k};
      keys := keys + [k];
    }
  }

  method SortKeys(keys: seq<string>) returns (r: seq<string>)
    requires TotalPreorder(LexLeq) && Distinct(keys)
    ensures Ordered(LexLeq, r) && Distinct(r) && forall k :: k in r <==> k in keys
  {
    r := Sort(keys, LexLeq);
    PermutationDistinct(keys, r);
  }
}
