/** The list the search scans: the original nodes, in order, without the operations already taken. */
module RemainingList {
  import opened Linearizability
  import opened Search
  import opened LinkedEntries

  /** The nodes whose operation is not in done, in their original order. */
  ghost function Rest<I, O>(nodes: seq<Node<I, O>>, done: set<nat>): seq<Node<I, O>> {
    if nodes == [] then [] else
      var last := |nodes| - 1;
      Rest(nodes[..last], done) + if nodes[last].id in done then [] else [nodes[last]]
  }

  /** The position in the history of the entry a node stands for; -1 for the head. */
  ghost function Time<I, O>(ops: seq<Operation<I, O>>, node: Node<I, O>): int {
    if !(0 <= node.id < |ops|) then -1
    else if node.partner != null then ops[node.id].call else ops[node.id].ret
  }

  /** The nodes of operation c stand at its two positions; nodes[0] is the head node. */
  ghost predicate PairFor<I, O>(nodes: seq<Node<I, O>>, ops: seq<Operation<I, O>>, c: nat)
    requires c < |ops|
  {
    && 0 <= ops[c].call < ops[c].ret < |nodes| - 1
    && var (x, y) := (nodes[ops[c].call + 1], nodes[ops[c].ret + 1]);
       && x.id == c && x.value == Input(ops[c].input) && x.partner == y
       && y.id == c && y.value == Output(ops[c].output) && y.partner == null
  }

  ghost predicate NodesFor<I, O>(nodes: seq<Node<I, O>>, ops: seq<Operation<I, O>>) {
    && Positions(ops)
    && |nodes| == 2 * |ops| + 1
    && Distinct(nodes)
    && nodes[0].id == -1 && nodes[0].partner == null
    && (forall c: nat | c < |ops| :: PairFor(nodes, ops, c))
    && (forall a | 1 <= a < |nodes| :: 0 <= nodes[a].id < |ops| && Time(ops, nodes[a]) == a - 1)
  }

  ghost function CallNode<I, O>(nodes: seq<Node<I, O>>, ops: seq<Operation<I, O>>, c: nat): (x: Node<I, O>)
    requires NodesFor(nodes, ops) && c < |ops|
    ensures x.id == c && x.partner != null && x.partner.id == c && x.partner.partner == null
    ensures Time(ops, x) == ops[c].call && Time(ops, x.partner) == ops[c].ret
    ensures x in nodes && x.partner in nodes
  {
    assert PairFor(nodes, ops, c);
    nodes[ops[c].call + 1]
  }

  // ---- filtering ----

  lemma {:induction false} RestMember<I, O>(nodes: seq<Node<I, O>>, done: set<nat>, x: Node<I, O>)
    ensures x in Rest(nodes, done) <==> x in nodes && x.id !in done
  {
    if nodes != [] {
      var last := |nodes| - 1;
      RestMember(nodes[..last], done, x);
      assert nodes == nodes[..last] + [nodes[last]];
    }
  }

  lemma {:induction false} RestConcat<I, O>(a: seq<Node<I, O>>, b: seq<Node<I, O>>, done: set<nat>)
    ensures Rest(a + b, done) == Rest(a, done) + Rest(b, done)
  {
    if b == [] {
      assert a + b == a;
    } else {
      var last := |b| - 1;
      RestConcat(a, b[..last], done);
      assert (a + b)[..|a + b| - 1] == a + b[..last];
    }
  }

  lemma {:induction false} RestKeepsAll<I, O>(nodes: seq<Node<I, O>>, done: set<nat>)
    requires forall x | x in nodes :: x.id !in done
    ensures Rest(nodes, done) == nodes
  {
    if nodes != [] {
      var last := |nodes| - 1;
      RestKeepsAll(nodes[..last], done);
      assert nodes == nodes[..last] + [nodes[last]];
    }
  }

  lemma {:induction false} RestTwice<I, O>(nodes: seq<Node<I, O>>, done: set<nat>, more: set<nat>)
    ensures Rest(Rest(nodes, done), more) == Rest(nodes, done + more)
  {
    if nodes != [] {
      var last := |nodes| - 1;
      RestTwice(nodes[..last], done, more);
      RestConcat(Rest(nodes[..last], done), if nodes[last].id in done then [] else [nodes[last]], more);
    }
  }

  lemma {:induction false} RestSingle<I, O>(x: Node<I, O>, done: set<nat>)
    ensures Rest([x], done) == if x.id in done then [] else [x]
  {
    assert [x][..0] == [];
  }

  lemma {:induction false} RestOfParts<I, O>(a: seq<Node<I, O>>, x: Node<I, O>, b: seq<Node<I, O>>, y: Node<I, O>,
                                             d: seq<Node<I, O>>, done: set<nat>)
    requires x.id in done && y.id in done
    ensures Rest(a + [x] + b + [y] + d, done) == Rest(a, done) + Rest(b, done) + Rest(d, done)
  {
    hide *;
    RestConcat(a + [x] + b + [y], d, done);
    RestConcat(a + [x] + b, [y], done);
    RestConcat(a + [x], b, done);
    RestConcat(a, [x], done);
    RestSingle(x, done);
    RestSingle(y, done);
  }

  lemma PairSplit<T>(s: seq<T>, p: nat, q: nat)
    requires p < q < |s|
    ensures s == s[..p] + [s[p]] + s[p + 1..q] + [s[q]] + s[q + 1..]
    ensures Without(s, p, q) == s[..p] + s[p + 1..q] + s[q + 1..]
  {}

  lemma PartsKept<I, O>(s: seq<Node<I, O>>, c: nat, p: nat, q: nat)
    requires p < q < |s|
    requires forall i | 0 <= i < |s| :: s[i].id == c <==> i == p || i == q
    ensures Rest(s[..p], {c}) == s[..p]
    ensures Rest(s[p + 1..q], {c}) == s[p + 1..q]
    ensures Rest(s[q + 1..], {c}) == s[q + 1..]
  {
    hide *;
    RestKeepsAll(s[..p], {c});
    RestKeepsAll(s[p + 1..q], {c});
    RestKeepsAll(s[q + 1..], {c});
  }

  /** Filtering one operation out of a list removes its two nodes. */
  lemma {:induction false} RestDropsPair<I, O>(s: seq<Node<I, O>>, c: nat, p: nat, q: nat)
    requires p < q < |s|
    requires forall i | 0 <= i < |s| :: s[i].id == c <==> i == p || i == q
    ensures Rest(s, {c}) == Without(s, p, q)
  {
    hide *;
    PairSplit(s, p, q);
    PartsKept(s, c, p, q);
    RestOfParts(s[..p], s[p], s[p + 1..q], s[q], s[q + 1..], {c});
  }

  /** The list keeps the time order of the history. */
  lemma {:induction false} RestSorted<I, O>(nodes: seq<Node<I, O>>, ops: seq<Operation<I, O>>, done: set<nat>, m: nat)
    requires NodesFor(nodes, ops) && m <= |nodes|
    ensures forall i | 0 <= i < |Rest(nodes[..m], done)| :: -1 <= Time(ops, Rest(nodes[..m], done)[i]) < m - 1
    ensures Sorted(ops, Rest(nodes[..m], done))
  {
    if m > 0 {
      RestSorted(nodes, ops, done, m - 1);
      assert nodes[..m][..m - 1] == nodes[..m - 1];
      assert nodes[..m][m - 1] == nodes[m - 1];
      assert Time(ops, nodes[m - 1]) == m - 2;
    }
  }

  ghost predicate Sorted<I, O>(ops: seq<Operation<I, O>>, s: seq<Node<I, O>>) {
    forall i, j | 0 <= i < j < |s| :: Time(ops, s[i]) < Time(ops, s[j])
  }

  // ---- what the scan can conclude from the list ----

  /** The list of the search when the operations in done are taken. */
  ghost predicate ListFor<I, O>(nodes: seq<Node<I, O>>, ops: seq<Operation<I, O>>, done: set<nat>, s: seq<Node<I, O>>) {
    && NodesFor(nodes, ops)
    && s != [] && s[0] == nodes[0]
    && Sorted(ops, s)
    && (forall i | 1 <= i < |s| :: OnList(nodes, ops, done, s[i]))
    && (forall c: nat | c < |ops| && c !in done :: Listed(nodes, ops, s, c))
  }

  ghost predicate OnList<I, O>(nodes: seq<Node<I, O>>, ops: seq<Operation<I, O>>, done: set<nat>, x: Node<I, O>)
    requires NodesFor(nodes, ops)
  {
    && 0 <= x.id < |ops| && x.id !in done
    && x == if x.partner != null then CallNode(nodes, ops, x.id) else CallNode(nodes, ops, x.id).partner
  }

  ghost predicate Listed<I, O>(nodes: seq<Node<I, O>>, ops: seq<Operation<I, O>>, s: seq<Node<I, O>>, c: nat)
    requires NodesFor(nodes, ops) && c < |ops|
  {
    var x := CallNode(nodes, ops, c);
    x in s && x.partner in s
  }

  lemma NodeKinds<I, O>(nodes: seq<Node<I, O>>, ops: seq<Operation<I, O>>, done: set<nat>, a: nat)
    requires NodesFor(nodes, ops) && 1 <= a < |nodes| && nodes[a].id !in done
    ensures OnList(nodes, ops, done, nodes[a])
  {
    assert PairFor(nodes, ops, nodes[a].id);
  }

  lemma {:induction false} RestIsListFor<I, O>(nodes: seq<Node<I, O>>, ops: seq<Operation<I, O>>, done: set<nat>)
    requires NodesFor(nodes, ops)
    ensures ListFor(nodes, ops, done, Rest(nodes, done))
  {
    var s := Rest(nodes, done);
    assert nodes[..|nodes|] == nodes;
    RestSorted(nodes, ops, done, |nodes|);
    HeadFirst(nodes, done);
    forall i | 1 <= i < |s| ensures OnList(nodes, ops, done, s[i]) {
      RestMember(nodes, done, s[i]);
      var a :| 0 <= a < |nodes| && nodes[a] == s[i];
      if a > 0 { NodeKinds(nodes, ops, done, a); }
    }
    forall c: nat | c < |ops| && c !in done ensures Listed(nodes, ops, s, c) {
      assert PairFor(nodes, ops, c);
      RestMember(nodes, done, CallNode(nodes, ops, c));
      RestMember(nodes, done, CallNode(nodes, ops, c).partner);
    }
  }

  lemma {:induction false} HeadFirst<I, O>(nodes: seq<Node<I, O>>, done: set<nat>)
    requires nodes != [] && nodes[0].id == -1
    ensures Rest(nodes, done) != [] && Rest(nodes, done)[0] == nodes[0]
  {
    assert nodes == [nodes[0]] + nodes[1..];
    RestConcat([nodes[0]], nodes[1..], done);
  }
}
