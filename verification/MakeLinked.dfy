/** Building the linked list from the entries of a history. */
module MakeLinked {
  import opened Linearizability
  import opened Entries
  import opened LinkedEntries
  import opened RemainingList

  /** What is built after the entries from position i on: their nodes, in order. */
  ghost predicate Built<I, O>(nodes: seq<Node<I, O>>, history: seq<Entry<I, O>>, i: nat)
    requires WellFormed(history)
  {
    && i <= |history| && |nodes| == |history| - i
    && forall a: nat | i <= a < |history| :: BuiltAt(nodes, history, i, a)
  }

  ghost predicate BuiltAt<I, O>(nodes: seq<Node<I, O>>, history: seq<Entry<I, O>>, i: nat, a: nat)
    requires WellFormed(history) && |nodes| == |history| - i && i <= a < |history|
  {
    var x := nodes[a - i];
    && x.id == history[a].id
    && match history[a]
       case CallEntry(input, id, _, _) =>
         x.value == Input(input) && a < Ops(history)[id].ret < |history| && x.partner == nodes[Ops(history)[id].ret - i]
       case ReturnEntry(output, _, _, _) =>
         x.value == Output(output) && x.partner == null
  }

  method MakeLinkedEntries<I, O>(history: seq<Entry<I, O>>) returns (root: Node?<I, O>, ghost nodes: seq<Node<I, O>>)
    requires WellFormed(history)
    ensures Chain(nodes) && root == At(nodes, 0) && (root == null <==> nodes == [])
    ensures fresh(nodes)
    ensures Built(nodes, history, 0)
  {
    hide Ops, HasPair, Pair;
    root := null;
    nodes := [];
    var match_: map<nat, Node<I, O>> := map[];
    var i := |history|;
    while i > 0
      invariant 0 <= i <= |history|
      invariant Chain(nodes) && root == At(nodes, 0) && fresh(nodes)
      invariant Built(nodes, history, i)
      invariant forall a: nat | i <= a < |history| && history[a].ReturnEntry? ::
                  history[a].id in match_ && match_[history[a].id] == nodes[a - i]
    {
      i := i - 1;
      var elem := history[i];
      ghost var before := nodes;
      var entry: Node<I, O>;
      if elem.ReturnEntry? {
        entry := new Node(Output(elem.output), null, elem.id);
        match_ := match_[elem.id := entry];
      } else {
        PositionOfEntry(history, i);
        OpOfPair(history, elem.id);
        entry := new Node(Input(elem.input), match_[elem.id], elem.id);
      }
      var _ := InsertBefore(entry, root, nodes, 0);
      nodes := [entry] + nodes;
      assert before[..0] + [entry] + before[0..] == nodes;
      root := entry;
      BuiltStep(before, entry, history, i);
    }
  }

  lemma BuiltStep<I, O>(before: seq<Node<I, O>>, entry: Node<I, O>, history: seq<Entry<I, O>>, i: nat)
    requires WellFormed(history) && i < |history| && Built(before, history, i + 1)
    requires BuiltAt([entry] + before, history, i, i)
    ensures Built([entry] + before, history, i)
  {
    var nodes := [entry] + before;
    forall a: nat | i <= a < |history| ensures BuiltAt(nodes, history, i, a) {
      if a > i {
        assert BuiltAt(before, history, i + 1, a);
      }
    }
  }

  /** The finished nodes, behind a head node, are the nodes of the history's operations. */
  lemma BuiltNodesFor<I, O>(head: Node<I, O>, nodes: seq<Node<I, O>>, history: seq<Entry<I, O>>)
    requires WellFormed(history) && Built(nodes, history, 0)
    requires Distinct([head] + nodes) && head.id == -1 && head.partner == null
    ensures NodesFor([head] + nodes, Ops(history))
  {
    var ops, all := Ops(history), [head] + nodes;
    OpsPositions(history);
    forall c: nat | c < |ops| ensures PairFor(all, ops, c) {
      OpOfPair(history, c);
      assert BuiltAt(nodes, history, 0, ops[c].call);
      assert BuiltAt(nodes, history, 0, ops[c].ret);
    }
    forall a | 1 <= a < |all| ensures 0 <= all[a].id < |ops| && Time(ops, all[a]) == a - 1 {
      assert BuiltAt(nodes, history, 0, a - 1);
      PositionOfEntry(history, a - 1);
    }
  }
}
