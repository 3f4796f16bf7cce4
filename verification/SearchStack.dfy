/** The undo stack of the search and the links of the nodes lifted for it. */
module SearchStack {
  import opened Linearizability
  import opened Search
  import opened LinkedEntries
  import opened RemainingList
  import opened ListSteps

  datatype CallsEntry<S, I, O> = CallsEntry(entry: Node<I, O>, state: S)

  /** Level k of the stack holds the call taken from configs[k] and the state it was taken in. */
  ghost predicate StackOk<S, I, O>(nodes: seq<Node<I, O>>, ops: seq<Operation<I, O>>, calls: seq<CallsEntry<S, I, O>>,
                                   path: seq<nat>, configs: seq<Config<S>>)
    requires NodesFor(nodes, ops)
  {
    && |calls| == |path| && |configs| == |path| + 1
    && forall k | 0 <= k < |path| ::
         && path[k] < |ops| && calls[k].entry == CallNode(nodes, ops, path[k])
         && calls[k].state == configs[k].1
  }

  /** The lifted nodes of operation c still point to their neighbours on the list they were lifted out of. */
  ghost predicate LevelLinks<I, O>(nodes: seq<Node<I, O>>, ops: seq<Operation<I, O>>, done: set<nat>, c: nat)
    requires NodesFor(nodes, ops)
    reads if c < |ops| then {CallNode(nodes, ops, c), CallNode(nodes, ops, c).partner} else {}
  {
    && c < |ops| && c !in done
    && var (s, x) := (Rest(nodes, done), CallNode(nodes, ops, c));
       && x in s && x.partner in s
       && 0 < PosOf(s, x) < PosOf(s, x.partner)
       && Dangling(s, PosOf(s, x), PosOf(s, x.partner))
  }

  /** The list is the original order without the operations taken, and every level can be put back. */
  ghost predicate Links<S, I, O>(nodes: seq<Node<I, O>>, ops: seq<Operation<I, O>>, path: seq<nat>,
                                 configs: seq<Config<S>>)
    requires NodesFor(nodes, ops)
    reads nodes
  {
    && |configs| == |path| + 1
    && (ListedAreNodes(nodes, configs[|path|].0); true)
    && Chain(Rest(nodes, configs[|path|].0))
    && forall k | 0 <= k < |path| :: LevelLinks(nodes, ops, configs[k].0, path[k])
  }

  lemma {:induction false} TakenNotListed<I, O>(nodes: seq<Node<I, O>>, ops: seq<Operation<I, O>>, done: set<nat>,
                                                c: nat)
    requires NodesFor(nodes, ops) && c < |ops| && c in done
    ensures CallNode(nodes, ops, c) !in Rest(nodes, done)
    ensures CallNode(nodes, ops, c).partner !in Rest(nodes, done)
  {
    RestMember(nodes, done, CallNode(nodes, ops, c));
    RestMember(nodes, done, CallNode(nodes, ops, c).partner);
  }

  lemma {:induction false} ListedAreNodes<I, O>(nodes: seq<Node<I, O>>, done: set<nat>)
    ensures forall i | 0 <= i < |Rest(nodes, done)| :: Rest(nodes, done)[i] in nodes
  {
    forall i | 0 <= i < |Rest(nodes, done)| ensures Rest(nodes, done)[i] in nodes {
      RestMember(nodes, done, Rest(nodes, done)[i]);
    }
  }

  /** Everything on a path is taken at its end. */
  lemma PathTaken<S, I, O>(model: Model<S, I, O>, ops: seq<Operation<I, O>>, path: seq<nat>, configs: seq<Config<S>>)
    requires Path(model, ops, path, configs)
    ensures forall k | 0 <= k < |path| :: path[k] < |ops| && path[k] in configs[|path|].0
  {
    PathMeaning(model, ops, path, configs);
  }

  /** The lists before and after taking the last call of a path; older calls are on neither. */
  lemma {:induction false} ListsOfLastCall<S, I, O>(model: Model<S, I, O>, nodes: seq<Node<I, O>>,
                                                    ops: seq<Operation<I, O>>, path: seq<nat>, configs: seq<Config<S>>)
    requires NodesFor(nodes, ops) && Path(model, ops, path, configs) && path != []
    ensures var n := |path| - 1;
            && path[n] < |ops| && path[n] !in configs[n].0
            && var (s, x) := (Rest(nodes, configs[n].0), CallNode(nodes, ops, path[n]));
            && x in s && x.partner in s
            && var (p, q) := (PosOf(s, x), PosOf(s, x.partner));
               0 < p < q && Rest(nodes, configs[n + 1].0) == Without(s, p, q)
    ensures var s := Rest(nodes, configs[|path| - 1].0);
            && Distinct(s)
            && (forall i | 0 <= i < |s| :: s[i] in nodes)
            && forall k | 0 <= k < |path| - 1 ::
                 && path[k] < |ops|
                 && CallNode(nodes, ops, path[k]) !in s && CallNode(nodes, ops, path[k]).partner !in s
  {
    hide NodesFor;
    var n := |path| - 1;
    var done := configs[n].0;
    assert Linked(model, ops, path, configs, n);
    PairOnList(nodes, ops, done, path[n]);
    ListedAreNodes(nodes, done);
    RestIsListFor(nodes, ops, done);
    SortedDistinct(ops, Rest(nodes, done));
    PathPrefix(model, ops, path, configs);
    PathTaken(model, ops, path[..n], configs[..n + 1]);
    forall k | 0 <= k < n
      ensures path[k] < |ops|
      ensures CallNode(nodes, ops, path[k]) !in Rest(nodes, done)
      ensures CallNode(nodes, ops, path[k]).partner !in Rest(nodes, done)
    {
      assert path[..n][k] == path[k];
      TakenNotListed(nodes, ops, done, path[k]);
    }
  }

  lemma SortedDistinct<I, O>(ops: seq<Operation<I, O>>, s: seq<Node<I, O>>)
    requires Sorted(ops, s)
    ensures Distinct(s)
  {}

  /** Takes the call that the path now ends with out of the list. */
  method LiftCall<S, I, O>(entry: Node<I, O>, ghost model: Model<S, I, O>,
                           ghost nodes: seq<Node<I, O>>, ghost ops: seq<Operation<I, O>>,
                           ghost path: seq<nat>, ghost configs: seq<Config<S>>)
    requires NodesFor(nodes, ops) && Path(model, ops, path, configs) && path != []
    requires Links(nodes, ops, path[..|path| - 1], configs[..|path|])
    requires path[|path| - 1] < |ops| && entry == CallNode(nodes, ops, path[|path| - 1])
    modifies nodes
    ensures Links(nodes, ops, path, configs)
  {
    hide NodesFor;
    ghost var n := |path| - 1;
    ghost var shorter, fewer := path[..n], configs[..n + 1];
    ghost var s := Rest(nodes, configs[n].0);
    ListsOfLastCall(model, nodes, ops, path, configs);
    Lift(entry, s, PosOf(s, entry), PosOf(s, entry.partner));
    forall k | 0 <= k < |path| ensures LevelLinks(nodes, ops, configs[k].0, path[k]) {
      if k < n {
        assert old(LevelLinks(nodes, ops, fewer[k].0, shorter[k]));
      }
    }
  }

  /** Puts the last call of the path back on the list. */
  method UnliftCall<S, I, O>(entry: Node<I, O>, ghost model: Model<S, I, O>,
                             ghost nodes: seq<Node<I, O>>, ghost ops: seq<Operation<I, O>>,
                             ghost path: seq<nat>, ghost configs: seq<Config<S>>)
    requires NodesFor(nodes, ops) && Path(model, ops, path, configs) && path != []
    requires Links(nodes, ops, path, configs)
    requires path[|path| - 1] < |ops| && entry == CallNode(nodes, ops, path[|path| - 1])
    modifies nodes
    ensures Links(nodes, ops, path[..|path| - 1], configs[..|path|])
  {
    hide NodesFor;
    ghost var n := |path| - 1;
    ghost var s := Rest(nodes, configs[n].0);
    ListsOfLastCall(model, nodes, ops, path, configs);
    assert LevelLinks(nodes, ops, configs[n].0, path[n]);
    Unlift(entry, s, PosOf(s, entry), PosOf(s, entry.partner));
    ghost var shorter, fewer := path[..n], configs[..n + 1];
    forall k | 0 <= k < |shorter| ensures LevelLinks(nodes, ops, fewer[k].0, shorter[k]) {
      assert old(LevelLinks(nodes, ops, configs[k].0, path[k]));
    }
  }
}
