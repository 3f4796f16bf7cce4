/** What each branch of the search loop may conclude, and what it re-establishes. */
module CheckerSteps {
  import opened Linearizability
  import opened Search
  import opened LinkedEntries
  import opened RemainingList
  import opened ListSteps
  import opened SearchStack

  /** The entry under examination is at position j of the list, and only calls come before it. */
  ghost predicate EntryAt<I, O>(nodes: seq<Node<I, O>>, ops: seq<Operation<I, O>>, done: set<nat>,
                                entry: Node?<I, O>, j: nat, bound: int)
  {
    var s := Rest(nodes, done);
    |s| > 1 ==>
      && 1 <= j < |s| && s[j] == entry && Time(ops, s[j]) == bound
      && CallsBefore(s, j)
  }

  ghost predicate Recorded<S, I, O>(model: Model<S, I, O>, ops: seq<Operation<I, O>>, computePartial: bool,
                                    longest: seq<Option<seq<nat>>>, dead: set<Config<S>>)
  {
    LongestSound(model, ops, longest) && (computePartial ==> Covers(longest, dead))
  }

  /** The links of a list, from the chain invariant. */
  lemma {:induction false} NextOnList<S, I, O>(nodes: seq<Node<I, O>>, ops: seq<Operation<I, O>>, path: seq<nat>,
                                               configs: seq<Config<S>>, j: nat)
    requires NodesFor(nodes, ops) && Links(nodes, ops, path, configs)
    requires |configs| == |path| + 1 && j < |Rest(nodes, configs[|path|].0)|
    ensures var s := Rest(nodes, configs[|path|].0);
            s[j].next == if j + 1 < |s| then s[j + 1] else null
    ensures Rest(nodes, configs[|path|].0)[0] == nodes[0]
  {
    RestIsListFor(nodes, ops, configs[|path|].0);
  }

  /** While the list is not empty, the head's successor is its first entry. */
  lemma {:induction false} HeadOnList<S, I, O>(nodes: seq<Node<I, O>>, ops: seq<Operation<I, O>>, path: seq<nat>,
                                               configs: seq<Config<S>>)
    requires NodesFor(nodes, ops) && Links(nodes, ops, path, configs)
    requires |configs| == |path| + 1
    ensures nodes != []
    ensures var s := Rest(nodes, configs[|path|].0);
            && |s| >= 1
            && (|s| == 1 <==> nodes[0].next == null)
            && (|s| > 1 ==> nodes[0].next == s[1])
  {
    HeadFirst(nodes, configs[|path|].0);
    NextOnList(nodes, ops, path, configs, 0);
  }

  lemma {:induction false} EntryFacts<I, O>(nodes: seq<Node<I, O>>, ops: seq<Operation<I, O>>, done: set<nat>,
                                            entry: Node?<I, O>, j: nat, bound: int)
    requires EntryAt(nodes, ops, done, entry, j, bound) && |Rest(nodes, done)| > 1
    ensures entry != null && 1 <= j < |Rest(nodes, done)| && Rest(nodes, done)[j] == entry
  {}

  /** The ids on the stack are the path. */
  lemma StackIds<S, I, O>(nodes: seq<Node<I, O>>, ops: seq<Operation<I, O>>, calls: seq<CallsEntry<S, I, O>>,
                          path: seq<nat>, configs: seq<Config<S>>)
    requires NodesFor(nodes, ops) && StackOk(nodes, ops, calls, path, configs)
    ensures |calls| == |path| && IdsBelow(path, |ops|)
    ensures forall k | 0 <= k < |path| :: calls[k].entry.id == path[k]
  {}

  lemma SearchPath<S, I, O>(model: Model<S, I, O>, ops: seq<Operation<I, O>>, path: seq<nat>, configs: seq<Config<S>>,
                            bound: int, dead: set<Config<S>>, cached: set<Config<S>>)
    requires SearchInv(model, ops, path, configs, bound, dead, cached)
    ensures Path(model, ops, path, configs)
  {}

  lemma RecordedSound<S, I, O>(model: Model<S, I, O>, ops: seq<Operation<I, O>>, computePartial: bool,
                               longest: seq<Option<seq<nat>>>, dead: set<Config<S>>)
    requires Recorded(model, ops, computePartial, longest, dead)
    ensures LongestSound(model, ops, longest) && |longest| == |ops|
  {}

  /** What a call under examination is. */
  lemma {:induction false} CallFacts<I, O>(nodes: seq<Node<I, O>>, ops: seq<Operation<I, O>>, done: set<nat>,
                                           entry: Node<I, O>, j: nat, bound: int)
    requires NodesFor(nodes, ops) && |Rest(nodes, done)| > 1
    requires EntryAt(nodes, ops, done, entry, j, bound) && entry.partner != null
    ensures 0 <= entry.id < |ops| && MayBeNext(ops, done, entry.id) && bound == ops[entry.id].call
    ensures entry == CallNode(nodes, ops, entry.id)
    ensures entry.value == Input(ops[entry.id].input) && entry.partner.value == Output(ops[entry.id].output)
  {
    RestIsListFor(nodes, ops, done);
    var s := Rest(nodes, done);
    CallMayBeNext(nodes, ops, done, s, j);
    assert OnList(nodes, ops, done, s[j]);
    assert PairFor(nodes, ops, entry.id);
  }

  /** Moving on to the next entry. */
  lemma {:induction false} MoveOn<S, I, O>(model: Model<S, I, O>, nodes: seq<Node<I, O>>, ops: seq<Operation<I, O>>,
                                           path: seq<nat>, configs: seq<Config<S>>, entry: Node<I, O>, j: nat,
                                           bound: int, dead: set<Config<S>>, cached: set<Config<S>>)
    requires NodesFor(nodes, ops) && SearchInv(model, ops, path, configs, bound, dead, cached)
    requires |configs| == |path| + 1 && |Rest(nodes, configs[|path|].0)| > 1
    requires EntryAt(nodes, ops, configs[|path|].0, entry, j, bound) && entry.partner != null
    requires 0 <= entry.id < |ops|
    requires StepOp(model, configs[|path|].1, ops[entry.id]).0 ==>
        Has(model, cached, Succ(model, ops, configs[|path|], entry.id))
    requires Links(nodes, ops, path, configs)
    ensures var s := Rest(nodes, configs[|path|].0);
            && j + 1 < |s| && s[j + 1] == entry.next
            && SearchInv(model, ops, path, configs, Time(ops, s[j + 1]), dead, cached)
            && EntryAt(nodes, ops, configs[|path|].0, entry.next, j + 1, Time(ops, s[j + 1]))
  {
    hide NodesFor, SearchInv, Links;
    var done := configs[|path|].0;
    var s := Rest(nodes, done);
    CallFacts(nodes, ops, done, entry, j, bound);
    PositionsOf(nodes, ops);
    RestIsListFor(nodes, ops, done);
    AfterCall(nodes, ops, done, s, j);
    NextOnList(nodes, ops, path, configs, j);
    SkipStep(model, ops, path, configs, entry.id, Time(ops, s[j + 1]), dead, cached);
  }

  ghost function FirstBound<I, O>(nodes: seq<Node<I, O>>, ops: seq<Operation<I, O>>, done: set<nat>): int {
    var s := Rest(nodes, done);
    if |s| > 1 then Time(ops, s[1]) else 0
  }

  /** Taking a call: everything but the links. */
  lemma TakeCall<S, I, O>(model: Model<S, I, O>, nodes: seq<Node<I, O>>, ops: seq<Operation<I, O>>,
                          calls: seq<CallsEntry<S, I, O>>, path: seq<nat>, configs: seq<Config<S>>,
                          entry: Node<I, O>, state: S, bound: int, dead: set<Config<S>>, cached: set<Config<S>>)
    requires NodesFor(nodes, ops) && SearchInv(model, ops, path, configs, bound, dead, cached)
    requires StackOk(nodes, ops, calls, path, configs) && |configs| == |path| + 1 && state == configs[|path|].1
    requires 0 <= entry.id < |ops| && entry == CallNode(nodes, ops, entry.id) && bound == ops[entry.id].call
    requires MayBeNext(ops, configs[|path|].0, entry.id)
    requires StepOp(model, state, ops[entry.id]).0
    ensures var c := entry.id;
            var cfg := Succ(model, ops, configs[|path|], c);
            && cfg == (configs[|path|].0 + {c}, StepOp(model, state, ops[c]).1)
            && SearchInv(model, ops, path + [c], configs + [cfg], FirstBound(nodes, ops, cfg.0), dead, cached + {cfg})
            && StackOk(nodes, ops, calls + [CallsEntry(entry, state)], path + [c], configs + [cfg])
            && Path(model, ops, path + [c], configs + [cfg])
            && cfg in Universe(model, ops)
  {
    var c := entry.id;
    var cfg := Succ(model, ops, configs[|path|], c);
    var first := FirstBound(nodes, ops, cfg.0);
    RestIsListFor(nodes, ops, cfg.0);
    FrontOfList(nodes, ops, cfg.0, Rest(nodes, cfg.0));
    PushStep(model, ops, path, configs, c, first, dead, cached);
    PathInUniverse(model, ops, path + [c], configs + [cfg]);
  }

  lemma {:induction false} FirstEntry<I, O>(nodes: seq<Node<I, O>>, ops: seq<Operation<I, O>>, done: set<nat>,
                                            entry: Node?<I, O>)
    requires |Rest(nodes, done)| > 1 ==> entry == Rest(nodes, done)[1]
    ensures EntryAt(nodes, ops, done, entry, 1, FirstBound(nodes, ops, done))
  {}

  /** At a return with an empty stack the search is exhausted. */
  lemma {:induction false} GiveUp<S(!new), I(!new), O(!new)>(model: Model<S, I, O>, nodes: seq<Node<I, O>>,
                                                             ops: seq<Operation<I, O>>, path: seq<nat>,
                                                             configs: seq<Config<S>>, entry: Node<I, O>, j: nat,
                                                             bound: int, dead: set<Config<S>>, cached: set<Config<S>>,
                                                             computePartial: bool, longest: seq<Option<seq<nat>>>)
    requires EqualAgrees(model) && NodesFor(nodes, ops) && SearchInv(model, ops, path, configs, bound, dead, cached)
    requires |configs| == |path| + 1 && |Rest(nodes, configs[|path|].0)| > 1 && path == []
    requires EntryAt(nodes, ops, configs[|path|].0, entry, j, bound) && entry.partner == null
    requires Recorded(model, ops, computePartial, longest, dead)
    ensures !Linearizable(model, ops)
    ensures LongestSound(model, ops, longest) && (computePartial ==> Maximal(model, ops, longest))
  {
    var done := configs[|path|].0;
    RestIsListFor(nodes, ops, done);
    ReturnIsPending(nodes, ops, done, Rest(nodes, done), j);
    ExhaustedAtReturn(model, ops, path, configs, entry.id, dead, cached);
    assert Exhausted(model, ops, dead);
    ExhaustedRefutes(model, ops, dead);
    if computePartial {
      ExhaustedMaximal(model, ops, longest, dead);
    }
  }

  /** The top of a non-empty stack, and the stack below it. */
  lemma StackTop<S, I, O>(model: Model<S, I, O>, nodes: seq<Node<I, O>>, ops: seq<Operation<I, O>>,
                          calls: seq<CallsEntry<S, I, O>>, path: seq<nat>, configs: seq<Config<S>>)
    requires NodesFor(nodes, ops) && Path(model, ops, path, configs) && path != []
    requires StackOk(nodes, ops, calls, path, configs)
    ensures var n := |path| - 1;
            && |calls| == |path| && calls[n].state == configs[n].1
            && path[n] < |ops| && calls[n].entry == CallNode(nodes, ops, path[n]) && calls[n].entry.id == path[n]
            && calls[n].entry.partner != null
            && MayBeNext(ops, configs[n].0, path[n])
            && configs[|path|].0 - {path[n]} == configs[n].0
            && StackOk(nodes, ops, calls[..n], path[..n], configs[..n + 1])
  {
    hide NodesFor;
    var n := |path| - 1;
    assert Linked(model, ops, path, configs, n);
  }

  /** Backing out of a configuration at a return: the scan resumes after the call that was taken last. */
  lemma BackOut<S(!new), I(!new), O(!new)>(model: Model<S, I, O>, nodes: seq<Node<I, O>>, ops: seq<Operation<I, O>>,
                                           path: seq<nat>, configs: seq<Config<S>>,
                                           entry: Node<I, O>, j: nat, bound: int, dead: set<Config<S>>,
                                           cached: set<Config<S>>)
    returns (j': nat, bound': int)
    requires EqualAgrees(model) && NodesFor(nodes, ops) && SearchInv(model, ops, path, configs, bound, dead, cached)
    requires |configs| == |path| + 1 && |Rest(nodes, configs[|path|].0)| > 1 && path != []
    requires EntryAt(nodes, ops, configs[|path|].0, entry, j, bound) && entry.partner == null
    requires path[|path| - 1] < |ops| && MayBeNext(ops, configs[|path| - 1].0, path[|path| - 1])
    ensures var n := |path| - 1;
            var s := Rest(nodes, configs[n].0);
            && SearchInv(model, ops, path[..n], configs[..n + 1], bound', dead + {configs[|path|]}, cached)
            && 1 <= j' < |s| && s[j' - 1] == CallNode(nodes, ops, path[n])
            && EntryAt(nodes, ops, configs[n].0, s[j'], j', bound')
  {
    hide NodesFor, SearchInv, MayBeNext;
    var n := |path| - 1;
    var done, c := configs[n].0, path[n];
    assert c !in done by { NotDone(ops, done, c); }
    RestIsListFor(nodes, ops, configs[|path|].0);
    ReturnIsPending(nodes, ops, configs[|path|].0, Rest(nodes, configs[|path|].0), j);
    var s := Rest(nodes, done);
    RestIsListFor(nodes, ops, done);
    PairOnList(nodes, ops, done, c);
    var p := PosOf(s, CallNode(nodes, ops, c));
    OnlyCallsBefore(nodes, ops, done, s, c, p);
    AfterCall(nodes, ops, done, s, p);
    j', bound' := p + 1, Time(ops, s[p + 1]);
    PositionsOf(nodes, ops);
    PopStep(model, ops, path, configs, entry.id, bound', dead, cached);
  }

  lemma NotDone<I, O>(ops: seq<Operation<I, O>>, done: set<nat>, c: nat)
    requires MayBeNext(ops, done, c)
    ensures c !in done
  {}

  lemma PositionsOf<I, O>(nodes: seq<Node<I, O>>, ops: seq<Operation<I, O>>)
    requires NodesFor(nodes, ops)
    ensures Positions(ops)
  {}

  /** An empty list: the path is a linearization, and longest for every operation. */
  lemma {:induction false} Complete<S, I, O>(model: Model<S, I, O>, nodes: seq<Node<I, O>>, ops: seq<Operation<I, O>>,
                                             path: seq<nat>, configs: seq<Config<S>>)
    requires NodesFor(nodes, ops) && Path(model, ops, path, configs)
    requires |Rest(nodes, configs[|path|].0)| == 1
    ensures IsLinearization(model, ops, path)
    ensures Maximal(model, ops, seq(|ops|, _ => Some(path)))
    ensures LongestSound(model, ops, seq(|ops|, _ => Some(path)))
  {
    var done := configs[|path|].0;
    RestIsListFor(nodes, ops, done);
    FrontOfList(nodes, ops, done, Rest(nodes, done));
    PathMeaning(model, ops, path, configs);
    BelowFacts(|ops|);
    SubsetSize(Below(|ops|), done);
    LinearizationIffFullPartial(model, ops, path);
    CompleteMaximal(model, ops, path);
  }

  /** Recording the stack on the way out of a configuration keeps the records sound and complete. */
  lemma RecordedAfterPop<S, I, O>(model: Model<S, I, O>, ops: seq<Operation<I, O>>, path: seq<nat>,
                                  configs: seq<Config<S>>,
                                  computePartial: bool, longest: seq<Option<seq<nat>>>, longest': seq<Option<seq<nat>>>,
                                  dead: set<Config<S>>)
    requires Path(model, ops, path, configs)
    requires Recorded(model, ops, computePartial, longest, dead)
    requires |longest'| == |longest|
    requires computePartial ==>
      forall id: nat | id < |longest| ::
        longest'[id] == if id in SetOf(path) && !AtLeast(longest[id], |path|) then Some(path) else longest[id]
    requires !computePartial ==> longest' == longest
    ensures Recorded(model, ops, computePartial, longest', dead + {configs[|path|]})
  {
    PathMeaning(model, ops, path, configs);
    if computePartial {
      forall cfg, id: nat | cfg in dead + {configs[|path|]} && id in cfg.0 && id < |longest'|
        ensures AtLeast(longest'[id], |cfg.0|)
      {
        if cfg in dead {
          assert AtLeast(longest[id], |cfg.0|);
        }
      }
    }
  }
}
