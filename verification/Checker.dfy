/** The search for a linearization of one list of entries. */
module Checker {
  import opened Linearizability
  import opened Words
  import Bitset
  import opened Search
  import opened Entries
  import opened LinkedEntries
  import opened RemainingList
  import opened ListSteps
  import opened MakeLinked
  import opened SearchStack
  import opened Cache
  import opened CheckerSteps

  /** Records the current stack for every operation on it that has nothing longer yet. */
  method UpdateLongest<S, I, O>(longest: seq<Option<seq<nat>>>, calls: seq<CallsEntry<S, I, O>>, ghost path: seq<nat>)
    returns (longest': seq<Option<seq<nat>>>)
    requires IdsBelow(path, |longest|)
    requires |calls| == |path| && forall k | 0 <= k < |path| :: calls[k].entry.id == path[k]
    ensures |longest'| == |longest|
    ensures forall id: nat | id < |longest| ::
              longest'[id] == if id in SetOf(path) && !AtLeast(longest[id], |path|) then Some(path) else longest[id]
  {
    longest' := longest;
    for k := 0 to |calls|
      invariant |longest'| == |longest|
      invariant forall id: nat | id < |longest| ::
                  longest'[id] ==
                    if id in SetOf(path[..k]) && !AtLeast(longest[id], |path|) then Some(path) else longest[id]
    {
      var id: nat := calls[k].entry.id;
      assert id == path[k];
      if longest'[id].None? || |calls| > |longest'[id].value| {
        var ids: seq<nat> := seq(|calls|, i requires 0 <= i < |calls| => calls[i].entry.id);
        assert ids == path;
        longest' := longest'[id := Some(ids)];
      }
      assert path[..k + 1] == path[..k] + [path[k]];
      SetOfAppend(path[..k], path[k]);
    }
    assert path[..|calls|] == path;
  }

  lemma NothingRecorded<S, I, O>(model: Model<S, I, O>, ops: seq<Operation<I, O>>, computePartial: bool)
    ensures Recorded(model, ops, computePartial, seq(|ops|, _ => None), {})
  {}

  lemma EmptySearch<S, I, O>(model: Model<S, I, O>, ops: seq<Operation<I, O>>, first: int)
    requires forall d: nat | d < |ops| :: first <= ops[d].call
    ensures SearchInv(model, ops, [], [({}, model.init)], first, {}, {})
  {
    var configs := [({}, model.init)];
    assert OnPath(configs) == {};
  }

  /** The invariants hold of the list as it was built. */
  lemma Start<S, I, O>(model: Model<S, I, O>, history: seq<Entry<I, O>>, computePartial: bool,
                       head: Node<I, O>, made: seq<Node<I, O>>, root: Node?<I, O>)
    requires WellFormed(history) && Built(made, history, 0) && root == At(made, 0)
    requires head.id == -1 && head.partner == null && Chain([head] + made)
    ensures var nodes, ops, configs := [head] + made, Ops(history), [({}, model.init)];
            && NodesFor(nodes, ops) && |made| == |history| == 2 * |ops|
            && SearchInv(model, ops, [], configs, FirstBound(nodes, ops, {}), {}, {})
            && StackOk<S, I, O>(nodes, ops, [], [], configs)
            && Links(nodes, ops, [], configs)
            && EntryAt(nodes, ops, {}, root, 1, FirstBound(nodes, ops, {}))
            && Recorded(model, ops, computePartial, seq(|ops|, _ => None), {})
  {
    hide NodesFor, Recorded, SearchInv, WellFormed, ListFor, Ops;
    var nodes, ops := [head] + made, Ops(history);
    assert Recorded(model, ops, computePartial, seq(|ops|, _ => None), {}) by {
      NothingRecorded(model, ops, computePartial);
    }
    BuiltNodesFor(head, made, history);
    RestKeepsAll(nodes, {});
    RestIsListFor(nodes, ops, {});
    FrontOfList(nodes, ops, {}, nodes);
    FirstEntry(nodes, ops, {}, root);
    EmptySearch(model, ops, FirstBound(nodes, ops, {}));
  }

  /** Marks a call as linearized and lifts it out of the list. */
  method Mark<S, I, O>(linearized: array<Word>, entry: Node<I, O>, ghost model: Model<S, I, O>,
                       ghost nodes: seq<Node<I, O>>, ghost ops: seq<Operation<I, O>>,
                       ghost path: seq<nat>, ghost configs: seq<Config<S>>, ghost cfg: Config<S>,
                       ghost cache: Table<S>, ghost cached: set<Config<S>>, ghost arrays: set<array<Word>>)
    requires NodesFor(nodes, ops) && Links(nodes, ops, path, configs)
    requires 0 <= entry.id < |ops| <= WORD_BITS * linearized.Length && entry == CallNode(nodes, ops, entry.id)
    requires |configs| == |path| + 1 && Path(model, ops, path + [entry.id], configs + [cfg])
    requires linearized !in arrays && CacheOk(cache, linearized.Length, cached, arrays)
    modifies linearized, nodes
    ensures Bitset.Elems(linearized[..]) == old(Bitset.Elems(linearized[..])) + {entry.id}
    ensures Links(nodes, ops, path + [entry.id], configs + [cfg])
    ensures CacheOk(cache, linearized.Length, cached, arrays)
  {
    hide *;
    Bitset.Set(linearized, entry.id);
    ghost var longer, more := path + [entry.id as nat], configs + [cfg];
    assert longer[..|longer| - 1] == path && more[..|longer|] == configs;
    LiftCall(entry, model, nodes, ops, longer, more);
  }

  /** Unmarks the last call of the path and puts it back on the list. */
  method Unmark<S, I, O>(linearized: array<Word>, entry: Node<I, O>, ghost model: Model<S, I, O>,
                         ghost nodes: seq<Node<I, O>>, ghost ops: seq<Operation<I, O>>,
                         ghost path: seq<nat>, ghost configs: seq<Config<S>>,
                         ghost cache: Table<S>, ghost cached: set<Config<S>>, ghost arrays: set<array<Word>>)
    requires NodesFor(nodes, ops) && Links(nodes, ops, path, configs)
    requires Path(model, ops, path, configs) && path != [] && |configs| == |path| + 1
    requires 0 <= entry.id < |ops| <= WORD_BITS * linearized.Length
    requires path[|path| - 1] == entry.id && entry == CallNode(nodes, ops, entry.id)
    requires linearized !in arrays && CacheOk(cache, linearized.Length, cached, arrays)
    modifies linearized, nodes
    ensures Bitset.Elems(linearized[..]) == old(Bitset.Elems(linearized[..])) - {entry.id}
    ensures Links(nodes, ops, path[..|path| - 1], configs[..|path|])
    ensures CacheOk(cache, linearized.Length, cached, arrays)
  {
    hide *;
    Bitset.Clear(linearized, entry.id);
    UnliftCall(entry, model, nodes, ops, path, configs);
  }

  /** A configuration without an equal one in a set is not in it. */
  lemma NewIsNew<S(!new), I(!new), O(!new)>(model: Model<S, I, O>, cached: set<Config<S>>, cfg: Config<S>)
    requires EqualAgrees(model) && !Has(model, cached, cfg)
    ensures cfg !in cached
  {}

  /** Takes the call under examination if its step is accepted and leads somewhere new; else moves past it. */
  method TryCall<S(!new), I(!new), O(!new)>(cache: Table<S>, calls: seq<CallsEntry<S, I, O>>, linearized: array<Word>,
                                            headEntry: Node<I, O>, entry: Node<I, O>, state: S, model: Model<S, I, O>,
                                            ghost nodes: seq<Node<I, O>>, ghost ops: seq<Operation<I, O>>,
                                            ghost path: seq<nat>, ghost configs: seq<Config<S>>, ghost j: nat,
                                            ghost bound: int, ghost dead: set<Config<S>>, ghost cached: set<Config<S>>,
                                            ghost arrays: set<array<Word>>)
    returns (cache': Table<S>, calls': seq<CallsEntry<S, I, O>>, entry': Node?<I, O>, state': S,
             ghost path': seq<nat>, ghost configs': seq<Config<S>>, ghost j': nat, ghost bound': int,
             ghost cached': set<Config<S>>, ghost arrays': set<array<Word>>)
    requires EqualAgrees(model) && NodesFor(nodes, ops) && SearchInv(model, ops, path, configs, bound, dead, cached)
    requires nodes != [] && headEntry == nodes[0]
    requires StackOk(nodes, ops, calls, path, configs) && Links(nodes, ops, path, configs)
    requires |configs| == |path| + 1 && |Rest(nodes, configs[|path|].0)| > 1 && state == configs[|path|].1
    requires EntryAt(nodes, ops, configs[|path|].0, entry, j, bound) && entry.partner != null
    requires |ops| <= WORD_BITS * linearized.Length && Bitset.Elems(linearized[..]) == configs[|path|].0
    requires linearized !in arrays && CacheOk(cache, linearized.Length, cached, arrays)
    requires cached <= Universe(model, ops)
    modifies linearized, nodes
    ensures |configs'| == |path'| + 1 && state' == configs'[|path'|].1
    ensures SearchInv(model, ops, path', configs', bound', dead, cached')
    ensures StackOk(nodes, ops, calls', path', configs') && Links(nodes, ops, path', configs')
    ensures EntryAt(nodes, ops, configs'[|path'|].0, entry', j', bound')
    ensures Bitset.Elems(linearized[..]) == configs'[|path'|].0
    ensures linearized !in arrays' && CacheOk(cache', linearized.Length, cached', arrays')
    ensures cached < cached' <= Universe(model, ops) ||
            (cached' == cached && path' == path && configs' == configs && j' == j + 1
             && j' < |Rest(nodes, configs[|path|].0)|)
  {
    hide *;
    cache', calls', state', path', configs', cached', arrays' := cache, calls, state, path, configs, cached, arrays;
    CallFacts(nodes, ops, configs[|path|].0, entry, j, bound);
    ghost var c: nat := entry.id;
    var matching := entry.partner;
    var (stepOk, newState) := model.step(state, entry.value.input, matching.value.output);
    StepOpIs(model, state, ops[c]);
    ghost var cfg := Succ(model, ops, configs[|path|], c);
    var found := true;
    if stepOk {
      TakeCall(model, nodes, ops, calls, path, configs, entry, state, bound, dead, cached);
      found, cache', arrays' := Enter(model, cache, linearized, entry.id, newState, cached, arrays);
    }
    if !found {
      NewIsNew(model, cached, cfg);
      cached' := cached + {cfg};
      calls' := calls + [CallsEntry(entry, state)];
      state' := newState;
      Mark(linearized, entry, model, nodes, ops, path, configs, cfg, cache', cached', arrays');
      path', configs' := path + [c], configs + [cfg];
      HeadOnList(nodes, ops, path', configs');
      FirstEntry(nodes, ops, cfg.0, headEntry.next);
      entry', j', bound' := headEntry.next, 1, FirstBound(nodes, ops, cfg.0);
    } else {
      MoveOn(model, nodes, ops, path, configs, entry, j, bound, dead, cached);
      entry', j' := entry.next, j + 1;
      bound' := Time(ops, entry');
    }
  }

  /** Backs out of an exhausted configuration, recording its stack first. */
  method BackUp<S(!new), I(!new), O(!new)>(longest: seq<Option<seq<nat>>>, calls: seq<CallsEntry<S, I, O>>,
                                           linearized: array<Word>,
                                           ghost entry: Node<I, O>, computePartial: bool, ghost model: Model<S, I, O>,
                                           ghost nodes: seq<Node<I, O>>, ghost ops: seq<Operation<I, O>>,
                                           ghost path: seq<nat>, ghost configs: seq<Config<S>>, ghost j: nat,
                                           ghost bound: int, ghost dead: set<Config<S>>, ghost cache: Table<S>,
                                           ghost cached: set<Config<S>>,
                                           ghost arrays: set<array<Word>>)
    returns (longest': seq<Option<seq<nat>>>, calls': seq<CallsEntry<S, I, O>>, entry': Node?<I, O>, state': S,
             ghost path': seq<nat>, ghost configs': seq<Config<S>>, ghost j': nat, ghost bound': int,
             ghost dead': set<Config<S>>)
    requires EqualAgrees(model) && NodesFor(nodes, ops) && SearchInv(model, ops, path, configs, bound, dead, cached)
    requires StackOk(nodes, ops, calls, path, configs) && Links(nodes, ops, path, configs)
    requires |configs| == |path| + 1 && |Rest(nodes, configs[|path|].0)| > 1 && path != []
    requires EntryAt(nodes, ops, configs[|path|].0, entry, j, bound) && entry.partner == null
    requires |ops| <= WORD_BITS * linearized.Length && Bitset.Elems(linearized[..]) == configs[|path|].0
    requires linearized !in arrays && CacheOk(cache, linearized.Length, cached, arrays)
    requires Recorded(model, ops, computePartial, longest, dead)
    modifies linearized, nodes
    ensures |path'| == |path| - 1 && |configs'| == |path'| + 1 && state' == configs'[|path'|].1
    ensures SearchInv(model, ops, path', configs', bound', dead', cached)
    ensures StackOk(nodes, ops, calls', path', configs') && Links(nodes, ops, path', configs')
    ensures EntryAt(nodes, ops, configs'[|path'|].0, entry', j', bound')
    ensures Bitset.Elems(linearized[..]) == configs'[|path'|].0
    ensures CacheOk(cache, linearized.Length, cached, arrays)
    ensures Recorded(model, ops, computePartial, longest', dead')
  {
    hide *;
    StackIds(nodes, ops, calls, path, configs);
    SearchPath(model, ops, path, configs, bound, dead, cached);
    RecordedSound(model, ops, computePartial, longest, dead);
    longest' := longest;
    if computePartial {
      longest' := UpdateLongest(longest, calls, path);
    }
    RecordedAfterPop(model, ops, path, configs, computePartial, longest, longest', dead);
    StackTop(model, nodes, ops, calls, path, configs);
    j', bound' := BackOut(model, nodes, ops, path, configs, entry, j, bound, dead, cached);
    ghost var n := |path| - 1;
    path', configs', dead' := path[..n], configs[..n + 1], dead + {configs[|path|]};
    assert configs'[|path'|] == configs[n];
    var callsTop := calls[|calls| - 1];
    entry' := callsTop.entry;
    state' := callsTop.state;
    calls' := calls[..|calls| - 1];
    Unmark(linearized, entry', model, nodes, ops, path, configs, cache, cached, arrays);
    NextOnList(nodes, ops, path', configs', j' - 1);
    entry' := entry'.next;
  }

  /** At the end the whole stack is recorded for every operation. */
  method RecordForAll<S, I, O>(longest: seq<Option<seq<nat>>>, calls: seq<CallsEntry<S, I, O>>, ghost path: seq<nat>)
    returns (longest': seq<Option<seq<nat>>>)
    requires |calls| == |path| && forall k | 0 <= k < |path| :: calls[k].entry.id == path[k]
    ensures longest' == seq(|longest|, _ => Some(path))
  {
    var ids: seq<nat> := seq(|calls|, i requires 0 <= i < |calls| => calls[i].entry.id);
    assert ids == path;
    longest' := longest;
    for i := 0 to |longest|
      invariant |longest'| == |longest|
      invariant forall k | 0 <= k < i :: longest'[k] == Some(path)
    {
      longest' := longest'[i := Some(ids)];
    }
  }

  /**
   * The backtracking search. kill(k) is what the k-th poll of the kill flag reads, one before each round; killed
   * says whether the search gave up because of it.
   */
  method CheckSingle<S(!new), I(!new), O(!new)>(model: Model<S, I, O>, history: seq<Entry<I, O>>, computePartial: bool,
                                                kill: nat -> bool)
    returns (ok: bool, longest: seq<Option<seq<nat>>>, killed: bool)
    requires EqualAgrees(model) && WellFormed(history)
    ensures killed ==> !ok && exists k :: kill(k)
    ensures history != [] && kill(0) ==> killed
    ensures !killed ==> (ok <==> Linearizable(model, Ops(history)))
    ensures LongestSound(model, Ops(history), longest)
    ensures !killed && (ok || computePartial) ==> Maximal(model, Ops(history), longest)
    ensures ok ==> forall id | 0 <= id < |longest| ::
              longest[id].Some? && IsLinearization(model, Ops(history), longest[id].value)
  {
    hide *;
    ghost var ops := Ops(history);
    var root, made := MakeLinkedEntries(history);
    var length := Length(root, made);
    var n := length / 2;
    var linearized := Bitset.NewBitset(n);
    var cache: Table<S> := map[];
    var calls: seq<CallsEntry<S, I, O>> := [];
    longest := seq(n, _ => None);
    var state := model.init;
    var headEntry := new Node(Nil, null, -1);
    headEntry := InsertBefore(headEntry, root, made, 0);
    var entry := root;
    killed := false;
    var polls := 0;

    ghost var nodes := [headEntry] + made;
    assert made[..0] + [headEntry] + made[0..] == nodes;
    Start(model, history, computePartial, headEntry, made, root);
    ghost var path: seq<nat>, configs: seq<Config<S>> := [], [({}, model.init)];
    ghost var dead: set<Config<S>>, cached: set<Config<S>>, arrays: set<array<Word>> := {}, {}, {};
    ghost var j, bound := 1, FirstBound(nodes, ops, {});
    CacheEmpty<S>(linearized.Length);

    while headEntry.next != null
      invariant NodesFor(nodes, ops) && nodes != [] && headEntry == nodes[0] && fresh(nodes)
      invariant |configs| == |path| + 1 && state == configs[|path|].1
      invariant SearchInv(model, ops, path, configs, bound, dead, cached)
      invariant StackOk(nodes, ops, calls, path, configs)
      invariant Links(nodes, ops, path, configs)
      invariant EntryAt(nodes, ops, configs[|path|].0, entry, j, bound)
      invariant fresh(linearized) && linearized !in arrays && |ops| <= WORD_BITS * linearized.Length
      invariant Bitset.Elems(linearized[..]) == configs[|path|].0
      invariant CacheOk(cache, linearized.Length, cached, arrays)
      invariant Recorded(model, ops, computePartial, longest, dead)
      invariant cached <= Universe(model, ops) && if polls == 0 then path == [] else !kill(0)
      decreases Universe(model, ops) - cached, |path|, |Rest(nodes, configs[|path|].0)| - j
    {
      if kill(polls) {
        RecordedSound(model, ops, computePartial, longest, dead);
        return false, longest, true;
      }
      polls := polls + 1;
      HeadOnList(nodes, ops, path, configs);
      EntryFacts(nodes, ops, configs[|path|].0, entry, j, bound);
      if entry.partner != null {
        cache, calls, entry, state, path, configs, j, bound, cached, arrays :=
          TryCall(cache, calls, linearized, headEntry, entry, state, model, nodes, ops, path, configs, j, bound,
                  dead, cached, arrays);
      } else {
        StackIds(nodes, ops, calls, path, configs);
        if |calls| == 0 {
          GiveUp(model, nodes, ops, path, configs, entry, j, bound, dead, cached, computePartial, longest);
          return false, longest, false;
        }
        longest, calls, entry, state, path, configs, j, bound, dead :=
          BackUp(longest, calls, linearized, entry, computePartial, model, nodes, ops, path, configs, j, bound,
                 dead, cache, cached, arrays);
      }
    }
    HeadOnList(nodes, ops, path, configs);
    SearchPath(model, ops, path, configs, bound, dead, cached);
    Complete(model, nodes, ops, path, configs);
    StackIds(nodes, ops, calls, path, configs);
    RecordedSound(model, ops, computePartial, longest, dead);
    longest := RecordForAll(longest, calls, path);
    LinearizableBy(model, ops, path);
    return true, longest, false;
  }

  lemma LinearizableBy<S, I, O>(model: Model<S, I, O>, ops: seq<Operation<I, O>>, order: seq<nat>)
    requires IsLinearization(model, ops, order)
    ensures Linearizable(model, ops)
  {}
}
