/** The configurations of the backtracking search, and what stays true of them while it runs. */
module Search {
  import opened Linearizability

  /** The operations taken so far, in any order, and the state they lead to. */
  type Config<!S> = (set<nat>, S)

  /** Operations timed by their positions in one list: every call and every return has a time of its own. */
  ghost predicate Positions<I, O>(ops: seq<Operation<I, O>>) {
    && (forall c: nat | c < |ops| :: ops[c].call < ops[c].ret)
    && (forall c: nat, d: nat | c < d < |ops| :: ops[c].call != ops[d].call)
    && (forall c: nat, d: nat | c < |ops| && d < |ops| :: ops[c].call != ops[d].ret)
  }

  ghost predicate StepOk<S, I, O>(model: Model<S, I, O>, ops: seq<Operation<I, O>>, cfg: Config<S>, c: nat) {
    MayBeNext(ops, cfg.0, c) && StepOp(model, cfg.1, ops[c]).0
  }

  ghost function Succ<S, I, O>(model: Model<S, I, O>, ops: seq<Operation<I, O>>, cfg: Config<S>, c: nat): Config<S>
    requires c < |ops|
  {
    (cfg.0 + {c}, StepOp(model, cfg.1, ops[c]).1)
  }

  /** The configuration, or one with the same operations and an equal state. */
  ghost predicate Has<S, I, O>(model: Model<S, I, O>, configs: set<Config<S>>, cfg: Config<S>) {
    exists x <- configs :: x.0 == cfg.0 && model.equal(cfg.1, x.1)
  }

  /** Every operation that could be next in cfg and was called before bound leads into dead. */
  ghost predicate BranchesDead<S, I, O>(model: Model<S, I, O>, ops: seq<Operation<I, O>>,
                                        cfg: Config<S>, bound: int, dead: set<Config<S>>)
  {
    forall c: nat | StepOk(model, ops, cfg, c) && ops[c].call < bound :: Has(model, dead, Succ(model, ops, cfg, c))
  }

  /** The configuration is incomplete, and every operation that could be next leads into dead. */
  ghost predicate DeadEnd<S, I, O>(model: Model<S, I, O>, ops: seq<Operation<I, O>>, cfg: Config<S>,
                                   dead: set<Config<S>>)
  {
    && |cfg.0| < |ops|
    && forall c: nat | StepOk(model, ops, cfg, c) :: Has(model, dead, Succ(model, ops, cfg, c))
  }

  ghost predicate DeadClosed<S, I, O>(model: Model<S, I, O>, ops: seq<Operation<I, O>>, dead: set<Config<S>>) {
    forall cfg <- dead :: DeadEnd(model, ops, cfg, dead)
  }

  // ---- paths ----

  ghost predicate Linked<S, I, O>(model: Model<S, I, O>, ops: seq<Operation<I, O>>, path: seq<nat>,
                                  configs: seq<Config<S>>, k: nat)
    requires k < |path| && |configs| == |path| + 1
  {
    StepOk(model, ops, configs[k], path[k]) && configs[k + 1] == Succ(model, ops, configs[k], path[k])
  }

  /** configs[k] is the configuration after the first k operations of the path. */
  ghost predicate Path<S, I, O>(model: Model<S, I, O>, ops: seq<Operation<I, O>>, path: seq<nat>,
                                configs: seq<Config<S>>)
  {
    && |configs| == |path| + 1
    && configs[0] == ({}, model.init)
    && forall k: nat | k < |path| :: Linked(model, ops, path, configs, k)
  }

  ghost function OnPath<S>(configs: seq<Config<S>>): set<Config<S>> {
    set k | 1 <= k < |configs| :: configs[k]
  }

  /** What the search keeps: bound is the time of the list entry it looks at. */
  ghost predicate SearchInv<S, I, O>(model: Model<S, I, O>, ops: seq<Operation<I, O>>,
                                     path: seq<nat>, configs: seq<Config<S>>, bound: int,
                                     dead: set<Config<S>>, cached: set<Config<S>>)
  {
    && Path(model, ops, path, configs)
    && DeadClosed(model, ops, dead)
    && cached == dead + OnPath(configs)
    && LevelsDead(model, ops, path, configs, dead)
    && BranchesDead(model, ops, configs[|path|], bound, dead)
  }

  /** At every level of the path, the candidates before the one taken are exhausted. */
  ghost predicate LevelsDead<S, I, O>(model: Model<S, I, O>, ops: seq<Operation<I, O>>,
                                      path: seq<nat>, configs: seq<Config<S>>, dead: set<Config<S>>)
    requires |configs| == |path| + 1
  {
    forall k: nat | k < |path| :: LevelDead(model, ops, path, configs, k, dead)
  }

  ghost predicate LevelDead<S, I, O>(model: Model<S, I, O>, ops: seq<Operation<I, O>>,
                                     path: seq<nat>, configs: seq<Config<S>>, k: nat, dead: set<Config<S>>)
    requires k < |path| && |configs| == |path| + 1
  {
    path[k] < |ops| && BranchesDead(model, ops, configs[k], ops[path[k]].call, dead)
  }

  lemma {:induction false} PathPrefix<S, I, O>(model: Model<S, I, O>, ops: seq<Operation<I, O>>, path: seq<nat>,
                                               configs: seq<Config<S>>)
    requires Path(model, ops, path, configs) && path != []
    ensures var n := |path| - 1; Path(model, ops, path[..n], configs[..n + 1])
  {
    var n := |path| - 1;
    var shorter, fewer := path[..n], configs[..n + 1];
    forall k: nat | k < n ensures Linked(model, ops, shorter, fewer, k) {
      assert Linked(model, ops, path, configs, k);
    }
  }

  /** A path is a partial linearization, and its last configuration is what replaying it gives. */
  lemma {:induction false} PathMeaning<S, I, O>(model: Model<S, I, O>, ops: seq<Operation<I, O>>, path: seq<nat>,
                                                configs: seq<Config<S>>)
    requires Path(model, ops, path, configs)
    ensures Partial(model, ops, path)
    ensures configs[|path|] == (SetOf(path), Run(model, ops, path).value)
    ensures |configs[|path|].0| == |path| <= |ops|
  {
    hide *;
    if path == [] {
      EmptyMeaning(model, ops, configs);
    } else {
      var n := |path| - 1;
      LastLink(model, ops, path, configs);
      PathPrefix(model, ops, path, configs);
      PathMeaning(model, ops, path[..n], configs[..n + 1]);
      assert path == path[..n] + [path[n]];
      LinkMeaning(model, ops, path[..n], path[n], configs[n], configs[n + 1]);
    }
  }

  lemma {:induction false} EmptyMeaning<S, I, O>(model: Model<S, I, O>, ops: seq<Operation<I, O>>,
                                                 configs: seq<Config<S>>)
    requires Path(model, ops, [], configs)
    ensures |configs| == 1 && |configs[0].0| == 0
    ensures Partial(model, ops, []) && configs[0] == (SetOf([]), Run(model, ops, []).value)
  {
    assert SetOf([]) == {};
  }

  lemma LastLink<S, I, O>(model: Model<S, I, O>, ops: seq<Operation<I, O>>, path: seq<nat>, configs: seq<Config<S>>)
    requires Path(model, ops, path, configs) && path != []
    ensures |configs| == |path| + 1
    ensures var n := |path| - 1;
            && path[n] < |ops| && StepOk(model, ops, configs[n], path[n])
            && configs[n + 1] == Succ(model, ops, configs[n], path[n])
  {
    assert Linked(model, ops, path, configs, |path| - 1);
  }

  lemma {:induction false} LinkMeaning<S, I, O>(model: Model<S, I, O>, ops: seq<Operation<I, O>>, path: seq<nat>,
                                                c: nat, cfg: Config<S>, cfg': Config<S>)
    requires Partial(model, ops, path) && cfg == (SetOf(path), Run(model, ops, path).value)
    requires StepOk(model, ops, cfg, c) && c < |ops| && cfg' == Succ(model, ops, cfg, c)
    ensures Partial(model, ops, path + [c]) && cfg' == (SetOf(path + [c]), Run(model, ops, path + [c]).value)
    ensures |cfg'.0| == |path| + 1 <= |ops|
  {
    SetOfAppend(path, c);
    PartialAppend(model, ops, path, c);
    PartialDistinct(model, ops, path + [c]);
    FullOrder(path + [c], |ops|);
    DistinctSize(path + [c]);
  }

  lemma {:induction false} PartialAppend<S, I, O>(model: Model<S, I, O>, ops: seq<Operation<I, O>>, path: seq<nat>,
                                                  c: nat)
    requires Partial(model, ops, path)
    requires MayBeNext(ops, SetOf(path), c)
    requires StepOp(model, Run(model, ops, path).value, ops[c]).0
    ensures Partial(model, ops, path + [c])
    ensures Run(model, ops, path + [c]) == Some(StepOp(model, Run(model, ops, path).value, ops[c]).1)
  {
    var longer := path + [c];
    assert longer[..|path|] == path;
    forall i | 0 <= i < |longer| ensures MayBeNext(ops, SetOf(longer[..i]), longer[i]) {
      if i < |path| {
        assert longer[..i] == path[..i];
      }
    }
  }

  lemma {:induction false} PathSizes<S, I, O>(model: Model<S, I, O>, ops: seq<Operation<I, O>>, path: seq<nat>,
                                              configs: seq<Config<S>>, k: nat)
    requires Path(model, ops, path, configs) && k <= |path|
    ensures |configs[k].0| == k
  {
    if k > 0 {
      PathSizes(model, ops, path, configs, k - 1);
      assert Linked(model, ops, path, configs, k - 1);
    }
  }

  // ---- the steps of the search ----

  /** Path configurations are no larger than the path; so a successor of its end is not among them. */
  lemma SuccNotOnPath<S, I, O>(model: Model<S, I, O>, ops: seq<Operation<I, O>>,
                               path: seq<nat>, configs: seq<Config<S>>, c: nat)
    requires Path(model, ops, path, configs)
    requires StepOk(model, ops, configs[|path|], c)
    ensures !Has(model, OnPath(configs), Succ(model, ops, configs[|path|], c))
  {
    PathSizes(model, ops, path, configs, |path|);
    forall k | 1 <= k <= |path| ensures |configs[k].0| <= |path| {
      PathSizes(model, ops, path, configs, k);
    }
  }

  /** No pending operation is called between the entries at times bound and next. */
  ghost predicate NoneBetween<I, O>(ops: seq<Operation<I, O>>, done: set<nat>, bound: int, next: int) {
    forall c: nat | c < |ops| && c !in done && ops[c].call < next :: ops[c].call <= bound
  }

  /** Passing over a call that cannot be taken, or whose configuration is already cached. */
  lemma SkipStep<S, I, O>(model: Model<S, I, O>, ops: seq<Operation<I, O>>,
                          path: seq<nat>, configs: seq<Config<S>>, c: nat, next: int,
                          dead: set<Config<S>>, cached: set<Config<S>>)
    requires Positions(ops) && c < |ops|
    requires SearchInv(model, ops, path, configs, ops[c].call, dead, cached)
    requires NoneBetween(ops, configs[|path|].0, ops[c].call, next)
    requires StepOk(model, ops, configs[|path|], c) ==> Has(model, cached, Succ(model, ops, configs[|path|], c))
    ensures SearchInv(model, ops, path, configs, next, dead, cached)
  {
    if StepOk(model, ops, configs[|path|], c) {
      SuccNotOnPath(model, ops, path, configs, c);
    }
  }

  lemma OnPathPush<S>(configs: seq<Config<S>>, cfg: Config<S>)
    requires configs != []
    ensures OnPath(configs + [cfg]) == OnPath(configs) + {cfg}
  {
    var longer := configs + [cfg];
    assert longer[|configs|] == cfg;
    forall x | x in OnPath(configs) ensures x in OnPath(longer) {
      var k :| 1 <= k < |configs| && configs[k] == x;
      assert longer[k] == x;
    }
  }

  lemma PathPush<S, I, O>(model: Model<S, I, O>, ops: seq<Operation<I, O>>,
                          path: seq<nat>, configs: seq<Config<S>>, c: nat)
    requires Path(model, ops, path, configs)
    requires StepOk(model, ops, configs[|path|], c)
    ensures Path(model, ops, path + [c], configs + [Succ(model, ops, configs[|path|], c)])
  {
    var longer, more := path + [c], configs + [Succ(model, ops, configs[|path|], c)];
    forall k: nat | k < |longer| ensures Linked(model, ops, longer, more, k) {
      if k < |path| {
        assert Linked(model, ops, path, configs, k);
      }
    }
  }

  /** Taking a call: its configuration is new, joins the path, and the scan starts again from the front. */
  lemma PushStep<S, I, O>(model: Model<S, I, O>, ops: seq<Operation<I, O>>,
                          path: seq<nat>, configs: seq<Config<S>>, c: nat, first: int,
                          dead: set<Config<S>>, cached: set<Config<S>>)
    requires c < |ops| && SearchInv(model, ops, path, configs, ops[c].call, dead, cached)
    requires StepOk(model, ops, configs[|path|], c)
    requires forall d: nat | d < |ops| && d !in configs[|path|].0 + {c} :: first <= ops[d].call
    ensures var cfg := Succ(model, ops, configs[|path|], c);
            SearchInv(model, ops, path + [c], configs + [cfg], first, dead, cached + {cfg})
  {
    var cfg := Succ(model, ops, configs[|path|], c);
    var longer, more := path + [c], configs + [cfg];
    PathPush(model, ops, path, configs, c);
    OnPathPush(configs, cfg);
    forall k: nat | k < |longer| ensures LevelDead(model, ops, longer, more, k, dead) {
      if k < |path| {
        assert LevelDead(model, ops, path, configs, k, dead);
      }
    }
  }

  /** At the return of a pending operation no candidate is left: the whole configuration is a dead end. */
  lemma ExhaustedAtReturn<S, I, O>(model: Model<S, I, O>, ops: seq<Operation<I, O>>,
                                   path: seq<nat>, configs: seq<Config<S>>, d: nat,
                                   dead: set<Config<S>>, cached: set<Config<S>>)
    requires Positions(ops) && d < |ops|
    requires SearchInv(model, ops, path, configs, ops[d].ret, dead, cached)
    requires d !in configs[|path|].0
    ensures DeadEnd(model, ops, configs[|path|], dead)
  {
    PathMeaning(model, ops, path, configs);
    PartialDistinct(model, ops, path);
    FullOrder(path, |ops|);
    BelowFacts(|ops|);
  }

  lemma DeadClosedGrow<S, I, O>(model: Model<S, I, O>, ops: seq<Operation<I, O>>, dead: set<Config<S>>, cfg: Config<S>)
    requires DeadClosed(model, ops, dead) && DeadEnd(model, ops, cfg, dead)
    ensures DeadClosed(model, ops, dead + {cfg})
  {
    var dead' := dead + {cfg};
    forall x | x in dead' ensures DeadEnd(model, ops, x, dead') {
      assert DeadEnd(model, ops, x, dead);
    }
  }

  /** Backing out of an exhausted configuration: it becomes dead, and the scan resumes after its call. */
  lemma PopStep<S(!new), I(!new), O(!new)>(model: Model<S, I, O>, ops: seq<Operation<I, O>>,
                                           path: seq<nat>, configs: seq<Config<S>>, d: nat, next: int,
                                           dead: set<Config<S>>, cached: set<Config<S>>)
    requires EqualAgrees(model) && Positions(ops) && d < |ops| && path != [] && path[|path| - 1] < |ops|
    requires SearchInv(model, ops, path, configs, ops[d].ret, dead, cached)
    requires d !in configs[|path|].0
    requires NoneBetween(ops, configs[|path| - 1].0, ops[path[|path| - 1]].call, next)
    ensures var n := |path| - 1;
            SearchInv(model, ops, path[..n], configs[..n + 1], next, dead + {configs[|path|]}, cached)
  {
    hide StepOk, Succ, BranchesDead, DeadEnd, DeadClosed, MayBeNext, Positions;
    var n := |path| - 1;
    var cfg := configs[|path|];
    var dead' := dead + {cfg};
    ExhaustedAtReturn(model, ops, path, configs, d, dead, cached);
    DeadClosedGrow(model, ops, dead, cfg);
    PathPrefix(model, ops, path, configs);
    assert configs == configs[..n + 1] + [cfg];
    OnPathPush(configs[..n + 1], cfg);
    var shorter, fewer := path[..n], configs[..n + 1];
    forall k: nat | k < n ensures LevelDead(model, ops, shorter, fewer, k, dead') {
      assert LevelDead(model, ops, path, configs, k, dead);
      BranchesDeadGrow(model, ops, configs[k], ops[path[k]].call, dead, dead');
    }
    assert LevelDead(model, ops, path, configs, n, dead);
    assert Linked(model, ops, path, configs, n);
    assert cfg in dead';
    BranchesDeadAfter(model, ops, configs[n], path[n], next, dead, dead');
  }

  lemma BranchesDeadGrow<S, I, O>(model: Model<S, I, O>, ops: seq<Operation<I, O>>, cfg: Config<S>, bound: int,
                                  dead: set<Config<S>>, more: set<Config<S>>)
    requires BranchesDead(model, ops, cfg, bound, dead) && dead <= more
    ensures BranchesDead(model, ops, cfg, bound, more)
  {}

  /** Once the branch of c is dead too, so are all branches called before the entry after c. */
  lemma BranchesDeadAfter<S, I, O>(model: Model<S, I, O>, ops: seq<Operation<I, O>>, cfg: Config<S>, c: nat, next: int,
                                   dead: set<Config<S>>, more: set<Config<S>>)
    requires Positions(ops) && c < |ops| && NoneBetween(ops, cfg.0, ops[c].call, next)
    requires BranchesDead(model, ops, cfg, ops[c].call, dead) && dead <= more
        && Has(model, more, Succ(model, ops, cfg, c))
    ensures BranchesDead(model, ops, cfg, next, more)
  {}

  // ---- what an exhausted search means ----

  /** Every candidate of the starting configuration leads into the dead configurations. */
  ghost predicate Exhausted<S, I, O>(model: Model<S, I, O>, ops: seq<Operation<I, O>>, dead: set<Config<S>>) {
    && DeadClosed(model, ops, dead)
    && forall c: nat | StepOk(model, ops, ({}, model.init), c) ::
        Has(model, dead, Succ(model, ops, ({}, model.init), c))
  }

  /** The configuration a partial linearization ends in. */
  ghost function Cfg<S, I, O>(model: Model<S, I, O>, ops: seq<Operation<I, O>>, order: seq<nat>): Config<S>
    requires Partial(model, ops, order)
  {
    (SetOf(order), Run(model, ops, order).value)
  }

  lemma CfgOfPrefix<S, I, O>(model: Model<S, I, O>, ops: seq<Operation<I, O>>, order: seq<nat>)
    requires Partial(model, ops, order) && order != []
    ensures var n := |order| - 1;
            && Partial(model, ops, order[..n])
            && StepOk(model, ops, Cfg(model, ops, order[..n]), order[n])
            && Cfg(model, ops, order) == Succ(model, ops, Cfg(model, ops, order[..n]), order[n])
  {
    var n := |order| - 1;
    PartialPrefix(model, ops, order, n);
    assert order == order[..n] + [order[n]];
    SetOfAppend(order[..n], order[n]);
  }

  /** What an equal state can do, and where it leads. */
  lemma SuccOfEqual<S(!new), I(!new), O(!new)>(model: Model<S, I, O>, ops: seq<Operation<I, O>>, cfg: Config<S>,
                                               x: Config<S>,
                                               c: nat, dead: set<Config<S>>)
    requires EqualAgrees(model) && StepOk(model, ops, cfg, c)
    requires x.0 == cfg.0 && model.equal(cfg.1, x.1) && DeadEnd(model, ops, x, dead)
    ensures Has(model, dead, Succ(model, ops, cfg, c))
  {
    assert StepOk(model, ops, x, c);
    var y :| y in dead && y.0 == Succ(model, ops, x, c).0 && model.equal(Succ(model, ops, x, c).1, y.1);
    assert model.equal(Succ(model, ops, cfg, c).1, y.1);
  }

  /** In an exhausted search every non-empty partial linearization ends in a dead configuration, up to equal states. */
  lemma {:induction false} PartialsAreDead<S(!new), I(!new), O(!new)>(model: Model<S, I, O>, ops: seq<Operation<I, O>>,
                                                                      order: seq<nat>, dead: set<Config<S>>)
    requires EqualAgrees(model) && Exhausted(model, ops, dead)
    requires Partial(model, ops, order) && order != []
    ensures Has(model, dead, Cfg(model, ops, order))
  {
    var n := |order| - 1;
    CfgOfPrefix(model, ops, order);
    var before := Cfg(model, ops, order[..n]);
    if n == 0 {
      assert SetOf(order[..n]) == {};
      assert before == ({}, model.init);
    } else {
      PartialsAreDead(model, ops, order[..n], dead);
      var x :| x in dead && x.0 == before.0 && model.equal(before.1, x.1);
      assert DeadEnd(model, ops, x, dead);
      SuccOfEqual(model, ops, before, x, order[n], dead);
    }
  }

  /** Completeness despite pruning: an exhausted search of a non-empty history refutes every linearization. */
  lemma ExhaustedRefutes<S(!new), I(!new), O(!new)>(model: Model<S, I, O>, ops: seq<Operation<I, O>>,
                                                    dead: set<Config<S>>)
    requires EqualAgrees(model) && Positions(ops) && ops != []
    requires Exhausted(model, ops, dead)
    ensures !Linearizable(model, ops)
  {
    if Linearizable(model, ops) {
      var order: seq<nat> :| IsLinearization(model, ops, order);
      LinearizationIffFullPartial(model, ops, order);
      PartialsAreDead(model, ops, order, dead);
      DistinctSize(order);
    }
  }

  // ---- the longest partial linearization through each operation ----

  /** Each recorded order is a partial linearization through its operation. */
  ghost predicate LongestSound<S, I, O>(model: Model<S, I, O>, ops: seq<Operation<I, O>>,
                                        longest: seq<Option<seq<nat>>>)
  {
    && |longest| == |ops|
    && forall id: nat | id < |ops| && longest[id].Some? ::
         Partial(model, ops, longest[id].value) && id in SetOf(longest[id].value)
  }

  lemma RecordedPartial<S, I, O>(model: Model<S, I, O>, ops: seq<Operation<I, O>>, longest: seq<Option<seq<nat>>>,
                                 p: seq<nat>)
    requires LongestSound(model, ops, longest) && Some(p) in longest
    ensures Partial(model, ops, p)
  {
    var id: nat :| id < |longest| && longest[id] == Some(p);
  }

  /** At least size operations long. */
  predicate AtLeast(entry: Option<seq<nat>>, size: nat) {
    entry.Some? && |entry.value| >= size
  }

  /** Every operation of a dead configuration has an order recorded at least as long as it. */
  ghost predicate Covers<S>(longest: seq<Option<seq<nat>>>, dead: set<Config<S>>) {
    forall cfg <- dead, id: nat | id in cfg.0 && id < |longest| :: AtLeast(longest[id], |cfg.0|)
  }

  /** longest[id] is a longest partial linearization through id, and None exactly when there is none. */
  ghost predicate Maximal<S, I, O>(model: Model<S, I, O>, ops: seq<Operation<I, O>>, longest: seq<Option<seq<nat>>>) {
    && LongestSound(model, ops, longest)
    && forall order: seq<nat>, id: nat | Partial(model, ops, order) && id in SetOf(order) && id < |longest| ::
         AtLeast(longest[id], |order|)
  }

  /** Some list holds the operation and is at least this long. */
  ghost predicate LongEnough(lists: seq<seq<nat>>, id: nat, size: nat) {
    exists k | 0 <= k < |lists| :: id in lists[k] && |lists[k]| >= size
  }

  /** Through every operation that is on some partial linearization, a longest one is listed. */
  ghost predicate ListsLongest<S, I, O>(model: Model<S, I, O>, ops: seq<Operation<I, O>>, lists: seq<seq<nat>>) {
    forall order: seq<nat>, id: nat | Partial(model, ops, order) && id in SetOf(order) :: LongEnough(lists, id, |order|)
  }

  /** Listing what was recorded loses nothing. */
  lemma MaximalListed<S, I, O>(model: Model<S, I, O>, ops: seq<Operation<I, O>>, longest: seq<Option<seq<nat>>>,
                               lists: seq<seq<nat>>)
    requires Maximal(model, ops, longest) && forall p :: p in lists <==> Some(p) in longest
    ensures ListsLongest(model, ops, lists)
  {
    forall order: seq<nat>, id: nat | Partial(model, ops, order) && id in SetOf(order)
      ensures LongEnough(lists, id, |order|)
    {
      assert id < |ops|;
      assert AtLeast(longest[id], |order|);
      var p := longest[id].value;
      assert Some(p) in longest;
      var k :| 0 <= k < |lists| && lists[k] == p;
      assert id in SetOf(p);
    }
  }

  lemma ExhaustedMaximal<S(!new), I(!new), O(!new)>(model: Model<S, I, O>, ops: seq<Operation<I, O>>,
                                                    longest: seq<Option<seq<nat>>>,
                                                    dead: set<Config<S>>)
    requires EqualAgrees(model) && Exhausted(model, ops, dead) && Covers(longest, dead)
    requires LongestSound(model, ops, longest)
    ensures Maximal(model, ops, longest)
  {
    forall order: seq<nat>, id: nat | Partial(model, ops, order) && id in SetOf(order) && id < |longest|
      ensures AtLeast(longest[id], |order|)
    {
      PartialsAreDead(model, ops, order, dead);
      PartialDistinct(model, ops, order);
      DistinctSize(order);
    }
  }

  /** When the search finds a complete order, recording it for every operation is maximal. */
  lemma CompleteMaximal<S, I, O>(model: Model<S, I, O>, ops: seq<Operation<I, O>>, path: seq<nat>)
    requires Partial(model, ops, path) && |path| == |ops|
    ensures Maximal(model, ops, seq(|ops|, _ => Some(path)))
  {
    PartialDistinct(model, ops, path);
    FullOrder(path, |ops|);
    BelowFacts(|ops|);
    forall order: seq<nat> | Partial(model, ops, order) ensures |order| <= |ops| {
      PartialDistinct(model, ops, order);
      FullOrder(order, |ops|);
    }
  }

  // ---- termination ----

  /** Every configuration that some k steps or fewer can reach. */
  ghost function Reach<S, I, O>(model: Model<S, I, O>, ops: seq<Operation<I, O>>, k: nat): set<Config<S>> {
    if k == 0 then {({}, model.init)} else
      var before := Reach(model, ops, k - 1);
      before + set cfg: Config<S>, c: nat | cfg in before && c < |ops| :: Succ(model, ops, cfg, c)
  }

  lemma {:induction false} ReachGrows<S, I, O>(model: Model<S, I, O>, ops: seq<Operation<I, O>>, j: nat, k: nat)
    requires j <= k
    ensures Reach(model, ops, j) <= Reach(model, ops, k)
  {
    if j < k { ReachGrows(model, ops, j, k - 1); }
  }

  lemma {:induction false} PathReached<S, I, O>(model: Model<S, I, O>, ops: seq<Operation<I, O>>, path: seq<nat>,
                                                configs: seq<Config<S>>, k: nat)
    requires Path(model, ops, path, configs) && k <= |path|
    ensures configs[k] in Reach(model, ops, k)
  {
    if k > 0 {
      PathReached(model, ops, path, configs, k - 1);
      assert Linked(model, ops, path, configs, k - 1);
    }
  }

  /** All configurations the search can cache. */
  ghost function Universe<S, I, O>(model: Model<S, I, O>, ops: seq<Operation<I, O>>): set<Config<S>> {
    Reach(model, ops, |ops|)
  }

  lemma PathInUniverse<S, I, O>(model: Model<S, I, O>, ops: seq<Operation<I, O>>, path: seq<nat>,
                                configs: seq<Config<S>>)
    requires Path(model, ops, path, configs)
    ensures configs[|path|] in Universe(model, ops)
  {
    PathMeaning(model, ops, path, configs);
    PathReached(model, ops, path, configs, |path|);
    ReachGrows(model, ops, |path|, |ops|);
  }
}
