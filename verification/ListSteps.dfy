/** How one step along the search's list looks to the search. */
module ListSteps {
  import opened Linearizability
  import opened Search
  import opened LinkedEntries
  import opened RemainingList

  /** Everything on the list before position j is a call. */
  ghost predicate CallsBefore<I, O>(s: seq<Node<I, O>>, j: nat) {
    forall i | 1 <= i < j && i < |s| :: s[i].partner != null
  }

  /** The position of a listed node is fixed by its time. */
  lemma PositionByTime<I, O>(ops: seq<Operation<I, O>>, s: seq<Node<I, O>>, i: nat, j: nat)
    requires Sorted(ops, s) && i < |s| && j < |s|
    ensures Time(ops, s[i]) < Time(ops, s[j]) <==> i < j
    ensures s[i] == s[j] <==> i == j
  {}

  /** A call is never the last node: its return is still to come; and no call hides between neighbours. */
  lemma AfterCall<I, O>(nodes: seq<Node<I, O>>, ops: seq<Operation<I, O>>, done: set<nat>, s: seq<Node<I, O>>, j: nat)
    requires ListFor(nodes, ops, done, s) && 1 <= j < |s| && s[j].partner != null
    ensures j + 1 < |s|
    ensures NoneBetween(ops, done, Time(ops, s[j]), Time(ops, s[j + 1]))
  {
    assert OnList(nodes, ops, done, s[j]);
    assert Listed(nodes, ops, s, s[j].id);
    var q := PosOf(s, s[j].partner);
    PositionByTime(ops, s, j, q);
    forall c: nat | c < |ops| && c !in done && ops[c].call < Time(ops, s[j + 1])
      ensures ops[c].call <= Time(ops, s[j])
    {
      assert Listed(nodes, ops, s, c);
      var p := PosOf(s, CallNode(nodes, ops, c));
      PositionByTime(ops, s, p, j + 1);
      PositionByTime(ops, s, j, p);
    }
  }

  /** A call with only calls before it may take effect next. */
  lemma CallMayBeNext<I, O>(nodes: seq<Node<I, O>>, ops: seq<Operation<I, O>>, done: set<nat>, s: seq<Node<I, O>>,
                            j: nat)
    requires ListFor(nodes, ops, done, s) && 1 <= j < |s| && s[j].partner != null
    requires CallsBefore(s, j)
    ensures s[j].id >= 0 && MayBeNext(ops, done, s[j].id)
    ensures Time(ops, s[j]) == ops[s[j].id].call
  {
    assert OnList(nodes, ops, done, s[j]);
    forall d: nat | d < |ops| && d !in done ensures !(ops[d].ret < ops[s[j].id].call) {
      assert Listed(nodes, ops, s, d);
      var q := PosOf(s, CallNode(nodes, ops, d).partner);
      PositionByTime(ops, s, q, j);
    }
  }

  /** And the other way round: before a call that may be next there are only calls. */
  lemma OnlyCallsBefore<I, O>(nodes: seq<Node<I, O>>, ops: seq<Operation<I, O>>, done: set<nat>, s: seq<Node<I, O>>,
                              c: nat, p: nat)
    requires ListFor(nodes, ops, done, s) && MayBeNext(ops, done, c)
    requires p < |s| && s[p] == CallNode(nodes, ops, c)
    ensures CallsBefore(s, p + 1)
  {
    forall i | 1 <= i < p + 1 && i < |s| ensures s[i].partner != null {
      assert OnList(nodes, ops, done, s[i]);
      PositionByTime(ops, s, i, p);
    }
  }

  /** The front of the list is the earliest pending entry; an empty list means everything is taken. */
  lemma FrontOfList<I, O>(nodes: seq<Node<I, O>>, ops: seq<Operation<I, O>>, done: set<nat>, s: seq<Node<I, O>>)
    requires ListFor(nodes, ops, done, s)
    ensures |s| > 1 ==> forall d: nat | d < |ops| && d !in done :: Time(ops, s[1]) <= ops[d].call
    ensures |s| == 1 ==> forall d: nat | d < |ops| :: d in done
  {
    forall d: nat | d < |ops| && d !in done ensures |s| > 1 && Time(ops, s[1]) <= ops[d].call {
      assert Listed(nodes, ops, s, d);
      var p := PosOf(s, CallNode(nodes, ops, d));
      assert p != 0;
      PositionByTime(ops, s, p, 1);
    }
  }

  /** A return node on the list belongs to a pending operation. */
  lemma ReturnIsPending<I, O>(nodes: seq<Node<I, O>>, ops: seq<Operation<I, O>>, done: set<nat>, s: seq<Node<I, O>>,
                              j: nat)
    requires ListFor(nodes, ops, done, s) && 1 <= j < |s| && s[j].partner == null
    ensures 0 <= s[j].id < |ops| && s[j].id !in done && Time(ops, s[j]) == ops[s[j].id].ret
  {
    assert OnList(nodes, ops, done, s[j]);
  }

  /** The two positions of a pending operation, and the list without them. */
  lemma {:induction false} PairOnList<I, O>(nodes: seq<Node<I, O>>, ops: seq<Operation<I, O>>, done: set<nat>, c: nat)
    requires NodesFor(nodes, ops) && c < |ops| && c !in done
    ensures var (s, x) := (Rest(nodes, done), CallNode(nodes, ops, c));
            && x in s && x.partner in s
            && var (p, q) := (PosOf(s, x), PosOf(s, x.partner));
               0 < p < q && Rest(nodes, done + {c}) == Without(s, p, q)
  {
    var s, x := Rest(nodes, done), CallNode(nodes, ops, c);
    RestIsListFor(nodes, ops, done);
    assert Listed(nodes, ops, s, c);
    var p, q := PosOf(s, x), PosOf(s, x.partner);
    PositionByTime(ops, s, p, q);
    forall i | 0 <= i < |s| ensures s[i].id == c <==> i == p || i == q {
      if i > 0 {
        assert OnList(nodes, ops, done, s[i]);
        PositionByTime(ops, s, i, p);
        PositionByTime(ops, s, i, q);
      }
    }
    RestTwice(nodes, done, {c});
    RestDropsPair(s, c, p, q);
  }
}
