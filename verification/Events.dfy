/** Histories given as events: ids renumbered, positions as times, and the verdict. */
module Events {
  import opened Linearizability
  import opened Search
  import opened Entries
  import opened Parallel

  datatype Event<+I, +O> =
    | CallEvent(clientId: int, input: I, id: int)
    | ReturnEvent(clientId: int, output: O, id: int)
  {
    function WithId(newId: int): Event<I, O> {
      this.(id := newId)
    }
  }

  predicate Occurs<I, O>(events: seq<Event<I, O>>, id: int) {
    exists i | 0 <= i < |events| :: events[i].id == id
  }

  // ---- renumbering ----

  /** The positions at which an id occurs for the first time, in order. */
  function Firsts<I, O>(events: seq<Event<I, O>>): (f: seq<nat>)
    ensures IdsBelow(f, |events|)
  {
    if events == [] then [] else
      var last := |events| - 1;
      Firsts(events[..last]) + if Occurs(events[..last], events[last].id) then [] else [last]
  }

  /** The new id of an event says how many other ids had occurred when its own first did. */
  ghost predicate RenumberedAt<I, O>(events: seq<Event<I, O>>, e: seq<Event<I, O>>, i: nat)
    requires i < |events| == |e|
  {
    var f := Firsts(events);
    && 0 <= e[i].id < |f| && e[i] == events[i].WithId(e[i].id)
    && events[f[e[i].id]].id == events[i].id
  }

  ghost predicate Renumbered<I, O>(events: seq<Event<I, O>>, e: seq<Event<I, O>>) {
    |e| == |events| && forall i | 0 <= i < |e| :: RenumberedAt(events, e, i)
  }

  /** m holds the rank of every id that has occurred. */
  ghost predicate Ranks<I, O>(events: seq<Event<I, O>>, m: map<int, int>) {
    var f := Firsts(events);
    && (forall x :: x in m <==> Occurs(events, x))
    && (forall x | x in m :: 0 <= m[x] < |f| && events[f[m[x]]].id == x)
  }

  lemma {:induction false} RanksAppend<I, O>(events: seq<Event<I, O>>, m: map<int, int>, v: Event<I, O>)
    requires Ranks(events, m)
    ensures Ranks(events + [v], if v.id in m then m else m[v.id := |Firsts(events)|])
    ensures Firsts(events) <= Firsts(events + [v])
    ensures |Firsts(events + [v])| == |Firsts(events)| + if v.id in m then 0 else 1
  {
    var after := events + [v];
    assert after[..|events|] == events && after[|events|] == v;
    forall x ensures Occurs(after, x) <==> Occurs(events, x) || x == v.id {
      if Occurs(events, x) {
        var i :| 0 <= i < |events| && events[i].id == x;
        assert after[i].id == x;
      }
    }
  }

  method Renumber<I, O>(events: seq<Event<I, O>>) returns (e: seq<Event<I, O>>)
    ensures Renumbered(events, e)
  {
    hide Occurs, Firsts, Ranks;
    e := [];
    var m: map<int, int> := map[];
    var id := 0;
    NoRanks(events[..0]);
    for k := 0 to |events|
      invariant |e| == k && Ranks(events[..k], m) && id == |Firsts(events[..k])|
      invariant forall i | 0 <= i < k :: events[i].id in m && e[i] == events[i].WithId(m[events[i].id])
    {
      var v := events[k];
      RanksAppend(events[..k], m, v);
      assert events[..k + 1] == events[..k] + [v];
      if v.id in m {
        e := e + [v.WithId(m[v.id])];
      } else {
        e := e + [v.WithId(id)];
        m := m[v.id := id];
        id := id + 1;
      }
    }
    assert events[..|events|] == events;
    forall i | 0 <= i < |e| ensures RenumberedAt(events, e, i) {
      RankOf(events, m, events[i].id);
    }
  }

  lemma {:induction false} NoRanks<I, O>(events: seq<Event<I, O>>)
    requires events == []
    ensures Ranks(events, map[]) && Firsts(events) == []
  {}

  lemma {:induction false} RankOf<I, O>(events: seq<Event<I, O>>, m: map<int, int>, x: int)
    requires Ranks(events, m) && x in m
    ensures 0 <= m[x] < |Firsts(events)| && events[Firsts(events)[m[x]]].id == x
  {}

  /** No earlier event has the id of this one. */
  ghost predicate IsFirst<I, O>(events: seq<Event<I, O>>, c: nat)
    requires c < |events|
  {
    forall i | 0 <= i < c :: events[i].id != events[c].id
  }

  lemma {:induction false} FirstsFacts<I, O>(events: seq<Event<I, O>>)
    ensures forall k | 0 <= k < |Firsts(events)| :: IsFirst(events, Firsts(events)[k])
    ensures forall j, k | 0 <= j < k < |Firsts(events)| :: Firsts(events)[j] < Firsts(events)[k]
  {
    if events != [] {
      var last := |events| - 1;
      FirstsFacts(events[..last]);
      var before := Firsts(events[..last]);
      forall k | 0 <= k < |before| ensures IsFirst(events, before[k]) {
        assert IsFirst(events[..last], before[k]);
        forall i | 0 <= i < before[k] ensures events[i].id != events[before[k]].id {
          assert events[..last][i].id != events[..last][before[k]].id;
        }
      }
      if !Occurs(events[..last], events[last].id) {
        assert Firsts(events) == before + [last];
        forall i | 0 <= i < last ensures events[i].id != events[last].id {
          assert events[..last][i] == events[i];
        }
      }
    }
  }

  /** First positions are of different ids. */
  lemma {:induction false} FirstsDiffer<I, O>(events: seq<Event<I, O>>, j: nat, k: nat)
    requires j < |Firsts(events)| && k < |Firsts(events)|
    ensures events[Firsts(events)[j]].id == events[Firsts(events)[k]].id <==> j == k
  {
    FirstsFacts(events);
    var f := Firsts(events);
    assert IsFirst(events, f[j]) && IsFirst(events, f[k]);
  }

  /** New ids are equal exactly where the old ones were, and each rank is taken, first at its first position. */
  lemma {:induction false} RenumberedIds<I, O>(events: seq<Event<I, O>>, e: seq<Event<I, O>>)
    requires Renumbered(events, e)
    ensures forall i, j | 0 <= i < |e| && 0 <= j < |e| :: e[i].id == e[j].id <==> events[i].id == events[j].id
    ensures forall k | 0 <= k < |Firsts(events)| :: e[Firsts(events)[k]].id == k
  {
    var f := Firsts(events);
    hide Firsts;
    forall i, j | 0 <= i < |e| && 0 <= j < |e| ensures e[i].id == e[j].id <==> events[i].id == events[j].id {
      assert RenumberedAt(events, e, i) && RenumberedAt(events, e, j);
      FirstsDiffer(events, e[i].id, e[j].id);
    }
    forall k | 0 <= k < |f| ensures e[f[k]].id == k {
      assert RenumberedAt(events, e, f[k]);
      FirstsDiffer(events, e[f[k]].id, k);
    }
  }

  // ---- conversion ----

  /** Entry i of the converted events, with its position as its time. */
  function Converted<I, O>(v: Event<I, O>, i: nat): Entry<I, O>
    requires v.id >= 0
  {
    match v
    case CallEvent(clientId, input, id) => CallEntry(input, id, i, clientId)
    case ReturnEvent(clientId, output, id) => ReturnEntry(output, id, i, clientId)
  }

  ghost predicate ConvertedFrom<I, O>(events: seq<Event<I, O>>, entries: seq<Entry<I, O>>) {
    && |entries| == |events|
    && forall i | 0 <= i < |events| :: events[i].id >= 0 && entries[i] == Converted(events[i], i)
  }

  method ConvertEntries<I, O>(events: seq<Event<I, O>>) returns (entries: seq<Entry<I, O>>)
    requires forall i | 0 <= i < |events| :: events[i].id >= 0
    ensures ConvertedFrom(events, entries)
  {
    entries := [];
    for i := 0 to |events|
      invariant |entries| == i
      invariant forall k | 0 <= k < i :: entries[k] == Converted(events[k], k)
    {
      entries := entries + [Converted(events[i], i)];
    }
  }

  // ---- what a history of events means ----

  /** Every id occurs as one call and, later, one return. */
  ghost predicate Complete<I, O>(events: seq<Event<I, O>>) {
    && (forall i | 0 <= i < |events| :: HasMate(events, i))
    && (forall i, j | 0 <= i < j < |events| && events[i].id == events[j].id ::
          events[i].CallEvent? && events[j].ReturnEvent?)
  }

  ghost predicate HasMate<I, O>(events: seq<Event<I, O>>, i: nat)
    requires i < |events|
  {
    exists j | 0 <= j < |events| && j != i :: events[j].id == events[i].id
  }

  /** The operation called at c returns at r. */
  predicate Mates<I, O>(events: seq<Event<I, O>>, c: nat, r: nat) {
    && c < r < |events| && events[c].id == events[r].id
    && events[c].CallEvent? && events[r].ReturnEvent?
  }

  ghost predicate Returns<I, O>(events: seq<Event<I, O>>, c: nat) {
    exists r: nat :: Mates(events, c, r)
  }

  /** The operation whose id occurs first at position c, from there to its return. */
  ghost function OperationAt<I, O>(events: seq<Event<I, O>>, c: nat): Operation<I, O>
    requires Returns(events, c)
  {
    var r: nat :| Mates(events, c, r);
    Operation(events[c].clientId, events[c].input, c, events[r].output, r)
  }

  lemma {:induction false} FirstsAreCalls<I, O>(events: seq<Event<I, O>>)
    requires Complete(events)
    ensures forall k | 0 <= k < |Firsts(events)| :: Returns(events, Firsts(events)[k])
  {
    FirstsFacts(events);
    forall k | 0 <= k < |Firsts(events)| ensures Returns(events, Firsts(events)[k]) {
      var c := Firsts(events)[k];
      assert IsFirst(events, c);
      assert HasMate(events, c);
      var r: nat :| r < |events| && r != c && events[r].id == events[c].id;
      assert Mates(events, c, r);
    }
  }

  /** The operations of the history in the order of their calls, timed by position. */
  ghost function EventOps<I, O>(events: seq<Event<I, O>>): seq<Operation<I, O>>
    requires Complete(events)
  {
    var f := Firsts(events);
    assert forall k: nat | k < |f| :: Returns(events, f[k]) by { FirstsAreCalls(events); }
    seq(|f|, (k: nat) requires k < |f| && Returns(events, f[k]) => OperationAt(events, f[k]))
  }

  ghost predicate EventsLinearizable<S, I, O>(model: Model<S, I, O>, events: seq<Event<I, O>>)
    requires Complete(events)
  {
    Linearizable(model, EventOps(events))
  }

  // ---- the entries are those operations ----

  lemma {:induction false} ImageSize(s: set<nat>, f: nat -> nat)
    requires forall x, y | x in s && y in s && x != y :: f(x) != f(y)
    ensures |set x | x in s :: f(x)| == |s|
  {
    if s == {} {
      assert (set x | x in s :: f(x)) == {};
    } else {
      var x :| x in s;
      ImageSize(s - {x}, f);
      assert (set y | y in s :: f(y)) == (set y | y in s - {x} :: f(y)) + {f(x)};
    }
  }

  ghost function CallPositions<I, O>(e: seq<Event<I, O>>, calls: bool): set<nat> {
    set i: nat | i < |e| && e[i].CallEvent? == calls
  }

  function IdOf<I, O>(e: seq<Event<I, O>>, i: nat): nat {
    if i < |e| && e[i].id >= 0 then e[i].id else 0
  }

  /** With one call and one return each, as many entries are calls, and as many are returns, as there are ids. */
  lemma HalfSize<I, O>(e: seq<Event<I, O>>, count: nat, calls: bool)
    requires Complete(e)
    requires forall i | 0 <= i < |e| :: 0 <= e[i].id < count
    requires forall k | 0 <= k < count :: Occurs(e, k)
    ensures |CallPositions(e, calls)| == count
  {
    var half := CallPositions(e, calls);
    var idOf := (i: nat) => IdOf(e, i);
    ImageSize(half, idOf);
    BelowFacts(count);
    var image := set x | x in half :: idOf(x);
    forall k: nat ensures k in image <==> k < count {
      if k < count {
        assert Occurs(e, k);
        var i: nat :| i < |e| && e[i].id == k;
        assert HasMate(e, i);
        var j: nat :| j < |e| && j != i && e[j].id == e[i].id;
        assert i in half || j in half;
        assert idOf(i) == k && idOf(j) == k;
      }
    }
    assert image == Below(count);
  }

  lemma SameIdsComplete<I, O>(events: seq<Event<I, O>>, e: seq<Event<I, O>>)
    requires Complete(events) && |e| == |events|
    requires forall i, j | 0 <= i < |e| && 0 <= j < |e| :: e[i].id == e[j].id <==> events[i].id == events[j].id
    requires forall i | 0 <= i < |e| :: e[i].CallEvent? == events[i].CallEvent?
    ensures Complete(e)
  {
    forall i | 0 <= i < |e| ensures HasMate(e, i) {
      assert HasMate(events, i);
      var j :| 0 <= j < |events| && j != i && events[j].id == events[i].id;
      assert e[j].id == e[i].id;
    }
  }

  lemma {:induction false} RenumberedComplete<I, O>(events: seq<Event<I, O>>, e: seq<Event<I, O>>)
    requires Complete(events) && Renumbered(events, e)
    ensures Complete(e) && |e| == 2 * |Firsts(events)|
  {
    var f := Firsts(events);
    var count := |f|;
    RenumberedIds(events, e);
    hide Firsts;
    forall i | 0 <= i < |e| ensures e[i].CallEvent? == events[i].CallEvent? && 0 <= e[i].id < count {
      assert RenumberedAt(events, e, i);
    }
    SameIdsComplete(events, e);
    forall k | 0 <= k < count ensures Occurs(e, k) {
      assert e[f[k]].id == k;
    }
    BelowFacts(|e|);
    assert CallPositions(e, true) + CallPositions(e, false) == Below(|e|);
    HalfSize(e, count, true);
    HalfSize(e, count, false);
  }

  /** Where the entries of each operation stand. */
  lemma {:induction false} ConvertedPairs<I, O>(events: seq<Event<I, O>>, e: seq<Event<I, O>>,
                                                entries: seq<Entry<I, O>>, k: nat, r: nat)
    requires Complete(events) && Renumbered(events, e) && ConvertedFrom(e, entries)
    requires k < |Firsts(events)| && Mates(events, Firsts(events)[k], r)
    ensures var c := Firsts(events)[k];
            && Pair(entries, k, c, r) && entries[c] == CallEntry(events[c].input, k, c, events[c].clientId)
            && entries[r] == ReturnEntry(events[r].output, k, r, events[r].clientId)
  {
    RenumberedIds(events, e);
    assert RenumberedAt(events, e, Firsts(events)[k]) && RenumberedAt(events, e, r);
  }

  /** A complete event history, renumbered and converted, is a well-formed list of entries. */
  lemma {:induction false} ConvertedWellFormed<I, O>(events: seq<Event<I, O>>, e: seq<Event<I, O>>,
                                                     entries: seq<Entry<I, O>>)
    requires Complete(events) && Renumbered(events, e) && ConvertedFrom(e, entries)
    ensures WellFormed(entries) && |entries| == 2 * |Firsts(events)|
  {
    var f := Firsts(events);
    RenumberedComplete(events, e);
    FirstsAreCalls(events);
    forall k: nat | k < |f| ensures HasPair(entries, k) {
      var r: nat :| Mates(events, f[k], r);
      ConvertedPairs(events, e, entries, k, r);
    }
    forall i: nat | i < |e| ensures 0 <= e[i].id < |f| && entries[i] == Converted(e[i], i) {
      assert RenumberedAt(events, e, i);
    }
  }

  /** And the operations of those entries are the operations of the events. */
  lemma ConvertedOps<I, O>(events: seq<Event<I, O>>, e: seq<Event<I, O>>, entries: seq<Entry<I, O>>)
    requires Complete(events) && Renumbered(events, e) && ConvertedFrom(e, entries)
    ensures WellFormed(entries) && Ops(entries) == EventOps(events)
  {
    hide Renumbered, Firsts, ConvertedFrom, Complete;
    var f := Firsts(events);
    ConvertedWellFormed(events, e, entries);
    FirstsAreCalls(events);
    forall k: nat | k < |f| ensures Ops(entries)[k] == EventOps(events)[k] {
      OpOfPair(entries, k);
      var r: nat :| Mates(events, f[k], r) && OperationAt(events, f[k]) ==
        Operation(events[f[k]].clientId, events[f[k]].input, f[k], events[r].output, r);
      ConvertedPairs(events, e, entries, k, r);
    }
  }

  // ---- the verdict ----

  /** Checks every partition; arrivals, timeoutAfter and kills describe the interleaving, as for CheckParallel. */
  method CheckEvents<S(!new), I(!new), O(!new)>(model: Model<S, I, O>, partitions: seq<seq<Event<I, O>>>, verbose: bool,
                                                arrivals: seq<nat>, timeoutAfter: Option<nat>,
                                                kills: (nat, nat) -> bool)
    returns (result: CheckResult, partialLinearizations: seq<seq<seq<nat>>>)
    requires EqualAgrees(model) && forall i | 0 <= i < |partitions| :: Complete(partitions[i])
    requires Arrivals(arrivals, |partitions|)
    requires partitions != [] || timeoutAfter == Some(0)
    ensures result == Ok ==> forall i | 0 <= i < |partitions| :: EventsLinearizable(model, partitions[i])
    ensures result == Illegal <==>
              exists k | 0 <= k < Received(timeoutAfter, |partitions|) ::
                !EventsLinearizable(model, partitions[arrivals[k]])
    ensures result == Unknown <==> result != Illegal && TimerFirst(timeoutAfter, |partitions|)
    ensures |partialLinearizations| == if verbose then |partitions| else 0
    ensures verbose ==> forall i, p | 0 <= i < |partitions| && p in partialLinearizations[i] ::
              Partial(model, EventOps(partitions[i]), p)
    ensures verbose ==> forall i: nat | i < |partitions| ::
              timeoutAfter.None? || Finished(arrivals, Received(timeoutAfter, |partitions|), kills, i) ==>
                ListsLongest(model, EventOps(partitions[i]), partialLinearizations[i])
  {
    hide WellFormed, Ops, EventOps, Linearizable, ListsLongest, LongestSound, Maximal, Partial, Complete, Renumbered,
         Firsts, EqualAgrees;
    var lists: seq<seq<Entry<I, O>>> := [];
    for i := 0 to |partitions|
      invariant |lists| == i
      invariant forall k | 0 <= k < i :: WellFormed(lists[k]) && Ops(lists[k]) == EventOps(partitions[k])
    {
      var e := Renumber(partitions[i]);
      NewIds(partitions[i], e);
      var l := ConvertEntries(e);
      ConvertedOps(partitions[i], e, l);
      lists := lists + [l];
    }
    ghost var longest;
    result, partialLinearizations, longest := CheckParallel(model, lists, verbose, arrivals, timeoutAfter, kills);
    if verbose {
      forall i, p | 0 <= i < |partitions| && p in partialLinearizations[i]
        ensures Partial(model, EventOps(partitions[i]), p)
      {
        assert PartSound(model, lists, longest, i);
        assert Some(p) in longest[i];
        RecordedPartial(model, Ops(lists[i]), longest[i], p);
      }
    }
    if verbose {
      AllFinish(arrivals, |partitions|, kills);
      forall i: nat | i < |partitions| &&
                      (timeoutAfter.None? || Finished(arrivals, Received(timeoutAfter, |partitions|), kills, i))
        ensures ListsLongest(model, EventOps(partitions[i]), partialLinearizations[i])
      {
        assert PartMaximal(model, lists, longest, i);
        MaximalListed(model, Ops(lists[i]), longest[i], partialLinearizations[i]);
      }
    }
    if result == Ok {
      forall i | 0 <= i < |partitions| ensures EventsLinearizable(model, partitions[i]) {
        assert PartLinearizable(model, lists, i);
      }
    }
    forall k | 0 <= k < |partitions|
      ensures PartLinearizable(model, lists, arrivals[k]) <==> EventsLinearizable(model, partitions[arrivals[k]])
    {}
  }

  lemma NewIds<I, O>(events: seq<Event<I, O>>, e: seq<Event<I, O>>)
    requires Renumbered(events, e)
    ensures forall i | 0 <= i < |e| :: e[i].id >= 0
  {
    forall i | 0 <= i < |e| ensures e[i].id >= 0 {
      assert RenumberedAt(events, e, i);
    }
  }
}
