/** The client-visible history of the service is linearizable, and the checker says so. */
module KvHistory {
  import opened Linearizability
  import opened KvModel
  import opened KvServer
  import opened KvCluster
  import opened Locality
  import opened Histories
  import opened Parallel
  import opened Verdict

  /** Calls that count: those that returned, and writes that took effect without returning. */
  predicate Counts(s: Service, i: nat)
    requires i < |s.calls|
  {
    s.calls[i].result.Some? || (s.calls[i].op.task != Get && InLog(s.log, s.calls[i].op))
  }

  /** The first n calls' counting ones, in order of invocation. */
  function Counting(s: Service, n: nat): (kept: seq<nat>)
    requires n <= |s.calls|
    ensures forall j | 0 <= j < |kept| :: kept[j] < n && Counts(s, kept[j])
    ensures forall j, k | 0 <= j < k < |kept| :: kept[j] < kept[k]
  {
    if n == 0 then [] else Counting(s, n - 1) + if Counts(s, n - 1) then [n - 1] else []
  }

  /** A write that never returned gets the present as its return time. */
  function OperationOf(s: Service, c: Call): KvOperation {
    Operation(c.op.client, InputOf(c.op), c.time,
              KvOutput(if c.result.Some? then c.result.value.value else ""),
              if c.result.Some? then c.result.value.time else s.now)
  }

  function Kept(s: Service): seq<nat> {
    Counting(s, |s.calls|)
  }

  function History(s: Service): (h: seq<KvOperation>)
    ensures |h| == |Kept(s)|
  {
    seq(|Kept(s)|, j requires 0 <= j < |Kept(s)| => OperationOf(s, s.calls[Kept(s)[j]]))
  }

  lemma {:induction false} CountingComplete(s: Service, n: nat, i: nat)
    requires i < n <= |s.calls| && Counts(s, i)
    ensures i in Counting(s, n)
  {
    if i < n - 1 {
      CountingComplete(s, n - 1, i);
    }
  }

  /** Operation j of the history is call i as its client saw it. */
  ghost predicate ShownAt(s: Service, i: nat, j: nat) {
    && i < |s.calls| && j < |History(s)|
    && var (c, o) := (s.calls[i], History(s)[j]);
       && o.clientId == c.op.client && o.input.key == c.op.key && o.input.value == c.op.value && o.call == c.time
       && (o.input.op == 0 <==> c.op.task == Task.Get) && (o.input.op == 1 <==> c.op.task == Task.Put)
       && (c.result.Some? ==> o.output.value == c.result.value.value && o.ret == c.result.value.time)
       && (c.result.None? ==> o.ret == s.now)
  }

  /** Every call that returned, and every write whose operation is in the log, is in the history. */
  lemma CallIsShown(s: Service, i: nat) returns (j: nat)
    requires i < |s.calls|
    requires s.calls[i].result.Some? || (s.calls[i].op.task != Task.Get && InLog(s.log, s.calls[i].op))
    ensures ShownAt(s, i, j)
  {
    hide InLog;
    CountingComplete(s, |s.calls|, i);
    j :| j < |Kept(s)| && Kept(s)[j] == i;
  }

  /** Nothing else is. */
  lemma ShownIsCall(s: Service, j: nat) returns (i: nat)
    requires j < |History(s)|
    ensures ShownAt(s, i, j)
    ensures s.calls[i].result.Some? || (s.calls[i].op.task != Task.Get && InLog(s.log, s.calls[i].op))
  {
    hide InLog;
    i := Kept(s)[j];
  }

  // ---- where each operation takes effect ----

  /** The first position of the log that holds the operation. */
  function FirstAt(log: seq<Op>, op: Op): (k: nat)
    requires InLog(log, op)
    ensures k < |log| && SameId(log[k], op) && !InLog(log[..k], op)
  {
    var n := |log| - 1;
    if InLog(log[..n], op) then
      var k := FirstAt(log[..n], op);
      assert log[..n][..k] == log[..k];
      k
    else
      NotBeforeLast(log, op);
      n
  }

  lemma NotBeforeLast(log: seq<Op>, op: Op)
    requires InLog(log, op) && !InLog(log[..|log| - 1], op)
    ensures SameId(log[|log| - 1], op)
  {
    var i :| 0 <= i < |log| && SameId(log[i], op);
    LaterPrefixHas(log, |log| - 1, i, op);
  }

  lemma PrefixHas(log: seq<Op>, n: nat, i: nat, op: Op)
    requires i < n <= |log| && SameId(log[i], op)
    ensures InLog(log[..n], op)
  {
    assert log[..n][i] == log[i];
  }

  lemma LaterPrefixHas(log: seq<Op>, n: nat, i: nat, op: Op)
    requires n <= |log| && i < |log| && SameId(log[i], op)
    ensures i < n ==> InLog(log[..n], op)
  {
    if i < n {
      PrefixHas(log, n, i, op);
    }
  }

  /** slot is the length of log after which operation j of the history takes effect. */
  ghost predicate SlotOk(s: Service, c: Call, slot: nat)
    requires |s.born| == |s.log|
  {
    && 0 < slot <= |s.log| && InLog(s.log[..slot], c.op)
    && (c.op.task == Get ==>
          c.result.Some? && c.result.value.value == Lookup(ApplyAll(s.log[..slot]).storage, c.op.key))
    && (c.op.task != Get ==> !InLog(s.log[..slot - 1], c.op))
    && c.time < s.born[slot - 1] < (if c.result.Some? then c.result.value.time else s.now)
  }

  ghost predicate HasSlot(s: Service, c: Call)
    requires |s.born| == |s.log|
  {
    exists slot: nat :: SlotOk(s, c, slot)
  }

  /** A copy of the operation entered the log only after the call. */
  lemma BornAfterCall(s: Service, i: nat, k: nat)
    requires KvCluster.Inv(s) && i < |s.calls| && k < |s.log| && SameId(s.log[k], s.calls[i].op)
    ensures s.calls[i].time < s.born[k] && s.log[k] == s.calls[i].op
  {
    assert EntryOk(s, k);
    var c :| 0 <= c < |s.calls| && s.calls[c].op == s.log[k] && s.calls[c].time < s.born[k];
    assert Apart(s, c, i);
  }

  /** Every counting call has a slot: a Get where it was read, a write at its first copy. */
  lemma SlotExists(s: Service, i: nat)
    requires KvCluster.Inv(s) && i < |s.calls| && Counts(s, i)
    ensures HasSlot(s, s.calls[i])
  {
    hide ApplyAll;
    var c := s.calls[i];
    assert CallOk(s, i);
    var p: nat;
    if c.result.Some? {
      p :| Justified(s.log, c.op, c.result.value.value, p) && (p > 0 ==> s.born[p - 1] < c.result.value.time);
    } else {
      p := |s.log|;
      assert s.log[..p] == s.log;
    }
    var k := FirstAt(s.log[..p], c.op);
    BornAfterCall(s, i, k);
    assert EntryOk(s, p - 1);
    assert k == p - 1 || s.born[k] < s.born[p - 1];
    if c.op.task == Get {
      assert SlotOk(s, c, p);
    } else {
      assert s.log[..p][..k] == s.log[..k];
      assert s.log[..k + 1][k] == s.log[k];
      assert SlotOk(s, c, k + 1);
    }
  }

  ghost function SlotOf(s: Service, c: Call): (slot: nat)
    requires |s.born| == |s.log| && HasSlot(s, c)
    ensures SlotOk(s, c, slot)
  {
    var slot: nat :| SlotOk(s, c, slot); slot
  }

  function CallAt(s: Service, j: nat): Call
    requires j < |Kept(s)|
  {
    s.calls[Kept(s)[j]]
  }

  /** A slot for every operation of the history. */
  ghost predicate Slots(s: Service, slots: seq<nat>) {
    && |s.born| == |s.log| && |slots| == |Kept(s)|
    && forall j: nat | j < |slots| :: SlotOk(s, CallAt(s, j), slots[j])
  }

  lemma ChooseSlots(s: Service) returns (slots: seq<nat>)
    requires KvCluster.Inv(s)
    ensures Slots(s, slots)
  {
    forall j: nat | j < |Kept(s)| ensures HasSlot(s, CallAt(s, j)) {
      SlotExists(s, Kept(s)[j]);
    }
    hide SlotOk;
    slots := seq(|Kept(s)|, (j: nat) requires j < |Kept(s)| && |s.born| == |s.log| && HasSlot(s, CallAt(s, j)) =>
      SlotOf(s, CallAt(s, j)));
  }

  // ---- the order ----

  /** The numbers below n that satisfy p, ascending. */
  ghost function Pick(n: nat, p: nat -> bool): seq<nat> {
    if n == 0 then [] else Pick(n - 1, p) + if p(n - 1) then [n - 1] else []
  }

  lemma {:induction false} PickFacts(n: nat, p: nat -> bool)
    ensures forall x: nat :: x in Pick(n, p) <==> x < n && p(x)
    ensures forall i, j | 0 <= i < j < |Pick(n, p)| :: Pick(n, p)[i] < Pick(n, p)[j]
  {
    if n > 0 {
      PickFacts(n - 1, p);
      var before := Pick(n - 1, p);
      forall i | 0 <= i < |before| ensures before[i] < n - 1 {
        assert before[i] in before;
      }
    }
  }

  ghost function WritesAt(s: Service, slots: seq<nat>, k: nat): seq<nat>
    requires |slots| == |Kept(s)|
  {
    Pick(|slots|, (j: nat) => j < |slots| && slots[j] == k && CallAt(s, j).op.task != Get)
  }

  ghost function ReadsAt(s: Service, slots: seq<nat>, k: nat): seq<nat>
    requires |slots| == |Kept(s)|
  {
    Pick(|slots|, (j: nat) => j < |slots| && slots[j] == k && CallAt(s, j).op.task == Get)
  }

  /** Entry by entry: the write it is the first copy of, then the reads that saw the log up to it. */
  ghost function Order(s: Service, slots: seq<nat>, k: nat): seq<nat>
    requires |slots| == |Kept(s)|
  {
    if k == 0 then [] else Order(s, slots, k - 1) + WritesAt(s, slots, k) + ReadsAt(s, slots, k)
  }

  lemma BlockFacts(s: Service, slots: seq<nat>, k: nat)
    requires |slots| == |Kept(s)|
    ensures var block := WritesAt(s, slots, k) + ReadsAt(s, slots, k);
            && (forall x: nat :: x in block <==> x < |slots| && slots[x] == k)
            && Distinct(block)
  {
    var w, g := WritesAt(s, slots, k), ReadsAt(s, slots, k);
    BlockMembers(s, slots, k);
    DistinctConcat(w, g);
  }

  lemma DistinctConcat(a: seq<nat>, b: seq<nat>)
    requires Distinct(a) && Distinct(b) && forall x: nat :: !(x in a && x in b)
    ensures Distinct(a + b)
  {
    forall i, j | 0 <= i < j < |a + b| ensures (a + b)[i] != (a + b)[j] {
      assert i < |a| ==> a[i] in a;
      assert j >= |a| ==> b[j - |a|] in b;
    }
  }

  lemma {:induction false} OrderFacts(s: Service, slots: seq<nat>, k: nat)
    requires |slots| == |Kept(s)| && forall j | 0 <= j < |slots| :: slots[j] > 0
    ensures forall x: nat :: x in Order(s, slots, k) <==> x < |slots| && slots[x] <= k
    ensures Distinct(Order(s, slots, k))
  {
    if k > 0 {
      hide WritesAt, ReadsAt, Kept;
      OrderFacts(s, slots, k - 1);
      BlockFacts(s, slots, k);
      var block := WritesAt(s, slots, k) + ReadsAt(s, slots, k);
      assert Order(s, slots, k) == Order(s, slots, k - 1) + block;
      DistinctConcat(Order(s, slots, k - 1), block);
    }
  }

  /** The time at which each operation takes effect: when the entry of its slot entered the log. */
  ghost function EffectTimes(s: Service, slots: seq<nat>): (pt: seq<int>)
    requires Slots(s, slots)
    ensures |pt| == |slots| && forall j: nat | j < |slots| :: 0 < slots[j] <= |s.born| && pt[j] == s.born[slots[j] - 1]
  {
    assert forall j: nat | j < |slots| :: SlotOk(s, CallAt(s, j), slots[j]);
    seq(|slots|, (j: nat) requires j < |slots| && 0 < slots[j] <= |s.born| => s.born[slots[j] - 1])
  }

  lemma ConcatSorted(pt: seq<int>, a: seq<nat>, b: seq<nat>)
    requires IdsBelow(a, |pt|) && IdsBelow(b, |pt|) && SortedBy(pt, a)
    requires forall x: nat, y: nat | (x in a || x in b) && y in b :: pt[x] <= pt[y]
    ensures IdsBelow(a + b, |pt|) && SortedBy(pt, a + b)
  {
    var c := a + b;
    forall i, j | 0 <= i < j < |c| ensures pt[c[i]] <= pt[c[j]] {
      assert c[i] in a || c[i] in b;
      if j >= |a| {
        assert c[j] in b;
      }
    }
  }

  lemma MembersBelow(order: seq<nat>, n: nat)
    requires forall x: nat | x in order :: x < n
    ensures IdsBelow(order, n)
  {
    forall i | 0 <= i < |order| ensures order[i] < n {
      assert order[i] in order;
    }
  }

  lemma BornSorted(s: Service, a: nat, b: nat)
    requires KvCluster.Inv(s) && a <= b < |s.born|
    ensures s.born[a] <= s.born[b]
  {}

  lemma {:induction false} OrderSorted(s: Service, slots: seq<nat>, k: nat)
    requires KvCluster.Inv(s) && Slots(s, slots) && k <= |s.log|
    ensures IdsBelow(Order(s, slots, k), |slots|)
    ensures SortedBy(EffectTimes(s, slots), Order(s, slots, k))
  {
    hide SlotOk, Kept, WritesAt, ReadsAt, SortedBy, Inv;
    var pt := EffectTimes(s, slots);
    if k == 0 {
      NothingSorted(pt);
    } else {
      var before, block := Order(s, slots, k - 1), WritesAt(s, slots, k) + ReadsAt(s, slots, k);
      assert Order(s, slots, k) == before + block;
      OrderSorted(s, slots, k - 1);
      OrderFacts(s, slots, k - 1);
      BlockFacts(s, slots, k);
      MembersBelow(block, |pt|);
      forall x: nat, y: nat | (x in before || x in block) && y in block ensures pt[x] <= pt[y] {
        BornSorted(s, slots[x] - 1, slots[y] - 1);
      }
      ConcatSorted(pt, before, block);
    }
  }

  lemma NothingSorted(pt: seq<int>)
    ensures SortedBy(pt, [])
  {}

  // ---- replaying the order ----

  /** The order so far is legal and leaves exactly what the replicas hold after that much of the log. */
  ghost predicate Reproduces(s: Service, order: seq<nat>, k: nat)
    requires k <= |s.log|
  {
    && IdsBelow(order, |History(s)|)
    && Run(STORE_MODEL, History(s), order) == Some(ApplyAll(s.log[..k]).storage)
  }

  /** A read that saw this state changes nothing. */
  lemma {:induction false} ReadsReplay(s: Service, slots: seq<nat>, order: seq<nat>, gets: seq<nat>, k: nat)
    requires Slots(s, slots) && k <= |s.log| && Reproduces(s, order, k)
    requires forall x: nat | x in gets :: x < |slots| && slots[x] == k && CallAt(s, x).op.task == Get
    ensures Reproduces(s, order + gets, k)
  {
    if gets == [] {
      assert order + gets == order;
    } else {
      hide ApplyAll, InLog, Kept, Run;
      var n := |gets| - 1;
      var x := gets[n];
      assert x in gets;
      forall y: nat | y in gets[..n] ensures y in gets {}
      ReadsReplay(s, slots, order, gets[..n], k);
      assert order + gets == (order + gets[..n]) + [x];
      assert SlotOk(s, CallAt(s, x), slots[x]);
      RunAppend(STORE_MODEL, History(s), order + gets[..n], x);
      EffectIsStep(ApplyAll(s.log[..k]).storage, CallAt(s, x).op, History(s)[x].output);
    }
  }

  /** A write in slot k is the entry k - 1 itself, and its first copy. */
  lemma WriteIsEntry(s: Service, slots: seq<nat>, x: nat)
    requires KvCluster.Inv(s) && Slots(s, slots) && x < |slots| && CallAt(s, x).op.task != Get
    ensures 0 < slots[x] <= |s.log| && s.log[slots[x] - 1] == CallAt(s, x).op
    ensures !InLog(s.log[..slots[x] - 1], CallAt(s, x).op)
  {
    hide ApplyAll;
    var k := slots[x];
    assert SlotOk(s, CallAt(s, x), k);
    assert s.log[..k][..k - 1] == s.log[..k - 1];
    NotBeforeLast(s.log[..k], CallAt(s, x).op);
    BornAfterCall(s, Kept(s)[x], k - 1);
  }

  /** The first copy of a write is a write of the history, in this slot and no other. */
  lemma EntryIsWrite(s: Service, slots: seq<nat>, k: nat) returns (x: nat)
    requires KvCluster.Inv(s) && Slots(s, slots) && 0 < k <= |s.log|
    requires s.log[k - 1].task != Get && !InLog(s.log[..k - 1], s.log[k - 1])
    ensures x < |slots| && slots[x] == k && CallAt(s, x).op == s.log[k - 1]
  {
    hide ApplyAll;
    var o := s.log[k - 1];
    assert EntryOk(s, k - 1);
    var c: nat :| c < |s.calls| && s.calls[c].op == o && s.calls[c].time < s.born[k - 1];
    PrefixHas(s.log, |s.log|, k - 1, o);
    assert s.log[..|s.log|] == s.log;
    assert Counts(s, c);
    CountingComplete(s, |s.calls|, c);
    x :| 0 <= x < |Kept(s)| && Kept(s)[x] == c;
    WriteIsEntry(s, slots, x);
    LaterPrefixHas(s.log, k - 1, slots[x] - 1, o);
    LaterPrefixHas(s.log, slots[x] - 1, k - 1, o);
  }

  /** Two operations of the history with one id are one operation. */
  lemma SameCall(s: Service, x: nat, y: nat)
    requires KvCluster.Inv(s) && x < |Kept(s)| && y < |Kept(s)| && SameId(CallAt(s, x).op, CallAt(s, y).op)
    ensures x == y
  {
    assert Apart(s, Kept(s)[x], Kept(s)[y]);
  }

  /** The writes of one slot: the entry's operation if this is its first copy and it writes; else none. */
  lemma WritesOfSlot(s: Service, slots: seq<nat>, k: nat)
    requires KvCluster.Inv(s) && Slots(s, slots) && 0 < k <= |s.log|
    ensures var o := s.log[k - 1];
            if o.task != Get && !InLog(s.log[..k - 1], o)
            then exists x: nat :: x < |slots| && CallAt(s, x).op == o && WritesAt(s, slots, k) == [x]
            else WritesAt(s, slots, k) == []
  {
    hide Kept, SlotOk, ApplyAll, WritesAt, Inv, InLog;
    var o, w := s.log[k - 1], WritesAt(s, slots, k);
    BlockMembers(s, slots, k);
    if o.task != Get && !InLog(s.log[..k - 1], o) {
      var x := EntryIsWrite(s, slots, k);
      forall y: nat | y in w ensures y == x {
        WriteIsEntry(s, slots, y);
        SameCall(s, x, y);
      }
      OnlyMember(w, x);
    } else if w != [] {
      assert w[0] in w;
      WriteIsEntry(s, slots, w[0]);
    }
  }

  lemma BlockMembers(s: Service, slots: seq<nat>, k: nat)
    requires |slots| == |Kept(s)|
    ensures var w := WritesAt(s, slots, k);
            && (forall x: nat :: x in w <==> x < |slots| && slots[x] == k && CallAt(s, x).op.task != Get)
            && (forall i, j | 0 <= i < j < |w| :: w[i] < w[j])
    ensures var g := ReadsAt(s, slots, k);
            && (forall x: nat :: x in g <==> x < |slots| && slots[x] == k && CallAt(s, x).op.task == Get)
            && (forall i, j | 0 <= i < j < |g| :: g[i] < g[j])
  {
    PickFacts(|slots|, (j: nat) => j < |slots| && slots[j] == k && CallAt(s, j).op.task != Get);
    PickFacts(|slots|, (j: nat) => j < |slots| && slots[j] == k && CallAt(s, j).op.task == Get);
  }

  lemma OnlyMember(w: seq<nat>, x: nat)
    requires x in w && forall y: nat | y in w :: y == x
    requires forall i, j | 0 <= i < j < |w| :: w[i] < w[j]
    ensures w == [x]
  {
    assert |w| > 1 ==> w[0] < w[1];
    forall j | 0 <= j < |w| ensures w[j] == x {
      assert w[j] in w;
    }
  }

  /** What entry k - 1 does to the replicas. */
  lemma EntryEffect(s: Service, k: nat)
    requires 0 < k <= |s.log|
    ensures var (o, before) := (s.log[k - 1], ApplyAll(s.log[..k - 1]).storage);
            ApplyAll(s.log[..k]).storage == if InLog(s.log[..k - 1], o) then before else Effect(before, o)
  {
    var o := s.log[k - 1];
    IdsAreTheLog(s.log[..k - 1], o);
    assert s.log[..k][..k - 1] == s.log[..k - 1] && s.log[..k][k - 1] == o;
  }

  lemma WriteReplays(s: Service, slots: seq<nat>, order: seq<nat>, k: nat)
    requires KvCluster.Inv(s) && Slots(s, slots) && 0 < k <= |s.log| && Reproduces(s, order, k - 1)
    ensures Reproduces(s, order + WritesAt(s, slots, k), k)
  {
    hide Kept, SlotOk, ApplyAll, WritesAt, Inv, Run, InLog;
    var o, before := s.log[k - 1], ApplyAll(s.log[..k - 1]).storage;
    EntryEffect(s, k);
    WritesOfSlot(s, slots, k);
    if o.task != Get && !InLog(s.log[..k - 1], o) {
      var x: nat :| x < |slots| && CallAt(s, x).op == o && WritesAt(s, slots, k) == [x];
      RunAppend(STORE_MODEL, History(s), order, x);
      EffectIsStep(before, o, History(s)[x].output);
    } else {
      assert order + WritesAt(s, slots, k) == order;
    }
  }

  lemma {:induction false} OrderReplays(s: Service, slots: seq<nat>, k: nat)
    requires KvCluster.Inv(s) && Slots(s, slots) && k <= |s.log|
    ensures Reproduces(s, Order(s, slots, k), k)
  {
    if k == 0 {
      assert s.log[..0] == [];
    } else {
      OrderReplays(s, slots, k - 1);
      hide Kept, SlotOk, ApplyAll, WritesAt, Inv, Run, Reproduces;
      var writes, gets := WritesAt(s, slots, k), ReadsAt(s, slots, k);
      WriteReplays(s, slots, Order(s, slots, k - 1), k);
      BlockMembers(s, slots, k);
      ReadsReplay(s, slots, Order(s, slots, k - 1) + writes, gets, k);
    }
  }

  // ---- the theorem ----

  lemma EffectInside(s: Service, slots: seq<nat>)
    requires Slots(s, slots)
    ensures Points(History(s), EffectTimes(s, slots))
    ensures forall j | 0 <= j < |slots| :: 0 < slots[j] <= |s.log|
  {
    hide ApplyAll, InLog;
    forall j: nat | j < |slots|
      ensures History(s)[j].call <= EffectTimes(s, slots)[j] <= History(s)[j].ret && 0 < slots[j] <= |s.log|
    {
      assert SlotOk(s, CallAt(s, j), slots[j]);
    }
  }

  /** Linearizability of the service: its client-visible history is one of a single store. */
  lemma ServiceLinearizable(s: Service)
    requires KvCluster.Inv(s)
    ensures Linearizable(STORE_MODEL, History(s))
  {
    hide Inv, Slots, History, Kept, Points, SortedBy, Run;
    var slots := ChooseSlots(s);
    SlotsLength(s, slots);
    var h, n := History(s), |s.log|;
    var order := Order(s, slots, n);
    EffectInside(s, slots);
    OrderFacts(s, slots, n);
    OrderSorted(s, slots, n);
    OrderReplays(s, slots, n);
    PointsRespectTime(h, EffectTimes(s, slots), order);
    AllThere(order, |h|);
    assert IsLinearization(STORE_MODEL, h, order);
  }

  lemma SlotsLength(s: Service, slots: seq<nat>)
    requires Slots(s, slots)
    ensures |slots| == |Kept(s)| == |History(s)|
  {}

  /** In every state of every run. */
  lemma RunsLinearizable(states: seq<Service>, steps: seq<KvCluster.Step>, servers: nat, k: nat)
    requires IsRun(states, steps, servers) && k < |states|
    ensures Linearizable(STORE_MODEL, History(states[k]))
  {
    RunInv(states, steps, servers, k);
    ServiceLinearizable(states[k]);
  }

  /** The times of the history are as the checker needs them. */
  lemma HistoryTimes(s: Service)
    requires KvCluster.Inv(s)
    ensures CallsBeforeReturns(History(s)) && NoTies(History(s))
  {
    var h := History(s);
    forall i: nat | i < |h| ensures h[i].call < h[i].ret {
      assert CallOk(s, Kept(s)[i]);
    }
    forall i: nat, j: nat | i < |h| && j < |h| ensures h[i].ret != h[j].call {
      assert CallOk(s, Kept(s)[j]);
      assert Apart(s, Kept(s)[i], Kept(s)[j]);
    }
  }

  /** End to end: without a timeout the checker accepts every history the service can produce. */
  method CheckService(s: Service, ghost states: seq<Service>, ghost steps: seq<KvCluster.Step>, ghost servers: nat,
                      arrivals: nat -> seq<nat>, kills: (nat, nat) -> bool) returns (result: CheckResult)
    requires IsRun(states, steps, servers) && s in states && History(s) != []
    requires forall n :: Arrivals(arrivals(n), n)
    ensures result == Ok
  {
    hide *;
    ghost var k: nat :| k < |states| && states[k] == s;
    RunsLinearizable(states, steps, servers, k);
    RunInv(states, steps, servers, k);
    HistoryTimes(s);
    var groups, lists;
    result, groups, lists := CheckKvOperations(History(s), false, arrivals, None, kills);
  }
}
