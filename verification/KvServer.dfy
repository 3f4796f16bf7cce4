/** The replicated key/value state machine: duplicate suppression and the handlers that wait for it. */
module KvServer {
  import opened KvModel

  datatype Task = Get | Put | Append

  datatype Op = Op(task: Task, key: string, value: string, client: int, id: int)

  /** What a server holds: the store, and every operation applied so far, by client and id. */
  datatype Replica = Replica(storage: Store, idTable: map<int, map<int, Op>>)

  const EMPTY: Replica := Replica(map[], map[])

  predicate ExistId(r: Replica, id: int, client: int) {
    client in r.idTable && id in r.idTable[client]
  }

  /** What applying an operation for the first time does to the store. */
  function Effect(storage: Store, op: Op): Store {
    if op.task == Append && op.key in storage then storage[op.key := storage[op.key] + op.value]
    else if op.task == Put || op.task == Append then storage[op.key := op.value]
    else storage
  }

  function ApplyOp(r: Replica, op: Op): Replica {
    var storage := if ExistId(r, op.id, op.client) then r.storage else Effect(r.storage, op);
    var ofClient := if op.client in r.idTable then r.idTable[op.client] else map[];
    Replica(storage, r.idTable[op.client := ofClient[op.id := op]])
  }

  /** The state after a log: every replica that applied this log is in it. */
  function ApplyAll(log: seq<Op>): Replica {
    if log == [] then EMPTY else ApplyOp(ApplyAll(log[..|log| - 1]), log[|log| - 1])
  }

  predicate SameId(a: Op, b: Op) {
    a.client == b.client && a.id == b.id
  }

  predicate InLog(log: seq<Op>, op: Op) {
    exists i | 0 <= i < |log| :: SameId(log[i], op)
  }

  /** The id table knows exactly the ids in the log. */
  lemma {:induction false} IdsAreTheLog(log: seq<Op>, op: Op)
    ensures ExistId(ApplyAll(log), op.id, op.client) <==> InLog(log, op)
  {
    if log != [] {
      var n := |log| - 1;
      IdsAreTheLog(log[..n], op);
      if InLog(log[..n], op) {
        var i :| 0 <= i < n && SameId(log[..n][i], op);
        assert SameId(log[i], op);
      }
      if InLog(log, op) && !SameId(log[n], op) {
        var i :| 0 <= i < |log| && SameId(log[i], op);
        assert SameId(log[..n][i], op);
      }
    }
  }

  // ---- duplicates do not matter ----

  /** The log without the entries whose id occurred before. */
  function FirstOnly(log: seq<Op>): seq<Op> {
    if log == [] then [] else
      var n := |log| - 1;
      FirstOnly(log[..n]) + if InLog(log[..n], log[n]) then [] else [log[n]]
  }

  function Fold(ops: seq<Op>): Store {
    if ops == [] then map[] else Effect(Fold(ops[..|ops| - 1]), ops[|ops| - 1])
  }

  /** The store is the fold of the first occurrences: retries change nothing. */
  lemma {:induction false} DuplicatesSuppressed(log: seq<Op>)
    ensures ApplyAll(log).storage == Fold(FirstOnly(log))
  {
    if log != [] {
      var n := |log| - 1;
      DuplicatesSuppressed(log[..n]);
      IdsAreTheLog(log[..n], log[n]);
      var before := FirstOnly(log[..n]);
      assert (before + [log[n]])[..|before|] == before && before + [] == before;
    }
  }

  // ---- the store as the specification sees it ----

  function InputOf(op: Op): KvInput {
    KvInput(match op.task case Get => 0 case Put => 1 case Append => 2, op.key, op.value)
  }

  /** A first application is a step of the specification, whatever was read; a missing key reads as empty. */
  lemma EffectIsStep(storage: Store, op: Op, output: KvOutput)
    ensures Effect(storage, op) == StoreStep(storage, InputOf(op), output).1
    ensures StoreStep(storage, InputOf(op), output).0 <==> (op.task == Get ==> output.value == Lookup(storage, op.key))
  {
    assert "" + op.value == op.value;
  }

  /** One key's value: the fold of the single-key specification over the first occurrences on it. */
  function KeyFold(ops: seq<Op>, key: string): string {
    if ops == [] then KV_MODEL.init else
      var n := |ops| - 1;
      var before := KeyFold(ops[..n], key);
      if ops[n].key == key then KvStep(before, InputOf(ops[n]), KvOutput(before)).1 else before
  }

  lemma {:induction false} FoldPerKey(ops: seq<Op>, key: string)
    ensures Lookup(Fold(ops), key) == KeyFold(ops, key)
  {
    if ops != [] {
      FoldPerKey(ops[..|ops| - 1], key);
    }
  }

  /** The values of the appends to a key, one after the other. */
  function Joined(ops: seq<Op>, key: string): string {
    if ops == [] then "" else
      var n := |ops| - 1;
      Joined(ops[..n], key) + if ops[n].key == key && ops[n].task == Append then ops[n].value else ""
  }

  ghost predicate NoPut(ops: seq<Op>, from: nat, key: string)
    requires from <= |ops|
  {
    forall i | from <= i < |ops| :: !(ops[i].task == Put && ops[i].key == key)
  }

  /** A key holds the value of its last put, if there is one, and then what was appended since. */
  lemma {:induction false} LastPutAndAppends(ops: seq<Op>, key: string, p: nat)
    requires p <= |ops| && NoPut(ops, p, key)
    requires p == 0 || (ops[p - 1].task == Put && ops[p - 1].key == key)
    ensures KeyFold(ops, key) == (if p == 0 then "" else ops[p - 1].value) + Joined(ops[p..], key)
    decreases |ops|
  {
    if p < |ops| {
      var n := |ops| - 1;
      KeyFoldStep(ops, key);
      hide KeyFold;
      LastPutAndAppends(ops[..n], key, p);
      assert ops[p..][..n - p] == ops[..n][p..] && ops[p..][n - p] == ops[n];
    } else {
      assert ops[p..] == [];
    }
  }

  lemma {:induction false} KeyFoldStep(ops: seq<Op>, key: string)
    requires ops != []
    ensures var (n, last) := (|ops| - 1, ops[|ops| - 1]);
            KeyFold(ops, key) == if last.key != key || last.task == Task.Get then KeyFold(ops[..n], key)
                                 else if last.task == Put then last.value else KeyFold(ops[..n], key) + last.value
  {}

  /** The id table holds, for every id that was applied, its latest log entry. */
  lemma {:induction false} IdTableHolds(log: seq<Op>, k: nat)
    requires k < |log| && forall j | k < j < |log| :: !SameId(log[k], log[j])
    ensures var r := ApplyAll(log);
            ExistId(r, log[k].id, log[k].client) && r.idTable[log[k].client][log[k].id] == log[k]
  {
    var n := |log| - 1;
    if k < n {
      assert forall j | k < j < n :: log[..n][j] == log[j];
      IdTableHolds(log[..n], k);
      assert !SameId(log[k], log[n]);
    }
  }

  lemma {:induction false} StorageProjection(log: seq<Op>, key: string)
    ensures Lookup(ApplyAll(log).storage, key) == KeyFold(FirstOnly(log), key)
  {
    DuplicatesSuppressed(log);
    FoldPerKey(FirstOnly(log), key);
  }

  /** Ids name operations: two log entries with one id are copies of one operation. */
  ghost predicate Copies(log: seq<Op>) {
    forall i, j | 0 <= i < j < |log| && SameId(log[i], log[j]) :: log[i] == log[j]
  }

  /** Once a put or append is in the id table its key is present, so the handler never prints its error. */
  lemma {:induction false} AppliedKeyPresent(log: seq<Op>, op: Op)
    requires Copies(log) && op in log && op.task != Get
    ensures op.key in ApplyAll(log).storage
  {
    var n := |log| - 1;
    var k :| 0 <= k < |log| && log[k] == op;
    IdsAreTheLog(log[..n], op);
    if InLog(log[..n], op) {
      var i :| 0 <= i < n && SameId(log[..n][i], op);
      assert log[i] == op by {
        assert i == k || i < k || k < i;
      }
      assert log[..n][i] == op;
      AppliedKeyPresent(log[..n], op);
    } else {
      assert k == n by {
        assert k < n ==> SameId(log[..n][k], op);
      }
    }
  }

  datatype GetReply = GetOk(value: string) | GetWrongLeader
  datatype PutAppendReply = PutAppendOk | PutAppendError | PutAppendWrongLeader

  class KVServer {
    var storage: Store
    var idTable: map<int, map<int, Op>>
    /** What this incarnation has applied. */
    ghost var log: seq<Op>

    ghost predicate Valid()
      reads this
    {
      Replica(storage, idTable) == ApplyAll(log)
    }

    constructor ()
      ensures Valid() && log == []
    {
      storage, idTable, log := map[], map[], [];
    }

    /** One message from the apply channel. */
    method Apply(curOp: Op)
      requires Valid()
      modifies this
      ensures Valid() && log == old(log) + [curOp]
    {
      if !HasId(curOp.id, curOp.client) {
        if curOp.task == Append && curOp.key in storage {
          storage := storage[curOp.key := storage[curOp.key] + curOp.value];
        } else if curOp.task == Put || curOp.task == Append {
          storage := storage[curOp.key := curOp.value];
        }
      }
      if curOp.client !in idTable {
        idTable := idTable[curOp.client := map[]];
      }
      idTable := idTable[curOp.client := idTable[curOp.client][curOp.id := curOp]];
      assert (log + [curOp])[..|log|] == log;
      log := log + [curOp];
    }

    predicate HasId(id: int, client: int)
      reads this
    {
      client in idTable && id in idTable[client]
    }

    /** Everything the apply goroutine gets to do before the lock is taken next. */
    method ApplyMeanwhile(ops: seq<Op>)
      requires Valid()
      modifies this
      ensures Valid() && log == old(log) + ops
    {
      for i := 0 to |ops|
        invariant Valid() && log == old(log) + ops[..i]
      {
        Apply(ops[i]);
        assert ops[..i + 1] == ops[..i] + [ops[i]];
      }
      assert ops[..|ops|] == ops;
    }

    /** A value this server had for the key at some moment of the call at which the operation was applied. */
    ghost predicate ReadDuring(from: nat, op: Op, value: string)
      reads this
    {
      exists p: nat :: from <= p <= |log| && InLog(log[..p], op) && value == Lookup(ApplyAll(log[..p]).storage, op.key)
    }

    /** The read itself, under two later acquisitions of the lock: is the key there, and then its value. */
    method ReadKey(op: Op, first: seq<Op>, second: seq<Op>) returns (value: string)
      requires Valid() && InLog(log, op)
      modifies this
      ensures Valid() && old(log) <= log
      ensures ReadDuring(|old(log)|, op, value)
    {
      hide ApplyAll, InLog;
      ApplyMeanwhile(first);
      LaterInLog(old(log), log, op);
      assert log[..|log|] == log;
      if op.key in storage {
        ghost var present := log;
        ApplyMeanwhile(second);
        LaterInLog(present, log, op);
        KeysStay(present, second, op.key);
        assert log[..|log|] == log;
        value := storage[op.key];
      } else {
        value := "";
      }
    }

    /**
     * The Get handler. started says whether this server was the leader and Start succeeded; meanwhile(k) is what
     * the apply goroutine applies before the k-th time the handler takes the lock.
     */
    method Get(op: Op, started: bool, meanwhile: nat -> seq<Op>) returns (reply: GetReply)
      requires Valid() && op.task == Task.Get
      modifies this
      ensures Valid() && old(log) <= log
      ensures reply.GetOk? <==> started && InLog(AfterPolls(old(log), meanwhile, 10), op)
      ensures reply.GetOk? ==> ReadDuring(|old(log)|, op, reply.value)
    {
      hide ApplyAll, InLog;
      if !started {
        return GetWrongLeader;
      }
      for i := 0 to POLLS
        invariant Valid() && old(log) <= log && log == AfterPolls(old(log), meanwhile, i)
        invariant i > 0 ==> !InLog(log, op)
      {
        ApplyMeanwhile(meanwhile(i));
        IdsAreTheLog(log, op);
        if HasId(op.id, op.client) {
          PollsGrow(old(log), meanwhile, i + 1, POLLS);
          LaterInLog(log, AfterPolls(old(log), meanwhile, POLLS), op);
          var value := ReadKey(op, meanwhile(i + 1), meanwhile(i + 2));
          return GetOk(value);
        }
      }
      return GetWrongLeader;
    }

    /** The PutAppend handler: it answers only after the operation was applied, and then its key is there. */
    method PutAppend(op: Op, started: bool, meanwhile: nat -> seq<Op>) returns (reply: PutAppendReply)
      requires Valid() && op.task != Task.Get
      modifies this
      ensures Valid() && old(log) <= log
      ensures reply.PutAppendWrongLeader? <==> !(started && InLog(AfterPolls(old(log), meanwhile, 10), op))
      ensures reply.PutAppendOk? ==> InLog(log, op) && op.key in ApplyAll(log).storage
      ensures reply.PutAppendError? ==> InLog(log, op) && op.key !in ApplyAll(log).storage
      ensures reply.PutAppendError? ==> !(Copies(log) && forall o | o in log && SameId(o, op) :: o == op)
    {
      hide ApplyAll, InLog, Copies;
      if !started {
        return PutAppendWrongLeader;
      }
      for i := 0 to POLLS
        invariant Valid() && old(log) <= log && log == AfterPolls(old(log), meanwhile, i)
        invariant i > 0 ==> !InLog(log, op)
      {
        ApplyMeanwhile(meanwhile(i));
        IdsAreTheLog(log, op);
        if HasId(op.id, op.client) {
          PollsGrow(old(log), meanwhile, i + 1, POLLS);
          LaterInLog(log, AfterPolls(old(log), meanwhile, POLLS), op);
          ghost var seen := log;
          ApplyMeanwhile(meanwhile(i + 1));
          LaterInLog(seen, log, op);
          if op.key in storage {
            return PutAppendOk;
          } else {
            PresentUnlessClash(log, op);
            return PutAppendError;
          }
        }
      }
      return PutAppendWrongLeader;
    }
  }

  /** How often a handler looks for its operation before it gives up. */
  const POLLS: nat := 10

  /** What has been applied when a handler has polled n times without success. */
  ghost function AfterPolls(log: seq<Op>, meanwhile: nat -> seq<Op>, n: nat): seq<Op> {
    if n == 0 then log else AfterPolls(log, meanwhile, n - 1) + meanwhile(n - 1)
  }

  lemma {:induction false} PollsGrow(log: seq<Op>, meanwhile: nat -> seq<Op>, m: nat, n: nat)
    requires m <= n
    ensures AfterPolls(log, meanwhile, m) <= AfterPolls(log, meanwhile, n)
  {
    if m < n { PollsGrow(log, meanwhile, m, n - 1); }
  }

  lemma LaterInLog(before: seq<Op>, after: seq<Op>, op: Op)
    requires before <= after && InLog(before, op)
    ensures InLog(after, op)
  {
    var i :| 0 <= i < |before| && SameId(before[i], op);
    assert SameId(after[i], op);
  }

  /** Keys are never removed. */
  lemma {:induction false} KeysStay(log: seq<Op>, more: seq<Op>, key: string)
    requires key in ApplyAll(log).storage
    ensures key in ApplyAll(log + more).storage
  {
    if more == [] {
      assert log + more == log;
    } else {
      var n := |more| - 1;
      KeysStay(log, more[..n], key);
      assert (log + more)[..|log + more| - 1] == log + more[..n];
    }
  }

  lemma {:induction false} PresentUnlessClash(log: seq<Op>, op: Op)
    requires InLog(log, op) && op.task != Task.Get && op.key !in ApplyAll(log).storage
    ensures !(Copies(log) && forall o | o in log && SameId(o, op) :: o == op)
  {
    if Copies(log) && (forall o | o in log && SameId(o, op) :: o == op) {
      var i :| 0 <= i < |log| && SameId(log[i], op);
      assert log[i] in log;
      AppliedKeyPresent(log, op);
    }
  }
}
