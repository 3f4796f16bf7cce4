/**
 * The key/value service over one agreed log, as a step system: clients invoke operations and retry them, copies
 * enter the log, servers apply prefixes of it, answer, crash and start over.
 */
module KvCluster {
  import opened Linearizability
  import opened KvModel
  import opened KvServer

  datatype Result = Result(value: string, time: int)

  datatype Call = Call(op: Op, time: int, result: Option<Result>)

  /** born[k] is when entry k entered the log; applied[s] is how much of it server s has applied since it started. */
  datatype Service = Service(
    now: int, log: seq<Op>, born: seq<int>, applied: seq<nat>, calls: seq<Call>, replies: set<(nat, string)>)

  datatype Step =
    | Invoke(op: Op)
    | Propose(i: nat)
    | Apply(server: nat)
    | Crash(server: nat)
    | AnswerGet(server: nat, i: nat, p: nat)
    | AnswerPutAppend(server: nat, i: nat)
    | Return(i: nat, value: string)

  /** No call so far has this client and id. */
  predicate NewId(s: Service, op: Op) {
    forall i | 0 <= i < |s.calls| :: !SameId(s.calls[i].op, op)
  }

  /** A Get is answered with the key's value at a moment at which this server had applied the operation. */
  predicate Enabled(s: Service, step: Step) {
    match step
    case Invoke(op) => NewId(s, op)
    case Propose(i) => i < |s.calls|
    case Apply(server) => server < |s.applied| && s.applied[server] < |s.log|
    case Crash(server) => server < |s.applied|
    case AnswerGet(server, i, p) =>
      && server < |s.applied| && i < |s.calls| && s.calls[i].op.task == Get
      && p <= s.applied[server] && p <= |s.log| && InLog(s.log[..p], s.calls[i].op)
    case AnswerPutAppend(server, i) =>
      && server < |s.applied| && i < |s.calls| && s.calls[i].op.task != Get
      && s.applied[server] <= |s.log| && InLog(s.log[..s.applied[server]], s.calls[i].op)
      && s.calls[i].op.key in ApplyAll(s.log[..s.applied[server]]).storage
    case Return(i, value) => i < |s.calls| && s.calls[i].result.None? && (i, value) in s.replies
  }

  function Do(s: Service, step: Step): Service
    requires Enabled(s, step)
  {
    match step
    case Invoke(op) => s.(now := s.now + 1, calls := s.calls + [Call(op, s.now, None)])
    case Propose(i) => s.(now := s.now + 1, log := s.log + [s.calls[i].op], born := s.born + [s.now])
    case Apply(server) => s.(applied := s.applied[server := s.applied[server] + 1])
    case Crash(server) => s.(applied := s.applied[server := 0])
    case AnswerGet(server, i, p) =>
      s.(replies := s.replies + {(i, Lookup(ApplyAll(s.log[..p]).storage, s.calls[i].op.key))})
    case AnswerPutAppend(server, i) => s.(replies := s.replies + {(i, "")})
    case Return(i, value) =>
      s.(now := s.now + 1, calls := s.calls[i := s.calls[i].(result := Some(Result(value, s.now)))])
  }

  function Start(servers: nat): Service {
    Service(0, [], [], seq(servers, _ => 0), [], {})
  }

  ghost predicate IsRun(states: seq<Service>, steps: seq<Step>, servers: nat) {
    && |states| == |steps| + 1 && states[0] == Start(servers)
    && forall k: nat | k < |steps| :: StepAt(states, steps, k)
  }

  ghost predicate StepAt(states: seq<Service>, steps: seq<Step>, k: nat)
    requires k < |steps| && |states| == |steps| + 1
  {
    Enabled(states[k], steps[k]) && states[k + 1] == Do(states[k], steps[k])
  }

  // ---- the invariant ----

  /** p is a prefix of the log that holds the operation, and for a Get gives this value. */
  ghost predicate Justified(log: seq<Op>, op: Op, value: string, p: nat) {
    && p <= |log| && InLog(log[..p], op)
    && (op.task == Get ==> value == Lookup(ApplyAll(log[..p]).storage, op.key))
  }

  /** The log only holds copies of operations invoked before. */
  ghost predicate EntryOk(s: Service, k: nat)
    requires k < |s.log| == |s.born|
  {
    && s.born[k] < s.now
    && exists c | 0 <= c < |s.calls| :: s.calls[c].op == s.log[k] && s.calls[c].time < s.born[k]
  }

  ghost predicate ReplyOk(s: Service, i: nat, value: string) {
    i < |s.calls| && exists p: nat :: Justified(s.log, s.calls[i].op, value, p)
  }

  /** A returned call was justified by a prefix that had entered the log before it returned. */
  ghost predicate CallOk(s: Service, i: nat)
    requires i < |s.calls| && |s.born| == |s.log|
  {
    var c := s.calls[i];
    && c.time < s.now
    && (c.result.Some? ==>
          && c.time < c.result.value.time < s.now
          && exists p: nat :: Justified(s.log, c.op, c.result.value.value, p)
              && (p > 0 ==> s.born[p - 1] < c.result.value.time))
  }

  ghost predicate Apart(s: Service, i: nat, j: nat)
    requires i < |s.calls| && j < |s.calls|
  {
    && (i != j ==> !SameId(s.calls[i].op, s.calls[j].op))
    && (s.calls[i].result.Some? ==> s.calls[i].result.value.time != s.calls[j].time)
  }

  ghost predicate Inv(s: Service) {
    && |s.born| == |s.log|
    && (forall k, l | 0 <= k < l < |s.born| :: s.born[k] < s.born[l])
    && (forall k: nat | k < |s.log| :: EntryOk(s, k))
    && (forall r | r in s.replies :: ReplyOk(s, r.0, r.1))
    && (forall i: nat | i < |s.calls| :: CallOk(s, i))
    && (forall i: nat, j: nat | i < |s.calls| && j < |s.calls| :: Apart(s, i, j))
    && (forall k | 0 <= k < |s.applied| :: s.applied[k] <= |s.log|)
  }

  lemma JustifiedGrow(log: seq<Op>, log': seq<Op>, op: Op, value: string, p: nat)
    requires Justified(log, op, value, p) && log <= log'
    ensures Justified(log', op, value, p)
  {
    assert log'[..p] == log[..p];
  }

  /** What is known of entries, replies and calls survives when the log grows and time passes. */
  lemma Kept(s: Service, s': Service)
    requires Inv(s) && |s'.born| == |s'.log| && s.log <= s'.log && s.born <= s'.born && s.now <= s'.now
    requires |s.calls| <= |s'.calls|
    requires forall i | 0 <= i < |s.calls| :: s'.calls[i].op == s.calls[i].op && s'.calls[i].time == s.calls[i].time
    ensures forall k: nat | k < |s.log| :: EntryOk(s', k)
    ensures forall r | r in s.replies :: ReplyOk(s', r.0, r.1)
    ensures forall i: nat | i < |s.calls| && s'.calls[i] == s.calls[i] :: CallOk(s', i)
  {
    forall k: nat | k < |s.log| ensures EntryOk(s', k) {
      assert EntryOk(s, k);
      var c :| 0 <= c < |s.calls| && s.calls[c].op == s.log[k] && s.calls[c].time < s.born[k];
      assert s'.calls[c].op == s'.log[k];
    }
    forall r | r in s.replies ensures ReplyOk(s', r.0, r.1) {
      assert ReplyOk(s, r.0, r.1);
      var p: nat :| Justified(s.log, s.calls[r.0].op, r.1, p);
      JustifiedGrow(s.log, s'.log, s.calls[r.0].op, r.1, p);
    }
    forall i: nat | i < |s.calls| && s'.calls[i] == s.calls[i] ensures CallOk(s', i) {
      assert CallOk(s, i);
      var c := s.calls[i];
      if c.result.Some? {
        var p: nat :| Justified(s.log, c.op, c.result.value.value, p)
            && (p > 0 ==> s.born[p - 1] < c.result.value.time);
        JustifiedGrow(s.log, s'.log, c.op, c.result.value.value, p);
        assert p > 0 ==> s'.born[p - 1] == s.born[p - 1];
      }
    }
  }

  lemma InvokeKeeps(s: Service, op: Op)
    requires Inv(s) && Enabled(s, Invoke(op))
    ensures Inv(Do(s, Invoke(op)))
  {
    hide Justified, InLog, ApplyAll, EntryOk, ReplyOk;
    var s' := Do(s, Invoke(op));
    Kept(s, s');
    forall i: nat, j: nat | i < |s'.calls| && j < |s'.calls| ensures Apart(s', i, j) {
      if i < |s.calls| {
        assert CallOk(s, i);
        if j < |s.calls| { assert Apart(s, i, j); }
      }
    }
  }

  lemma ProposeKeeps(s: Service, i: nat)
    requires Inv(s) && Enabled(s, Propose(i))
    ensures Inv(Do(s, Propose(i)))
  {
    hide Justified, InLog, ApplyAll, ReplyOk;
    var s' := Do(s, Propose(i));
    Kept(s, s');
    assert CallOk(s, i);
    forall k: nat | k < |s'.log| ensures EntryOk(s', k) && (k < |s.log| ==> s'.born[k] < s.now) {
      if k < |s.log| {
        assert EntryOk(s, k);
      } else {
        assert s'.calls[i].op == s'.log[k];
      }
    }
    forall a: nat, b: nat | a < |s.calls| && b < |s.calls| ensures Apart(s', a, b) {
      assert Apart(s, a, b);
    }
  }

  lemma ServerStepKeeps(s: Service, step: Step)
    requires Inv(s) && Enabled(s, step) && (step.Apply? || step.Crash? || step.AnswerGet? || step.AnswerPutAppend?)
    ensures Inv(Do(s, step))
  {
    hide InLog, ApplyAll, CallOk, EntryOk;
    var s' := Do(s, step);
    Kept(s, s');
    if step.AnswerGet? {
      var value := Lookup(ApplyAll(s.log[..step.p]).storage, s.calls[step.i].op.key);
      assert Justified(s.log, s.calls[step.i].op, value, step.p);
    }
    if step.AnswerPutAppend? {
      assert Justified(s.log, s.calls[step.i].op, "", s.applied[step.server]);
    }
    forall a: nat, b: nat | a < |s.calls| && b < |s.calls| ensures Apart(s', a, b) {
      assert Apart(s, a, b);
    }
  }

  lemma ReturnKeeps(s: Service, i: nat, value: string)
    requires Inv(s) && Enabled(s, Return(i, value))
    ensures Inv(Do(s, Return(i, value)))
  {
    hide InLog, ApplyAll;
    var s' := Do(s, Return(i, value));
    Kept(s, s');
    assert CallOk(s, i) && ReplyOk(s, i, value);
    var p: nat :| Justified(s.log, s.calls[i].op, value, p);
    if p > 0 {
      assert EntryOk(s, p - 1);
    }
    assert CallOk(s', i);
    forall a: nat, b: nat | a < |s.calls| && b < |s.calls| ensures Apart(s', a, b) {
      assert Apart(s, a, b) && CallOk(s, b);
    }
  }

  lemma StepKeeps(s: Service, step: Step)
    requires Inv(s) && Enabled(s, step)
    ensures Inv(Do(s, step))
  {
    hide *;
    match step {
      case Invoke(op) => InvokeKeeps(s, op);
      case Propose(i) => ProposeKeeps(s, i);
      case Return(i, value) => ReturnKeeps(s, i, value);
      case _ => ServerStepKeeps(s, step);
    }
  }

  lemma {:induction false} RunInv(states: seq<Service>, steps: seq<Step>, servers: nat, k: nat)
    requires IsRun(states, steps, servers) && k < |states|
    ensures Inv(states[k])
  {
    if k > 0 {
      RunInv(states, steps, servers, k - 1);
      assert StepAt(states, steps, k - 1);
      StepKeeps(states[k - 1], steps[k - 1]);
    }
  }

  // ---- the handlers take the steps of the service ----

  /** The server object is this server of the service. */
  ghost predicate Mirrors(server: KVServer, s: Service, host: nat)
    reads server
  {
    && server.Valid() && host < |s.applied| && s.applied[host] <= |s.log|
    && server.log == s.log[..s.applied[host]]
  }

  /** What Get answers, as its contract has it, is an answer the service may give. */
  lemma GetAnswers(server: KVServer, s: Service, host: nat, i: nat, from: nat, value: string)
    requires Mirrors(server, s, host) && i < |s.calls| && s.calls[i].op.task == Get
    requires server.ReadDuring(from, s.calls[i].op, value)
    ensures exists p: nat :: Enabled(s, AnswerGet(host, i, p)) && (i, value) in Do(s, AnswerGet(host, i, p)).replies
  {
    hide ApplyAll, InLog;
    var op := s.calls[i].op;
    var p: nat :| from <= p <= |server.log| && InLog(server.log[..p], op)
                  && value == Lookup(ApplyAll(server.log[..p]).storage, op.key);
    assert server.log[..p] == s.log[..p];
    assert Enabled(s, AnswerGet(host, i, p));
  }

  /** And so is the OK of PutAppend. */
  lemma PutAppendAnswers(server: KVServer, s: Service, host: nat, i: nat)
    requires Mirrors(server, s, host) && i < |s.calls| && s.calls[i].op.task != Get
    requires InLog(server.log, s.calls[i].op) && s.calls[i].op.key in ApplyAll(server.log).storage
    ensures Enabled(s, AnswerPutAppend(host, i)) && (i, "") in Do(s, AnswerPutAppend(host, i)).replies
  {}

  /** In a reachable state its error branch is dead: the operation it looks for has one meaning only. */
  lemma NoIdClash(server: KVServer, s: Service, host: nat, i: nat)
    requires Inv(s) && Mirrors(server, s, host) && i < |s.calls|
    ensures Copies(server.log) && forall o | o in server.log && SameId(o, s.calls[i].op) :: o == s.calls[i].op
  {
    hide InLog, ApplyAll, CallOk, ReplyOk;
    forall k: nat | k < |server.log| ensures exists c: nat :: c < |s.calls| && s.calls[c].op == server.log[k] {
      assert EntryOk(s, k);
    }
    forall a, b | 0 <= a < |s.calls| && 0 <= b < |s.calls| && SameId(s.calls[a].op, s.calls[b].op) ensures a == b {
      assert Apart(s, a, b);
    }
  }

  /** The next message of the apply channel is the service's Apply step. */
  method ApplyNext(server: KVServer, ghost s: Service, ghost host: nat, op: Op)
    requires Mirrors(server, s, host) && s.applied[host] < |s.log| && op == s.log[s.applied[host]]
    modifies server
    ensures Enabled(s, Apply(host)) && Mirrors(server, Do(s, Apply(host)), host)
  {
    server.Apply(op);
  }
}
