/** No call of the service is ever stuck, and a server that crashed starts over from nothing. */
module KvProgress {
  import opened KvModel
  import opened KvServer
  import opened KvCluster

  /** These steps lead from s to the last of these states. */
  ghost predicate Leads(s: Service, states: seq<Service>, steps: seq<KvCluster.Step>) {
    && |states| == |steps| + 1 && states[0] == s
    && forall k: nat | k < |steps| :: StepAt(states, steps, k)
  }

  lemma Further(s: Service, states: seq<Service>, steps: seq<KvCluster.Step>, step: KvCluster.Step)
    returns (states': seq<Service>)
    requires Leads(s, states, steps) && Enabled(states[|steps|], step)
    ensures Leads(s, states', steps + [step]) && states'[|steps| + 1] == Do(states[|steps|], step)
  {
    hide Do, Enabled;
    states' := states + [Do(states[|steps|], step)];
    forall k: nat | k < |steps| + 1 ensures StepAt(states', steps + [step], k) {
      if k < |steps| {
        assert StepAt(states, steps, k);
      }
    }
  }

  /** A server can catch up with the log. */
  lemma {:induction false} CatchUp(s: Service, states: seq<Service>, steps: seq<KvCluster.Step>, server: nat)
    returns (states': seq<Service>, steps': seq<KvCluster.Step>)
    requires Leads(s, states, steps) && Inv(states[|steps|]) && server < |states[|steps|].applied|
    ensures Leads(s, states', steps')
    ensures var (e, e') := (states[|steps|], states'[|steps'|]);
            && Inv(e') && e' == e.(applied := e'.applied)
            && |e'.applied| == |e.applied| && e'.applied[server] == |e.log|
    decreases |states[|steps|].log| - states[|steps|].applied[server]
  {
    hide Inv;
    var e := states[|steps|];
    if e.applied[server] >= |e.log| {
      assert e.applied[server] <= |e.log| by { AppliedInLog(e, server); }
      states', steps' := states, steps;
    } else {
      var next := Further(s, states, steps, Apply(server));
      StepKeeps(e, Apply(server));
      states', steps' := CatchUp(s, next, steps + [Apply(server)], server);
    }
  }

  lemma AppliedInLog(s: Service, server: nat)
    requires Inv(s) && server < |s.applied|
    ensures s.applied[server] <= |s.log|
  {}

  /** The log of a service holds copies of operations that have one meaning each. */
  lemma LogCopies(s: Service)
    requires Inv(s)
    ensures Copies(s.log)
  {
    hide InLog, ApplyAll, CallOk, ReplyOk;
    forall k: nat | k < |s.log| ensures exists c: nat :: c < |s.calls| && s.calls[c].op == s.log[k] {
      assert EntryOk(s, k);
    }
    forall a, b | 0 <= a < |s.calls| && 0 <= b < |s.calls| && SameId(s.calls[a].op, s.calls[b].op) ensures a == b {
      assert Apart(s, a, b);
    }
  }

  /** What a server that is up to date with an operation can answer. */
  lemma CanAnswer(s: Service, server: nat, i: nat) returns (step: KvCluster.Step, value: string)
    requires Inv(s) && server < |s.applied| && s.applied[server] == |s.log| && i < |s.calls| && s.calls[i].op in s.log
    ensures Enabled(s, step) && (i, value) in Do(s, step).replies && Do(s, step).calls == s.calls
  {
    var op := s.calls[i].op;
    var k :| 0 <= k < |s.log| && s.log[k] == op;
    assert s.log[..|s.log|] == s.log && SameId(s.log[k], op);
    LogCopies(s);
    hide ApplyAll, Inv, Copies;
    if op.task == Task.Get {
      step, value := AnswerGet(server, i, |s.log|), Lookup(ApplyAll(s.log).storage, op.key);
    } else {
      AppliedKeyPresent(s.log, op);
      step, value := AnswerPutAppend(server, i), "";
    }
  }

  /** Whatever happened before, every call that has not returned can still return, by way of any server. */
  lemma CallCanReturn(s: Service, server: nat, i: nat) returns (states: seq<Service>, steps: seq<KvCluster.Step>)
    requires Inv(s) && server < |s.applied| && i < |s.calls| && s.calls[i].result.None?
    ensures Leads(s, states, steps)
    ensures i < |states[|steps|].calls| && states[|steps|].calls[i].result.Some?
  {
    hide Inv;
    states := Further(s, [s], [], Propose(i));
    StepKeeps(s, Propose(i));
    states, steps := CatchUp(s, states, [Propose(i)], server);
    var e := states[|steps|];
    assert e.log[|e.log| - 1] == s.calls[i].op;
    var step, value := CanAnswer(e, server, i);
    states := Further(s, states, steps, step);
    steps := steps + [step];
    states := Further(s, states, steps, Return(i, value));
    steps := steps + [Return(i, value)];
  }

  /** A crash takes from a server all that it had applied, and from the rest of the service nothing. */
  lemma CrashForgets(s: Service, server: nat)
    requires Inv(s) && server < |s.applied|
    ensures Enabled(s, Crash(server))
    ensures var s' := Do(s, Crash(server));
            && ApplyAll(s'.log[..s'.applied[server]]) == EMPTY && s' == s.(applied := s'.applied)
            && |s'.applied| == |s.applied|
            && forall j | 0 <= j < |s.applied| && j != server :: s'.applied[j] == s.applied[j]
  {}
}
