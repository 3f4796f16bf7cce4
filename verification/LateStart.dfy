/**
 * A run in which Log Matching fails: a call of Start finds its server leading, but appends only after the server has
 * followed the leader of a later term, and stamps the entry with that term.
 */
module LateStart {
  import opened RaftServer
  import opened RaftCluster
  import opened RaftLogs
  import opened RaftTheorems
  import opened RaftScenarios

  /** Two servers hold different entries of one term at one index. */
  ghost predicate Clash(c: Cluster, a: nat, b: nat, index: nat) {
    && a < |c.hosts| && b < |c.hosts|
    && var (x, y) := (c.hosts[a].s.log, c.hosts[b].s.log);
       1 <= index <= |x| && index <= |y| && x[index - 1].term == y[index - 1].term && x[index - 1] != y[index - 1]
  }

  /** Server 0 leads term 1 and a call of Start passes its check there; */
  lemma CallPending() returns (c: Cluster)
    ensures Reachable(c, 5) && WellFormed(c) && Blank(c) && "x" in c.hosts[0].pending
    ensures c.hosts[0].s.term == c.hosts[2].s.term == 1 && c.hosts[0].s.log == []
  {
    hide Reachable, WellFormed;
    var c0 := FirstElection();
    Extend(c0, 5, BeginStart(0, "x"));
    c := Do(c0, BeginStart(0, "x"));
  }

  /** server 2 wins term 2, takes a command, replicates it to server 0, and takes another. */
  lemma LeaderElsewhere() returns (c: Cluster)
    ensures Reachable(c, 5) && WellFormed(c) && |c.hosts| == 5 && "x" in c.hosts[0].pending
    ensures c.hosts[0].s.term == c.hosts[2].s.term == 2 && c.hosts[0].s.role == Follower
    ensures |c.hosts[0].s.log| == 1 && |c.hosts[2].s.log| == 2
    ensures c.hosts[2].s.log[1].term == 2 && c.hosts[2].s.log[1].command == "y"
  {
    var c0 := CallPending();
    EmptyLogVotes(c0, 2, 3);
    EmptyLogVotes(c0, 2, 4);
    hide Reachable, WellFormed, WouldVote;
    var c1 := Elect(c0, 2, 3, 4);
    var c2 := Take(c1, 5, 2, "d");
    var c3, answer := Replicate(c2, 5, 2, 0);
    c := Take(c3, 5, 2, "y");
  }

  /** Now the pending call appends: Log Matching fails. */
  lemma LogMatchingFails() returns (r: Execution)
    ensures IsRun(r, 5) && Clash(r.states[|r.steps|], 0, 2, 2)
    ensures !AppendsFit(r) && forall k | 0 <= k < |r.steps| - 1 :: AppendFits(r.states[k], r.steps[k])
  {
    hide WellFormed;
    var c := LeaderElsewhere();
    var before: Execution :| IsRun(before, 5) && AppendsFit(before) && before.states[|before.steps|] == c;
    r := Longer(before, 5, StartCommand(0, "x"));
    forall k | 0 <= k < |r.steps| - 1 ensures AppendFits(r.states[k], r.steps[k]) {
      assert AppendFits(before.states[k], before.steps[k]);
    }
    if AppendsFit(r) {
      LogsIdentical(r, 5, |r.steps|, 0, 2, 2);
    }
  }
}
