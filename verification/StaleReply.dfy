/**
 * A run in which the resend loop panics: a success reply of a leader's first term reaches it in its second, when its
 * log has become shorter than what the reply says its peer holds.
 */
module StaleReply {
  import opened RaftServer
  import opened RaftCluster
  import opened RaftElection
  import opened RaftRuns
  import opened RaftLogs
  import opened RaftNode
  import opened Backoff
  import opened BackoffRuns
  import opened RaftScenarios

  lemma TakeThree(c: Cluster, n: nat, i: nat) returns (c': Cluster)
    requires Reachable(c, n) && WellFormed(c) && i < |c.hosts| && c.hosts[i].s.role == Leader && c.hosts[i].s.log == []
    ensures Reachable(c', n) && WellFormed(c') && |c'.hosts| == |c.hosts|
    ensures c'.hosts[i].s.role == Leader && c'.hosts[i].s.term == c.hosts[i].s.term && |c'.hosts[i].s.log| == 3
    ensures forall j | 0 <= j < |c.hosts| && j != i :: c'.hosts[j] == c.hosts[j]
  {
    hide Reachable, WellFormed;
    c' := Take(c, n, i, "a");
    c' := Take(c', n, i, "b");
    c' := Take(c', n, i, "c");
  }

  /** takes three commands, and sends them to server 1 alone. */
  lemma FirstTerm() returns (c: Cluster, answer: AppendReply)
    ensures Reachable(c, 5) && WellFormed(c) && Blank(c)
    ensures c.hosts[0].s.term == c.hosts[1].s.term == c.hosts[2].s.term == 1 && |c.hosts[1].s.log| == 3
    ensures Stale(c, answer)
  {
    hide Reachable, WellFormed;
    var c0 := FirstElection();
    var c1 := TakeThree(c0, 5, 0);
    c, answer := Replicate(c1, 5, 0, 1);
  }

  /** The answer of server 1 to server 0 that three entries match. */
  predicate Stale(c: Cluster, answer: AppendReply) {
    && answer in c.appendReplies && answer.from == 1 && answer.to == 0 && answer.args.job == Append
    && answer.reply.success && MatchedBy(answer.args) == 3
  }

  /** Term 2: server 2 wins it with servers 3 and 4, takes one command and sends it to server 0. */
  lemma SecondTerm() returns (c: Cluster, answer: AppendReply)
    ensures Reachable(c, 5) && WellFormed(c) && |c.hosts| == 5 && Stale(c, answer)
    ensures c.hosts[0].s.role == Follower && c.hosts[0].s.term == 2
    ensures |c.hosts[0].s.log| == 1 && c.hosts[0].s.log[0].term == 2
    ensures c.hosts[3].s.log == c.hosts[4].s.log == [] && c.hosts[3].s.term == c.hosts[4].s.term == 2
    ensures |c.hosts[1].s.log| == 3 && c.hosts[1].s.term == 1
  {
    var c0;
    c0, answer := FirstTerm();
    EmptyLogVotes(c0, 2, 3);
    EmptyLogVotes(c0, 2, 4);
    hide Reachable, WellFormed, WouldVote;
    var c1 := Elect(c0, 2, 3, 4);
    var c2 := Take(c1, 5, 2, "d");
    var later;
    c, later := Replicate(c2, 5, 2, 0);
  }

  /** The condition under which StartOnePeerAppend panics if its first call is answered before further commands. */
  predicate PanicAhead(s: Server, f: Server, peer: nat) {
    && s.role == Leader && f.term <= s.term && Alive(s, peer)
    && peer in s.matchIndex && Min(|f.log|, s.matchIndex[peer] - 1) > |s.log|
  }

  /** Term 3: server 0 leads again, and now the answer of term 1 arrives. */
  lemma PanicReachable() returns (c: Cluster)
    ensures Reachable(c, 5) && |c.hosts| == 5 && PanicAhead(c.hosts[0].s, c.hosts[1].s, 1)
  {
    var c0, answer := SecondTerm();
    EmptyLogVotes(c0, 0, 3);
    EmptyLogVotes(c0, 0, 4);
    hide Reachable, WellFormed, WouldVote, CommitAndApply;
    var c1 := Elect(c0, 0, 3, 4);
    HostFacts(c1, 0);
    Extend(c1, 5, RecordMatch(answer));
    var s := Matched(c1.hosts[0].s, 1, 3);
    MatchedKeeps(c1.hosts[0].s, 1, 3);
    CommitEffect(s);
    c := Do(c1, RecordMatch(answer));
  }

  function NoCommands(k: nat): seq<Command> {
    []
  }

  /** The leader after any number of calls during which nothing is asked of it. */
  lemma {:induction false} IdleLeader(s: Server, k: nat)
    ensures LeaderAfter(s, NoCommands, k) == s
  {
    if k > 0 {
      IdleLeader(s, k - 1);
    }
  }

  /** And there the loop does panic, once its first call is answered. */
  method PanicInRun(leader: Raft, ghost c: Cluster, follower: Server, answered: nat -> bool)
    returns (outcome: Outcome, calls: nat, args: AppendEntriesArgs)
    requires Reachable(c, 5) && |c.hosts| == 5 && PanicAhead(c.hosts[0].s, c.hosts[1].s, 1)
    requires leader.View() == c.hosts[0].s && follower == c.hosts[1].s && answered(0)
    modifies leader
    ensures outcome == Panicked
  {
    ReachableOk(c, 5);
    HostFacts(c, 0);
    LeaderComparable(c, 0, 1);
    TablesAt(c, 0);
    LeaderKnows(leader.View(), 1);
    ObjectValid(leader);
    hide Inv, WellFormed, AllTablesOk, Comparable, LeaderAfter, TablesOk, Raft.Valid;
    forall k: nat ensures Comparable(LeaderAfter(leader.View(), NoCommands, k), follower) {
      IdleLeader(leader.View(), k);
    }
    IdleLeader(leader.View(), 1);
    outcome, calls, args := StartOnePeerAppend(leader, 1, _ => follower, answered, NoCommands);
  }
}
