/** Building blocks of concrete runs: elections, commands and appends, step by step. */
module RaftScenarios {
  import opened RaftServer
  import opened RaftCluster
  import opened RaftElection
  import opened RaftRuns
  import opened RaftLogs
  import opened Backoff
  import opened BackoffRuns

  // ---- reachable states ----

  /** Some run with this end; its append regions fit. */
  ghost predicate Reachable(c: Cluster, n: nat) {
    exists r: Execution :: IsRun(r, n) && AppendsFit(r) && r.states[|r.steps|] == c
  }

  lemma StartReachable(n: nat)
    ensures Reachable(Start(n), n)
  {
    var r := Execution([Start(n)], []);
    assert IsRun(r, n);
  }

  lemma ReachableOk(c: Cluster, n: nat)
    requires Reachable(c, n)
    ensures Inv(c) && WellFormed(c) && AllTablesOk(c)
  {
    var r: Execution :| IsRun(r, n) && AppendsFit(r) && r.states[|r.steps|] == c;
    RunInv(r, n, |r.steps|);
    RunTables(r, n, |r.steps|);
  }

  /** One more step of a run. */
  lemma Longer(r: Execution, n: nat, step: Step) returns (longer: Execution)
    requires IsRun(r, n) && WellFormed(r.states[|r.steps|]) && Enabled(r.states[|r.steps|], step)
    ensures IsRun(longer, n) && longer.steps == r.steps + [step]
    ensures longer.states == r.states + [Do(r.states[|r.steps|], step)]
  {
    hide Do, Enabled, WellFormed;
    longer := Execution(r.states + [Do(r.states[|r.steps|], step)], r.steps + [step]);
    forall k: nat | k < |longer.steps| ensures StepAt(longer, k) {
      if k < |r.steps| {
        assert StepAt(r, k);
      }
    }
  }

  lemma Extend(c: Cluster, n: nat, step: Step)
    requires Reachable(c, n) && WellFormed(c) && Enabled(c, step) && AppendFits(c, step)
    ensures Reachable(Do(c, step), n) && WellFormed(Do(c, step))
  {
    hide Do, Enabled, WellFormed, Inv, AllTablesOk, AppendFits;
    var r: Execution :| IsRun(r, n) && AppendsFit(r) && r.states[|r.steps|] == c;
    var longer := Longer(r, n, step);
    forall k | 0 <= k < |longer.steps| ensures AppendFits(longer.states[k], longer.steps[k]) {
      if k < |r.steps| {
        assert AppendFits(r.states[k], r.steps[k]);
      }
    }
    ReachableOk(Do(c, step), n);
  }

  // ---- an election ----

  /** v has not seen the term after i's, and i's log is good enough for its vote. */
  predicate WouldVote(c: Cluster, i: nat, v: nat)
    requires WellFormed(c) && i < |c.hosts| && v < |c.hosts|
  {
    c.hosts[v].s.term <= c.hosts[i].s.term && UpToDate(c.hosts[v].s.log, VoteArgs(BecomeCandidate(c.hosts[i].s)))
  }

  /** The candidacy goes on: candidate i asked all with this request, and has so many votes. */
  ghost predicate Running(c: Cluster, i: nat, request: RequestVoteArgs, heard: set<nat>, votes: nat) {
    && i < |c.hosts| && c.hosts[i].s.role == Cand && c.hosts[i].s.term == request.term
    && VoteRequest(i, request) in c.voteRequests
    && c.hosts[i].attempt.Some? && c.hosts[i].attempt.value.term == request.term
    && c.hosts[i].attempt.value.heard == heard && c.hosts[i].attempt.value.votes == votes
  }

  /** Nothing but what a vote changes is different: server v has moved to the new term. */
  ghost predicate VotedIn(c: Cluster, c': Cluster, i: nat, v: nat, term: int) {
    && |c'.hosts| == |c.hosts| && i < |c.hosts| && v < |c.hosts|
    && c'.hosts[i].s == c.hosts[i].s
    && c'.hosts[v].s.log == c.hosts[v].s.log && c'.hosts[v].s.term == term && c'.hosts[v].s.role == Follower
    && (forall j | 0 <= j < |c.hosts| && j != i && j != v :: c'.hosts[j] == c.hosts[j])
    && c'.appendReplies == c.appendReplies
  }

  /** A vote asked for, granted and counted. */
  lemma Vote(c: Cluster, n: nat, i: nat, v: nat, request: RequestVoteArgs, heard: set<nat>, votes: nat)
    returns (c': Cluster)
    requires Reachable(c, n) && WellFormed(c) && Running(c, i, request, heard, votes)
    requires v < |c.hosts| && v != i && v !in heard
    requires c.hosts[v].s.term < request.term && request.peerId == i && UpToDate(c.hosts[v].s.log, request)
    ensures Reachable(c', n) && WellFormed(c')
    ensures Running(c', i, request, heard + {v}, votes + 1) && VotedIn(c, c', i, v, request.term)
  {
    HostFacts(c, v);
    hide Reachable, WellFormed, UpToDate;
    var asked := VoteRequest(i, request);
    Extend(c, n, AnswerVote(v, asked));
    var d := Do(c, AnswerVote(v, asked));
    var reply := HandleRequestVote(c.hosts[v].s, request).1;
    var vote := VoteReply(v, i, request.term, reply);
    Extend(d, n, CountVote(vote));
    c' := Do(d, CountVote(vote));
  }

  predicate Won(s: Server, s': Server) {
    s'.role == Leader && s'.term == s.term + 1 && s'.log == SetLastTerm(s.log, s.term + 1)
  }

  predicate Voted(s: Server, s': Server, term: int) {
    s'.role == Follower && s'.term == term && s'.log == s.log
  }

  /** Server i is elected by v and w, one of three in five. */
  lemma Elect(c: Cluster, i: nat, v: nat, w: nat) returns (c': Cluster)
    requires Reachable(c, 5) && WellFormed(c) && |c.hosts| == 5
    requires i < 5 && v < 5 && w < 5 && i != v && v != w && w != i
    requires c.hosts[i].s.role != Leader && WouldVote(c, i, v) && WouldVote(c, i, w)
    ensures Reachable(c', 5) && WellFormed(c') && |c'.hosts| == 5
    ensures Won(c.hosts[i].s, c'.hosts[i].s)
    ensures Voted(c.hosts[v].s, c'.hosts[v].s, c.hosts[i].s.term + 1)
    ensures Voted(c.hosts[w].s, c'.hosts[w].s, c.hosts[i].s.term + 1)
    ensures forall j | 0 <= j < 5 && j != i && j != v && j != w :: c'.hosts[j] == c.hosts[j]
    ensures c'.appendReplies == c.appendReplies
  {
    hide Reachable, WellFormed, UpToDate;
    HostFacts(c, i);
    Extend(c, 5, StartCandidacy(i));
    var c0 := Do(c, StartCandidacy(i));
    var request := VoteArgs(BecomeCandidate(c.hosts[i].s));
    var c1 := Vote(c0, 5, i, v, request, {}, 1);
    var c2 := Vote(c1, 5, i, w, request, {v}, 2);
    Extend(c2, 5, Win(i));
    c' := Do(c2, Win(i));
  }

  // ---- commands and appends ----

  lemma Take(c: Cluster, n: nat, i: nat, command: Command) returns (c': Cluster)
    requires Reachable(c, n) && WellFormed(c) && i < |c.hosts| && c.hosts[i].s.role == Leader
    ensures Reachable(c', n) && WellFormed(c') && |c'.hosts| == |c.hosts|
    ensures c'.hosts[i].s == AppendCommand(c.hosts[i].s, command)
    ensures forall j | 0 <= j < |c.hosts| && j != i :: c'.hosts[j] == c.hosts[j]
    ensures c'.appendReplies == c.appendReplies
  {
    hide Reachable, WellFormed;
    Extend(c, n, BeginStart(i, command));
    var d := Do(c, BeginStart(i, command));
    Extend(d, n, StartCommand(i, command));
    c' := Do(d, StartCommand(i, command));
  }

  /** The leader's whole log is sent and taken over; its reply may arrive at any later time. */
  lemma Replicate(c: Cluster, n: nat, i: nat, j: nat) returns (c': Cluster, answer: AppendReply)
    requires Reachable(c, n) && WellFormed(c) && i < |c.hosts| && j < |c.hosts| && i != j
    requires c.hosts[i].s.role == Leader && c.hosts[j].s.term <= c.hosts[i].s.term
    ensures Reachable(c', n) && WellFormed(c') && |c'.hosts| == |c.hosts|
    ensures c'.hosts[j].s.log == c.hosts[i].s.log && c'.hosts[j].s.term == c.hosts[i].s.term
        && c'.hosts[j].s.role == Follower
    ensures forall k | 0 <= k < |c.hosts| && k != j :: c'.hosts[k] == c.hosts[k]
    ensures c.appendReplies <= c'.appendReplies && answer in c'.appendReplies
    ensures answer.from == j && answer.to == i && answer.args.job == Append && answer.reply.success
    ensures MatchedBy(answer.args) == |c.hosts[i].s.log|
    ensures c'.hosts[j].pending == c.hosts[j].pending
  {
    hide Reachable, WellFormed, WellIndexed, AppendArgsFrom, HandleAppendEntries, ArgsOk;
    LogTakenInRun(c, n, i, j);
    Extend(c, n, SendAppend(i, j, 0));
    var d := Do(c, SendAppend(i, j, 0));
    c', answer := Deliver(d, n, AppendRequest(i, j, AppendArgsFrom(c.hosts[i].s, 0)));
  }

  lemma LogTakenInRun(c: Cluster, n: nat, i: nat, j: nat)
    requires Reachable(c, n) && WellFormed(c) && i < |c.hosts| && j < |c.hosts| && i != j
    requires c.hosts[i].s.role == Leader && c.hosts[j].s.term <= c.hosts[i].s.term
    ensures WellIndexed(c.hosts[i].s.log) && WellIndexed(c.hosts[j].s.log) && 0 <= c.hosts[j].s.lastApply
    ensures ArgsOk(AppendArgsFrom(c.hosts[i].s, 0)) && WholeLogTakenBy(c.hosts[i].s, c.hosts[j].s)
  {
    hide Reachable;
    HostFacts(c, i);
    HostFacts(c, j);
    ReachableOk(c, n);
    LeaderComparable(c, i, j);
    FromTheStart(c.hosts[i].s);
    WholeLogTaken(c.hosts[i].s, c.hosts[j].s);
  }

  predicate WholeLogTakenBy(s: Server, f: Server)
    requires WellIndexed(s.log) && ArgsOk(AppendArgsFrom(s, 0)) && WellIndexed(f.log) && 0 <= f.lastApply
  {
    var (args, (f', reply)) := (AppendArgsFrom(s, 0), HandleAppendEntries(f, AppendArgsFrom(s, 0)));
    && args.job == Append && MatchedBy(args) == |s.log|
    && f'.log == s.log && f'.term == s.term && f'.role == Follower && reply.success
  }

  /** An append in flight is answered. */
  lemma Deliver(c: Cluster, n: nat, append: AppendRequest) returns (c': Cluster, answer: AppendReply)
    requires Reachable(c, n) && WellFormed(c) && append in c.appendRequests && append.to < |c.hosts|
    ensures Reachable(c', n) && WellFormed(c') && |c'.hosts| == |c.hosts|
    ensures ArgsOk(append.args)
    ensures var (f, reply) := HandleAppendEntries(c.hosts[append.to].s, append.args);
            && c'.hosts[append.to].s == f && c'.hosts[append.to].pending == c.hosts[append.to].pending
            && answer == AppendReply(append.to, append.from, append.args, reply)
    ensures forall k | 0 <= k < |c.hosts| && k != append.to :: c'.hosts[k] == c.hosts[k]
    ensures c'.appendReplies == c.appendReplies + {answer}
  {
    HostFacts(c, append.to);
    assert ArgsOk(append.args);
    hide Reachable, WellFormed, HandleAppendEntries, ArgsOk;
    Extend(c, n, AnswerAppend(append));
    c' := Do(c, AnswerAppend(append));
    answer := AppendReply(append.to, append.from, append.args,
                          HandleAppendEntries(c.hosts[append.to].s, append.args).1);
  }

  /** A server in no later term takes a leader's whole log over. */
  lemma WholeLogTaken(s: Server, f: Server)
    requires Comparable(s, f) && WellIndexed(s.log) && ArgsOk(AppendArgsFrom(s, 0))
    requires WellIndexed(f.log) && 0 <= f.lastApply
    ensures WholeLogTakenBy(s, f)
  {
    hide AppendArgsFrom, HandleAppendEntries;
    SentFields(s, 0);
    ComparableTerms(s, f);
    RoundEffect(s, f, 0, AppendArgsFrom(s, 0));
    AppendEffect(f, AppendArgsFrom(s, 0));
  }

  lemma FromTheStart(s: Server)
    requires WellIndexed(s.log) && s.commitIndex >= 0
    ensures ArgsOk(AppendArgsFrom(s, 0)) && AppendArgsFrom(s, 0).entries == s.log
  {}

  lemma ComparableTerms(s: Server, f: Server)
    requires Comparable(s, f)
    ensures f.term <= s.term
  {}

  /** A server that has no log votes for anyone. */
  lemma EmptyLogVotes(c: Cluster, i: nat, v: nat)
    requires WellFormed(c) && i < |c.hosts| && v < |c.hosts|
    requires c.hosts[v].s.term <= c.hosts[i].s.term && c.hosts[v].s.log == []
    requires c.hosts[i].s.log != [] ==> c.hosts[i].s.log[|c.hosts[i].s.log| - 1].term > 0
    ensures WouldVote(c, i, v)
  {
    LastIndexIsLength(c.hosts[i].s.log);
  }

  lemma AtStart() returns (c: Cluster)
    ensures Reachable(c, 5) && WellFormed(c) && |c.hosts| == 5
    ensures forall j | 0 <= j < 5 :: Fresh(c.hosts[j].s)
    ensures WouldVote(c, 0, 1) && WouldVote(c, 0, 2)
  {
    hide Inv, AllTablesOk;
    c := Start(5);
    StartReachable(5);
    ReachableOk(c, 5);
    hide Reachable, WellFormed;
    forall j | 0 <= j < 5 ensures Fresh(c.hosts[j].s) {
      assert c.hosts[j] == FreshHost(j, 5);
    }
    hide Start;
    EmptyLogVotes(c, 0, 1);
    EmptyLogVotes(c, 0, 2);
  }

  predicate Fresh(s: Server) {
    s.log == [] && s.term == 0 && s.role == Follower
  }

  /** Servers 2, 3 and 4 know nothing yet. */
  predicate Blank(c: Cluster) {
    |c.hosts| == 5 && forall j | 2 <= j < 5 :: var s := c.hosts[j].s; s.log == [] && s.term <= 1 && s.role == Follower
  }

  /** Term 1: server 0 wins it, */
  lemma FirstElection() returns (c: Cluster)
    ensures Reachable(c, 5) && WellFormed(c) && Blank(c)
    ensures c.hosts[0].s.role == Leader && c.hosts[0].s.log == []
    ensures c.hosts[0].s.term == c.hosts[1].s.term == c.hosts[2].s.term == 1
  {
    hide Reachable, WellFormed, WouldVote;
    var c0 := AtStart();
    c := Elect(c0, 0, 1, 2);
  }
}
