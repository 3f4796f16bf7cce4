/** Who gets a vote: what the handler compares, and what a vote says about the two logs in a run. */
module RaftVotes {
  import opened RaftServer
  import opened RaftCluster
  import opened RaftRuns
  import opened RaftLogs

  function LastTerm(log: Log): int {
    if log == [] then 0 else log[|log| - 1].term
  }

  /** A log that ends like this may get the vote of a server with that log. */
  predicate AsGood(lastTerm: int, length: int, log: Log) {
    lastTerm > LastTerm(log) || (lastTerm == LastTerm(log) && length >= |log|)
  }

  /** It has not voted in the term of the request. */
  predicate FreeToVote(s: Server, args: RequestVoteArgs) {
    args.term > s.term || s.votedFor == NOBODY
  }

  /** Only a server that is free to vote grants, and it refuses exactly the logs that are not as good as its own. */
  lemma VoteExactly(s: Server, args: RequestVoteArgs)
    requires WellIndexed(s.log)
    ensures var (s', reply) := HandleRequestVote(s, args);
            && (reply.voteGranted <==> FreeToVote(s, args) && AsGood(args.lastLogTerm, args.lastLogIndex, s.log))
            && s'.votedFor == (if reply.voteGranted then args.peerId
                               else if args.term > s.term then NOBODY else s.votedFor)
            && s'.term == (if args.term > s.term then args.term else s.term)
            && s'.role == (if args.term > s.term then Follower else s.role)
            && s'.log == s.log && reply.term == s'.term && reply.role == s'.role
  {
    LastIndexIsLength(s.log);
  }

  /** A server that never persisted anything counts as having voted in term 0, and there grants to nobody. */
  lemma FirstVote(i: nat, n: nat, args: RequestVoteArgs)
    ensures var (s', reply) := HandleRequestVote(FreshHost(i, n).s, args);
            reply.voteGranted <==> args.term > 0 && AsGood(args.lastLogTerm, args.lastLogIndex, [])
  {
    VoteExactly(FreshHost(i, n).s, args);
  }

  /** What a candidate asks with: the next term, itself, and where its log ends. */
  lemma CandidacyAsks(s: Server)
    requires WellIndexed(s.log)
    ensures var (c, args) := (BecomeCandidate(s), VoteArgs(BecomeCandidate(s)));
            && c.term == s.term + 1 && c.votedFor == s.me && c.role == Cand
            && c == s.(role := c.role, term := c.term, votedFor := c.votedFor)
            && args.term == s.term + 1 && args.peerId == s.me
            && args.lastLogTerm == LastTerm(s.log) && args.lastLogIndex == |s.log|
  {
    LastIndexIsLength(s.log);
  }

  // ---- counting ----

  /** What a vote reply does to the server that asked. */
  lemma ReplyExactly(c: Cluster, vote: VoteReply)
    requires WellFormed(c) && Enabled(c, CountVote(vote))
    ensures var (h, h') := (c.hosts[vote.to], Do(c, CountVote(vote)).hosts[vote.to]);
            if vote.reply.term > h.s.term && h.s.role != Follower then
              h'.s == h.s.(term := vote.reply.term, role := Follower, isLeader := false) && h'.attempt == h.attempt
            else
              && h'.s == h.s
              && (h.attempt.Some? && h.attempt.value.term == vote.requested && vote.from !in h.attempt.value.heard ==>
                    && h'.attempt.Some? && h'.attempt.value.heard == h.attempt.value.heard + {vote.from}
                    && h'.attempt.value.votes ==
                       h.attempt.value.votes + if vote.reply.voteGranted && h.s.role == Cand then 1 else 0)
  {
    hide WellFormed;
  }

  // ---- runs ----

  /** Step t of the run is the candidacy this request comes from. */
  ghost predicate AskedAt(r: Execution, t: nat, m: VoteRequest) {
    && t < |r.steps| && t < |r.states| && r.steps[t] == StartCandidacy(m.from) && m.from < |r.states[t].hosts|
    && var s := r.states[t].hosts[m.from].s;
       m.args == RequestVoteArgs(m.from, s.term + 1, |s.log|, LastTerm(s.log))
  }

  lemma {:induction false} RequestsAsked(r: Execution, n: nat, k: nat, m: VoteRequest) returns (t: nat)
    requires IsRun(r, n) && k < |r.states| && m in r.states[k].voteRequests
    ensures t < k && AskedAt(r, t, m)
  {
    if k == 0 {
      assert false;
    } else {
      RunSound(r, n, k - 1);
      assert StepAt(r, k - 1);
      if m in r.states[k - 1].voteRequests {
        t := RequestsAsked(r, n, k - 1, m);
      } else {
        t := k - 1;
        NewRequest(r.states[t], r.steps[t], m);
      }
    }
  }

  lemma NewRequest(c: Cluster, step: Step, m: VoteRequest)
    requires WellFormed(c) && Enabled(c, step) && m in Do(c, step).voteRequests && m !in c.voteRequests
    ensures step == StartCandidacy(m.from) && m.from < |c.hosts|
    ensures var s := c.hosts[m.from].s; m.args == RequestVoteArgs(m.from, s.term + 1, |s.log|, LastTerm(s.log))
  {
    hide HandleAppendEntries, HandleRequestVote, CommitAndApply, VoteArgs;
    HostFacts(c, Mover(step));
    CandidacyAsks(c.hosts[Mover(step)].s);
  }

  /** Two grounded logs of which one ends well enough for the other's vote, or does not. */
  lemma LogsCompared(logs: map<int, Log>, mine: Log, theirs: Log)
    requires Grounded(logs, mine) && Grounded(logs, theirs)
    ensures AsGood(LastTerm(theirs), |theirs|, mine) ==> LastTerm(mine) < LastTerm(theirs) || mine <= theirs
    ensures !AsGood(LastTerm(theirs), |theirs|, mine) ==> LastTerm(theirs) < LastTerm(mine) || theirs < mine
  {
    if mine != [] {
      assert GroundedAt(logs, mine, |mine| - 1);
    }
    if theirs != [] {
      assert GroundedAt(logs, theirs, |theirs| - 1);
    }
  }

  /**
   * A vote given at step k, for a candidacy of step t: the voter's log ends in a smaller term than the candidate's log
   * did when it asked, or is a prefix of it. A server that was free to vote and refused had a log that ends in a larger
   * term, or extends the candidate's.
   */
  lemma VoteComparesLogs(r: Execution, n: nat, k: nat, voter: nat, m: VoteRequest) returns (t: nat)
    requires IsRun(r, n) && AppendsFit(r) && k < |r.steps| && r.steps[k] == AnswerVote(voter, m)
    ensures t < k && AskedAt(r, t, m) && voter < |r.states[k].hosts| && WellIndexed(r.states[k].hosts[voter].s.log)
    ensures var (s, theirs) := (r.states[k].hosts[voter].s, r.states[t].hosts[m.from].s.log);
            var granted := HandleRequestVote(s, m.args).1.voteGranted;
            && (granted ==> FreeToVote(s, m.args) && (LastTerm(s.log) < LastTerm(theirs) || s.log <= theirs))
            && (FreeToVote(s, m.args) && !granted ==> LastTerm(theirs) < LastTerm(s.log) || theirs < s.log)
  {
    assert StepAt(r, k);
    t := RequestsAsked(r, n, k, m);
    RunInv(r, n, k);
    RunInv(r, n, t);
    RunGrow(r, n, t, k);
    HostFacts(r.states[k], voter);
    LogsAt(r.states[k], voter);
    LogsAt(r.states[t], m.from);
    var mine, theirs := r.states[k].hosts[voter].s.log, r.states[t].hosts[m.from].s.log;
    hide Inv, WellFormed, Grounded, AppendsFit, HandleRequestVote, IsRun, StepAt;
    GroundedGrow(r.states[t].leaderLogs, r.states[k].leaderLogs, theirs);
    LogsCompared(r.states[k].leaderLogs, mine, theirs);
    VoteExactly(r.states[k].hosts[voter].s, m.args);
  }
}
