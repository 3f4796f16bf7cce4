/** Committing and applying: which peers are told to commit, what a leader commits, and what servers emit. */
module RaftCommit {
  import opened Linearizability
  import opened RaftServer
  import opened RaftCluster
  import opened RaftElection
  import opened RaftRuns

  function Max(a: int, b: int): int {
    if a < b then b else a
  }

  // ---- what one server emits ----

  /** What is emitted anew is entry after entry of the log, each with its own command and index. */
  ghost predicate EmitsFromLog(before: seq<ApplyMsg>, after: seq<ApplyMsg>, log: Log) {
    && before <= after && |after| <= Max(|before|, |log|)
    && forall k | |before| <= k < |after| :: after[k] == ApplyMsg(log[k].command, k + 1)
  }

  lemma StartApplyEmits(s: Server, index: int)
    requires AppliedInOrder(s) && index <= |s.log|
    ensures var r := StartApply(s, index);
            && EmitsFromLog(s.applied, r.applied, s.log) && |r.applied| == Max(|s.applied|, index)
            && r == s.(applied := r.applied, lastApply := |r.applied|)
  {}

  /** A follower commits and emits on CommitAndHeartBeat alone, as far as it is told and its log goes. */
  lemma HandlerEmits(s: Server, args: AppendEntriesArgs)
    requires WellIndexed(s.log) && ArgsOk(args) && AppliedInOrder(s)
    ensures var s' := HandleAppendEntries(s, args).0;
            && EmitsFromLog(s.applied, s'.applied, s'.log)
            && if args.term >= s.term && args.job == CommitAndHeartBeat then
                 && s'.commitIndex == (if args.leaderCommit <= |s.log| then args.leaderCommit else |s.log|)
                 && |s'.applied| == Max(|s.applied|, s'.commitIndex)
               else
                 s'.applied == s.applied && s'.commitIndex == s.commitIndex
  {
    LastIndexIsLength(s.log);
    if args.term >= s.term && args.job == CommitAndHeartBeat {
      var f := BackToFollower(s, args.term);
      var c := Min(args.leaderCommit, LastIndex(f.log));
      StartApplyEmits(f.(commitIndex := c), c);
    }
  }

  /** In every answer the term is the server's by then; an append of an older term changes nothing and is refused. */
  lemma AnswerTells(s: Server, args: AppendEntriesArgs)
    requires WellIndexed(s.log) && ArgsOk(args) && AppliedInOrder(s)
    ensures var (s', reply) := HandleAppendEntries(s, args);
            && reply.term == s'.term
            && (args.term < s.term ==> s' == s && !reply.success && reply.lastIndex == 0)
            && (args.term >= s.term && args.job != Append ==> reply.success && reply.lastIndex == 0)
            && (args.job == Append && reply.success ==> reply.lastIndex == -1)
            && (args.term >= s.term ==> s'.term == args.term && s'.role == Follower && !s'.isLeader)
  {}

  // ---- what a leader commits ----

  /** These peers, none of them the server itself, are alive and known to hold the index. */
  ghost predicate Backing(s: Server, peers: set<nat>, index: int) {
    forall p | p in peers :: p in s.matchIndex && p != s.me && Alive(s, p) && index <= s.matchIndex[p]
  }

  /** With the server itself they are more than half of the cluster. */
  ghost predicate Backed(s: Server, index: int) {
    exists peers: set<nat> :: Backing(s, peers, index) && 2 * (|peers| + 1) > s.peerNumber
  }

  lemma MajorityIsBacked(s: Server, index: int)
    ensures Majority(s, index) <==> Backed(s, index)
  {
    assert Backing(s, Holders(s, index), index);
    if peers: set<nat> :| Backing(s, peers, index) && 2 * (|peers| + 1) > s.peerNumber {
      SubsetSize(peers, Holders(s, index));
    }
  }

  /**
   * A leader's commitIndex becomes the largest index of its log that a majority backs, if that is larger; it emits up
   * to there. Any other server's stays.
   */
  lemma CommitsLargestBacked(s: Server)
    requires WellIndexed(s.log) && AppliedInOrder(s)
    ensures var r := CommitAndApply(s);
            && r == s.(commitIndex := r.commitIndex, applied := r.applied, lastApply := r.lastApply)
            && EmitsFromLog(s.applied, r.applied, s.log)
            && (!s.isLeader ==> r == s)
            && s.commitIndex <= r.commitIndex
            && (r.commitIndex > s.commitIndex ==>
                  && r.commitIndex <= |s.log| && Backed(s, r.commitIndex)
                  && |r.applied| == Max(|s.applied|, r.commitIndex))
            && (r.commitIndex == s.commitIndex ==> r == s)
            && (s.isLeader ==> forall index | r.commitIndex < index <= |s.log| :: !Backed(s, index))
  {
    LastIndexIsLength(s.log);
    var u := UpdateCommit(s);
    forall index ensures Majority(s, index) <==> Backed(s, index) {
      MajorityIsBacked(s, index);
    }
    hide Majority, Backed, EmitsFromLog, Messages;
    if s.isLeader {
      LargestCommits(s);
    }
    if u != s {
      StartApplyEmits(u, u.commitIndex);
    } else {
      NothingEmitted(s.applied, s.log);
    }
  }

  lemma NothingEmitted(applied: seq<ApplyMsg>, log: Log)
    ensures EmitsFromLog(applied, applied, log)
  {}

  /** If any new index has a majority, one of them is the largest. */
  lemma LargestCommits(s: Server)
    requires s.isLeader && s.commitIndex >= 0
    ensures var r := UpdateCommit(s);
            forall index | r.commitIndex < index <= LastIndex(s.log) :: !Majority(s, index)
  {
    hide Majority;
    var index := LastIndex(s.log);
    while index > s.commitIndex && !Majority(s, index)
      invariant forall later | index < later <= LastIndex(s.log) :: !Majority(s, later)
    {
      index := index - 1;
    }
    if index > s.commitIndex {
      assert CommitTo(s, index);
    }
  }

  // ---- steps ----

  /** No step but a crash takes back what a server emitted, and what it emits anew is in its log after the step. */
  lemma StepEmits(c: Cluster, step: Step, i: nat)
    requires WellFormed(c) && Enabled(c, step) && i < |c.hosts| && step != Crash(i)
    ensures i < |Do(c, step).hosts|
    ensures EmitsFromLog(c.hosts[i].s.applied, Do(c, step).hosts[i].s.applied, Do(c, step).hosts[i].s.log)
  {
    HostFacts(c, i);
    OnlyMover(c, step);
    NothingEmitted(c.hosts[i].s.applied, c.hosts[i].s.log);
    if i == Mover(step) {
      hide EmitsFromLog, WellIndexed, AppliedInOrder;
      match step {
        case AnswerAppend(append) => AnswerAppendEmits(c, append);
        case RecordMatch(answer) => RecordMatchEmits(c, answer);
        case _ => OthersEmitNothing(c, step);
      }
    }
  }

  lemma AnswerAppendEmits(c: Cluster, append: AppendRequest)
    requires WellFormed(c) && Enabled(c, AnswerAppend(append))
    ensures var (s, s') := (c.hosts[append.to].s, Do(c, AnswerAppend(append)).hosts[append.to].s);
            EmitsFromLog(s.applied, s'.applied, s'.log)
  {
    HostFacts(c, append.to);
    HandlerEmits(c.hosts[append.to].s, append.args);
    hide WellFormed, HandleAppendEntries, EmitsFromLog, ArgsOk;
  }

  lemma RecordMatchEmits(c: Cluster, answer: AppendReply)
    requires WellFormed(c) && Enabled(c, RecordMatch(answer))
    ensures var (s, s') := (c.hosts[answer.to].s, Do(c, RecordMatch(answer)).hosts[answer.to].s);
            EmitsFromLog(s.applied, s'.applied, s'.log)
  {
    var m := Matched(c.hosts[answer.to].s, answer.from, MatchedBy(answer.args));
    HostFacts(c, answer.to);
    MatchedKeeps(c.hosts[answer.to].s, answer.from, MatchedBy(answer.args));
    CommitsLargestBacked(m);
    hide WellFormed, CommitAndApply, EmitsFromLog, Backed;
  }

  lemma OthersEmitNothing(c: Cluster, step: Step)
    requires WellFormed(c) && Enabled(c, step) && !step.AnswerAppend? && !step.RecordMatch? && !step.Crash?
    ensures Mover(step) < |Do(c, step).hosts|
    ensures Do(c, step).hosts[Mover(step)].s.applied == c.hosts[Mover(step)].s.applied
    ensures EmitsFromLog(c.hosts[Mover(step)].s.applied, Do(c, step).hosts[Mover(step)].s.applied,
                         Do(c, step).hosts[Mover(step)].s.log)
  {
    HostFacts(c, Mover(step));
    if step.AnswerVote? {
      VoteEffect(c.hosts[step.i].s, step.request.args);
    } else if step.CountVote? {
      CountVoteMoves(c, step.vote);
    } else if step.StepDown? {
      StepDownMoves(c, step.answer);
    }
    hide WellFormed, AppendArgsFrom, HeartbeatArgs, VoteArgs, HandleRequestVote, EmitsFromLog, VoteReplyEndsCandidacy;
    NothingEmitted(c.hosts[Mover(step)].s.applied, Do(c, step).hosts[Mover(step)].s.log);
  }

  // ---- the tables of a leader ----

  /** Server i learns that peer p took over an append. */
  predicate Opens(step: Step, i: nat, p: nat) {
    step.RecordMatch? && step.answer.to == i && step.answer.from == p
  }

  /** Peer p is noted unreachable, or server i starts a leadership or starts over. */
  predicate Closes(step: Step, i: nat, p: nat) {
    step == NotePeer(i, p, false) || step == Win(i) || step == Crash(i)
  }

  function MatchOf(s: Server, p: nat): int {
    if p in s.matchIndex then s.matchIndex[p] else 0
  }

  function NextOf(s: Server, p: nat): int {
    if p in s.nextIndex then s.nextIndex[p] else 0
  }

  /** What a step does to what server i holds of peer p. */
  predicate TablesFollow(s: Server, s': Server, step: Step, i: nat, p: nat) {
    && (Open(s', p) <==> Opens(step, i, p) || (Open(s, p) && !Closes(step, i, p)))
    && (Alive(s', p) <==>
          Opens(step, i, p) || step == NotePeer(i, p, true) || (Alive(s, p) && !Closes(step, i, p)))
    && NextOf(s', p) == (if Opens(step, i, p) then MatchedBy(step.answer.args) + 1
                         else if step == Win(i) && p < s.peerNumber then |s.log| + 1
                         else if step == Win(i) || step == Crash(i) then 0 else NextOf(s, p))
    && MatchOf(s', p) == (if Opens(step, i, p) then MatchedBy(step.answer.args)
                          else if step == Win(i) || step == Crash(i) then 0 else MatchOf(s, p))
  }

  lemma SameTablesFollow(s: Server, s': Server, step: Step, i: nat, p: nat)
    requires s'.matchIndex == s.matchIndex && s'.peerAlive == s.peerAlive && s'.openCommit == s.openCommit
    requires s'.nextIndex == s.nextIndex
    requires !step.RecordMatch? && !step.NotePeer? && step != Win(i) && step != Crash(i)
    ensures TablesFollow(s, s', step, i, p)
  {}

  lemma AppendKeepsTables(s: Server, args: AppendEntriesArgs)
    requires WellIndexed(s.log) && ArgsOk(args) && 0 <= s.lastApply
    ensures var s' := HandleAppendEntries(s, args).0;
            && s'.matchIndex == s.matchIndex && s'.nextIndex == s.nextIndex
            && s'.peerAlive == s.peerAlive && s'.openCommit == s.openCommit
  {
    hide SetLastTerm, Messages, TermAt, Min;
  }

  lemma AnswersFollow(c: Cluster, step: Step, p: nat)
    requires WellFormed(c) && Enabled(c, step) && (step.AnswerVote? || step.AnswerAppend?)
    ensures Mover(step) < |Do(c, step).hosts|
    ensures TablesFollow(c.hosts[Mover(step)].s, Do(c, step).hosts[Mover(step)].s, step, Mover(step), p)
  {
    HostFacts(c, Mover(step));
    if step.AnswerVote? {
      VoteEffect(c.hosts[step.i].s, step.request.args);
    } else {
      AppendKeepsTables(c.hosts[step.append.to].s, step.append.args);
    }
    hide WellFormed, WellIndexed, AppliedInOrder, ArgsOk, HandleRequestVote, HandleAppendEntries, TablesFollow;
    SameTablesFollow(c.hosts[Mover(step)].s, Do(c, step).hosts[Mover(step)].s, step, Mover(step), p);
  }

  lemma MatchFollows(c: Cluster, answer: AppendReply, p: nat)
    requires WellFormed(c) && Enabled(c, RecordMatch(answer))
    ensures var (i, c') := (answer.to, Do(c, RecordMatch(answer)));
            TablesFollow(c.hosts[i].s, c'.hosts[i].s, RecordMatch(answer), i, p)
  {
    var s := c.hosts[answer.to].s;
    HostFacts(c, answer.to);
    MatchedKeeps(s, answer.from, MatchedBy(answer.args));
    CommitEffect(Matched(s, answer.from, MatchedBy(answer.args)));
    hide WellFormed, WellIndexed, AppliedInOrder, CommitAndApply, TablesFollow;
    MatchedFollows(s, Do(c, RecordMatch(answer)).hosts[answer.to].s, answer, p);
  }

  lemma MatchedFollows(s: Server, s': Server, answer: AppendReply, p: nat)
    requires var m := Matched(s, answer.from, MatchedBy(answer.args));
             && s'.matchIndex == m.matchIndex && s'.nextIndex == m.nextIndex
             && s'.peerAlive == m.peerAlive && s'.openCommit == m.openCommit
    ensures TablesFollow(s, s', RecordMatch(answer), answer.to, p)
  {}

  lemma WonFollows(s: Server, i: nat, p: nat)
    requires WellIndexed(s.log)
    ensures TablesFollow(s, BecomeLeader(s), Win(i), i, p)
  {
    BelowFacts(s.peerNumber);
    LastIndexIsLength(s.log);
    hide LastIndex, SetLastTerm;
  }

  lemma NotedFollows(s: Server, peer: nat, alive: bool, i: nat, p: nat)
    ensures TablesFollow(s, PeerNoted(s, peer, alive), NotePeer(i, peer, alive), i, p)
  {}

  lemma RestartFollows(s: Server, n: nat, disk: Persisted, i: nat, p: nat)
    ensures TablesFollow(s, Restart(i, n, disk), Crash(i), i, p)
  {}

  lemma LeaderTablesFollow(c: Cluster, step: Step, p: nat)
    requires WellFormed(c) && Enabled(c, step) && (step.Win? || step.NotePeer? || step.Crash?)
    ensures step.i < |Do(c, step).hosts|
    ensures TablesFollow(c.hosts[step.i].s, Do(c, step).hosts[step.i].s, step, step.i, p)
  {
    HostFacts(c, step.i);
    hide WellFormed, WellIndexed, AppliedInOrder, BecomeLeader, PeerNoted, Restart, TablesFollow;
    var h := c.hosts[step.i];
    if step.Win? {
      WonFollows(h.s, step.i, p);
    } else if step.NotePeer? {
      NotedFollows(h.s, step.peer, step.alive, step.i, p);
    } else {
      RestartFollows(h.s, |c.hosts|, h.disk, step.i, p);
    }
  }

  lemma OthersFollow(c: Cluster, step: Step, p: nat)
    requires WellFormed(c) && Enabled(c, step)
    requires !step.AnswerVote? && !step.AnswerAppend? && !step.RecordMatch?
    requires !step.Win? && !step.NotePeer? && !step.Crash? && !step.CountVote? && !step.StepDown?
    ensures Mover(step) < |Do(c, step).hosts|
    ensures TablesFollow(c.hosts[Mover(step)].s, Do(c, step).hosts[Mover(step)].s, step, Mover(step), p)
  {
    hide WellFormed, TablesFollow, AppendArgsFrom, HeartbeatArgs, VoteArgs;
    SameTablesFollow(c.hosts[Mover(step)].s, Do(c, step).hosts[Mover(step)].s, step, Mover(step), p);
  }

  lemma CountVoteFollows(c: Cluster, vote: VoteReply, p: nat)
    requires WellFormed(c) && Enabled(c, CountVote(vote))
    ensures vote.to < |Do(c, CountVote(vote)).hosts|
    ensures TablesFollow(c.hosts[vote.to].s, Do(c, CountVote(vote)).hosts[vote.to].s, CountVote(vote), vote.to, p)
  {
    CountVoteMoves(c, vote);
    hide WellFormed, TablesFollow, Do, Enabled;
    SameTablesFollow(c.hosts[vote.to].s, Do(c, CountVote(vote)).hosts[vote.to].s, CountVote(vote), vote.to, p);
  }

  lemma StepDownFollows(c: Cluster, answer: AppendReply, p: nat)
    requires WellFormed(c) && Enabled(c, StepDown(answer))
    ensures answer.to < |Do(c, StepDown(answer)).hosts|
    ensures var (i, c') := (answer.to, Do(c, StepDown(answer)));
            TablesFollow(c.hosts[i].s, c'.hosts[i].s, StepDown(answer), i, p)
  {
    StepDownMoves(c, answer);
    hide WellFormed, TablesFollow, Do, Enabled;
    SameTablesFollow(c.hosts[answer.to].s, Do(c, StepDown(answer)).hosts[answer.to].s, StepDown(answer), answer.to, p);
  }

  lemma UntouchedFollow(s: Server, step: Step, i: nat, p: nat)
    requires i != Mover(step)
    ensures TablesFollow(s, s, step, i, p)
  {}

  lemma TablesExactly(c: Cluster, step: Step, i: nat, p: nat)
    requires WellFormed(c) && Enabled(c, step) && i < |c.hosts|
    ensures i < |Do(c, step).hosts| && TablesFollow(c.hosts[i].s, Do(c, step).hosts[i].s, step, i, p)
  {
    hide TablesFollow, WellFormed, Do, Enabled;
    OnlyMover(c, step);
    if i != Mover(step) {
      UntouchedFollow(c.hosts[i].s, step, i, p);
    } else {
      match step {
        case CountVote(vote) => CountVoteFollows(c, vote, p);
        case StepDown(answer) => StepDownFollows(c, answer, p);
        case AnswerVote(_, _) => AnswersFollow(c, step, p);
        case AnswerAppend(_) => AnswersFollow(c, step, p);
        case RecordMatch(answer) => MatchFollows(c, answer, p);
        case Win(_) => LeaderTablesFollow(c, step, p);
        case NotePeer(_, _, _) => LeaderTablesFollow(c, step, p);
        case Crash(_) => LeaderTablesFollow(c, step, p);
        case _ => OthersFollow(c, step, p);
      }
    }
  }

  // ---- runs ----

  /** Peer p was last opened at step k, and not closed from then to state m. */
  ghost predicate OpenedAt(r: Execution, k: nat, m: nat, i: nat, p: nat) {
    k < m <= |r.steps| && Opens(r.steps[k], i, p) && forall l | k < l < m :: !Closes(r.steps[l], i, p)
  }

  /** Peer p is open to commits exactly if an append to it was acknowledged and nothing closed it since. */
  lemma {:induction false} OpenExactly(r: Execution, n: nat, m: nat, i: nat, p: nat)
    requires IsRun(r, n) && m < |r.states| && i < |r.states[m].hosts| && p < |r.states[m].hosts|
    ensures Open(r.states[m].hosts[i].s, p) <==> exists k: nat :: OpenedAt(r, k, m, i, p)
  {
    if m == 0 {
      assert r.states[0].hosts[i] == FreshHost(i, n);
    } else {
      RunSound(r, n, m - 1);
      assert StepAt(r, m - 1);
      OnlyMover(r.states[m - 1], r.steps[m - 1]);
      OpenExactly(r, n, m - 1, i, p);
      TablesExactly(r.states[m - 1], r.steps[m - 1], i, p);
      hide WellFormed, ElectionInv, Do, Enabled, IsRun, FreshHost;
      if Open(r.states[m].hosts[i].s, p) {
        if Opens(r.steps[m - 1], i, p) {
          assert OpenedAt(r, m - 1, m, i, p);
        } else {
          var k: nat :| OpenedAt(r, k, m - 1, i, p);
          assert OpenedAt(r, k, m, i, p);
        }
      }
      if k: nat :| OpenedAt(r, k, m, i, p) {
        assert k == m - 1 || OpenedAt(r, k, m - 1, i, p);
      }
    }
  }

  /**
   * From the acknowledgement of an append on, until the peer is noted unreachable or the server wins another election
   * or crashes, and at no other time, its heartbeats to the peer are those that commit; all carry its commitIndex.
   */
  lemma HeartbeatsCommit(r: Execution, n: nat, m: nat, i: nat, p: nat)
    requires IsRun(r, n) && m < |r.states| && i < |r.states[m].hosts| && p < |r.states[m].hosts|
    ensures var (s, args) := (r.states[m].hosts[i].s, HeartbeatArgs(r.states[m].hosts[i].s, p));
            && (args.job == CommitAndHeartBeat <==> exists k: nat :: OpenedAt(r, k, m, i, p))
            && (args.job == HeartBeat <==> !exists k: nat :: OpenedAt(r, k, m, i, p))
            && args.leaderCommit == s.commitIndex && args.term == s.term
  {
    OpenExactly(r, n, m, i, p);
  }

  /** Server i sends this message at step t, from what it holds then. */
  ghost predicate SentAt(r: Execution, t: nat, m: AppendRequest) {
    && t < |r.steps| && t < |r.states| && m.from < |r.states[t].hosts|
    && var s := r.states[t].hosts[m.from].s;
       && s.role == Leader && m.args.term == s.term && m.args.leaderCommit == s.commitIndex && m.args.leaderId == m.from
       && (m.args.job == CommitAndHeartBeat ==> r.steps[t] == SendHeartbeat(m.from, m.to) && Open(s, m.to))
       && (m.args.job == HeartBeat ==> r.steps[t] == SendHeartbeat(m.from, m.to) && !Open(s, m.to))
       && (m.args.job == Append ==>
             && m.args.prevLogIndex >= 0 && r.steps[t] == SendAppend(m.from, m.to, m.args.prevLogIndex)
             && m.args.entries == if m.args.prevLogIndex <= |s.log| then s.log[m.args.prevLogIndex..] else [])
  }

  lemma {:induction false} MessagesSent(r: Execution, n: nat, k: nat, m: AppendRequest) returns (t: nat)
    requires IsRun(r, n) && k < |r.states| && m in r.states[k].appendRequests
    ensures t < k && SentAt(r, t, m)
  {
    if k == 0 {
      assert false;
    } else {
      RunSound(r, n, k - 1);
      assert StepAt(r, k - 1);
      hide WellFormed, ElectionInv, IsRun, HeartbeatArgs, AppendArgsFrom, HandleAppendEntries, HandleRequestVote,
           CommitAndApply, SentAt;
      if m in r.states[k - 1].appendRequests {
        t := MessagesSent(r, n, k - 1, m);
      } else {
        t := k - 1;
        NewMessage(r, t, m);
      }
    }
  }

  lemma NewMessage(r: Execution, t: nat, m: AppendRequest)
    requires t < |r.steps| && |r.states| == |r.steps| + 1
    requires WellFormed(r.states[t]) && Enabled(r.states[t], r.steps[t])
    requires m in Do(r.states[t], r.steps[t]).appendRequests && m !in r.states[t].appendRequests
    ensures SentAt(r, t, m)
  {
    var c, step := r.states[t], r.steps[t];
    if step.SendAppend? {
      HostFacts(c, step.i);
      hide WellFormed;
    } else if step.SendHeartbeat? {
      HostFacts(c, step.i);
      hide WellFormed, AppendArgsFrom;
    } else {
      NoNewMessage(c, step);
    }
  }

  lemma NoNewMessage(c: Cluster, step: Step)
    requires WellFormed(c) && Enabled(c, step) && !step.SendAppend? && !step.SendHeartbeat?
    ensures Do(c, step).appendRequests == c.appendRequests
  {
    hide WellFormed, HandleAppendEntries, HandleRequestVote, CommitAndApply;
  }

  /** Some server that counted as leader had committed up to the index by state k. */
  ghost predicate Reached(r: Execution, k: nat, index: int) {
    exists t: nat, j: nat :: LeaderAt(r, t, j, index) && t <= k
  }

  ghost predicate LeaderAt(r: Execution, t: nat, j: nat, index: int) {
    && t < |r.states| && j < |r.states[t].hosts|
    && r.states[t].hosts[j].s.isLeader && r.states[t].hosts[j].s.commitIndex >= index
  }

  /** A step that emits is a leader's own, or answers a message of a leader that had committed that far. */
  lemma FreshlyEmitted(r: Execution, n: nat, t: nat, i: nat)
    requires IsRun(r, n) && t < |r.steps| && i < |r.states[t].hosts| && i < |r.states[t + 1].hosts|
    requires |r.states[t].hosts[i].s.applied| < |r.states[t + 1].hosts[i].s.applied|
    ensures Reached(r, t + 1, |r.states[t + 1].hosts[i].s.applied|)
  {
    RunSound(r, n, t);
    assert StepAt(r, t);
    var c, step := r.states[t], r.steps[t];
    hide ElectionInv, IsRun, LeaderAt, HandleAppendEntries, HandleRequestVote, CommitAndApply;
    OnlyMover(c, step);
    match step {
      case AnswerAppend(append) =>
        assert append.to == i;
        var t0 := MessagesSent(r, n, t, append);
        AnswerCommitted(c, append);
        SenderLed(r, n, t0, append);
        assert LeaderAt(r, t0, append.from, |r.states[t + 1].hosts[i].s.applied|);
      case RecordMatch(answer) =>
        assert answer.to == i;
        MatchCommitted(c, answer);
        LeaderHere(r, t + 1, i);
        assert LeaderAt(r, t + 1, i, |r.states[t + 1].hosts[i].s.applied|);
      case Crash(_) =>
      case _ => OthersEmitNothing(c, step);
    }
  }

  lemma LeaderHere(r: Execution, t: nat, i: nat)
    requires t < |r.states| && i < |r.states[t].hosts| && r.states[t].hosts[i].s.isLeader
    ensures forall index | index <= r.states[t].hosts[i].s.commitIndex :: LeaderAt(r, t, i, index)
  {}

  lemma SenderLed(r: Execution, n: nat, t: nat, m: AppendRequest)
    requires IsRun(r, n) && SentAt(r, t, m)
    ensures forall index | index <= m.args.leaderCommit :: LeaderAt(r, t, m.from, index)
  {
    RunSound(r, n, t);
    assert HostOk(r.states[t], m.from);
  }

  lemma AnswerCommitted(c: Cluster, append: AppendRequest)
    requires WellFormed(c) && Enabled(c, AnswerAppend(append))
    ensures var (s, s') := (c.hosts[append.to].s, Do(c, AnswerAppend(append)).hosts[append.to].s);
            |s'.applied| > |s.applied| ==>
              append.args.job == CommitAndHeartBeat && |s'.applied| <= append.args.leaderCommit
  {
    HostFacts(c, append.to);
    HandlerEmits(c.hosts[append.to].s, append.args);
    hide WellFormed, HandleAppendEntries, EmitsFromLog, ArgsOk;
  }

  lemma MatchCommitted(c: Cluster, answer: AppendReply)
    requires WellFormed(c) && Enabled(c, RecordMatch(answer))
    ensures var (s, s') := (c.hosts[answer.to].s, Do(c, RecordMatch(answer)).hosts[answer.to].s);
            |s'.applied| > |s.applied| ==> s'.isLeader && |s'.applied| <= s'.commitIndex
  {
    var m := Matched(c.hosts[answer.to].s, answer.from, MatchedBy(answer.args));
    HostFacts(c, answer.to);
    MatchedKeeps(c.hosts[answer.to].s, answer.from, MatchedBy(answer.args));
    CommitsLargestBacked(m);
    hide WellFormed, CommitAndApply, EmitsFromLog, Backed;
  }

  /** No server emits an index that no leader's commitIndex had reached. */
  lemma {:induction false} EmittedWasCommitted(r: Execution, n: nat, k: nat, i: nat)
    requires IsRun(r, n) && k < |r.states| && i < |r.states[k].hosts| && r.states[k].hosts[i].s.applied != []
    ensures Reached(r, k, |r.states[k].hosts[i].s.applied|)
  {
    if k == 0 {
      NothingAtStart(n, i);
    } else {
      RunSound(r, n, k - 1);
      assert StepAt(r, k - 1);
      OnlyMover(r.states[k - 1], r.steps[k - 1]);
      var c, step := r.states[k - 1], r.steps[k - 1];
      var s, s' := c.hosts[i].s, r.states[k].hosts[i].s;
      hide WellFormed, ElectionInv, Do, Enabled, IsRun, FreshHost, LeaderAt;
      if |s'.applied| <= |s.applied| {
        EmittedWasCommitted(r, n, k - 1, i);
        var t: nat, j: nat :| LeaderAt(r, t, j, |s.applied|) && t <= k - 1;
        LowerReached(r, t, j, |s.applied|, |s'.applied|);
      } else {
        FreshlyEmitted(r, n, k - 1, i);
      }
    }
  }

  lemma NothingAtStart(n: nat, i: nat)
    requires i < |Start(n).hosts|
    ensures Start(n).hosts[i].s.applied == []
  {
    assert Start(n).hosts[i] == FreshHost(i, n);
  }

  lemma LowerReached(r: Execution, t: nat, j: nat, index: int, lower: int)
    requires LeaderAt(r, t, j, index) && lower <= index
    ensures LeaderAt(r, t, j, lower)
  {}

  /**
   * A commit that reaches a peer: what server i sends at step t to a peer that is open, and the peer answers at step k
   * in no later term with a log that is long enough, is committed and emitted there up to i's commitIndex.
   */
  lemma CommitArrives(r: Execution, n: nat, t: nat, k: nat, i: nat, p: nat)
    requires IsRun(r, n) && t < |r.steps| && k < |r.steps| && i < |r.states[t].hosts|
    requires r.steps[t] == SendHeartbeat(i, p) && Open(r.states[t].hosts[i].s, p)
    requires r.steps[k] == AnswerAppend(AppendRequest(i, p, HeartbeatArgs(r.states[t].hosts[i].s, p)))
    requires p < |r.states[k].hosts| && r.states[k].hosts[p].s.term <= r.states[t].hosts[i].s.term
    requires |r.states[k].hosts[p].s.log| >= r.states[t].hosts[i].s.commitIndex
    ensures p < |r.states[k + 1].hosts|
    ensures r.states[k + 1].hosts[p].s.commitIndex == r.states[t].hosts[i].s.commitIndex
    ensures |r.states[k + 1].hosts[p].s.applied| >= r.states[t].hosts[i].s.commitIndex
  {
    RunSound(r, n, k);
    assert StepAt(r, k);
    var args := HeartbeatArgs(r.states[t].hosts[i].s, p);
    HostFacts(r.states[k], p);
    HandlerEmits(r.states[k].hosts[p].s, args);
    hide WellFormed, ElectionInv, IsRun, HandleAppendEntries, EmitsFromLog, ArgsOk;
  }

  // ---- stepping down ----

  /** A leader that was overtaken steps down once it gets the answer of a server of a later term to what it sent. */
  lemma OvertakenStepsDown(c: Cluster, append: AppendRequest, later: Cluster, answer: AppendReply)
    requires WellFormed(c) && Enabled(c, AnswerAppend(append)) && append.args.term < c.hosts[append.to].s.term
    requires answer in Do(c, AnswerAppend(append)).appendReplies && answer !in c.appendReplies
    requires WellFormed(later) && answer in later.appendReplies && append.from < |later.hosts|
    requires later.hosts[append.from].s.role == Leader
    requires later.hosts[append.from].s.term < c.hosts[append.to].s.term
    ensures Enabled(later, StepDown(answer)) && append.from < |Do(later, StepDown(answer)).hosts|
    ensures var (s, h) := (later.hosts[append.from].s, Do(later, StepDown(answer)).hosts[append.from]);
            && h.s == s.(role := Follower, isLeader := false, term := c.hosts[append.to].s.term)
            && h.disk == Disk(h.s)
  {
    HostFacts(c, append.to);
    AnswerTells(c.hosts[append.to].s, append.args);
    hide WellFormed, HandleAppendEntries, ArgsOk;
  }

  // ---- crashes and elections ----

  /** The same entries, but for the term of the last. */
  ghost predicate SameButLastTerm(a: Log, b: Log) {
    SetLastTerm(a, 0) == SetLastTerm(b, 0)
  }

  lemma SameButLastTermMeans(a: Log, b: Log)
    requires SameButLastTerm(a, b)
    ensures |a| == |b|
    ensures forall k | 0 <= k < |a| :: a[k].command == b[k].command && a[k].index == b[k].index
    ensures forall k | 0 <= k < |a| - 1 :: a[k] == b[k]
  {
    var x, y := SetLastTerm(a, 0), SetLastTerm(b, 0);
    forall k | 0 <= k < |a|
      ensures a[k].command == b[k].command && a[k].index == b[k].index && (k < |a| - 1 ==> a[k] == b[k])
    {
      assert x[k] == y[k];
    }
  }

  lemma RewritingKeeps(a: Log, b: Log, term: int)
    requires SameButLastTerm(a, b)
    ensures SameButLastTerm(SetLastTerm(a, term), b)
  {}

  /** The disk holds the log in memory, but for a new leader's term of its last entry. */
  ghost predicate Durable(c: Cluster) {
    forall i | 0 <= i < |c.hosts| :: SameButLastTerm(c.hosts[i].s.log, c.hosts[i].disk.log)
  }

  lemma StepKeepsDurable(c: Cluster, step: Step)
    requires WellFormed(c) && Enabled(c, step) && Durable(c)
    ensures Durable(Do(c, step))
  {
    OnlyMover(c, step);
    MoverDurable(c, step);
    hide Do, Enabled, WellFormed, SameButLastTerm;
  }

  lemma AnswerDurable(c: Cluster, step: Step)
    requires WellFormed(c) && Enabled(c, step) && Mover(step) < |c.hosts| && |Do(c, step).hosts| == |c.hosts|
    requires SameButLastTerm(c.hosts[Mover(step)].s.log, c.hosts[Mover(step)].disk.log)
    requires step.AnswerVote? || step.AnswerAppend?
    ensures SameButLastTerm(Do(c, step).hosts[Mover(step)].s.log, Do(c, step).hosts[Mover(step)].disk.log)
  {
    hide SameButLastTerm, SetLastTerm, WellFormed, HandleAppendEntries, HandleRequestVote, CommitAndApply, VoteArgs,
         AppendArgsFrom, HeartbeatArgs;
    NothingRewritten(Do(c, step).hosts[Mover(step)].s.log);
  }

  lemma ReplyDurable(c: Cluster, step: Step)
    requires WellFormed(c) && Enabled(c, step) && Mover(step) < |c.hosts| && |Do(c, step).hosts| == |c.hosts|
    requires SameButLastTerm(c.hosts[Mover(step)].s.log, c.hosts[Mover(step)].disk.log)
    requires step.CountVote? || step.StepDown?
    ensures SameButLastTerm(Do(c, step).hosts[Mover(step)].s.log, Do(c, step).hosts[Mover(step)].disk.log)
  {
    if step.CountVote? {
      CountVoteMoves(c, step.vote);
    } else {
      StepDownMoves(c, step.answer);
    }
    hide SameButLastTerm, WellFormed, Do, Enabled;
    NothingRewritten(Do(c, step).hosts[Mover(step)].s.log);
  }

  lemma LeaderDurable(c: Cluster, step: Step)
    requires WellFormed(c) && Enabled(c, step) && Mover(step) < |c.hosts| && |Do(c, step).hosts| == |c.hosts|
    requires SameButLastTerm(c.hosts[Mover(step)].s.log, c.hosts[Mover(step)].disk.log)
    requires step.Win? || step.RecordMatch? || step.NotePeer?
    ensures SameButLastTerm(Do(c, step).hosts[Mover(step)].s.log, Do(c, step).hosts[Mover(step)].disk.log)
  {
    HostFacts(c, Mover(step));
    hide SameButLastTerm, SetLastTerm, WellFormed, HandleAppendEntries, HandleRequestVote, CommitAndApply, VoteArgs,
         AppendArgsFrom, HeartbeatArgs;
    var h := c.hosts[Mover(step)];
    if step.Win? {
      RewritingKeeps(h.s.log, h.disk.log, h.s.term);
    } else if step.RecordMatch? {
      MatchedKeeps(h.s, step.answer.from, MatchedBy(step.answer.args));
      CommitEffect(Matched(h.s, step.answer.from, MatchedBy(step.answer.args)));
    }
  }

  lemma OwnStepDurable(c: Cluster, step: Step)
    requires WellFormed(c) && Enabled(c, step) && Mover(step) < |c.hosts| && |Do(c, step).hosts| == |c.hosts|
    requires SameButLastTerm(c.hosts[Mover(step)].s.log, c.hosts[Mover(step)].disk.log)
    requires !step.AnswerVote? && !step.AnswerAppend? && !step.CountVote? && !step.StepDown? &&
             !step.Win? && !step.RecordMatch? && !step.NotePeer?
    ensures SameButLastTerm(Do(c, step).hosts[Mover(step)].s.log, Do(c, step).hosts[Mover(step)].disk.log)
  {
    hide SameButLastTerm, SetLastTerm, WellFormed, HandleAppendEntries, HandleRequestVote, CommitAndApply, VoteArgs,
         AppendArgsFrom, HeartbeatArgs;
    NothingRewritten(Do(c, step).hosts[Mover(step)].s.log);
  }

  lemma NothingRewritten(log: Log)
    ensures SameButLastTerm(log, log)
  {}

  lemma MoverDurable(c: Cluster, step: Step)
    requires WellFormed(c) && Enabled(c, step) && Mover(step) < |c.hosts| && |Do(c, step).hosts| == |c.hosts|
    requires SameButLastTerm(c.hosts[Mover(step)].s.log, c.hosts[Mover(step)].disk.log)
    ensures SameButLastTerm(Do(c, step).hosts[Mover(step)].s.log, Do(c, step).hosts[Mover(step)].disk.log)
  {
    hide Do, Enabled, WellFormed, SameButLastTerm;
    match step {
      case AnswerVote(_, _) => AnswerDurable(c, step);
      case AnswerAppend(_) => AnswerDurable(c, step);
      case CountVote(_) => ReplyDurable(c, step);
      case StepDown(_) => ReplyDurable(c, step);
      case Win(_) => LeaderDurable(c, step);
      case RecordMatch(_) => LeaderDurable(c, step);
      case NotePeer(_, _, _) => LeaderDurable(c, step);
      case _ => OwnStepDurable(c, step);
    }
  }

  lemma {:induction false} RunDurable(r: Execution, n: nat, k: nat)
    requires IsRun(r, n) && k < |r.states|
    ensures Durable(r.states[k])
  {
    if k == 0 {
      StartDurable(n);
    } else {
      RunDurable(r, n, k - 1);
      RunSound(r, n, k - 1);
      assert StepAt(r, k - 1);
      hide Durable, WellFormed, ElectionInv, Do, Enabled;
      StepKeepsDurable(r.states[k - 1], r.steps[k - 1]);
    }
  }

  lemma StartDurable(n: nat)
    ensures Durable(Start(n))
  {
    forall i | 0 <= i < n ensures Start(n).hosts[i] == FreshHost(i, n) {}
  }

  /** A crash loses no entry, no term and no vote; everything else starts over, and emitting starts again at index 1. */
  lemma CrashLoses(r: Execution, n: nat, k: nat, i: nat)
    requires IsRun(r, n) && k < |r.steps| && r.steps[k] == Crash(i)
    ensures i < |r.states[k].hosts| && i < |r.states[k + 1].hosts|
    ensures var (h, h') := (r.states[k].hosts[i], r.states[k + 1].hosts[i]);
            && SameButLastTerm(h'.s.log, h.s.log) && h'.s.term == h.s.term && h'.s.votedFor == h.s.votedFor
            && h'.s.role == Follower && !h'.s.isLeader && h'.s.commitIndex == 0 && h'.s.applied == []
            && h'.attempt == None && h'.pending == multiset{}
            && forall p: nat :: !Open(h'.s, p) && !Alive(h'.s, p) && MatchOf(h'.s, p) == 0
  {
    assert StepAt(r, k);
    RunSound(r, n, k);
    RunDurable(r, n, k);
    assert HostOk(r.states[k], i);
    hide SetLastTerm;
  }

  /** The new term of a winner's last entry is not on disk: a crash right after the victory takes it back. */
  lemma CrashAfterWin(c: Cluster, i: nat)
    requires WellFormed(c) && Enabled(c, Win(i))
    ensures WellFormed(Do(c, Win(i))) && Enabled(Do(c, Win(i)), Crash(i))
    ensures i < |Do(Do(c, Win(i)), Crash(i)).hosts|
    ensures Do(Do(c, Win(i)), Crash(i)).hosts[i].s.log == c.hosts[i].disk.log
  {
    StepKeepsWellFormed(c, Win(i));
    hide WellFormed, BecomeLeader;
  }

  /**
   * A new leader takes every peer to be unreachable, open to no commit and known to hold nothing; so its first append
   * carries the whole log, and its heartbeats commit nothing yet.
   */
  lemma NewLeader(s: Server, p: nat)
    requires WellIndexed(s.log) && p < s.peerNumber
    ensures var l := BecomeLeader(s);
            && l.role == Leader && l.isLeader && l.term == s.term && SameButLastTerm(l.log, s.log)
            && l.commitIndex == s.commitIndex && l.applied == s.applied
            && p in l.matchIndex && l.matchIndex[p] == 0 && !Alive(l, p) && !Open(l, p)
            && p in l.nextIndex && l.nextIndex[p] == |s.log| + 1
            && HeartbeatArgs(l, p).job == HeartBeat
            && WellIndexed(l.log) && AppendArgsFrom(l, 0).entries == l.log && AppendArgsFrom(l, 0).prevLogIndex == 0
  {
    BelowFacts(s.peerNumber);
    LastIndexIsLength(s.log);
    SetLastTermKeeps(s.log, s.term);
  }
}
