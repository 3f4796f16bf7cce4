/** What each step leaves alone. */
module RaftFrames {
  import opened RaftServer
  import opened RaftCluster
  import opened RaftElection
  import opened RaftRuns

  /** The fields of its server a step may write; all others stay. */
  predicate OnlyWrites(step: Step, s: Server, s': Server) {
    match step
    case StartCandidacy(_) => s' == s.(role := s'.role, term := s'.term, votedFor := s'.votedFor)
    case AnswerVote(_, _) =>
      s' == s.(term := s'.term, role := s'.role, isLeader := s'.isLeader, votedFor := s'.votedFor)
    case CountVote(_) => s' == s.(term := s'.term, role := s'.role, isLeader := s'.isLeader)
    case StepDown(_) => s' == s.(term := s'.term, role := s'.role, isLeader := s'.isLeader)
    case Win(_) =>
      s' == s.(role := s'.role, isLeader := s'.isLeader, log := s'.log, nextIndex := s'.nextIndex,
               matchIndex := s'.matchIndex, peerAlive := s'.peerAlive, openCommit := s'.openCommit)
    case StartCommand(_, _) => s' == s.(log := s'.log)
    case AnswerAppend(_) =>
      s' == s.(term := s'.term, role := s'.role, isLeader := s'.isLeader, log := s'.log,
               commitIndex := s'.commitIndex, lastApply := s'.lastApply, applied := s'.applied)
    case RecordMatch(_) =>
      s' == s.(nextIndex := s'.nextIndex, matchIndex := s'.matchIndex, peerAlive := s'.peerAlive,
               openCommit := s'.openCommit, commitIndex := s'.commitIndex, lastApply := s'.lastApply,
               applied := s'.applied)
    case NotePeer(_, _, _) => s' == s.(peerAlive := s'.peerAlive, openCommit := s'.openCommit)
    case Crash(_) => s'.me == s.me && s'.peerNumber == s.peerNumber
    case _ => s' == s
  }

  lemma StepOnlyWrites(c: Cluster, step: Step, i: nat)
    requires WellFormed(c) && Enabled(c, step) && i < |c.hosts|
    ensures i < |Do(c, step).hosts| && OnlyWrites(step, c.hosts[i].s, Do(c, step).hosts[i].s)
    ensures i != Mover(step) ==> Do(c, step).hosts[i] == c.hosts[i]
  {
    OnlyMover(c, step);
    if i == Mover(step) {
      hide Do, Enabled, OnlyWrites, WellFormed;
      match step {
        case AnswerVote(_, _) => AnswerOnlyWrites(c, step);
        case AnswerAppend(_) => AnswerOnlyWrites(c, step);
        case CountVote(vote) => CountOnlyWrites(c, vote);
        case StepDown(answer) => StepDownOnlyWrites(c, answer);
        case RecordMatch(answer) => MatchOnlyWrites(c, answer);
        case _ => OwnOnlyWrites(c, step);
      }
    }
  }

  lemma AppendOnlyWrites(s: Server, args: AppendEntriesArgs)
    requires WellIndexed(s.log) && ArgsOk(args) && 0 <= s.lastApply
    ensures var s' := HandleAppendEntries(s, args).0;
            s' == s.(term := s'.term, role := s'.role, isLeader := s'.isLeader, log := s'.log,
                     commitIndex := s'.commitIndex, lastApply := s'.lastApply, applied := s'.applied)
  {
    hide SetLastTerm, Messages, TermAt, Min;
  }

  lemma AnswerOnlyWrites(c: Cluster, step: Step)
    requires WellFormed(c) && Enabled(c, step) && (step.AnswerVote? || step.AnswerAppend?)
    ensures Mover(step) < |Do(c, step).hosts|
    ensures OnlyWrites(step, c.hosts[Mover(step)].s, Do(c, step).hosts[Mover(step)].s)
  {
    HostFacts(c, Mover(step));
    if step.AnswerVote? {
      VoteEffect(c.hosts[step.i].s, step.request.args);
    } else {
      AppendOnlyWrites(c.hosts[step.append.to].s, step.append.args);
    }
    hide WellFormed, WellIndexed, AppliedInOrder, ArgsOk, HandleRequestVote, HandleAppendEntries;
  }

  lemma CountOnlyWrites(c: Cluster, vote: VoteReply)
    requires WellFormed(c) && Enabled(c, CountVote(vote))
    ensures vote.to < |Do(c, CountVote(vote)).hosts|
    ensures OnlyWrites(CountVote(vote), c.hosts[vote.to].s, Do(c, CountVote(vote)).hosts[vote.to].s)
  {
    CountVoteMoves(c, vote);
    hide WellFormed, Do, Enabled;
  }

  lemma StepDownOnlyWrites(c: Cluster, answer: AppendReply)
    requires WellFormed(c) && Enabled(c, StepDown(answer))
    ensures answer.to < |Do(c, StepDown(answer)).hosts|
    ensures OnlyWrites(StepDown(answer), c.hosts[answer.to].s, Do(c, StepDown(answer)).hosts[answer.to].s)
  {
    StepDownMoves(c, answer);
    hide WellFormed, Do, Enabled;
  }

  lemma MatchOnlyWrites(c: Cluster, answer: AppendReply)
    requires WellFormed(c) && Enabled(c, RecordMatch(answer))
    ensures OnlyWrites(RecordMatch(answer), c.hosts[answer.to].s, Do(c, RecordMatch(answer)).hosts[answer.to].s)
  {
    HostFacts(c, answer.to);
    MatchedKeeps(c.hosts[answer.to].s, answer.from, MatchedBy(answer.args));
    CommitEffect(Matched(c.hosts[answer.to].s, answer.from, MatchedBy(answer.args)));
    hide WellFormed, WellIndexed, AppliedInOrder, CommitAndApply;
  }

  lemma OwnOnlyWrites(c: Cluster, step: Step)
    requires WellFormed(c) && Enabled(c, step)
    requires !step.AnswerVote? && !step.AnswerAppend? && !step.CountVote? && !step.StepDown? && !step.RecordMatch?
    ensures step.i < |Do(c, step).hosts|
    ensures OnlyWrites(step, c.hosts[step.i].s, Do(c, step).hosts[step.i].s)
  {
    HostFacts(c, step.i);
    hide WellFormed, WellIndexed, AppliedInOrder, AppendArgsFrom, HeartbeatArgs, VoteArgs, LastIndex, SetLastTerm;
  }
}
