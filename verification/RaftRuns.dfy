/** What every run keeps, whenever its servers append: the handlers' needs, the votes, and that servers only advance. */
module RaftRuns {
  import opened Linearizability
  import opened RaftServer
  import opened RaftCluster
  import opened RaftElection

  // ---- the handlers' needs ----

  /** The one server a step changes. */
  function Mover(step: Step): nat {
    match step
    case AnswerAppend(append) => append.to
    case CountVote(vote) => vote.to
    case StepDown(answer) => answer.to
    case RecordMatch(answer) => answer.to
    case _ => step.i
  }

  lemma OnlyMover(c: Cluster, step: Step)
    requires WellFormed(c) && Enabled(c, step)
    ensures |Do(c, step).hosts| == |c.hosts| && Mover(step) < |c.hosts|
    ensures forall j | 0 <= j < |c.hosts| && j != Mover(step) :: Do(c, step).hosts[j] == c.hosts[j]
  {
    hide WellFormed, HandleAppendEntries, HandleRequestVote, CommitAndApply;
  }

  lemma HostFacts(c: Cluster, i: nat)
    requires WellFormed(c) && i < |c.hosts|
    ensures var s := c.hosts[i].s;
            && WellIndexed(s.log) && AppliedInOrder(s) && 0 <= s.lastApply && s.commitIndex >= 0
            && s.peerNumber == |c.hosts| && s.me == i
    ensures WellIndexed(c.hosts[i].disk.log)
  {}

  /** What a vote reply makes of a server and its disk. */
  lemma CountVoteMoves(c: Cluster, vote: VoteReply)
    requires WellFormed(c) && Enabled(c, CountVote(vote))
    ensures vote.to < |Do(c, CountVote(vote)).hosts|
    ensures var (h, h') := (c.hosts[vote.to], Do(c, CountVote(vote)).hosts[vote.to]);
            if vote.reply.term > h.s.term && h.s.role != Follower
            then h'.s == BackToFollower(h.s, vote.reply.term) && h'.disk == Disk(h'.s)
            else h'.s == h.s && h'.disk == h.disk
  {
    hide WellFormed, VoteCounts, Disk;
  }

  /** What the answer to a heartbeat makes of them. */
  lemma StepDownMoves(c: Cluster, answer: AppendReply)
    requires WellFormed(c) && Enabled(c, StepDown(answer))
    ensures answer.to < |Do(c, StepDown(answer)).hosts|
    ensures var (h, h') := (c.hosts[answer.to], Do(c, StepDown(answer)).hosts[answer.to]);
            if answer.reply.term > h.s.term && h.s.role == Leader
            then h'.s == BackToFollower(h.s, answer.reply.term) && h'.disk == Disk(h'.s)
            else h'.s == h.s && h'.disk == h.disk
  {
    hide WellFormed, Disk;
  }

  /** What a step may make of the server it changes. */
  ghost predicate HostKept(h: Host, h': Host) {
    && WellIndexed(h'.s.log) && WellIndexed(h'.disk.log) && AppliedInOrder(h'.s)
    && h'.s.me == h.s.me && h'.s.peerNumber == h.s.peerNumber
  }

  lemma SameLogKept(h: Host, h': Host)
    requires WellIndexed(h.s.log) && WellIndexed(h.disk.log) && AppliedInOrder(h.s)
    requires h'.s.log == h.s.log && (h'.disk.log == h.disk.log || h'.disk.log == h.s.log)
    requires h'.s.applied == h.s.applied && h'.s.lastApply == h.s.lastApply && h'.s.commitIndex == h.s.commitIndex
    requires h'.s.me == h.s.me && h'.s.peerNumber == h.s.peerNumber
    ensures HostKept(h, h')
  {}

  lemma RestartKept(h: Host, n: nat)
    requires WellIndexed(h.disk.log) && h.s.peerNumber == n
    ensures HostKept(h, Host(Restart(h.s.me, n, h.disk), h.disk, None, multiset{}))
  {}

  /** Handling an append keeps the log indexed. */
  lemma HandlerIndexes(s: Server, args: AppendEntriesArgs)
    requires WellIndexed(s.log) && ArgsOk(args) && AppliedInOrder(s)
    ensures WellIndexed(HandleAppendEntries(s, args).0.log)
  {
    HandlerKeepsLog(s, args);
    if args.term >= s.term && args.job == Append {
      HandlerCases(s, args);
      hide HandleAppendEntries;
      if args.prevLogIndex <= |s.log| {
        SetLastTermKeeps(s.log[..args.prevLogIndex] + args.entries, args.term);
      }
    }
  }

  lemma AppendCommandIndexes(s: Server, command: Command)
    requires WellIndexed(s.log)
    ensures WellIndexed(AppendCommand(s, command).log)
  {
    LastIndexIsLength(s.log);
  }

  lemma OwnStepKept(c: Cluster, step: Step)
    requires WellFormed(c) && Enabled(c, step)
    requires step.StartCandidacy? || step.Win? || step.GiveUp? || step.BeginStart? || step.StartCommand? ||
             step.SendAppend? || step.SendHeartbeat? || step.NotePeer? || step.Crash?
    ensures HostKept(c.hosts[step.i], Do(c, step).hosts[step.i])
  {
    HostFacts(c, step.i);
    hide WellFormed, WellIndexed, AppliedInOrder, HostKept, SetLastTerm, VoteArgs, AppendArgsFrom, HeartbeatArgs;
    var h, h' := c.hosts[step.i], Do(c, step).hosts[step.i];
    match step {
      case Win(_) =>
        SetLastTermKeeps(h.s.log, h.s.term);
        IndexedKept(h, h');
      case StartCommand(_, command) =>
        AppendCommandIndexes(h.s, command);
        IndexedKept(h, h');
      case Crash(_) => RestartKept(h, |c.hosts|);
      case _ => SameLogKept(h, h');
    }
  }

  /** A server whose log is indexed again and that applied nothing. */
  lemma IndexedKept(h: Host, h': Host)
    requires WellIndexed(h'.s.log) && (h'.disk.log == h.disk.log || h'.disk.log == h'.s.log) && WellIndexed(h.disk.log)
    requires AppliedInOrder(h.s)
    requires h'.s.applied == h.s.applied && h'.s.lastApply == h.s.lastApply && h'.s.commitIndex == h.s.commitIndex
    requires h'.s.me == h.s.me && h'.s.peerNumber == h.s.peerNumber
    ensures HostKept(h, h')
  {}

  lemma CountVoteKept(c: Cluster, vote: VoteReply)
    requires WellFormed(c) && Enabled(c, CountVote(vote))
    ensures HostKept(c.hosts[vote.to], Do(c, CountVote(vote)).hosts[vote.to])
  {
    HostFacts(c, vote.to);
    hide WellFormed, WellIndexed, AppliedInOrder, HostKept;
    SameLogKept(c.hosts[vote.to], Do(c, CountVote(vote)).hosts[vote.to]);
  }

  lemma StepDownKept(c: Cluster, answer: AppendReply)
    requires WellFormed(c) && Enabled(c, StepDown(answer))
    ensures HostKept(c.hosts[answer.to], Do(c, StepDown(answer)).hosts[answer.to])
  {
    HostFacts(c, answer.to);
    hide WellFormed, WellIndexed, AppliedInOrder, HostKept;
    SameLogKept(c.hosts[answer.to], Do(c, StepDown(answer)).hosts[answer.to]);
  }

  lemma AnswerVoteKept(c: Cluster, i: nat, request: VoteRequest)
    requires WellFormed(c) && Enabled(c, AnswerVote(i, request))
    ensures HostKept(c.hosts[i], Do(c, AnswerVote(i, request)).hosts[i])
  {
    HostFacts(c, i);
    VoteEffect(c.hosts[i].s, request.args);
    hide WellFormed, WellIndexed, AppliedInOrder, HostKept, HandleRequestVote;
    SameLogKept(c.hosts[i], Do(c, AnswerVote(i, request)).hosts[i]);
  }

  lemma AnswerAppendKept(c: Cluster, append: AppendRequest)
    requires WellFormed(c) && Enabled(c, AnswerAppend(append))
    ensures HostKept(c.hosts[append.to], Do(c, AnswerAppend(append)).hosts[append.to])
  {
    HostFacts(c, append.to);
    HandlerIndexes(c.hosts[append.to].s, append.args);
    HandlerApplies(c.hosts[append.to].s, append.args);
    AppendEffect(c.hosts[append.to].s, append.args);
    hide WellFormed, WellIndexed, AppliedInOrder, HandleAppendEntries, ArgsOk;
  }

  lemma RecordMatchKept(c: Cluster, answer: AppendReply)
    requires WellFormed(c) && Enabled(c, RecordMatch(answer))
    ensures HostKept(c.hosts[answer.to], Do(c, RecordMatch(answer)).hosts[answer.to])
  {
    HostFacts(c, answer.to);
    MatchedKeeps(c.hosts[answer.to].s, answer.from, MatchedBy(answer.args));
    CommitEffect(Matched(c.hosts[answer.to].s, answer.from, MatchedBy(answer.args)));
    hide WellFormed, WellIndexed, AppliedInOrder, CommitAndApply;
  }

  lemma MatchedKeeps(s: Server, peer: nat, matched: int)
    requires WellIndexed(s.log) && AppliedInOrder(s)
    ensures WellIndexed(Matched(s, peer, matched).log) && AppliedInOrder(Matched(s, peer, matched))
  {}

  lemma MoverKept(c: Cluster, step: Step)
    requires WellFormed(c) && Enabled(c, step) && |Do(c, step).hosts| == |c.hosts| && Mover(step) < |c.hosts|
    ensures HostKept(c.hosts[Mover(step)], Do(c, step).hosts[Mover(step)])
  {
    hide WellFormed, Do, HostKept, Enabled;
    match step {
      case AnswerVote(i, request) => AnswerVoteKept(c, i, request);
      case CountVote(vote) => CountVoteKept(c, vote);
      case AnswerAppend(append) => AnswerAppendKept(c, append);
      case StepDown(answer) => StepDownKept(c, answer);
      case RecordMatch(answer) => RecordMatchKept(c, answer);
      case _ => OwnStepKept(c, step);
    }
  }

  lemma SentArgsOk(s: Server, prev: nat)
    requires WellIndexed(s.log) && s.commitIndex >= 0
    ensures ArgsOk(AppendArgsFrom(s, prev))
  {
    LastIndexIsLength(s.log);
  }

  /** New messages meet the handlers' needs. */
  lemma MessagesKept(c: Cluster, step: Step)
    requires WellFormed(c) && Enabled(c, step)
    ensures forall m | m in Do(c, step).appendRequests :: ArgsOk(m.args)
    ensures forall a | a in Do(c, step).appendReplies :: ArgsOk(a.args)
  {
    hide HandleAppendEntries, HandleRequestVote, CommitAndApply, AppendArgsFrom;
    if step.SendAppend? {
      HostFacts(c, step.i);
      SentArgsOk(c.hosts[step.i].s, step.prev);
    }
  }

  lemma StepKeepsWellFormed(c: Cluster, step: Step)
    requires WellFormed(c) && Enabled(c, step)
    ensures WellFormed(Do(c, step))
  {
    OnlyMover(c, step);
    MoverKept(c, step);
    MessagesKept(c, step);
    hide Do, Enabled;
  }

  // ---- whole runs ----

  lemma StartSound(n: nat)
    ensures WellFormed(Start(n)) && ElectionInv(Start(n))
  {
    var c := Start(n);
    forall i: nat | i < n ensures c.hosts[i] == FreshHost(i, n) && HostOk(c, i) && AttemptOk(c, i) && LeaderOk(c, i) {}
  }

  lemma {:induction false} RunSound(r: Execution, n: nat, k: nat)
    requires IsRun(r, n) && k < |r.states|
    ensures WellFormed(r.states[k]) && ElectionInv(r.states[k])
  {
    if k == 0 {
      StartSound(n);
    } else {
      RunSound(r, n, k - 1);
      assert StepAt(r, k - 1);
      hide WellFormed, ElectionInv, Do, Enabled;
      StepKeepsWellFormed(r.states[k - 1], r.steps[k - 1]);
      StepKeeps(r.states[k - 1], r.steps[k - 1]);
    }
  }

  lemma AdvanceTransitive(a: Cluster, b: Cluster, c: Cluster)
    requires Advance(a, b) && Advance(b, c)
    ensures Advance(a, c)
  {
    forall i | 0 <= i < |a.hosts| ensures HostAdvance(a.hosts[i], c.hosts[i]) {
      assert HostAdvance(a.hosts[i], b.hosts[i]) && HostAdvance(b.hosts[i], c.hosts[i]);
    }
  }

  lemma AdvanceReflexive(c: Cluster)
    requires ElectionInv(c)
    ensures Advance(c, c)
  {
    QuorumsRecorded(c);
  }

  /** Recorded votes and winners stay as a run goes on, and no server goes back. */
  lemma {:induction false} RunAdvance(r: Execution, n: nat, i: nat, j: nat)
    requires IsRun(r, n) && i <= j < |r.states|
    ensures Advance(r.states[i], r.states[j])
  {
    if i == j {
      RunSound(r, n, i);
      AdvanceReflexive(r.states[i]);
    } else {
      RunAdvance(r, n, i, j - 1);
      RunSound(r, n, j - 1);
      assert StepAt(r, j - 1);
      hide WellFormed, ElectionInv, Do, Enabled, Advance;
      StepKeeps(r.states[j - 1], r.steps[j - 1]);
      AdvanceTransitive(r.states[i], r.states[j - 1], r.states[j]);
    }
  }
}
