/** Log Matching: entries of one term at one index are the same entry after the same past, in every run. */
module RaftLogs {
  import opened Linearizability
  import opened RaftServer
  import opened RaftCluster
  import opened RaftElection
  import opened RaftRuns

  // ---- the invariant ----

  /** Up to entry k the log is the log of the leader of that entry's term. */
  ghost predicate GroundedAt(logs: map<int, Log>, log: Log, k: nat)
    requires k < |log|
  {
    var t := log[k].term;
    && t >= 1 && t in logs && k < |logs[t]|
    && log[..k + 1] == logs[t][..k + 1]
  }

  ghost predicate Grounded(logs: map<int, Log>, log: Log) {
    WellIndexed(log) && forall k: nat | k < |log| :: GroundedAt(logs, log, k)
  }

  /** A leader's last entry always carries the leader's term. */
  ghost predicate LeaderLogOk(logs: map<int, Log>, t: int)
    requires t in logs
  {
    Grounded(logs, logs[t]) && (logs[t] != [] ==> logs[t][|logs[t]| - 1].term == t)
  }

  /** The entries an append carries are a stretch of its sender's log that ends in the sender's term. */
  ghost predicate Stretch(logs: map<int, Log>, args: AppendEntriesArgs)
    requires args.term in logs
  {
    var log, end := logs[args.term], args.prevLogIndex + |args.entries|;
    && 0 <= args.prevLogIndex && end <= |log|
    && args.entries == log[args.prevLogIndex..end]
    && args.prevLogTerm == (if args.prevLogIndex == 0 then 0 else log[args.prevLogIndex - 1].term)
    && (end > 0 ==> log[end - 1].term == args.term)
  }

  /** Starting beyond the sender's log, an append carries nothing and a term no entry has. */
  predicate Beyond(args: AppendEntriesArgs) {
    args.prevLogIndex > 0 && args.prevLogTerm == -1 && args.entries == []
  }

  ghost predicate MessageOk(c: Cluster, m: AppendRequest) {
    && m.from != m.to && m.args.leaderCommit >= 0
    && m.args.term in c.winners && c.winners[m.args.term] == m.from && m.args.term in c.leaderLogs
    && (m.args.job == Append ==> Beyond(m.args) || Stretch(c.leaderLogs, m.args))
  }

  ghost predicate HostLogsOk(c: Cluster, i: nat)
    requires i < |c.hosts|
  {
    var h := c.hosts[i];
    && Grounded(c.leaderLogs, h.s.log) && Grounded(c.leaderLogs, h.disk.log)
    && AppliedInOrder(h.s)
    && (h.s.role == Leader ==> h.s.term in c.leaderLogs && h.s.log == c.leaderLogs[h.s.term])
  }

  ghost predicate LogInv(c: Cluster) {
    && c.leaderLogs.Keys == c.winners.Keys
    && (forall t | t in c.leaderLogs :: LeaderLogOk(c.leaderLogs, t))
    && (forall i: nat | i < |c.hosts| :: HostLogsOk(c, i))
    && (forall m | m in c.appendRequests :: MessageOk(c, m))
  }

  /** Leaders only append to their logs. */
  ghost predicate LogsGrow(logs: map<int, Log>, logs': map<int, Log>) {
    forall t | t in logs :: t in logs' && logs[t] <= logs'[t]
  }

  lemma GroundedGrow(logs: map<int, Log>, logs': map<int, Log>, log: Log)
    requires Grounded(logs, log) && LogsGrow(logs, logs')
    ensures Grounded(logs', log)
  {
    forall k: nat | k < |log| ensures GroundedAt(logs', log, k) {
      assert GroundedAt(logs, log, k);
      var t := log[k].term;
      assert logs'[t][..k + 1] == logs[t][..k + 1];
    }
  }

  lemma MessageGrow(c: Cluster, c': Cluster, m: AppendRequest)
    requires MessageOk(c, m) && Advance(c, c') && LogsGrow(c.leaderLogs, c'.leaderLogs)
    ensures MessageOk(c', m)
  {
    if m.args.job == Append && Stretch(c.leaderLogs, m.args) {
      var log, log' := c.leaderLogs[m.args.term], c'.leaderLogs[m.args.term];
      var end := m.args.prevLogIndex + |m.args.entries|;
      assert log'[m.args.prevLogIndex..end] == log[m.args.prevLogIndex..end];
    }
  }

  /** A prefix of a grounded log is grounded. */
  lemma GroundedPrefix(logs: map<int, Log>, log: Log, n: nat)
    requires Grounded(logs, log) && n <= |log|
    ensures Grounded(logs, log[..n])
  {
    forall k: nat | k < n ensures GroundedAt(logs, log[..n], k) {
      assert GroundedAt(logs, log, k);
      assert log[..n][..k + 1] == log[..k + 1];
    }
  }

  /** Log Matching for two logs grounded in the same leaders. */
  lemma GroundedMatch(logs: map<int, Log>, a: Log, b: Log, k: nat)
    requires Grounded(logs, a) && Grounded(logs, b)
    requires k < |a| && k < |b| && a[k].term == b[k].term
    ensures a[..k + 1] == b[..k + 1]
  {
    assert GroundedAt(logs, a, k) && GroundedAt(logs, b, k);
  }

  /** What a follower makes of a matching append is exactly the log its leader sent from. */
  lemma AcceptedIsSent(logs: map<int, Log>, log: Log, args: AppendEntriesArgs)
    requires Grounded(logs, log) && args.term in logs && LeaderLogOk(logs, args.term)
    requires Stretch(logs, args)
    requires TermAt(log, args.prevLogIndex) == Some(args.prevLogTerm)
    ensures args.prevLogIndex <= |log|
    ensures SetLastTerm(log[..args.prevLogIndex] + args.entries, args.term)
            == logs[args.term][..args.prevLogIndex + |args.entries|]
  {
    var prev, sent := args.prevLogIndex, logs[args.term];
    if prev > 0 {
      assert log[prev - 1].term == sent[prev - 1].term;
      GroundedMatch(logs, log, sent, prev - 1);
    }
    assert log[..prev] + args.entries == sent[..prev + |args.entries|];
  }

  // ---- the messages a leader sends ----

  lemma SentIsStretch(logs: map<int, Log>, s: Server, prev: nat)
    requires s.term in logs && s.log == logs[s.term] && LeaderLogOk(logs, s.term)
    ensures var args := AppendArgsFrom(s, prev); Beyond(args) || Stretch(logs, args)
  {
    LastIndexIsLength(s.log);
    if prev <= |s.log| {
      assert s.log[prev..] == s.log[prev..|s.log|];
    }
  }

  // ---- handling an append ----

  /** What an append leaves of the log: the log itself, a prefix of it, or the log its leader sent from. */
  lemma AppendKeepsGrounded(logs: map<int, Log>, s: Server, args: AppendEntriesArgs)
    requires Grounded(logs, s.log) && AppliedInOrder(s) && ArgsOk(args)
    requires args.term in logs && LeaderLogOk(logs, args.term)
    requires args.job == Append ==> Beyond(args) || Stretch(logs, args)
    ensures Grounded(logs, HandleAppendEntries(s, args).0.log)
    ensures AppliedInOrder(HandleAppendEntries(s, args).0)
  {
    GroundedWellIndexed(logs, s.log);
    HandlerApplies(s, args);
    HandlerKeepsLog(s, args);
    hide Grounded, LeaderLogOk, Stretch, Beyond, SetLastTerm, HandleAppendEntries;
    LastIndexIsLength(s.log);
    BeyondMisses(args);
    if args.term >= s.term && args.job == Append {
      HandlerCases(s, args);
      var prev := args.prevLogIndex;
      if prev <= |s.log| {
        if prev > 0 && s.log[prev - 1].term != args.prevLogTerm {
          GroundedPrefix(logs, s.log, prev - 1);
        } else {
          TermsArePositive(logs, s.log, prev);
          AcceptedIsSent(logs, s.log, args);
          StretchEnds(logs, args);
          LeaderLogGrounded(logs, args.term);
          GroundedPrefix(logs, logs[args.term], prev + |args.entries|);
        }
      }
    }
  }

  lemma BeyondMisses(args: AppendEntriesArgs)
    ensures Beyond(args) ==> args.prevLogTerm == -1
  {}

  lemma GroundedWellIndexed(logs: map<int, Log>, log: Log)
    requires Grounded(logs, log)
    ensures WellIndexed(log)
  {}

  lemma LeaderLogGrounded(logs: map<int, Log>, t: int)
    requires t in logs && LeaderLogOk(logs, t)
    ensures Grounded(logs, logs[t])
  {}

  lemma StretchEnds(logs: map<int, Log>, args: AppendEntriesArgs)
    requires args.term in logs && Stretch(logs, args)
    ensures 0 <= args.prevLogIndex && args.prevLogIndex + |args.entries| <= |logs[args.term]|
  {}

  lemma TermsArePositive(logs: map<int, Log>, log: Log, index: nat)
    requires Grounded(logs, log) && TermAt(log, index).Some?
    ensures TermAt(log, index).value >= 0
  {
    LastIndexIsLength(log);
    if index > 0 {
      assert GroundedAt(logs, log, index - 1);
    }
  }

  // ---- the steps ----

  /** The invariants of every run, and with them that all logs are grounded in those of the leaders. */
  ghost predicate Inv(c: Cluster) {
    WellFormed(c) && ElectionInv(c) && LogInv(c)
  }

  /** An append region of Start still finds its server leading, or adds what the leader of its term has there. */
  predicate AppendFits(c: Cluster, step: Step) {
    step.StartCommand? && IsHost(c, step.i) ==>
      var s := c.hosts[step.i].s;
      || s.role == Leader
      || (s.term in c.leaderLogs && AppendCommand(s, step.command).log <= c.leaderLogs[s.term])
  }

  /** For a server that does not lead, the entry it appends keeps its log grounded exactly then. */
  lemma AppendGrounded(logs: map<int, Log>, s: Server, command: Command)
    requires Grounded(logs, s.log) && s.term >= 1 && (s.term in logs ==> Grounded(logs, logs[s.term]))
    ensures Grounded(logs, AppendCommand(s, command).log)
            <==> s.term in logs && AppendCommand(s, command).log <= logs[s.term]
  {
    var longer := AppendCommand(s, command).log;
    var n := |s.log|;
    LastIndexIsLength(s.log);
    assert longer[..n + 1] == longer;
    if Grounded(logs, longer) {
      assert GroundedAt(logs, longer, n);
    }
    if s.term in logs && longer <= logs[s.term] {
      GroundedPrefix(logs, logs[s.term], n + 1);
      assert logs[s.term][..n + 1] == longer;
    }
  }

  lemma LeaderLogsGrow(logs: map<int, Log>, logs': map<int, Log>)
    requires LogsGrow(logs, logs')
    requires forall t | t in logs :: LeaderLogOk(logs, t)
    ensures forall t | t in logs && logs'[t] == logs[t] :: LeaderLogOk(logs', t)
  {
    forall t | t in logs && logs'[t] == logs[t] ensures LeaderLogOk(logs', t) {
      assert LeaderLogOk(logs, t);
      GroundedGrow(logs, logs', logs[t]);
    }
  }

  /** It is enough to look at the server that moved, the messages that are new and the leader log that grew. */
  lemma AssembleLogs(c: Cluster, c': Cluster, i: nat)
    requires Inv(c) && Advance(c, c') && i < |c.hosts| && OnlyHost(c, c', i)
    requires LogsGrow(c.leaderLogs, c'.leaderLogs) && c'.leaderLogs.Keys == c'.winners.Keys
    requires forall t | t in c'.leaderLogs && !(t in c.leaderLogs && c'.leaderLogs[t] == c.leaderLogs[t]) ::
               LeaderLogOk(c'.leaderLogs, t) && t in c'.winners && c'.winners[t] == i
    requires HostLogsOk(c', i)
    requires forall m | m in c'.appendRequests && m !in c.appendRequests :: MessageOk(c', m)
    ensures LogInv(c')
  {
    hide MessageOk, LeaderLogOk, LogsGrow, Advance, HostLogsOk;
    LeaderLogsGrow(c.leaderLogs, c'.leaderLogs);
    forall t | t in c'.leaderLogs ensures LeaderLogOk(c'.leaderLogs, t) {}
    forall j: nat | j < |c.hosts| ensures HostLogsOk(c', j) {
      if j != i {
        OtherHostLogs(c, c', i, j);
      }
    }
    forall m | m in c'.appendRequests ensures MessageOk(c', m) {
      if m in c.appendRequests {
        MessageGrow(c, c', m);
      }
    }
  }

  lemma OtherHostLogs(c: Cluster, c': Cluster, i: nat, j: nat)
    requires Inv(c) && Advance(c, c') && LogsGrow(c.leaderLogs, c'.leaderLogs)
    requires i < |c.hosts| && j < |c.hosts| && j != i && c'.hosts[j] == c.hosts[j]
    requires forall t | t in c'.leaderLogs && !(t in c.leaderLogs && c'.leaderLogs[t] == c.leaderLogs[t]) ::
               t in c'.winners && c'.winners[t] == i
    ensures HostLogsOk(c', j)
  {
    assert HostLogsOk(c, j) && LeaderOk(c, j);
    GroundedGrow(c.leaderLogs, c'.leaderLogs, c.hosts[j].s.log);
    GroundedGrow(c.leaderLogs, c'.leaderLogs, c.hosts[j].disk.log);
  }

  lemma LogsAt(c: Cluster, i: nat)
    requires Inv(c) && i < |c.hosts|
    ensures HostLogsOk(c, i) && LeaderOk(c, i) && HostOk(c, i)
    ensures c.leaderLogs.Keys == c.winners.Keys
    ensures LogsGrow(c.leaderLogs, c.leaderLogs)
    ensures c.hosts[i].s.role == Leader ==> LeaderLogOk(c.leaderLogs, c.hosts[i].s.term)
  {
    assert HostLogsOk(c, i);
  }

  /** A step that leaves the logs of all leaders alone. */
  lemma QuietStep(c: Cluster, c': Cluster, i: nat, h: Host)
    requires Inv(c) && Advance(c, c') && i < |c.hosts| && c'.hosts == c.hosts[i := h]
    requires c'.leaderLogs == c.leaderLogs && c'.winners == c.winners
    requires HostLogsOk(c', i)
    requires forall m | m in c'.appendRequests && m !in c.appendRequests :: MessageOk(c', m)
    ensures LogInv(c')
  {
    hide Inv, HostLogsOk, MessageOk, Advance;
    LogsAt(c, i);
    AssembleLogs(c, c', i);
  }

  /** A step that changes no log, applies nothing and makes no leader. */
  lemma SameLogs(c: Cluster, c': Cluster, i: nat, h: Host)
    requires Inv(c) && Advance(c, c') && i < |c.hosts| && c'.hosts == c.hosts[i := h]
    requires c'.leaderLogs == c.leaderLogs && c'.winners == c.winners
    requires c'.appendRequests == c.appendRequests
    requires h.s.log == c.hosts[i].s.log && (h.disk.log == c.hosts[i].disk.log || h.disk.log == h.s.log)
    requires h.s.lastApply == c.hosts[i].s.lastApply && h.s.applied == c.hosts[i].s.applied
    requires h.s.commitIndex == c.hosts[i].s.commitIndex
    requires h.s.role == Leader ==> c.hosts[i].s.role == Leader && h.s.term == c.hosts[i].s.term
    ensures LogInv(c')
  {
    hide Inv, Advance, Grounded;
    LogsAt(c, i);
    QuietStep(c, c', i, h);
  }

  lemma StartCandidacyKeepsLogs(c: Cluster, i: nat)
    requires Inv(c) && WellFormed(c) && Enabled(c, StartCandidacy(i))
    ensures LogInv(Do(c, StartCandidacy(i)))
  {
    hide Inv, WellFormed, Advance, LogInv, ElectionInv, VoteArgs;
    ElectionPart(c, StartCandidacy(i));
    SameLogs(c, Do(c, StartCandidacy(i)), i, Do(c, StartCandidacy(i)).hosts[i]);
  }

  lemma ElectionPart(c: Cluster, step: Step)
    requires Inv(c) && WellFormed(c) && Enabled(c, step)
    ensures ElectionInv(c) && LogInv(c) && ElectionInv(Do(c, step)) && Advance(c, Do(c, step))
  {
    StepKeeps(c, step);
  }

  lemma AnswerVoteKeepsLogs(c: Cluster, i: nat, request: VoteRequest)
    requires Inv(c) && WellFormed(c) && Enabled(c, AnswerVote(i, request))
    ensures LogInv(Do(c, AnswerVote(i, request)))
  {
    hide Inv, Advance, LogInv, ElectionInv, HandleRequestVote, Disk;
    VoteEffect(c.hosts[i].s, request.args);
    ElectionPart(c, AnswerVote(i, request));
    var c' := Do(c, AnswerVote(i, request));
    DiskLog(c'.hosts[i].s);
    SameLogs(c, c', i, c'.hosts[i]);
  }

  lemma DiskLog(s: Server)
    ensures Disk(s).log == s.log
  {}

  lemma CountVoteKeepsLogs(c: Cluster, vote: VoteReply)
    requires Inv(c) && WellFormed(c) && Enabled(c, CountVote(vote))
    ensures LogInv(Do(c, CountVote(vote)))
  {
    hide Inv, WellFormed, Advance, LogInv, ElectionInv;
    ElectionPart(c, CountVote(vote));
    var c' := Do(c, CountVote(vote));
    SameLogs(c, c', vote.to, c'.hosts[vote.to]);
  }

  lemma GiveUpKeepsLogs(c: Cluster, i: nat)
    requires Inv(c) && WellFormed(c) && Enabled(c, GiveUp(i))
    ensures LogInv(Do(c, GiveUp(i)))
  {
    hide Inv, WellFormed, Advance, LogInv, ElectionInv;
    ElectionPart(c, GiveUp(i));
    SameLogs(c, Do(c, GiveUp(i)), i, Do(c, GiveUp(i)).hosts[i]);
  }

  lemma StepDownKeepsLogs(c: Cluster, answer: AppendReply)
    requires Inv(c) && WellFormed(c) && Enabled(c, StepDown(answer))
    ensures LogInv(Do(c, StepDown(answer)))
  {
    hide Inv, WellFormed, Advance, LogInv, ElectionInv;
    ElectionPart(c, StepDown(answer));
    var c' := Do(c, StepDown(answer));
    SameLogs(c, c', answer.to, c'.hosts[answer.to]);
  }

  /** Taking the last entry over into a new term gives the new leader's log. */
  lemma WonLog(logs: map<int, Log>, log: Log, t: int)
    requires Grounded(logs, log) && t !in logs && t >= 1
    ensures var won := SetLastTerm(log, t);
            LogsGrow(logs, logs[t := won]) && LeaderLogOk(logs[t := won], t)
  {
    var won := SetLastTerm(log, t);
    var logs' := logs[t := won];
    forall k: nat | k < |won| ensures GroundedAt(logs', won, k) {
      if k < |won| - 1 {
        assert GroundedAt(logs, log, k);
        assert won[..k + 1] == log[..k + 1];
      }
    }
  }

  lemma WinKeepsLogs(c: Cluster, i: nat)
    requires Inv(c) && WellFormed(c) && Enabled(c, Win(i))
    ensures LogInv(Do(c, Win(i)))
  {
    hide Inv, Advance, LogInv, ElectionInv, Grounded, LogsGrow, LeaderLogOk, PeerTable, SetLastTerm, AttemptOk,
         WellFormed;
    ElectionPart(c, Win(i));
    LogsAt(c, i);
    WinIsFresh(c, i);
    TermPositive(c, i);
    var c' := Do(c, Win(i));
    var t, won := c.hosts[i].s.term, SetLastTerm(c.hosts[i].s.log, c.hosts[i].s.term);
    WonLog(c.leaderLogs, c.hosts[i].s.log, t);
    LeaderLogGrounded(c'.leaderLogs, t);
    GroundedGrow(c.leaderLogs, c'.leaderLogs, c.hosts[i].disk.log);
    AssembleLogs(c, c', i);
  }

  lemma TermPositive(c: Cluster, i: nat)
    requires ElectionInv(c) && Enabled(c, Win(i))
    ensures c.hosts[i].s.term >= 1
  {
    assert AttemptOk(c, i);
  }

  /** A leader's own entry extends its log. */
  lemma ExtendedLog(logs: map<int, Log>, t: int, entry: LogEntry)
    requires t in logs && LeaderLogOk(logs, t) && t >= 1
    requires entry.term == t && entry.index == LastIndex(logs[t]) + 1
    ensures var longer := logs[t] + [entry];
            LogsGrow(logs, logs[t := longer]) && LeaderLogOk(logs[t := longer], t)
  {
    var longer := logs[t] + [entry];
    var logs' := logs[t := longer];
    LastIndexIsLength(logs[t]);
    forall k: nat | k < |longer| ensures GroundedAt(logs', longer, k) {
      if k < |logs[t]| {
        assert GroundedAt(logs, logs[t], k);
        var u := logs[t][k].term;
        assert longer[..k + 1] == logs[t][..k + 1];
        assert logs'[u][..k + 1] == logs[u][..k + 1];
      }
    }
  }

  lemma StartCommandKeepsLogs(c: Cluster, i: nat, command: Command)
    requires Inv(c) && WellFormed(c) && Enabled(c, StartCommand(i, command)) && AppendFits(c, StartCommand(i, command))
    ensures LogInv(Do(c, StartCommand(i, command)))
  {
    hide Inv, Advance, LogInv, ElectionInv, Grounded, LogsGrow, LeaderLogOk, WellFormed;
    ElectionPart(c, StartCommand(i, command));
    LogsAt(c, i);
    var c' := Do(c, StartCommand(i, command));
    var s := c.hosts[i].s;
    if s.role == Leader {
      LedTermPositive(c, i);
      ExtendedLog(c.leaderLogs, s.term, LogEntry(LastIndex(s.log) + 1, command, s.term));
      LeaderLogGrounded(c'.leaderLogs, s.term);
      AssembleLogs(c, c', i);
    } else {
      FittingGrounded(c, i, command);
      QuietStep(c, c', i, c'.hosts[i]);
    }
  }

  lemma FittingGrounded(c: Cluster, i: nat, command: Command)
    requires Inv(c) && IsHost(c, i) && c.hosts[i].s.role != Leader && AppendFits(c, StartCommand(i, command))
    ensures Grounded(c.leaderLogs, AppendCommand(c.hosts[i].s, command).log)
  {
    var s := c.hosts[i].s;
    assert LeaderLogOk(c.leaderLogs, s.term) && HostLogsOk(c, i);
    assert WinnerOk(c, s.term);
    AppendGrounded(c.leaderLogs, s, command);
  }

  lemma BeginStartKeepsLogs(c: Cluster, i: nat, command: Command)
    requires Inv(c) && WellFormed(c) && Enabled(c, BeginStart(i, command))
    ensures LogInv(Do(c, BeginStart(i, command)))
  {
    hide Inv, WellFormed, Advance, LogInv, ElectionInv;
    ElectionPart(c, BeginStart(i, command));
    SameLogs(c, Do(c, BeginStart(i, command)), i, Do(c, BeginStart(i, command)).hosts[i]);
  }

  lemma LedTermPositive(c: Cluster, i: nat)
    requires ElectionInv(c) && i < |c.hosts| && c.hosts[i].s.role == Leader
    ensures c.hosts[i].s.term >= 1
  {
    assert LeaderOk(c, i);
    assert WinnerOk(c, c.hosts[i].s.term);
  }

  lemma SendKeepsLogs(c: Cluster, step: Step)
    requires Inv(c) && WellFormed(c) && Enabled(c, step) && (step.SendAppend? || step.SendHeartbeat?)
    ensures LogInv(Do(c, step))
  {
    hide Inv, Advance, LogInv, ElectionInv, Grounded, LogsGrow, LeaderLogOk, WellFormed, Beyond, Stretch,
         AppendArgsFrom;
    ElectionPart(c, step);
    LogsAt(c, step.i);
    var c' := Do(c, step);
    var s := c.hosts[step.i].s;
    if step.SendAppend? {
      GroundedWellIndexed(c.leaderLogs, s.log);
      SentIsStretch(c.leaderLogs, s, step.prev);
      AppendArgsHeader(s, step.prev);
    }
    QuietStep(c, c', step.i, c'.hosts[step.i]);
  }

  lemma AppendArgsHeader(s: Server, prev: nat)
    requires WellIndexed(s.log)
    ensures AppendArgsFrom(s, prev).term == s.term && AppendArgsFrom(s, prev).job == Append
    ensures AppendArgsFrom(s, prev).leaderCommit == s.commitIndex
  {}

  lemma AnswerAppendKeepsLogs(c: Cluster, append: AppendRequest)
    requires Inv(c) && WellFormed(c) && Enabled(c, AnswerAppend(append))
    ensures LogInv(Do(c, AnswerAppend(append)))
  {
    var s := c.hosts[append.to].s;
    MessageAt(c, append);
    AppendEffect(s, append.args);
    hide Inv, Advance, LogInv, ElectionInv, Grounded, LogsGrow, LeaderLogOk, Beyond, Stretch, HandleAppendEntries,
         ArgsOk;
    ElectionPart(c, AnswerAppend(append));
    LogsAt(c, append.to);
    var c' := Do(c, AnswerAppend(append));
    AppendKeepsGrounded(c.leaderLogs, s, append.args);
    StaleAppend(s, append.args);
    QuietStep(c, c', append.to, c'.hosts[append.to]);
  }

  lemma StaleAppend(s: Server, args: AppendEntriesArgs)
    requires WellIndexed(s.log) && ArgsOk(args) && 0 <= s.lastApply
    ensures args.term < s.term ==> HandleAppendEntries(s, args).0 == s
  {}

  lemma MessageAt(c: Cluster, m: AppendRequest)
    requires Inv(c) && m in c.appendRequests
    ensures MessageOk(c, m) && ArgsOk(m.args)
    ensures m.args.term in c.leaderLogs && LeaderLogOk(c.leaderLogs, m.args.term)
  {
    assert MessageOk(c, m);
  }

  lemma RecordMatchKeepsLogs(c: Cluster, answer: AppendReply)
    requires Inv(c) && WellFormed(c) && Enabled(c, RecordMatch(answer))
    ensures LogInv(Do(c, RecordMatch(answer)))
  {
    var i := answer.to;
    hide Inv, Advance, LogInv, ElectionInv, Grounded, CommitAndApply;
    ElectionPart(c, RecordMatch(answer));
    LogsAt(c, i);
    CommitEffect(Matched(c.hosts[i].s, answer.from, MatchedBy(answer.args)));
    var c' := Do(c, RecordMatch(answer));
    QuietStep(c, c', i, c'.hosts[i]);
  }

  lemma NotePeerKeepsLogs(c: Cluster, i: nat, peer: nat, alive: bool)
    requires Inv(c) && WellFormed(c) && Enabled(c, NotePeer(i, peer, alive))
    ensures LogInv(Do(c, NotePeer(i, peer, alive)))
  {
    hide Inv, WellFormed, Advance, LogInv, ElectionInv;
    ElectionPart(c, NotePeer(i, peer, alive));
    SameLogs(c, Do(c, NotePeer(i, peer, alive)), i, Do(c, NotePeer(i, peer, alive)).hosts[i]);
  }

  lemma CrashKeepsLogs(c: Cluster, i: nat)
    requires Inv(c) && WellFormed(c) && Enabled(c, Crash(i))
    ensures LogInv(Do(c, Crash(i)))
  {
    hide Inv, Advance, LogInv, ElectionInv, Grounded, WellFormed;
    ElectionPart(c, Crash(i));
    LogsAt(c, i);
    var c' := Do(c, Crash(i));
    QuietStep(c, c', i, c'.hosts[i]);
  }

  lemma InvWellFormed(c: Cluster)
    requires Inv(c)
    ensures WellFormed(c)
  {}

  /** Every step keeps the invariants, appends of Start as far as they fit. */
  lemma StepKeepsInv(c: Cluster, step: Step)
    requires Inv(c) && Enabled(c, step) && AppendFits(c, step)
    ensures WellFormed(c) && Inv(Do(c, step)) && Advance(c, Do(c, step))
  {
    InvWellFormed(c);
    hide *;
    ElectionPart(c, step);
    StepKeepsWellFormed(c, step);
    match step {
      case StartCandidacy(i) => StartCandidacyKeepsLogs(c, i);
      case AnswerVote(i, request) => AnswerVoteKeepsLogs(c, i, request);
      case CountVote(vote) => CountVoteKeepsLogs(c, vote);
      case Win(i) => WinKeepsLogs(c, i);
      case GiveUp(i) => GiveUpKeepsLogs(c, i);
      case BeginStart(i, command) => BeginStartKeepsLogs(c, i, command);
      case StartCommand(i, command) => StartCommandKeepsLogs(c, i, command);
      case SendAppend(_, _, _) => SendKeepsLogs(c, step);
      case SendHeartbeat(_, _) => SendKeepsLogs(c, step);
      case AnswerAppend(append) => AnswerAppendKeepsLogs(c, append);
      case StepDown(answer) => StepDownKeepsLogs(c, answer);
      case RecordMatch(answer) => RecordMatchKeepsLogs(c, answer);
      case NotePeer(i, peer, alive) => NotePeerKeepsLogs(c, i, peer, alive);
      case Crash(i) => CrashKeepsLogs(c, i);
    }
    AllParts(Do(c, step));
  }

  lemma AllParts(c: Cluster)
    requires WellFormed(c) && ElectionInv(c) && LogInv(c)
    ensures Inv(c)
  {}

  // ---- whole runs ----

  lemma StartInv(n: nat)
    ensures Inv(Start(n))
  {
    StartSound(n);
    var c := Start(n);
    forall i: nat | i < n ensures HostLogsOk(c, i) {
      assert c.hosts[i] == FreshHost(i, n);
    }
  }

  /** In this run every append region of Start fits. */
  ghost predicate AppendsFit(r: Execution) {
    |r.states| == |r.steps| + 1 && forall k | 0 <= k < |r.steps| :: AppendFits(r.states[k], r.steps[k])
  }

  /** In particular so it is when each of them still finds its server leading. */
  ghost predicate LeadersAppend(r: Execution) {
    && |r.states| == |r.steps| + 1
    && forall k | 0 <= k < |r.steps| && r.steps[k].StartCommand? && IsHost(r.states[k], r.steps[k].i) ::
         r.states[k].hosts[r.steps[k].i].s.role == Leader
  }

  lemma LeadersFit(r: Execution)
    requires LeadersAppend(r)
    ensures AppendsFit(r)
  {}

  /** The invariants hold in every state of every run whose append regions fit. */
  lemma {:induction false} RunInv(r: Execution, n: nat, k: nat)
    requires IsRun(r, n) && AppendsFit(r) && k < |r.states|
    ensures Inv(r.states[k]) && WellFormed(r.states[k])
  {
    if k == 0 {
      StartInv(n);
      InvWellFormed(r.states[0]);
    } else {
      RunInv(r, n, k - 1);
      assert StepAt(r, k - 1) && AppendFits(r.states[k - 1], r.steps[k - 1]);
      hide Inv, WellFormed, Do, Enabled, AppendFits;
      StepKeepsInv(r.states[k - 1], r.steps[k - 1]);
      InvWellFormed(r.states[k]);
    }
  }

  /** And in no other runs: all logs are grounded throughout exactly if every append region of Start fits. */
  lemma RunInvExactly(r: Execution, n: nat)
    requires IsRun(r, n)
    ensures (forall k: nat | k < |r.states| :: Inv(r.states[k])) <==> AppendsFit(r)
  {
    if AppendsFit(r) {
      forall k: nat | k < |r.states| ensures Inv(r.states[k]) {
        RunInv(r, n, k);
      }
    }
    if forall k: nat | k < |r.states| :: Inv(r.states[k]) {
      forall k: nat | k < |r.steps| ensures AppendFits(r.states[k], r.steps[k]) {
        assert StepAt(r, k) && Inv(r.states[k]) && Inv(r.states[k + 1]);
        InvWellFormed(r.states[k]);
        hide Inv, Do, WellFormed, AppendFits, Enabled;
        InvNeedsFit(r.states[k], r.steps[k]);
      }
    }
  }

  lemma InvNeedsFit(c: Cluster, step: Step)
    requires Inv(c) && WellFormed(c) && Enabled(c, step) && Inv(Do(c, step))
    ensures AppendFits(c, step)
  {
    if step.StartCommand? && c.hosts[step.i].s.role != Leader {
      var c', s := Do(c, step), c.hosts[step.i].s;
      LogsAt(c, step.i);
      LogsAt(c', step.i);
      TermOfGrounded(c, step.i, step.command);
      if s.term in c.leaderLogs {
        assert LeaderLogOk(c.leaderLogs, s.term);
      }
      AppendGrounded(c.leaderLogs, s, step.command);
    }
  }

  lemma TermOfGrounded(c: Cluster, i: nat, command: Command)
    requires IsHost(c, i) && Grounded(c.leaderLogs, AppendCommand(c.hosts[i].s, command).log)
    ensures c.hosts[i].s.term >= 1
  {
    assert GroundedAt(c.leaderLogs, AppendCommand(c.hosts[i].s, command).log, |c.hosts[i].s.log|);
  }

  // ---- the logs of leaders only grow ----

  lemma LeaderLogsOfStep(c: Cluster, step: Step)
    requires Inv(c) && WellFormed(c) && Enabled(c, step)
    ensures LogsGrow(c.leaderLogs, Do(c, step).leaderLogs)
  {
    hide Inv, WellFormed, HandleAppendEntries, HandleRequestVote, CommitAndApply, HostOk;
    match step {
      case Win(i) =>
        ElectionPart(c, step);
        LogsAt(c, i);
        WinIsFresh(c, i);
      case StartCommand(i, _) =>
        LogsAt(c, i);
      case _ =>
        assert Do(c, step).leaderLogs == c.leaderLogs;
    }
  }

  lemma SameLogsGrow(logs: map<int, Log>)
    ensures LogsGrow(logs, logs)
  {}

  lemma GrowTransitive(a: map<int, Log>, b: map<int, Log>, c: map<int, Log>)
    requires LogsGrow(a, b) && LogsGrow(b, c)
    ensures LogsGrow(a, c)
  {}

  lemma {:induction false} RunGrow(r: Execution, n: nat, i: nat, j: nat)
    requires IsRun(r, n) && AppendsFit(r) && i <= j < |r.states|
    ensures LogsGrow(r.states[i].leaderLogs, r.states[j].leaderLogs)
  {
    hide LogsGrow, Inv, WellFormed, Do, Enabled, AppendsFit;
    if i == j {
      SameLogsGrow(r.states[i].leaderLogs);
    } else {
      RunGrow(r, n, i, j - 1);
      RunInv(r, n, j - 1);
      assert StepAt(r, j - 1);
      LeaderLogsOfStep(r.states[j - 1], r.steps[j - 1]);
      GrowTransitive(r.states[i].leaderLogs, r.states[j - 1].leaderLogs, r.states[j].leaderLogs);
    }
  }
}
