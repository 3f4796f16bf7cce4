/** What holds of whole runs of a Raft cluster. */
module RaftTheorems {
  import opened RaftServer
  import opened RaftCluster
  import opened RaftElection
  import opened RaftRuns
  import opened RaftLogs

  /** Step k of the run is a server deciding that it won a term. */
  ghost predicate Wins(r: Execution, k: nat, server: nat, term: int) {
    && k < |r.steps| && |r.states| == |r.steps| + 1
    && r.steps[k] == Win(server)
    && server < |r.states[k].hosts| && r.states[k].hosts[server].s.term == term
  }

  /** Election Safety: no term is won twice in a run, so all who decide Win for one term are one server. */
  lemma ElectionSafety(r: Execution, n: nat, p: nat, q: nat, a: nat, b: nat, term: int)
    requires IsRun(r, n) && p <= q && Wins(r, p, a, term) && Wins(r, q, b, term)
    ensures p == q && a == b
  {
    hide ElectionInv, WellFormed, Do;
    RunSound(r, n, p);
    RunSound(r, n, q);
    assert StepAt(r, p) && StepAt(r, q);
    FreshWin(r.states[q], b);
    if p < q {
      RunAdvance(r, n, p + 1, q);
      WinRecorded(r.states[p], a);
    }
  }

  lemma FreshWin(c: Cluster, i: nat)
    requires ElectionInv(c) && Enabled(c, Win(i))
    ensures c.hosts[i].s.term !in c.winners
  {
    WinIsFresh(c, i);
  }

  lemma WinRecorded(c: Cluster, i: nat)
    requires WellFormed(c) && Enabled(c, Win(i))
    ensures c.hosts[i].s.term in Do(c, Win(i)).winners
  {}

  /** Terms never go back, crashes included. */
  lemma TermsNeverDecrease(r: Execution, n: nat, i: nat, j: nat, server: nat)
    requires IsRun(r, n) && i <= j < |r.states| && server < n
    ensures |r.states[i].hosts| == |r.states[j].hosts| == n
    ensures r.states[i].hosts[server].s.term <= r.states[j].hosts[server].s.term
  {
    RunAdvance(r, n, 0, i);
    RunAdvance(r, n, i, j);
    assert HostAdvance(r.states[i].hosts[server], r.states[j].hosts[server]);
  }

  /** A server's vote in a term: a granted reply it sent, or its own candidacy. */
  ghost predicate VotedFor(c: Cluster, voter: nat, term: int, candidate: nat) {
    || (exists m | m in c.voteReplies ::
          m.from == voter && m.reply.voteGranted && m.reply.term == term && m.to == candidate)
    || (voter == candidate && voter < |c.hosts|
        && c.hosts[voter].attempt.Some? && c.hosts[voter].attempt.value.term == term)
  }

  lemma VoteIsGrant(c: Cluster, voter: nat, term: int, candidate: nat)
    requires ElectionInv(c) && VotedFor(c, voter, term, candidate)
    ensures Granted(c, voter, term, candidate)
  {
    if m :| m in c.voteReplies && m.from == voter && m.reply.voteGranted && m.reply.term == term && m.to == candidate {
      assert ReplyOk(c, m);
    } else {
      assert AttemptOk(c, voter);
    }
  }

  /** One vote per server and term over a whole run, crashes and its own candidacy included. */
  lemma OneVotePerTerm(r: Execution, n: nat, i: nat, j: nat, voter: nat, term: int, a: nat, b: nat)
    requires IsRun(r, n) && i <= j < |r.states|
    requires VotedFor(r.states[i], voter, term, a) && VotedFor(r.states[j], voter, term, b)
    ensures a == b
  {
    RunSound(r, n, i);
    RunSound(r, n, j);
    RunAdvance(r, n, i, j);
    VoteIsGrant(r.states[i], voter, term, a);
    VoteIsGrant(r.states[j], voter, term, b);
  }

  // ---- Log Matching ----

  /** A stretch of entries: entries[k] stands at index start + k + 1. */
  datatype Segment = Segment(start: nat, entries: Log)
  {
    predicate Has(index: int) {
      start < index <= start + |entries|
    }

    function At(index: int): LogEntry
      requires Has(index)
    {
      entries[index - start - 1]
    }
  }

  /** Held in a server's memory or on its disk, or carried by an append. */
  ghost predicate Carried(c: Cluster, g: Segment) {
    || (exists i | 0 <= i < |c.hosts| :: g == Segment(0, c.hosts[i].s.log) || g == Segment(0, c.hosts[i].disk.log))
    || (exists m | m in c.appendRequests ::
          m.args.job == Append && m.args.prevLogIndex == g.start && m.args.entries == g.entries)
  }

  /** The segment is the end of a log grounded in the leaders' logs. */
  lemma CarriedIsGrounded(c: Cluster, g: Segment) returns (log: Log)
    requires Inv(c) && Carried(c, g) && g.entries != []
    ensures Grounded(c.leaderLogs, log)
    ensures |log| == g.start + |g.entries| && log[g.start..] == g.entries
  {
    if i :| 0 <= i < |c.hosts| && (g == Segment(0, c.hosts[i].s.log) || g == Segment(0, c.hosts[i].disk.log)) {
      hide Inv, Grounded;
      LogsAt(c, i);
      log := g.entries;
    } else {
      var m :| m in c.appendRequests && m.args.job == Append && m.args.prevLogIndex == g.start
          && m.args.entries == g.entries;
      hide Inv;
      log := SentIsGrounded(c, m);
    }
  }

  /** What an append carries is the end of a prefix of its sender's log. */
  lemma SentIsGrounded(c: Cluster, m: AppendRequest) returns (log: Log)
    requires Inv(c) && m in c.appendRequests && m.args.job == Append && m.args.entries != []
    ensures Grounded(c.leaderLogs, log)
    ensures 0 <= m.args.prevLogIndex && |log| == m.args.prevLogIndex + |m.args.entries|
    ensures log[m.args.prevLogIndex..] == m.args.entries
  {
    MessageAt(c, m);
    hide Inv, Grounded;
    var sent := c.leaderLogs[m.args.term];
    LeaderLogGrounded(c.leaderLogs, m.args.term);
    var end := m.args.prevLogIndex + |m.args.entries|;
    log := sent[..end];
    GroundedPrefix(c.leaderLogs, sent, end);
  }

  /**
   * Log Matching over every run whose appends of Start fit, as they do while their servers still lead: take any two
   * stretches of log ever held by servers, in memory or on disk, or carried in appends, at whatever times. If they
   * have entries of the same term at the same index, then they agree on every index up to it that both have.
   */
  lemma LogMatching(r: Execution, n: nat, i: nat, j: nat, a: Segment, b: Segment, index: int, earlier: int)
    requires IsRun(r, n) && AppendsFit(r) && i <= j < |r.states|
    requires || (Carried(r.states[i], a) && Carried(r.states[j], b))
             || (Carried(r.states[j], a) && Carried(r.states[i], b))
    requires a.Has(index) && b.Has(index) && a.At(index).term == b.At(index).term
    requires earlier <= index && a.Has(earlier) && b.Has(earlier)
    ensures a.At(earlier) == b.At(earlier)
  {
    hide Carried, IsRun, AppendsFit;
    if Carried(r.states[i], a) && Carried(r.states[j], b) {
      OrderedMatch(r, n, i, j, a, b, index, earlier);
    } else {
      OrderedMatch(r, n, i, j, b, a, index, earlier);
    }
  }

  lemma OrderedMatch(r: Execution, n: nat, i: nat, j: nat, a: Segment, b: Segment, index: int, earlier: int)
    requires IsRun(r, n) && AppendsFit(r) && i <= j < |r.states|
    requires Carried(r.states[i], a) && Carried(r.states[j], b)
    requires a.Has(index) && b.Has(index) && a.At(index).term == b.At(index).term
    requires earlier <= index && a.Has(earlier) && b.Has(earlier)
    ensures a.At(earlier) == b.At(earlier)
  {
    hide Carried, IsRun, AppendsFit, Grounded, Inv;
    RunInv(r, n, i);
    RunInv(r, n, j);
    RunGrow(r, n, i, j);
    var x := CarriedIsGrounded(r.states[i], a);
    var y := CarriedIsGrounded(r.states[j], b);
    GroundedGrow(r.states[i].leaderLogs, r.states[j].leaderLogs, x);
    SegmentAt(x, a, index);
    SegmentAt(y, b, index);
    SegmentAt(x, a, earlier);
    SegmentAt(y, b, earlier);
    GroundedMatch(r.states[j].leaderLogs, x, y, index - 1);
    assert x[..index][earlier - 1] == y[..index][earlier - 1];
  }

  lemma SegmentAt(log: Log, g: Segment, index: int)
    requires |log| == g.start + |g.entries| && log[g.start..] == g.entries && g.Has(index)
    ensures log[index - 1] == g.At(index)
  {
    assert log[g.start..][index - g.start - 1] == log[index - 1];
  }

  /** In particular, whole logs with the same term at the same index are identical through it. */
  lemma LogsIdentical(r: Execution, n: nat, i: nat, a: nat, b: nat, index: nat)
    requires IsRun(r, n) && AppendsFit(r) && i < |r.states|
    requires a < |r.states[i].hosts| && b < |r.states[i].hosts|
    requires var (x, y) := (r.states[i].hosts[a].s.log, r.states[i].hosts[b].s.log);
             1 <= index <= |x| && index <= |y| && x[index - 1].term == y[index - 1].term
    ensures r.states[i].hosts[a].s.log[..index] == r.states[i].hosts[b].s.log[..index]
  {
    RunInv(r, n, i);
    var c := r.states[i];
    assert HostLogsOk(c, a) && HostLogsOk(c, b);
    GroundedMatch(c.leaderLogs, c.hosts[a].s.log, c.hosts[b].s.log, index - 1);
  }

  // ---- applying ----

  /** Every incarnation of a server emits indices 1, 2, 3, ... without gap or repeat. */
  lemma AppliedOnceInOrder(r: Execution, n: nat, i: nat, server: nat)
    requires IsRun(r, n) && i < |r.states| && server < |r.states[i].hosts|
    ensures AppliedInOrder(r.states[i].hosts[server].s)
  {
    RunSound(r, n, i);
  }

  /** And no step but a crash takes back anything that was emitted. */
  lemma AppliedOnlyGrows(r: Execution, n: nat, i: nat, server: nat)
    requires IsRun(r, n) && i < |r.steps| && server < |r.states[i].hosts| && r.steps[i] != Crash(server)
    ensures |r.states[i + 1].hosts| == |r.states[i].hosts|
    ensures r.states[i].hosts[server].s.applied <= r.states[i + 1].hosts[server].s.applied
  {
    RunSound(r, n, i);
    assert StepAt(r, i);
    StepApplies(r.states[i], r.steps[i], server);
  }

  lemma StepApplies(c: Cluster, step: Step, server: nat)
    requires WellFormed(c) && Enabled(c, step) && server < |c.hosts| && step != Crash(server)
    ensures |Do(c, step).hosts| == |c.hosts|
    ensures c.hosts[server].s.applied <= Do(c, step).hosts[server].s.applied
  {
    if step.AnswerAppend? {
      AnswerAppendApplies(c, step.append, server);
    } else if step.RecordMatch? {
      RecordMatchApplies(c, step.answer, server);
    } else {
      hide HandleAppendEntries, CommitAndApply, UpToDate, WellFormed;
      if step.AnswerVote? {
        VoteApplies(c, step.i, step.request);
      }
      hide HandleRequestVote;
    }
  }

  lemma VoteApplies(c: Cluster, i: nat, request: VoteRequest)
    requires WellFormed(c) && Enabled(c, AnswerVote(i, request))
    ensures HandleRequestVote(c.hosts[i].s, request.args).0.applied == c.hosts[i].s.applied
  {
    VoteEffect(c.hosts[i].s, request.args);
  }

  lemma AnswerAppendApplies(c: Cluster, append: AppendRequest, server: nat)
    requires WellFormed(c) && Enabled(c, AnswerAppend(append)) && server < |c.hosts|
    ensures |Do(c, AnswerAppend(append)).hosts| == |c.hosts|
    ensures c.hosts[server].s.applied <= Do(c, AnswerAppend(append)).hosts[server].s.applied
  {
    HandlerApplies(c.hosts[append.to].s, append.args);
    hide HandleAppendEntries, WellFormed, AppliedInOrder, WellIndexed;
  }

  lemma RecordMatchApplies(c: Cluster, answer: AppendReply, server: nat)
    requires WellFormed(c) && Enabled(c, RecordMatch(answer)) && server < |c.hosts|
    ensures |Do(c, RecordMatch(answer)).hosts| == |c.hosts|
    ensures c.hosts[server].s.applied <= Do(c, RecordMatch(answer)).hosts[server].s.applied
  {
    CommitApplies(c.hosts[answer.to].s, answer.from, MatchedBy(answer.args));
    hide CommitAndApply, WellFormed, AppliedInOrder, WellIndexed;
  }

  lemma CommitApplies(s: Server, peer: nat, matched: int)
    requires WellIndexed(s.log) && AppliedInOrder(s)
    ensures s.applied <= CommitAndApply(Matched(s, peer, matched)).applied
  {
    LastIndexIsLength(s.log);
  }
}
