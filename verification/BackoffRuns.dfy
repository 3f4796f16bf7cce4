/** The resend loop in runs of the cluster: what it needs of the two servers holds in every state of every run. */
module BackoffRuns {
  import opened Linearizability
  import opened RaftServer
  import opened RaftCluster
  import opened RaftElection
  import opened RaftRuns
  import opened RaftLogs
  import opened RaftNode
  import opened Backoff

  // ---- the tables of a leader ----

  /** Tables know peers only, no match is negative, and a leader has one for every peer. */
  ghost predicate TablesOk(s: Server) {
    var peers := Below(s.peerNumber);
    && s.nextIndex.Keys <= peers && s.matchIndex.Keys <= peers
    && s.peerAlive.Keys <= peers && s.openCommit.Keys <= peers
    && (forall p | p in s.matchIndex :: s.matchIndex[p] >= 0)
    && (s.role == Leader ==> s.matchIndex.Keys == peers)
  }

  ghost predicate AllTablesOk(c: Cluster) {
    forall i: nat | i < |c.hosts| :: TablesOk(c.hosts[i].s)
  }

  lemma SameTables(s: Server, s': Server)
    requires TablesOk(s) && s'.peerNumber == s.peerNumber && (s'.role == Leader ==> s.role == Leader)
    requires s'.nextIndex == s.nextIndex && s'.matchIndex == s.matchIndex
    requires s'.peerAlive == s.peerAlive && s'.openCommit == s.openCommit
    ensures TablesOk(s')
  {}

  lemma LeaderTables(s: Server)
    ensures TablesOk(BecomeLeader(s))
  {}

  lemma NotedTables(s: Server, peer: nat, alive: bool)
    requires TablesOk(s) && peer < s.peerNumber
    ensures TablesOk(PeerNoted(s, peer, alive))
  {
    BelowFacts(s.peerNumber);
  }

  lemma MatchedTables(s: Server, peer: nat, matched: int)
    requires TablesOk(s) && peer < s.peerNumber && matched >= 0
    ensures TablesOk(Matched(s, peer, matched))
  {
    BelowFacts(s.peerNumber);
  }

  lemma AppendTables(s: Server, args: AppendEntriesArgs)
    requires TablesOk(s) && WellIndexed(s.log) && ArgsOk(args) && 0 <= s.lastApply
    ensures TablesOk(HandleAppendEntries(s, args).0)
  {
    hide TablesOk;
    AppendEffect(s, args);
    SameTables(s, HandleAppendEntries(s, args).0);
  }

  lemma VoteKeepsTables(c: Cluster, step: Step)
    requires WellFormed(c) && Enabled(c, step) && Mover(step) < |c.hosts| && TablesOk(c.hosts[Mover(step)].s)
    requires step.AnswerVote?
    ensures Mover(step) < |Do(c, step).hosts| && TablesOk(Do(c, step).hosts[Mover(step)].s)
  {
    HostFacts(c, step.i);
    hide TablesOk, WellFormed, WellIndexed, AppliedInOrder, HandleAppendEntries, HandleRequestVote,
         CommitAndApply, ArgsOk, Matched, BecomeLeader, PeerNoted, VoteArgs;
    VoteEffect(c.hosts[step.i].s, step.request.args);
    SameTables(c.hosts[step.i].s, Do(c, step).hosts[step.i].s);
  }

  lemma AppendKeepsTables(c: Cluster, step: Step)
    requires WellFormed(c) && Enabled(c, step) && Mover(step) < |c.hosts| && TablesOk(c.hosts[Mover(step)].s)
    requires step.AnswerAppend?
    ensures Mover(step) < |Do(c, step).hosts| && TablesOk(Do(c, step).hosts[Mover(step)].s)
  {
    HostFacts(c, step.append.to);
    hide TablesOk, WellFormed, WellIndexed, AppliedInOrder, HandleAppendEntries, HandleRequestVote,
         CommitAndApply, ArgsOk, Matched, BecomeLeader, PeerNoted, VoteArgs;
    AppendTables(c.hosts[step.append.to].s, step.append.args);
  }

  lemma MatchKeepsTables(c: Cluster, step: Step)
    requires WellFormed(c) && Enabled(c, step) && Mover(step) < |c.hosts| && TablesOk(c.hosts[Mover(step)].s)
    requires step.RecordMatch?
    ensures Mover(step) < |Do(c, step).hosts| && TablesOk(Do(c, step).hosts[Mover(step)].s)
  {
    var (i, from, matched) := (step.answer.to, step.answer.from, MatchedBy(step.answer.args));
    var s := c.hosts[i].s;
    HostFacts(c, i);
    MatchedNotNegative(c, step.answer);
    MatchedTables(s, from, matched);
    MatchedKeeps(s, from, matched);
    CommitEffect(Matched(s, from, matched));
    hide TablesOk, WellFormed, WellIndexed, AppliedInOrder, HandleAppendEntries, HandleRequestVote,
         CommitAndApply, ArgsOk, Matched, BecomeLeader, PeerNoted, VoteArgs;
    SameTables(Matched(s, from, matched), Do(c, step).hosts[i].s);
  }

  lemma TableStep(c: Cluster, step: Step)
    requires WellFormed(c) && Enabled(c, step) && Mover(step) < |c.hosts| && TablesOk(c.hosts[Mover(step)].s)
    requires step.Win? || step.NotePeer? || step.Crash?
    ensures Mover(step) < |Do(c, step).hosts| && TablesOk(Do(c, step).hosts[Mover(step)].s)
  {
    HostFacts(c, step.i);
    hide TablesOk, WellFormed, WellIndexed, AppliedInOrder, Matched, BecomeLeader, PeerNoted, VoteArgs;
    if step.Win? {
      LeaderTables(c.hosts[step.i].s);
    } else if step.NotePeer? {
      NotedTables(c.hosts[step.i].s, step.peer, step.alive);
    } else {
      NoTables(Do(c, step).hosts[step.i].s);
    }
  }

  lemma OwnStepKeepsTables(c: Cluster, step: Step)
    requires WellFormed(c) && Enabled(c, step) && Mover(step) < |c.hosts| && TablesOk(c.hosts[Mover(step)].s)
    requires step.StartCandidacy? || step.GiveUp? || step.BeginStart? || step.StartCommand? ||
             step.SendAppend? || step.SendHeartbeat?
    ensures Mover(step) < |Do(c, step).hosts| && TablesOk(Do(c, step).hosts[Mover(step)].s)
  {
    hide TablesOk, WellFormed, WellIndexed, AppliedInOrder, Matched, BecomeLeader, PeerNoted, VoteArgs;
    SameTables(c.hosts[step.i].s, Do(c, step).hosts[step.i].s);
  }

  lemma CountVoteKeepsTables(c: Cluster, vote: VoteReply)
    requires WellFormed(c) && Enabled(c, CountVote(vote)) && TablesOk(c.hosts[vote.to].s)
    ensures var c' := Do(c, CountVote(vote)); vote.to < |c'.hosts| && TablesOk(c'.hosts[vote.to].s)
  {
    hide TablesOk, WellFormed;
    SameTables(c.hosts[vote.to].s, Do(c, CountVote(vote)).hosts[vote.to].s);
  }

  lemma StepDownKeepsTables(c: Cluster, answer: AppendReply)
    requires WellFormed(c) && Enabled(c, StepDown(answer)) && TablesOk(c.hosts[answer.to].s)
    ensures var c' := Do(c, StepDown(answer)); answer.to < |c'.hosts| && TablesOk(c'.hosts[answer.to].s)
  {
    hide TablesOk, WellFormed;
    SameTables(c.hosts[answer.to].s, Do(c, StepDown(answer)).hosts[answer.to].s);
  }

  lemma MoverKeepsTables(c: Cluster, step: Step)
    requires WellFormed(c) && Enabled(c, step) && Mover(step) < |c.hosts| && TablesOk(c.hosts[Mover(step)].s)
    ensures Mover(step) < |Do(c, step).hosts| && TablesOk(Do(c, step).hosts[Mover(step)].s)
  {
    hide WellFormed, Do, TablesOk;
    match step {
      case AnswerVote(_, _) => VoteKeepsTables(c, step);
      case AnswerAppend(_) => AppendKeepsTables(c, step);
      case RecordMatch(_) => MatchKeepsTables(c, step);
      case Win(_) => TableStep(c, step);
      case NotePeer(_, _, _) => TableStep(c, step);
      case Crash(_) => TableStep(c, step);
      case CountVote(vote) => CountVoteKeepsTables(c, vote);
      case StepDown(answer) => StepDownKeepsTables(c, answer);
      case _ => OwnStepKeepsTables(c, step);
    }
  }

  lemma NoTables(s: Server)
    requires s.role == Follower
    requires s.nextIndex == map[] && s.matchIndex == map[] && s.peerAlive == map[] && s.openCommit == map[]
    ensures TablesOk(s)
  {}

  lemma MatchedNotNegative(c: Cluster, answer: AppendReply)
    requires WellFormed(c) && answer in c.appendReplies && answer.args.job == Append
    ensures MatchedBy(answer.args) >= 0
  {}

  lemma StartTables(n: nat)
    ensures AllTablesOk(Start(n))
  {
    forall i: nat | i < n ensures TablesOk(Start(n).hosts[i].s) {
      assert Start(n).hosts[i] == FreshHost(i, n);
      NoTables(FreshHost(i, n).s);
    }
  }

  lemma StepKeepsTables(c: Cluster, step: Step)
    requires WellFormed(c) && Enabled(c, step) && AllTablesOk(c)
    ensures AllTablesOk(Do(c, step))
  {
    hide TablesOk, WellFormed, Do, Enabled;
    OnlyMover(c, step);
    MoverKeepsTables(c, step);
  }

  lemma {:induction false} RunTables(r: Execution, n: nat, k: nat)
    requires IsRun(r, n) && k < |r.states|
    ensures AllTablesOk(r.states[k])
  {
    if k == 0 {
      hide AllTablesOk, Start;
      StartTables(n);
    } else {
      RunTables(r, n, k - 1);
      RunSound(r, n, k - 1);
      assert StepAt(r, k - 1);
      hide AllTablesOk, WellFormed, Do, Enabled;
      StepKeepsTables(r.states[k - 1], r.steps[k - 1]);
    }
  }

  // ---- what the loop needs holds in every run ----

  /** A leader and any server in no later term are as the resend loop needs them. */
  lemma LeaderComparable(c: Cluster, i: nat, j: nat)
    requires Inv(c) && i < |c.hosts| && j < |c.hosts|
    requires c.hosts[i].s.role == Leader && c.hosts[j].s.term <= c.hosts[i].s.term
    ensures Comparable(c.hosts[i].s, c.hosts[j].s)
  {
    LogsAt(c, i);
    LogsAt(c, j);
    var (logs, a, b) := (c.leaderLogs, c.hosts[i].s.log, c.hosts[j].s.log);
    LeaderLogGrounded(logs, c.hosts[i].s.term);
    forall k: nat | k < |b|
      ensures b[k].term >= 0 && (b[k].term == c.hosts[i].s.term ==> k < |a|)
    {
      assert GroundedAt(logs, b, k);
    }
    forall k: nat | k < |a| && k < |b| && a[k].term == b[k].term ensures a[..k + 1] == b[..k + 1] {
      GroundedMatch(logs, a, b, k);
    }
  }

  lemma ObjectValid(server: Raft)
    requires WellIndexed(server.log) && AppliedInOrder(server.View()) && TablesOk(server.View())
    ensures server.Valid()
  {}

  lemma LeaderKnows(s: Server, peer: nat)
    requires TablesOk(s) && s.role == Leader && peer < s.peerNumber
    ensures peer in s.matchIndex && s.matchIndex[peer] >= 0
  {
    BelowFacts(s.peerNumber);
  }

  /**
   * In state at of a run, and in whatever states times(k) its calls reach server j: the leader leads the same term,
   * with the log it had and what it appended since, and server j is in no later term.
   */
  ghost predicate Resending(r: Execution, at: nat, times: nat -> nat, i: nat, j: nat, meanwhile: nat -> seq<Command>) {
    && at < |r.states| && i < |r.states[at].hosts| && r.states[at].hosts[i].s.role == Leader && j < |r.states[at].hosts|
    && var s := r.states[at].hosts[i].s;
       forall k: nat :: CallAt(r, s, times(k), i, j, LeaderAfter(s, meanwhile, k).log)
  }

  ghost predicate CallAt(r: Execution, s: Server, time: nat, i: nat, j: nat, log: Log) {
    && time < |r.states| && i < |r.states[time].hosts| && j < |r.states[time].hosts|
    && r.states[time].hosts[i].s.role == Leader && r.states[time].hosts[i].s.term == s.term
    && r.states[time].hosts[i].s.log == log && r.states[time].hosts[j].s.term <= s.term
  }

  /** The servers a resend loop meets in a run are comparable at every call. */
  lemma {:induction false} CallsComparable(r: Execution, n: nat, at: nat, times: nat -> nat, i: nat, j: nat,
                                           meanwhile: nat -> seq<Command>, k: nat)
    requires IsRun(r, n) && AppendsFit(r) && Resending(r, at, times, i, j, meanwhile)
    ensures times(k) < |r.states| && j < |r.states[times(k)].hosts|
    ensures Comparable(LeaderAfter(r.states[at].hosts[i].s, meanwhile, k), r.states[times(k)].hosts[j].s)
  {
    var s := r.states[at].hosts[i].s;
    assert CallAt(r, s, times(k), i, j, LeaderAfter(s, meanwhile, k).log);
    RunInv(r, n, times(k));
    hide Inv, Comparable, LeaderAfter;
    var c := r.states[times(k)];
    LeaderComparable(c, i, j);
    SameComparable(c.hosts[i].s, LeaderAfter(s, meanwhile, k), c.hosts[j].s);
  }

  lemma SyncReady(leader: Raft, peer: nat, peers: nat -> Server, meanwhile: nat -> seq<Command>,
                  r: Execution, n: nat, at: nat, times: nat -> nat)
    requires IsRun(r, n) && AppendsFit(r) && Resending(r, at, times, leader.me, peer, meanwhile)
    requires leader.View() == r.states[at].hosts[leader.me].s
    requires forall k: nat :: times(k) < |r.states| && peer < |r.states[times(k)].hosts|
                              ==> peers(k) == r.states[times(k)].hosts[peer].s
    ensures leader.Valid() && peer < leader.peerNumber && peer in leader.matchIndex && leader.matchIndex[peer] >= 0
    ensures forall k: nat :: Comparable(LeaderAfter(leader.View(), meanwhile, k), peers(k))
  {
    hide Comparable, LeaderAfter, Inv, WellFormed, ElectionInv, AllTablesOk, IsRun, AppendsFit;
    RunSound(r, n, at);
    RunTables(r, n, at);
    HostFacts(r.states[at], leader.me);
    TablesAt(r.states[at], leader.me);
    LeaderKnows(leader.View(), peer);
    ObjectValid(leader);
    hide TablesOk, WellIndexed, AppliedInOrder;
    forall k: nat ensures Comparable(LeaderAfter(leader.View(), meanwhile, k), peers(k)) {
      CallsComparable(r, n, at, times, leader.me, peer, meanwhile, k);
    }
  }

  lemma TablesAt(c: Cluster, i: nat)
    requires AllTablesOk(c) && i < |c.hosts|
    ensures TablesOk(c.hosts[i].s)
  {}

  /** Back-off in every run whose append regions fit: a leader, and a server that is in no later term when called. */
  method SyncInRun(leader: Raft, peer: nat, peers: nat -> Server, answered: nat -> bool, meanwhile: nat -> seq<Command>,
                   ghost r: Execution, ghost n: nat, ghost at: nat, ghost times: nat -> nat)
    returns (outcome: Outcome, calls: nat, args: AppendEntriesArgs)
    requires IsRun(r, n) && AppendsFit(r) && Resending(r, at, times, leader.me, peer, meanwhile)
    requires leader.View() == r.states[at].hosts[leader.me].s
    requires forall k: nat :: times(k) < |r.states| && peer < |r.states[times(k)].hosts|
                              ==> peers(k) == r.states[times(k)].hosts[peer].s
    modifies leader
    ensures peer in old(leader.matchIndex) && calls <= old(leader.matchIndex)[peer] + 1
    ensures outcome == Abandoned <==>
              !Alive(old(leader.View()), peer) || (calls > 0 && !answered(calls - 1))
    ensures outcome == Panicked <==>
              && Alive(old(leader.View()), peer) && answered(0)
              && Min(|peers(0).log|, old(leader.matchIndex)[peer] - 1)
                 > |LeaderAfter(old(leader.View()), meanwhile, 1).log|
    ensures outcome == Synced ==>
              calls > 0 && Takes(peers(calls - 1), args, LeaderAfter(old(leader.View()), meanwhile, calls - 1).log)
  {
    SyncReady(leader, peer, peers, meanwhile, r, n, at, times);
    hide *;
    outcome, calls, args := StartOnePeerAppend(leader, peer, peers, answered, meanwhile);
  }
}
