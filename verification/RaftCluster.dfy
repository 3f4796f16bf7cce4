/**
 * A cluster of Raft servers as a step system. Each region that runs under a server's lock is one step;
 * messages may be lost (never delivered), delayed, reordered and delivered again; a crash keeps the disk only.
 */
module RaftCluster {
  import opened Linearizability
  import opened RaftServer

  /** A running startAsCand: the term it asked for, the peers heard from, the votes counted. */
  datatype Attempt = Attempt(term: int, heard: set<nat>, voters: set<nat>, votes: nat)

  /** pending: the commands of the calls of Start that have found this server leading and not yet appended. */
  datatype Host = Host(s: Server, disk: Persisted, attempt: Option<Attempt>, pending: multiset<Command>)

  datatype VoteRequest = VoteRequest(from: nat, args: RequestVoteArgs)
  datatype VoteReply = VoteReply(from: nat, to: nat, requested: int, reply: RequestVoteReply)
  datatype AppendRequest = AppendRequest(from: nat, to: nat, args: AppendEntriesArgs)
  datatype AppendReply = AppendReply(from: nat, to: nat, args: AppendEntriesArgs, reply: AppendEntriesReply)

  /**
   * The last four fields record history and influence nothing: who was granted a vote by whom in which term,
   * who won which term with which votes, and the log of each term's leader.
   */
  datatype Cluster = Cluster(
    hosts: seq<Host>,
    voteRequests: set<VoteRequest>, voteReplies: set<VoteReply>,
    appendRequests: set<AppendRequest>, appendReplies: set<AppendReply>,
    grants: map<(nat, int), nat>, winners: map<int, nat>, quorums: map<int, set<nat>>, leaderLogs: map<int, Log>)

  datatype Step =
    | StartCandidacy(i: nat)
    | AnswerVote(i: nat, request: VoteRequest)
    | CountVote(vote: VoteReply)
    | Win(i: nat)
    | GiveUp(i: nat)
    | BeginStart(i: nat, command: Command)
    | StartCommand(i: nat, command: Command)
    | SendAppend(i: nat, peer: nat, prev: nat)
    | SendHeartbeat(i: nat, peer: nat)
    | AnswerAppend(append: AppendRequest)
    | StepDown(answer: AppendReply)
    | RecordMatch(answer: AppendReply)
    | NotePeer(i: nat, peer: nat, alive: bool)
    | Crash(i: nat)

  predicate IsHost(c: Cluster, i: nat) {
    i < |c.hosts|
  }

  /** When a step can be taken, apart from what the lock-holding region itself checks. */
  predicate Enabled(c: Cluster, step: Step) {
    match step
    case StartCandidacy(i) => IsHost(c, i)
    case AnswerVote(i, request) => IsHost(c, i) && request in c.voteRequests && request.from != i
    case CountVote(vote) => vote in c.voteReplies && IsHost(c, vote.to)
    case Win(i) =>
      IsHost(c, i) && c.hosts[i].attempt.Some? && c.hosts[i].s.role == Cand &&
      c.hosts[i].attempt.value.votes > |c.hosts| / 2
    case GiveUp(i) => IsHost(c, i)
    case BeginStart(i, _) => IsHost(c, i) && c.hosts[i].s.role == Leader
    case StartCommand(i, command) => IsHost(c, i) && command in c.hosts[i].pending
    case SendAppend(i, peer, _) => IsHost(c, i) && IsHost(c, peer) && peer != i && c.hosts[i].s.role == Leader
    case SendHeartbeat(i, peer) => IsHost(c, i) && IsHost(c, peer) && peer != i && c.hosts[i].s.role == Leader
    case AnswerAppend(append) => append in c.appendRequests && IsHost(c, append.to)
    case StepDown(answer) => answer in c.appendReplies && IsHost(c, answer.to)
    case RecordMatch(answer) =>
      IsHost(c, answer.to) && IsHost(c, answer.from) && answer.from != answer.to &&
      answer in c.appendReplies && answer.args.job == Append && answer.reply.success
    case NotePeer(i, peer, _) => IsHost(c, i) && IsHost(c, peer) && peer != i
    case Crash(i) => IsHost(c, i)
  }

  /** Replaces what host i holds in memory; when persisting, its disk follows. */
  function Update(c: Cluster, i: nat, s: Server, persist: bool): Cluster
    requires IsHost(c, i)
  {
    var h := c.hosts[i];
    c.(hosts := c.hosts[i := h.(s := s, disk := if persist then Disk(s) else h.disk)])
  }

  /** Messages and servers always meet the handlers' needs; RaftRuns shows that every run keeps this. */
  predicate WellFormed(c: Cluster) {
    && (forall i | 0 <= i < |c.hosts| ::
          WellIndexed(c.hosts[i].s.log) && WellIndexed(c.hosts[i].disk.log)
          && AppliedInOrder(c.hosts[i].s) && c.hosts[i].s.me == i && c.hosts[i].s.peerNumber == |c.hosts|)
    && (forall m | m in c.appendRequests :: ArgsOk(m.args))
    && (forall a | a in c.appendReplies :: ArgsOk(a.args))
  }

  /** What a success reply tells: where the follower's log ended after the append. */
  function MatchedBy(args: AppendEntriesArgs): int {
    args.prevLogIndex + |args.entries|
  }

  /** The tables once peer is taken to hold matched entries. */
  function Matched(s: Server, peer: nat, matched: int): Server {
    s.(matchIndex := s.matchIndex[peer := matched], nextIndex := s.nextIndex[peer := matched + 1],
       openCommit := s.openCommit[peer := true], peerAlive := s.peerAlive[peer := true])
  }

  ghost predicate CommitTo(s: Server, index: int) {
    && s.commitIndex < index <= LastIndex(s.log) && Majority(s, index)
    && forall later | index < later <= LastIndex(s.log) :: !Majority(s, later)
  }

  /** updateCommitForLeader: the largest index held by a majority, if it is new and this is a leader. */
  ghost function UpdateCommit(s: Server): (r: Server)
    ensures r == s || (s.isLeader && r == s.(commitIndex := r.commitIndex) && CommitTo(s, r.commitIndex))
  {
    if s.isLeader && exists index :: CommitTo(s, index) then
      var index :| CommitTo(s, index); s.(commitIndex := index)
    else s
  }

  ghost function CommitAndApply(s: Server): Server
    requires WellIndexed(s.log) && 0 <= s.lastApply
  {
    LastIndexIsLength(s.log);
    var u := UpdateCommit(s);
    if u != s then StartApply(u, u.commitIndex) else u
  }

  ghost function Do(c: Cluster, step: Step): Cluster
    requires WellFormed(c) && Enabled(c, step)
  {
    match step
    case StartCandidacy(i) =>
      var s := BecomeCandidate(c.hosts[i].s);
      var d := Update(c, i, s, true);
      d.(hosts := d.hosts[i := d.hosts[i].(attempt := Some(Attempt(s.term, {}, {}, 1)))],
         voteRequests := d.voteRequests + {VoteRequest(i, VoteArgs(s))},
         grants := d.grants[(i, s.term) := i])
    case AnswerVote(i, request) =>
      var (s, reply) := HandleRequestVote(c.hosts[i].s, request.args);
      var d := Update(c, i, s, true);
      d.(voteReplies := d.voteReplies + {VoteReply(i, request.from, request.args.term, reply)},
         grants := if reply.voteGranted then d.grants[(i, reply.term) := request.from] else d.grants)
    case CountVote(vote) =>
      var h := c.hosts[vote.to];
      if VoteReplyEndsCandidacy(h.s, vote.reply) then
        Update(c, vote.to, BackToFollower(h.s, vote.reply.term), true)
      else if h.attempt.Some? && h.attempt.value.term == vote.requested && vote.from !in h.attempt.value.heard then
        var a := h.attempt.value;
        var counted := VoteCounts(h.s, vote.reply);
        var a' := Attempt(a.term, a.heard + {vote.from},
                          if counted then a.voters + {vote.from} else a.voters,
                          if counted then a.votes + 1 else a.votes);
        c.(hosts := c.hosts[vote.to := h.(attempt := Some(a'))])
      else c
    case Win(i) =>
      var h := c.hosts[i];
      var s := BecomeLeader(h.s);
      var d := Update(c, i, s, false);
      d.(hosts := d.hosts[i := d.hosts[i].(attempt := None)],
         winners := d.winners[s.term := i],
         quorums := d.quorums[s.term := h.attempt.value.voters + {i}],
         leaderLogs := d.leaderLogs[s.term := s.log])
    case GiveUp(i) => c.(hosts := c.hosts[i := c.hosts[i].(attempt := None)])
    case BeginStart(i, command) =>
      var h := c.hosts[i];
      c.(hosts := c.hosts[i := h.(pending := h.pending + multiset{command})])
    case StartCommand(i, command) =>
      var h := c.hosts[i];
      var s := AppendCommand(h.s, command);
      var d := Update(c, i, s, true);
      d.(hosts := d.hosts[i := d.hosts[i].(pending := h.pending - multiset{command})],
         leaderLogs := if s.role == Leader then d.leaderLogs[s.term := s.log] else d.leaderLogs)
    case SendAppend(i, peer, prev) =>
      c.(appendRequests := c.appendRequests + {AppendRequest(i, peer, AppendArgsFrom(c.hosts[i].s, prev))})
    case SendHeartbeat(i, peer) =>
      c.(appendRequests := c.appendRequests + {AppendRequest(i, peer, HeartbeatArgs(c.hosts[i].s, peer))})
    case AnswerAppend(append) =>
      var (s, reply) := HandleAppendEntries(c.hosts[append.to].s, append.args);
      var answer := AppendReply(append.to, append.from, append.args, reply);
      Update(c, append.to, s, true).(appendReplies := c.appendReplies + {answer})
    case StepDown(answer) =>
      var s := c.hosts[answer.to].s;
      if HeartbeatEndsLeadership(s, answer.reply) then
        Update(c, answer.to, BackToFollower(s, answer.reply.term), true)
      else c
    case RecordMatch(answer) =>
      Update(c, answer.to, CommitAndApply(Matched(c.hosts[answer.to].s, answer.from, MatchedBy(answer.args))), false)
    case NotePeer(i, peer, alive) => Update(c, i, PeerNoted(c.hosts[i].s, peer, alive), false)
    case Crash(i) =>
      var h := c.hosts[i];
      c.(hosts := c.hosts[i := Host(Restart(i, |c.hosts|, h.disk), h.disk, None, multiset{})])
  }

  function FreshHost(i: nat, n: nat): Host {
    Host(Restart(i, n, EMPTY_DISK), EMPTY_DISK, None, multiset{})
  }

  function Start(n: nat): Cluster {
    Cluster(seq(n, i requires 0 <= i < n => FreshHost(i, n)), {}, {}, {}, {}, map[], map[], map[], map[])
  }

  /** A run: states[k + 1] is what steps[k] makes of states[k]. */
  datatype Execution = Execution(states: seq<Cluster>, steps: seq<Step>)

  ghost predicate IsRun(r: Execution, n: nat) {
    && |r.states| == |r.steps| + 1
    && r.states[0] == Start(n)
    && forall k: nat | k < |r.steps| :: StepAt(r, k)
  }

  ghost predicate StepAt(r: Execution, k: nat)
    requires k < |r.steps| && |r.states| == |r.steps| + 1
  {
    && Enabled(r.states[k], r.steps[k])
    && (WellFormed(r.states[k]) ==> r.states[k + 1] == Do(r.states[k], r.steps[k]))
  }
}
