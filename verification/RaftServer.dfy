/** One Raft server as a value: what each region that runs under its lock computes. */
module RaftServer {
  import opened Linearizability

  datatype Role = Leader | Cand | Follower

  datatype Job = Append | CommitAndHeartBeat | HeartBeat

  /** Commands are opaque to Raft. */
  type Command = string

  datatype LogEntry = LogEntry(index: int, command: Command, term: int)

  type Log = seq<LogEntry>

  datatype ApplyMsg = ApplyMsg(command: Command, commandIndex: int)

  datatype AppendEntriesArgs = AppendEntriesArgs(
    job: Job, term: int, leaderId: nat, entries: Log, prevLogIndex: int, prevLogTerm: int, leaderCommit: int)

  datatype AppendEntriesReply = AppendEntriesReply(lastIndex: int, term: int, success: bool)

  datatype RequestVoteArgs = RequestVoteArgs(peerId: nat, term: int, lastLogIndex: int, lastLogTerm: int)

  datatype RequestVoteReply = RequestVoteReply(term: int, voteGranted: bool, role: Role)

  /** What survives a crash. */
  datatype Persisted = Persisted(term: int, votedFor: int, log: Log)

  datatype Server = Server(
    me: nat, peerNumber: nat,
    log: Log, isLeader: bool, role: Role, term: int, votedFor: int,
    nextIndex: map<nat, int>, matchIndex: map<nat, int>, peerAlive: map<nat, bool>, openCommit: map<nat, bool>,
    commitIndex: int, lastApply: int, applied: seq<ApplyMsg>)

  const NOBODY: int := -1

  // ---- the log ----

  /** Entry i carries index i + 1. */
  predicate WellIndexed(log: Log) {
    forall i | 0 <= i < |log| :: log[i].index == i + 1
  }

  function LastIndex(log: Log): int {
    if log == [] then 0 else log[|log| - 1].index
  }

  /** The term at an index: 0 at the origin, None where the log has no entry. */
  function TermAt(log: Log, index: int): Option<int>
    requires WellIndexed(log) && index >= 0
  {
    if index == 0 then Some(0)
    else if log == [] then None
    else if index > LastIndex(log) then None
    else Some(log[index - log[0].index].term)
  }

  function TermForLog(log: Log, index: int): int
    requires WellIndexed(log) && index >= 0
  {
    match TermAt(log, index)
    case Some(term) => term
    case None => -1
  }

  /** The last entry gets a new term. */
  function SetLastTerm(log: Log, term: int): Log {
    if log == [] then [] else log[|log| - 1 := log[|log| - 1].(term := term)]
  }

  function Min(a: int, b: int): int {
    if a < b then a else b
  }

  // ---- applying committed entries ----

  function Messages(log: Log, from: nat, to: nat): seq<ApplyMsg>
    requires from <= to <= |log|
  {
    seq(to - from, i requires 0 <= i < to - from => ApplyMsg(log[from + i].command, from + i + 1))
  }

  /** Emits the entries after lastApply up to the given index. */
  function StartApply(s: Server, commitIndex: int): Server
    requires 0 <= s.lastApply && commitIndex <= |s.log|
  {
    if commitIndex > s.lastApply then
      s.(lastApply := commitIndex, applied := s.applied + Messages(s.log, s.lastApply, commitIndex))
    else s
  }

  /** Every index from 1 to lastApply was emitted once, in order; and no negative index was committed. */
  predicate AppliedInOrder(s: Server) {
    && s.commitIndex >= 0 && s.lastApply == |s.applied|
    && forall i | 0 <= i < |s.applied| :: s.applied[i].commandIndex == i + 1
  }

  // ---- the handlers ----

  function Disk(s: Server): Persisted {
    Persisted(s.term, s.votedFor, s.log)
  }

  function BackToFollower(s: Server, term: int): Server {
    s.(term := term, role := Follower, isLeader := false)
  }

  /** What the handler needs of a message: no negative index, and term 0 at the origin. */
  predicate ArgsOk(args: AppendEntriesArgs) {
    args.leaderCommit >= 0 &&
    (args.job == Append ==>
      && args.prevLogIndex >= 0 && (args.prevLogIndex == 0 ==> args.prevLogTerm == 0)
      && forall i | 0 <= i < |args.entries| :: args.entries[i].index == args.prevLogIndex + i + 1)
  }

  function HandleAppendEntries(s: Server, args: AppendEntriesArgs): (Server, AppendEntriesReply)
    requires WellIndexed(s.log) && ArgsOk(args) && 0 <= s.lastApply
  {
    if args.term >= s.term then
      var f := BackToFollower(s, args.term);
      match args.job
      case Append =>
        (match TermAt(f.log, args.prevLogIndex)
         case None => (f, AppendEntriesReply(LastIndex(f.log), f.term, false))
         case Some(term) =>
           if term != args.prevLogTerm then
             (f.(log := f.log[..args.prevLogIndex - 1]), AppendEntriesReply(-1, f.term, false))
           else
             (f.(log := SetLastTerm(f.log[..args.prevLogIndex] + args.entries, args.term)),
              AppendEntriesReply(-1, f.term, true)))
      case CommitAndHeartBeat =>
        var c := Min(args.leaderCommit, LastIndex(f.log));
        (StartApply(f.(commitIndex := c), c), AppendEntriesReply(0, f.term, true))
      case HeartBeat => (f, AppendEntriesReply(0, f.term, true))
    else
      (s, AppendEntriesReply(0, s.term, false))
  }

  predicate UpToDate(log: Log, args: RequestVoteArgs)
    requires WellIndexed(log)
  {
    var lastIndex := LastIndex(log);
    var lastTerm := TermForLog(log, lastIndex);
    lastTerm < args.lastLogTerm || (lastTerm == args.lastLogTerm && lastIndex <= args.lastLogIndex)
  }

  function HandleRequestVote(s: Server, args: RequestVoteArgs): (Server, RequestVoteReply)
    requires WellIndexed(s.log)
  {
    var f := if args.term > s.term then BackToFollower(s, args.term).(votedFor := NOBODY) else s;
    if f.votedFor == NOBODY && UpToDate(s.log, args) then
      (f.(votedFor := args.peerId), RequestVoteReply(f.term, true, f.role))
    else
      (f, RequestVoteReply(f.term, false, f.role))
  }

  // ---- elections ----

  function BecomeCandidate(s: Server): Server {
    s.(role := Cand, term := s.term + 1, votedFor := s.me)
  }

  function VoteArgs(s: Server): RequestVoteArgs
    requires WellIndexed(s.log)
  {
    var lastIndex := LastIndex(s.log);
    RequestVoteArgs(s.me, s.term, lastIndex, TermForLog(s.log, lastIndex))
  }

  /** A larger term in a vote reply ends the candidacy; it is the first thing a reply is checked for. */
  predicate VoteReplyEndsCandidacy(s: Server, reply: RequestVoteReply) {
    reply.term > s.term && s.role != Follower
  }

  predicate VoteCounts(s: Server, reply: RequestVoteReply) {
    !VoteReplyEndsCandidacy(s, reply) && reply.voteGranted && s.role == Cand
  }

  function PeerTable<V>(n: nat, v: V): map<nat, V> {
    map i | i in Below(n) :: v
  }

  /** The winner forgets what it knew of its peers and takes its last entry over into its own term. */
  function BecomeLeader(s: Server): Server {
    s.(nextIndex := PeerTable(s.peerNumber, LastIndex(s.log) + 1),
       matchIndex := PeerTable(s.peerNumber, 0),
       peerAlive := PeerTable(s.peerNumber, false),
       openCommit := PeerTable(s.peerNumber, false),
       log := SetLastTerm(s.log, s.term),
       role := Leader, isLeader := true)
  }

  // ---- the leader ----

  function AppendCommand(s: Server, command: Command): Server {
    s.(log := s.log + [LogEntry(LastIndex(s.log) + 1, command, s.term)])
  }

  /** An append that starts after prev: the first one of a round, and every resend, has this form. */
  function AppendArgsFrom(s: Server, prev: nat): AppendEntriesArgs
    requires WellIndexed(s.log)
  {
    AppendEntriesArgs(Append, s.term, s.me, if prev <= |s.log| then s.log[prev..] else [],
                      prev, TermForLog(s.log, prev), s.commitIndex)
  }

  predicate Alive(s: Server, peer: nat) {
    peer in s.peerAlive && s.peerAlive[peer]
  }

  /** The peer may be told to commit. */
  predicate Open(s: Server, peer: nat) {
    peer in s.openCommit && s.openCommit[peer]
  }

  function HeartbeatArgs(s: Server, server: nat): AppendEntriesArgs {
    AppendEntriesArgs(if Open(s, server) then CommitAndHeartBeat else HeartBeat, s.term, s.me, [], 0, 0, s.commitIndex)
  }

  /** A larger term in a heartbeat reply ends the leadership. */
  predicate HeartbeatEndsLeadership(s: Server, reply: AppendEntriesReply) {
    reply.term > s.term && s.role == Leader
  }

  /** A call reached the peer, or it did not: then it no longer gets commits either. */
  function PeerNoted(s: Server, peer: nat, alive: bool): Server {
    s.(peerAlive := s.peerAlive[peer := alive],
       openCommit := if alive then s.openCommit else s.openCommit[peer := false])
  }

  /** Peer counts toward committing an index: it is another live server known to hold it. */
  predicate Holds(s: Server, peer: nat, index: int) {
    && peer in s.matchIndex && peer != s.me
    && Alive(s, peer)
    && s.matchIndex[peer] >= index
  }

  ghost function Holders(s: Server, index: int): set<nat> {
    set peer | peer in s.matchIndex.Keys && Holds(s, peer, index)
  }

  /** A strict majority, the leader included, holds the index. */
  ghost predicate Majority(s: Server, index: int) {
    1 + |Holders(s, index)| >= s.peerNumber / 2 + 1
  }

  /** A crash keeps only what is on disk. */
  function Restart(me: nat, peerNumber: nat, disk: Persisted): Server {
    Server(me, peerNumber, disk.log, false, Follower, disk.term, disk.votedFor,
           map[], map[], map[], map[], 0, 0, [])
  }

  /** What a server that never persisted anything reads back: zeros and an empty log. */
  const EMPTY_DISK: Persisted := Persisted(0, 0, [])

  // ---- what the append handler does ----

  lemma LastIndexIsLength(log: Log)
    requires WellIndexed(log)
    ensures LastIndex(log) == |log|
  {}

  /** Changing the last term keeps every index. */
  lemma SetLastTermKeeps(log: Log, term: int)
    ensures WellIndexed(log) ==> WellIndexed(SetLastTerm(log, term))
  {}

  /** The handler's three answers to an append of a current term. */
  lemma HandlerCases(f: Server, args: AppendEntriesArgs)
    requires WellIndexed(f.log) && ArgsOk(args) && 0 <= f.lastApply && args.job == Append && f.term <= args.term
    ensures var (f', reply) := HandleAppendEntries(f, args);
            var prev := args.prevLogIndex;
            && f'.term == args.term
            && if |f.log| < prev then !reply.success && f'.log == f.log && reply.lastIndex == |f.log|
               else if prev > 0 && f.log[prev - 1].term != args.prevLogTerm then
                 !reply.success && f'.log == f.log[..prev - 1] && reply.lastIndex == -1
               else reply.success && f'.log == SetLastTerm(f.log[..prev] + args.entries, args.term)
  {
    LastIndexIsLength(f.log);
  }

  /** Stale messages and heartbeats leave the log alone. */
  lemma HandlerKeepsLog(s: Server, args: AppendEntriesArgs)
    requires WellIndexed(s.log) && ArgsOk(args) && 0 <= s.lastApply
    ensures args.term < s.term || args.job != Append ==> HandleAppendEntries(s, args).0.log == s.log
  {}

  /** The handler emits further indices in order and takes none back. */
  lemma HandlerApplies(s: Server, args: AppendEntriesArgs)
    requires WellIndexed(s.log) && ArgsOk(args) && AppliedInOrder(s)
    ensures AppliedInOrder(HandleAppendEntries(s, args).0)
    ensures s.applied <= HandleAppendEntries(s, args).0.applied
  {
    LastIndexIsLength(s.log);
  }
}
