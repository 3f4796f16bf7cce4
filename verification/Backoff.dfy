/**
 * Bringing one follower's log in line: the resend loop of StartOnePeerAppend. peers(k) is the follower when call k
 * reaches it, answered(k) says whether the reply comes back, and meanwhile(k) is what the leader is asked to append
 * while call k is under way. Between two calls anything may happen to the follower.
 */
module Backoff {
  import opened Linearizability
  import opened RaftServer
  import opened RaftCluster
  import opened RaftNode

  /** Log Matching between two logs. */
  ghost predicate LogsMatch(a: Log, b: Log) {
    forall k: nat | k < |a| && k < |b| && a[k].term == b[k].term :: a[..k + 1] == b[..k + 1]
  }

  /** No entry has a negative term, and a leader's last entry has the leader's term. */
  ghost predicate Terms(log: Log) {
    forall k | 0 <= k < |log| :: log[k].term >= 0
  }

  ghost predicate EndsIn(log: Log, term: int) {
    log != [] ==> log[|log| - 1].term == term
  }

  /** A matching append makes the follower's log the leader's log. */
  lemma AcceptedIsWhole(log: Log, follower: Log, prev: nat, term: int)
    requires LogsMatch(log, follower) && prev <= |log| && prev <= |follower| && EndsIn(log, term)
    requires prev > 0 ==> follower[prev - 1].term == log[prev - 1].term
    ensures SetLastTerm(follower[..prev] + log[prev..], term) == log
  {
    if prev > 0 {
      assert log[..prev] == follower[..prev];
    }
    assert follower[..prev] + log[prev..] == log;
  }

  lemma SentFields(s: Server, prev: nat)
    requires WellIndexed(s.log)
    ensures var args := AppendArgsFrom(s, prev);
            && args.job == Append && args.term == s.term && args.prevLogIndex == prev
            && args.entries == (if prev <= |s.log| then s.log[prev..] else [])
            && args.prevLogTerm == (if prev == 0 then 0 else if prev <= |s.log| then s.log[prev - 1].term else -1)
  {
    LastIndexIsLength(s.log);
  }

  /** What a round needs of a leader and a follower: it is in no later term, and their logs match. */
  ghost predicate Comparable(s: Server, f: Server) {
    && f.term <= s.term
    && WellIndexed(f.log) && AppliedInOrder(f)
    && LogsMatch(s.log, f.log) && Terms(f.log) && EndsIn(s.log, s.term)
  }

  /** The append a server with this log sends, starting after prev. */
  ghost predicate Sends(s: Server, prev: nat, args: AppendEntriesArgs) {
    WellIndexed(s.log) && args == AppendArgsFrom(s, prev) && ArgsOk(args) && args.prevLogIndex == prev
  }

  /** How a follower answers an append that starts after prev. */
  lemma RoundEffect(s: Server, f: Server, prev: nat, args: AppendEntriesArgs)
    requires Comparable(s, f) && Sends(s, prev, args) && WellIndexed(f.log) && 0 <= f.lastApply && ArgsOk(args)
    ensures var (f', reply) := HandleAppendEntries(f, args);
            && (reply.success ==> f'.log == s.log && prev <= |s.log| && prev <= |f.log|)
            && (!reply.success ==> prev > 0 && reply.lastIndex == (if |f.log| < prev then |f.log| else -1))
  {
    hide HandleAppendEntries, AppendArgsFrom, ArgsOk, SetLastTerm, EndsIn, LogsMatch;
    SentFields(s, prev);
    HandlerCases(f, args);
    if prev <= |f.log| && (prev == 0 || (prev <= |s.log| && f.log[prev - 1].term == s.log[prev - 1].term)) {
      AcceptedIsWhole(s.log, f.log, prev, s.term);
    }
  }

  lemma ComparableFacts(s: Server, f: Server)
    requires Comparable(s, f)
    ensures WellIndexed(f.log) && 0 <= f.lastApply
  {}

  // ---- the leader's log grows while a call is under way ----

  /** A leader's log after taking commands. */
  function LogWith(log: Log, term: int, commands: seq<Command>): (longer: Log)
    ensures log <= longer
  {
    if commands == [] then log else
      var last := |commands| - 1;
      var before := LogWith(log, term, commands[..last]);
      before + [LogEntry(LastIndex(before) + 1, commands[last], term)]
  }

  /** The leader after the first n calls, as far as they matter to its log. */
  function LeaderAfter(s: Server, meanwhile: nat -> seq<Command>, n: nat): (r: Server)
    ensures r == s.(log := r.log)
  {
    if n == 0 then s else
      var before := LeaderAfter(s, meanwhile, n - 1);
      before.(log := LogWith(before.log, s.term, meanwhile(n - 1)))
  }

  lemma LeaderAfterCall(s: Server, meanwhile: nat -> seq<Command>, n: nat)
    ensures LeaderAfter(s, meanwhile, 0) == s
    ensures LeaderAfter(s, meanwhile, n + 1).log == LogWith(LeaderAfter(s, meanwhile, n).log, s.term, meanwhile(n))
  {}

  /** Takes commands one after the other. */
  method TakeCommands(leader: Raft, commands: seq<Command>)
    requires leader.Valid()
    modifies leader
    ensures leader.Valid()
    ensures leader.View() == old(leader.View()).(log := LogWith(old(leader.log), leader.term, commands))
  {
    for i := 0 to |commands|
      invariant leader.Valid()
      invariant leader.View() == old(leader.View()).(log := LogWith(old(leader.log), leader.term, commands[..i]))
    {
      leader.StartCommand(commands[i]);
      assert commands[..i + 1][..i] == commands[..i];
    }
    assert commands[..|commands|] == commands;
  }

  // ---- the loop ----

  datatype Outcome = Synced | Panicked | Abandoned

  /** After a rejection: the next append, unless its slice of the log does not exist. */
  method Resend(leader: Raft, peer: nat, prevLogIndex: int, reply: AppendEntriesReply)
    returns (args: Option<AppendEntriesArgs>, prev: int)
    requires leader.Valid() && peer < leader.peerNumber && prevLogIndex > 0 && reply.lastIndex >= -1
    modifies leader`peerAlive, leader`openCommit
    ensures leader.Valid() && leader.View() == PeerNoted(old(leader.View()), peer, true)
    ensures 0 <= prev == if reply.lastIndex != -1 then reply.lastIndex else prevLogIndex - 1
    ensures if prev <= |leader.log| then args.Some? && Sends(leader.View(), prev, args.value) else args == None
  {
    hide ArgsOk, AppendArgsFrom, AppliedInOrder, Below;
    leader.NotePeer(peer, true);
    args, prev := leader.NextAppend(prevLogIndex, reply);
    SentFields(leader.View(), prev);
  }

  lemma FirstSent(leader: Raft, prev: nat, args: AppendEntriesArgs)
    requires leader.Valid() && args == AppendArgsFrom(leader.View(), prev) && ArgsOk(args)
    ensures Sends(leader.View(), prev, args)
  {
    SentFields(leader.View(), prev);
  }

  lemma SentFacts(s: Server, prev: nat, args: AppendEntriesArgs)
    requires Sends(s, prev, args)
    ensures args.prevLogIndex == prev && ArgsOk(args)
    ensures prev <= |s.log| ==> |args.entries| + args.prevLogIndex == |s.log|
  {
    SentFields(s, prev);
  }

  /** After a success. */
  method Match(leader: Raft, peer: nat, matched: nat)
    requires leader.Valid() && peer < leader.peerNumber
    modifies leader
    ensures leader.Valid() && leader.log == old(leader.log)
    ensures peer in leader.matchIndex && leader.matchIndex[peer] == matched
  {
    hide AppliedInOrder, WellIndexed, CommitAndApply, Below;
    ghost var s := leader.View();
    LastApplyFloor(s);
    leader.RecordMatch(peer, matched);
    CommitEffectOnLog(Matched(s, peer, matched));
  }

  /** Handling this append leaves the server with this log. */
  predicate Takes(f: Server, args: AppendEntriesArgs, log: Log) {
    WellIndexed(f.log) && ArgsOk(args) && 0 <= f.lastApply && HandleAppendEntries(f, args).0.log == log
  }

  /** One round of the loop: done, or what to send next. */
  method Round(leader: Raft, follower: Server, peer: nat, args: AppendEntriesArgs, ghost prev: nat,
               answered: bool, commands: seq<Command>, ghost known: Server)
    returns (done: Option<Outcome>, next: AppendEntriesArgs, ghost from: int)
    requires leader.Valid() && Comparable(known, follower) && known.log == leader.log && known.term == leader.term
    requires Sends(leader.View(), prev, args) && peer < leader.peerNumber
    modifies leader
    ensures leader.Valid() && leader.log == LogWith(old(leader.log), old(leader.term), commands)
    ensures done == Some(Abandoned) <==> !answered
    ensures from == Min(|follower.log|, prev - 1) < prev
    ensures done == Some(Synced) ==>
              && Takes(follower, args, old(leader.log)) && from < |leader.log|
              && peer in leader.matchIndex && leader.matchIndex[peer] == |old(leader.log)|
    ensures done == Some(Panicked) ==> from > |leader.log|
    ensures done == None ==>
              && leader.matchIndex == old(leader.matchIndex) && leader.term == old(leader.term)
              && 0 <= from <= |leader.log| && Sends(leader.View(), from, next)
  {
    hide Comparable, Sends, AppendArgsFrom, HandleAppendEntries, ArgsOk, WellIndexed, Raft.Valid, LogWith;
    ghost var s := leader.View();
    from, next := Min(|follower.log|, prev - 1), args;
    SameComparable(known, s, follower);
    ComparableFacts(s, follower);
    SentFacts(s, prev, args);
    RoundEffect(s, follower, prev, args);
    TakeCommands(leader, commands);
    if !answered {
      leader.NotePeer(peer, false);
      return Some(Abandoned), args, from;
    }
    var reply := HandleAppendEntries(follower, args).1;
    if reply.success {
      Match(leader, peer, |args.entries| + args.prevLogIndex);
      return Some(Synced), args, from;
    }
    var resend, start := Resend(leader, peer, args.prevLogIndex, reply);
    if resend.None? {
      return Some(Panicked), args, from;
    }
    return None, resend.value, from;
  }

  /** The rounds: from the first append on, with the peer alive; s0 is the leader at the start. */
  method Rounds(leader: Raft, peer: nat, peers: nat -> Server, answered: nat -> bool, meanwhile: nat -> seq<Command>,
                first: AppendEntriesArgs, ghost s0: Server, ghost start: nat)
    returns (outcome: Outcome, calls: nat, args: AppendEntriesArgs)
    requires leader.Valid() && leader.View() == s0 && peer < leader.peerNumber && Sends(s0, start, first)
    requires forall k: nat :: Comparable(LeaderAfter(s0, meanwhile, k), peers(k))
    modifies leader
    ensures leader.Valid() && leader.log == LeaderAfter(s0, meanwhile, calls).log && 0 < calls <= start + 1
    ensures outcome == Abandoned <==> !answered(calls - 1)
    ensures outcome == Panicked <==>
              answered(0) && Min(|peers(0).log|, start - 1) > |LeaderAfter(s0, meanwhile, 1).log|
    ensures outcome == Synced ==>
              var sent := LeaderAfter(s0, meanwhile, calls - 1).log;
              Takes(peers(calls - 1), args, sent) && peer in leader.matchIndex && leader.matchIndex[peer] == |sent|
  {
    hide Comparable, Sends, AppendArgsFrom, ArgsOk, WellIndexed, HandleAppendEntries, Raft.Valid, LogWith, LeaderAfter,
         Takes, Min;
    ghost var prev: nat, beyond := start, Min(|peers(0).log|, start - 1) > |LeaderAfter(s0, meanwhile, 1).log|;
    calls, args := 0, first;
    LeaderAfterCall(s0, meanwhile, 0);
    while true
      invariant leader.Valid() && Sends(leader.View(), prev, args) && leader.term == s0.term
      invariant leader.log == LeaderAfter(s0, meanwhile, calls).log && calls + prev <= start
      invariant calls == 0 ==> prev == start
      invariant calls > 0 ==> prev <= |leader.log| && answered(0) && !beyond
      decreases prev
    {
      var done, next, from := Round(leader, peers(calls), peer, args, prev, answered(calls), meanwhile(calls),
                                    LeaderAfter(s0, meanwhile, calls));
      LeaderAfterCall(s0, meanwhile, calls);
      calls := calls + 1;
      assert calls == 1 ==> (from > |leader.log| <==> beyond);
      if done.Some? {
        return done.value, calls, args;
      }
      args, prev := next, from;
    }
  }

  /**
   * Every rejection lowers the starting point, so the loop ends within matchIndex + 1 calls, with the follower's log
   * equal to the leader's log as sent last; except exactly when the first rejection points beyond the leader's log.
   * It is abandoned exactly when the peer is not alive at first or a call gets no answer.
   */
  method StartOnePeerAppend(leader: Raft, peer: nat, peers: nat -> Server, answered: nat -> bool,
                            meanwhile: nat -> seq<Command>)
    returns (outcome: Outcome, calls: nat, args: AppendEntriesArgs)
    requires leader.Valid() && peer < leader.peerNumber && peer in leader.matchIndex && leader.matchIndex[peer] >= 0
    requires forall k: nat :: Comparable(LeaderAfter(leader.View(), meanwhile, k), peers(k))
    modifies leader
    ensures leader.Valid() && leader.log == LeaderAfter(old(leader.View()), meanwhile, calls).log
    ensures calls <= old(leader.matchIndex)[peer] + 1
    ensures outcome == Abandoned <==>
              !Alive(old(leader.View()), peer) || (calls > 0 && !answered(calls - 1))
    ensures outcome == Panicked <==>
              && Alive(old(leader.View()), peer) && answered(0)
              && Min(|peers(0).log|, old(leader.matchIndex)[peer] - 1)
                 > |LeaderAfter(old(leader.View()), meanwhile, 1).log|
    ensures outcome == Synced ==>
              && calls > 0 && Takes(peers(calls - 1), args, LeaderAfter(old(leader.View()), meanwhile, calls - 1).log)
              && peer in leader.matchIndex
              && leader.matchIndex[peer] == |LeaderAfter(old(leader.View()), meanwhile, calls - 1).log|
  {
    hide Comparable, Sends, AppendArgsFrom, ArgsOk, Raft.Valid, LeaderAfter, Takes, Min;
    args := leader.BuildAppend(peer);
    FirstSent(leader, leader.matchIndex[peer], args);
    LeaderAfterCall(leader.View(), meanwhile, 0);
    if !(peer in leader.peerAlive && leader.peerAlive[peer]) {
      return Abandoned, 0, args;
    }
    outcome, calls, args :=
      Rounds(leader, peer, peers, answered, meanwhile, args, leader.View(), leader.matchIndex[peer]);
  }

  /** Only term and log of the leader matter. */
  lemma SameComparable(s: Server, t: Server, f: Server)
    requires Comparable(s, f) && t.term == s.term && t.log == s.log
    ensures Comparable(t, f)
  {}

  lemma LastApplyFloor(s: Server)
    requires AppliedInOrder(s)
    ensures 0 <= s.lastApply
  {}

  lemma CommitEffectOnLog(s: Server)
    requires WellIndexed(s.log) && 0 <= s.lastApply
    ensures CommitAndApply(s).log == s.log && CommitAndApply(s).matchIndex == s.matchIndex
  {}
}
