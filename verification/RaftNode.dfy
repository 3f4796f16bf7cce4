/** The Raft object: the regions that run under its lock, as methods over its fields. */
module RaftNode {
  import opened Linearizability
  import opened RaftServer
  import opened RaftCluster

  class Raft {
    const me: nat
    const peerNumber: nat
    var log: Log
    var isLeader: bool
    var role: Role
    var term: int
    var votedFor: int
    var nextIndex: map<nat, int>
    var matchIndex: map<nat, int>
    var peerAlive: map<nat, bool>
    var openCommit: map<nat, bool>
    var commitIndex: int
    var lastApply: int
    /** What was sent on the apply channel. */
    var applied: seq<ApplyMsg>
    /** What the persister holds. */
    var disk: Persisted

    ghost function View(): Server
      reads this
    {
      Server(me, peerNumber, log, isLeader, role, term, votedFor, nextIndex, matchIndex, peerAlive, openCommit,
             commitIndex, lastApply, applied)
    }

    /** What every method keeps. */
    ghost predicate Valid()
      reads this
    {
      && WellIndexed(log) && AppliedInOrder(View())
      && TablesFit(Below(peerNumber))
    }

    /** The tables know peers only. */
    ghost predicate TablesFit(peers: set<nat>)
      reads this`nextIndex, this`matchIndex, this`peerAlive, this`openCommit
    {
      nextIndex.Keys <= peers && matchIndex.Keys <= peers && peerAlive.Keys <= peers && openCommit.Keys <= peers
    }

    constructor (me: nat, peerNumber: nat, disk: Persisted)
      requires WellIndexed(disk.log)
      ensures Valid() && View() == Restart(me, peerNumber, disk) && this.disk == disk
    {
      this.me, this.peerNumber := me, peerNumber;
      role, isLeader := Follower, false;
      nextIndex, matchIndex, peerAlive, openCommit := map[], map[], map[], map[];
      commitIndex, lastApply, applied := 0, 0, [];
      term, votedFor, log := disk.term, disk.votedFor, disk.log;
      this.disk := disk;
    }

    method Persist()
      modifies this`disk
      ensures disk == Disk(View())
    {
      disk := Persisted(term, votedFor, log);
    }

    method SetFollower()
      modifies this`role, this`isLeader
      ensures role == Follower && !isLeader
    {
      role := Follower;
      isLeader := false;
    }

    /** Emits the entries between lastApply and the given index, one by one. */
    method StartApply(index: int)
      requires Valid() && index <= |log|
      modifies this`lastApply, this`applied
      ensures Valid() && View() == RaftServer.StartApply(old(View()), index)
      ensures old(applied) <= applied && |applied| == if index > |old(applied)| then index else |old(applied)|
      ensures forall k | |old(applied)| <= k < |applied| :: applied[k] == ApplyMsg(log[k].command, k + 1)
    {
      ghost var before := applied;
      ghost var from := lastApply;
      while index > lastApply
        invariant from <= lastApply && (lastApply <= index || lastApply == from)
        invariant if lastApply == from then applied == before else applied == before + Messages(log, from, lastApply)
        invariant AppliedInOrder(View())
      {
        lastApply := lastApply + 1;
        applied := applied + [ApplyMsg(log[lastApply - 1].command, lastApply)];
      }
    }

    method HandleAppendEntries(args: AppendEntriesArgs) returns (reply: AppendEntriesReply)
      requires Valid() && ArgsOk(args)
      modifies this
      ensures Valid() && (View(), reply) == RaftServer.HandleAppendEntries(old(View()), args)
      ensures disk == Disk(View())
    {
      hide Messages, Below, SetLastTerm, TermAt, RaftServer.StartApply;
      LastIndexIsLength(log);
      if args.term >= term {
        term := args.term;
        SetFollower();
        reply := AppendEntriesReply(0, term, true);
        if args.job == Append {
          reply := AppendAt(args);
        } else if args.job == CommitAndHeartBeat {
          commitIndex := Min(args.leaderCommit, LastIndex(log));
          StartApply(commitIndex);
        }
        Persist();
        return;
      }
      reply := AppendEntriesReply(0, term, false);
      Persist();
    }

    /** The log part of an append: reject, truncate or take over. */
    method AppendAt(args: AppendEntriesArgs) returns (reply: AppendEntriesReply)
      requires WellIndexed(log) && ArgsOk(args) && args.job == Append
      modifies this`log
      ensures WellIndexed(log)
      ensures match TermAt(old(log), args.prevLogIndex)
              case None => log == old(log) && reply == AppendEntriesReply(LastIndex(log), term, false)
              case Some(t) =>
                if t != args.prevLogTerm then
                  0 < args.prevLogIndex <= |old(log)| && log == old(log)[..args.prevLogIndex - 1]
                  && reply == AppendEntriesReply(-1, term, false)
                else
                  args.prevLogIndex <= |old(log)|
                  && log == SetLastTerm(old(log)[..args.prevLogIndex] + args.entries, args.term)
                  && reply == AppendEntriesReply(-1, term, true)
    {
      LastIndexIsLength(log);
      var entr := TermAt(log, args.prevLogIndex);
      if entr.None? {
        reply := AppendEntriesReply(LastIndex(log), term, false);
      } else if entr.value != args.prevLogTerm {
        log := log[..args.prevLogIndex - 1];
        reply := AppendEntriesReply(-1, term, false);
      } else {
        log := log[..args.prevLogIndex];
        log := log + args.entries;
        if |log| > 0 {
          log := log[|log| - 1 := log[|log| - 1].(term := args.term)];
        }
        reply := AppendEntriesReply(-1, term, true);
      }
    }

    method HandleRequestVote(args: RequestVoteArgs) returns (reply: RequestVoteReply)
      requires Valid()
      modifies this
      ensures Valid() && (View(), reply) == RaftServer.HandleRequestVote(old(View()), args)
      ensures disk == Disk(View())
    {
      LastIndexIsLength(log);
      var lastIndex := LastIndex(log);
      var lastTerm := TermForLog(log, lastIndex);
      if args.term > term {
        term := args.term;
        SetFollower();
        votedFor := NOBODY;
      }
      var granted := votedFor == NOBODY &&
        (lastTerm < args.lastLogTerm || (lastTerm == args.lastLogTerm && lastIndex <= args.lastLogIndex));
      if granted {
        votedFor := args.peerId;
      }
      reply := RequestVoteReply(term, granted, role);
      Persist();
    }

    /** The first region of startAsCand: a new term, a vote for itself, and the request to send. */
    method StartCandidacy() returns (args: RequestVoteArgs)
      requires Valid()
      modifies this
      ensures Valid() && View() == BecomeCandidate(old(View())) && args == VoteArgs(View())
      ensures disk == Disk(View())
    {
      LastIndexIsLength(log);
      role := Cand;
      term := term + 1;
      votedFor := me;
      args := RequestVoteArgs(me, term, LastIndex(log), TermForLog(log, LastIndex(log)));
      Persist();
    }

    /** A vote reply: a larger term ends the candidacy, otherwise a granted vote may count. */
    method ReceiveVote(reply: RequestVoteReply) returns (counts: bool)
      requires Valid()
      modifies this
      ensures Valid()
      ensures VoteReplyEndsCandidacy(old(View()), reply) ==>
                View() == BackToFollower(old(View()), reply.term) && disk == Disk(View())
      ensures !VoteReplyEndsCandidacy(old(View()), reply) ==> View() == old(View()) && disk == old(disk)
      ensures counts <==> VoteCounts(old(View()), reply)
    {
      if reply.term > term && role != Follower {
        SetFollower();
        term := reply.term;
        Persist();
        return false;
      }
      counts := reply.voteGranted && role == Cand;
    }

    /** Resets the tables, peer by peer, taking the last entry over each time. */
    method FillTables()
      requires me < peerNumber && TablesFit(Below(peerNumber))
      modifies this`log, this`nextIndex, this`matchIndex, this`peerAlive, this`openCommit
      ensures log == SetLastTerm(old(log), term)
      ensures TablesFit(Below(peerNumber)) && Filled(Below(peerNumber), LastIndex(old(log)) + 1)
    {
      hide *;
      ghost var before := log;
      ghost var lastIndex := LastIndex(log);
      NoneFilled(lastIndex + 1);
      for i := 0 to peerNumber
        invariant log == if i == 0 then before else SetLastTerm(before, term)
        invariant LastIndex(log) == lastIndex
        invariant Filled(Below(i), lastIndex + 1)
        invariant TablesFit(Below(peerNumber))
      {
        ResetPeer(i, Below(i));
        BelowStep(i);
        RewriteTwice(before, term);
        if |log| > 0 {
          log := log[|log| - 1 := log[|log| - 1].(term := term)];
        }
      }
    }

    /** The first region of startAsLeader; it does not persist. */
    method StartLeadership()
      requires Valid() && me < peerNumber
      modifies this
      ensures Valid() && View() == BecomeLeader(old(View())) && disk == old(disk)
    {
      hide Below, AppliedInOrder, WellIndexed, TablesFit, Filled, SetLastTerm, LastIndex;
      ghost var before := log;
      FillTables();
      TablesFilled(Below(peerNumber), LastIndex(before) + 1);
      role := Leader;
      isLeader := true;
      SetLastTermKeeps(before, term);
      SameApplied(old(View()), View());
    }

    lemma SameApplied(s: Server, t: Server)
      requires AppliedInOrder(s) && t.lastApply == s.lastApply && t.applied == s.applied
          && t.commitIndex == s.commitIndex
      ensures AppliedInOrder(t)
    {}

    /** What a new leader notes for one peer. */
    method ResetPeer(i: nat, ghost done: set<nat>)
      requires i < peerNumber && TablesFit(Below(peerNumber)) && Filled(done, LastIndex(log) + 1)
      modifies this`nextIndex, this`matchIndex, this`peerAlive, this`openCommit
      ensures TablesFit(Below(peerNumber)) && Filled(done + {i}, LastIndex(log) + 1)
    {
      BelowFacts(peerNumber);
      nextIndex := nextIndex[i := LastIndex(log) + 1];
      matchIndex := matchIndex[i := 0];
      peerAlive := peerAlive[i := false];
      openCommit := openCommit[i := false];
    }

    lemma NoneFilled(next: int)
      ensures Filled(Below(0), next)
    {}

    lemma TablesFilled(peers: set<nat>, next: int)
      requires TablesFit(peers) && Filled(peers, next)
      ensures nextIndex == (map p | p in peers :: next) && matchIndex == (map p | p in peers :: 0)
      ensures peerAlive == (map p | p in peers :: false) && openCommit == (map p | p in peers :: false)
    {}

    /** The tables hold the leader's starting values for these peers. */
    ghost predicate Filled(peers: set<nat>, next: int)
      reads this`nextIndex, this`matchIndex, this`peerAlive, this`openCommit
    {
      && (forall p | p in peers :: p in nextIndex && nextIndex[p] == next)
      && (forall p | p in peers :: p in matchIndex && matchIndex[p] == 0)
      && (forall p | p in peers :: p in peerAlive && !peerAlive[p])
      && (forall p | p in peers :: p in openCommit && !openCommit[p])
    }

    /** The appending region of Start: one more entry of its present term, whatever its role is by now. */
    method StartCommand(command: Command)
      requires Valid()
      modifies this
      ensures Valid() && View() == AppendCommand(old(View()), command) && disk == Disk(View())
    {
      LastIndexIsLength(log);
      log := log + [LogEntry(LastIndex(log) + 1, command, term)];
      Persist();
    }

    /** A heartbeat reply with a larger term ends the leadership. */
    method ReceiveHeartbeatReply(reply: AppendEntriesReply)
      requires Valid()
      modifies this
      ensures Valid()
      ensures HeartbeatEndsLeadership(old(View()), reply) ==>
                View() == BackToFollower(old(View()), reply.term) && disk == Disk(View())
      ensures !HeartbeatEndsLeadership(old(View()), reply) ==> View() == old(View()) && disk == old(disk)
    {
      if reply.term > term && role == Leader {
        term := reply.term;
        SetFollower();
        Persist();
      }
    }

    /** Notes whether a call reached a peer. */
    method NotePeer(peer: nat, alive: bool)
      requires Valid() && peer < peerNumber
      modifies this`peerAlive, this`openCommit
      ensures Valid() && View() == PeerNoted(old(View()), peer, alive)
    {
      BelowFacts(peerNumber);
      peerAlive := peerAlive[peer := alive];
      if !alive {
        openCommit := openCommit[peer := false];
      }
    }

    /** Counts the peers that hold an index. */
    method CountHolders(index: int) returns (granted: nat)
      ensures granted == 1 + |Holders(View(), index)|
    {
      granted := 1;
      var rest := matchIndex.Keys;
      ghost var counted: set<nat> := {};
      while rest != {}
        invariant rest <= matchIndex.Keys
        invariant counted == set p | p in matchIndex.Keys && p !in rest && Holds(View(), p, index)
        invariant granted == 1 + |counted|
        decreases rest
      {
        var server :| server in rest;
        rest := rest - {server};
        if server == me || !(server in peerAlive && peerAlive[server]) {
          continue;
        }
        if matchIndex[server] >= index {
          granted := granted + 1;
          counted := counted + {server};
        }
      }
      assert counted == Holders(View(), index);
    }

    /** Moves commitIndex to the largest index a majority holds, if that is new. */
    method UpdateCommitForLeader() returns (updated: bool)
      requires Valid()
      modifies this`commitIndex
      ensures Valid() && View() == UpdateCommit(old(View())) && (updated <==> View() != old(View()))
      ensures updated <==> isLeader && exists index :: CommitTo(old(View()), index)
      ensures updated ==> CommitTo(old(View()), commitIndex)
    {
      hide Majority, CommitTo, UpdateCommit, AppliedInOrder, TablesFit, LastIndex;
      CommitFloor(View());
      var lastCommittedIndex := -1;
      updated := false;
      var beginIndex := commitIndex + 1;
      while beginIndex <= LastIndex(log)
        invariant View() == old(View()) && Counted(View(), beginIndex, lastCommittedIndex)
      {
        var granted := CountHolders(beginIndex);
        CountedOne(View(), beginIndex, lastCommittedIndex, granted);
        if granted >= peerNumber / 2 + 1 {
          lastCommittedIndex := beginIndex;
        }
        beginIndex := beginIndex + 1;
      }
      Decided(View(), beginIndex, lastCommittedIndex);
      if lastCommittedIndex > commitIndex && isLeader {
        commitIndex := lastCommittedIndex;
        updated := true;
      }
      AppliedStays(old(View()), View());
    }

    lemma CommitFloor(s: Server)
      requires AppliedInOrder(s)
      ensures s.commitIndex >= 0
    {}

    lemma AppliedStays(s: Server, t: Server)
      requires AppliedInOrder(s) && t.lastApply == s.lastApply && t.applied == s.applied
          && t.commitIndex >= s.commitIndex
      ensures AppliedInOrder(t)
    {}

    /** The first append of a round: everything after what the peer is known to hold. */
    method BuildAppend(peer: nat) returns (args: AppendEntriesArgs)
      requires Valid() && peer in matchIndex && matchIndex[peer] >= 0
      ensures args == AppendArgsFrom(View(), matchIndex[peer]) && ArgsOk(args)
    {
      LastIndexIsLength(log);
      var prev: nat := matchIndex[peer];
      var entries: Log := [];
      var i := prev + 1;
      while i <= LastIndex(log)
        invariant prev + 1 <= i && (i <= |log| + 1 || entries == [])
        invariant prev <= |log| ==> i <= |log| + 1 && entries == log[prev..i - 1]
      {
        entries := entries + [log[i - 1]];
        i := i + 1;
      }
      if prev <= |log| {
        EntriesIndexed(log, prev);
      }
      args := AppendEntriesArgs(Append, term, me, entries, prev, TermForLog(log, prev), commitIndex);
    }

    /**
     * The append sent after a rejection: from the follower's last index, or one step back. The slice of the
     * log it takes exists only up to the end of the log; beyond it the source panics, here there is no result.
     */
    method NextAppend(prevLogIndex: int, reply: AppendEntriesReply) returns (args: Option<AppendEntriesArgs>, prev: int)
      requires Valid() && prevLogIndex > 0 && reply.lastIndex >= -1
      ensures prev == if reply.lastIndex != -1 then reply.lastIndex else prevLogIndex - 1
      ensures prev >= 0
      ensures args == if prev <= |log| then Some(AppendArgsFrom(View(), prev)) else None
      ensures args.Some? ==> ArgsOk(args.value)
    {
      LastIndexIsLength(log);
      if reply.lastIndex != -1 {
        prev := reply.lastIndex;
      } else {
        prev := prevLogIndex - 1;
      }
      if prev > |log| {
        return None, prev;
      }
      EntriesIndexed(log, prev);
      args := Some(AppendEntriesArgs(Append, term, me, log[prev..], prev, TermForLog(log, prev), commitIndex));
    }

    /** The success region of StartOnePeerAppend. */
    method RecordMatch(peer: nat, matched: nat)
      requires Valid() && peer < peerNumber
      modifies this
      ensures Valid() && View() == CommitAndApply(Matched(old(View()), peer, matched)) && disk == old(disk)
    {
      hide Below, AppliedInOrder, UpdateCommit, RaftServer.StartApply;
      BelowFacts(peerNumber);
      LastIndexIsLength(log);
      matchIndex := matchIndex[peer := matched];
      nextIndex := nextIndex[peer := matched + 1];
      openCommit := openCommit[peer := true];
      peerAlive := peerAlive[peer := true];
      SameApplied(old(View()), View());
      var updated := UpdateCommitForLeader();
      if updated && isLeader {
        StartApply(commitIndex);
      }
    }
  }

  lemma BelowStep(i: nat)
    ensures Below(i + 1) == Below(i) + {i}
  {}

  lemma RewriteTwice(log: Log, term: int)
    ensures log != [] ==> SetLastTerm(log, term) == log[|log| - 1 := log[|log| - 1].(term := term)]
    ensures log == [] ==> SetLastTerm(log, term) == []
    ensures SetLastTerm(SetLastTerm(log, term), term) == SetLastTerm(log, term)
    ensures |SetLastTerm(log, term)| == |log| && LastIndex(SetLastTerm(log, term)) == LastIndex(log)
    ensures log != [] ==> var l := SetLastTerm(log, term); l[|l| - 1 := l[|l| - 1].(term := term)] == l
  {}

  lemma EntriesIndexed(log: Log, prev: nat)
    requires WellIndexed(log) && prev <= |log|
    ensures forall i | 0 <= i < |log[prev..]| :: log[prev..][i].index == prev + i + 1
  {}

  /** Every index after commitIndex and before begin was looked at; last is the largest a majority holds. */
  ghost predicate Counted(s: Server, begin: int, last: int) {
    && s.commitIndex >= 0 && s.commitIndex < begin
    && (begin > s.commitIndex + 1 ==> begin <= LastIndex(s.log) + 1)
    && (last == -1 || (s.commitIndex < last < begin && Majority(s, last)))
    && forall k | s.commitIndex < k < begin && last < k :: !Majority(s, k)
  }

  lemma CountedOne(s: Server, begin: int, last: int, granted: nat)
    requires Counted(s, begin, last) && begin <= LastIndex(s.log) && granted == 1 + |Holders(s, begin)|
    ensures Counted(s, begin + 1, if granted >= s.peerNumber / 2 + 1 then begin else last)
  {
    assert Majority(s, begin) <==> granted >= s.peerNumber / 2 + 1;
    hide Majority;
  }

  lemma Decided(s: Server, begin: int, last: int)
    requires Counted(s, begin, last) && begin > LastIndex(s.log)
    ensures last > s.commitIndex ==> CommitTo(s, last)
    ensures last <= s.commitIndex ==> forall index :: !CommitTo(s, index)
    ensures UpdateCommit(s) == if last > s.commitIndex && s.isLeader then s.(commitIndex := last) else s
  {
    hide Majority;
    CommitToUnique(s);
  }

  lemma CommitToUnique(s: Server)
    ensures forall i, j :: CommitTo(s, i) && CommitTo(s, j) ==> i == j
  {
    hide Majority;
  }

  /** A majority for an index is one for every smaller index, so every newly covered index has it. */
  lemma CommitCovers(s: Server, index: int, covered: int)
    requires CommitTo(s, index) && s.commitIndex < covered <= index
    ensures Majority(s, covered)
  {
    SubsetSize(Holders(s, index), Holders(s, covered));
  }
}
