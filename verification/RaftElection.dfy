/** Votes and leaders: one vote per server and term, across crashes, and one winner per term. */
module RaftElection {
  import opened Linearizability
  import opened RaftServer
  import opened RaftCluster

  // ---- the invariant, one fact at a time ----

  ghost predicate HostOk(c: Cluster, i: nat)
    requires i < |c.hosts|
  {
    var h := c.hosts[i];
    && h.s.me == i && h.s.peerNumber == |c.hosts|
    && (h.s.role == Leader ==> h.s.isLeader)
    && h.disk.term == h.s.term && h.disk.votedFor == h.s.votedFor
    && h.s.term >= 0
  }

  /** A granted vote stays the server's vote for as long as it is in that term. */
  ghost predicate GrantOk(c: Cluster, g: (nat, int))
    requires g in c.grants
  {
    && g.0 < |c.hosts| && c.grants[g] < |c.hosts|
    && g.1 <= c.hosts[g.0].s.term
    && (g.1 == c.hosts[g.0].s.term ==> c.hosts[g.0].s.votedFor == c.grants[g])
  }

  ghost predicate Granted(c: Cluster, voter: nat, term: int, candidate: nat) {
    (voter, term) in c.grants && c.grants[(voter, term)] == candidate
  }

  ghost predicate RequestOk(c: Cluster, m: VoteRequest) {
    m.from < |c.hosts| && m.args.peerId == m.from
  }

  ghost predicate ReplyOk(c: Cluster, m: VoteReply) {
    && m.from < |c.hosts| && m.to < |c.hosts| && m.from != m.to
    && m.requested <= m.reply.term
    && (m.reply.voteGranted ==> Granted(c, m.from, m.reply.term, m.to))
  }

  ghost predicate AttemptOk(c: Cluster, i: nat)
    requires i < |c.hosts|
  {
    var h := c.hosts[i];
    h.attempt.Some? ==>
      var a := h.attempt.value;
      && 1 <= a.term <= h.s.term && (h.s.role == Cand ==> a.term == h.s.term)
      && a.votes == 1 + |a.voters| && i !in a.voters && a.voters <= a.heard
      && Granted(c, i, a.term, i) && (forall v | v in a.voters :: Granted(c, v, a.term, i))
      && !(a.term in c.winners && c.winners[a.term] == i)
  }

  ghost predicate WinnerOk(c: Cluster, term: int)
    requires term in c.winners
  {
    && term >= 1 && c.winners[term] < |c.hosts| && term <= c.hosts[c.winners[term]].s.term
    && term in c.quorums && |c.quorums[term]| > |c.hosts| / 2
    && forall v | v in c.quorums[term] :: Granted(c, v, term, c.winners[term])
  }

  ghost predicate LeaderOk(c: Cluster, i: nat)
    requires i < |c.hosts|
  {
    c.hosts[i].s.role == Leader ==> c.hosts[i].s.term in c.winners && c.winners[c.hosts[i].s.term] == i
  }

  ghost predicate ElectionInv(c: Cluster) {
    && (forall i: nat | i < |c.hosts| :: HostOk(c, i))
    && (forall g | g in c.grants :: GrantOk(c, g))
    && (forall m | m in c.voteRequests :: RequestOk(c, m))
    && (forall m | m in c.voteReplies :: ReplyOk(c, m))
    && (forall i: nat | i < |c.hosts| :: AttemptOk(c, i))
    && (forall t | t in c.winners :: WinnerOk(c, t))
    && (forall i: nat | i < |c.hosts| :: LeaderOk(c, i))
  }

  // ---- how steps change a server ----

  /** Terms only grow, and within a term a vote once cast stays. */
  ghost predicate HostAdvance(h: Host, h': Host) {
    && h.s.term <= h'.s.term
    && (h'.s.term == h.s.term && h.s.votedFor != NOBODY ==> h'.s.votedFor == h.s.votedFor)
  }

  /** Recorded grants and winners are never changed. */
  ghost predicate Advance(c: Cluster, c': Cluster) {
    && |c'.hosts| == |c.hosts|
    && (forall i | 0 <= i < |c.hosts| :: HostAdvance(c.hosts[i], c'.hosts[i]))
    && (forall g | g in c.grants :: g in c'.grants && c'.grants[g] == c.grants[g])
    && (forall t | t in c.winners :: t in c'.winners && c'.winners[t] == c.winners[t]
                                     && t in c.quorums && t in c'.quorums && c'.quorums[t] == c.quorums[t])
  }

  /** What is recorded stays true while the cluster advances. */
  lemma AdvanceKeeps(c: Cluster, c': Cluster)
    requires ElectionInv(c) && Advance(c, c')
    ensures forall g | g in c.grants :: GrantOk(c', g)
    ensures forall m | m in c.voteRequests :: RequestOk(c', m)
    ensures forall m | m in c.voteReplies :: ReplyOk(c', m)
    ensures forall t | t in c.winners :: WinnerOk(c', t)
  {
    forall g | g in c.grants ensures GrantOk(c', g) {
      assert GrantOk(c, g);
      assert HostAdvance(c.hosts[g.0], c'.hosts[g.0]);
    }
    forall m | m in c.voteReplies ensures ReplyOk(c', m) {
      assert ReplyOk(c, m);
    }
    forall m | m in c.voteRequests ensures RequestOk(c', m) {
      assert RequestOk(c, m);
    }
    forall t | t in c.winners ensures WinnerOk(c', t) {
      assert WinnerOk(c, t);
      assert HostAdvance(c.hosts[c.winners[t]], c'.hosts[c.winners[t]]);
      forall v | v in c'.quorums[t] ensures Granted(c', v, t, c'.winners[t]) {
        assert Granted(c, v, t, c.winners[t]);
      }
    }
  }

  /** Facts about a server survive any advance that leaves the server itself alone. */
  lemma UntouchedHost(c: Cluster, c': Cluster, i: nat)
    requires ElectionInv(c) && Advance(c, c') && i < |c.hosts| && c'.hosts[i] == c.hosts[i]
    requires forall t | t in c'.winners && t !in c.winners :: c'.winners[t] != i
    ensures HostOk(c', i) && AttemptOk(c', i) && LeaderOk(c', i)
  {
    assert HostOk(c, i) && AttemptOk(c, i) && LeaderOk(c, i);
    if c.hosts[i].attempt.Some? {
      var a := c.hosts[i].attempt.value;
      forall v | v in a.voters ensures Granted(c', v, a.term, i) {
        assert Granted(c, v, a.term, i);
      }
      assert Granted(c, i, a.term, i);
    }
  }

  ghost predicate OnlyHost(c: Cluster, c': Cluster, i: nat) {
    |c'.hosts| == |c.hosts| && forall j | 0 <= j < |c.hosts| && j != i :: c'.hosts[j] == c.hosts[j]
  }

  /** It is enough to look at the server that moved and at what is new. */
  lemma Assemble(c: Cluster, c': Cluster, i: nat)
    requires ElectionInv(c) && Advance(c, c') && i < |c.hosts| && OnlyHost(c, c', i)
    requires HostOk(c', i) && AttemptOk(c', i) && LeaderOk(c', i)
    requires forall g | g in c'.grants && g !in c.grants :: GrantOk(c', g)
    requires forall m | m in c'.voteRequests && m !in c.voteRequests :: RequestOk(c', m)
    requires forall m | m in c'.voteReplies && m !in c.voteReplies :: ReplyOk(c', m)
    requires forall t | t in c'.winners && t !in c.winners :: c'.winners[t] == i && WinnerOk(c', t)
    ensures ElectionInv(c')
  {
    hide HostOk, AttemptOk, LeaderOk, GrantOk, RequestOk, ReplyOk, WinnerOk, HostAdvance;
    AdvanceKeeps(c, c');
    forall j: nat | j < |c.hosts| ensures HostOk(c', j) && AttemptOk(c', j) && LeaderOk(c', j) {
      if j != i {
        UntouchedHost(c, c', j);
      }
    }
  }

  lemma InvAt(c: Cluster, i: nat)
    requires ElectionInv(c) && i < |c.hosts|
    ensures HostOk(c, i) && AttemptOk(c, i) && LeaderOk(c, i)
    ensures forall t | (i, t) in c.grants ::
              t <= c.hosts[i].s.term && c.grants[(i, t)] < |c.hosts|
              && (t == c.hosts[i].s.term ==> c.hosts[i].s.votedFor == c.grants[(i, t)])
    ensures forall t | t in c.winners && c.winners[t] == i :: t <= c.hosts[i].s.term
  {
    forall t | (i, t) in c.grants
      ensures t <= c.hosts[i].s.term && c.grants[(i, t)] < |c.hosts|
      ensures t == c.hosts[i].s.term ==> c.hosts[i].s.votedFor == c.grants[(i, t)]
    {
      assert GrantOk(c, (i, t));
    }
    forall t | t in c.winners && c.winners[t] == i ensures t <= c.hosts[i].s.term {
      assert WinnerOk(c, t);
    }
  }

  lemma RequestAt(c: Cluster, m: VoteRequest)
    requires ElectionInv(c) && m in c.voteRequests
    ensures RequestOk(c, m)
  {}

  lemma ReplyAt(c: Cluster, m: VoteReply)
    requires ElectionInv(c) && m in c.voteReplies
    ensures ReplyOk(c, m)
  {}

  lemma QuorumsRecorded(c: Cluster)
    requires ElectionInv(c)
    ensures forall t | t in c.winners :: t in c.quorums
  {
    forall t | t in c.winners ensures t in c.quorums {
      assert WinnerOk(c, t);
    }
  }

  /** A step that changes one server and adds no history. */
  lemma Touched(c: Cluster, c': Cluster, i: nat, h: Host)
    requires ElectionInv(c) && i < |c.hosts| && c'.hosts == c.hosts[i := h] && HostAdvance(c.hosts[i], h)
    requires c'.grants == c.grants && c'.winners == c.winners && c'.quorums == c.quorums
    ensures Advance(c, c') && OnlyHost(c, c', i)
  {
    QuorumsRecorded(c);
  }

  /** A step that changes one server and may record a grant of its own. */
  lemma TouchedGranting(c: Cluster, c': Cluster, i: nat, h: Host, g: (nat, int), candidate: nat)
    requires ElectionInv(c) && i < |c.hosts| && c'.hosts == c.hosts[i := h] && HostAdvance(c.hosts[i], h)
    requires c'.grants == c.grants[g := candidate] && (g in c.grants ==> c.grants[g] == candidate)
    requires c'.winners == c.winners && c'.quorums == c.quorums
    ensures Advance(c, c') && OnlyHost(c, c', i)
  {
    QuorumsRecorded(c);
  }

  /** A step that changes one server and records it as the winner of a new term. */
  lemma TouchedWinning(c: Cluster, c': Cluster, i: nat, h: Host, t: int)
    requires ElectionInv(c) && i < |c.hosts| && c'.hosts == c.hosts[i := h] && HostAdvance(c.hosts[i], h)
    requires c'.grants == c.grants && t !in c.winners && t in c'.quorums
    requires c'.winners == c.winners[t := i] && c'.quorums == c.quorums[t := c'.quorums[t]]
    ensures Advance(c, c') && OnlyHost(c, c', i)
  {
    QuorumsRecorded(c);
  }

  /** An attempt left alone stays in order, unless its server is a candidate in another term. */
  lemma AttemptStays(c: Cluster, c': Cluster, i: nat)
    requires ElectionInv(c) && Advance(c, c') && i < |c.hosts|
    requires c'.hosts[i].attempt == c.hosts[i].attempt || c'.hosts[i].attempt == None
    requires c'.hosts[i].s.role == Cand ==> c.hosts[i].s.role == Cand && c'.hosts[i].s.term == c.hosts[i].s.term
    requires c'.winners == c.winners
    ensures AttemptOk(c', i)
  {
    assert AttemptOk(c, i);
    if c'.hosts[i].attempt.Some? {
      var a := c.hosts[i].attempt.value;
      forall v | v in a.voters ensures Granted(c', v, a.term, i) {
        assert Granted(c, v, a.term, i);
      }
      assert Granted(c, i, a.term, i);
      assert HostAdvance(c.hosts[i], c'.hosts[i]);
    }
  }

  // ---- the steps ----

  lemma StartCandidacyKeeps(c: Cluster, i: nat)
    requires WellFormed(c) && ElectionInv(c) && Enabled(c, StartCandidacy(i))
    ensures var c' := Do(c, StartCandidacy(i)); ElectionInv(c') && Advance(c, c')
  {
    var c' := Do(c, StartCandidacy(i));
    hide ElectionInv, Advance, OnlyHost, WellFormed, VoteArgs;
    InvAt(c, i);
    var t := c'.hosts[i].s.term;
    TouchedGranting(c, c', i, c'.hosts[i], (i, t), i);
    assert Granted(c', i, t, i);
    Assemble(c, c', i);
  }

  /** A vote is granted only in a term in which this server has granted none to anyone else. */
  lemma GrantIsNew(c: Cluster, i: nat, request: VoteRequest)
    requires WellFormed(c) && ElectionInv(c) && Enabled(c, AnswerVote(i, request))
    ensures var (s, reply) := HandleRequestVote(c.hosts[i].s, request.args);
            && HostAdvance(c.hosts[i], c.hosts[i].(s := s, disk := Disk(s)))
            && reply.term == s.term && request.args.term <= s.term
            && (reply.voteGranted ==> (i, reply.term) !in c.grants && s.votedFor == request.from)
  {
    assert RequestOk(c, request);
    hide ElectionInv, UpToDate;
    InvAt(c, i);
  }

  lemma AnswerVoteKeeps(c: Cluster, i: nat, request: VoteRequest)
    requires WellFormed(c) && ElectionInv(c) && Enabled(c, AnswerVote(i, request))
    ensures var c' := Do(c, AnswerVote(i, request)); ElectionInv(c') && Advance(c, c')
  {
    hide ElectionInv, Advance, OnlyHost, HandleRequestVote, HostAdvance, AppliedInOrder, ArgsOk;
    GrantIsNew(c, i, request);
    RequestAt(c, request);
    VoteEffect(c.hosts[i].s, request.args);
    hide WellFormed, WellIndexed;
    var c' := Do(c, AnswerVote(i, request));
    InvAt(c, i);
    var reply := HandleRequestVote(c.hosts[i].s, request.args).1;
    if reply.voteGranted {
      TouchedGranting(c, c', i, c'.hosts[i], (i, reply.term), request.from);
    } else {
      Touched(c, c', i, c'.hosts[i]);
    }
    AttemptStays(c, c', i);
    Assemble(c, c', i);
  }

  /** Answering a vote request changes at most the term, the role and the vote. */
  lemma VoteEffect(s: Server, args: RequestVoteArgs)
    requires WellIndexed(s.log)
    ensures var s' := HandleRequestVote(s, args).0;
            && s' == s.(term := s'.term, role := s'.role, isLeader := s'.isLeader, votedFor := s'.votedFor)
            && (|| (s'.role == s.role && s'.term == s.term && s'.isLeader == s.isLeader)
                || (s'.role == Follower && !s'.isLeader && s'.term > s.term))
  {
    hide UpToDate;
  }

  lemma CountVoteKeeps(c: Cluster, vote: VoteReply)
    requires WellFormed(c) && ElectionInv(c) && Enabled(c, CountVote(vote))
    ensures var c' := Do(c, CountVote(vote)); ElectionInv(c') && Advance(c, c')
  {
    hide ElectionInv, Advance, OnlyHost, WellFormed, Granted, ReplyOk;
    var c' := Do(c, CountVote(vote));
    var i := vote.to;
    InvAt(c, i);
    Touched(c, c', i, c'.hosts[i]);
    if VoteReplyEndsCandidacy(c.hosts[i].s, vote.reply) || c'.hosts[i].attempt == c.hosts[i].attempt {
      AttemptStays(c, c', i);
    } else {
      assert ReplyOk(c, vote) by { ReplyAt(c, vote); }
      CountedAttempt(c, c', vote, c.hosts[i].attempt.value, c'.hosts[i].attempt.value);
    }
    Assemble(c, c', i);
  }

  /** A counted vote was granted in the attempt's own term. */
  lemma CountedAttempt(c: Cluster, c': Cluster, vote: VoteReply, a: Attempt, a': Attempt)
    requires ReplyOk(c, vote) && AttemptOk(c, vote.to) && |c'.hosts| == |c.hosts|
    requires c'.grants == c.grants && c'.winners == c.winners && c'.hosts[vote.to].s == c.hosts[vote.to].s
    requires c.hosts[vote.to].attempt == Some(a) && c'.hosts[vote.to].attempt == Some(a')
    requires a.term == vote.requested && vote.from !in a.heard
    requires a' == Attempt(a.term, a.heard + {vote.from}, a'.voters, a'.votes)
    requires || (a'.voters == a.voters && a'.votes == a.votes)
             || (VoteCounts(c.hosts[vote.to].s, vote.reply)
                 && a'.voters == a.voters + {vote.from} && a'.votes == a.votes + 1)
    ensures AttemptOk(c', vote.to)
  {
    VoteCounted(a, a', vote.from);
    forall v | v in a'.voters ensures Granted(c', v, a'.term, vote.to) {
      assert v == vote.from || Granted(c, v, a.term, vote.to);
    }
    assert Granted(c, vote.to, a.term, vote.to);
  }

  /** Counting one more vote keeps the count equal to the number of voters. */
  lemma VoteCounted(a: Attempt, a': Attempt, voter: nat)
    requires a.votes == 1 + |a.voters| && a.voters <= a.heard && voter !in a.heard
    requires || (a'.voters == a.voters && a'.votes == a.votes)
             || (a'.voters == a.voters + {voter} && a'.votes == a.votes + 1)
    ensures a'.votes == 1 + |a'.voters|
  {}

  /** Two majorities of the same n servers have a member in common. */
  lemma MajoritiesMeet(a: set<nat>, b: set<nat>, n: nat) returns (v: nat)
    requires |a| > n / 2 && |b| > n / 2
    requires forall x | x in a || x in b :: x < n
    ensures v in a && v in b
  {
    BelowFacts(n);
    SubsetSize(a + b, Below(n));
    assert |a + b| + |a * b| == |a| + |b|;
    v :| v in a * b;
  }

  /** The votes of a live attempt are granted votes in its term, one per server. */
  lemma AttemptQuorum(c: Cluster, i: nat)
    requires ElectionInv(c) && i < |c.hosts| && c.hosts[i].attempt.Some?
    ensures var a := c.hosts[i].attempt.value;
            && |a.voters + {i}| == a.votes
            && (forall v | v in a.voters + {i} :: Granted(c, v, a.term, i) && v < |c.hosts|)
  {
    assert AttemptOk(c, i);
    var a := c.hosts[i].attempt.value;
    forall v | v in a.voters + {i} ensures Granted(c, v, a.term, i) && v < |c.hosts| {
      assert v == i || Granted(c, v, a.term, i);
      assert GrantOk(c, (v, a.term));
    }
  }

  /** Whoever holds a majority of a term's votes is the one recorded as its winner. */
  lemma SameWinner(c: Cluster, i: nat)
    requires ElectionInv(c) && Enabled(c, Win(i))
    ensures var t := c.hosts[i].attempt.value.term;
            t in c.winners ==> c.winners[t] == i
  {
    var a := c.hosts[i].attempt.value;
    if a.term in c.winners {
      AttemptQuorum(c, i);
      assert WinnerOk(c, a.term);
      forall v | v in c.quorums[a.term] ensures v < |c.hosts| {
        assert Granted(c, v, a.term, c.winners[a.term]);
        assert GrantOk(c, (v, a.term));
      }
      var v := MajoritiesMeet(a.voters + {i}, c.quorums[a.term], |c.hosts|);
      assert Granted(c, v, a.term, i);
    }
  }

  /** Nobody can win a term that already has a winner. */
  lemma WinIsFresh(c: Cluster, i: nat)
    requires ElectionInv(c) && Enabled(c, Win(i))
    ensures c.hosts[i].s.term == c.hosts[i].attempt.value.term
    ensures c.hosts[i].s.term !in c.winners
  {
    SameWinner(c, i);
    assert AttemptOk(c, i);
  }

  lemma WinKeeps(c: Cluster, i: nat)
    requires WellFormed(c) && ElectionInv(c) && Enabled(c, Win(i))
    ensures var c' := Do(c, Win(i)); ElectionInv(c') && Advance(c, c')
  {
    hide ElectionInv, WellFormed, SetLastTerm, PeerTable, Advance, OnlyHost;
    var c' := Do(c, Win(i));
    WinIsFresh(c, i);
    AttemptQuorum(c, i);
    InvAt(c, i);
    TouchedWinning(c, c', i, c'.hosts[i], c.hosts[i].s.term);
    var t := c.hosts[i].s.term;
    forall v | v in c'.quorums[t] ensures Granted(c', v, t, i) {
      assert Granted(c, v, t, i);
    }
    Assemble(c, c', i);
  }

  lemma GiveUpKeeps(c: Cluster, i: nat)
    requires WellFormed(c) && ElectionInv(c) && Enabled(c, GiveUp(i))
    ensures var c' := Do(c, GiveUp(i)); ElectionInv(c') && Advance(c, c')
  {
    var c' := Do(c, GiveUp(i));
    hide ElectionInv, Advance, OnlyHost, WellFormed;
    InvAt(c, i);
    Touched(c, c', i, c'.hosts[i]);
    AttemptStays(c, c', i);
    Assemble(c, c', i);
  }

  lemma BeginStartKeeps(c: Cluster, i: nat, command: Command)
    requires WellFormed(c) && ElectionInv(c) && Enabled(c, BeginStart(i, command))
    ensures var c' := Do(c, BeginStart(i, command)); ElectionInv(c') && Advance(c, c')
  {
    var c' := Do(c, BeginStart(i, command));
    hide ElectionInv, Advance, OnlyHost, WellFormed;
    InvAt(c, i);
    Touched(c, c', i, c'.hosts[i]);
    AttemptStays(c, c', i);
    Assemble(c, c', i);
  }

  lemma StartCommandKeeps(c: Cluster, i: nat, command: Command)
    requires WellFormed(c) && ElectionInv(c) && Enabled(c, StartCommand(i, command))
    ensures var c' := Do(c, StartCommand(i, command)); ElectionInv(c') && Advance(c, c')
  {
    var c' := Do(c, StartCommand(i, command));
    hide ElectionInv, Advance, OnlyHost, WellFormed;
    InvAt(c, i);
    Touched(c, c', i, c'.hosts[i]);
    AttemptStays(c, c', i);
    Assemble(c, c', i);
  }

  lemma SendKeeps(c: Cluster, step: Step)
    requires WellFormed(c) && ElectionInv(c) && Enabled(c, step) && (step.SendAppend? || step.SendHeartbeat?)
    ensures var c' := Do(c, step); ElectionInv(c') && Advance(c, c')
  {
    var c' := Do(c, step);
    hide ElectionInv, Advance, OnlyHost, WellFormed, AppendArgsFrom, HeartbeatArgs;
    InvAt(c, step.i);
    Touched(c, c', step.i, c'.hosts[step.i]);
    AttemptStays(c, c', step.i);
    Assemble(c, c', step.i);
  }

  /** Handling an append never grants a vote and never lowers the term. */
  lemma AppendEffect(s: Server, args: AppendEntriesArgs)
    requires WellIndexed(s.log) && ArgsOk(args) && 0 <= s.lastApply
    ensures var s' := HandleAppendEntries(s, args).0;
            && s'.me == s.me && s'.peerNumber == s.peerNumber && s'.votedFor == s.votedFor
            && s'.term == (if args.term >= s.term then args.term else s.term)
            && s'.role == (if args.term >= s.term then Follower else s.role)
            && s'.isLeader == (if args.term >= s.term then false else s.isLeader)
  {}

  lemma AnswerAppendKeeps(c: Cluster, append: AppendRequest)
    requires WellFormed(c) && ElectionInv(c) && Enabled(c, AnswerAppend(append))
    ensures var c' := Do(c, AnswerAppend(append)); ElectionInv(c') && Advance(c, c')
  {
    var c' := Do(c, AnswerAppend(append));
    AppendEffect(c.hosts[append.to].s, append.args);
    hide ElectionInv, Advance, OnlyHost, WellFormed, HandleAppendEntries;
    InvAt(c, append.to);
    Touched(c, c', append.to, c'.hosts[append.to]);
    AttemptStays(c, c', append.to);
    Assemble(c, c', append.to);
  }

  lemma StepDownKeeps(c: Cluster, answer: AppendReply)
    requires WellFormed(c) && ElectionInv(c) && Enabled(c, StepDown(answer))
    ensures var c' := Do(c, StepDown(answer)); ElectionInv(c') && Advance(c, c')
  {
    var c' := Do(c, StepDown(answer));
    hide ElectionInv, Advance, OnlyHost, WellFormed;
    InvAt(c, answer.to);
    Touched(c, c', answer.to, c'.hosts[answer.to]);
    AttemptStays(c, c', answer.to);
    Assemble(c, c', answer.to);
  }

  /** Recording a match changes only the bookkeeping of commits. */
  lemma CommitEffect(s: Server)
    requires WellIndexed(s.log) && AppliedInOrder(s)
    ensures var s' := CommitAndApply(s);
            s' == s.(commitIndex := s'.commitIndex, lastApply := s'.lastApply, applied := s'.applied)
    ensures AppliedInOrder(CommitAndApply(s))
  {
    LastIndexIsLength(s.log);
  }

  lemma RecordMatchKeeps(c: Cluster, answer: AppendReply)
    requires WellFormed(c) && ElectionInv(c) && Enabled(c, RecordMatch(answer))
    ensures var c' := Do(c, RecordMatch(answer)); ElectionInv(c') && Advance(c, c')
  {
    var c', i := Do(c, RecordMatch(answer)), answer.to;
    CommitEffect(Matched(c.hosts[i].s, answer.from, MatchedBy(answer.args)));
    hide ElectionInv, Advance, OnlyHost, WellFormed, CommitAndApply;
    InvAt(c, i);
    Touched(c, c', i, c'.hosts[i]);
    AttemptStays(c, c', i);
    Assemble(c, c', i);
  }

  lemma NotePeerKeeps(c: Cluster, i: nat, peer: nat, alive: bool)
    requires WellFormed(c) && ElectionInv(c) && Enabled(c, NotePeer(i, peer, alive))
    ensures var c' := Do(c, NotePeer(i, peer, alive)); ElectionInv(c') && Advance(c, c')
  {
    var c' := Do(c, NotePeer(i, peer, alive));
    hide ElectionInv, Advance, OnlyHost, WellFormed;
    InvAt(c, i);
    Touched(c, c', i, c'.hosts[i]);
    AttemptStays(c, c', i);
    Assemble(c, c', i);
  }

  lemma CrashKeeps(c: Cluster, i: nat)
    requires WellFormed(c) && ElectionInv(c) && Enabled(c, Crash(i))
    ensures var c' := Do(c, Crash(i)); ElectionInv(c') && Advance(c, c')
  {
    var c' := Do(c, Crash(i));
    hide ElectionInv, Advance, OnlyHost, WellFormed;
    InvAt(c, i);
    Touched(c, c', i, c'.hosts[i]);
    AttemptStays(c, c', i);
    Assemble(c, c', i);
  }

  /** Every step keeps the invariant and advances the cluster. */
  lemma StepKeeps(c: Cluster, step: Step)
    requires WellFormed(c) && ElectionInv(c) && Enabled(c, step)
    ensures ElectionInv(Do(c, step)) && Advance(c, Do(c, step))
  {
    hide *;
    match step
    case StartCandidacy(i) => StartCandidacyKeeps(c, i);
    case AnswerVote(i, request) => AnswerVoteKeeps(c, i, request);
    case CountVote(vote) => CountVoteKeeps(c, vote);
    case Win(i) => WinKeeps(c, i);
    case GiveUp(i) => GiveUpKeeps(c, i);
    case BeginStart(i, command) => BeginStartKeeps(c, i, command);
    case StartCommand(i, command) => StartCommandKeeps(c, i, command);
    case SendAppend(_, _, _) => SendKeeps(c, step);
    case SendHeartbeat(_, _) => SendKeeps(c, step);
    case AnswerAppend(append) => AnswerAppendKeeps(c, append);
    case StepDown(answer) => StepDownKeeps(c, answer);
    case RecordMatch(answer) => RecordMatchKeeps(c, answer);
    case NotePeer(i, peer, alive) => NotePeerKeeps(c, i, peer, alive);
    case Crash(i) => CrashKeeps(c, i);
  }
}
