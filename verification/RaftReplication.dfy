/** Over runs: what a leader takes a peer to hold, the peer has held; what it commits, more than half have held. */
module RaftReplication {
  import opened RaftServer
  import opened RaftCluster
  import opened RaftElection
  import opened RaftRuns
  import opened RaftCommit

  /** This log ends with these entries, but for the term of the last. */
  ghost predicate EndsWith(log: Log, entries: Log) {
    |entries| <= |log| && SameButLastTerm(log[|log| - |entries|..], entries)
  }

  /** At step t peer p takes over an append of server i; its log then has this length and ends with what was sent. */
  ghost predicate TookOver(r: Execution, t: nat, i: nat, p: nat, length: int) {
    && t < |r.steps| && t + 1 < |r.states| && r.steps[t].AnswerAppend? && p < |r.states[t + 1].hosts|
    && var append := r.steps[t].append;
       && append.from == i && append.to == p && append.args.job == Append
       && var log := r.states[t + 1].hosts[p].s.log;
          |log| == length && EndsWith(log, append.args.entries)
  }

  lemma SuccessTells(s: Server, args: AppendEntriesArgs)
    requires WellIndexed(s.log) && ArgsOk(args) && 0 <= s.lastApply && args.job == Append
    requires HandleAppendEntries(s, args).1.success
    ensures var log := HandleAppendEntries(s, args).0.log;
            |log| == args.prevLogIndex + |args.entries| && EndsWith(log, args.entries)
  {
    HandlerCases(s, args);
    hide HandleAppendEntries;
    var prev := args.prevLogIndex;
    TakenOver(s.log[..prev], args.entries, args.term);
  }

  lemma TakenOver(before: Log, entries: Log, term: int)
    ensures var log := SetLastTerm(before + entries, term);
            |log| == |before| + |entries| && EndsWith(log, entries)
  {
    var log := SetLastTerm(before + entries, term);
    assert log[|before|..] == SetLastTerm(entries, term);
  }

  /** Every answer in flight that accepts an append was given at a step of the run. */
  lemma {:induction false} AnswerGiven(r: Execution, n: nat, k: nat, answer: AppendReply) returns (t: nat)
    requires IsRun(r, n) && k < |r.states| && answer in r.states[k].appendReplies
    requires answer.args.job == Append && answer.reply.success
    ensures t < k && TookOver(r, t, answer.to, answer.from, answer.args.prevLogIndex + |answer.args.entries|)
  {
    if k == 0 {
      assert false;
    } else {
      RunSound(r, n, k - 1);
      assert StepAt(r, k - 1);
      hide WellFormed, ElectionInv, IsRun, TookOver;
      if answer in r.states[k - 1].appendReplies {
        t := AnswerGiven(r, n, k - 1, answer);
      } else {
        t := k - 1;
        NewAnswer(r, t, answer);
      }
    }
  }

  lemma NewAnswer(r: Execution, t: nat, answer: AppendReply)
    requires t < |r.steps| && |r.states| == |r.steps| + 1
    requires WellFormed(r.states[t]) && Enabled(r.states[t], r.steps[t])
    requires r.states[t + 1] == Do(r.states[t], r.steps[t])
    requires answer in r.states[t + 1].appendReplies && answer !in r.states[t].appendReplies
    requires answer.args.job == Append && answer.reply.success
    ensures TookOver(r, t, answer.to, answer.from, answer.args.prevLogIndex + |answer.args.entries|)
  {
    var c, step := r.states[t], r.steps[t];
    if step.AnswerAppend? {
      HostFacts(c, step.append.to);
      assert ArgsOk(step.append.args);
      hide WellFormed, HandleAppendEntries, ArgsOk, EndsWith;
      SuccessTells(c.hosts[step.append.to].s, step.append.args);
    } else {
      NoNewAnswer(c, step);
    }
  }

  lemma NoNewAnswer(c: Cluster, step: Step)
    requires WellFormed(c) && Enabled(c, step) && !step.AnswerAppend?
    ensures Do(c, step).appendReplies == c.appendReplies
  {
    hide WellFormed, HandleAppendEntries, HandleRequestVote, CommitAndApply;
  }

  lemma NothingMatched(n: nat, i: nat, p: nat)
    ensures i < n ==> MatchOf(Start(n).hosts[i].s, p) == 0
  {
    if i < n {
      assert Start(n).hosts[i] == FreshHost(i, n);
    }
  }

  /** What a server takes a peer to hold is the length of the peer's log when it took over an append of that server. */
  lemma {:induction false} MatchWasHeld(r: Execution, n: nat, k: nat, i: nat, p: nat) returns (t: nat)
    requires IsRun(r, n) && k < |r.states| && i < |r.states[k].hosts| && MatchOf(r.states[k].hosts[i].s, p) != 0
    ensures t < k && p != i && TookOver(r, t, i, p, MatchOf(r.states[k].hosts[i].s, p))
  {
    if k == 0 {
      NothingMatched(n, i, p);
      assert false;
    } else {
      var c, step := r.states[k - 1], r.steps[k - 1];
      RunSound(r, n, k - 1);
      assert StepAt(r, k - 1);
      OnlyMover(c, step);
      TablesExactly(c, step, i, p);
      hide WellFormed, ElectionInv, Do, IsRun, TookOver;
      if Opens(step, i, p) {
        t := AnswerGiven(r, n, k - 1, step.answer);
      } else {
        t := MatchWasHeld(r, n, k - 1, i, p);
      }
    }
  }

  /** Before state k this peer's log was at least so long, right after it took over an append of server i. */
  ghost predicate HeldBefore(r: Execution, k: nat, i: nat, p: nat, index: int) {
    exists t: nat, length: int :: TookOver(r, t, i, p, length) && t < k && index <= length
  }

  /** When a server commits more, it and peers that have held as much are more than half of the cluster. */
  lemma CommitWasHeld(r: Execution, n: nat, k: nat, i: nat) returns (peers: set<nat>)
    requires IsRun(r, n) && k < |r.steps| && r.steps[k].RecordMatch? && r.steps[k].answer.to == i
    requires i < |r.states[k].hosts| && i < |r.states[k + 1].hosts|
    requires r.states[k + 1].hosts[i].s.commitIndex > r.states[k].hosts[i].s.commitIndex
    ensures i !in peers && 2 * (|peers| + 1) > |r.states[k].hosts|
    ensures r.states[k + 1].hosts[i].s.commitIndex <= |r.states[k + 1].hosts[i].s.log|
    ensures forall p | p in peers :: HeldBefore(r, k + 1, i, p, r.states[k + 1].hosts[i].s.commitIndex)
  {
    var (c, answer) := (r.states[k], r.steps[k].answer);
    var m := Matched(c.hosts[i].s, answer.from, MatchedBy(answer.args));
    RunSound(r, n, k);
    assert StepAt(r, k);
    HostFacts(c, i);
    MatchedKeeps(c.hosts[i].s, answer.from, MatchedBy(answer.args));
    CommitsLargestBacked(m);
    var s := r.states[k + 1].hosts[i].s;
    peers :| Backing(m, peers, s.commitIndex) && 2 * (|peers| + 1) > m.peerNumber;
    hide WellFormed, ElectionInv, CommitAndApply, EmitsFromLog, TookOver;
    forall p | p in peers ensures HeldBefore(r, k + 1, i, p, s.commitIndex) {
      var t := MatchWasHeld(r, n, k + 1, i, p);
    }
  }
}
