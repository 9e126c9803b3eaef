/** What each event does to a node, told by what can be seen of the node, the message and the answer, and not
    by the functions that compute it: terms, votes, leadership, replication and application in turn. */
module NodeEffects {
  import opened Types
  import opened Membership
  import opened Raft
  import opened NodeInvariants

  // ---------- Terms ----------

  /** The term that comes with a message. */
  function Carried(ev: Event): Option<nat> {
    match ev
    case VoteRequestArrives(req) => Some(req.term)
    case VoteResponseArrives(_, _, rsp) => Some(rsp.term)
    case AppendRequestArrives(req) => Some(req.term)
    case AppendResponseArrives(_, _, rsp) => Some(rsp.term)
    case _ => None
  }

  /** A node is configured without a vote of its own. */
  ghost predicate Unpledged(n: Node) {
    n.id in Ids(n.base) && n.base[IndexOf(n.base, n.id)].votedFor == 0
  }

  /** After any message a node is in the higher of its own term and the message's. */
  lemma MessageTerm(n: Node, ev: Event)
    requires CanHandle(n, ev) && Carried(ev).Some?
    ensures Handle(n, ev).term == Max(n.term, Carried(ev).value)
  {
    match ev {
      case AppendRequestArrives(req) => AppendRequestFields(n, req, Handle(n, ev));
      case _ =>
    }
  }

  /** A message of a higher term, whichever it is, ends what the node was in its own: it is a follower of
      that term, with no addition in flight, and with no vote unless it has just granted one. */
  lemma HigherTermDeposes(n: Node, ev: Event, n': Node)
    requires CanHandle(n, ev) && Carried(ev).Some? && Carried(ev).value > n.term && n' == Handle(n, ev)
    ensures WellFormed(n') && n'.term == Carried(ev).value && n'.role == Follower && n'.pending == 0
    ensures Unpledged(n) ==>
              Vote(n') == if ev.VoteRequestArrives? && HandleVoteRequest(n, ev.voteRequest).1.granted
                          then ev.voteRequest.candidate else 0
  {
    HandleWellFormed(n, ev);
    match ev {
      case AppendRequestArrives(req) =>
        AppendRequestFields(n, req, n');
        if Unpledged(n) {
          NoVoteByAppend(n, req, n');
        }
      case _ =>
    }
  }

  lemma NoVoteByAppend(n: Node, req: AppendRequest, n': Node)
    requires WellFormed(n) && Unpledged(n) && req.term > n.term && n' == HandleAppendRequest(n, req).0
    ensures WellFormed(n') && Vote(n') == 0
  {
    HandleAppendWellFormed(n, req);
    AppendRequestSplit(n, req);
    if Accepts(n, req) {
      NoVoteByEntries(Ready(n, req).(passive := false), req);
    }
  }

  lemma NoVoteByEntries(w: Node, req: AppendRequest)
    requires WellFormed(w) && Unpledged(w) && Vote(w) == 0 && ValidPrevious(w.log, req)
    ensures WellFormed(AppendFromLeader(w, req)) && Vote(AppendFromLeader(w, req)) == 0
  {
    AppendFromLeaderWellFormed(w, req);
    var next := req.prevLogIndex + 1;
    if Conflict(w.log, next, req.entries) {
      RebuildForgetsVote(w, Splice(w.log, next, req.entries), Vote(w));
    } else {
      ClusterAfterAppendNamesSelf(w, req);
      MergeEntriesGrows(w.cluster, req.entries, next, w.id, Vote(w));
    }
  }

  /** A message of no higher term changes the role in one case only: a candidate that hears from a leader of
      its own term follows it. */
  lemma RoleAfterMessage(n: Node, ev: Event, n': Node)
    requires CanHandle(n, ev) && Carried(ev).Some? && Carried(ev).value <= n.term && n' == Handle(n, ev)
    ensures n'.pending == n.pending
    ensures n'.role == if ev.AppendRequestArrives? && Carried(ev).value == n.term && n.role == Candidate
                       then Follower else n.role
  {
    match ev {
      case AppendRequestArrives(req) => AppendRequestFields(n, req, n');
      case _ =>
    }
  }

  /** No message makes a node apply or forget anything, and only an append request touches its log, its commit
      index, its flag, or whom it lists. */
  lemma MessageKeeps(n: Node, ev: Event, n': Node)
    requires CanHandle(n, ev) && Carried(ev).Some? && n' == Handle(n, ev)
    ensures n'.id == n.id && n'.base == n.base && n'.lastApplied == n.lastApplied && n'.applied == n.applied
    ensures !ev.AppendRequestArrives? ==>
              n'.log == n.log && n'.commitIndex == n.commitIndex && n'.passive == n.passive && SameMembers(n, n')
  {
    match ev {
      case AppendRequestArrives(req) => AppendRequestFields(n, req, n');
      case _ => SameMembersStep(n, ev);
    }
  }

  // ---------- Elections ----------

  /** An active node whose timer runs out is a candidate of the next term that has one vote, its own; a
      passive one is not moved. */
  lemma TimeoutEffect(n: Node, n': Node)
    requires WellFormed(n) && n.id != 0 && n' == Handle(n, TimeoutFires)
    ensures n.passive ==> n' == n
    ensures !n.passive ==> n'.term == n.term + 1 && n'.role == Candidate
    ensures !n.passive ==> forall i :: 0 <= i < |n'.cluster| ==> (n'.cluster[i].votedFor == n.id <==> i == n.self)
    ensures n'.log == n.log && n'.commitIndex == n.commitIndex && n'.lastApplied == n.lastApplied
    ensures n'.applied == n.applied && n'.pending == n.pending && n'.passive == n.passive && SameMembers(n, n')
  {
    SameMembersStep(n, TimeoutFires);
  }

  /** The comparison of two logs is a total order by last term, then length: of two logs one is up to date
      with the other, a later last term decides, and only between equal last terms length does. */
  lemma NewerLogWins(a: seq<Entry>, b: seq<Entry>)
    requires |a| >= 1 && |b| >= 1
    ensures UpToDate(LastTerm(a), |a| - 1, b) || UpToDate(LastTerm(b), |b| - 1, a)
    ensures LastTerm(a) > LastTerm(b) ==> UpToDate(LastTerm(a), |a| - 1, b) && !UpToDate(LastTerm(b), |b| - 1, a)
    ensures LastTerm(a) == LastTerm(b) ==> (UpToDate(LastTerm(a), |a| - 1, b) <==> |a| >= |b|)
  {
  }

  /** A vote is granted if and only if the request is of no earlier term, the node has not voted for another
      in that term, and the candidate's last entry is of a later term or of the same term and no earlier index. */
  lemma VoteGrantedIff(n: Node, req: VoteRequest, n': Node, rsp: VoteResponse)
    requires WellFormed(n) && (n', rsp) == HandleVoteRequest(n, req)
    ensures var last := |n.log| - 1;
            rsp.granted <==>
            && req.term >= n.term && (req.term > n.term || n.cluster[n.self].votedFor in {0, req.candidate})
            && (req.lastLogTerm > n.log[last].term
                || (req.lastLogTerm == n.log[last].term && req.lastLogIndex >= last))
    ensures rsp.term == n'.term == Max(n.term, req.term) && SameMembers(n, n')
    ensures forall i :: 0 <= i < |n.cluster| ==>
              n'.cluster[i] == n.cluster[i].(votedFor := if i != n.self then n.cluster[i].votedFor
                                                        else if rsp.granted then req.candidate
                                                        else if req.term > n.term then 0
                                                        else n.cluster[i].votedFor)
  {
  }

  /** A candidate that asks a node of an earlier term gets its vote if and only if its log is the newer or the
      longer one, and that node then is in the candidate's term and has voted for the candidate. */
  lemma CandidateHeard(c: Node, v: Node, v': Node, rsp: VoteResponse)
    requires WellFormed(c) && WellFormed(v) && c.term > v.term
    requires (v', rsp) == HandleVoteRequest(v, BuildVoteRequest(c))
    ensures rsp.granted <==>
            LastTerm(c.log) > LastTerm(v.log) || (LastTerm(c.log) == LastTerm(v.log) && |c.log| >= |v.log|)
    ensures rsp.term == v'.term == c.term && v'.self < |v'.cluster| && Vote(v') == if rsp.granted then c.id else 0
  {
  }

  /** A response of no higher term records its sender's vote if and only if it grants one and was sent in the
      term of the request; nothing else changes. */
  lemma VoteRecordedIff(n: Node, peer: nat, req: VoteRequest, rsp: VoteResponse, n': Node)
    requires WellFormed(n) && peer < |n.cluster| && rsp.term <= n.term && n' == HandleVoteResponse(n, peer, req, rsp)
    ensures var marked := rsp.granted && rsp.term == req.term;
            && n' == n.(cluster := n'.cluster) && |n'.cluster| == |n.cluster|
            && forall i :: 0 <= i < |n.cluster| ==>
                 n'.cluster[i] == n.cluster[i].(votedFor := if marked && i == peer then n.id else n.cluster[i].votedFor)
  {
  }

  /** A set of members is a majority if and only if it reaches the quorum. */
  lemma MajorityIffQuorum(n: Node, s: set<nat>)
    ensures |s| >= Quorum(n) <==> 2 * |s| > |n.cluster|
  {
  }

  /** No smaller number will do: two sets of one member less need not meet. */
  lemma QuorumIsLeast(n: Node) returns (a: set<nat>, b: set<nat>)
    requires n.cluster != []
    ensures a <= Below(|n.cluster|) && b <= Below(|n.cluster|) && |a| == |b| == Quorum(n) - 1 && a * b == {}
  {
    var q := Quorum(n) - 1;
    a := Below(q);
    b := Below(2 * q) - a;
    assert a <= Below(2 * q) && |Below(2 * q) - a| == |Below(2 * q)| - |a| by {
      assert Below(2 * q) == a + (Below(2 * q) - a);
    }
  }

  /** A node takes the lead if and only if more than half of its members have voted for it; otherwise nothing
      happens. Its log then ends with an empty entry of its term. */
  lemma LeadsIffMajority(n: Node, n': Node)
    requires WellFormed(n) && n' == Handle(n, TryBecomeLeader)
    ensures var voters := set i: nat | i < |n.cluster| && n.cluster[i].votedFor == n.id;
            && (2 * |voters| > |n.cluster| ==> n'.role == Leader && n'.log == n.log + [Entry(n.term, [])])
            && (2 * |voters| <= |n.cluster| ==> n' == n)
    ensures n'.term == n.term && n'.commitIndex == n.commitIndex && n'.lastApplied == n.lastApplied
    ensures n'.applied == n.applied && n'.pending == n.pending && n'.passive == n.passive && SameMembers(n, n')
  {
    assert Voters(n) == set i: nat | i < |n.cluster| && n.cluster[i].votedFor == n.id;
    SameMembersStep(n, TryBecomeLeader);
  }

  /** The first thing a new leader sends, to whomever, is an empty request right behind that entry; it takes
      nothing to be held by anyone. */
  lemma FirstRequest(n: Node, l: Node, peer: nat)
    requires WellFormed(n) && l == Handle(n, TryBecomeLeader) && 2 * |Voters(n)| > |n.cluster|
    requires peer < |n.cluster|
    ensures l.cluster[peer].matchIndex == 0 && 1 <= l.cluster[peer].nextIndex <= |l.log| && l.self < |l.cluster|
    ensures var req := BuildAppendRequest(l, peer);
            req.entries == [] && req.prevLogIndex == |n.log| && req.prevLogTerm == req.term == n.term
  {
    SameMembersStep(n, TryBecomeLeader);
  }

  // ---------- Replication ----------

  /** A leader takes over all commands of a batch, in their order, behind what it holds, as entries of its term;
      another node takes over none. */
  lemma CommandsInOrder(n: Node, commands: seq<seq<byte>>, n': Node)
    requires WellFormed(n) && n' == Handle(n, ClientCommands(commands))
    ensures n.role != Leader ==> n' == n
    ensures n.role == Leader ==>
              && |n'.log| == |n.log| + |commands| && n'.log[..|n.log|] == n.log && n' == n.(log := n'.log)
              && forall i :: 0 <= i < |commands| ==> n'.log[|n.log| + i] == Entry(n.term, commands[i])
  {
  }

  /** What a request says of its sender: its term and id, the entry before the next one to send, the entries
      from there on, no more than 8000, and how far the sender has committed. */
  lemma RequestTells(n: Node, peer: nat, req: AppendRequest)
    requires WellFormed(n) && peer < |n.cluster| && 1 <= n.cluster[peer].nextIndex <= |n.log|
    requires req == BuildAppendRequest(n, peer)
    ensures req.term == n.term && req.leader == n.id && req.leaderCommit == n.commitIndex
    ensures req.prevLogIndex + 1 == n.cluster[peer].nextIndex && req.prevLogTerm == n.log[req.prevLogIndex].term
    ensures |req.entries| == Min(8000, |n.log| - n.cluster[peer].nextIndex)
    ensures forall k :: 0 <= k < |req.entries| ==> req.entries[k] == n.log[n.cluster[peer].nextIndex + k]
  {
  }

  lemma AcceptsIff(n: Node, req: AppendRequest)
    requires WellFormed(n)
    ensures Accepts(n, req) <==>
            && req.term >= n.term && !(req.term == n.term && n.role == Leader)
            && (req.prevLogIndex == 0
                || (req.prevLogIndex < |n.log| && n.log[req.prevLogIndex].term == req.prevLogTerm))
  {
  }

  /** A request is accepted if and only if it is of no earlier term, the receiver does not lead that term, and
      it holds the entry before the sent ones, if there is one. The answer is of the receiver's new term. */
  lemma AppendAcceptedIff(n: Node, req: AppendRequest, n': Node, rsp: AppendResponse)
    requires WellFormed(n) && (n', rsp) == HandleAppendRequest(n, req)
    ensures rsp.success <==>
            && req.term >= n.term && !(req.term == n.term && n.role == Leader)
            && (req.prevLogIndex == 0
                || (req.prevLogIndex < |n.log| && n.log[req.prevLogIndex].term == req.prevLogTerm))
    ensures rsp.term == n'.term == Max(n.term, req.term)
  {
    AcceptsIff(n, req);
    AppendRequestFields(n, req, n');
    AppendRequestSplit(n, req);
  }

  /** Refused, it leaves log, commit index and members alone. */
  lemma AppendRefused(n: Node, req: AppendRequest, n': Node, rsp: AppendResponse)
    requires WellFormed(n) && (n', rsp) == HandleAppendRequest(n, req) && !rsp.success
    ensures n'.log == n.log && n'.commitIndex == n.commitIndex && SameMembers(n, n')
  {
    AppendRequestFields(n, req, n');
    AppendRequestSplit(n, req);
    assert SameMembers(n, Ready(n, req));
  }

  /** The request makes the receiver give up entries it holds, and leaves it less than it had committed, while
      the sender has committed more. */
  ghost predicate CutsCommitted(n: Node, req: AppendRequest) {
    && req.prevLogIndex + |req.entries| < n.commitIndex < req.leaderCommit
    && exists k :: 0 <= k < |req.entries| && req.prevLogIndex + 1 + k < |n.log|
                   && n.log[req.prevLogIndex + 1 + k].term != req.entries[k].term
  }

  lemma AnswerTells(n: Node, req: AppendRequest)
    requires WellFormed(n)
    ensures HandleAppendRequest(n, req).1.success <==> Accepts(n, req)
    ensures Accepts(n, req) ==> req.prevLogIndex + 1 <= |n.log|
  {
    AppendRequestSplit(n, req);
  }

  lemma CutsIffConflict(n: Node, req: AppendRequest)
    requires req.prevLogIndex + 1 <= |n.log|
    ensures CutsCommitted(n, req) <==>
            && req.prevLogIndex + |req.entries| < n.commitIndex < req.leaderCommit
            && Conflict(n.log, req.prevLogIndex + 1, req.entries)
  {
    SpliceHolds(n.log, req.prevLogIndex + 1, req.entries, Splice(n.log, req.prevLogIndex + 1, req.entries));
  }

  /** Accepted, it leaves a log that reaches behind the sent entries. The commit index follows the sender's as
      far as that log goes, and never falls; this is so if and only if no committed entries were cut. */
  lemma AppendCommits(n: Node, req: AppendRequest, n': Node, rsp: AppendResponse)
    requires WellFormed(n) && (n', rsp) == HandleAppendRequest(n, req) && rsp.success && n.commitIndex < |n.log|
    ensures req.prevLogIndex + |req.entries| < |n'.log|
    ensures n'.commitIndex == Max(n.commitIndex, Min(req.leaderCommit, |n'.log| - 1)) <==> !CutsCommitted(n, req)
    ensures req.leaderCommit > n.commitIndex ==> n'.commitIndex == Min(req.leaderCommit, |n'.log| - 1)
    ensures req.leaderCommit <= n.commitIndex ==> n'.commitIndex == n.commitIndex
  {
    AppendRequestFields(n, req, n');
    AnswerTells(n, req);
    CutsIffConflict(n, req);
    SpliceLength(n.log, req.prevLogIndex + 1, req.entries, n'.log);
  }

  lemma SpliceLength(log: seq<Entry>, next: nat, es: seq<Entry>, log': seq<Entry>)
    requires next <= |log| && log' == Splice(log, next, es)
    ensures |log'| == if Conflict(log, next, es) then next + |es| else Max(|log|, next + |es|)
  {
  }

  /** In general the commit index can fall: a follower that has committed index 2 takes an entry of a later
      term at index 1 from a leader that has committed more, and is back at 1. */
  lemma CommitIndexCanFall(n: Node, req: AppendRequest)
    requires WellFormed(n) && n.role == Follower && n.term == 1 && n.log == [SENTINEL, Entry(1, []), Entry(1, [])]
    requires n.commitIndex == 2 && req == AppendRequest(2, 2, 0, 0, [Entry(2, [])], 3)
    ensures CutsCommitted(n, req) && HandleAppendRequest(n, req).1.success
    ensures HandleAppendRequest(n, req).0.commitIndex == 1
  {
    AppendAcceptedIff(n, req, HandleAppendRequest(n, req).0, HandleAppendRequest(n, req).1);
    assert n.log[1].term != req.entries[0].term && req.prevLogIndex + 1 + 0 == 1;
    AppendRequestFields(n, req, HandleAppendRequest(n, req).0);
    SpliceLength(n.log, 1, req.entries, HandleAppendRequest(n, req).0.log);
    assert Matching(n.log, 1, req.entries) == 0;
  }

  /** A config change that comes right behind the receiver's log takes effect at once: the members it adds are
      listed last, with their addresses, and what they need next is what comes behind it. */
  lemma AdoptsAddition(n: Node, req: AppendRequest, n': Node, i: nat)
    requires WellFormed(n) && n' == HandleAppendRequest(n, req).0 && Accepts(n, req)
    requires req.prevLogIndex == |n.log| - 1 && |req.entries| == 1 && IsConfigChange(req.entries[0].command)
    requires |n.cluster| <= i < |n'.cluster|
    ensures n'.log == n.log + req.entries
    ensures n'.cluster[i].nextIndex == |n'.log| && n'.cluster[i].matchIndex == 0
    ensures exists k :: 0 <= k < |Incoming(req.entries[0].command)|
                        && Incoming(req.entries[0].command)[k].id == n'.cluster[i].id
                        && Incoming(req.entries[0].command)[k].address == n'.cluster[i].address
  {
    AppendRequestSplit(n, req);
    AppendRequestFields(n, req, n');
    var w := Ready(n, req).(passive := false);
    AdoptsEntry(w, req, req.entries[0], n'.cluster);
    MergeAdds(w.cluster, Incoming(req.entries[0].command), |n.log| + 1, w.id, Vote(w), i);
  }

  lemma AdoptsEntry(w: Node, req: AppendRequest, e: Entry, cluster: seq<Member>)
    requires WellFormed(w) && ValidPrevious(w.log, req) && cluster == ClusterAfterAppend(w, req)
    requires req.prevLogIndex == |w.log| - 1 && req.entries == [e] && IsConfigChange(e.command)
    ensures Splice(w.log, |w.log|, req.entries) == w.log + req.entries
    ensures cluster == Merge(w.cluster, Incoming(e.command), |w.log| + 1, w.id, Vote(w))
  {
    assert w.log[..|w.log|] == w.log;
    assert [e][..0] == [];
    MergeSnoc(w.cluster, [], e, [e], |w.log|, w.id, Vote(w));
  }

  /** A passive node is woken by the first request of a leader that is not of the past, accepted or not. */
  lemma WokenIff(n: Node, req: AppendRequest, n': Node)
    requires WellFormed(n) && n' == HandleAppendRequest(n, req).0
    ensures n'.passive == (n.passive && (req.term < n.term || (req.term == n.term && n.role == Leader)))
  {
    ReadyWellFormed(n, req);
  }

  /** A leader drops an answer to a request of another term, unread; a node that no longer leads notes it
      down as it would one to a request of the same term. */
  lemma StaleAnswer(n: Node, peer: nat, req: AppendRequest, rsp: AppendResponse)
    requires WellFormed(n) && peer < |n.cluster| && rsp.term <= n.term && req.term <= n.term && rsp.term != req.term
    ensures n.role == Leader ==> HandleAppendResponse(n, peer, req, rsp) == n
    ensures n.role != Leader ==>
              HandleAppendResponse(n, peer, req, rsp) == HandleAppendResponse(n, peer, req, rsp.(term := req.term))
  {
  }

  /** An answer in time moves the two indices of the one member it is from: behind what it confirms, or back
      by one and never below the first entry. */
  lemma AnswerNoted(n: Node, peer: nat, req: AppendRequest, rsp: AppendResponse, n': Node)
    requires WellFormed(n) && peer < |n.cluster| && rsp.term == req.term <= n.term && n.cluster[peer].nextIndex >= 1
    requires n' == HandleAppendResponse(n, peer, req, rsp)
    ensures n' == n.(cluster := n'.cluster) && SameMembers(n, n')
    ensures forall i :: 0 <= i < |n.cluster| && i != peer ==> n'.cluster[i] == n.cluster[i]
    ensures var m, m' := n.cluster[peer], n'.cluster[peer];
            && m'.votedFor == m.votedFor && m'.address == m.address
            && (rsp.success ==> m'.matchIndex == req.prevLogIndex + |req.entries| && m'.nextIndex == m'.matchIndex + 1)
            && (!rsp.success ==> m'.matchIndex == m.matchIndex && m'.nextIndex == Max(m.nextIndex - 1, 1))
  {
    AppendResponseMembers(n, peer, req, rsp);
  }

  // ---------- Growing ----------

  /** A member is added if and only if the node leads, has no addition in flight, does not list the id, which
      is not 0, and the new list fits 112 bytes. Which of these fails first is what the caller is told. */
  lemma AddedIff(n: Node, id: nat, address: seq<byte>)
    requires WellFormed(n)
    ensures var listed := exists i :: 0 <= i < |n.cluster| && n.cluster[i].id == id;
            var fits := 2 + EncodedSize(n.cluster) + 9 + |address| <= 112;
            var outcome := AddOutcomeOf(n, id, address);
            && (outcome == AddOutcome.Added <==> id != 0 && n.role == Leader && n.pending == 0 && !listed && fits)
            && (outcome == InvalidId <==> id == 0)
            && (outcome == NotLeader <==> id != 0 && n.role != Leader)
            && (outcome == ChangeInProgress <==> id != 0 && n.role == Leader && n.pending != 0)
            && (outcome == AlreadyMember <==> id != 0 && n.role == Leader && n.pending == 0 && listed)
            && (outcome != AddOutcome.Added ==> AddServer(n, id, address) == n)
  {
    EncodeSnoc(n.cluster, Member(id, address, 0, 0, 0));
    if id in Ids(n.cluster) {
      var m :| m in n.cluster && m.id == id;
      var i :| 0 <= i < |n.cluster| && n.cluster[i] == m;
    }
  }

  // ---------- Commit and apply ----------

  /** A node, whatever its role, applies one entry if and only if the next one is committed by then. What it
      hands over is that entry's command, unless it is empty or a config change; and when the addition in
      flight is applied, none is in flight any more. */
  lemma AppliesIffCommitted(n: Node, n': Node)
    requires CanHandle(n, CommitAndApply) && n' == Handle(n, CommitAndApply)
    ensures n'.lastApplied == n.lastApplied + if n.lastApplied <= n'.commitIndex then 1 else 0
    ensures n.lastApplied <= n'.commitIndex ==>
              var command := n.log[n.lastApplied].command;
              && n'.applied == n.applied + (if command == [] || IsConfigChange(command) then [] else [command])
              && n'.pending == if IsConfigChange(command) && n.pending == n.lastApplied then 0 else n.pending
    ensures n.lastApplied > n'.commitIndex ==> n'.applied == n.applied && n'.pending == n.pending
    ensures n.role != Leader ==> n'.commitIndex == n.commitIndex
    ensures n'.commitIndex >= n.commitIndex && n'.log == n.log && n'.cluster == n.cluster && n'.term == n.term
    ensures n'.role == n.role && n'.self == n.self && n'.id == n.id && n'.base == n.base && n'.passive == n.passive
  {
  }

  /** The node after `k` commit steps, as far as they can be taken. */
  ghost function AfterSteps(n: Node, k: nat): Node {
    if k == 0 then n
    else
      var m := AfterSteps(n, k - 1);
      if CanHandle(m, CommitAndApply) then Handle(m, CommitAndApply) else m
  }

  /** A log with a commit index that will not move by itself: the node does not lead, or no majority holds more. */
  ghost predicate SettledCommit(n: Node) {
    WellFormed(n) && n.commitIndex < |n.log| && n.lastApplied <= n.commitIndex + 1 && NewCommitIndex(n) == n.commitIndex
  }

  /** After `k` steps from `n`, of which those that find something to apply apply it. */
  ghost predicate AppliedAfter(n: Node, k: nat, nk: Node) {
    && SettledCommit(n) && SettledCommit(nk) && nk.log == n.log && nk.commitIndex == n.commitIndex
    && nk.lastApplied == Min(n.lastApplied + k, n.commitIndex + 1)
    && nk.applied == n.applied + CommandsOf(n.log[n.lastApplied..nk.lastApplied])
  }

  /** Nothing that is committed stays behind: every step applies one more entry until there is none left, and
      what has been handed over is told by the log, at every moment. */
  lemma {:induction false} AppliesAll(n: Node, k: nat)
    requires SettledCommit(n)
    ensures AppliedAfter(n, k, AfterSteps(n, k)) && CanHandle(AfterSteps(n, k), CommitAndApply)
  {
    if k == 0 {
      NoneApplied(n);
    } else {
      AppliesAll(n, k - 1);
      AppliesOneMore(n, k - 1, AfterSteps(n, k - 1), AfterSteps(n, k));
    }
    SettledCanStep(AfterSteps(n, k));
  }

  lemma NoneApplied(n: Node)
    requires SettledCommit(n)
    ensures AppliedAfter(n, 0, n)
  {
    assert n.log[n.lastApplied..n.lastApplied] == [];
  }

  lemma SettledCanStep(n: Node)
    requires SettledCommit(n)
    ensures CanHandle(n, CommitAndApply)
  {
    NewCommitInRange(n);
  }

  lemma AppliesOneMore(n: Node, k: nat, nk: Node, n': Node)
    requires AppliedAfter(n, k, nk) && CanHandle(nk, CommitAndApply) && n' == Handle(nk, CommitAndApply)
    ensures AppliedAfter(n, k + 1, n')
  {
    AppliesIffCommitted(nk, n');
    SettledStays(nk, n');
    var a, b := n.lastApplied, nk.lastApplied;
    if b <= n.commitIndex {
      assert n.log[a..b + 1][..b - a] == n.log[a..b];
    }
  }

  lemma SettledStays(n: Node, n': Node)
    requires SettledCommit(n) && CanHandle(n, CommitAndApply) && n' == Handle(n, CommitAndApply)
    ensures SettledCommit(n') && n'.commitIndex == n.commitIndex
  {
    HandleWellFormed(n, CommitAndApply);
    AppliesIffCommitted(n, n');
    SameHoldings(n, n');
  }

  lemma SameHoldings(n: Node, n': Node)
    requires |n.log| >= 1 && n'.log == n.log && n'.cluster == n.cluster && n'.self == n.self
    ensures Holdings(n') == Holdings(n)
  {
  }

  /** So after as many steps as there are committed entries left, a node has handed over all commands of its
      committed log. */
  lemma AppliedInFull(n: Node, k: nat)
    requires SettledCommit(n) && AppliedOk(n) && k >= n.commitIndex + 1 - n.lastApplied
    ensures var n' := AfterSteps(n, k);
            && n'.lastApplied == n.commitIndex + 1 && n'.log == n.log
            && n'.applied == CommandsOf(n.log[..n.commitIndex + 1])
  {
    AppliesAll(n, k);
    CommandsUpTo(n, n.commitIndex + 1);
  }

  lemma CommandsUpTo(n: Node, c: nat)
    requires n.lastApplied <= c <= |n.log|
    ensures CommandsOf(n.log[..c]) == CommandsOf(n.log[..n.lastApplied]) + CommandsOf(n.log[n.lastApplied..c])
  {
    CommandsOfConcat(n.log[..n.lastApplied], n.log[n.lastApplied..c]);
    assert n.log[..n.lastApplied] + n.log[n.lastApplied..c] == n.log[..c];
  }

  // ---------- Restarting ----------

  /** A restart keeps term and log, makes the node a follower and forgets its vote. A new process starts its
      application over; the same object goes on with it. */
  lemma RestartEffect(n: Node, how: Restarting, n': Node)
    requires WellFormed(n) && Unpledged(n) && n' == Handle(n, Restarts(how))
    ensures n'.id == n.id && n'.base == n.base && n'.term == n.term && n'.log == n.log && n'.role == Follower
    ensures WellFormed(n') && Vote(n') == 0
    ensures how.NewProcess? ==>
              && n'.commitIndex == n'.lastApplied == n'.pending == 0 && n'.applied == []
              && n'.passive == how.passive
    ensures how.SameObject? ==>
              && n'.commitIndex == n.commitIndex && n'.lastApplied == n.lastApplied && n'.applied == n.applied
              && n'.pending == n.pending && n'.passive == n.passive
  {
    RestartForgetsVote(n, how);
  }
}
