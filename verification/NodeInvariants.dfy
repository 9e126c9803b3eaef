/** What every single node keeps over any sequence of its steps, membership changes included. */
module NodeInvariants {
  import opened Types
  import opened Membership
  import opened OrderStatistic
  import opened Raft

  // ---------- Hypotheses about the events of one node ----------

  /** The dispatch loop's state check and the call it selects are one step. */
  ghost predicate AtomicEvent(n: Node, ev: Event) {
    match ev {
      case TimeoutFires => n.role != Leader
      case TryBecomeLeader => n.role == Candidate
      case _ => true
    }
  }

  ghost predicate Ascending(log: seq<Entry>) {
    forall i, j :: 0 <= i <= j < |log| ==> log[i].term <= log[j].term
  }

  ghost predicate LeaderLog(log: seq<Entry>, term: nat) {
    |log| >= 1 && log[0] == SENTINEL && Ascending(log) && LastTerm(log) <= term
  }

  /** Append requests are slices of some leader's log of the request's term. */
  ghost predicate HonestEvent(ev: Event) {
    ev.AppendRequestArrives? ==>
      exists log :: LeaderLog(log, ev.appendRequest.term) && SliceOf(ev.appendRequest, log)
  }

  // ---------- The log of one node ----------

  /** Index 0 is the sentinel, terms ascend up to the current one, and a candidate's log is older than its term. */
  ghost predicate LogOk(n: Node) {
    && |n.log| >= 1 && n.log[0] == SENTINEL
    && Ascending(n.log) && LastTerm(n.log) <= n.term
    && (n.role == Candidate ==> LastTerm(n.log) < n.term)
  }

  lemma AscendingAppend(a: seq<Entry>, b: seq<Entry>, term: nat)
    requires |a| >= 1 && Ascending(a) && LastTerm(a) <= term
    requires forall i :: 0 <= i < |b| ==> b[i].term == term
    ensures Ascending(a + b) && LastTerm(a + b) <= term
  {
  }

  /** Where the kept part of a log meets the new entries, terms ascend. */
  lemma SeamInOrder(log: seq<Entry>, req: AppendRequest, leaderLog: seq<Entry>, c: nat)
    requires |log| >= 1 && log[0] == SENTINEL
    requires LeaderLog(leaderLog, req.term) && SliceOf(req, leaderLog) && ValidPrevious(log, req)
    requires c == Matching(log, req.prevLogIndex + 1, req.entries) && c < |req.entries|
    ensures log[req.prevLogIndex + c].term <= req.entries[c].term
  {
    var prev := req.prevLogIndex;
    assert req.entries[c] == leaderLog[prev + 1 + c];
    if c > 0 {
      MatchingIsExact(log, prev + 1, req.entries, c - 1);
      assert req.entries[c - 1] == leaderLog[prev + 1 + (c - 1)];
    }
  }

  /** Splicing a slice of an ascending log into an ascending log leaves it ascending. */
  lemma AscendingSplice(log: seq<Entry>, req: AppendRequest, leaderLog: seq<Entry>, log': seq<Entry>)
    requires |log| >= 1 && log[0] == SENTINEL && Ascending(log) && LastTerm(log) <= req.term
    requires LeaderLog(leaderLog, req.term) && SliceOf(req, leaderLog) && ValidPrevious(log, req)
    requires log' == Splice(log, req.prevLogIndex + 1, req.entries)
    ensures |log'| >= 1 && log'[0] == SENTINEL && Ascending(log') && LastTerm(log') <= req.term
  {
    var c := Matching(log, req.prevLogIndex + 1, req.entries);
    if c < |req.entries| {
      SeamInOrder(log, req, leaderLog, c);
      SpliceIsSeam(log, req, leaderLog, c, log');
      SeamAscends(log, leaderLog, req.prevLogIndex + 1 + c, log');
    }
  }

  /** A splice that changes the log is made of the start of it and entries of the leader. */
  lemma SpliceIsSeam(log: seq<Entry>, req: AppendRequest, leaderLog: seq<Entry>, c: nat, log': seq<Entry>)
    requires SliceOf(req, leaderLog) && c < |req.entries| && req.prevLogIndex + 1 + c <= |log|
    requires log' == log[..req.prevLogIndex + 1 + c] + req.entries[c..]
    ensures req.prevLogIndex + 1 + c < |log'| <= |leaderLog|
    ensures forall i :: 0 <= i < req.prevLogIndex + 1 + c ==> log'[i] == log[i]
    ensures forall i :: req.prevLogIndex + 1 + c <= i < |log'| ==> log'[i] == leaderLog[i]
  {
    forall i | req.prevLogIndex + 1 + c <= i < |log'| ensures log'[i] == leaderLog[i] {
      var k := i - (req.prevLogIndex + 1);
      assert log'[i] == req.entries[k];
    }
  }

  lemma SeamAscends(a: seq<Entry>, b: seq<Entry>, at: nat, whole: seq<Entry>)
    requires Ascending(a) && Ascending(b) && 1 <= at <= |a| && at < |whole| <= |b| && a[at - 1].term <= b[at].term
    requires forall i :: 0 <= i < at ==> whole[i] == a[i]
    requires forall i :: at <= i < |whole| ==> whole[i] == b[i]
    ensures Ascending(whole) && LastTerm(whole) <= LastTerm(b)
  {
    forall i, j | 0 <= i <= j < |whole| ensures whole[i].term <= whole[j].term {
      if i < at <= j {
        assert a[i].term <= a[at - 1].term <= b[at].term <= b[j].term;
      }
    }
  }

  lemma LogOkAppendRequest(n: Node, req: AppendRequest)
    requires WellFormed(n) && LogOk(n) && HonestEvent(AppendRequestArrives(req))
    ensures LogOk(HandleAppendRequest(n, req).0)
  {
    var log :| LeaderLog(log, req.term) && SliceOf(req, log);
    var n' := HandleAppendRequest(n, req).0;
    AppendRequestFields(n, req, n');
    if Accepts(n, req) {
      AscendingSplice(n.log, req, log, n'.log);
    }
  }

  lemma LogOkSameLog(n: Node, n': Node)
    requires LogOk(n) && n'.log == n.log && n'.term >= n.term && (n'.role == n.role || n'.role == Follower)
    ensures LogOk(n')
  {
  }

  predicate LeavesLog(ev: Event) {
    !ev.AppendRequestArrives? && !ev.ClientCommands? && !ev.TryBecomeLeader? && !ev.ServerAddition? && !ev.TimeoutFires?
  }

  lemma LogStays(n: Node, ev: Event)
    requires CanHandle(n, ev) && LeavesLog(ev)
    ensures var n' := Handle(n, ev);
            n'.log == n.log && n'.term >= n.term && (n'.role == n.role || n'.role == Follower)
  {
  }

  /** Every step keeps the log in order. */
  lemma LogOkStep(n: Node, ev: Event)
    requires CanHandle(n, ev) && LogOk(n) && AtomicEvent(n, ev) && HonestEvent(ev)
    ensures LogOk(Handle(n, ev))
  {
    match ev {
      case AppendRequestArrives(req) => LogOkAppendRequest(n, req);
      case ClientCommands(commands) => AscendingAppend(n.log, EntriesAt(n.term, commands), n.term);
      case TryBecomeLeader => AscendingAppend(n.log, [Entry(n.term, [])], n.term);
      case ServerAddition(id, address) => LogOkAddition(n, id, address);
      case TimeoutFires => assert LogOk(Timeout(n));
      case _ =>
        LogStays(n, ev);
        LogOkSameLog(n, Handle(n, ev));
    }
  }

  lemma TermGrows(n: Node, ev: Event)
    requires CanHandle(n, ev)
    ensures Handle(n, ev).term >= n.term
  {
    match ev {
      case AppendRequestArrives(req) => AppendRequestFields(n, req, Handle(n, ev));
      case _ =>
    }
  }

  /** From election until it leaves the term or stops, a leader stays leader and its log only grows. */
  lemma LeaderStays(n: Node, ev: Event)
    requires CanHandle(n, ev) && AtomicEvent(n, ev) && n.role == Leader && !ev.Restarts? && Handle(n, ev).term == n.term
    ensures Handle(n, ev).role == Leader && n.log <= Handle(n, ev).log
  {
    match ev {
      case AppendRequestArrives(req) => AppendRequestFields(n, req, Handle(n, ev));
      case _ =>
    }
  }

  lemma LogOkAddition(n: Node, id: nat, address: seq<byte>)
    requires WellFormed(n) && LogOk(n)
    ensures var n' := AddServer(n, id, address);
            LogOk(n') && n'.term == n.term && n'.role == n.role && n.log <= n'.log
  {
    AscendingAppend(n.log, [Entry(n.term, ConfigPayload(WithNewcomer(n, id, address)))], n.term);
  }

  // ---------- One config change in flight ----------

  /** Entry `k` is a config change of the leader's own term that is not applied yet. */
  ghost predicate InFlight(n: Node, k: nat) {
    n.lastApplied <= k < |n.log| && n.log[k].term == n.term && IsConfigChange(n.log[k].command)
  }

  /** Every config change of a leader's term that is not applied yet is at its pending index. */
  ghost predicate PendingOk(n: Node) {
    n.role == Leader ==> forall k: nat :: InFlight(n, k) ==> k == n.pending
  }

  /** Only a leader has a pending index. */
  ghost predicate IdleOk(n: Node) {
    n.role != Leader ==> n.pending == 0
  }

  /** Client commands do not pretend to be config changes. */
  ghost predicate PlainEvent(ev: Event) {
    ev.ClientCommands? ==> forall c :: c in ev.commands ==> !IsConfigChange(c)
  }

  lemma PendingCommit(n: Node)
    requires WellFormed(n) && CanApply(n) && PendingOk(n) && LogOk(n)
    ensures PendingOk(AdvanceCommit(n))
  {
    var n' := AdvanceCommit(n);
    if n.role == Leader {
      forall k: nat | InFlight(n', k) ensures k == n'.pending {
        assert InFlight(n, k);
      }
    }
  }

  lemma PendingClient(n: Node, commands: seq<seq<byte>>)
    requires n.role == Leader && PendingOk(n) && forall c :: c in commands ==> !IsConfigChange(c)
    ensures PendingOk(ClientApply(n, commands))
  {
    var n' := ClientApply(n, commands);
    forall k: nat | |n.log| <= k < |n'.log| ensures !InFlight(n', k) {
      assert n'.log[k].command == commands[k - |n.log|];
    }
    forall k: nat | InFlight(n', k) ensures k == n'.pending {
      assert InFlight(n, k);
    }
  }

  /** A new leader's log holds no config change of its term yet. */
  lemma PendingElection(n: Node)
    requires PendingOk(n) && LogOk(n) && n.role == Candidate
    ensures PendingOk(BecomeLeader(n))
  {
    var n' := BecomeLeader(n);
    if n'.role == Leader {
      forall k: nat | k < |n'.log| ensures !InFlight(n', k) {
        if k < |n.log| {
          assert n'.log[k] == n.log[k] && n.log[k].term <= LastTerm(n.log);
        }
      }
    }
  }

  /** An addition is made only if none is in flight: the pending index is then 0, where the sentinel is. */
  lemma PendingAddition(n: Node, id: nat, address: seq<byte>)
    requires WellFormed(n) && LogOk(n) && PendingOk(n)
    ensures PendingOk(AddServer(n, id, address))
  {
    var n' := AddServer(n, id, address);
    if AddOutcomeOf(n, id, address) == Added {
      forall k: nat | InFlight(n', k) ensures k == n'.pending {
        if k < |n.log| {
          assert InFlight(n, k);
        }
      }
    }
  }

  lemma PendingAppendRequest(n: Node, req: AppendRequest)
    requires WellFormed(n) && PendingOk(n)
    ensures PendingOk(HandleAppendRequest(n, req).0)
  {
    var n' := HandleAppendRequest(n, req).0;
    AppendRequestFields(n, req, n');
    PendingUntouched(n, n');
  }

  /** At most one config change of a leader's term is unapplied, and its index is the pending index. */
  lemma PendingStep(n: Node, ev: Event)
    requires CanHandle(n, ev) && LogOk(n) && PendingOk(n) && AtomicEvent(n, ev) && PlainEvent(ev)
    ensures PendingOk(Handle(n, ev))
  {
    match ev {
      case CommitAndApply => PendingCommit(n);
      case ClientCommands(commands) => if n.role == Leader { PendingClient(n, commands); }
      case TryBecomeLeader => PendingElection(n);
      case ServerAddition(id, address) => PendingAddition(n, id, address);
      case AppendRequestArrives(req) => PendingAppendRequest(n, req);
      case AppendResponseArrives(peer, req, rsp) => PendingUntouched(n, HandleAppendResponse(n, peer, req, rsp));
      case VoteRequestArrives(req) => PendingUntouched(n, HandleVoteRequest(n, req).0);
      case VoteResponseArrives(peer, req, rsp) => PendingUntouched(n, HandleVoteResponse(n, peer, req, rsp));
      case TimeoutFires =>
      case Restarts(how) =>
    }
  }

  lemma PendingUntouched(n: Node, n': Node)
    requires PendingOk(n)
    requires || n'.role != Leader
             || (n'.role == n.role && n'.term == n.term && n'.pending == n.pending && n'.log == n.log
                 && n'.lastApplied == n.lastApplied)
    ensures PendingOk(n')
  {
    if n'.role == Leader {
      forall k: nat | InFlight(n', k) ensures k == n'.pending { assert InFlight(n, k); }
    }
  }

  /** A node that does not lead has no pending index, with one exception: `Start` after `Stop` on the same
      object makes it a follower and leaves the index, if there is one. */
  lemma IdleStep(n: Node, ev: Event)
    requires CanHandle(n, ev) && IdleOk(n) && AtomicEvent(n, ev)
    ensures IdleOk(Handle(n, ev)) <==> !(ev == Restarts(SameObject) && n.pending != 0)
  {
    match ev {
      case AppendRequestArrives(req) => AppendRequestFields(n, req, Handle(n, ev));
      case _ =>
    }
  }

  // ---------- Exactly-once, in-order application ----------

  /** The commands the state machine is to see: neither empty nor a config change. */
  function CommandsOf(log: seq<Entry>): seq<seq<byte>> {
    if log == [] then []
    else
      var rest := CommandsOf(log[..|log| - 1]);
      var c := log[|log| - 1].command;
      if c == [] || IsConfigChange(c) then rest else rest + [c]
  }

  ghost predicate AppliedOk(n: Node) {
    && n.commitIndex < |n.log| && n.lastApplied <= n.commitIndex + 1
    && n.applied == CommandsOf(n.log[..n.lastApplied])
  }

  lemma {:induction false} CommandsOfPrefix(a: seq<Entry>, b: seq<Entry>)
    requires a <= b
    ensures CommandsOf(a) <= CommandsOf(b)
  {
    if |a| < |b| {
      var k := |b| - 1;
      CommandsOfPrefix(a, b[..k]);
    } else {
      assert a == b;
    }
  }

  lemma {:induction false} CommandsOfConcat(a: seq<Entry>, b: seq<Entry>)
    ensures CommandsOf(a + b) == CommandsOf(a) + CommandsOf(b)
  {
    if b == [] {
      assert a + b == a;
    } else {
      var k := |b| - 1;
      CommandsOfConcat(a, b[..k]);
      assert (a + b)[..|a| + k] == a + b[..k];
    }
  }

  lemma AppliedCommit(n: Node)
    requires WellFormed(n) && CanApply(n) && AppliedOk(n) && NewCommitIndex(n) < |n.log|
    ensures AppliedOk(AdvanceCommit(n))
  {
    var n' := AdvanceCommit(n);
    if n'.lastApplied > n.lastApplied {
      assert n'.log[..n'.lastApplied][..n.lastApplied] == n.log[..n.lastApplied];
    }
  }

  /** The commit index a leader computes is an index of its log. */
  lemma NewCommitInRange(n: Node)
    requires |n.log| >= 1 && |n.cluster| >= 1 && n.commitIndex < |n.log|
    ensures NewCommitIndex(n) < |n.log|
    ensures n.lastApplied <= n.commitIndex + 1 ==> CanApply(n)
  {
    if n.role == Leader {
      var ms := Holdings(n);
      KthLargestInList(ms, Quorum(n));
    }
  }

  lemma CommitKeptTransitive(a: Node, b: Node, c: Node)
    requires CommitKept(a, b) && CommitKept(b, c)
    ensures CommitKept(a, c)
  {
    assert c.log[..a.commitIndex + 1] == c.log[..b.commitIndex + 1][..a.commitIndex + 1];
    assert b.log[..a.commitIndex + 1] == b.log[..b.commitIndex + 1][..a.commitIndex + 1];
  }

  lemma AppliedRestart(n: Node, how: Restarting)
    requires n.id in Ids(n.base) && AppliedOk(n)
    ensures AppliedOk(Restart(n, how))
  {
    assert n.log[..0] == [];
  }

  /** The state machine has seen the commands below `lastApplied`, in order, each once; this holds
      over any step that leaves the committed entries in place. */
  lemma AppliedStep(n: Node, ev: Event)
    requires CanHandle(n, ev) && AppliedOk(n) && CommitKept(n, Handle(n, ev)) && !ev.Restarts?
    ensures AppliedOk(Handle(n, ev))
  {
    var n' := Handle(n, ev);
    assert n'.log[..n.commitIndex + 1] == n.log[..n.commitIndex + 1];
    assert n.log[..n.lastApplied] == n.log[..n.commitIndex + 1][..n.lastApplied];
    assert n'.log[..n.lastApplied] == n'.log[..n.commitIndex + 1][..n.lastApplied];
    match ev {
      case CommitAndApply =>
        NewCommitInRange(n);
        AppliedCommit(n);
      case AppendRequestArrives(req) => AppliedAppendRequest(n, req);
      case _ =>
    }
  }

  lemma AppliedAppendRequest(n: Node, req: AppendRequest)
    requires WellFormed(n) && AppliedOk(n)
    requires var n' := HandleAppendRequest(n, req).0;
             CommitKept(n, n') && n'.log[..n.lastApplied] == n.log[..n.lastApplied]
    ensures AppliedOk(HandleAppendRequest(n, req).0)
  {
    AppendRequestFields(n, req, HandleAppendRequest(n, req).0);
  }

  // ---------- The vote a truncation forgets ----------

  /** A rebuilt cluster lists the node as a founding member, with the founding record of its vote. */
  lemma RebuildForgetsVote(n: Node, log: seq<Entry>, vote: nat)
    requires n.id in Ids(n.base)
    ensures n.id in Ids(Rebuild(n, log, vote))
    ensures var k := IndexOf(Rebuild(n, log, vote), n.id);
            k == IndexOf(n.base, n.id) && Rebuild(n, log, vote)[k] == n.base[k]
  {
    RebuildNamesSelf(n, log, vote);
  }

  /** A node that accepts entries keeps the vote of its term if and only if nothing was cut from its
      log, or it had not voted. */
  lemma VoteKeptIffNoConflict(n: Node, req: AppendRequest)
    requires WellFormed(n) && n.base[IndexOf(n.base, n.id)].votedFor == 0
    requires n.role == Follower && req.term == n.term && ValidPrevious(n.log, req)
    ensures var n' := HandleAppendRequest(n, req).0;
            && n'.term == n.term && n'.self < |n'.cluster|
            && (Vote(n') == Vote(n) <==> !Conflict(n.log, req.prevLogIndex + 1, req.entries) || Vote(n) == 0)
  {
    var w := n.(passive := false);
    var next := req.prevLogIndex + 1;
    ClusterAfterAppendNamesSelf(w, req);
    if Conflict(n.log, next, req.entries) {
      RebuildForgetsVote(w, Splice(n.log, next, req.entries), Vote(n));
    } else {
      MergeEntriesGrows(n.cluster, req.entries, next, n.id, Vote(n));
    }
  }

  /** So within one term a node that has voted votes for somebody else after accepting entries if and
      only if those entries cut its log and the second candidate's log is up to date with what is left. */
  lemma SecondVoteIff(n: Node, req: AppendRequest, second: VoteRequest)
    requires WellFormed(n) && n.base[IndexOf(n.base, n.id)].votedFor == 0
    requires n.role == Follower && req.term == n.term && ValidPrevious(n.log, req)
    requires Vote(n) != 0 && second.term == n.term && second.candidate != Vote(n)
    ensures var n' := HandleAppendRequest(n, req).0;
            && WellFormed(n')
            && (HandleVoteRequest(n', second).1.granted <==>
                  && Conflict(n.log, req.prevLogIndex + 1, req.entries)
                  && UpToDate(second.lastLogTerm, second.lastLogIndex, n'.log))
  {
    HandleAppendWellFormed(n, req);
    VoteKeptIffNoConflict(n, req);
    var w := n.(passive := false);
    ClusterAfterAppendNamesSelf(w, req);
    if Conflict(n.log, req.prevLogIndex + 1, req.entries) {
      RebuildForgetsVote(w, Splice(n.log, req.prevLogIndex + 1, req.entries), Vote(n));
    }
  }

  /** The index a leader commits is the largest one past its old commit index, if any, that a majority
      holds, itself included: an index in that range is held by a majority exactly up to the new one. */
  lemma CommitsLargestHeld(n: Node, v: nat)
    requires WellFormed(n) && n.role == Leader && n.commitIndex < v < |n.log|
    ensures v <= NewCommitIndex(n) <==>
            |set j: nat | j < |n.cluster| && (j == n.self || n.cluster[j].matchIndex >= v)| >= Quorum(n)
  {
    KthLargestIsThreshold(Holdings(n), Quorum(n), v);
    CountIsSetSize(Holdings(n), v);
    assert Reaching(Holdings(n), v) == set j: nat | j < |n.cluster| && (j == n.self || n.cluster[j].matchIndex >= v);
  }

  /** A restart leaves a node without a vote of its own, whatever it had. */
  lemma RestartForgetsVote(n: Node, how: Restarting)
    requires WellFormed(n) && n.base[IndexOf(n.base, n.id)].votedFor == 0
    ensures WellFormed(Restart(n, how)) && Vote(Restart(n, how)) == 0
  {
    RestartWellFormed(n, how);
    RebuildForgetsVote(n, n.log, 0);
  }

  /** So after a restart it votes once more in its term, for any candidate of the term, if and only if that
      candidate's log is up to date with its own. */
  lemma RestartedVotesIff(n: Node, how: Restarting, second: VoteRequest)
    requires WellFormed(n) && n.base[IndexOf(n.base, n.id)].votedFor == 0 && second.term == n.term
    ensures WellFormed(Restart(n, how))
    ensures HandleVoteRequest(Restart(n, how), second).1.granted <==>
            UpToDate(second.lastLogTerm, second.lastLogIndex, n.log)
  {
    RestartForgetsVote(n, how);
  }
}
