/** Every step of the cluster keeps the log invariant, so every run has it. */
module ClusterLogRun {
  import opened Types
  import opened Membership
  import opened Raft
  import opened Cluster
  import opened ClusterLog

  // ---------- What single steps of a node preserve ----------

  ghost predicate SameBooks(n: Node, n': Node) {
    && SameMembers(n, n')
    && forall i :: 0 <= i < |n.cluster| ==>
         && n'.cluster[i].nextIndex == n.cluster[i].nextIndex
         && n'.cluster[i].matchIndex == n.cluster[i].matchIndex
  }

  /** A quiet step that touches no bookkeeping keeps the invariant. */
  lemma QuietSameBooks(s: System, k: nat, n': Node)
    requires LogInv(s) && k < |s.nodes|
    requires Quiet(s.nodes[k], n') && SameBooks(s.nodes[k], n')
    ensures LogInv(WithNode(s, k, n'))
    ensures WithNode(s, k, n') == s.(nodes := s.nodes[k := n'])
  {
    assert NodeKnown(s.ids, s.nodes[k], k);
    SameBooksKept(s.ids, s.acks, s.nodes[k], n', k);
    SameMembersWellFormed(s.nodes[k], n');
    QuietStep(s, k, n');
  }

  lemma SameBooksKept(ids: seq<nat>, acks: set<Ack>, n: Node, n': Node, k: nat)
    requires LeaderOk(ids, acks, n, k) && SameBooks(n, n') && Quiet(n, n')
    ensures LeaderOk(ids, acks, n', k)
  {
    if n'.role == Leader {
      forall i: nat | i < |n'.cluster| && i != n'.self ensures BookOk(ids, acks, n', i) {
        assert BookOk(ids, acks, n, i);
      }
    }
  }

  lemma VoteRequestQuiet(n: Node, req: VoteRequest)
    requires |n.log| >= 1 && n.self < |n.cluster|
    ensures Quiet(n, HandleVoteRequest(n, req).0) && SameBooks(n, HandleVoteRequest(n, req).0)
  {
  }

  lemma VoteResponseQuiet(n: Node, peer: nat, req: VoteRequest, rsp: VoteResponse)
    requires |n.log| >= 1 && n.self < |n.cluster| && peer < |n.cluster|
    ensures Quiet(n, HandleVoteResponse(n, peer, req, rsp)) && SameBooks(n, HandleVoteResponse(n, peer, req, rsp))
  {
  }

  lemma AppendResponseQuiet(n: Node, slot: nat, req: AppendRequest, rsp: AppendResponse)
    requires n.self < |n.cluster| && slot < |n.cluster|
    ensures Quiet(n, HandleAppendResponse(n, slot, req, rsp))
  {
  }

  lemma CommitQuiet(n: Node)
    requires |n.log| >= 1 && |n.cluster| >= 1 && CanApply(n)
    ensures Quiet(n, AdvanceCommit(n)) && SameBooks(n, AdvanceCommit(n))
    ensures AdvanceCommit(n).commitIndex == NewCommitIndex(n)
    ensures AdvanceCommit(n).term == n.term && AdvanceCommit(n).role == n.role && AdvanceCommit(n).cluster == n.cluster
  {
    var c := NewCommitIndex(n);
    if n.lastApplied <= c {
      ApplyQuiet(n, c);
    }
  }

  lemma ApplyQuiet(n: Node, c: nat)
    requires |n.log| >= 1 && n.lastApplied < |n.log|
    ensures var n' := ApplyOne(n.(commitIndex := c));
            && n'.commitIndex == c && n'.id == n.id && n'.base == n.base && n'.self == n.self && n'.cluster == n.cluster
            && n'.log == n.log && n'.term == n.term && n'.role == n.role
  {
  }

  lemma ReadyQuiet(n: Node, req: AppendRequest)
    requires |n.log| >= 1 && n.self < |n.cluster|
    ensures Quiet(n, Ready(n, req)) && SameBooks(n, Ready(n, req))
    ensures Ready(n, req).commitIndex == n.commitIndex && Ready(n, req).lastApplied == n.lastApplied
    ensures Ready(n, req).applied == n.applied && Ready(n, req).term >= req.term
    ensures Vote(Ready(n, req)) == if req.term > n.term then 0 else Vote(n)
  {
  }

  // ---------- Steps of the cluster ----------

  /** The node about to accept a request, with the system around it. */
  lemma AcceptReady(s: System, m: AppendRequestMsg, w: Node)
    requires LogInv(s) && m in s.appendRequests && m.to < |s.nodes| && WellFormed(s.nodes[m.to])
    requires Accepts(s.nodes[m.to], m.req) && w == Ready(s.nodes[m.to], m.req).(passive := false)
    ensures LogInv(s.(nodes := s.nodes[m.to := w]))
    ensures w.role == Follower && w.term == m.req.term && ValidPrevious(w.log, m.req) && WellFormed(w)
  {
    ReadyQuiet(s.nodes[m.to], m.req);
    QuietSameBooks(s, m.to, w);
    SameMembersWellFormed(s.nodes[m.to], w);
  }

  /** Accepting a request, as one change to the system. */
  lemma DeliverAppendAccepted(s: System, m: AppendRequestMsg, w: Node) returns (n': Node)
    requires Enabled(s, DeliverAppendRequest(m)) && Accepts(s.nodes[m.to], m.req)
    requires w == Ready(s.nodes[m.to], m.req).(passive := false)
    ensures WellFormed(w) && ValidPrevious(w.log, m.req) && n' == AppendFromLeader(w, m.req) && WellFormed(n')
    ensures n'.role == Follower && n'.term == m.req.term && n'.id == s.nodes[m.to].id
    ensures n'.log == Splice(s.nodes[m.to].log, m.req.prevLogIndex + 1, m.req.entries)
    ensures Do(s, DeliverAppendRequest(m)) == AfterYes(s, m, n')
  {
    AcceptedNode(s.nodes[m.to], m.req, w);
    n' := AppendFromLeader(w, m.req);
    AcceptedEffect(s, m, n');
  }

  lemma AcceptedNode(n: Node, req: AppendRequest, w: Node)
    requires WellFormed(n) && Accepts(n, req) && w == Ready(n, req).(passive := false)
    ensures WellFormed(w) && ValidPrevious(w.log, req)
    ensures HandleAppendRequest(n, req) == (AppendFromLeader(w, req), AppendResponse(req.term, true))
    ensures var n' := AppendFromLeader(w, req);
            && WellFormed(n') && n'.role == Follower && n'.term == req.term && n'.id == n.id
            && n'.log == Splice(n.log, req.prevLogIndex + 1, req.entries)
  {
    AppendRequestSplit(n, req);
    AppendRequestFields(n, req, HandleAppendRequest(n, req).0);
    HandleAppendWellFormed(n, req);
  }

  lemma AcceptedEffect(s: System, m: AppendRequestMsg, n': Node)
    requires Enabled(s, DeliverAppendRequest(m))
    requires HandleAppendRequest(s.nodes[m.to], m.req) == (n', AppendResponse(m.req.term, true))
    requires n'.role == Follower
    ensures Do(s, DeliverAppendRequest(m)) == AfterYes(s, m, n')
  {
  }

  /** The system after node `m.to`, now `n'`, said no to `m`. */
  function AfterNo(s: System, m: AppendRequestMsg, n': Node, rsp: AppendResponse): System
    requires m.to < |s.nodes|
  {
    s.(nodes := s.nodes[m.to := n'],
       appendResponses := s.appendResponses + {AppendResponseMsg(m.to, m.from, m.slot, m.req, rsp)})
  }

  lemma RejectedEffect(s: System, m: AppendRequestMsg, n': Node, rsp: AppendResponse)
    requires Enabled(s, DeliverAppendRequest(m))
    requires HandleAppendRequest(s.nodes[m.to], m.req) == (n', rsp) && !rsp.success
    requires WithNode(s, m.to, n') == s.(nodes := s.nodes[m.to := n'])
    ensures Do(s, DeliverAppendRequest(m)) == AfterNo(s, m, n', rsp)
  {
    assert s.acks + {} == s.acks;
  }

  /** Rejecting a request changes term and role at most. */
  lemma DeliverAppendRejected(s: System, m: AppendRequestMsg) returns (n': Node, rsp: AppendResponse)
    requires LogInv(s) && Enabled(s, DeliverAppendRequest(m)) && !Accepts(s.nodes[m.to], m.req)
    ensures var v := Ready(s.nodes[m.to], m.req); n' == v || n' == v.(passive := false)
    ensures !rsp.success && Do(s, DeliverAppendRequest(m)) == AfterNo(s, m, n', rsp)
    ensures LogInv(s.(nodes := s.nodes[m.to := n']))
  {
    var n := s.nodes[m.to];
    n', rsp := HandleAppendRequest(n, m.req).0, HandleAppendRequest(n, m.req).1;
    AppendRequestSplit(n, m.req);
    ReadyQuiet(n, m.req);
    QuietSameBooks(s, m.to, n');
    RejectedEffect(s, m, n', rsp);
  }

  lemma DeliverAppendInv(s: System, m: AppendRequestMsg)
    requires LogInv(s) && Enabled(s, DeliverAppendRequest(m))
    ensures LogInv(Do(s, DeliverAppendRequest(m)))
  {
    if Accepts(s.nodes[m.to], m.req) {
      AcceptedInv(s, m);
    } else {
      RejectedInv(s, m);
    }
  }

  lemma AcceptedInv(s: System, m: AppendRequestMsg)
    requires LogInv(s) && Enabled(s, DeliverAppendRequest(m)) && Accepts(s.nodes[m.to], m.req)
    ensures LogInv(Do(s, DeliverAppendRequest(m)))
  {
    var w := Ready(s.nodes[m.to], m.req).(passive := false);
    var n' := DeliverAppendAccepted(s, m, w);
    assert NodeKnown(s.ids, s.nodes[m.to], m.to);
    AcceptReady(s, m, w);
    AcceptInv(s, m, w, n');
  }

  lemma RejectedInv(s: System, m: AppendRequestMsg)
    requires LogInv(s) && Enabled(s, DeliverAppendRequest(m)) && !Accepts(s.nodes[m.to], m.req)
    ensures LogInv(Do(s, DeliverAppendRequest(m)))
  {
    var n', rsp := DeliverAppendRejected(s, m);
    assert RequestOk(s.reigns, m) && SlotOk(s, m.from, m.req.term, m.slot, m.to);
    AddResponse(s.(nodes := s.nodes[m.to := n']), m, AppendResponseMsg(m.to, m.from, m.slot, m.req, rsp));
  }

  lemma AcceptInv(s: System, m: AppendRequestMsg, w: Node, n': Node)
    requires m in s.appendRequests && m.to < |s.nodes| && LogInv(s.(nodes := s.nodes[m.to := w]))
    requires w.role == Follower && w.term == m.req.term && ValidPrevious(w.log, m.req) && |w.log| >= 1
    requires n'.role == Follower && n'.term == m.req.term && NodeKnown(s.ids, n', m.to) && |s.ids| == |s.nodes|
    requires n'.log == Splice(w.log, m.req.prevLogIndex + 1, m.req.entries)
    ensures LogInv(AfterYes(s, m, n'))
  {
    var t := s.(nodes := s.nodes[m.to := w]);
    assert t.nodes[m.to := n'] == s.nodes[m.to := n'];
    AppendStep(t, m, n', AfterYes(s, m, n'));
  }

  lemma AddResponse(s: System, m: AppendRequestMsg, r: AppendResponseMsg)
    requires LogInv(s) && m in s.appendRequests && ResponseOk(s, r)
    requires r.peer == m.to && r.leader == m.from && r.slot == m.slot && r.req == m.req
    ensures LogInv(s.(appendResponses := s.appendResponses + {r}))
  {
    var s' := s.(appendResponses := s.appendResponses + {r});
    SameNodes(s, s');
    assert SlotOk(s, m.from, m.req.term, m.slot, m.to);
  }

  lemma DeliverAppendResponseInv(s: System, m: AppendResponseMsg)
    requires LogInv(s) && Enabled(s, DeliverAppendResponse(m)) && Fresh(s, DeliverAppendResponse(m))
    ensures LogInv(Do(s, DeliverAppendResponse(m)))
  {
    var k := m.leader;
    var n := s.nodes[k];
    var n' := HandleAppendResponse(n, m.slot, m.req, m.rsp);
    if m.rsp.term > n.term {
      QuietSameBooks(s, k, n');
    } else {
      assert NodeKnown(s.ids, n, k);
      AppendResponseMembers(n, m.slot, m.req, m.rsp);
      SameMembersWellFormed(n, n');
      BooksAfterResponse(s, m, n');
      QuietStep(s, k, n');
    }
  }

  /** What a leader notes down from a response is in range and backed by an acknowledgement. */
  lemma BooksAfterResponse(s: System, m: AppendResponseMsg, n': Node)
    requires LogInv(s) && m in s.appendResponses && m.leader < |s.nodes|
    requires s.nodes[m.leader].term == m.req.term >= m.rsp.term
    requires s.nodes[m.leader].self < |s.nodes[m.leader].cluster| && m.slot < |s.nodes[m.leader].cluster|
    requires n' == HandleAppendResponse(s.nodes[m.leader], m.slot, m.req, m.rsp)
    ensures LeaderOk(s.ids, s.acks, n', m.leader)
  {
    var k := m.leader;
    var n := s.nodes[k];
    assert ResponseOk(s, m) && ReignOk(s, m.req.term) && LeaderOk(s.ids, s.acks, n, k);
    assert SlotOk(s, k, m.req.term, m.slot, m.peer);
    if n.role == Leader {
      forall i: nat | i < |n'.cluster| && i != n'.self ensures BookOk(s.ids, s.acks, n', i) {
        assert BookOk(s.ids, s.acks, n, i);
      }
    }
  }

  lemma SendAppendInv(s: System, k: nat, slot: nat, to: nat)
    requires LogInv(s) && Enabled(s, SendAppendRequest(k, slot, to))
    requires Fresh(s, SendAppendRequest(k, slot, to)) && Routed(s, SendAppendRequest(k, slot, to))
    ensures LogInv(Do(s, SendAppendRequest(k, slot, to)))
  {
    var n := s.nodes[k];
    var m := AppendRequestMsg(k, slot, to, BuildAppendRequest(n, slot));
    assert NodeLogOk(s.reigns, n, k) && ReignOk(s, n.term);
    BuiltIsSlice(n, slot);
    AddRequest(s, m);
  }

  lemma BuiltIsSlice(n: Node, slot: nat)
    requires n.self < |n.cluster| && slot < |n.cluster| && 1 <= n.cluster[slot].nextIndex <= |n.log|
    ensures SliceOf(BuildAppendRequest(n, slot), n.log) && BuildAppendRequest(n, slot).term == n.term
  {
  }

  lemma AddRequest(s: System, m: AppendRequestMsg)
    requires LogInv(s) && RequestOk(s.reigns, m) && Addresses(s, m.from, m.slot, m.to)
    ensures LogInv(s.(appendRequests := s.appendRequests + {m}))
  {
    SameNodes(s, s.(appendRequests := s.appendRequests + {m}));
  }

  lemma BecomeLeaderInv(s: System, k: nat)
    requires LogInv(s) && Enabled(s, BecomeLeaderStep(k))
    requires Atomic(s, BecomeLeaderStep(k)) && Unclaimed(s, BecomeLeaderStep(k))
    ensures LogInv(Do(s, BecomeLeaderStep(k)))
  {
    var n := s.nodes[k];
    var n' := BecomeLeader(n);
    assert NodeKnown(s.ids, n, k);
    SameMembersStep(n, TryBecomeLeader);
    SameMembersWellFormed(n, n');
    if n' == n {
      QuietSameBooks(s, k, n');
    } else {
      assert n'.log[|n.log|] == Entry(n.term, []);
      ExtendingStep(s, k, n');
    }
  }

  lemma ClientExtends(s: System, k: nat, commands: seq<seq<byte>>)
    requires k < |s.nodes| && s.nodes[k].role == Leader
    ensures Extending(s, k, ClientApply(s.nodes[k], commands))
  {
  }

  lemma ClientInv(s: System, k: nat, commands: seq<seq<byte>>)
    requires LogInv(s) && Enabled(s, ClientStep(k, commands))
    ensures LogInv(Do(s, ClientStep(k, commands)))
  {
    var n := s.nodes[k];
    var n' := ClientApply(n, commands);
    assert NodeKnown(s.ids, n, k);
    SameMembersStep(n, ClientCommands(commands));
    SameMembersWellFormed(n, n');
    if n.role == Leader {
      ClientExtends(s, k, commands);
      GrownBooks(s, k, n');
      ExtendingStep(s, k, n');
    } else {
      QuietSameBooks(s, k, n');
    }
  }

  /** A leader's bookkeeping survives the growth of its log and the addition of members without acknowledgements. */
  lemma GrownBooks(s: System, k: nat, n': Node)
    requires LogInv(s) && k < |s.nodes| && s.nodes[k].role == Leader && Extending(s, k, n')
    requires n'.self == s.nodes[k].self && s.nodes[k].cluster <= n'.cluster
    requires forall i :: |s.nodes[k].cluster| <= i < |n'.cluster| ==>
               n'.cluster[i].matchIndex == 0 && 1 <= n'.cluster[i].nextIndex <= |n'.log|
    ensures LeaderOk(s.ids, WithNode(s, k, n').acks, n', k)
  {
    var n := s.nodes[k];
    var acks := WithNode(s, k, n').acks;
    assert LeaderOk(s.ids, s.acks, n, k);
    forall i: nat | i < |n'.cluster| && i != n'.self ensures BookOk(s.ids, acks, n', i) {
      if i < |n.cluster| {
        assert BookOk(s.ids, s.acks, n, i);
      }
    }
  }

  lemma AddServerInv(s: System, k: nat, id: nat, address: seq<byte>)
    requires LogInv(s) && Enabled(s, AddServerStep(k, id, address))
    ensures LogInv(Do(s, AddServerStep(k, id, address)))
  {
    var n := s.nodes[k];
    var n' := AddServer(n, id, address);
    if AddOutcomeOf(n, id, address) == Added {
      assert NodeKnown(s.ids, n, k);
      AddServerWellFormed(n, id, address);
      AdditionBooks(n, id, address);
      GrownBooks(s, k, n');
      ExtendingStep(s, k, n');
    } else {
      QuietSameBooks(s, k, n');
    }
  }

  lemma AdditionBooks(n: Node, id: nat, address: seq<byte>)
    requires WellFormed(n) && AddOutcomeOf(n, id, address) == Added
    ensures var n' := AddServer(n, id, address);
            && n.log <= n'.log && |n'.log| == |n.log| + 1 && n'.log[|n.log|].term == n.term
            && n'.self == n.self && n.cluster <= n'.cluster
            && forall i :: |n.cluster| <= i < |n'.cluster| ==>
                 n'.cluster[i].matchIndex == 0 && n'.cluster[i].nextIndex == |n'.log|
  {
    var members := WithNewcomer(n, id, address);
    var n' := AddServer(n, id, address);
    UnknownBooks(Ids(n.cluster), members, |n.log| + 1, n.id, Vote(n));
    IndexOfPrefix(n.cluster, n'.cluster, n.id);
  }

  lemma {:induction false} UnknownBooks(known: set<nat>, incoming: seq<Member>, next: nat, selfId: nat, vote: nat)
    ensures forall m :: m in Unknown(known, incoming, next, selfId, vote) ==> m.matchIndex == 0 && m.nextIndex == next
  {
    if incoming != [] {
      UnknownBooks(known, incoming[1..], next, selfId, vote);
    }
  }

  lemma RestartInv(s: System, k: nat, how: Restarting)
    requires LogInv(s) && Enabled(s, RestartStep(k, how))
    ensures LogInv(Do(s, RestartStep(k, how)))
  {
    assert NodeKnown(s.ids, s.nodes[k], k);
    RestartWellFormed(s.nodes[k], how);
    QuietStep(s, k, Restart(s.nodes[k], how));
  }

  /** Every step keeps the invariant, given the hypotheses and that no term is won twice. */
  lemma LogInvStep(s: System, st: Step)
    requires LogInv(s) && Enabled(s, st) && Atomic(s, st) && Fresh(s, st) && Routed(s, st) && Unclaimed(s, st)
    ensures LogInv(Do(s, st))
  {
    match st {
      case TimeoutStep(k) =>
        QuietSameBooks(s, k, Timeout(s.nodes[k]));
        LogInvFrame(WithNode(s, k, Timeout(s.nodes[k])), Do(s, st));
      case SendVoteRequest(k, slot, to) => LogInvFrame(s, Do(s, st));
      case DeliverVoteRequest(m) =>
        var n' := HandleVoteRequest(s.nodes[m.to], m.req).0;
        VoteRequestQuiet(s.nodes[m.to], m.req);
        QuietSameBooks(s, m.to, n');
        LogInvFrame(WithNode(s, m.to, n'), Do(s, st));
      case DeliverVoteResponse(m) =>
        VoteResponseQuiet(s.nodes[m.candidate], m.slot, m.req, m.rsp);
        QuietSameBooks(s, m.candidate, HandleVoteResponse(s.nodes[m.candidate], m.slot, m.req, m.rsp));
      case BecomeLeaderStep(k) => BecomeLeaderInv(s, k);
      case ClientStep(k, commands) => ClientInv(s, k, commands);
      case AddServerStep(k, id, address) => AddServerInv(s, k, id, address);
      case SendAppendRequest(k, slot, to) => SendAppendInv(s, k, slot, to);
      case DeliverAppendRequest(m) => DeliverAppendInv(s, m);
      case DeliverAppendResponse(m) => DeliverAppendResponseInv(s, m);
      case CommitStep(k) =>
        CommitQuiet(s.nodes[k]);
        QuietSameBooks(s, k, AdvanceCommit(s.nodes[k]));
      case RestartStep(k, how) => RestartInv(s, k, how);
    }
  }

  // ---------- Elected leaders stay on record ----------

  /** A step adds to the record only what a leader adds to its own log. */
  lemma HistoryExtends(s: System, k: nat, n': Node)
    requires LogInv(s) && k < |s.nodes|
    requires n'.role == Leader && n'.term in s.reigns ==>
               s.nodes[k].role == Leader && n'.term == s.nodes[k].term && s.nodes[k].log <= n'.log
    ensures Extends(s.reigns, WithNode(s, k, n').reigns)
  {
    if n'.role == Leader && n'.term in s.reigns {
      assert NodeLogOk(s.reigns, s.nodes[k], k) && ReignOk(s, n'.term);
    }
  }

  /** Whoever leads after a step led before it, with a log that grew by entries of its term at most, or wins by it. */
  lemma LeadsOrWins(n: Node, ev: Event)
    requires CanHandle(n, ev)
    ensures Handle(n, ev).role == Leader ==>
              || (n.role == Leader && Handle(n, ev).term == n.term && GrownBy(n, Handle(n, ev)))
              || (ev == TryBecomeLeader && Handle(n, ev).term == n.term && |Voters(n)| >= Quorum(n))
  {
    match ev {
      case AppendRequestArrives(req) => AppendRequestFields(n, req, Handle(n, ev));
      case ClientCommands(commands) => assert n.role == Leader ==> GrownBy(n, ClientApply(n, commands));
      case ServerAddition(id, address) => assert n.role == Leader ==> GrownBy(n, AddServer(n, id, address));
      case TryBecomeLeader =>
      case _ => KeepsLog(n, ev);
    }
  }

  lemma KeepsLog(n: Node, ev: Event)
    requires CanHandle(n, ev) && !ev.AppendRequestArrives? && !ev.ClientCommands? && !ev.ServerAddition?
    requires !ev.TryBecomeLeader?
    ensures Handle(n, ev).log == n.log
    ensures Handle(n, ev).role == Leader ==> n.role == Leader && Handle(n, ev).term == n.term
  {
  }

  /** The log grew, by entries of the term. */
  ghost predicate GrownBy(n: Node, n': Node) {
    n.log <= n'.log && forall i :: |n.log| <= i < |n'.log| ==> n'.log[i].term == n.term
  }

  lemma StepExtends(s: System, st: Step)
    requires LogInv(s) && Enabled(s, st) && Unclaimed(s, st)
    ensures Extends(s.reigns, Do(s, st).reigns)
  {
    StepIsHandle(s, st);
    if Actor(st).Some? {
      var (k, ev) := Actor(st).value;
      LeadsOrWins(s.nodes[k], ev);
      HistoryExtends(s, k, Handle(s.nodes[k], ev));
    } else {
      ExtendsReflexive(s.reigns);
    }
  }
}
