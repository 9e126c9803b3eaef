/** What holds in addition for one fixed set of nodes: every node lists all of them, in the same order, and
    every elected leader has the votes of a majority of them. Nodes may restart. */
module ClusterFixed {
  import opened Types
  import opened Membership
  import opened Raft
  import opened Cluster
  import opened ClusterLog
  import opened ClusterLogRun

  // ---------- The invariant ----------

  ghost predicate NodeShape(ids: seq<nat>, n: Node, k: nat)
    requires k < |ids|
  {
    && n.id == ids[k] && n.self == k
    && Names(ids, n.base) && Names(ids, n.cluster)
    && (forall i :: 0 <= i < |n.base| ==> n.base[i].votedFor == 0)
    && |n.log| >= 1
  }

  ghost predicate Shape(s: System) {
    && GoodIds(s.ids) && |s.nodes| == |s.ids|
    && forall k :: 0 <= k < |s.nodes| ==> NodeShape(s.ids, s.nodes[k], k)
  }

  ghost predicate Ordinary(log: seq<Entry>) {
    forall i :: 0 <= i < |log| ==> !IsConfigChange(log[i].command)
  }

  ghost predicate LogsOrdinary(s: System) {
    && (forall k :: 0 <= k < |s.nodes| ==> Ordinary(s.nodes[k].log))
    && (forall t :: t in s.reigns ==> Ordinary(s.reigns[t].log))
  }

  ghost predicate ElectedOk(s: System, term: nat)
    requires term in s.reigns
  {
    var r := s.reigns[term];
    && r.leader < |s.nodes|
    && r.voters <= Below(|s.ids|) && |r.voters| >= |s.ids| / 2 + 1
  }

  ghost predicate ElectionsOk(s: System) {
    forall t :: t in s.reigns ==> ElectedOk(s, t)
  }

  /** Slots and nodes are numbered alike. */
  ghost predicate SlotsFixed(s: System) {
    VoteSlots(s) && AppendSlots(s)
  }

  ghost predicate VoteSlots(s: System) {
    && (forall m :: m in s.voteRequests ==> m.slot == m.to && m.to < |s.ids| && m.from < |s.ids|)
    && (forall m :: m in s.voteResponses ==> m.slot == m.voter && m.voter < |s.ids| && m.candidate < |s.ids|)
  }

  ghost predicate AppendSlots(s: System) {
    && (forall m :: m in s.appendRequests ==> m.slot == m.to && m.to < |s.ids| && m.from < |s.ids|)
    && (forall m :: m in s.appendResponses ==> m.slot == m.peer && m.peer < |s.ids| && m.leader < |s.ids|)
  }

  ghost predicate FixedInv(s: System) {
    LogInv(s) && Shape(s) && LogsOrdinary(s) && ElectionsOk(s) && SlotsFixed(s)
  }

  lemma FixedInvInit(s: System)
    requires Init(s) && OneCluster(s)
    ensures FixedInv(s)
  {
    forall k | 0 <= k < |s.nodes| ensures NodeShape(s.ids, s.nodes[k], k) {
      assert FreshNode(s.ids, s.nodes[k], k);
      IndexFixed(s.ids, s.nodes[k].cluster, k);
    }
  }

  lemma IndexFixed(ids: seq<nat>, cluster: seq<Member>, k: nat)
    requires GoodIds(ids) && Names(ids, cluster) && k < |ids|
    ensures ids[k] in Ids(cluster) && IndexOf(cluster, ids[k]) == k
  {
    assert cluster[k] in cluster;
    var j := IndexOf(cluster, ids[k]);
    assert ids[j] == ids[k];
  }

  // ---------- A node keeps its shape ----------

  /** With no config change in sight a node's cluster after an append still names the founding ids. */
  lemma AppendShape(ids: seq<nat>, n: Node, k: nat, req: AppendRequest)
    requires GoodIds(ids) && k < |ids| && NodeShape(ids, n, k)
    requires WellFormed(n) && ValidPrevious(n.log, req)
    requires Ordinary(Splice(n.log, req.prevLogIndex + 1, req.entries)) && Ordinary(req.entries)
    ensures NodeShape(ids, AppendFromLeader(n, req), k) && Appended(n, req, AppendFromLeader(n, req))
  {
    var next := req.prevLogIndex + 1;
    ClusterAfterAppendNamesSelf(n, req);
    if Conflict(n.log, next, req.entries) {
      MergeNoConfig(n.base, Splice(n.log, next, req.entries), 0, n.id, Vote(n));
    } else {
      MergeNoConfig(n.cluster, req.entries, next, n.id, Vote(n));
    }
    IndexFixed(ids, ClusterAfterAppend(n, req), k);
  }

  /** What an accepting node turns into when no config change is in sight. */
  ghost predicate Appended(w: Node, req: AppendRequest, n': Node) {
    && ValidPrevious(w.log, req) && |w.log| >= 1
    && var log' := Splice(w.log, req.prevLogIndex + 1, req.entries);
       n' == w.(log := log',
                cluster := if Conflict(w.log, req.prevLogIndex + 1, req.entries) then w.base else w.cluster,
                commitIndex := if req.leaderCommit > w.commitIndex then Min(req.leaderCommit, |log'| - 1)
                               else w.commitIndex)
  }

  lemma SpliceOrdinary(log: seq<Entry>, req: AppendRequest, l: seq<Entry>)
    requires Ordinary(log) && Ordinary(l) && SliceOf(req, l) && req.prevLogIndex + 1 <= |log|
    ensures Ordinary(req.entries) && Ordinary(Splice(log, req.prevLogIndex + 1, req.entries))
  {
    forall i | 0 <= i < |req.entries| ensures !IsConfigChange(req.entries[i].command) {
      assert req.entries[i] == l[req.prevLogIndex + 1 + i];
    }
  }

  /** The node that takes in a request, in a fixed cluster; `l` is the sender's log. */
  lemma AcceptShape(ids: seq<nat>, n: Node, k: nat, req: AppendRequest, l: seq<Entry>, w: Node)
    requires GoodIds(ids) && k < |ids| && NodeShape(ids, n, k) && Ordinary(n.log) && Ordinary(l) && SliceOf(req, l)
    requires w == Ready(n, req).(passive := false) && WellFormed(w) && ValidPrevious(w.log, req)
    ensures NodeShape(ids, AppendFromLeader(w, req), k) && Ordinary(AppendFromLeader(w, req).log)
    ensures Appended(w, req, AppendFromLeader(w, req))
  {
    ReadyQuiet(n, req);
    SpliceOrdinary(w.log, req, l);
    AppendShape(ids, w, k, req);
  }

  /** Accepting a request in a fixed cluster, as one change to the system. */
  lemma AcceptFixed(s: System, m: AppendRequestMsg, w: Node) returns (n': Node)
    requires FixedInv(s) && Enabled(s, DeliverAppendRequest(m)) && Accepts(s.nodes[m.to], m.req)
    requires w == Ready(s.nodes[m.to], m.req).(passive := false)
    ensures Appended(w, m.req, n') && NodeShape(s.ids, n', m.to)
    ensures w.role == Follower && w.term == m.req.term && Do(s, DeliverAppendRequest(m)) == AfterYes(s, m, n')
  {
    n' := DeliverAppendAccepted(s, m, w);
    assert RequestOk(s.reigns, m) && NodeShape(s.ids, s.nodes[m.to], m.to);
    AcceptShape(s.ids, s.nodes[m.to], m.to, m.req, s.reigns[m.req.term].log, w);
  }

  lemma RejectShape(ids: seq<nat>, n: Node, k: nat, req: AppendRequest)
    requires k < |ids| && NodeShape(ids, n, k) && Ordinary(n.log) && WellFormed(n) && !Accepts(n, req)
    ensures NodeShape(ids, HandleAppendRequest(n, req).0, k) && Ordinary(HandleAppendRequest(n, req).0.log)
  {
    AppendRequestSplit(n, req);
    ReadyQuiet(n, req);
  }

  lemma SameMembersShape(ids: seq<nat>, n: Node, k: nat, n': Node)
    requires k < |ids| && NodeShape(ids, n, k) && SameMembers(n, n')
    ensures NodeShape(ids, n', k)
  {
  }

  lemma OrdinaryStep(n: Node, ev: Event)
    requires CanHandle(n, ev) && Ordinary(n.log) && !ev.AppendRequestArrives? && !ev.ServerAddition?
    requires ev.ClientCommands? ==> forall c :: c in ev.commands ==> !IsConfigChange(c)
    ensures Ordinary(Handle(n, ev).log)
  {
  }

  lemma ActorShape(s: System, st: Step)
    requires FixedInv(s) && Enabled(s, st) && Fixed(st) && Actor(st).Some?
    ensures var (k, ev) := Actor(st).value;
            NodeShape(s.ids, Handle(s.nodes[k], ev), k) && Ordinary(Handle(s.nodes[k], ev).log)
  {
    var (k, ev) := Actor(st).value;
    var n := s.nodes[k];
    assert NodeShape(s.ids, n, k);
    if st.DeliverAppendRequest? {
      var m := st.appendRequest;
      if Accepts(n, m.req) {
        var w := Ready(n, m.req).(passive := false);
        var n' := DeliverAppendAccepted(s, m, w);
        AppendRequestSplit(n, m.req);
        assert RequestOk(s.reigns, m);
        AcceptShape(s.ids, n, k, m.req, s.reigns[m.req.term].log, w);
      } else {
        RejectShape(s.ids, n, k, m.req);
      }
    } else {
      if st.RestartStep? {
        RestartShape(s.ids, n, k, st.how);
      } else {
        SameMembersStep(n, ev);
        SameMembersShape(s.ids, n, k, Handle(n, ev));
      }
      OrdinaryStep(n, ev);
    }
  }

  /** What a restart makes of a node when no config change is in sight. */
  lemma RestartShape(ids: seq<nat>, n: Node, k: nat, how: Restarting)
    requires GoodIds(ids) && k < |ids| && NodeShape(ids, n, k) && Ordinary(n.log) && n.id in Ids(n.base)
    ensures NodeShape(ids, Restart(n, how), k) && Restart(n, how).cluster == n.base
  {
    MergeNoConfig(n.base, n.log, 0, n.id, 0);
    IndexFixed(ids, n.base, k);
  }

  // ---------- Every step ----------

  lemma ShapeStep(s: System, st: Step, s': System)
    requires FixedInv(s) && Enabled(s, st) && Fixed(st) && s' == Do(s, st)
    ensures Shape(s') && LogsOrdinary(s')
  {
    StepIsHandle(s, st);
    if Actor(st).Some? {
      ActorShape(s, st);
      PlacedShape(s, Actor(st).value.0, Handle(s.nodes[Actor(st).value.0], Actor(st).value.1), s');
    }
  }

  lemma PlacedShape(s: System, k: nat, n': Node, s': System)
    requires Shape(s) && LogsOrdinary(s) && k < |s.nodes| && NodeShape(s.ids, n', k) && Ordinary(n'.log)
    requires s'.ids == s.ids && s'.nodes == s.nodes[k := n'] && s'.reigns == WithNode(s, k, n').reigns
    ensures Shape(s') && LogsOrdinary(s')
  {
    forall j | 0 <= j < |s'.nodes| ensures NodeShape(s'.ids, s'.nodes[j], j) {
      assert j != k ==> NodeShape(s.ids, s.nodes[j], j);
    }
  }

  lemma ElectionsStep(s: System, st: Step, s': System)
    requires FixedInv(s) && Enabled(s, st) && Unclaimed(s, st) && s' == Do(s, st)
    ensures ElectionsOk(s')
  {
    StepIsHandle(s, st);
    StepExtends(s, st);
    if Actor(st).Some? {
      var (k, ev) := Actor(st).value;
      LeadsOrWins(s.nodes[k], ev);
      assert NodeShape(s.ids, s.nodes[k], k);
      PlacedElections(s, k, Handle(s.nodes[k], ev), s');
    } else {
      forall t | t in s'.reigns ensures ElectedOk(s', t) {
        assert ElectedOk(s, t);
      }
    }
  }

  /** A new leader has a majority. */
  lemma PlacedElections(s: System, k: nat, n': Node, s': System)
    requires ElectionsOk(s) && NodesOk(s) && k < |s.nodes| && |s.nodes[k].cluster| == |s.ids|
    requires s'.ids == s.ids && s'.nodes == s.nodes[k := n'] && s'.reigns == WithNode(s, k, n').reigns
    requires Extends(s.reigns, s'.reigns)
    requires n'.role == Leader ==> n'.term == s.nodes[k].term
    requires n'.role == Leader && s.nodes[k].role != Leader ==> |Voters(s.nodes[k])| >= Quorum(s.nodes[k])
    ensures ElectionsOk(s')
  {
    assert NodeLogOk(s.reigns, s.nodes[k], k);
    forall t | t in s'.reigns ensures ElectedOk(s', t) {
      if t in s.reigns {
        assert ElectedOk(s, t);
      }
    }
  }

  lemma SlotsFixedStep(s: System, st: Step, s': System)
    requires Shape(s) && SlotsFixed(s) && Enabled(s, st) && Routed(s, st) && s' == Do(s, st)
    ensures SlotsFixed(s')
  {
    VoteSlotsStep(s, st, s');
    AppendSlotsStep(s, st, s');
  }

  lemma VoteSlotsStep(s: System, st: Step, s': System)
    requires Shape(s) && VoteSlots(s) && Enabled(s, st) && Routed(s, st) && s' == Do(s, st)
    ensures VoteSlots(s')
  {
    StepIsHandle(s, st);
    StepVoteMessages(s, st);
    if st.SendVoteRequest? {
      SlotIsNode(s, st.node, st.slot, st.to);
    }
  }

  lemma AppendSlotsStep(s: System, st: Step, s': System)
    requires Shape(s) && AppendSlots(s) && Enabled(s, st) && Routed(s, st) && s' == Do(s, st)
    ensures AppendSlots(s')
  {
    StepIsHandle(s, st);
    StepAppendMessages(s, st);
    if st.SendAppendRequest? {
      SlotIsNode(s, st.node, st.slot, st.to);
    }
  }

  lemma SlotIsNode(s: System, k: nat, slot: nat, to: nat)
    requires Shape(s) && Addresses(s, k, slot, to)
    ensures slot == to && slot != k
  {
    assert NodeShape(s.ids, s.nodes[k], k);
    assert s.ids[slot] == s.ids[to];
  }

  lemma FixedInvStep(s: System, st: Step)
    requires FixedInv(s) && Enabled(s, st) && Atomic(s, st) && Fresh(s, st) && Routed(s, st) && Fixed(st)
    requires Unclaimed(s, st)
    ensures FixedInv(Do(s, st))
  {
    var s' := Do(s, st);
    LogInvStep(s, st);
    ShapeStep(s, st, s');
    ElectionsStep(s, st, s');
    SlotsFixedStep(s, st, s');
  }
}
