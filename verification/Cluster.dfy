/** Nodes exchanging messages, while members are added and nodes stop and start again. Requests and
    responses are never removed once sent, so a message may be delivered late, twice, out of order or
    never. All nodes that ever take part exist from the start; a node that is to join later knows only
    itself, and nobody writes to it before its id is added.

    `reigns`, `grants` and `acks` are history: they record what happened and no step reads them. */
module Cluster {
  import opened Types
  import opened Membership
  import opened Raft

  /** From node `from` to node `to`, which the sender's cluster listed at `slot`. */
  datatype VoteRequestMsg = VoteRequestMsg(from: nat, slot: nat, to: nat, req: VoteRequest)

  /** A response travels together with its request and slot: the waiting goroutine still holds them. */
  datatype VoteResponseMsg = VoteResponseMsg(voter: nat, candidate: nat, slot: nat, req: VoteRequest, rsp: VoteResponse)

  datatype AppendRequestMsg = AppendRequestMsg(from: nat, slot: nat, to: nat, req: AppendRequest)

  datatype AppendResponseMsg =
    AppendResponseMsg(peer: nat, leader: nat, slot: nat, req: AppendRequest, rsp: AppendResponse)

  /** An elected term: who led it, where the leader's cluster listed those who had voted for it by then,
      and the leader's log as far as it got. */
  datatype Reign = Reign(leader: nat, voters: set<nat>, log: seq<Entry>)

  /** `voter` granted its vote of `term` to `candidate`. */
  datatype Grant = Grant(term: nat, voter: nat, candidate: nat)

  /** In `term`, `node` confirmed to hold the leader's log up to and including index `upTo`. */
  datatype Ack = Ack(term: nat, node: nat, upTo: nat)

  datatype System = System(
    ids: seq<nat>,
    nodes: seq<Node>,
    voteRequests: set<VoteRequestMsg>,
    voteResponses: set<VoteResponseMsg>,
    appendRequests: set<AppendRequestMsg>,
    appendResponses: set<AppendResponseMsg>,
    reigns: map<nat, Reign>,
    grants: set<Grant>,
    acks: set<Ack>
  )

  datatype Step =
    | TimeoutStep(node: nat)
    | SendVoteRequest(node: nat, slot: nat, to: nat)
    | DeliverVoteRequest(voteRequest: VoteRequestMsg)
    | DeliverVoteResponse(voteResponse: VoteResponseMsg)
    | BecomeLeaderStep(node: nat)
    | ClientStep(node: nat, commands: seq<seq<byte>>)
    | AddServerStep(node: nat, id: nat, address: seq<byte>)
    | SendAppendRequest(node: nat, slot: nat, to: nat)
    | DeliverAppendRequest(appendRequest: AppendRequestMsg)
    | DeliverAppendResponse(appendResponse: AppendResponseMsg)
    | CommitStep(node: nat)
    | RestartStep(node: nat, how: Restarting)

  // ---------- Where a run starts ----------

  ghost predicate Names(ids: seq<nat>, ms: seq<Member>) {
    |ms| == |ids| && forall i :: 0 <= i < |ids| ==> ms[i].id == ids[i]
  }

  ghost predicate GoodIds(ids: seq<nat>) {
    && |ids| >= 1
    && (forall i :: 0 <= i < |ids| ==> 0 < ids[i] < TWO_64)
    && (forall i, j :: 0 <= i < j < |ids| ==> ids[i] != ids[j])
  }

  /** A node just started on an empty store, with founding members of its own. */
  ghost predicate FreshNode(ids: seq<nat>, n: Node, k: nat)
    requires k < |ids|
  {
    && n.id == ids[k] && WellFormed(n) && n.cluster == n.base
    && Distinct(n.base) && (forall i :: 0 <= i < |n.base| ==> n.base[i].votedFor == 0 && n.base[i].id < TWO_64)
    && n.term == 0 && n.log == [SENTINEL] && n.role == Follower
    && n.commitIndex == 0 && n.lastApplied == 0 && n.pending == 0 && n.applied == []
  }

  ghost predicate Init(s: System) {
    && GoodIds(s.ids) && |s.nodes| == |s.ids|
    && (forall k :: 0 <= k < |s.nodes| ==> FreshNode(s.ids, s.nodes[k], k))
    && s.voteRequests == {} && s.voteResponses == {} && s.appendRequests == {} && s.appendResponses == {}
    && s.reigns == map[] && s.grants == {} && s.acks == {}
  }

  /** All nodes are founding members of one cluster. */
  ghost predicate OneCluster(s: System) {
    forall k :: 0 <= k < |s.nodes| ==> Names(s.ids, s.nodes[k].base)
  }

  // ---------- Steps ----------

  /** The node a step changes, if any, and the event by which it changes. */
  function Actor(st: Step): Option<(nat, Event)> {
    match st {
      case TimeoutStep(k) => Some((k, TimeoutFires))
      case SendVoteRequest(_, _, _) => None
      case DeliverVoteRequest(m) => Some((m.to, VoteRequestArrives(m.req)))
      case DeliverVoteResponse(m) => Some((m.candidate, VoteResponseArrives(m.slot, m.req, m.rsp)))
      case BecomeLeaderStep(k) => Some((k, TryBecomeLeader))
      case ClientStep(k, commands) => Some((k, ClientCommands(commands)))
      case AddServerStep(k, id, address) => Some((k, ServerAddition(id, address)))
      case SendAppendRequest(_, _, _) => None
      case DeliverAppendRequest(m) => Some((m.to, AppendRequestArrives(m.req)))
      case DeliverAppendResponse(m) => Some((m.leader, AppendResponseArrives(m.slot, m.req, m.rsp)))
      case CommitStep(k) => Some((k, CommitAndApply))
      case RestartStep(k, how) => Some((k, Restarts(how)))
    }
  }

  /** Node `k` has a member other than itself at `slot`; node `to` is whoever answers at its address. */
  ghost predicate Writes(s: System, k: nat, slot: nat, to: nat) {
    && k < |s.nodes| && to < |s.ids|
    && s.nodes[k].self < |s.nodes[k].cluster| && slot < |s.nodes[k].cluster| && slot != s.nodes[k].self
  }

  /** That member is node `to`. */
  ghost predicate Addresses(s: System, k: nat, slot: nat, to: nat) {
    Writes(s, k, slot, to) && s.nodes[k].cluster[slot].id == s.ids[to]
  }

  /** A step can be taken: its node exists, its message was sent, and the original does not panic in it. */
  ghost predicate Enabled(s: System, st: Step) {
    && (match st {
          case TimeoutStep(k) => k < |s.nodes| && !s.nodes[k].passive
          case SendVoteRequest(k, slot, to) => Writes(s, k, slot, to) && |s.nodes[k].log| >= 1
          case DeliverVoteRequest(m) => m in s.voteRequests
          case DeliverVoteResponse(m) => m in s.voteResponses
          case SendAppendRequest(k, slot, to) =>
            Writes(s, k, slot, to) && 1 <= s.nodes[k].cluster[slot].nextIndex <= |s.nodes[k].log|
          case DeliverAppendRequest(m) => m in s.appendRequests
          case DeliverAppendResponse(m) => m in s.appendResponses
          case _ => true
        })
    && (Actor(st).Some? ==> Actor(st).value.0 < |s.nodes| && CanHandle(s.nodes[Actor(st).value.0], Actor(st).value.1))
  }

  /** Puts `n` in place of node `k` and extends the history of a leader's term. */
  function WithNode(s: System, k: nat, n: Node): System
    requires k < |s.nodes|
  {
    var placed := s.(nodes := s.nodes[k := n]);
    if n.role != Leader then placed
    else
      var voters := if n.term in s.reigns then s.reigns[n.term].voters else Voters(s.nodes[k]);
      placed.(reigns := s.reigns[n.term := Reign(k, voters, n.log)],
              acks := s.acks + {Ack(n.term, k, if n.log == [] then 0 else |n.log| - 1)})
  }

  ghost function Do(s: System, st: Step): System
    requires Enabled(s, st)
  {
    match st {
      case TimeoutStep(k) =>
        var n := Timeout(s.nodes[k]);
        WithNode(s, k, n).(grants := s.grants + {Grant(n.term, k, k)})
      case SendVoteRequest(k, slot, to) =>
        s.(voteRequests := s.voteRequests + {VoteRequestMsg(k, slot, to, BuildVoteRequest(s.nodes[k]))})
      case DeliverVoteRequest(m) =>
        var (n, rsp) := HandleVoteRequest(s.nodes[m.to], m.req);
        WithNode(s, m.to, n).(
          voteResponses := s.voteResponses + {VoteResponseMsg(m.to, m.from, m.slot, m.req, rsp)},
          grants := s.grants + if rsp.granted then {Grant(m.req.term, m.to, m.from)} else {})
      case DeliverVoteResponse(m) =>
        WithNode(s, m.candidate, HandleVoteResponse(s.nodes[m.candidate], m.slot, m.req, m.rsp))
      case BecomeLeaderStep(k) => WithNode(s, k, BecomeLeader(s.nodes[k]))
      case ClientStep(k, commands) => WithNode(s, k, ClientApply(s.nodes[k], commands))
      case AddServerStep(k, id, address) => WithNode(s, k, AddServer(s.nodes[k], id, address))
      case SendAppendRequest(k, slot, to) =>
        s.(appendRequests := s.appendRequests + {AppendRequestMsg(k, slot, to, BuildAppendRequest(s.nodes[k], slot))})
      case DeliverAppendRequest(m) =>
        var (n, rsp) := HandleAppendRequest(s.nodes[m.to], m.req);
        var placed := WithNode(s, m.to, n);
        placed.(
          appendResponses := s.appendResponses + {AppendResponseMsg(m.to, m.from, m.slot, m.req, rsp)},
          acks := placed.acks + if rsp.success then {AckOf(m)} else {})
      case DeliverAppendResponse(m) =>
        WithNode(s, m.leader, HandleAppendResponse(s.nodes[m.leader], m.slot, m.req, m.rsp))
      case CommitStep(k) => WithNode(s, k, AdvanceCommit(s.nodes[k]))
      case RestartStep(k, how) => WithNode(s, k, Restart(s.nodes[k], how))
    }
  }

  /** What the receiver of a request confirms by a yes. */
  function AckOf(m: AppendRequestMsg): Ack {
    Ack(m.req.term, m.to, m.req.prevLogIndex + |m.req.entries|)
  }

  /** The step changes at most one node, by its own event, and the history as that node's change tells. */
  lemma StepIsHandle(s: System, st: Step)
    requires Enabled(s, st)
    ensures Do(s, st).ids == s.ids
    ensures Actor(st).None? ==> Do(s, st).nodes == s.nodes && Do(s, st).reigns == s.reigns
    ensures Actor(st).Some? ==>
              var (k, ev) := Actor(st).value;
              && k < |s.nodes| && CanHandle(s.nodes[k], ev)
              && Do(s, st).nodes == s.nodes[k := Handle(s.nodes[k], ev)]
              && Do(s, st).reigns == WithNode(s, k, Handle(s.nodes[k], ev)).reigns
  {
    if Actor(st).Some? {
      var (k, ev) := Actor(st).value;
      StepChanges(s, st, k, ev, Handle(s.nodes[k], ev));
    }
  }

  lemma StepChanges(s: System, st: Step, k: nat, ev: Event, n': Node)
    requires Enabled(s, st) && Actor(st) == Some((k, ev)) && n' == Handle(s.nodes[k], ev)
    ensures Do(s, st).ids == s.ids
    ensures Do(s, st).nodes == WithNode(s, k, n').nodes && Do(s, st).reigns == WithNode(s, k, n').reigns
  {
  }

  /** No acknowledgement is taken back. */
  lemma AcksStay(s: System, st: Step)
    requires Enabled(s, st)
    ensures s.acks <= Do(s, st).acks
  {
  }

  /** Which acknowledgements a step adds. */
  lemma StepAcks(s: System, st: Step)
    requires Enabled(s, st) && Actor(st).Some? && !st.DeliverAppendRequest?
    ensures var (k, ev) := Actor(st).value;
            Do(s, st).acks == WithNode(s, k, Handle(s.nodes[k], ev)).acks
  {
  }

  lemma DeliveryAcks(s: System, m: AppendRequestMsg, a: Ack)
    requires Enabled(s, DeliverAppendRequest(m)) && a in Do(s, DeliverAppendRequest(m)).acks
    ensures a == AckOf(m) || a in WithNode(s, m.to, HandleAppendRequest(s.nodes[m.to], m.req).0).acks
  {
  }

  lemma StepKeepsMessages(s: System, st: Step, k: nat, ev: Event)
    requires Enabled(s, st) && Actor(st) == Some((k, ev))
    ensures Do(s, st).voteRequests == s.voteRequests && Do(s, st).appendRequests == s.appendRequests
    ensures !st.DeliverVoteRequest? ==> Do(s, st).voteResponses == s.voteResponses
    ensures !st.DeliverAppendRequest? ==> Do(s, st).appendResponses == s.appendResponses
  {
    var n' := Handle(s.nodes[k], ev);
    PlacedKeepsMessages(s, k, n');
  }

  lemma PlacedKeepsMessages(s: System, k: nat, n': Node)
    requires k < |s.nodes|
    ensures WithNode(s, k, n').voteRequests == s.voteRequests && WithNode(s, k, n').voteResponses == s.voteResponses
    ensures WithNode(s, k, n').appendRequests == s.appendRequests
    ensures WithNode(s, k, n').appendResponses == s.appendResponses
  {
  }

  /** Which messages a step adds. */
  lemma StepVoteMessages(s: System, st: Step)
    requires Enabled(s, st)
    ensures !st.SendVoteRequest? ==> Do(s, st).voteRequests == s.voteRequests
    ensures st.SendVoteRequest? ==>
              Do(s, st).voteRequests ==
              s.voteRequests + {VoteRequestMsg(st.node, st.slot, st.to, BuildVoteRequest(s.nodes[st.node]))}
    ensures !st.DeliverVoteRequest? ==> Do(s, st).voteResponses == s.voteResponses
    ensures st.DeliverVoteRequest? ==>
              var m := st.voteRequest;
              Do(s, st).voteResponses ==
              s.voteResponses
              + {VoteResponseMsg(m.to, m.from, m.slot, m.req, HandleVoteRequest(s.nodes[m.to], m.req).1)}
  {
    if Actor(st).Some? {
      StepKeepsMessages(s, st, Actor(st).value.0, Actor(st).value.1);
    }
  }

  lemma StepAppendMessages(s: System, st: Step)
    requires Enabled(s, st)
    ensures !st.SendAppendRequest? ==> Do(s, st).appendRequests == s.appendRequests
    ensures st.SendAppendRequest? ==>
              Do(s, st).appendRequests ==
              s.appendRequests
              + {AppendRequestMsg(st.node, st.slot, st.to, BuildAppendRequest(s.nodes[st.node], st.slot))}
    ensures !st.DeliverAppendRequest? ==> Do(s, st).appendResponses == s.appendResponses
    ensures st.DeliverAppendRequest? ==>
              var m := st.appendRequest;
              Do(s, st).appendResponses ==
              s.appendResponses
              + {AppendResponseMsg(m.to, m.from, m.slot, m.req, HandleAppendRequest(s.nodes[m.to], m.req).1)}
  {
    if Actor(st).Some? {
      StepKeepsMessages(s, st, Actor(st).value.0, Actor(st).value.1);
    }
  }

  // ---------- Hypotheses about a run ----------

  /** The dispatch loop's read of the state and the call it selects are one step. */
  ghost predicate Atomic(s: System, st: Step)
    requires Enabled(s, st)
  {
    match st {
      case TimeoutStep(k) => s.nodes[k].role != Leader
      case BecomeLeaderStep(k) => s.nodes[k].role == Candidate
      case _ => true
    }
  }

  /** Requests are built in the role and term they were spawned for; a response is handled only
      while the node is still in the term of its request. */
  ghost predicate Fresh(s: System, st: Step)
    requires Enabled(s, st)
  {
    match st {
      case SendVoteRequest(k, _, _) => s.nodes[k].role != Follower
      case SendAppendRequest(k, _, _) => s.nodes[k].role == Leader
      case DeliverVoteResponse(m) => s.nodes[m.candidate].term == m.req.term
      case DeliverAppendResponse(m) => s.nodes[m.leader].term == m.req.term
      case _ => true
    }
  }

  /** A member's address leads to the node of the member's id. */
  ghost predicate Routed(s: System, st: Step)
    requires Enabled(s, st)
  {
    match st {
      case SendVoteRequest(k, slot, to) => Addresses(s, k, slot, to)
      case SendAppendRequest(k, slot, to) => Addresses(s, k, slot, to)
      case _ => true
    }
  }

  /** Client commands do not pose as config changes. */
  ghost predicate OrdinaryCommands(st: Step) {
    st.ClientStep? ==> forall c :: c in st.commands ==> !IsConfigChange(c)
  }

  /** Nobody is added. */
  ghost predicate Fixed(st: Step) {
    OrdinaryCommands(st) && !st.AddServerStep?
  }

  /** A node that restarts has no vote to forget, or its log already ends in its term, as a leader's does. */
  ghost predicate VoteKept(s: System, st: Step)
    requires Enabled(s, st)
  {
    st.RestartStep? ==> Vote(s.nodes[st.node]) == 0 || LastTerm(s.nodes[st.node].log) == s.nodes[st.node].term
  }

  /** Wherever the batch limit cuts it, a request still reaches an entry of the sender's own term, and
      the sender's commit index. One that is not cut always does. */
  ghost predicate AmpleBatch(s: System, st: Step)
    requires Enabled(s, st)
  {
    st.SendAppendRequest? ==>
      var req := BuildAppendRequest(s.nodes[st.node], st.slot);
      EndsInTerm(req) && req.leaderCommit <= req.prevLogIndex + |req.entries|
  }

  /** A commit index moves only to an entry of the leader's own term. The code does not look, but as
      long as batches are ample it comes out so: this is a theorem, not a hypothesis. */
  ghost predicate OwnTermCommit(s: System, st: Step)
    requires Enabled(s, st)
  {
    match st {
      case CommitStep(k) =>
        var n := s.nodes[k];
        n.role == Leader && NewCommitIndex(n) != n.commitIndex && NewCommitIndex(n) < |n.log| ==>
          n.log[NewCommitIndex(n)].term == n.term
      case _ => true
    }
  }

  /** No term is won twice. A hypothesis of the log properties, a theorem for a fixed cluster. */
  ghost predicate Unclaimed(s: System, st: Step)
    requires Enabled(s, st)
  {
    match st {
      case BecomeLeaderStep(k) => |Voters(s.nodes[k])| >= Quorum(s.nodes[k]) ==> s.nodes[k].term !in s.reigns
      case _ => true
    }
  }

  // ---------- Runs ----------

  ghost predicate IsRun(states: seq<System>, steps: seq<Step>) {
    && |states| == |steps| + 1
    && Init(states[0])
    && forall i {:trigger steps[i]} :: 0 <= i < |steps| ==>
         Enabled(states[i], steps[i]) && states[i + 1] == Do(states[i], steps[i])
  }
}
