/** Building concrete runs one step at a time, with at most one step that breaks one hypothesis. */
module Traces {
  import opened Types
  import opened Raft
  import opened Cluster
  import opened ClusterMembership

  // ---------- Traces ----------

  /** What a step may break: that messages are fresh, that a decision is one step, that a restart forgets
      no vote that counts, that nobody is added, that a cut request reaches far enough. */
  datatype Breach = Nothing | StaleMessage | SplitDecision | ForgottenVote | Addition | CutBatch

  /** A run under construction; the step with number `at` is the one that breaks something. */
  datatype Trace = Trace(states: seq<System>, steps: seq<Step>, at: nat, breach: Breach)

  /** The step breaks just what is named, and meets every other hypothesis of the safety theorems. */
  ghost predicate Breaks(s: System, st: Step, b: Breach)
    requires Enabled(s, st)
  {
    && Routed(s, st) && OrdinaryCommands(st) && (AmpleBatch(s, st) <==> b != CutBatch)
    && (Fresh(s, st) <==> b != StaleMessage) && (Atomic(s, st) <==> b != SplitDecision)
    && (VoteKept(s, st) <==> b != ForgottenVote) && (st.AddServerStep? <==> b == Addition)
  }

  function Due(p: Trace, i: nat): Breach {
    if i == p.at then p.breach else Nothing
  }

  /** Every step is possible, and only the one at `p.at` breaks a hypothesis, namely `p.breach`. */
  ghost predicate Path(p: Trace) {
    && |p.states| == |p.steps| + 1
    && forall i {:trigger p.steps[i]} :: 0 <= i < |p.steps| ==>
         Enabled(p.states[i], p.steps[i]) && p.states[i + 1] == Do(p.states[i], p.steps[i])
         && Breaks(p.states[i], p.steps[i], Due(p, i))
  }

  /** The next `k` steps break nothing. */
  predicate Quiet(p: Trace, k: nat) {
    p.at < |p.steps| || p.at >= |p.steps| + k
  }

  function End(p: Trace): System
    requires |p.states| >= 1
  {
    p.states[|p.states| - 1]
  }

  /** `q` continues `p` by `k` steps. */
  ghost predicate Later(p: Trace, q: Trace, k: nat) {
    && Path(q) && q.at == p.at && q.breach == p.breach && |q.steps| == |p.steps| + k
    && |p.states| <= |q.states| && forall i {:trigger q.states[i]} :: 0 <= i < |p.states| ==> q.states[i] == p.states[i]
  }

  lemma PathIsRun(p: Trace)
    requires Path(p) && Init(p.states[0])
    ensures IsRun(p.states, p.steps)
  {
  }

  /** Along the trace no term is won twice, and clients ask for what fits. */
  ghost predicate Claims(p: Trace)
    requires Path(p)
  {
    forall i {:trigger p.steps[i]} :: 0 <= i < |p.steps| ==> TidyStep(p.steps[i]) && Unclaimed(p.states[i], p.steps[i])
  }

  lemma Extend(p: Trace, st: Step) returns (q: Trace)
    requires Path(p) && Enabled(End(p), st) && Breaks(End(p), st, Due(p, |p.steps|))
    ensures Later(p, q, 1) && End(q) == Do(End(p), st)
    ensures Claims(p) && TidyStep(st) && Unclaimed(End(p), st) ==> Claims(q)
  {
    q := p.(states := p.states + [Do(End(p), st)], steps := p.steps + [st]);
    forall i | 0 <= i < |q.steps|
      ensures Enabled(q.states[i], q.steps[i]) && q.states[i + 1] == Do(q.states[i], q.steps[i])
      ensures Breaks(q.states[i], q.steps[i], Due(q, i))
      ensures Claims(p) && TidyStep(st) && Unclaimed(End(p), st) ==>
                TidyStep(q.steps[i]) && Unclaimed(q.states[i], q.steps[i])
    {
      if i < |p.steps| {
        assert q.steps[i] == p.steps[i] && q.states[i] == p.states[i] && q.states[i + 1] == p.states[i + 1];
      }
    }
  }

  // ---------- Steps between arbitrary nodes ----------

  /** Node `k` has become `n'`, and nothing sent is lost. */
  ghost predicate Moved(s: System, s': System, k: nat, n': Node) {
    && k < |s.nodes| && s'.ids == s.ids && s'.nodes == s.nodes[k := n']
    && s'.reigns.Keys == s.reigns.Keys + (if n'.role == Leader then {n'.term} else {})
    && Keeps(s, s')
  }

  ghost predicate Keeps(s: System, s': System) {
    && s.voteRequests <= s'.voteRequests && s.voteResponses <= s'.voteResponses
    && s.appendRequests <= s'.appendRequests && s.appendResponses <= s'.appendResponses
  }

  lemma Take(p: Trace, st: Step, k: nat, ev: Event, n': Node) returns (q: Trace)
    requires Path(p) && Actor(st) == Some((k, ev)) && Enabled(End(p), st) && Breaks(End(p), st, Due(p, |p.steps|))
    requires n' == Handle(End(p).nodes[k], ev)
    ensures Later(p, q, 1) && End(q) == Do(End(p), st) && Moved(End(p), End(q), k, n')
    ensures Claims(p) && TidyStep(st) && Unclaimed(End(p), st) ==> Claims(q)
  {
    q := Extend(p, st);
    StepIsHandle(End(p), st);
    StepVoteMessages(End(p), st);
    StepAppendMessages(End(p), st);
  }

  ghost predicate Listed(s: System, k: nat, slot: nat, to: nat, n: Node) {
    k < |s.nodes| && s.nodes[k] == n && n.self < |n.cluster| && |n.log| >= 1 && Addresses(s, k, slot, to)
  }

  lemma TakeVoteAsked(p: Trace, k: nat, slot: nat, to: nat, n: Node) returns (q: Trace)
    requires Path(p) && Due(p, |p.steps|) == Nothing && Listed(End(p), k, slot, to, n) && n.role == Candidate
    ensures Later(p, q, 1) && End(q).nodes == End(p).nodes && End(q).ids == End(p).ids && Keeps(End(p), End(q))
    ensures VoteRequestMsg(k, slot, to, BuildVoteRequest(n)) in End(q).voteRequests
    ensures End(q).reigns == End(p).reigns && (Claims(p) ==> Claims(q))
  {
    q := Extend(p, SendVoteRequest(k, slot, to));
  }

  lemma TakeVoteJudged(p: Trace, m: VoteRequestMsg, n: Node, n': Node, rsp: VoteResponse) returns (q: Trace)
    requires Path(p) && Due(p, |p.steps|) == Nothing && m in End(p).voteRequests && m.to < |End(p).nodes|
    requires End(p).nodes[m.to] == n && WellFormed(n) && HandleVoteRequest(n, m.req) == (n', rsp)
    ensures Later(p, q, 1) && Moved(End(p), End(q), m.to, n') && (Claims(p) ==> Claims(q))
    ensures VoteResponseMsg(m.to, m.from, m.slot, m.req, rsp) in End(q).voteResponses
  {
    q := Take(p, DeliverVoteRequest(m), m.to, VoteRequestArrives(m.req), n');
  }

  lemma TakeTimeout(p: Trace, k: nat, n: Node, n': Node) returns (q: Trace)
    requires Path(p) && Due(p, |p.steps|) == Nothing && k < |End(p).nodes| && End(p).nodes[k] == n && WellFormed(n)
    requires !n.passive && n.role != Leader && n' == Timeout(n)
    ensures Later(p, q, 1) && Moved(End(p), End(q), k, n') && (Claims(p) ==> Claims(q))
  {
    q := Take(p, TimeoutStep(k), k, TimeoutFires, n');
  }

  lemma TakeAppendSent(p: Trace, k: nat, slot: nat, to: nat, n: Node, req: AppendRequest) returns (q: Trace)
    requires Path(p) && Due(p, |p.steps|) == Nothing && Listed(End(p), k, slot, to, n) && n.role == Leader
    requires 1 <= n.cluster[slot].nextIndex <= |n.log| && req == BuildAppendRequest(n, slot)
    requires EndsInTerm(req) && req.leaderCommit <= req.prevLogIndex + |req.entries|
    ensures Later(p, q, 1) && End(q).nodes == End(p).nodes && End(q).ids == End(p).ids && Keeps(End(p), End(q))
    ensures AppendRequestMsg(k, slot, to, req) in End(q).appendRequests
    ensures End(q).reigns == End(p).reigns && (Claims(p) ==> Claims(q))
  {
    q := Extend(p, SendAppendRequest(k, slot, to));
  }

  lemma TakeAppendJudged(p: Trace, m: AppendRequestMsg, n: Node, n': Node, rsp: AppendResponse) returns (q: Trace)
    requires Path(p) && Due(p, |p.steps|) == Nothing && m in End(p).appendRequests && m.to < |End(p).nodes|
    requires End(p).nodes[m.to] == n && WellFormed(n) && HandleAppendRequest(n, m.req) == (n', rsp)
    ensures Later(p, q, 1) && Moved(End(p), End(q), m.to, n') && (Claims(p) ==> Claims(q))
    ensures AppendResponseMsg(m.to, m.from, m.slot, m.req, rsp) in End(q).appendResponses
  {
    q := Take(p, DeliverAppendRequest(m), m.to, AppendRequestArrives(m.req), n');
  }

  lemma TakeAppendNoted(p: Trace, m: AppendResponseMsg, n: Node, n': Node) returns (q: Trace)
    requires Path(p) && Due(p, |p.steps|) == Nothing && m in End(p).appendResponses && m.leader < |End(p).nodes|
    requires End(p).nodes[m.leader] == n && WellFormed(n) && m.slot < |n.cluster| && n.term == m.req.term
    requires n' == HandleAppendResponse(n, m.slot, m.req, m.rsp)
    ensures Later(p, q, 1) && Moved(End(p), End(q), m.leader, n') && (Claims(p) ==> Claims(q))
  {
    q := Take(p, DeliverAppendResponse(m), m.leader, AppendResponseArrives(m.slot, m.req, m.rsp), n');
  }

  // ---------- Three nodes of one cluster ----------

  /** Three members with what is noted down about them: votes, next index, match index. */
  function Books(v: seq<nat>, next: seq<nat>, held: seq<nat>): seq<Member>
    requires |v| == |next| == |held| == 3
  {
    [Member(1, [], next[0], held[0], v[0]),
     Member(2, [], next[1], held[1], v[1]),
     Member(3, [], next[2], held[2], v[2])]
  }

  const FOUNDERS: seq<Member> := Books([0, 0, 0], [0, 0, 0], [0, 0, 0])

  function Peer(k: nat, term: nat, role: Role, log: seq<Entry>, v: seq<nat>, next: seq<nat>, held: seq<nat>,
                commit: nat, done: nat): Node
    requires |v| == |next| == |held| == 3
  {
    Node(k + 1, FOUNDERS, term, log, role, Books(v, next, held), k, commit, done, 0, false, [])
  }

  lemma PeerKnowsItself(n: Node, v: seq<nat>, next: seq<nat>, held: seq<nat>)
    requires n.self < 3 == |v| == |next| == |held| && n.cluster == Books(v, next, held)
    requires n.base == FOUNDERS && n.id == n.self + 1 && |n.log| >= 1
    ensures WellFormed(n)
  {
    assert n.base[n.self] in n.base && n.cluster[n.self] in n.cluster;
  }

  /** A node that has not led and holds no entry yet. */
  function Voter(k: nat, term: nat, role: Role, v: seq<nat>): Node
    requires |v| == 3
  {
    Peer(k, term, role, [SENTINEL], v, [0, 0, 0], [0, 0, 0], 0, 0)
  }

  lemma VoterKnowsItself(k: nat, term: nat, role: Role, v: seq<nat>)
    requires k < 3 == |v|
    ensures WellFormed(Voter(k, term, role, v))
  {
    PeerKnowsItself(Voter(k, term, role, v), v, [0, 0, 0], [0, 0, 0]);
  }

  ghost predicate TwoLeaders(s: System, p: nat, q: nat) {
    && p < q < |s.nodes| && s.nodes[p].role == s.nodes[q].role == Leader && s.nodes[p].term == s.nodes[q].term
  }

  /** The first three nodes are the three of the cluster. */
  ghost predicate Trio(s: System) {
    |s.ids| == |s.nodes| >= 3 && s.ids[0] == 1 && s.ids[1] == 2 && s.ids[2] == 3
  }

  function OwnVote(k: nat): seq<nat>
    requires k < 3
  {
    [0, 0, 0][k := k + 1]
  }

  // ---------- Elections among the three ----------

  lemma Campaign(p: Trace, k: nat, term: nat, role: Role, v: seq<nat>) returns (q: Trace)
    requires Path(p) && Due(p, |p.steps|) == Nothing && k < 3 == |v| && Trio(End(p)) && role != Leader
    requires End(p).nodes[k] == Voter(k, term, role, v)
    ensures Later(p, q, 1) && Moved(End(p), End(q), k, Voter(k, term + 1, Candidate, OwnVote(k)))
    ensures Claims(p) ==> Claims(q)
  {
    VoterKnowsItself(k, term, role, v);
    assert BallotReset(Voter(k, term, role, v)) == Books(OwnVote(k), [0, 0, 0], [0, 0, 0]);
    q := TakeTimeout(p, k, Voter(k, term, role, v), Voter(k, term + 1, Candidate, OwnVote(k)));
  }

  lemma AskForVote(p: Trace, k: nat, to: nat, term: nat, v: seq<nat>) returns (q: Trace)
    requires Path(p) && Due(p, |p.steps|) == Nothing && k < 3 == |v| && to < 3 && k != to && Trio(End(p))
    requires End(p).nodes[k] == Voter(k, term, Candidate, v)
    ensures Later(p, q, 1) && End(q).nodes == End(p).nodes && End(q).ids == End(p).ids && Keeps(End(p), End(q))
    ensures VoteRequestMsg(k, to, to, VoteRequest(term, k + 1, 0, 0)) in End(q).voteRequests
    ensures End(q).reigns == End(p).reigns && (Claims(p) ==> Claims(q))
  {
    q := TakeVoteAsked(p, k, to, to, Voter(k, term, Candidate, v));
  }

  /** Node `j` grants a vote to a request of a later term, or of its own if it has not voted. */
  lemma GiveVote(p: Trace, j: nat, term: nat, role: Role, v: seq<nat>, m: VoteRequestMsg) returns (q: Trace)
    requires Path(p) && Due(p, |p.steps|) == Nothing && j < 3 == |v| && Trio(End(p))
    requires End(p).nodes[j] == Voter(j, term, role, v) && m in End(p).voteRequests && m.to == j
    requires m.req.term > term || (m.req.term == term && role == Follower && v[j] == 0)
    requires m.req.lastLogIndex == 0 && m.req.lastLogTerm == 0
    ensures Later(p, q, 1) && Moved(End(p), End(q), j, Voter(j, m.req.term, Follower, v[j := m.req.candidate]))
    ensures VoteResponseMsg(j, m.from, m.slot, m.req, VoteResponse(m.req.term, true)) in End(q).voteResponses
    ensures Claims(p) ==> Claims(q)
  {
    VoterKnowsItself(j, term, role, v);
    VoteGiven(j, term, role, v, m.req);
    q := TakeVoteJudged(p, m, Voter(j, term, role, v), Voter(j, m.req.term, Follower, v[j := m.req.candidate]),
                        VoteResponse(m.req.term, true));
  }

  lemma VoteGiven(j: nat, term: nat, role: Role, v: seq<nat>, req: VoteRequest)
    requires j < 3 == |v| && (req.term > term || (req.term == term && role == Follower && v[j] == 0))
    requires req.lastLogIndex == 0 && req.lastLogTerm == 0
    ensures HandleVoteRequest(Voter(j, term, role, v), req) ==
            (Voter(j, req.term, Follower, v[j := req.candidate]), VoteResponse(req.term, true))
  {
    var u := UpdateTerm(Voter(j, term, role, v), req.term);
    assert u == Voter(j, req.term, Follower, v[j := 0]);
    assert SetVote(u, req.candidate) == Voter(j, req.term, Follower, v[j := req.candidate]);
  }

  lemma CountVote(p: Trace, k: nat, term: nat, v: seq<nat>, m: VoteResponseMsg) returns (q: Trace)
    requires Path(p) && k < 3 == |v| && Trio(End(p)) && End(p).nodes[k] == Voter(k, term, Candidate, v)
    requires m in End(p).voteResponses && m.candidate == k && m.slot < 3 && m.req.term <= term
    requires m.rsp == VoteResponse(m.req.term, true)
    requires Due(p, |p.steps|) == if m.req.term == term then Nothing else StaleMessage
    ensures Later(p, q, 1) && Moved(End(p), End(q), k, Voter(k, term, Candidate, v[m.slot := k + 1]))
    ensures Claims(p) ==> Claims(q)
  {
    VoterKnowsItself(k, term, Candidate, v);
    assert HandleVoteResponse(Voter(k, term, Candidate, v), m.slot, m.req, m.rsp) ==
           Voter(k, term, Candidate, v[m.slot := k + 1]);
    q := Take(p, DeliverVoteResponse(m), k, VoteResponseArrives(m.slot, m.req, m.rsp),
              Voter(k, term, Candidate, v[m.slot := k + 1]));
  }

  /** What a voter becomes when it wins. */
  function Winner(k: nat, term: nat, v: seq<nat>): Node
    requires |v| == 3
  {
    Peer(k, term, Leader, [SENTINEL, Entry(term, [])], v, [2, 2, 2], [0, 0, 0], 0, 0)
  }

  lemma Win(p: Trace, k: nat, term: nat, role: Role, v: seq<nat>, i: nat, j: nat) returns (q: Trace)
    requires Path(p) && k < 3 == |v| && Trio(End(p)) && End(p).nodes[k] == Voter(k, term, role, v)
    requires i < j < 3 && v[i] == v[j] == k + 1
    requires Due(p, |p.steps|) == if role == Candidate then Nothing else SplitDecision
    ensures Later(p, q, 1) && Moved(End(p), End(q), k, Winner(k, term, v))
    ensures Claims(p) && term !in End(p).reigns ==> Claims(q)
  {
    VoterKnowsItself(k, term, role, v);
    Won(k, term, role, v, i, j);
    q := Take(p, BecomeLeaderStep(k), k, TryBecomeLeader, Winner(k, term, v));
  }

  lemma Won(k: nat, term: nat, role: Role, v: seq<nat>, i: nat, j: nat)
    requires k < 3 == |v| && i < j < 3 && v[i] == v[j] == k + 1
    ensures BecomeLeader(Voter(k, term, role, v)) == Winner(k, term, v)
  {
    var n := Voter(k, term, role, v);
    assert {i, j} <= Voters(n);
    SubsetSize({i, j}, Voters(n));
    assert IndexReset(n) == Books(v, [2, 2, 2], [0, 0, 0]);
    assert n.log + [Entry(term, [])] == [SENTINEL, Entry(term, [])];
  }

  // ---------- One exchange of leader and follower ----------

  /** Leader `l` (node `k`) can send `req` to `f` (node `to`), which answers `rsp`, and note the answer. */
  ghost predicate Exchangeable(k: nat, to: nat, l: Node, f: Node, req: AppendRequest, f': Node, rsp: AppendResponse,
                               l': Node) {
    && k < 3 && to < 3 && k != to && WellFormed(l) && WellFormed(f) && l.role == Leader && l.term == req.term
    && l.self == k && |l.cluster| == 3 && l.cluster[to].id == to + 1 && 1 <= l.cluster[to].nextIndex <= |l.log|
    && req == BuildAppendRequest(l, to) && EndsInTerm(req) && req.leaderCommit <= req.prevLogIndex + |req.entries|
    && HandleAppendRequest(f, req) == (f', rsp) && l' == HandleAppendResponse(l, to, req, rsp)
  }

  lemma Exchange(p: Trace, k: nat, to: nat, l: Node, f: Node, req: AppendRequest, f': Node, rsp: AppendResponse,
                 l': Node) returns (q: Trace)
    requires Path(p) && Quiet(p, 3) && Trio(End(p)) && Exchangeable(k, to, l, f, req, f', rsp, l')
    requires End(p).nodes[k] == l && End(p).nodes[to] == f
    ensures Later(p, q, 3) && Trio(End(q)) && End(q).nodes == End(p).nodes[to := f'][k := l'] && Keeps(End(p), End(q))
  {
    q := TakeAppendSent(p, k, to, to, l, req);
    q := TakeAppendJudged(q, AppendRequestMsg(k, to, to, req), f, f', rsp);
    q := TakeAppendNoted(q, AppendResponseMsg(to, k, to, req, rsp), l, l');
  }

  // ---------- Openings ----------

  const R1 := VoteRequest(1, 1, 0, 0)
  const ASKED := VoteRequestMsg(0, 1, 1, R1)

  /** Node 1's vote of term 1 for node 0. */
  const FIRST_VOTE := VoteResponseMsg(1, 0, 1, R1, VoteResponse(1, true))

  ghost predicate Untouched(s: System) {
    Trio(s) && forall k :: 0 <= k < 3 ==> s.nodes[k] == Voter(k, 0, Follower, [0, 0, 0])
  }

  /** Node 0 campaigns, and node 1 votes for it; the answer is under way. */
  lemma Opening(s: System, at: nat, b: Breach) returns (p: Trace)
    requires Untouched(s) && at >= 3
    ensures Path(p) && |p.steps| == 3 && p.states[0] == s && p.at == at && p.breach == b && Claims(p)
    ensures Trio(End(p)) && End(p).nodes == s.nodes[0 := Voter(0, 1, Candidate, [1, 0, 0])]
                                                   [1 := Voter(1, 1, Follower, [0, 1, 0])]
    ensures FIRST_VOTE in End(p).voteResponses && End(p).reigns.Keys == s.reigns.Keys && End(p).ids == s.ids
  {
    p := Trace([s], [], at, b);
    p := Campaign(p, 0, 0, Follower, [0, 0, 0]);
    p := AskForVote(p, 0, 1, 1, [1, 0, 0]);
    p := GiveVote(p, 1, 0, Follower, [0, 0, 0], ASKED);
  }

  function Start(): System {
    System([1, 2, 3],
           [Voter(0, 0, Follower, [0, 0, 0]), Voter(1, 0, Follower, [0, 0, 0]), Voter(2, 0, Follower, [0, 0, 0])],
           {}, {}, {}, {}, map[], {}, {})
  }

  lemma VoterIsFresh(ids: seq<nat>, k: nat)
    requires k < 3 <= |ids| && ids[k] == k + 1
    ensures FreshNode(ids, Voter(k, 0, Follower, [0, 0, 0]), k)
  {
    VoterKnowsItself(k, 0, Follower, [0, 0, 0]);
  }

  lemma StartIsUntouched()
    ensures Untouched(Start())
  {
  }

  lemma StartIsInit()
    ensures Init(Start())
  {
    forall k | 0 <= k < 3 ensures FreshNode(Start().ids, Start().nodes[k], k) {
      VoterIsFresh(Start().ids, k);
    }
  }

  lemma StartIsOneCluster()
    ensures OneCluster(Start())
  {
    assert Names(Start().ids, FOUNDERS);
  }

  // ---------- A fourth node that is to join ----------

  /** It has founded a cluster of itself alone. */
  function Joiner(term: nat, role: Role, log: seq<Entry>, vote: nat, next: nat, passive: bool): Node {
    Node(4, [Member(4, [], 0, 0, 0)], term, log, role, [Member(4, [], next, 0, vote)], 0, 0, 0, 0, passive, [])
  }

  lemma JoinerKnowsItself(n: Node)
    requires n.id == 4 && n.self == 0 && |n.base| == |n.cluster| == 1 && n.base[0].id == n.cluster[0].id == 4
    requires |n.log| >= 1
    ensures WellFormed(n)
  {
    assert n.base[0] in n.base && n.cluster[0] in n.cluster;
  }

  function StartWithJoiner(): System {
    System([1, 2, 3, 4], Start().nodes + [Joiner(0, Follower, [SENTINEL], 0, 0, true)],
           {}, {}, {}, {}, map[], {}, {})
  }

  lemma JoinerIsFresh(ids: seq<nat>)
    requires |ids| == 4 && ids[3] == 4
    ensures FreshNode(ids, Joiner(0, Follower, [SENTINEL], 0, 0, true), 3)
  {
    JoinerKnowsItself(Joiner(0, Follower, [SENTINEL], 0, 0, true));
  }

  lemma StartWithJoinerIsUntouched()
    ensures Untouched(StartWithJoiner())
  {
  }

  lemma StartWithJoinerIsInit()
    ensures Init(StartWithJoiner())
  {
    var s := StartWithJoiner();
    forall k | 0 <= k < 4 ensures FreshNode(s.ids, s.nodes[k], k) {
      if k == 3 {
        JoinerIsFresh(s.ids);
      } else {
        VoterIsFresh(s.ids, k);
      }
    }
  }
}
