/** Election Safety. A node whose log is truncated forgets its own vote, so it may vote twice in one
    term; the invariant shows that its second vote can only go to the leader that truncated it. */
module ClusterVotes {
  import opened Types
  import opened Membership
  import opened Raft
  import opened NodeInvariants
  import opened Cluster
  import opened ClusterLog
  import opened ClusterLogRun
  import opened ClusterFixed

  // ---------- The invariant ----------

  /** A vote given in the current term is remembered, or the log ends in an entry of the term. */
  ghost predicate GrantOk(s: System, g: Grant) {
    && g.voter < |s.nodes| && g.candidate < |s.ids|
    && s.nodes[g.voter].self < |s.nodes[g.voter].cluster| && |s.nodes[g.voter].log| >= 1
    && s.nodes[g.voter].term >= g.term >= 1
    && (s.nodes[g.voter].term == g.term ==>
          Vote(s.nodes[g.voter]) == s.ids[g.candidate] || LastTerm(s.nodes[g.voter].log) == g.term)
  }

  ghost predicate GrantsOk(s: System) {
    forall g :: g in s.grants ==> GrantOk(s, g)
  }

  /** Until a term is won, every node has voted for one candidate of it at most. */
  ghost predicate OneGrant(s: System) {
    forall g, h :: g in s.grants && h in s.grants && g.term == h.term && g.voter == h.voter && g.term !in s.reigns ==>
      g.candidate == h.candidate
  }

  /** Once a term is won, those who elected its leader have voted for nobody else in it. */
  ghost predicate Loyal(s: System) {
    forall g :: g in s.grants && g.term in s.reigns && g.voter in s.reigns[g.term].voters ==>
      g.candidate == s.reigns[g.term].leader
  }

  ghost predicate Elected(s: System) {
    forall t, j :: t in s.reigns && j in s.reigns[t].voters ==> Grant(t, j, s.reigns[t].leader) in s.grants
  }

  ghost predicate CandidateOk(s: System, k: nat)
    requires k < |s.nodes|
  {
    var n := s.nodes[k];
    n.role == Candidate ==>
      && n.self < |n.cluster| && Vote(n) == n.id
      && forall i :: 0 <= i < |n.cluster| && n.cluster[i].votedFor == n.id ==> Grant(n.term, i, k) in s.grants
  }

  ghost predicate CandidatesOk(s: System) {
    forall k :: 0 <= k < |s.nodes| ==> CandidateOk(s, k)
  }

  ghost predicate VoteRequestOk(s: System, m: VoteRequestMsg) {
    && m.from < |s.nodes| && m.from < |s.ids| && m.to != m.from
    && m.req.candidate == s.ids[m.from]
    && s.nodes[m.from].term >= m.req.term >= 1
    && (m.req.lastLogTerm < m.req.term || (m.req.term in s.reigns && s.reigns[m.req.term].leader == m.from))
    && (s.nodes[m.from].role == Candidate && s.nodes[m.from].term == m.req.term ==>
          |s.nodes[m.from].log| >= 1 && m.req == BuildVoteRequest(s.nodes[m.from]))
  }

  ghost predicate VoteRequestsOk(s: System) {
    forall m :: m in s.voteRequests ==> VoteRequestOk(s, m)
  }

  ghost predicate VoteResponseOk(s: System, m: VoteResponseMsg) {
    && m.voter != m.candidate
    && (m.rsp.granted ==> m.rsp.term == m.req.term && Grant(m.req.term, m.voter, m.candidate) in s.grants)
  }

  ghost predicate VoteResponsesOk(s: System) {
    forall m :: m in s.voteResponses ==> VoteResponseOk(s, m)
  }

  ghost predicate BatchesOk(s: System) {
    forall m :: m in s.appendRequests ==> EndsInTerm(m.req)
  }

  ghost predicate VoteInv(s: System) {
    && GrantsOk(s) && OneGrant(s) && Loyal(s) && Elected(s)
    && CandidatesOk(s) && VoteRequestsOk(s) && VoteResponsesOk(s) && BatchesOk(s)
  }

  lemma VoteInvInit(s: System)
    requires Init(s)
    ensures VoteInv(s)
  {
  }

  // ---------- The heart of it ----------

  /** A quorum of voters for `k` meets the quorum that elected the term's leader, so `k` is that leader. */
  lemma VotersMeet(s: System, k: nat, term: nat, voters: set<nat>)
    requires ElectionsOk(s) && Loyal(s) && term in s.reigns
    requires voters <= Below(|s.ids|) && |voters| >= |s.ids| / 2 + 1
    requires forall j :: j in voters ==> Grant(term, j, k) in s.grants
    ensures s.reigns[term].leader == k
  {
    assert ElectedOk(s, term);
    var j := QuorumsMeet(s.reigns[term].voters, voters, |s.ids|);
    assert Grant(term, j, k) in s.grants;
  }

  /** A candidate with a majority of votes has a term nobody has won. */
  lemma WinnerIsFirst(s: System, k: nat)
    requires FixedInv(s) && VoteInv(s) && k < |s.nodes|
    requires s.nodes[k].role == Candidate && |Voters(s.nodes[k])| >= Quorum(s.nodes[k])
    ensures s.nodes[k].term !in s.reigns
  {
    var n := s.nodes[k];
    assert NodeShape(s.ids, n, k) && CandidateOk(s, k);
    if n.term in s.reigns {
      VotersMeet(s, k, n.term, Voters(n));
    }
  }

  /** A node that has voted in the current term votes again only for the same candidate, or for the term's leader. */
  lemma SecondVote(s: System, m: VoteRequestMsg, u: Node, g: Grant)
    requires FixedInv(s) && VoteInv(s) && m in s.voteRequests && m.to < |s.nodes|
    requires u == UpdateTerm(s.nodes[m.to], m.req.term) && s.nodes[m.to].self < |s.nodes[m.to].cluster|
    requires u.self < |u.cluster| && |u.log| >= 1 && Grants(u, m.req)
    requires g in s.grants && g.term == m.req.term && g.voter == m.to
    ensures g.candidate == m.from
            || (LastTerm(u.log) == g.term && g.term in s.reigns && s.reigns[g.term].leader == m.from)
  {
    assert GrantOk(s, g) && VoteRequestOk(s, m) && NodeLogOk(s.reigns, s.nodes[m.to], m.to);
    VotesAgain(s, m, u, g);
  }

  lemma VotesAgain(s: System, m: VoteRequestMsg, u: Node, g: Grant)
    requires GoodIds(s.ids) && GrantOk(s, g) && VoteRequestOk(s, m) && m.to < |s.nodes|
    requires Coherent(s.reigns, s.nodes[m.to].log) && s.nodes[m.to].self < |s.nodes[m.to].cluster|
    requires u == UpdateTerm(s.nodes[m.to], m.req.term) && u.self < |u.cluster| && |u.log| >= 1 && Grants(u, m.req)
    requires g.term == m.req.term && g.voter == m.to
    ensures g.candidate == m.from
            || (LastTerm(u.log) == g.term && g.term in s.reigns && s.reigns[g.term].leader == m.from)
  {
    assert u == s.nodes[m.to];
    if LastTerm(u.log) == g.term {
      assert FromReign(s.reigns, u.log, |u.log| - 1);
    }
  }

  // ---------- Steps that give no vote ----------

  /** The node's own vote of its term stays, unless its log now ends in an entry of the term. */
  ghost predicate KeepsVote(n: Node, n': Node) {
    && n.self < |n.cluster| && n'.self < |n'.cluster| && |n.log| >= 1 && |n'.log| >= 1
    && n'.term >= n.term
    && (n'.term == n.term ==>
          || LastTerm(n'.log) == n'.term
          || (Vote(n') == Vote(n) && LastTerm(n.log) != n.term))
    && (n'.role == Candidate ==>
          && n.role == Candidate && n'.term == n.term && n'.log == n.log && n'.id == n.id && n'.self == n.self
          && |n'.cluster| == |n.cluster|
          && forall i :: 0 <= i < |n.cluster| ==> n'.cluster[i].votedFor == n.cluster[i].votedFor)
  }

  /** Only the logs of reigns have grown. */
  ghost predicate SameElections(r: map<nat, Reign>, r': map<nat, Reign>) {
    Extends(r, r') && r'.Keys == r.Keys
  }

  ghost predicate SameVoteMessages(s: System, s': System) {
    s'.ids == s.ids && s'.voteRequests == s.voteRequests && s'.voteResponses == s.voteResponses && s'.grants == s.grants
  }

  lemma KeepsVoteStep(s: System, k: nat, n': Node, s': System)
    requires VoteInv(s) && k < |s.nodes| && KeepsVote(s.nodes[k], n')
    requires s'.nodes == s.nodes[k := n'] && SameElections(s.reigns, s'.reigns) && SameVoteMessages(s, s')
    requires BatchesOk(s')
    ensures VoteInv(s')
  {
    forall g | g in s'.grants ensures GrantOk(s', g) { assert GrantOk(s, g); }
    forall m | m in s'.voteRequests ensures VoteRequestOk(s', m) { assert VoteRequestOk(s, m); }
    forall m | m in s'.voteResponses ensures VoteResponseOk(s', m) { assert VoteResponseOk(s, m); }
    forall j | 0 <= j < |s'.nodes| ensures CandidateOk(s', j) { assert CandidateOk(s, j); }
    forall t, j | t in s'.reigns && j in s'.reigns[t].voters
      ensures Grant(t, j, s'.reigns[t].leader) in s'.grants
    {
      assert j in s.reigns[t].voters;
    }
  }

  lemma QuietVotes(s: System, k: nat, n': Node)
    requires VoteInv(s) && k < |s.nodes| && KeepsVote(s.nodes[k], n')
    ensures VoteInv(s.(nodes := s.nodes[k := n']))
  {
    ExtendsReflexive(s.reigns);
    KeepsVoteStep(s, k, n', s.(nodes := s.nodes[k := n']));
  }

  // ---------- Steps that give votes ----------

  /** A timeout starts a new term, in which the node has voted for nobody yet, and votes for itself. */
  lemma TimeoutVotes(s: System, k: nat, n': Node, s': System)
    requires Shape(s) && VoteInv(s) && k < |s.nodes|
    requires n'.term == s.nodes[k].term + 1 && n'.self == k && |n'.cluster| == |s.ids| && |n'.log| >= 1
    requires n'.id == s.ids[k]
    requires forall i :: 0 <= i < |n'.cluster| ==> n'.cluster[i].votedFor == if i == k then n'.id else 0
    requires s' == s.(nodes := s.nodes[k := n'], grants := s.grants + {Grant(n'.term, k, k)})
    ensures VoteInv(s')
  {
    var own := Grant(n'.term, k, k);
    forall g | g in s.grants ensures GrantOk(s', g) && !(g.term == own.term && g.voter == k) { assert GrantOk(s, g); }
    forall m | m in s'.voteRequests ensures VoteRequestOk(s', m) { assert VoteRequestOk(s, m); }
    forall m | m in s'.voteResponses ensures VoteResponseOk(s', m) { assert VoteResponseOk(s, m); }
    forall j | 0 <= j < |s'.nodes| ensures CandidateOk(s', j) { assert CandidateOk(s, j); }
    TimeoutGrants(s, own, s');
  }

  lemma TimeoutGrants(s: System, own: Grant, s': System)
    requires OneGrant(s) && Loyal(s) && Elected(s)
    requires forall g :: g in s.grants ==> !(g.term == own.term && g.voter == own.voter)
    requires s'.grants == s.grants + {own} && s'.reigns == s.reigns
    ensures OneGrant(s') && Loyal(s') && Elected(s')
  {
  }

  lemma SendVoteRequestVotes(s: System, k: nat, slot: nat, to: nat, s': System)
    requires FixedInv(s) && VoteInv(s)
    requires Enabled(s, SendVoteRequest(k, slot, to)) && Fresh(s, SendVoteRequest(k, slot, to))
    requires Routed(s, SendVoteRequest(k, slot, to))
    requires s' == Do(s, SendVoteRequest(k, slot, to))
    ensures VoteInv(s')
  {
    var n := s.nodes[k];
    var m := VoteRequestMsg(k, slot, to, BuildVoteRequest(n));
    assert NodeShape(s.ids, n, k) && NodeLogOk(s.reigns, n, k);
    SlotIsNode(s, k, slot, to);
    if n.role == Leader { assert ReignOk(s, n.term); }
    assert VoteRequestOk(s', m);
    forall g | g in s'.grants ensures GrantOk(s', g) { assert GrantOk(s, g); }
    forall r | r in s'.voteRequests ensures VoteRequestOk(s', r) { if r != m { assert VoteRequestOk(s, r); } }
    forall r | r in s'.voteResponses ensures VoteResponseOk(s', r) { assert VoteResponseOk(s, r); }
    forall j | 0 <= j < |s'.nodes| ensures CandidateOk(s', j) { assert CandidateOk(s, j); }
  }

  lemma GrantVotes(s: System, m: VoteRequestMsg, u: Node, n': Node, s': System)
    requires FixedInv(s) && VoteInv(s) && m in s.voteRequests && m.to < |s.nodes|
    requires s.nodes[m.to].self < |s.nodes[m.to].cluster| && u == UpdateTerm(s.nodes[m.to], m.req.term)
    requires u.self < |u.cluster| && |u.log| >= 1 && Grants(u, m.req) && n' == SetVote(u, m.req.candidate)
    requires s' == s.(nodes := s.nodes[m.to := n'],
                      voteResponses := s.voteResponses
                        + {VoteResponseMsg(m.to, m.from, m.slot, m.req, VoteResponse(u.term, true))},
                      grants := s.grants + {Grant(m.req.term, m.to, m.from)})
    ensures VoteInv(s')
  {
    forall g | g in s'.grants ensures GrantOk(s', g) { GrantAfterGrant(s, m, u, n', s', g); }
    GrantUnique(s, m, u, s');
    GrantCandidates(s, m, u, n', s');
    GrantRequests(s, m, u, n', s');
    forall r | r in s'.voteResponses ensures VoteResponseOk(s', r) {
      assert VoteRequestOk(s, m);
      if r in s.voteResponses { assert VoteResponseOk(s, r); }
    }
  }

  lemma GrantAfterGrant(s: System, m: VoteRequestMsg, u: Node, n': Node, s': System, g: Grant)
    requires FixedInv(s) && VoteInv(s) && m in s.voteRequests && m.to < |s.nodes|
    requires s.nodes[m.to].self < |s.nodes[m.to].cluster| && u == UpdateTerm(s.nodes[m.to], m.req.term)
    requires u.self < |u.cluster| && |u.log| >= 1 && Grants(u, m.req) && n' == SetVote(u, m.req.candidate)
    requires s'.ids == s.ids && s'.nodes == s.nodes[m.to := n']
    requires g in s.grants || g == Grant(m.req.term, m.to, m.from)
    ensures GrantOk(s', g)
  {
    assert VoteRequestOk(s, m);
    if g in s.grants {
      assert GrantOk(s, g);
      if g.term == m.req.term && g.voter == m.to { SecondVote(s, m, u, g); }
    }
  }

  lemma GrantUnique(s: System, m: VoteRequestMsg, u: Node, s': System)
    requires FixedInv(s) && VoteInv(s) && m in s.voteRequests && m.to < |s.nodes|
    requires s.nodes[m.to].self < |s.nodes[m.to].cluster| && u == UpdateTerm(s.nodes[m.to], m.req.term)
    requires u.self < |u.cluster| && |u.log| >= 1 && Grants(u, m.req)
    requires s'.reigns == s.reigns && s'.grants == s.grants + {Grant(m.req.term, m.to, m.from)}
    ensures OneGrant(s') && Loyal(s') && Elected(s')
  {
    var t := m.req.term;
    forall g | g in s.grants && g.term == t && g.voter == m.to && t !in s.reigns ensures g.candidate == m.from {
      SecondVote(s, m, u, g);
    }
    if t in s.reigns && m.to in s.reigns[t].voters {
      SecondVote(s, m, u, Grant(t, m.to, s.reigns[t].leader));
    }
    AddGrant(s, Grant(t, m.to, m.from), s');
  }

  lemma AddGrant(s: System, g: Grant, s': System)
    requires OneGrant(s) && Loyal(s) && Elected(s)
    requires g.term !in s.reigns ==>
               forall h :: h in s.grants && h.term == g.term && h.voter == g.voter ==> h.candidate == g.candidate
    requires g.term in s.reigns && g.voter in s.reigns[g.term].voters ==> s.reigns[g.term].leader == g.candidate
    requires s'.reigns == s.reigns && s'.grants == s.grants + {g}
    ensures OneGrant(s') && Loyal(s') && Elected(s')
  {
  }

  lemma GrantRequests(s: System, m: VoteRequestMsg, u: Node, n': Node, s': System)
    requires VoteRequestsOk(s) && m.to < |s.nodes|
    requires s.nodes[m.to].self < |s.nodes[m.to].cluster| && u == UpdateTerm(s.nodes[m.to], m.req.term)
    requires u.self < |u.cluster| && n' == SetVote(u, m.req.candidate)
    requires s'.ids == s.ids && s'.reigns == s.reigns && s'.nodes == s.nodes[m.to := n']
    requires s'.voteRequests == s.voteRequests
    ensures VoteRequestsOk(s')
  {
    forall r | r in s'.voteRequests ensures VoteRequestOk(s', r) { assert VoteRequestOk(s, r); }
  }

  lemma GrantCandidates(s: System, m: VoteRequestMsg, u: Node, n': Node, s': System)
    requires CandidatesOk(s) && VoteRequestsOk(s) && Shape(s) && m in s.voteRequests && m.to < |s.nodes|
    requires s.nodes[m.to].self < |s.nodes[m.to].cluster| && u == UpdateTerm(s.nodes[m.to], m.req.term)
    requires u.self < |u.cluster| && |u.log| >= 1 && Grants(u, m.req) && n' == SetVote(u, m.req.candidate)
    requires s'.nodes == s.nodes[m.to := n'] && s.grants <= s'.grants
    ensures CandidatesOk(s')
  {
    assert VoteRequestOk(s, m) && NodeShape(s.ids, s.nodes[m.to], m.to);
    forall j | 0 <= j < |s'.nodes| ensures CandidateOk(s', j) { assert CandidateOk(s, j); }
  }

  lemma DeliverVoteRequestVotes(s: System, m: VoteRequestMsg, s': System)
    requires FixedInv(s) && VoteInv(s) && Enabled(s, DeliverVoteRequest(m)) && s' == Do(s, DeliverVoteRequest(m))
    ensures VoteInv(s')
  {
    var n := s.nodes[m.to];
    var u := UpdateTerm(n, m.req.term);
    var (n', rsp) := HandleVoteRequest(n, m.req);
    VoteRequestQuiet(n, m.req);
    QuietSameBooks(s, m.to, n');
    if Grants(u, m.req) {
      GrantVotes(s, m, u, n', s');
    } else {
      var t := s.(nodes := s.nodes[m.to := n']);
      KeepsVoteStep(s, m.to, n', t);
      assert VoteRequestOk(s, m);
      AddVoteResponse(t, VoteResponseMsg(m.to, m.from, m.slot, m.req, rsp), s');
    }
  }

  lemma AddVoteResponse(s: System, m: VoteResponseMsg, s': System)
    requires VoteInv(s) && VoteResponseOk(s, m)
    requires s' == s.(voteResponses := s.voteResponses + {m})
    ensures VoteInv(s')
  {
    forall g | g in s'.grants ensures GrantOk(s', g) { assert GrantOk(s, g); }
    forall r | r in s'.voteRequests ensures VoteRequestOk(s', r) { assert VoteRequestOk(s, r); }
    forall r | r in s'.voteResponses ensures VoteResponseOk(s', r) { if r != m { assert VoteResponseOk(s, r); } }
    forall j | 0 <= j < |s'.nodes| ensures CandidateOk(s', j) { assert CandidateOk(s, j); }
  }

  // ---------- Counting a vote, and winning ----------

  lemma MarkVote(s: System, k: nat, peer: nat, n': Node, s': System)
    requires VoteInv(s) && k < |s.nodes| && s.nodes[k].self == k && k < |s.nodes[k].cluster|
    requires peer < |s.nodes[k].cluster| && peer != k && |s.nodes[k].log| >= 1
    requires Grant(s.nodes[k].term, peer, k) in s.grants
    requires var n := s.nodes[k]; n' == n.(cluster := n.cluster[peer := n.cluster[peer].(votedFor := n.id)])
    requires s' == s.(nodes := s.nodes[k := n'])
    ensures VoteInv(s')
  {
    forall g | g in s'.grants ensures GrantOk(s', g) { assert GrantOk(s, g); }
    forall r | r in s'.voteRequests ensures VoteRequestOk(s', r) { assert VoteRequestOk(s, r); }
    forall r | r in s'.voteResponses ensures VoteResponseOk(s', r) { assert VoteResponseOk(s, r); }
    forall j | 0 <= j < |s'.nodes| ensures CandidateOk(s', j) { assert CandidateOk(s, j); }
  }

  lemma DeliverVoteResponseVotes(s: System, m: VoteResponseMsg, s': System)
    requires FixedInv(s) && VoteInv(s) && Enabled(s, DeliverVoteResponse(m)) && Fresh(s, DeliverVoteResponse(m))
    requires s' == Do(s, DeliverVoteResponse(m))
    ensures VoteInv(s')
  {
    var k := m.candidate;
    var n := s.nodes[k];
    var n' := HandleVoteResponse(n, m.slot, m.req, m.rsp);
    VoteResponseQuiet(n, m.slot, m.req, m.rsp);
    QuietSameBooks(s, k, n');
    assert VoteResponseOk(s, m) && NodeShape(s.ids, n, k);
    if m.rsp.term <= n.term && m.rsp.term == m.req.term && m.rsp.granted {
      MarkVote(s, k, m.voter, n', s');
    } else {
      KeepsVoteStep(s, k, n', s');
    }
  }

  lemma WinVotes(s: System, k: nat, n': Node, s': System)
    requires VoteInv(s) && k < |s.nodes| && |s.nodes| == |s.ids| && s.nodes[k].role == Candidate
    requires s.nodes[k].term !in s.reigns
    requires |s.nodes[k].cluster| == |s.ids|
    requires n'.role == Leader && n'.term == s.nodes[k].term && n'.self == s.nodes[k].self
    requires n'.self < |n'.cluster| && |n'.log| >= 1 && LastTerm(n'.log) == n'.term
    requires s'.nodes == s.nodes[k := n'] && SameVoteMessages(s, s')
    requires s'.reigns == s.reigns[n'.term := Reign(k, Voters(s.nodes[k]), n'.log)]
    requires s'.appendRequests == s.appendRequests
    ensures VoteInv(s')
  {
    var n := s.nodes[k];
    assert CandidateOk(s, k);
    forall g | g in s'.grants ensures GrantOk(s', g) { assert GrantOk(s, g); }
    forall g | g in s'.grants && g.term == n.term && g.voter in Voters(n) ensures g.candidate == k {
      assert Grant(n.term, g.voter, k) in s.grants;
    }
    forall r | r in s'.voteRequests ensures VoteRequestOk(s', r) { assert VoteRequestOk(s, r); }
    forall r | r in s'.voteResponses ensures VoteResponseOk(s', r) { assert VoteResponseOk(s, r); }
    forall j | 0 <= j < |s'.nodes| ensures CandidateOk(s', j) { assert CandidateOk(s, j); }
  }

  lemma BecomeLeaderVotes(s: System, k: nat, s': System)
    requires FixedInv(s) && VoteInv(s) && Enabled(s, BecomeLeaderStep(k)) && Atomic(s, BecomeLeaderStep(k))
    requires s' == Do(s, BecomeLeaderStep(k))
    ensures VoteInv(s')
  {
    var n, n' := s.nodes[k], BecomeLeader(s.nodes[k]);
    assert NodeShape(s.ids, n, k);
    if |Voters(n)| < Quorum(n) {
      QuietSameBooks(s, k, n');
      KeepsVoteStep(s, k, n', s');
    } else {
      WinnerIsFirst(s, k);
      WinVotes(s, k, n', s');
    }
  }

  // ---------- Replication steps ----------

  lemma ClientVotes(s: System, k: nat, commands: seq<seq<byte>>, s': System)
    requires FixedInv(s) && VoteInv(s) && Enabled(s, ClientStep(k, commands)) && s' == Do(s, ClientStep(k, commands))
    ensures VoteInv(s')
  {
    var n, n' := s.nodes[k], ClientApply(s.nodes[k], commands);
    assert NodeShape(s.ids, n, k) && NodeLogOk(s.reigns, n, k);
    if n.role == Leader {
      assert ReignOk(s, n.term);
      ClientLastTerm(n, commands);
      ClientExtends(s, k, commands);
      ExtendingElections(s, k, n', s');
    } else {
      QuietSameBooks(s, k, n');
    }
    KeepsVoteStep(s, k, n', s');
  }

  lemma ExtendingElections(s: System, k: nat, n': Node, s': System)
    requires LogInv(s) && k < |s.nodes| && s.nodes[k].role == Leader && Extending(s, k, n') && s' == WithNode(s, k, n')
    ensures SameElections(s.reigns, s'.reigns)
  {
    ExtendingHistory(s, k, n');
    assert NodeLogOk(s.reigns, s.nodes[k], k);
  }

  lemma ClientLastTerm(n: Node, commands: seq<seq<byte>>)
    requires |n.log| >= 1 && n.role == Leader && LastTerm(n.log) == n.term
    ensures |ClientApply(n, commands).log| >= 1 && LastTerm(ClientApply(n, commands).log) == n.term
  {
    if |commands| > 0 {
      assert EntriesAt(n.term, commands)[|commands| - 1].term == n.term;
    }
  }

  lemma AddBatch(s: System, m: AppendRequestMsg, s': System)
    requires VoteInv(s) && EndsInTerm(m.req) && s' == s.(appendRequests := s.appendRequests + {m})
    ensures VoteInv(s')
  {
    forall g | g in s'.grants ensures GrantOk(s', g) { assert GrantOk(s, g); }
    forall r | r in s'.voteRequests ensures VoteRequestOk(s', r) { assert VoteRequestOk(s, r); }
    forall r | r in s'.voteResponses ensures VoteResponseOk(s', r) { assert VoteResponseOk(s, r); }
    forall j | 0 <= j < |s'.nodes| ensures CandidateOk(s', j) { assert CandidateOk(s, j); }
  }

  lemma SendAppendVotes(s: System, k: nat, slot: nat, to: nat, s': System)
    requires VoteInv(s) && Enabled(s, SendAppendRequest(k, slot, to)) && AmpleBatch(s, SendAppendRequest(k, slot, to))
    requires s' == Do(s, SendAppendRequest(k, slot, to))
    ensures VoteInv(s')
  {
    AddBatch(s, AppendRequestMsg(k, slot, to, BuildAppendRequest(s.nodes[k], slot)), s');
  }

  /** An ample batch that changes a log leaves it ending in the sender's term. */
  lemma SpliceLastTerm(log: seq<Entry>, req: AppendRequest)
    requires ValidPrevious(log, req) && |log| >= 1 && EndsInTerm(req)
    ensures var log' := Splice(log, req.prevLogIndex + 1, req.entries);
            log' == log || (|log'| >= 1 && LastTerm(log') == req.term)
    ensures Conflict(log, req.prevLogIndex + 1, req.entries) ==>
              var log' := Splice(log, req.prevLogIndex + 1, req.entries);
              |log'| >= 1 && LastTerm(log') == req.term
  {
  }

  lemma AcceptKeepsVote(n: Node, req: AppendRequest, w: Node, n': Node)
    requires n.self < |n.cluster| && |n.log| >= 1 && n.self < |n.base|
    requires w == Ready(n, req).(passive := false) && w.role == Follower && w.term == req.term
    requires Appended(w, req, n') && EndsInTerm(req)
    ensures KeepsVote(n, n')
  {
    ReadyQuiet(n, req);
    SpliceLastTerm(w.log, req);
  }

  lemma AcceptVotes(s: System, m: AppendRequestMsg, w: Node, n': Node, s': System)
    requires VoteInv(s) && m in s.appendRequests && m.to < |s.nodes|
    requires var n := s.nodes[m.to]; n.self < |n.cluster| && |n.log| >= 1 && n.self < |n.base|
    requires w == Ready(s.nodes[m.to], m.req).(passive := false) && w.role == Follower && w.term == m.req.term
    requires Appended(w, m.req, n')
    requires s'.nodes == s.nodes[m.to := n'] && s'.reigns == s.reigns && SameVoteMessages(s, s')
    requires s'.appendRequests == s.appendRequests
    ensures VoteInv(s')
  {
    AcceptKeepsVote(s.nodes[m.to], m.req, w, n');
    KeepsVoteStep(s, m.to, n', s');
  }

  lemma RejectVotes(s: System, m: AppendRequestMsg, n': Node, s': System)
    requires VoteInv(s) && m.to < |s.nodes|
    requires var n := s.nodes[m.to]; n.self < |n.cluster| && |n.log| >= 1
    requires var v := Ready(s.nodes[m.to], m.req); n' == v || n' == v.(passive := false)
    requires s'.nodes == s.nodes[m.to := n'] && s'.reigns == s.reigns && SameVoteMessages(s, s')
    requires s'.appendRequests == s.appendRequests
    ensures VoteInv(s')
  {
    ReadyQuiet(s.nodes[m.to], m.req);
    KeepsVoteStep(s, m.to, n', s');
  }

  lemma DeliverAppendVotes(s: System, m: AppendRequestMsg, s': System)
    requires FixedInv(s) && VoteInv(s) && Enabled(s, DeliverAppendRequest(m)) && s' == Do(s, DeliverAppendRequest(m))
    ensures VoteInv(s')
  {
    assert NodeShape(s.ids, s.nodes[m.to], m.to);
    if Accepts(s.nodes[m.to], m.req) {
      var w := Ready(s.nodes[m.to], m.req).(passive := false);
      var n' := AcceptFixed(s, m, w);
      AcceptVotes(s, m, w, n', s');
    } else {
      var n', rsp := DeliverAppendRejected(s, m);
      RejectVotes(s, m, n', s');
    }
  }

  lemma DeliverAppendResponseVotes(s: System, m: AppendResponseMsg, s': System)
    requires FixedInv(s) && VoteInv(s) && Enabled(s, DeliverAppendResponse(m)) && Fresh(s, DeliverAppendResponse(m))
    requires s' == Do(s, DeliverAppendResponse(m))
    ensures VoteInv(s')
  {
    var k := m.leader;
    var n, n' := s.nodes[k], HandleAppendResponse(s.nodes[k], m.slot, m.req, m.rsp);
    AppendResponseQuiet(n, m.slot, m.req, m.rsp);
    QuietHistory(s, k, n');
    StillInTerm(s, m);
    AppendResponseKeepsVote(n, m.slot, m.req, m.rsp);
    QuietVotes(s, k, n');
  }

  lemma StillInTerm(s: System, m: AppendResponseMsg)
    requires FixedInv(s) && m in s.appendResponses && m.leader < |s.nodes| && s.nodes[m.leader].term == m.req.term
    ensures s.nodes[m.leader].role != Candidate && |s.nodes[m.leader].log| >= 1
    ensures LastTerm(s.nodes[m.leader].log) == m.req.term
  {
    assert ResponseOk(s, m) && ReignOk(s, m.req.term);
  }

  /** The log of a node that has led its term ends in it, so nothing is said about its vote. */
  lemma AppendResponseKeepsVote(n: Node, slot: nat, req: AppendRequest, rsp: AppendResponse)
    requires n.self < |n.cluster| && slot < |n.cluster| && |n.log| >= 1
    requires n.role != Candidate && LastTerm(n.log) == n.term
    ensures KeepsVote(n, HandleAppendResponse(n, slot, req, rsp))
  {
  }

  // ---------- Restarts ----------

  /** A restart that forgets no vote changes nothing about the votes of the term. */
  lemma RestartVotes(s: System, k: nat, how: Restarting, s': System)
    requires FixedInv(s) && VoteInv(s) && Enabled(s, RestartStep(k, how)) && VoteKept(s, RestartStep(k, how))
    requires s' == Do(s, RestartStep(k, how))
    ensures VoteInv(s')
  {
    var n := s.nodes[k];
    assert NodeShape(s.ids, n, k);
    RestartKeepsVote(n, how);
    QuietHistory(s, k, Restart(n, how));
    QuietVotes(s, k, Restart(n, how));
  }

  lemma RestartKeepsVote(n: Node, how: Restarting)
    requires WellFormed(n) && n.base[IndexOf(n.base, n.id)].votedFor == 0
    requires Vote(n) == 0 || LastTerm(n.log) == n.term
    ensures KeepsVote(n, Restart(n, how))
  {
    RestartForgetsVote(n, how);
  }

  lemma WinnersAreFirst(s: System, st: Step)
    requires FixedInv(s) && VoteInv(s) && Enabled(s, st) && Atomic(s, st)
    ensures Unclaimed(s, st)
  {
    if st.BecomeLeaderStep? && |Voters(s.nodes[st.node])| >= Quorum(s.nodes[st.node]) {
      WinnerIsFirst(s, st.node);
    }
  }

  ghost predicate Election(st: Step) {
    st.TimeoutStep? || st.SendVoteRequest? || st.DeliverVoteRequest? || st.DeliverVoteResponse? || st.BecomeLeaderStep?
  }

  lemma ElectionStepVotes(s: System, st: Step, s': System)
    requires FixedInv(s) && VoteInv(s) && Enabled(s, st) && Election(st) && s' == Do(s, st)
    requires Atomic(s, st) && Fresh(s, st) && Routed(s, st)
    ensures VoteInv(s')
  {
    match st {
      case TimeoutStep(k) =>
        assert NodeShape(s.ids, s.nodes[k], k);
        TimeoutVotes(s, k, Timeout(s.nodes[k]), s');
      case SendVoteRequest(k, slot, to) => SendVoteRequestVotes(s, k, slot, to, s');
      case DeliverVoteRequest(m) => DeliverVoteRequestVotes(s, m, s');
      case DeliverVoteResponse(m) => DeliverVoteResponseVotes(s, m, s');
      case BecomeLeaderStep(k) => BecomeLeaderVotes(s, k, s');
    }
  }

  /** Every step keeps the vote invariant, and no term is ever won twice. */
  lemma VoteInvStep(s: System, st: Step)
    requires FixedInv(s) && VoteInv(s) && Enabled(s, st)
    requires Atomic(s, st) && Fresh(s, st) && Routed(s, st) && Fixed(st) && VoteKept(s, st) && AmpleBatch(s, st)
    ensures Unclaimed(s, st)
    ensures VoteInv(Do(s, st))
  {
    WinnersAreFirst(s, st);
    var s' := Do(s, st);
    match st {
      case ClientStep(k, commands) => ClientVotes(s, k, commands, s');
      case SendAppendRequest(k, slot, to) => SendAppendVotes(s, k, slot, to, s');
      case DeliverAppendRequest(m) => DeliverAppendVotes(s, m, s');
      case DeliverAppendResponse(m) => DeliverAppendResponseVotes(s, m, s');
      case CommitStep(k) => CommitVotes(s, k, s');
      case RestartStep(k, how) => RestartVotes(s, k, how, s');
      case AddServerStep(_, _, _) => assert false;
      case _ => ElectionStepVotes(s, st, s');
    }
  }

  lemma CommitVotes(s: System, k: nat, s': System)
    requires FixedInv(s) && VoteInv(s) && Enabled(s, CommitStep(k)) && s' == Do(s, CommitStep(k))
    ensures VoteInv(s')
  {
    CommitQuiet(s.nodes[k]);
    QuietSameBooks(s, k, AdvanceCommit(s.nodes[k]));
    KeepsVoteStep(s, k, AdvanceCommit(s.nodes[k]), s');
  }
}
