/** Runs that show what the original gives up where a hypothesis of the theorems fails. Each breaks one
    hypothesis, in one step: four end with two leaders of one term, one with a committed entry gone. One more
    (`CutOffVotePanics`) breaks none of those of a growing cluster, and ends where the original panics. */
module Counterexamples {
  import opened Types
  import opened Membership
  import opened OrderStatistic
  import opened Raft
  import opened NodeMembership
  import opened Cluster
  import opened ClusterMembership
  import opened ClusterNoPanic
  import opened Traces

  const R2 := VoteRequest(2, 3, 0, 0)

  // ---------- A stale vote ----------

  /** Node 0 campaigns again; node 1's vote of term 1 reaches it in term 2 and makes it leader. */
  lemma FirstLeader() returns (p: Trace)
    ensures Path(p) && p.at == 4 && p.breach == StaleMessage && |p.steps| == 6 && p.states[0] == Start()
    ensures Trio(End(p)) && End(p).nodes == Start().nodes[0 := Winner(0, 2, [1, 1, 0])]
                                                         [1 := Voter(1, 1, Follower, [0, 1, 0])]
  {
    StartIsUntouched();
    p := Opening(Start(), 4, StaleMessage);
    p := Campaign(p, 0, 1, Candidate, [1, 0, 0]);
    p := CountVote(p, 0, 2, [1, 0, 0], FIRST_VOTE);
    p := Win(p, 0, 2, Candidate, [1, 1, 0], 0, 1);
  }

  /** Node 2 campaigns twice and gets node 1's vote of term 2. */
  lemma SecondVote(p: Trace) returns (q: Trace)
    requires Path(p) && Quiet(p, 4) && Trio(End(p))
    requires End(p).nodes[1] == Voter(1, 1, Follower, [0, 1, 0])
    requires End(p).nodes[2] == Voter(2, 0, Follower, [0, 0, 0])
    ensures Later(p, q, 4) && Trio(End(q)) && |End(q).nodes| == |End(p).nodes| && End(q).nodes[0] == End(p).nodes[0]
    ensures End(q).nodes[1] == Voter(1, 2, Follower, [0, 3, 0])
    ensures End(q).nodes[2] == Voter(2, 2, Candidate, [0, 0, 3])
    ensures VoteResponseMsg(1, 2, 1, R2, VoteResponse(2, true)) in End(q).voteResponses
    ensures Keeps(End(p), End(q))
  {
    q := Campaign(p, 2, 0, Follower, [0, 0, 0]);
    q := Campaign(q, 2, 1, Candidate, [0, 0, 3]);
    q := AskForVote(q, 2, 1, 2, [0, 0, 3]);
    q := GiveVote(q, 1, 1, Follower, [0, 1, 0], VoteRequestMsg(2, 1, 1, R2));
  }

  /** Then it leads. */
  lemma SecondLeader(p: Trace) returns (q: Trace)
    requires Path(p) && Quiet(p, 6) && Trio(End(p))
    requires End(p).nodes[1] == Voter(1, 1, Follower, [0, 1, 0])
    requires End(p).nodes[2] == Voter(2, 0, Follower, [0, 0, 0])
    ensures Later(p, q, 6) && Trio(End(q)) && |End(q).nodes| == |End(p).nodes| && End(q).nodes[0] == End(p).nodes[0]
    ensures End(q).nodes[1] == Voter(1, 2, Follower, [0, 3, 0]) && End(q).nodes[2] == Winner(2, 2, [0, 3, 3])
    ensures Keeps(End(p), End(q))
  {
    q := SecondVote(p);
    q := CountVote(q, 2, 2, [0, 0, 3], VoteResponseMsg(1, 2, 1, R2, VoteResponse(2, true)));
    q := Win(q, 2, 2, Candidate, [0, 3, 3], 1, 2);
  }

  /** Freshness cannot be dropped: here one step is not fresh, a vote of an earlier term that is counted. */
  lemma StaleVoteElectsTwice() returns (p: Trace)
    ensures Path(p) && p.at == 4 && p.breach == StaleMessage && |p.steps| == 12
    ensures IsRun(p.states, p.steps) && OneCluster(p.states[0]) && TwoLeaders(End(p), 0, 2)
  {
    StartIsInit();
    StartIsOneCluster();
    p := FirstLeader();
    p := SecondLeader(p);
    PathIsRun(p);
  }

  // ---------- A split decision ----------

  /** Node 0 collects both votes of term 1, but does not get to look at them. */
  lemma VotesCollected() returns (p: Trace)
    ensures Path(p) && p.at == 10 && p.breach == SplitDecision && |p.steps| == 7 && p.states[0] == Start()
    ensures Trio(End(p)) && |End(p).nodes| == 3 && End(p).nodes[0] == Voter(0, 1, Candidate, [1, 1, 1])
    ensures End(p).nodes[2] == Voter(2, 1, Follower, [0, 0, 1])
  {
    StartIsUntouched();
    p := Opening(Start(), 10, SplitDecision);
    p := AskForVote(p, 0, 2, 1, [1, 0, 0]);
    p := GiveVote(p, 2, 0, Follower, [0, 0, 0], VoteRequestMsg(0, 2, 2, R1));
    p := CountVote(p, 0, 1, [1, 0, 0], FIRST_VOTE);
    p := CountVote(p, 0, 1, [1, 1, 0], VoteResponseMsg(2, 0, 2, R1, VoteResponse(1, true)));
  }

  /** Node 2 campaigns in term 2 and gets the vote of node 0, whose loop still takes itself for a candidate. */
  lemma LateDecision(p: Trace) returns (q: Trace)
    requires Path(p) && p.at == 10 && p.breach == SplitDecision && |p.steps| == 7 && Trio(End(p))
    requires |End(p).nodes| == 3 && End(p).nodes[0] == Voter(0, 1, Candidate, [1, 1, 1])
    requires End(p).nodes[2] == Voter(2, 1, Follower, [0, 0, 1])
    ensures Later(p, q, 6) && TwoLeaders(End(q), 0, 2)
  {
    q := Campaign(p, 2, 1, Follower, [0, 0, 1]);
    q := AskForVote(q, 2, 0, 2, [0, 0, 3]);
    q := GiveVote(q, 0, 1, Candidate, [1, 1, 1], VoteRequestMsg(2, 0, 0, R2));
    q := Win(q, 0, 2, Follower, [3, 1, 1], 1, 2);
    q := CountVote(q, 2, 2, [0, 0, 3], VoteResponseMsg(0, 2, 0, R2, VoteResponse(2, true)));
    q := Win(q, 2, 2, Candidate, [3, 0, 3], 0, 2);
  }

  /** Nor can atomicity: here one step is not atomic, a `becomeLeader` that the loop selected before the
      node became a follower of term 2, and the votes it counts are those of term 1. */
  lemma SplitDecisionElectsTwice() returns (p: Trace)
    ensures Path(p) && p.at == 10 && p.breach == SplitDecision && |p.steps| == 13
    ensures IsRun(p.states, p.steps) && OneCluster(p.states[0]) && TwoLeaders(End(p), 0, 2)
  {
    StartIsInit();
    StartIsOneCluster();
    p := VotesCollected();
    p := LateDecision(p);
    PathIsRun(p);
  }

  // ---------- A forgotten vote ----------

  lemma VoterRestarted(k: nat, term: nat, v: seq<nat>)
    requires k < 3 == |v|
    ensures WellFormed(Voter(k, term, Follower, v))
    ensures Restart(Voter(k, term, Follower, v), NewProcess(false)) == Voter(k, term, Follower, [0, 0, 0])
  {
    VoterKnowsItself(k, term, Follower, v);
    var n := Voter(k, term, Follower, v);
    MergeNoConfig(n.base, n.log, 0, n.id, 0);
    RebuildNamesSelf(n, n.log, 0);
    IndexAtSelf(n.base, k);
  }

  lemma IndexAtSelf(ms: seq<Member>, k: nat)
    requires ms == FOUNDERS && k < 3
    ensures k + 1 in Ids(ms) && IndexOf(ms, k + 1) == k
  {
    assert ms[k] in ms;
  }

  /** Node 1 votes for node 0, restarts, and votes for node 2, all in term 1. */
  lemma VotesTwice() returns (p: Trace)
    ensures Path(p) && p.at == 3 && p.breach == ForgottenVote && |p.steps| == 7 && p.states[0] == Start()
    ensures Trio(End(p)) && |End(p).nodes| == 3 && End(p).nodes[0] == Voter(0, 1, Candidate, [1, 0, 0])
    ensures End(p).nodes[2] == Voter(2, 1, Candidate, [0, 0, 3])
    ensures FIRST_VOTE in End(p).voteResponses
    ensures VoteResponseMsg(1, 2, 1, VoteRequest(1, 3, 0, 0), VoteResponse(1, true)) in End(p).voteResponses
  {
    StartIsUntouched();
    p := Opening(Start(), 3, ForgottenVote);
    VoterRestarted(1, 1, [0, 1, 0]);
    p := Take(p, RestartStep(1, NewProcess(false)), 1, Restarts(NewProcess(false)), Voter(1, 1, Follower, [0, 0, 0]));
    p := Campaign(p, 2, 0, Follower, [0, 0, 0]);
    p := AskForVote(p, 2, 1, 1, [0, 0, 3]);
    p := GiveVote(p, 1, 1, Follower, [0, 0, 0], VoteRequestMsg(2, 1, 1, VoteRequest(1, 3, 0, 0)));
  }

  /** Nor can it be dropped that a restart keeps a vote that counts. */
  lemma ForgottenVoteElectsTwice() returns (p: Trace)
    ensures Path(p) && p.at == 3 && p.breach == ForgottenVote && |p.steps| == 11
    ensures IsRun(p.states, p.steps) && OneCluster(p.states[0]) && TwoLeaders(End(p), 0, 2)
  {
    StartIsInit();
    StartIsOneCluster();
    p := VotesTwice();
    p := CountVote(p, 0, 1, [1, 0, 0], FIRST_VOTE);
    p := Win(p, 0, 1, Candidate, [1, 1, 0], 0, 1);
    p := CountVote(p, 2, 1, [0, 0, 3], VoteResponseMsg(1, 2, 1, VoteRequest(1, 3, 0, 0), VoteResponse(1, true)));
    p := Win(p, 2, 1, Candidate, [0, 3, 3], 1, 2);
    PathIsRun(p);
  }

  // ---------- An addition ----------

  const TERM1 := Entry(1, [])
  const VOTES1: seq<nat> := [1, 1, 0]

  /** Node 0 of term 1, after it has led and added the fourth node. */
  function Adder(term: nat, role: Role, v: seq<nat>, vote3: nat, next2: nat, config: Entry): Node
    requires |v| == 3
  {
    Node(1, FOUNDERS, term, [SENTINEL, TERM1, config], role,
         Books(v, [2, 2, next2], [0, 0, 0]) + [Member(4, [], 3, 0, vote3)], 0, 0, 0, if role == Leader then 2 else 0,
         false, [])
  }

  lemma AdderKnowsItself(n: Node)
    requires n.id == 1 && n.self == 0 && n.base == FOUNDERS && |n.cluster| >= 1 && n.cluster[0].id == 1 && |n.log| >= 1
    ensures WellFormed(n)
  {
    assert n.base[0] in n.base && n.cluster[0] in n.cluster;
  }

  lemma Added4() returns (config: Entry)
    ensures WellFormed(Winner(0, 1, VOTES1)) && config.term == 1
    ensures AddServer(Winner(0, 1, VOTES1), 4, []) == Adder(1, Leader, VOTES1, 0, 2, config)
  {
    var n := Winner(0, 1, VOTES1);
    PeerKnowsItself(n, VOTES1, [2, 2, 2], [0, 0, 0]);
    Outcome4(n);
    AdditionAddsOne(n, 4, []);
    var n' := AddServer(n, 4, []);
    config := n'.log[2];
    assert n'.log[..2] == n.log;
    assert n'.log == [SENTINEL, TERM1, config];
  }

  lemma Outcome4(n: Node)
    requires n == Winner(0, 1, VOTES1)
    ensures AddOutcomeOf(n, 4, []) == AddOutcome.Added
    ensures forall m :: m in n.cluster ==> m.id < TWO_64
  {
    assert forall m :: m in n.cluster ==> m.id < 4;
    SizeWithoutAddresses(WithNewcomer(n, 4, []));
  }

  lemma {:induction false} SizeWithoutAddresses(ms: seq<Member>)
    requires forall i :: 0 <= i < |ms| ==> ms[i].address == []
    ensures EncodedSize(ms) == 9 * |ms|
  {
    if ms != [] {
      SizeWithoutAddresses(ms[1..]);
    }
  }

  /** Node 0 of term 1 has added the fourth node, which does not know yet. */
  ghost predicate Grown(s: System, config: Entry) {
    && s.ids == [1, 2, 3, 4] && |s.nodes| == 4 && Trio(s) && config.term == 1 && s.reigns.Keys == {1}
    && s.nodes[0] == Adder(1, Leader, VOTES1, 0, 2, config) && s.nodes[1] == Voter(1, 1, Follower, [0, 1, 0])
    && s.nodes[2] == Voter(2, 0, Follower, [0, 0, 0])
    && s.nodes[3] == Joiner(0, Follower, [SENTINEL], 0, 0, true)
  }

  lemma WinsFirst() returns (p: Trace)
    ensures Path(p) && p.at == 5 && p.breach == Addition && |p.steps| == 5 && p.states[0] == StartWithJoiner()
    ensures Claims(p) && Trio(End(p)) && End(p).ids == [1, 2, 3, 4] && End(p).reigns.Keys == {1}
    ensures |End(p).nodes| == 4 && End(p).nodes[0] == Winner(0, 1, VOTES1)
    ensures forall k :: 1 <= k < 4 ==>
              End(p).nodes[k] == if k == 1 then Voter(1, 1, Follower, [0, 1, 0]) else StartWithJoiner().nodes[k]
  {
    StartWithJoinerIsUntouched();
    p := Opening(StartWithJoiner(), 5, Addition);
    p := CountVote(p, 0, 1, [1, 0, 0], FIRST_VOTE);
    p := Win(p, 0, 1, Candidate, VOTES1, 0, 1);
  }

  lemma AddsFourth() returns (p: Trace, config: Entry)
    ensures Path(p) && p.at == 5 && p.breach == Addition && |p.steps| == 6 && p.states[0] == StartWithJoiner()
    ensures Claims(p) && Grown(End(p), config)
  {
    p := WinsFirst();
    config := Added4();
    p := Take(p, AddServerStep(0, 4, []), 0, ServerAddition(4, []), Adder(1, Leader, VOTES1, 0, 2, config));
  }

  /** The first request reaches the newcomer, which refuses it, but from then on counts itself in. */
  lemma Awakened(config: Entry)
    requires config.term == 1
    ensures BuildAppendRequest(Adder(1, Leader, VOTES1, 0, 2, config), 3) == AppendRequest(1, 1, 2, 1, [], 0)
    ensures WellFormed(Joiner(0, Follower, [SENTINEL], 0, 0, true))
    ensures HandleAppendRequest(Joiner(0, Follower, [SENTINEL], 0, 0, true), AppendRequest(1, 1, 2, 1, [], 0)) ==
            (Joiner(1, Follower, [SENTINEL], 0, 0, false), AppendResponse(1, false))
  {
    JoinerKnowsItself(Joiner(0, Follower, [SENTINEL], 0, 0, true));
    assert Ready(Joiner(0, Follower, [SENTINEL], 0, 0, true), AppendRequest(1, 1, 2, 1, [], 0)) ==
           Joiner(1, Follower, [SENTINEL], 0, 0, true);
  }

  lemma LeadsItself()
    ensures Timeout(Joiner(1, Follower, [SENTINEL], 0, 0, false)) == Joiner(2, Candidate, [SENTINEL], 4, 0, false)
    ensures BecomeLeader(Joiner(2, Candidate, [SENTINEL], 4, 0, false)) ==
            Joiner(2, Leader, [SENTINEL, Entry(2, [])], 4, 2, false)
  {
    assert BallotReset(Joiner(1, Follower, [SENTINEL], 0, 0, false)) == [Member(4, [], 0, 0, 4)];
    var n := Joiner(2, Candidate, [SENTINEL], 4, 0, false);
    assert Voters(n) == {0 as nat};
    assert IndexReset(n) == [Member(4, [], 2, 0, 4)];
    assert n.log + [Entry(2, [])] == [SENTINEL, Entry(2, [])];
  }

  /** The first three nodes are as they were, and node 3 is `n`. */
  ghost predicate NewcomerIs(s: System, s': System, n: Node) {
    Trio(s') && |s.nodes| == |s'.nodes| == 4 && s'.nodes[3] == n && forall k :: 0 <= k < 3 ==> s'.nodes[k] == s.nodes[k]
  }

  lemma NewcomerWakes(p: Trace, config: Entry) returns (q: Trace)
    requires Path(p) && p.at == 5 && |p.steps| == 6 && Grown(End(p), config)
    ensures Later(p, q, 2) && NewcomerIs(End(p), End(q), Joiner(1, Follower, [SENTINEL], 0, 0, false))
  {
    Awakened(config);
    var req := AppendRequest(1, 1, 2, 1, [], 0);
    q := TakeAppendSent(p, 0, 3, 3, Adder(1, Leader, VOTES1, 0, 2, config), req);
    q := TakeAppendJudged(q, AppendRequestMsg(0, 3, 3, req), Joiner(0, Follower, [SENTINEL], 0, 0, true),
                          Joiner(1, Follower, [SENTINEL], 0, 0, false), AppendResponse(1, false));
  }

  lemma NewcomerLeads(p: Trace) returns (q: Trace)
    requires Path(p) && p.at == 5 && |p.steps| == 8 && Trio(End(p)) && |End(p).nodes| == 4
    requires End(p).nodes[3] == Joiner(1, Follower, [SENTINEL], 0, 0, false)
    ensures Later(p, q, 2)
    ensures NewcomerIs(End(p), End(q), Joiner(2, Leader, [SENTINEL, Entry(2, [])], 4, 2, false))
  {
    LeadsItself();
    JoinerKnowsItself(Joiner(1, Follower, [SENTINEL], 0, 0, false));
    q := TakeTimeout(p, 3, Joiner(1, Follower, [SENTINEL], 0, 0, false), Joiner(2, Candidate, [SENTINEL], 4, 0, false));
    JoinerKnowsItself(Joiner(2, Candidate, [SENTINEL], 4, 0, false));
    q := Take(q, BecomeLeaderStep(3), 3, TryBecomeLeader, Joiner(2, Leader, [SENTINEL, Entry(2, [])], 4, 2, false));
  }

  lemma FounderLeads(p: Trace) returns (q: Trace)
    requires Path(p) && p.at == 5 && |p.steps| == 10 && Trio(End(p))
    requires End(p).nodes[1] == Voter(1, 1, Follower, [0, 1, 0])
    requires End(p).nodes[2] == Voter(2, 0, Follower, [0, 0, 0])
    ensures Later(p, q, 5) && |End(q).nodes| == |End(p).nodes| && End(q).nodes[1] == Winner(1, 2, [0, 2, 2])
    ensures forall k :: 3 <= k < |End(p).nodes| ==> End(q).nodes[k] == End(p).nodes[k]
  {
    var req := VoteRequest(2, 2, 0, 0);
    q := Campaign(p, 1, 1, Follower, [0, 1, 0]);
    q := AskForVote(q, 1, 2, 2, [0, 2, 0]);
    q := GiveVote(q, 2, 0, Follower, [0, 0, 0], VoteRequestMsg(1, 2, 2, req));
    q := CountVote(q, 1, 2, [0, 2, 0], VoteResponseMsg(2, 1, 2, req, VoteResponse(2, true)));
    q := Win(q, 1, 2, Candidate, [0, 2, 2], 1, 2);
  }

  /** Nor can it be dropped that nobody is added: a newcomer lists only itself until it holds the entry that
      adds it, but is woken by the first request, accepted or not, and then is a majority of its own. */
  lemma AdditionElectsTwice() returns (p: Trace)
    ensures Path(p) && p.at == 5 && p.breach == Addition && |p.steps| == 15
    ensures IsRun(p.states, p.steps) && TwoLeaders(End(p), 1, 3)
  {
    StartWithJoinerIsInit();
    var config;
    p, config := AddsFourth();
    p := NewcomerWakes(p, config);
    p := NewcomerLeads(p);
    p := FounderLeads(p);
    PathIsRun(p);
  }

  // ---------- A vote from a member that was cut off ----------

  lemma Deposed(config: Entry)
    requires config.term == 1
    ensures HandleVoteRequest(Adder(1, Leader, VOTES1, 0, 2, config), R2) ==
            (Adder(2, Follower, [0, 1, 0], 0, 2, config), VoteResponse(2, false))
    ensures Timeout(Adder(2, Follower, [0, 1, 0], 0, 2, config)) == Adder(3, Candidate, [1, 0, 0], 0, 2, config)
  {
    assert UpdateTerm(Adder(1, Leader, VOTES1, 0, 2, config), 2) == Adder(2, Follower, [0, 1, 0], 0, 2, config);
    assert BallotReset(Adder(2, Follower, [0, 1, 0], 0, 2, config)) ==
           Books([1, 0, 0], [2, 2, 2], [0, 0, 0]) + [Member(4, [], 3, 0, 0)];
  }

  /** Node 2 makes node 0 step down, without getting its vote; node 0 campaigns in term 3. */
  lemma AdderCampaigns(p: Trace, config: Entry) returns (q: Trace)
    requires Path(p) && p.at == 5 && |p.steps| == 6 && Grown(End(p), config) && Claims(p)
    ensures Later(p, q, 5) && Claims(q) && Trio(End(q)) && End(q).ids == [1, 2, 3, 4] && |End(q).nodes| == 4
    ensures End(q).reigns.Keys == {1} && End(q).nodes[0] == Adder(3, Candidate, [1, 0, 0], 0, 2, config)
    ensures End(q).nodes[1] == End(p).nodes[1] && End(q).nodes[2] == Voter(2, 2, Candidate, [0, 0, 3])
    ensures End(q).nodes[3] == End(p).nodes[3]
  {
    Deposed(config);
    q := Campaign(p, 2, 0, Follower, [0, 0, 0]);
    q := Campaign(q, 2, 1, Candidate, [0, 0, 3]);
    q := AskForVote(q, 2, 0, 2, [0, 0, 3]);
    AdderKnowsItself(Adder(1, Leader, VOTES1, 0, 2, config));
    q := TakeVoteJudged(q, VoteRequestMsg(2, 0, 0, R2), Adder(1, Leader, VOTES1, 0, 2, config),
                        Adder(2, Follower, [0, 1, 0], 0, 2, config), VoteResponse(2, false));
    AdderKnowsItself(Adder(2, Follower, [0, 1, 0], 0, 2, config));
    q := TakeTimeout(q, 0, Adder(2, Follower, [0, 1, 0], 0, 2, config),
                     Adder(3, Candidate, [1, 0, 0], 0, 2, config));
  }

  const R3 := VoteRequest(3, 1, 2, 1)

  /** The newcomer's vote of term 3 for node 0, which lists it at slot 3. */
  const LOST_VOTE := VoteResponseMsg(3, 0, 3, R3, VoteResponse(3, true))

  lemma NewcomerGrants()
    ensures HandleVoteRequest(Joiner(0, Follower, [SENTINEL], 0, 0, true), R3) ==
            (Joiner(3, Follower, [SENTINEL], 1, 0, true), VoteResponse(3, true))
  {
    var u := Joiner(3, Follower, [SENTINEL], 0, 0, true);
    assert UpdateTerm(Joiner(0, Follower, [SENTINEL], 0, 0, true), 3) == u;
    assert SetVote(u, 1) == Joiner(3, Follower, [SENTINEL], 1, 0, true);
  }

  /** It asks the newcomer, which votes for it. */
  lemma NewcomerVotes(p: Trace, config: Entry) returns (q: Trace)
    requires Path(p) && p.at == 5 && |p.steps| == 11 && Claims(p) && Trio(End(p)) && End(p).ids == [1, 2, 3, 4]
    requires |End(p).nodes| == 4 && End(p).nodes[0] == Adder(3, Candidate, [1, 0, 0], 0, 2, config)
    requires config.term == 1 && End(p).nodes[3] == Joiner(0, Follower, [SENTINEL], 0, 0, true)
    ensures Later(p, q, 2) && Claims(q) && Trio(End(q)) && LOST_VOTE in End(q).voteResponses
    ensures End(q).reigns.Keys == End(p).reigns.Keys && forall k :: 0 <= k < 3 ==> End(q).nodes[k] == End(p).nodes[k]
  {
    NewcomerGrants();
    q := TakeVoteAsked(p, 0, 3, 3, Adder(3, Candidate, [1, 0, 0], 0, 2, config));
    JoinerKnowsItself(Joiner(0, Follower, [SENTINEL], 0, 0, true));
    q := TakeVoteJudged(q, VoteRequestMsg(0, 3, 3, R3), Joiner(0, Follower, [SENTINEL], 0, 0, true),
                        Joiner(3, Follower, [SENTINEL], 1, 0, true), VoteResponse(3, true));
  }

  /** Before the vote arrives, node 2 wins term 3 with the vote of node 1. */
  lemma RivalWins(p: Trace) returns (q: Trace)
    requires Path(p) && p.at == 5 && |p.steps| == 13 && Claims(p) && Trio(End(p)) && End(p).reigns.Keys == {1}
    requires End(p).nodes[1] == Voter(1, 1, Follower, [0, 1, 0])
    requires End(p).nodes[2] == Voter(2, 2, Candidate, [0, 0, 3]) && LOST_VOTE in End(p).voteResponses
    ensures Later(p, q, 5) && Claims(q) && Trio(End(q)) && LOST_VOTE in End(q).voteResponses
    ensures End(q).nodes[0] == End(p).nodes[0] && End(q).nodes[2] == Winner(2, 3, [0, 3, 3])
  {
    var req := VoteRequest(3, 3, 0, 0);
    q := Campaign(p, 2, 2, Candidate, [0, 0, 3]);
    q := AskForVote(q, 2, 1, 3, [0, 0, 3]);
    q := GiveVote(q, 1, 1, Follower, [0, 1, 0], VoteRequestMsg(2, 1, 1, req));
    q := CountVote(q, 2, 3, [0, 0, 3], VoteResponseMsg(1, 2, 1, req, VoteResponse(3, true)));
    q := Win(q, 2, 3, Candidate, [0, 3, 3], 1, 2);
  }

  const TERM3 := Entry(3, [])

  /** Node 2 as leader of term 3, with what it expects node 0 to need next. */
  function Rival(next: nat): Node {
    Peer(2, 3, Leader, [SENTINEL, TERM3], [0, 3, 3], [next, 2, 2], [0, 0, 0], 0, 0)
  }

  function RivalRequest(prev: nat): AppendRequest {
    AppendRequest(3, 3, prev, if prev == 0 then 0 else 3, if prev == 0 then [TERM3] else [], 0)
  }

  lemma RivalBuilds(prev: nat)
    requires prev < 2
    ensures BuildAppendRequest(Rival(prev + 1), 0) == RivalRequest(prev)
    ensures WellFormed(Rival(prev + 1))
    ensures HandleAppendResponse(Rival(2), 0, RivalRequest(1), AppendResponse(3, false)) == Rival(1)
  {
    PeerKnowsItself(Rival(prev + 1), [0, 3, 3], [prev + 1, 2, 2], [0, 0, 0]);
  }

  lemma AdderRefuses(config: Entry)
    requires config.term == 1
    ensures WellFormed(Adder(3, Candidate, [1, 0, 0], 0, 2, config))
    ensures HandleAppendRequest(Adder(3, Candidate, [1, 0, 0], 0, 2, config), RivalRequest(1)) ==
            (Adder(3, Follower, [1, 0, 0], 0, 2, config), AppendResponse(3, false))
  {
    AdderKnowsItself(Adder(3, Candidate, [1, 0, 0], 0, 2, config));
    assert Ready(Adder(3, Candidate, [1, 0, 0], 0, 2, config), RivalRequest(1)) ==
           Adder(3, Follower, [1, 0, 0], 0, 2, config);
  }

  lemma AdderCut(config: Entry) returns (n': Node)
    requires config.term == 1
    ensures WellFormed(Adder(3, Follower, [1, 0, 0], 0, 2, config))
    ensures HandleAppendRequest(Adder(3, Follower, [1, 0, 0], 0, 2, config), RivalRequest(0)) ==
            (n', AppendResponse(3, true))
    ensures n'.term == 3 && n'.role == Follower && |n'.cluster| == 3
  {
    var n, req := Adder(3, Follower, [1, 0, 0], 0, 2, config), RivalRequest(0);
    AdderKnowsItself(n);
    assert Ready(n, req) == n && n.(passive := false) == n;
    AppendRequestSplit(n, req);
    n' := HandleAppendRequest(n, req).0;
    assert Matching(n.log, 1, [TERM3]) == 0;
    assert Splice(n.log, 1, [TERM3]) == [SENTINEL, TERM3];
    MergeNoConfig(n.base, [SENTINEL, TERM3], 0, n.id, Vote(n));
  }

  /** Its first request is refused, its second cuts the addition from node 0's log. */
  lemma RivalCuts(p: Trace, config: Entry) returns (q: Trace)
    requires Path(p) && p.at == 5 && |p.steps| == 18 && Claims(p) && Trio(End(p)) && config.term == 1
    requires End(p).nodes[0] == Adder(3, Candidate, [1, 0, 0], 0, 2, config) && End(p).nodes[2] == Rival(2)
    requires LOST_VOTE in End(p).voteResponses
    ensures Later(p, q, 5) && Claims(q) && Trio(End(q)) && LOST_VOTE in End(q).voteResponses
    ensures End(q).nodes[0].term == 3 && |End(q).nodes[0].cluster| == 3
  {
    RivalBuilds(1);
    AdderRefuses(config);
    q := TakeAppendSent(p, 2, 0, 0, Rival(2), RivalRequest(1));
    q := TakeAppendJudged(q, AppendRequestMsg(2, 0, 0, RivalRequest(1)), Adder(3, Candidate, [1, 0, 0], 0, 2, config),
                          Adder(3, Follower, [1, 0, 0], 0, 2, config), AppendResponse(3, false));
    q := TakeAppendNoted(q, AppendResponseMsg(0, 2, 0, RivalRequest(1), AppendResponse(3, false)), Rival(2), Rival(1));
    RivalBuilds(0);
    q := TakeAppendSent(q, 2, 0, 0, Rival(1), RivalRequest(0));
    var n' := AdderCut(config);
    q := TakeAppendJudged(q, AppendRequestMsg(2, 0, 0, RivalRequest(0)), Adder(3, Follower, [1, 0, 0], 0, 2, config),
                          n', AppendResponse(3, true));
  }

  lemma ClaimsIsTidy(p: Trace)
    requires Path(p) && p.breach == Addition && Claims(p) && Init(p.states[0])
    ensures TidyRun(p.states, p.steps)
  {
    PathIsRun(p);
  }

  /** A growing cluster does panic in a run that meets all hypotheses of the log theorems: a vote of the
      candidate's own term is under way, from a member that a truncation has removed from its list. */
  lemma CutOffVotePanics() returns (p: Trace)
    ensures TidyRun(p.states, p.steps) && |p.steps| == 23
    ensures Delivers(End(p), DeliverVoteResponse(LOST_VOTE)) && InTerm(End(p), DeliverVoteResponse(LOST_VOTE))
    ensures CutOff(End(p), DeliverVoteResponse(LOST_VOTE)) && !Enabled(End(p), DeliverVoteResponse(LOST_VOTE))
  {
    StartWithJoinerIsInit();
    var config;
    p, config := AddsFourth();
    p := AdderCampaigns(p, config);
    p := NewcomerVotes(p, config);
    p := RivalWins(p);
    p := RivalCuts(p, config);
    ClaimsIsTidy(p);
  }

  // ---------- A committed entry replaced ----------

  const TERM2 := Entry(2, [])
  const SET := Entry(2, [7])
  const HELD: seq<Entry> := [SENTINEL, TERM2, SET]

  /** Node 2 as leader of term 2, with what it knows of node 1. */
  function Leader2(next: nat, held: nat, commit: nat, done: nat): Node {
    Peer(2, 2, Leader, HELD, [0, 3, 3], [2, next, 2], [0, held, 0], commit, done)
  }

  /** The same node after it has heard of term 3. */
  function Former2(log: seq<Entry>): Node {
    Peer(2, 3, Follower, log, [0, 3, 0], [2, 3, 2], [0, 2, 0], 2, 1)
  }

  /** Node 1, which has voted for it. */
  const FOLLOWER1 := Voter(1, 2, Follower, [0, 3, 0])

  /** Node 0 as leader of term 3. */
  function Leader3(next: nat): Node {
    Peer(0, 3, Leader, [SENTINEL, TERM3], VOTES1, [2, 2, next], [0, 0, 0], 0, 0)
  }

  function Request2(prev: nat): AppendRequest
    requires prev < 2
  {
    AppendRequest(2, 3, prev, HELD[prev].term, HELD[prev + 1..], 0)
  }

  function Request3(prev: nat): AppendRequest {
    RivalRequest(prev).(leader := 1)
  }

  lemma Leader2KnowsItself(next: nat, held: nat, commit: nat, done: nat)
    ensures WellFormed(Leader2(next, held, commit, done))
  {
    PeerKnowsItself(Leader2(next, held, commit, done), [0, 3, 3], [2, next, 2], [0, held, 0]);
  }

  lemma ClientTaken()
    ensures WellFormed(Winner(2, 2, [0, 3, 3]))
    ensures ClientApply(Winner(2, 2, [0, 3, 3]), [[7]]) == Leader2(2, 0, 0, 0)
  {
    PeerKnowsItself(Winner(2, 2, [0, 3, 3]), [0, 3, 3], [2, 2, 2], [0, 0, 0]);
    assert [SENTINEL, TERM2] + EntriesAt(2, [[7]]) == HELD;
  }

  lemma Committed2()
    ensures CanApply(Leader2(3, 2, 0, 0)) && AdvanceCommit(Leader2(3, 2, 0, 0)) == Leader2(3, 2, 2, 1)
  {
    var ms: seq<nat> := [0, 2, 2];
    assert Holdings(Leader2(3, 2, 0, 0)) == ms;
    CountHeld();
    KthLargestIsThreshold(ms, 2, 2);
    KthLargestInList(ms, 2);
  }

  lemma CountHeld()
    ensures CountAtLeast([0, 2, 2], 2) == 2
  {
    assert CountAtLeast([2], 2) == 1;
    assert [0, 2, 2][1..] == [2, 2] && [2, 2][1..] == [2];
  }

  // ---------- Its exchanges ----------

  lemma Refusal2()
    ensures Exchangeable(2, 1, Leader2(2, 0, 0, 0), FOLLOWER1, Request2(1), FOLLOWER1, AppendResponse(2, false),
                         Leader2(1, 0, 0, 0))
  {
    Leader2KnowsItself(2, 0, 0, 0);
    VoterKnowsItself(1, 2, Follower, [0, 3, 0]);
  }

  /** Node 1 with the log of node 2. */
  const HOLDER1 := Peer(1, 2, Follower, HELD, [0, 3, 0], [0, 0, 0], [0, 0, 0], 0, 0)

  lemma Accepted2()
    ensures WellFormed(FOLLOWER1)
    ensures HandleAppendRequest(FOLLOWER1, Request2(0)) == (HOLDER1, AppendResponse(2, true))
  {
    VoterKnowsItself(1, 2, Follower, [0, 3, 0]);
    MergeNoConfig(FOLLOWER1.cluster, [TERM2, SET], 1, FOLLOWER1.id, Vote(FOLLOWER1));
    assert Matching([SENTINEL], 1, [TERM2, SET]) == 0;
    assert Splice([SENTINEL], 1, [TERM2, SET]) == HELD;
  }

  lemma Consent2()
    ensures Exchangeable(2, 1, Leader2(1, 0, 0, 0), FOLLOWER1, Request2(0), HOLDER1, AppendResponse(2, true),
                         Leader2(3, 2, 0, 0))
  {
    Leader2KnowsItself(1, 0, 0, 0);
    Accepted2();
  }

  lemma Leader3KnowsItself(next: nat)
    ensures WellFormed(Leader3(next))
  {
    PeerKnowsItself(Leader3(next), VOTES1, [2, 2, next], [0, 0, 0]);
  }

  lemma Refusal3()
    ensures Exchangeable(0, 2, Leader3(2), Leader2(3, 2, 2, 1), Request3(1), Former2(HELD), AppendResponse(3, false),
                         Leader3(1))
  {
    Leader3KnowsItself(2);
    Leader2KnowsItself(3, 2, 2, 1);
    assert UpdateTerm(Leader2(3, 2, 2, 1), 3) == Former2(HELD);
  }

  lemma Replaced3()
    ensures WellFormed(Former2(HELD))
    ensures var (n', rsp) := HandleAppendRequest(Former2(HELD), Request3(0));
            n'.log == [SENTINEL, TERM3] && n'.commitIndex == 2 && rsp == AppendResponse(3, true)
  {
    PeerKnowsItself(Former2(HELD), [0, 3, 0], [2, 3, 2], [0, 2, 0]);
    AppendRequestFields(Former2(HELD), Request3(0), HandleAppendRequest(Former2(HELD), Request3(0)).0);
    AppendRequestSplit(Former2(HELD), Request3(0));
    assert Matching(HELD, 1, [TERM3]) == 0;
    assert Splice(HELD, 1, [TERM3]) == [SENTINEL, TERM3];
  }

  lemma Consent3() returns (f': Node, l': Node)
    ensures Exchangeable(0, 2, Leader3(1), Former2(HELD), Request3(0), f', AppendResponse(3, true), l')
    ensures f'.log == [SENTINEL, TERM3] && f'.commitIndex == 2
  {
    Leader3KnowsItself(1);
    Replaced3();
    f' := HandleAppendRequest(Former2(HELD), Request3(0)).0;
    l' := HandleAppendResponse(Leader3(1), 2, Request3(0), AppendResponse(3, true));
  }

  // ---------- The run ----------

  /** Node 0 campaigns in vain; node 2 wins term 2. */
  lemma TermTwo() returns (p: Trace)
    ensures Path(p) && p.at == 19 && p.breach == StaleMessage && |p.steps| == 9 && p.states[0] == Start()
    ensures Trio(End(p)) && |End(p).nodes| == 3 && FIRST_VOTE in End(p).voteResponses
    ensures End(p).nodes[0] == Voter(0, 1, Candidate, [1, 0, 0]) && End(p).nodes[1] == FOLLOWER1
    ensures End(p).nodes[2] == Winner(2, 2, [0, 3, 3])
  {
    StartIsUntouched();
    p := Opening(Start(), 19, StaleMessage);
    p := SecondLeader(p);
  }

  /** Node 2 takes in a client's command. */
  lemma TakesCommand(p: Trace) returns (q: Trace)
    requires Path(p) && p.at == 19 && |p.steps| == 9 && Trio(End(p)) && |End(p).nodes| == 3
    requires End(p).nodes[2] == Winner(2, 2, [0, 3, 3])
    ensures Later(p, q, 1) && Trio(End(q)) && |End(q).nodes| == 3 && Keeps(End(p), End(q))
    ensures End(q).nodes[0] == End(p).nodes[0] && End(q).nodes[1] == End(p).nodes[1]
    ensures End(q).nodes[2] == Leader2(2, 0, 0, 0)
  {
    ClientTaken();
    q := Take(p, ClientStep(2, [[7]]), 2, ClientCommands([[7]]), Leader2(2, 0, 0, 0));
  }

  /** It is refused by node 1. */
  lemma RefusedByVoter(p: Trace) returns (q: Trace)
    requires Path(p) && p.at == 19 && |p.steps| == 10 && Trio(End(p)) && |End(p).nodes| == 3
    requires End(p).nodes[1] == FOLLOWER1 && End(p).nodes[2] == Leader2(2, 0, 0, 0)
    ensures Later(p, q, 3) && Trio(End(q)) && |End(q).nodes| == 3 && Keeps(End(p), End(q))
    ensures End(q).nodes[0] == End(p).nodes[0] && End(q).nodes[1] == FOLLOWER1
    ensures End(q).nodes[2] == Leader2(1, 0, 0, 0)
  {
    Refusal2();
    q := Exchange(p, 2, 1, Leader2(2, 0, 0, 0), FOLLOWER1, Request2(1), FOLLOWER1, AppendResponse(2, false),
                  Leader2(1, 0, 0, 0));
  }

  /** It brings node 1 up to date. */
  lemma TakenInByVoter(p: Trace) returns (q: Trace)
    requires Path(p) && p.at == 19 && |p.steps| == 13 && Trio(End(p)) && |End(p).nodes| == 3
    requires End(p).nodes[1] == FOLLOWER1 && End(p).nodes[2] == Leader2(1, 0, 0, 0)
    ensures Later(p, q, 3) && Trio(End(q)) && |End(q).nodes| == 3 && Keeps(End(p), End(q))
    ensures End(q).nodes[0] == End(p).nodes[0] && End(q).nodes[1] == HOLDER1
    ensures End(q).nodes[2] == Leader2(3, 2, 0, 0)
  {
    Consent2();
    q := Exchange(p, 2, 1, Leader2(1, 0, 0, 0), FOLLOWER1, Request2(0), HOLDER1, AppendResponse(2, true),
                  Leader2(3, 2, 0, 0));
  }

  lemma Commits(p: Trace) returns (q: Trace)
    requires Path(p) && p.at == 19 && |p.steps| == 16 && Trio(End(p)) && |End(p).nodes| == 3
    requires End(p).nodes[2] == Leader2(3, 2, 0, 0)
    ensures Later(p, q, 1) && Trio(End(q)) && |End(q).nodes| == 3 && Keeps(End(p), End(q))
    ensures End(q).nodes[0] == End(p).nodes[0] && End(q).nodes[1] == End(p).nodes[1]
    ensures End(q).nodes[2] == Leader2(3, 2, 2, 1)
  {
    Leader2KnowsItself(3, 2, 0, 0);
    Committed2();
    q := Take(p, CommitStep(2), 2, CommitAndApply, Leader2(3, 2, 2, 1));
  }

  /** Node 0 campaigns twice more. */
  lemma CampaignsOn(p: Trace) returns (q: Trace)
    requires Path(p) && p.at == 19 && p.breach == StaleMessage && |p.steps| == 17 && Trio(End(p))
    requires FIRST_VOTE in End(p).voteResponses && End(p).nodes[0] == Voter(0, 1, Candidate, [1, 0, 0])
    ensures Later(p, q, 2) && Trio(End(q)) && |End(q).nodes| == |End(p).nodes| && End(q).nodes[2] == End(p).nodes[2]
    ensures FIRST_VOTE in End(q).voteResponses && End(q).nodes[0] == Voter(0, 3, Candidate, [1, 0, 0])
  {
    q := Campaign(p, 0, 1, Candidate, [1, 0, 0]);
    q := Campaign(q, 0, 2, Candidate, [1, 0, 0]);
  }

  /** In term 3 the vote of term 1 makes it leader. */
  lemma StaleLeader(p: Trace) returns (q: Trace)
    requires Path(p) && p.at == 19 && p.breach == StaleMessage && |p.steps| == 19 && Trio(End(p))
    requires FIRST_VOTE in End(p).voteResponses && End(p).nodes[0] == Voter(0, 3, Candidate, [1, 0, 0])
    ensures Later(p, q, 2) && Trio(End(q)) && |End(q).nodes| == |End(p).nodes| && End(q).nodes[2] == End(p).nodes[2]
    ensures End(q).nodes[0] == Winner(0, 3, [1, 1, 0])
  {
    q := CountVote(p, 0, 3, [1, 0, 0], FIRST_VOTE);
    q := Win(q, 0, 3, Candidate, [1, 1, 0], 0, 1);
  }

  /** It is refused by node 2, which hears of its term. */
  lemma RefusedByLeader(p: Trace) returns (q: Trace)
    requires Path(p) && p.at == 19 && |p.steps| == 21 && Trio(End(p))
    requires End(p).nodes[0] == Winner(0, 3, [1, 1, 0]) && End(p).nodes[2] == Leader2(3, 2, 2, 1)
    ensures Later(p, q, 3) && Trio(End(q)) && End(q).nodes[0] == Leader3(1) && End(q).nodes[2] == Former2(HELD)
  {
    Refusal3();
    q := Exchange(p, 0, 2, Leader3(2), Leader2(3, 2, 2, 1), Request3(1), Former2(HELD), AppendResponse(3, false),
                  Leader3(1));
  }

  /** Then its log overwrites node 2's. */
  lemma Overwrites(p: Trace) returns (q: Trace)
    requires Path(p) && p.at == 19 && |p.steps| == 24 && Trio(End(p))
    requires End(p).nodes[0] == Leader3(1) && End(p).nodes[2] == Former2(HELD)
    ensures Later(p, q, 3) && Trio(End(q)) && End(q).nodes[2].log == [SENTINEL, TERM3]
    ensures End(q).nodes[2].commitIndex == 2
  {
    var f', l' := Consent3();
    q := Exchange(p, 0, 2, Leader3(1), Former2(HELD), Request3(0), f', AppendResponse(3, true), l');
  }

  /** Committed entries are overwritten in some runs: here, again with one stale vote as the only breach,
      node 2 has committed a client's command at index 2 after 17 steps, a majority holding it, and after 27
      steps neither that entry nor the one before it is left in its log, which ends before its commit index. */
  lemma StaleVoteLosesCommitted() returns (p: Trace)
    ensures Path(p) && p.at == 19 && p.breach == StaleMessage && |p.steps| == 27
    ensures IsRun(p.states, p.steps) && OneCluster(p.states[0])
    ensures |p.states[17].nodes| >= 3 && |End(p).nodes| >= 3
    ensures p.states[17].nodes[2].commitIndex == 2 && p.states[17].nodes[2].log == p.states[17].nodes[1].log == HELD
    ensures End(p).nodes[2].commitIndex == 2 && End(p).nodes[2].log == [SENTINEL, TERM3]
  {
    StartIsInit();
    StartIsOneCluster();
    p := TermTwo();
    p := TakesCommand(p);
    p := RefusedByVoter(p);
    p := TakenInByVoter(p);
    p := Commits(p);
    p := CampaignsOn(p);
    p := StaleLeader(p);
    p := RefusedByLeader(p);
    p := Overwrites(p);
    PathIsRun(p);
  }
}
