/** A run in which one request is cut by the batch limit before it reaches an entry of its sender's term: its
    receiver gives up a longer stretch of its log than the request makes good, forgets its vote, and votes again.
    It is long, because a leader starts at the end of its log and steps back by one with every refusal. */
module CutBatchRun {
  import opened Types
  import opened Membership
  import opened Raft
  import opened Cluster
  import opened Traces

  /** A log that fills one batch with entries of term 2. */
  ghost predicate FullBatch(log: seq<Entry>) {
    && |log| == BATCH + 1 && log[0] == SENTINEL
    && forall i :: 1 <= i < |log| ==> log[i].term == 2 && !IsConfigChange(log[i].command)
  }

  const NONE: seq<nat> := [0, 0, 0]
  const TERM1 := Entry(1, [])
  const TERM2 := Entry(2, [])
  const TERM4 := Entry(4, [])
  const OLD: seq<Entry> := [SENTINEL, TERM1]

  // ---------- The nodes ----------

  /** Node 0 as leader of term 2 with the full log. */
  function Filler(log: seq<Entry>, next: nat, held: nat): Node {
    Peer(0, 2, Leader, log, [1, 1, 0], [2, next, 2], [0, held, 0], 0, 0)
  }

  /** The same node after it has lost that office. */
  function Filled(term: nat, role: Role, log: seq<Entry>, v: seq<nat>): Node
    requires |v| == 3
  {
    Peer(0, term, role, log, v, [2, BATCH + 1, 2], [0, BATCH, 0], 0, 0)
  }

  /** And as leader of term 4. */
  function Cutter(log: seq<Entry>, next: nat): Node {
    Peer(0, 4, Leader, log + [TERM4], [1, 0, 1], [BATCH + 2, BATCH + 2, next], NONE, 0, 0)
  }

  /** Node 1, which has taken the full log from it. */
  function Taker(term: nat, role: Role, log: seq<Entry>, v: seq<nat>): Node
    requires |v| == 3
  {
    Peer(1, term, role, log, v, NONE, NONE, 0, 0)
  }

  /** Node 2, which once led term 1, after its vote of term 4 for node 0. */
  const FORMER := Peer(2, 4, Follower, OLD, [0, 3, 1], [2, 2, 2], NONE, 0, 0)

  /** The same node with the full log. */
  function Cut(log: seq<Entry>, v: seq<nat>): Node
    requires |v| == 3
  {
    Peer(2, 4, Follower, log, v, NONE, NONE, 0, 0)
  }

  lemma FillerKnowsItself(log: seq<Entry>, next: nat, held: nat)
    requires FullBatch(log)
    ensures WellFormed(Filler(log, next, held))
  {
    PeerKnowsItself(Filler(log, next, held), [1, 1, 0], [2, next, 2], [0, held, 0]);
  }

  lemma FilledKnowsItself(term: nat, role: Role, log: seq<Entry>, v: seq<nat>)
    requires FullBatch(log) && |v| == 3
    ensures WellFormed(Filled(term, role, log, v))
  {
    PeerKnowsItself(Filled(term, role, log, v), v, [2, BATCH + 1, 2], [0, BATCH, 0]);
  }

  lemma CutterKnowsItself(log: seq<Entry>, next: nat)
    requires FullBatch(log)
    ensures WellFormed(Cutter(log, next))
  {
    PeerKnowsItself(Cutter(log, next), [1, 0, 1], [BATCH + 2, BATCH + 2, next], NONE);
  }

  lemma TakerKnowsItself(term: nat, role: Role, log: seq<Entry>, v: seq<nat>)
    requires FullBatch(log) && |v| == 3
    ensures WellFormed(Taker(term, role, log, v))
  {
    PeerKnowsItself(Taker(term, role, log, v), v, NONE, NONE);
  }

  lemma FormerKnowsItself()
    ensures WellFormed(FORMER)
  {
    PeerKnowsItself(FORMER, [0, 3, 1], [2, 2, 2], NONE);
  }

  lemma CutKnowsItself(log: seq<Entry>, v: seq<nat>)
    requires FullBatch(log) && |v| == 3
    ensures WellFormed(Cut(log, v))
  {
    PeerKnowsItself(Cut(log, v), v, NONE, NONE);
  }

  // ---------- Terms 1 and 2 ----------

  /** Node 2 wins term 1 with the vote of node 1. */
  lemma WinsTermOne(at: nat) returns (p: Trace)
    requires at >= 5
    ensures Path(p) && |p.steps| == 5 && p.at == at && p.breach == CutBatch && p.states[0] == Start() && Trio(End(p))
    ensures End(p).nodes[0] == Voter(0, 0, Follower, NONE) && End(p).nodes[1] == Voter(1, 1, Follower, [0, 3, 0])
    ensures End(p).nodes[2] == Winner(2, 1, [0, 3, 3])
  {
    var req := VoteRequest(1, 3, 0, 0);
    p := Trace([Start()], [], at, CutBatch);
    p := Campaign(p, 2, 0, Follower, NONE);
    p := AskForVote(p, 2, 1, 1, [0, 0, 3]);
    p := GiveVote(p, 1, 0, Follower, NONE, VoteRequestMsg(2, 1, 1, req));
    p := CountVote(p, 2, 1, [0, 0, 3], VoteResponseMsg(1, 2, 1, req, VoteResponse(1, true)));
    p := Win(p, 2, 1, Candidate, [0, 3, 3], 1, 2);
  }

  lemma CampaignsTwice(p: Trace) returns (q: Trace)
    requires Path(p) && Quiet(p, 2) && Trio(End(p)) && End(p).nodes[0] == Voter(0, 0, Follower, NONE)
    ensures Later(p, q, 2) && Trio(End(q)) && End(q).nodes[0] == Voter(0, 2, Candidate, [1, 0, 0])
    ensures End(q).nodes[1] == End(p).nodes[1] && End(q).nodes[2] == End(p).nodes[2]
  {
    q := Campaign(p, 0, 0, Follower, NONE);
    q := Campaign(q, 0, 1, Candidate, [1, 0, 0]);
  }

  const ASKED2 := VoteRequest(2, 1, 0, 0)

  lemma VotedInTermTwo(p: Trace) returns (q: Trace)
    requires Path(p) && Quiet(p, 2) && Trio(End(p)) && End(p).nodes[0] == Voter(0, 2, Candidate, [1, 0, 0])
    requires End(p).nodes[1] == Voter(1, 1, Follower, [0, 3, 0])
    ensures Later(p, q, 2) && Trio(End(q)) && End(q).nodes[0] == End(p).nodes[0]
    ensures End(q).nodes[1] == Voter(1, 2, Follower, [0, 1, 0]) && End(q).nodes[2] == End(p).nodes[2]
    ensures VoteResponseMsg(1, 0, 1, ASKED2, VoteResponse(2, true)) in End(q).voteResponses
  {
    q := AskForVote(p, 0, 1, 2, [1, 0, 0]);
    q := GiveVote(q, 1, 1, Follower, [0, 3, 0], VoteRequestMsg(0, 1, 1, ASKED2));
  }

  lemma LeadsTermTwo(p: Trace) returns (q: Trace)
    requires Path(p) && Quiet(p, 2) && Trio(End(p)) && End(p).nodes[0] == Voter(0, 2, Candidate, [1, 0, 0])
    requires VoteResponseMsg(1, 0, 1, ASKED2, VoteResponse(2, true)) in End(p).voteResponses
    ensures Later(p, q, 2) && Trio(End(q)) && End(q).nodes[0] == Winner(0, 2, [1, 1, 0])
    ensures End(q).nodes[1] == End(p).nodes[1] && End(q).nodes[2] == End(p).nodes[2]
  {
    q := CountVote(p, 0, 2, [1, 0, 0], VoteResponseMsg(1, 0, 1, ASKED2, VoteResponse(2, true)));
    q := Win(q, 0, 2, Candidate, [1, 1, 0], 0, 1);
  }

  /** Node 0 wins term 2 with the vote of node 1. */
  lemma WinsTermTwo(p: Trace) returns (q: Trace)
    requires Path(p) && Quiet(p, 6) && Trio(End(p)) && End(p).nodes[0] == Voter(0, 0, Follower, NONE)
    requires End(p).nodes[1] == Voter(1, 1, Follower, [0, 3, 0])
    ensures Later(p, q, 6) && Trio(End(q)) && End(q).nodes[2] == End(p).nodes[2]
    ensures End(q).nodes[0] == Winner(0, 2, [1, 1, 0]) && End(q).nodes[1] == Voter(1, 2, Follower, [0, 1, 0])
  {
    q := CampaignsTwice(p);
    q := VotedInTermTwo(q);
    q := LeadsTermTwo(q);
  }

  lemma CommandsTaken(commands: seq<seq<byte>>, log: seq<Entry>)
    requires |commands| == BATCH - 1 && forall i :: 0 <= i < |commands| ==> commands[i] == [7]
    requires log == [SENTINEL, TERM2] + EntriesAt(2, commands)
    ensures FullBatch(log) && WellFormed(Winner(0, 2, [1, 1, 0]))
    ensures ClientApply(Winner(0, 2, [1, 1, 0]), commands) == Filler(log, 2, 0)
    ensures forall c :: c in commands ==> !IsConfigChange(c)
  {
    PeerKnowsItself(Winner(0, 2, [1, 1, 0]), [1, 1, 0], [2, 2, 2], NONE);
  }

  /** Clients fill its log. */
  lemma Fills(p: Trace) returns (q: Trace, log: seq<Entry>)
    requires Path(p) && Quiet(p, 1) && Trio(End(p)) && End(p).nodes[0] == Winner(0, 2, [1, 1, 0])
    ensures Later(p, q, 1) && Trio(End(q)) && FullBatch(log) && End(q).nodes[0] == Filler(log, 2, 0)
    ensures End(q).nodes[1] == End(p).nodes[1] && End(q).nodes[2] == End(p).nodes[2]
  {
    var commands: seq<seq<byte>> := seq(BATCH - 1, _ => [7]);
    log := [SENTINEL, TERM2] + EntriesAt(2, commands);
    CommandsTaken(commands, log);
    q := Take(p, ClientStep(0, commands), 0, ClientCommands(commands), Filler(log, 2, 0));
  }

  lemma FillerRefused(log: seq<Entry>)
    requires FullBatch(log)
    ensures Exchangeable(0, 1, Filler(log, 2, 0), Voter(1, 2, Follower, [0, 1, 0]),
                         AppendRequest(2, 1, 1, 2, log[2..], 0), Voter(1, 2, Follower, [0, 1, 0]),
                         AppendResponse(2, false), Filler(log, 1, 0))
  {
    FillerKnowsItself(log, 2, 0);
    VoterKnowsItself(1, 2, Follower, [0, 1, 0]);
  }

  lemma FullBatchSpliced(was: seq<Entry>, log: seq<Entry>)
    requires FullBatch(log) && was != [] && was[0] == SENTINEL && (|was| > 1 ==> was[1].term != 2)
    ensures Matching(was, 1, log[1..]) == 0 && Splice(was, 1, log[1..]) == log
    ensures Conflict(was, 1, log[1..]) <==> |was| > 1
  {
    assert log[1..][0] == log[1];
    assert was[..1] + log[1..] == log;
  }

  lemma FillerAccepted(log: seq<Entry>)
    requires FullBatch(log)
    ensures HandleAppendRequest(Voter(1, 2, Follower, [0, 1, 0]), AppendRequest(2, 1, 0, 0, log[1..], 0)) ==
            (Taker(2, Follower, log, [0, 1, 0]), AppendResponse(2, true))
  {
    var n, req := Voter(1, 2, Follower, [0, 1, 0]), AppendRequest(2, 1, 0, 0, log[1..], 0);
    VoterKnowsItself(1, 2, Follower, [0, 1, 0]);
    FullBatchSpliced([SENTINEL], log);
    assert Ready(n, req) == n && n.(passive := false) == n;
    AppendRequestSplit(n, req);
    MergeNoConfig(n.cluster, log[1..], 1, n.id, Vote(n));
  }

  lemma FillerTaken(log: seq<Entry>)
    requires FullBatch(log)
    ensures Exchangeable(0, 1, Filler(log, 1, 0), Voter(1, 2, Follower, [0, 1, 0]),
                         AppendRequest(2, 1, 0, 0, log[1..], 0), Taker(2, Follower, log, [0, 1, 0]),
                         AppendResponse(2, true), Filler(log, BATCH + 1, BATCH))
  {
    FillerKnowsItself(log, 1, 0);
    VoterKnowsItself(1, 2, Follower, [0, 1, 0]);
    FillerAccepted(log);
  }

  lemma FirstTry(p: Trace, log: seq<Entry>) returns (q: Trace)
    requires Path(p) && Quiet(p, 3) && Trio(End(p)) && FullBatch(log) && End(p).nodes[0] == Filler(log, 2, 0)
    requires End(p).nodes[1] == Voter(1, 2, Follower, [0, 1, 0])
    ensures Later(p, q, 3) && Trio(End(q)) && End(q).nodes[0] == Filler(log, 1, 0)
    ensures End(q).nodes[1] == End(p).nodes[1] && End(q).nodes[2] == End(p).nodes[2]
  {
    FillerRefused(log);
    q := Exchange(p, 0, 1, Filler(log, 2, 0), Voter(1, 2, Follower, [0, 1, 0]), AppendRequest(2, 1, 1, 2, log[2..], 0),
                  Voter(1, 2, Follower, [0, 1, 0]), AppendResponse(2, false), Filler(log, 1, 0));
  }

  lemma SecondTry(p: Trace, log: seq<Entry>) returns (q: Trace)
    requires Path(p) && Quiet(p, 3) && Trio(End(p)) && FullBatch(log) && End(p).nodes[0] == Filler(log, 1, 0)
    requires End(p).nodes[1] == Voter(1, 2, Follower, [0, 1, 0])
    ensures Later(p, q, 3) && Trio(End(q)) && End(q).nodes[0] == Filler(log, BATCH + 1, BATCH)
    ensures End(q).nodes[1] == Taker(2, Follower, log, [0, 1, 0]) && End(q).nodes[2] == End(p).nodes[2]
  {
    FillerTaken(log);
    q := Exchange(p, 0, 1, Filler(log, 1, 0), Voter(1, 2, Follower, [0, 1, 0]), AppendRequest(2, 1, 0, 0, log[1..], 0),
                  Taker(2, Follower, log, [0, 1, 0]), AppendResponse(2, true), Filler(log, BATCH + 1, BATCH));
  }

  /** Node 1 takes the full log over. */
  lemma Replicates(p: Trace, log: seq<Entry>) returns (q: Trace)
    requires Path(p) && Quiet(p, 6) && Trio(End(p)) && FullBatch(log) && End(p).nodes[0] == Filler(log, 2, 0)
    requires End(p).nodes[1] == Voter(1, 2, Follower, [0, 1, 0])
    ensures Later(p, q, 6) && Trio(End(q)) && End(q).nodes[0] == Filler(log, BATCH + 1, BATCH)
    ensures End(q).nodes[1] == Taker(2, Follower, log, [0, 1, 0]) && End(q).nodes[2] == End(p).nodes[2]
  {
    q := FirstTry(p, log);
    q := SecondTry(q, log);
  }

  // ---------- Term 4 ----------

  lemma Resigns(log: seq<Entry>)
    requires FullBatch(log)
    ensures HandleVoteRequest(Filler(log, BATCH + 1, BATCH), VoteRequest(3, 2, BATCH, 2)) ==
            (Filled(3, Follower, log, [2, 1, 0]), VoteResponse(3, true))
    ensures Timeout(Taker(2, Follower, log, [0, 1, 0])) == Taker(3, Candidate, log, [0, 2, 0])
    ensures Timeout(Taker(3, Candidate, log, [0, 2, 0])) == Taker(4, Candidate, log, [0, 2, 0])
    ensures Timeout(Filled(3, Follower, log, [2, 1, 0])) == Filled(4, Candidate, log, [1, 0, 0])
  {
    var u := UpdateTerm(Filler(log, BATCH + 1, BATCH), 3);
    assert u == Filled(3, Follower, log, [0, 1, 0]);
    assert SetVote(u, 2) == Filled(3, Follower, log, [2, 1, 0]);
    assert BallotReset(Taker(2, Follower, log, [0, 1, 0])) == Books([0, 2, 0], NONE, NONE);
    assert BallotReset(Taker(3, Candidate, log, [0, 2, 0])) == Books([0, 2, 0], NONE, NONE);
    assert BallotReset(Filled(3, Follower, log, [2, 1, 0])) == Books([1, 0, 0], [2, BATCH + 1, 2], [0, BATCH, 0]);
  }

  /** Node 1 campaigns in term 3, and node 0 steps down. */
  lemma StepsDown(p: Trace, log: seq<Entry>) returns (q: Trace)
    requires Path(p) && Quiet(p, 3) && Trio(End(p)) && FullBatch(log)
    requires End(p).nodes[0] == Filler(log, BATCH + 1, BATCH) && End(p).nodes[1] == Taker(2, Follower, log, [0, 1, 0])
    ensures Later(p, q, 3) && Trio(End(q)) && End(q).nodes[0] == Filled(3, Follower, log, [2, 1, 0])
    ensures End(q).nodes[1] == Taker(3, Candidate, log, [0, 2, 0]) && End(q).nodes[2] == End(p).nodes[2]
  {
    Resigns(log);
    TakerKnowsItself(2, Follower, log, [0, 1, 0]);
    FillerKnowsItself(log, BATCH + 1, BATCH);
    q := TakeTimeout(p, 1, Taker(2, Follower, log, [0, 1, 0]), Taker(3, Candidate, log, [0, 2, 0]));
    q := TakeVoteAsked(q, 1, 0, 0, Taker(3, Candidate, log, [0, 2, 0]));
    q := TakeVoteJudged(q, VoteRequestMsg(1, 0, 0, VoteRequest(3, 2, BATCH, 2)), Filler(log, BATCH + 1, BATCH),
                        Filled(3, Follower, log, [2, 1, 0]), VoteResponse(3, true));
  }

  /** Both campaign in term 4. */
  lemma BothCampaign(p: Trace, log: seq<Entry>) returns (q: Trace)
    requires Path(p) && Quiet(p, 2) && Trio(End(p)) && FullBatch(log)
    requires End(p).nodes[0] == Filled(3, Follower, log, [2, 1, 0])
    requires End(p).nodes[1] == Taker(3, Candidate, log, [0, 2, 0])
    ensures Later(p, q, 2) && Trio(End(q)) && End(q).nodes[0] == Filled(4, Candidate, log, [1, 0, 0])
    ensures End(q).nodes[1] == Taker(4, Candidate, log, [0, 2, 0]) && End(q).nodes[2] == End(p).nodes[2]
  {
    Resigns(log);
    FilledKnowsItself(3, Follower, log, [2, 1, 0]);
    q := TakeTimeout(p, 0, Filled(3, Follower, log, [2, 1, 0]), Filled(4, Candidate, log, [1, 0, 0]));
    TakerKnowsItself(3, Candidate, log, [0, 2, 0]);
    q := TakeTimeout(q, 1, Taker(3, Candidate, log, [0, 2, 0]), Taker(4, Candidate, log, [0, 2, 0]));
  }

  const ASKED4 := VoteRequest(4, 1, BATCH, 2)

  lemma FormerVotes(log: seq<Entry>)
    requires FullBatch(log)
    ensures WellFormed(Winner(2, 1, [0, 3, 3]))
    ensures HandleVoteRequest(Winner(2, 1, [0, 3, 3]), ASKED4) == (FORMER, VoteResponse(4, true))
  {
    PeerKnowsItself(Winner(2, 1, [0, 3, 3]), [0, 3, 3], [2, 2, 2], NONE);
    var u := UpdateTerm(Winner(2, 1, [0, 3, 3]), 4);
    assert u == Peer(2, 4, Follower, OLD, [0, 3, 0], [2, 2, 2], NONE, 0, 0);
    assert SetVote(u, 1) == FORMER;
  }

  lemma CutterWins(log: seq<Entry>)
    requires FullBatch(log)
    ensures HandleVoteResponse(Filled(4, Candidate, log, [1, 0, 0]), 2, ASKED4,
                               VoteResponse(4, true)) == Filled(4, Candidate, log, [1, 0, 1])
    ensures BecomeLeader(Filled(4, Candidate, log, [1, 0, 1])) == Cutter(log, BATCH + 2)
  {
    var n := Filled(4, Candidate, log, [1, 0, 1]);
    assert {0, 2} <= Voters(n);
    SubsetSize({0, 2}, Voters(n));
    assert IndexReset(n) == Books([1, 0, 1], [BATCH + 2, BATCH + 2, BATCH + 2], NONE);
  }

  lemma CountsInTermFour(p: Trace, log: seq<Entry>) returns (q: Trace)
    requires Path(p) && Quiet(p, 1) && Trio(End(p)) && FullBatch(log)
    requires End(p).nodes[0] == Filled(4, Candidate, log, [1, 0, 0])
    requires VoteResponseMsg(2, 0, 2, ASKED4, VoteResponse(4, true)) in End(p).voteResponses
    ensures Later(p, q, 1) && Trio(End(q)) && End(q).nodes[0] == Filled(4, Candidate, log, [1, 0, 1])
    ensures End(q).nodes[1] == End(p).nodes[1] && End(q).nodes[2] == End(p).nodes[2]
  {
    CutterWins(log);
    FilledKnowsItself(4, Candidate, log, [1, 0, 0]);
    q := Take(p, DeliverVoteResponse(VoteResponseMsg(2, 0, 2, ASKED4, VoteResponse(4, true))), 0,
              VoteResponseArrives(2, ASKED4, VoteResponse(4, true)), Filled(4, Candidate, log, [1, 0, 1]));
  }

  lemma LeadsTermFour(p: Trace, log: seq<Entry>) returns (q: Trace)
    requires Path(p) && Quiet(p, 1) && Trio(End(p)) && FullBatch(log)
    requires End(p).nodes[0] == Filled(4, Candidate, log, [1, 0, 1])
    ensures Later(p, q, 1) && Trio(End(q)) && End(q).nodes[0] == Cutter(log, BATCH + 2)
    ensures End(q).nodes[1] == End(p).nodes[1] && End(q).nodes[2] == End(p).nodes[2]
  {
    CutterWins(log);
    FilledKnowsItself(4, Candidate, log, [1, 0, 1]);
    q := Take(p, BecomeLeaderStep(0), 0, TryBecomeLeader, Cutter(log, BATCH + 2));
  }

  /** Node 0 wins term 4 with the vote of node 2. */
  lemma WinsTermFour(p: Trace, log: seq<Entry>) returns (q: Trace)
    requires Path(p) && Quiet(p, 4) && Trio(End(p)) && FullBatch(log)
    requires End(p).nodes[0] == Filled(4, Candidate, log, [1, 0, 0]) && End(p).nodes[2] == Winner(2, 1, [0, 3, 3])
    ensures Later(p, q, 4) && Trio(End(q)) && End(q).nodes[0] == Cutter(log, BATCH + 2)
    ensures End(q).nodes[1] == End(p).nodes[1] && End(q).nodes[2] == FORMER
  {
    q := FormerGrants(p, log);
    q := CountsInTermFour(q, log);
    q := LeadsTermFour(q, log);
  }

  lemma FormerGrants(p: Trace, log: seq<Entry>) returns (q: Trace)
    requires Path(p) && Quiet(p, 2) && Trio(End(p)) && FullBatch(log)
    requires End(p).nodes[0] == Filled(4, Candidate, log, [1, 0, 0]) && End(p).nodes[2] == Winner(2, 1, [0, 3, 3])
    ensures Later(p, q, 2) && Trio(End(q)) && End(q).nodes[0] == End(p).nodes[0]
    ensures End(q).nodes[1] == End(p).nodes[1] && End(q).nodes[2] == FORMER
    ensures VoteResponseMsg(2, 0, 2, ASKED4, VoteResponse(4, true)) in End(q).voteResponses
  {
    FormerVotes(log);
    q := TakeVoteAsked(p, 0, 2, 2, Filled(4, Candidate, log, [1, 0, 0]));
    q := TakeVoteJudged(q, VoteRequestMsg(0, 2, 2, ASKED4), Winner(2, 1, [0, 3, 3]), FORMER,
                        VoteResponse(4, true));
  }

  // ---------- Stepping back through the log ----------

  function CutterRequest(log: seq<Entry>, next: nat): AppendRequest
    requires 1 <= next <= |log| + 1 && |log| >= 1
  {
    var l := log + [TERM4];
    AppendRequest(4, 1, next - 1, l[next - 1].term, if next == 1 then log[1..] else l[next..], 0)
  }

  lemma CutterBuilds(log: seq<Entry>, next: nat)
    requires FullBatch(log) && 1 <= next <= BATCH + 2
    ensures BuildAppendRequest(Cutter(log, next), 2) == CutterRequest(log, next)
  {
    var l := log + [TERM4];
    if next == 1 {
      assert l[1..][..BATCH] == log[1..];
    }
  }

  lemma FormerRefuses(log: seq<Entry>, next: nat)
    requires FullBatch(log) && 2 <= next <= BATCH + 2
    ensures HandleAppendRequest(FORMER, CutterRequest(log, next)) == (FORMER, AppendResponse(4, false))
  {
    FormerKnowsItself();
    var req := CutterRequest(log, next);
    assert Ready(FORMER, req) == FORMER;
  }

  lemma CutterRefused(log: seq<Entry>, next: nat)
    requires FullBatch(log) && 2 <= next <= BATCH + 2
    ensures Exchangeable(0, 2, Cutter(log, next), FORMER, CutterRequest(log, next), FORMER, AppendResponse(4, false),
                         Cutter(log, next - 1))
  {
    CutterKnowsItself(log, next);
    FormerKnowsItself();
    CutterBuilds(log, next);
    FormerRefuses(log, next);
    assert EndsInTerm(CutterRequest(log, next));
  }

  lemma StepsBack(p: Trace, log: seq<Entry>, next: nat) returns (q: Trace)
    requires Path(p) && Quiet(p, 3) && Trio(End(p)) && FullBatch(log) && 2 <= next <= BATCH + 2
    requires End(p).nodes[0] == Cutter(log, next) && End(p).nodes[2] == FORMER
    ensures Later(p, q, 3) && Trio(End(q)) && End(q).nodes[0] == Cutter(log, next - 1)
    ensures End(q).nodes[1] == End(p).nodes[1] && End(q).nodes[2] == FORMER
  {
    CutterRefused(log, next);
    q := Exchange(p, 0, 2, Cutter(log, next), FORMER, CutterRequest(log, next), FORMER, AppendResponse(4, false),
                  Cutter(log, next - 1));
  }

  /** Node 2 refuses every request down to the first. */
  lemma {:induction false} StepsAllTheWayBack(p: Trace, log: seq<Entry>, next: nat) returns (q: Trace)
    requires 1 <= next <= BATCH + 2 && Path(p) && Quiet(p, 3 * (next - 1)) && Trio(End(p)) && FullBatch(log)
    requires End(p).nodes[0] == Cutter(log, next) && End(p).nodes[2] == FORMER
    ensures Later(p, q, 3 * (next - 1)) && Trio(End(q)) && End(q).nodes[0] == Cutter(log, 1)
    ensures End(q).nodes[1] == End(p).nodes[1] && End(q).nodes[2] == FORMER
    decreases next
  {
    q := p;
    if next > 1 {
      q := StepsBack(p, log, next);
      q := StepsAllTheWayBack(q, log, next - 1);
    }
  }

  // ---------- The cut ----------

  lemma CutIsBreach(s: System, log: seq<Entry>)
    requires Trio(s) && FullBatch(log) && s.nodes[0] == Cutter(log, 1)
    ensures Enabled(s, SendAppendRequest(0, 2, 2)) && Breaks(s, SendAppendRequest(0, 2, 2), CutBatch)
    ensures BuildAppendRequest(s.nodes[0], 2) == CutterRequest(log, 1)
  {
    CutterBuilds(log, 1);
    var req := CutterRequest(log, 1);
    assert LastTerm(req.entries) == log[BATCH].term == 2;
  }

  lemma CutAccepted(log: seq<Entry>)
    requires FullBatch(log)
    ensures HandleAppendRequest(FORMER, CutterRequest(log, 1)) == (Cut(log, NONE), AppendResponse(4, true))
  {
    var req := CutterRequest(log, 1);
    FormerKnowsItself();
    FullBatchSpliced(OLD, log);
    assert Ready(FORMER, req) == FORMER && FORMER.(passive := false) == FORMER;
    AppendRequestSplit(FORMER, req);
    MergeNoConfig(FORMER.base, log, 0, FORMER.id, Vote(FORMER));
    RebuildNamesSelf(FORMER, log, Vote(FORMER));
    assert FORMER.base[2] in FORMER.base;
    assert IndexOf(FORMER.base, 3) == 2;
  }

  lemma SendsCut(p: Trace, log: seq<Entry>) returns (q: Trace)
    requires Path(p) && p.at == |p.steps| && p.breach == CutBatch && Trio(End(p)) && FullBatch(log)
    requires End(p).nodes[0] == Cutter(log, 1)
    ensures Later(p, q, 1) && Trio(End(q)) && End(q).nodes == End(p).nodes
    ensures AppendRequestMsg(0, 2, 2, CutterRequest(log, 1)) in End(q).appendRequests
  {
    CutIsBreach(End(p), log);
    q := Extend(p, SendAppendRequest(0, 2, 2));
  }

  /** The next request is cut; node 2 replaces its log with what it brings, and has no vote any more. */
  lemma CutsOff(p: Trace, log: seq<Entry>) returns (q: Trace)
    requires Path(p) && p.at == |p.steps| && p.breach == CutBatch && Trio(End(p)) && FullBatch(log)
    requires End(p).nodes[0] == Cutter(log, 1) && End(p).nodes[2] == FORMER
    ensures Later(p, q, 2) && Trio(End(q)) && End(q).nodes[0] == End(p).nodes[0]
    ensures End(q).nodes[1] == End(p).nodes[1] && End(q).nodes[2] == Cut(log, NONE)
  {
    q := SendsCut(p, log);
    CutAccepted(log);
    FormerKnowsItself();
    q := TakeAppendJudged(q, AppendRequestMsg(0, 2, 2, CutterRequest(log, 1)), FORMER, Cut(log, NONE),
                          AppendResponse(4, true));
  }

  // ---------- The second leader ----------

  const AGAIN4 := VoteRequest(4, 2, BATCH, 2)

  lemma CutVotes(log: seq<Entry>)
    requires FullBatch(log)
    ensures HandleVoteRequest(Cut(log, NONE), AGAIN4) == (Cut(log, [0, 0, 2]), VoteResponse(4, true))
    ensures HandleVoteResponse(Taker(4, Candidate, log, [0, 2, 0]), 2, AGAIN4,
                               VoteResponse(4, true)) == Taker(4, Candidate, log, [0, 2, 2])
  {
    assert SetVote(Cut(log, NONE), 2) == Cut(log, [0, 0, 2]);
  }

  lemma TakerWins(log: seq<Entry>)
    requires FullBatch(log)
    ensures BecomeLeader(Taker(4, Candidate, log, [0, 2, 2])).role == Leader
    ensures BecomeLeader(Taker(4, Candidate, log, [0, 2, 2])).term == 4
  {
    var n := Taker(4, Candidate, log, [0, 2, 2]);
    assert {1, 2} <= Voters(n);
    SubsetSize({1, 2}, Voters(n));
  }

  /** It votes again, for node 1. */
  lemma VotesAgain(p: Trace, log: seq<Entry>) returns (q: Trace)
    requires Path(p) && Quiet(p, 2) && Trio(End(p)) && FullBatch(log)
    requires End(p).nodes[1] == Taker(4, Candidate, log, [0, 2, 0]) && End(p).nodes[2] == Cut(log, NONE)
    ensures Later(p, q, 2) && Trio(End(q)) && End(q).nodes[0] == End(p).nodes[0]
    ensures End(q).nodes[1] == End(p).nodes[1]
    ensures VoteResponseMsg(2, 1, 2, AGAIN4, VoteResponse(4, true)) in End(q).voteResponses
  {
    CutVotes(log);
    CutKnowsItself(log, NONE);
    q := TakeVoteAsked(p, 1, 2, 2, Taker(4, Candidate, log, [0, 2, 0]));
    q := TakeVoteJudged(q, VoteRequestMsg(1, 2, 2, AGAIN4), Cut(log, NONE), Cut(log, [0, 0, 2]),
                        VoteResponse(4, true));
  }

  lemma CountsToo(p: Trace, log: seq<Entry>) returns (q: Trace)
    requires Path(p) && Quiet(p, 1) && Trio(End(p)) && FullBatch(log)
    requires End(p).nodes[1] == Taker(4, Candidate, log, [0, 2, 0])
    requires VoteResponseMsg(2, 1, 2, AGAIN4, VoteResponse(4, true)) in End(p).voteResponses
    ensures Later(p, q, 1) && Trio(End(q)) && End(q).nodes[0] == End(p).nodes[0]
    ensures End(q).nodes[1] == Taker(4, Candidate, log, [0, 2, 2])
  {
    CutVotes(log);
    TakerKnowsItself(4, Candidate, log, [0, 2, 0]);
    q := Take(p, DeliverVoteResponse(VoteResponseMsg(2, 1, 2, AGAIN4, VoteResponse(4, true))), 1,
              VoteResponseArrives(2, AGAIN4, VoteResponse(4, true)), Taker(4, Candidate, log, [0, 2, 2]));
  }

  lemma LeadsToo(p: Trace, log: seq<Entry>) returns (q: Trace)
    requires Path(p) && Quiet(p, 1) && Trio(End(p)) && FullBatch(log) && End(p).nodes[0] == Cutter(log, 1)
    requires End(p).nodes[1] == Taker(4, Candidate, log, [0, 2, 2])
    ensures Later(p, q, 1) && TwoLeaders(End(q), 0, 1)
  {
    TakerWins(log);
    TakerKnowsItself(4, Candidate, log, [0, 2, 2]);
    q := Take(p, BecomeLeaderStep(1), 1, TryBecomeLeader, BecomeLeader(Taker(4, Candidate, log, [0, 2, 2])));
  }

  // ---------- The run ----------

  /** How many steps come before the cut one. */
  const BEFORE: nat := 27 + 3 * (BATCH + 1)

  lemma UpToTermFour() returns (p: Trace, log: seq<Entry>)
    ensures Path(p) && p.at == BEFORE && p.breach == CutBatch && |p.steps| == 27 && p.states[0] == Start()
    ensures Trio(End(p)) && FullBatch(log) && End(p).nodes[0] == Cutter(log, BATCH + 2)
    ensures End(p).nodes[1] == Taker(4, Candidate, log, [0, 2, 0]) && End(p).nodes[2] == FORMER
  {
    p := WinsTermOne(BEFORE);
    p := WinsTermTwo(p);
    p, log := Fills(p);
    p := Replicates(p, log);
    p := StepsDown(p, log);
    p := BothCampaign(p, log);
    p := WinsTermFour(p, log);
  }

  /** Nor can it be dropped that a cut request reaches far enough: here one request of a leader of term 4 is cut
      to 8000 entries of term 2, and the run ends with two leaders of term 4. */
  lemma CutBatchElectsTwice() returns (p: Trace)
    ensures Path(p) && p.at == BEFORE && p.breach == CutBatch && |p.steps| == BEFORE + 6
    ensures IsRun(p.states, p.steps) && OneCluster(p.states[0]) && TwoLeaders(End(p), 0, 1)
  {
    StartIsInit();
    StartIsOneCluster();
    var log;
    p, log := UpToTermFour();
    p := StepsAllTheWayBack(p, log, BATCH + 2);
    p := CutsOff(p, log);
    p := VotesAgain(p, log);
    p := CountsToo(p, log);
    p := LeadsToo(p, log);
    PathIsRun(p);
  }
}
