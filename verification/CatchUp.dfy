/** One leader bringing one follower up to date: what repeated exchanges of append requests and
    responses do, round by round, until the follower holds the leader's whole log. */
module CatchUp {
  import opened Types
  import opened Raft
  import opened NodeInvariants
  import opened NodeEffects
  import opened Cluster
  import opened ClusterLog
  import opened ClusterSafety

  ghost predicate LogsMatch(a: seq<Entry>, b: seq<Entry>) {
    && |a| >= 1 && |b| >= 1 && a[0] == b[0]
    && forall i :: 0 <= i < |a| && i < |b| && a[i].term == b[i].term ==> a[..i + 1] == b[..i + 1]
  }

  function Next(l: Node, peer: nat): nat
    requires peer < |l.cluster|
  {
    l.cluster[peer].nextIndex
  }

  /** A leader, and a follower (at index `peer` of the leader's cluster) of no later term. */
  ghost predicate Facing(l: Node, f: Node, peer: nat) {
    && WellFormed(l) && WellFormed(f)
    && l.role == Leader && f.term <= l.term && (f.term == l.term ==> f.role != Leader)
    && peer < |l.cluster| && 1 <= Next(l, peer) <= |l.log|
  }

  /** The same, with logs that agree up to wherever they hold an entry of one term. */
  ghost predicate Pairing(l: Node, f: Node, peer: nat) {
    Facing(l, f, peer) && LogsMatch(l.log, f.log)
  }

  /** The logs agree at the entry before the next one to send. */
  predicate Agreed(l: seq<Entry>, f: seq<Entry>, next: nat)
    requires 1 <= next <= |l|
  {
    next == 1 || (next - 1 < |f| && f[next - 1].term == l[next - 1].term)
  }

  /** The original can build the request and take the response without an index out of range. */
  ghost predicate CanExchange(l: Node, f: Node, peer: nat) {
    WellFormed(f) && l.self < |l.cluster| && peer < |l.cluster| && 1 <= Next(l, peer) <= |l.log|
  }

  /** One request and its response. */
  ghost function Exchange(l: Node, f: Node, peer: nat): (Node, Node)
    requires CanExchange(l, f, peer)
  {
    var req := BuildAppendRequest(l, peer);
    var (f', rsp) := HandleAppendRequest(f, req);
    (HandleAppendResponse(l, peer, req, rsp), f')
  }

  // ---------- One round ----------

  lemma SpliceCatches(l: seq<Entry>, f: seq<Entry>, next: nat, end: nat, es: seq<Entry>,
                                         log: seq<Entry>)
    requires LogsMatch(l, f) && 1 <= next <= end <= |l| && next <= |f| && Agreed(l, f, next)
    requires es == l[next..end] && log == Splice(f, next, es)
    ensures end <= |log| && log[..end] == l[..end] && LogsMatch(l, log)
  {
    var c := Matching(f, next, es);
    assert f[..next + c] == l[..next + c] by {
      if c > 0 {
        MatchingIsExact(f, next, es, c - 1);
        assert es[c - 1] == l[next + (c - 1)];
      } else if next == 1 {
        assert f[..1] == [f[0]] && l[..1] == [l[0]];
      }
    }
    if c < |es| {
      RestOfPrefix(l, next, end, es, c);
      PrefixMatches(l, end);
    }
  }

  lemma RestOfPrefix(l: seq<Entry>, next: nat, end: nat, es: seq<Entry>, c: nat)
    requires next <= end <= |l| && es == l[next..end] && c <= |es|
    ensures l[..next + c] + es[c..] == l[..end]
  {
  }

  lemma PrefixMatches(l: seq<Entry>, end: nat)
    requires 1 <= end <= |l|
    ensures LogsMatch(l, l[..end])
  {
  }

  lemma FollowerAccepts(l: Node, f: Node, peer: nat, req: AppendRequest)
    requires Facing(l, f, peer) && req == BuildAppendRequest(l, peer)
    ensures req.term == l.term && Ready(f, req).term == l.term && Ready(f, req).role == Follower
    ensures req.prevLogIndex + 1 == Next(l, peer) && Ready(f, req).log == f.log && req.leaderCommit == l.commitIndex
    ensures Accepts(f, req) <==> Agreed(l.log, f.log, Next(l, peer))
  {
  }

  /** How far the follower has committed after it has answered: as far as the leader, if its log goes that far,
      unless it had committed more or refuses. */
  function CommitAfter(l: Node, f: Node, success: bool, f': Node): int {
    if success && l.commitIndex > f.commitIndex then Min(l.commitIndex, |f'.log| - 1) else f.commitIndex
  }

  /** The follower's side of a round. */
  lemma FollowerDecides(l: Node, f: Node, peer: nat, req: AppendRequest, f': Node, rsp: AppendResponse)
    requires Facing(l, f, peer) && req == BuildAppendRequest(l, peer) && (f', rsp) == HandleAppendRequest(f, req)
    ensures WellFormed(f') && f'.term == l.term == rsp.term && f'.role == Follower
    ensures rsp.success == Agreed(l.log, f.log, Next(l, peer)) && (rsp.success ==> Next(l, peer) <= |f.log|)
    ensures f'.log == if rsp.success then Splice(f.log, Next(l, peer), req.entries) else f.log
    ensures f'.commitIndex == CommitAfter(l, f, rsp.success, f')
  {
    FollowerAccepts(l, f, peer, req);
    FollowerAnswers(f, req, l.term, f', rsp);
  }

  lemma FollowerAnswers(f: Node, req: AppendRequest, term: nat, f': Node, rsp: AppendResponse)
    requires WellFormed(f) && req.term == Ready(f, req).term == term && Ready(f, req).log == f.log
    requires (f', rsp) == HandleAppendRequest(f, req)
    ensures WellFormed(f') && f'.term == term == rsp.term && f'.role == Ready(f, req).role
    ensures rsp.success == Accepts(f, req) && (rsp.success ==> req.prevLogIndex < |f.log|)
    ensures f'.log == if rsp.success then Splice(f.log, req.prevLogIndex + 1, req.entries) else f.log
    ensures f'.commitIndex == if rsp.success && req.leaderCommit > f.commitIndex
                              then Min(req.leaderCommit, |f'.log| - 1) else f.commitIndex
  {
    HandleAppendWellFormed(f, req);
    AppendRequestFields(f, req, f');
    AppendRequestSplit(f, req);
  }

  lemma FollowerCatches(l: Node, f: Node, peer: nat, req: AppendRequest, f': Node, end: nat)
    requires Pairing(l, f, peer) && req == BuildAppendRequest(l, peer) && f' == HandleAppendRequest(f, req).0
    requires end == Next(l, peer) + |req.entries|
    ensures LogsMatch(l.log, f'.log)
    ensures Agreed(l.log, f.log, Next(l, peer)) ==> Caught(l.log, f'.log, end - 1)
  {
    FollowerDecides(l, f, peer, req, f', HandleAppendRequest(f, req).1);
    if Agreed(l.log, f.log, Next(l, peer)) {
      SentEntries(l, peer, req, end);
      SpliceCatches(l.log, f.log, Next(l, peer), end, req.entries, f'.log);
    }
  }

  lemma SentEntries(l: Node, peer: nat, req: AppendRequest, end: nat)
    requires WellFormed(l) && peer < |l.cluster| && 1 <= Next(l, peer) <= |l.log|
    requires req == BuildAppendRequest(l, peer) && end == Next(l, peer) + |req.entries|
    ensures end <= |l.log| && req.entries == l.log[Next(l, peer)..end]
  {
  }

  lemma BatchSize(l: Node, peer: nat)
    requires WellFormed(l) && peer < |l.cluster| && 1 <= Next(l, peer) <= |l.log|
    ensures |BuildAppendRequest(l, peer).entries| == Min(BATCH, |l.log| - Next(l, peer))
  {
  }

  /** The leader's side of a round. */
  lemma LeaderTakes(l: Node, peer: nat, req: AppendRequest, rsp: AppendResponse, l': Node)
    requires WellFormed(l) && peer < |l.cluster| && 1 <= Next(l, peer) <= |l.log| && rsp.term == l.term
    requires req == BuildAppendRequest(l, peer) && (!rsp.success ==> Next(l, peer) > 1)
    requires l' == HandleAppendResponse(l, peer, req, rsp)
    ensures WellFormed(l') && l'.log == l.log && l'.role == l.role && l'.term == l.term && |l'.cluster| == |l.cluster|
    ensures l'.commitIndex == l.commitIndex
    ensures Next(l', peer) == if rsp.success then Next(l, peer) + |req.entries| else Next(l, peer) - 1
    ensures l'.cluster[peer].matchIndex == if rsp.success then Next(l', peer) - 1 else l.cluster[peer].matchIndex
  {
    SameMembersWellFormed(l, l');
  }

  /** The follower holds the leader's log up to and including index `m`. */
  ghost predicate Caught(l: seq<Entry>, f: seq<Entry>, m: nat) {
    m < |l| && m < |f| && f[..m + 1] == l[..m + 1]
  }

  /** One round either steps `nextIndex` back by one and changes nothing else, or moves it on by one batch and
      leaves the follower with the leader's log up to there, and with the leader's commit index, if that is
      the higher one, as far as its log goes. */
  ghost predicate RoundDone(l: Node, f: Node, peer: nat, l': Node, f': Node) {
    && peer < |l.cluster| && 1 <= Next(l, peer) <= |l.log| && Pairing(l', f', peer) && l'.log == l.log
    && f'.role == Follower && l'.commitIndex == l.commitIndex
    && f'.commitIndex == CommitAfter(l, f, Agreed(l.log, f.log, Next(l, peer)), f')
    && if Agreed(l.log, f.log, Next(l, peer)) then
         && Next(l', peer) == Next(l, peer) + Min(BATCH, |l.log| - Next(l, peer))
         && l'.cluster[peer].matchIndex == Next(l', peer) - 1 && Caught(l.log, f'.log, Next(l', peer) - 1)
       else
         && Next(l', peer) == Next(l, peer) - 1
         && l'.cluster[peer].matchIndex == l.cluster[peer].matchIndex && f'.log == f.log
  }

  /** Which of the two it is depends only on whether the logs agree before the next entry. */
  lemma Round(l: Node, f: Node, peer: nat, l': Node, f': Node)
    requires Pairing(l, f, peer) && (l', f') == Exchange(l, f, peer)
    ensures RoundDone(l, f, peer, l', f')
  {
    var req := BuildAppendRequest(l, peer);
    var rsp := HandleAppendRequest(f, req).1;
    FollowerDecides(l, f, peer, req, f', rsp);
    var end := Next(l, peer) + |req.entries|;
    FollowerCatches(l, f, peer, req, f', end);
    BatchSize(l, peer);
    LeaderTakes(l, peer, req, rsp, l');
    Concluded(l, f, peer, end, rsp.success, l', f');
  }

  lemma Concluded(l: Node, f: Node, peer: nat, end: nat, success: bool, l': Node, f': Node)
    requires Pairing(l, f, peer) && WellFormed(l') && l'.log == l.log && l'.role == l.role && l'.term == l.term
    requires WellFormed(f') && f'.term == l.term && f'.role == Follower && LogsMatch(l.log, f'.log)
    requires |l'.cluster| == |l.cluster|
    requires end == Next(l, peer) + Min(BATCH, |l.log| - Next(l, peer))
    requires success == Agreed(l.log, f.log, Next(l, peer))
    requires Next(l', peer) == if success then end else Next(l, peer) - 1
    requires l'.cluster[peer].matchIndex == if success then Next(l', peer) - 1 else l.cluster[peer].matchIndex
    requires Agreed(l.log, f.log, Next(l, peer)) ==> Caught(l.log, f'.log, end - 1)
    requires !success ==> f'.log == f.log
    requires l'.commitIndex == l.commitIndex && f'.commitIndex == CommitAfter(l, f, success, f')
    ensures RoundDone(l, f, peer, l', f')
  {
  }

  // ---------- All rounds ----------

  /** How often the follower says no. */
  function Rejections(l: seq<Entry>, f: seq<Entry>, next: nat): (r: nat)
    requires 1 <= next <= |l|
    ensures r <= next - 1
    ensures Agreed(l, f, next - r)
    ensures forall x :: next - r < x <= next ==> !Agreed(l, f, x)
  {
    if Agreed(l, f, next) then 0 else 1 + Rejections(l, f, next - 1)
  }

  /** Leader and follower before, between and after the rounds. */
  ghost predicate Exchanges(ls: seq<Node>, fs: seq<Node>, peer: nat) {
    && |ls| == |fs| >= 1
    && forall k :: 0 <= k < |ls| - 1 ==> Exchanged(ls, fs, peer, k)
  }

  ghost predicate Exchanged(ls: seq<Node>, fs: seq<Node>, peer: nat, k: nat)
    requires k + 1 < |ls| == |fs|
  {
    CanExchange(ls[k], fs[k], peer) ==> (ls[k + 1], fs[k + 1]) == Exchange(ls[k], fs[k], peer)
  }

  /** `nextIndex` after `k` rounds, of which the first `r` are rejected, from `next` in a log of length `len`. */
  function NextAfter(next: nat, len: nat, r: nat, k: nat): int {
    if k <= r then next - k else Min(next - r + BATCH * (k - r), len)
  }

  /** Where leader and follower are after `k` rounds, of which the first `r` are rejected. */
  ghost predicate After(l: Node, f: Node, peer: nat, k: nat, r: nat, lk: Node, fk: Node) {
    && Pairing(lk, fk, peer) && peer < |l.cluster| && lk.log == l.log && lk.commitIndex == l.commitIndex
    && (k > 0 ==> fk.role == Follower) && (k > r ==> fk.commitIndex >= Min(l.commitIndex, |fk.log| - 1))
    && Next(lk, peer) == NextAfter(Next(l, peer), |l.log|, r, k)
    && (Agreed(lk.log, fk.log, Next(lk, peer)) <==> k >= r)
    && if k <= r then fk.log == f.log && lk.cluster[peer].matchIndex == l.cluster[peer].matchIndex
       else Caught(l.log, fk.log, lk.cluster[peer].matchIndex) && lk.cluster[peer].matchIndex == Next(lk, peer) - 1
  }

  /** The whole course of a catch-up in closed form. With `r` the number of rejections, at most
      `nextIndex - 1`: the first `r` rounds step back one entry each, every later round is accepted and
      moves on by one batch, and at any time the follower holds the leader's log up to `matchIndex`. */
  lemma Trajectory(ls: seq<Node>, fs: seq<Node>, peer: nat, k: nat)
    requires Exchanges(ls, fs, peer) && Pairing(ls[0], fs[0], peer) && k < |ls|
    ensures After(ls[0], fs[0], peer, k, Rejections(ls[0].log, fs[0].log, Next(ls[0], peer)), ls[k], fs[k])
  {
    TrajectoryUpTo(ls, fs, peer, k, Rejections(ls[0].log, fs[0].log, Next(ls[0], peer)));
  }

  lemma {:induction false} TrajectoryUpTo(ls: seq<Node>, fs: seq<Node>, peer: nat, k: nat, r: nat)
    requires Exchanges(ls, fs, peer) && Pairing(ls[0], fs[0], peer) && k < |ls|
    requires r == Rejections(ls[0].log, fs[0].log, Next(ls[0], peer))
    ensures After(ls[0], fs[0], peer, k, r, ls[k], fs[k])
    decreases k
  {
    if k > 0 {
      TrajectoryUpTo(ls, fs, peer, k - 1, r);
      TrajectoryAt(ls, fs, peer, k - 1, r);
    }
  }

  lemma TrajectoryAt(ls: seq<Node>, fs: seq<Node>, peer: nat, k: nat, r: nat)
    requires Exchanges(ls, fs, peer) && Pairing(ls[0], fs[0], peer) && k + 1 < |ls|
    requires r == Rejections(ls[0].log, fs[0].log, Next(ls[0], peer)) && After(ls[0], fs[0], peer, k, r, ls[k], fs[k])
    ensures After(ls[0], fs[0], peer, k + 1, r, ls[k + 1], fs[k + 1])
  {
    assert Exchanged(ls, fs, peer, k);
    Round(ls[k], fs[k], peer, ls[k + 1], fs[k + 1]);
    OneMore(ls[0], fs[0], peer, k, r, ls[k], fs[k], ls[k + 1], fs[k + 1]);
  }

  lemma OneMore(l: Node, f: Node, peer: nat, k: nat, r: nat, lk: Node, fk: Node, l': Node, f': Node)
    requires peer < |l.cluster| && 1 <= Next(l, peer) <= |l.log| && r == Rejections(l.log, f.log, Next(l, peer))
    requires After(l, f, peer, k, r, lk, fk) && RoundDone(lk, fk, peer, l', f')
    ensures After(l, f, peer, k + 1, r, l', f')
  {
    if k >= r {
      CaughtAgrees(l.log, f'.log, Next(l', peer));
    }
  }

  /** Once caught up to `nextIndex`, the follower says yes. */
  lemma CaughtAgrees(l: seq<Entry>, f: seq<Entry>, next: nat)
    requires next >= 1 && Caught(l, f, next - 1)
    ensures Agreed(l, f, next)
  {
    assert f[..next][next - 1] == l[..next][next - 1];
  }

  /** After at most `nextIndex` rounds plus one per batch of the leader's log, the follower holds the leader's
      whole log and has committed as much of it as the leader has, and the leader knows of the log. */
  lemma CaughtUp(ls: seq<Node>, fs: seq<Node>, peer: nat, k: nat)
    requires Exchanges(ls, fs, peer) && Pairing(ls[0], fs[0], peer)
    requires Next(ls[0], peer) + |ls[0].log| / BATCH <= k < |ls|
    ensures ls[k].log == ls[0].log && ls[0].log <= fs[k].log
    ensures ls[0].commitIndex < |ls[0].log| ==> fs[k].commitIndex >= ls[0].commitIndex == ls[k].commitIndex
    ensures peer < |ls[k].cluster| && ls[k].cluster[peer].matchIndex == |ls[0].log| - 1
    ensures WellFormed(fs[k]) && fs[k].role == Follower
  {
    Trajectory(ls, fs, peer, k);
    var log := ls[0].log;
    EnoughBatches(|log|, k - Rejections(log, fs[0].log, Next(ls[0], peer)));
    assert Caught(log, fs[k].log, |log| - 1) && log[..|log|] == log;
  }

  /** And once it then has applied what it can, its state machine has seen every command that the leader had
      committed, in order. */
  lemma CaughtUpApplies(ls: seq<Node>, fs: seq<Node>, peer: nat, k: nat, j: nat)
    requires Exchanges(ls, fs, peer) && Pairing(ls[0], fs[0], peer) && ls[0].commitIndex < |ls[0].log|
    requires Next(ls[0], peer) + |ls[0].log| / BATCH <= k < |ls|
    requires AppliedOk(fs[k]) && j >= fs[k].commitIndex + 1 - fs[k].lastApplied
    ensures CommandsOf(ls[0].log[..ls[0].commitIndex + 1]) <= AfterSteps(fs[k], j).applied
  {
    CaughtUp(ls, fs, peer, k);
    FollowerApplies(ls[0].log, ls[0].commitIndex + 1, fs[k], j);
  }

  lemma FollowerApplies(log: seq<Entry>, c: nat, f: Node, j: nat)
    requires f.role != Leader && WellFormed(f) && AppliedOk(f) && log <= f.log
    requires c <= |log| && c <= f.commitIndex + 1 && j >= f.commitIndex + 1 - f.lastApplied
    ensures CommandsOf(log[..c]) <= AfterSteps(f, j).applied
  {
    AppliedInFull(f, j);
    SharedCommands(log, f.log, c, f.commitIndex + 1);
  }

  lemma SharedCommands(a: seq<Entry>, b: seq<Entry>, c: nat, d: nat)
    requires a <= b && c <= |a| && c <= d <= |b|
    ensures CommandsOf(a[..c]) <= CommandsOf(b[..d])
  {
    assert b[..c] == a[..c];
    CommandsOfPrefix(b[..c], b[..d]);
  }

  lemma EnoughBatches(len: nat, d: nat)
    requires d >= len / BATCH + 1
    ensures BATCH * d >= len
  {
  }

  // ---------- In the cluster ----------

  /** In every reachable state with one leader per term, a leader and any other node of no later term that
      it lists (at `i`) are such a pair. */
  lemma PairingInRun(states: seq<System>, steps: seq<Step>, x: nat, k: nat, i: nat, p: nat)
    requires SingleLeaderRun(states, steps) && x < |states|
    requires k < |states[x].nodes| && states[x].nodes[k].role == Leader && Addresses(states[x], k, i, p) && p != k
    ensures p < |states[x].nodes|
    ensures states[x].nodes[p].term <= states[x].nodes[k].term ==> Pairing(states[x].nodes[k], states[x].nodes[p], i)
  {
    LogInvRun(states, steps, x);
    MatchIndexSound(states, steps, x, k, i, p);
    LeaderAndOther(states[x], k, p);
  }

  lemma LeaderAndOther(s: System, k: nat, p: nat)
    requires LogInv(s) && k < |s.nodes| && p < |s.nodes| && p != k && s.nodes[k].role == Leader
    ensures WellFormed(s.nodes[k]) && WellFormed(s.nodes[p]) && LogsMatch(s.nodes[k].log, s.nodes[p].log)
    ensures s.nodes[p].term == s.nodes[k].term ==> s.nodes[p].role != Leader
  {
    var l, f := s.nodes[k], s.nodes[p];
    assert NodeKnown(s.ids, l, k) && NodeKnown(s.ids, f, p) && NodeLogOk(s.reigns, l, k) && NodeLogOk(s.reigns, f, p);
    forall j | 0 <= j < |l.log| && j < |f.log| && l.log[j].term == f.log[j].term
      ensures l.log[..j + 1] == f.log[..j + 1]
    {
      LogMatching(s.reigns, l.log, f.log, j);
    }
  }
}
