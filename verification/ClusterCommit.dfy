/** Leader Completeness, and that no committed entry is ever lost. */
module ClusterCommit {
  import opened Types
  import opened Cluster
  import opened ClusterLog
  import opened ClusterFixed

  // ---------- Committed entries ----------

  ghost predicate Has(log: seq<Entry>, term: nat, i: nat) {
    i < |log| && log[i].term == term
  }

  /** The acknowledgement covers entry `i`, an entry of its own term. */
  ghost predicate Solid(reigns: map<nat, Reign>, a: Ack, i: nat) {
    a.term in reigns && 1 <= i <= a.upTo < |reigns[a.term].log| && reigns[a.term].log[i].term == a.term
  }

  ghost predicate Backed(acks: set<Ack>, term: nat, node: nat, i: nat) {
    exists m: nat :: m >= i && Ack(term, node, m) in acks
  }

  ghost function Backers(s: System, term: nat, i: nat): set<nat> {
    set j | j in Below(|s.ids|) && Backed(s.acks, term, j, i)
  }

  /** A majority confirmed, in `term`, to hold entry `i`, an entry of that very term. */
  ghost predicate Committed(s: System, term: nat, i: nat) {
    && term in s.reigns && i >= 1 && Has(s.reigns[term].log, term, i)
    && |Backers(s, term, i)| >= |s.ids| / 2 + 1
  }

  ghost predicate Covers(s: System, term: nat, log: seq<Entry>, c: nat, t: nat, i: nat)
    requires c < |log|
  {
    t <= term && c <= i && Committed(s, t, i) && i < |s.reigns[t].log| && log[..c + 1] == s.reigns[t].log[..c + 1]
  }

  /** `log` up to index `c` is the start of something committed no later than `term`. */
  ghost predicate CommittedPrefix(s: System, term: nat, log: seq<Entry>, c: nat) {
    c < |log| && (c == 0 || exists t: nat, i: nat :: Covers(s, term, log, c, t, i))
  }

  // ---------- The invariant ----------

  /** Some leader between the two terms does not have entry `i` of `term`. */
  ghost predicate Lost(reigns: map<nat, Reign>, term: nat, i: nat, before: nat) {
    exists t: nat :: term < t < before && t in reigns && !Has(reigns[t].log, term, i)
  }

  ghost predicate NodeKeeps(s: System, a: Ack, i: nat) {
    a.node < |s.nodes| && Solid(s.reigns, a, i) ==>
      Has(s.nodes[a.node].log, a.term, i) || Lost(s.reigns, a.term, i, s.nodes[a.node].term + 1)
  }

  ghost predicate NodesKeep(s: System) {
    forall a, i: nat :: a in s.acks ==> NodeKeeps(s, a, i)
  }

  ghost predicate CandidateKeeps(s: System, g: Grant, a: Ack, i: nat) {
    && g.candidate < |s.nodes| && g.term !in s.reigns
    && s.nodes[g.candidate].role == Candidate && s.nodes[g.candidate].term == g.term
    && a.node == g.voter && a.term < g.term && Solid(s.reigns, a, i)
    ==> Has(s.nodes[g.candidate].log, a.term, i) || Lost(s.reigns, a.term, i, g.term)
  }

  ghost predicate CandidatesKeep(s: System) {
    forall g, a, i: nat :: g in s.grants && a in s.acks ==> CandidateKeeps(s, g, a, i)
  }

  ghost predicate LeaderKeeps(s: System, t: nat, a: Ack, i: nat) {
    t in s.reigns && a.node in s.reigns[t].voters && a.term < t && Solid(s.reigns, a, i) ==>
      Has(s.reigns[t].log, a.term, i) || Lost(s.reigns, a.term, i, t)
  }

  ghost predicate LeadersKeep(s: System) {
    forall t, a, i: nat :: t in s.reigns && a in s.acks ==> LeaderKeeps(s, t, a, i)
  }

  ghost predicate GrantsCame(s: System) {
    forall g :: g in s.grants ==> g.candidate < |s.nodes| && s.nodes[g.candidate].term >= g.term
  }

  ghost predicate NodesCommitted(s: System) {
    forall k :: 0 <= k < |s.nodes| ==> CommittedPrefix(s, s.nodes[k].term, s.nodes[k].log, s.nodes[k].commitIndex)
  }

  ghost predicate RequestCommitted(s: System, req: AppendRequest) {
    && req.term in s.reigns && req.leaderCommit <= req.prevLogIndex + |req.entries|
    && CommittedPrefix(s, req.term, s.reigns[req.term].log, req.leaderCommit)
  }

  ghost predicate RequestsCommitted(s: System) {
    forall m :: m in s.appendRequests ==> RequestCommitted(s, m.req)
  }

  ghost predicate CommitInv(s: System) {
    && NodesKeep(s) && CandidatesKeep(s) && LeadersKeep(s) && GrantsCame(s)
    && NodesCommitted(s) && RequestsCommitted(s)
  }

  lemma CommitInvInit(s: System)
    requires Init(s)
    ensures CommitInv(s)
  {
  }

  // ---------- Leader Completeness ----------

  /** A committed entry is in the log of every leader of a later term. */
  lemma {:induction false} LeaderCompleteness(s: System, term: nat, i: nat, t: nat)
    requires ReignsOk(s) && ElectionsOk(s) && AcksOk(s) && LeadersKeep(s)
    requires Committed(s, term, i) && t in s.reigns && term < t
    ensures Has(s.reigns[t].log, term, i)
    decreases t
  {
    assert ElectedOk(s, t) && ReignOk(s, term);
    var j := QuorumsMeet(s.reigns[t].voters, Backers(s, term, i), |s.ids|);
    var m: nat :| m >= i && Ack(term, j, m) in s.acks;
    var a := Ack(term, j, m);
    assert AckOk(s, a) && LeaderKeeps(s, t, a, i);
    if !Has(s.reigns[t].log, term, i) {
      var t' :| term < t' < t && t' in s.reigns && !Has(s.reigns[t'].log, term, i);
      LeaderCompleteness(s, term, i, t');
    }
  }

  /** The same about whole prefixes: what is committed by `term` starts the log of every leader from then on. */
  lemma CommittedStartsLeaderLog(s: System, term: nat, log: seq<Entry>, c: nat, t: nat)
    requires ReignsOk(s) && ElectionsOk(s) && AcksOk(s) && LeadersKeep(s)
    requires CommittedPrefix(s, term, log, c) && |log| >= 1 && log[0] == SENTINEL
    requires t in s.reigns && term <= t
    ensures c < |s.reigns[t].log| && s.reigns[t].log[..c + 1] == log[..c + 1]
  {
    var l := s.reigns[t].log;
    assert ReignOk(s, t);
    if c == 0 {
      assert l[..1] == [SENTINEL] && log[..1] == [SENTINEL];
    } else {
      var t0: nat, i: nat :| Covers(s, term, log, c, t0, i);
      var l0 := s.reigns[t0].log;
      if t0 < t {
        LeaderCompleteness(s, t0, i, t);
        assert ReignOk(s, t0);
        LogMatching(s.reigns, l, l0, i);
        ShorterPrefix(l, l0, i + 1, c + 1);
      }
    }
  }

  lemma ShorterPrefix<T>(a: seq<T>, b: seq<T>, u: nat, v: nat)
    requires v <= u <= |a| && u <= |b| && a[..u] == b[..u]
    ensures a[..v] == b[..v]
  {
    assert a[..v] == a[..u][..v] && b[..v] == b[..u][..v];
  }

  /** Two committed prefixes agree wherever both reach. */
  lemma CommittedAgree(s: System, t1: nat, log1: seq<Entry>, c1: nat, t2: nat, log2: seq<Entry>, c2: nat, c: nat)
    requires ReignsOk(s) && ElectionsOk(s) && AcksOk(s) && LeadersKeep(s)
    requires CommittedPrefix(s, t1, log1, c1) && |log1| >= 1 && log1[0] == SENTINEL
    requires CommittedPrefix(s, t2, log2, c2) && |log2| >= 1 && log2[0] == SENTINEL
    requires c <= c1 && c <= c2
    ensures log1[..c + 1] == log2[..c + 1]
  {
    if c1 == 0 || c2 == 0 {
      assert log1[..1] == [SENTINEL] && log2[..1] == [SENTINEL];
    } else {
      var u1: nat, i1: nat :| Covers(s, t1, log1, c1, u1, i1);
      var u2: nat, i2: nat :| Covers(s, t2, log2, c2, u2, i2);
      if u1 <= u2 {
        CoveredAgree(s, log1, c1, u1, i1, log2, c2, t2, u2, i2, c);
      } else {
        CoveredAgree(s, log2, c2, u2, i2, log1, c1, t1, u1, i1, c);
      }
    }
  }

  lemma CoveredAgree(s: System, log1: seq<Entry>, c1: nat, u1: nat, i1: nat,
                     log2: seq<Entry>, c2: nat, t2: nat, u2: nat, i2: nat, c: nat)
    requires ReignsOk(s) && ElectionsOk(s) && AcksOk(s) && LeadersKeep(s)
    requires c1 < |log1| && log1[0] == SENTINEL && Covers(s, u1, log1, c1, u1, i1)
    requires c2 < |log2| && Covers(s, t2, log2, c2, u2, i2)
    requires u1 <= u2 && c <= c1 && c <= c2
    ensures log1[..c + 1] == log2[..c + 1]
  {
    CommittedStartsLeaderLog(s, u1, log1, c1, u2);
    ShorterPrefix(log1, s.reigns[u2].log, c1 + 1, c + 1);
    ShorterPrefix(log2, s.reigns[u2].log, c2 + 1, c + 1);
  }

  // ---------- How history may grow without losing anything ----------

  /** Reigns are added, and a reign's log grows only by entries of its own term. */
  ghost predicate Grown(r: map<nat, Reign>, r': map<nat, Reign>) {
    && Extends(r, r')
    && forall t, i: nat :: t in r && |r[t].log| <= i < |r'[t].log| ==> r'[t].log[i].term == t
  }

  lemma LostStays(r: map<nat, Reign>, r': map<nat, Reign>, term: nat, i: nat, before: nat, before': nat)
    requires Grown(r, r') && before <= before' && Lost(r, term, i, before)
    ensures Lost(r', term, i, before')
  {
    var t :| term < t < before && t in r && !Has(r[t].log, term, i);
    assert !Has(r'[t].log, term, i);
  }

  lemma SolidStays(s: System, r': map<nat, Reign>, a: Ack, i: nat)
    requires AckOk(s, a) && Grown(s.reigns, r')
    ensures Solid(r', a, i) ==> Solid(s.reigns, a, i)
  {
  }

  lemma BackersGrow(s: System, s': System, term: nat, i: nat)
    requires s'.ids == s.ids && s.acks <= s'.acks
    ensures |Backers(s, term, i)| <= |Backers(s', term, i)|
  {
    forall j | j in Backers(s, term, i) ensures j in Backers(s', term, i) {
      var m: nat :| m >= i && Ack(term, j, m) in s.acks;
      assert Ack(term, j, m) in s'.acks;
    }
    SubsetSize(Backers(s, term, i), Backers(s', term, i));
  }

  ghost predicate HistoryGrows(s: System, s': System) {
    s'.ids == s.ids && s.acks <= s'.acks && Grown(s.reigns, s'.reigns)
  }

  lemma CommittedStays(s: System, s': System, term: nat, i: nat)
    requires HistoryGrows(s, s') && Committed(s, term, i)
    ensures Committed(s', term, i)
  {
    BackersGrow(s, s', term, i);
  }

  /** A committed prefix stays one: over later history, for a later term, in a log that keeps it. */
  lemma CommittedPrefixStays(s: System, s': System, term: nat, term': nat, log: seq<Entry>, log': seq<Entry>, c: nat)
    requires HistoryGrows(s, s') && CommittedPrefix(s, term, log, c) && term <= term'
    requires c < |log'| && log'[..c + 1] == log[..c + 1]
    ensures CommittedPrefix(s', term', log', c)
  {
    if c > 0 {
      var t: nat, i: nat :| Covers(s, term, log, c, t, i);
      CommittedStays(s, s', t, i);
      assert s'.reigns[t].log[..c + 1] == s.reigns[t].log[..c + 1];
      assert Covers(s', term', log', c, t, i);
    }
  }
}
