/** Every step keeps the commit invariant. */
module ClusterCommitRun {
  import opened Types
  import opened OrderStatistic
  import opened Raft
  import opened Cluster
  import opened ClusterLog
  import opened ClusterLogRun
  import opened ClusterFixed
  import opened ClusterVotes
  import opened ClusterCommit

  // ---------- What a step must show about the one node it changes ----------

  /** A log change that gives up an entry only when some later leader does not have it. */
  ghost predicate KeepsOrLost(r: map<nat, Reign>, log: seq<Entry>, log': seq<Entry>, term: nat, i: nat, before: nat) {
    Has(log, term, i) ==> Has(log', term, i) || Lost(r, term, i, before)
  }

  ghost predicate OldAcksKept(s: System, s': System, k: nat, n': Node)
    requires k < |s.nodes|
  {
    forall a, i: nat :: a in s.acks && a.node == k && Solid(s.reigns, a, i) ==>
      KeepsOrLost(s'.reigns, s.nodes[k].log, n'.log, a.term, i, n'.term + 1)
  }

  ghost predicate NewAck(s': System, k: nat, n': Node, a: Ack) {
    a.node == k && a.term == n'.term && forall i: nat :: Solid(s'.reigns, a, i) ==> Has(n'.log, a.term, i)
  }

  ghost predicate NewAcksTrue(s: System, s': System, k: nat, n': Node) {
    forall a :: a in s'.acks ==> a in s.acks || NewAck(s', k, n', a)
  }

  /** The node is a candidate only if it already was, or if nobody has voted for it yet. */
  ghost predicate CandidacyKept(s: System, k: nat, n': Node)
    requires k < |s.nodes|
  {
    n'.role == Candidate ==>
      || (s.nodes[k].role == Candidate && n'.term == s.nodes[k].term && n'.log == s.nodes[k].log)
      || (forall g :: g in s.grants && g.candidate == k ==> g.term < n'.term)
  }

  ghost predicate NewGrants(s: System, s': System) {
    forall g, a, i: nat :: g in s'.grants && g !in s.grants && a in s'.acks ==> CandidateKeeps(s', g, a, i)
  }

  ghost predicate NewReigns(s: System, s': System) {
    forall t, a, i: nat :: t in s'.reigns && t !in s.reigns && a in s'.acks ==> LeaderKeeps(s', t, a, i)
  }

  ghost predicate OneNode(s: System, s': System, k: nat, n': Node) {
    && k < |s.nodes| && n'.term >= s.nodes[k].term
    && s'.nodes == s.nodes[k := n'] && HistoryGrows(s, s') && s.grants <= s'.grants
  }

  // ---------- The parts of the invariant, one by one ----------

  lemma NodesKeepStep(s: System, s': System, k: nat, n': Node)
    requires OneNode(s, s', k, n') && NodesKeep(s) && AcksOk(s)
    requires OldAcksKept(s, s', k, n') && NewAcksTrue(s, s', k, n')
    ensures NodesKeep(s')
  {
    forall a, i: nat | a in s'.acks ensures NodeKeeps(s', a, i) {
      if a in s.acks && Solid(s'.reigns, a, i) {
        assert AckOk(s, a) && NodeKeeps(s, a, i);
        SolidStays(s, s'.reigns, a, i);
        var n := s.nodes[a.node];
        if Lost(s.reigns, a.term, i, n.term + 1) {
          LostStays(s.reigns, s'.reigns, a.term, i, n.term + 1, s'.nodes[a.node].term + 1);
        } else if a.node == k {
          assert KeepsOrLost(s'.reigns, n.log, n'.log, a.term, i, n'.term + 1);
        }
      } else if a !in s.acks {
        assert NewAck(s', k, n', a);
      }
    }
  }

  lemma CandidatesKeepStep(s: System, s': System, k: nat, n': Node)
    requires OneNode(s, s', k, n') && CandidatesKeep(s) && AcksOk(s) && GrantsOk(s)
    requires CandidacyKept(s, k, n') && NewAcksTrue(s, s', k, n') && NewGrants(s, s')
    ensures CandidatesKeep(s')
  {
    forall g, a, i: nat | g in s'.grants && a in s'.acks ensures CandidateKeeps(s', g, a, i) {
      if g !in s.grants {
        assert CandidateKeeps(s', g, a, i);
      } else if a in s.acks {
        assert AckOk(s, a) && CandidateKeeps(s, g, a, i);
        SolidStays(s, s'.reigns, a, i);
        if Lost(s.reigns, a.term, i, g.term) {
          LostStays(s.reigns, s'.reigns, a.term, i, g.term, g.term);
        }
      } else {
        assert GrantOk(s, g) && NewAck(s', k, n', a);
      }
    }
  }

  lemma LeadersKeepStep(s: System, s': System, k: nat, n': Node)
    requires OneNode(s, s', k, n') && LeadersKeep(s) && AcksOk(s)
    requires GrantsOk(s) && Elected(s) && NewAcksTrue(s, s', k, n') && NewReigns(s, s')
    ensures LeadersKeep(s')
  {
    forall t, a, i: nat | t in s'.reigns && a in s'.acks ensures LeaderKeeps(s', t, a, i) {
      if t !in s.reigns {
        assert LeaderKeeps(s', t, a, i);
      } else if a in s.acks {
        assert AckOk(s, a) && LeaderKeeps(s, t, a, i);
        SolidStays(s, s'.reigns, a, i);
        if Lost(s.reigns, a.term, i, t) {
          LostStays(s.reigns, s'.reigns, a.term, i, t, t);
        }
      } else {
        assert NewAck(s', k, n', a);
        if k in s.reigns[t].voters {
          assert GrantOk(s, Grant(t, k, s.reigns[t].leader));
        }
      }
    }
  }

  lemma NodesCommittedStep(s: System, s': System, k: nat, n': Node)
    requires OneNode(s, s', k, n') && NodesCommitted(s)
    requires CommittedPrefix(s', n'.term, n'.log, n'.commitIndex)
    ensures NodesCommitted(s')
  {
    forall j | 0 <= j < |s'.nodes|
      ensures CommittedPrefix(s', s'.nodes[j].term, s'.nodes[j].log, s'.nodes[j].commitIndex)
    {
      if j != k {
        var n := s.nodes[j];
        CommittedPrefixStays(s, s', n.term, n.term, n.log, n.log, n.commitIndex);
      }
    }
  }

  lemma RequestsCommittedStep(s: System, s': System)
    requires HistoryGrows(s, s') && RequestsCommitted(s)
    requires forall m :: m in s'.appendRequests && m !in s.appendRequests ==> RequestCommitted(s', m.req)
    ensures RequestsCommitted(s')
  {
    forall m | m in s'.appendRequests ensures RequestCommitted(s', m.req) {
      if m in s.appendRequests {
        assert RequestCommitted(s, m.req);
        var t, c := m.req.term, m.req.leaderCommit;
        assert s'.reigns[t].log[..c + 1] == s.reigns[t].log[..c + 1];
        CommittedPrefixStays(s, s', t, t, s.reigns[t].log, s'.reigns[t].log, c);
      }
    }
  }

  /** All of it together, for a step that changes one node. */
  lemma CommitInvOneNode(s: System, s': System, k: nat, n': Node)
    requires CommitInv(s) && AcksOk(s) && GrantsOk(s) && Elected(s)
    requires OneNode(s, s', k, n')
    requires OldAcksKept(s, s', k, n') && NewAcksTrue(s, s', k, n') && CandidacyKept(s, k, n')
    requires NewGrants(s, s') && NewReigns(s, s') && GrantsCame(s')
    requires CommittedPrefix(s', n'.term, n'.log, n'.commitIndex)
    requires forall m :: m in s'.appendRequests ==> m in s.appendRequests
    ensures CommitInv(s')
  {
    NodesKeepStep(s, s', k, n');
    CandidatesKeepStep(s, s', k, n');
    LeadersKeepStep(s, s', k, n');
    NodesCommittedStep(s, s', k, n');
    RequestsCommittedStep(s, s');
  }

  lemma GrownReflexive(r: map<nat, Reign>)
    ensures Grown(r, r)
  {
  }

  // ---------- Steps that keep log, history and commit index ----------

  lemma CalmStep(s: System, s': System, k: nat, n': Node)
    requires CommitInv(s) && AcksOk(s) && GrantsOk(s) && Elected(s)
    requires OneNode(s, s', k, n') && n'.log == s.nodes[k].log && n'.commitIndex == s.nodes[k].commitIndex
    requires s'.reigns == s.reigns && s'.acks == s.acks && s'.appendRequests == s.appendRequests
    requires CandidacyKept(s, k, n') && NewGrants(s, s') && GrantsCame(s')
    ensures CommitInv(s')
  {
    var n := s.nodes[k];
    CommittedPrefixStays(s, s', n.term, n'.term, n.log, n'.log, n.commitIndex);
    CommitInvOneNode(s, s', k, n');
  }

  /** A step that gives no vote and leaves the log alone. */
  lemma QuietCommit(s: System, s': System, k: nat, n': Node)
    requires CommitInv(s) && AcksOk(s) && GrantsOk(s) && Elected(s) && k < |s.nodes|
    requires Quiet(s.nodes[k], n') && n'.commitIndex == s.nodes[k].commitIndex
    requires n'.role == Candidate ==> n'.term == s.nodes[k].term
    requires s'.ids == s.ids && s'.nodes == s.nodes[k := n'] && s'.grants == s.grants
    requires s'.reigns == s.reigns && s'.acks == s.acks && s'.appendRequests == s.appendRequests
    ensures CommitInv(s')
  {
    GrownReflexive(s.reigns);
    assert OneNode(s, s', k, n');
    assert CandidacyKept(s, k, n') && NewGrants(s, s');
    CalmStep(s, s', k, n');
  }

  /** The election starts with the candidate's own vote, and its own log. */
  lemma TimeoutCommit(s: System, s': System, k: nat, n': Node)
    requires CommitInv(s) && AcksOk(s) && GrantsOk(s) && Elected(s) && k < |s.nodes|
    requires n'.log == s.nodes[k].log && n'.commitIndex == s.nodes[k].commitIndex
    requires n'.term == s.nodes[k].term + 1
    requires s'.ids == s.ids && s'.nodes == s.nodes[k := n'] && s'.grants == s.grants + {Grant(n'.term, k, k)}
    requires s'.reigns == s.reigns && s'.acks == s.acks && s'.appendRequests == s.appendRequests
    ensures CommitInv(s')
  {
    GrownReflexive(s.reigns);
    var own := Grant(n'.term, k, k);
    forall a, i: nat | a in s'.acks ensures CandidateKeeps(s', own, a, i) {
      assert NodeKeeps(s, a, i);
    }
    assert CandidacyKept(s, k, n');
    CalmStep(s, s', k, n');
  }

  // ---------- Giving a vote ----------

  /** An up-to-date candidate has every entry its voter has, or some leader in between does not. */
  lemma UpToDateHas(s: System, voterLog: seq<Entry>, log: seq<Entry>, term: nat, i: nat, t: nat)
    requires ReignsOk(s) && Coherent(s.reigns, voterLog) && Coherent(s.reigns, log)
    requires UpToDate(LastTerm(log), |log| - 1, voterLog) && LastTerm(log) < t
    requires i >= 1 && term >= 1 && Has(voterLog, term, i)
    ensures Has(log, term, i) || Lost(s.reigns, term, i, t)
  {
    var p, q := |voterLog| - 1, |log| - 1;
    TermsAscend(s, voterLog, i, p);
    var lt := LastTerm(log);
    assert q >= 1;
    assert FromReign(s.reigns, log, q);
    var l := s.reigns[lt].log;
    assert ReignOk(s, lt);
    if lt == LastTerm(voterLog) {
      assert FromReign(s.reigns, voterLog, p);
      PrefixElement(voterLog, l, p + 1, i);
      PrefixElement(log, l, q + 1, i);
    } else if Has(l, term, i) {
      if q <= i {
        TermsAscend(s, l, q, i);
        assert false;
      } else {
        PrefixElement(log, l, q + 1, i);
      }
    }
  }

  lemma GrantKeeps(s: System, m: VoteRequestMsg, a: Ack, i: nat)
    requires FixedInv(s) && VoteInv(s) && CommitInv(s) && m in s.voteRequests && m.to < |s.nodes|
    requires m.req.term >= s.nodes[m.to].term && UpToDate(m.req.lastLogTerm, m.req.lastLogIndex, s.nodes[m.to].log)
    requires m.from < |s.nodes| && m.req.term !in s.reigns
    requires s.nodes[m.from].role == Candidate && s.nodes[m.from].term == m.req.term
    requires a in s.acks && a.node == m.to && a.term < m.req.term && Solid(s.reigns, a, i)
    ensures Has(s.nodes[m.from].log, a.term, i) || Lost(s.reigns, a.term, i, m.req.term)
  {
    var n, c := s.nodes[m.to], s.nodes[m.from];
    assert NodeKeeps(s, a, i) && VoteRequestOk(s, m) && ReignOk(s, a.term);
    assert NodeLogOk(s.reigns, n, m.to) && NodeLogOk(s.reigns, c, m.from);
    if Lost(s.reigns, a.term, i, n.term + 1) {
      LostBefore(s.reigns, a.term, i, n.term + 1, m.req.term);
    } else {
      UpToDateHas(s, n.log, c.log, a.term, i, m.req.term);
    }
  }

  lemma LostBefore(reigns: map<nat, Reign>, term: nat, i: nat, t: nat, t': nat)
    requires Lost(reigns, term, i, t) && t <= t' + 1 && t' !in reigns
    ensures Lost(reigns, term, i, t')
  {
  }

  /** `s'` is `s` after node `m.to`, now `n'`, voted for the sender of `m`. */
  ghost predicate Voted(s: System, s': System, m: VoteRequestMsg, n': Node)
    requires m.to < |s.nodes|
  {
    && m.req.term >= s.nodes[m.to].term
    && n'.log == s.nodes[m.to].log && n'.commitIndex == s.nodes[m.to].commitIndex && n'.term == m.req.term
    && (n'.role == Candidate ==> s.nodes[m.to].role == Candidate && n'.term == s.nodes[m.to].term)
    && s'.ids == s.ids && s'.nodes == s.nodes[m.to := n'] && s'.grants == s.grants + {Grant(m.req.term, m.to, m.from)}
    && s'.reigns == s.reigns && s'.acks == s.acks && s'.appendRequests == s.appendRequests
  }

  lemma GrantCandidate(s: System, s': System, m: VoteRequestMsg, n': Node, a: Ack, i: nat)
    requires FixedInv(s) && VoteInv(s) && CommitInv(s) && m in s.voteRequests && m.to < |s.nodes|
    requires UpToDate(m.req.lastLogTerm, m.req.lastLogIndex, s.nodes[m.to].log) && Voted(s, s', m, n') && a in s.acks
    ensures CandidateKeeps(s', Grant(m.req.term, m.to, m.from), a, i)
  {
    assert VoteRequestOk(s, m);
    var g, c := Grant(m.req.term, m.to, m.from), s.nodes[m.from];
    if c.role == Candidate && c.term == g.term && g.term !in s.reigns
       && a.node == m.to && a.term < g.term && Solid(s.reigns, a, i) {
      GrantKeeps(s, m, a, i);
    }
  }

  lemma GrantFrame(s: System, s': System, m: VoteRequestMsg, n': Node)
    requires CommitInv(s) && AcksOk(s) && GrantsOk(s) && Elected(s) && m.to < |s.nodes| && Voted(s, s', m, n')
    requires m.from < |s.nodes| && s.nodes[m.from].term >= m.req.term
    requires forall a, i: nat :: a in s.acks ==> CandidateKeeps(s', Grant(m.req.term, m.to, m.from), a, i)
    ensures CommitInv(s')
  {
    GrownReflexive(s.reigns);
    assert CandidacyKept(s, m.to, n');
    CalmStep(s, s', m.to, n');
  }

  lemma GrantCommit(s: System, s': System, m: VoteRequestMsg, n': Node)
    requires FixedInv(s) && VoteInv(s) && CommitInv(s) && m in s.voteRequests && m.to < |s.nodes|
    requires UpToDate(m.req.lastLogTerm, m.req.lastLogIndex, s.nodes[m.to].log) && Voted(s, s', m, n')
    ensures CommitInv(s')
  {
    assert VoteRequestOk(s, m);
    forall a, i: nat | a in s.acks ensures CandidateKeeps(s', Grant(m.req.term, m.to, m.from), a, i) {
      GrantCandidate(s, s', m, n', a, i);
    }
    GrantFrame(s, s', m, n');
  }

  // ---------- A leader's log grows ----------

  lemma ExtendingGrows(s: System, k: nat, n': Node)
    requires FixedInv(s) && k < |s.nodes| && Extending(s, k, n')
    ensures Grown(s.reigns, WithNode(s, k, n').reigns)
  {
    ExtendingHistory(s, k, n');
    var n := s.nodes[k];
    assert NodeLogOk(s.reigns, n, k);
    if n.role == Leader { assert ReignOk(s, n.term); }
  }

  lemma ExtendingFrame(s: System, k: nat, n': Node, s': System)
    requires FixedInv(s) && k < |s.nodes| && Extending(s, k, n') && s' == WithNode(s, k, n')
    ensures OneNode(s, s', k, n') && OldAcksKept(s, s', k, n') && NewAcksTrue(s, s', k, n')
  {
    ExtendingGrows(s, k, n');
    ExtendingHistory(s, k, n');
  }

  lemma GrantsCameStep(s: System, s': System, k: nat, n': Node)
    requires OneNode(s, s', k, n') && GrantsCame(s) && s'.grants == s.grants
    ensures GrantsCame(s')
  {
  }

  /** A step by which only a leader's log, and with it the history, grows. */
  lemma GrowCommit(s: System, s': System, k: nat, n': Node)
    requires CommitInv(s) && AcksOk(s) && GrantsOk(s) && Elected(s)
    requires OneNode(s, s', k, n') && OldAcksKept(s, s', k, n') && NewAcksTrue(s, s', k, n') && NewReigns(s, s')
    requires n'.role == Leader && s.nodes[k].log <= n'.log && n'.commitIndex == s.nodes[k].commitIndex
    requires s'.grants == s.grants && s'.appendRequests == s.appendRequests
    ensures CommitInv(s')
  {
    var n := s.nodes[k];
    assert CommittedPrefix(s, n.term, n.log, n.commitIndex);
    assert n'.log[..n.commitIndex + 1] == n.log[..n.commitIndex + 1];
    CommittedPrefixStays(s, s', n.term, n'.term, n.log, n'.log, n.commitIndex);
    GrantsCameStep(s, s', k, n');
    CommitInvOneNode(s, s', k, n');
  }

  lemma ClientCommit(s: System, k: nat, n': Node, s': System)
    requires FixedInv(s) && GrantsOk(s) && Elected(s) && CommitInv(s) && k < |s.nodes| && s.nodes[k].role == Leader
    requires Extending(s, k, n') && s' == WithNode(s, k, n') && n'.commitIndex == s.nodes[k].commitIndex
    ensures CommitInv(s')
  {
    ExtendingFrame(s, k, n', s');
    OldReignsOnly(s, k, n', s');
    GrowCommit(s, s', k, n');
  }

  lemma OldReignsOnly(s: System, k: nat, n': Node, s': System)
    requires FixedInv(s) && k < |s.nodes| && s.nodes[k].role == Leader
    requires Extending(s, k, n') && s' == WithNode(s, k, n')
    ensures NewReigns(s, s')
  {
    ExtendingHistory(s, k, n');
    assert NodeLogOk(s.reigns, s.nodes[k], k);
  }

  /** A winner's log holds what its voters acknowledged in earlier terms. */
  lemma WinnerKeeps(s: System, k: nat, n': Node, s': System, a: Ack, i: nat)
    requires AcksOk(s) && CandidatesKeep(s) && k < |s.nodes| && CandidateOk(s, k)
    requires s.nodes[k].role == Candidate && s.nodes[k].term !in s.reigns && s.nodes[k].log <= n'.log
    requires Grown(s.reigns, s'.reigns) && n'.term == s.nodes[k].term
    requires n'.term in s'.reigns && s'.reigns[n'.term].log == n'.log && s'.reigns[n'.term].voters == Voters(s.nodes[k])
    requires a in s.acks || a.term == n'.term
    ensures LeaderKeeps(s', n'.term, a, i)
  {
    var n := s.nodes[k];
    if a in s.acks && a.node in Voters(n) {
      assert AckOk(s, a);
      SolidStays(s, s'.reigns, a, i);
      assert CandidateKeeps(s, Grant(n.term, a.node, k), a, i);
      if Lost(s.reigns, a.term, i, n.term) {
        LostStays(s.reigns, s'.reigns, a.term, i, n.term, n.term);
      }
    }
  }

  lemma WinReigns(s: System, k: nat, n': Node, s': System)
    requires FixedInv(s) && CandidatesKeep(s) && CandidatesOk(s) && k < |s.nodes| && s.nodes[k].role == Candidate
    requires s.nodes[k].term !in s.reigns
    requires Extending(s, k, n') && s' == WithNode(s, k, n')
    ensures NewReigns(s, s')
  {
    ExtendingGrows(s, k, n');
    ExtendingHistory(s, k, n');
    assert CandidateOk(s, k);
    forall t, a, i: nat | t in s'.reigns && t !in s.reigns && a in s'.acks ensures LeaderKeeps(s', t, a, i) {
      WinnerKeeps(s, k, n', s', a, i);
    }
  }

  lemma WinCommit(s: System, k: nat, n': Node, s': System)
    requires FixedInv(s) && GrantsOk(s) && Elected(s) && CandidatesOk(s) && CommitInv(s)
    requires k < |s.nodes| && s.nodes[k].role == Candidate && s.nodes[k].term !in s.reigns
    requires Extending(s, k, n') && s' == WithNode(s, k, n') && n'.commitIndex == s.nodes[k].commitIndex
    ensures CommitInv(s')
  {
    ExtendingFrame(s, k, n', s');
    WinReigns(s, k, n', s');
    GrowCommit(s, s', k, n');
  }

  // ---------- A follower accepts ----------

  /** The fields of an accepting node that matter to commitment. */
  ghost predicate AcceptedFields(n: Node, req: AppendRequest, n': Node) {
    && ValidPrevious(n.log, req) && |n.log| >= 1 && n'.role == Follower
    && n'.term == req.term >= n.term
    && n'.log == Splice(n.log, req.prevLogIndex + 1, req.entries)
    && n'.commitIndex == if req.leaderCommit > n.commitIndex then Min(req.leaderCommit, |n'.log| - 1) else n.commitIndex
  }

  lemma SpliceKeepsOrLost(s: System, log: seq<Entry>, req: AppendRequest, log': seq<Entry>, term: nat, i: nat)
    requires ReignsOk(s) && req.term in s.reigns && Coherent(s.reigns, log)
    requires SliceOf(req, s.reigns[req.term].log) && ValidPrevious(log, req)
    requires log' == Splice(log, req.prevLogIndex + 1, req.entries)
    requires term < req.term || Has(s.reigns[req.term].log, term, i)
    ensures KeepsOrLost(s.reigns, log, log', term, i, req.term + 1)
  {
    var l := s.reigns[req.term].log;
    assert ReignOk(s, req.term);
    if Has(log, term, i) && Has(l, term, i) {
      LogMatching(s.reigns, log, l, i);
      SpliceKeepsAgreement(s.reigns, log, l, req, log', i + 1);
      PrefixElement(log, log', i + 1, i);
    }
  }

  /** What an accepting node has committed stays where it was. */
  lemma AcceptKeepsCommitted(s: System, term: nat, log: seq<Entry>, c: nat, req: AppendRequest, log': seq<Entry>)
    requires ReignsOk(s) && ElectionsOk(s) && AcksOk(s) && LeadersKeep(s) && req.term in s.reigns
    requires Coherent(s.reigns, log)
    requires SliceOf(req, s.reigns[req.term].log) && ValidPrevious(log, req)
    requires CommittedPrefix(s, term, log, c) && term <= req.term
    requires log' == Splice(log, req.prevLogIndex + 1, req.entries)
    ensures c < |log'| && log'[..c + 1] == log[..c + 1]
    ensures CommittedPrefix(s, req.term, log', c)
  {
    assert ReignOk(s, req.term);
    CommittedStartsLeaderLog(s, term, log, c, req.term);
    SpliceKeepsAgreement(s.reigns, log, s.reigns[req.term].log, req, log', c + 1);
    GrownReflexive(s.reigns);
    CommittedPrefixStays(s, s, term, req.term, log, log', c);
  }

  /** What it newly commits is committed by the sender. */
  lemma AcceptCommitsSenders(s: System, log: seq<Entry>, req: AppendRequest, log': seq<Entry>)
    requires ReignsOk(s) && req.term in s.reigns && Coherent(s.reigns, log)
    requires SliceOf(req, s.reigns[req.term].log) && ValidPrevious(log, req) && RequestCommitted(s, req)
    requires log' == Splice(log, req.prevLogIndex + 1, req.entries)
    ensures req.leaderCommit < |log'| && CommittedPrefix(s, req.term, log', req.leaderCommit)
  {
    var l := s.reigns[req.term].log;
    assert ReignOk(s, req.term);
    var c := Matching(log, req.prevLogIndex + 1, req.entries);
    var end := req.prevLogIndex + 1 + |req.entries|;
    SpliceAgrees(s.reigns, log, l, req, end, c, log');
    ShorterPrefix(log', l, end, req.leaderCommit + 1);
    GrownReflexive(s.reigns);
    CommittedPrefixStays(s, s, req.term, req.term, l, log', req.leaderCommit);
  }

  lemma AcceptCommitted(s: System, n: Node, m: AppendRequestMsg, n': Node)
    requires ReignsOk(s) && ElectionsOk(s) && AcksOk(s) && LeadersKeep(s) && RequestOk(s.reigns, m)
    requires RequestCommitted(s, m.req)
    requires Coherent(s.reigns, n.log) && CommittedPrefix(s, n.term, n.log, n.commitIndex)
    requires AcceptedFields(n, m.req, n')
    ensures CommitKept(n, n') && CommittedPrefix(s, n'.term, n'.log, n'.commitIndex)
  {
    AcceptKeepsCommitted(s, n.term, n.log, n.commitIndex, m.req, n'.log);
    if m.req.leaderCommit > n.commitIndex {
      AcceptCommitsSenders(s, n.log, m.req, n'.log);
      assert n'.commitIndex == m.req.leaderCommit;
    } else {
      assert n'.commitIndex == n.commitIndex;
    }
  }

  lemma OldAcksAfterAccept(s: System, m: AppendRequestMsg, n: Node, n': Node, s': System)
    requires ReignsOk(s) && AcksOk(s) && m.to < |s.nodes| && n == s.nodes[m.to]
    requires RequestOk(s.reigns, m) && Coherent(s.reigns, n.log) && AcceptedFields(n, m.req, n')
    requires s'.reigns == s.reigns
    ensures OldAcksKept(s, s', m.to, n')
  {
    forall a, i: nat | a in s.acks && a.node == m.to && Solid(s.reigns, a, i)
      ensures KeepsOrLost(s'.reigns, n.log, n'.log, a.term, i, n'.term + 1)
    {
      assert AckOk(s, a);
      SpliceKeepsOrLost(s, n.log, m.req, n'.log, a.term, i);
    }
  }

  lemma NewAckAfterAccept(s: System, m: AppendRequestMsg, n: Node, n': Node, s': System)
    requires ReignsOk(s)
    requires RequestOk(s.reigns, m) && Coherent(s.reigns, n.log) && AcceptedFields(n, m.req, n')
    requires s'.reigns == s.reigns && s'.acks == s.acks + {AckOf(m)}
    ensures NewAcksTrue(s, s', m.to, n')
  {
    var req := m.req;
    var l := s.reigns[req.term].log;
    assert ReignOk(s, req.term);
    var new' := Ack(req.term, m.to, req.prevLogIndex + |req.entries|);
    var end := req.prevLogIndex + 1 + |req.entries|;
    SpliceAgrees(s.reigns, n.log, l, req, end, Matching(n.log, req.prevLogIndex + 1, req.entries), n'.log);
    forall i: nat | Solid(s'.reigns, new', i) ensures Has(n'.log, req.term, i) {
      PrefixElement(n'.log, l, end, i);
    }
    assert NewAck(s', m.to, n', new');
  }

  lemma AcceptFrame(s: System, m: AppendRequestMsg, n': Node, s': System)
    requires CommitInv(s) && AcksOk(s) && GrantsOk(s) && Elected(s) && OneNode(s, s', m.to, n')
    requires OldAcksKept(s, s', m.to, n') && NewAcksTrue(s, s', m.to, n')
    requires CommittedPrefix(s, n'.term, n'.log, n'.commitIndex) && n'.role == Follower
    requires s'.grants == s.grants && s'.reigns == s.reigns && s'.appendRequests == s.appendRequests
    ensures CommitInv(s')
  {
    CommittedPrefixStays(s, s', n'.term, n'.term, n'.log, n'.log, n'.commitIndex);
    GrantsCameStep(s, s', m.to, n');
    CommitInvOneNode(s, s', m.to, n');
  }

  lemma AppendedFields(n: Node, w: Node, req: AppendRequest, n': Node)
    requires Appended(w, req, n') && w.role == Follower && w.term == req.term >= n.term
    requires w.log == n.log && w.commitIndex == n.commitIndex
    ensures AcceptedFields(n, req, n')
  {
  }

  lemma AcceptCommit(s: System, m: AppendRequestMsg, n: Node, n': Node, s': System)
    requires ReignsOk(s) && ElectionsOk(s) && AcksOk(s) && GrantsOk(s) && Elected(s) && CommitInv(s)
    requires m.to < |s.nodes| && n == s.nodes[m.to]
    requires RequestOk(s.reigns, m) && Coherent(s.reigns, n.log) && AcceptedFields(n, m.req, n')
    requires RequestCommitted(s, m.req) && CommittedPrefix(s, n.term, n.log, n.commitIndex)
    requires s'.ids == s.ids && s'.nodes == s.nodes[m.to := n'] && s'.grants == s.grants
    requires s'.reigns == s.reigns && s'.appendRequests == s.appendRequests
    requires s'.acks == s.acks + {AckOf(m)}
    ensures CommitInv(s')
    ensures CommitKept(n, n')
  {
    AcceptFacts(s, m, n, n', s');
    GrownReflexive(s.reigns);
    AcceptFrame(s, m, n', s');
  }

  lemma AcceptFacts(s: System, m: AppendRequestMsg, n: Node, n': Node, s': System)
    requires ReignsOk(s) && ElectionsOk(s) && AcksOk(s) && LeadersKeep(s)
    requires m.to < |s.nodes| && n == s.nodes[m.to]
    requires RequestOk(s.reigns, m) && Coherent(s.reigns, n.log) && AcceptedFields(n, m.req, n')
    requires RequestCommitted(s, m.req) && CommittedPrefix(s, n.term, n.log, n.commitIndex)
    requires s'.reigns == s.reigns && s'.acks == s.acks + {AckOf(m)}
    ensures OldAcksKept(s, s', m.to, n') && NewAcksTrue(s, s', m.to, n')
    ensures CommitKept(n, n') && CommittedPrefix(s, n'.term, n'.log, n'.commitIndex)
  {
    assert OldAcksKept(s, s', m.to, n') by { OldAcksAfterAccept(s, m, n, n', s'); }
    assert NewAcksTrue(s, s', m.to, n') by { NewAckAfterAccept(s, m, n, n', s'); }
    AcceptCommitted(s, n, m, n');
  }

  // ---------- A leader commits ----------

  lemma HeldMeansAcknowledged(s: System, k: nat, v: nat, j: nat)
    requires k < |s.nodes| && LeaderOk(s.ids, s.acks, s.nodes[k], k) && s.nodes[k].role == Leader
    requires s.nodes[k].self == k
    requires |s.nodes[k].log| >= 1 && Names(s.ids, s.nodes[k].cluster)
    requires v >= 1 && j in Reaching(Holdings(s.nodes[k]), v)
    ensures Backed(s.acks, s.nodes[k].term, j, v)
  {
    var n := s.nodes[k];
    if j == k {
      assert Ack(n.term, k, |n.log| - 1) in s.acks;
    } else {
      assert BookOk(s.ids, s.acks, n, j) && s.ids[j] == n.cluster[j].id;
    }
  }

  /** Whatever index a leader finds held by a majority, a majority acknowledged. */
  lemma MajorityAcknowledged(s: System, k: nat, v: nat)
    requires Shape(s) && LeadersOk(s) && k < |s.nodes| && s.nodes[k].role == Leader
    requires |s.nodes[k].cluster| == |s.ids|
    requires 1 <= v <= KthLargest(Holdings(s.nodes[k]), Quorum(s.nodes[k]))
    ensures v < |s.nodes[k].log| && |Backers(s, s.nodes[k].term, v)| >= |s.ids| / 2 + 1
  {
    var n := s.nodes[k];
    var ms := Holdings(n);
    assert NodeShape(s.ids, n, k) && LeaderOk(s.ids, s.acks, n, k);
    KthLargestIsThreshold(ms, Quorum(n), v);
    CountIsSetSize(ms, v);
    forall j | j in Reaching(ms, v) ensures j in Backers(s, n.term, v) {
      HeldMeansAcknowledged(s, k, v, j);
    }
    SubsetSize(Reaching(ms, v), Backers(s, n.term, v));
    KthLargestInList(ms, Quorum(n));
  }

  lemma LeaderCommits(s: System, k: nat)
    requires FixedInv(s) && NodesCommitted(s) && Enabled(s, CommitStep(k)) && OwnTermCommit(s, CommitStep(k))
    ensures CommittedPrefix(s, s.nodes[k].term, s.nodes[k].log, NewCommitIndex(s.nodes[k]))
    ensures NewCommitIndex(s.nodes[k]) >= s.nodes[k].commitIndex
  {
    var n := s.nodes[k];
    var v := NewCommitIndex(n);
    assert CommittedPrefix(s, n.term, n.log, n.commitIndex);
    if v != n.commitIndex {
      assert NodeShape(s.ids, n, k);
      MajorityAcknowledged(s, k, v);
      assert NodeLogOk(s.reigns, n, k) && ReignOk(s, n.term);
      assert Committed(s, n.term, v);
      assert Covers(s, n.term, n.log, v, n.term, v);
    }
  }

  lemma CommitStepCommit(s: System, k: nat, n': Node, s': System)
    requires AcksOk(s) && GrantsOk(s) && Elected(s) && CommitInv(s) && k < |s.nodes|
    requires n'.log == s.nodes[k].log && n'.term == s.nodes[k].term && n'.role == s.nodes[k].role
    requires CommittedPrefix(s, n'.term, n'.log, n'.commitIndex)
    requires s' == s.(nodes := s.nodes[k := n'])
    ensures CommitInv(s')
  {
    GrownReflexive(s.reigns);
    assert OneNode(s, s', k, n');
    CommittedPrefixStays(s, s', n'.term, n'.term, n'.log, n'.log, n'.commitIndex);
    GrantsCameStep(s, s', k, n');
    CommitInvOneNode(s, s', k, n');
  }

  // ---------- A leader sends ----------

  lemma SendCommit(s: System, k: nat, slot: nat, to: nat, s': System)
    requires FixedInv(s) && CommitInv(s) && Enabled(s, SendAppendRequest(k, slot, to))
    requires Fresh(s, SendAppendRequest(k, slot, to)) && AmpleBatch(s, SendAppendRequest(k, slot, to))
    requires s' == Do(s, SendAppendRequest(k, slot, to))
    ensures CommitInv(s')
  {
    var n := s.nodes[k];
    assert NodeLogOk(s.reigns, n, k) && ReignOk(s, n.term);
    assert CommittedPrefix(s, n.term, n.log, n.commitIndex);
    SentCommit(s, AppendRequestMsg(k, slot, to, BuildAppendRequest(n, slot)), s');
  }

  lemma SentCommit(s: System, m: AppendRequestMsg, s': System)
    requires CommitInv(s) && RequestCommitted(s, m.req) && s' == s.(appendRequests := s.appendRequests + {m})
    ensures CommitInv(s')
  {
    GrownReflexive(s.reigns);
    SameHistory(s, s');
    RequestCommittedStays(s, s', m.req);
    RequestsCommittedStep(s, s');
  }

  lemma RequestCommittedStays(s: System, s': System, req: AppendRequest)
    requires RequestCommitted(s, req) && s'.ids == s.ids && s'.reigns == s.reigns && s'.acks == s.acks
    ensures RequestCommitted(s', req)
  {
    GrownReflexive(s.reigns);
    var l := s.reigns[req.term].log;
    CommittedPrefixStays(s, s', req.term, req.term, l, l, req.leaderCommit);
  }

  /** Nothing but messages changed. */
  lemma SameHistory(s: System, s': System)
    requires NodesKeep(s) && CandidatesKeep(s) && LeadersKeep(s) && GrantsCame(s) && NodesCommitted(s)
    requires s'.ids == s.ids && s'.nodes == s.nodes && s'.grants == s.grants && s'.reigns == s.reigns
    requires s'.acks == s.acks
    ensures NodesKeep(s') && CandidatesKeep(s') && LeadersKeep(s') && GrantsCame(s') && NodesCommitted(s')
  {
    GrownReflexive(s.reigns);
    forall a, i: nat | a in s'.acks ensures NodeKeeps(s', a, i) { assert NodeKeeps(s, a, i); }
    forall g, a, i: nat | g in s'.grants && a in s'.acks ensures CandidateKeeps(s', g, a, i) {
      assert CandidateKeeps(s, g, a, i);
    }
    forall t, a, i: nat | t in s'.reigns && a in s'.acks ensures LeaderKeeps(s', t, a, i) {
      assert LeaderKeeps(s, t, a, i);
    }
    forall j | 0 <= j < |s'.nodes|
      ensures CommittedPrefix(s', s'.nodes[j].term, s'.nodes[j].log, s'.nodes[j].commitIndex)
    {
      var n := s.nodes[j];
      CommittedPrefixStays(s, s', n.term, n.term, n.log, n.log, n.commitIndex);
    }
  }

  // ---------- All steps ----------

  lemma CommitInvStep(s: System, st: Step)
    requires FixedInv(s) && VoteInv(s) && CommitInv(s) && Enabled(s, st)
    requires Atomic(s, st) && Fresh(s, st) && Fixed(st) && AmpleBatch(s, st) && OwnTermCommit(s, st)
    ensures CommitInv(Do(s, st))
  {
    var s' := Do(s, st);
    match st {
      case TimeoutStep(k) => TimeoutCommit(s, s', k, Timeout(s.nodes[k]));
      case SendVoteRequest(k, slot, to) => SendVoteRequestCommit(s, k, slot, to, s');
      case DeliverVoteRequest(m) => VoteRequestCommit(s, m, s');
      case DeliverVoteResponse(m) => VoteResponseCommit(s, m, s');
      case BecomeLeaderStep(k) => BecomeLeaderCommit(s, k, s');
      case ClientStep(k, commands) => ClientStepCommit(s, k, commands, s');
      case SendAppendRequest(k, slot, to) => SendCommit(s, k, slot, to, s');
      case DeliverAppendRequest(m) => DeliverAppendCommit(s, m, s');
      case DeliverAppendResponse(m) => DeliverAppendResponseCommit(s, m, s');
      case CommitStep(k) => LeaderCommitStep(s, k, s');
      case RestartStep(k, how) => RestartCommit(s, k, how, s');
      case AddServerStep(_, _, _) => assert false;
    }
  }

  /** A restarted node has committed nothing, or what it had. */
  lemma RestartCommit(s: System, k: nat, how: Restarting, s': System)
    requires FixedInv(s) && VoteInv(s) && CommitInv(s) && Enabled(s, RestartStep(k, how))
    requires s' == Do(s, RestartStep(k, how))
    ensures CommitInv(s')
  {
    var n, n' := s.nodes[k], Restart(s.nodes[k], how);
    QuietHistory(s, k, n');
    assert CommittedPrefix(s, n.term, n.log, n.commitIndex);
    RestartedCommit(s, k, n');
  }

  lemma RestartedCommit(s: System, k: nat, n': Node)
    requires CommitInv(s) && AcksOk(s) && GrantsOk(s) && Elected(s) && k < |s.nodes|
    requires n'.role == Follower && n'.log == s.nodes[k].log && n'.term == s.nodes[k].term
    requires n'.commitIndex == 0 || n'.commitIndex == s.nodes[k].commitIndex
    requires CommittedPrefix(s, s.nodes[k].term, s.nodes[k].log, s.nodes[k].commitIndex)
    ensures CommitInv(s.(nodes := s.nodes[k := n']))
  {
    var s' := s.(nodes := s.nodes[k := n']);
    GrownReflexive(s.reigns);
    assert OneNode(s, s', k, n');
    CommittedPrefixStays(s, s', n'.term, n'.term, n'.log, n'.log, n'.commitIndex);
    GrantsCameStep(s, s', k, n');
    CommitInvOneNode(s, s', k, n');
  }

  lemma SendVoteRequestCommit(s: System, k: nat, slot: nat, to: nat, s': System)
    requires CommitInv(s) && Enabled(s, SendVoteRequest(k, slot, to)) && s' == Do(s, SendVoteRequest(k, slot, to))
    ensures CommitInv(s')
  {
    SameHistory(s, s');
    GrownReflexive(s.reigns);
    RequestsCommittedStep(s, s');
  }

  lemma VoteResponseCommit(s: System, m: VoteResponseMsg, s': System)
    requires FixedInv(s) && VoteInv(s) && CommitInv(s) && Enabled(s, DeliverVoteResponse(m))
    requires s' == Do(s, DeliverVoteResponse(m))
    ensures CommitInv(s')
  {
    var n' := HandleVoteResponse(s.nodes[m.candidate], m.slot, m.req, m.rsp);
    VoteResponseQuiet(s.nodes[m.candidate], m.slot, m.req, m.rsp);
    QuietHistory(s, m.candidate, n');
    QuietCommit(s, s', m.candidate, n');
  }

  lemma ClientStepCommit(s: System, k: nat, commands: seq<seq<byte>>, s': System)
    requires FixedInv(s) && VoteInv(s) && CommitInv(s)
    requires Enabled(s, ClientStep(k, commands)) && s' == Do(s, ClientStep(k, commands))
    ensures CommitInv(s')
  {
    var n' := ClientApply(s.nodes[k], commands);
    if s.nodes[k].role == Leader {
      ClientExtends(s, k, commands);
      ClientCommit(s, k, n', s');
    } else {
      QuietHistory(s, k, n');
      QuietCommit(s, s', k, n');
    }
  }

  lemma CommitStepNode(s: System, k: nat) returns (n': Node)
    requires Enabled(s, CommitStep(k))
    ensures n' == AdvanceCommit(s.nodes[k]) && Do(s, CommitStep(k)) == WithNode(s, k, n')
    ensures Quiet(s.nodes[k], n') && n'.commitIndex == NewCommitIndex(s.nodes[k])
    ensures n'.term == s.nodes[k].term && n'.role == s.nodes[k].role
  {
    n' := AdvanceCommit(s.nodes[k]);
    CommitQuiet(s.nodes[k]);
  }

  lemma LeaderCommitStep(s: System, k: nat, s': System)
    requires FixedInv(s) && VoteInv(s) && CommitInv(s)
    requires Enabled(s, CommitStep(k)) && OwnTermCommit(s, CommitStep(k)) && s' == Do(s, CommitStep(k))
    ensures CommitInv(s')
  {
    var n' := CommitStepNode(s, k);
    QuietHistory(s, k, n');
    LeaderCommits(s, k);
    CommitStepCommit(s, k, n', s');
  }

  lemma WinExtends(s: System, k: nat, n': Node)
    requires k < |s.nodes| && s.nodes[k].role == Candidate && s.nodes[k].term !in s.reigns
    requires n' == BecomeLeader(s.nodes[k]) && |Voters(s.nodes[k])| >= Quorum(s.nodes[k])
    requires |s.nodes[k].cluster| == |s.ids|
    ensures Extending(s, k, n')
  {
    assert n'.log[|s.nodes[k].log|] == Entry(s.nodes[k].term, []);
  }

  lemma VoteRequestCommit(s: System, m: VoteRequestMsg, s': System)
    requires FixedInv(s) && VoteInv(s) && CommitInv(s) && Enabled(s, DeliverVoteRequest(m))
    requires s' == Do(s, DeliverVoteRequest(m))
    ensures CommitInv(s')
  {
    var n := s.nodes[m.to];
    var n' := HandleVoteRequest(n, m.req).0;
    VoteRequestQuiet(n, m.req);
    QuietHistory(s, m.to, n');
    if Grants(UpdateTerm(n, m.req.term), m.req) {
      GrantCommit(s, s', m, n');
    } else {
      QuietCommit(s, s', m.to, n');
    }
  }

  lemma BecomeLeaderCommit(s: System, k: nat, s': System)
    requires FixedInv(s) && VoteInv(s) && CommitInv(s) && Enabled(s, BecomeLeaderStep(k))
    requires Atomic(s, BecomeLeaderStep(k))
    requires s' == Do(s, BecomeLeaderStep(k))
    ensures CommitInv(s')
  {
    var n := s.nodes[k];
    var n' := BecomeLeader(n);
    assert NodeShape(s.ids, n, k);
    if |Voters(n)| < Quorum(n) {
      QuietHistory(s, k, n');
      QuietCommit(s, s', k, n');
    } else {
      WinnerIsFirst(s, k);
      WinExtends(s, k, n');
      WinCommit(s, k, n', s');
    }
  }

  lemma DeliverAppendCommit(s: System, m: AppendRequestMsg, s': System)
    requires FixedInv(s) && VoteInv(s) && CommitInv(s)
    requires Enabled(s, DeliverAppendRequest(m)) && s' == Do(s, DeliverAppendRequest(m))
    ensures CommitInv(s')
    ensures CommitKept(s.nodes[m.to], s'.nodes[m.to])
  {
    var n := s.nodes[m.to];
    ReadyQuiet(n, m.req);
    assert CommittedPrefix(s, n.term, n.log, n.commitIndex);
    if Accepts(n, m.req) {
      var w := Ready(n, m.req).(passive := false);
      var n' := AcceptFixed(s, m, w);
      AppendedFields(n, w, m.req, n');
      AcceptPremises(s, m);
      AcceptCommit(s, m, n, n', s');
    } else {
      var n', rsp := DeliverAppendRejected(s, m);
      QuietCommit(s, s', m.to, n');
    }
  }

  lemma AcceptPremises(s: System, m: AppendRequestMsg)
    requires FixedInv(s) && CommitInv(s) && m in s.appendRequests && m.to < |s.nodes|
    ensures RequestOk(s.reigns, m) && RequestCommitted(s, m.req) && Coherent(s.reigns, s.nodes[m.to].log)
    ensures CommittedPrefix(s, s.nodes[m.to].term, s.nodes[m.to].log, s.nodes[m.to].commitIndex)
  {
    assert NodeLogOk(s.reigns, s.nodes[m.to], m.to);
  }

  lemma AppendResponseCalm(n: Node, peer: nat, req: AppendRequest, rsp: AppendResponse)
    requires n.self < |n.cluster| && peer < |n.cluster|
    ensures var n' := HandleAppendResponse(n, peer, req, rsp);
            Quiet(n, n') && n'.commitIndex == n.commitIndex && (n'.role == Candidate ==> n'.term == n.term)
  {
  }

  lemma DeliverAppendResponseCommit(s: System, m: AppendResponseMsg, s': System)
    requires FixedInv(s) && VoteInv(s) && CommitInv(s) && Enabled(s, DeliverAppendResponse(m))
    requires s' == Do(s, DeliverAppendResponse(m))
    ensures CommitInv(s')
  {
    AppendResponseCalm(s.nodes[m.leader], m.slot, m.req, m.rsp);
    QuietHistory(s, m.leader, HandleAppendResponse(s.nodes[m.leader], m.slot, m.req, m.rsp));
    QuietCommit(s, s', m.leader, HandleAppendResponse(s.nodes[m.leader], m.slot, m.req, m.rsp));
  }
}
