/** Log Matching and what rests on it, for every run in which no term is won twice. */
module ClusterLog {
  import opened Types
  import opened Raft
  import opened Cluster

  // ---------- The invariant ----------

  /** The node knows who it is. */
  ghost predicate NodeKnown(ids: seq<nat>, n: Node, k: nat)
    requires k < |ids|
  {
    n.id == ids[k] && WellFormed(n)
  }

  ghost predicate Known(s: System) {
    && GoodIds(s.ids) && |s.nodes| == |s.ids|
    && forall k {:trigger NodeKnown(s.ids, s.nodes[k], k)} :: 0 <= k < |s.nodes| ==> NodeKnown(s.ids, s.nodes[k], k)
  }

  lemma KnownStep(s: System, k: nat, n': Node, s': System)
    requires Known(s) && k < |s.nodes| && NodeKnown(s.ids, n', k) && s'.ids == s.ids && s'.nodes == s.nodes[k := n']
    ensures Known(s')
  {
    forall j | 0 <= j < |s'.nodes| ensures NodeKnown(s'.ids, s'.nodes[j], j) {
      assert j != k ==> NodeKnown(s.ids, s.nodes[j], j);
    }
  }

  /** The log up to index `i` is what the leader of entry `i`'s term had there. */
  ghost predicate FromReign(reigns: map<nat, Reign>, log: seq<Entry>, i: nat)
    requires i < |log|
  {
    && log[i].term in reigns
    && i < |reigns[log[i].term].log|
    && log[..i + 1] == reigns[log[i].term].log[..i + 1]
  }

  ghost predicate Coherent(reigns: map<nat, Reign>, log: seq<Entry>) {
    && |log| >= 1 && log[0] == SENTINEL
    && forall i {:trigger FromReign(reigns, log, i)} :: 1 <= i < |log| ==> FromReign(reigns, log, i)
  }

  ghost predicate Bounded(log: seq<Entry>, term: nat) {
    forall i :: 0 <= i < |log| ==> log[i].term <= term
  }

  ghost predicate ReignOk(s: System, term: nat)
    requires term in s.reigns
  {
    var r := s.reigns[term];
    && term >= 1 && r.leader < |s.nodes|
    && Coherent(s.reigns, r.log) && Bounded(r.log, term)
    && |r.log| >= 2 && LastTerm(r.log) == term
    && s.nodes[r.leader].term >= term
    && (s.nodes[r.leader].term == term ==> s.nodes[r.leader].role != Candidate && s.nodes[r.leader].log == r.log)
  }

  ghost predicate ReignsOk(s: System) {
    forall t :: t in s.reigns ==> ReignOk(s, t)
  }

  ghost predicate NodeLogOk(reigns: map<nat, Reign>, n: Node, k: nat) {
    && Coherent(reigns, n.log) && Bounded(n.log, n.term)
    && (n.role == Candidate ==> LastTerm(n.log) < n.term)
    && (n.role == Leader ==> n.term in reigns && reigns[n.term].leader == k)
  }

  ghost predicate NodesOk(s: System) {
    forall k :: 0 <= k < |s.nodes| ==> NodeLogOk(s.reigns, s.nodes[k], k)
  }

  /** An acknowledged prefix is still there for as long as the node stays in the term. */
  ghost predicate AckOk(s: System, a: Ack) {
    && a.term in s.reigns && a.node < |s.nodes|
    && a.upTo < |s.reigns[a.term].log|
    && s.nodes[a.node].term >= a.term
    && (s.nodes[a.node].term == a.term ==>
          a.upTo < |s.nodes[a.node].log| &&
          s.nodes[a.node].log[..a.upTo + 1] == s.reigns[a.term].log[..a.upTo + 1])
  }

  ghost predicate AcksOk(s: System) {
    forall a :: a in s.acks ==> AckOk(s, a)
  }

  ghost predicate RequestOk(reigns: map<nat, Reign>, m: AppendRequestMsg) {
    && m.req.term in reigns && reigns[m.req.term].leader == m.from
    && SliceOf(m.req, reigns[m.req.term].log)
  }

  ghost predicate RequestsOk(s: System) {
    forall m :: m in s.appendRequests ==> RequestOk(s.reigns, m)
  }

  ghost predicate ResponseOk(s: System, m: AppendResponseMsg) {
    && m.req.term in s.reigns && s.reigns[m.req.term].leader == m.leader
    && m.req.prevLogIndex + 1 + |m.req.entries| <= |s.reigns[m.req.term].log|
    && (m.rsp.success ==>
          m.rsp.term == m.req.term && Ack(m.req.term, m.peer, m.req.prevLogIndex + |m.req.entries|) in s.acks)
  }

  ghost predicate ResponsesOk(s: System) {
    forall m :: m in s.appendResponses ==> ResponseOk(s, m)
  }

  /** A leader's bookkeeping about a member is in range, and backed by the word of the node of that id. */
  ghost predicate BookOk(ids: seq<nat>, acks: set<Ack>, n: Node, i: nat)
    requires i < |n.cluster|
  {
    && 1 <= n.cluster[i].nextIndex <= |n.log|
    && (n.cluster[i].matchIndex == 0
        || forall p: nat :: p < |ids| && ids[p] == n.cluster[i].id ==> Ack(n.term, p, n.cluster[i].matchIndex) in acks)
  }

  ghost predicate LeaderOk(ids: seq<nat>, acks: set<Ack>, n: Node, k: nat) {
    n.role == Leader ==>
      && |n.log| >= 1
      && Ack(n.term, k, |n.log| - 1) in acks
      && forall i: nat :: i < |n.cluster| && i != n.self ==> BookOk(ids, acks, n, i)
  }

  ghost predicate LeadersOk(s: System) {
    forall k :: 0 <= k < |s.nodes| ==> LeaderOk(s.ids, s.acks, s.nodes[k], k)
  }

  /** While the sender leads the term of a message, its cluster lists the other side where it did. */
  ghost predicate SlotOk(s: System, from: nat, term: nat, slot: nat, to: nat) {
    && from < |s.nodes| && to < |s.ids|
    && (s.nodes[from].role == Leader && s.nodes[from].term == term ==>
          slot < |s.nodes[from].cluster| && slot != s.nodes[from].self && s.nodes[from].cluster[slot].id == s.ids[to])
  }

  ghost predicate SlotsOk(s: System) {
    && (forall m :: m in s.appendRequests ==> SlotOk(s, m.from, m.req.term, m.slot, m.to))
    && (forall m :: m in s.appendResponses ==> SlotOk(s, m.leader, m.req.term, m.slot, m.peer))
  }

  ghost predicate LogInv(s: System) {
    && Known(s) && ReignsOk(s) && NodesOk(s) && AcksOk(s)
    && RequestsOk(s) && ResponsesOk(s) && LeadersOk(s) && SlotsOk(s)
  }

  lemma LogInvInit(s: System)
    requires Init(s)
    ensures LogInv(s)
  {
  }

  // ---------- Log Matching ----------

  /** Two logs with an entry of the same term at the same index are identical through that index. */
  lemma LogMatching(reigns: map<nat, Reign>, a: seq<Entry>, b: seq<Entry>, i: nat)
    requires Coherent(reigns, a) && Coherent(reigns, b)
    requires i < |a| && i < |b| && a[i].term == b[i].term
    ensures a[..i + 1] == b[..i + 1]
  {
    if i == 0 {
      assert a[..1] == [a[0]] && b[..1] == [b[0]];
    } else {
      assert FromReign(reigns, a, i) && FromReign(reigns, b, i);
    }
  }

  /** The last entry a node already holds by term, or the previous one if it holds none, is the leader's. */
  lemma LastMatched(log: seq<Entry>, leaderLog: seq<Entry>, req: AppendRequest, last: nat)
    requires |log| >= 1 && |leaderLog| >= 1 && log[0] == leaderLog[0]
    requires SliceOf(req, leaderLog) && ValidPrevious(log, req)
    requires last == req.prevLogIndex + Matching(log, req.prevLogIndex + 1, req.entries)
    ensures last < |log| && last < |leaderLog| && log[last].term == leaderLog[last].term
  {
    var c := last - req.prevLogIndex;
    if c > 0 {
      MatchingIsExact(log, req.prevLogIndex + 1, req.entries, c - 1);
      assert leaderLog[last] == req.entries[c - 1];
    }
  }

  /** The entries a node already holds by term are the leader's entries, and so is all before them. */
  lemma MatchingAgrees(reigns: map<nat, Reign>, log: seq<Entry>, leaderLog: seq<Entry>, req: AppendRequest, last: nat)
    requires Coherent(reigns, log) && Coherent(reigns, leaderLog)
    requires SliceOf(req, leaderLog) && ValidPrevious(log, req)
    requires last == req.prevLogIndex + Matching(log, req.prevLogIndex + 1, req.entries)
    ensures last < |log| && last < |leaderLog| && log[..last + 1] == leaderLog[..last + 1]
  {
    LastMatched(log, leaderLog, req, last);
    LogMatching(reigns, log, leaderLog, last);
  }

  /** A request that a node accepts leaves it with the leader's log through the last sent index:
      either everything sent was there already, or the log becomes exactly that prefix. */
  lemma SpliceAgrees(reigns: map<nat, Reign>, log: seq<Entry>, leaderLog: seq<Entry>, req: AppendRequest,
                     end: nat, c: nat, log': seq<Entry>)
    requires Coherent(reigns, log) && Coherent(reigns, leaderLog)
    requires SliceOf(req, leaderLog) && ValidPrevious(log, req)
    requires end == req.prevLogIndex + 1 + |req.entries|
    requires c == Matching(log, req.prevLogIndex + 1, req.entries)
    requires log' == Splice(log, req.prevLogIndex + 1, req.entries)
    ensures end <= |log'| && end <= |leaderLog| && log'[..end] == leaderLog[..end]
    ensures c == |req.entries| ==> log' == log
    ensures c < |req.entries| ==> log' == leaderLog[..end]
  {
    MatchingAgrees(reigns, log, leaderLog, req, req.prevLogIndex + c);
    if c < |req.entries| {
      SliceTail(leaderLog, req.entries, req.prevLogIndex + 1, c);
    }
  }

  lemma SliceTail<T>(all: seq<T>, slice: seq<T>, from: nat, c: nat)
    requires from + |slice| <= |all| && c <= |slice|
    requires forall k :: 0 <= k < |slice| ==> slice[k] == all[from + k]
    ensures all[..from + c] + slice[c..] == all[..from + |slice|]
  {
  }

  /** Terms never decrease along a coherent log. */
  lemma TermsAscend(s: System, log: seq<Entry>, i: nat, j: nat)
    requires ReignsOk(s) && Coherent(s.reigns, log)
    requires i <= j < |log|
    ensures log[i].term <= log[j].term
  {
    if j > 0 {
      assert FromReign(s.reigns, log, j);
      var t := log[j].term;
      assert ReignOk(s, t);
      assert log[..j + 1][i] == s.reigns[t].log[..j + 1][i];
    }
  }

  // ---------- How the history may grow ----------

  ghost predicate Extends(r: map<nat, Reign>, r': map<nat, Reign>) {
    forall t :: t in r ==>
      t in r' && r'[t].leader == r[t].leader && r'[t].voters == r[t].voters && r[t].log <= r'[t].log
  }

  lemma CoherentExtends(r: map<nat, Reign>, r': map<nat, Reign>, log: seq<Entry>)
    requires Extends(r, r') && Coherent(r, log)
    ensures Coherent(r', log)
  {
    forall i | 1 <= i < |log| ensures FromReign(r', log, i) {
      assert FromReign(r, log, i);
    }
  }

  lemma ExtendsReflexive(r: map<nat, Reign>)
    ensures Extends(r, r)
  {
  }

  // ---------- Steps that leave the log alone ----------

  /** The node keeps its log; it may move to a later term; and nobody becomes leader, or candidate of the same term. */
  ghost predicate Quiet(n: Node, n': Node) {
    && n'.log == n.log
    && n'.term >= n.term
    && (n'.role == Leader ==> n.role == Leader && n'.term == n.term)
    && (n'.role == Candidate ==> n'.term > n.term || n.role == Candidate)
  }

  /** The members a node knows stay where they are. */
  ghost predicate SlotsKept(n: Node, n': Node) {
    && n'.self == n.self && |n.cluster| <= |n'.cluster|
    && forall i :: 0 <= i < |n.cluster| ==> n'.cluster[i].id == n.cluster[i].id
  }

  lemma SlotsStep(s: System, k: nat, n': Node, s': System)
    requires SlotsOk(s) && RequestsOk(s) && ResponsesOk(s) && k < |s.nodes|
    requires n'.role == Leader && n'.term in s.reigns ==>
               s.nodes[k].role == Leader && n'.term == s.nodes[k].term && SlotsKept(s.nodes[k], n')
    requires s'.ids == s.ids && s'.nodes == s.nodes[k := n']
    requires s'.appendRequests == s.appendRequests && s'.appendResponses == s.appendResponses
    ensures SlotsOk(s')
  {
    forall m | m in s'.appendRequests ensures SlotOk(s', m.from, m.req.term, m.slot, m.to) {
      assert SlotOk(s, m.from, m.req.term, m.slot, m.to) && RequestOk(s.reigns, m);
    }
    forall m | m in s'.appendResponses ensures SlotOk(s', m.leader, m.req.term, m.slot, m.peer) {
      assert SlotOk(s, m.leader, m.req.term, m.slot, m.peer) && ResponseOk(s, m);
    }
  }

  /** A leader that keeps its log adds nothing to the history. */
  lemma QuietHistory(s: System, k: nat, n': Node)
    requires LogInv(s) && k < |s.nodes| && Quiet(s.nodes[k], n')
    ensures WithNode(s, k, n') == s.(nodes := s.nodes[k := n'])
  {
    if n'.role == Leader {
      var n := s.nodes[k];
      assert NodeLogOk(s.reigns, n, k) && LeaderOk(s.ids, s.acks, n, k);
      assert ReignOk(s, n.term);
      assert s.reigns[n.term := Reign(k, s.reigns[n.term].voters, n'.log)] == s.reigns;
      assert s.acks + {Ack(n.term, k, |n'.log| - 1)} == s.acks;
    }
  }

  lemma QuietReigns(s: System, k: nat, n': Node, t: nat)
    requires k < |s.nodes| && Quiet(s.nodes[k], n')
    requires t in s.reigns && ReignOk(s, t)
    ensures ReignOk(s.(nodes := s.nodes[k := n']), t)
  {
  }

  lemma QuietAcks(s: System, k: nat, n': Node, a: Ack)
    requires k < |s.nodes| && Quiet(s.nodes[k], n') && AckOk(s, a)
    ensures AckOk(s.(nodes := s.nodes[k := n']), a)
  {
  }

  lemma QuietNode(s: System, k: nat, n': Node)
    requires k < |s.nodes| && Quiet(s.nodes[k], n')
    requires NodeLogOk(s.reigns, s.nodes[k], k)
    ensures NodeLogOk(s.reigns, n', k)
  {
    var n := s.nodes[k];
    assert Bounded(n.log, n'.term);
  }

  lemma QuietStep(s: System, k: nat, n': Node)
    requires LogInv(s) && k < |s.nodes| && Quiet(s.nodes[k], n') && NodeKnown(s.ids, n', k)
    requires LeaderOk(s.ids, s.acks, n', k) && (n'.role == Leader ==> SlotsKept(s.nodes[k], n'))
    ensures LogInv(WithNode(s, k, n'))
    ensures WithNode(s, k, n') == s.(nodes := s.nodes[k := n'])
  {
    QuietHistory(s, k, n');
    var s' := s.(nodes := s.nodes[k := n']);
    forall t | t in s.reigns ensures ReignOk(s', t) { QuietReigns(s, k, n', t); }
    forall a | a in s.acks ensures AckOk(s', a) { QuietAcks(s, k, n', a); }
    QuietNode(s, k, n');
    SlotsStep(s, k, n', s');
    KnownStep(s, k, n', s');
    assert NodesOk(s') && LeadersOk(s');
    assert ResponsesOk(s') by {
      forall m | m in s'.appendResponses ensures ResponseOk(s', m) { assert ResponseOk(s, m); }
    }
  }

  /** The invariant does not look at votes. */
  lemma LogInvFrame(s: System, s': System)
    requires LogInv(s)
    requires s' == s.(voteRequests := s'.voteRequests, voteResponses := s'.voteResponses, grants := s'.grants)
    ensures LogInv(s')
  {
    SameNodes(s, s');
  }

  /** What is said about the nodes and their history does not depend on messages. */
  lemma SameNodes(s: System, s': System)
    requires LogInv(s)
    requires s'.ids == s.ids && s'.nodes == s.nodes && s'.reigns == s.reigns && s'.acks == s.acks
    ensures Known(s') && ReignsOk(s') && NodesOk(s') && AcksOk(s') && LeadersOk(s')
    ensures forall m :: ResponseOk(s, m) ==> ResponseOk(s', m)
    ensures forall f, t, i, p: nat :: SlotOk(s, f, t, i, p) ==> SlotOk(s', f, t, i, p)
  {
    forall t | t in s'.reigns ensures ReignOk(s', t) { assert ReignOk(s, t); }
    forall a | a in s'.acks ensures AckOk(s', a) { assert AckOk(s, a); }
    forall j | 0 <= j < |s'.nodes| ensures NodeKnown(s'.ids, s'.nodes[j], j) { assert NodeKnown(s.ids, s.nodes[j], j); }
  }

  // ---------- Steps by which a leader's log grows ----------

  /** The node is, or at this moment becomes, the leader of its term, and appends entries of that term. */
  ghost predicate Extending(s: System, k: nat, n': Node)
    requires k < |s.nodes|
  {
    var n := s.nodes[k];
    && n'.role == Leader && n'.term == n.term
    && n.log <= n'.log
    && (forall i :: |n.log| <= i < |n'.log| ==> n'.log[i].term == n.term)
    && (n.role == Leader || (n.role == Candidate && n.term !in s.reigns && |n'.log| > |n.log|))
  }

  lemma ExtendingHistory(s: System, k: nat, n': Node)
    requires LogInv(s) && k < |s.nodes| && Extending(s, k, n')
    ensures Extends(s.reigns, WithNode(s, k, n').reigns)
    ensures n'.term in WithNode(s, k, n').reigns
    ensures WithNode(s, k, n').reigns[n'.term].log == n'.log
    ensures WithNode(s, k, n').reigns[n'.term].leader == k
    ensures WithNode(s, k, n').reigns.Keys == s.reigns.Keys + {n'.term}
    ensures forall t :: t in s.reigns && t != n'.term ==> WithNode(s, k, n').reigns[t] == s.reigns[t]
  {
    var n := s.nodes[k];
    assert NodeLogOk(s.reigns, n, k);
    if n.role == Leader {
      assert ReignOk(s, n.term);
    }
  }

  lemma ExtendingNode(s: System, k: nat, n': Node)
    requires LogInv(s) && k < |s.nodes| && Extending(s, k, n')
    ensures NodeLogOk(WithNode(s, k, n').reigns, n', k)
  {
    var n := s.nodes[k];
    var r' := WithNode(s, k, n').reigns;
    ExtendingHistory(s, k, n');
    assert NodeLogOk(s.reigns, n, k);
    CoherentExtends(s.reigns, r', n.log);
    forall i | 1 <= i < |n'.log| ensures FromReign(r', n'.log, i) {
      if i < |n.log| {
        assert FromReign(r', n.log, i);
        assert n'.log[..i + 1] == n.log[..i + 1];
      }
    }
  }

  lemma ExtendingReign(s: System, k: nat, n': Node, t: nat)
    requires LogInv(s) && k < |s.nodes| && Extending(s, k, n')
    requires t in WithNode(s, k, n').reigns
    ensures ReignOk(WithNode(s, k, n'), t)
  {
    var n := s.nodes[k];
    var s' := WithNode(s, k, n');
    ExtendingHistory(s, k, n');
    assert NodeLogOk(s.reigns, n, k);
    if t == n'.term {
      ExtendingNode(s, k, n');
      if n.role == Leader {
        assert ReignOk(s, t);
      }
    } else {
      assert ReignOk(s, t);
      CoherentExtends(s.reigns, s'.reigns, s.reigns[t].log);
    }
  }

  lemma ExtendingAck(s: System, k: nat, n': Node, a: Ack)
    requires LogInv(s) && k < |s.nodes| && Extending(s, k, n')
    requires a in WithNode(s, k, n').acks
    ensures AckOk(WithNode(s, k, n'), a)
  {
    var n := s.nodes[k];
    var s' := WithNode(s, k, n');
    ExtendingHistory(s, k, n');
    if a in s.acks {
      assert AckOk(s, a);
      PrefixKept(s.reigns[a.term].log, s'.reigns[a.term].log, a.upTo + 1);
      if a.node == k && n.term == a.term {
        PrefixKept(n.log, n'.log, a.upTo + 1);
      }
    }
  }

  lemma PrefixKept<T>(a: seq<T>, b: seq<T>, u: nat)
    requires a <= b && u <= |a|
    ensures b[..u] == a[..u]
  {
  }

  lemma ExtendingStep(s: System, k: nat, n': Node)
    requires LogInv(s) && k < |s.nodes| && Extending(s, k, n') && NodeKnown(s.ids, n', k)
    requires LeaderOk(s.ids, WithNode(s, k, n').acks, n', k)
    requires (s.nodes[k].role == Leader ==> SlotsKept(s.nodes[k], n'))
    ensures LogInv(WithNode(s, k, n'))
  {
    var s' := WithNode(s, k, n');
    ExtendingHistory(s, k, n');
    ExtendingNode(s, k, n');
    forall t | t in s'.reigns ensures ReignOk(s', t) { ExtendingReign(s, k, n', t); }
    forall a | a in s'.acks ensures AckOk(s', a) { ExtendingAck(s, k, n', a); }
    forall j | 0 <= j < |s'.nodes| ensures NodeLogOk(s'.reigns, s'.nodes[j], j) {
      if j != k {
        assert NodeLogOk(s.reigns, s.nodes[j], j);
        CoherentExtends(s.reigns, s'.reigns, s.nodes[j].log);
      }
    }
    GrownHistoryKeepsMessages(s, s');
    SlotsStep(s, k, n', s');
    KnownStep(s, k, n', s');
    MoreAcks(s, s', k);
  }

  lemma GrownHistoryKeepsMessages(s: System, s': System)
    requires RequestsOk(s) && ResponsesOk(s)
    requires Extends(s.reigns, s'.reigns) && s.acks <= s'.acks
    requires s'.appendRequests == s.appendRequests && s'.appendResponses == s.appendResponses
    ensures RequestsOk(s') && ResponsesOk(s')
  {
    forall m | m in s'.appendRequests ensures RequestOk(s'.reigns, m) {
      assert RequestOk(s.reigns, m);
    }
    forall m | m in s'.appendResponses ensures ResponseOk(s', m) {
      assert ResponseOk(s, m);
    }
  }

  // ---------- The follower's append ----------

  lemma CoherentPrefix(reigns: map<nat, Reign>, log: seq<Entry>, end: nat)
    requires Coherent(reigns, log) && 1 <= end <= |log|
    ensures Coherent(reigns, log[..end])
  {
    forall i | 1 <= i < end ensures FromReign(reigns, log[..end], i) {
      assert FromReign(reigns, log, i);
      assert log[..end][..i + 1] == log[..i + 1];
    }
  }

  /** What a splice by a leader's request cannot lose: any prefix on which the log agrees with the leader. */
  lemma SpliceKeepsAgreement(reigns: map<nat, Reign>, log: seq<Entry>, leaderLog: seq<Entry>, req: AppendRequest,
                             log': seq<Entry>, u: nat)
    requires Coherent(reigns, log) && Coherent(reigns, leaderLog)
    requires SliceOf(req, leaderLog) && ValidPrevious(log, req)
    requires log' == Splice(log, req.prevLogIndex + 1, req.entries)
    requires u <= |log| && u <= |leaderLog| && log[..u] == leaderLog[..u]
    ensures u <= |log'| && log'[..u] == log[..u]
  {
    var next := req.prevLogIndex + 1;
    var c := Matching(log, next, req.entries);
    var end := next + |req.entries|;
    SpliceAgrees(reigns, log, leaderLog, req, end, c, log');
    if c < |req.entries| && next + c < |log| {
      MatchingIsExact(log, next, req.entries, c);
      assert req.entries[c] == leaderLog[next + c];
      PrefixElement(log, leaderLog, u, next + c);
    }
  }

  lemma PrefixElement<T>(a: seq<T>, b: seq<T>, u: nat, i: nat)
    requires u <= |a| && u <= |b| && a[..u] == b[..u]
    ensures i < u ==> a[i] == b[i]
  {
    if i < u {
      assert a[..u][i] == b[..u][i];
    }
  }

  lemma AppendNode(s: System, k: nat, m: AppendRequestMsg, log': seq<Entry>)
    requires LogInv(s) && k < |s.nodes| && m in s.appendRequests
    requires m.req.term == s.nodes[k].term && ValidPrevious(s.nodes[k].log, m.req)
    requires log' == Splice(s.nodes[k].log, m.req.prevLogIndex + 1, m.req.entries)
    ensures Coherent(s.reigns, log') && Bounded(log', m.req.term)
    ensures s.reigns[m.req.term].leader == k ==> log' == s.nodes[k].log
  {
    var n, req := s.nodes[k], m.req;
    assert RequestOk(s.reigns, m) && NodeLogOk(s.reigns, n, k) && ReignOk(s, req.term);
    AppendLog(s.reigns, n.log, s.reigns[req.term].log, req, log');
    if s.reigns[req.term].leader == k {
      SpliceOwn(n.log, req);
    }
  }

  lemma AppendLog(reigns: map<nat, Reign>, log: seq<Entry>, l: seq<Entry>, req: AppendRequest, log': seq<Entry>)
    requires Coherent(reigns, log) && Bounded(log, req.term) && Coherent(reigns, l) && Bounded(l, req.term)
    requires SliceOf(req, l) && ValidPrevious(log, req) && log' == Splice(log, req.prevLogIndex + 1, req.entries)
    ensures Coherent(reigns, log') && Bounded(log', req.term)
  {
    var c := Matching(log, req.prevLogIndex + 1, req.entries);
    var end := req.prevLogIndex + 1 + |req.entries|;
    SpliceAgrees(reigns, log, l, req, end, c, log');
    if c < |req.entries| {
      CoherentPrefix(reigns, l, end);
    }
  }

  /** A request that is a slice of the very log it meets changes nothing. */
  lemma SpliceOwn(log: seq<Entry>, req: AppendRequest)
    requires SliceOf(req, log)
    ensures Splice(log, req.prevLogIndex + 1, req.entries) == log
  {
    var c := Matching(log, req.prevLogIndex + 1, req.entries);
    MatchingIsExact(log, req.prevLogIndex + 1, req.entries, c);
    SliceElement(req, log, c);
  }

  lemma SliceElement(req: AppendRequest, log: seq<Entry>, k: nat)
    requires SliceOf(req, log)
    ensures k < |req.entries| ==> req.entries[k] == log[req.prevLogIndex + 1 + k]
  {
  }

  lemma AppendAck(s: System, k: nat, m: AppendRequestMsg, n': Node, a: Ack)
    requires LogInv(s) && k < |s.nodes| && m in s.appendRequests
    requires m.req.term == s.nodes[k].term && ValidPrevious(s.nodes[k].log, m.req)
    requires n'.log == Splice(s.nodes[k].log, m.req.prevLogIndex + 1, m.req.entries) && n'.term == s.nodes[k].term
    requires a in s.acks || a == Ack(m.req.term, k, m.req.prevLogIndex + |m.req.entries|)
    ensures AckOk(s.(nodes := s.nodes[k := n']), a)
  {
    var n, req := s.nodes[k], m.req;
    assert RequestOk(s.reigns, m) && NodeLogOk(s.reigns, n, k) && ReignOk(s, req.term);
    var l := s.reigns[req.term].log;
    if a in s.acks {
      assert AckOk(s, a);
      if a.node == k && a.term == n.term {
        SpliceKeepsAgreement(s.reigns, n.log, l, req, n'.log, a.upTo + 1);
      }
    } else {
      var c := Matching(n.log, req.prevLogIndex + 1, req.entries);
      SpliceAgrees(s.reigns, n.log, l, req, a.upTo + 1, c, n'.log);
    }
  }

  /** A follower in the request's term accepts the request and becomes `n'`. */
  lemma AppendStep(s: System, m: AppendRequestMsg, n': Node, s': System)
    requires LogInv(s) && m in s.appendRequests && m.to < |s.nodes|
    requires s.nodes[m.to].role == Follower && s.nodes[m.to].term == m.req.term
    requires ValidPrevious(s.nodes[m.to].log, m.req)
    requires n'.role == Follower && n'.term == m.req.term && NodeKnown(s.ids, n', m.to)
    requires n'.log == Splice(s.nodes[m.to].log, m.req.prevLogIndex + 1, m.req.entries)
    requires s' == AfterYes(s, m, n')
    ensures LogInv(s')
  {
    var k, req := m.to, m.req;
    AppendNode(s, k, m, n'.log);
    assert NodeLogOk(s.reigns, n', k);
    forall t | t in s'.reigns ensures ReignOk(s', t) { assert ReignOk(s, t) && RequestOk(s.reigns, m); }
    AppendAcks(s, m, n', s');
    AcceptedResponse(s, m, s');
    AcceptedSlots(s, m, n', s');
    MoreAcks(s, s', k);
    KnownStep(s, k, n', s');
    assert NodesOk(s');
  }

  /** The system after node `m.to`, now `n'`, said yes to `m`. */
  function AfterYes(s: System, m: AppendRequestMsg, n': Node): System
    requires m.to < |s.nodes|
  {
    s.(nodes := s.nodes[m.to := n'],
       appendResponses := s.appendResponses
                          + {AppendResponseMsg(m.to, m.from, m.slot, m.req, AppendResponse(m.req.term, true))},
       acks := s.acks + {AckOf(m)})
  }

  lemma AppendAcks(s: System, m: AppendRequestMsg, n': Node, s': System)
    requires LogInv(s) && m in s.appendRequests && m.to < |s.nodes|
    requires s.nodes[m.to].term == m.req.term && ValidPrevious(s.nodes[m.to].log, m.req) && n'.term == m.req.term
    requires n'.log == Splice(s.nodes[m.to].log, m.req.prevLogIndex + 1, m.req.entries)
    requires s'.nodes == s.nodes[m.to := n'] && s'.reigns == s.reigns
    requires s'.acks == s.acks + {AckOf(m)}
    ensures AcksOk(s')
  {
    forall a | a in s'.acks ensures AckOk(s', a) {
      AppendAck(s, m.to, m, n', a);
    }
  }

  lemma AcceptedResponse(s: System, m: AppendRequestMsg, s': System)
    requires ResponsesOk(s) && RequestOk(s.reigns, m)
    requires s'.reigns == s.reigns && s'.acks == s.acks + {AckOf(m)}
    requires s'.appendResponses ==
             s.appendResponses + {AppendResponseMsg(m.to, m.from, m.slot, m.req, AppendResponse(m.req.term, true))}
    ensures ResponsesOk(s')
  {
    forall r | r in s'.appendResponses ensures ResponseOk(s', r) {
      if r in s.appendResponses { assert ResponseOk(s, r); }
    }
  }

  lemma AcceptedSlots(s: System, m: AppendRequestMsg, n': Node, s': System)
    requires SlotsOk(s) && m in s.appendRequests && m.to < |s.nodes| && n'.role == Follower
    requires s'.ids == s.ids && s'.nodes == s.nodes[m.to := n'] && s'.appendRequests == s.appendRequests
    requires s'.appendResponses ==
             s.appendResponses + {AppendResponseMsg(m.to, m.from, m.slot, m.req, AppendResponse(m.req.term, true))}
    ensures SlotsOk(s')
  {
    forall r | r in s'.appendRequests ensures SlotOk(s', r.from, r.req.term, r.slot, r.to) {
      assert SlotOk(s, r.from, r.req.term, r.slot, r.to);
    }
    forall r | r in s'.appendResponses ensures SlotOk(s', r.leader, r.req.term, r.slot, r.peer) {
      if r in s.appendResponses {
        assert SlotOk(s, r.leader, r.req.term, r.slot, r.peer);
      } else {
        assert SlotOk(s, m.from, m.req.term, m.slot, m.to);
      }
    }
  }

  /** The bookkeeping of the other leaders stays backed when acknowledgements are added and node `k` changes. */
  lemma MoreAcks(s: System, s': System, k: nat)
    requires LeadersOk(s) && s.acks <= s'.acks && k < |s.nodes| && s'.ids == s.ids
    requires |s'.nodes| == |s.nodes| && LeaderOk(s'.ids, s'.acks, s'.nodes[k], k)
    requires forall j :: 0 <= j < |s.nodes| && j != k ==> s'.nodes[j] == s.nodes[j]
    ensures LeadersOk(s')
  {
    forall j | 0 <= j < |s'.nodes| ensures LeaderOk(s'.ids, s'.acks, s'.nodes[j], j) {
      if j != k {
        assert LeaderOk(s.ids, s.acks, s.nodes[j], j);
        LeaderOkMore(s.ids, s.acks, s'.acks, s.nodes[j], j);
      }
    }
  }

  lemma LeaderOkMore(ids: seq<nat>, acks: set<Ack>, acks': set<Ack>, n: Node, k: nat)
    requires LeaderOk(ids, acks, n, k) && acks <= acks'
    ensures LeaderOk(ids, acks', n, k)
  {
    if n.role == Leader {
      forall i: nat | i < |n.cluster| && i != n.self ensures BookOk(ids, acks', n, i) {
        assert BookOk(ids, acks, n, i);
      }
    }
  }
}
