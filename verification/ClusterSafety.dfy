/** The safety theorems, over whole runs. */
module ClusterSafety {
  import opened Types
  import opened OrderStatistic
  import opened Raft
  import opened NodeInvariants
  import opened Cluster
  import opened ClusterLog
  import opened ClusterLogRun
  import opened ClusterFixed
  import opened ClusterVotes
  import opened ClusterCommit
  import opened ClusterCommitRun

  // ---------- Which runs ----------

  /** Steps of one dispatch loop, fresh messages, and addresses that lead where they should. */
  ghost predicate Orderly(s: System, st: Step)
    requires Enabled(s, st)
  {
    Atomic(s, st) && Fresh(s, st) && Routed(s, st)
  }

  /** A run in which every step is orderly and no term is won twice. Members may be added, nodes of
      other founding clusters may join, and nodes may restart. */
  ghost predicate SingleLeaderRun(states: seq<System>, steps: seq<Step>) {
    && IsRun(states, steps)
    && forall i {:trigger steps[i]} :: 0 <= i < |steps| ==>
         Enabled(states[i], steps[i]) && Orderly(states[i], steps[i]) && Unclaimed(states[i], steps[i])
  }

  /** A run of one fixed cluster in which every step is orderly, every batch is ample, and no restart
      forgets a vote that counts. */
  ghost predicate SafeRun(states: seq<System>, steps: seq<Step>) {
    && IsRun(states, steps) && OneCluster(states[0])
    && forall i {:trigger steps[i]} :: 0 <= i < |steps| ==> SafeStep(states[i], steps[i])
  }

  ghost predicate SafeStep(s: System, st: Step) {
    Enabled(s, st) && Orderly(s, st) && Fixed(st) && VoteKept(s, st) && AmpleBatch(s, st)
  }

  /** A leader's request that is not cut is ample. */
  lemma UncutIsAmple(s: System, st: Step)
    requires LogInv(s) && Enabled(s, st) && Fresh(s, st) && st.SendAppendRequest?
    requires s.nodes[st.node].commitIndex < |s.nodes[st.node].log|
    requires |s.nodes[st.node].log| - s.nodes[st.node].cluster[st.slot].nextIndex <= BATCH
    ensures AmpleBatch(s, st)
  {
    var n := s.nodes[st.node];
    assert NodeLogOk(s.reigns, n, st.node) && ReignOk(s, n.term);
  }

  // ---------- The invariants hold along runs ----------

  lemma {:induction false} LogInvRun(states: seq<System>, steps: seq<Step>, x: nat)
    requires SingleLeaderRun(states, steps) && x < |states|
    ensures LogInv(states[x])
    decreases x
  {
    if x == 0 {
      LogInvInit(states[0]);
    } else {
      LogInvRun(states, steps, x - 1);
      LogInvStep(states[x - 1], steps[x - 1]);
    }
  }

  lemma {:induction false} VoteInvRun(states: seq<System>, steps: seq<Step>, x: nat)
    requires SafeRun(states, steps) && x < |states|
    ensures FixedInv(states[x]) && VoteInv(states[x])
    decreases x
  {
    if x == 0 {
      FixedInvInit(states[0]);
      VoteInvInit(states[0]);
    } else {
      VoteInvRun(states, steps, x - 1);
      StepTaken(states, steps, x - 1);
      VoteInvOnce(states[x - 1], steps[x - 1], states[x]);
    }
  }

  lemma VoteInvOnce(s: System, st: Step, s': System)
    requires FixedInv(s) && VoteInv(s) && SafeStep(s, st) && s' == Do(s, st)
    ensures FixedInv(s') && VoteInv(s')
  {
    VoteInvStep(s, st);
    FixedInvStep(s, st);
  }

  lemma CommitInvRun(states: seq<System>, steps: seq<Step>, x: nat)
    requires SafeRun(states, steps) && x < |states|
    ensures FixedInv(states[x]) && VoteInv(states[x]) && CommitInv(states[x])
  {
    VoteInvRun(states, steps, x);
    CommitInvUpTo(states, steps, x);
  }

  lemma {:induction false} CommitInvUpTo(states: seq<System>, steps: seq<Step>, x: nat)
    requires SafeRun(states, steps) && x < |states|
    ensures CommitInv(states[x])
    decreases x
  {
    if x == 0 {
      CommitInvInit(states[0]);
    } else {
      CommitInvUpTo(states, steps, x - 1);
      CommitInvAt(states, steps, x - 1);
    }
  }

  lemma CommitInvAt(states: seq<System>, steps: seq<Step>, x: nat)
    requires SafeRun(states, steps) && x < |steps| && CommitInv(states[x])
    ensures CommitInv(states[x + 1])
  {
    OwnTermRun(states, steps, x);
    StepTaken(states, steps, x);
    CommitInvOnce(states[x], steps[x], states[x + 1]);
  }

  lemma StepTaken(states: seq<System>, steps: seq<Step>, x: nat)
    requires SafeRun(states, steps) && x < |steps|
    ensures SafeStep(states[x], steps[x]) && x + 1 < |states| && states[x + 1] == Do(states[x], steps[x])
  {
  }

  lemma CommitInvOnce(s: System, st: Step, s': System)
    requires FixedInv(s) && VoteInv(s) && CommitInv(s) && AcksOwnTerm(s) && SafeStep(s, st) && s' == Do(s, st)
    ensures CommitInv(s')
  {
    OwnTermHolds(s, st);
    CommitInvStep(s, st);
  }

  // ---------- Log Matching (section 5.3) ----------

  /** In every reachable state, two logs with an entry of one term at one index are identical,
      terms and commands, through that index. */
  lemma LogMatchingInRun(states: seq<System>, steps: seq<Step>, x: nat, p: nat, q: nat, i: nat)
    requires SingleLeaderRun(states, steps) && x < |states|
    requires p < |states[x].nodes| && q < |states[x].nodes|
    requires i < |states[x].nodes[p].log| && i < |states[x].nodes[q].log|
    requires states[x].nodes[p].log[i].term == states[x].nodes[q].log[i].term
    ensures states[x].nodes[p].log[..i + 1] == states[x].nodes[q].log[..i + 1]
  {
    var s := states[x];
    LogInvRun(states, steps, x);
    assert NodeLogOk(s.reigns, s.nodes[p], p) && NodeLogOk(s.reigns, s.nodes[q], q);
    LogMatching(s.reigns, s.nodes[p].log, s.nodes[q].log, i);
  }

  /** An in-flight request and a log with an entry of one term at one index agree on every sent entry
      up to it, and on the entry before them. */
  lemma RequestMatchingInRun(states: seq<System>, steps: seq<Step>, x: nat, m: AppendRequestMsg, q: nat, k: nat)
    requires SingleLeaderRun(states, steps) && x < |states|
    requires m in states[x].appendRequests && q < |states[x].nodes| && k < |m.req.entries|
    requires m.req.prevLogIndex + 1 + k < |states[x].nodes[q].log|
    requires states[x].nodes[q].log[m.req.prevLogIndex + 1 + k].term == m.req.entries[k].term
    ensures states[x].nodes[q].log[m.req.prevLogIndex].term == m.req.prevLogTerm
    ensures forall j :: 0 <= j <= k ==> states[x].nodes[q].log[m.req.prevLogIndex + 1 + j] == m.req.entries[j]
  {
    var s := states[x];
    LogInvRun(states, steps, x);
    assert RequestOk(s.reigns, m) && ReignOk(s, m.req.term) && NodeLogOk(s.reigns, s.nodes[q], q);
    RequestMatching(s.reigns, s.reigns[m.req.term].log, m.req, s.nodes[q].log, k);
  }

  /** Any two in-flight requests with an entry of one term at one index agree on every entry they both
      carry up to it. */
  lemma RequestsMatchInRun(states: seq<System>, steps: seq<Step>, x: nat, m: AppendRequestMsg, m': AppendRequestMsg,
                           i: nat, j: nat)
    requires SingleLeaderRun(states, steps) && x < |states|
    requires m in states[x].appendRequests && m' in states[x].appendRequests
    requires Carries(m.req, i) && Carries(m'.req, i) && SentAt(m.req, i).term == SentAt(m'.req, i).term
    requires j <= i && Carries(m.req, j) && Carries(m'.req, j)
    ensures SentAt(m.req, j) == SentAt(m'.req, j)
  {
    var s := states[x];
    LogInvRun(states, steps, x);
    assert RequestOk(s.reigns, m) && RequestOk(s.reigns, m') && ReignOk(s, m.req.term) && ReignOk(s, m'.req.term);
    var l, l' := s.reigns[m.req.term].log, s.reigns[m'.req.term].log;
    SentFrom(m.req, l, i);
    SentFrom(m'.req, l', i);
    LogMatching(s.reigns, l, l', i);
    SentFrom(m.req, l, j);
    SentFrom(m'.req, l', j);
    PrefixElement(l, l', i + 1, j);
  }

  /** The request carries an entry for index `i`. */
  predicate Carries(req: AppendRequest, i: nat) {
    req.prevLogIndex < i <= req.prevLogIndex + |req.entries|
  }

  function SentAt(req: AppendRequest, i: nat): Entry
    requires Carries(req, i)
  {
    req.entries[i - req.prevLogIndex - 1]
  }

  lemma SentFrom(req: AppendRequest, l: seq<Entry>, i: nat)
    requires SliceOf(req, l) && Carries(req, i)
    ensures i < |l| && SentAt(req, i) == l[i]
  {
    var k := i - req.prevLogIndex - 1;
    assert req.entries[k] == l[req.prevLogIndex + 1 + k];
  }

  lemma RequestMatching(reigns: map<nat, Reign>, l: seq<Entry>, req: AppendRequest, log: seq<Entry>, k: nat)
    requires Coherent(reigns, l) && Coherent(reigns, log) && SliceOf(req, l) && k < |req.entries|
    requires req.prevLogIndex + 1 + k < |log| && log[req.prevLogIndex + 1 + k].term == req.entries[k].term
    ensures log[req.prevLogIndex].term == req.prevLogTerm
    ensures forall j :: 0 <= j <= k ==> log[req.prevLogIndex + 1 + j] == req.entries[j]
  {
    var at := req.prevLogIndex + 1 + k;
    assert req.entries[k] == l[at];
    LogMatching(reigns, log, l, at);
    forall j | 0 <= j <= k ensures log[req.prevLogIndex + 1 + j] == req.entries[j] {
      assert req.entries[j] == l[req.prevLogIndex + 1 + j];
      PrefixElement(log, l, at + 1, req.prevLogIndex + 1 + j);
    }
    PrefixElement(log, l, at + 1, req.prevLogIndex);
  }

  // ---------- What a leader knows about its peers ----------

  /** Whenever a leader records `matchIndex` for a member, the node of that id has moved to a later term or
      its log agrees with the leader's through that index; and the next request can always be built. */
  lemma MatchIndexSound(states: seq<System>, steps: seq<Step>, x: nat, k: nat, i: nat, p: nat)
    requires SingleLeaderRun(states, steps) && x < |states|
    requires k < |states[x].nodes| && states[x].nodes[k].role == Leader
    requires Addresses(states[x], k, i, p)
    ensures p < |states[x].nodes|
    ensures var n := states[x].nodes[k];
            var peer := states[x].nodes[p];
            var m := n.cluster[i].matchIndex;
            && m < |n.log|
            && (peer.term > n.term || (m < |peer.log| && peer.log[..m + 1] == n.log[..m + 1]))
    ensures Enabled(states[x], SendAppendRequest(k, i, p))
  {
    var s := states[x];
    LogInvRun(states, steps, x);
    LeaderKnows(s, k, i, p);
  }

  lemma LeaderKnows(s: System, k: nat, i: nat, p: nat)
    requires LogInv(s) && k < |s.nodes| && s.nodes[k].role == Leader && Addresses(s, k, i, p)
    ensures p < |s.nodes|
    ensures var m := s.nodes[k].cluster[i].matchIndex;
            m < |s.nodes[k].log|
            && (s.nodes[p].term > s.nodes[k].term
                || (m < |s.nodes[p].log| && s.nodes[p].log[..m + 1] == s.nodes[k].log[..m + 1]))
    ensures Enabled(s, SendAppendRequest(k, i, p))
  {
    var n := s.nodes[k];
    assert LeaderOk(s.ids, s.acks, n, k) && BookOk(s.ids, s.acks, n, i);
    assert NodeLogOk(s.reigns, n, k) && NodeLogOk(s.reigns, s.nodes[p], p) && ReignOk(s, n.term);
    var m := n.cluster[i].matchIndex;
    if m == 0 {
      assert n.log[..1] == [SENTINEL] && s.nodes[p].log[..1] == [SENTINEL];
    } else {
      assert AckOk(s, Ack(n.term, p, m));
    }
  }

  // ---------- Election Safety (section 5.2) ----------

  lemma {:induction false} ReignsLast(states: seq<System>, steps: seq<Step>, x: nat, y: nat)
    requires SafeRun(states, steps) && x <= y < |states|
    ensures Extends(states[x].reigns, states[y].reigns)
    decreases y - x
  {
    if x == y {
      ExtendsReflexive(states[x].reigns);
    } else {
      ReignsLast(states, steps, x, y - 1);
      VoteInvRun(states, steps, y - 1);
      StepTaken(states, steps, y - 1);
      SafeStepExtends(states[y - 1], steps[y - 1]);
      ExtendsTransitive(states[x].reigns, states[y - 1].reigns, states[y].reigns);
    }
  }

  lemma SafeStepExtends(s: System, st: Step)
    requires FixedInv(s) && VoteInv(s) && SafeStep(s, st)
    ensures Extends(s.reigns, Do(s, st).reigns)
  {
    VoteInvStep(s, st);
    StepExtends(s, st);
  }

  lemma ExtendsTransitive(a: map<nat, Reign>, b: map<nat, Reign>, c: map<nat, Reign>)
    requires Extends(a, b) && Extends(b, c)
    ensures Extends(a, c)
  {
  }

  /** At most one node is ever leader in a given term, whenever in the run it is looked at, although
      a truncation makes a node forget the vote it gave in the term. */
  lemma ElectionSafety(states: seq<System>, steps: seq<Step>, x: nat, y: nat, p: nat, q: nat)
    requires SafeRun(states, steps) && x < |states| && y < |states|
    requires p < |states[x].nodes| && states[x].nodes[p].role == Leader
    requires q < |states[y].nodes| && states[y].nodes[q].role == Leader
    requires states[x].nodes[p].term == states[y].nodes[q].term
    ensures p == q
  {
    VoteInvRun(states, steps, x);
    VoteInvRun(states, steps, y);
    assert NodeLogOk(states[x].reigns, states[x].nodes[p], p);
    assert NodeLogOk(states[y].reigns, states[y].nodes[q], q);
    if x <= y {
      ReignsLast(states, steps, x, y);
    } else {
      ReignsLast(states, steps, y, x);
    }
  }

  /** In such a run no term is won twice, so the log theorems apply to it. */
  lemma SafeIsSingleLeader(states: seq<System>, steps: seq<Step>)
    requires SafeRun(states, steps)
    ensures SingleLeaderRun(states, steps)
  {
    forall i | 0 <= i < |steps|
      ensures Enabled(states[i], steps[i]) && Orderly(states[i], steps[i]) && Unclaimed(states[i], steps[i])
    {
      VoteInvRun(states, steps, i);
      StepTaken(states, steps, i);
      VoteInvStep(states[i], steps[i]);
    }
  }

  // ---------- Leaders commit entries of their own term (section 5.4.2) ----------

  ghost predicate AckOwnTerm(reigns: map<nat, Reign>, a: Ack) {
    a.term in reigns && a.upTo < |reigns[a.term].log| && reigns[a.term].log[a.upTo].term == a.term
  }

  /** An acknowledgement always reaches an entry of its own term. */
  ghost predicate AcksOwnTerm(s: System) {
    forall a :: a in s.acks ==> AckOwnTerm(s.reigns, a)
  }

  ghost predicate LeadersAck(n: Node, k: nat, a: Ack) {
    n.role == Leader && a == Ack(n.term, k, if n.log == [] then 0 else |n.log| - 1)
  }

  ghost predicate ReceiversAck(s: System, a: Ack) {
    exists m :: m in s.appendRequests && a == AckOf(m)
  }

  /** Where acknowledgements come from. */
  lemma NewAckCases(s: System, st: Step, s': System, a: Ack)
    requires Enabled(s, st) && s' == Do(s, st) && a in s'.acks && a !in s.acks
    ensures ReceiversAck(s, a) || (a.node < |s'.nodes| && LeadersAck(s'.nodes[a.node], a.node, a))
  {
    StepIsHandle(s, st);
    if st.DeliverAppendRequest? {
      assert st.appendRequest in s.appendRequests;
      DeliveryAcks(s, st.appendRequest, a);
    } else if Actor(st).Some? {
      StepAcks(s, st);
      PlacedAcks(s, Actor(st).value.0, Handle(s.nodes[Actor(st).value.0], Actor(st).value.1), a);
    }
  }

  lemma PlacedAcks(s: System, k: nat, n: Node, a: Ack)
    requires k < |s.nodes| && a in WithNode(s, k, n).acks && a !in s.acks
    ensures LeadersAck(n, k, a) && a.node == k
  {
  }

  lemma RequestReachesOwnTerm(s: System, m: AppendRequestMsg)
    requires LogInv(s) && VoteInv(s) && m in s.appendRequests
    ensures AckOwnTerm(s.reigns, AckOf(m))
  {
    assert RequestOk(s.reigns, m) && EndsInTerm(m.req);
    var log := s.reigns[m.req.term].log;
    if m.req.entries != [] {
      var last := |m.req.entries| - 1;
      assert m.req.entries[last] == log[m.req.prevLogIndex + 1 + last];
    }
  }

  lemma AckOwnTermExtends(r: map<nat, Reign>, r': map<nat, Reign>, a: Ack)
    requires Extends(r, r') && AckOwnTerm(r, a)
    ensures AckOwnTerm(r', a)
  {
  }

  lemma LeadersAckOwnTerm(s: System, a: Ack)
    requires LogInv(s) && a.node < |s.nodes| && LeadersAck(s.nodes[a.node], a.node, a)
    ensures AckOwnTerm(s.reigns, a)
  {
    assert NodeLogOk(s.reigns, s.nodes[a.node], a.node) && ReignOk(s, a.term);
  }

  lemma ReceiversAckOwnTerm(s: System, a: Ack)
    requires LogInv(s) && VoteInv(s) && ReceiversAck(s, a)
    ensures AckOwnTerm(s.reigns, a)
  {
    var m :| m in s.appendRequests && a == AckOf(m);
    RequestReachesOwnTerm(s, m);
  }

  lemma AcksOwnTermStep(s: System, st: Step, s': System)
    requires LogInv(s) && VoteInv(s) && AcksOwnTerm(s) && Enabled(s, st) && s' == Do(s, st)
    requires Unclaimed(s, st) && LogInv(s')
    ensures AcksOwnTerm(s')
  {
    StepExtends(s, st);
    forall a | a in s'.acks ensures AckOwnTerm(s'.reigns, a) {
      if a in s.acks {
        AckOwnTermExtends(s.reigns, s'.reigns, a);
      } else {
        NewAckOwnTerm(s, st, s', a);
      }
    }
  }

  lemma AcksOwnTermOnce(s: System, st: Step, s': System)
    requires FixedInv(s) && VoteInv(s) && AcksOwnTerm(s) && SafeStep(s, st) && s' == Do(s, st)
    ensures AcksOwnTerm(s')
  {
    VoteInvStep(s, st);
    LogInvStep(s, st);
    AcksOwnTermStep(s, st, s');
  }

  lemma NewAckOwnTerm(s: System, st: Step, s': System, a: Ack)
    requires LogInv(s) && VoteInv(s) && Enabled(s, st) && s' == Do(s, st) && LogInv(s') && Extends(s.reigns, s'.reigns)
    requires a in s'.acks && a !in s.acks
    ensures AckOwnTerm(s'.reigns, a)
  {
    NewAckCases(s, st, s', a);
    if ReceiversAck(s, a) {
      ReceiversAckOwnTerm(s, a);
      AckOwnTermExtends(s.reigns, s'.reigns, a);
    } else {
      LeadersAckOwnTerm(s', a);
    }
  }

  lemma {:induction false} OwnTermRun(states: seq<System>, steps: seq<Step>, x: nat)
    requires SafeRun(states, steps) && x < |states|
    ensures FixedInv(states[x]) && VoteInv(states[x]) && AcksOwnTerm(states[x])
    decreases x
  {
    if x == 0 {
      assert states[0].acks == {};
    } else {
      OwnTermRun(states, steps, x - 1);
      StepTaken(states, steps, x - 1);
      AcksOwnTermOnce(states[x - 1], steps[x - 1], states[x]);
    }
    VoteInvRun(states, steps, x);
  }

  /** The commit search does not look at terms, and need not: as long as batches are ample, whatever a
      peer has acknowledged to a leader reaches into the leader's own term. */
  lemma OwnTermHolds(s: System, st: Step)
    requires FixedInv(s) && AcksOwnTerm(s) && Enabled(s, st)
    ensures OwnTermCommit(s, st)
  {
    if st.CommitStep? {
      var k := st.node;
      var n := s.nodes[k];
      if n.role == Leader && NewCommitIndex(n) != n.commitIndex {
        var ms := Holdings(n);
        KthLargestInList(ms, Quorum(n));
        var j :| 0 <= j < |ms| && ms[j] == NewCommitIndex(n);
        HeldOwnTerm(s, k, j);
      }
    }
  }

  lemma HeldOwnTerm(s: System, k: nat, j: nat)
    requires FixedInv(s) && AcksOwnTerm(s) && k < |s.nodes| && s.nodes[k].role == Leader && |s.nodes[k].log| >= 1
    requires j < |Holdings(s.nodes[k])| && Holdings(s.nodes[k])[j] >= 1
    ensures Holdings(s.nodes[k])[j] < |s.nodes[k].log|
    ensures s.nodes[k].log[Holdings(s.nodes[k])[j]].term == s.nodes[k].term
  {
    var n := s.nodes[k];
    assert NodeShape(s.ids, n, k) && LeaderOk(s.ids, s.acks, n, k) && NodeLogOk(s.reigns, n, k) && ReignOk(s, n.term);
    if j != k {
      assert BookOk(s.ids, s.acks, n, j) && s.ids[j] == n.cluster[j].id;
      assert AckOwnTerm(s.reigns, Ack(n.term, j, n.cluster[j].matchIndex));
    }
  }

  /** Every step of such a run by which a leader moves its commit index moves it to an entry of its own term. */
  lemma OwnTermCommitInRun(states: seq<System>, steps: seq<Step>, x: nat)
    requires SafeRun(states, steps) && x < |steps|
    ensures Enabled(states[x], steps[x]) && OwnTermCommit(states[x], steps[x])
  {
    OwnTermRun(states, steps, x);
    StepTaken(states, steps, x);
    OwnTermHolds(states[x], steps[x]);
  }

  // ---------- Committed entries stay (section 5.4) ----------

  /** The record of elected leaders and of acknowledgements only grows, a leader's log by entries of its term. */
  lemma StepHistoryGrows(s: System, st: Step)
    requires LogInv(s) && Enabled(s, st) && Unclaimed(s, st)
    ensures HistoryGrows(s, Do(s, st))
  {
    StepIsHandle(s, st);
    StepExtends(s, st);
    AcksStay(s, st);
    if Actor(st).Some? {
      var (k, ev) := Actor(st).value;
      LeadsOrWins(s.nodes[k], ev);
      PlacedGrows(s, k, Handle(s.nodes[k], ev), Do(s, st));
    }
  }

  lemma PlacedGrows(s: System, k: nat, n': Node, s': System)
    requires LogInv(s) && k < |s.nodes| && Extends(s.reigns, s'.reigns) && s'.reigns == WithNode(s, k, n').reigns
    requires n'.role == Leader ==> n'.term == s.nodes[k].term
    requires n'.role == Leader && s.nodes[k].role == Leader ==> GrownBy(s.nodes[k], n')
    requires n'.role == Leader && s.nodes[k].role != Leader ==> n'.term !in s.reigns
    ensures Grown(s.reigns, s'.reigns)
  {
    if n'.role == Leader && n'.term in s.reigns {
      assert NodeLogOk(s.reigns, s.nodes[k], k) && ReignOk(s, n'.term);
    }
  }

  /** Up to index `c`, the node's log is as `log`, and that is committed. */
  ghost predicate Settled(s: System, j: nat, log: seq<Entry>, c: nat) {
    && j < |s.nodes| && c < |log| && c < |s.nodes[j].log| && s.nodes[j].log[..c + 1] == log[..c + 1]
    && CommittedPrefix(s, s.nodes[j].term, s.nodes[j].log, c)
  }

  /** Every change a node goes through keeps what is committed in its log, whether or not it knows. */
  lemma SettledStep(s: System, st: Step, s': System, j: nat, log: seq<Entry>, c: nat)
    requires FixedInv(s) && VoteInv(s) && CommitInv(s) && SafeStep(s, st) && s' == Do(s, st)
    requires Settled(s, j, log, c)
    ensures Settled(s', j, log, c)
  {
    VoteInvStep(s, st);
    StepHistoryGrows(s, st);
    StepIsHandle(s, st);
    if Actor(st).Some? && Actor(st).value.0 == j {
      SettledActor(s, st, s', j, Actor(st).value.1, log, c);
    } else {
      SettledOther(s, s', j, log, c);
    }
  }

  lemma SettledOther(s: System, s': System, j: nat, log: seq<Entry>, c: nat)
    requires HistoryGrows(s, s') && Settled(s, j, log, c) && j < |s'.nodes| && s'.nodes[j] == s.nodes[j]
    ensures Settled(s', j, log, c)
  {
    var n := s.nodes[j];
    CommittedPrefixStays(s, s', n.term, n.term, n.log, n.log, c);
  }

  lemma SettledActor(s: System, st: Step, s': System, j: nat, ev: Event, log: seq<Entry>, c: nat)
    requires FixedInv(s) && CommitInv(s) && Enabled(s, st) && Actor(st) == Some((j, ev)) && HistoryGrows(s, s')
    requires Settled(s, j, log, c) && j < |s'.nodes| && s'.nodes[j] == Handle(s.nodes[j], ev)
    ensures Settled(s', j, log, c)
  {
    var n := s.nodes[j];
    TermGrows(n, ev);
    SettledNode(s, st, j, ev, n, c);
    CommittedPrefixStays(s, s', n.term, s'.nodes[j].term, n.log, s'.nodes[j].log, c);
  }

  lemma SettledNode(s: System, st: Step, k: nat, ev: Event, n: Node, c: nat)
    requires FixedInv(s) && CommitInv(s) && Enabled(s, st) && Actor(st) == Some((k, ev)) && n == s.nodes[k]
    requires CommittedPrefix(s, n.term, n.log, c)
    ensures PrefixStays(n.log, Handle(n, ev).log, c)
  {
    if st.DeliverAppendRequest? {
      AcceptPremises(s, st.appendRequest);
      SettledAppend(s, n, st.appendRequest, HandleAppendRequest(n, ev.appendRequest).0, c);
    } else {
      OthersKeep(n, ev, c);
    }
  }

  lemma OthersKeep(n: Node, ev: Event, c: nat)
    requires CanHandle(n, ev) && !ev.AppendRequestArrives? && c < |n.log|
    ensures PrefixStays(n.log, Handle(n, ev).log, c)
  {
    OnlyAppendCuts(n, ev);
    PrefixKept(n.log, Handle(n, ev).log, c + 1);
  }

  ghost predicate PrefixStays(log: seq<Entry>, log': seq<Entry>, c: nat) {
    c < |log| && c < |log'| && log'[..c + 1] == log[..c + 1]
  }

  lemma SettledAppend(s: System, n: Node, m: AppendRequestMsg, n': Node, c: nat)
    requires ReignsOk(s) && ElectionsOk(s) && AcksOk(s) && LeadersKeep(s) && RequestOk(s.reigns, m)
    requires WellFormed(n) && n' == HandleAppendRequest(n, m.req).0
    requires Coherent(s.reigns, n.log) && CommittedPrefix(s, n.term, n.log, c)
    ensures PrefixStays(n.log, n'.log, c)
  {
    AppendRequestFields(n, m.req, n');
    if Accepts(n, m.req) {
      AcceptsInTerm(n, m.req);
      SettledSplice(s, n.term, n.log, m, n'.log, c);
    }
  }

  lemma SettledSplice(s: System, term: nat, log: seq<Entry>, m: AppendRequestMsg, log': seq<Entry>, c: nat)
    requires ReignsOk(s) && ElectionsOk(s) && AcksOk(s) && LeadersKeep(s) && RequestOk(s.reigns, m)
    requires Coherent(s.reigns, log) && CommittedPrefix(s, term, log, c) && term <= m.req.term
    requires ValidPrevious(log, m.req) && log' == Splice(log, m.req.prevLogIndex + 1, m.req.entries)
    ensures PrefixStays(log, log', c)
  {
    AcceptKeepsCommitted(s, term, log, c, m.req, log');
  }

  lemma AcceptsInTerm(n: Node, req: AppendRequest)
    requires n.self < |n.cluster| && Accepts(n, req)
    ensures n.term <= req.term && ValidPrevious(n.log, req)
  {
  }

  /** Only an append request can cut a log. */
  lemma OnlyAppendCuts(n: Node, ev: Event)
    requires CanHandle(n, ev) && !ev.AppendRequestArrives?
    ensures n.log <= Handle(n, ev).log
  {
  }

  lemma {:induction false} SettledForever(states: seq<System>, steps: seq<Step>, x: nat, y: nat, j: nat,
                                          log: seq<Entry>, c: nat)
    requires SafeRun(states, steps) && x <= y < |states| && Settled(states[x], j, log, c)
    ensures Settled(states[y], j, log, c)
    decreases y - x
  {
    if x < y {
      SettledAt(states, steps, x, j, log, c);
      SettledForever(states, steps, x + 1, y, j, log, c);
    }
  }

  /** No committed entry ever leaves a log: what a node has committed at one time is in its log at all later
      times, over restarts, which forget the commit index, and it is committed still. */
  lemma CommittedForever(states: seq<System>, steps: seq<Step>, x: nat, y: nat, j: nat, c: nat)
    requires SafeRun(states, steps) && x <= y < |states| && j < |states[x].nodes| && c <= states[x].nodes[j].commitIndex
    ensures Settled(states[y], j, states[x].nodes[j].log, c)
  {
    CommittedNow(states, steps, x, j, c);
    SettledForever(states, steps, x, y, j, states[x].nodes[j].log, c);
  }

  lemma CommittedNow(states: seq<System>, steps: seq<Step>, x: nat, j: nat, c: nat)
    requires SafeRun(states, steps) && x < |states| && j < |states[x].nodes| && c <= states[x].nodes[j].commitIndex
    ensures Settled(states[x], j, states[x].nodes[j].log, c)
  {
    CommitInvRun(states, steps, x);
    CommittedBelow(states[x], j, c);
  }

  lemma CommittedBelow(s: System, j: nat, c: nat)
    requires CommitInv(s) && j < |s.nodes| && c <= s.nodes[j].commitIndex
    ensures Settled(s, j, s.nodes[j].log, c)
  {
    var n := s.nodes[j];
    assert CommittedPrefix(s, n.term, n.log, n.commitIndex);
    if c > 0 {
      var t: nat, i: nat :| Covers(s, n.term, n.log, n.commitIndex, t, i);
      ShorterPrefix(n.log, s.reigns[t].log, n.commitIndex + 1, c + 1);
      assert Covers(s, n.term, n.log, c, t, i);
    }
  }

  lemma SettledAt(states: seq<System>, steps: seq<Step>, x: nat, j: nat, log: seq<Entry>, c: nat)
    requires SafeRun(states, steps) && x < |steps| && Settled(states[x], j, log, c)
    ensures Settled(states[x + 1], j, log, c)
  {
    CommitInvRun(states, steps, x);
    StepTaken(states, steps, x);
    SettledStep(states[x], steps[x], states[x + 1], j, log, c);
  }

  /** The step starts node `j` in a new process. */
  ghost predicate NewProcessOf(st: Step, j: nat) {
    st.RestartStep? && st.node == j && st.how.NewProcess?
  }

  lemma CommitKeptStep(s: System, st: Step, j: nat)
    requires FixedInv(s) && VoteInv(s) && CommitInv(s) && SafeStep(s, st) && j < |s.nodes| && !NewProcessOf(st, j)
    ensures |Do(s, st).nodes| == |s.nodes| && CommitKept(s.nodes[j], Do(s, st).nodes[j])
  {
    CommittedBelow(s, j, s.nodes[j].commitIndex);
    StepIsHandle(s, st);
    if Actor(st).Some? && Actor(st).value.0 == j {
      ActorKeepsCommitted(s, st, j, Actor(st).value.1, s.nodes[j]);
    }
  }

  lemma ActorKeepsCommitted(s: System, st: Step, k: nat, ev: Event, n: Node)
    requires FixedInv(s) && CommitInv(s) && Enabled(s, st) && Actor(st) == Some((k, ev)) && n == s.nodes[k]
    requires CommittedPrefix(s, n.term, n.log, n.commitIndex) && !NewProcessOf(st, k)
    ensures CommitKept(n, Handle(n, ev))
  {
    SettledNode(s, st, k, ev, n, n.commitIndex);
    CommitIndexStays(n, ev);
  }

  /** No event but a new process lowers the commit index. */
  lemma CommitIndexStays(n: Node, ev: Event)
    requires CanHandle(n, ev) && !(ev.Restarts? && ev.how.NewProcess?) && n.commitIndex < |Handle(n, ev).log|
    ensures n.commitIndex <= Handle(n, ev).commitIndex
  {
    match ev {
      case AppendRequestArrives(req) => AppendRequestFields(n, req, Handle(n, ev));
      case CommitAndApply => CommitQuiet(n);
      case _ =>
    }
  }

  /** As long as a node's process lives, its commit index never goes down, and no entry at or below it changes. */
  lemma {:induction false} CommitIndexGrows(states: seq<System>, steps: seq<Step>, x: nat, y: nat, j: nat)
    requires SafeRun(states, steps) && x <= y < |states| && j < |states[x].nodes|
    requires forall i :: x <= i < y ==> !NewProcessOf(steps[i], j)
    ensures |states[y].nodes| == |states[x].nodes|
    ensures CommitKept(states[x].nodes[j], states[y].nodes[j])
    decreases y - x
  {
    if x == y {
      CommitInvRun(states, steps, x);
      CommittedBelow(states[x], j, states[x].nodes[j].commitIndex);
    } else {
      CommitIndexGrows(states, steps, x, y - 1, j);
      CommitKeptOnce(states, steps, y - 1, j);
      CommitKeptTransitive(states[x].nodes[j], states[y - 1].nodes[j], states[y].nodes[j]);
    }
  }

  lemma CommitKeptOnce(states: seq<System>, steps: seq<Step>, x: nat, j: nat)
    requires SafeRun(states, steps) && x + 1 < |states| && j < |states[x].nodes| && !NewProcessOf(steps[x], j)
    ensures |states[x + 1].nodes| == |states[x].nodes| && CommitKept(states[x].nodes[j], states[x + 1].nodes[j])
  {
    CommitInvRun(states, steps, x);
    StepTaken(states, steps, x);
    CommitKeptStep(states[x], steps[x], j);
  }

  /** Whatever any two nodes have committed at any two times agrees wherever both reach. */
  lemma CommittedLogsAgree(states: seq<System>, steps: seq<Step>, x: nat, y: nat, p: nat, q: nat, c: nat)
    requires SafeRun(states, steps) && x <= y < |states|
    requires p < |states[x].nodes| && q < |states[y].nodes|
    requires c <= states[x].nodes[p].commitIndex && c <= states[y].nodes[q].commitIndex
    ensures c < |states[x].nodes[p].log| && c < |states[y].nodes[q].log|
    ensures states[x].nodes[p].log[..c + 1] == states[y].nodes[q].log[..c + 1]
  {
    CommittedForever(states, steps, x, y, p, c);
    CommitInvRun(states, steps, y);
    CommittedBelow(states[y], q, c);
    SettledAgree(states[y], p, states[x].nodes[p].log, q, c);
  }

  lemma SettledAgree(s: System, p: nat, log: seq<Entry>, q: nat, c: nat)
    requires FixedInv(s) && CommitInv(s) && q < |s.nodes| && Settled(s, p, log, c) && Settled(s, q, s.nodes[q].log, c)
    ensures log[..c + 1] == s.nodes[q].log[..c + 1]
  {
    var a, b := s.nodes[p], s.nodes[q];
    assert NodeLogOk(s.reigns, a, p) && NodeLogOk(s.reigns, b, q);
    CommittedAgree(s, a.term, a.log, c, b.term, b.log, c, c);
  }

  // ---------- Applying (section 5.4.3) ----------

  lemma AppliedStepInCluster(s: System, st: Step, j: nat)
    requires FixedInv(s) && VoteInv(s) && CommitInv(s) && SafeStep(s, st) && j < |s.nodes|
    requires AppliedOk(s.nodes[j])
    ensures |Do(s, st).nodes| == |s.nodes| && AppliedOk(Do(s, st).nodes[j])
  {
    StepIsHandle(s, st);
    if Actor(st).Some? && Actor(st).value.0 == j {
      if st.RestartStep? {
        AppliedRestart(s.nodes[j], st.how);
      } else {
        CommitKeptStep(s, st, j);
        AppliedByActor(s, st, j, Actor(st).value.1, s.nodes[j]);
      }
    }
  }

  lemma AppliedByActor(s: System, st: Step, j: nat, ev: Event, n: Node)
    requires Enabled(s, st) && Actor(st) == Some((j, ev)) && n == s.nodes[j] && !ev.Restarts? && AppliedOk(n)
    requires CommitKept(n, Do(s, st).nodes[j])
    ensures AppliedOk(Do(s, st).nodes[j])
  {
    StepIsHandle(s, st);
    AppliedStep(n, ev);
  }

  /** In every state of the run a node's process has handed its state machine exactly the commands of its
      log below `lastApplied`, in order, each once. */
  lemma {:induction false} AppliedRun(states: seq<System>, steps: seq<Step>, x: nat, j: nat)
    requires SafeRun(states, steps) && x < |states| && j < |states[0].nodes|
    ensures j < |states[x].nodes| && AppliedOk(states[x].nodes[j])
    decreases x
  {
    if x == 0 {
      FreshApplied(states[0].ids, states[0].nodes[j], j);
    } else {
      AppliedRun(states, steps, x - 1, j);
      AppliedAt(states, steps, x - 1, j);
    }
  }

  lemma FreshApplied(ids: seq<nat>, n: Node, k: nat)
    requires k < |ids| && FreshNode(ids, n, k)
    ensures AppliedOk(n)
  {
    assert n.log[..0] == [];
  }

  lemma AppliedAt(states: seq<System>, steps: seq<Step>, x: nat, j: nat)
    requires SafeRun(states, steps) && x < |steps| && j < |states[x].nodes| && AppliedOk(states[x].nodes[j])
    ensures j < |states[x + 1].nodes| && AppliedOk(states[x + 1].nodes[j])
  {
    CommitInvRun(states, steps, x);
    StepTaken(states, steps, x);
    AppliedStepInCluster(states[x], steps[x], j);
  }

  /** The step at `x` makes node `p` apply the entry at index `i`. */
  ghost predicate Applies(states: seq<System>, steps: seq<Step>, x: nat, p: nat, i: nat) {
    && x < |steps| && x + 1 < |states| && p < |states[x].nodes| && p < |states[x + 1].nodes|
    && steps[x] == CommitStep(p)
    && states[x].nodes[p].lastApplied == i && states[x + 1].nodes[p].lastApplied == i + 1
  }

  lemma AppliesCommitted(states: seq<System>, steps: seq<Step>, x: nat, p: nat, i: nat)
    requires SafeRun(states, steps) && Applies(states, steps, x, p, i)
    ensures i <= states[x + 1].nodes[p].commitIndex
    ensures states[x + 1].nodes[p].log == states[x].nodes[p].log
  {
    CommitQuiet(states[x].nodes[p]);
  }

  /** No two nodes ever apply different entries at the same index, at whatever times they apply them. */
  lemma StateMachineSafety(states: seq<System>, steps: seq<Step>, x: nat, y: nat, p: nat, q: nat, i: nat)
    requires SafeRun(states, steps)
    requires Applies(states, steps, x, p, i) && Applies(states, steps, y, q, i)
    ensures i < |states[x].nodes[p].log| && i < |states[y].nodes[q].log|
    ensures states[x].nodes[p].log[i] == states[y].nodes[q].log[i]
  {
    AppliesCommitted(states, steps, x, p, i);
    AppliesCommitted(states, steps, y, q, i);
    var a, b := states[x].nodes[p], states[y].nodes[q];
    if x <= y {
      CommittedLogsAgree(states, steps, x + 1, y + 1, p, q, i);
    } else {
      CommittedLogsAgree(states, steps, y + 1, x + 1, q, p, i);
    }
    PrefixElement(a.log, b.log, i + 1, i);
  }

  /** Of any two nodes at any two times, one has seen a prefix of the commands the other has seen, and
      equal progress means equal commands. */
  lemma AppliedCommandsAgree(states: seq<System>, steps: seq<Step>, x: nat, y: nat, p: nat, q: nat)
    requires SafeRun(states, steps) && x <= y < |states| && p < |states[0].nodes| && q < |states[0].nodes|
    ensures p < |states[x].nodes| && q < |states[y].nodes|
    ensures states[x].nodes[p].lastApplied <= states[y].nodes[q].lastApplied ==>
              states[x].nodes[p].applied <= states[y].nodes[q].applied
    ensures states[y].nodes[q].lastApplied <= states[x].nodes[p].lastApplied ==>
              states[y].nodes[q].applied <= states[x].nodes[p].applied
  {
    AppliedRun(states, steps, x, p);
    AppliedRun(states, steps, y, q);
    var a, b := states[x].nodes[p], states[y].nodes[q];
    var u := if a.lastApplied <= b.lastApplied then a.lastApplied else b.lastApplied;
    if u > 0 {
      CommittedLogsAgree(states, steps, x, y, p, q, u - 1);
    }
    assert a.log[..u] == b.log[..u];
    if a.lastApplied <= b.lastApplied {
      CommandsOfPrefix(b.log[..u], b.log[..b.lastApplied]);
    }
    if b.lastApplied <= a.lastApplied {
      CommandsOfPrefix(a.log[..u], a.log[..a.lastApplied]);
    }
  }
}
