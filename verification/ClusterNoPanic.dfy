/** The Raft core of the original does not panic in a safe run: whatever message is in flight can be taken
    in, and every node can always commit and apply. In a growing cluster it does in one case, named here. */
module ClusterNoPanic {
  import opened Types
  import opened Membership
  import opened Raft
  import opened NodeInvariants
  import opened NodeMembership
  import opened Cluster
  import opened ClusterLog
  import opened ClusterLogRun
  import opened ClusterFixed
  import opened ClusterSafety
  import opened ClusterMembership

  /** The step delivers a message that is in flight. */
  ghost predicate Delivers(s: System, st: Step) {
    match st {
      case DeliverVoteRequest(m) => m in s.voteRequests
      case DeliverVoteResponse(m) => m in s.voteResponses
      case DeliverAppendRequest(m) => m in s.appendRequests
      case DeliverAppendResponse(m) => m in s.appendResponses
      case _ => false
    }
  }

  // ---------- A fixed cluster ----------

  /** A safe run whose client commands fit a record of the log file. */
  ghost predicate FittingRun(states: seq<System>, steps: seq<Step>) {
    SafeRun(states, steps) && forall i :: 0 <= i < |steps| ==> TidyStep(steps[i])
  }

  lemma FittingIsTidy(states: seq<System>, steps: seq<Step>)
    requires FittingRun(states, steps)
    ensures TidyRun(states, steps)
  {
    SafeIsSingleLeader(states, steps);
  }

  lemma Deliverable(s: System, st: Step)
    requires FixedInv(s) && Delivers(s, st)
    ensures Enabled(s, st)
  {
    match st {
      case DeliverVoteRequest(m) => ShapeOf(s, m.to);
      case DeliverVoteResponse(m) => ShapeOf(s, m.candidate);
      case DeliverAppendRequest(m) => ShapeOf(s, m.to);
      case DeliverAppendResponse(m) => ShapeOf(s, m.leader);
    }
  }

  lemma ShapeOf(s: System, k: nat)
    requires FixedInv(s)
    ensures k < |s.nodes| ==> WellFormed(s.nodes[k]) && |s.nodes[k].cluster| == |s.ids|
  {
    if k < |s.nodes| {
      assert NodeKnown(s.ids, s.nodes[k], k) && NodeShape(s.ids, s.nodes[k], k);
    }
  }

  /** Whatever is sent can be taken in, at any time and any number of times: no index is out of range, no
      config change fails to decode, and what is filed fits. */
  lemma DeliveryNeverPanics(states: seq<System>, steps: seq<Step>, x: nat, st: Step)
    requires FittingRun(states, steps) && x < |states| && Delivers(states[x], st)
    ensures Enabled(states[x], st)
    ensures st.DeliverAppendRequest? ==>
              var m := st.appendRequest;
              m.to < |states[x].nodes| && Digestible(states[x].nodes[m.to].log, m.req)
  {
    VoteInvRun(states, steps, x);
    Deliverable(states[x], st);
    if st.DeliverAppendRequest? {
      FittingIsTidy(states, steps);
      DigestibleInRun(states, steps, x, st.appendRequest);
    }
  }

  /** Every node can always take the commit step: the entry it would apply is in its log. */
  lemma CommitNeverPanics(states: seq<System>, steps: seq<Step>, x: nat, k: nat)
    requires SafeRun(states, steps) && x < |states| && k < |states[0].nodes|
    ensures Enabled(states[x], CommitStep(k))
  {
    var s := states[x];
    AppliedRun(states, steps, x, k);
    VoteInvRun(states, steps, x);
    assert NodeKnown(s.ids, s.nodes[k], k);
    NewCommitInRange(s.nodes[k]);
  }

  // ---------- A growing cluster ----------

  /** A leader's messages are about members that the config changes of its log account for. */
  ghost predicate SlotInFold(s: System, from: nat, term: nat, slot: nat) {
    && from < |s.nodes| && term in s.reigns
    && slot < |RosterOf(s.nodes[from].base, s.reigns[term].log)|
  }

  ghost predicate SlotsInFold(s: System) {
    && (forall m :: m in s.appendRequests ==> m.to < |s.ids| && SlotInFold(s, m.from, m.req.term, m.slot))
    && (forall m :: m in s.appendResponses ==> SlotInFold(s, m.leader, m.req.term, m.slot))
  }

  ghost predicate VotesAddressed(s: System) {
    && (forall m :: m in s.voteRequests ==> m.from < |s.ids| && m.to < |s.ids|)
    && (forall m :: m in s.voteResponses ==> m.candidate < |s.ids|)
  }

  lemma RosterGrows(base: seq<Member>, log: seq<Entry>, log': seq<Entry>)
    requires log <= log'
    ensures |RosterOf(base, log)| <= |RosterOf(base, log')|
  {
    var tail := log'[|log|..];
    assert log' == log + tail;
    MergeEntriesConcat(base, log, tail, 0, 0, 0);
    MergeEntriesGrows(MergeEntries(base, log, 0, 0, 0), tail, |log|, 0, 0);
  }

  lemma SlotStays(s: System, s': System, from: nat, term: nat, slot: nat)
    requires SlotInFold(s, from, term, slot) && Extends(s.reigns, s'.reigns)
    requires from < |s'.nodes| && s'.nodes[from].base == s.nodes[from].base
    ensures SlotInFold(s', from, term, slot)
  {
    RosterGrows(s.nodes[from].base, s.reigns[term].log, s'.reigns[term].log);
  }

  lemma SlotSent(s: System, k: nat, slot: nat)
    requires LogInv(s) && Tidy(s) && k < |s.nodes| && s.nodes[k].role == Leader && slot < |s.nodes[k].cluster|
    ensures SlotInFold(s, k, s.nodes[k].term, slot)
  {
    var n := s.nodes[k];
    assert NodeTidy(n) && NodeLogOk(s.reigns, n, k) && ReignOk(s, n.term);
  }

  lemma BasesStay(s: System, st: Step)
    requires Enabled(s, st)
    ensures |Do(s, st).nodes| == |s.nodes|
    ensures forall k :: 0 <= k < |s.nodes| ==> Do(s, st).nodes[k].base == s.nodes[k].base
  {
    StepIsHandle(s, st);
    if Actor(st).Some? {
      SameBase(s.nodes[Actor(st).value.0], Actor(st).value.1);
    }
  }

  lemma RequestSlotsStep(s: System, st: Step, s': System, m: AppendRequestMsg)
    requires LogInv(s) && Tidy(s) && SlotsInFold(s) && Enabled(s, st) && s' == Do(s, st)
    requires Fresh(s, st) && Unclaimed(s, st) && m in s'.appendRequests
    ensures m.to < |s'.ids| && SlotInFold(s', m.from, m.req.term, m.slot)
  {
    StepIsHandle(s, st);
    StepExtends(s, st);
    StepAppendMessages(s, st);
    BasesStay(s, st);
    if st.SendAppendRequest? {
      SlotSent(s, st.node, st.slot);
    }
    SlotStays(s, s', m.from, m.req.term, m.slot);
  }

  lemma ResponseSlotsStep(s: System, st: Step, s': System, m: AppendResponseMsg)
    requires LogInv(s) && SlotsInFold(s) && Enabled(s, st) && s' == Do(s, st)
    requires Unclaimed(s, st) && m in s'.appendResponses
    ensures SlotInFold(s', m.leader, m.req.term, m.slot)
  {
    StepExtends(s, st);
    StepAppendMessages(s, st);
    BasesStay(s, st);
    SlotStays(s, s', m.leader, m.req.term, m.slot);
  }

  lemma SlotsInFoldStep(s: System, st: Step, s': System)
    requires LogInv(s) && Tidy(s) && SlotsInFold(s) && Enabled(s, st) && s' == Do(s, st)
    requires Fresh(s, st) && Unclaimed(s, st)
    ensures SlotsInFold(s')
  {
    forall m | m in s'.appendRequests ensures m.to < |s'.ids| && SlotInFold(s', m.from, m.req.term, m.slot) {
      RequestSlotsStep(s, st, s', m);
    }
    forall m | m in s'.appendResponses ensures SlotInFold(s', m.leader, m.req.term, m.slot) {
      ResponseSlotsStep(s, st, s', m);
    }
  }

  lemma VotesAddressedStep(s: System, st: Step, s': System)
    requires Known(s) && VotesAddressed(s) && Enabled(s, st) && s' == Do(s, st)
    ensures VotesAddressed(s')
  {
    StepIsHandle(s, st);
    StepVoteMessages(s, st);
  }

  lemma {:induction false} SlotsUpTo(states: seq<System>, steps: seq<Step>, x: nat)
    requires TidyRun(states, steps) && x < |states|
    ensures SlotsInFold(states[x]) && VotesAddressed(states[x])
    decreases x
  {
    if x > 0 {
      SlotsUpTo(states, steps, x - 1);
      SlotsAt(states, steps, x - 1);
    }
  }

  lemma SlotsAt(states: seq<System>, steps: seq<Step>, x: nat)
    requires TidyRun(states, steps) && x < |steps| && SlotsInFold(states[x]) && VotesAddressed(states[x])
    ensures SlotsInFold(states[x + 1]) && VotesAddressed(states[x + 1])
  {
    LogInvRun(states, steps, x);
    TidyUpTo(states, steps, x);
    var st := steps[x];
    SlotsInFoldStep(states[x], st, states[x + 1]);
    VotesAddressedStep(states[x], st, states[x + 1]);
  }

  /** A response finds its node still in the term of the request. */
  ghost predicate InTerm(s: System, st: Step) {
    match st {
      case DeliverVoteResponse(m) => m.candidate < |s.nodes| ==> s.nodes[m.candidate].term == m.req.term
      case DeliverAppendResponse(m) => m.leader < |s.nodes| ==> s.nodes[m.leader].term == m.req.term
      case _ => true
    }
  }

  /** A vote comes back from a member that its node no longer lists. */
  ghost predicate CutOff(s: System, st: Step) {
    && st.DeliverVoteResponse? && st.voteResponse.candidate < |s.nodes|
    && st.voteResponse.slot >= |s.nodes[st.voteResponse.candidate].cluster|
  }

  lemma GrowingDeliverable(s: System, st: Step)
    requires LogInv(s) && Tidy(s) && SlotsInFold(s) && VotesAddressed(s) && Delivers(s, st) && InTerm(s, st)
    ensures Enabled(s, st) <==> !CutOff(s, st)
  {
    var k := Actor(st).value.0;
    assert k < |s.nodes| && NodeKnown(s.ids, s.nodes[k], k);
    if st.DeliverAppendResponse? {
      ResponseSlot(s, st.appendResponse);
    }
  }

  lemma ResponseSlot(s: System, m: AppendResponseMsg)
    requires LogInv(s) && Tidy(s) && SlotsInFold(s) && m in s.appendResponses
    ensures m.leader < |s.nodes|
    ensures s.nodes[m.leader].term == m.req.term ==> m.slot < |s.nodes[m.leader].cluster|
  {
    assert ResponseOk(s, m) && SlotInFold(s, m.leader, m.req.term, m.slot) && ReignOk(s, m.req.term);
    assert NodeTidy(s.nodes[m.leader]);
  }

  /** While members are added and nodes restart, a message that arrives in time can be taken in, with exactly
      one exception: a vote from a member that a truncation has meanwhile removed from the candidate's list. */
  lemma GrowingDelivery(states: seq<System>, steps: seq<Step>, x: nat, st: Step)
    requires TidyRun(states, steps) && x < |states| && Delivers(states[x], st) && InTerm(states[x], st)
    ensures Enabled(states[x], st) <==> !CutOff(states[x], st)
    ensures st.DeliverAppendRequest? ==>
              var m := st.appendRequest;
              m.to < |states[x].nodes| && Digestible(states[x].nodes[m.to].log, m.req)
  {
    LogInvRun(states, steps, x);
    TidyUpTo(states, steps, x);
    SlotsUpTo(states, steps, x);
    GrowingDeliverable(states[x], st);
    if st.DeliverAppendRequest? {
      DigestibleInRun(states, steps, x, st.appendRequest);
    }
  }
}
