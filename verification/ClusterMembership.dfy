/** Membership across the cluster, while it grows and its nodes restart: every node's members are the
    fold of its log, and no log or message ever holds what a node could not take in. */
module ClusterMembership {
  import opened Types
  import opened Membership
  import opened Raft
  import opened NodeMembership
  import opened Cluster
  import opened ClusterLog
  import opened ClusterLogRun
  import opened ClusterSafety

  // ---------- Which runs ----------

  /** What clients ask for: commands that fit a record and do not pose as config changes, and 64-bit ids. */
  ghost predicate TidyStep(st: Step) {
    && OrdinaryCommands(st)
    && (st.ClientStep? ==> forall c :: c in st.commands ==> |c| <= COMMAND_LIMIT)
    && (st.AddServerStep? ==> st.id < TWO_64)
  }

  ghost predicate TidyRun(states: seq<System>, steps: seq<Step>) {
    SingleLeaderRun(states, steps) && forall i :: 0 <= i < |steps| ==> TidyStep(steps[i])
  }

  // ---------- The invariant ----------

  ghost predicate Narrow(ms: seq<Member>) {
    forall m :: m in ms ==> m.id < TWO_64
  }

  ghost predicate NodeTidy(n: Node) {
    ConfigOk(n) && Narrow(n.base) && Recordable(n.log)
  }

  ghost predicate RequestTidy(req: AppendRequest) {
    GoodConfigs(req.entries) && Recordable(req.entries)
  }

  ghost predicate Tidy(s: System) {
    && (forall k {:trigger NodeTidy(s.nodes[k])} :: 0 <= k < |s.nodes| ==> NodeTidy(s.nodes[k]))
    && (forall m :: m in s.appendRequests ==> RequestTidy(m.req))
  }

  // ---------- Ids stay 64-bit numbers ----------

  lemma {:induction false} FoldNarrow(base: seq<Member>, es: seq<Entry>)
    requires Narrow(base)
    ensures forall id :: id in Ids(MergeEntries(base, es, 0, 0, 0)) ==> id < TWO_64
  {
    if es != [] {
      var front, e := es[..|es| - 1], es[|es| - 1];
      FoldNarrow(base, front);
      assert es == front + [e];
      MergeSnoc(base, front, e, es, 0, 0, 0);
      if IsConfigChange(e.command) {
        MergeGrows(MergeEntries(base, front, 0, 0, 0), Incoming(e.command), |front| + 1, 0, 0);
        IncomingNarrow(e.command);
      }
    }
  }

  lemma IncomingNarrow(command: seq<byte>)
    ensures forall m :: m in Incoming(command) ==> m.id < TWO_64
  {
    if DecodeConfig(command).Some? {
      DecodedNarrow(command[2..], command[1]);
    }
  }

  lemma ClusterNarrow(n: Node)
    requires ConfigOk(n) && Narrow(n.base)
    ensures Narrow(n.cluster)
  {
    FoldNarrow(n.base, n.log);
    SameIds(n.cluster, MergeEntries(n.base, n.log, 0, 0, 0));
    assert forall m :: m in n.cluster ==> m.id in Ids(n.cluster);
  }

  // ---------- One node's step ----------

  /** The premise of the membership fold: a request re-delivers, at an index the node already holds in the
      same term, the entry that is there. */
  lemma RequestRepeats(s: System, m: AppendRequestMsg)
    requires LogInv(s) && m in s.appendRequests && m.to < |s.nodes|
    ensures SameWhereTermsAgree(s.nodes[m.to].log, m.req.prevLogIndex + 1, m.req.entries)
  {
    var log, req := s.nodes[m.to].log, m.req;
    assert RequestOk(s.reigns, m) && ReignOk(s, req.term) && NodeLogOk(s.reigns, s.nodes[m.to], m.to);
    forall k: nat | k < |req.entries| && req.prevLogIndex + 1 + k < |log|
                    && log[req.prevLogIndex + 1 + k].term == req.entries[k].term
      ensures log[req.prevLogIndex + 1 + k] == req.entries[k]
    {
      RequestMatching(s.reigns, s.reigns[req.term].log, req, log, k);
    }
  }

  lemma EventTidy(s: System, st: Step)
    requires LogInv(s) && Tidy(s) && Enabled(s, st) && TidyStep(st) && Actor(st).Some?
    ensures ConfigEvent(s.nodes[Actor(st).value.0], Actor(st).value.1)
  {
    var (k, ev) := Actor(st).value;
    assert NodeTidy(s.nodes[k]);
    if st.DeliverAppendRequest? {
      RequestRepeats(s, st.appendRequest);
      assert RequestTidy(st.appendRequest.req);
    } else if st.AddServerStep? {
      ClusterNarrow(s.nodes[k]);
    }
  }

  lemma SpliceRecordable(log: seq<Entry>, req: AppendRequest)
    requires Recordable(log) && Recordable(req.entries) && req.prevLogIndex + 1 <= |log|
    ensures Recordable(Splice(log, req.prevLogIndex + 1, req.entries))
  {
  }

  lemma RecordableStep(n: Node, ev: Event)
    requires CanHandle(n, ev) && Recordable(n.log)
    requires ev.ClientCommands? ==> forall c :: c in ev.commands ==> |c| <= COMMAND_LIMIT
    requires ev.AppendRequestArrives? ==> Recordable(ev.appendRequest.entries)
    ensures Recordable(Handle(n, ev).log)
  {
    match ev {
      case AppendRequestArrives(req) =>
        AppendRequestFields(n, req, Handle(n, ev));
        if Accepts(n, req) {
          SpliceRecordable(n.log, req);
        }
      case ServerAddition(id, address) =>
        if AddOutcomeOf(n, id, address) == Added {
          PayloadSize(WithNewcomer(n, id, address));
        }
      case _ =>
    }
  }

  lemma ActorTidy(s: System, st: Step)
    requires LogInv(s) && Tidy(s) && Enabled(s, st) && TidyStep(st) && Actor(st).Some?
    ensures NodeTidy(Handle(s.nodes[Actor(st).value.0], Actor(st).value.1))
  {
    var (k, ev) := Actor(st).value;
    assert NodeTidy(s.nodes[k]);
    EventTidy(s, st);
    ConfigStep(s.nodes[k], ev);
    if st.DeliverAppendRequest? {
      assert RequestTidy(st.appendRequest.req);
    }
    RecordableStep(s.nodes[k], ev);
    SameBase(s.nodes[k], ev);
  }

  lemma SameBase(n: Node, ev: Event)
    requires CanHandle(n, ev)
    ensures Handle(n, ev).base == n.base
  {
    match ev {
      case AppendRequestArrives(req) => AppendRequestFields(n, req, Handle(n, ev));
      case _ =>
    }
  }

  // ---------- Every step ----------

  lemma NodesTidyOnce(s: System, st: Step, s': System, k: nat)
    requires LogInv(s) && Tidy(s) && Enabled(s, st) && TidyStep(st) && s' == Do(s, st) && k < |s'.nodes|
    ensures NodeTidy(s'.nodes[k])
  {
    StepIsHandle(s, st);
    if Actor(st).Some? && k == Actor(st).value.0 {
      ActorTidy(s, st);
    } else {
      assert NodeTidy(s.nodes[k]);
    }
  }

  lemma TidyOnce(s: System, st: Step, s': System)
    requires LogInv(s) && Tidy(s) && Enabled(s, st) && TidyStep(st) && s' == Do(s, st)
    ensures Tidy(s')
  {
    forall k | 0 <= k < |s'.nodes| ensures NodeTidy(s'.nodes[k]) {
      NodesTidyOnce(s, st, s', k);
    }
    StepAppendMessages(s, st);
    if st.SendAppendRequest? {
      assert NodeTidy(s.nodes[st.node]);
      SentTidy(s.nodes[st.node], st.slot);
    }
  }

  lemma SentTidy(n: Node, slot: nat)
    requires n.self < |n.cluster| && slot < |n.cluster| && 1 <= n.cluster[slot].nextIndex <= |n.log|
    ensures NodeTidy(n) ==> RequestTidy(BuildAppendRequest(n, slot))
  {
    BuiltIsSlice(n, slot);
    SliceTidy(BuildAppendRequest(n, slot), n.log);
  }

  lemma SliceTidy(req: AppendRequest, log: seq<Entry>)
    requires SliceOf(req, log)
    ensures GoodConfigs(log) ==> GoodConfigs(req.entries)
    ensures Recordable(log) ==> Recordable(req.entries)
  {
    assert forall k :: 0 <= k < |req.entries| ==> req.entries[k] == log[req.prevLogIndex + 1 + k];
  }

  lemma TidyInit(s: System)
    requires Init(s)
    ensures Tidy(s)
  {
    forall k | 0 <= k < |s.nodes| ensures NodeTidy(s.nodes[k]) {
      assert FreshNode(s.ids, s.nodes[k], k);
      MergeNoConfig(s.nodes[k].base, [SENTINEL], 0, 0, 0);
    }
  }

  lemma {:induction false} TidyUpTo(states: seq<System>, steps: seq<Step>, x: nat)
    requires TidyRun(states, steps) && x < |states|
    ensures Tidy(states[x])
    decreases x
  {
    if x == 0 {
      TidyInit(states[0]);
    } else {
      TidyUpTo(states, steps, x - 1);
      LogInvRun(states, steps, x - 1);
      var st := steps[x - 1];
      TidyOnce(states[x - 1], st, states[x]);
    }
  }

  // ---------- The theorems ----------

  lemma SameLogsInRun(states: seq<System>, steps: seq<Step>, x: nat, p: nat, q: nat)
    requires TidyRun(states, steps) && x < |states| && p < |states[x].nodes| && q < |states[x].nodes|
    requires |states[x].nodes[p].log| == |states[x].nodes[q].log| >= 1
    requires LastTerm(states[x].nodes[p].log) == LastTerm(states[x].nodes[q].log)
    ensures states[x].nodes[p].log == states[x].nodes[q].log
    ensures ConfigOk(states[x].nodes[p]) && ConfigOk(states[x].nodes[q])
  {
    var n, n' := states[x].nodes[p], states[x].nodes[q];
    TidyUpTo(states, steps, x);
    LogMatchingInRun(states, steps, x, p, q, |n.log| - 1);
    assert n.log[..|n.log|] == n.log && n'.log[..|n.log|] == n'.log;
    assert NodeTidy(n) && NodeTidy(n');
  }

  /** Nodes with the same founding members whose logs end at the same index in the same term list the same
      ids and addresses, in the same order, and that is what the config changes of the log make of the
      founding members; ids are distinct, and every node finds itself. */
  lemma SameLogEndSameMembers(states: seq<System>, steps: seq<Step>, x: nat, p: nat, q: nat)
    requires TidyRun(states, steps) && x < |states| && p < |states[x].nodes| && q < |states[x].nodes|
    requires states[x].nodes[p].base == states[x].nodes[q].base
    requires |states[x].nodes[p].log| == |states[x].nodes[q].log| >= 1
    requires LastTerm(states[x].nodes[p].log) == LastTerm(states[x].nodes[q].log)
    ensures Roster(states[x].nodes[p].cluster) == Roster(states[x].nodes[q].cluster)
    ensures var n := states[x].nodes[p];
            && Roster(n.cluster) == RosterOf(n.base, n.log) && Distinct(n.cluster)
            && n.self < |n.cluster| && n.cluster[n.self].id == n.id
  {
    SameLogsInRun(states, steps, x, p, q);
    ConfigDistinct(states[x].nodes[p]);
  }

  /** Every change of a node along the run is one the membership fold can follow. */
  lemma ConfigEventInRun(states: seq<System>, steps: seq<Step>, x: nat)
    requires TidyRun(states, steps) && x < |steps| && Actor(steps[x]).Some?
    ensures Actor(steps[x]).value.0 < |states[x].nodes|
    ensures ConfigEvent(states[x].nodes[Actor(steps[x]).value.0], Actor(steps[x]).value.1)
  {
    TidyUpTo(states, steps, x);
    LogInvRun(states, steps, x);
    EventTidy(states[x], steps[x]);
  }

  /** No node holds, and no request carries, what would make the original panic: a command too large for a
      record, or a config change that does not decode. */
  lemma DigestibleInRun(states: seq<System>, steps: seq<Step>, x: nat, m: AppendRequestMsg)
    requires TidyRun(states, steps) && x < |states| && m in states[x].appendRequests && m.to < |states[x].nodes|
    ensures Digestible(states[x].nodes[m.to].log, m.req) && Recordable(states[x].nodes[m.to].log)
  {
    TidyUpTo(states, steps, x);
    assert NodeTidy(states[x].nodes[m.to]) && RequestTidy(m.req);
  }

  // ---------- Joining ----------

  /** All ids that config changes of the log name. */
  function NamedBy(log: seq<Entry>): set<nat> {
    if log == [] then {}
    else
      var e := log[|log| - 1];
      NamedBy(log[..|log| - 1]) + if IsConfigChange(e.command) then Ids(Incoming(e.command)) else {}
  }

  lemma {:induction false} FoldIds(base: seq<Member>, log: seq<Entry>)
    ensures Ids(MergeEntries(base, log, 0, 0, 0)) == Ids(base) + NamedBy(log)
  {
    if log != [] {
      var front, e := log[..|log| - 1], log[|log| - 1];
      FoldIds(base, front);
      assert log == front + [e];
      MergeSnoc(base, front, e, log, 0, 0, 0);
      if IsConfigChange(e.command) {
        MergeGrows(MergeEntries(base, front, 0, 0, 0), Incoming(e.command), |front| + 1, 0, 0);
      }
    }
  }

  lemma {:induction false} NamedHas(log: seq<Entry>, k: nat)
    requires k < |log| && IsConfigChange(log[k].command)
    ensures Ids(Incoming(log[k].command)) <= NamedBy(log)
  {
    if k < |log| - 1 {
      NamedHas(log[..|log| - 1], k);
    }
  }

  /** A node lists its founding members and whomever the config changes of its log name. */
  lemma ListsNamed(n: Node)
    requires ConfigOk(n)
    ensures Ids(n.cluster) == Ids(n.base) + NamedBy(n.log)
  {
    SameIds(n.cluster, MergeEntries(n.base, n.log, 0, 0, 0));
    FoldIds(n.base, n.log);
  }

  /** An addition names the newcomer and everyone who founded the leader's cluster. */
  lemma AdditionNamesAll(n: Node, id: nat, address: seq<byte>)
    requires NodeTidy(n) && AddOutcomeOf(n, id, address) == Added && id < TWO_64
    ensures var n' := AddServer(n, id, address);
            var k := |n.log|;
            && |n'.log| == k + 1 && IsConfigChange(n'.log[k].command)
            && Ids(n.base) + {id} <= Ids(Incoming(n'.log[k].command))
  {
    ClusterNarrow(n);
    AdditionAddsOne(n, id, address);
    ListsNamed(n);
    var n' := AddServer(n, id, address);
    assert n'.cluster[|n.cluster|].id == id && n'.cluster[|n.cluster|] in n'.cluster;
    IdsConcat(n.cluster, [n'.cluster[|n.cluster|]]);
    PlainIds(n'.cluster);
  }

  lemma PlainIds(ms: seq<Member>)
    ensures Ids(Membership.Plain(ms)) == Ids(ms)
  {
    SameRoster(Membership.Plain(ms), ms);
    SameIds(Membership.Plain(ms), ms);
  }

  lemma {:induction false} BaseStays(states: seq<System>, steps: seq<Step>, x: nat, y: nat, j: nat)
    requires IsRun(states, steps) && x <= y < |states| && j < |states[x].nodes|
    ensures j < |states[y].nodes| && states[y].nodes[j].base == states[x].nodes[j].base
    decreases y - x
  {
    if x < y {
      BaseStays(states, steps, x, y - 1, j);
      var st := steps[y - 1];
      StepIsHandle(states[y - 1], st);
      if Actor(st).Some? && Actor(st).value.0 == j {
        SameBase(states[y - 1].nodes[j], Actor(st).value.1);
      }
    }
  }

  /** A node that founded nothing but itself lists whom an addition in its log names, if that names itself
      and all founders of the node it shares the log with. */
  lemma SharedLogSameIds(a: Node, b: Node, id: nat, k: nat)
    requires ConfigOk(a) && ConfigOk(b) && a.log == b.log && k < |a.log| && IsConfigChange(a.log[k].command)
    requires Ids(a.base) + {id} <= Ids(Incoming(a.log[k].command)) && Ids(b.base) == {id}
    ensures Ids(a.cluster) == Ids(b.cluster)
  {
    NamedHas(a.log, k);
    ListsNamed(a);
    ListsNamed(b);
  }

  lemma AdditionInRun(states: seq<System>, steps: seq<Step>, x: nat, p: nat, id: nat, address: seq<byte>)
    requires TidyRun(states, steps) && x < |steps| && steps[x] == AddServerStep(p, id, address)
    requires p < |states[x].nodes| && AddOutcomeOf(states[x].nodes[p], id, address) == Added
    ensures x + 1 < |states| && p < |states[x + 1].nodes|
    ensures var k, log := |states[x].nodes[p].log|, states[x + 1].nodes[p].log;
            k < |log| && IsConfigChange(log[k].command)
            && Ids(states[x].nodes[p].base) + {id} <= Ids(Incoming(log[k].command))
  {
    TidyUpTo(states, steps, x);
    assert NodeTidy(states[x].nodes[p]) && TidyStep(steps[x]);
    StepIsHandle(states[x], steps[x]);
    AdditionNamesAll(states[x].nodes[p], id, address);
  }

  /** A node that founded nothing but itself, once its log ends where the log of the leader that added it
      ends, and the leader still has the entry by which it did, lists the same ids as that leader. */
  lemma JoinerListsSame(states: seq<System>, steps: seq<Step>, x: nat, y: nat, p: nat, q: nat, id: nat,
                        address: seq<byte>)
    requires TidyRun(states, steps) && x < y < |states| && steps[x] == AddServerStep(p, id, address)
    requires p < |states[x].nodes| && AddOutcomeOf(states[x].nodes[p], id, address) == Added
    requires p < |states[x + 1].nodes| && p < |states[y].nodes| && q < |states[y].nodes|
    requires states[x + 1].nodes[p].log <= states[y].nodes[p].log && Ids(states[y].nodes[q].base) == {id}
    requires |states[y].nodes[q].log| == |states[y].nodes[p].log| >= 1
    requires LastTerm(states[y].nodes[q].log) == LastTerm(states[y].nodes[p].log)
    ensures Ids(states[y].nodes[q].cluster) == Ids(states[y].nodes[p].cluster)
  {
    AdditionInRun(states, steps, x, p, id, address);
    BaseStays(states, steps, x, y, p);
    SameLogsInRun(states, steps, y, p, q);
    var k, log := |states[x].nodes[p].log|, states[y].nodes[p].log;
    assert log[k] == states[x + 1].nodes[p].log[k];
    SharedLogSameIds(states[y].nodes[p], states[y].nodes[q], id, k);
  }
}
