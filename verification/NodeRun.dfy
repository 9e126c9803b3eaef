/** Whole runs of one node: any sequence of events, membership changes and restarts included. */
module NodeRun {
  import opened Types
  import opened Membership
  import opened Raft
  import opened NodeInvariants
  import opened NodeMembership

  /** A node just started on an empty store. */
  ghost predicate Started(n: Node) {
    && WellFormed(n) && Distinct(n.base) && n.cluster == n.base
    && n.term == 0 && n.log == [SENTINEL] && n.role == Follower
    && n.commitIndex == 0 && n.lastApplied == 0 && n.pending == 0 && n.applied == []
  }

  ghost predicate IsNodeRun(ns: seq<Node>, evs: seq<Event>) {
    && |ns| == |evs| + 1 && Started(ns[0])
    && forall i {:trigger evs[i]} :: 0 <= i < |evs| ==> CanHandle(ns[i], evs[i]) && ns[i + 1] == Handle(ns[i], evs[i])
  }

  /** Every event comes from one dispatch loop and from leaders with logs in order. */
  ghost predicate OrderlyRun(ns: seq<Node>, evs: seq<Event>) {
    && IsNodeRun(ns, evs)
    && forall i {:trigger evs[i]} :: 0 <= i < |evs| ==> AtomicEvent(ns[i], evs[i]) && HonestEvent(evs[i])
  }

  // ---------- The log ----------

  lemma {:induction false} LogOkRun(ns: seq<Node>, evs: seq<Event>, x: nat)
    requires OrderlyRun(ns, evs) && x < |ns|
    ensures LogOk(ns[x])
    decreases x
  {
    if x == 0 {
      StartedLog(ns[0]);
    } else {
      LogOkRun(ns, evs, x - 1);
      LogOkNext(ns, evs, x - 1);
    }
  }

  lemma StartedLog(n: Node)
    requires Started(n)
    ensures LogOk(n)
  {
  }

  lemma LogOkNext(ns: seq<Node>, evs: seq<Event>, x: nat)
    requires OrderlyRun(ns, evs) && x < |evs| && LogOk(ns[x])
    ensures LogOk(ns[x + 1])
  {
    OrderlyAt(ns, evs, x);
    LogOkStep(ns[x], evs[x]);
  }

  lemma OrderlyAt(ns: seq<Node>, evs: seq<Event>, x: nat)
    requires OrderlyRun(ns, evs) && x < |evs|
    ensures CanHandle(ns[x], evs[x]) && AtomicEvent(ns[x], evs[x]) && HonestEvent(evs[x])
    ensures x + 1 < |ns| && ns[x + 1] == Handle(ns[x], evs[x])
  {
  }

  /** The term never goes down, not even over a restart. */
  lemma {:induction false} TermNeverDown(ns: seq<Node>, evs: seq<Event>, x: nat, y: nat)
    requires IsNodeRun(ns, evs) && x <= y < |ns|
    ensures ns[x].term <= ns[y].term
    decreases y - x
  {
    if x < y {
      TermNeverDown(ns, evs, x, y - 1);
      var ev := evs[y - 1];
      TermGrows(ns[y - 1], ev);
    }
  }

  /** No restart between `x` and `y`. */
  ghost predicate OneLife(evs: seq<Event>, x: nat, y: nat) {
    forall i :: x <= i < y && i < |evs| ==> !evs[i].Restarts?
  }

  /** At most restarts on the same object between `x` and `y`. */
  ghost predicate OneProcess(evs: seq<Event>, x: nat, y: nat) {
    forall i :: x <= i < y && i < |evs| ==> !NewLife(evs[i])
  }

  ghost predicate NewLife(ev: Event) {
    ev.Restarts? && ev.how.NewProcess?
  }

  /** A leader that has not stopped and is still in its term is still its leader, with a log that has only grown. */
  lemma {:induction false} LeaderAppendOnly(ns: seq<Node>, evs: seq<Event>, x: nat, y: nat)
    requires OrderlyRun(ns, evs) && x <= y < |ns| && OneLife(evs, x, y)
    requires ns[x].role == Leader && ns[y].term == ns[x].term
    ensures ns[y].role == Leader && ns[x].log <= ns[y].log
    decreases y - x
  {
    if x < y {
      TermNeverDown(ns, evs, x, y - 1);
      TermNeverDown(ns, evs, y - 1, y);
      LeaderAppendOnly(ns, evs, x, y - 1);
      OrderlyAt(ns, evs, y - 1);
      LeaderStays(ns[y - 1], evs[y - 1]);
    }
  }

  // ---------- Config changes ----------

  /** In addition: no client command poses as a config change. */
  ghost predicate PlainRun(ns: seq<Node>, evs: seq<Event>) {
    OrderlyRun(ns, evs) && forall i :: 0 <= i < |evs| ==> PlainEvent(evs[i])
  }

  lemma {:induction false} PendingRun(ns: seq<Node>, evs: seq<Event>, x: nat)
    requires PlainRun(ns, evs) && x < |ns|
    ensures PendingOk(ns[x])
    decreases x
  {
    if x > 0 {
      PendingRun(ns, evs, x - 1);
      LogOkRun(ns, evs, x - 1);
      OrderlyAt(ns, evs, x - 1);
      PendingStep(ns[x - 1], evs[x - 1]);
    }
  }

  /** One config change in flight: two unapplied config changes of a leader's own term are one and the
      same, its index is the pending index, and an addition is refused until it is applied. */
  lemma OneInFlight(ns: seq<Node>, evs: seq<Event>, x: nat, j: nat, k: nat, id: nat, address: seq<byte>)
    requires PlainRun(ns, evs) && x < |ns| && ns[x].role == Leader
    requires InFlight(ns[x], j) && InFlight(ns[x], k)
    ensures j == k == ns[x].pending
    ensures AddOutcomeOf(ns[x], id, address) in {InvalidId, ChangeInProgress}
    ensures WellFormed(ns[x]) && AddServer(ns[x], id, address) == ns[x]
  {
    AlwaysWellFormed(ns, evs, x);
    PendingRun(ns, evs, x);
    LogOkRun(ns, evs, x);
    assert ns[x].log[0] == SENTINEL;
  }

  ghost predicate ConfigRun(ns: seq<Node>, evs: seq<Event>) {
    && IsNodeRun(ns, evs)
    && forall i {:trigger evs[i]} :: 0 <= i < |evs| ==> ConfigEvent(ns[i], evs[i])
  }

  lemma {:induction false} ConfigOkRun(ns: seq<Node>, evs: seq<Event>, x: nat)
    requires ConfigRun(ns, evs) && x < |ns|
    ensures ConfigOk(ns[x])
    decreases x
  {
    if x == 0 {
      StartedConfig(ns[0]);
    } else {
      ConfigOkRun(ns, evs, x - 1);
      var ev := evs[x - 1];
      ConfigStep(ns[x - 1], ev);
    }
  }

  lemma StartedConfig(n: Node)
    requires Started(n)
    ensures ConfigOk(n)
  {
    MergeNoConfig(n.base, [SENTINEL], 0, 0, 0);
  }

  /** Membership is a function of the log: whatever happened to two nodes with the same founding
      members, restarts included, equal logs mean equal ids and addresses; ids are distinct, and a node
      always finds itself. */
  lemma MembershipFollowsLog(ns: seq<Node>, evs: seq<Event>, x: nat, ms: seq<Node>, fs: seq<Event>, y: nat)
    requires ConfigRun(ns, evs) && x < |ns| && ConfigRun(ms, fs) && y < |ms|
    requires ns[x].base == ms[y].base && ns[x].log == ms[y].log
    ensures Roster(ns[x].cluster) == Roster(ms[y].cluster) == RosterOf(ns[x].base, ns[x].log)
    ensures Distinct(ns[x].cluster) && ns[x].self < |ns[x].cluster| && ns[x].cluster[ns[x].self].id == ns[x].id
  {
    ConfigOkRun(ns, evs, x);
    ConfigOkRun(ms, fs, y);
    ConfigDistinct(ns[x]);
  }

  // ---------- Application ----------

  /** No committed entry is ever overwritten while the node runs. */
  ghost predicate KeepingRun(ns: seq<Node>, evs: seq<Event>) {
    && IsNodeRun(ns, evs)
    && forall i {:trigger evs[i]} :: 0 <= i < |evs| && !NewLife(evs[i]) && ns[i].commitIndex < |ns[i].log| ==>
         CommitKept(ns[i], ns[i + 1])
  }

  lemma {:induction false} AppliedOkRun(ns: seq<Node>, evs: seq<Event>, x: nat)
    requires KeepingRun(ns, evs) && x < |ns|
    ensures AppliedOk(ns[x])
    decreases x
  {
    if x == 0 {
      assert ns[0].log[..0] == [];
    } else {
      AppliedOkRun(ns, evs, x - 1);
      var ev := evs[x - 1];
      if ev.Restarts? {
        AppliedRestart(ns[x - 1], ev.how);
      } else {
        AppliedStep(ns[x - 1], ev);
      }
    }
  }

  /** In order, each once: between any two times of one process the state machine is handed exactly the commands
      of the entries the node applied in between, and the apply step never reads past the end of the log. */
  lemma AppliedInOrder(ns: seq<Node>, evs: seq<Event>, x: nat, y: nat)
    requires KeepingRun(ns, evs) && x <= y < |ns| && OneProcess(evs, x, y)
    ensures ns[x].lastApplied <= ns[y].lastApplied <= ns[y].commitIndex + 1 <= |ns[y].log|
    ensures ns[y].applied == ns[x].applied + CommandsOf(ns[y].log[ns[x].lastApplied..ns[y].lastApplied])
    ensures |ns[y].cluster| >= 1 && CanApply(ns[y])
  {
    AppliedOkRun(ns, evs, x);
    AppliedOkRun(ns, evs, y);
    KeptUntil(ns, evs, x, y);
    var a, b := ns[x], ns[y];
    assert b.log[..a.lastApplied] == a.log[..a.lastApplied] by {
      assert b.log[..a.commitIndex + 1][..a.lastApplied] == a.log[..a.commitIndex + 1][..a.lastApplied];
    }
    CommandsOfConcat(b.log[..a.lastApplied], b.log[a.lastApplied..b.lastApplied]);
    assert b.log[..a.lastApplied] + b.log[a.lastApplied..b.lastApplied] == b.log[..b.lastApplied];
    AlwaysWellFormed(ns, evs, y);
    NewCommitInRange(b);
  }

  lemma {:induction false} KeptUntil(ns: seq<Node>, evs: seq<Event>, x: nat, y: nat)
    requires KeepingRun(ns, evs) && x <= y < |ns| && OneProcess(evs, x, y)
    ensures CommitKept(ns[x], ns[y]) && ns[x].lastApplied <= ns[y].lastApplied
    decreases y - x
  {
    AppliedOkRun(ns, evs, x);
    if x < y {
      KeptUntil(ns, evs, x, y - 1);
      AppliedOkRun(ns, evs, y - 1);
      var ev := evs[y - 1];
      NeverUnapplies(ns[y - 1], ev);
      CommitKeptTransitive(ns[x], ns[y - 1], ns[y]);
    }
  }

  lemma NeverUnapplies(n: Node, ev: Event)
    requires CanHandle(n, ev) && !NewLife(ev)
    ensures n.lastApplied <= Handle(n, ev).lastApplied <= n.lastApplied + 1
  {
    match ev {
      case AppendRequestArrives(req) => AppendRequestFields(n, req, Handle(n, ev));
      case _ =>
    }
  }

  lemma AlwaysWellFormed(ns: seq<Node>, evs: seq<Event>, x: nat)
    requires IsNodeRun(ns, evs) && x < |ns|
    ensures WellFormed(ns[x])
  {
    if x > 0 {
      var ev := evs[x - 1];
      HandleWellFormed(ns[x - 1], ev);
    }
  }
}
