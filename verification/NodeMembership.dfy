/** A node's membership is a function of its log, and growing a cluster by one server keeps
    majorities overlapping. */
module NodeMembership {
  import opened Types
  import opened Membership
  import opened Raft

  // ---------- The fold over the log ----------

  /** Ids and addresses after all config changes of `log`, starting from the founding members. */
  function RosterOf(base: seq<Member>, log: seq<Entry>): seq<(nat, seq<byte>)> {
    Roster(MergeEntries(base, log, 0, 0, 0))
  }

  lemma {:induction false} MergeEntriesRoster(a: seq<Member>, b: seq<Member>, es: seq<Entry>,
                                              fromA: nat, fromB: nat, selfA: nat, selfB: nat, voteA: nat, voteB: nat)
    requires Roster(a) == Roster(b)
    ensures Roster(MergeEntries(a, es, fromA, selfA, voteA)) == Roster(MergeEntries(b, es, fromB, selfB, voteB))
  {
    if es != [] {
      var k := |es| - 1;
      var front, e := es[..k], es[k];
      MergeEntriesRoster(a, b, front, fromA, fromB, selfA, selfB, voteA, voteB);
      assert es == front + [e];
      MergeSnoc(a, front, e, es, fromA, selfA, voteA);
      MergeSnoc(b, front, e, es, fromB, selfB, voteB);
      MergeEntryRoster(MergeEntries(a, front, fromA, selfA, voteA), MergeEntries(b, front, fromB, selfB, voteB), e,
                       fromA + k, fromB + k, selfA, selfB, voteA, voteB);
    }
  }

  lemma MergeEntryRoster(a: seq<Member>, b: seq<Member>, e: Entry, indexA: nat, indexB: nat,
                         selfA: nat, selfB: nat, voteA: nat, voteB: nat)
    requires Roster(a) == Roster(b)
    ensures Roster(MergeEntry(a, e, indexA, selfA, voteA)) == Roster(MergeEntry(b, e, indexB, selfB, voteB))
  {
    var incoming := Incoming(e.command);
    MergeRoster(a, b, incoming, incoming, indexA + 1, indexB + 1, selfA, selfB, voteA, voteB);
  }

  /** Every member a config change of the log names is known after the fold. */
  lemma {:induction false} FoldKnows(base: seq<Member>, log: seq<Entry>, k: nat)
    requires k < |log| && IsConfigChange(log[k].command)
    ensures Ids(Incoming(log[k].command)) <= Ids(MergeEntries(base, log, 0, 0, 0))
  {
    var last := |log| - 1;
    var before := MergeEntries(base, log[..last], 0, 0, 0);
    if k < last {
      FoldKnows(base, log[..last], k);
    }
    if IsConfigChange(log[last].command) {
      MergeGrows(before, Incoming(log[last].command), last + 1, 0, 0);
    }
  }

  /** Re-applying config changes whose members are all known changes nothing. */
  lemma {:induction false} MergeKnownEntries(cluster: seq<Member>, es: seq<Entry>, from: nat, selfId: nat,
                                             selfVote: nat)
    requires forall k :: 0 <= k < |es| && IsConfigChange(es[k].command) ==> Ids(Incoming(es[k].command)) <= Ids(cluster)
    ensures MergeEntries(cluster, es, from, selfId, selfVote) == cluster
  {
    if es != [] {
      var k := |es| - 1;
      MergeKnownEntries(cluster, es[..k], from, selfId, selfVote);
      if IsConfigChange(es[k].command) {
        MergeKnown(cluster, Incoming(es[k].command), from + k + 1, selfId, selfVote);
      }
    }
  }

  // ---------- The invariant ----------

  /** Config changes decode, and name each member once. */
  ghost predicate GoodConfigs(es: seq<Entry>) {
    forall k :: 0 <= k < |es| && IsConfigChange(es[k].command) ==>
      DecodeConfig(es[k].command).Some? && Distinct(Incoming(es[k].command))
  }

  ghost predicate ConfigOk(n: Node) {
    && WellFormed(n) && Distinct(n.base) && GoodConfigs(n.log)
    && Roster(n.cluster) == RosterOf(n.base, n.log)
  }

  ghost predicate SameWhereTermsAgree(log: seq<Entry>, next: nat, es: seq<Entry>) {
    forall k :: 0 <= k < |es| && next + k < |log| && log[next + k].term == es[k].term ==> log[next + k] == es[k]
  }

  /** Well-formed commands only; and an entry sent again at an index the node already holds in the
      same term is the same entry. */
  ghost predicate ConfigEvent(n: Node, ev: Event) {
    match ev {
      case ClientCommands(commands) => forall c :: c in commands ==> !IsConfigChange(c)
      case ServerAddition(id, address) => forall m :: m in WithNewcomer(n, id, address) ==> m.id < TWO_64
      case AppendRequestArrives(req) =>
        && GoodConfigs(req.entries)
        && SameWhereTermsAgree(n.log, req.prevLogIndex + 1, req.entries)
      case _ => true
    }
  }

  /** Member ids are distinct in every such state. */
  lemma ConfigDistinct(n: Node)
    requires ConfigOk(n)
    ensures Distinct(n.cluster)
  {
    forall e | e in n.log && IsConfigChange(e.command) ensures Distinct(Incoming(e.command)) {
      var k :| 0 <= k < |n.log| && n.log[k] == e;
    }
    var fold := MergeEntries(n.base, n.log, 0, 0, 0);
    MergeEntriesDistinct(n.base, n.log, 0, 0, 0);
    forall i, j | 0 <= i < j < |n.cluster| ensures n.cluster[i].id != n.cluster[j].id {
      assert Roster(n.cluster)[i] == Roster(fold)[i] && Roster(n.cluster)[j] == Roster(fold)[j];
    }
  }

  // ---------- Appending ----------

  lemma MatchedAreKnown(n: Node, req: AppendRequest, c: nat)
    requires ConfigOk(n) && ValidPrevious(n.log, req) && ConfigEvent(n, AppendRequestArrives(req))
    requires c == Matching(n.log, req.prevLogIndex + 1, req.entries)
    ensures c <= |req.entries| && req.prevLogIndex + 1 + c <= |n.log|
    ensures forall k :: 0 <= k < c ==> n.log[req.prevLogIndex + 1 + k] == req.entries[k]
    ensures MergeEntries(n.cluster, req.entries[..c], req.prevLogIndex + 1, n.id, Vote(n)) == n.cluster
  {
    var next := req.prevLogIndex + 1;
    forall k | 0 <= k < c ensures n.log[next + k] == req.entries[k] {
      MatchingIsExact(n.log, next, req.entries, k);
    }
    SameIds(n.cluster, MergeEntries(n.base, n.log, 0, 0, 0));
    var es := req.entries[..c];
    forall k | 0 <= k < |es| && IsConfigChange(es[k].command) ensures Ids(Incoming(es[k].command)) <= Ids(n.cluster) {
      FoldKnows(n.base, n.log, next + k);
    }
    MergeKnownEntries(n.cluster, es, next, n.id, Vote(n));
  }

  lemma ExtendedRoster(n: Node, tail: seq<Entry>, from: nat)
    requires Roster(n.cluster) == RosterOf(n.base, n.log) && n.self < |n.cluster|
    ensures Roster(MergeEntries(n.cluster, tail, from, n.id, Vote(n))) == RosterOf(n.base, n.log + tail)
  {
    var fold := MergeEntries(n.base, n.log, 0, 0, 0);
    MergeEntriesRoster(n.cluster, fold, tail, from, |n.log|, n.id, 0, Vote(n), 0);
    MergeEntriesConcat(n.base, n.log, tail, 0, 0, 0);
  }

  lemma ExtensionRoster(n: Node, req: AppendRequest, c: nat)
    requires ConfigOk(n) && ValidPrevious(n.log, req) && ConfigEvent(n, AppendRequestArrives(req))
    requires c == Matching(n.log, req.prevLogIndex + 1, req.entries)
    requires c <= |req.entries|
    ensures Roster(MergeEntries(n.cluster, req.entries, req.prevLogIndex + 1, n.id, Vote(n))) ==
            RosterOf(n.base, n.log + req.entries[c..])
  {
    var next, es := req.prevLogIndex + 1, req.entries;
    assert MergeEntries(n.cluster, es[..c], next, n.id, Vote(n)) == n.cluster by { MatchedAreKnown(n, req, c); }
    SkipKnown(n, es, c, next);
    ExtendedRoster(n, es[c..], next + c);
  }

  lemma SkipKnown(n: Node, es: seq<Entry>, c: nat, next: nat)
    requires n.self < |n.cluster| && c <= |es|
    requires MergeEntries(n.cluster, es[..c], next, n.id, Vote(n)) == n.cluster
    ensures MergeEntries(n.cluster, es, next, n.id, Vote(n)) ==
            MergeEntries(n.cluster, es[c..], next + c, n.id, Vote(n))
  {
    assert es == es[..c] + es[c..];
    MergeEntriesConcat(n.cluster, es[..c], es[c..], next, n.id, Vote(n));
  }

  lemma ExtensionIsSplice(log: seq<Entry>, next: nat, es: seq<Entry>)
    requires next <= |log| && !Conflict(log, next, es)
    ensures Splice(log, next, es) == log + es[Matching(log, next, es)..]
  {
  }

  lemma AppendRoster(n: Node, req: AppendRequest, log': seq<Entry>)
    requires ConfigOk(n) && ValidPrevious(n.log, req) && ConfigEvent(n, AppendRequestArrives(req))
    requires log' == Splice(n.log, req.prevLogIndex + 1, req.entries)
    ensures Roster(ClusterAfterAppend(n, req)) == RosterOf(n.base, log')
  {
    if Conflict(n.log, req.prevLogIndex + 1, req.entries) {
      MergeEntriesRoster(n.base, n.base, log', 0, 0, n.id, 0, Vote(n), 0);
    } else {
      ExtensionRoster(n, req, Matching(n.log, req.prevLogIndex + 1, req.entries));
      ExtensionIsSplice(n.log, req.prevLogIndex + 1, req.entries);
    }
  }

  lemma SpliceConfigs(log: seq<Entry>, req: AppendRequest)
    requires GoodConfigs(log) && GoodConfigs(req.entries) && ValidPrevious(log, req) && |log| >= 1
    ensures GoodConfigs(Splice(log, req.prevLogIndex + 1, req.entries))
  {
  }

  lemma ConfigAppend(n: Node, req: AppendRequest)
    requires ConfigOk(n) && ConfigEvent(n, AppendRequestArrives(req))
    ensures ConfigOk(HandleAppendRequest(n, req).0)
  {
    AppendRequestSplit(n, req);
    ConfigReady(n, req);
    if Accepts(n, req) {
      var w := Ready(n, req).(passive := false);
      ConfigSplice(w, req, AppendFromLeader(w, req));
    }
  }

  lemma ConfigReady(n: Node, req: AppendRequest)
    requires ConfigOk(n)
    ensures ConfigOk(Ready(n, req)) && ConfigOk(Ready(n, req).(passive := false)) && Ready(n, req).log == n.log
  {
    AppendRequestSplit(n, req);
    SameConfig(n, Ready(n, req));
    SameConfig(n, Ready(n, req).(passive := false));
  }

  lemma SameConfig(n: Node, n': Node)
    requires ConfigOk(n) && WellFormed(n') && n'.base == n.base && n'.log == n.log && |n'.cluster| == |n.cluster|
    requires forall i :: 0 <= i < |n.cluster| ==>
               n'.cluster[i].id == n.cluster[i].id && n'.cluster[i].address == n.cluster[i].address
    ensures ConfigOk(n')
  {
    SameRoster(n.cluster, n'.cluster);
  }

  lemma ConfigSplice(w: Node, req: AppendRequest, n': Node)
    requires ConfigOk(w) && ValidPrevious(w.log, req) && ConfigEvent(w, AppendRequestArrives(req))
    requires n' == AppendFromLeader(w, req)
    ensures ConfigOk(n')
  {
    AppendFromLeaderWellFormed(w, req);
    AppendRoster(w, req, n'.log);
    SpliceConfigs(w.log, req);
  }

  lemma SameRoster(a: seq<Member>, b: seq<Member>)
    requires |a| == |b| && forall i :: 0 <= i < |a| ==> a[i].id == b[i].id && a[i].address == b[i].address
    ensures Roster(a) == Roster(b)
  {
  }

  // ---------- Growing by one ----------

  lemma NewcomerDistinct(n: Node, id: nat, address: seq<byte>)
    requires Distinct(n.cluster) && id !in Ids(n.cluster)
    ensures Distinct(WithNewcomer(n, id, address))
  {
    forall i | 0 <= i < |n.cluster| ensures n.cluster[i].id != id { assert n.cluster[i] in n.cluster; }
  }

  lemma ConfigAddition(n: Node, id: nat, address: seq<byte>)
    requires ConfigOk(n) && ConfigEvent(n, ServerAddition(id, address))
    requires AddOutcomeOf(n, id, address) == Added
    ensures ConfigOk(AddServer(n, id, address))
  {
    var members := WithNewcomer(n, id, address);
    var payload := ConfigPayload(members);
    var e := Entry(n.term, payload);
    var fold := MergeEntries(n.base, n.log, 0, 0, 0);
    var n' := AddServer(n, id, address);
    ConfigRoundTrip(members);
    ConfigDistinct(n);
    NewcomerDistinct(n, id, address);
    AddServerWellFormed(n, id, address);
    MergedRoster(n, members, fold, e);
    assert n'.log == n.log + [e];
    GrownConfigs(n.log, e);
  }

  /** The merge of the new members is what the fold makes of their config change. */
  lemma MergedRoster(n: Node, members: seq<Member>, fold: seq<Member>, e: Entry)
    requires n.self < |n.cluster| && fold == MergeEntries(n.base, n.log, 0, 0, 0) && Roster(n.cluster) == Roster(fold)
    requires IsConfigChange(e.command) && DecodeConfig(e.command) == Some(Plain(members))
    ensures Roster(Merge(n.cluster, members, |n.log| + 1, n.id, Vote(n))) == RosterOf(n.base, n.log + [e])
  {
    SameRoster(members, Plain(members));
    MergeRoster(n.cluster, fold, members, Plain(members), |n.log| + 1, |n.log| + 1, n.id, 0, Vote(n), 0);
    MergeSnoc(n.base, n.log, e, n.log + [e], 0, 0, 0);
  }

  lemma GrownConfigs(log: seq<Entry>, e: Entry)
    requires GoodConfigs(log)
    requires IsConfigChange(e.command) ==> DecodeConfig(e.command).Some? && Distinct(Incoming(e.command))
    ensures GoodConfigs(log + [e])
  {
  }

  lemma ConfigClient(n: Node, commands: seq<seq<byte>>)
    requires ConfigOk(n) && forall c :: c in commands ==> !IsConfigChange(c)
    ensures ConfigOk(ClientApply(n, commands))
  {
    if n.role == Leader {
      PlainTail(n, EntriesAt(n.term, commands));
    }
  }

  lemma PlainTail(n: Node, tail: seq<Entry>)
    requires ConfigOk(n) && forall i :: 0 <= i < |tail| ==> !IsConfigChange(tail[i].command)
    ensures GoodConfigs(n.log + tail) && RosterOf(n.base, n.log + tail) == RosterOf(n.base, n.log)
  {
    MergeEntriesConcat(n.base, n.log, tail, 0, 0, 0);
    MergeNoConfig(MergeEntries(n.base, n.log, 0, 0, 0), tail, |n.log|, 0, 0);
  }

  lemma ConfigElection(n: Node)
    requires ConfigOk(n)
    ensures ConfigOk(BecomeLeader(n))
  {
    PlainTail(n, [Entry(n.term, [])]);
    SameRoster(n.cluster, BecomeLeader(n).cluster);
    SameMembersWellFormed(n, BecomeLeader(n));
  }

  lemma ConfigQuiet(n: Node, n': Node)
    requires ConfigOk(n) && n'.log == n.log && n'.base == n.base && n'.id == n.id && n'.self == n.self
    requires |n'.cluster| == |n.cluster|
    requires forall i :: 0 <= i < |n.cluster| ==>
               n'.cluster[i].id == n.cluster[i].id && n'.cluster[i].address == n.cluster[i].address
    ensures ConfigOk(n')
  {
    SameRoster(n.cluster, n'.cluster);
    SameMembersWellFormed(n, n');
  }

  lemma ConfigVoteRequest(n: Node, req: VoteRequest)
    requires ConfigOk(n)
    ensures ConfigOk(HandleVoteRequest(n, req).0)
  {
    ConfigQuiet(n, HandleVoteRequest(n, req).0);
  }

  lemma ConfigVoteResponse(n: Node, peer: nat, req: VoteRequest, rsp: VoteResponse)
    requires ConfigOk(n) && peer < |n.cluster|
    ensures ConfigOk(HandleVoteResponse(n, peer, req, rsp))
  {
    ConfigQuiet(n, HandleVoteResponse(n, peer, req, rsp));
  }

  lemma ConfigAppendResponse(n: Node, peer: nat, req: AppendRequest, rsp: AppendResponse)
    requires ConfigOk(n) && peer < |n.cluster|
    ensures ConfigOk(HandleAppendResponse(n, peer, req, rsp))
  {
    ConfigQuiet(n, HandleAppendResponse(n, peer, req, rsp));
  }

  lemma ConfigCommit(n: Node)
    requires ConfigOk(n) && CanApply(n)
    ensures ConfigOk(AdvanceCommit(n))
  {
    ConfigQuiet(n, AdvanceCommit(n));
  }

  lemma ConfigRestart(n: Node, how: Restarting)
    requires ConfigOk(n)
    ensures ConfigOk(Restart(n, how))
  {
    RestartWellFormed(n, how);
    MergeEntriesRoster(n.base, n.base, n.log, 0, 0, n.id, 0, 0, 0);
  }

  /** In every reachable state the ids and addresses of a node's cluster are the fold of the config
      changes of its log from the founding members: over growth, append, re-delivery and truncation. */
  lemma ConfigStep(n: Node, ev: Event)
    requires CanHandle(n, ev) && ConfigOk(n) && ConfigEvent(n, ev)
    ensures ConfigOk(Handle(n, ev))
  {
    match ev {
      case AppendRequestArrives(req) => ConfigAppend(n, req);
      case ServerAddition(id, address) =>
        if AddOutcomeOf(n, id, address) == Added { ConfigAddition(n, id, address); }
      case ClientCommands(commands) => ConfigClient(n, commands);
      case TryBecomeLeader => ConfigElection(n);
      case VoteRequestArrives(req) => ConfigVoteRequest(n, req);
      case VoteResponseArrives(peer, req, rsp) => ConfigVoteResponse(n, peer, req, rsp);
      case AppendResponseArrives(peer, req, rsp) => ConfigAppendResponse(n, peer, req, rsp);
      case TimeoutFires => ConfigQuiet(n, Timeout(n));
      case CommitAndApply => ConfigCommit(n);
      case Restarts(how) => ConfigRestart(n, how);
    }
  }

  // ---------- What an addition does ----------

  lemma {:induction false} UnknownConcat(known: set<nat>, a: seq<Member>, b: seq<Member>, next: nat, selfId: nat,
                                         vote: nat)
    ensures Unknown(known, a + b, next, selfId, vote) ==
            Unknown(known, a, next, selfId, vote) + Unknown(known, b, next, selfId, vote)
  {
    if a == [] {
      assert a + b == b;
    } else {
      assert (a + b)[1..] == a[1..] + b;
      UnknownConcat(known, a[1..], b, next, selfId, vote);
    }
  }

  lemma NewcomerMerged(cluster: seq<Member>, id: nat, address: seq<byte>, next: nat, selfId: nat, vote: nat)
    requires id !in Ids(cluster) && selfId in Ids(cluster)
    ensures Merge(cluster, cluster + [Member(id, address, 0, 0, 0)], next, selfId, vote) ==
            cluster + [Member(id, address, next, 0, 0)]
  {
    var newcomer := Member(id, address, 0, 0, 0);
    UnknownConcat(Ids(cluster), cluster, [newcomer], next, selfId, vote);
    MergeKnown(cluster, cluster, next, selfId, vote);
    assert Unknown(Ids(cluster), [newcomer], next, selfId, vote) == [Member(id, address, next, 0, 0)];
  }

  /** A successful addition adds one member and one entry: the member comes last, without a vote, to be
      sent what comes after the entry that adds it, and everyone else keeps place and bookkeeping; and the
      entry decodes to exactly the members there are now. */
  lemma AdditionAddsOne(n: Node, id: nat, address: seq<byte>)
    requires WellFormed(n) && AddOutcomeOf(n, id, address) == Added
    requires id < TWO_64 && forall m :: m in n.cluster ==> m.id < TWO_64
    ensures var n' := AddServer(n, id, address);
            && n'.cluster == n.cluster + [Member(id, address, |n'.log|, 0, 0)] && n'.self == n.self
            && |n'.log| == |n.log| + 1 && n'.log[..|n.log|] == n.log && n'.pending == |n.log|
            && n'.log[n'.pending].term == n.term && IsConfigChange(n'.log[n'.pending].command)
            && DecodeConfig(n'.log[n'.pending].command) == Some(Plain(n'.cluster))
  {
    var members := WithNewcomer(n, id, address);
    NewcomerMerged(n.cluster, id, address, |n.log| + 1, n.id, Vote(n));
    var n' := AddServer(n, id, address);
    assert n'.cluster == n.cluster + [Member(id, address, |n'.log|, 0, 0)];
    IndexOfPrefix(n.cluster, n'.cluster, n.id);
    AddedPayload(members, n'.cluster);
  }

  lemma AddedPayload(members: seq<Member>, cluster: seq<Member>)
    requires Encodable(members) && forall m :: m in members ==> m.id < TWO_64
    requires |cluster| == |members|
    requires forall i :: 0 <= i < |members| ==>
               cluster[i].id == members[i].id && cluster[i].address == members[i].address
    ensures IsConfigChange(ConfigPayload(members)) && DecodeConfig(ConfigPayload(members)) == Some(Plain(cluster))
  {
    ConfigRoundTrip(members);
    assert Plain(members) == Plain(cluster);
  }

  // ---------- Majorities overlap across growth ----------

  lemma {:induction false} DistinctCount(ms: seq<Member>)
    requires Distinct(ms)
    ensures |Ids(ms)| == |ms|
  {
    if ms == [] {
      assert Ids(ms) == {};
    } else {
      var front, last := ms[..|ms| - 1], ms[|ms| - 1];
      DistinctCount(front);
      LastIsNew(front, last);
      IdsConcat(front, [last]);
      assert ms == front + [last];
      assert Ids(ms) == Ids(front) + {last.id};
    }
  }

  lemma LastIsNew(front: seq<Member>, last: Member)
    requires forall i :: 0 <= i < |front| ==> front[i].id != last.id
    ensures last.id !in Ids(front) && Ids([last]) == {last.id}
  {
    assert forall m :: m in front ==> exists i :: 0 <= i < |front| && front[i] == m;
  }

  /** Any quorum of the cluster before an addition meets any quorum of the cluster after it. */
  lemma GrowthQuorumsMeet(n: Node, id: nat, address: seq<byte>, before: set<nat>, after: set<nat>)
    requires WellFormed(n) && Distinct(n.cluster) && AddOutcomeOf(n, id, address) == Added
    requires before <= Ids(n.cluster) && |before| >= Quorum(n)
    requires after <= Ids(AddServer(n, id, address).cluster) && |after| >= Quorum(AddServer(n, id, address))
    ensures |AddServer(n, id, address).cluster| == |n.cluster| + 1
    ensures before * after != {}
  {
    var members := WithNewcomer(n, id, address);
    var n' := AddServer(n, id, address);
    NewcomerDistinct(n, id, address);
    MergeGrows(n.cluster, members, |n.log| + 1, n.id, Vote(n));
    IdsConcat(n.cluster, [Member(id, address, 0, 0, 0)]);
    assert Ids(n'.cluster) == Ids(n.cluster) + {id};
    DistinctCount(n.cluster);
    DistinctCount(n'.cluster);
    SubsetSize(before + after, Ids(n'.cluster));
    assert |before + after| == |before| + |after| - |before * after|;
  }
}
