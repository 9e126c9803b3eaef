/** One node as a value, and every atomic step of it as a function. The class in Server.dfy carries
    out these steps in place; the cluster in Cluster.dfy runs them against each other. */
module Raft {
  import opened Types
  import opened Membership
  import opened OrderStatistic

  const BATCH: nat := 8000

  datatype Node = Node(
    id: nat,
    base: seq<Member>,       // founding members, captured once
    term: nat,
    log: seq<Entry>,
    role: Role,
    cluster: seq<Member>,
    self: nat,               // where `cluster` lists this node
    commitIndex: nat,
    lastApplied: nat,
    pending: nat,            // index of the config change in flight, 0 if none
    passive: bool,
    applied: seq<seq<byte>>  // the commands handed to the state machine so far
  )

  /** What every operation relies on to stay clear of the original's panics. */
  ghost predicate WellFormed(n: Node) {
    && |n.log| >= 1
    && n.id in Ids(n.base)
    && n.id in Ids(n.cluster)
    && n.self == IndexOf(n.cluster, n.id)
  }

  function Vote(n: Node): nat
    requires n.self < |n.cluster|
  {
    n.cluster[n.self].votedFor
  }

  function SetVote(n: Node, id: nat): Node
    requires n.self < |n.cluster|
  {
    n.(cluster := n.cluster[n.self := n.cluster[n.self].(votedFor := id)])
  }

  function LastTerm(log: seq<Entry>): nat
    requires |log| >= 1
  {
    log[|log| - 1].term
  }

  function Quorum(n: Node): nat {
    |n.cluster| / 2 + 1
  }

  // ---------- Elections ----------

  function BallotReset(n: Node): (c: seq<Member>)
    ensures |c| == |n.cluster|
    ensures forall i :: 0 <= i < |c| ==> c[i] == n.cluster[i].(votedFor := if i == n.self then n.id else 0)
  {
    seq(|n.cluster|, i requires 0 <= i < |n.cluster| => n.cluster[i].(votedFor := if i == n.self then n.id else 0))
  }

  function Timeout(n: Node): Node {
    if n.passive then n
    else n.(role := Candidate, term := n.term + 1, cluster := BallotReset(n))
  }

  function BuildVoteRequest(n: Node): VoteRequest
    requires |n.log| >= 1
  {
    VoteRequest(n.term, n.id, |n.log| - 1, LastTerm(n.log))
  }

  function UpdateTerm(n: Node, term: nat): Node
    requires n.self < |n.cluster|
  {
    if term > n.term then SetVote(n, 0).(term := term, role := Follower, pending := 0) else n
  }

  /** The log comparison of a vote: later last term, or the same last term and no shorter. */
  predicate UpToDate(lastTerm: nat, lastIndex: nat, log: seq<Entry>)
    requires |log| >= 1
  {
    lastTerm > LastTerm(log) || (lastTerm == LastTerm(log) && lastIndex >= |log| - 1)
  }

  predicate Grants(n: Node, req: VoteRequest)
    requires |n.log| >= 1 && n.self < |n.cluster|
  {
    && req.term == n.term
    && UpToDate(req.lastLogTerm, req.lastLogIndex, n.log)
    && (Vote(n) == 0 || Vote(n) == req.candidate)
  }

  function HandleVoteRequest(n: Node, req: VoteRequest): (Node, VoteResponse)
    requires |n.log| >= 1 && n.self < |n.cluster|
  {
    var u := UpdateTerm(n, req.term);
    if Grants(u, req) then (SetVote(u, req.candidate), VoteResponse(u.term, true))
    else (u, VoteResponse(u.term, false))
  }

  function HandleVoteResponse(n: Node, peer: nat, req: VoteRequest, rsp: VoteResponse): Node
    requires n.self < |n.cluster| && peer < |n.cluster|
  {
    if rsp.term > n.term then UpdateTerm(n, rsp.term)
    else if rsp.term != req.term || !rsp.granted then n
    else n.(cluster := n.cluster[peer := n.cluster[peer].(votedFor := n.id)])
  }

  function Voters(n: Node): (s: set<nat>)
    ensures s <= Below(|n.cluster|)
  {
    set i: nat | i < |n.cluster| && n.cluster[i].votedFor == n.id
  }

  function IndexReset(n: Node): (c: seq<Member>)
    ensures |c| == |n.cluster|
    ensures forall i :: 0 <= i < |c| ==> c[i] == n.cluster[i].(nextIndex := |n.log| + 1, matchIndex := 0)
  {
    seq(|n.cluster|, i requires 0 <= i < |n.cluster| => n.cluster[i].(nextIndex := |n.log| + 1, matchIndex := 0))
  }

  function BecomeLeader(n: Node): Node {
    if |Voters(n)| < Quorum(n) then n
    else n.(cluster := IndexReset(n), role := Leader, log := n.log + [Entry(n.term, [])])
  }

  // ---------- Replication ----------

  function EntriesAt(term: nat, commands: seq<seq<byte>>): (es: seq<Entry>)
    ensures |es| == |commands|
    ensures forall i :: 0 <= i < |es| ==> es[i] == Entry(term, commands[i])
  {
    seq(|commands|, i requires 0 <= i < |commands| => Entry(term, commands[i]))
  }

  function ClientApply(n: Node, commands: seq<seq<byte>>): Node {
    if n.role != Leader then n
    else n.(log := n.log + EntriesAt(n.term, commands))
  }

  /** The request a leader sends to the peer at `peer`, cut to one batch. */
  function BuildAppendRequest(n: Node, peer: nat): AppendRequest
    requires n.self < |n.cluster| && peer < |n.cluster|
    requires 1 <= n.cluster[peer].nextIndex <= |n.log|
  {
    var next := n.cluster[peer].nextIndex;
    var rest := n.log[next..];
    AppendRequest(n.term, n.cluster[n.self].id, next - 1, n.log[next - 1].term,
                  if |rest| > BATCH then rest[..BATCH] else rest, n.commitIndex)
  }

  predicate ValidPrevious(log: seq<Entry>, req: AppendRequest) {
    req.prevLogIndex == 0 || (req.prevLogIndex < |log| && log[req.prevLogIndex].term == req.prevLogTerm)
  }

  /** Every command fits a record of the log file. */
  ghost predicate Recordable(es: seq<Entry>) {
    forall i :: 0 <= i < |es| ==> |es[i].command| <= COMMAND_LIMIT
  }

  /** What a request must not contain, and a log it may cut into, for the original to get through: a config
      change that does not decode, or a command that does not fit a record. */
  ghost predicate Digestible(log: seq<Entry>, req: AppendRequest) {
    WellFormedEntries(log) && WellFormedEntries(req.entries) && Recordable(req.entries)
  }

  /** How many of the sent entries the log already holds, by term, before the first conflict or its own end. */
  function Matching(log: seq<Entry>, next: nat, es: seq<Entry>): (c: nat)
    requires next <= |log|
    ensures c <= |es| && next + c <= |log|
    decreases |es|
  {
    if es == [] || next == |log| || log[next].term != es[0].term then 0
    else
      1 + Matching(log, next + 1, es[1..])
  }

  /** `Matching` counts right: every entry it counts agrees by term, and the first one it does not
      count, if the log reaches that far, conflicts. */
  lemma {:induction false} MatchingIsExact(log: seq<Entry>, next: nat, es: seq<Entry>, k: nat)
    requires next <= |log|
    ensures k < Matching(log, next, es) ==> log[next + k].term == es[k].term
    ensures k == Matching(log, next, es) && k < |es| && next + k < |log| ==> log[next + k].term != es[k].term
    decreases |es|
  {
    if es != [] && next < |log| && log[next].term == es[0].term && k > 0 {
      MatchingIsExact(log, next + 1, es[1..], k - 1);
    }
  }

  /** The whole append loop in one line: keep what matches, replace the rest. */
  function Splice(log: seq<Entry>, next: nat, es: seq<Entry>): seq<Entry>
    requires next <= |log|
  {
    var c := Matching(log, next, es);
    if c == |es| then log else log[..next + c] + es[c..]
  }

  /** What a splice is for, without saying how: the log before the sent entries stays, the sent entries
      are there by term, and nothing changes if and only if they all were there already. If anything
      does change the log ends with them, so no entry after a conflict survives. */
  lemma SpliceHolds(log: seq<Entry>, next: nat, es: seq<Entry>, log': seq<Entry>)
    requires next <= |log| && log' == Splice(log, next, es)
    ensures next + |es| <= |log'| && log'[..next] == log[..next]
    ensures forall k :: 0 <= k < |es| ==> log'[next + k].term == es[k].term
    ensures log' == log <==> next + |es| <= |log| && forall k :: 0 <= k < |es| ==> log[next + k].term == es[k].term
    ensures log' != log ==> |log'| == next + |es|
    ensures Conflict(log, next, es) <==>
            exists k :: 0 <= k < |es| && next + k < |log| && log[next + k].term != es[k].term
  {
    var c := Matching(log, next, es);
    forall k | 0 <= k < c ensures log[next + k].term == es[k].term {
      MatchingIsExact(log, next, es, k);
    }
    if c < |es| {
      MatchingIsExact(log, next, es, c);
      assert log'[next + c].term == es[c].term;
    }
  }

  /** Whether the append loop cuts the log. */
  predicate Conflict(log: seq<Entry>, next: nat, es: seq<Entry>)
    requires next <= |log|
  {
    var c := Matching(log, next, es);
    c < |es| && next + c < |log|
  }

  function Rebuild(n: Node, log: seq<Entry>, selfVote: nat): seq<Member> {
    MergeEntries(n.base, log, 0, n.id, selfVote)
  }

  function ClusterAfterAppend(n: Node, req: AppendRequest): seq<Member>
    requires n.self < |n.cluster| && ValidPrevious(n.log, req) && |n.log| >= 1
  {
    var next := req.prevLogIndex + 1;
    if Conflict(n.log, next, req.entries) then Rebuild(n, Splice(n.log, next, req.entries), Vote(n))
    else MergeEntries(n.cluster, req.entries, next, n.id, Vote(n))
  }

  function AppendFromLeader(n: Node, req: AppendRequest): Node
    requires WellFormed(n) && ValidPrevious(n.log, req)
  {
    var log := Splice(n.log, req.prevLogIndex + 1, req.entries);
    var cluster := ClusterAfterAppend(n, req);
    ClusterAfterAppendNamesSelf(n, req);
    n.(log := log, cluster := cluster, self := IndexOf(cluster, n.id),
       commitIndex := if req.leaderCommit > n.commitIndex then Min(req.leaderCommit, |log| - 1) else n.commitIndex)
  }

  /** A truncation rebuilds from the founding members, and a merge keeps what it starts from, so
      either way the node still finds itself in its cluster. */
  lemma ClusterAfterAppendNamesSelf(n: Node, req: AppendRequest)
    requires WellFormed(n) && ValidPrevious(n.log, req)
    ensures n.id in Ids(ClusterAfterAppend(n, req))
    ensures |Splice(n.log, req.prevLogIndex + 1, req.entries)| >= 1
    ensures !Conflict(n.log, req.prevLogIndex + 1, req.entries) ==>
              IndexOf(ClusterAfterAppend(n, req), n.id) == n.self
  {
    var next := req.prevLogIndex + 1;
    if Conflict(n.log, next, req.entries) {
      MergeEntriesGrows(n.base, Splice(n.log, next, req.entries), 0, n.id, Vote(n));
      IndexOfPrefix(n.base, ClusterAfterAppend(n, req), n.id);
    } else {
      MergeEntriesGrows(n.cluster, req.entries, next, n.id, Vote(n));
      IndexOfPrefix(n.cluster, ClusterAfterAppend(n, req), n.id);
    }
  }

  function HandleAppendRequest(n: Node, req: AppendRequest): (Node, AppendResponse)
    requires WellFormed(n)
  {
    var v := Ready(n, req);
    ReadyWellFormed(n, req);
    if v.role != Follower || req.term < v.term then (v, AppendResponse(v.term, false))
    else
      var w := v.(passive := false);
      if !ValidPrevious(w.log, req) then (w, AppendResponse(w.term, false))
      else (AppendFromLeader(w, req), AppendResponse(w.term, true))
  }

  lemma ReadyWellFormed(n: Node, req: AppendRequest)
    requires WellFormed(n)
    ensures WellFormed(Ready(n, req))
  {
    UpdateTermWellFormed(n, req.term);
  }

  lemma SameMembersWellFormed(n: Node, n': Node)
    requires WellFormed(n) && SameMembers(n, n')
    ensures WellFormed(n')
  {
    assert n'.cluster[n.self] in n'.cluster;
  }

  lemma UpdateTermWellFormed(n: Node, term: nat)
    requires WellFormed(n)
    ensures WellFormed(UpdateTerm(n, term))
  {
    SameMembersWellFormed(n, UpdateTerm(n, term));
  }

  /** The node that judges a request, after its term and role are brought up to date. */
  function Ready(n: Node, req: AppendRequest): Node
    requires n.self < |n.cluster|
  {
    var u := UpdateTerm(n, req.term);
    if req.term == u.term && u.role == Candidate then u.(role := Follower) else u
  }

  predicate Accepts(n: Node, req: AppendRequest)
    requires n.self < |n.cluster|
  {
    var v := Ready(n, req);
    v.role == Follower && req.term == v.term && ValidPrevious(v.log, req)
  }

  /** The handler is: bring term and role up to date, then either answer no or splice. */
  lemma AppendRequestSplit(n: Node, req: AppendRequest)
    requires WellFormed(n)
    ensures var v := Ready(n, req);
            var w := v.(passive := false);
            var (n', rsp) := HandleAppendRequest(n, req);
            && WellFormed(v) && WellFormed(w)
            && (Accepts(n, req) ==> n' == AppendFromLeader(w, req) && rsp == AppendResponse(req.term, true))
            && (!Accepts(n, req) ==> (n' == v || n' == w) && rsp == AppendResponse(v.term, false))
  {
    UpdateTermWellFormed(n, req.term);
  }

  /** The same, field by field. */
  lemma AppendRequestFields(n: Node, req: AppendRequest, n': Node)
    requires WellFormed(n) && n' == HandleAppendRequest(n, req).0
    ensures n'.log == if Accepts(n, req) then Splice(n.log, req.prevLogIndex + 1, req.entries) else n.log
    ensures n'.term == Max(n.term, req.term) && n'.role == Ready(n, req).role && n'.pending == Ready(n, req).pending
    ensures n'.id == n.id && n'.base == n.base && n'.lastApplied == n.lastApplied && n'.applied == n.applied
    ensures n'.commitIndex == if Accepts(n, req) && req.leaderCommit > n.commitIndex
                              then Min(req.leaderCommit, |n'.log| - 1) else n.commitIndex
  {
    AppendRequestSplit(n, req);
  }

  function HandleAppendResponse(n: Node, peer: nat, req: AppendRequest, rsp: AppendResponse): Node
    requires n.self < |n.cluster| && peer < |n.cluster|
  {
    if rsp.term > n.term then UpdateTerm(n, rsp.term)
    else if rsp.term != req.term && n.role == Leader then n
    else
      var m := n.cluster[peer];
      var next := if rsp.success then Max(req.prevLogIndex + |req.entries| + 1, 1)
                  else Max(Decrement64(m.nextIndex), 1);
      var m' := if rsp.success then m.(nextIndex := next, matchIndex := next - 1) else m.(nextIndex := next);
      n.(cluster := n.cluster[peer := m'])
  }

  // ---------- Vocabulary about requests and commitment ----------

  /** The request is a slice of `log`. */
  ghost predicate SliceOf(req: AppendRequest, log: seq<Entry>) {
    && req.prevLogIndex + 1 + |req.entries| <= |log|
    && req.prevLogTerm == log[req.prevLogIndex].term
    && forall k {:trigger req.entries[k]} :: 0 <= k < |req.entries| ==> req.entries[k] == log[req.prevLogIndex + 1 + k]
  }

  /** The request reaches an entry of the sender's term. */
  ghost predicate EndsInTerm(req: AppendRequest) {
    (if req.entries == [] then req.prevLogTerm else LastTerm(req.entries)) == req.term
  }

  /** What a step does to a node's committed prefix: it stays, and only grows. */
  ghost predicate CommitKept(n: Node, n': Node) {
    && n.commitIndex <= n'.commitIndex
    && n.commitIndex < |n.log| && n.commitIndex < |n'.log|
    && n'.log[..n.commitIndex + 1] == n.log[..n.commitIndex + 1]
  }

  // ---------- Commit and apply ----------

  /** What each member is known to hold: the leader its whole log, a peer its `matchIndex`, capped at the last index. */
  function Holdings(n: Node): (ms: seq<nat>)
    requires |n.log| >= 1
    ensures |ms| == |n.cluster|
    ensures forall j :: 0 <= j < |ms| ==>
              ms[j] == if j == n.self then |n.log| - 1 else Min(n.cluster[j].matchIndex, |n.log| - 1)
  {
    seq(|n.cluster|, j requires 0 <= j < |n.cluster| =>
      if j == n.self then |n.log| - 1 else Min(n.cluster[j].matchIndex, |n.log| - 1))
  }

  /** The index a leader may commit: what a majority holds, and never less than it had. */
  function NewCommitIndex(n: Node): nat
    requires |n.log| >= 1 && |n.cluster| >= 1
  {
    if n.role != Leader then n.commitIndex
    else Max(n.commitIndex, KthLargest(Holdings(n), Quorum(n)))
  }

  predicate CanApply(n: Node)
    requires |n.log| >= 1 && |n.cluster| >= 1
  {
    n.lastApplied <= NewCommitIndex(n) ==> n.lastApplied < |n.log|
  }

  /** The commit search, then at most one entry applied. */
  function AdvanceCommit(n: Node): Node
    requires |n.log| >= 1 && |n.cluster| >= 1 && CanApply(n)
  {
    var c := n.(commitIndex := NewCommitIndex(n));
    if c.lastApplied > c.commitIndex then c else ApplyOne(c)
  }

  function ApplyOne(n: Node): Node
    requires n.lastApplied < |n.log|
  {
    var command := n.log[n.lastApplied].command;
    var done := n.(lastApplied := n.lastApplied + 1);
    if command == [] then done
    else if IsConfigChange(command) then
      if n.pending == n.lastApplied then done.(pending := 0) else done
    else done.(applied := n.applied + [command])
  }

  // ---------- Growing the cluster ----------

  datatype AddOutcome = Added | AlreadyMember | InvalidId | NotLeader | ChangeInProgress | TooLarge

  function WithNewcomer(n: Node, id: nat, address: seq<byte>): seq<Member> {
    n.cluster + [Member(id, address, 0, 0, 0)]
  }

  function AddOutcomeOf(n: Node, id: nat, address: seq<byte>): AddOutcome {
    if id == 0 then InvalidId
    else if n.role != Leader then NotLeader
    else if n.pending != 0 then ChangeInProgress
    else if id in Ids(n.cluster) then AlreadyMember
    else if !Encodable(WithNewcomer(n, id, address)) then TooLarge
    else Added
  }

  /** The leader's node after it appends a config change naming `members` and adopts it. */
  function WithConfigChange(n: Node, members: seq<Member>): Node
    requires WellFormed(n)
  {
    WithConfigChangeNamesSelf(n, members);
    var cluster := Merge(n.cluster, members, |n.log| + 1, n.id, Vote(n));
    n.(log := n.log + [Entry(n.term, ConfigPayload(members))], cluster := cluster,
       self := IndexOf(cluster, n.id), pending := |n.log|)
  }

  lemma WithConfigChangeNamesSelf(n: Node, members: seq<Member>)
    requires WellFormed(n)
    ensures n.id in Ids(Merge(n.cluster, members, |n.log| + 1, n.id, Vote(n)))
  {
    MergeGrows(n.cluster, members, |n.log| + 1, n.id, Vote(n));
  }

  function AddServer(n: Node, id: nat, address: seq<byte>): Node
    requires WellFormed(n)
  {
    if AddOutcomeOf(n, id, address) != Added then n
    else WithConfigChange(n, WithNewcomer(n, id, address))
  }

  // ---------- Restarting ----------

  /** A node starts again in a new process, or by `Stop` and `Start` on the object that is still there. */
  datatype Restarting = NewProcess(passive: bool) | SameObject

  /** The node after it is started again on its file: term and log are as they were, and the membership is
      rebuilt. The vote the file holds is read, but the rebuild does not use it for the node itself. In a
      new process all else is new, too; on the same object it is kept. */
  function Restart(n: Node, how: Restarting): Node
    requires n.id in Ids(n.base)
  {
    RebuildNamesSelf(n, n.log, 0);
    var cluster := Rebuild(n, n.log, 0);
    var again := n.(role := Follower, cluster := cluster, self := IndexOf(cluster, n.id));
    match how
    case SameObject => again
    case NewProcess(passive) =>
      again.(commitIndex := 0, lastApplied := 0, pending := 0, passive := passive, applied := [])
  }

  lemma RebuildNamesSelf(n: Node, log: seq<Entry>, vote: nat)
    requires n.id in Ids(n.base)
    ensures n.base <= Rebuild(n, log, vote)
    ensures n.id in Ids(Rebuild(n, log, vote)) && IndexOf(Rebuild(n, log, vote), n.id) == IndexOf(n.base, n.id)
  {
    MergeEntriesGrows(n.base, log, 0, n.id, vote);
    IndexOfPrefix(n.base, Rebuild(n, log, vote), n.id);
  }

  // ---------- All steps of one node ----------

  datatype Event =
    | TimeoutFires
    | VoteRequestArrives(voteRequest: VoteRequest)
    | VoteResponseArrives(peer: nat, voteRequest: VoteRequest, voteResponse: VoteResponse)
    | TryBecomeLeader
    | ClientCommands(commands: seq<seq<byte>>)
    | ServerAddition(id: nat, address: seq<byte>)
    | AppendRequestArrives(appendRequest: AppendRequest)
    | AppendResponseArrives(peer: nat, appendRequest: AppendRequest, appendResponse: AppendResponse)
    | CommitAndApply
    | Restarts(how: Restarting)

  /** The conditions under which the original takes the step without an index out of range. */
  ghost predicate CanHandle(n: Node, ev: Event) {
    && WellFormed(n)
    && match ev {
         case VoteResponseArrives(peer, _, _) => peer < |n.cluster|
         case AppendResponseArrives(peer, _, _) => peer < |n.cluster|
         case CommitAndApply => CanApply(n)
         case _ => true
       }
  }

  ghost function Handle(n: Node, ev: Event): Node
    requires CanHandle(n, ev)
  {
    match ev {
      case TimeoutFires => Timeout(n)
      case VoteRequestArrives(req) => HandleVoteRequest(n, req).0
      case VoteResponseArrives(peer, req, rsp) => HandleVoteResponse(n, peer, req, rsp)
      case TryBecomeLeader => BecomeLeader(n)
      case ClientCommands(commands) => ClientApply(n, commands)
      case ServerAddition(id, address) => AddServer(n, id, address)
      case AppendRequestArrives(req) => HandleAppendRequest(n, req).0
      case AppendResponseArrives(peer, req, rsp) => HandleAppendResponse(n, peer, req, rsp)
      case CommitAndApply => AdvanceCommit(n)
      case Restarts(how) => Restart(n, how)
    }
  }

  lemma AddServerWellFormed(n: Node, id: nat, address: seq<byte>)
    requires WellFormed(n)
    ensures WellFormed(AddServer(n, id, address))
  {
    WithConfigChangeNamesSelf(n, WithNewcomer(n, id, address));
  }

  lemma HandleAppendWellFormed(n: Node, req: AppendRequest)
    requires WellFormed(n)
    ensures WellFormed(HandleAppendRequest(n, req).0)
  {
    AppendRequestSplit(n, req);
    if Accepts(n, req) {
      AppendFromLeaderWellFormed(Ready(n, req).(passive := false), req);
    }
  }

  lemma AppendFromLeaderWellFormed(n: Node, req: AppendRequest)
    requires WellFormed(n) && ValidPrevious(n.log, req)
    ensures WellFormed(AppendFromLeader(n, req))
  {
    ClusterAfterAppendNamesSelf(n, req);
  }

  lemma RestartWellFormed(n: Node, how: Restarting)
    requires WellFormed(n)
    ensures WellFormed(Restart(n, how))
  {
    RebuildNamesSelf(n, n.log, 0);
  }

  /** Only what a node notes down about its members may have changed. */
  ghost predicate SameMembers(n: Node, n': Node) {
    && n'.id == n.id && n'.base == n.base && n'.self == n.self && |n'.log| >= 1
    && |n'.cluster| == |n.cluster| && forall i :: 0 <= i < |n.cluster| ==> n'.cluster[i].id == n.cluster[i].id
  }

  lemma VoteRequestMembers(n: Node, req: VoteRequest)
    requires |n.log| >= 1 && n.self < |n.cluster|
    ensures SameMembers(n, HandleVoteRequest(n, req).0)
  {
  }

  lemma VoteResponseMembers(n: Node, peer: nat, req: VoteRequest, rsp: VoteResponse)
    requires |n.log| >= 1 && n.self < |n.cluster| && peer < |n.cluster|
    ensures SameMembers(n, HandleVoteResponse(n, peer, req, rsp))
  {
  }

  lemma AppendResponseMembers(n: Node, peer: nat, req: AppendRequest, rsp: AppendResponse)
    requires |n.log| >= 1 && n.self < |n.cluster| && peer < |n.cluster|
    ensures SameMembers(n, HandleAppendResponse(n, peer, req, rsp))
  {
  }

  lemma SameMembersStep(n: Node, ev: Event)
    requires CanHandle(n, ev) && !ev.AppendRequestArrives? && !ev.ServerAddition? && !ev.Restarts?
    ensures SameMembers(n, Handle(n, ev))
  {
    match ev {
      case VoteRequestArrives(req) => VoteRequestMembers(n, req);
      case VoteResponseArrives(peer, req, rsp) => VoteResponseMembers(n, peer, req, rsp);
      case AppendResponseArrives(peer, req, rsp) => AppendResponseMembers(n, peer, req, rsp);
      case TimeoutFires => assert SameMembers(n, Timeout(n));
      case TryBecomeLeader => assert SameMembers(n, BecomeLeader(n));
      case ClientCommands(commands) => assert SameMembers(n, ClientApply(n, commands));
      case CommitAndApply => assert SameMembers(n, AdvanceCommit(n));
    }
  }

  /** No step of the original can leave a node that does not know itself. */
  lemma HandleWellFormed(n: Node, ev: Event)
    requires CanHandle(n, ev)
    ensures WellFormed(Handle(n, ev))
  {
    match ev {
      case AppendRequestArrives(req) => HandleAppendWellFormed(n, req);
      case ServerAddition(id, address) => AddServerWellFormed(n, id, address);
      case Restarts(how) => RestartWellFormed(n, how);
      case _ =>
        SameMembersStep(n, ev);
        SameMembersWellFormed(n, Handle(n, ev));
    }
  }
}
