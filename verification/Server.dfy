/** The node as the source has it: an object whose fields its handlers update in place, with the log
    as a slice over a backing array and a file it keeps up to date. Every handler is proved to take
    exactly the step of `Raft` that it stands for, and to leave file and memory in agreement. */
module ServerNode {
  import opened Types
  import opened LittleEndian
  import opened Membership
  import opened OrderStatistic
  import opened Raft
  import opened Storage
  import opened LogFile

  class Server {
    const id: nat
    const base: seq<Member>
    const storage: MemStorage

    var currentTerm: nat
    var entries: array<Entry>  // the backing array of the log slice
    var length: nat            // the length of the log slice
    var role: Role
    var cluster: seq<Member>
    var clusterIndex: nat
    var commitIndex: nat
    var lastApplied: nat
    var pendingConfigChangeIndex: nat
    var passive: bool
    var applied: seq<seq<byte>>

    ghost function Log(): seq<Entry>
      requires length <= entries.Length
      reads this`entries, this`length, entries
    {
      entries[..length]
    }

    ghost function State(): Node
      requires length <= entries.Length
      reads this, entries
    {
      Node(id, base, currentTerm, Log(), role, cluster, clusterIndex, commitIndex, lastApplied,
           pendingConfigChangeIndex, passive, applied)
    }

    /** In shape to run: the slice lies in its array and the node knows itself. */
    ghost predicate Sound()
      reads this, entries
    {
      length <= entries.Length && WellFormed(State())
    }

    /** The file has the term and the log of the memory. The vote it holds may be an old one: a restart
        forgets the node's own vote, and files nothing. */
    ghost predicate Valid()
      reads this, entries, storage
    {
      Sound() && Filed(storage.data, State())
    }

    /** The file has the vote of the memory as well. Everything that persists makes it so, and nothing
        that does not persist undoes it. */
    ghost predicate Current()
      reads this, entries, storage
    {
      Sound() && FiledVote(storage.data, State())
    }

    /** A server as configured, before it reads its file. */
    constructor (clusterConfig: seq<Member>, index: nat, storage: MemStorage)
      requires index < |clusterConfig| && forall m :: m in clusterConfig ==> m.id != 0
      ensures this.storage == storage && fresh(entries)
      ensures length == 0 && length <= entries.Length
      ensures id == clusterConfig[index].id && base == clusterConfig && cluster == clusterConfig
      ensures clusterIndex == index
      ensures id in Ids(cluster) && (Distinct(clusterConfig) ==> clusterIndex == IndexOf(cluster, id))
      ensures currentTerm == 0 && role == Follower && commitIndex == 0 && lastApplied == 0
      ensures pendingConfigChangeIndex == 0 && !passive && applied == []
    {
      this.id := clusterConfig[index].id;
      this.base := clusterConfig;
      this.storage := storage;
      currentTerm, length, role := 0, 0, Follower;
      entries := new Entry[0];
      cluster, clusterIndex := clusterConfig, index;
      commitIndex, lastApplied, pendingConfigChangeIndex := 0, 0, 0;
      passive, applied := false, [];
      new;
      assert clusterConfig[index] in clusterConfig;
    }

    // ---------- Persistence ----------

    /** Encodes the records from `first` on, one after the other, into one reused buffer. */
    method EncodeRecords(first: nat, ghost log: seq<Entry>) returns (buffered: seq<byte>)
      requires length <= entries.Length && log == Log() && first <= |log| && Recordable(log[first..])
      ensures buffered == Records(Zeros(ENTRY_SIZE), log[first..])
    {
      buffered := [];
      var entryBytes := Zeros(ENTRY_SIZE);
      ghost var total := Records(entryBytes, log[first..]);
      RecordsStart(entryBytes, log, first, total);
      for i := first to length
        invariant RecordsLeft(buffered, entryBytes, log, i, total)
      {
        RecordsUnfold(entryBytes, log, i, buffered, total);
        entryBytes := Fill(entryBytes, entries[i]);
        buffered := buffered + entryBytes;
      }
      RecordsEnd(buffered, entryBytes, log, total);
    }

    method WriteHeader()
      requires length <= entries.Length && clusterIndex < |cluster|
      modifies storage
      ensures storage.data ==
              WriteAt(old(storage.data), 0, HeaderPage(currentTerm, cluster[clusterIndex].votedFor, length))
    {
      var _ := storage.Seek(0, SeekStart);
      var page := HeaderPage(currentTerm, cluster[clusterIndex].votedFor, length);
      var n := storage.Write(page);
      assert n == PAGE_SIZE;
    }

    method WriteRecords(first: nat, ghost log: seq<Entry>)
      requires length <= entries.Length && log == Log() && first <= |log| && Recordable(log[first..])
      modifies storage
      ensures storage.data ==
              WriteAt(old(storage.data), PAGE_SIZE + ENTRY_SIZE * first, Records(Zeros(ENTRY_SIZE), log[first..]))
    {
      var _ := storage.Seek(PAGE_SIZE + ENTRY_SIZE * first, SeekStart);
      var buffered := EncodeRecords(first, log);
      var _ := storage.Write(buffered);
    }

    /** Writes the header and the last `newEntries` records (all of them if that is 0). */
    method Persist(writeLog: bool, newEntries: nat, ghost n: Node)
      requires 1 <= length <= entries.Length && n == State() && CanPersist(n, writeLog, newEntries)
      modifies storage
      ensures storage.data == Persisted(old(storage.data), n, writeLog, newEntries)
    {
      var count := newEntries;
      if count == 0 && writeLog {
        count := length;
      }
      ghost var first, log := FirstWritten(n.log, writeLog, newEntries), n.log;
      assert log == Log() && |log| == length && Recordable(log[first..]);
      WriteHeader();
      ghost var headed := storage.data;
      assert headed == WriteAt(old(storage.data), 0, HeaderPage(n.term, Vote(n), |log|));
      if writeLog && count > 0 {
        var newLogOffset := Max(length - count, 0);
        assert newLogOffset == first < |log|;
        WriteRecords(newLogOffset, log);
      }
      PersistedIs(old(storage.data), n, writeLog, newEntries, first, headed, storage.data);
    }

    // ---------- Elections ----------

    method SetVotedFor(vote: nat)
      requires Sound()
      modifies this`cluster
      ensures Sound() && State() == SetVote(old(State()), vote)
    {
      cluster := cluster[clusterIndex := cluster[clusterIndex].(votedFor := vote)];
      SameMembersWellFormed(old(State()), State());
    }

    method UpdateTerm(term: nat) returns (transitioned: bool)
      requires Valid()
      modifies this`currentTerm, this`role, this`cluster, this`pendingConfigChangeIndex, storage
      ensures Valid() && State() == Raft.UpdateTerm(old(State()), term)
      ensures transitioned <==> term > old(currentTerm)
      ensures transitioned || old(Current()) ==> Current()
    {
      transitioned := false;
      if term > currentTerm {
        currentTerm := term;
        role := Follower;
        SetVotedFor(0);
        pendingConfigChangeIndex := 0;
        transitioned := true;
        PersistHeader(old(storage.data), old(State()), State());
        Persist(false, 0, State());
      }
    }

    method ResetBallots()
      requires length <= entries.Length
      modifies this`cluster
      ensures cluster == BallotReset(old(State()))
    {
      ghost var reset := BallotReset(State());
      for i := 0 to |cluster|
        invariant |cluster| == |old(cluster)|
        invariant forall j :: 0 <= j < |cluster| ==> cluster[j] == if j < i then reset[j] else old(cluster)[j]
      {
        cluster := cluster[i := cluster[i].(votedFor := if i == clusterIndex then id else 0)];
      }
    }

    method Timeout(hasTimedOut: bool)
      requires Valid()
      modifies this`currentTerm, this`role, this`cluster, storage
      ensures Valid() && State() == if hasTimedOut then Raft.Timeout(old(State())) else old(State())
      ensures (hasTimedOut && !passive) || old(Current()) ==> Current()
    {
      if passive {
        return;
      }
      if hasTimedOut {
        ghost var before := State();
        role := Candidate;
        currentTerm := currentTerm + 1;
        ResetBallots();
        SameMembersWellFormed(before, State());
        PersistHeader(storage.data, before, State());
        Persist(false, 0, State());
      }
    }

    method GrantVote(candidate: nat, ghost before: Node)
      requires Valid() && before == State()
      modifies this`cluster, storage
      ensures Valid() && Current() && State() == SetVote(before, candidate)
    {
      SetVotedFor(candidate);
      PersistHeader(storage.data, before, State());
      Persist(false, 0, State());
    }

    method Judge(req: VoteRequest) returns (grant: bool)
      requires 1 <= length <= entries.Length && clusterIndex < |cluster|
      ensures grant == Grants(State(), req)
    {
      var lastLogTerm := entries[length - 1].term;
      var logOk := req.lastLogTerm > lastLogTerm || (req.lastLogTerm == lastLogTerm && req.lastLogIndex >= length - 1);
      grant := req.term == currentTerm && logOk
        && (cluster[clusterIndex].votedFor == 0 || cluster[clusterIndex].votedFor == req.candidate);
    }

    method HandleRequestVoteRequest(req: VoteRequest) returns (rsp: VoteResponse)
      requires Valid()
      modifies this`currentTerm, this`role, this`cluster, this`pendingConfigChangeIndex, storage
      ensures Valid() && (State(), rsp) == HandleVoteRequest(old(State()), req)
      ensures rsp.granted || old(Current()) ==> Current()
    {
      var _ := UpdateTerm(req.term);
      rsp := VoteResponse(currentTerm, false);
      if req.term < currentTerm {
        return;
      }
      var grant := Judge(req);
      if grant {
        GrantVote(req.candidate, State());
        rsp := rsp.(granted := true);
      }
    }

    method HandleRequestVoteResponse(peer: nat, req: VoteRequest, rsp: VoteResponse)
      requires Valid() && peer < |cluster| && peer != clusterIndex
      modifies this`currentTerm, this`role, this`cluster, this`pendingConfigChangeIndex, storage
      ensures Valid() && State() == HandleVoteResponse(old(State()), peer, req, rsp)
      ensures old(Current()) ==> Current()
    {
      var transitioned := UpdateTerm(rsp.term);
      if transitioned {
        return;
      }
      if rsp.term != req.term {
        return;
      }
      if rsp.granted {
        cluster := cluster[peer := cluster[peer].(votedFor := id)];
        SameMembersWellFormed(old(State()), State());
      }
    }

    /** Counts own votes down from a majority. */
    method HasMajority() returns (won: bool)
      requires length <= entries.Length
      ensures won <==> |Voters(State())| >= Quorum(State())
    {
      var quorum := |cluster| / 2 + 1;
      ghost var counted: set<nat> := {};
      for i := 0 to |cluster|
        invariant counted == set j: nat | j < i && cluster[j].votedFor == id
        invariant quorum == Max(|cluster| / 2 + 1 - |counted|, 0)
      {
        if cluster[i].votedFor == id {
          counted := counted + {i};
          if quorum > 0 {
            quorum := quorum - 1;
          }
        }
      }
      assert counted == Voters(State());
      won := quorum == 0;
    }

    method ResetIndices()
      requires length <= entries.Length
      modifies this`cluster
      ensures cluster == IndexReset(old(State()))
    {
      ghost var reset := IndexReset(State());
      for i := 0 to |cluster|
        invariant |cluster| == |old(cluster)|
        invariant forall j :: 0 <= j < |cluster| ==> cluster[j] == if j < i then reset[j] else old(cluster)[j]
      {
        cluster := cluster[i := cluster[i].(nextIndex := length + 1, matchIndex := 0)];
      }
    }

    /** Resets the bookkeeping, takes the lead and appends the empty entry of the term. */
    method TakeLead(ghost before: Node)
      requires length <= entries.Length && before == State()
      modifies this`role, this`cluster, this`entries, this`length, entries
      ensures length <= entries.Length && (entries == old(entries) || fresh(entries))
      ensures State() ==
              before.(cluster := IndexReset(before), role := Leader, log := before.log + [Entry(before.term, [])])
    {
      ResetIndices();
      role := Leader;
      Append(Entry(currentTerm, []));
    }

    method BecomeLeader()
      requires Valid()
      modifies this`role, this`cluster, this`entries, this`length, entries, storage
      ensures Valid() && State() == Raft.BecomeLeader(old(State()))
      ensures State() != old(State()) || old(Current()) ==> Current()
    {
      var won := HasMajority();
      if won {
        ghost var before := State();
        TakeLead(before);
        ghost var after := State();
        SameMembersWellFormed(before, after);
        PersistTail(storage.data, before, after, 1);
        Persist(true, 1, after);
        assert State() == after;
      }
    }

    // ---------- The log slice ----------

    /** Appends as a slice does: in place while there is capacity, else into a larger array. */
    method Append(e: Entry)
      requires length <= entries.Length
      modifies this`entries, this`length, entries
      ensures length <= entries.Length && (entries == old(entries) || fresh(entries))
      ensures Log() == old(Log()) + [e]
    {
      if length == entries.Length {
        var grown := new Entry[2 * length + 1](_ => SENTINEL);
        forall k | 0 <= k < length {
          grown[k] := entries[k];
        }
        assert grown[..length] == Log();
        entries := grown;
      }
      entries[length] := e;
      length := length + 1;
      assert entries[..length] == entries[..length - 1] + [e];
    }

    /** The append loop's own reallocation: keeps the first `keep` entries, makes room for the rest. */
    method Reallocate(keep: nat, capacity: nat)
      requires keep == length <= entries.Length && keep <= capacity
      modifies this`entries
      ensures fresh(entries) && entries.Length == capacity && length <= entries.Length && Log() == old(Log())
    {
      var newLog := new Entry[capacity](_ => SENTINEL);
      forall k | 0 <= k < keep {
        newLog[k] := entries[k];
      }
      assert newLog[..length] == Log();
      entries := newLog;
    }

    // ---------- Replication ----------

    method AppendCommands(commands: seq<seq<byte>>, ghost log: seq<Entry>, ghost es: seq<Entry>)
      requires length <= entries.Length && log == Log() && es == EntriesAt(currentTerm, commands)
      modifies this`entries, this`length, entries
      ensures length <= entries.Length && (entries == old(entries) || fresh(entries))
      ensures Log() == log + es
    {
      for i := 0 to |commands|
        invariant length <= entries.Length && (entries == old(entries) || fresh(entries))
        invariant Log() == log + es[..i]
      {
        Append(Entry(currentTerm, commands[i]));
        assert es[..i + 1] == es[..i] + [es[i]];
      }
      assert es[..|commands|] == es;
    }

    method ClientApply(commands: seq<seq<byte>>) returns (accepted: bool)
      requires Valid() && (role == Leader ==> forall c :: c in commands ==> |c| <= COMMAND_LIMIT)
      modifies this`entries, this`length, entries, storage
      ensures Valid() && State() == Raft.ClientApply(old(State()), commands)
      ensures accepted <==> role == Leader
      ensures accepted || old(Current()) ==> Current()
    {
      if role != Leader {
        return false;
      }
      ghost var before := State();
      AppendCommands(commands, before.log, EntriesAt(currentTerm, commands));
      SameMembersWellFormed(before, State());
      PersistTail(storage.data, before, State(), |commands|);
      Persist(true, |commands|, State());
      return true;
    }

    /** What a leader sends next to the peer at `peer`. */
    method NextAppendRequest(peer: nat) returns (req: AppendRequest)
      requires Sound() && peer < |cluster| && 1 <= cluster[peer].nextIndex <= length
      ensures req == BuildAppendRequest(State(), peer)
    {
      var next := cluster[peer].nextIndex;
      var prevLogIndex := next - 1;
      var prevLogTerm := entries[prevLogIndex].term;
      var batch: seq<Entry> := [];
      if length - 1 >= next {
        batch := entries[next..length];
      }
      assert batch == Log()[next..];
      if |batch| > BATCH {
        batch := batch[..BATCH];
      }
      req := AppendRequest(currentTerm, cluster[clusterIndex].id, prevLogIndex, prevLogTerm, batch, commitIndex);
    }

    method HandleAppendEntriesResponse(peer: nat, req: AppendRequest, rsp: AppendResponse)
      requires Valid() && peer < |cluster|
      modifies this`currentTerm, this`role, this`cluster, this`pendingConfigChangeIndex, storage
      ensures Valid() && State() == HandleAppendResponse(old(State()), peer, req, rsp)
      ensures old(Current()) ==> Current()
    {
      var transitioned := UpdateTerm(rsp.term);
      if transitioned {
        return;
      }
      if rsp.term != req.term && role == Leader {
        return;
      }
      NoteResponse(peer, req, rsp);
      SameMembersWellFormed(old(State()), State());
    }

    method NoteResponse(peer: nat, req: AppendRequest, rsp: AppendResponse)
      requires peer < |cluster|
      modifies this`cluster
      ensures var m := old(cluster)[peer];
              var next := if rsp.success then Max(req.prevLogIndex + |req.entries| + 1, 1)
                          else Max(Decrement64(m.nextIndex), 1);
              cluster == old(cluster)[peer := if rsp.success then m.(nextIndex := next, matchIndex := next - 1)
                                              else m.(nextIndex := next)]
    {
      var m := cluster[peer];
      if rsp.success {
        var next := Max(req.prevLogIndex + |req.entries| + 1, 1);
        cluster := cluster[peer := m.(nextIndex := next, matchIndex := next - 1)];
      } else {
        cluster := cluster[peer := m.(nextIndex := Max(Decrement64(m.nextIndex), 1))];
      }
    }

    /** Folds the config changes of the log over the founding members. */
    method RebuildClusterFromLog(selfVotedFor: nat)
      requires length <= entries.Length && id in Ids(base) && WellFormedEntries(Log())
      modifies this`cluster, this`clusterIndex
      ensures cluster == MergeEntries(base, Log(), 0, id, selfVotedFor)
      ensures id in Ids(cluster) && clusterIndex == IndexOf(cluster, id)
    {
      var rebuilt := base;
      ghost var log := Log();
      for i := 0 to length
        invariant Log() == log
        invariant rebuilt == MergeEntries(base, log[..i], 0, id, selfVotedFor)
      {
        assert log[..i + 1][..i] == log[..i];
        if IsConfigChange(entries[i].command) {
          assert log[i] in log;
          var incoming := DecodeConfigChange(entries[i].command);
          rebuilt := MergeClusterConfig(rebuilt, incoming.value, i + 1, id, selfVotedFor);
        }
      }
      assert log[..length] == log;
      MergeEntriesGrows(base, log, 0, id, selfVotedFor);
      IndexOfPrefix(base, rebuilt, id);
      cluster := rebuilt;
      clusterIndex := ResolveClusterIndex(cluster, id);
    }

    /** Cuts the log at `i` if it holds an entry of another term there. */
    method TruncateOnConflict(i: nat, e: Entry, selfVotedFor: nat)
      requires length <= entries.Length && id in Ids(base) && WellFormedEntries(Log())
      modifies this`length, this`cluster, this`clusterIndex
      ensures length <= entries.Length
      ensures var log := old(Log());
              if i < |log| && log[i].term != e.term
              then Log() == log[..i] && cluster == MergeEntries(base, log[..i], 0, id, selfVotedFor)
                   && id in Ids(cluster) && clusterIndex == IndexOf(cluster, id)
              else Log() == log && cluster == old(cluster) && clusterIndex == old(clusterIndex)
    {
      if i < length && entries[i].term != e.term {
        length := i;
        assert Log() == old(Log())[..i];
        RebuildClusterFromLog(selfVotedFor);
      }
    }

    /** Config changes take effect on append. */
    method AdoptConfigChange(e: Entry, i: nat, selfVotedFor: nat)
      requires id in Ids(cluster) && clusterIndex == IndexOf(cluster, id)
      requires IsConfigChange(e.command) ==> DecodeConfig(e.command).Some?
      modifies this`cluster, this`clusterIndex
      ensures cluster == MergeEntry(old(cluster), e, i, id, selfVotedFor)
      ensures id in Ids(cluster) && clusterIndex == IndexOf(cluster, id)
    {
      if IsConfigChange(e.command) {
        var incoming := DecodeConfigChange(e.command);
        MergeGrows(cluster, incoming.value, i + 1, id, selfVotedFor);
        cluster := MergeClusterConfig(cluster, incoming.value, i + 1, id, selfVotedFor);
        clusterIndex := ResolveClusterIndex(cluster, id);
      }
    }

    /** Keeps the entry at `i` if the log reaches that far, else appends `e` there. */
    method KeepOrAppend(e: Entry, i: nat) returns (isNew: bool)
      requires i <= length <= entries.Length && (i < length ==> entries[i].term == e.term)
      modifies this`entries, this`length, entries
      ensures length <= entries.Length && (entries == old(entries) || fresh(entries))
      ensures isNew <==> i == |old(Log())|
      ensures Log() == if i == |old(Log())| then old(Log()) + [e] else old(Log())
    {
      if i < length {
        assert entries[i].term == e.term;
        isNew := false;
      } else {
        Append(e);
        assert length == i + 1;
        isNew := true;
      }
    }

    /** One round of the append loop: make room, cut on conflict, keep or append, adopt a config change. */
    method AppendRound(i: nat, e: Entry, room: nat, selfVotedFor: nat, ghost now: seq<Entry>, ghost merged: seq<Member>)
      returns (isNew: bool)
      requires i <= length <= entries.Length && i <= room && id in Ids(base)
      requires now == Log() && merged == cluster && WellFormedEntries(now)
      requires id in Ids(cluster) && clusterIndex == IndexOf(cluster, id)
      requires IsConfigChange(e.command) ==> DecodeConfig(e.command).Some?
      modifies this`entries, this`length, this`cluster, this`clusterIndex, entries
      ensures length <= entries.Length && (entries == old(entries) || fresh(entries))
      ensures isNew <==> !(i < |now| && now[i].term == e.term)
      ensures Log() == if isNew then now[..i] + [e] else now
      ensures cluster == MergeEntry(if i < |now| && isNew then MergeEntries(base, now[..i], 0, id, selfVotedFor)
                                    else merged,
                                    e, i, id, selfVotedFor)
      ensures id in Ids(cluster) && clusterIndex == IndexOf(cluster, id)
    {
      if i >= entries.Length {
        Reallocate(i, room);
      }
      TruncateOnConflict(i, e, selfVotedFor);
      isNew := KeepOrAppend(e, i);
      AdoptConfigChange(e, i, selfVotedFor);
      assert i == |now| ==> now[..i] == now;
    }

    /** One round, seen as progress of the loop: `j` of the sent entries are done, `c` were there already. */
    method LoopRound(next: nat, es: seq<Entry>, j: nat, selfVotedFor: nat, done: nat,
                     ghost log0: seq<Entry>, ghost cluster0: seq<Member>, ghost c: nat) returns (newEntries: nat)
      requires length <= entries.Length && id in Ids(base) && j < |es|
      requires id in Ids(cluster) && clusterIndex == IndexOf(cluster, id)
      requires next <= |log0| && WellFormedEntries(log0) && WellFormedEntries(es) && c == Matching(log0, next, es)
      requires Progress(base, cluster0, log0, next, es, c, j, id, selfVotedFor, Log(), cluster, done)
      modifies this`entries, this`length, this`cluster, this`clusterIndex, entries
      ensures length <= entries.Length && (entries == old(entries) || fresh(entries))
      ensures Progress(base, cluster0, log0, next, es, c, j + 1, id, selfVotedFor, Log(), cluster, newEntries)
      ensures id in Ids(cluster) && clusterIndex == IndexOf(cluster, id)
    {
      ghost var now, merged := Log(), cluster;
      RoundStarts(base, cluster0, log0, next, es, c, j, id, selfVotedFor, now, merged, done);
      var isNew := AppendRound(next + j, es[j], (next + |es|) * 2, selfVotedFor, now, merged);
      RoundEnds(base, cluster0, log0, next, es, c, j, id, selfVotedFor, now, merged, done, Log(), cluster, isNew);
      newEntries := if isNew then done + 1 else done;
    }

    /** The append loop. */
    method AppendLoop(next: nat, es: seq<Entry>, selfVotedFor: nat, ghost log0: seq<Entry>,
                      ghost cluster0: seq<Member>, ghost c: nat)
      returns (newEntries: nat)
      requires length <= entries.Length && id in Ids(base) && log0 == Log() && cluster0 == cluster
      requires id in Ids(cluster) && clusterIndex == IndexOf(cluster, id)
      requires next <= |log0| && WellFormedEntries(log0) && WellFormedEntries(es) && c == Matching(log0, next, es)
      modifies this`entries, this`length, this`cluster, this`clusterIndex, entries
      ensures length <= entries.Length && (entries == old(entries) || fresh(entries))
      ensures Progress(base, cluster0, log0, next, es, c, |es|, id, selfVotedFor, Log(), cluster, newEntries)
      ensures id in Ids(cluster) && clusterIndex == IndexOf(cluster, id)
    {
      newEntries := 0;
      LoopStarts(base, cluster0, log0, next, es, c, id, selfVotedFor);
      for j := 0 to |es|
        invariant length <= entries.Length && (entries == old(entries) || fresh(entries))
        invariant Progress(base, cluster0, log0, next, es, c, j, id, selfVotedFor, Log(), cluster, newEntries)
        invariant id in Ids(cluster) && clusterIndex == IndexOf(cluster, id)
      {
        newEntries := LoopRound(next, es, j, selfVotedFor, newEntries, log0, cluster0, c);
      }
    }

    /** The append loop, as one splice of the log and one update of the cluster. */
    method AppendAll(req: AppendRequest, ghost before: Node) returns (newEntries: nat)
      requires length <= entries.Length && before == State() && WellFormed(before) && ValidPrevious(before.log, req)
      requires WellFormedEntries(before.log) && WellFormedEntries(req.entries)
      modifies this`entries, this`length, this`cluster, this`clusterIndex, entries
      ensures length <= entries.Length && (entries == old(entries) || fresh(entries))
      ensures Spliced(before, req, Log(), cluster, clusterIndex, newEntries)
    {
      var next := req.prevLogIndex + 1;
      ghost var c := Matching(before.log, next, req.entries);
      ghost var vote := Vote(before);
      newEntries := AppendLoop(next, req.entries, cluster[clusterIndex].votedFor, before.log, before.cluster, c);
      LoopEnds(before, req, c, Log(), cluster, newEntries);
    }

    /** Splices the sent entries in and raises the commit index. */
    method SpliceIn(req: AppendRequest, ghost before: Node) returns (newEntries: nat)
      requires length <= entries.Length && before == State() && WellFormed(before) && ValidPrevious(before.log, req)
      requires WellFormedEntries(before.log) && WellFormedEntries(req.entries)
      modifies this`entries, this`length, this`cluster, this`clusterIndex, this`commitIndex, entries
      ensures length <= entries.Length && (entries == old(entries) || fresh(entries))
      ensures State() == AppendFromLeader(before, req)
      ensures newEntries == |req.entries| - Matching(before.log, req.prevLogIndex + 1, req.entries)
    {
      newEntries := AppendAll(req, before);
      if req.leaderCommit > commitIndex {
        commitIndex := Min(req.leaderCommit, length - 1);
      }
      AcceptedState(before, req, State(), newEntries);
    }

    /** The part of the handler behind all its checks. */
    method AcceptEntries(req: AppendRequest, ghost before: Node)
      requires Valid() && before == State() && ValidPrevious(before.log, req)
      requires WellFormedEntries(before.log) && WellFormedEntries(req.entries)
      requires Recordable(req.entries)
      modifies this`entries, this`length, this`cluster, this`clusterIndex, this`commitIndex, entries, storage
      ensures Valid() && Current() && State() == AppendFromLeader(before, req)
    {
      var newEntries := SpliceIn(req, before);
      ghost var after := State();
      AcceptedIsFiled(storage.data, before, req, after, newEntries);
      Persist(newEntries != 0, newEntries, after);
      assert State() == after;
    }

    /** Takes over the sender's term and, as a candidate of that term, steps down. */
    method Prepare(req: AppendRequest)
      requires Valid()
      modifies this`currentTerm, this`role, this`cluster, this`pendingConfigChangeIndex, storage
      ensures Valid() && State() == Ready(old(State()), req)
      ensures old(Current()) ==> Current()
    {
      var _ := UpdateTerm(req.term);
      if req.term == currentTerm && role == Candidate {
        role := Follower;
      }
    }

    method HandleAppendEntriesRequest(req: AppendRequest) returns (rsp: AppendResponse)
      requires Valid() && (Accepts(State(), req) ==> Digestible(Log(), req))
      modifies this, entries, storage
      ensures Valid() && (State(), rsp) == HandleAppendRequest(old(State()), req)
      ensures rsp.success || old(Current()) ==> Current()
    {
      AppendRequestSplit(State(), req);
      Prepare(req);
      rsp := AppendResponse(currentTerm, false);
      if role != Follower {
        return;
      }
      if req.term < currentTerm {
        return;
      }
      passive := false;
      var validPreviousLog := req.prevLogIndex == 0
        || (req.prevLogIndex < length && entries[req.prevLogIndex].term == req.prevLogTerm);
      if !validPreviousLog {
        return;
      }
      AcceptEntries(req, State());
      rsp := rsp.(success := true);
    }

    // ---------- Commit and apply ----------

    /** Counts down from a majority the members that hold index `i`. */
    method HeldByMajority(i: nat, ghost n: Node) returns (held: bool)
      requires length <= entries.Length && n == State() && WellFormed(n) && i < length
      ensures held <==> CountAtLeast(Holdings(n), i) >= Quorum(n)
    {
      var quorum := |cluster| / 2 + 1;
      ghost var ms := Holdings(n);
      for j := 0 to |cluster|
        invariant quorum == Max(Quorum(n) - CountAtLeast(ms[..j], i), 0)
      {
        CountPrefix(ms, j, i);
        if quorum == 0 {
          return true;
        }
        CountSnoc(ms, j, i);
        var isLeader := j == clusterIndex;
        if cluster[j].matchIndex >= i || isLeader {
          quorum := quorum - 1;
        }
      }
      assert ms[..|cluster|] == ms;
      return quorum == 0;
    }

    /** The nested countdown: from the last index down to the first one that a majority holds. */
    method SearchCommitIndex(ghost n: Node)
      requires length <= entries.Length && n == State() && WellFormed(n)
      modifies this`commitIndex
      ensures commitIndex == NewCommitIndex(n)
    {
      if role == Leader {
        ghost var ms, q := Holdings(n), Quorum(n);
        var i := length - 1;
        KthLargestInList(ms, q);
        while i > commitIndex
          invariant i < length && commitIndex == n.commitIndex
          invariant KthLargest(ms, q) <= i
        {
          KthLargestIsThreshold(ms, q, i);
          var held := HeldByMajority(i, State());
          if held {
            commitIndex := i;
            return;
          }
          i := i - 1;
        }
      }
    }

    method AdvanceCommitIndex()
      requires Valid() && CanApply(State())
      modifies this`commitIndex, this`lastApplied, this`pendingConfigChangeIndex, this`applied
      ensures Valid() && State() == AdvanceCommit(old(State()))
      ensures old(Current()) ==> Current()
    {
      ghost var before := State();
      SearchCommitIndex(before);
      if lastApplied <= commitIndex {
        var command := entries[lastApplied].command;
        if |command| != 0 {
          if IsConfigChange(command) {
            if pendingConfigChangeIndex == lastApplied {
              pendingConfigChangeIndex := 0;
            }
          } else {
            applied := applied + [command];
          }
        }
        lastApplied := lastApplied + 1;
      }
      SameMembersWellFormed(before, State());
    }

    // ---------- Growing the cluster ----------

    method IsMember(newId: nat) returns (found: bool)
      ensures found <==> newId in Ids(cluster)
    {
      for i := 0 to |cluster|
        invariant forall j :: 0 <= j < i ==> cluster[j].id != newId
      {
        if cluster[i].id == newId {
          assert cluster[i] in cluster;
          return true;
        }
      }
      return false;
    }

    /** The log grows by the config change, and the change takes effect. */
    method AppendNewcomer(newMembers: seq<Member>, payload: seq<byte>, ghost before: Node)
      requires length <= entries.Length && before == State() && WellFormed(before)
      requires payload == ConfigPayload(newMembers)
      modifies this`entries, this`length, this`cluster, this`clusterIndex, this`pendingConfigChangeIndex, entries
      ensures length <= entries.Length && (entries == old(entries) || fresh(entries))
      ensures State() == WithConfigChange(before, newMembers)
    {
      WithConfigChangeNamesSelf(before, newMembers);
      Append(Entry(currentTerm, payload));
      var newIndex := length - 1;
      cluster := MergeClusterConfig(cluster, newMembers, newIndex + 1, id, cluster[clusterIndex].votedFor);
      clusterIndex := ResolveClusterIndex(cluster, id);
      pendingConfigChangeIndex := newIndex;
    }

    /** The part of `AddServer` behind all its checks. */
    method AdoptNewcomer(newMembers: seq<Member>, payload: seq<byte>, ghost before: Node)
      requires Valid() && before == State() && payload == ConfigPayload(newMembers) && |payload| <= COMMAND_LIMIT
      modifies this`entries, this`length, this`cluster, this`clusterIndex, this`pendingConfigChangeIndex
      modifies entries, storage
      ensures Valid() && Current()
      ensures State() == WithConfigChange(before, newMembers)
    {
      AppendNewcomer(newMembers, payload, before);
      ghost var after := State();
      GrownIsFiled(storage.data, before, newMembers, after);
      Persist(true, 1, after);
      assert State() == after;
    }

    method AddServer(newId: nat, address: seq<byte>) returns (outcome: AddOutcome)
      requires Valid()
      modifies this`entries, this`length, this`cluster, this`clusterIndex, this`pendingConfigChangeIndex
      modifies entries, storage
      ensures Valid() && State() == Raft.AddServer(old(State()), newId, address)
      ensures outcome == Added || old(Current()) ==> Current()
      ensures outcome == AddOutcomeOf(old(State()), newId, address)
      ensures outcome != Added ==> State() == old(State()) && storage.data == old(storage.data)
    {
      if newId == 0 {
        return InvalidId;
      }
      if role != Leader {
        return NotLeader;
      }
      if pendingConfigChangeIndex != 0 {
        return ChangeInProgress;
      }
      var found := IsMember(newId);
      if found {
        return AlreadyMember;
      }
      var newMembers := cluster + [Member(newId, address, 0, 0, 0)];
      var payload := EncodeConfigChange(newMembers);
      if payload.Err? {
        return TooLarge;
      }
      PayloadSize(newMembers);
      AdoptNewcomer(newMembers, payload.value, State());
      return Added;
    }

    // ---------- Reading the file back ----------

    /** Reads `count` records into a new log; stops where the original panics. */
    method ReadLog(count: nat) returns (ok: bool)
      modifies this`entries, this`length, storage`pos
      ensures ok <==> ReadRecords(storage.data, 0, count).Some?
      ensures ok ==> length <= entries.Length && fresh(entries) && Log() == ReadRecords(storage.data, 0, count).value
    {
      entries, length := new Entry[0], 0;
      ghost var whole := ReadRecords(storage.data, 0, count);
      assert whole.Some? ==> [] + whole.value == whole.value;
      var _ := storage.Seek(PAGE_SIZE, SeekStart);
      for i := 0 to count
        invariant length <= entries.Length && fresh(entries)
        invariant storage.pos == PAGE_SIZE + ENTRY_SIZE * i
        invariant RecordsRead(storage.data, Log(), i, count, whole)
      {
        ReadOneMore(storage.data, Log(), i, count, whole);
        var entryBytes, eof := storage.Read(ENTRY_SIZE);
        if eof || |entryBytes| != ENTRY_SIZE {
          return false;
        }
        var lenValue := Word(entryBytes[8..16]);
        if lenValue > ENTRY_SIZE - ENTRY_HEADER {
          return false;
        }
        Append(Entry(Word(entryBytes[..8]), entryBytes[16..16 + lenValue]));
      }
      AllRead(storage.data, Log(), count, whole);
      return true;
    }

    method EnsureLog()
      requires length <= entries.Length
      modifies this`entries, this`length, entries
      ensures length <= entries.Length && (entries == old(entries) || fresh(entries))
      ensures Log() == if old(Log()) == [] then [SENTINEL] else old(Log())
    {
      if length == 0 {
        Append(SENTINEL);
      }
    }

    /** The file is empty: nothing was ever persisted, and the server goes on with what it has in memory. */
    method RestoreNothing(ghost before: Node) returns (ok: bool)
      requires length <= entries.Length && id in Ids(base) && clusterIndex < |cluster| && before == State()
      requires storage.data == []
      modifies this`entries, this`length, this`cluster, this`clusterIndex, entries
      ensures ok <==> WellFormedEntries(ImageFor(before, []).value.log)
      ensures ok ==> Sound() && State() == Restored(before, ImageFor(before, []).value)
    {
      ghost var image := ImageFor(before, []).value;
      EnsureLog();
      ok := ConfigsDecode();
      if ok {
        RebuildClusterFromLog(cluster[clusterIndex].votedFor);
        RestoredIs(before, image, State());
      }
    }

    /** Term, vote and log from the file, before the membership is rebuilt. */
    method ReadBackInto(page: seq<byte>) returns (ok: bool)
      requires clusterIndex < |cluster|
      requires |storage.data| >= PAGE_SIZE && page == storage.data[0..PAGE_SIZE]
      modifies this`currentTerm, this`entries, this`length, this`cluster, storage`pos
      ensures ok <==> ReadImage(storage.data).Some?
      ensures ok ==> length <= entries.Length && fresh(entries)
      ensures ok ==> clusterIndex < |cluster|
                     && ReadImage(storage.data) == Some(Image(currentTerm, cluster[clusterIndex].votedFor, Log()))
    {
      HeaderRead(storage.data, page);
      currentTerm := Word(page[..8]);
      cluster := cluster[clusterIndex := cluster[clusterIndex].(votedFor := Word(page[8..16]))];
      var lenLog := Word(page[16..24]);
      ok := ReadLog(lenLog);
      if ok {
        EnsureLog();
      }
    }

    method RestoreFrom(page: seq<byte>, ghost before: Node) returns (ok: bool)
      requires length <= entries.Length && id in Ids(base) && clusterIndex < |cluster| && before == State()
      requires |storage.data| >= PAGE_SIZE && page == storage.data[0..PAGE_SIZE]
      modifies this`currentTerm, this`entries, this`length, this`cluster, this`clusterIndex, storage`pos
      ensures ok <==> ReadImage(storage.data).Some? && WellFormedEntries(ReadImage(storage.data).value.log)
      ensures ok ==> Sound() && State() == Restored(before, ReadImage(storage.data).value)
    {
      ok := ReadBackInto(page);
      if ok {
        ghost var image := Image(currentTerm, cluster[clusterIndex].votedFor, Log());
        ok := ConfigsDecode();
        if ok {
          RebuildClusterFromLog(cluster[clusterIndex].votedFor);
          RestoredIs(before, image, State());
        }
      }
    }

    /** Takes over the file. `ok` is false where the original panics: a header that is cut short, a
        missing or cut record, a command length that leaves its record, or a config change that does
        not decode. A file that was written by a server is taken over into agreement with it. */
    method Restore() returns (ok: bool)
      requires length <= entries.Length && id in Ids(base) && clusterIndex < |cluster|
      modifies this`currentTerm, this`entries, this`length, this`cluster, this`clusterIndex, entries, storage`pos
      ensures var image := ImageFor(old(State()), storage.data);
              && (ok <==> image.Some? && WellFormedEntries(image.value.log))
              && (ok ==> Sound() && State() == Restored(old(State()), image.value))
      ensures ok && Written(storage.data, currentTerm, Log()) ==> Valid()
    {
      ghost var before := State();
      var _ := storage.Seek(0, SeekStart);
      var page, eof := storage.Read(PAGE_SIZE);
      if eof {
        ok := RestoreNothing(before);
      } else if |page| != PAGE_SIZE {
        ok := false;
      } else {
        ok := RestoreFrom(page, before);
      }
      if ok {
        RestoredIsFiled(storage.data, before, State());
      }
    }

    /** Whether the rebuild finds only config changes it can decode. */
    method ConfigsDecode() returns (ok: bool)
      requires length <= entries.Length
      ensures ok <==> WellFormedEntries(Log())
    {
      for i := 0 to length
        invariant forall j :: 0 <= j < i && IsConfigChange(entries[j].command) ==>
                    DecodeConfig(entries[j].command).Some?
      {
        if IsConfigChange(entries[i].command) {
          var incoming := DecodeConfigChange(entries[i].command);
          if incoming.None? {
            assert entries[i] in Log();
            return false;
          }
        }
      }
      return true;
    }
  }

  /** A new server on the file of a valid one comes back as that node, restarted, and is valid again: whatever
      vote the file holds, as soon as a record has been filed. */
  method Reopen(was: Server) returns (s: Server, ok: bool)
    requires was.Valid() && HasRecords(was.storage.data) && Fits64(was.currentTerm, 0, was.Log())
    requires WellFormedEntries(was.Log()) && forall m :: m in was.base ==> m.id != 0
    modifies was.storage`pos
    ensures fresh(s) && s.storage == was.storage && was.Valid()
    ensures ok && s.Valid() && s.State() == Restart(was.State(), NewProcess(false))
  {
    ghost var n := was.State();
    var index := ResolveClusterIndex(was.base, was.id);
    s := new Server(was.base, index, was.storage);
    ghost var m := s.State();
    ghost var vote: nat :| FileAgrees(was.storage.data, n.term, vote, n.log);
    RestoreIsRestart(n, was.storage.data, vote, m);
    FiledImage(was.storage.data, n.term, vote, n.log);
    AgreeingIsWritten(was.storage.data, n.term, vote, n.log);
    ok := s.Restore();
  }

  /** The file has the node's term and log, and some vote. */
  ghost predicate Filed(data: seq<byte>, n: Node) {
    exists vote: nat :: FileAgrees(data, n.term, vote, n.log)
  }

  /** The file has the node's term, log and vote. */
  ghost predicate FiledVote(data: seq<byte>, n: Node) {
    n.self < |n.cluster| && FileAgrees(data, n.term, Vote(n), n.log)
  }

  /** Persisting panics on a command that does not fit a record. */
  ghost predicate CanPersist(n: Node, writeLog: bool, newEntries: nat) {
    n.self < |n.cluster| && Recordable(n.log[FirstWritten(n.log, writeLog, newEntries)..])
  }

  ghost function Persisted(data: seq<byte>, n: Node, writeLog: bool, newEntries: nat): seq<byte>
    requires CanPersist(n, writeLog, newEntries)
  {
    PersistTo(data, n.term, Vote(n), n.log, FirstWritten(n.log, writeLog, newEntries))
  }

  lemma PersistedIs(data: seq<byte>, n: Node, writeLog: bool, newEntries: nat, first: nat, headed: seq<byte>,
                    data': seq<byte>)
    requires CanPersist(n, writeLog, newEntries) && first == FirstWritten(n.log, writeLog, newEntries)
    requires headed == WriteAt(data, 0, HeaderPage(n.term, Vote(n), |n.log|)) && Recordable(n.log[first..])
    requires data' ==
             if first == |n.log| then headed
             else WriteAt(headed, PAGE_SIZE + ENTRY_SIZE * first, Records(Zeros(ENTRY_SIZE), n.log[first..]))
    ensures data' == Persisted(data, n, writeLog, newEntries)
  {
    assert Persisted(data, n, writeLog, newEntries) == PersistTo(data, n.term, Vote(n), n.log, first);
  }

  /** A header written over an agreeing file agrees with a node whose log has not changed. */
  lemma PersistHeader(data: seq<byte>, n: Node, n': Node)
    requires WellFormed(n') && Filed(data, n) && n'.log == n.log
    ensures CanPersist(n', false, 0) && FiledVote(Persisted(data, n', false, 0), n')
  {
    var vote: nat :| FileAgrees(data, n.term, vote, n.log);
    PersistAgrees(data, n.term, vote, n.log, n'.term, Vote(n'), n'.log, |n'.log|, Persisted(data, n', false, 0));
  }

  /** Header and last records written over an agreeing file agree with a node whose log has grown by `count`. */
  lemma PersistTail(data: seq<byte>, n: Node, n': Node, count: nat)
    requires WellFormed(n') && Filed(data, n)
    requires n.log <= n'.log && |n'.log| == |n.log| + count
    requires forall i :: |n.log| <= i < |n'.log| ==> |n'.log[i].command| <= COMMAND_LIMIT
    ensures CanPersist(n', true, count) && FiledVote(Persisted(data, n', true, count), n')
  {
    var vote: nat :| FileAgrees(data, n.term, vote, n.log);
    var first := FirstWritten(n'.log, true, count);
    FiledIsRecordable(data, n.term, vote, n.log);
    assert Recordable(n'.log[first..]);
    PersistAgrees(data, n.term, vote, n.log, n'.term, Vote(n'), n'.log, first, Persisted(data, n', true, count));
  }

  /** What is written so far, and what the reused buffer will still become, add up to `total`. */
  ghost predicate RecordsLeft(written: seq<byte>, buffer: seq<byte>, log: seq<Entry>, i: nat, total: seq<byte>) {
    && i <= |log| && |buffer| == ENTRY_SIZE && Recordable(log[i..])
    && written + Records(buffer, log[i..]) == total
  }

  lemma RecordsStart(buffer: seq<byte>, log: seq<Entry>, first: nat, total: seq<byte>)
    requires first <= |log| && |buffer| == ENTRY_SIZE && Recordable(log[first..])
    requires total == Records(buffer, log[first..])
    ensures RecordsLeft([], buffer, log, first, total)
  {
    assert [] + total == total;
  }

  lemma RecordsEnd(written: seq<byte>, buffer: seq<byte>, log: seq<Entry>, total: seq<byte>)
    requires RecordsLeft(written, buffer, log, |log|, total)
    ensures written == total
  {
    assert log[|log|..] == [] && written + [] == written;
  }

  /** Encoding one more record from the reused buffer. */
  lemma RecordsUnfold(buffer: seq<byte>, log: seq<Entry>, i: nat, written: seq<byte>, total: seq<byte>)
    requires RecordsLeft(written, buffer, log, i, total) && i < |log|
    ensures |log[i].command| <= COMMAND_LIMIT
    ensures RecordsLeft(written + Fill(buffer, log[i]), Fill(buffer, log[i]), log, i + 1, total)
  {
    var rest := log[i..];
    assert rest[0] == log[i] && rest[1..] == log[i + 1..];
    var filled := Fill(buffer, log[i]);
    assert written + (filled + Records(filled, log[i + 1..])) == (written + filled) + Records(filled, log[i + 1..]);
  }

  // ---------- The append loop, step by step ----------

  /** The log after `j` of the sent entries, the first `c` of which it already held. */
  ghost function SplicedBy(log: seq<Entry>, next: nat, es: seq<Entry>, c: nat, j: nat): seq<Entry>
    requires next + c <= |log| && c <= |es| && j <= |es|
  {
    if j <= c then log else log[..next + c] + es[c..j]
  }

  /** The cluster after `j` of the sent entries. */
  ghost function MergedBy(base: seq<Member>, cluster: seq<Member>, log: seq<Entry>, next: nat, es: seq<Entry>, c: nat,
                          j: nat, id: nat, vote: nat): seq<Member>
    requires next + c <= |log| && c <= |es| && j <= |es|
  {
    if j <= c || next + c == |log| then MergeEntries(cluster, es[..j], next, id, vote)
    else MergeEntries(base, log[..next + c] + es[c..j], 0, id, vote)
  }

  /** What one round of the loop does to the log. */
  lemma SpliceProgress(log: seq<Entry>, next: nat, es: seq<Entry>, c: nat, j: nat, now: seq<Entry>)
    requires next <= |log| && c == Matching(log, next, es) && j < |es|
    requires now == SplicedBy(log, next, es, c, j)
    ensures next + j <= |now|
    ensures next + j < |now| && now[next + j].term == es[j].term <==> j < c
    ensures next + j < |now| && j >= c <==> j == c && next + c < |log|
    ensures SplicedBy(log, next, es, c, j + 1) == if j < c then now else now[..next + j] + [es[j]]
    ensures j == c ==> now[..next + j] == log[..next + c]
  {
    MatchingIsExact(log, next, es, j);
    if j >= c {
      assert es[c..j + 1] == es[c..j] + [es[j]];
    }
  }

  /** What one round does to the cluster. */
  lemma MergeProgress(base: seq<Member>, cluster: seq<Member>, log: seq<Entry>, next: nat, es: seq<Entry>, c: nat,
                      j: nat, id: nat, vote: nat)
    requires next + c <= |log| && c <= |es| && j < |es|
    ensures var now := if j == c && next + c < |log| then MergeEntries(base, log[..next + c], 0, id, vote)
                       else MergedBy(base, cluster, log, next, es, c, j, id, vote);
            MergedBy(base, cluster, log, next, es, c, j + 1, id, vote) == MergeEntry(now, es[j], next + j, id, vote)
  {
    if j < c || next + c == |log| {
      MergeOnto(cluster, es, j, next, id, vote);
    } else {
      MergeOne(base, log[..next + c], es, c, j, 0, id, vote);
    }
  }

  lemma MergeOnto(cluster: seq<Member>, es: seq<Entry>, j: nat, next: nat, id: nat, vote: nat)
    requires j < |es|
    ensures MergeEntries(cluster, es[..j + 1], next, id, vote) ==
            MergeEntry(MergeEntries(cluster, es[..j], next, id, vote), es[j], next + j, id, vote)
  {
    MergeSnoc(cluster, es[..j], es[j], es[..j + 1], next, id, vote);
  }

  /** One more of the entries from `c` on, behind `front`. */
  lemma MergeOne(cluster: seq<Member>, front: seq<Entry>, es: seq<Entry>, c: nat, j: nat, from: nat, id: nat, vote: nat)
    requires c <= j < |es|
    ensures c == j ==> front + es[c..j] == front
    ensures MergeEntries(cluster, front + es[c..j + 1], from, id, vote) ==
            MergeEntry(MergeEntries(cluster, front + es[c..j], from, id, vote), es[j], from + |front| + (j - c),
                       id, vote)
  {
    assert es[c..j + 1] == es[c..j] + [es[j]];
    assert front + es[c..j + 1] == (front + es[c..j]) + [es[j]];
    MergeSnoc(cluster, front + es[c..j], es[j], front + es[c..j + 1], from, id, vote);
  }

  /** Where the loop stands after `j` of the sent entries. */
  ghost predicate Progress(base: seq<Member>, cluster: seq<Member>, log: seq<Entry>, next: nat, es: seq<Entry>,
                           c: nat, j: nat, id: nat, vote: nat, now: seq<Entry>, merged: seq<Member>, newEntries: nat) {
    && next + c <= |log| && c <= |es| && j <= |es|
    && now == SplicedBy(log, next, es, c, j)
    && merged == MergedBy(base, cluster, log, next, es, c, j, id, vote)
    && newEntries == if j <= c then 0 else j - c
  }

  lemma LoopStarts(base: seq<Member>, cluster: seq<Member>, log: seq<Entry>, next: nat, es: seq<Entry>, c: nat,
                   id: nat, vote: nat)
    requires next <= |log| && c == Matching(log, next, es)
    ensures Progress(base, cluster, log, next, es, c, 0, id, vote, log, cluster, 0)
  {
  }

  lemma RoundStarts(base: seq<Member>, cluster: seq<Member>, log: seq<Entry>, next: nat, es: seq<Entry>, c: nat, j: nat,
                    id: nat, vote: nat, now: seq<Entry>, merged: seq<Member>, newEntries: nat)
    requires next <= |log| && c == Matching(log, next, es) && j < |es|
    requires Progress(base, cluster, log, next, es, c, j, id, vote, now, merged, newEntries)
    requires WellFormedEntries(log) && WellFormedEntries(es)
    ensures next + j <= |now| && WellFormedEntries(now)
    ensures IsConfigChange(es[j].command) ==> DecodeConfig(es[j].command).Some?
  {
    SpliceProgress(log, next, es, c, j, now);
    assert es[j] in es;
  }

  /** A round that does what `AppendRound` promises moves log and cluster on by one sent entry. */
  lemma RoundEnds(base: seq<Member>, cluster: seq<Member>, log: seq<Entry>, next: nat, es: seq<Entry>, c: nat, j: nat,
                  id: nat, vote: nat, now: seq<Entry>, merged: seq<Member>, newEntries: nat,
                  now': seq<Entry>, merged': seq<Member>, isNew: bool)
    requires next <= |log| && c == Matching(log, next, es) && j < |es|
    requires Progress(base, cluster, log, next, es, c, j, id, vote, now, merged, newEntries)
    requires next + j <= |now|
    requires isNew <==> !(next + j < |now| && now[next + j].term == es[j].term)
    requires now' == if isNew then now[..next + j] + [es[j]] else now
    requires merged' == MergeEntry(if next + j < |now| && isNew then MergeEntries(base, now[..next + j], 0, id, vote)
                                   else merged,
                                   es[j], next + j, id, vote)
    ensures Progress(base, cluster, log, next, es, c, j + 1, id, vote, now', merged',
                     if isNew then newEntries + 1 else newEntries)
  {
    SpliceProgress(log, next, es, c, j, now);
    MergeProgress(base, cluster, log, next, es, c, j, id, vote);
  }

  /** What the append loop leaves behind, as one splice of the log and one update of the cluster. */
  ghost predicate Spliced(n: Node, req: AppendRequest, log: seq<Entry>, cluster: seq<Member>, self: nat,
                          newEntries: nat)
    requires WellFormed(n) && ValidPrevious(n.log, req)
  {
    && log == Splice(n.log, req.prevLogIndex + 1, req.entries)
    && newEntries == |req.entries| - Matching(n.log, req.prevLogIndex + 1, req.entries)
    && cluster == ClusterAfterAppend(n, req)
    && n.id in Ids(cluster) && self == IndexOf(cluster, n.id)
  }

  lemma LoopEnds(n: Node, req: AppendRequest, c: nat, now: seq<Entry>, merged: seq<Member>, newEntries: nat)
    requires WellFormed(n) && ValidPrevious(n.log, req) && c == Matching(n.log, req.prevLogIndex + 1, req.entries)
    requires Progress(n.base, n.cluster, n.log, req.prevLogIndex + 1, req.entries, c, |req.entries|, n.id, Vote(n),
                      now, merged, newEntries)
    ensures now == Splice(n.log, req.prevLogIndex + 1, req.entries) && newEntries == |req.entries| - c
    ensures merged == ClusterAfterAppend(n, req)
  {
    var es := req.entries;
    assert es[..|es|] == es && es[c..|es|] == es[c..];
  }

  /** The records written after a splice are exactly those that changed. */
  lemma PersistSplice(data: seq<byte>, n: Node, req: AppendRequest, n': Node, newEntries: nat)
    requires WellFormed(n) && ValidPrevious(n.log, req) && Filed(data, n)
    requires Recordable(req.entries)
    requires n'.log == Splice(n.log, req.prevLogIndex + 1, req.entries) && n'.self < |n'.cluster|
    requires newEntries == |req.entries| - Matching(n.log, req.prevLogIndex + 1, req.entries)
    ensures CanPersist(n', newEntries != 0, newEntries)
    ensures FiledVote(Persisted(data, n', newEntries != 0, newEntries), n')
  {
    var vote: nat :| FileAgrees(data, n.term, vote, n.log);
    var c := Matching(n.log, req.prevLogIndex + 1, req.entries);
    var keep := if newEntries == 0 then |n.log| else req.prevLogIndex + 1 + c;
    var first := FirstWritten(n'.log, newEntries != 0, newEntries);
    assert first == keep && n'.log[..first] == n.log[..first];
    assert n'.log[first..] == if newEntries == 0 then [] else req.entries[c..];
    PersistAgrees(data, n.term, vote, n.log, n'.term, Vote(n'), n'.log, first,
                  Persisted(data, n', newEntries != 0, newEntries));
  }

  lemma AcceptedIsFiled(data: seq<byte>, n: Node, req: AppendRequest, n': Node, newEntries: nat)
    requires WellFormed(n) && ValidPrevious(n.log, req) && Filed(data, n)
    requires Recordable(req.entries)
    requires n' == AppendFromLeader(n, req)
    requires newEntries == |req.entries| - Matching(n.log, req.prevLogIndex + 1, req.entries)
    ensures WellFormed(n') && CanPersist(n', newEntries != 0, newEntries)
    ensures FiledVote(Persisted(data, n', newEntries != 0, newEntries), n')
  {
    AppendedKnowsItself(n, req);
    PersistSplice(data, n, req, n', newEntries);
  }

  lemma AppendedKnowsItself(n: Node, req: AppendRequest)
    requires WellFormed(n) && ValidPrevious(n.log, req)
    ensures WellFormed(AppendFromLeader(n, req))
    ensures AppendFromLeader(n, req).log == Splice(n.log, req.prevLogIndex + 1, req.entries)
  {
    ClusterAfterAppendNamesSelf(n, req);
  }

  /** Splicing the log, updating the cluster and raising the commit index is the whole step. */
  lemma AcceptedState(n: Node, req: AppendRequest, n': Node, newEntries: nat)
    requires WellFormed(n) && ValidPrevious(n.log, req)
    requires Spliced(n, req, n'.log, n'.cluster, n'.self, newEntries)
    requires n' == n.(log := n'.log, cluster := n'.cluster, self := n'.self,
                      commitIndex := if req.leaderCommit > n.commitIndex then Min(req.leaderCommit, |n'.log| - 1)
                                     else n.commitIndex)
    ensures n' == AppendFromLeader(n, req)
    ensures newEntries == |req.entries| - Matching(n.log, req.prevLogIndex + 1, req.entries)
  {
    ClusterAfterAppendNamesSelf(n, req);
  }

  // ---------- Growing and restoring ----------

  lemma GrownIsFiled(data: seq<byte>, n: Node, members: seq<Member>, n': Node)
    requires WellFormed(n) && Filed(data, n) && n' == WithConfigChange(n, members)
    requires |ConfigPayload(members)| <= COMMAND_LIMIT
    ensures WellFormed(n') && CanPersist(n', true, 1) && FiledVote(Persisted(data, n', true, 1), n')
  {
    WithConfigChangeNamesSelf(n, members);
    PersistTail(data, n, n', 1);
  }

  /** What is read so far, and what is still to be read, add up to `whole`. */
  ghost predicate RecordsRead(data: seq<byte>, log: seq<Entry>, i: nat, count: nat, whole: Option<seq<Entry>>) {
    && i <= count
    && whole == match ReadRecords(data, i, count - i) case None => None case Some(rest) => Some(log + rest)
  }

  lemma ReadOneMore(data: seq<byte>, log: seq<Entry>, i: nat, count: nat, whole: Option<seq<Entry>>)
    requires RecordsRead(data, log, i, count, whole) && i < count
    ensures |data| < PAGE_SIZE + ENTRY_SIZE * (i + 1) ==> whole == None
    ensures |data| >= PAGE_SIZE + ENTRY_SIZE * (i + 1) ==>
              var record := data[PAGE_SIZE + ENTRY_SIZE * i..PAGE_SIZE + ENTRY_SIZE * (i + 1)];
              var len := Word(record[8..16]);
              if len > COMMAND_LIMIT then whole == None
              else RecordsRead(data, log + [Entry(Word(record[..8]), record[16..16 + len])], i + 1, count, whole)
  {
    var rest := ReadRecords(data, i + 1, count - i - 1);
    if |data| >= PAGE_SIZE + ENTRY_SIZE * (i + 1) && rest.Some? {
      var record := data[PAGE_SIZE + ENTRY_SIZE * i..PAGE_SIZE + ENTRY_SIZE * (i + 1)];
      var len := Word(record[8..16]);
      if len <= COMMAND_LIMIT {
        var e := Entry(Word(record[..8]), record[16..16 + len]);
        assert log + ([e] + rest.value) == (log + [e]) + rest.value;
      }
    }
  }

  lemma AllRead(data: seq<byte>, log: seq<Entry>, count: nat, whole: Option<seq<Entry>>)
    requires RecordsRead(data, log, count, count, whole)
    ensures whole == Some(log)
  {
    assert log + [] == log;
  }

  lemma HeaderRead(data: seq<byte>, page: seq<byte>)
    requires |data| >= PAGE_SIZE && page == data[0..PAGE_SIZE]
    ensures var records := ReadRecords(data, 0, Word(page[16..24]));
            if records.None? then ReadImage(data) == None
            else ReadImage(data) == Some(Image(Word(page[..8]), Word(page[8..16]),
                                               if records.value == [] then [SENTINEL] else records.value))
  {
    assert page[..8] == data[..8] && page[8..16] == data[8..16] && page[16..24] == data[16..24];
  }

  lemma RestoredIs(n: Node, image: Image, n': Node)
    requires n.id in Ids(n.base) && n.id in Ids(n'.cluster) && n'.self == IndexOf(n'.cluster, n.id)
    requires n' == n.(term := image.term, log := image.log, cluster := n'.cluster, self := n'.self)
    requires n'.cluster == MergeEntries(n.base, image.log, 0, n.id, image.vote)
    ensures n' == Restored(n, image)
  {
  }

  lemma RestoredIsFiled(data: seq<byte>, n: Node, n': Node)
    requires n.self < |n.cluster| && n.id in Ids(n.base) && ImageFor(n, data).Some?
    requires n' == Restored(n, ImageFor(n, data).value)
    ensures Written(data, n'.term, n'.log) ==> Filed(data, n')
  {
    if Written(data, n'.term, n'.log) {
      WrittenAgrees(n, data, ImageFor(n, data).value);
    }
  }
}
