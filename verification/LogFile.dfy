/** The log file: a header page followed by fixed-size records, of which `persist` rewrites only the
    last few, from one buffer that it never clears. */
module LogFile {
  import opened Types
  import opened LittleEndian
  import opened Membership
  import opened Raft
  import opened NodeMembership
  import opened Storage

  const PAGE_SIZE: nat := 4096
  const ENTRY_HEADER: nat := 16
  const ENTRY_SIZE: nat := 128

  // ---------- Writing ----------

  function HeaderPage(term: nat, vote: nat, length: nat): (page: seq<byte>)
    ensures |page| == PAGE_SIZE
  {
    Put64(term) + Put64(vote) + Put64(length) + Zeros(PAGE_SIZE - 24)
  }

  /** The meaningful start of a record. */
  function RecordPrefix(e: Entry): (r: seq<byte>)
    ensures |r| == ENTRY_HEADER + |e.command|
  {
    Put64(e.term) + Put64(|e.command|) + e.command
  }

  /** The reused buffer after an entry is copied into it: what lies behind the command is left over. */
  function Fill(buffer: seq<byte>, e: Entry): (r: seq<byte>)
    requires |buffer| == ENTRY_SIZE && |e.command| <= COMMAND_LIMIT
    ensures |r| == ENTRY_SIZE && r[..ENTRY_HEADER + |e.command|] == RecordPrefix(e)
  {
    RecordPrefix(e) + buffer[ENTRY_HEADER + |e.command|..]
  }

  /** The records of `es`, written one after the other from one buffer. */
  function Records(buffer: seq<byte>, es: seq<Entry>): (r: seq<byte>)
    requires |buffer| == ENTRY_SIZE && Recordable(es)
    ensures |r| == ENTRY_SIZE * |es|
    decreases es
  {
    if es == [] then []
    else
      var b := Fill(buffer, es[0]);
      b + Records(b, es[1..])
  }

  function FirstWritten(log: seq<Entry>, writeLog: bool, newEntries: nat): (k: nat)
    ensures k <= |log|
  {
    if !writeLog then |log| else if newEntries == 0 then 0 else Max(|log| - newEntries, 0)
  }

  /** The file after `persist`: the header, and the records from `FirstWritten` on. */
  function PersistTo(data: seq<byte>, term: nat, vote: nat, log: seq<Entry>, first: nat): seq<byte>
    requires first <= |log| && Recordable(log[first..])
  {
    var headed := WriteAt(data, 0, HeaderPage(term, vote, |log|));
    if first == |log| then headed
    else WriteAt(headed, PAGE_SIZE + ENTRY_SIZE * first, Records(Zeros(ENTRY_SIZE), log[first..]))
  }

  // ---------- Agreement of file and memory ----------

  ghost predicate RecordAt(data: seq<byte>, k: nat, e: Entry) {
    && PAGE_SIZE + ENTRY_SIZE * (k + 1) <= |data| && |e.command| <= COMMAND_LIMIT
    && data[PAGE_SIZE + ENTRY_SIZE * k..PAGE_SIZE + ENTRY_SIZE * k + ENTRY_HEADER + |e.command|] == RecordPrefix(e)
  }

  ghost predicate HeaderAgrees(data: seq<byte>, term: nat, vote: nat, length: nat) {
    |data| >= PAGE_SIZE && data[..8] == Put64(term) && data[8..16] == Put64(vote) && data[16..24] == Put64(length)
  }

  /** A file that has records, as opposed to only a header. */
  ghost predicate HasRecords(data: seq<byte>) {
    |data| >= PAGE_SIZE + ENTRY_SIZE
  }

  ghost predicate RecordsAgree(data: seq<byte>, log: seq<Entry>) {
    forall k :: 0 <= k < |log| && (k >= 1 || HasRecords(data)) ==> RecordAt(data, k, log[k])
  }

  /** The file and the node's persistent fields say the same. Before the first write the file is
      empty; before the first record is written there is only the header. */
  ghost predicate FileAgrees(data: seq<byte>, term: nat, vote: nat, log: seq<Entry>) {
    && |log| >= 1 && log[0] == SENTINEL
    && (if data == [] then term == 0 && vote == 0 && |log| == 1
        else
          && HeaderAgrees(data, term, vote, |log|)
          && (|data| == PAGE_SIZE || HasRecords(data))
          && RecordsAgree(data, log))
  }

  lemma FiledIsRecordable(data: seq<byte>, term: nat, vote: nat, log: seq<Entry>)
    requires FileAgrees(data, term, vote, log)
    ensures Recordable(log)
  {
    forall i | 0 <= i < |log| ensures |log[i].command| <= COMMAND_LIMIT {
      if i >= 1 {
        assert RecordAt(data, i, log[i]);
      }
    }
  }

  lemma {:induction false} RecordsContent(buffer: seq<byte>, es: seq<Entry>, k: nat)
    requires |buffer| == ENTRY_SIZE && Recordable(es) && k < |es|
    ensures ENTRY_SIZE * (k + 1) <= |Records(buffer, es)|
    ensures Records(buffer, es)[ENTRY_SIZE * k..ENTRY_SIZE * k + ENTRY_HEADER + |es[k].command|] == RecordPrefix(es[k])
    decreases es
  {
    var b := Fill(buffer, es[0]);
    var rest := Records(b, es[1..]);
    if k == 0 {
      assert (b + rest)[..ENTRY_HEADER + |es[0].command|] == b[..ENTRY_HEADER + |es[0].command|];
    } else {
      RecordsContent(b, es[1..], k - 1);
      var from, len := ENTRY_SIZE * (k - 1), ENTRY_HEADER + |es[k].command|;
      BehindFirst(b, rest, from, len);
    }
  }

  /** What lies behind a command in its record is what the record before it left there, and zeros in the first. */
  lemma {:induction false} RecordsLeaveOver(buffer: seq<byte>, es: seq<Entry>, k: nat, j: nat)
    requires |buffer| == ENTRY_SIZE && Recordable(es) && k < |es| && ENTRY_HEADER + |es[k].command| <= j < ENTRY_SIZE
    ensures |Records(buffer, es)| == ENTRY_SIZE * |es|
    ensures Records(buffer, es)[ENTRY_SIZE * k + j] ==
            if k == 0 then buffer[j] else Records(buffer, es)[ENTRY_SIZE * (k - 1) + j]
    decreases es
  {
    var b := Fill(buffer, es[0]);
    var rest := Records(b, es[1..]);
    assert Records(buffer, es) == b + rest;
    if k == 0 {
      assert b[j] == buffer[j];
    } else {
      RecordsLeaveOver(b, es[1..], k - 1, j);
      assert (b + rest)[ENTRY_SIZE * k + j] == rest[ENTRY_SIZE * (k - 1) + j];
      if k > 1 {
        assert (b + rest)[ENTRY_SIZE * (k - 1) + j] == rest[ENTRY_SIZE * (k - 2) + j];
      }
    }
  }

  lemma BehindFirst(b: seq<byte>, rest: seq<byte>, from: nat, len: nat)
    requires from + len <= |rest|
    ensures (b + rest)[|b| + from..|b| + from + len] == rest[from..from + len]
  {
  }

  lemma HeaderLayout(term: nat, vote: nat, length: nat)
    ensures var page := HeaderPage(term, vote, length);
            page[..8] == Put64(term) && page[8..16] == Put64(vote) && page[16..24] == Put64(length)
  {
  }

  lemma HeaderWritten(data: seq<byte>, term: nat, vote: nat, length: nat, page: seq<byte>, r: seq<byte>)
    requires page == HeaderPage(term, vote, length) && r == WriteAt(data, 0, page)
    ensures HeaderAgrees(r, term, vote, length)
  {
    HeaderLayout(term, vote, length);
    assert r[..PAGE_SIZE] == page;
    assert r[..8] == page[..8] && r[8..16] == page[8..16] && r[16..24] == page[16..24];
  }

  /** Where everything is in a file that has been written: term, vote and length in the first 24 bytes, record
      `k` at 4096 plus 128 times `k`, and in it term, length and command. */
  lemma FiledLayout(data: seq<byte>, term: nat, vote: nat, log: seq<Entry>, k: nat)
    requires FileAgrees(data, term, vote, log) && data != [] && 1 <= k < |log|
    ensures |data| >= 4096 && data[0..8] == Put64(term) && data[8..16] == Put64(vote) && data[16..24] == Put64(|log|)
    ensures var at, command := 4096 + 128 * k, log[k].command;
            && at + 128 <= |data| && |command| <= 112
            && data[at..at + 8] == Put64(log[k].term) && data[at + 8..at + 16] == Put64(|command|)
            && data[at + 16..at + 16 + |command|] == command
  {
    assert RecordAt(data, k, log[k]);
    var at, len := 4096 + 128 * k, |log[k].command|;
    var prefix := data[at..at + 16 + len];
    PrefixLayout(prefix, log[k]);
    SliceOfSlice(data, at, 16 + len, 0, 8);
    SliceOfSlice(data, at, 16 + len, 8, 16);
    SliceOfSlice(data, at, 16 + len, 16, 16 + len);
  }

  lemma SliceOfSlice(data: seq<byte>, at: nat, len: nat, from: nat, to: nat)
    requires at + len <= |data| && from <= to <= len
    ensures data[at..at + len][from..to] == data[at + from..at + to]
  {
    var a, b := data[at..at + len][from..to], data[at + from..at + to];
    assert |a| == |b| && forall i :: 0 <= i < |a| ==> a[i] == b[i];
  }

  lemma PrefixLayout(prefix: seq<byte>, e: Entry)
    requires prefix == RecordPrefix(e)
    ensures prefix[..8] == Put64(e.term) && prefix[8..16] == Put64(|e.command|)
    ensures prefix[16..16 + |e.command|] == e.command
  {
  }

  /** A write that does not touch a record leaves it. */
  lemma RecordKept(data: seq<byte>, r: seq<byte>, k: nat, e: Entry)
    requires RecordAt(data, k, e) && |r| >= |data|
    requires forall i :: PAGE_SIZE + ENTRY_SIZE * k <= i < PAGE_SIZE + ENTRY_SIZE * (k + 1) ==> r[i] == data[i]
    ensures RecordAt(r, k, e)
  {
    var from, to := PAGE_SIZE + ENTRY_SIZE * k, PAGE_SIZE + ENTRY_SIZE * k + ENTRY_HEADER + |e.command|;
    assert r[from..to] == data[from..to];
  }

  lemma RecordWritten(headed: seq<byte>, log: seq<Entry>, first: nat, k: nat, r: seq<byte>)
    requires first <= k < |log| && Recordable(log[first..])
    requires r == WriteAt(headed, PAGE_SIZE + ENTRY_SIZE * first, Records(Zeros(ENTRY_SIZE), log[first..]))
    ensures RecordAt(r, k, log[k])
  {
    var j := k - first;
    RecordsContent(Zeros(ENTRY_SIZE), log[first..], j);
    assert log[first..][j] == log[k];
    RecordPlaced(headed, first, Records(Zeros(ENTRY_SIZE), log[first..]), j, log[k], r);
  }

  lemma RecordPlaced(headed: seq<byte>, first: nat, records: seq<byte>, j: nat, e: Entry, r: seq<byte>)
    requires |e.command| <= COMMAND_LIMIT && ENTRY_SIZE * (j + 1) <= |records|
    requires records[ENTRY_SIZE * j..ENTRY_SIZE * j + ENTRY_HEADER + |e.command|] == RecordPrefix(e)
    requires r == WriteAt(headed, PAGE_SIZE + ENTRY_SIZE * first, records)
    ensures RecordAt(r, first + j, e)
  {
    WrittenPart(headed, PAGE_SIZE + ENTRY_SIZE * first, records, ENTRY_SIZE * j, ENTRY_HEADER + |e.command|, r);
    assert PAGE_SIZE + ENTRY_SIZE * first + ENTRY_SIZE * j == PAGE_SIZE + ENTRY_SIZE * (first + j);
  }

  lemma WrittenPart(data: seq<byte>, at: nat, p: seq<byte>, from: nat, len: nat, r: seq<byte>)
    requires r == WriteAt(data, at, p) && from + len <= |p|
    ensures |r| >= at + |p| && r[at + from..at + from + len] == p[from..from + len]
  {
    assert r[at..at + |p|] == p;
    assert r[at + from..at + from + len] == r[at..at + |p|][from..from + len];
  }

  /** The hole before the first written record reads as the sentinel. */
  lemma HoleIsSentinel(r: seq<byte>)
    requires HasRecords(r) && forall i :: PAGE_SIZE <= i < PAGE_SIZE + ENTRY_SIZE ==> r[i] == 0
    ensures RecordAt(r, 0, SENTINEL)
  {
    ZeroBytes(8);
    assert r[PAGE_SIZE..PAGE_SIZE + ENTRY_HEADER] == RecordPrefix(SENTINEL);
  }

  /** Writing the header and the records from `first` on brings the file up to date with a log that
      differs from the filed one only from `first` on. */
  lemma PersistAgrees(data: seq<byte>, term0: nat, vote0: nat, log0: seq<Entry>,
                      term: nat, vote: nat, log: seq<Entry>, first: nat, r: seq<byte>)
    requires FileAgrees(data, term0, vote0, log0)
    requires first <= |log| && first <= |log0| && log[..first] == log0[..first]
    requires |log| >= 1 && log[0] == SENTINEL && Recordable(log[first..])
    requires r == PersistTo(data, term, vote, log, first)
    ensures FileAgrees(r, term, vote, log)
  {
    var headed := WriteAt(data, 0, HeaderPage(term, vote, |log|));
    HeaderWritten(data, term, vote, |log|, HeaderPage(term, vote, |log|), headed);
    assert HeaderAgrees(r, term, vote, |log|) by {
      assert r[..PAGE_SIZE] == headed[..PAGE_SIZE];
      assert r[..8] == headed[..8] && r[8..16] == headed[8..16] && r[16..24] == headed[16..24];
    }
    forall k | 0 <= k < |log| && (k >= 1 || HasRecords(r)) ensures RecordAt(r, k, log[k]) {
      if k >= first {
        RecordWritten(headed, log, first, k, r);
      } else {
        OldRecord(data, term0, vote0, log0, headed, log, first, r, k);
      }
    }
    PersistLength(data, headed, log, first, r);
  }

  /** Writing all records brings any file, whatever it held, into agreement with the log. */
  lemma PersistAllAgrees(data: seq<byte>, term: nat, vote: nat, log: seq<Entry>, r: seq<byte>)
    requires |log| >= 1 && log[0] == SENTINEL && Recordable(log)
    requires r == PersistTo(data, term, vote, log, FirstWritten(log, true, 0))
    ensures FileAgrees(r, term, vote, log)
  {
    var headed := WriteAt(data, 0, HeaderPage(term, vote, |log|));
    HeaderWritten(data, term, vote, |log|, HeaderPage(term, vote, |log|), headed);
    assert HeaderAgrees(r, term, vote, |log|) by {
      assert r[..PAGE_SIZE] == headed[..PAGE_SIZE];
      assert r[..8] == headed[..8] && r[8..16] == headed[8..16] && r[16..24] == headed[16..24];
    }
    assert log[0..] == log;
    forall k | 0 <= k < |log| ensures RecordAt(r, k, log[k]) {
      RecordWritten(headed, log, 0, k, r);
    }
    assert RecordAt(r, 0, log[0]);
  }

  lemma PersistLength(data: seq<byte>, headed: seq<byte>, log: seq<Entry>, first: nat, r: seq<byte>)
    requires data == [] || |data| == PAGE_SIZE || HasRecords(data)
    requires |headed| == Max(|data|, PAGE_SIZE) && first <= |log|
    requires if first == |log| then r == headed
             else |r| == Max(|headed|, PAGE_SIZE + ENTRY_SIZE * first + ENTRY_SIZE * (|log| - first))
    ensures |r| == PAGE_SIZE || HasRecords(r)
  {
  }

  lemma OldRecord(data: seq<byte>, term0: nat, vote0: nat, log0: seq<Entry>, headed: seq<byte>,
                  log: seq<Entry>, first: nat, r: seq<byte>, k: nat)
    requires FileAgrees(data, term0, vote0, log0)
    requires first <= |log| && first <= |log0| && log[..first] == log0[..first] && log0[0] == SENTINEL
    requires |headed| == Max(|data|, PAGE_SIZE) && forall i :: PAGE_SIZE <= i < |data| ==> headed[i] == data[i]
    requires |r| >= |headed|
    requires forall i :: PAGE_SIZE <= i < PAGE_SIZE + ENTRY_SIZE * first && i < |headed| ==> r[i] == headed[i]
    requires forall i :: |headed| <= i < PAGE_SIZE + ENTRY_SIZE * first && i < |r| ==> r[i] == 0
    requires k < first && (k >= 1 || HasRecords(r))
    ensures RecordAt(r, k, log[k])
  {
    assert log[k] == log[..first][k] == log0[k];
    if data != [] && (k >= 1 || HasRecords(data)) {
      assert RecordAt(data, k, log0[k]);
      RecordKept(data, r, k, log0[k]);
    } else {
      HoleIsSentinel(r);
    }
  }

  // ---------- Reading back ----------

  /** Reads `count` records starting with record `k`; None where the original panics: at the end of
      the file, in the middle of a record, or on a command length that leaves the record. */
  function ReadRecords(data: seq<byte>, k: nat, count: nat): Option<seq<Entry>>
    decreases count
  {
    if count == 0 then Some([])
    else if |data| < PAGE_SIZE + ENTRY_SIZE * (k + 1) then None
    else
      var record := data[PAGE_SIZE + ENTRY_SIZE * k..PAGE_SIZE + ENTRY_SIZE * (k + 1)];
      var len := Word(record[8..16]);
      if len > COMMAND_LIMIT then None
      else
        match ReadRecords(data, k + 1, count - 1)
        case None => None
        case Some(rest) => Some([Entry(Word(record[..8]), record[16..16 + len])] + rest)
  }

  datatype Image = Image(term: nat, vote: nat, log: seq<Entry>)

  /** What `restore` reads; the whole log, where `persist` wrote piecemeal. */
  function ReadImage(data: seq<byte>): Option<Image> {
    if data == [] then Some(Image(0, 0, [SENTINEL]))
    else if |data| < PAGE_SIZE then None
    else
      match ReadRecords(data, 0, Word(data[16..24]))
      case None => None
      case Some(log) => Some(Image(Word(data[..8]), Word(data[8..16]), if log == [] then [SENTINEL] else log))
  }

  /** The numbers fit the file's 64-bit words. */
  ghost predicate Fits64(term: nat, vote: nat, log: seq<Entry>) {
    term < TWO_64 && vote < TWO_64 && |log| < TWO_64 && forall i :: 0 <= i < |log| ==> log[i].term < TWO_64
  }

  lemma RecordDecodes(data: seq<byte>, k: nat, e: Entry, record: seq<byte>)
    requires RecordAt(data, k, e) && e.term < TWO_64
    requires record == data[PAGE_SIZE + ENTRY_SIZE * k..PAGE_SIZE + ENTRY_SIZE * (k + 1)]
    ensures Word(record[..8]) == e.term && Word(record[8..16]) == |e.command|
    ensures record[16..16 + |e.command|] == e.command
  {
    var prefix := RecordPrefix(e);
    assert record[..ENTRY_HEADER + |e.command|] == prefix;
    assert prefix[..8] == Put64(e.term) && prefix[8..16] == Put64(|e.command|);
    assert prefix[16..16 + |e.command|] == e.command;
    assert record[..8] == prefix[..8] && record[8..16] == prefix[8..16];
    assert record[16..16 + |e.command|] == prefix[16..16 + |e.command|];
    Word64RoundTrip(e.term);
    Word64RoundTrip(|e.command|);
  }

  lemma {:induction false} RecordsDecode(data: seq<byte>, log: seq<Entry>, k: nat)
    requires k <= |log| && forall j :: k <= j < |log| ==> RecordAt(data, j, log[j]) && log[j].term < TWO_64
    ensures ReadRecords(data, k, |log| - k) == Some(log[k..])
    decreases |log| - k
  {
    if k < |log| {
      var e := log[k];
      var record := data[PAGE_SIZE + ENTRY_SIZE * k..PAGE_SIZE + ENTRY_SIZE * (k + 1)];
      RecordDecodes(data, k, e, record);
      RecordsDecode(data, log, k + 1);
      assert log[k..] == [e] + log[k + 1..];
    }
  }

  /** A file that agrees with memory is read back exactly if and only if it is empty or holds
      records; a header without a record cannot be read back at all. */
  lemma ReadBack(data: seq<byte>, term: nat, vote: nat, log: seq<Entry>)
    requires FileAgrees(data, term, vote, log) && Fits64(term, vote, log)
    ensures data == [] || HasRecords(data) ==> ReadImage(data) == Some(Image(term, vote, log))
    ensures !(data == [] || HasRecords(data)) ==> ReadImage(data) == None
  {
    if data == [] {
      assert log == [SENTINEL];
    } else {
      Word64RoundTrip(term);
      Word64RoundTrip(vote);
      Word64RoundTrip(|log|);
      if HasRecords(data) {
        RecordsDecode(data, log, 0);
        assert log[0..] == log;
      }
    }
  }

  // ---------- What can be read agrees with what is read ----------

  lemma WordAgrees(bs: seq<byte>)
    requires |bs| == 8
    ensures Put64(Word(bs)) == bs
  {
    BytesOfWord(bs);
    assert Bytes(Word(bs), 8) == bs;
  }

  lemma RecordReads(data: seq<byte>, k: nat, record: seq<byte>, len: nat)
    requires PAGE_SIZE + ENTRY_SIZE * (k + 1) <= |data|
    requires record == data[PAGE_SIZE + ENTRY_SIZE * k..PAGE_SIZE + ENTRY_SIZE * (k + 1)]
    requires len == Word(record[8..16]) <= COMMAND_LIMIT
    ensures RecordAt(data, k, Entry(Word(record[..8]), record[16..16 + len]))
  {
    var term, size, command := record[..8], record[8..16], record[16..16 + len];
    var e := Entry(Word(term), command);
    WordAgrees(term);
    WordAgrees(size);
    assert |command| == len;
    assert Put64(e.term) == term && Put64(|e.command|) == size;
    assert RecordPrefix(e) == term + size + command;
    assert term + size + command == record[..ENTRY_HEADER + len];
    var from := PAGE_SIZE + ENTRY_SIZE * k;
    assert data[from..from + ENTRY_HEADER + len] == record[..ENTRY_HEADER + len];
  }

  lemma {:induction false} RecordsReadAgree(data: seq<byte>, k: nat, count: nat, j: nat)
    requires ReadRecords(data, k, count).Some? && j < count
    ensures |ReadRecords(data, k, count).value| == count
    ensures RecordAt(data, k + j, ReadRecords(data, k, count).value[j])
    decreases count
  {
    var record := data[PAGE_SIZE + ENTRY_SIZE * k..PAGE_SIZE + ENTRY_SIZE * (k + 1)];
    if j == 0 {
      RecordReads(data, k, record, Word(record[8..16]));
    }
    if count > 1 {
      RecordsReadAgree(data, k + 1, count - 1, if j == 0 then 0 else j - 1);
    } else {
      assert ReadRecords(data, k + 1, 0) == Some([]);
    }
  }

  /** Whatever a nonempty file holds, if it can be read as at least one record, the first of them the
      sentinel, then file and reading agree. */
  lemma ImageAgrees(data: seq<byte>, image: Image)
    requires data != [] && ReadImage(data) == Some(image) && Word(data[16..24]) >= 1 && image.log[0] == SENTINEL
    ensures FileAgrees(data, image.term, image.vote, image.log)
  {
    var count := Word(data[16..24]);
    forall j: nat | j < count ensures |image.log| == count && RecordAt(data, j, image.log[j]) {
      RecordsReadAgree(data, 0, count, j);
    }
    WordAgrees(data[..8]);
    WordAgrees(data[8..16]);
    WordAgrees(data[16..24]);
    assert RecordAt(data, 0, image.log[0]);
  }

  // ---------- Restoring a node ----------

  /** What a node restores: the file, or on an empty file what it has in memory, at least the sentinel. */
  function ImageFor(n: Node, data: seq<byte>): Option<Image>
    requires n.self < |n.cluster|
  {
    if data == [] then Some(Image(n.term, Vote(n), if n.log == [] then [SENTINEL] else n.log)) else ReadImage(data)
  }

  /** A file such as a server leaves behind, next to the term and log that it reads as. */
  ghost predicate Written(data: seq<byte>, term: nat, log: seq<Entry>) {
    && |log| >= 1 && log[0] == SENTINEL
    && if data == [] then term == 0 && |log| == 1 else |data| >= PAGE_SIZE && Word(data[16..24]) >= 1
  }

  lemma WrittenAgrees(n: Node, data: seq<byte>, image: Image)
    requires n.self < |n.cluster| && ImageFor(n, data) == Some(image) && Written(data, image.term, image.log)
    ensures FileAgrees(data, image.term, if data == [] then 0 else image.vote, image.log)
  {
    if data != [] {
      ImageAgrees(data, image);
    }
  }

  lemma AgreeingIsWritten(data: seq<byte>, term: nat, vote: nat, log: seq<Entry>)
    requires FileAgrees(data, term, vote, log) && |log| < TWO_64
    ensures Written(data, term, log)
  {
    Word64RoundTrip(|log|);
  }

  /** The node after `restore`: term and log from the image, membership rebuilt from the log. */
  function Restored(n: Node, image: Image): Node
    requires n.id in Ids(n.base)
  {
    RebuildNamesSelf(n, image.log, image.vote);
    var cluster := Rebuild(n, image.log, image.vote);
    n.(term := image.term, log := image.log, cluster := cluster, self := IndexOf(cluster, n.id))
  }

  /** Once a record has been written, a server with the same founding members restores the same term,
      log, and member ids and addresses; but whatever vote the file holds, the node's own vote is
      again the founding one. So restored memory and file agree if and only if those votes are equal. */
  lemma RestoreRecovers(n: Node, data: seq<byte>, vote: nat, m: Node)
    requires ConfigOk(n) && FileAgrees(data, n.term, vote, n.log) && Fits64(n.term, vote, n.log)
    requires HasRecords(data) && m.id == n.id && m.base == n.base
    requires forall b :: b in m.base ==> b.votedFor < TWO_64
    ensures ReadImage(data).Some?
    ensures var r := Restored(m, ReadImage(data).value);
            && r.term == n.term && r.log == n.log && Roster(r.cluster) == Roster(n.cluster)
            && r.self == IndexOf(n.base, n.id) && r.cluster[r.self] == n.base[r.self]
            && (FileAgrees(data, r.term, Vote(r), r.log) <==> Vote(r) == vote)
  {
    ReadBack(data, n.term, vote, n.log);
    MergeEntriesRoster(n.base, n.base, n.log, 0, 0, n.id, 0, vote, 0);
    RebuildNamesSelf(m, n.log, vote);
    var r := Restored(m, ReadImage(data).value);
    assert r.cluster[r.self] in m.base;
    Word64RoundTrip(vote);
    Word64RoundTrip(Vote(r));
  }

  /** The term and the log are read back whatever vote the file holds. */
  lemma FiledImage(data: seq<byte>, term: nat, vote: nat, log: seq<Entry>)
    requires FileAgrees(data, term, vote, log) && HasRecords(data) && Fits64(term, 0, log)
    ensures ReadImage(data).Some? && ReadImage(data).value.term == term && ReadImage(data).value.log == log
  {
    var filed := Word(Put64(vote));
    WordAgrees(Put64(vote));
    WordBound(Put64(vote));
    assert FileAgrees(data, term, filed, log);
    ReadBack(data, term, filed, log);
  }

  /** A node just constructed, before it reads its file. */
  ghost predicate Constructed(m: Node) {
    && m.cluster == m.base && m.term == 0 && m.log == [] && m.role == Follower
    && m.commitIndex == 0 && m.lastApplied == 0 && m.pending == 0 && m.applied == []
  }

  /** A new server that reads a file agreeing with a node is that node, started again in a new process; and
      one that stops and starts on the same object is that node, started again on it. */
  lemma RestoreIsRestart(n: Node, data: seq<byte>, vote: nat, m: Node)
    requires n.id in Ids(n.base) && FileAgrees(data, n.term, vote, n.log) && Fits64(n.term, 0, n.log)
    requires HasRecords(data) && m.id == n.id && m.base == n.base
    ensures ReadImage(data).Some?
    ensures Constructed(m) ==> Restored(m, ReadImage(data).value) == Restart(n, NewProcess(m.passive))
    ensures m == n.(role := Follower) ==> Restored(m, ReadImage(data).value) == Restart(n, SameObject)
  {
    FiledImage(data, n.term, vote, n.log);
    RebuildIgnoresVote(n, n.log, ReadImage(data).value.vote, 0);
  }

  /** The vote handed to a rebuild makes no difference: a node is always among its founding members. */
  lemma RebuildIgnoresVote(n: Node, log: seq<Entry>, v: nat, w: nat)
    requires n.id in Ids(n.base)
    ensures Rebuild(n, log, v) == Rebuild(n, log, w)
  {
    FoldIgnoresVote(n.base, log, 0, n.id, v, w);
  }

  lemma {:induction false} FoldIgnoresVote(cluster: seq<Member>, es: seq<Entry>, from: nat, selfId: nat, v: nat, w: nat)
    requires selfId in Ids(cluster)
    ensures MergeEntries(cluster, es, from, selfId, v) == MergeEntries(cluster, es, from, selfId, w)
  {
    if es != [] {
      var front, e := es[..|es| - 1], es[|es| - 1];
      assert es == front + [e];
      FoldIgnoresVote(cluster, front, from, selfId, v, w);
      MergeSnoc(cluster, front, e, es, from, selfId, v);
      MergeSnoc(cluster, front, e, es, from, selfId, w);
      var before := MergeEntries(cluster, front, from, selfId, v);
      MergeEntriesGrows(cluster, front, from, selfId, v);
      IndexOfPrefix(cluster, before, selfId);
      UnknownIgnoresVote(Ids(before), Incoming(e.command), from + |front| + 1, selfId, v, w);
    }
  }

  lemma {:induction false} UnknownIgnoresVote(known: set<nat>, incoming: seq<Member>, next: nat, selfId: nat, v: nat,
                                              w: nat)
    requires selfId in known
    ensures Unknown(known, incoming, next, selfId, v) == Unknown(known, incoming, next, selfId, w)
  {
    if incoming != [] {
      UnknownIgnoresVote(known, incoming[1..], next, selfId, v, w);
    }
  }

  /** A fresh server that finds an empty file starts out in agreement with it exactly if its founding
      configuration does not already carry a vote of its own. */
  lemma RestoreEmpty(m: Node)
    requires m.id in Ids(m.base) && m.self < |m.cluster| && m.term == 0 && m.log == []
    ensures ImageFor(m, []).Some?
    ensures var r := Restored(m, ImageFor(m, []).value);
            && r.term == 0 && r.log == [SENTINEL] && r.cluster == m.base
            && (FileAgrees([], r.term, Vote(r), r.log) <==> m.base[IndexOf(m.base, m.id)].votedFor == 0)
  {
    MergeNoConfig(m.base, [SENTINEL], 0, m.id, Vote(m));
  }
}
