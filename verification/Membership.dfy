/** Cluster membership: the config-change command, and the merge that a node applies for each
    such command in its log. */
module Membership {
  import opened Types
  import opened LittleEndian

  const CONFIG_MARKER: byte := 0xFF
  const COMMAND_LIMIT: nat := 112

  function IsConfigChange(command: seq<byte>): bool {
    |command| > 0 && command[0] == CONFIG_MARKER
  }

  // ---------- The config-change command ----------

  function EncodeMember(m: Member): seq<byte> {
    Put64(m.id) + [|m.address| % 256] + m.address
  }

  function EncodeMembers(ms: seq<Member>): seq<byte> {
    if ms == [] then [] else EncodeMember(ms[0]) + EncodeMembers(ms[1..])
  }

  function ConfigPayload(ms: seq<Member>): seq<byte> {
    [CONFIG_MARKER, |ms| % 256] + EncodeMembers(ms)
  }

  function EncodedSize(ms: seq<Member>): nat {
    if ms == [] then 0 else 9 + |ms[0].address| + EncodedSize(ms[1..])
  }

  /** Whether a config-change command for `ms` fits a log record. */
  predicate Encodable(ms: seq<Member>) {
    2 + EncodedSize(ms) <= COMMAND_LIMIT
  }

  /** Reads `count` members; None where the original indexes or slices out of range. */
  function DecodeMembers(bs: seq<byte>, count: nat): Option<seq<Member>> {
    if count == 0 then Some([])
    else if |bs| < 9 then None
    else
      var end: nat := 9 + bs[8] as nat;
      if |bs| < end then None
      else
        match DecodeMembers(bs[end..], count - 1)
        case None => None
        case Some(rest) => Some([Member(Word(bs[..8]), bs[9..end], 0, 0, 0)] + rest)
  }

  function DecodeConfig(command: seq<byte>): Option<seq<Member>> {
    if |command| < 2 || command[0] != CONFIG_MARKER then None
    else DecodeMembers(command[2..], command[1])
  }

  /** What a config-change command carries: ids and addresses, no bookkeeping. */
  function Plain(ms: seq<Member>): (r: seq<Member>)
    ensures |r| == |ms|
    ensures forall i :: 0 <= i < |ms| ==> r[i] == Member(ms[i].id, ms[i].address, 0, 0, 0)
  {
    if ms == [] then [] else [Member(ms[0].id, ms[0].address, 0, 0, 0)] + Plain(ms[1..])
  }

  lemma {:induction false} EncodedLength(ms: seq<Member>)
    ensures |EncodeMembers(ms)| == EncodedSize(ms)
    ensures EncodedSize(ms) >= 9 * |ms|
    ensures forall m :: m in ms ==> |m.address| + 9 <= EncodedSize(ms)
  {
    if ms != [] {
      EncodedLength(ms[1..]);
      assert forall m :: m in ms ==> m == ms[0] || m in ms[1..];
    }
  }

  lemma {:induction false} EncodeSnoc(ms: seq<Member>, m: Member)
    ensures EncodeMembers(ms + [m]) == EncodeMembers(ms) + EncodeMember(m)
    ensures EncodedSize(ms + [m]) == EncodedSize(ms) + 9 + |m.address|
  {
    if ms != [] {
      EncodeSnoc(ms[1..], m);
      assert (ms + [m])[1..] == ms[1..] + [m];
    } else {
      assert EncodeMembers(ms + [m]) == EncodeMember(m) + EncodeMembers([]);
    }
  }

  lemma {:induction false} DecodedNarrow(bs: seq<byte>, count: nat)
    requires DecodeMembers(bs, count).Some?
    ensures forall m :: m in DecodeMembers(bs, count).value ==> m.id < TWO_64
    decreases count
  {
    if count > 0 {
      var end: nat := 9 + bs[8] as nat;
      DecodedNarrow(bs[end..], count - 1);
      WordBound(bs[..8]);
    }
  }

  lemma MemberLayout(m: Member, tail: seq<byte>)
    requires |m.address| < 256
    ensures var bs := EncodeMember(m) + tail;
            && |bs| >= 9 + |m.address|
            && bs[..8] == Put64(m.id) && bs[8] == |m.address|
            && bs[9..9 + |m.address|] == m.address && bs[9 + |m.address|..] == tail
  {
  }

  lemma {:induction false} MembersRoundTrip(ms: seq<Member>, rest: seq<byte>)
    requires forall m :: m in ms ==> m.id < TWO_64 && |m.address| < 256
    ensures DecodeMembers(EncodeMembers(ms) + rest, |ms|) == Some(Plain(ms))
  {
    if ms == [] {
      assert EncodeMembers(ms) + rest == rest;
    } else {
      var m, tail := ms[0], EncodeMembers(ms[1..]) + rest;
      assert EncodeMembers(ms) + rest == EncodeMember(m) + tail;
      MemberLayout(m, tail);
      Word64RoundTrip(m.id);
      MembersRoundTrip(ms[1..], rest);
    }
  }

  /** A member list that fits is recovered, in order, from its config-change command. */
  lemma ConfigRoundTrip(ms: seq<Member>)
    requires Encodable(ms)
    requires forall m :: m in ms ==> m.id < TWO_64
    ensures IsConfigChange(ConfigPayload(ms))
    ensures |ConfigPayload(ms)| == 2 + EncodedSize(ms)
    ensures DecodeConfig(ConfigPayload(ms)) == Some(Plain(ms))
  {
    EncodedLength(ms);
    var body := EncodeMembers(ms);
    MembersRoundTrip(ms, []);
    assert body + [] == body;
    PayloadLayout(ms, body);
  }

  /** The first byte alone decides whether a command is taken for a config change; one that is may still not
      decode, and the original panics on it. */
  lemma MarkerDecides(command: seq<byte>, rest: seq<byte>)
    ensures IsConfigChange([0xFF] + rest) && !IsConfigChange([])
    ensures command != [] && command[0] != 0xFF ==> !IsConfigChange(command)
    ensures DecodeConfig([0xFF]) == None
  {
  }

  /** A command decodes to a list if and only if it starts with that list's encoding. */
  lemma {:induction false} DecodesIffStarts(command: seq<byte>, ms: seq<Member>)
    requires |ms| < 256 && forall m :: m in ms ==> m.id < TWO_64 && |m.address| < 256
    ensures DecodeConfig(command) == Some(Plain(ms)) <==> ConfigPayload(ms) <= command
  {
    if ConfigPayload(ms) <= command {
      StartsDecodes(command, ms, EncodeMembers(ms));
    }
    if DecodeConfig(command) == Some(Plain(ms)) {
      DecodesStarts(command, ms, EncodeMembers(ms));
    }
  }

  lemma {:induction false} StartsDecodes(command: seq<byte>, ms: seq<Member>, body: seq<byte>)
    requires |ms| < 256 && forall m :: m in ms ==> m.id < TWO_64 && |m.address| < 256
    requires body == EncodeMembers(ms) && [CONFIG_MARKER, |ms|] + body <= command
    ensures DecodeConfig(command) == Some(Plain(ms))
  {
    var rest := command[2 + |body|..];
    assert command == ([CONFIG_MARKER, |ms|] + body) + rest;
    assert command[2..] == body + rest;
    MembersRoundTrip(ms, rest);
  }

  lemma {:induction false} DecodesStarts(command: seq<byte>, ms: seq<Member>, body: seq<byte>)
    requires DecodeConfig(command) == Some(Plain(ms)) && body == EncodeMembers(ms)
    ensures |ms| < 256 && [CONFIG_MARKER, |ms|] + body <= command
  {
    DecodedStarts(command[2..], command[1]);
    EncodePlain(ms);
    assert command[..2] == [CONFIG_MARKER, |ms|];
    Prefixed(command, command[..2], body);
  }

  lemma Prefixed(whole: seq<byte>, head: seq<byte>, body: seq<byte>)
    requires head <= whole && body <= whole[|head|..]
    ensures head + body <= whole
  {
    assert whole == head + whole[|head|..];
  }

  lemma {:induction false} EncodePlain(ms: seq<Member>)
    ensures EncodeMembers(Plain(ms)) == EncodeMembers(ms)
  {
    if ms != [] {
      assert Plain(ms)[1..] == Plain(ms[1..]);
      EncodePlain(ms[1..]);
    }
  }

  lemma {:induction false} DecodedStarts(bs: seq<byte>, count: nat)
    requires DecodeMembers(bs, count).Some?
    ensures |DecodeMembers(bs, count).value| == count
    ensures EncodeMembers(DecodeMembers(bs, count).value) <= bs
    decreases count
  {
    if count > 0 {
      var end: nat := 9 + bs[8] as nat;
      DecodedStarts(bs[end..], count - 1);
      var m := Member(Word(bs[..8]), bs[9..end], 0, 0, 0);
      var rest := DecodeMembers(bs[end..], count - 1).value;
      assert DecodeMembers(bs, count).value == [m] + rest;
      BytesOfWord(bs[..8]);
      assert Put64(m.id) == bs[..8];
      assert EncodeMember(m) == bs[..end];
      assert EncodeMembers([m] + rest) == EncodeMember(m) + EncodeMembers(rest);
    }
  }

  lemma PayloadLayout(ms: seq<Member>, body: seq<byte>)
    requires body == EncodeMembers(ms) && |ms| < 256
    ensures var payload := ConfigPayload(ms);
            |payload| == 2 + |body| && payload[0] == CONFIG_MARKER && payload[1] == |ms| && payload[2..] == body
  {
  }

  lemma {:induction false} EncodeConcat(a: seq<Member>, b: seq<Member>)
    ensures EncodeMembers(a + b) == EncodeMembers(a) + EncodeMembers(b)
  {
    if b == [] {
      assert a + b == a;
    } else {
      var k := |b| - 1;
      EncodeConcat(a, b[..k]);
      EncodeBoth(a, b[..k], b[k]);
      assert b == b[..k] + [b[k]];
    }
  }

  lemma EncodeBoth(a: seq<Member>, b: seq<Member>, m: Member)
    ensures EncodeMembers(a + (b + [m])) == EncodeMembers(a + b) + EncodeMember(m)
    ensures EncodeMembers(b + [m]) == EncodeMembers(b) + EncodeMember(m)
  {
    EncodeSnoc(a + b, m);
    EncodeSnoc(b, m);
    assert a + (b + [m]) == (a + b) + [m];
  }

  /** The bytes of a config change: the marker, the number of members, and member `k` behind those before it,
      as eight bytes of id, one of length, and the address. */
  lemma ConfigLayout(ms: seq<Member>, k: nat)
    requires |ms| < 256 && k < |ms| && |ms[k].address| < 256
    ensures var payload, at, len := ConfigPayload(ms), 2 + EncodedSize(ms[..k]), |ms[k].address|;
            && at + 9 + len <= |payload| && payload[0] == 0xFF && payload[1] == |ms|
            && payload[at..at + 8] == Put64(ms[k].id) && payload[at + 8] == len
            && payload[at + 9..at + 9 + len] == ms[k].address
  {
    var front, m, tail := EncodeMembers(ms[..k]), ms[k], EncodeMembers(ms[k + 1..]);
    assert ms == ms[..k] + ([m] + ms[k + 1..]);
    EncodeConcat(ms[..k], [m] + ms[k + 1..]);
    assert EncodeMembers([m] + ms[k + 1..]) == EncodeMember(m) + tail;
    PayloadLayout(ms, EncodeMembers(ms));
    MemberLayout(m, tail);
    EncodedLength(ms[..k]);
    MemberBehind(ConfigPayload(ms), [CONFIG_MARKER, |ms|] + front, EncodeMember(m) + tail, m);
  }

  lemma MemberBehind(payload: seq<byte>, front: seq<byte>, rest: seq<byte>, m: Member)
    requires payload == front + rest && |rest| >= 9 + |m.address| && rest[..8] == Put64(m.id)
    requires rest[8] == |m.address| && rest[9..9 + |m.address|] == m.address
    ensures var at, len := |front|, |m.address|;
            && at + 9 + len <= |payload| && payload[at..at + 8] == Put64(m.id) && payload[at + 8] == len
            && payload[at + 9..at + 9 + len] == m.address
  {
    assert payload[|front|..] == rest;
    assert payload[|front|..|front| + 8] == rest[..8];
    assert payload[|front| + 9..|front| + 9 + |m.address|] == rest[9..9 + |m.address|];
  }

  lemma PayloadSize(ms: seq<Member>)
    requires Encodable(ms)
    ensures |ConfigPayload(ms)| <= COMMAND_LIMIT
  {
    EncodedLength(ms);
    PayloadLayout(ms, EncodeMembers(ms));
  }

  lemma EncodeNext(ms: seq<Member>, i: nat, head: seq<byte>, buf: seq<byte>)
    requires i < |ms| && |ms[i].address| < 256 && buf == head + EncodeMembers(ms[..i])
    ensures (buf + (Put64(ms[i].id) + [|ms[i].address|])) + ms[i].address == head + EncodeMembers(ms[..i + 1])
  {
    EncodeSnoc(ms[..i], ms[i]);
    assert ms[..i + 1] == ms[..i] + [ms[i]];
  }

  method EncodeConfigChange(members: seq<Member>) returns (r: Result<seq<byte>>)
    ensures r.Ok? <==> 2 + EncodedSize(members) <= COMMAND_LIMIT
    ensures r.Ok? ==> r.value == ConfigPayload(members)
  {
    EncodedLength(members);
    if |members| > 255 {
      return Err;
    }
    var buf: seq<byte> := [CONFIG_MARKER, |members|];
    for i := 0 to |members|
      invariant buf == [CONFIG_MARKER, |members|] + EncodeMembers(members[..i])
    {
      var m := members[i];
      if |m.address| > 255 {
        assert m in members;
        return Err;
      }
      EncodeNext(members, i, [CONFIG_MARKER, |members|], buf);
      buf := buf + (Put64(m.id) + [|m.address|]);
      buf := buf + m.address;
    }
    assert members[..|members|] == members;
    if |buf| > COMMAND_LIMIT {
      return Err;
    }
    return Ok(buf);
  }

  /** Decoding `count` members at a position. */
  function DecodeFrom(command: seq<byte>, pos: nat, count: nat): Option<seq<Member>>
    requires pos <= |command|
  {
    DecodeMembers(command[pos..], count)
  }

  /** Decoding one member at a position, and the rest behind it. */
  lemma DecodeAt(command: seq<byte>, pos: nat, count: nat)
    requires pos <= |command| && count > 0
    ensures |command| < pos + 9 ==> DecodeFrom(command, pos, count) == None
    ensures pos + 9 <= |command| ==>
              var end: nat := pos + 9 + command[pos + 8] as nat;
              if |command| < end then DecodeFrom(command, pos, count) == None
              else DecodeFrom(command, pos, count) ==
                   Prepend([Member(Word(command[pos..pos + 8]), command[pos + 9..end], 0, 0, 0)],
                           DecodeFrom(command, end, count - 1))
  {
    var bs := command[pos..];
    if pos + 9 <= |command| {
      var len := bs[8];
      assert bs[..8] == command[pos..pos + 8];
      if pos + 9 + len <= |command| {
        assert bs[9..9 + len] == command[pos + 9..pos + 9 + len];
        assert bs[9 + len..] == command[pos + 9 + len..];
      }
    }
  }

  function Prepend(front: seq<Member>, rest: Option<seq<Member>>): Option<seq<Member>> {
    if rest.None? then None else Some(front + rest.value)
  }

  lemma PrependTwice(a: seq<Member>, b: seq<Member>, rest: Option<seq<Member>>)
    ensures Prepend(a, Prepend(b, rest)) == Prepend(a + b, rest)
  {
    if rest.Some? {
      assert a + (b + rest.value) == (a + b) + rest.value;
    }
  }

  /** The decoding loop with its moving position; None where the original panics. */
  method DecodeConfigChange(command: seq<byte>) returns (r: Option<seq<Member>>)
    ensures r == DecodeConfig(command)
  {
    if |command| < 2 || command[0] != CONFIG_MARKER {
      return None;
    }
    var count := command[1];
    var members: seq<Member> := [];
    var pos := 2;
    ghost var whole := DecodeFrom(command, 2, count);
    assert whole == Prepend([], whole) by { assert whole.Some? ==> [] + whole.value == whole.value; }
    for i := 0 to count
      invariant 2 <= pos <= |command|
      invariant whole == Prepend(members, DecodeFrom(command, pos, count - i))
    {
      DecodeAt(command, pos, count - i);
      if |command| < pos + 9 {
        return None;
      }
      var id := Word(command[pos..pos + 8]);
      var addrLen := command[pos + 8];
      pos := pos + 9;
      if |command| < pos + addrLen {
        return None;
      }
      var m := Member(id, command[pos..pos + addrLen], 0, 0, 0);
      PrependTwice(members, [m], DecodeFrom(command, pos + addrLen, count - i - 1));
      members := members + [m];
      pos := pos + addrLen;
    }
    assert members + [] == members;
    return Some(members);
  }

  // ---------- Merging a config change into a cluster ----------

  function Ids(ms: seq<Member>): set<nat> {
    set m | m in ms :: m.id
  }

  ghost predicate Distinct(ms: seq<Member>) {
    forall i, j :: 0 <= i < j < |ms| ==> ms[i].id != ms[j].id
  }

  /** The ids and addresses of a cluster, in order. */
  function Roster(ms: seq<Member>): (r: seq<(nat, seq<byte>)>)
    ensures |r| == |ms|
    ensures forall i :: 0 <= i < |ms| ==> r[i] == (ms[i].id, ms[i].address)
  {
    if ms == [] then [] else [(ms[0].id, ms[0].address)] + Roster(ms[1..])
  }

  function Unknown(known: set<nat>, incoming: seq<Member>, next: nat, selfId: nat, selfVote: nat): seq<Member> {
    if incoming == [] then []
    else
      var rest := Unknown(known, incoming[1..], next, selfId, selfVote);
      var m := incoming[0];
      if m.id in known then rest
      else [Member(m.id, m.address, next, 0, if m.id == selfId then selfVote else 0)] + rest
  }

  function Merge(current: seq<Member>, incoming: seq<Member>, next: nat, selfId: nat, selfVote: nat): seq<Member> {
    current + Unknown(Ids(current), incoming, next, selfId, selfVote)
  }

  method MergeClusterConfig(current: seq<Member>, incoming: seq<Member>, next: nat, selfId: nat, selfVote: nat)
    returns (merged: seq<Member>)
    ensures merged == Merge(current, incoming, next, selfId, selfVote)
  {
    merged := current;
    var known := Ids(current);
    for i := 0 to |incoming|
      invariant merged + Unknown(known, incoming[i..], next, selfId, selfVote) ==
                Merge(current, incoming, next, selfId, selfVote)
    {
      var m := incoming[i];
      assert incoming[i..][1..] == incoming[i + 1..];
      if m.id !in known {
        var votedFor := if m.id == selfId then selfVote else 0;
        ghost var rest := Unknown(known, incoming[i + 1..], next, selfId, selfVote);
        var added := Member(m.id, m.address, next, 0, votedFor);
        assert merged + ([added] + rest) == (merged + [added]) + rest;
        merged := merged + [added];
      }
    }
  }

  /** The first index at which the cluster lists `id`. */
  function IndexOf(cluster: seq<Member>, id: nat): (k: nat)
    requires id in Ids(cluster)
    ensures k < |cluster| && cluster[k].id == id
    ensures forall j :: 0 <= j < k ==> cluster[j].id != id
  {
    if cluster[0].id == id then 0
    else
      assert id in Ids(cluster[1..]);
      1 + IndexOf(cluster[1..], id)
  }

  method ResolveClusterIndex(cluster: seq<Member>, selfId: nat) returns (k: nat)
    requires selfId in Ids(cluster)
    ensures k == IndexOf(cluster, selfId)
  {
    for i := 0 to |cluster|
      invariant forall j :: 0 <= j < i ==> cluster[j].id != selfId
    {
      if cluster[i].id == selfId {
        return i;
      }
    }
    assert false;
  }

  /** An index named by its first occurrence stays named when the list grows at its end. */
  lemma IndexOfPrefix(a: seq<Member>, b: seq<Member>, id: nat)
    requires a <= b && id in Ids(a)
    ensures id in Ids(b) && IndexOf(b, id) == IndexOf(a, id)
  {
    var k := IndexOf(a, id);
    assert b[k].id == id && b[k] in b;
    assert forall j :: 0 <= j < k ==> b[j] == a[j];
  }

  // ---------- What a merge guarantees ----------

  lemma {:induction false} UnknownFacts(known: set<nat>, incoming: seq<Member>, next: nat, selfId: nat, selfVote: nat)
    ensures Ids(Unknown(known, incoming, next, selfId, selfVote)) == Ids(incoming) - known
    ensures Distinct(incoming) ==> Distinct(Unknown(known, incoming, next, selfId, selfVote))
  {
    if incoming != [] {
      var rest := Unknown(known, incoming[1..], next, selfId, selfVote);
      UnknownFacts(known, incoming[1..], next, selfId, selfVote);
      assert Ids(incoming) == {incoming[0].id} + Ids(incoming[1..]);
      var all := Unknown(known, incoming, next, selfId, selfVote);
      if incoming[0].id !in known {
        assert Ids(all) == {incoming[0].id} + Ids(rest);
        if Distinct(incoming) {
          assert Distinct(incoming[1..]);
          forall j | 0 < j < |all| ensures all[j].id != incoming[0].id {
            assert all[j] == rest[j - 1] && all[j].id in Ids(rest);
            var m :| m in incoming[1..] && m.id == all[j].id;
          }
        }
      } else if Distinct(incoming) {
        assert Distinct(incoming[1..]);
      }
    }
  }

  /** A merge keeps the current members, bookkeeping included, as a prefix; it adds exactly the
      ids it did not know; and it keeps ids distinct. */
  lemma MergeGrows(current: seq<Member>, incoming: seq<Member>, next: nat, selfId: nat, selfVote: nat)
    ensures current <= Merge(current, incoming, next, selfId, selfVote)
    ensures Ids(Merge(current, incoming, next, selfId, selfVote)) == Ids(current) + Ids(incoming)
    ensures Distinct(current) && Distinct(incoming) ==> Distinct(Merge(current, incoming, next, selfId, selfVote))
  {
    var added := Unknown(Ids(current), incoming, next, selfId, selfVote);
    UnknownFacts(Ids(current), incoming, next, selfId, selfVote);
    IdsConcat(current, added);
    if Distinct(current) && Distinct(incoming) {
      var merged := current + added;
      forall i, j | 0 <= i < j < |merged| ensures merged[i].id != merged[j].id {
        if i < |current| <= j {
          assert merged[j] in added && merged[j].id in Ids(added);
          assert merged[i] in current;
        }
      }
    }
  }

  /** Every member a merge adds is an incoming one, with nothing noted down about it but where to begin. */
  lemma MergeAdds(current: seq<Member>, incoming: seq<Member>, next: nat, selfId: nat, selfVote: nat, i: nat)
    requires |current| <= i < |Merge(current, incoming, next, selfId, selfVote)|
    ensures var m := Merge(current, incoming, next, selfId, selfVote)[i];
            && m.nextIndex == next && m.matchIndex == 0
            && exists k :: 0 <= k < |incoming| && incoming[k].id == m.id && incoming[k].address == m.address
  {
    UnknownFrom(Ids(current), incoming, next, selfId, selfVote, i - |current|);
  }

  lemma {:induction false} UnknownFrom(known: set<nat>, incoming: seq<Member>, next: nat, selfId: nat, selfVote: nat,
                                       i: nat)
    requires i < |Unknown(known, incoming, next, selfId, selfVote)|
    ensures var m := Unknown(known, incoming, next, selfId, selfVote)[i];
            && m.nextIndex == next && m.matchIndex == 0
            && exists k :: 0 <= k < |incoming| && incoming[k].id == m.id && incoming[k].address == m.address
  {
    if incoming[0].id in known || i > 0 {
      var j := if incoming[0].id in known then i else i - 1;
      UnknownFrom(known, incoming[1..], next, selfId, selfVote, j);
      var m := Unknown(known, incoming[1..], next, selfId, selfVote)[j];
      var k :| 0 <= k < |incoming[1..]| && incoming[1..][k].id == m.id && incoming[1..][k].address == m.address;
      assert incoming[k + 1] == incoming[1..][k];
    }
  }

  /** Taking in one more incoming member: nothing changes if the current members list its id; otherwise it
      comes last, with its address, and with nothing noted down about it but where to begin and, if it is the
      node itself, its vote. */
  lemma {:induction false} MergeOneMore(current: seq<Member>, incoming: seq<Member>, m: Member, next: nat,
                                        selfId: nat, selfVote: nat)
    ensures Merge(current, [], next, selfId, selfVote) == current
    ensures Merge(current, incoming + [m], next, selfId, selfVote) ==
            Merge(current, incoming, next, selfId, selfVote)
            + if exists i :: 0 <= i < |current| && current[i].id == m.id then []
              else [Member(m.id, m.address, next, 0, if m.id == selfId then selfVote else 0)]
  {
    UnknownSnoc(Ids(current), incoming, m, next, selfId, selfVote);
    if m.id in Ids(current) {
      var c :| c in current && c.id == m.id;
      var i :| 0 <= i < |current| && current[i] == c;
    }
  }

  lemma {:induction false} UnknownSnoc(known: set<nat>, incoming: seq<Member>, m: Member, next: nat, selfId: nat,
                                       selfVote: nat)
    ensures Unknown(known, incoming + [m], next, selfId, selfVote) ==
            Unknown(known, incoming, next, selfId, selfVote)
            + if m.id in known then []
              else [Member(m.id, m.address, next, 0, if m.id == selfId then selfVote else 0)]
  {
    if incoming == [] {
      assert incoming + [m] == [m];
    } else {
      UnknownSnoc(known, incoming[1..], m, next, selfId, selfVote);
      assert (incoming + [m])[1..] == incoming[1..] + [m];
    }
  }

  lemma IdsConcat(a: seq<Member>, b: seq<Member>)
    ensures Ids(a + b) == Ids(a) + Ids(b)
  {
    forall id | id in Ids(a) + Ids(b) ensures id in Ids(a + b) {
      if id in Ids(a) {
        var m :| m in a && m.id == id;
        assert m in a + b;
      } else {
        var m :| m in b && m.id == id;
        assert m in a + b;
      }
    }
  }

  /** Merging a config whose members are all known changes nothing. */
  lemma {:induction false} MergeKnown(current: seq<Member>, incoming: seq<Member>, next: nat, selfId: nat,
                                      selfVote: nat)
    requires Ids(incoming) <= Ids(current)
    ensures Merge(current, incoming, next, selfId, selfVote) == current
  {
    if incoming != [] {
      assert incoming[0] in incoming;
      assert forall m :: m in incoming[1..] ==> m in incoming;
      MergeKnown(current, incoming[1..], next, selfId, selfVote);
    }
  }

  /** Applying the same config twice is applying it once, wherever it is applied. */
  lemma MergeIdempotent(current: seq<Member>, incoming: seq<Member>, next: nat, next': nat, selfId: nat, vote: nat,
                        vote': nat)
    ensures var once := Merge(current, incoming, next, selfId, vote);
            Merge(once, incoming, next', selfId, vote') == once
  {
    MergeGrows(current, incoming, next, selfId, vote);
    MergeKnown(Merge(current, incoming, next, selfId, vote), incoming, next', selfId, vote');
  }

  /** Ids and addresses after a merge depend only on ids and addresses before it. */
  lemma MergeRoster(a: seq<Member>, b: seq<Member>, inA: seq<Member>, inB: seq<Member>,
                                       nextA: nat, nextB: nat, selfA: nat, selfB: nat, voteA: nat, voteB: nat)
    requires Roster(a) == Roster(b) && Roster(inA) == Roster(inB)
    ensures Roster(Merge(a, inA, nextA, selfA, voteA)) == Roster(Merge(b, inB, nextB, selfB, voteB))
  {
    SameIds(a, b);
    UnknownRoster(Ids(a), inA, inB, nextA, nextB, selfA, selfB, voteA, voteB);
    RosterConcat(a, Unknown(Ids(a), inA, nextA, selfA, voteA));
    RosterConcat(b, Unknown(Ids(b), inB, nextB, selfB, voteB));
  }

  lemma SameIds(a: seq<Member>, b: seq<Member>)
    requires Roster(a) == Roster(b)
    ensures Ids(a) == Ids(b)
  {
    assert |a| == |b|;
    forall i | 0 <= i < |a| ensures a[i].id == b[i].id {
      assert Roster(a)[i] == Roster(b)[i];
    }
    assert forall id :: id in Ids(a) ==> exists i :: 0 <= i < |a| && a[i].id == id && b[i] in b;
    assert forall id :: id in Ids(b) ==> exists i :: 0 <= i < |b| && b[i].id == id && a[i] in a;
  }

  lemma {:induction false} UnknownRoster(known: set<nat>, inA: seq<Member>, inB: seq<Member>,
                                         nextA: nat, nextB: nat, selfA: nat, selfB: nat, voteA: nat, voteB: nat)
    requires Roster(inA) == Roster(inB)
    ensures Roster(Unknown(known, inA, nextA, selfA, voteA)) == Roster(Unknown(known, inB, nextB, selfB, voteB))
  {
    if inA != [] {
      assert Roster(inA)[0] == Roster(inB)[0];
      assert Roster(inA[1..]) == Roster(inA)[1..] == Roster(inB)[1..] == Roster(inB[1..]);
      UnknownRoster(known, inA[1..], inB[1..], nextA, nextB, selfA, selfB, voteA, voteB);
    }
  }

  lemma RosterConcat(a: seq<Member>, b: seq<Member>)
    ensures Roster(a + b) == Roster(a) + Roster(b)
  {
  }

  // ---------- Membership as a fold over the log ----------

  /** The members a config-change command names; a malformed one, on which the original panics, names none. */
  function Incoming(command: seq<byte>): seq<Member> {
    if DecodeConfig(command).Some? then DecodeConfig(command).value else []
  }

  function MergeEntry(cluster: seq<Member>, e: Entry, index: nat, selfId: nat, selfVote: nat): seq<Member> {
    if IsConfigChange(e.command) then Merge(cluster, Incoming(e.command), index + 1, selfId, selfVote) else cluster
  }

  /** Merges the config changes among `es`, which sit at indices `from`, `from + 1`, ... of a log. */
  function MergeEntries(cluster: seq<Member>, es: seq<Entry>, from: nat, selfId: nat, selfVote: nat): seq<Member> {
    if es == [] then cluster
    else
      var k := |es| - 1;
      MergeEntry(MergeEntries(cluster, es[..k], from, selfId, selfVote), es[k], from + k, selfId, selfVote)
  }

  /** The fold over one more entry. (Dafny's own induction over `longer` would only get in the way.) */
  lemma {:induction false} MergeSnoc(cluster: seq<Member>, es: seq<Entry>, e: Entry, longer: seq<Entry>, from: nat,
                                     id: nat, vote: nat)
    requires longer == es + [e]
    ensures MergeEntries(cluster, longer, from, id, vote) ==
            MergeEntry(MergeEntries(cluster, es, from, id, vote), e, from + |es|, id, vote)
  {
    assert longer[..|es|] == es;
  }

  /** Every config-change command is one the decoder accepts without panicking. */
  predicate WellFormedEntries(es: seq<Entry>) {
    forall e :: e in es && IsConfigChange(e.command) ==> DecodeConfig(e.command).Some?
  }

  lemma {:induction false} MergeEntriesConcat(cluster: seq<Member>, a: seq<Entry>, b: seq<Entry>, from: nat,
                                              selfId: nat, selfVote: nat)
    ensures MergeEntries(cluster, a + b, from, selfId, selfVote) ==
            MergeEntries(MergeEntries(cluster, a, from, selfId, selfVote), b, from + |a|, selfId, selfVote)
  {
    if b == [] {
      assert a + b == a;
    } else {
      var k := |b| - 1;
      MergeEntriesConcat(cluster, a, b[..k], from, selfId, selfVote);
      assert (a + b)[..|a| + k] == a + b[..k];
    }
  }

  /** The fold keeps the cluster it starts from as a prefix. */
  lemma {:induction false} MergeEntriesGrows(cluster: seq<Member>, es: seq<Entry>, from: nat, selfId: nat,
                                             selfVote: nat)
    ensures cluster <= MergeEntries(cluster, es, from, selfId, selfVote)
  {
    if es != [] {
      MergeEntriesGrows(cluster, es[..|es| - 1], from, selfId, selfVote);
    }
  }

  lemma {:induction false} MergeEntriesDistinct(cluster: seq<Member>, es: seq<Entry>, from: nat, selfId: nat,
                                                selfVote: nat)
    requires Distinct(cluster)
    requires forall e :: e in es && IsConfigChange(e.command) ==> Distinct(Incoming(e.command))
    ensures Distinct(MergeEntries(cluster, es, from, selfId, selfVote))
  {
    if es != [] {
      var k := |es| - 1;
      assert es[k] in es;
      MergeEntriesDistinct(cluster, es[..k], from, selfId, selfVote);
      MergeGrows(MergeEntries(cluster, es[..k], from, selfId, selfVote), Incoming(es[k].command), from + k + 1,
                 selfId, selfVote);
    }
  }

  /** Every member the fold adds was named by an entry, and begins right behind it. */
  lemma {:induction false} FoldAdds(cluster: seq<Member>, es: seq<Entry>, from: nat, selfId: nat, selfVote: nat, i: nat)
    requires |cluster| <= i < |MergeEntries(cluster, es, from, selfId, selfVote)|
    ensures exists k :: 0 <= k < |es|
                        && Introduces(es[k], MergeEntries(cluster, es, from, selfId, selfVote)[i], from + k)
  {
    if es != [] {
      var k := |es| - 1;
      var before := MergeEntries(cluster, es[..k], from, selfId, selfVote);
      if i < |before| {
        FoldAdds(cluster, es[..k], from, selfId, selfVote, i);
        var j :| 0 <= j < k && Introduces(es[..k][j], before[i], from + j);
        assert Introduces(es[j], before[i], from + j);
        if IsConfigChange(es[k].command) {
          MergeGrows(before, Incoming(es[k].command), from + k + 1, selfId, selfVote);
        }
      } else {
        MergeAdds(before, Incoming(es[k].command), from + k + 1, selfId, selfVote, i);
        assert Introduces(es[k], MergeEntries(cluster, es, from, selfId, selfVote)[i], from + k);
      }
    }
  }

  /** The entry at this index names the member, which needs what comes behind it next. */
  ghost predicate Introduces(e: Entry, m: Member, index: nat) {
    && IsConfigChange(e.command) && m.nextIndex == index + 1 && m.matchIndex == 0
    && exists k :: 0 <= k < |Incoming(e.command)| && Incoming(e.command)[k].id == m.id
                   && Incoming(e.command)[k].address == m.address
  }

  /** Without config changes the fold is the cluster it starts from. */
  lemma {:induction false} MergeNoConfig(cluster: seq<Member>, es: seq<Entry>, from: nat, selfId: nat, selfVote: nat)
    requires forall e :: e in es ==> !IsConfigChange(e.command)
    ensures MergeEntries(cluster, es, from, selfId, selfVote) == cluster
  {
    if es != [] {
      MergeNoConfig(cluster, es[..|es| - 1], from, selfId, selfVote);
      assert es[|es| - 1] in es;
    }
  }
}
