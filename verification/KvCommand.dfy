/** The key-value state machine on top of the log: the command format, what a command does to the
    map, and the map a whole sequence of commands builds. */
module KvCommand {
  import opened Types
  import opened LittleEndian
  import opened Membership
  import opened Raft

  const SET: byte := 0
  const GET: byte := 1

  /** The kind is one byte on the wire; only `SET` and `GET` are known. */
  datatype Command = Command(kind: byte, key: seq<byte>, value: seq<byte>)

  function Encoded(c: Command): seq<byte> {
    [c.kind] + Put64(|c.key|) + c.key + Put64(|c.value|) + c.value
  }

  /** None where the original slices out of range. */
  function Decoded(msg: seq<byte>): Option<Command> {
    if |msg| < 9 then None
    else
      var keyEnd := 9 + Word(msg[1..9]);
      if |msg| < keyEnd then None
      else if msg[0] != SET then Some(Command(msg[0], msg[9..keyEnd], []))
      else if |msg| < keyEnd + 8 then None
      else
        var valueEnd := keyEnd + 8 + Word(msg[keyEnd..keyEnd + 8]);
        if |msg| < valueEnd then None
        else Some(Command(SET, msg[9..keyEnd], msg[keyEnd + 8..valueEnd]))
  }

  method EncodeCommand(c: Command) returns (msg: seq<byte>)
    ensures msg == Encoded(c)
  {
    msg := [c.kind];
    msg := msg + Put64(|c.key|);
    msg := msg + c.key;
    msg := msg + Put64(|c.value|);
    msg := msg + c.value;
  }

  method DecodeCommand(msg: seq<byte>) returns (r: Option<Command>)
    ensures r == Decoded(msg)
  {
    if |msg| < 9 {
      return None;
    }
    var c := Command(msg[0], [], []);
    var keyLen := Word(msg[1..9]);
    if |msg| < 9 + keyLen {
      return None;
    }
    c := c.(key := msg[9..9 + keyLen]);
    if c.kind == SET {
      if |msg| < 9 + keyLen + 8 {
        return None;
      }
      var valLen := Word(msg[9 + keyLen..9 + keyLen + 8]);
      if |msg| < 9 + keyLen + 8 + valLen {
        return None;
      }
      c := c.(value := msg[9 + keyLen + 8..9 + keyLen + 8 + valLen]);
    }
    return Some(c);
  }

  // ---------- The format ----------

  lemma EncodedLayout(c: Command)
    ensures var msg := Encoded(c);
            var keyEnd := 9 + |c.key|;
            && |msg| == keyEnd + 8 + |c.value| && msg[0] == c.kind
            && msg[1..9] == Put64(|c.key|) && msg[9..keyEnd] == c.key
            && msg[keyEnd..keyEnd + 8] == Put64(|c.value|) && msg[keyEnd + 8..] == c.value
  {
  }

  /** Decoding always succeeds on an encoded command, and gives the command back exactly if it is a
      set or has no value: of every other kind the decoder drops the value. */
  lemma CommandRoundTrip(c: Command)
    requires |c.key| < TWO_64 && |c.value| < TWO_64
    ensures Decoded(Encoded(c)).Some?
    ensures Decoded(Encoded(c)) == Some(c) <==> c.kind == SET || c.value == []
  {
    var msg, keyEnd := Encoded(c), 9 + |c.key|;
    EncodedLayout(c);
    Word64RoundTrip(|c.key|);
    Word64RoundTrip(|c.value|);
    assert msg[keyEnd + 8..] == msg[keyEnd + 8..keyEnd + 8 + |c.value|];
  }

  /** The part of an encoded command that the decoder looks at. */
  function Looked(c: Command): seq<byte> {
    [c.kind] + Put64(|c.key|) + c.key + if c.kind == SET then Put64(|c.value|) + c.value else []
  }

  /** A message decodes to a command if and only if it starts with that command's encoding, value included in
      a set only. */
  lemma DecodesIffStarts(msg: seq<byte>, c: Command)
    requires |c.key| < TWO_64 && |c.value| < TWO_64 && (c.kind != SET ==> c.value == [])
    ensures Decoded(msg) == Some(c) <==> Looked(c) <= msg
    ensures c.kind == SET ==> Looked(c) == Encoded(c)
  {
    if Looked(c) <= msg {
      StartsDecodes(msg, c);
    }
    if Decoded(msg) == Some(c) {
      DecodedStarts(msg, c);
    }
  }

  lemma StartsDecodes(msg: seq<byte>, c: Command)
    requires |c.key| < TWO_64 && |c.value| < TWO_64 && (c.kind != SET ==> c.value == []) && Looked(c) <= msg
    ensures Decoded(msg) == Some(c)
  {
    var keyEnd := 9 + |c.key|;
    Word64RoundTrip(|c.key|);
    Word64RoundTrip(|c.value|);
    assert msg[..|Looked(c)|] == Looked(c);
    assert msg[1..9] == Looked(c)[1..9] == Put64(|c.key|);
    assert msg[9..keyEnd] == Looked(c)[9..keyEnd] == c.key;
    if c.kind == SET {
      assert msg[keyEnd..keyEnd + 8] == Looked(c)[keyEnd..keyEnd + 8] == Put64(|c.value|);
      assert msg[keyEnd + 8..keyEnd + 8 + |c.value|] == Looked(c)[keyEnd + 8..] == c.value;
    }
  }

  lemma DecodedStarts(msg: seq<byte>, c: Command)
    requires Decoded(msg) == Some(c)
    ensures Looked(c) <= msg
  {
    var keyEnd := 9 + Word(msg[1..9]);
    BytesOfWord(msg[1..9]);
    Fields(msg, [c.kind], msg[1..9], c.key);
    if c.kind == SET {
      var tail := msg[keyEnd..];
      BytesOfWord(tail[..8]);
      assert tail[..8] == msg[keyEnd..keyEnd + 8];
      assert c.value == tail[8..8 + |c.value|];
      Fields(tail, [], tail[..8], c.value);
      assert msg == msg[..keyEnd] + tail;
    }
  }

  lemma Fields(msg: seq<byte>, kind: seq<byte>, length: seq<byte>, field: seq<byte>)
    requires |msg| >= |kind| + |length| + |field| && kind == msg[..|kind|]
    requires length == msg[|kind|..|kind| + |length|]
    requires field == msg[|kind| + |length|..|kind| + |length| + |field|]
    ensures kind + length + field == msg[..|kind| + |length| + |field|]
  {
  }

  /** The two languages in the log do not overlap: an encoded command is never empty, it is taken for
      a config change only if its kind is the marker, and no config change decodes as a set or get. */
  lemma LanguagesDisjoint(c: Command, members: seq<Member>)
    ensures Encoded(c) != []
    ensures IsConfigChange(Encoded(c)) <==> c.kind == CONFIG_MARKER
    ensures IsConfigChange(ConfigPayload(members))
    ensures Decoded(ConfigPayload(members)).Some? ==> Decoded(ConfigPayload(members)).value.kind !in {SET, GET}
  {
    EncodedLayout(c);
    assert ConfigPayload(members)[0] == CONFIG_MARKER;
  }

  /** So applying a log entry with a set or get hands exactly that command to the state machine, and
      applying a config change hands it nothing. */
  lemma Routed(n: Node, c: Command, members: seq<Member>)
    requires n.lastApplied < |n.log|
    ensures n.log[n.lastApplied].command == Encoded(c) && c.kind in {SET, GET} ==>
              ApplyOne(n) == n.(lastApplied := n.lastApplied + 1, applied := n.applied + [Encoded(c)])
    ensures n.log[n.lastApplied].command == ConfigPayload(members) ==>
              ApplyOne(n).applied == n.applied
              && ApplyOne(n).pending == if n.pending == n.lastApplied then 0 else n.pending
  {
    LanguagesDisjoint(c, members);
  }

  // ---------- The map ----------

  type Database = map<seq<byte>, seq<byte>>

  datatype Reply = Stored | Found(value: seq<byte>) | KeyNotFound | UnknownCommand | Panic

  function Execute(db: Database, cmd: seq<byte>): (Database, Reply) {
    match Decoded(cmd)
    case None => (db, Panic)
    case Some(c) =>
      if c.kind == SET then (db[c.key := c.value], Stored)
      else if c.kind == GET then (db, if c.key in db then Found(db[c.key]) else KeyNotFound)
      else (db, UnknownCommand)
  }

  /** The map after a sequence of commands. */
  function Replay(cmds: seq<seq<byte>>): Database {
    if cmds == [] then map[] else Execute(Replay(cmds[..|cmds| - 1]), cmds[|cmds| - 1]).0
  }

  predicate Sets(cmd: seq<byte>, key: seq<byte>) {
    Decoded(cmd).Some? && Decoded(cmd).value.kind == SET && Decoded(cmd).value.key == key
  }

  /** What the map holds is what was written last, without reference to any map: a key is present
      exactly if some command set it, and then it has the value of the last command that did. */
  lemma {:induction false} ReplayIsLastWrite(cmds: seq<seq<byte>>, key: seq<byte>)
    ensures key in Replay(cmds) <==> exists i :: 0 <= i < |cmds| && Sets(cmds[i], key)
    ensures forall i :: 0 <= i < |cmds| && Sets(cmds[i], key)
                        && (forall j :: i < j < |cmds| ==> !Sets(cmds[j], key)) ==>
              key in Replay(cmds) && Replay(cmds)[key] == Decoded(cmds[i]).value.value
  {
    if cmds != [] {
      var k := |cmds| - 1;
      var before := cmds[..k];
      ReplayIsLastWrite(before, key);
      assert forall i :: 0 <= i < k ==> cmds[i] == before[i];
      assert key in Replay(cmds) <==> key in Replay(before) || Sets(cmds[k], key);
      if !Sets(cmds[k], key) {
        assert key in Replay(before) ==> Replay(cmds)[key] == Replay(before)[key];
      }
    }
  }

  // ---------- Replies ----------

  predicate Asks(cmd: seq<byte>, key: seq<byte>) {
    Decoded(cmd).Some? && Decoded(cmd).value.kind == GET && Decoded(cmd).value.key == key
  }

  /** Command `i` is the last of them that sets the key. */
  ghost predicate LastSet(cmds: seq<seq<byte>>, key: seq<byte>, i: nat) {
    i < |cmds| && Sets(cmds[i], key) && forall j :: i < j < |cmds| ==> !Sets(cmds[j], key)
  }

  /** The right answer to a get after these commands, told by the commands alone: the value that the last
      one to set the key gave it, and that there is none if no command set it. */
  ghost predicate Answers(cmds: seq<seq<byte>>, key: seq<byte>, reply: Reply) {
    && (reply == KeyNotFound <==> forall i :: 0 <= i < |cmds| ==> !Sets(cmds[i], key))
    && (reply != KeyNotFound ==>
          exists i: nat :: LastSet(cmds, key, i) && reply == Found(Decoded(cmds[i]).value.value))
  }

  lemma {:induction false} SetHasLast(cmds: seq<seq<byte>>, key: seq<byte>) returns (i: nat)
    requires exists i :: 0 <= i < |cmds| && Sets(cmds[i], key)
    ensures LastSet(cmds, key, i)
  {
    var k := |cmds| - 1;
    if Sets(cmds[k], key) {
      i := k;
    } else {
      var before := cmds[..k];
      assert forall j :: 0 <= j < k ==> before[j] == cmds[j];
      i := SetHasLast(before, key);
      assert forall j :: i < j < k ==> !Sets(before[j], key);
    }
  }

  /** A get is answered with what was written last, and changes nothing. */
  lemma ReadsLastWrite(cmds: seq<seq<byte>>, cmd: seq<byte>, key: seq<byte>)
    requires Asks(cmd, key)
    ensures Execute(Replay(cmds), cmd).0 == Replay(cmds)
    ensures Answers(cmds, key, Execute(Replay(cmds), cmd).1)
  {
    ReplayIsLastWrite(cmds, key);
    if key in Replay(cmds) {
      var i := SetHasLast(cmds, key);
      assert Replay(cmds)[key] == Decoded(cmds[i]).value.value;
    }
  }

  /** There is only one right answer. */
  lemma AnswersAgree(cmds: seq<seq<byte>>, key: seq<byte>, r: Reply, r': Reply)
    requires Answers(cmds, key, r) && Answers(cmds, key, r')
    ensures r == r'
  {
    if r != KeyNotFound {
      var i: nat :| LastSet(cmds, key, i) && r == Found(Decoded(cmds[i]).value.value);
      var j: nat :| LastSet(cmds, key, j) && r' == Found(Decoded(cmds[j]).value.value);
      assert i == j;
    }
  }

  /** What the two client requests are: an encoded set sets its key to its value, an encoded get asks for
      its key, and neither is anything else. */
  lemma ClientCommands(key: seq<byte>, value: seq<byte>)
    requires |key| < TWO_64 && |value| < TWO_64
    ensures var store := Encoded(Command(SET, key, value));
            && Decoded(store).Some? && Decoded(store).value.value == value
            && (forall k :: Sets(store, k) <==> k == key) && (forall k :: !Asks(store, k))
    ensures var ask := Encoded(Command(GET, key, []));
            (forall k :: Asks(ask, k) <==> k == key) && (forall k :: !Sets(ask, k))
  {
    CommandRoundTrip(Command(SET, key, value));
    CommandRoundTrip(Command(GET, key, []));
  }

  // ---------- The state machine ----------

  class StateMachine {
    var db: Database
    ghost var history: seq<seq<byte>>

    /** The map is the one its history builds. */
    ghost predicate Valid()
      reads this
    {
      db == Replay(history)
    }

    constructor ()
      ensures Valid() && history == [] && db == map[]
    {
      db, history := map[], [];
    }

    method Apply(cmd: seq<byte>) returns (reply: Reply)
      requires Valid()
      modifies this
      ensures Valid() && history == old(history) + [cmd]
      ensures (db, reply) == Execute(old(db), cmd)
      ensures forall key | Asks(cmd, key) :: db == old(db) && Answers(old(history), key, reply)
      ensures forall key | Sets(cmd, key) ::
                reply == Stored && db == old(db)[key := Decoded(cmd).value.value]
      ensures reply == UnknownCommand || reply == Panic ==> db == old(db)
      ensures reply == Panic <==> Decoded(cmd).None?
      ensures reply == UnknownCommand <==> Decoded(cmd).Some? && Decoded(cmd).value.kind !in {SET, GET}
    {
      forall key | Asks(cmd, key) ensures Answers(history, key, Execute(db, cmd).1) {
        ReadsLastWrite(history, cmd, key);
      }
      history := history + [cmd];
      assert history[..|history| - 1] == old(history);
      var decoded := DecodeCommand(cmd);
      if decoded.None? {
        return Panic;
      }
      var c := decoded.value;
      if c.kind == SET {
        db := db[c.key := c.value];
        return Stored;
      } else if c.kind == GET {
        if c.key !in db {
          return KeyNotFound;
        }
        return Found(db[c.key]);
      } else {
        return UnknownCommand;
      }
    }
  }
}
