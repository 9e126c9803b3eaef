/** The values that move through a node: bytes, log entries, cluster members, messages. */
module Types {

  type byte = x: int | 0 <= x < 256

  datatype Option<+T> = None | Some(value: T)

  datatype Result<+T> = Ok(value: T) | Err

  /** One slot of the replicated log. The channel a client waits on is not part of the model. */
  datatype Entry = Entry(term: nat, command: seq<byte>)

  /** The entry every log holds at index 0. */
  const SENTINEL := Entry(0, [])

  datatype Member = Member(id: nat, address: seq<byte>, nextIndex: nat, matchIndex: nat, votedFor: nat)

  datatype Role = Follower | Candidate | Leader

  datatype VoteRequest = VoteRequest(term: nat, candidate: nat, lastLogIndex: nat, lastLogTerm: nat)

  datatype VoteResponse = VoteResponse(term: nat, granted: bool)

  datatype AppendRequest = AppendRequest(term: nat, leader: nat, prevLogIndex: nat, prevLogTerm: nat,
                                         entries: seq<Entry>, leaderCommit: nat)

  datatype AppendResponse = AppendResponse(term: nat, success: bool)

  const TWO_64: nat := 0x1_0000_0000_0000_0000

  function Min(a: int, b: int): int {
    if a < b then a else b
  }

  function Max(a: int, b: int): int {
    if a > b then a else b
  }

  /** `x - 1` on an unsigned 64-bit word. */
  function Decrement64(x: nat): nat {
    if x == 0 then TWO_64 - 1 else x - 1
  }

  /** The indices below `n`: the members of a cluster of `n` nodes. */
  function Below(n: nat): (s: set<nat>)
    ensures forall x: nat :: x in s <==> x < n
    ensures |s| == n
  {
    if n == 0 then {} else Below(n - 1) + {n - 1}
  }

  /** Two sets of indices below `n` whose sizes add up to more than `n` share an index. */
  lemma QuorumsMeet(a: set<nat>, b: set<nat>, n: nat) returns (j: nat)
    requires a <= Below(n) && b <= Below(n)
    requires |a| + |b| > n
    ensures j in a && j in b
  {
    SubsetSize(a + b, Below(n));
    assert |a + b| == |a| + |b| - |a * b|;
    assert a * b != {};
    j :| j in a * b;
  }

  lemma {:induction false} SubsetSize<T>(a: set<T>, b: set<T>)
    requires a <= b
    ensures |a| <= |b|
  {
    if a != {} {
      var x :| x in a;
      SubsetSize(a - {x}, b - {x});
    }
  }
}
