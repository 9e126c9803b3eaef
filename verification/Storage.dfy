/** The growable byte file a node persists to. */
module Storage {
  import opened Types

  function Zeros(n: nat): (z: seq<byte>)
    ensures |z| == n
    ensures forall i :: 0 <= i < n ==> z[i] == 0
  {
    seq(n, _ => 0)
  }

  /** `data` after writing `p` at `pos`; a gap before `pos` reads as zeros. */
  function WriteAt(data: seq<byte>, pos: nat, p: seq<byte>): (r: seq<byte>)
    ensures |r| == Max(|data|, pos + |p|)
    ensures r[pos..pos + |p|] == p
    ensures forall i :: 0 <= i < |data| && !(pos <= i < pos + |p|) ==> r[i] == data[i]
    ensures forall i :: |data| <= i < pos ==> r[i] == 0
  {
    var end := pos + |p|;
    var grown := if end > |data| then data + Zeros(end - |data|) else data;
    grown[..pos] + p + grown[end..]
  }

  datatype Origin = SeekStart | SeekCurrent | SeekEnd | BadOrigin

  class MemStorage {
    var data: seq<byte>
    var pos: nat

    constructor ()
      ensures data == [] && pos == 0
    {
      data, pos := [], 0;
    }

    method Seek(offset: int, origin: Origin) returns (r: Result<nat>)
      modifies this`pos
      ensures r.Ok? ==> r.value == pos
      ensures r.Err? ==> pos == old(pos)
      ensures r.Ok? <==> origin != BadOrigin &&
                         (match origin case SeekStart => 0 case SeekCurrent => old(pos) case _ => |data|) + offset >= 0
      ensures r.Ok? ==>
                pos == (match origin case SeekStart => 0 case SeekCurrent => old(pos) case _ => |data|) + offset
    {
      var newPos: int;
      match origin {
        case SeekStart => newPos := offset;
        case SeekCurrent => newPos := pos + offset;
        case SeekEnd => newPos := |data| + offset;
        case BadOrigin => return Err;
      }
      if newPos < 0 {
        return Err;
      }
      pos := newPos;
      return Ok(pos);
    }

    /** Reads up to `count` bytes; `eof` only when there is nothing left at all. */
    method Read(count: nat) returns (p: seq<byte>, eof: bool)
      modifies this`pos
      ensures eof <==> old(pos) >= |data|
      ensures eof ==> p == [] && pos == old(pos)
      ensures !eof ==> p == data[old(pos)..Min(old(pos) + count, |data|)] && pos == old(pos) + |p|
    {
      if pos >= |data| {
        return [], true;
      }
      p := data[pos..Min(pos + count, |data|)];
      pos := pos + |p|;
      eof := false;
    }

    method Write(p: seq<byte>) returns (n: nat)
      modifies this
      ensures n == |p| && pos == old(pos) + |p|
      ensures data == WriteAt(old(data), old(pos), p)
    {
      var end := pos + |p|;
      if end > |data| {
        data := data + Zeros(end - |data|);
      }
      data := data[..pos] + p + data[end..];
      n := |p|;
      pos := end;
    }
  }
}
