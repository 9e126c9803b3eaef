/** Fixed-width little-endian words, as the log file and both command encodings use them. */
module LittleEndian {
  import opened Types

  /** The low `width` bytes of `x`, least significant first. */
  function Bytes(x: nat, width: nat): (bs: seq<byte>)
    ensures |bs| == width
  {
    if width == 0 then [] else [x % 256] + Bytes(x / 256, width - 1)
  }

  function Word(bs: seq<byte>): nat {
    if bs == [] then 0 else bs[0] + 256 * Word(bs[1..])
  }

  function Put64(x: nat): (bs: seq<byte>)
    ensures |bs| == 8
  {
    Bytes(x, 8)
  }

  function Limit(width: nat): (n: nat)
    ensures n > 0
  {
    if width == 0 then 1 else 256 * Limit(width - 1)
  }

  /** `Limit(i)` being 256 to the `i`, byte `i` is the digit of that weight: the least significant comes first. */
  lemma {:induction false} ByteOf(x: nat, width: nat, i: nat)
    requires i < width
    ensures Bytes(x, width)[i] == x / Limit(i) % 256
    decreases width
  {
    if i > 0 {
      ByteOf(x / 256, width - 1, i - 1);
      DivideTwice(x, Limit(i - 1));
    }
  }

  lemma DivideTwice(x: nat, d: nat)
    requires d > 0
    ensures x / 256 / d == x / (256 * d)
  {
    var a, b := x / 256 / d, x / 256 % d;
    assert x / 256 == d * a + b;
    assert x == (256 * d) * a + (256 * b + x % 256);
    QuotientIs(x, 256 * d, a, 256 * b + x % 256);
  }

  lemma QuotientIs(x: nat, d: nat, a: nat, r: nat)
    requires r < d && x == d * a + r
    ensures x / d == a
  {
    var q, s := x / d, x % d;
    Factor(d, q, a);
    Factor(d, a, q);
    if q > a {
      AtLeastOnce(d, q - a);
    } else if q < a {
      AtLeastOnce(d, a - q);
    }
  }

  lemma Factor(d: int, q: int, a: int)
    ensures d * (q - a) == d * q - d * a
  {
  }

  lemma AtLeastOnce(d: nat, k: int)
    requires k >= 1
    ensures d * k >= d
  {
  }

  /** The eight bytes of a 64-bit word, least significant first. */
  lemma Put64Bytes(x: nat, i: nat)
    requires i < 8
    ensures Put64(x)[i] == x / Limit(i) % 256
    ensures Limit(i) == if i == 0 then 1 else 256 * Limit(i - 1)
  {
    ByteOf(x, 8, i);
  }

  lemma {:induction false} WordOfBytes(x: nat, width: nat)
    requires x < Limit(width)
    ensures Word(Bytes(x, width)) == x
  {
    if width > 0 {
      WordOfBytes(x / 256, width - 1);
    }
  }

  /** Writing a 64-bit word and reading it back. */
  lemma Word64RoundTrip(x: nat)
    requires x < TWO_64
    ensures Word(Put64(x)) == x
  {
    LimitIs64();
    WordOfBytes(x, 8);
  }

  lemma LimitIs64()
    ensures Limit(8) == TWO_64
  {
    assert Limit(2) == 0x1_0000;
    assert Limit(4) == 0x1_0000_0000;
    assert Limit(6) == 0x1_0000_0000_0000;
  }

  lemma {:induction false} WordInLimit(bs: seq<byte>)
    ensures Word(bs) < Limit(|bs|)
  {
    if bs != [] {
      WordInLimit(bs[1..]);
    }
  }

  /** Eight bytes make a 64-bit number. */
  lemma WordBound(bs: seq<byte>)
    requires |bs| == 8
    ensures Word(bs) < TWO_64
  {
    WordInLimit(bs);
    LimitIs64();
  }

  /** Reading bytes and writing the word back: no two byte strings of one width mean the same word. */
  lemma {:induction false} BytesOfWord(bs: seq<byte>)
    ensures Bytes(Word(bs), |bs|) == bs
  {
    if bs != [] {
      BytesOfWord(bs[1..]);
      assert (bs[0] + 256 * Word(bs[1..])) / 256 == Word(bs[1..]);
    }
  }

  /** A hole the file fills with zeros reads as the word 0. */
  lemma {:induction false} ZeroBytes(width: nat)
    ensures Bytes(0, width) == seq(width, _ => 0)
  {
    if width > 0 {
      ZeroBytes(width - 1);
    }
  }
}
