/** The k-th largest element of a list, defined by taking maxima away, and the counting fact that
    makes it the right commit index. */
module OrderStatistic {

  function Largest(ms: seq<nat>): (m: nat)
    requires ms != []
    ensures m in ms
    ensures forall x :: x in ms ==> x <= m
  {
    if |ms| == 1 then ms[0]
    else
      var rest := Largest(ms[1..]);
      assert forall x :: x in ms ==> x == ms[0] || x in ms[1..];
      if ms[0] > rest then ms[0] else rest
  }

  function Position(ms: seq<nat>, x: nat): (k: nat)
    requires x in ms
    ensures k < |ms| && ms[k] == x
  {
    if ms[0] == x then 0 else 1 + Position(ms[1..], x)
  }

  function Without(ms: seq<nat>, k: nat): (r: seq<nat>)
    requires k < |ms|
    ensures |r| == |ms| - 1
  {
    ms[..k] + ms[k + 1..]
  }

  /** The k-th largest element, counting duplicates: drop the largest k - 1 times, then take the largest. */
  function KthLargest(ms: seq<nat>, k: nat): nat
    requires 1 <= k <= |ms|
    decreases k
  {
    if k == 1 then Largest(ms)
    else KthLargest(Without(ms, Position(ms, Largest(ms))), k - 1)
  }

  /** How many elements are at least `v`. */
  function CountAtLeast(ms: seq<nat>, v: nat): nat {
    if ms == [] then 0 else CountAtLeast(ms[1..], v) + if ms[0] >= v then 1 else 0
  }

  lemma {:induction false} CountConcat(a: seq<nat>, b: seq<nat>, v: nat)
    ensures CountAtLeast(a + b, v) == CountAtLeast(a, v) + CountAtLeast(b, v)
  {
    if a == [] {
      assert a + b == b;
    } else {
      CountConcat(a[1..], b, v);
      assert (a + b)[1..] == a[1..] + b;
    }
  }

  /** Counting one more element of a list. */
  lemma CountSnoc(ms: seq<nat>, j: nat, v: nat)
    requires j < |ms|
    ensures CountAtLeast(ms[..j + 1], v) == CountAtLeast(ms[..j], v) + if ms[j] >= v then 1 else 0
  {
    CountConcat(ms[..j], [ms[j]], v);
    assert ms[..j + 1] == ms[..j] + [ms[j]];
  }

  lemma CountPrefix(ms: seq<nat>, j: nat, v: nat)
    requires j <= |ms|
    ensures CountAtLeast(ms[..j], v) <= CountAtLeast(ms, v)
  {
    CountConcat(ms[..j], ms[j..], v);
    assert ms == ms[..j] + ms[j..];
  }

  lemma CountWithout(ms: seq<nat>, k: nat, v: nat)
    requires k < |ms|
    ensures CountAtLeast(ms, v) == CountAtLeast(Without(ms, k), v) + if ms[k] >= v then 1 else 0
  {
    CountConcat(ms[..k], ms[k..], v);
    CountConcat(ms[..k], ms[k + 1..], v);
    assert ms[..k] + ms[k..] == ms;
    assert ms[k..][1..] == ms[k + 1..];
  }

  lemma {:induction false} CountNone(ms: seq<nat>, v: nat)
    requires forall x :: x in ms ==> x < v
    ensures CountAtLeast(ms, v) == 0
  {
    if ms != [] {
      assert ms[0] in ms;
      assert forall x :: x in ms[1..] ==> x in ms;
      CountNone(ms[1..], v);
    }
  }

  /** At least `k` elements reach `v` exactly when `v` is at most the k-th largest element. */
  lemma {:induction false} KthLargestIsThreshold(ms: seq<nat>, k: nat, v: nat)
    requires 1 <= k <= |ms|
    ensures CountAtLeast(ms, v) >= k <==> v <= KthLargest(ms, k)
    decreases k
  {
    var top := Largest(ms);
    var p := Position(ms, top);
    CountWithout(ms, p, v);
    if top < v {
      CountNone(ms, v);
      KthLargestInList(ms, k);
    } else if k > 1 {
      KthLargestIsThreshold(Without(ms, p), k - 1, v);
    }
  }

  lemma {:induction false} KthLargestInList(ms: seq<nat>, k: nat)
    requires 1 <= k <= |ms|
    ensures KthLargest(ms, k) in ms
    decreases k
  {
    if k > 1 {
      var rest := Without(ms, Position(ms, Largest(ms)));
      KthLargestInList(rest, k - 1);
      assert forall x :: x in rest ==> x in ms;
    }
  }

  /** The positions whose element is at least `v`. */
  function Reaching(ms: seq<nat>, v: nat): set<nat> {
    set j: nat | j < |ms| && ms[j] >= v
  }

  /** The count as the size of a set of positions. */
  lemma {:induction false} CountIsSetSize(ms: seq<nat>, v: nat)
    ensures CountAtLeast(ms, v) == |Reaching(ms, v)|
  {
    if ms == [] {
      assert Reaching(ms, v) == {};
    } else {
      var n := |ms| - 1;
      CountIsSetSize(ms[..n], v);
      CountConcat(ms[..n], [ms[n]], v);
      assert ms[..n] + [ms[n]] == ms;
      assert Reaching(ms, v) == Reaching(ms[..n], v) + if ms[n] >= v then {n} else {};
    }
  }
}
