/** Test-data helpers that the four testbenches share: the octet type, Python's
    `range`, list repetition, and `itertools.islice(itertools.cycle(p), n)`. */
module TestData {

  /** One octet, as an element of a Python `bytes` or `bytearray`. */
  type byte = x: int | 0 <= x < 256

  /** `list(range(lo, hi))` for `lo >= 0`: empty when `lo >= hi`. */
  function Range(lo: nat, hi: nat): (r: seq<nat>)
    ensures |r| == if lo <= hi then hi - lo else 0
    ensures forall i :: 0 <= i < |r| ==> r[i] == lo + i
    decreases hi - lo
  {
    if lo >= hi then [] else [lo] + Range(lo + 1, hi)
  }

  /** `[x] * n`. */
  function Repeat<T>(x: T, n: nat): (r: seq<T>)
    ensures |r| == n
    ensures forall i :: 0 <= i < n ==> r[i] == x
  {
    if n == 0 then [] else Repeat(x, n - 1) + [x]
  }

  /** `bytearray(n)`: n zero octets. */
  function Zeros(n: nat): (r: seq<byte>)
    ensures |r| == n
    ensures forall i :: 0 <= i < n ==> r[i] == 0
  {
    Repeat(0, n)
  }

  /** The first n elements of `itertools.cycle(pattern)`; an empty pattern
      cycles to nothing. */
  function Cycle<T>(pattern: seq<T>, n: nat): (r: seq<T>)
    ensures pattern == [] ==> r == []
    ensures pattern != [] ==> |r| == n
    ensures pattern != [] ==> forall i :: 0 <= i < n ==> r[i] == pattern[i % |pattern|]
    decreases n
  {
    if pattern == [] then []
    else if n <= |pattern| then
      CycleFirst(pattern, n);
      pattern[..n]
    else
      var rest := Cycle(pattern, n - |pattern|);
      CycleNext(pattern, rest);
      pattern + rest
  }

  lemma CycleFirst<T>(pattern: seq<T>, n: nat)
    requires n <= |pattern|
    ensures forall i :: 0 <= i < n ==> pattern[..n][i] == pattern[i % |pattern|]
  {
    forall i | 0 <= i < n ensures i % |pattern| == i {
      ModUnique(i, |pattern|, 0, i);
    }
  }

  lemma CycleNext<T>(pattern: seq<T>, rest: seq<T>)
    requires pattern != []
    requires forall i :: 0 <= i < |rest| ==> rest[i] == pattern[i % |pattern|]
    ensures forall i :: 0 <= i < |pattern| + |rest| ==> (pattern + rest)[i] == pattern[i % |pattern|]
  {
    var k := |pattern|;
    forall i | 0 <= i < k + |rest| ensures (pattern + rest)[i] == pattern[i % k] {
      if i < k {
        ModUnique(i, k, 0, i);
      } else {
        ModShift(i, k);
        assert (pattern + rest)[i] == rest[i - k];
      }
    }
  }

  lemma MulAtLeast(a: int, k: int)
    requires a >= 1 && k > 0
    ensures a * k >= k
  {
    if a > 1 {
      MulAtLeast(a - 1, k);
      assert a * k == (a - 1) * k + k;
    }
  }

  /** Euclidean remainders are unique. */
  lemma ModUnique(i: int, k: int, q: int, r: int)
    requires k > 0 && 0 <= r < k && i == q * k + r
    ensures i % k == r
  {
    var q', r' := i / k, i % k;
    assert q' * k + r' == q * k + r;
    if q' < q {
      assert (q - q') * k == r' - r;
      MulAtLeast(q - q', k);
    } else if q' > q {
      assert (q' - q) * k == r - r';
      MulAtLeast(q' - q, k);
    }
  }

  lemma ModShift(i: int, k: int)
    requires 0 < k <= i
    ensures (i - k) % k == i % k
  {
    var q, r := (i - k) / k, (i - k) % k;
    assert i == (q + 1) * k + r;
    ModUnique(i, k, q + 1, r);
  }

  /** Adding a multiple of k, here a%k's quotient, does not change a sum's remainder. */
  lemma ModAddMod(a: int, b: int, k: int)
    requires k > 0
    ensures (a % k + b) % k == (a + b) % k
  {
    var q, q2, r := a / k, (a % k + b) / k, (a % k + b) % k;
    assert a + b == (q + q2) * k + r;
    ModUnique(a + b, k, q + q2, r);
  }

  /** The octets 0, 1, ..., 255. */
  function AllOctets(): (r: seq<byte>)
    ensures |r| == 256
    ensures forall i :: 0 <= i < 256 ==> r[i] == i
  {
    Range(0, 256)
  }

  /** `incrementing_payload(length)`: octet i is `i mod 256`. */
  function IncrementingPayload(length: nat): (r: seq<byte>)
    ensures |r| == length
    ensures forall i :: 0 <= i < length ==> r[i] == i % 256
  {
    Cycle(AllOctets(), length)
  }

  /** `[incrementing_payload(x) for x in lengths]`: the frames a test sends,
      one incrementing payload per listed length, in order. */
  function IncrementingPayloads(lengths: seq<nat>): (r: seq<seq<byte>>)
    ensures |r| == |lengths|
    ensures forall i :: 0 <= i < |r| ==> r[i] == IncrementingPayload(lengths[i])
    ensures forall i :: 0 <= i < |r| ==> |r[i]| == lengths[i]
  {
    seq(|lengths|, i requires 0 <= i < |lengths| => IncrementingPayload(lengths[i]))
  }
}
