/**
 Bytes, big-endian 16-bit lengths and the small datatypes every component shares.
 */
module Bytes {

  type Byte = x: int | 0 <= x < 256

  datatype Option<+T> = None | Some(value: T)

  /** The big-endian 16-bit field Go writes for `uint16(n)`: the value is truncated, not checked. */
  function U16(n: nat): (b: seq<Byte>)
    ensures |b| == 2
  {
    [n / 256 % 256, n % 256]
  }

  function FromU16(hi: Byte, lo: Byte): (n: nat)
    ensures n < 65536
  {
    hi * 256 + lo
  }

  /** Reading back a written length gives its low sixteen bits. */
  lemma U16Value(n: nat)
    ensures FromU16(U16(n)[0], U16(n)[1]) == n % 65536
  {
    var q, r := n / 256, n % 256;
    assert n == 256 * q + r;
    var q1, q0 := q / 256, q % 256;
    assert q == 256 * q1 + q0;
    assert n == 65536 * q1 + (256 * q0 + r);
  }

  lemma U16Injective(m: nat, n: nat)
    requires m < 65536 && n < 65536 && U16(m) == U16(n)
    ensures m == n
  {
    U16Value(m);
    U16Value(n);
  }

  lemma FromU16Inverse(hi: Byte, lo: Byte)
    ensures U16(FromU16(hi, lo)) == [hi, lo]
  {
  }

  /** Every element of a holds, in order, somewhere in b. */
  predicate IsSubsequence<T(==)>(a: seq<T>, b: seq<T>) {
    a == [] ||
    (b != [] &&
     (IsSubsequence(a, b[..|b| - 1]) ||
      (a[|a| - 1] == b[|b| - 1] && IsSubsequence(a[..|a| - 1], b[..|b| - 1]))))
  }

  lemma SubsequenceSkip<T>(a: seq<T>, b: seq<T>, x: T)
    requires IsSubsequence(a, b)
    ensures IsSubsequence(a, b + [x])
  {
    assert (b + [x])[..|b|] == b;
  }

  lemma SubsequenceTake<T>(a: seq<T>, b: seq<T>, x: T)
    requires IsSubsequence(a, b)
    ensures IsSubsequence(a + [x], b + [x])
  {
    assert (a + [x])[..|a|] == a && (b + [x])[..|b|] == b;
  }

  function Concat<T>(parts: seq<seq<T>>): (whole: seq<T>) {
    if parts == [] then [] else Concat(parts[..|parts| - 1]) + parts[|parts| - 1]
  }
}
