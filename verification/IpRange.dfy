/**
 Expanding IPv4 candidates: single addresses, ranges and CIDR blocks, and lists of them without duplicates.
 An address is its 32-bit value; reading the text of one is the standard library's.
 */
module IpRange {
  import opened Bytes

  const LIMIT := 0x1_0000_0000

  type Address = x: int | 0 <= x < LIMIT

  /** What parsing CIDR text gives: the masked address as IPv4 when it is one, the prefix length, and how
      many bits an address of its kind has. `::ffff:1.2.3.0/120` has 128 of them and is an IPv4 address. */
  datatype Net = Net(ip4: Option<Address>, ones: nat, bits: nat)

  datatype Spec =
    | Single(ip: Option<Address>)
    | Range(first: Option<Address>, last: Option<Address>)
    | Block(net: Option<Net>)

  function Pow2(n: nat): (p: nat)
    ensures p >= 1
  {
    if n == 0 then 1 else 2 * Pow2(n - 1)
  }

  /** uint64(1) << uint(n): a negative count becomes a huge one and shifts everything out. */
  function Shift(n: int): nat {
    if 0 <= n < 64 then Pow2(n) else 0
  }

  /** A prefix fits its kind of address, and the bits below it are masked off. */
  predicate Masked(n: Net) {
    && (n.bits == 32 || n.bits == 128) && n.ones <= n.bits
    && (n.bits == 32 ==> n.ip4.Some? && n.ip4.value % Pow2(32 - n.ones) == 0)
    && (n.bits == 128 && n.ip4.Some? ==> n.ones >= 96 && n.ip4.value % Pow2(128 - n.ones) == 0)
  }

  /** All addresses from one up to another, ascending. */
  predicate Interval(s: seq<Address>, first: Address, count: nat) {
    |s| == count && forall i | 0 <= i < count :: s[i] == first + i
  }

  lemma {:induction false} Pow2Sum(m: nat, n: nat)
    ensures Pow2(m + n) == Pow2(m) * Pow2(n)
  {
    if m > 0 {
      Pow2Sum(m - 1, n);
      assert Pow2(m) * Pow2(n) == 2 * (Pow2(m - 1) * Pow2(n));
    }
  }

  lemma LimitIsPow2()
    ensures Pow2(32) == LIMIT
  {
    Pow2Sum(16, 16);
    Pow2Sum(8, 8);
    Pow2Sum(4, 4);
  }

  /** A block does not run past the last address. */
  lemma {:induction false} BlockFits(start: Address, k: nat)
    requires k <= 32 && start % Pow2(k) == 0
    ensures start + Pow2(k) <= LIMIT
  {
    LimitIsPow2();
    Pow2Sum(32 - k, k);
    hide *;
    var m := Multiple(start, Pow2(k));
    LastMultiple(Pow2(k), Pow2(32 - k), m);
  }

  lemma Multiple(x: nat, p: nat) returns (m: nat)
    requires p > 0 && x % p == 0
    ensures x == p * m
  {
    m := x / p;
  }

  lemma LastMultiple(p: nat, q: nat, m: nat)
    requires p > 0 && p * m < q * p
    ensures p * m + p <= q * p
  {
    if q <= m {
      MulLe(p, q, m);
    } else {
      MulLe(p, m + 1, q);
      assert p * (m + 1) == p * m + p;
    }
  }

  lemma MulLe(p: nat, a: nat, b: nat)
    requires a <= b
    ensures p * a <= p * b
  {
    assert p * b == p * a + p * (b - a);
  }

  method ExpandCidr(net: Option<Net>) returns (ips: Option<seq<Address>>)
    requires net.Some? ==> Masked(net.value)
    ensures ips.None? <==> net.None? || net.value.ip4.None?
    ensures ips.Some? && net.value.bits == 32 ==>
              Interval(ips.value, net.value.ip4.value, Pow2(32 - net.value.ones))
    ensures ips.Some? && net.value.bits == 128 ==> ips.value == []
  {
    if net.None? || net.value.ip4.None? {
      return None;
    }
    var start, maskBits: int := net.value.ip4.value, net.value.ones;
    var count := Shift(32 - maskBits);
    if net.value.bits == 32 {
      BlockFits(start, 32 - maskBits);
    }
    var out: seq<Address> := [];
    for i := 0 to count
      invariant |out| == i && forall j | 0 <= j < i :: out[j] == start + j
    {
      out := out + [(start + i) % LIMIT];
    }
    return Some(out);
  }

  /** The size of the block a specification names. */
  function BlockSize(n: Net): nat
    requires Masked(n)
  {
    Pow2(n.bits - n.ones)
  }

  /** A range is its addresses from the lower end to the higher, whichever way round it was written; the
      loop stops on the last one before its 32-bit counter could wrap. */
  method ExpandRange(first: Option<Address>, last: Option<Address>) returns (ips: Option<seq<Address>>)
    ensures ips.None? <==> first.None? || last.None?
    ensures ips.Some? ==>
              var lo, hi := Lower(first.value, last.value), Higher(first.value, last.value);
              Interval(ips.value, lo, hi - lo + 1)
  {
    if first.None? || last.None? {
      return None;
    }
    var start, end := first.value, last.value;
    if end < start {
      start, end := end, start;
    }
    var out: seq<Address> := [];
    var v := start;
    while true
      invariant start <= v <= end && |out| == v - start
      invariant forall j | 0 <= j < |out| :: out[j] == start + j
      decreases end - v
    {
      out := out + [v];
      if v == end {
        break;
      }
      v := (v + 1) % LIMIT;
    }
    return Some(out);
  }

  function Lower(a: Address, b: Address): Address {
    if a <= b then a else b
  }

  function Higher(a: Address, b: Address): Address {
    if a <= b then b else a
  }

  // ---- Lists ----

  /** The values of a list, each where it was first seen. */
  function FirstSeen(s: seq<Address>): (r: seq<Address>) {
    if s == [] then []
    else
      var before, x := FirstSeen(s[..|s| - 1]), s[|s| - 1];
      if x in before then before else before + [x]
  }

  /** It has the same values, each of them once... */
  lemma {:induction false} FirstSeenIsASet(s: seq<Address>)
    ensures forall x :: x in FirstSeen(s) <==> x in s
    ensures forall i, j | 0 <= i < j < |FirstSeen(s)| :: FirstSeen(s)[i] != FirstSeen(s)[j]
  {
    if s != [] {
      var n := |s| - 1;
      FirstSeenIsASet(s[..n]);
      assert s == s[..n] + [s[n]];
    }
  }

  /** ...in the order they came: what a list begins with decides what the result begins with. */
  lemma {:induction false} FirstSeenInOrder(s: seq<Address>, t: seq<Address>)
    ensures FirstSeen(s) <= FirstSeen(s + t)
  {
    if t == [] {
      assert s + t == s;
    } else {
      FirstSeenInOrder(s, t[..|t| - 1]);
      assert (s + t)[..|s + t| - 1] == s + t[..|t| - 1];
    }
  }

  method AppendUnique(out: seq<Address>, seen: set<Address>, ips: seq<Address>, ghost all: seq<Address>)
    returns (out': seq<Address>, seen': set<Address>)
    requires out == FirstSeen(all) && seen == Values(out)
    ensures out' == FirstSeen(all + ips) && seen' == Values(out')
  {
    out', seen' := out, seen;
    assert all + ips[..0] == all;
    for i := 0 to |ips|
      invariant out' == FirstSeen(all + ips[..i]) && seen' == Values(out')
    {
      ghost var longer := all + ips[..i + 1];
      assert longer[..|longer| - 1] == all + ips[..i];
      if ips[i] in seen' {
        continue;
      }
      seen' := seen' + {ips[i]};
      out' := out' + [ips[i]];
    }
    assert ips[..|ips|] == ips;
  }

  function Values(s: seq<Address>): set<Address> {
    set x | x in s
  }

  predicate WellMasked(spec: Spec) {
    spec.Block? && spec.net.Some? ==> Masked(spec.net.value)
  }

  /** An expansion of one specification. */
  predicate Expands(spec: Spec, ips: Option<seq<Address>>)
    requires WellMasked(spec)
  {
    match spec
    case Single(ip) => if ip.None? then ips == None else ips == Some([ip.value])
    case Range(a, b) =>
      if a.None? || b.None? then ips == None
      else
        var lo, hi := Lower(a.value, b.value), Higher(a.value, b.value);
        ips.Some? && Interval(ips.value, lo, hi - lo + 1)
    case Block(net) =>
      if net.None? || net.value.ip4.None? then ips == None
      else if net.value.bits == 32 then ips.Some? && Interval(ips.value, net.value.ip4.value, Pow2(32 - net.value.ones))
      else ips == Some([])
  }

  method ExpandSpec(spec: Spec) returns (ips: Option<seq<Address>>)
    requires WellMasked(spec)
    ensures Expands(spec, ips)
  {
    match spec
    case Single(ip) => ips := if ip.None? then None else Some([ip.value]);
    case Range(a, b) => ips := ExpandRange(a, b);
    case Block(net) => ips := ExpandCidr(net);
  }

  /** A block is expanded to exactly its addresses if and only if it was not written as IPv6. */
  lemma BlockIsExactIff(n: Net, ips: seq<Address>)
    requires Masked(n) && n.ip4.Some? && Expands(Block(Some(n)), Some(ips))
    ensures Interval(ips, n.ip4.value, BlockSize(n)) <==> n.bits == 32
  {
  }

  /** The block 1.2.3.0/24 written as IPv6, ::ffff:1.2.3.0/120: 256 addresses, none of which come out, and no error. */
  lemma MappedBlockComesOutEmpty()
    ensures var n := Net(Some(0x01020300), 120, 128);
            Masked(n) && BlockSize(n) == 256 && Expands(Block(Some(n)), Some([]))
            && !Interval([], n.ip4.value, BlockSize(n))
  {
    assert Pow2(4) == 16;
    Pow2Sum(4, 4);
  }

  /** Two expansions of one specification are the same. */
  lemma ExpansionIsUnique(spec: Spec, a: Option<seq<Address>>, b: Option<seq<Address>>)
    requires WellMasked(spec) && Expands(spec, a) && Expands(spec, b)
    ensures a == b
  {
    if a.Some? && b.Some? {
      assert a.value == b.value;
    }
  }

  /** The expansions of a list, one after the other; nothing when one of them fails. */
  ghost predicate ExpandsAll(specs: seq<Spec>, all: seq<Address>)
    requires forall i | 0 <= i < |specs| :: WellMasked(specs[i])
  {
    exists parts: seq<seq<Address>> ::
      && |parts| == |specs|
      && (forall i | 0 <= i < |specs| :: Expands(specs[i], Some(parts[i])))
      && all == Concat(parts)
  }

  method ExpandList(specs: seq<Spec>) returns (r: Option<seq<Address>>, ghost all: seq<Address>)
    requires forall i | 0 <= i < |specs| :: WellMasked(specs[i])
    ensures r.None? <==> exists i :: 0 <= i < |specs| && Expands(specs[i], None)
    ensures r.Some? ==> ExpandsAll(specs, all) && r.value == FirstSeen(all)
  {
    var seen: set<Address>, out: seq<Address> := {}, [];
    all := [];
    ghost var parts: seq<seq<Address>> := [];
    for i := 0 to |specs|
      invariant |parts| == i && forall j | 0 <= j < i :: Expands(specs[j], Some(parts[j]))
      invariant all == Concat(parts) && out == FirstSeen(all) && seen == Values(out)
    {
      var ips := ExpandSpec(specs[i]);
      if ips.None? {
        return None, all;
      }
      out, seen := AppendUnique(out, seen, ips.value, all);
      ghost var before := parts;
      parts := parts + [ips.value];
      assert parts[..i] == before;
      all := all + ips.value;
    }
    if i :| 0 <= i < |specs| && Expands(specs[i], None) {
      ExpansionIsUnique(specs[i], None, Some(parts[i]));
    }
    r := Some(out);
  }
}
