/** Addresses and prefixes in the sense of Go's net/netip: a family, a number
    below 2^32 or 2^128, and a prefix length. Prefix lengths and masks are those
    of section 3.1 of RFC 4632 and section 2.3 of RFC 4291. */
module Addresses {

  datatype Family = V4 | V6

  function BitLen(f: Family): nat {
    if f.V4? then 32 else 128
  }

  function Pow2(n: nat): (p: nat)
    ensures 1 <= p
  {
    if n == 0 then 1 else 2 * Pow2(n - 1)
  }

  datatype Prefix = Prefix(family: Family, addr: nat, bits: nat)

  predicate IsValid(p: Prefix) {
    p.bits <= BitLen(p.family) && p.addr < Pow2(BitLen(p.family))
  }

  /** The number of addresses of a prefix. */
  function Span(p: Prefix): (n: nat)
    requires p.bits <= BitLen(p.family)
    ensures 1 <= n
  {
    Pow2(BitLen(p.family) - p.bits)
  }

  /** The start of the block of length `d` that holds `a`. */
  function Floor(a: nat, d: nat): (r: nat)
    requires 1 <= d
    ensures r <= a < r + d
  {
    a / d * d
  }

  function Masked(p: Prefix): Prefix
    requires IsValid(p)
  {
    p.(addr := Floor(p.addr, Span(p)))
  }

  predicate Canonical(p: Prefix) {
    IsValid(p) && Masked(p) == p
  }

  /** `Prefix.Contains` for an address of the same family: equal after shifting
      the host bits out. */
  predicate Contains(p: Prefix, a: nat)
    requires IsValid(p)
  {
    a / Span(p) == p.addr / Span(p)
  }

  /** `Prefix.Overlaps`: the two addresses agree on the shorter prefix length. */
  predicate Overlaps(p: Prefix, q: Prefix)
    requires IsValid(p) && IsValid(q)
  {
    p == q || (p.family == q.family &&
    var bits := if p.bits < q.bits then p.bits else q.bits;
    bits == 0 || Masked(p.(bits := bits)) == Masked(q.(bits := bits)))
  }

  // ----- arithmetic of spans

  lemma {:induction false} Pow2Adds(m: nat, n: nat)
    ensures Pow2(m + n) == Pow2(m) * Pow2(n)
  {
    if m != 0 {
      Pow2Adds(m - 1, n);
    }
  }

  lemma TimesMonotone(i: nat, k: nat, d: nat)
    requires i <= k
    ensures i * d <= k * d
  {
  }

  /** Dividing by `d` places `a` in exactly one block of length `d`. */
  lemma BlockOf(a: nat, d: nat, k: nat)
    requires 1 <= d
    ensures a / d == k <==> k * d <= a < k * d + d
  {
    var q := a / d;
    if k < q {
      TimesMonotone(k + 1, q, d);
    } else if q < k {
      TimesMonotone(q + 1, k, d);
    }
  }

  /** Two numbers share a block exactly when their blocks start together. */
  lemma SameFloor(x: nat, y: nat, d: nat)
    requires 1 <= d
    ensures Floor(x, d) == Floor(y, d) <==> x / d == y / d
  {
    BlockOf(x, d, x / d);
    BlockOf(x, d, y / d);
  }

  /** A canonical prefix is the half-open interval that starts at its address. */
  lemma CanonicalInterval(p: Prefix, a: nat)
    requires Canonical(p)
    ensures Contains(p, a) <==> p.addr <= a < p.addr + Span(p)
  {
    var d := Span(p);
    BlockOf(a, d, p.addr / d);
  }

  /** Blocks of length `e` nest in blocks of length `f * e`. */
  lemma BlocksNest(i: nat, k: nat, f: nat, e: nat)
    ensures k * (f * e) == (k * f) * e
    ensures i < k * f + f ==> i * e + e <= k * (f * e) + f * e
    ensures k * f + f <= i ==> k * (f * e) + f * e <= i * e
    ensures i < k * f ==> i * e + e <= k * (f * e)
    ensures k * f <= i ==> k * (f * e) <= i * e
  {
    var m, n := k * f, k * f + f;
    assert k * (f * e) == m * e;
    assert n * e == m * e + f * e;
    if i < n { TimesMonotone(i + 1, n, e); } else { TimesMonotone(n, i, e); }
    if i < m { TimesMonotone(i + 1, m, e); } else { TimesMonotone(m, i, e); }
  }

  /** The canonical block of length `e` at `y` lies inside the canonical block of
      length `f * e` at `x`, or outside it. */
  lemma CanonicalBlocksNest(x: nat, y: nat, f: nat, e: nat)
    requires 1 <= e && 1 <= f * e
    requires Floor(x, f * e) == x && Floor(y, e) == y
    ensures x <= y < x + f * e ==> y + e <= x + f * e
    ensures y < x ==> y + e <= x
    ensures x + f * e <= y || y + e <= x || (x <= y && y + e <= x + f * e)
  {
    BlocksNest(y / e, x / (f * e), f, e);
  }

  lemma SpanNests(p: Prefix, bits: nat)
    requires p.bits <= bits <= BitLen(p.family)
    ensures Span(p) == Pow2(bits - p.bits) * Span(p.(bits := bits))
  {
    Pow2Adds(bits - p.bits, BitLen(p.family) - bits);
  }

  /** A canonical prefix lies below the top of its family's address space. */
  lemma CanonicalFits(p: Prefix)
    requires Canonical(p)
    ensures p.addr + Span(p) <= Pow2(BitLen(p.family))
  {
    var all := p.(bits := 0, addr := 0);
    SpanNests(all, p.bits);
    var f, e := Pow2(p.bits), Span(p);
    assert Floor(0, f * e) == 0;
    CanonicalBlocksNest(0, p.addr, f, e);
  }

  /** Of two canonical prefixes of one family the shorter one either holds the
      whole longer one or none of it, and `Overlaps` tells the two apart. */
  lemma Nested(p: Prefix, q: Prefix)
    requires Canonical(p) && Canonical(q) && p.family == q.family && p.bits <= q.bits
    ensures Overlaps(p, q) <==> Contains(p, q.addr)
    ensures Overlaps(q, p) <==> Contains(p, q.addr)
    ensures forall a: nat :: Contains(q, a) ==> (Contains(p, a) <==> Contains(p, q.addr))
  {
    var d, e := Span(p), Span(q);
    SameFloor(p.addr, q.addr, d);
    assert p.(bits := p.bits) == p;
    if p.bits == 0 {
      CanonicalFits(p);
      CanonicalInterval(p, q.addr);
    }
    SpanNests(p, q.bits);
    CanonicalBlocksNest(p.addr, q.addr, Pow2(q.bits - p.bits), e);
    CanonicalInterval(p, q.addr);
    forall a: nat | Contains(q, a)
      ensures Contains(p, a) <==> Contains(p, q.addr)
    {
      CanonicalInterval(p, a);
      CanonicalInterval(q, a);
    }
  }
}
