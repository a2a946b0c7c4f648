/** Policy coverage of one target (internal/decision/policy_resolution.go): the
    recursive prefix splitting agrees with plain set union over addresses. */
module PolicyResolution {
  import opened Basics
  import opened Addresses

  datatype Coverage = NoCoverage | PartialCoverage | FullCoverage

  datatype PolicyError = TargetNotCanonical | ListNotCanonical

  /** The relation digest, as the value it binds: SHA-256 is taken as injective. */
  datatype Digest = NoDigest | RelationDigest(target: Prefix, allow: seq<Prefix>, protected: seq<Prefix>)

  datatype Resolution = Resolution(coverage: Coverage, digest: Digest)

  // ----- what coverage means

  ghost predicate AllCanonical(prefixes: seq<Prefix>) {
    forall i :: 0 <= i < |prefixes| ==> Canonical(prefixes[i])
  }

  /** Address `a` of family `f` lies in one of the listed prefixes of its family. */
  ghost predicate Listed(f: Family, a: nat, prefixes: seq<Prefix>)
    requires AllCanonical(prefixes)
  {
    exists i :: 0 <= i < |prefixes| && prefixes[i].family == f && Contains(prefixes[i], a)
  }

  ghost predicate Covered(target: Prefix, prefixes: seq<Prefix>)
    requires Canonical(target) && AllCanonical(prefixes)
  {
    forall a: nat :: Contains(target, a) ==> Listed(target.family, a, prefixes)
  }

  ghost predicate Touched(target: Prefix, prefixes: seq<Prefix>)
    requires Canonical(target) && AllCanonical(prefixes)
  {
    exists a: nat :: Contains(target, a) && Listed(target.family, a, prefixes)
  }

  // ----- splitPolicyPrefix

  /** The two halves of a prefix, as numbers. */
  function Halves(p: Prefix): (r: (Prefix, Prefix))
    requires Canonical(p) && p.bits < BitLen(p.family)
  {
    (p.(bits := p.bits + 1),
     Prefix(p.family, p.addr + Pow2(BitLen(p.family) - p.bits - 1), p.bits + 1))
  }

  /** The halves are canonical and partition the prefix. */
  lemma HalvesPartition(p: Prefix)
    requires Canonical(p) && p.bits < BitLen(p.family)
    ensures var (first, second) := Halves(p);
            && Canonical(first) && Canonical(second)
            && (forall a: nat :: Contains(p, a) <==> Contains(first, a) || Contains(second, a))
            && (forall a: nat :: !(Contains(first, a) && Contains(second, a)))
  {
    var (first, second) := Halves(p);
    var e := Span(first);
    assert Span(p) == 2 * e;
    CanonicalFits(p);
    HalfFloors(p.addr, e);
    assert Span(second) == e;
    forall a: nat
      ensures Contains(p, a) <==> Contains(first, a) || Contains(second, a)
      ensures !(Contains(first, a) && Contains(second, a))
    {
      CanonicalInterval(p, a);
      CanonicalInterval(first, a);
      CanonicalInterval(second, a);
    }
  }

  lemma HalfFloors(x: nat, e: nat)
    requires 1 <= e && Floor(x, 2 * e) == x
    ensures Floor(x, e) == x && Floor(x + e, e) == x + e
  {
    var k := x / (2 * e);
    assert x == (2 * k) * e;
    BlockOf(x, e, 2 * k);
    assert x + e == (2 * k + 1) * e;
    BlockOf(x + e, e, 2 * k + 1);
  }

  type Byte = b: nat | b < 256

  /** `As4` and `As16`: the big-endian bytes of an address. */
  function Bytes(a: nat, n: nat): (s: seq<Byte>)
    ensures |s| == n
  {
    if n == 0 then [] else Bytes(a / 256, n - 1) + [a % 256]
  }

  /** `AddrFrom4` and `AddrFrom16`. */
  function FromBytes(s: seq<Byte>): nat {
    if s == [] then 0 else FromBytes(s[..|s| - 1]) * 256 + s[|s| - 1]
  }

  /** `b | 1 << k` on one byte. */
  function OrBit(b: Byte, k: nat): nat {
    if b / Pow2(k) % 2 == 1 then b else b + Pow2(k)
  }

  lemma SmallPowers()
    ensures Pow2(0) == 1 && Pow2(1) == 2 && Pow2(2) == 4 && Pow2(3) == 8 && Pow2(4) == 16
    ensures Pow2(5) == 32 && Pow2(6) == 64 && Pow2(7) == 128 && Pow2(8) == 256
  {
  }

  /** Setting a bit that is clear adds it, and the result is still one byte. */
  lemma OrClearBit(a: nat, k: nat)
    requires k < 8 && a % Pow2(k + 1) == 0
    ensures OrBit(a % 256, k) == a % 256 + Pow2(k) < 256
  {
    SmallPowers();
    Pow2Adds(k, 7 - k);
    Pow2Adds(k + 1, 7 - k);
    ClearBit(a, Pow2(k), Pow2(7 - k));
  }

  lemma Distribute(e: nat, m: nat, q: nat, t: nat)
    ensures e * q - (e * m) * t == e * (q - m * t)
  {
    assert (e * m) * t == e * (m * t);
  }

  /** A multiple of `e` below `e * m` leaves room for a whole `e`. */
  lemma RoomAbove(e: nat, r: int, m: nat)
    requires 1 <= e && 0 <= e * r < e * m
    ensures 0 <= r && e * r + e <= e * m
  {
    assert r < 0 ==> e * r < 0;
    assert m <= r ==> e * m <= e * r;
    assert e * (r + 1) <= e * m;
  }

  lemma ClearBit(a: nat, d: nat, m: nat)
    requires 1 <= d && (2 * d) * m == 256 && a % (2 * d) == 0
    ensures a % 256 / d % 2 == 0 && a % 256 + d < 256
  {
    var e, b := 2 * d, a % 256;
    var q, t := a / e, a / 256;
    Distribute(e, m, q, t);
    var r := q - m * t;
    assert b == e * r;
    RoomAbove(e, r, m);
    assert e * r == (2 * r) * d;
    BlockOf(b, d, 2 * r);
  }

  lemma ShiftByte(a: nat, n: nat)
    requires 8 <= n && a % Pow2(n) == 0
    ensures a % 256 == 0 && a / 256 % Pow2(n - 8) == 0 && Pow2(n) == 256 * Pow2(n - 8)
  {
    SmallPowers();
    Pow2Adds(8, n - 8);
    var d := Pow2(n - 8);
    var m := a / (256 * d);
    assert a == 256 * (d * m);
    assert a / 256 == m * d;
    assert (m * d) % d == 0 by { BlockOf(m * d, d, m); }
  }

  /** The byte write of splitPolicyPrefix on a canonical address adds exactly the
      value of the bit it sets. */
  lemma {:induction false} ByteWriteAdds(a: nat, n: nat, bit: nat)
    requires bit < 8 * n && a % Pow2(8 * n - bit) == 0
    ensures var s := Bytes(a, n);
            && OrBit(s[bit / 8], 7 - bit % 8) < 256
            && FromBytes(s[bit / 8 := OrBit(s[bit / 8], 7 - bit % 8)]) == FromBytes(s) + Pow2(8 * n - 1 - bit)
  {
    var s := Bytes(a, n);
    var i, k := bit / 8, 7 - bit % 8;
    var init := Bytes(a / 256, n - 1);
    assert s[..n - 1] == init;
    if i == n - 1 {
      OrClearBit(a, k);
      assert s[i := OrBit(s[i], k)][..n - 1] == init;
    } else {
      ShiftByte(a, 8 * n - bit);
      ByteWriteAdds(a / 256, n - 1, bit);
      assert s[i] == init[i];
      assert s[i := OrBit(s[i], k)][..n - 1] == init[i := OrBit(init[i], k)];
      ShiftPow(8 * n - 1 - bit);
    }
  }

  lemma ShiftPow(n: nat)
    requires 8 <= n
    ensures Pow2(n) == 256 * Pow2(n - 8)
  {
    SmallPowers();
    Pow2Adds(8, n - 8);
  }

  lemma {:induction false} BytesRoundTrip(a: nat, n: nat)
    requires a < Pow2(8 * n)
    ensures FromBytes(Bytes(a, n)) == a
  {
    if n != 0 {
      ShiftPow(8 * n);
      BytesRoundTrip(a / 256, n - 1);
      assert Bytes(a, n)[..n - 1] == Bytes(a / 256, n - 1);
    }
  }

  /** On a canonical prefix the byte write of splitPolicyPrefix reaches the second half. */
  lemma ByteWriteHalves(p: Prefix)
    requires Canonical(p) && p.bits < BitLen(p.family)
    ensures var n := BitLen(p.family) / 8;
            var s := Bytes(p.addr, n);
            && OrBit(s[p.bits / 8], 7 - p.bits % 8) < 256
            && FromBytes(s[p.bits / 8 := OrBit(s[p.bits / 8], 7 - p.bits % 8)]) == Halves(p).1.addr
  {
    var n := BitLen(p.family) / 8;
    FloorDivides(p.addr, Span(p));
    ByteWriteAdds(p.addr, n, p.bits);
    BytesRoundTrip(p.addr, n);
  }

  /** splitPolicyPrefix: the byte write yields the two halves. */
  method SplitPolicyPrefix(p: Prefix) returns (first: Prefix, second: Prefix)
    requires Canonical(p) && p.bits < BitLen(p.family)
    ensures (first, second) == Halves(p)
  {
    HalvesPartition(p);
    ByteWriteHalves(p);
    first := Masked(p.(bits := p.bits + 1));
    var bytes := Bytes(p.addr, BitLen(p.family) / 8);
    var address := new Byte[|bytes|](i requires 0 <= i < |bytes| => bytes[i]);
    var at := p.bits / 8;
    address[at] := OrBit(address[at], 7 - p.bits % 8);
    assert address[..] == bytes[at := OrBit(bytes[at], 7 - p.bits % 8)];
    second := Masked(Prefix(p.family, FromBytes(address[..]), p.bits + 1));
  }

  lemma FloorDivides(a: nat, d: nat)
    requires 1 <= d && Floor(a, d) == a
    ensures a % d == 0
  {
  }

  // ----- the scans and the recursion

  predicate AnyPolicyOverlap(target: Prefix, prefixes: seq<Prefix>)
    requires Canonical(target) && AllCanonical(prefixes)
  {
    exists i | 0 <= i < |prefixes| ::
      BitLen(prefixes[i].family) == BitLen(target.family) && Overlaps(prefixes[i], target)
  }

  predicate AnyCovers(target: Prefix, prefixes: seq<Prefix>)
    requires Canonical(target) && AllCanonical(prefixes)
  {
    exists i | 0 <= i < |prefixes| ::
      BitLen(prefixes[i].family) == BitLen(target.family) &&
      prefixes[i].bits <= target.bits && Contains(prefixes[i], target.addr)
  }

  predicate PolicyUnionCovers(target: Prefix, prefixes: seq<Prefix>)
    requires Canonical(target) && AllCanonical(prefixes)
    decreases BitLen(target.family) - target.bits
  {
    if AnyCovers(target, prefixes) then true
    else if !AnyPolicyOverlap(target, prefixes) || target.bits == BitLen(target.family) then false
    else
      HalvesPartition(target);
      var (first, second) := Halves(target);
      PolicyUnionCovers(first, prefixes) && PolicyUnionCovers(second, prefixes)
  }

  /** `AnyPolicyOverlap` is the existence of a common address. */
  lemma OverlapIsTouch(target: Prefix, prefixes: seq<Prefix>)
    requires Canonical(target) && AllCanonical(prefixes)
    ensures AnyPolicyOverlap(target, prefixes) <==> Touched(target, prefixes)
  {
    if AnyPolicyOverlap(target, prefixes) {
      var i :| 0 <= i < |prefixes| &&
        BitLen(prefixes[i].family) == BitLen(target.family) && Overlaps(prefixes[i], target);
      var p := prefixes[i];
      var a := if p.bits <= target.bits then target.addr else p.addr;
      CommonAddress(p, target);
      assert Contains(target, a) && Contains(p, a);
      assert Listed(target.family, a, prefixes);
    }
    if Touched(target, prefixes) {
      var a: nat :| Contains(target, a) && Listed(target.family, a, prefixes);
      var i :| 0 <= i < |prefixes| && prefixes[i].family == target.family && Contains(prefixes[i], a);
      if prefixes[i].bits <= target.bits {
        Nested(prefixes[i], target);
      } else {
        Nested(target, prefixes[i]);
      }
    }
  }

  lemma CommonAddress(p: Prefix, q: Prefix)
    requires Canonical(p) && Canonical(q) && p.family == q.family && Overlaps(p, q)
    ensures p.bits <= q.bits ==> Contains(p, q.addr)
    ensures q.bits <= p.bits ==> Contains(q, p.addr)
  {
    if p.bits <= q.bits { Nested(p, q); }
    if q.bits <= p.bits { Nested(q, p); }
  }

  /** One listed prefix that holds the target's address and is no longer than the
      target covers it. */
  lemma OneCovers(target: Prefix, prefixes: seq<Prefix>)
    requires Canonical(target) && AllCanonical(prefixes) && AnyCovers(target, prefixes)
    ensures Covered(target, prefixes)
  {
    var i :| 0 <= i < |prefixes| && BitLen(prefixes[i].family) == BitLen(target.family) &&
      prefixes[i].bits <= target.bits && Contains(prefixes[i], target.addr);
    Nested(prefixes[i], target);
    forall a: nat | Contains(target, a)
      ensures Listed(target.family, a, prefixes)
    {
      assert Contains(prefixes[i], a);
    }
  }

  /** A full-length target that no prefix covers by itself is not covered. */
  lemma SingleAddress(target: Prefix, prefixes: seq<Prefix>)
    requires Canonical(target) && AllCanonical(prefixes) && target.bits == BitLen(target.family)
    requires !AnyCovers(target, prefixes)
    ensures !Covered(target, prefixes)
  {
    assert Contains(target, target.addr);
    assert !Listed(target.family, target.addr, prefixes);
  }

  /** policyUnionCovers is true exactly when every address of the target lies in a
      listed prefix of its family. */
  lemma {:induction false} UnionCoversIsCovered(target: Prefix, prefixes: seq<Prefix>)
    requires Canonical(target) && AllCanonical(prefixes)
    ensures PolicyUnionCovers(target, prefixes) <==> Covered(target, prefixes)
    decreases BitLen(target.family) - target.bits
  {
    if AnyCovers(target, prefixes) {
      OneCovers(target, prefixes);
    } else if !AnyPolicyOverlap(target, prefixes) {
      OverlapIsTouch(target, prefixes);
      assert Contains(target, target.addr);
    } else if target.bits == BitLen(target.family) {
      SingleAddress(target, prefixes);
    } else {
      HalvesPartition(target);
      var (first, second) := Halves(target);
      UnionCoversIsCovered(first, prefixes);
      UnionCoversIsCovered(second, prefixes);
    }
  }

  // ----- cost of the recursion

  /** The number of prefixes policyUnionCovers visits, with `&&` short-circuiting. */
  function Visits(target: Prefix, prefixes: seq<Prefix>): nat
    requires Canonical(target) && AllCanonical(prefixes)
    decreases BitLen(target.family) - target.bits
  {
    if AnyCovers(target, prefixes) then 1
    else if !AnyPolicyOverlap(target, prefixes) || target.bits == BitLen(target.family) then 1
    else
      HalvesPartition(target);
      var (first, second) := Halves(target);
      1 + Visits(first, prefixes) +
      (if PolicyUnionCovers(first, prefixes) then Visits(second, prefixes) else 0)
  }

  /** The listed prefixes that lie strictly inside the target. */
  ghost predicate Inside(p: Prefix, target: Prefix)
    requires Canonical(p) && Canonical(target)
  {
    p.family == target.family && target.bits < p.bits && Contains(target, p.addr)
  }

  ghost function InsideCount(target: Prefix, prefixes: seq<Prefix>): (n: nat)
    requires Canonical(target) && AllCanonical(prefixes)
    ensures n <= |prefixes|
  {
    if prefixes == [] then 0
    else (if Inside(prefixes[0], target) then 1 else 0) + InsideCount(target, prefixes[1..])
  }

  lemma {:induction false} InsideCountSplits(target: Prefix, prefixes: seq<Prefix>)
    requires Canonical(target) && AllCanonical(prefixes) && target.bits < BitLen(target.family)
    ensures Canonical(Halves(target).0) && Canonical(Halves(target).1)
    ensures InsideCount(Halves(target).0, prefixes) + InsideCount(Halves(target).1, prefixes)
         <= InsideCount(target, prefixes)
  {
    HalvesPartition(target);
    if prefixes != [] {
      InsideCountSplits(target, prefixes[1..]);
    }
  }

  lemma {:induction false} InsideCountPositive(target: Prefix, prefixes: seq<Prefix>, i: nat)
    requires Canonical(target) && AllCanonical(prefixes)
    requires i < |prefixes| && Inside(prefixes[i], target)
    ensures 1 <= InsideCount(target, prefixes)
  {
    if i != 0 {
      InsideCountPositive(target, prefixes[1..], i - 1);
    }
  }

  lemma SplitNeedsInside(target: Prefix, prefixes: seq<Prefix>)
    requires Canonical(target) && AllCanonical(prefixes)
    requires !AnyCovers(target, prefixes) && AnyPolicyOverlap(target, prefixes)
    ensures 1 <= InsideCount(target, prefixes)
  {
    var i :| 0 <= i < |prefixes| &&
      BitLen(prefixes[i].family) == BitLen(target.family) && Overlaps(prefixes[i], target);
    CommonAddress(prefixes[i], target);
    InsideCountPositive(target, prefixes, i);
  }

  lemma Budget(x: nat, y: nat, n: nat, depth: nat)
    requires 1 <= n && x + y <= n && 1 <= depth
    ensures 3 + 2 * (x * (depth - 1)) + 2 * (y * (depth - 1)) <= 1 + 2 * (n * depth)
  {
    var d := depth - 1;
    assert x * d + y * d == (x + y) * d;
    TimesMonotone(x + y, n, d);
    assert n * depth == n * d + n;
  }

  lemma {:induction false} VisitsBoundedInside(target: Prefix, prefixes: seq<Prefix>)
    requires Canonical(target) && AllCanonical(prefixes)
    ensures Visits(target, prefixes)
         <= 1 + 2 * (InsideCount(target, prefixes) * (BitLen(target.family) - target.bits))
    decreases BitLen(target.family) - target.bits
  {
    var n, depth := InsideCount(target, prefixes), BitLen(target.family) - target.bits;
    if AnyCovers(target, prefixes) || !AnyPolicyOverlap(target, prefixes) || depth == 0 {
      TimesMonotone(0, n, depth);
    } else {
      SplitNeedsInside(target, prefixes);
      InsideCountSplits(target, prefixes);
      var (first, second) := Halves(target);
      VisitsBoundedInside(first, prefixes);
      VisitsBoundedInside(second, prefixes);
      Budget(InsideCount(first, prefixes), InsideCount(second, prefixes), n, depth);
    }
  }

  /** The recursion visits at most `1 + 2 * n * (BitLen - bits)` prefixes. */
  lemma VisitsBounded(target: Prefix, prefixes: seq<Prefix>)
    requires Canonical(target) && AllCanonical(prefixes)
    ensures Visits(target, prefixes) <= 1 + 2 * (|prefixes| * (BitLen(target.family) - target.bits))
  {
    VisitsBoundedInside(target, prefixes);
    TimesMonotone(InsideCount(target, prefixes), |prefixes|, BitLen(target.family) - target.bits);
  }

  // ----- canonicalPolicyRelationPrefixes

  /** The order of the canonical lists. The source orders prefixes by their text;
      only that the order is total on prefixes matters. */
  predicate Before(p: Prefix, q: Prefix) {
    if p.family != q.family then p.family.V4?
    else if p.addr != q.addr then p.addr < q.addr
    else p.bits < q.bits
  }

  ghost predicate StrictlySorted(s: seq<Prefix>) {
    forall i, j :: 0 <= i < j < |s| ==> Before(s[i], s[j])
  }

  ghost predicate Sorted(s: seq<Prefix>) {
    forall i, j :: 0 <= i < j < |s| ==> s[i] == s[j] || Before(s[i], s[j])
  }

  ghost function Elements(s: seq<Prefix>): set<Prefix> {
    set i | 0 <= i < |s| :: s[i]
  }

  /** A set of prefixes has one strictly sorted listing. */
  lemma {:induction false} SortedListingUnique(s: seq<Prefix>, t: seq<Prefix>)
    requires StrictlySorted(s) && StrictlySorted(t) && Elements(s) == Elements(t)
    ensures s == t
  {
    NoElements(s);
    NoElements(t);
    if s != [] && t != [] {
      SameHead(s, t);
      RestElements(s);
      RestElements(t);
      SortedListingUnique(s[1..], t[1..]);
      assert s == [s[0]] + s[1..] && t == [t[0]] + t[1..];
    }
  }

  lemma NoElements(s: seq<Prefix>)
    ensures s == [] <==> Elements(s) == {}
  {
    if s != [] {
      assert s[0] in Elements(s);
    }
  }

  lemma SameHead(s: seq<Prefix>, t: seq<Prefix>)
    requires StrictlySorted(s) && StrictlySorted(t) && Elements(s) == Elements(t)
    requires s != [] && t != []
    ensures s[0] == t[0]
  {
    assert s[0] in Elements(t) && t[0] in Elements(s);
    var i :| 0 <= i < |t| && t[i] == s[0];
    var j :| 0 <= j < |s| && s[j] == t[0];
  }

  lemma RestElements(s: seq<Prefix>)
    requires StrictlySorted(s) && s != []
    ensures StrictlySorted(s[1..]) && Elements(s[1..]) == Elements(s) - {s[0]}
  {
    var rest := s[1..];
    forall p | p in Elements(s) - {s[0]}
      ensures p in Elements(rest)
    {
      var i :| 0 <= i < |s| && s[i] == p;
      assert rest[i - 1] == p;
    }
    forall p | p in Elements(rest)
      ensures p in Elements(s) - {s[0]}
    {
      var i :| 0 <= i < |rest| && rest[i] == p;
      assert s[i + 1] == p && Before(s[0], s[i + 1]);
    }
  }

  function InsertSorted(p: Prefix, s: seq<Prefix>): seq<Prefix> {
    if s == [] || !Before(s[0], p) then [p] + s else [s[0]] + InsertSorted(p, s[1..])
  }

  /** `sort.Slice`. */
  function SortPrefixes(s: seq<Prefix>): seq<Prefix> {
    if s == [] then [] else InsertSorted(s[0], SortPrefixes(s[1..]))
  }

  lemma {:induction false} InsertSortedKeeps(p: Prefix, s: seq<Prefix>)
    requires Sorted(s)
    ensures Sorted(InsertSorted(p, s)) && Elements(InsertSorted(p, s)) == Elements(s) + {p}
  {
    var r := InsertSorted(p, s);
    if s == [] || !Before(s[0], p) {
      ConsElements(p, s);
    } else {
      InsertSortedKeeps(p, s[1..]);
      ConsElements(s[0], s[1..]);
      ConsElements(s[0], InsertSorted(p, s[1..]));
      assert s == [s[0]] + s[1..];
      forall j | 0 < j < |r|
        ensures r[0] == r[j] || Before(r[0], r[j])
      {
        assert r[j] in Elements(InsertSorted(p, s[1..]));
      }
    }
  }

  lemma ConsElements(p: Prefix, s: seq<Prefix>)
    ensures Elements([p] + s) == Elements(s) + {p}
  {
    var r := [p] + s;
    forall q | q in Elements(s)
      ensures q in Elements(r)
    {
      var i :| 0 <= i < |s| && s[i] == q;
      assert r[i + 1] == q;
    }
    assert r[0] == p;
  }

  lemma {:induction false} SortPrefixesKeeps(s: seq<Prefix>)
    ensures Sorted(SortPrefixes(s)) && Elements(SortPrefixes(s)) == Elements(s)
  {
    if s != [] {
      SortPrefixesKeeps(s[1..]);
      InsertSortedKeeps(s[0], SortPrefixes(s[1..]));
      ConsElements(s[0], s[1..]);
      assert s == [s[0]] + s[1..];
    }
  }

  /** canonicalPolicyRelationPrefixes: sort, then drop duplicates in place. */
  method CanonicalPolicyRelationPrefixes(prefixes: seq<Prefix>) returns (r: Result<seq<Prefix>, PolicyError>)
    ensures r.Ok? <==> AllCanonical(prefixes)
    ensures r.Ok? ==> StrictlySorted(r.value) && Elements(r.value) == Elements(prefixes)
  {
    hide Canonical, StrictlySorted, Sorted, Elements;
    for k := 0 to |prefixes|
      invariant forall i :: 0 <= i < k ==> Canonical(prefixes[i])
    {
      if !Canonical(prefixes[k]) {
        return Err(ListNotCanonical);
      }
    }
    SortPrefixesKeeps(prefixes);
    var unique := DropDuplicates(SortPrefixes(prefixes));
    r := Ok(unique);
  }

  method DropDuplicates(sorted: seq<Prefix>) returns (r: seq<Prefix>)
    requires Sorted(sorted)
    ensures StrictlySorted(r) && Elements(r) == Elements(sorted)
  {
    var prepared := new Prefix[|sorted|](i requires 0 <= i < |sorted| => sorted[i]);
    var write := 0;
    assert StrictlySorted(prepared[..0]) && Elements(prepared[..0]) == Elements(sorted[..0]);
    for k := 0 to prepared.Length
      invariant 0 <= write <= k
      invariant forall i :: k <= i < |sorted| ==> prepared[i] == sorted[i]
      invariant StrictlySorted(prepared[..write])
      invariant Elements(prepared[..write]) == Elements(sorted[..k])
      invariant 0 < k ==> 0 < write && prepared[write - 1] == sorted[k - 1]
    {
      hide StrictlySorted, Elements, Before;
      ElementsTake(sorted, k);
      var prefix := prepared[k];
      if write != 0 && prepared[write - 1] == prefix {
        AlreadyListed(prepared[..write], prefix);
        continue;
      }
      ghost var before := prepared[..write];
      AppendSorted(before, prefix);
      ElementsAppend(before, prefix);
      prepared[write] := prefix;
      assert prepared[..write + 1] == before + [prefix];
      write := write + 1;
    }
    assert sorted[..|sorted|] == sorted;
    r := prepared[..write];
  }

  lemma AlreadyListed(s: seq<Prefix>, p: Prefix)
    requires s != [] && s[|s| - 1] == p
    ensures Elements(s) + {p} == Elements(s)
  {
    assert s[|s| - 1] in Elements(s);
  }

  lemma AppendSorted(s: seq<Prefix>, p: Prefix)
    requires StrictlySorted(s) && (s != [] ==> Before(s[|s| - 1], p))
    ensures StrictlySorted(s + [p])
  {
    var r := s + [p];
    forall i, j | 0 <= i < j < |r|
      ensures Before(r[i], r[j])
    {
      assert i < |s| - 1 ==> Before(s[i], s[|s| - 1]);
    }
  }

  lemma ElementsAppend(s: seq<Prefix>, p: Prefix)
    ensures Elements(s + [p]) == Elements(s) + {p}
  {
    var r := s + [p];
    assert r[|s|] == p;
    forall q | q in Elements(s)
      ensures q in Elements(r)
    {
      var i :| 0 <= i < |s| && s[i] == q;
      assert r[i] == q;
    }
  }

  lemma ElementsTake(s: seq<Prefix>, k: nat)
    requires k < |s|
    ensures Elements(s[..k + 1]) == Elements(s[..k]) + {s[k]}
  {
    assert s[..k + 1] == s[..k] + [s[k]];
    ElementsAppend(s[..k], s[k]);
  }

  // ----- ResolvePolicy

  /** Coverage depends only on which prefixes are listed. */
  lemma CoverageOfElements(target: Prefix, s: seq<Prefix>, t: seq<Prefix>)
    requires Canonical(target) && AllCanonical(s) && AllCanonical(t) && Elements(s) == Elements(t)
    ensures Covered(target, s) <==> Covered(target, t)
    ensures Touched(target, s) <==> Touched(target, t)
  {
    forall a: nat
      ensures Listed(target.family, a, s) <==> Listed(target.family, a, t)
    {
      ListedInOther(target.family, a, s, t);
      ListedInOther(target.family, a, t, s);
    }
  }

  lemma ListedInOther(f: Family, a: nat, s: seq<Prefix>, t: seq<Prefix>)
    requires AllCanonical(s) && AllCanonical(t) && Elements(s) <= Elements(t)
    ensures Listed(f, a, s) ==> Listed(f, a, t)
  {
    if Listed(f, a, s) {
      var i :| 0 <= i < |s| && s[i].family == f && Contains(s[i], a);
      assert s[i] in Elements(t);
    }
  }

  ghost predicate Resolves(target: Prefix, allow: seq<Prefix>, protected: seq<Prefix>, r: Resolution)
    requires Canonical(target) && AllCanonical(allow) && AllCanonical(protected)
  {
    var related := allow + protected;
    && (r.coverage.NoCoverage? <==> !Touched(target, related))
    && (r.coverage.FullCoverage? <==> Covered(target, related))
    && (r.coverage.NoCoverage? ==> r.digest == NoDigest)
    && (!r.coverage.NoCoverage? ==>
          && r.digest.RelationDigest? && r.digest.target == target
          && StrictlySorted(r.digest.allow) && Elements(r.digest.allow) == Elements(allow)
          && StrictlySorted(r.digest.protected) && Elements(r.digest.protected) == Elements(protected))
  }

  /** ResolvePolicy: None, Partial and Full are the set relations; anything not
      canonical is refused. */
  method ResolvePolicy(target: Prefix, allow: seq<Prefix>, protected: seq<Prefix>)
    returns (r: Result<Resolution, PolicyError>)
    ensures r.Ok? <==> Canonical(target) && AllCanonical(allow) && AllCanonical(protected)
    ensures !Canonical(target) ==> r == Err(TargetNotCanonical)
    ensures r.Ok? ==> Resolves(target, allow, protected, r.value)
  {
    if !Canonical(target) {
      return Err(TargetNotCanonical);
    }
    var a := CanonicalPolicyRelationPrefixes(allow);
    if a.Err? {
      return Err(a.error);
    }
    var p := CanonicalPolicyRelationPrefixes(protected);
    if p.Err? {
      return Err(p.error);
    }
    var related := a.value + p.value;
    SameElements(allow, a.value);
    SameElements(protected, p.value);
    ElementsConcat(allow, protected);
    ElementsConcat(a.value, p.value);
    CoverageOfElements(target, allow + protected, related);
    OverlapIsTouch(target, related);
    UnionCoversIsCovered(target, related);
    assert Contains(target, target.addr);
    if |related| == 0 || !AnyPolicyOverlap(target, related) {
      return Ok(Resolution(NoCoverage, NoDigest));
    }
    var covered := PolicyUnionCovers(target, related);
    r := Ok(Resolution(if covered then FullCoverage else PartialCoverage,
                       RelationDigest(target, a.value, p.value)));
  }

  lemma SameElements(s: seq<Prefix>, t: seq<Prefix>)
    requires AllCanonical(s) && Elements(s) == Elements(t)
    ensures AllCanonical(t)
  {
    forall i | 0 <= i < |t|
      ensures Canonical(t[i])
    {
      assert t[i] in Elements(s);
    }
  }

  lemma ElementsConcat(s: seq<Prefix>, t: seq<Prefix>)
    ensures Elements(s + t) == Elements(s) + Elements(t)
  {
    var r := s + t;
    forall p | p in Elements(s) + Elements(t)
      ensures p in Elements(r)
    {
      if p in Elements(s) {
        var i :| 0 <= i < |s| && s[i] == p;
        assert r[i] == p;
      } else {
        var i :| 0 <= i < |t| && t[i] == p;
        assert r[|s| + i] == p;
      }
    }
    forall p | p in Elements(r)
      ensures p in Elements(s) + Elements(t)
    {
      var i :| 0 <= i < |r| && r[i] == p;
      assert i < |s| ==> s[i] == p;
      assert |s| <= i ==> t[i - |s|] == p;
    }
  }

  /** A resolution, digest included, ignores the order and duplicates of its inputs. */
  lemma ResolutionIgnoresOrder(target: Prefix, allow: seq<Prefix>, protected: seq<Prefix>, r: Resolution,
                               allow': seq<Prefix>, protected': seq<Prefix>, r': Resolution)
    requires Canonical(target)
    requires AllCanonical(allow) && AllCanonical(protected) && Resolves(target, allow, protected, r)
    requires AllCanonical(allow') && AllCanonical(protected') && Resolves(target, allow', protected', r')
    requires Elements(allow) == Elements(allow') && Elements(protected) == Elements(protected')
    ensures r == r'
  {
    ElementsConcat(allow, protected);
    ElementsConcat(allow', protected');
    CoverageOfElements(target, allow + protected, allow' + protected');
    assert Contains(target, target.addr);
    if !r.coverage.NoCoverage? {
      SortedListingUnique(r.digest.allow, r'.digest.allow);
      SortedListingUnique(r.digest.protected, r'.digest.protected);
    }
  }
}
