/** k-anonymity prefix buckets: masking and range bounds (crates/core/src/bucket.rs). */
module Buckets {
  import opened Wrappers
  import opened Sequences
  import opened Strings
  import opened Arithmetic
  import opened Hashes

  const HASH_BITS := 256

  /** Sorts after every printed hash; the upper bound of the last bucket. */
  const SENTINEL := "g"

  function Clamp(bits: nat): (b: nat)
    ensures b <= HASH_BITS
  {
    if bits > HASH_BITS then HASH_BITS else bits
  }

  /** How many hashes one bucket of this width holds. */
  function Span(bits: nat): (p: nat)
    ensures p > 0
  {
    Pow2(HASH_BITS - Clamp(bits))
  }

  /** Round down to a multiple of the bucket size. */
  function RoundDown(v: nat, p: nat): (r: nat)
    requires p > 0
    ensures r <= v < r + p
  {
    DivModEquation(v, p);
    v / p * p
  }

  lemma Quotient(v: nat, p: nat) returns (k: nat)
    requires p > 0
    ensures RoundDown(v, p) == k * p
  {
    DivModEquation(v, p);
    k := v / p;
  }

  lemma OneMore(k: nat, p: nat)
    ensures (k + 1) * p == k * p + p
  {
  }

  /** The lowest hash of `h`'s bucket. */
  function Masked(h: Hash, bits: nat): (m: Hash)
    ensures Value(m) == RoundDown(Value(h), Span(bits))
  {
    ValueBound(h);
    ToBytes(RoundDown(Value(h), Span(bits)), HASH_BYTES)
  }

  function BucketKey(h: Hash, bits: nat): string {
    Hex(Masked(h, bits))
  }

  /** The first number past the bucket. */
  function Next(lo: Hash, bits: nat): nat {
    Value(Masked(lo, bits)) + Span(bits)
  }

  /** A printed number, or the sentinel for one too large for a hash. */
  function Bound(v: nat): string {
    if v < Weight(HASH_BYTES) then Hex(ToBytes(v, HASH_BYTES)) else SENTINEL
  }

  /** One past the bucket: the next bucket's key, or the sentinel past the last one. */
  function BucketUpper(lo: Hash, bits: nat): string {
    Bound(Next(lo, bits))
  }

  // ---- The byte mask -------------------------------------------------------

  /** Bitwise and. */
  function And(a: nat, b: nat): nat {
    if a == 0 then 0
    else 2 * And(a / 2, b / 2) + (if a % 2 == 1 && b % 2 == 1 then 1 else 0)
  }

  /** `0xFFu8 << k`: what is shifted past the top of the byte is lost. */
  function HighMask(k: nat): nat {
    0xFF * Pow2(k) % 256
  }

  /** `b & (0xFF << (8 - rem))`: keep the top `rem` bits of a byte. */
  function KeepTop(b: byte, rem: nat): (r: byte)
    requires 0 < rem < 8
    ensures r == RoundDown(b, Pow2(8 - rem))
  {
    KeepTopRoundsDown(b, 8 - rem);
    And(b, HighMask(8 - rem))
  }

  lemma {:induction false} AndOnes(a: nat, n: nat)
    requires a < Pow2(n)
    ensures And(a, Pow2(n) - 1) == a
  {
    if a > 0 {
      assert (Pow2(n) - 1) / 2 == Pow2(n - 1) - 1;
      AndOnes(a / 2, n - 1);
    }
  }

  lemma AndEven(a: nat, m: nat)
    ensures And(a, 2 * m) == 2 * And(a / 2, m)
  {
  }

  lemma RoundDownHalf(a: nat, p: nat)
    requires p > 0
    ensures RoundDown(a, 2 * p) == 2 * RoundDown(a / 2, p)
  {
    var q, r := a / 2 / p, a / 2 % p;
    DivModEquation(a / 2, p);
    assert q * (2 * p) == 2 * (q * p);
    DivModUnique(a, 2 * p, q, 2 * r + a % 2);
  }

  /** And with `n` ones above `k` zeros rounds down to a multiple of `2^k`. */
  lemma {:induction false} AndHighOnes(a: nat, ones: nat, k: nat, n: nat)
    requires a < Pow2(k + n) && ones == Pow2(n) - 1
    ensures And(a, ones * Pow2(k)) == RoundDown(a, Pow2(k))
  {
    if k == 0 {
      AndOnes(a, n);
    } else {
      var half := ones * Pow2(k - 1);
      assert ones * Pow2(k) == 2 * half;
      AndHighOnes(a / 2, ones, k - 1, n);
      AndEven(a, half);
      RoundDownHalf(a, Pow2(k - 1));
    }
  }

  /** Masking a byte's low bits off is rounding it down to a multiple of their weight. */
  lemma KeepTopRoundsDown(b: byte, k: nat)
    requires 0 < k < 8
    ensures And(b, HighMask(k)) == RoundDown(b, Pow2(k))
  {
    var p, m := Pow2(k), Pow2(8 - k);
    Pow2Add(8 - k, k);
    Pow2Of8();
    assert 0xFF * p == (p - 1) * 256 + (m - 1) * p by {
      calc {
        (p - 1) * 256 + (m - 1) * p;
        p * 256 - 256 + m * p - p;
        0xFF * p;
      }
    }
    assert (m - 1) * p == 256 - p;
    DivModUnique(0xFF * p, 256, p - 1, (m - 1) * p);
    AndHighOnes(b, m - 1, k, 8 - k);
  }

  /** Keeping whole bytes, then rounding one byte down, then zeros, rounds the number down. */
  lemma MaskedValue(pre: seq<byte>, b: byte, kept: byte, post: seq<byte>, q: nat, m: nat)
    requires 0 < q && m * q == 256 && q * Weight(|post|) > 0 && kept == RoundDown(b, q)
    ensures Value(pre + [kept] + Repeat<byte>(0, |post|)) == RoundDown(Value(pre + [b] + post), q * Weight(|post|))
  {
    var front := CommonFront(pre, b, post, kept, Repeat<byte>(0, |post|));
    ValueZeros(|post|);
    ValueBound(post);
    MaskedSum(Value(pre + [b] + post), Value(pre), front, b, kept, Value(post), q, m, Weight(|post|));
  }

  lemma MaskedSum(v: nat, a: nat, front: nat, b: nat, kept: nat, t: nat, q: nat, m: nat, w: nat)
    requires 0 < q && m * q == 256 && q * w > 0 && kept == RoundDown(b, q) && t < w
    requires front == a * (256 * w) && v == front + b * w + t
    ensures front + kept * w == RoundDown(v, q * w)
  {
    FrontMultiple(a, m, q, w);
    RoundDownSplit(a * m, b, t, q, w);
  }

  lemma FrontMultiple(a: nat, m: nat, q: nat, w: nat)
    requires m * q == 256
    ensures a * m >= 0 && a * (256 * w) == a * m * (q * w)
  {
    calc {
      a * (256 * w);
      a * (m * q * w);
      a * (m * (q * w));
      a * m * (q * w);
    }
  }

  lemma RoundDownSplit(a: nat, b: nat, t: nat, q: nat, w: nat)
    requires 0 < q && t < w && q * w > 0
    ensures RoundDown(a * (q * w) + b * w + t, q * w) == a * (q * w) + RoundDown(b, q) * w
  {
    var d := Quotient(b, q);
    var r := b - d * q;
    SumTimes(d, q, r, w);
    RemainderFits(r, q, t, w);
    assert (a + d) * (q * w) == a * (q * w) + d * (q * w);
    DivModUnique(a * (q * w) + b * w + t, q * w, a + d, r * w + t);
  }

  lemma SumTimes(d: nat, q: nat, r: nat, w: nat)
    ensures (d * q + r) * w == d * (q * w) + r * w && d * q * w == d * (q * w)
  {
    assert (d * q + r) * w == d * q * w + r * w;
  }

  lemma RemainderFits(r: nat, q: nat, t: nat, w: nat)
    requires r < q && t < w
    ensures 0 <= r * w && r * w + t < q * w
  {
    MulLe(r + 1, q, w);
    OneMore(r, w);
  }

  // ---- Masking in place ----------------------------------------------------

  /** Zero the low `256 - bits` bits of a copy of the hash, byte by byte. */
  method MaskBytes(h: Hash, prefixBits: nat) returns (bytes: array<byte>)
    ensures fresh(bytes) && bytes[..] == Masked(h, prefixBits)
  {
    var bits := Clamp(prefixBits);
    bytes := new byte[HASH_BYTES](i requires 0 <= i < HASH_BYTES => h[i]);
    var full, rem := bits / 8, bits % 8;
    if full < HASH_BYTES {
      var start := full;
      if rem > 0 {
        bytes[full] := KeepTop(bytes[full], rem);
        start := full + 1;
      }
      for i := start to HASH_BYTES
        invariant forall j :: 0 <= j < full ==> bytes[j] == h[j]
        invariant rem > 0 ==> bytes[full] == KeepTop(h[full], rem)
        invariant forall j :: start <= j < i ==> bytes[j] == 0
      {
        bytes[i] := 0;
      }
      MaskShape(h, bits, bytes[..]);
    } else {
      assert bytes[..] == h;
      assert Span(bits) == 1;
    }
    assert Span(bits) == Span(prefixBits);
    ValueInjective(bytes[..], Masked(h, prefixBits));
  }

  lemma MaskShape(h: Hash, bits: nat, m: seq<byte>)
    requires bits < HASH_BITS && |m| == HASH_BYTES
    requires forall j :: 0 <= j < bits / 8 ==> m[j] == h[j]
    requires bits % 8 > 0 ==> m[bits / 8] == KeepTop(h[bits / 8], bits % 8)
    requires forall j :: bits / 8 + (if bits % 8 > 0 then 1 else 0) <= j < HASH_BYTES ==> m[j] == 0
    ensures Value(m) == RoundDown(Value(h), Span(bits))
  {
    var full, rem := bits / 8, bits % 8;
    var pre, b, post := h[..full], h[full], h[full + 1..];
    var q := Pow2(8 - rem);
    assert h == pre + [b] + post;
    Pow2Add(rem, 8 - rem);
    Pow2Of8();
    if rem == 0 {
      assert RoundDown(b, 256) == 0;
    }
    assert m == pre + [RoundDown(b, q) as byte] + Repeat<byte>(0, |post|);
    WeightIsPow2(|post|);
    Pow2Add(8 - rem, 8 * |post|);
    assert HASH_BITS - bits == 8 - rem + 8 * |post|;
    MaskedValue(pre, b, RoundDown(b, q), post, q, Pow2(rem));
  }

  method ComputeBucketKey(h: Hash, prefixBits: nat) returns (key: string)
    ensures key == BucketKey(h, prefixBits)
  {
    var bytes := MaskBytes(h, prefixBits);
    key := ToHex(bytes[..]);
  }

  // ---- The carry loop ------------------------------------------------------

  /** `v & 0xFF`. */
  function LowByte(v: nat): byte {
    v % 256
  }

  /** The bytes, together with a carry still to be added at byte `i`, stand for `total`. */
  ghost predicate CarryOwed(s: seq<byte>, i: int, carry: nat, total: nat)
    requires |s| == HASH_BYTES && -1 <= i < HASH_BYTES
  {
    Value(s) + carry * Weight(31 - i) == total
  }

  lemma CarryStart(lo: Hash, bits: nat)
    requires 0 < bits <= HASH_BITS
    ensures CarryOwed(Masked(lo, bits), 31 - (HASH_BITS - bits) / 8, Pow2((HASH_BITS - bits) % 8),
                      Next(lo, bits))
  {
    var d, r := (HASH_BITS - bits) / 8, (HASH_BITS - bits) % 8;
    assert HASH_BITS - bits == r + 8 * d;
    WeightIsPow2(d);
    Pow2Add(r, 8 * d);
    assert 31 - (31 - d) == d;
  }

  /** One turn moves the carry up a byte and keeps the total. */
  lemma CarryStep(s: seq<byte>, i: nat, carry: nat, total: nat)
    requires |s| == HASH_BYTES && i < HASH_BYTES && CarryOwed(s, i, carry, total)
    ensures CarryOwed(s[i := LowByte(s[i] + carry)], i - 1, (s[i] + carry) / 256, total)
  {
    var v := s[i] + carry;
    ValueUpdate(s, i, LowByte(v));
    CarryKeepsTotal(s[i], carry, v / 256, v % 256, Weight(31 - i));
  }

  lemma CarryKeepsTotal(b: nat, carry: nat, high: nat, low: nat, p: nat)
    requires b + carry == 256 * high + low
    ensures low * p + high * (256 * p) == b * p + carry * p
  {
    calc {
      low * p + high * (256 * p);
      low * p + (256 * high) * p;
      (256 * high + low) * p;
      b * p + carry * p;
    }
  }

  /** A carry left over at the end has run past the top byte; no carry means the bytes are the sum. */
  lemma CarryEnd(s: seq<byte>, i: int, carry: nat, total: nat)
    requires |s| == HASH_BYTES && -1 <= i < HASH_BYTES && CarryOwed(s, i, carry, total)
    ensures carry == 0 ==> Value(s) == total < Weight(HASH_BYTES)
    ensures carry > 0 && i == -1 ==> total >= Weight(HASH_BYTES)
  {
    ValueBound(s);
    if carry > 0 && i == -1 {
      MulLe(1, carry, Weight(HASH_BYTES));
    }
  }

  /** Add `first` at byte `idx`, in place, letting the carry run towards byte 0. */
  method PropagateCarry(bytes: array<byte>, idx: nat, first: nat, ghost total: nat) returns (carry: nat)
    requires bytes.Length == HASH_BYTES && idx < HASH_BYTES && CarryOwed(bytes[..], idx, first, total)
    modifies bytes
    ensures carry == 0 ==> Value(bytes[..]) == total < Weight(HASH_BYTES)
    ensures carry > 0 ==> total >= Weight(HASH_BYTES)
  {
    carry := first;
    var i := idx;
    while carry > 0 && i >= 0
      invariant -1 <= i < HASH_BYTES && CarryOwed(bytes[..], i, carry, total)
    {
      var v: nat := bytes[i] + carry;
      CarryStep(bytes[..], i, carry, total);
      ghost var before := bytes[..];
      bytes[i] := LowByte(v);
      assert bytes[..] == before[i := LowByte(v)];
      carry := v / 256;
      i := i - 1;
    }
    CarryEnd(bytes[..], i, carry, total);
  }

  /** Add the bucket size to the masked bytes. */
  method ComputeBucketUpper(lo: Hash, prefixBits: nat) returns (upper: string)
    ensures upper == BucketUpper(lo, prefixBits)
  {
    var bits := Clamp(prefixBits);
    if bits == 0 {
      WeightIsPow2(HASH_BYTES);
      return SENTINEL;
    }
    var bytes := MaskBytes(lo, bits);
    var addBit := HASH_BITS - bits;
    CarryStart(lo, bits);
    var carry := PropagateCarry(bytes, 31 - addBit / 8, Pow2(addBit % 8), Next(lo, bits));
    if carry > 0 {
      return SENTINEL;
    }
    ValueInjective(bytes[..], ToBytes(Next(lo, bits), HASH_BYTES));
    upper := ToHex(bytes[..]);
  }

  // ---- What the bounds mean ------------------------------------------------

  /** The range a bucket scan covers, in string order. */
  predicate InRange(h: Hash, lo: string, hi: string) {
    !Less(Hex(h), lo) && Less(Hex(h), hi)
  }

  lemma BelowBound(h: Hash, v: nat)
    ensures Less(Hex(h), Bound(v)) <==> Value(h) < v
  {
    ValueBound(h);
    if v < Weight(HASH_BYTES) {
      HexOrder(h, ToBytes(v, HASH_BYTES));
    } else {
      HexBelowSentinel(h);
    }
  }

  /** Rounding down gives the same result exactly for the numbers of one block. */
  lemma SameBlock(v: nat, w: nat, p: nat)
    requires p > 0
    ensures RoundDown(v, p) == RoundDown(w, p) <==> RoundDown(w, p) <= v < RoundDown(w, p) + p
  {
    if RoundDown(w, p) <= v < RoundDown(w, p) + p {
      DivModUnique(v, p, w / p, v - w / p * p);
    }
  }

  lemma KeysAgree(g: Hash, h: Hash, bits: nat)
    ensures BucketKey(g, bits) == BucketKey(h, bits)
       <==> RoundDown(Value(g), Span(bits)) == RoundDown(Value(h), Span(bits))
  {
    HexInjective(Masked(g, bits), Masked(h, bits));
    if Value(Masked(g, bits)) == Value(Masked(h, bits)) {
      ValueInjective(Masked(g, bits), Masked(h, bits));
    }
  }

  /**
   * A hash lies in the scanned range of `lo`'s bucket exactly when it shares `lo`'s key,
   * at every width and with the sentinel included.
   */
  lemma RangeIsBucket(h: Hash, lo: Hash, bits: nat)
    ensures BucketKey(h, bits) == BucketKey(lo, bits)
       <==> InRange(h, BucketKey(lo, bits), BucketUpper(lo, bits))
  {
    KeysAgree(h, lo, bits);
    SameBlock(Value(h), Value(lo), Span(bits));
    HexOrder(h, Masked(lo, bits));
    BelowBound(h, Next(lo, bits));
  }

  // ---- Tiling and nesting --------------------------------------------------

  lemma MultipleRounds(k: nat, p: nat)
    requires p > 0
    ensures RoundDown(k * p, p) == k * p
  {
    DivModUnique(k * p, p, k, 0);
  }

  /** A hash that is a multiple of the bucket size is its own bucket's lowest. */
  lemma AlignedIsMasked(m: Hash, k: nat, bits: nat)
    requires Value(m) == k * Span(bits)
    ensures Masked(m, bits) == m
  {
    MultipleRounds(k, Span(bits));
    ValueInjective(Masked(m, bits), m);
  }

  /** A printed key parses back to the bucket's lowest hash and re-buckets to itself. */
  lemma KeyReparses(h: Hash, bits: nat)
    ensures ParseHash(BucketKey(h, bits)) == Some(Masked(h, bits))
    ensures BucketKey(Masked(h, bits), bits) == BucketKey(h, bits)
    ensures BucketUpper(Masked(h, bits), bits) == BucketUpper(h, bits)
  {
    HexRoundTrip(Masked(h, bits));
    var k := Quotient(Value(h), Span(bits));
    AlignedIsMasked(Masked(h, bits), k, bits);
  }

  /** Unless it is the sentinel, the upper bound is itself a key of the same width. */
  lemma UpperIsKey(lo: Hash, bits: nat) returns (next: Hash)
    requires Next(lo, bits) < Weight(HASH_BYTES)
    ensures BucketUpper(lo, bits) == BucketKey(next, bits)
  {
    next := ToBytes(Next(lo, bits), HASH_BYTES);
    var k := Quotient(Value(lo), Span(bits));
    OneMore(k, Span(bits));
    AlignedIsMasked(next, k + 1, bits);
  }

  /** No bucket starts between a bucket's key and its upper bound: the buckets tile the space. */
  lemma NoKeyBetween(lo: Hash, h: Hash, bits: nat)
    ensures Less(BucketKey(lo, bits), BucketKey(h, bits)) <==> !Less(BucketKey(h, bits), BucketUpper(lo, bits))
  {
    var p := Span(bits);
    HexOrder(Masked(lo, bits), Masked(h, bits));
    BelowBound(Masked(h, bits), Next(lo, bits));
    var a := Quotient(Value(lo), p);
    var b := Quotient(Value(h), p);
    NextMultiple(a, b, p);
  }

  lemma NextMultiple(a: nat, b: nat, p: nat)
    requires p > 0
    ensures a * p < b * p <==> a * p + p <= b * p
  {
    if a < b {
      MulLe(a + 1, b, p);
      OneMore(a, p);
    } else {
      MulLe(b, a, p);
    }
  }

  /** Widths nest: a key re-bucketed at any coarser or equal width is the hash's own key there. */
  lemma WidthsNest(h: Hash, fine: nat, coarse: nat)
    requires coarse <= fine
    ensures BucketKey(Masked(h, fine), coarse) == BucketKey(h, coarse)
  {
    var k := Pow2(Clamp(fine) - Clamp(coarse));
    Pow2Add(HASH_BITS - Clamp(fine), Clamp(fine) - Clamp(coarse));
    assert HASH_BITS - Clamp(coarse) == HASH_BITS - Clamp(fine) + (Clamp(fine) - Clamp(coarse));
    RoundDownNests(Value(h), Span(fine), k, Span(coarse));
    ValueInjective(Masked(Masked(h, fine), coarse), Masked(h, coarse));
  }

  lemma RoundDownNests(v: nat, p: nat, k: nat, q: nat)
    requires p > 0 && k > 0 && q == p * k && q > 0
    ensures RoundDown(RoundDown(v, p), q) == RoundDown(v, q)
  {
    var d := Quotient(v, p);
    var c := Quotient(d, k);
    var r := d - c * k;
    SumTimes(c, k, r, p);
    RemainderFits(r, k, v - d * p, p);
    assert k * p == q;
    DivModUnique(v, q, c, r * p + (v - d * p));
    DivModUnique(d * p, q, c, r * p);
  }

  /** Hashes that share a fine bucket share every coarser one. */
  lemma CoarserBucketsContain(g: Hash, h: Hash, fine: nat, coarse: nat)
    requires coarse <= fine && BucketKey(g, fine) == BucketKey(h, fine)
    ensures BucketKey(g, coarse) == BucketKey(h, coarse)
  {
    WidthsNest(g, fine, coarse);
    WidthsNest(h, fine, coarse);
    HexInjective(Masked(g, fine), Masked(h, fine));
  }
}
