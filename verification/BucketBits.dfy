/** Buckets bit by bit: two hashes share one exactly when their leading bits agree (crates/core/src/bucket.rs). */
module BucketBits {
  import opened Arithmetic
  import opened Hashes
  import opened Buckets

  // ---- Bits ----------------------------------------------------------------

  /** Bit `i` of a byte, the highest first. */
  function ByteBit(b: byte, i: nat): nat
    requires i < 8
  {
    b / Pow2(7 - i) % 2
  }

  /** Bit `j` of a hash, the highest first. */
  function Bit(h: Hash, j: nat): nat
    requires j < HASH_BITS
  {
    ByteBit(h[j / 8], j % 8)
  }

  lemma SmallPowers()
    ensures Pow2(0) == 1 && Pow2(1) == 2 && Pow2(2) == 4 && Pow2(3) == 8
    ensures Pow2(4) == 16 && Pow2(5) == 32 && Pow2(6) == 64 && Pow2(7) == 128 && Pow2(8) == 256
  {
    assert Pow2(1) == 2 * Pow2(0) && Pow2(2) == 2 * Pow2(1) && Pow2(3) == 2 * Pow2(2) && Pow2(4) == 2 * Pow2(3);
    assert Pow2(5) == 2 * Pow2(4) && Pow2(6) == 2 * Pow2(5) && Pow2(7) == 2 * Pow2(6) && Pow2(8) == 2 * Pow2(7);
  }

  lemma ByteIsItsBits(b: byte)
    ensures b == 128 * ByteBit(b, 0) + 64 * ByteBit(b, 1) + 32 * ByteBit(b, 2) + 16 * ByteBit(b, 3)
               + 8 * ByteBit(b, 4) + 4 * ByteBit(b, 5) + 2 * ByteBit(b, 6) + ByteBit(b, 7)
  {
    SmallPowers();
    Halve(b, 1);
    Halve(b, 2);
    Halve(b, 4);
    Halve(b, 8);
    Halve(b, 16);
    Halve(b, 32);
    Halve(b, 64);
    Halve(b, 128);
  }

  lemma Halve(b: nat, p: nat)
    requires p > 0
    ensures b / p == 2 * (b / (2 * p)) + b / p % 2
  {
    var q, r := b / p, b % p;
    var u, v := q / 2, q % 2;
    DivModEquation(b, p);
    Distribute(u, 2, v, p);
    MulLe(v, 1, p);
    DivModUnique(b, 2 * p, u, v * p + r);
  }

  lemma Distribute(u: nat, t: nat, v: nat, p: nat)
    ensures (u * t + v) * p == u * (t * p) + v * p
  {
  }

  lemma HashIsItsBits(g: Hash, h: Hash)
    requires forall j :: 0 <= j < HASH_BITS ==> Bit(g, j) == Bit(h, j)
    ensures g == h
  {
    forall k | 0 <= k < HASH_BYTES
      ensures g[k] == h[k]
    {
      forall i | 0 <= i < 8
        ensures ByteBit(g[k], i) == ByteBit(h[k], i)
      {
        assert Bit(g, 8 * k + i) == Bit(h, 8 * k + i);
      }
      ByteIsItsBits(g[k]);
      ByteIsItsBits(h[k]);
    }
  }

  // ---- What masking does to each bit ---------------------------------------

  /** The leading `rem` bits are kept, the others cleared; with none kept the byte is cleared. */
  lemma RoundedByte(b: byte, rem: nat, r: byte, i: nat)
    requires rem < 8 && i < 8 && r == RoundDown(b, Pow2(8 - rem))
    ensures ByteBit(r, i) == if i < rem then ByteBit(b, i) else 0
  {
    SmallPowers();
    var p := Pow2(8 - rem);
    assert r == b / p * p;
    if i < rem {
      KeptBit(b, 7 - i, 8 - rem);
    } else {
      ClearedBit(b / p, 7 - i, 8 - rem);
    }
  }

  /** A bit above the ones that are cleared. */
  lemma KeptBit(b: byte, high: nat, low: nat)
    requires 0 < low <= high < 8
    ensures b / Pow2(low) * Pow2(low) / Pow2(high) % 2 == b / Pow2(high) % 2
  {
    Pow2Add(high - low, low);
    var p, t := Pow2(low), Pow2(high - low);
    QuotientOfRounded(b, p, t);
  }

  lemma QuotientOfRounded(b: nat, p: nat, t: nat)
    requires p > 0 && t > 0 && t * p > 0
    ensures b / p * p / (t * p) == b / (t * p)
  {
    var q, r := b / p, b % p;
    var u, v := q / t, q % t;
    DivModEquation(b, p);
    DivModEquation(q, t);
    MulLe(v, t - 1, p);
    Distribute(u, t, v, p);
    Distribute(t - 1, 1, 1, p);
    DivModUnique(q * p, t * p, u, v * p);
    DivModUnique(b, t * p, u, v * p + r);
  }

  /** A bit among them. */
  lemma ClearedBit(q: nat, high: nat, low: nat)
    requires high < low <= 8
    ensures q * Pow2(low) / Pow2(high) % 2 == 0
  {
    Pow2Add(low - high, high);
    var t, p := Pow2(low - high), Pow2(high);
    assert Pow2(low - high) == 2 * Pow2(low - high - 1);
    EvenMultiple(q, Pow2(low - high - 1), p);
  }

  lemma EvenMultiple(q: nat, s: nat, p: nat)
    requires p > 0
    ensures q * (2 * s * p) / p % 2 == 0
  {
    assert q * (2 * s * p) == (2 * (q * s)) * p;
    DivModUnique(q * (2 * s * p), p, 2 * (q * s), 0);
  }

  /** The masked hash, byte by byte. */
  lemma MaskedBytes(h: Hash, bits: nat)
    requires bits < HASH_BITS
    ensures var m := Masked(h, bits);
            && (forall k :: 0 <= k < bits / 8 ==> m[k] == h[k])
            && m[bits / 8] == RoundDown(h[bits / 8], Pow2(8 - bits % 8))
            && forall k :: bits / 8 < k < HASH_BYTES ==> m[k] == 0
  {
    var full, rem := bits / 8, bits % 8;
    Pow2Of8();
    var kept: byte := if rem == 0 then 0 else KeepTop(h[full], rem);
    var m: Hash := seq(HASH_BYTES, k requires 0 <= k < HASH_BYTES =>
                         if k < full then h[k] else if k == full then kept else 0);
    MaskShape(h, bits, m);
    ValueInjective(m, Masked(h, bits));
  }

  lemma ZeroBits(i: nat)
    requires i < 8
    ensures ByteBit(0, i) == 0
  {
  }

  /** Masking keeps the leading `bits` bits and clears the others. */
  lemma MaskedBit(h: Hash, bits: nat, j: nat)
    requires j < HASH_BITS
    ensures Bit(Masked(h, bits), j) == if j < bits then Bit(h, j) else 0
  {
    if bits < HASH_BITS {
      MaskedBytes(h, bits);
      if j / 8 == bits / 8 {
        RoundedByte(h[j / 8], bits % 8, Masked(h, bits)[j / 8], j % 8);
      } else {
        ZeroBits(j % 8);
      }
    } else {
      assert Span(bits) == 1;
      ValueInjective(h, Masked(h, bits));
    }
  }

  // ---- Which hashes share a bucket -----------------------------------------

  /** Two hashes have the same key at a width if and only if their first bits agree, as many as the width. */
  lemma SameBucketIffBitsAgree(g: Hash, h: Hash, bits: nat)
    ensures BucketKey(g, bits) == BucketKey(h, bits) <==>
              forall j :: 0 <= j < HASH_BITS && j < bits ==> Bit(g, j) == Bit(h, j)
  {
    if BucketKey(g, bits) == BucketKey(h, bits) {
      HexInjective(Masked(g, bits), Masked(h, bits));
    }
    forall j | 0 <= j < HASH_BITS
      ensures Bit(Masked(g, bits), j) == if j < bits then Bit(g, j) else 0
      ensures Bit(Masked(h, bits), j) == if j < bits then Bit(h, j) else 0
    {
      MaskedBit(g, bits, j);
      MaskedBit(h, bits, j);
    }
    if forall j :: 0 <= j < HASH_BITS && j < bits ==> Bit(g, j) == Bit(h, j) {
      HashIsItsBits(Masked(g, bits), Masked(h, bits));
    }
  }
}
