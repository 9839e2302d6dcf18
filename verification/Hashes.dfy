/** Naiad's 32-byte content hash and its 64-character hex form (crates/core/src/hash.rs). */
module Hashes {
  import opened Wrappers
  import opened Sequences
  import opened Strings
  import opened Arithmetic

  const HASH_BYTES := 32

  type byte = x: int | 0 <= x < 256

  type Hash = s: seq<byte> | |s| == HASH_BYTES witness Repeat<byte>(0, HASH_BYTES)

  // ---- Big-endian value ----------------------------------------------------

  /** The number a big-endian byte string denotes. */
  function Value(s: seq<byte>): nat {
    if s == [] then 0 else 256 * Value(s[..|s| - 1]) + s[|s| - 1]
  }

  /** The weight of the digit that has `n` digits after it. */
  function Weight(n: nat): (w: nat)
    ensures w > 0
  {
    if n == 0 then 1 else 256 * Weight(n - 1)
  }

  lemma {:induction false} WeightIsPow2(n: nat)
    ensures Weight(n) == Pow2(8 * n)
  {
    if n > 0 {
      WeightIsPow2(n - 1);
      Pow2Add(8 * (n - 1), 8);
      Pow2Of8();
    }
  }

  lemma {:induction false} ValueConcat(a: seq<byte>, b: seq<byte>)
    ensures Value(a + b) == Value(a) * Weight(|b|) + Value(b)
    decreases |b|
  {
    if b == [] {
      assert a + b == a;
    } else {
      var b' := b[..|b| - 1];
      assert (a + b)[..|a + b| - 1] == a + b';
      ValueConcat(a, b');
      MulRotate(Value(a), Weight(|b'|));
    }
  }

  lemma MulRotate(a: nat, p: nat)
    ensures 256 * (a * p) == a * (256 * p)
  {
  }

  lemma {:induction false} ValueBound(s: seq<byte>)
    ensures Value(s) < Weight(|s|)
  {
    if s != [] {
      ValueBound(s[..|s| - 1]);
    }
  }

  lemma {:induction false} ValueZeros(n: nat)
    ensures Value(Repeat<byte>(0, n)) == 0
  {
    if n > 0 {
      assert Repeat<byte>(0, n)[..n - 1] == Repeat<byte>(0, n - 1);
      ValueZeros(n - 1);
    }
  }

  lemma ValueHead(s: seq<byte>)
    requires s != []
    ensures Value(s) == s[0] * Weight(|s| - 1) + Value(s[1..])
  {
    assert s == [s[0]] + s[1..];
    ValueConcat([s[0]], s[1..]);
    assert Value([s[0]]) == s[0] by { assert [s[0]][..0] == []; }
  }

  /** A byte in the middle contributes its weight times itself. */
  lemma ValueSplit(pre: seq<byte>, b: byte, post: seq<byte>)
    ensures Value(pre + [b] + post)
         == Value(pre) * Weight(|post| + 1) + b * Weight(|post|) + Value(post)
  {
    assert pre + [b] + post == pre + ([b] + post);
    ValueConcat(pre, [b] + post);
    ValueHead([b] + post);
    assert ([b] + post)[1..] == post;
  }

  /** Two numbers that agree in front of some byte, with that common front made explicit. */
  lemma CommonFront(pre: seq<byte>, b: byte, post: seq<byte>, c: byte, rest: seq<byte>) returns (front: nat)
    requires |post| == |rest|
    ensures front == Value(pre) * (256 * Weight(|post|))
    ensures Value(pre + [b] + post) == front + b * Weight(|post|) + Value(post)
    ensures Value(pre + [c] + rest) == front + c * Weight(|post|) + Value(rest)
  {
    ValueSplit(pre, b, post);
    ValueSplit(pre, c, rest);
    front := Value(pre) * Weight(|post| + 1);
  }

  lemma SplitAt(s: seq<byte>, i: nat, v: byte)
    requires i < |s|
    ensures s == s[..i] + [s[i]] + s[i + 1..] && s[i := v] == s[..i] + [v] + s[i + 1..]
  {
  }

  /** Replacing one byte trades its contribution for the new one's. */
  lemma ValueUpdate(s: seq<byte>, i: nat, v: byte)
    requires i < |s|
    ensures Value(s[i := v]) + s[i] * Weight(|s| - 1 - i) == Value(s) + v * Weight(|s| - 1 - i)
  {
    SplitAt(s, i, v);
    var front := CommonFront(s[..i], s[i], s[i + 1..], v, s[i + 1..]);
  }

  lemma {:induction false} ValueInjective(a: seq<byte>, b: seq<byte>)
    requires |a| == |b| && Value(a) == Value(b)
    ensures a == b
  {
    if a != [] {
      ValueInjective(a[..|a| - 1], b[..|b| - 1]);
      assert a == a[..|a| - 1] + [a[|a| - 1]];
      assert b == b[..|b| - 1] + [b[|b| - 1]];
    }
  }

  /** The `n`-byte big-endian form of a number that fits. */
  function ToBytes(v: nat, n: nat): (s: seq<byte>)
    requires v < Weight(n)
    ensures |s| == n && Value(s) == v
  {
    if n == 0 then [] else
      var front := ToBytes(v / 256, n - 1);
      var s := front + [v % 256];
      assert s[..n - 1] == front;
      s
  }

  // ---- Hex printing --------------------------------------------------------

  function HexDigit(d: nat): char
    requires d < 16
  {
    if d < 10 then '0' + d as char else 'a' + (d - 10) as char
  }

  /** Two lowercase digits a byte, high nibble first. */
  function Hex(s: seq<byte>): (t: string)
    ensures |t| == 2 * |s|
  {
    if s == [] then ""
    else [HexDigit(s[0] / 16), HexDigit(s[0] % 16)] + Hex(s[1..])
  }

  lemma {:induction false} HexAppend(a: seq<byte>, b: seq<byte>)
    ensures Hex(a + b) == Hex(a) + Hex(b)
  {
    if a == [] {
      assert a + b == b;
    } else {
      assert (a + b)[1..] == a[1..] + b;
      HexAppend(a[1..], b);
    }
  }

  lemma {:induction false} HexAt(s: seq<byte>, i: nat)
    requires i < |s|
    ensures Hex(s)[2 * i] == HexDigit(s[i] / 16)
    ensures Hex(s)[2 * i + 1] == HexDigit(s[i] % 16)
  {
    if i > 0 {
      HexAt(s[1..], i - 1);
    }
  }

  method ToHex(h: Hash) returns (s: string)
    ensures s == Hex(h)
  {
    s := "";
    for i := 0 to |h|
      invariant s == Hex(h[..i])
    {
      ghost var before := s;
      s := s + [HexDigit(h[i] / 16)];
      s := s + [HexDigit(h[i] % 16)];
      assert h[..i + 1] == h[..i] + [h[i]];
      HexAppend(h[..i], [h[i]]);
      assert Hex([h[i]]) == [HexDigit(h[i] / 16), HexDigit(h[i] % 16)] + Hex([h[i]][1..]);
      assert s == before + Hex([h[i]]);
    }
    assert h[..|h|] == h;
  }

  /** The first two digits decide unless the first bytes agree. */
  lemma HexLessByHead(a: seq<byte>, b: seq<byte>)
    requires a != [] && b != []
    ensures Less(Hex(a), Hex(b)) <==> a[0] < b[0] || (a[0] == b[0] && Less(Hex(a[1..]), Hex(b[1..])))
  {
    var x, y := Hex(a), Hex(b);
    LessByHead(x, y);
    LessByHead(x[1..], y[1..]);
    assert x[1..][1..] == Hex(a[1..]) && y[1..][1..] == Hex(b[1..]);
    DigitOrder(a[0] / 16, b[0] / 16);
    DigitOrder(a[0] % 16, b[0] % 16);
  }

  lemma DigitOrder(d: nat, e: nat)
    requires d < 16 && e < 16
    ensures HexDigit(d) < HexDigit(e) <==> d < e
    ensures HexDigit(d) == HexDigit(e) <==> d == e
  {
  }

  /** Fixed-width hex sorts exactly as the numbers do. */
  lemma {:induction false} HexOrder(a: seq<byte>, b: seq<byte>)
    requires |a| == |b|
    ensures Less(Hex(a), Hex(b)) <==> Value(a) < Value(b)
  {
    if a != [] {
      HexOrder(a[1..], b[1..]);
      HexLessByHead(a, b);
      ValueHead(a);
      ValueHead(b);
      ValueBound(a[1..]);
      ValueBound(b[1..]);
      HeadDominates(a[0], b[0], Weight(|a[1..]|), Value(a[1..]), Value(b[1..]));
    }
  }

  /** Every digit of printed hex lies below the sentinel "g". */
  lemma HexBelowSentinel(s: seq<byte>)
    requires s != []
    ensures Less(Hex(s), "g")
  {
    LessByHead(Hex(s), "g");
  }

  lemma HexInjective(a: seq<byte>, b: seq<byte>)
    requires |a| == |b|
    ensures Hex(a) == Hex(b) <==> a == b
  {
    if Hex(a) == Hex(b) {
      HexOrder(a, b);
      HexOrder(b, a);
      LessIrreflexive(Hex(a));
      ValueInjective(a, b);
    }
  }

  // ---- Hex parsing ---------------------------------------------------------

  /** A hex digit of either case. */
  function HexVal(c: char): (r: Option<nat>)
    ensures r.Some? ==> r.value < 16
  {
    if '0' <= c <= '9' then Some(c as nat - '0' as nat)
    else if 'a' <= c <= 'f' then Some(c as nat - 'a' as nat + 10)
    else if 'A' <= c <= 'F' then Some(c as nat - 'A' as nat + 10)
    else None
  }

  predicate IsHashHex(s: string) {
    |s| == 64 && forall i :: 0 <= i < 64 ==> HexVal(s[i]).Some?
  }

  /** What a well-formed 64-digit string denotes. */
  function HashOfHex(s: string): (h: Hash)
    requires IsHashHex(s)
  {
    seq(HASH_BYTES, i requires 0 <= i < HASH_BYTES =>
      HexVal(s[2 * i]).value * 16 + HexVal(s[2 * i + 1]).value)
  }

  function ParseHash(s: string): Option<Hash> {
    if IsHashHex(s) then Some(HashOfHex(s)) else None
  }

  /** Parsing fills a zeroed buffer byte by byte and gives up at the first bad digit. */
  method FromStr(s: string) returns (r: Option<Hash>)
    ensures r == ParseHash(s)
  {
    if |s| != 64 {
      return None;
    }
    var bytes: array<byte> := new byte[HASH_BYTES](i => 0);
    for i := 0 to bytes.Length
      invariant forall j :: 0 <= j < 2 * i ==> HexVal(s[j]).Some?
      invariant forall j :: 0 <= j < i ==> bytes[j] == HexVal(s[2 * j]).value * 16 + HexVal(s[2 * j + 1]).value
    {
      var hi := HexVal(s[i * 2]);
      if hi.None? {
        return None;
      }
      var lo := HexVal(s[i * 2 + 1]);
      if lo.None? {
        return None;
      }
      bytes[i] := hi.value * 16 + lo.value;
    }
    assert IsHashHex(s);
    assert bytes[..] == HashOfHex(s);
    r := Some(bytes[..]);
  }

  /** Printing then parsing gives the hash back. */
  lemma HexRoundTrip(h: Hash)
    ensures ParseHash(Hex(h)) == Some(h)
  {
    var s := Hex(h);
    forall i | 0 <= i < HASH_BYTES
      ensures HexVal(s[2 * i]) == Some(h[i] / 16) && HexVal(s[2 * i + 1]) == Some(h[i] % 16)
    {
      HexAt(h, i);
    }
    forall j | 0 <= j < 64
      ensures HexVal(s[j]).Some?
    {
      assert j == 2 * (j / 2) || j == 2 * (j / 2) + 1;
      HexAt(h, j / 2);
    }
    assert HashOfHex(s) == h;
  }

  /** An accepted string spells its hash, up to case. */
  lemma ParseThenPrint(s: string)
    requires ParseHash(s).Some?
    ensures Hex(ParseHash(s).value) == Lower(s)
  {
    var h := HashOfHex(s);
    var t := Hex(h);
    forall j | 0 <= j < 64
      ensures t[j] == LowerChar(s[j])
    {
      var i := j / 2;
      assert j == 2 * i || j == 2 * i + 1;
      assert HexVal(s[2 * i]).Some? && HexVal(s[2 * i + 1]).Some?;
      NibblePair(HexVal(s[2 * i]).value, HexVal(s[2 * i + 1]).value);
      HexAt(h, i);
      DigitOfVal(s[j]);
    }
    assert t == Lower(s);
  }

  lemma NibblePair(hi: nat, lo: nat)
    requires hi < 16 && lo < 16
    ensures (hi * 16 + lo) / 16 == hi && (hi * 16 + lo) % 16 == lo
  {
  }

  /** A rejected string spells no hash in either case. */
  lemma RejectedSpellsNothing(s: string, h: Hash)
    requires ParseHash(s).None?
    ensures Hex(h) != Lower(s)
  {
    if |s| == 64 {
      var j :| 0 <= j < 64 && HexVal(s[j]).None?;
      assert j == 2 * (j / 2) || j == 2 * (j / 2) + 1;
      HexAt(h, j / 2);
      assert Lower(s)[j] == LowerChar(s[j]);
    }
  }

  lemma DigitOfVal(c: char)
    requires HexVal(c).Some?
    ensures HexDigit(HexVal(c).value) == LowerChar(c)
  {
  }
}
