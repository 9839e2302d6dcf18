/** Results that may be absent or fail. */
module Wrappers {
  datatype Option<+T> = None | Some(value: T)

  datatype Result<+T, +E> = Ok(value: T) | Err(error: E)
}

/** One value over and over. */
module Sequences {
  function Repeat<T>(x: T, n: nat): (r: seq<T>)
    ensures |r| == n && forall i :: 0 <= i < n ==> r[i] == x
  {
    seq(n, i => x)
  }
}

/** Powers of two and the few facts about products and remainders that the hash arithmetic needs. */
module Arithmetic {
  function Pow2(n: nat): (p: nat)
    ensures p > 0
  {
    if n == 0 then 1 else 2 * Pow2(n - 1)
  }

  lemma Pow2Of8()
    ensures Pow2(8) == 256
  {
    assert Pow2(4) == 16;
  }

  lemma {:induction false} Pow2Add(a: nat, b: nat)
    ensures Pow2(a + b) == Pow2(a) * Pow2(b)
  {
    if b > 0 {
      Pow2Add(a, b - 1);
    }
  }

  lemma MulLe(a: nat, b: nat, p: nat)
    requires a <= b
    ensures a * p <= b * p
  {
    assert b * p == a * p + (b - a) * p;
  }

  /** Whatever follows, the leading digit decides. */
  lemma HeadDominates(x: nat, y: nat, p: nat, s: nat, t: nat)
    requires s < p && t < p
    ensures x < y ==> x * p + s < y * p + t
    ensures y < x ==> y * p + t < x * p + s
  {
    if x < y {
      MulLe(x + 1, y, p);
      assert (x + 1) * p == x * p + p;
    } else if y < x {
      MulLe(y + 1, x, p);
      assert (y + 1) * p == y * p + p;
    }
  }

  lemma DivModEquation(v: nat, p: nat)
    requires p > 0
    ensures v / p >= 0 && v == v / p * p + v % p
  {
  }

  /** Quotient and remainder are determined by the equation they satisfy. */
  lemma DivModUnique(v: nat, p: nat, q: nat, r: nat)
    requires p > 0 && r < p && v == q * p + r
    ensures v / p == q && v % p == r
  {
    assert v == v / p * p + v % p;
    HeadDominates(q, v / p, p, r, v % p);
  }
}

/** Byte-wise string order and ASCII case. */
module Strings {
  /** The order the database and the sort calls compare keys by. */
  predicate Less(a: string, b: string) {
    if b == "" then false
    else if a == "" then true
    else a[0] < b[0] || (a[0] == b[0] && Less(a[1..], b[1..]))
  }

  lemma LessByHead(a: string, b: string)
    requires a != "" && b != ""
    ensures Less(a, b) <==> a[0] < b[0] || (a[0] == b[0] && Less(a[1..], b[1..]))
  {
  }

  lemma {:induction false} LessIrreflexive(a: string)
    ensures !Less(a, a)
  {
    if a != "" {
      LessIrreflexive(a[1..]);
    }
  }

  lemma {:induction false} LessTransitive(a: string, b: string, c: string)
    requires Less(a, b) && Less(b, c)
    ensures Less(a, c)
  {
    if a != "" && a[0] == b[0] == c[0] {
      LessTransitive(a[1..], b[1..], c[1..]);
    }
  }

  lemma {:induction false} LessTotal(a: string, b: string)
    ensures Less(a, b) || a == b || Less(b, a)
  {
    if a != "" && b != "" && a[0] == b[0] {
      LessTotal(a[1..], b[1..]);
      assert a == [a[0]] + a[1..] && b == [b[0]] + b[1..];
    }
  }

  // ---- Key lists -----------------------------------------------------------

  predicate StrictlyAscending(s: seq<string>) {
    forall i, j :: 0 <= i < j < |s| ==> Less(s[i], s[j])
  }

  /** Put one key into a sorted list that holds each key once. */
  function InsertKey(k: string, s: seq<string>): (r: seq<string>)
    requires StrictlyAscending(s)
    ensures StrictlyAscending(r)
    ensures forall x :: x in r <==> x == k || x in s
  {
    if s == [] || Less(k, s[0]) then
      InsertFront(k, s);
      [k] + s
    else if k == s[0] then s
    else
      LessTotal(k, s[0]);
      assert s == [s[0]] + s[1..];
      var r := InsertKey(k, s[1..]);
      assert forall i :: 0 <= i < |r| ==> r[i] in r;
      assert forall x :: x in s[1..] ==> Less(s[0], x);
      [s[0]] + r
  }

  lemma InsertFront(k: string, s: seq<string>)
    requires StrictlyAscending(s) && (s == [] || Less(k, s[0]))
    ensures StrictlyAscending([k] + s)
  {
    forall i | 0 < i < |s|
      ensures Less(k, s[i])
    {
      LessTransitive(k, s[0], s[i]);
    }
  }

  /** `sort` followed by `dedup`. */
  function SortDedup(ks: seq<string>): (r: seq<string>)
    ensures StrictlyAscending(r)
    ensures forall x :: x in r <==> x in ks
  {
    if ks == [] then [] else
      assert ks == [ks[0]] + ks[1..];
      InsertKey(ks[0], SortDedup(ks[1..]))
  }

  lemma AscendingDistinct(s: seq<string>, i: nat, j: nat)
    requires StrictlyAscending(s) && i < |s| && j < |s| && s[i] == s[j]
    ensures i == j
  {
    LessIrreflexive(s[i]);
  }

  // ---- Case ----------------------------------------------------------------

  function LowerChar(c: char): char {
    if 'A' <= c <= 'Z' then (c as int + 32) as char else c
  }

  function Lower(s: string): (t: string)
    ensures |t| == |s|
    ensures forall i :: 0 <= i < |s| ==> t[i] == LowerChar(s[i])
  {
    seq(|s|, i requires 0 <= i < |s| => LowerChar(s[i]))
  }
}
