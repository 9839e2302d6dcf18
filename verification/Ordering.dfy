/** Ascending lists of ids. */
module Ordering {
  predicate NoRepeats<T(==)>(s: seq<T>) {
    forall i, j :: 0 <= i < j < |s| ==> s[i] != s[j]
  }

  predicate Sorted(s: seq<int>) {
    forall i, j :: 0 <= i < j < |s| ==> s[i] <= s[j]
  }

  predicate Strict(s: seq<int>) {
    forall i, j :: 0 <= i < j < |s| ==> s[i] < s[j]
  }

  lemma Inhabited(s: set<int>)
    requires s != {}
    ensures exists x :: x in s
  {
    assert (forall x :: x !in s) ==> s == {};
  }

  lemma LeastExists(s: set<int>)
    requires s != {}
    ensures exists m :: m in s && forall x :: x in s ==> m <= x
  {
    Inhabited(s);
    var m :| m in s;
    if y :| y in s && y < m {
      var rest := s - {m};
      assert y in rest;
      LeastExists(rest);
      var l :| l in rest && forall x :: x in rest ==> l <= x;
      forall x | x in s
        ensures l <= x
      {
        assert x == m || x in rest;
      }
      assert l in s;
    }
  }

  /** The elements of a set in ascending order. */
  function Ascending(s: set<int>): (r: seq<int>)
    ensures Strict(r) && |r| == |s| && forall x :: x in r <==> x in s
  {
    if s == {} then [] else
      LeastExists(s);
      var m :| m in s && forall x :: x in s ==> m <= x;
      var r := Ascending(s - {m});
      Prepend(m, r, s);
      [m] + r
  }

  lemma Prepend(m: int, r: seq<int>, s: set<int>)
    requires m in s && (forall x :: x in s ==> m <= x) && Strict(r) && forall x :: x in r <==> x in s - {m}
    ensures Strict([m] + r) && forall x :: x in [m] + r <==> x in s
  {
    assert forall i :: 0 <= i < |r| ==> r[i] in r;
  }

  function Insert(x: int, s: seq<int>): (r: seq<int>)
    requires Sorted(s)
    ensures multiset(r) == multiset(s) + multiset{x} && Sorted(r)
  {
    if s == [] || x <= s[0] then [x] + s
    else
      assert s == [s[0]] + s[1..];
      var r := Insert(x, s[1..]);
      InFront(s[0], r, multiset(s[1..]) + multiset{x});
      [s[0]] + r
  }

  lemma InFront(a: int, r: seq<int>, m: multiset<int>)
    requires multiset(r) == m && Sorted(r) && forall y :: y in m ==> a <= y
    ensures Sorted([a] + r)
  {
    assert forall i :: 0 <= i < |r| ==> r[i] in multiset(r);
  }

  function Sort(s: seq<int>): (r: seq<int>)
    ensures Sorted(r) && multiset(r) == multiset(s)
  {
    if s == [] then [] else
      assert s == [s[0]] + s[1..];
      Insert(s[0], Sort(s[1..]))
  }

  /** Sorting a list without repeats gives its elements in ascending order. */
  lemma SortOfDistinct(s: seq<int>)
    requires NoRepeats(s)
    ensures Sort(s) == Ascending(set x | x in s)
  {
    var r := Sort(s);
    DistinctAsMultiset(s);
    forall x
      ensures x in r <==> x in s
    {
      assert x in r <==> x in multiset(r);
      assert x in s <==> x in multiset(s);
    }
    MultisetDistinct(r);
    StrictUnique(r, Ascending(set x | x in s));
  }

  lemma {:induction false} DistinctAsMultiset(s: seq<int>)
    requires NoRepeats(s)
    ensures forall x :: multiset(s)[x] <= 1
  {
    if s != [] {
      assert s == [s[0]] + s[1..];
      DistinctAsMultiset(s[1..]);
      assert s[0] !in s[1..];
    }
  }

  lemma MultisetDistinct(s: seq<int>)
    requires Sorted(s) && forall x :: multiset(s)[x] <= 1
    ensures Strict(s)
  {
    forall i, j | 0 <= i < j < |s|
      ensures s[i] < s[j]
    {
      assert s == s[..j] + s[j..];
      assert multiset(s)[s[i]] == multiset(s[..j])[s[i]] + multiset(s[j..])[s[i]];
      assert s[..j][i] == s[i] && s[j..][0] == s[j];
      assert s[i] in multiset(s[..j]) && s[j] in multiset(s[j..]);
    }
  }

  lemma HeadIsLeast(s: seq<int>, x: int)
    requires Strict(s) && x in s
    ensures s[0] <= x
  {
  }

  lemma TailMembers(s: seq<int>)
    requires Strict(s) && s != []
    ensures Strict(s[1..]) && forall x :: x in s[1..] <==> x in s && x != s[0]
  {
    assert s == [s[0]] + s[1..];
  }

  lemma {:induction false} StrictUnique(a: seq<int>, b: seq<int>)
    requires Strict(a) && Strict(b) && forall x :: x in a <==> x in b
    ensures a == b
  {
    assert a != [] ==> a[0] in a;
    assert b != [] ==> b[0] in b;
    if a != [] && b != [] {
      HeadIsLeast(a, b[0]);
      HeadIsLeast(b, a[0]);
      TailMembers(a);
      TailMembers(b);
      StrictUnique(a[1..], b[1..]);
      assert a == [a[0]] + a[1..] && b == [b[0]] + b[1..];
    }
  }
}
