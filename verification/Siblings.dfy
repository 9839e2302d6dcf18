/** Sibling aliases and their canonical form (crates/core/src/relations.rs, lines 11-52). */
module Siblings {
  /** Bad tag id to ideal tag id; at most one ideal each, cycles allowed. */
  type SiblingEdges = map<int, int>

  // ---- Walking the edges ---------------------------------------------------

  /** One step along the alias edge; a tag without one stays put. */
  function Ideal(siblings: SiblingEdges, x: int): int {
    if x in siblings then siblings[x] else x
  }

  function Iter(siblings: SiblingEdges, x: int, n: nat): int {
    if n == 0 then x else Ideal(siblings, Iter(siblings, x, n - 1))
  }

  ghost predicate Reaches(siblings: SiblingEdges, x: int, y: int) {
    exists n: nat :: Iter(siblings, x, n) == y
  }

  ghost predicate OnCycle(siblings: SiblingEdges, x: int) {
    x in siblings && exists p: nat :: p > 0 && Iter(siblings, x, p) == x
  }

  /**
   * What the canonical form is meant to be: the terminal tag the walk from `x` ends in or, when
   * the walk runs into a cycle, the lowest id on that cycle.
   */
  ghost predicate IsCanonical(siblings: SiblingEdges, x: int, c: int) {
    && Reaches(siblings, x, c)
    && (c in siblings ==>
          && OnCycle(siblings, c)
          && forall d :: Reaches(siblings, c, d) ==> c <= d)
  }

  lemma {:induction false} IterAdd(siblings: SiblingEdges, x: int, m: nat, n: nat)
    ensures Iter(siblings, x, m + n) == Iter(siblings, Iter(siblings, x, m), n)
  {
    if n > 0 {
      IterAdd(siblings, x, m, n - 1);
    }
  }

  lemma ReachesTransitive(siblings: SiblingEdges, x: int, y: int, z: int)
    requires Reaches(siblings, x, y) && Reaches(siblings, y, z)
    ensures Reaches(siblings, x, z)
  {
    var m: nat :| Iter(siblings, x, m) == y;
    var n: nat :| Iter(siblings, y, n) == z;
    IterAdd(siblings, x, m, n);
    assert Iter(siblings, x, m + n) == z;
  }

  lemma ReachesStep(siblings: SiblingEdges, x: int)
    ensures Reaches(siblings, x, x) && Reaches(siblings, x, Ideal(siblings, x))
  {
    assert Iter(siblings, x, 0) == x;
    assert Iter(siblings, x, 1) == Ideal(siblings, Iter(siblings, x, 0));
  }

  /** Of two tags met on one walk, one is reached from the other. */
  lemma ReachesLinear(siblings: SiblingEdges, x: int, y: int, z: int)
    requires Reaches(siblings, x, y) && Reaches(siblings, x, z)
    ensures Reaches(siblings, y, z) || Reaches(siblings, z, y)
  {
    var m: nat :| Iter(siblings, x, m) == y;
    var n: nat :| Iter(siblings, x, n) == z;
    if m <= n {
      IterAdd(siblings, x, m, n - m);
    } else {
      IterAdd(siblings, x, n, m - n);
    }
  }

  lemma {:induction false} TerminalStays(siblings: SiblingEdges, x: int, n: nat)
    requires x !in siblings
    ensures Iter(siblings, x, n) == x
  {
    if n > 0 {
      TerminalStays(siblings, x, n - 1);
    }
  }

  lemma {:induction false} CyclePeriodic(siblings: SiblingEdges, x: int, p: nat, k: nat)
    requires Iter(siblings, x, p) == x
    ensures Iter(siblings, x, k * p) == x
  {
    if k > 0 {
      CyclePeriodic(siblings, x, p, k - 1);
      assert k * p == (k - 1) * p + p;
      IterAdd(siblings, x, (k - 1) * p, p);
    }
  }

  /** Whatever a cycle member reaches lies on the same cycle. */
  lemma CycleReturns(siblings: SiblingEdges, x: int, y: int)
    requires OnCycle(siblings, x) && Reaches(siblings, x, y)
    ensures Reaches(siblings, y, x) && OnCycle(siblings, y)
  {
    var p: nat :| p > 0 && Iter(siblings, x, p) == x;
    var n: nat :| Iter(siblings, x, n) == y;
    CyclePeriodic(siblings, x, p, n);
    assert n <= n * p by { assert n * p == n * (p - 1) + n; }
    var rest := n * p - n;
    IterAdd(siblings, x, n, rest);
    assert Iter(siblings, y, rest) == x;
    IterAdd(siblings, y, rest, n);
    if y !in siblings {
      TerminalStays(siblings, y, rest);
      assert false;
    }
    if rest + n == 0 {
      assert Iter(siblings, y, p) == y;
    }
  }

  lemma CanonicalUnique(siblings: SiblingEdges, x: int, c: int, d: int)
    requires IsCanonical(siblings, x, c) && IsCanonical(siblings, x, d)
    ensures c == d
  {
    ReachesLinear(siblings, x, c, d);
    if Reaches(siblings, c, d) {
      SameWalkSameCanonical(siblings, x, c, d);
    } else {
      SameWalkSameCanonical(siblings, x, d, c);
    }
  }

  lemma SameWalkSameCanonical(siblings: SiblingEdges, x: int, c: int, d: int)
    requires IsCanonical(siblings, x, c) && IsCanonical(siblings, x, d) && Reaches(siblings, c, d)
    ensures c == d
  {
    if c in siblings {
      CycleReturns(siblings, c, d);
    } else {
      var n: nat :| Iter(siblings, c, n) == d;
      TerminalStays(siblings, c, n);
    }
  }

  // ---- Existence -----------------------------------------------------------

  /** The lowest id among the first `n + 1` tags of a walk. */
  function WalkMin(siblings: SiblingEdges, x: int, n: nat): (m: int)
    ensures exists k: nat :: k <= n && Iter(siblings, x, k) == m
    ensures forall k: nat :: k <= n ==> m <= Iter(siblings, x, k)
  {
    if n == 0 then
      assert Iter(siblings, x, 0) == x;
      x
    else
      var m := WalkMin(siblings, x, n - 1);
      var y := Iter(siblings, x, n);
      if y < m then y else m
  }

  /** Going round a cycle once meets everything on it. */
  lemma RoundTripMeetsAll(siblings: SiblingEdges, x: int, p: nat, n: nat)
    requires p > 0 && Iter(siblings, x, p) == x
    ensures Iter(siblings, x, n) == Iter(siblings, x, n % p)
  {
    CyclePeriodic(siblings, x, p, n / p);
    assert n == n / p * p + n % p;
    IterAdd(siblings, x, n / p * p, n % p);
  }

  lemma CycleMinIsCanonical(siblings: SiblingEdges, x: int, y: int, p: nat)
    requires Reaches(siblings, x, y) && y in siblings && p > 0 && Iter(siblings, y, p) == y
    ensures IsCanonical(siblings, x, WalkMin(siblings, y, p - 1))
  {
    var c := WalkMin(siblings, y, p - 1);
    assert Reaches(siblings, y, c);
    ReachesTransitive(siblings, x, y, c);
    assert OnCycle(siblings, y);
    CycleReturns(siblings, y, c);
    forall d | Reaches(siblings, c, d)
      ensures c <= d
    {
      ReachesTransitive(siblings, y, c, d);
      var n: nat :| Iter(siblings, y, n) == d;
      RoundTripMeetsAll(siblings, y, p, n);
    }
  }

  /** Every remembered tag was met in the first `n` steps of the walk from `x`. */
  ghost predicate MetBefore(siblings: SiblingEdges, x: int, n: nat, visited: set<int>) {
    forall v :: v in visited ==> exists k: nat :: k < n && Iter(siblings, x, k) == v
  }

  lemma MetOneMore(siblings: SiblingEdges, x: int, n: nat, visited: set<int>)
    requires MetBefore(siblings, x, n, visited)
    ensures MetBefore(siblings, x, n + 1, visited + {Iter(siblings, x, n)})
  {
    forall v | v in visited + {Iter(siblings, x, n)}
      ensures exists k: nat :: k < n + 1 && Iter(siblings, x, k) == v
    {
      if v in visited {
        var k: nat :| k < n && Iter(siblings, x, k) == v;
        assert k < n + 1;
      } else {
        assert n < n + 1 && Iter(siblings, x, n) == v;
      }
    }
  }

  /** The walk cannot go on for ever without meeting a tag again. */
  lemma {:induction false} WalkEnds(siblings: SiblingEdges, x: int, n: nat, visited: set<int>) returns (c: int)
    requires visited <= siblings.Keys && MetBefore(siblings, x, n, visited)
    ensures IsCanonical(siblings, x, c)
    decreases siblings.Keys - visited
  {
    var current := Iter(siblings, x, n);
    assert Reaches(siblings, x, current);
    if current !in siblings {
      c := current;
    } else if current in visited {
      var k: nat :| k < n && Iter(siblings, x, k) == current;
      IterAdd(siblings, x, k, n - k);
      CycleMinIsCanonical(siblings, x, current, n - k);
      c := WalkMin(siblings, current, n - k - 1);
    } else {
      MetOneMore(siblings, x, n, visited);
      c := WalkEnds(siblings, x, n + 1, visited + {current});
    }
  }

  /** The canonical form; it exists for every sibling map. */
  ghost function Canonical(siblings: SiblingEdges, x: int): (c: int)
    ensures IsCanonical(siblings, x, c)
  {
    assert exists c :: IsCanonical(siblings, x, c) by {
      var c := WalkEnds(siblings, x, 0, {});
    }
    var c :| IsCanonical(siblings, x, c);
    c
  }

  // ---- The algorithm -------------------------------------------------------

  /** Follow the chain, remembering where it has been; break a cycle at its lowest id. */
  method Canonicalize(tagId: int, siblings: SiblingEdges) returns (c: int)
    ensures c == Canonical(siblings, tagId)
  {
    var current := tagId;
    var visited: set<int> := {};
    ghost var n: nat := 0;
    while current in siblings
      invariant Iter(siblings, tagId, n) == current && visited <= siblings.Keys
      invariant MetBefore(siblings, tagId, n, visited)
      decreases siblings.Keys - visited
    {
      if current in visited {
        ghost var k: nat :| k < n && Iter(siblings, tagId, k) == current;
        IterAdd(siblings, tagId, k, n - k);
        c := CycleMin(current, siblings, n - k);
        ghost var p: nat :| p > 0 && Iter(siblings, current, p) == current && c == WalkMin(siblings, current, p - 1);
        assert Reaches(siblings, tagId, current);
        CycleMinIsCanonical(siblings, tagId, current, p);
        CanonicalUnique(siblings, tagId, c, Canonical(siblings, tagId));
        return;
      }
      MetOneMore(siblings, tagId, n, visited);
      visited := visited + {current};
      current := siblings[current];
      n := n + 1;
    }
    c := current;
    assert Reaches(siblings, tagId, c);
    CanonicalUnique(siblings, tagId, c, Canonical(siblings, tagId));
  }

  /** Lowest id on the cycle `start` lies on, going round once. */
  method CycleMin(start: int, siblings: SiblingEdges, ghost period: nat) returns (min: int)
    requires start in siblings && period > 0 && Iter(siblings, start, period) == start
    ensures exists p: nat :: p > 0 && Iter(siblings, start, p) == start && min == WalkMin(siblings, start, p - 1)
  {
    min := start;
    var current := start;
    ghost var n: nat := 0;
    while current in siblings
      invariant n < period && current == Iter(siblings, start, n) && min == WalkMin(siblings, start, n)
      decreases period - n
    {
      var next := siblings[current];
      assert Iter(siblings, start, n + 1) == next;
      if next == start {
        assert min == WalkMin(siblings, start, n + 1 - 1);
        return;
      }
      min := if next < min then next else min;
      current := next;
      n := n + 1;
    }
    TerminalStays(siblings, current, period - n);
    IterAdd(siblings, start, n, period - n);
    assert false;
  }

  // ---- What canonical forms are like ---------------------------------------

  lemma CanonicalIsIdempotent(siblings: SiblingEdges, x: int)
    ensures Canonical(siblings, Canonical(siblings, x)) == Canonical(siblings, x)
  {
    var c := Canonical(siblings, x);
    ReachesStep(siblings, c);
    CanonicalUnique(siblings, c, c, Canonical(siblings, c));
  }

  /** A tag nobody aliases away is its own canonical form. */
  lemma TerminalIsCanonical(siblings: SiblingEdges, x: int)
    requires x !in siblings
    ensures Canonical(siblings, x) == x
  {
    ReachesStep(siblings, x);
    CanonicalUnique(siblings, x, x, Canonical(siblings, x));
  }

  /** Walking on does not change the canonical form. */
  lemma CanonicalAlongWalk(siblings: SiblingEdges, x: int, y: int)
    requires Reaches(siblings, x, y)
    ensures Canonical(siblings, x) == Canonical(siblings, y)
  {
    ReachesTransitive(siblings, x, y, Canonical(siblings, y));
    CanonicalUnique(siblings, x, Canonical(siblings, y), Canonical(siblings, x));
  }

  /** A walk that ends gives the tag it ends at. */
  lemma WalkEndIsCanonical(siblings: SiblingEdges, x: int, end: int)
    requires Reaches(siblings, x, end) && end !in siblings
    ensures Canonical(siblings, x) == end
  {
    CanonicalAlongWalk(siblings, x, end);
    TerminalIsCanonical(siblings, end);
  }

  /** An alias and its ideal agree. */
  lemma AliasAgreesWithIdeal(siblings: SiblingEdges, x: int)
    requires x in siblings
    ensures Canonical(siblings, x) == Canonical(siblings, siblings[x])
  {
    ReachesStep(siblings, x);
    CanonicalAlongWalk(siblings, x, siblings[x]);
  }

  /** A chain of tags in which neighbours are joined by an alias edge, in either direction. */
  predicate Linked(siblings: SiblingEdges, path: seq<int>) {
    forall i :: 0 <= i < |path| - 1 ==>
      || (path[i] in siblings && siblings[path[i]] == path[i + 1])
      || (path[i + 1] in siblings && siblings[path[i + 1]] == path[i])
  }

  ghost predicate Connected(siblings: SiblingEdges, x: int, y: int) {
    exists path: seq<int> :: path != [] && path[0] == x && path[|path| - 1] == y && Linked(siblings, path)
  }

  lemma {:induction false} LinkedSharesCanonical(siblings: SiblingEdges, path: seq<int>)
    requires path != [] && Linked(siblings, path)
    ensures Canonical(siblings, path[0]) == Canonical(siblings, path[|path| - 1])
    decreases |path|
  {
    if |path| > 1 {
      var rest := path[1..];
      assert forall i :: 0 <= i < |rest| ==> rest[i] == path[i + 1];
      LinkedSharesCanonical(siblings, rest);
      if path[0] in siblings && siblings[path[0]] == path[1] {
        AliasAgreesWithIdeal(siblings, path[0]);
      } else {
        AliasAgreesWithIdeal(siblings, path[1]);
      }
    }
  }

  /** The walk itself, as a path. */
  lemma {:induction false} WalkIsPath(siblings: SiblingEdges, x: int, n: nat) returns (path: seq<int>)
    ensures path != [] && path[0] == x && path[|path| - 1] == Iter(siblings, x, n) && Linked(siblings, path)
  {
    if n == 0 {
      path := [x];
    } else {
      path := WalkIsPath(siblings, x, n - 1);
      var y := path[|path| - 1];
      if y in siblings {
        path := path + [siblings[y]];
      }
    }
  }

  lemma Reversal(siblings: SiblingEdges, path: seq<int>) returns (back: seq<int>)
    requires path != [] && Linked(siblings, path)
    ensures |back| == |path| && back[0] == path[|path| - 1] && back[|back| - 1] == path[0] && Linked(siblings, back)
  {
    back := seq(|path|, i requires 0 <= i < |path| => path[|path| - 1 - i]);
    forall i | 0 <= i < |back| - 1
      ensures || (back[i] in siblings && siblings[back[i]] == back[i + 1])
              || (back[i + 1] in siblings && siblings[back[i + 1]] == back[i])
    {
      var j := |path| - 2 - i;
      assert path[j + 1] == back[i] && path[j] == back[i + 1];
    }
  }

  /** Two tags have the same canonical form exactly when alias edges connect them. */
  lemma CanonicalIffConnected(siblings: SiblingEdges, x: int, y: int)
    ensures Canonical(siblings, x) == Canonical(siblings, y) <==> Connected(siblings, x, y)
  {
    if Connected(siblings, x, y) {
      var path: seq<int> :| path != [] && path[0] == x && path[|path| - 1] == y && Linked(siblings, path);
      LinkedSharesCanonical(siblings, path);
    }
    if Canonical(siblings, x) == Canonical(siblings, y) {
      var c := Canonical(siblings, x);
      var m: nat :| Iter(siblings, x, m) == c;
      var n: nat :| Iter(siblings, y, n) == c;
      var there := WalkIsPath(siblings, x, m);
      var walk := WalkIsPath(siblings, y, n);
      var back := Reversal(siblings, walk);
      var path := there + back[1..];
      assert back == [c] + back[1..];
      assert Linked(siblings, path) by {
        forall i | 0 <= i < |path| - 1
          ensures || (path[i] in siblings && siblings[path[i]] == path[i + 1])
                  || (path[i + 1] in siblings && siblings[path[i + 1]] == path[i])
        {
          if i >= |there| - 1 {
            assert path[i] == back[i - (|there| - 1)] && path[i + 1] == back[i + 1 - (|there| - 1)];
          }
        }
      }
      assert path[|path| - 1] == y;
    }
  }
}
