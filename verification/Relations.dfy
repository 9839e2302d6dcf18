/** Query-time tag relations: the parent closure, its inverse, and the precomputed index. */
module Relations {
  import opened Siblings

  /** Child tag id to parent tag ids, looked up by canonical id. */
  type ParentEdges = map<int, seq<int>>

  // ---- What implication means ----------------------------------------------

  /** The edge from a tag id to the canonical form of one of its listed parents. */
  ghost predicate Edge(siblings: SiblingEdges, parents: ParentEdges, a: int, b: int) {
    a in parents && exists i :: 0 <= i < |parents[a]| && Canonical(siblings, parents[a][i]) == b
  }

  /** A chain of exactly `n` edges. */
  ghost predicate Chain(siblings: SiblingEdges, parents: ParentEdges, a: int, b: int, n: nat)
    decreases n
  {
    if n == 0 then a == b
    else exists m :: Edge(siblings, parents, a, m) && Chain(siblings, parents, m, b, n - 1)
  }

  ghost predicate Implies(siblings: SiblingEdges, parents: ParentEdges, a: int, b: int) {
    exists n: nat :: Chain(siblings, parents, a, b, n)
  }

  lemma ImpliesSelf(siblings: SiblingEdges, parents: ParentEdges, a: int)
    ensures Implies(siblings, parents, a, a)
  {
    assert Chain(siblings, parents, a, a, 0);
  }

  lemma {:induction false} ChainAppend(siblings: SiblingEdges, parents: ParentEdges, a: int, b: int, c: int, n: nat)
    requires Chain(siblings, parents, a, b, n) && Edge(siblings, parents, b, c)
    ensures Chain(siblings, parents, a, c, n + 1)
    decreases n
  {
    if n == 0 {
      assert Chain(siblings, parents, c, c, 0);
    } else {
      var m :| Edge(siblings, parents, a, m) && Chain(siblings, parents, m, b, n - 1);
      ChainAppend(siblings, parents, m, b, c, n - 1);
    }
  }

  lemma ImpliesThenEdge(siblings: SiblingEdges, parents: ParentEdges, a: int, b: int, c: int)
    requires Implies(siblings, parents, a, b) && Edge(siblings, parents, b, c)
    ensures Implies(siblings, parents, a, c)
  {
    var n: nat :| Chain(siblings, parents, a, b, n);
    ChainAppend(siblings, parents, a, b, c, n);
  }

  lemma EdgeThenImplies(siblings: SiblingEdges, parents: ParentEdges, a: int, b: int, c: int)
    requires Edge(siblings, parents, a, b) && Implies(siblings, parents, b, c)
    ensures Implies(siblings, parents, a, c)
  {
    var n: nat :| Chain(siblings, parents, b, c, n);
    assert Chain(siblings, parents, a, c, n + 1);
  }

  ghost predicate ClosedUpwards(siblings: SiblingEdges, parents: ParentEdges, s: set<int>) {
    forall a, b :: a in s && Edge(siblings, parents, a, b) ==> b in s
  }

  /** Nothing a closed set implies lies outside it. */
  lemma {:induction false} ClosedAlongChain(
    siblings: SiblingEdges, parents: ParentEdges, s: set<int>, a: int, b: int, n: nat)
    requires ClosedUpwards(siblings, parents, s) && a in s && Chain(siblings, parents, a, b, n)
    ensures b in s
    decreases n
  {
    if n > 0 {
      var m :| Edge(siblings, parents, a, m) && Chain(siblings, parents, m, b, n - 1);
      ClosedAlongChain(siblings, parents, s, m, b, n - 1);
    }
  }

  lemma ClosedUnderImplies(siblings: SiblingEdges, parents: ParentEdges, s: set<int>, a: int, b: int)
    requires ClosedUpwards(siblings, parents, s) && a in s && Implies(siblings, parents, a, b)
    ensures b in s
  {
    var n: nat :| Chain(siblings, parents, a, b, n);
    ClosedAlongChain(siblings, parents, s, a, b, n);
  }

  lemma {:induction false} ChainStaysCanonical(
    siblings: SiblingEdges, parents: ParentEdges, a: int, b: int, n: nat)
    requires Chain(siblings, parents, a, b, n) && Canonical(siblings, a) == a
    ensures Canonical(siblings, b) == b
    decreases n
  {
    if n > 0 {
      var m :| Edge(siblings, parents, a, m) && Chain(siblings, parents, m, b, n - 1);
      var i :| 0 <= i < |parents[a]| && Canonical(siblings, parents[a][i]) == m;
      CanonicalIsIdempotent(siblings, parents[a][i]);
      ChainStaysCanonical(siblings, parents, m, b, n - 1);
    }
  }

  // ---- The effective tags of a file ----------------------------------------

  /** Canonical forms a closure can ever hold. */
  ghost function Universe(siblings: SiblingEdges, parents: ParentEdges, raw: set<int>): set<int> {
    (set r | r in raw :: Canonical(siblings, r)) +
    (set a, i | a in parents && 0 <= i < |parents[a]| :: Canonical(siblings, parents[a][i]))
  }

  /** `d` is implied by the canonical form of one of the raw tags. */
  ghost predicate InEffective(siblings: SiblingEdges, parents: ParentEdges, raw: set<int>, d: int) {
    exists r :: r in raw && Implies(siblings, parents, Canonical(siblings, r), d)
  }

  lemma UniverseClosed(siblings: SiblingEdges, parents: ParentEdges, raw: set<int>)
    ensures ClosedUpwards(siblings, parents, Universe(siblings, parents, raw))
  {
  }

  ghost function Effective(siblings: SiblingEdges, parents: ParentEdges, raw: set<int>): (e: set<int>)
    ensures forall d :: d in e <==> InEffective(siblings, parents, raw, d)
  {
    EffectiveInUniverse(siblings, parents, raw);
    set d | d in Universe(siblings, parents, raw) && InEffective(siblings, parents, raw, d)
  }

  lemma EffectiveInUniverse(siblings: SiblingEdges, parents: ParentEdges, raw: set<int>)
    ensures forall d :: InEffective(siblings, parents, raw, d) ==> d in Universe(siblings, parents, raw)
  {
    forall d | InEffective(siblings, parents, raw, d)
      ensures d in Universe(siblings, parents, raw)
    {
      var r :| r in raw && Implies(siblings, parents, Canonical(siblings, r), d);
      UniverseClosed(siblings, parents, raw);
      ClosedUnderImplies(siblings, parents, Universe(siblings, parents, raw), Canonical(siblings, r), d);
    }
  }

  ghost function Elements(raw: seq<int>): set<int> {
    set r | r in raw
  }

  lemma LastElement(s: seq<int>)
    requires s != []
    ensures s[|s| - 1] in s && Elements(s) == Elements(s[..|s| - 1]) + {s[|s| - 1]}
  {
    assert s == s[..|s| - 1] + [s[|s| - 1]];
  }

  lemma AppendElement(s: seq<int>, x: int)
    ensures Elements(s + [x]) == Elements(s) + {x}
  {
  }

  // ---- Laws of the closure -------------------------------------------------

  lemma EdgeStaysEffective(siblings: SiblingEdges, parents: ParentEdges, raw: set<int>, a: int, b: int)
    requires InEffective(siblings, parents, raw, a) && Edge(siblings, parents, a, b)
    ensures InEffective(siblings, parents, raw, b)
  {
    var r :| r in raw && Implies(siblings, parents, Canonical(siblings, r), a);
    ImpliesThenEdge(siblings, parents, Canonical(siblings, r), a, b);
  }

  /** The effective tags contain the canonical raw tags and are closed under parent edges. */
  lemma EffectiveIsClosed(siblings: SiblingEdges, parents: ParentEdges, raw: set<int>)
    ensures forall r :: r in raw ==> Canonical(siblings, r) in Effective(siblings, parents, raw)
    ensures ClosedUpwards(siblings, parents, Effective(siblings, parents, raw))
  {
    var e := Effective(siblings, parents, raw);
    forall r | r in raw
      ensures Canonical(siblings, r) in e
    {
      ImpliesSelf(siblings, parents, Canonical(siblings, r));
    }
    forall a, b | a in e && Edge(siblings, parents, a, b)
      ensures b in e
    {
      EdgeStaysEffective(siblings, parents, raw, a, b);
    }
  }

  /** ... and they are the least such set. */
  lemma EffectiveIsLeast(siblings: SiblingEdges, parents: ParentEdges, raw: set<int>, s: set<int>)
    requires forall r :: r in raw ==> Canonical(siblings, r) in s
    requires ClosedUpwards(siblings, parents, s)
    ensures Effective(siblings, parents, raw) <= s
  {
    forall d | d in Effective(siblings, parents, raw)
      ensures d in s
    {
      var r :| r in raw && Implies(siblings, parents, Canonical(siblings, r), d);
      ClosedUnderImplies(siblings, parents, s, Canonical(siblings, r), d);
    }
  }

  lemma EffectiveMonotone(siblings: SiblingEdges, parents: ParentEdges, small: set<int>, large: set<int>)
    requires small <= large
    ensures Effective(siblings, parents, small) <= Effective(siblings, parents, large)
  {
    EffectiveIsClosed(siblings, parents, large);
    EffectiveIsLeast(siblings, parents, small, Effective(siblings, parents, large));
  }

  lemma EffectiveIsCanonical(siblings: SiblingEdges, parents: ParentEdges, raw: set<int>)
    ensures forall d :: d in Effective(siblings, parents, raw) ==> Canonical(siblings, d) == d
  {
    forall d | d in Effective(siblings, parents, raw)
      ensures Canonical(siblings, d) == d
    {
      var r :| r in raw && Implies(siblings, parents, Canonical(siblings, r), d);
      var n: nat :| Chain(siblings, parents, Canonical(siblings, r), d, n);
      CanonicalIsIdempotent(siblings, r);
      ChainStaysCanonical(siblings, parents, Canonical(siblings, r), d, n);
    }
  }

  /** A closed set of canonical tags is its own closure. */
  lemma ClosedIsFixpoint(siblings: SiblingEdges, parents: ParentEdges, s: set<int>)
    requires ClosedUpwards(siblings, parents, s) && forall d :: d in s ==> Canonical(siblings, d) == d
    ensures Effective(siblings, parents, s) == s
  {
    EffectiveIsLeast(siblings, parents, s, s);
    EffectiveIsClosed(siblings, parents, s);
    forall d | d in s
      ensures d in Effective(siblings, parents, s)
    {
      assert Canonical(siblings, d) == d;
    }
  }

  /** Reapplying the closure to its own result adds nothing. */
  lemma EffectiveIdempotent(siblings: SiblingEdges, parents: ParentEdges, raw: set<int>)
    ensures Effective(siblings, parents, Effective(siblings, parents, raw)) == Effective(siblings, parents, raw)
  {
    EffectiveIsCanonical(siblings, parents, raw);
    EffectiveIsClosed(siblings, parents, raw);
    ClosedIsFixpoint(siblings, parents, Effective(siblings, parents, raw));
  }

  // ---- The worklist algorithm ----------------------------------------------

  /** Nothing unjustified is found, and what is found but not pending has its parents found too. */
  ghost predicate Progress(
    siblings: SiblingEdges, parents: ParentEdges, goal: set<int>, result: set<int>, pending: set<int>)
  {
    && pending <= result <= goal
    && (forall a, b :: a in result && a !in pending && Edge(siblings, parents, a, b) ==> b in result)
  }

  /** Canonicalize every raw tag, then chase parents with a worklist and a visited set. */
  method EffectiveTags(raw: seq<int>, siblings: SiblingEdges, parents: ParentEdges) returns (result: set<int>)
    ensures result == Effective(siblings, parents, Elements(raw))
  {
    ghost var goal := Effective(siblings, parents, Elements(raw));
    EffectiveIsClosed(siblings, parents, Elements(raw));
    var worklist: seq<int>;
    result, worklist := CanonicalizeAll(raw, siblings, goal);
    result := ChaseParents(siblings, parents, goal, result, worklist);
    EffectiveIsLeast(siblings, parents, Elements(raw), result);
  }

  method ChaseParents(siblings: SiblingEdges, parents: ParentEdges, ghost goal: set<int>, start: set<int>,
                      first: seq<int>)
    returns (result: set<int>)
    requires start == Elements(first) && start <= goal && ClosedUpwards(siblings, parents, goal)
    ensures start <= result <= goal && ClosedUpwards(siblings, parents, result)
  {
    result := start;
    var worklist := first;
    while worklist != []
      invariant start <= result && Progress(siblings, parents, goal, result, Elements(worklist))
      decreases goal - result, |worklist|
    {
      var tag := worklist[|worklist| - 1];
      LastElement(worklist);
      worklist := worklist[..|worklist| - 1];
      result, worklist := PushParents(tag, siblings, parents, goal, result, worklist);
    }
  }

  /** The worklist starts with each canonical raw tag once. */
  method CanonicalizeAll(raw: seq<int>, siblings: SiblingEdges, ghost goal: set<int>)
    returns (result: set<int>, worklist: seq<int>)
    requires forall r :: r in Elements(raw) ==> Canonical(siblings, r) in goal
    ensures result == Elements(worklist) && result <= goal
    ensures forall r :: r in Elements(raw) ==> Canonical(siblings, r) in result
  {
    result := {};
    worklist := [];
    for i := 0 to |raw|
      invariant result == Elements(worklist) && result <= goal
      invariant forall j :: 0 <= j < i ==> Canonical(siblings, raw[j]) in result
    {
      var c := Canonicalize(raw[i], siblings);
      assert raw[i] in Elements(raw);
      if c !in result {
        AppendElement(worklist, c);
        result := result + {c};
        worklist := worklist + [c];
      }
    }
  }

  /** One turn of the worklist: add the canonical form of every listed parent not seen yet. */
  method PushParents(tag: int, siblings: SiblingEdges, parents: ParentEdges, ghost goal: set<int>,
                     seen: set<int>, pending: seq<int>)
    returns (result: set<int>, worklist: seq<int>)
    requires ClosedUpwards(siblings, parents, goal)
    requires Progress(siblings, parents, goal, seen, Elements(pending) + {tag})
    ensures Progress(siblings, parents, goal, result, Elements(worklist))
    ensures seen <= result && (result == seen ==> worklist == pending)
  {
    result, worklist := seen, pending;
    if tag in parents {
      var ancestors := parents[tag];
      for i := 0 to |ancestors|
        invariant seen <= result <= goal && (result == seen ==> worklist == pending)
        invariant Elements(worklist) == Elements(pending) + (result - seen)
        invariant forall j :: 0 <= j < i ==> Canonical(siblings, ancestors[j]) in result
      {
        var pc := Canonicalize(ancestors[i], siblings);
        assert Edge(siblings, parents, tag, pc);
        if pc !in result {
          AppendElement(worklist, pc);
          assert result + {pc} - seen == (result - seen) + {pc};
          result := result + {pc};
          worklist := worklist + [pc];
        }
      }
    }
  }
}
