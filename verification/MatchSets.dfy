/** The query-side inverse of the closure, plain and precomputed (relations.rs, lines 84-347). */
module MatchSets {
  import opened Siblings
  import opened Relations
  import opened Ordering

  /** Lists of tag ids under a tag id. */
  type Index = map<int, seq<int>>

  predicate Listed(index: Index, key: int, x: int) {
    key in index && x in index[key]
  }

  /** `index.entry(key).or_default().push(x)`. */
  function Push(index: Index, key: int, x: int): (r: Index)
    ensures forall k, y :: Listed(r, k, y) <==> Listed(index, k, y) || (k == key && y == x)
    ensures Distinct(index) && !Listed(index, key, x) ==> Distinct(r)
  {
    index[key := (if key in index then index[key] else []) + [x]]
  }

  /** No list holds a tag twice. */
  predicate Distinct(index: Index) {
    forall k :: k in index ==> NoRepeats(index[k])
  }

  // ---- The reverse indexes -------------------------------------------------

  /** Under each tag: the canonical tags of `done` with an edge to it. */
  ghost predicate ReverseOf(siblings: SiblingEdges, parents: ParentEdges, reverse: Index, done: set<int>) {
    forall a, b :: Listed(reverse, b, a) <==> a in done && Canonical(siblings, a) == a && Edge(siblings, parents, a, b)
  }

  /** Under each tag: the tags of `done` that are aliases of it, never the tag itself. */
  ghost predicate PreimageOf(siblings: SiblingEdges, preimage: Index, done: set<int>) {
    && Distinct(preimage)
    && forall a, c :: Listed(preimage, c, a) <==> a in done && Canonical(siblings, a) == c && a != c
  }

  /** Visit the child keys in any order; skip those that are not canonical. */
  method BuildReverse(siblings: SiblingEdges, parents: ParentEdges) returns (reverse: Index)
    ensures ReverseOf(siblings, parents, reverse, parents.Keys)
  {
    reverse := map[];
    var todo := parents.Keys;
    while todo != {}
      invariant todo <= parents.Keys && ReverseOf(siblings, parents, reverse, parents.Keys - todo)
    {
      Inhabited(todo);
      var child :| child in todo;
      var cc := Canonicalize(child, siblings);
      ghost var done := parents.Keys - todo;
      if cc == child {
        reverse := PushAncestors(child, siblings, parents, reverse, done);
      }
      todo := todo - {child};
      assert parents.Keys - todo == done + {child};
    }
    assert parents.Keys - {} == parents.Keys;
  }

  method PushAncestors(child: int, siblings: SiblingEdges, parents: ParentEdges, before: Index, ghost done: set<int>)
    returns (reverse: Index)
    requires child in parents && child !in done && Canonical(siblings, child) == child
    requires ReverseOf(siblings, parents, before, done)
    ensures ReverseOf(siblings, parents, reverse, done + {child})
  {
    reverse := before;
    var ancestors := parents[child];
    for i := 0 to |ancestors|
      invariant forall a, b :: Listed(reverse, b, a) <==>
                  || Listed(before, b, a)
                  || (a == child && exists j :: 0 <= j < i && Canonical(siblings, ancestors[j]) == b)
    {
      var pc := Canonicalize(ancestors[i], siblings);
      reverse := Push(reverse, pc, child);
    }
  }

  /** Visit the aliases in any order; skip cycle members that are their own canonical form. */
  method BuildPreimage(siblings: SiblingEdges) returns (preimage: Index)
    ensures PreimageOf(siblings, preimage, siblings.Keys)
  {
    preimage := map[];
    var todo := siblings.Keys;
    while todo != {}
      invariant todo <= siblings.Keys && PreimageOf(siblings, preimage, siblings.Keys - todo)
    {
      Inhabited(todo);
      var bad :| bad in todo;
      var canon := Canonicalize(bad, siblings);
      if canon != bad {
        preimage := Push(preimage, canon, bad);
      }
      todo := todo - {bad};
    }
    assert siblings.Keys - {} == siblings.Keys;
  }

  // ---- The backward search -------------------------------------------------

  /** `a` is a canonical tag whose presence implies `q`. */
  ghost predicate IsSource(siblings: SiblingEdges, parents: ParentEdges, q: int, a: int) {
    Canonical(siblings, a) == a && Implies(siblings, parents, a, q)
  }

  lemma {:induction false} SourcesComplete(
    siblings: SiblingEdges, parents: ParentEdges, reverse: Index, q: int, sources: set<int>, a: int, n: nat)
    requires ReverseOf(siblings, parents, reverse, parents.Keys)
    requires q in sources && forall b, x :: b in sources && Listed(reverse, b, x) ==> x in sources
    requires Canonical(siblings, a) == a && Chain(siblings, parents, a, q, n)
    ensures a in sources
    decreases n
  {
    if n > 0 {
      var m :| Edge(siblings, parents, a, m) && Chain(siblings, parents, m, q, n - 1);
      ChainStaysCanonical(siblings, parents, a, m, 1) by {
        assert Chain(siblings, parents, m, m, 0);
      }
      SourcesComplete(siblings, parents, reverse, q, sources, m, n - 1);
      assert Listed(reverse, m, a);
    }
  }

  /** Breadth-first search over the reverse parent index. */
  method BackwardSearch(qc: int, reverse: Index, ghost siblings: SiblingEdges, ghost parents: ParentEdges)
    returns (sources: set<int>)
    requires Canonical(siblings, qc) == qc && ReverseOf(siblings, parents, reverse, parents.Keys)
    ensures forall a :: a in sources <==> IsSource(siblings, parents, qc, a)
  {
    sources := {qc};
    var queue := [qc];
    ImpliesSelf(siblings, parents, qc);
    ghost var U := parents.Keys + {qc};
    while queue != []
      invariant qc in sources && sources <= U && forall d :: d in queue ==> d in sources
      invariant forall a :: a in sources ==> IsSource(siblings, parents, qc, a)
      invariant forall b, x :: b in sources && b !in queue && Listed(reverse, b, x) ==> x in sources
      decreases U - sources, |queue|
    {
      var tag := queue[0];
      assert queue == [tag] + queue[1..];
      queue := queue[1..];
      if tag in reverse {
        sources, queue := EnqueueChildren(tag, qc, reverse, siblings, parents, sources, queue);
      }
    }
    forall a | IsSource(siblings, parents, qc, a)
      ensures a in sources
    {
      var n: nat :| Chain(siblings, parents, a, qc, n);
      SourcesComplete(siblings, parents, reverse, qc, sources, a, n);
    }
  }

  method EnqueueChildren(tag: int, qc: int, reverse: Index, ghost siblings: SiblingEdges, ghost parents: ParentEdges,
                         seen: set<int>, pending: seq<int>)
    returns (sources: set<int>, queue: seq<int>)
    requires tag in reverse && tag in seen && IsSource(siblings, parents, qc, tag)
    requires ReverseOf(siblings, parents, reverse, parents.Keys)
    requires forall d :: d in pending ==> d in seen
    requires forall a :: a in seen ==> IsSource(siblings, parents, qc, a)
    requires forall b, x :: b in seen && b !in pending && b != tag && Listed(reverse, b, x) ==> x in seen
    ensures seen <= sources <= seen + parents.Keys && (sources == seen ==> queue == pending)
    ensures forall d :: d in queue ==> d in sources
    ensures forall a :: a in sources ==> IsSource(siblings, parents, qc, a)
    ensures forall b, x :: b in sources && b !in queue && Listed(reverse, b, x) ==> x in sources
  {
    sources, queue := seen, pending;
    var children := reverse[tag];
    for i := 0 to |children|
      invariant seen <= sources <= seen + parents.Keys && (sources == seen ==> queue == pending)
      invariant forall d :: d in queue ==> d in sources
      invariant forall d :: d in pending ==> d in queue
      invariant forall d :: d in sources && d !in seen ==> d in queue
      invariant forall a :: a in sources ==> IsSource(siblings, parents, qc, a)
      invariant forall j :: 0 <= j < i ==> children[j] in sources
    {
      var child := children[i];
      assert Listed(reverse, tag, child);
      if child !in sources {
        EdgeThenImplies(siblings, parents, child, tag, qc);
        sources := sources + {child};
        queue := queue + [child];
      }
    }
  }

  /** Every source together with its aliases, sources taken in any order. */
  method AddAliases(sources: set<int>, preimage: Index) returns (result: set<int>)
    ensures forall r :: r in result <==> r in sources || exists c :: c in sources && Listed(preimage, c, r)
  {
    result := {};
    var todo := sources;
    while todo != {}
      invariant todo <= sources
      invariant forall r :: r in result <==>
                  r in sources - todo || exists c :: c in sources - todo && Listed(preimage, c, r)
    {
      Inhabited(todo);
      var source :| source in todo;
      result := result + {source};
      if source in preimage {
        result := result + set b | b in preimage[source];
      }
      todo := todo - {source};
    }
    assert sources - {} == sources;
  }

  // ---- What a match set is -------------------------------------------------

  /** A raw tag matches a query when its canonical form implies the query's. */
  ghost predicate Matches(siblings: SiblingEdges, parents: ParentEdges, query: int, r: int) {
    Implies(siblings, parents, Canonical(siblings, r), Canonical(siblings, query))
  }

  lemma SourcesAndAliasesMatch(
    siblings: SiblingEdges, parents: ParentEdges, preimage: Index, query: int, sources: set<int>, r: int)
    requires PreimageOf(siblings, preimage, siblings.Keys)
    requires forall a :: a in sources <==> IsSource(siblings, parents, Canonical(siblings, query), a)
    ensures Matches(siblings, parents, query, r)
       <==> r in sources || exists c :: c in sources && Listed(preimage, c, r)
  {
    var c := Canonical(siblings, r);
    CanonicalIsIdempotent(siblings, r);
    if r !in siblings {
      TerminalIsCanonical(siblings, r);
    }
    if Matches(siblings, parents, query, r) {
      assert c in sources;
      assert r == c || Listed(preimage, c, r);
    }
  }

  /** All raw tags whose presence makes `query` effective, built from scratch. */
  method MatchSet(query: int, siblings: SiblingEdges, parents: ParentEdges) returns (result: set<int>)
    ensures forall r :: r in result <==> Matches(siblings, parents, query, r)
  {
    var qc := Canonicalize(query, siblings);
    CanonicalIsIdempotent(siblings, query);
    var reverse := BuildReverse(siblings, parents);
    var sources := BackwardSearch(qc, reverse, siblings, parents);
    var preimage := BuildPreimage(siblings);
    result := AddAliases(sources, preimage);
    forall r
      ensures r in result <==> Matches(siblings, parents, query, r)
    {
      SourcesAndAliasesMatch(siblings, parents, preimage, query, sources, r);
    }
  }

  /**
   * The search oracle: a file's raw tags meet the query's match set exactly when the query's
   * canonical form is among the file's effective tags.
   */
  lemma MatchSetInvertsEffective(
    siblings: SiblingEdges, parents: ParentEdges, query: int, raw: set<int>, matchSet: set<int>)
    requires forall r :: r in matchSet <==> Matches(siblings, parents, query, r)
    ensures raw * matchSet != {} <==> Canonical(siblings, query) in Effective(siblings, parents, raw)
  {
    var q := Canonical(siblings, query);
    if raw * matchSet != {} {
      Inhabited(raw * matchSet);
      var r :| r in raw * matchSet;
      assert Matches(siblings, parents, query, r);
      assert InEffective(siblings, parents, raw, q);
    }
    if q in Effective(siblings, parents, raw) {
      assert InEffective(siblings, parents, raw, q);
      var r :| r in raw && Implies(siblings, parents, Canonical(siblings, r), q);
      assert Matches(siblings, parents, query, r);
      assert r in raw * matchSet;
    }
  }

  /** Searching for an alias finds what searching for its canonical form finds. */
  lemma AliasesSearchAlike(siblings: SiblingEdges, parents: ParentEdges, query: int, r: int)
    ensures Matches(siblings, parents, query, r) <==> Matches(siblings, parents, Canonical(siblings, query), r)
  {
    CanonicalIsIdempotent(siblings, query);
  }

  // ---- The relation sections -----------------------------------------------

  /** At most `cap` ids, in ascending order, and how many there were. */
  datatype RelationCapped = RelationCapped(ids: seq<int>, total: nat)

  datatype RelationSections = RelationSections(aliases: RelationCapped, parents: RelationCapped,
                                               children: RelationCapped)

  function CapIds(ids: seq<int>, cap: nat): RelationCapped {
    RelationCapped(if |ids| <= cap then ids else ids[..cap], |ids|)
  }

  /** The least `cap` of the ids, or all if there are fewer, in ascending order, and how many there are in all. */
  ghost predicate ShowsFirst(shown: RelationCapped, ids: set<int>, cap: nat) {
    && shown.total == |ids| && |shown.ids| == (if |ids| < cap then |ids| else cap)
    && (forall i, j :: 0 <= i < j < |shown.ids| ==> shown.ids[i] < shown.ids[j])
    && (forall x :: x in shown.ids ==> x in ids)
    && forall x, y :: x in ids && x !in shown.ids && y in shown.ids ==> y < x
  }

  lemma CutIsLeast(all: seq<int>, n: nat, x: int, y: int)
    requires Strict(all) && n <= |all| && x in all && x !in all[..n] && y in all[..n]
    ensures y < x
  {
    var i :| 0 <= i < |all| && all[i] == x;
    var j :| 0 <= j < n && all[..n][j] == y;
    InPrefix(all, n);
    assert all[j] == y;
  }

  lemma InPrefix(all: seq<int>, n: nat)
    requires n <= |all|
    ensures forall i :: 0 <= i < n ==> all[i] in all[..n]
  {
    forall i | 0 <= i < n
      ensures all[i] in all[..n]
    {
      assert all[..n][i] == all[i];
    }
  }

  lemma CutShowsFirst(ids: set<int>, cap: nat)
    ensures ShowsFirst(CapIds(Ascending(ids), cap), ids, cap)
  {
    var all := Ascending(ids);
    var n := if |all| < cap then |all| else cap;
    assert all[..|all|] == all;
    assert CapIds(all, cap).ids == all[..n];
    forall x, y | x in all && x !in all[..n] && y in all[..n]
      ensures y < x
    {
      CutIsLeast(all, n, x, y);
    }
  }

  /** The tags aliased to `c`. */
  ghost function AliasSet(siblings: SiblingEdges, c: int): (s: set<int>)
    ensures forall a :: a in s <==> Canonical(siblings, a) == c && a != c
  {
    assert forall a :: a !in siblings ==> Canonical(siblings, a) == a by {
      forall a | a !in siblings
        ensures Canonical(siblings, a) == a
      {
        TerminalIsCanonical(siblings, a);
      }
    }
    set a | a in siblings && Canonical(siblings, a) == c && a != c
  }

  ghost function ParentSet(siblings: SiblingEdges, parents: ParentEdges, c: int): (s: set<int>)
    ensures forall b :: b in s <==> Edge(siblings, parents, c, b) && b != c
  {
    if c in parents then
      set i | 0 <= i < |parents[c]| && Canonical(siblings, parents[c][i]) != c :: Canonical(siblings, parents[c][i])
    else {}
  }

  ghost function ChildSet(siblings: SiblingEdges, parents: ParentEdges, c: int): (s: set<int>)
    ensures forall a :: a in s <==> Canonical(siblings, a) == a && Edge(siblings, parents, a, c) && a != c
  {
    set a | a in parents && Canonical(siblings, a) == a && Edge(siblings, parents, a, c) && a != c
  }

  /** The three sections, as ascending lists of exactly these sets. */
  ghost function Sections(siblings: SiblingEdges, parents: ParentEdges, tagId: int, cap: nat): RelationSections {
    var c := Canonical(siblings, tagId);
    RelationSections(
      CapIds(Ascending(AliasSet(siblings, c)), cap),
      CapIds(Ascending(ParentSet(siblings, parents, c)), cap),
      CapIds(Ascending(ChildSet(siblings, parents, c)), cap))
  }

  /** The canonical form of `tagId` has an alias, a parent or a child. */
  ghost predicate Related(siblings: SiblingEdges, parents: ParentEdges, tagId: int) {
    var c := Canonical(siblings, tagId);
    AliasSet(siblings, c) != {} || ParentSet(siblings, parents, c) != {} || ChildSet(siblings, parents, c) != {}
  }

  /** The tag graph with its reverse indexes, built once and shared between queries. */
  datatype RelationGraph = RelationGraph(
    siblings: SiblingEdges,
    parents: ParentEdges,
    reverseParents: Index,
    siblingPreimage: Index)
  {
    ghost predicate Valid() {
      && ReverseOf(siblings, parents, reverseParents, parents.Keys)
      && PreimageOf(siblings, siblingPreimage, siblings.Keys)
    }

    static method New(siblings: SiblingEdges, parents: ParentEdges) returns (g: RelationGraph)
      ensures g.Valid() && g.siblings == siblings && g.parents == parents
    {
      var reverse := BuildReverse(siblings, parents);
      var preimage := BuildPreimage(siblings);
      g := RelationGraph(siblings, parents, reverse, preimage);
    }

    /** The same answer as the plain `MatchSet`, from the precomputed indexes. */
    method MatchSet(query: int) returns (result: set<int>)
      requires Valid()
      ensures forall r :: r in result <==> Matches(siblings, parents, query, r)
    {
      var qc := Canonicalize(query, siblings);
      CanonicalIsIdempotent(siblings, query);
      var sources := BackwardSearch(qc, reverseParents, siblings, parents);
      result := AddAliases(sources, siblingPreimage);
      forall r
        ensures r in result <==> Matches(siblings, parents, query, r)
      {
        SourcesAndAliasesMatch(siblings, parents, siblingPreimage, query, sources, r);
      }
    }

    /** Whether any of the three sections has an entry. */
    method HasRelations(tagId: int) returns (has: bool)
      requires Valid()
      ensures has <==> Related(siblings, parents, tagId)
    {
      var c := Canonicalize(tagId, siblings);
      var hasAlias := c in siblingPreimage && siblingPreimage[c] != [];
      assert hasAlias <==> AliasSet(siblings, c) != {} by {
        AliasesListed(c);
        if hasAlias {
          assert Listed(siblingPreimage, c, siblingPreimage[c][0]);
        }
      }
      var parentIds := CanonicalParents(c);
      var childIds := OtherChildren(c);
      has := hasAlias || parentIds != {} || childIds != {};
    }

    lemma AliasesListed(c: int)
      requires Valid()
      ensures forall a :: a in AliasSet(siblings, c) <==> Listed(siblingPreimage, c, a)
    {
      forall a
        ensures a in AliasSet(siblings, c) <==> Listed(siblingPreimage, c, a)
      {
        if a !in siblings {
          TerminalIsCanonical(siblings, a);
        }
      }
    }

    /** The canonical forms of the listed parents, the tag itself left out. */
    method CanonicalParents(c: int) returns (ids: set<int>)
      ensures ids == ParentSet(siblings, parents, c)
    {
      ids := {};
      if c in parents {
        for i := 0 to |parents[c]|
          invariant forall b :: b in ids <==>
                      exists j :: 0 <= j < i && Canonical(siblings, parents[c][j]) == b && b != c
        {
          var p := Canonicalize(parents[c][i], siblings);
          if p != c {
            ids := ids + {p};
          }
        }
      }
      assert forall b :: b in ids <==> Edge(siblings, parents, c, b) && b != c;
      assert forall b :: b in ids <==> b in ParentSet(siblings, parents, c);
    }

    method OtherChildren(c: int) returns (ids: set<int>)
      requires Valid()
      ensures ids == ChildSet(siblings, parents, c)
    {
      ids := if c in reverseParents then set ch | ch in reverseParents[c] && ch != c else {};
      forall a
        ensures a in ids <==> a in ChildSet(siblings, parents, c)
      {
        assert Listed(reverseParents, c, a) <==>
                 a in parents && Canonical(siblings, a) == a && Edge(siblings, parents, a, c);
      }
    }

    /** Sorted, deduplicated and capped sections for the canonical form of `tagId`. */
    method RelationsOf(tagId: int, cap: nat) returns (sections: RelationSections)
      requires Valid()
      ensures sections == Sections(siblings, parents, tagId, cap)
      ensures var c := Canonical(siblings, tagId);
              && ShowsFirst(sections.aliases, AliasSet(siblings, c), cap)
              && ShowsFirst(sections.parents, ParentSet(siblings, parents, c), cap)
              && ShowsFirst(sections.children, ChildSet(siblings, parents, c), cap)
    {
      var c := Canonicalize(tagId, siblings);
      var aliases := if c in siblingPreimage then siblingPreimage[c] else [];
      AliasesListed(c);
      assert forall a :: a in aliases <==> Listed(siblingPreimage, c, a);
      assert forall a :: a in AliasSet(siblings, c) <==> a in aliases;
      assert (set a | a in aliases) == AliasSet(siblings, c);
      SortOfDistinct(aliases);
      var parentIds := CanonicalParents(c);
      var childIds := OtherChildren(c);
      CutShowsFirst(AliasSet(siblings, c), cap);
      CutShowsFirst(parentIds, cap);
      CutShowsFirst(childIds, cap);
      sections := RelationSections(
        CapIds(Sort(aliases), cap), CapIds(Ascending(parentIds), cap), CapIds(Ascending(childIds), cap));
    }
  }

  // ---- Laws of the sections ------------------------------------------------

  /** The indicator is lit exactly when some section is not empty. */
  lemma IndicatorIffSomeTotal(siblings: SiblingEdges, parents: ParentEdges, tagId: int, cap: nat)
    ensures Related(siblings, parents, tagId) <==>
              var r := Sections(siblings, parents, tagId, cap);
              r.aliases.total > 0 || r.parents.total > 0 || r.children.total > 0
  {
    var c := Canonical(siblings, tagId);
    assert forall s: set<int> :: s != {} <==> |Ascending(s)| > 0;
  }

  /** Parent and child sections are converses of each other on canonical tags. */
  lemma ParentsConverseOfChildren(siblings: SiblingEdges, parents: ParentEdges, a: int, b: int)
    requires Canonical(siblings, a) == a
    ensures b in ParentSet(siblings, parents, a) <==> a in ChildSet(siblings, parents, b)
  {
  }

  /** Alias lists partition the non-canonical tags: each is listed once, under its canonical form. */
  lemma AliasListsPartition(siblings: SiblingEdges, a: int, c: int)
    ensures a in AliasSet(siblings, c) ==> Canonical(siblings, c) == c && c == Canonical(siblings, a)
    ensures a in AliasSet(siblings, Canonical(siblings, a)) <==> Canonical(siblings, a) != a
  {
    CanonicalIsIdempotent(siblings, a);
  }

  /** An alias shows the same sections as its canonical form. */
  lemma AliasSharesSections(siblings: SiblingEdges, parents: ParentEdges, tagId: int, cap: nat)
    ensures Sections(siblings, parents, tagId, cap) == Sections(siblings, parents, Canonical(siblings, tagId), cap)
  {
    CanonicalIsIdempotent(siblings, tagId);
  }
}
