/** The sink itself, over tables keyed by interned tag ids and written one transaction a batch. */
module ImportSink {
  import opened Wrappers
  import opened Tags
  import opened Imports

  // ---- Rows ----------------------------------------------------------------

  /** The database: the tag dictionary and the three tables, keyed by tag id. */
  datatype Rows = Rows(
    ids: map<Tag, nat>,
    nextId: nat,
    staged: map<(string, nat), RecordStatus>,
    siblings: map<nat, nat>,
    parents: set<(nat, nat)>)

  predicate IdsOk(ids: map<Tag, nat>, nextId: nat) {
    && (forall t :: t in ids ==> ids[t] < nextId)
    && forall t, u :: t in ids && u in ids && ids[t] == ids[u] ==> t == u
  }

  ghost predicate ShowsStaged(ids: map<Tag, nat>, nextId: nat, rows: map<(string, nat), RecordStatus>,
                              staged: map<(string, Tag), RecordStatus>) {
    && (forall k :: k in rows ==> k.1 < nextId)
    && (forall k :: k in staged ==> k.1 in ids)
    && forall sha: string, t: Tag :: t in ids ==>
         ((sha, t) in staged <==> (sha, ids[t]) in rows)
           && ((sha, t) in staged ==> staged[(sha, t)] == rows[(sha, ids[t])])
  }

  ghost predicate ShowsSiblings(ids: map<Tag, nat>, nextId: nat, rows: map<nat, nat>, siblings: map<Tag, Tag>) {
    && (forall b :: b in rows ==> b < nextId)
    && (forall t :: t in siblings ==> t in ids && siblings[t] in ids)
    && forall t: Tag :: t in ids ==>
         (t in siblings <==> ids[t] in rows) && (t in siblings ==> rows[ids[t]] == ids[siblings[t]])
  }

  ghost predicate ShowsParents(ids: map<Tag, nat>, nextId: nat, rows: set<(nat, nat)>, parents: set<(Tag, Tag)>) {
    && (forall e :: e in rows ==> e.0 < nextId && e.1 < nextId)
    && (forall e :: e in parents ==> e.0 in ids && e.1 in ids)
    && forall t: Tag, u: Tag :: t in ids && u in ids ==> ((t, u) in parents <==> (ids[t], ids[u]) in rows)
  }

  /** The rows say what the tables say. */
  ghost predicate Shows(r: Rows, t: Tables) {
    && IdsOk(r.ids, r.nextId)
    && ShowsStaged(r.ids, r.nextId, r.staged, t.staged)
    && ShowsSiblings(r.ids, r.nextId, r.siblings, t.siblings)
    && ShowsParents(r.ids, r.nextId, r.parents, t.parents)
  }

  /** No cached id is missing from the dictionary or differs from it. */
  predicate CacheOk(cache: map<Tag, nat>, r: Rows) {
    forall t :: t in cache ==> t in r.ids && r.ids[t] == cache[t]
  }

  predicate KeepsIds(before: Rows, after: Rows) {
    forall t :: t in before.ids ==> t in after.ids && after.ids[t] == before.ids[t]
  }

  function NewTag(r: Rows, t: Tag): Rows {
    r.(ids := r.ids[t := r.nextId], nextId := r.nextId + 1)
  }

  lemma NewTagStaged(ids: map<Tag, nat>, n: nat, t: Tag, rows: map<(string, nat), RecordStatus>,
                     staged: map<(string, Tag), RecordStatus>)
    requires ShowsStaged(ids, n, rows, staged) && t !in ids
    ensures ShowsStaged(ids[t := n], n + 1, rows, staged)
  {
    forall sha: string, u: Tag | u in ids[t := n]
      ensures (sha, u) in staged <==> (sha, ids[t := n][u]) in rows
      ensures (sha, u) in staged ==> staged[(sha, u)] == rows[(sha, ids[t := n][u])]
    {
      if u == t {
        assert (sha, u) in staged ==> (sha, u).1 in ids;
        assert (sha, n) in rows ==> (sha, n).1 < n;
      }
    }
  }

  lemma NewTagSiblings(ids: map<Tag, nat>, n: nat, t: Tag, rows: map<nat, nat>, siblings: map<Tag, Tag>)
    requires ShowsSiblings(ids, n, rows, siblings) && t !in ids
    ensures ShowsSiblings(ids[t := n], n + 1, rows, siblings)
  {
  }

  lemma NewTagParents(ids: map<Tag, nat>, n: nat, t: Tag, rows: set<(nat, nat)>, parents: set<(Tag, Tag)>)
    requires ShowsParents(ids, n, rows, parents) && t !in ids
    ensures ShowsParents(ids[t := n], n + 1, rows, parents)
  {
    var after := ids[t := n];
    forall u: Tag, v: Tag | u in after && v in after
      ensures (u, v) in parents <==> (after[u], after[v]) in rows
    {
      if u == t || v == t {
        var e := (after[u], after[v]);
        assert e in rows ==> e.0 < n && e.1 < n;
        assert (u, v) in parents ==> (u, v).0 in ids && (u, v).1 in ids;
      }
    }
  }

  lemma NewTagShows(r: Rows, t: Tag, tables: Tables)
    requires Shows(r, tables) && t !in r.ids
    ensures Shows(NewTag(r, t), tables) && KeepsIds(r, NewTag(r, t))
  {
    NewTagStaged(r.ids, r.nextId, t, r.staged, tables.staged);
    NewTagSiblings(r.ids, r.nextId, t, r.siblings, tables.siblings);
    NewTagParents(r.ids, r.nextId, t, r.parents, tables.parents);
  }

  /** Look a tag up in both caches, then in the dictionary; add it if it is new. */
  method InternTagCached(t: Tag, cache: map<Tag, nat>, pending: map<Tag, nat>, tx: Rows, ghost tables: Tables)
    returns (id: nat, morePending: map<Tag, nat>, after: Rows)
    requires Shows(tx, tables) && CacheOk(cache, tx) && CacheOk(pending, tx)
    ensures Shows(after, tables) && CacheOk(cache, after) && CacheOk(morePending, after) && KeepsIds(tx, after)
    ensures t in after.ids && after.ids[t] == id
  {
    morePending, after := pending, tx;
    if t in cache {
      id := cache[t];
    } else if t in pending {
      id := pending[t];
    } else {
      if t !in tx.ids {
        NewTagShows(tx, t, tables);
        after := NewTag(tx, t);
      }
      id := after.ids[t];
      morePending := pending[t := id];
    }
  }

  lemma StagedRow(r: Rows, t: Tables, m: MappingRecord)
    requires Shows(r, t) && m.tag in r.ids
    ensures Shows(r.(staged := r.staged[(m.sha256, r.ids[m.tag]) := m.status]), StageMapping(t, m))
  {
    PutStaged(r.ids, r.nextId, r.staged, t.staged, m);
  }

  lemma PutStaged(ids: map<Tag, nat>, n: nat, rows: map<(string, nat), RecordStatus>, 
                  staged: map<(string, Tag), RecordStatus>,
                  m: MappingRecord)
    requires IdsOk(ids, n) && ShowsStaged(ids, n, rows, staged) && m.tag in ids
    ensures ShowsStaged(ids, n, rows[(m.sha256, ids[m.tag]) := m.status], staged[(m.sha256, m.tag) := m.status])
  {
    forall u: Tag | u in ids
      ensures ids[u] == ids[m.tag] <==> u == m.tag
    {
    }
  }

  lemma SiblingRow(r: Rows, t: Tables, bad: Tag, ideal: Tag)
    requires Shows(r, t) && bad in r.ids && ideal in r.ids
    ensures r.ids[bad] == r.ids[ideal] <==> bad == ideal
    ensures bad != ideal ==> Shows(r.(siblings := r.siblings[r.ids[bad] := r.ids[ideal]]), AddSibling(t, bad, ideal))
  {
    if bad != ideal {
      PutSibling(r.ids, r.nextId, r.siblings, t.siblings, bad, ideal);
    }
  }

  lemma PutSibling(ids: map<Tag, nat>, n: nat, rows: map<nat, nat>, siblings: map<Tag, Tag>, bad: Tag, ideal: Tag)
    requires IdsOk(ids, n) && ShowsSiblings(ids, n, rows, siblings) && bad in ids && ideal in ids
    ensures ShowsSiblings(ids, n, rows[ids[bad] := ids[ideal]], siblings[bad := ideal])
  {
  }

  lemma ParentRow(r: Rows, t: Tables, child: Tag, parent: Tag)
    requires Shows(r, t) && child in r.ids && parent in r.ids
    ensures r.ids[child] == r.ids[parent] <==> child == parent
    ensures child != parent ==>
              Shows(r.(parents := r.parents + {(r.ids[child], r.ids[parent])}), AddParent(t, child, parent))
  {
    if child != parent {
      PutParent(r.ids, r.nextId, r.parents, t.parents, child, parent);
    }
  }

  lemma PutParent(ids: map<Tag, nat>, n: nat, rows: set<(nat, nat)>, parents: set<(Tag, Tag)>, child: Tag, parent: Tag)
    requires IdsOk(ids, n) && ShowsParents(ids, n, rows, parents) && child in ids && parent in ids
    ensures ShowsParents(ids, n, rows + {(ids[child], ids[parent])}, parents + {(child, parent)})
  {
  }

  // ---- The rows of a batch -------------------------------------------------

  /** A transaction in progress: what it shows, and ids it has looked up beside the cached ones. */
  ghost predicate InTransaction(tx: Rows, tables: Tables, cache: map<Tag, nat>, pending: map<Tag, nat>) {
    Shows(tx, tables) && CacheOk(cache, tx) && CacheOk(pending, tx)
  }

  method WriteMapping(m: MappingRecord, cache: map<Tag, nat>, pending: map<Tag, nat>, tx: Rows, ghost tables: Tables)
    returns (after: Rows, morePending: map<Tag, nat>)
    requires InTransaction(tx, tables, cache, pending)
    ensures InTransaction(after, StageMapping(tables, m), cache, morePending)
  {
    var id;
    id, morePending, after := InternTagCached(m.tag, cache, pending, tx, tables);
    StagedRow(after, tables, m);
    after := after.(staged := after.staged[(m.sha256, id) := m.status]);
  }

  method WriteSibling(bad: Tag, ideal: Tag, cache: map<Tag, nat>, pending: map<Tag, nat>, tx: Rows,
                      ghost tables: Tables)
    returns (after: Rows, morePending: map<Tag, nat>, applied: bool)
    requires InTransaction(tx, tables, cache, pending)
    ensures InTransaction(after, AddSibling(tables, bad, ideal), cache, morePending) && (applied <==> bad != ideal)
  {
    var badId, idealId;
    badId, morePending, after := InternTagCached(bad, cache, pending, tx, tables);
    idealId, morePending, after := InternTagCached(ideal, cache, morePending, after, tables);
    SiblingRow(after, tables, bad, ideal);
    applied := badId != idealId;
    if applied {
      after := after.(siblings := after.siblings[badId := idealId]);
    }
  }

  method WriteParent(child: Tag, parent: Tag, cache: map<Tag, nat>, pending: map<Tag, nat>, tx: Rows,
                     ghost tables: Tables)
    returns (after: Rows, morePending: map<Tag, nat>, applied: bool)
    requires InTransaction(tx, tables, cache, pending)
    ensures InTransaction(after, AddParent(tables, child, parent), cache, morePending) && (applied <==> child != parent)
  {
    var childId, parentId;
    childId, morePending, after := InternTagCached(child, cache, pending, tx, tables);
    parentId, morePending, after := InternTagCached(parent, cache, morePending, after, tables);
    ParentRow(after, tables, child, parent);
    applied := childId != parentId;
    if applied {
      after := after.(parents := after.parents + {(childId, parentId)});
    }
  }

  method WriteMappings(items: seq<MappingRecord>, cache: map<Tag, nat>, rows: Rows, ghost tables: Tables)
    returns (tx: Rows, pending: map<Tag, nat>)
    requires Shows(rows, tables) && CacheOk(cache, rows)
    ensures InTransaction(tx, StageAll(tables, items), cache, pending)
  {
    tx, pending := rows, map[];
    for i := 0 to |items|
      invariant InTransaction(tx, StageAll(tables, items[..i]), cache, pending)
    {
      assert items[..i + 1][..i] == items[..i];
      tx, pending := WriteMapping(items[i], cache, pending, tx, StageAll(tables, items[..i]));
    }
    assert items[..|items|] == items;
  }

  method WriteSiblings(items: seq<(Tag, Tag)>, cache: map<Tag, nat>, rows: Rows, ghost tables: Tables)
    returns (tx: Rows, pending: map<Tag, nat>, applied: nat)
    requires Shows(rows, tables) && CacheOk(cache, rows)
    ensures InTransaction(tx, AddSiblings(tables, items), cache, pending) && applied == Applied(items)
  {
    tx, pending, applied := rows, map[], 0;
    for i := 0 to |items|
      invariant InTransaction(tx, AddSiblings(tables, items[..i]), cache, pending) && applied == Applied(items[..i])
    {
      assert items[..i + 1][..i] == items[..i];
      var isApplied;
      tx, pending, isApplied := WriteSibling(items[i].0, items[i].1, cache, pending, tx,
                                             AddSiblings(tables, items[..i]));
      if isApplied {
        applied := applied + 1;
      }
    }
    assert items[..|items|] == items;
  }

  method WriteParents(items: seq<(Tag, Tag)>, cache: map<Tag, nat>, rows: Rows, ghost tables: Tables)
    returns (tx: Rows, pending: map<Tag, nat>, applied: nat)
    requires Shows(rows, tables) && CacheOk(cache, rows)
    ensures InTransaction(tx, AddParents(tables, items), cache, pending) && applied == Applied(items)
  {
    tx, pending, applied := rows, map[], 0;
    for i := 0 to |items|
      invariant InTransaction(tx, AddParents(tables, items[..i]), cache, pending) && applied == Applied(items[..i])
    {
      assert items[..i + 1][..i] == items[..i];
      var isApplied;
      tx, pending, isApplied := WriteParent(items[i].0, items[i].1, cache, pending, tx, AddParents(tables, items[..i]));
      if isApplied {
        applied := applied + 1;
      }
    }
    assert items[..|items|] == items;
  }

  // ---- Transactions --------------------------------------------------------

  /** The library database. `faults` says which of the coming transactions fail. */
  class ImportDb {
    var rows: Rows
    var faults: seq<bool>
    ghost var shown: Tables
    ghost var outcomes: seq<bool>

    ghost predicate Valid()
      reads this
    {
      Shows(rows, shown)
    }

    /** End a transaction: commit its rows, or leave the database as it was. */
    method Finish(tx: Rows, ghost tables: Tables) returns (ok: bool)
      requires Valid() && Shows(tx, tables)
      modifies this
      ensures Valid()
      ensures ok <==> old(faults) == [] || !old(faults)[0]
      ensures faults == if old(faults) == [] then [] else old(faults)[1..]
      ensures outcomes == old(outcomes) + [ok]
      ensures if ok then rows == tx && shown == tables else rows == old(rows) && shown == old(shown)
    {
      ok := faults == [] || !faults[0];
      if faults != [] {
        faults := faults[1..];
      }
      if ok {
        rows, shown := tx, tables;
      }
      outcomes := outcomes + [ok];
    }

    /** Stage a batch in one transaction; new ids reach the cache only if it commits. */
    method StageMappingsBatch(items: seq<MappingRecord>, cache: map<Tag, nat>)
      returns (ok: bool, newCache: map<Tag, nat>)
      requires Valid() && CacheOk(cache, rows)
      modifies this
      ensures Valid() && CacheOk(newCache, rows) && outcomes == old(outcomes) + [ok]
      ensures ok ==> shown == StageAll(old(shown), items)
      ensures !ok ==> rows == old(rows) && shown == old(shown) && newCache == cache
    {
      var tx, pending := WriteMappings(items, cache, rows, shown);
      ok := Finish(tx, StageAll(shown, items));
      newCache := if ok then cache + pending else cache;
    }

    method AddSiblingsBatch(items: seq<(Tag, Tag)>, cache: map<Tag, nat>)
      returns (ok: bool, applied: nat, newCache: map<Tag, nat>)
      requires Valid() && CacheOk(cache, rows)
      modifies this
      ensures Valid() && CacheOk(newCache, rows) && outcomes == old(outcomes) + [ok]
      ensures ok ==> shown == AddSiblings(old(shown), items) && applied == Applied(items)
      ensures ok ==> applied == Hits(items, (e: (Tag, Tag)) => e.0 != e.1)
      ensures !ok ==> rows == old(rows) && shown == old(shown) && newCache == cache
    {
      var tx, pending;
      tx, pending, applied := WriteSiblings(items, cache, rows, shown);
      AppliedCounts(items);
      ok := Finish(tx, AddSiblings(shown, items));
      newCache := if ok then cache + pending else cache;
    }

    method AddParentsBatch(items: seq<(Tag, Tag)>, cache: map<Tag, nat>)
      returns (ok: bool, applied: nat, newCache: map<Tag, nat>)
      requires Valid() && CacheOk(cache, rows)
      modifies this
      ensures Valid() && CacheOk(newCache, rows) && outcomes == old(outcomes) + [ok]
      ensures ok ==> shown == AddParents(old(shown), items) && applied == Applied(items)
      ensures ok ==> applied == Hits(items, (e: (Tag, Tag)) => e.0 != e.1)
      ensures !ok ==> rows == old(rows) && shown == old(shown) && newCache == cache
    {
      var tx, pending;
      tx, pending, applied := WriteParents(items, cache, rows, shown);
      AppliedCounts(items);
      ok := Finish(tx, AddParents(shown, items));
      newCache := if ok then cache + pending else cache;
    }
  }

  // ---- Flushing the rest of a stream ---------------------------------------

  lemma WriteMoreMappings(start: Tables, ms: seq<MappingRecord>, m: nat, ss: seq<(Tag, Tag)>, ps: seq<(Tag, Tag)>)
    requires m <= |ms|
    ensures StageAll(WriteStreams(start, ms[..m], ss, ps), ms[m..]) == WriteStreams(start, ms, ss, ps)
  {
    var now := WriteStreams(start, ms[..m], ss, ps);
    SplitAgain(ms, m);
    StageAllConcat(start, ms[..m], ms[m..]);
    StageAllParts(now, ms[m..]);
    WriteStreamsParts(start, ms[..m], ss, ps);
    WriteStreamsParts(start, ms, ss, ps);
    SameStaged(now, StageAll(start, ms[..m]), ms[m..]);
  }

  lemma WriteMoreSiblings(start: Tables, ms: seq<MappingRecord>, ss: seq<(Tag, Tag)>, n: nat, ps: seq<(Tag, Tag)>)
    requires n <= |ss|
    ensures AddSiblings(WriteStreams(start, ms, ss[..n], ps), ss[n..]) == WriteStreams(start, ms, ss, ps)
    ensures Applied(ss) == Applied(ss[..n]) + Applied(ss[n..])
  {
    var now := WriteStreams(start, ms, ss[..n], ps);
    SplitAgain(ss, n);
    AddSiblingsConcat(start, ss[..n], ss[n..]);
    AddSiblingsParts(now, ss[n..]);
    WriteStreamsParts(start, ms, ss[..n], ps);
    WriteStreamsParts(start, ms, ss, ps);
    SameSiblings(now, AddSiblings(start, ss[..n]), ss[n..]);
  }

  lemma WriteMoreParents(start: Tables, ms: seq<MappingRecord>, ss: seq<(Tag, Tag)>, ps: seq<(Tag, Tag)>, n: nat)
    requires n <= |ps|
    ensures AddParents(WriteStreams(start, ms, ss, ps[..n]), ps[n..]) == WriteStreams(start, ms, ss, ps)
    ensures Applied(ps) == Applied(ps[..n]) + Applied(ps[n..])
  {
    SplitAgain(ps, n);
    AddParentsConcat(AddSiblings(StageAll(start, ms), ss), ps[..n], ps[n..]);
    AddSiblingsConcat(start, ps[..n], ps[n..]);
  }

  // ---- What the sink keeps track of ----------------------------------------

  datatype Buffers = Buffers(
    mappings: seq<MappingRecord>,
    siblings: seq<(Tag, Tag)>,
    parents: seq<(Tag, Tag)>,
    mappingsCt: nat,
    siblingsCt: nat,
    parentsCt: nat)

  /** What follows the first `n`. */
  ghost predicate IsRest<T>(s: seq<T>, n: nat, rest: seq<T>) {
    && n + |rest| == |s|
    && forall i :: 0 <= i < |rest| ==> rest[i] == s[n + i]
  }

  /**
   * Of three streams the tables hold what is written, the buffers the rest; the counts are of
   * mappings taken and of relations applied.
   */
  ghost predicate TracksStreams(start: Tables, ms: seq<MappingRecord>, ss: seq<(Tag, Tag)>, ps: seq<(Tag, Tag)>,
                                w: Written, now: Tables, b: Buffers, failed: bool) {
    && HasWritten(start, ms, ss, ps, w, now)
    && (!failed ==>
          && IsRest(ms, w.mappings, b.mappings) && IsRest(ss, w.siblings, b.siblings)
          && IsRest(ps, w.parents, b.parents))
    && b.mappingsCt == |ms|
    && b.siblingsCt == Applied(ss[..w.siblings])
    && b.parentsCt == Applied(ps[..w.parents])
  }

  /** The streams of the records taken so far. */
  ghost predicate Tracks(start: Tables, fed: seq<Record>, w: Written, now: Tables, b: Buffers, failed: bool) {
    TracksStreams(start, MappingsOf(fed), RelationsOf(fed, Sibling), RelationsOf(fed, Parent), w, now, b, failed)
  }

  // ---- Flushing a buffer ---------------------------------------------------

  lemma RestIs<T>(s: seq<T>, n: nat, rest: seq<T>)
    requires IsRest(s, n, rest)
    ensures rest == s[n..] && s[..|s|] == s
  {
  }

  lemma MappingsWritten(start: Tables, ms: seq<MappingRecord>, ss: seq<(Tag, Tag)>, ps: seq<(Tag, Tag)>,
                        w: Written, now: Tables, b: Buffers)
    requires TracksStreams(start, ms, ss, ps, w, now, b, false)
    ensures TracksStreams(start, ms, ss, ps, w.(mappings := |ms|), StageAll(now, b.mappings), b.(mappings := []), false)
  {
    WriteMoreMappings(start, ms, w.mappings, ss[..w.siblings], ps[..w.parents]);
    RestIs(ms, w.mappings, b.mappings);
  }

  lemma SiblingsWritten(start: Tables, ms: seq<MappingRecord>, ss: seq<(Tag, Tag)>, ps: seq<(Tag, Tag)>,
                        w: Written, now: Tables, b: Buffers)
    requires TracksStreams(start, ms, ss, ps, w, now, b, false)
    ensures TracksStreams(start, ms, ss, ps, w.(siblings := |ss|), AddSiblings(now, b.siblings),
                          b.(siblings := [], siblingsCt := b.siblingsCt + Applied(b.siblings)), false)
  {
    WriteMoreSiblings(start, ms[..w.mappings], ss, w.siblings, ps[..w.parents]);
    RestIs(ss, w.siblings, b.siblings);
  }

  lemma ParentsWritten(start: Tables, ms: seq<MappingRecord>, ss: seq<(Tag, Tag)>, ps: seq<(Tag, Tag)>,
                       w: Written, now: Tables, b: Buffers)
    requires TracksStreams(start, ms, ss, ps, w, now, b, false)
    ensures TracksStreams(start, ms, ss, ps, w.(parents := |ps|), AddParents(now, b.parents),
                          b.(parents := [], parentsCt := b.parentsCt + Applied(b.parents)), false)
  {
    WriteMoreParents(start, ms[..w.mappings], ss[..w.siblings], ps, w.parents);
    RestIs(ps, w.parents, b.parents);
  }

  /** What a flush leaves, whether its transaction committed or not. */
  lemma MappingsFlushed(start: Tables, fed: seq<Record>, w: Written, now: Tables, b: Buffers, ok: bool, after: Tables)
    requires Tracks(start, fed, w, now, b, false)
    requires after == if ok then StageAll(now, b.mappings) else now
    ensures Tracks(start, fed, if ok then w.(mappings := |MappingsOf(fed)|) else w, after, b.(mappings := []), !ok)
  {
    if ok {
      MappingsWritten(start, MappingsOf(fed), RelationsOf(fed, Sibling), RelationsOf(fed, Parent), w, now, b);
    }
  }

  lemma SiblingsFlushed(start: Tables, fed: seq<Record>, w: Written, now: Tables, b: Buffers, ok: bool, applied: nat,
                        after: Tables)
    requires Tracks(start, fed, w, now, b, false)
    requires if ok then after == AddSiblings(now, b.siblings) && applied == Applied(b.siblings) else after == now
    ensures Tracks(start, fed, if ok then w.(siblings := |RelationsOf(fed, Sibling)|) else w, after,
                   b.(siblings := [], siblingsCt := if ok then b.siblingsCt + applied else b.siblingsCt), !ok)
  {
    if ok {
      SiblingsWritten(start, MappingsOf(fed), RelationsOf(fed, Sibling), RelationsOf(fed, Parent), w, now, b);
    }
  }

  lemma ParentsFlushed(start: Tables, fed: seq<Record>, w: Written, now: Tables, b: Buffers, ok: bool, applied: nat,
                       after: Tables)
    requires Tracks(start, fed, w, now, b, false)
    requires if ok then after == AddParents(now, b.parents) && applied == Applied(b.parents) else after == now
    ensures Tracks(start, fed, if ok then w.(parents := |RelationsOf(fed, Parent)|) else w, after,
                   b.(parents := [], parentsCt := if ok then b.parentsCt + applied else b.parentsCt), !ok)
  {
    if ok {
      ParentsWritten(start, MappingsOf(fed), RelationsOf(fed, Sibling), RelationsOf(fed, Parent), w, now, b);
    }
  }

  // ---- Taking a record -----------------------------------------------------

  /** Buffer one record. */
  function Take(b: Buffers, r: Record): Buffers {
    match r
    case Mapping(m) => b.(mappings := b.mappings + [m], mappingsCt := b.mappingsCt + 1)
    case Relation(RelationRecord(kind, from, to, status)) =>
      if status == Deleted then b
      else if kind == Sibling then b.(siblings := b.siblings + [(from, to)])
      else b.(parents := b.parents + [(from, to)])
  }

  lemma TailGrows<T>(s: seq<T>, n: nat, rest: seq<T>, x: T)
    requires IsRest(s, n, rest)
    ensures (s + [x])[..n] == s[..n] && IsRest(s + [x], n, rest + [x])
  {
  }

  lemma OneMoreMapping(fed: seq<Record>, m: MappingRecord)
    ensures MappingsOf(fed + [Record.Mapping(m)]) == MappingsOf(fed) + [m]
    ensures RelationsOf(fed + [Record.Mapping(m)], Sibling) == RelationsOf(fed, Sibling)
    ensures RelationsOf(fed + [Record.Mapping(m)], Parent) == RelationsOf(fed, Parent)
  {
    SnocFront(fed, Record.Mapping(m));
  }

  lemma OneMoreRelation(fed: seq<Record>, r: RelationRecord, kind: RelationKind)
    ensures MappingsOf(fed + [Record.Relation(r)]) == MappingsOf(fed)
    ensures RelationsOf(fed + [Record.Relation(r)], kind)
         == if r.kind == kind && r.status == Current then RelationsOf(fed, kind) + [(r.from, r.to)]
            else RelationsOf(fed, kind)
  {
    SnocFront(fed, Record.Relation(r));
  }

  lemma TakeMapping(start: Tables, fed: seq<Record>, w: Written, now: Tables, b: Buffers, m: MappingRecord)
    requires Tracks(start, fed, w, now, b, false)
    ensures Tracks(start, fed + [Record.Mapping(m)], w, now, Take(b, Record.Mapping(m)), false)
  {
    OneMoreMapping(fed, m);
    TailGrows(MappingsOf(fed), w.mappings, b.mappings, m);
  }

  lemma TakeRelation(start: Tables, fed: seq<Record>, w: Written, now: Tables, b: Buffers, r: RelationRecord)
    requires Tracks(start, fed, w, now, b, false)
    ensures Tracks(start, fed + [Record.Relation(r)], w, now, Take(b, Record.Relation(r)), false)
  {
    OneMoreRelation(fed, r, Sibling);
    OneMoreRelation(fed, r, Parent);
    TailGrows(RelationsOf(fed, Sibling), w.siblings, b.siblings, (r.from, r.to));
    TailGrows(RelationsOf(fed, Parent), w.parents, b.parents, (r.from, r.to));
  }

  /** With nothing left in the buffers every record has been applied, in whatever batches. */
  lemma AllWritten(start: Tables, fed: seq<Record>, w: Written, now: Tables, b: Buffers)
    requires Tracks(start, fed, w, now, b, false) && b.mappings == [] && b.siblings == [] && b.parents == []
    ensures now == ApplyAll(start, fed)
    ensures b.siblingsCt == Applied(RelationsOf(fed, Sibling)) && b.parentsCt == Applied(RelationsOf(fed, Parent))
  {
    var ms, ss, ps := MappingsOf(fed), RelationsOf(fed, Sibling), RelationsOf(fed, Parent);
    StreamsAreIndependent(start, fed);
    assert ms[..w.mappings] == ms && ss[..w.siblings] == ss && ps[..w.parents] == ps;
  }

  /** What is left when the last buffers have been flushed. */
  lemma Finished(start: Tables, fed: seq<Record>, w: Written, now: Tables, b: Buffers, failed: bool)
    requires Tracks(start, fed, w, now, b, failed)
    requires !failed ==> b.mappings == [] && b.siblings == [] && b.parents == []
    ensures failed ==> WrittenInPart(start, fed, now)
    ensures !failed ==>
              && now == ApplyAll(start, fed)
              && b.mappingsCt == MappingCount(fed)
              && b.siblingsCt == RelationCount(fed, Sibling) && b.parentsCt == RelationCount(fed, Parent)
  {
    if !failed {
      AllWritten(start, fed, w, now, b);
      MappingsCounted(fed);
      RelationsCounted(fed, Sibling);
      RelationsCounted(fed, Parent);
    }
  }

  // ---- The sink ------------------------------------------------------------

  const IMPORT_WRITE_BATCH: nat := 4096

  /** Only the last transaction can have failed: after a failure nothing more is tried. */
  predicate StopsAtFailure(outcomes: seq<bool>, failed: bool) {
    && (forall i :: 0 <= i < |outcomes| - 1 ==> outcomes[i])
    && (failed <==> outcomes != [] && !outcomes[|outcomes| - 1])
  }

  class BatchSink {
    const db: ImportDb
    const batch: nat
    var cache: map<Tag, nat>
    var mappings: seq<MappingRecord>
    var siblings: seq<(Tag, Tag)>
    var parents: seq<(Tag, Tag)>
    var mappingsCt: nat
    var siblingsCt: nat
    var parentsCt: nat
    var err: bool
    /** The records taken, the tables before the first, and how far the streams are written. */
    ghost var fed: seq<Record>
    ghost const start: Tables
    ghost var written: Written

    ghost function View(): Buffers
      reads this
    {
      Buffers(mappings, siblings, parents, mappingsCt, siblingsCt, parentsCt)
    }

    /** The database is sound, so is the cache, and nothing was tried after a failure. */
    ghost predicate Sound()
      reads this`cache, this`err, db
    {
      Shows(db.rows, db.shown) && CacheOk(cache, db.rows) && StopsAtFailure(db.outcomes, err)
    }

    ghost predicate Valid()
      reads this, db
    {
      Sound() && Tracks(start, fed, written, db.shown, View(), err)
    }

    constructor (db: ImportDb, batch: nat)
      requires db.Valid() && db.outcomes == []
      ensures Valid() && this.db == db && this.batch == batch && fed == [] && start == db.shown && !err
    {
      this.db, this.batch := db, batch;
      cache, mappings, siblings, parents := map[], [], [], [];
      mappingsCt, siblingsCt, parentsCt, err := 0, 0, 0, false;
      fed, start, written := [], db.shown, Written(0, 0, 0);
    }

    /** One transaction for the whole buffer. */
    method SendMappings() returns (ok: bool)
      requires Sound() && !err
      modifies this`cache, this`err, db
      ensures Sound() && err == !ok
      ensures if ok then db.shown == StageAll(old(db.shown), mappings) else db.shown == old(db.shown)
    {
      var newCache;
      ok, newCache := db.StageMappingsBatch(mappings, cache);
      cache, err := newCache, !ok;
    }

    /** Empty the buffer. */
    method ClearMappings(ghost shown: Tables)
      requires Tracks(start, fed, written, shown, View(), false)
      requires if err then db.shown == shown else db.shown == StageAll(shown, mappings)
      modifies this`mappings, this`written
      ensures Tracks(start, fed, written, db.shown, View(), err) && mappings == []
    {
      MappingsFlushed(start, fed, written, shown, View(), !err, db.shown);
      if !err {
        written := written.(mappings := |MappingsOf(fed)|);
      }
      mappings := [];
    }

    /** Nothing is written once a flush has failed; a buffer that was flushed is empty either way. */
    method FlushMappings()
      requires Valid()
      modifies this`mappings, this`err, this`cache, this`written, db
      ensures Valid()
      ensures old(err) ==> err && db.rows == old(db.rows) && db.outcomes == old(db.outcomes)
      ensures !err ==> mappings == []
    {
      if mappings == [] || err {
        return;
      }
      ghost var shown := db.shown;
      var _ := SendMappings();
      ClearMappings(shown);
    }

    /** One transaction for the whole buffer. */
    method SendSiblings() returns (ok: bool, applied: nat)
      requires Sound() && !err
      modifies this`cache, this`err, db
      ensures Sound() && err == !ok
      ensures if ok then db.shown == AddSiblings(old(db.shown), siblings) && applied == Applied(siblings)
              else db.shown == old(db.shown)
    {
      var newCache;
      ok, applied, newCache := db.AddSiblingsBatch(siblings, cache);
      cache, err := newCache, !ok;
    }

    /** Empty the buffer and count what was applied. */
    method ClearSiblings(applied: nat, ghost shown: Tables)
      requires Tracks(start, fed, written, shown, View(), false)
      requires if err then db.shown == shown
               else db.shown == AddSiblings(shown, siblings) && applied == Applied(siblings)
      modifies this`siblings, this`siblingsCt, this`written
      ensures Tracks(start, fed, written, db.shown, View(), err) && siblings == []
    {
      SiblingsFlushed(start, fed, written, shown, View(), !err, applied, db.shown);
      if !err {
        siblingsCt := siblingsCt + applied;
        written := written.(siblings := |RelationsOf(fed, Sibling)|);
      }
      siblings := [];
    }

    method FlushSiblings()
      requires Valid()
      modifies this`siblings, this`siblingsCt, this`err, this`cache, this`written, db
      ensures Valid()
      ensures old(err) ==> err && db.rows == old(db.rows) && db.outcomes == old(db.outcomes)
      ensures !err ==> siblings == []
    {
      if siblings == [] || err {
        return;
      }
      ghost var shown := db.shown;
      var _, applied := SendSiblings();
      ClearSiblings(applied, shown);
    }

    /** One transaction for the whole buffer. */
    method SendParents() returns (ok: bool, applied: nat)
      requires Sound() && !err
      modifies this`cache, this`err, db
      ensures Sound() && err == !ok
      ensures if ok then db.shown == AddParents(old(db.shown), parents) && applied == Applied(parents)
              else db.shown == old(db.shown)
    {
      var newCache;
      ok, applied, newCache := db.AddParentsBatch(parents, cache);
      cache, err := newCache, !ok;
    }

    /** Empty the buffer and count what was applied. */
    method ClearParents(applied: nat, ghost shown: Tables)
      requires Tracks(start, fed, written, shown, View(), false)
      requires if err then db.shown == shown else db.shown == AddParents(shown, parents) && applied == Applied(parents)
      modifies this`parents, this`parentsCt, this`written
      ensures Tracks(start, fed, written, db.shown, View(), err) && parents == []
    {
      ParentsFlushed(start, fed, written, shown, View(), !err, applied, db.shown);
      if !err {
        parentsCt := parentsCt + applied;
        written := written.(parents := |RelationsOf(fed, Parent)|);
      }
      parents := [];
    }

    method FlushParents()
      requires Valid()
      modifies this`parents, this`parentsCt, this`err, this`cache, this`written, db
      ensures Valid()
      ensures old(err) ==> err && db.rows == old(db.rows) && db.outcomes == old(db.outcomes)
      ensures !err ==> parents == []
    {
      if parents == [] || err {
        return;
      }
      ghost var shown := db.shown;
      var _, applied := SendParents();
      ClearParents(applied, shown);
    }

    method BufferMapping(m: MappingRecord)
      requires Tracks(start, fed, written, db.shown, View(), false)
      modifies this`mappings, this`mappingsCt, this`fed
      ensures Tracks(start, fed, written, db.shown, View(), false) && fed == old(fed) + [Record.Mapping(m)]
    {
      TakeMapping(start, fed, written, db.shown, View(), m);
      fed := fed + [Record.Mapping(m)];
      mappings := mappings + [m];
      mappingsCt := mappingsCt + 1;
    }

    method BufferRelation(r: RelationRecord)
      requires Tracks(start, fed, written, db.shown, View(), false)
      modifies this`siblings, this`parents, this`fed
      ensures Tracks(start, fed, written, db.shown, View(), false) && fed == old(fed) + [Record.Relation(r)]
    {
      ghost var before := View();
      TakeRelation(start, fed, written, db.shown, before, r);
      fed := fed + [Record.Relation(r)];
      if r.status == Current {
        match r.kind
        case Sibling => siblings := siblings + [(r.from, r.to)];
        case Parent => parents := parents + [(r.from, r.to)];
      }
      assert View() == Take(before, Record.Relation(r));
    }

    /** Take a mapping; a record that comes after a failure is refused. */
    method Mapping(m: MappingRecord) returns (ok: bool)
      requires Valid()
      modifies this, db
      ensures Valid() && (ok <==> !err)
      ensures if old(err) then fed == old(fed) && db.rows == old(db.rows) && db.outcomes == old(db.outcomes)
              else fed == old(fed) + [Record.Mapping(m)]
      ensures !err ==> |mappings| < batch || mappings == []
    {
      if err {
        return false;
      }
      BufferMapping(m);
      if |mappings| >= batch {
        FlushMappings();
      }
      ok := !err;
    }

    /** Take a relation; deleted ones are skipped. */
    method Relation(r: RelationRecord) returns (ok: bool)
      requires Valid()
      modifies this, db
      ensures Valid() && (ok <==> !err)
      ensures if old(err) then fed == old(fed) && db.rows == old(db.rows) && db.outcomes == old(db.outcomes)
              else fed == old(fed) + [Record.Relation(r)]
      ensures !err && r.status == Current ==>
                match r.kind
                case Sibling => |siblings| < batch || siblings == []
                case Parent => |parents| < batch || parents == []
    {
      if err {
        return false;
      }
      BufferRelation(r);
      if r.status == Deleted {
        return true;
      }
      match r.kind {
        case Sibling =>
          if |siblings| >= batch {
            FlushSiblings();
          }
        case Parent =>
          if |parents| >= batch {
            FlushParents();
          }
      }
      ok := !err;
    }

    /**
     * Flush what is left. Without an error the tables are those of applying every record taken, one
     * at a time, and the counts are the records counted one at a time; with one they hold a first
     * part of each stream.
     */
    method Finish()
      requires Valid()
      modifies this, db
      ensures Valid() && fed == old(fed)
      ensures old(err) ==> err && db.rows == old(db.rows) && db.outcomes == old(db.outcomes)
      ensures !err ==> db.shown == ApplyAll(start, fed)
      ensures !err ==>
                && mappingsCt == MappingCount(fed)
                && siblingsCt == RelationCount(fed, Sibling) && parentsCt == RelationCount(fed, Parent)
      ensures err ==> WrittenInPart(start, fed, db.shown)
    {
      FlushMappings();
      FlushSiblings();
      FlushParents();
      Finished(start, fed, written, db.shown, View(), err);
    }
  }

  // ---- A whole import ------------------------------------------------------

  /** The streams of the first records are first parts of the streams of all. */
  lemma {:induction false} StreamsOfPrefix(rs: seq<Record>, n: nat, kind: RelationKind)
    requires n <= |rs|
    ensures MappingsOf(rs[..n]) <= MappingsOf(rs)
    ensures RelationsOf(rs[..n], kind) <= RelationsOf(rs, kind)
  {
    if n == |rs| {
      assert rs[..n] == rs;
    } else {
      var front := rs[..|rs| - 1];
      StreamsOfPrefix(front, n, kind);
      assert front[..n] == rs[..n];
    }
  }

  lemma PrefixOfPrefix<T>(a: seq<T>, b: seq<T>, n: nat)
    requires a <= b && n <= |a|
    ensures a[..n] == b[..n]
  {
  }

  lemma WrittenOfPrefix(start: Tables, rs: seq<Record>, n: nat, w: Written, now: Tables)
    requires n <= |rs|
    requires HasWritten(start, MappingsOf(rs[..n]), RelationsOf(rs[..n], Sibling), RelationsOf(rs[..n], Parent), w, now)
    ensures HasWritten(start, MappingsOf(rs), RelationsOf(rs, Sibling), RelationsOf(rs, Parent), w, now)
  {
    StreamsOfPrefix(rs, n, Sibling);
    StreamsOfPrefix(rs, n, Parent);
    PrefixOfPrefix(MappingsOf(rs[..n]), MappingsOf(rs), w.mappings);
    PrefixOfPrefix(RelationsOf(rs[..n], Sibling), RelationsOf(rs, Sibling), w.siblings);
    PrefixOfPrefix(RelationsOf(rs[..n], Parent), RelationsOf(rs, Parent), w.parents);
  }

  lemma PartOfPrefix(start: Tables, rs: seq<Record>, n: nat, now: Tables)
    requires n <= |rs| && WrittenInPart(start, rs[..n], now)
    ensures WrittenInPart(start, rs, now)
  {
    var fed := rs[..n];
    var w :| HasWritten(start, MappingsOf(fed), RelationsOf(fed, Sibling), RelationsOf(fed, Parent), w, now);
    WrittenOfPrefix(start, rs, n, w, now);
  }

  /** Hand over the records until one is refused. */
  method Stream(sink: BatchSink, records: seq<Record>) returns (taken: nat)
    requires sink.Valid() && sink.fed == [] && !sink.err
    modifies sink, sink.db
    ensures sink.Valid() && taken <= |records| && sink.fed == records[..taken]
    ensures !sink.err ==> taken == |records|
  {
    taken := 0;
    while !sink.err && taken < |records|
      invariant sink.Valid() && taken <= |records| && sink.fed == records[..taken]
      decreases |records| - taken
    {
      ghost var before := sink.fed;
      var _ := Give(sink, records[taken]);
      assert records[..taken + 1] == before + [records[taken]];
      taken := taken + 1;
    }
  }

  method Give(sink: BatchSink, record: Record) returns (ok: bool)
    requires sink.Valid() && !sink.err
    modifies sink, sink.db
    ensures sink.Valid() && (ok <==> !sink.err) && sink.fed == old(sink.fed) + [record]
  {
    match record
    case Mapping(m) => ok := sink.Mapping(m);
    case Relation(rel) => ok := sink.Relation(rel);
  }

  /** What a finished sink leaves behind. */
  lemma FailedImportConverges(start: Tables, records: seq<Record>, taken: nat, now: Tables)
    requires taken <= |records| && WrittenInPart(start, records[..taken], now)
    ensures WrittenInPart(start, records, now) && ApplyAll(now, records) == ApplyAll(start, records)
  {
    PartOfPrefix(start, records, taken, now);
    RerunConverges(start, records, now);
  }

  /**
   * Stream the records, then flush; the plugin may end the stream with an error of its own, which
   * a database error hides. An import that reports success has done what applying the records one
   * at a time does; after an error of the plugin so have the records it handed over; after a
   * database error a first part of each stream is written, so running it again converges.
   */
  method RunImport(db: ImportDb, records: seq<Record>, pluginError: Option<string>, batch: nat := IMPORT_WRITE_BATCH)
    returns (r: Result<(nat, nat, nat), string>, ghost failed: bool)
    requires db.Valid() && db.outcomes == []
    modifies db
    ensures db.Valid() && StopsAtFailure(db.outcomes, failed)
    ensures r.Ok? <==> !failed && pluginError.None?
    ensures !failed ==> db.shown == ApplyAll(old(db.shown), records)
    ensures r.Ok? ==>
              r.value == (MappingCount(records), RelationCount(records, Sibling), RelationCount(records, Parent))
    ensures r.Err? && !failed ==> pluginError == Some(r.error)
    ensures failed ==>
              && WrittenInPart(old(db.shown), records, db.shown)
              && ApplyAll(db.shown, records) == ApplyAll(old(db.shown), records)
  {
    var sink := new BatchSink(db, batch);
    ghost var start := db.shown;
    var taken := Stream(sink, records);
    sink.Finish();
    failed := sink.err;
    if sink.err {
      FailedImportConverges(start, records, taken, db.shown);
      return Err("db sink"), failed;
    }
    assert records[..taken] == records;
    if pluginError.Some? {
      return Err(pluginError.value), failed;
    }
    r := Ok((sink.mappingsCt, sink.siblingsCt, sink.parentsCt));
  }
}
