/**
 * The buffering import sink (crates/daemon/src/plugins.rs) over the batch writes of the library
 * database, against applying the records one at a time. One service.
 */
module Imports {
  import opened Wrappers
  import opened Tags

  datatype RecordStatus = Current | Deleted

  datatype RelationKind = Sibling | Parent

  datatype MappingRecord = MappingRecord(sha256: string, tag: Tag, status: RecordStatus)

  datatype RelationRecord = RelationRecord(kind: RelationKind, from: Tag, to: Tag, status: RecordStatus)

  datatype Record = Mapping(mapping: MappingRecord) | Relation(relation: RelationRecord)

  // ---- One record at a time ------------------------------------------------

  /** What has been imported: staged statuses, the ideal of each alias, implications. */
  datatype Tables = Tables(staged: map<(string, Tag), RecordStatus>, siblings: map<Tag, Tag>, parents: set<(Tag, Tag)>)

  /** A later status for the same file and tag replaces the earlier one. */
  function StageMapping(t: Tables, m: MappingRecord): Tables {
    t.(staged := t.staged[(m.sha256, m.tag) := m.status])
  }

  /** A tag has one ideal, the last given; a tag is never its own ideal. */
  function AddSibling(t: Tables, bad: Tag, ideal: Tag): Tables {
    if bad == ideal then t else t.(siblings := t.siblings[bad := ideal])
  }

  function AddParent(t: Tables, child: Tag, parent: Tag): Tables {
    if child == parent then t else t.(parents := t.parents + {(child, parent)})
  }

  /** Deleted relations are skipped. */
  function ApplyRecord(t: Tables, r: Record): Tables {
    match r
    case Mapping(m) => StageMapping(t, m)
    case Relation(RelationRecord(kind, from, to, status)) =>
      if status == Deleted then t
      else if kind == Sibling then AddSibling(t, from, to)
      else AddParent(t, from, to)
  }

  function ApplyAll(t: Tables, rs: seq<Record>): Tables {
    if rs == [] then t else ApplyRecord(ApplyAll(t, rs[..|rs| - 1]), rs[|rs| - 1])
  }

  // ---- What applying them all comes to -------------------------------------

  /** A record that gives this key a status. */
  predicate SetsStatus(r: Record, key: (string, Tag)) {
    r.Mapping? && r.mapping.sha256 == key.0 && r.mapping.tag == key.1
  }

  /** A record of a relation of two different tags that is not deleted. */
  predicate Relates(r: Record, kind: RelationKind) {
    r.Relation? && r.relation.kind == kind && r.relation.status == Current && r.relation.from != r.relation.to
  }

  /** The status staged for a key is that of the last record that gives it one. */
  lemma {:induction false} StagedIsTheLast(t: Tables, rs: seq<Record>, key: (string, Tag), i: nat)
    requires i < |rs| && SetsStatus(rs[i], key) && forall j :: i < j < |rs| ==> !SetsStatus(rs[j], key)
    ensures var s := ApplyAll(t, rs).staged; key in s && s[key] == rs[i].mapping.status
  {
    if i < |rs| - 1 {
      StagedIsTheLast(t, rs[..|rs| - 1], key, i);
    }
  }

  /** And what was staged for a key stays if no record gives it one. */
  lemma {:induction false} StagedStays(t: Tables, rs: seq<Record>, key: (string, Tag))
    requires forall i :: 0 <= i < |rs| ==> !SetsStatus(rs[i], key)
    ensures var s := ApplyAll(t, rs).staged;
            (key in s <==> key in t.staged) && (key in s ==> s[key] == t.staged[key])
  {
    if rs != [] {
      StagedStays(t, rs[..|rs| - 1], key);
    }
  }

  predicate Aliases(r: Record, bad: Tag) {
    Relates(r, Sibling) && r.relation.from == bad
  }

  /** The ideal of a tag is the one that the last sibling record from it names. */
  lemma {:induction false} IdealIsTheLast(t: Tables, rs: seq<Record>, bad: Tag, i: nat)
    requires i < |rs| && Aliases(rs[i], bad) && forall j :: i < j < |rs| ==> !Aliases(rs[j], bad)
    ensures var s := ApplyAll(t, rs).siblings; bad in s && s[bad] == rs[i].relation.to
  {
    if i < |rs| - 1 {
      IdealIsTheLast(t, rs[..|rs| - 1], bad, i);
    }
  }

  lemma {:induction false} IdealStays(t: Tables, rs: seq<Record>, bad: Tag)
    requires forall i :: 0 <= i < |rs| ==> !Aliases(rs[i], bad)
    ensures var s := ApplyAll(t, rs).siblings;
            (bad in s <==> bad in t.siblings) && (bad in s ==> s[bad] == t.siblings[bad])
  {
    if rs != [] {
      IdealStays(t, rs[..|rs| - 1], bad);
    }
  }

  predicate Implies(r: Record, child: Tag, parent: Tag) {
    Relates(r, Parent) && r.relation.from == child && r.relation.to == parent
  }

  /** A tag implies another if it did or if some parent record says so. */
  lemma {:induction false} ParentsExactly(t: Tables, rs: seq<Record>, child: Tag, parent: Tag)
    ensures (child, parent) in ApplyAll(t, rs).parents <==>
              || (child, parent) in t.parents
              || exists i :: 0 <= i < |rs| && Implies(rs[i], child, parent)
  {
    if rs != [] {
      var front, last := rs[..|rs| - 1], rs[|rs| - 1];
      ParentsExactly(t, front, child, parent);
      assert forall i :: 0 <= i < |front| ==> front[i] == rs[i];
    }
  }

  // ---- Batches -------------------------------------------------------------

  function StageAll(t: Tables, items: seq<MappingRecord>): Tables {
    if items == [] then t else StageMapping(StageAll(t, items[..|items| - 1]), items[|items| - 1])
  }

  function AddSiblings(t: Tables, items: seq<(Tag, Tag)>): Tables {
    if items == [] then t
    else AddSibling(AddSiblings(t, items[..|items| - 1]), items[|items| - 1].0, items[|items| - 1].1)
  }

  function AddParents(t: Tables, items: seq<(Tag, Tag)>): Tables {
    if items == [] then t
    else AddParent(AddParents(t, items[..|items| - 1]), items[|items| - 1].0, items[|items| - 1].1)
  }

  /** Relations of a tag to itself are not applied and not counted. */
  function Applied(items: seq<(Tag, Tag)>): nat {
    if items == [] then 0
    else Applied(items[..|items| - 1]) + (if items[|items| - 1].0 == items[|items| - 1].1 then 0 else 1)
  }

  // ---- The three streams in a list of records ------------------------------

  function MappingsOf(rs: seq<Record>): seq<MappingRecord> {
    if rs == [] then []
    else MappingsOf(rs[..|rs| - 1]) + (if rs[|rs| - 1].Mapping? then [rs[|rs| - 1].mapping] else [])
  }

  predicate IsLive(r: Record, kind: RelationKind) {
    r.Relation? && r.relation.kind == kind && r.relation.status == Current
  }

  function RelationsOf(rs: seq<Record>, kind: RelationKind): seq<(Tag, Tag)> {
    if rs == [] then []
    else
      var last := rs[|rs| - 1];
      RelationsOf(rs[..|rs| - 1], kind) + (if IsLive(last, kind) then [(last.relation.from, last.relation.to)] else [])
  }

  lemma SnocFront<T>(s: seq<T>, x: T)
    ensures (s + [x])[..|s + [x]| - 1] == s && (s + [x])[|s + [x]| - 1] == x
  {
  }

  // ---- Counting ------------------------------------------------------------

  /** At how many positions `p` holds. */
  ghost function Hits<T>(s: seq<T>, p: T -> bool): nat {
    |set i | 0 <= i < |s| && p(s[i])|
  }

  lemma HitsOneMore<T>(s: seq<T>, p: T -> bool)
    requires s != []
    ensures Hits(s, p) == Hits(s[..|s| - 1], p) + (if p(s[|s| - 1]) then 1 else 0)
  {
    var n := |s| - 1;
    var front := set i | 0 <= i < n && p(s[..n][i]);
    var all := set i | 0 <= i < |s| && p(s[i]);
    assert all == if p(s[n]) then front + {n} else front;
  }

  /** What is counted for a list of relations: those of two different tags. */
  lemma {:induction false} AppliedCounts(items: seq<(Tag, Tag)>)
    ensures Applied(items) == Hits(items, (e: (Tag, Tag)) => e.0 != e.1)
  {
    if items != [] {
      AppliedCounts(items[..|items| - 1]);
      HitsOneMore(items, (e: (Tag, Tag)) => e.0 != e.1);
    }
  }

  /** How many records are mappings, and how many relate two different tags and are not deleted. */
  ghost function MappingCount(rs: seq<Record>): nat {
    Hits(rs, (r: Record) => r.Mapping?)
  }

  ghost function RelationCount(rs: seq<Record>, kind: RelationKind): nat {
    Hits(rs, r => Relates(r, kind))
  }

  /** What is counted for a list of records. */
  lemma {:induction false} RelationsCounted(rs: seq<Record>, kind: RelationKind)
    ensures Applied(RelationsOf(rs, kind)) == RelationCount(rs, kind)
  {
    if rs != [] {
      var front, last := rs[..|rs| - 1], rs[|rs| - 1];
      RelationsCounted(front, kind);
      HitsOneMore(rs, r => Relates(r, kind));
      if IsLive(last, kind) {
        SnocFront(RelationsOf(front, kind), (last.relation.from, last.relation.to));
      } else {
        assert RelationsOf(front, kind) + [] == RelationsOf(front, kind);
      }
    }
  }

  lemma {:induction false} MappingsCounted(rs: seq<Record>)
    ensures |MappingsOf(rs)| == MappingCount(rs)
  {
    if rs != [] {
      MappingsCounted(rs[..|rs| - 1]);
      HitsOneMore(rs, (r: Record) => r.Mapping?);
    }
  }

  lemma {:induction false} StageAllParts(t: Tables, items: seq<MappingRecord>)
    ensures StageAll(t, items).siblings == t.siblings && StageAll(t, items).parents == t.parents
  {
    if items != [] {
      StageAllParts(t, items[..|items| - 1]);
    }
  }

  lemma {:induction false} AddSiblingsParts(t: Tables, items: seq<(Tag, Tag)>)
    ensures AddSiblings(t, items).staged == t.staged && AddSiblings(t, items).parents == t.parents
  {
    if items != [] {
      AddSiblingsParts(t, items[..|items| - 1]);
    }
  }

  lemma {:induction false} AddParentsParts(t: Tables, items: seq<(Tag, Tag)>)
    ensures AddParents(t, items).staged == t.staged && AddParents(t, items).siblings == t.siblings
  {
    if items != [] {
      AddParentsParts(t, items[..|items| - 1]);
    }
  }

  lemma {:induction false} StagedByMappings(t: Tables, rs: seq<Record>)
    ensures ApplyAll(t, rs).staged == StageAll(t, MappingsOf(rs)).staged
  {
    if rs != [] {
      var front, last := rs[..|rs| - 1], rs[|rs| - 1];
      StagedByMappings(t, front);
      if last.Mapping? {
        SnocFront(MappingsOf(front), last.mapping);
      } else {
        assert MappingsOf(front) + [] == MappingsOf(front);
      }
    }
  }

  lemma {:induction false} SiblingsByRelations(t: Tables, rs: seq<Record>)
    ensures ApplyAll(t, rs).siblings == AddSiblings(t, RelationsOf(rs, Sibling)).siblings
  {
    if rs != [] {
      var front, last := rs[..|rs| - 1], rs[|rs| - 1];
      SiblingsByRelations(t, front);
      if IsLive(last, Sibling) {
        SnocFront(RelationsOf(front, Sibling), (last.relation.from, last.relation.to));
      } else {
        assert RelationsOf(front, Sibling) + [] == RelationsOf(front, Sibling);
      }
    }
  }

  lemma {:induction false} ParentsByRelations(t: Tables, rs: seq<Record>)
    ensures ApplyAll(t, rs).parents == AddParents(t, RelationsOf(rs, Parent)).parents
  {
    if rs != [] {
      var front, last := rs[..|rs| - 1], rs[|rs| - 1];
      ParentsByRelations(t, front);
      if IsLive(last, Parent) {
        SnocFront(RelationsOf(front, Parent), (last.relation.from, last.relation.to));
      } else {
        assert RelationsOf(front, Parent) + [] == RelationsOf(front, Parent);
      }
    }
  }

  /** Three streams written apart, each into its own table. */
  function WriteStreams(t: Tables, ms: seq<MappingRecord>, siblings: seq<(Tag, Tag)>,
                        parents: seq<(Tag, Tag)>): Tables {
    AddParents(AddSiblings(StageAll(t, ms), siblings), parents)
  }

  lemma {:induction false} SameSiblings(t: Tables, u: Tables, items: seq<(Tag, Tag)>)
    requires t.siblings == u.siblings
    ensures AddSiblings(t, items).siblings == AddSiblings(u, items).siblings
  {
    if items != [] {
      SameSiblings(t, u, items[..|items| - 1]);
    }
  }

  lemma {:induction false} SameParents(t: Tables, u: Tables, items: seq<(Tag, Tag)>)
    requires t.parents == u.parents
    ensures AddParents(t, items).parents == AddParents(u, items).parents
  {
    if items != [] {
      SameParents(t, u, items[..|items| - 1]);
    }
  }

  lemma WriteStreamsParts(t: Tables, ms: seq<MappingRecord>, siblings: seq<(Tag, Tag)>, parents: seq<(Tag, Tag)>)
    ensures WriteStreams(t, ms, siblings, parents)
         == Tables(StageAll(t, ms).staged, AddSiblings(t, siblings).siblings, AddParents(t, parents).parents)
  {
    var u := StageAll(t, ms);
    var v := AddSiblings(u, siblings);
    StageAllParts(t, ms);
    AddSiblingsParts(u, siblings);
    AddParentsParts(v, parents);
    SameSiblings(t, u, siblings);
    SameParents(t, v, parents);
  }

  /** Each table depends on its own stream only: writing the three apart is applying every record in turn. */
  lemma StreamsAreIndependent(t: Tables, rs: seq<Record>)
    ensures WriteStreams(t, MappingsOf(rs), RelationsOf(rs, Sibling), RelationsOf(rs, Parent)) == ApplyAll(t, rs)
  {
    WriteStreamsParts(t, MappingsOf(rs), RelationsOf(rs, Sibling), RelationsOf(rs, Parent));
    StagedByMappings(t, rs);
    SiblingsByRelations(t, rs);
    ParentsByRelations(t, rs);
  }

  // ---- Writing a stream in pieces ------------------------------------------

  lemma {:induction false} StageAllConcat(t: Tables, a: seq<MappingRecord>, b: seq<MappingRecord>)
    ensures StageAll(t, a + b) == StageAll(StageAll(t, a), b)
  {
    if b == [] {
      assert a + b == a;
    } else {
      var front, last := b[..|b| - 1], b[|b| - 1];
      StageAllConcat(t, a, front);
      assert a + b == (a + front) + [last];
      SnocFront(a + front, last);
    }
  }

  lemma {:induction false} AddSiblingsConcat(t: Tables, a: seq<(Tag, Tag)>, b: seq<(Tag, Tag)>)
    ensures AddSiblings(t, a + b) == AddSiblings(AddSiblings(t, a), b)
    ensures Applied(a + b) == Applied(a) + Applied(b)
  {
    if b == [] {
      assert a + b == a;
    } else {
      var front, last := b[..|b| - 1], b[|b| - 1];
      AddSiblingsConcat(t, a, front);
      assert a + b == (a + front) + [last];
      SnocFront(a + front, last);
    }
  }

  lemma {:induction false} AddParentsConcat(t: Tables, a: seq<(Tag, Tag)>, b: seq<(Tag, Tag)>)
    ensures AddParents(t, a + b) == AddParents(AddParents(t, a), b)
  {
    if b == [] {
      assert a + b == a;
    } else {
      var front, last := b[..|b| - 1], b[|b| - 1];
      AddParentsConcat(t, a, front);
      assert a + b == (a + front) + [last];
      SnocFront(a + front, last);
    }
  }

  // ---- Running an import again ---------------------------------------------

  /** What a list of mappings says about one key: its last status, if it names the key at all. */
  function LastStatus(items: seq<MappingRecord>, key: (string, Tag)): Option<RecordStatus> {
    if items == [] then None
    else
      var last := items[|items| - 1];
      if (last.sha256, last.tag) == key then Some(last.status) else LastStatus(items[..|items| - 1], key)
  }

  lemma {:induction false} StagedIsLast(t: Tables, items: seq<MappingRecord>, key: (string, Tag))
    ensures var s := StageAll(t, items).staged;
            match LastStatus(items, key)
            case Some(status) => key in s && s[key] == status
            case None => (key in s <==> key in t.staged) && (key in s ==> s[key] == t.staged[key])
  {
    if items != [] {
      StagedIsLast(t, items[..|items| - 1], key);
    }
  }

  /** A part of the list names no key that the list does not. */
  lemma {:induction false} NamedInWhole(a: seq<MappingRecord>, b: seq<MappingRecord>, key: (string, Tag))
    requires LastStatus(a + b, key).None?
    ensures LastStatus(a, key).None?
  {
    if b == [] {
      assert a + b == a;
    } else {
      assert a + b == (a + b[..|b| - 1]) + [b[|b| - 1]];
      SnocFront(a + b[..|b| - 1], b[|b| - 1]);
      NamedInWhole(a, b[..|b| - 1], key);
    }
  }

  /** Staging part of a list and then all of it is staging all of it. */
  lemma RestageConverges(t: Tables, a: seq<MappingRecord>, b: seq<MappingRecord>)
    ensures StageAll(StageAll(t, a), a + b).staged == StageAll(t, a + b).staged
  {
    var once, twice := StageAll(t, a + b).staged, StageAll(StageAll(t, a), a + b).staged;
    forall key: (string, Tag)
      ensures (key in once <==> key in twice) && (key in once ==> once[key] == twice[key])
    {
      StagedIsLast(t, a, key);
      StagedIsLast(t, a + b, key);
      StagedIsLast(StageAll(t, a), a + b, key);
      if LastStatus(a + b, key).None? {
        NamedInWhole(a, b, key);
      }
    }
  }

  /** The last ideal a list gives a tag, if any. */
  function LastIdeal(items: seq<(Tag, Tag)>, bad: Tag): Option<Tag> {
    if items == [] then None
    else
      var last := items[|items| - 1];
      if last.0 == bad && last.0 != last.1 then Some(last.1) else LastIdeal(items[..|items| - 1], bad)
  }

  lemma {:induction false} SiblingIsLast(t: Tables, items: seq<(Tag, Tag)>, bad: Tag)
    ensures var s := AddSiblings(t, items).siblings;
            match LastIdeal(items, bad)
            case Some(ideal) => bad in s && s[bad] == ideal
            case None => (bad in s <==> bad in t.siblings) && (bad in s ==> s[bad] == t.siblings[bad])
  {
    if items != [] {
      SiblingIsLast(t, items[..|items| - 1], bad);
    }
  }

  lemma {:induction false} IdealInWhole(a: seq<(Tag, Tag)>, b: seq<(Tag, Tag)>, bad: Tag)
    requires LastIdeal(a + b, bad).None?
    ensures LastIdeal(a, bad).None?
  {
    if b == [] {
      assert a + b == a;
    } else {
      assert a + b == (a + b[..|b| - 1]) + [b[|b| - 1]];
      SnocFront(a + b[..|b| - 1], b[|b| - 1]);
      IdealInWhole(a, b[..|b| - 1], bad);
    }
  }

  lemma ReAliasConverges(t: Tables, a: seq<(Tag, Tag)>, b: seq<(Tag, Tag)>)
    ensures AddSiblings(AddSiblings(t, a), a + b).siblings == AddSiblings(t, a + b).siblings
  {
    var once, twice := AddSiblings(t, a + b).siblings, AddSiblings(AddSiblings(t, a), a + b).siblings;
    forall bad: Tag
      ensures (bad in once <==> bad in twice) && (bad in once ==> once[bad] == twice[bad])
    {
      SiblingIsLast(t, a, bad);
      SiblingIsLast(t, a + b, bad);
      SiblingIsLast(AddSiblings(t, a), a + b, bad);
      if LastIdeal(a + b, bad).None? {
        IdealInWhole(a, b, bad);
      }
    }
  }

  /** The edges of a list that are not self-relations. */
  lemma {:induction false} ParentsAreUnion(t: Tables, items: seq<(Tag, Tag)>, edge: (Tag, Tag))
    ensures edge in AddParents(t, items).parents <==> edge in t.parents || (edge in items && edge.0 != edge.1)
  {
    if items != [] {
      var front, last := items[..|items| - 1], items[|items| - 1];
      ParentsAreUnion(t, front, edge);
      assert items == front + [last];
    }
  }

  lemma ReImplyConverges(t: Tables, a: seq<(Tag, Tag)>, b: seq<(Tag, Tag)>)
    ensures AddParents(AddParents(t, a), a + b).parents == AddParents(t, a + b).parents
  {
    forall edge: (Tag, Tag)
      ensures edge in AddParents(AddParents(t, a), a + b).parents <==> edge in AddParents(t, a + b).parents
    {
      ParentsAreUnion(t, a, edge);
      ParentsAreUnion(t, a + b, edge);
      ParentsAreUnion(AddParents(t, a), a + b, edge);
    }
  }

  /** How far the three streams have been written. */
  datatype Written = Written(mappings: nat, siblings: nat, parents: nat)

  ghost predicate HasWritten(start: Tables, ms: seq<MappingRecord>, ss: seq<(Tag, Tag)>, ps: seq<(Tag, Tag)>,
                             w: Written, now: Tables) {
    && w.mappings <= |ms| && w.siblings <= |ss| && w.parents <= |ps|
    && now == WriteStreams(start, ms[..w.mappings], ss[..w.siblings], ps[..w.parents])
  }

  /** The tables hold some first part of each stream. */
  ghost predicate WrittenInPart(start: Tables, rs: seq<Record>, now: Tables) {
    exists w :: HasWritten(start, MappingsOf(rs), RelationsOf(rs, Sibling), RelationsOf(rs, Parent), w, now)
  }

  /** An import that failed part of the way converges when it is run again. */
  lemma RerunConverges(start: Tables, rs: seq<Record>, now: Tables)
    requires WrittenInPart(start, rs, now)
    ensures ApplyAll(now, rs) == ApplyAll(start, rs)
  {
    var ms, ss, ps := MappingsOf(rs), RelationsOf(rs, Sibling), RelationsOf(rs, Parent);
    var w :| HasWritten(start, ms, ss, ps, w, now);
    RewriteConverges(start, now, ms, ss, ps, w.mappings, w.siblings, w.parents);
    StreamsAreIndependent(now, rs);
    StreamsAreIndependent(start, rs);
  }

  lemma RewriteConverges(start: Tables, now: Tables, ms: seq<MappingRecord>, ss: seq<(Tag, Tag)>, ps: seq<(Tag, Tag)>,
                         m: nat, s: nat, p: nat)
    requires m <= |ms| && s <= |ss| && p <= |ps| && now == WriteStreams(start, ms[..m], ss[..s], ps[..p])
    ensures WriteStreams(now, ms, ss, ps) == WriteStreams(start, ms, ss, ps)
  {
    WriteStreamsParts(start, ms[..m], ss[..s], ps[..p]);
    WriteStreamsParts(now, ms, ss, ps);
    WriteStreamsParts(start, ms, ss, ps);
    SplitAgain(ms, m);
    SplitAgain(ss, s);
    SplitAgain(ps, p);
    RestageConverges(start, ms[..m], ms[m..]);
    ReAliasConverges(start, ss[..s], ss[s..]);
    ReImplyConverges(start, ps[..p], ps[p..]);
    SameStaged(now, StageAll(start, ms[..m]), ms);
    SameSiblings(now, AddSiblings(start, ss[..s]), ss);
    SameParents(now, AddParents(start, ps[..p]), ps);
  }

  lemma SplitAgain<T>(s: seq<T>, n: nat)
    requires n <= |s|
    ensures s[..n] + s[n..] == s
  {
  }

  lemma {:induction false} SameStaged(t: Tables, u: Tables, items: seq<MappingRecord>)
    requires t.staged == u.staged
    ensures StageAll(t, items).staged == StageAll(u, items).staged
  {
    if items != [] {
      SameStaged(t, u, items[..|items| - 1]);
    }
  }
}
