/**
 * File pulls that overlap delta pulls: exactly when a write is harmless, what the daemon could test,
 * and two runs in which a write is not.
 */
module PullOverlap {
  import opened Wrappers
  import opened Sequences
  import opened Hashes
  import opened Buckets
  import opened Tags
  import opened Pull
  import opened PullRuns

  /** Exactly when writing a file pull keeps the mirror in step, re-seeds since the read included. */
  lemma FileWriteExact(st: State, id: nat)
    requires Basic(st) && Synced(st.store, st.client) && Enabled(st, FileWrite(id))
    ensures Synced(Step(st, FileWrite(id)).store, Step(st, FileWrite(id)).client) <==> Harmless(st, id)
  {
    var ff := st.fileFetches[id];
    FileMergeExact(st.store, st.client, ff.seen, ff.bits, ff.hash);
  }

  // ---- A guard for a store that has not been re-seeded ---------------------

  /** A library between pulls, with one file pull waiting to be written. */
  function Waiting(store: Store, c: Client, mirror: set<Pair>, ff: FileFetch): State {
    State(store, c.(mirror := mirror), Fetched(None), None, [ff])
  }

  /** Whatever the store has grown into since the read, a mirror that is in step with it stays so. */
  ghost predicate SafeIfGrown(c: Client, ff: FileFetch) {
    forall store, mirror ::
      var st := Waiting(store, c, mirror, ff);
      Basic(st) && Extends(ff.seen, store) && Synced(store, st.client) ==> Synced(store, Step(st, FileWrite(0)).client)
  }

  function Opposite(s: Store, p: Pair): Status {
    if IsCurrent(s, p) then Deleted else Current
  }

  /** The store that the file pull read, grown up to `top` by one change of `p`. */
  function Overtaken(seen: Store, p: Pair, top: nat): Store {
    seen.(rows := seen.rows[p := Row(Opposite(seen, p), top)], top := top)
  }

  /** The mirror that has every current pair of the owned files. */
  function FullMirror(s: Store, files: seq<Hash>): set<Pair> {
    set p | p in s.rows && s.rows[p].status == Current && p.hash in files
  }

  lemma OvertakenIsValid(seen: Store, p: Pair, top: nat)
    requires ValidStore(seen) && seen.top < top
    ensures ValidStore(Overtaken(seen, p, top)) && Extends(seen, Overtaken(seen, p, top))
  {
    assert Overtaken(seen, p, top).rows[p].stamp == top;
  }

  lemma FullMirrorIsSynced(s: Store, c: Client)
    requires ValidClient(c) && (c.cursor.Some? ==> c.cursor.value <= s.top)
    ensures Synced(s, c.(mirror := FullMirror(s, c.files))) && ValidClient(c.(mirror := FullMirror(s, c.files)))
  {
  }

  /** Once the cursor has passed the version read, some growth of the store makes the write break the mirror. */
  lemma PassedMayBreak(c: Client, ff: FileFetch, i: nat)
    requires ValidClient(c) && ValidStore(ff.seen) && ff.tags == SnapshotTags(ff.seen, ff.bits, ff.hash)
    requires c.cursor.Some? && c.marker.Some? && i < c.marker.value && c.files[i] == ff.hash
    requires ff.seen.top < c.cursor.value
    ensures !SafeIfGrown(c, ff)
  {
    var p := Pair(ff.hash, Tag("", "a"));
    var top := c.cursor.value;
    var store := Overtaken(ff.seen, p, top);
    var st := Waiting(store, c, FullMirror(store, c.files), ff);
    OvertakenIsValid(ff.seen, p, top);
    FullMirrorIsSynced(store, c);
    assert Basic(st);
    FileWriteExact(st, 0);
    assert LastSeq(store, p) == top && (IsCurrent(ff.seen, p) <==> !IsCurrent(store, p));
    assert Pair(st.client.files[i], p.tag) == p;
    assert !Harmless(st, 0);
    assert !Synced(store, Step(st, FileWrite(0)).client);
  }

  /**
   * For a file up to the marker, and a store known not to have been re-seeded since the read:
   * comparing the stored cursor with the version read is the exact guard.
   */
  lemma UpToDateIsTheGuard(c: Client, ff: FileFetch, i: nat)
    requires ValidClient(c) && ValidStore(ff.seen) && ff.tags == SnapshotTags(ff.seen, ff.bits, ff.hash)
    requires c.cursor.Some? && c.marker.Some? && i < c.marker.value && c.files[i] == ff.hash
    ensures SafeIfGrown(c, ff) <==> c.cursor.value <= ff.seen.top
  {
    if c.cursor.value <= ff.seen.top {
      forall store, mirror |
        var st := Waiting(store, c, mirror, ff);
        Basic(st) && Extends(ff.seen, store) && Synced(store, st.client)
        ensures Synced(store, Step(Waiting(store, c, mirror, ff), FileWrite(0)).client)
      {
        NoGapAgrees(store, c.(mirror := mirror), ff.seen, ff.hash);
        FileWriteExact(Waiting(store, c, mirror, ff), 0);
      }
    } else {
      PassedMayBreak(c, ff, i);
    }
  }

  // ---- No guard for a store that may have been -----------------------------

  /** Whatever store the mirror is in step with, writing the tags keeps it so. */
  ghost predicate SafeOnAnyStore(c: Client, h: Hash, tags: set<Tag>) {
    forall store :: ValidStore(store) && Synced(store, c) ==> Synced(store, MergeFile(c, h, tags))
  }

  /** The write adds no pair, and removes none unless the cursor is 0. */
  predicate ChangesNothing(c: Client, h: Hash, tags: set<Tag>) {
    && (forall t :: t in tags ==> Pair(h, t) in c.mirror)
    && (OrZero(c.cursor) > 0 ==> forall p :: p in c.mirror && p.hash == h ==> p.tag in tags)
  }

  /** A store that has exactly the mirrored pairs. */
  function Mirrored(mirror: set<Pair>, cursor: nat, spare: Pair): Store {
    if mirror == {} then Store(if cursor == 0 then map[] else map[spare := Row(Deleted, cursor)], cursor, None)
    else
      var top := if cursor == 0 then 1 else cursor;
      Store(map p | p in mirror :: Row(Current, top), top, None)
  }

  lemma MirroredIsValid(mirror: set<Pair>, cursor: nat, spare: Pair)
    ensures ValidStore(Mirrored(mirror, cursor, spare)) && cursor <= Mirrored(mirror, cursor, spare).top
  {
    var s := Mirrored(mirror, cursor, spare);
    if mirror != {} {
      var p :| p in mirror;
      assert s.rows[p].stamp == s.top;
    } else if cursor > 0 {
      assert s.rows[spare].stamp == s.top;
    }
  }

  lemma ChangeMayBreak(c: Client, h: Hash, tags: set<Tag>, i: nat)
    requires ValidClient(c) && c.cursor.Some? && c.marker.Some? && i < c.marker.value && c.files[i] == h
    requires !ChangesNothing(c, h, tags)
    ensures !SafeOnAnyStore(c, h, tags)
  {
    var spare := Pair(h, Tag("", "a"));
    var s := Mirrored(c.mirror, c.cursor.value, spare);
    MirroredIsValid(c.mirror, c.cursor.value, spare);
    assert Synced(s, c);
    var p: Pair :| p.hash == h && if p.tag in tags then p !in c.mirror else p in c.mirror && c.cursor.value > 0;
    MergeFileAt(c, h, tags, p);
    assert Pair(c.files[i], p.tag) == p && LastSeq(s, p) <= c.cursor.value;
    assert !Synced(s, MergeFile(c, h, tags));
  }

  lemma NoChangeIsSafe(s: Store, c: Client, h: Hash, tags: set<Tag>)
    requires ValidStore(s) && Synced(s, c) && ChangesNothing(c, h, tags)
    ensures Synced(s, MergeFile(c, h, tags))
  {
    forall p | LastSeq(s, p) <= OrZero(c.cursor) && p.hash in c.files && (p in c.mirror <==> IsCurrent(s, p))
      ensures p in MergeFile(c, h, tags).mirror <==> IsCurrent(s, p)
    {
      if h in c.files {
        MergeFileAt(c, h, tags, p);
        assert Pair(p.hash, p.tag) == p;
      }
    }
  }

  /**
   * If the store may have been re-seeded since the read, nothing that the daemon sees makes a write
   * safe, for a file up to the marker, unless it changes nothing.
   */
  lemma OnlyNoChangeIsSafe(c: Client, h: Hash, tags: set<Tag>, i: nat)
    requires ValidClient(c) && c.cursor.Some? && c.marker.Some? && i < c.marker.value && c.files[i] == h
    ensures SafeOnAnyStore(c, h, tags) <==> ChangesNothing(c, h, tags)
  {
    if ChangesNothing(c, h, tags) {
      forall store | ValidStore(store) && Synced(store, c)
        ensures Synced(store, MergeFile(c, h, tags))
      {
        NoChangeIsSafe(store, c, h, tags);
      }
    } else {
      ChangeMayBreak(c, h, tags, i);
    }
  }

  // ---- Runs that are not harmless ------------------------------------------

  /** The pair deleted again. */
  function Removed(p: Pair): Store {
    Store(map[p := Row(Deleted, 2)], 2, None)
  }

  /** A file pull has read `p` being current; the store is now `now`. */
  function AfterRead(p: Pair, now: Store, c: Client, pull: Option<Fetch>): State {
    State(now, c, Fetched(None), pull, [FileFetch(p.hash, 0, SnapshotTags(Added(p), 0, p.hash), Added(p))])
  }

  function Unpulled(h: Hash): Client {
    Client([h], {}, None, None, None)
  }

  function ReadEvents(p: Pair): seq<Event> {
    [Import(p.hash), FetchCaps, Reconcile, StoreChange(p, Current), FileRead(p.hash, 0)]
  }

  lemma LastReadsRun(p: Pair, s2: State)
    requires s2 == State(NOTHING.store, Unpulled(p.hash), Fetched(None), None, [])
    ensures CanRun(s2, ReadEvents(p)[3..])
            && After(s2, ReadEvents(p)[3..]) == AfterRead(p, Added(p), Unpulled(p.hash), None)
  {
    var s3 := s2.(store := Added(p));
    assert Step(s2, StoreChange(p, Current)) == s3;
    assert Step(s3, FileRead(p.hash, 0)) == AfterRead(p, Added(p), Unpulled(p.hash), None);
    RunCons(s3, FileRead(p.hash, 0), []);
    RunCons(s2, StoreChange(p, Current), ReadEvents(p)[4..]);
  }

  lemma ReadsRun(p: Pair)
    ensures CanRun(NOTHING, ReadEvents(p))
            && After(NOTHING, ReadEvents(p)) == AfterRead(p, Added(p), Unpulled(p.hash), None)
  {
    var s0 := NOTHING;
    var s1 := s0.(client := Unpulled(p.hash));
    var s2 := s1.(caps := Fetched(None));
    assert Step(s0, Import(p.hash)) == s1;
    assert Step(s1, FetchCaps) == s2;
    assert Step(s2, Reconcile) == s2;
    LastReadsRun(p, s2);
    RunCons(s2, Reconcile, ReadEvents(p)[3..]);
    RunCons(s1, FetchCaps, ReadEvents(p)[2..]);
    RunCons(s0, Import(p.hash), ReadEvents(p)[1..]);
  }

  /** A store whose one row is the last change. */
  predicate OneRow(s: Store, q: Pair) {
    s.rows.Keys == {q} && s.rows[q].stamp == s.top > 0
  }

  function WholePlan(h: Hash): Plan {
    Plan(0, [BucketKey(h, 0)], [0], None, 1)
  }

  /** The client after a first pull of a store with one row. */
  function Pulled(now: Store, q: Pair): Client {
    Client([q.hash], if IsCurrent(now, q) then {q} else {}, Some(now.top), Some(1), None)
  }

  function Pulling(p: Pair, now: Store, versions: seq<Store>, changes: seq<Change>, cursor: Option<nat>,
                   checked: bool): State {
    AfterRead(p, now, Unpulled(p.hash), Some(Fetch(WholePlan(p.hash), versions, changes, cursor, false, checked)))
  }

  function PullEvents(change: Change): seq<Event> {
    [Begin(0), FetchChunk(1, [change]), CheckCursor, Merge]
  }

  lemma PullBegins(p: Pair, now: Store)
    ensures var st := AfterRead(p, now, Unpulled(p.hash), None);
            Enabled(st, Begin(0)) && Step(st, Begin(0)) == Pulling(p, now, [], [], None, false)
  {
    OneBucket(p.hash);
    var plan := MakePlan(Unpulled(p.hash), 0);
    assert plan.keys == WholePlan(p.hash).keys && plan.since == WholePlan(p.hash).since;
  }

  lemma PullFetches(p: Pair, now: Store, q: Pair, reply: seq<Change>)
    requires OneRow(now, q) && q.hash == p.hash && reply == [Change(q, now.rows[q].status)]
    ensures var st := Pulling(p, now, [], [], None, false);
            && Enabled(st, FetchChunk(1, reply))
            && Step(st, FetchChunk(1, reply)) == Pulling(p, now, Repeat(now, 1), reply, Some(now.top), false)
  {
    var f := Fetch(WholePlan(p.hash), [], [], None, false, false);
    assert f.plan.keys[|f.versions|..] == [BucketKey(p.hash, 0)] && f.plan.since[|f.versions|..] == [0];
    OneRowReply(now, q);
    assert ChunkEnabled(now, f, 1, reply);
    assert TakeChunk(f, now, 1, reply).changes == reply;
    assert TakeChunk(f, now, 1, reply).versions == Repeat(now, 1);
  }

  lemma PullMerges(p: Pair, now: Store, q: Pair, reply: seq<Change>)
    requires OneRow(now, q) && q.hash == p.hash && reply == [Change(q, now.rows[q].status)]
    ensures var st := Pulling(p, now, Repeat(now, 1), reply, Some(now.top), true);
            Enabled(st, Merge) && Step(st, Merge) == AfterRead(p, now, Pulled(now, q), None)
  {
    var none: set<Pair> := {};
    assert reply[..0] == [];
    assert ApplyChanges(none, [p.hash], []) == none;
    assert ApplyChanges(none, [p.hash], reply) == Pulled(now, q).mirror;
    assert Clear(none, WholePlan(p.hash)) == none;
  }

  lemma PullRun(p: Pair, now: Store, q: Pair)
    requires OneRow(now, q) && q.hash == p.hash
    ensures var st := AfterRead(p, now, Unpulled(p.hash), None);
            var events := PullEvents(Change(q, now.rows[q].status));
            CanRun(st, events) && After(st, events) == AfterRead(p, now, Pulled(now, q), None)
  {
    var reply := [Change(q, now.rows[q].status)];
    var s1 := Pulling(p, now, [], [], None, false);
    var s2 := Pulling(p, now, Repeat(now, 1), reply, Some(now.top), false);
    var s3 := Pulling(p, now, Repeat(now, 1), reply, Some(now.top), true);
    PullMerges(p, now, q, reply);
    RunCons(s3, Merge, []);
    assert Step(s2, CheckCursor) == s3;
    RunCons(s2, CheckCursor, [Merge]);
    PullFetches(p, now, q, reply);
    RunCons(s1, FetchChunk(1, reply), [CheckCursor, Merge]);
    PullBegins(p, now);
    RunCons(AfterRead(p, now, Unpulled(p.hash), None), Begin(0), PullEvents(reply[0])[1..]);
  }

  /** The read, what becomes of the store, and a delta pull. */
  function OvertakenEvents(p: Pair, e: Event, change: Change): seq<Event> {
    ReadEvents(p) + ([e] + PullEvents(change))
  }

  lemma OvertakenRun(p: Pair, e: Event, now: Store, q: Pair)
    requires OneRow(now, q) && q.hash == p.hash
    requires var st := AfterRead(p, Added(p), Unpulled(p.hash), None);
             Enabled(st, e) && Step(st, e) == AfterRead(p, now, Unpulled(p.hash), None)
    ensures var events := OvertakenEvents(p, e, Change(q, now.rows[q].status));
            CanRun(NOTHING, events) && After(NOTHING, events) == AfterRead(p, now, Pulled(now, q), None)
  {
    var change := Change(q, now.rows[q].status);
    ReadsRun(p);
    PullRun(p, now, q);
    RunCons(AfterRead(p, Added(p), Unpulled(p.hash), None), e, PullEvents(change));
    RunConcat(NOTHING, ReadEvents(p), [e] + PullEvents(change));
  }

  /** The late write leaves the file with exactly what was read. */
  lemma LateWrite(p: Pair, now: Store, q: Pair, r: Pair)
    requires q.hash == p.hash == r.hash
    ensures var st := AfterRead(p, now, Pulled(now, q), None);
            && CanRun(st, [FileWrite(0)])
            && After(st, [FileWrite(0)]) == Step(st, FileWrite(0))
            && (r in Step(st, FileWrite(0)).client.mirror <==> r == p)
  {
    var st := AfterRead(p, now, Pulled(now, q), None);
    SnapshotIsCurrent(Added(p), 0, p.hash, r.tag);
    MergeFileAt(st.client, p.hash, SnapshotTags(Added(p), 0, p.hash), r);
    assert Pair(p.hash, r.tag) == r;
    RunCons(st, FileWrite(0), []);
  }

  /** What the daemon then has is out of step with the store. */
  lemma WriteBreaks(p: Pair, now: Store, q: Pair)
    requires OneRow(now, q) && q.hash == p.hash && !IsCurrent(now, p)
    ensures var st := AfterRead(p, now, Pulled(now, q), None);
            var end := Step(st, FileWrite(0));
            && p in end.client.mirror && !Synced(now, end.client)
            && (q != p ==> q !in end.client.mirror)
  {
    var end := Step(AfterRead(p, now, Pulled(now, q), None), FileWrite(0));
    LateWrite(p, now, q, p);
    LateWrite(p, now, q, q);
    assert Pair(end.client.files[0], p.tag) == p && LastSeq(now, p) <= now.top;
  }

  /** The whole run, with the late write. */
  lemma LateRun(p: Pair, e: Event, now: Store, q: Pair, change: Change)
    requires OneRow(now, q) && q.hash == p.hash && !IsCurrent(now, p) && change == Change(q, now.rows[q].status)
    requires var st := AfterRead(p, Added(p), Unpulled(p.hash), None);
             Enabled(st, e) && Step(st, e) == AfterRead(p, now, Unpulled(p.hash), None)
    ensures var events := OvertakenEvents(p, e, change);
            && CanRun(NOTHING, events)
            && After(NOTHING, events) == AfterRead(p, now, Pulled(now, q), None)
            && CanRun(NOTHING, events + [FileWrite(0)])
            && var end := After(NOTHING, events + [FileWrite(0)]);
            && end.store == now && end.client.cursor == Some(now.top)
            && p in end.client.mirror && !Synced(now, end.client) && (q != p ==> q !in end.client.mirror)
  {
    OvertakenRun(p, e, now, q);
    LateWrite(p, now, q, p);
    WriteBreaks(p, now, q);
    RunConcat(NOTHING, OvertakenEvents(p, e, change), [FileWrite(0)]);
  }

  /**
   * Overlapping is not harmless: a file pull that read before a deletion and writes after a delta
   * pull has merged it brings the deleted pair back, and the stored cursor has passed the deletion.
   */
  lemma OverlapBringsBack(p: Pair)
    ensures var events := OvertakenEvents(p, StoreChange(p, Deleted), Change(p, Deleted)) + [FileWrite(0)];
            && IsStart(NOTHING) && CanRun(NOTHING, events)
            && var st := After(NOTHING, events);
            && !Synced(st.store, st.client)
            && p in st.client.mirror && !IsCurrent(st.store, p) && st.client.cursor == Some(LastSeq(st.store, p))
  {
    LateRun(p, StoreChange(p, Deleted), Removed(p), p, Change(p, Deleted));
  }

  /**
   * A re-seed between the read and the write: a delta pull has mirrored the new store and the cursor
   * has not passed the version read, yet the write puts the old store's pair back and loses the new one.
   */
  lemma ReadOutlivesReseed(p: Pair, q: Pair)
    requires p.hash == q.hash && p != q
    ensures var before := OvertakenEvents(p, Reseed(Added(q)), Change(q, Current));
            && IsStart(NOTHING) && CanRun(NOTHING, before)
            && var st := After(NOTHING, before);
            && Synced(st.store, st.client) && UpToDate(st, 0)
            && CanRun(NOTHING, before + [FileWrite(0)])
            && var end := After(NOTHING, before + [FileWrite(0)]);
            && p in end.client.mirror && !IsCurrent(end.store, p)
            && q !in end.client.mirror && IsCurrent(end.store, q)
            && !Synced(end.store, end.client)
  {
    assert Added(q).rows[q].stamp == Added(q).top;
    LateRun(p, Reseed(Added(q)), Added(q), q, Change(q, Current));
  }
}
