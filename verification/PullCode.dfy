/**
 * One incremental pull as the daemon carries it out: the server's answer to a bucket request, the
 * chunked fetch that keeps the lowest cursor, the library's merge, and `pull_domain_delta` with the
 * retry on a cursor that went backwards.
 */
module PullCode {
  import opened Wrappers
  import opened Sequences
  import opened Strings
  import opened Hashes
  import opened Buckets
  import opened Tags
  import opened Pull

  // ---- The server's side ---------------------------------------------------

  lemma SomePair(s: set<Pair>)
    requires s != {}
    ensures exists p :: p in s
  {
    assert (forall p :: p !in s) ==> s == {};
  }

  /** The rows in a range that are newer than `since`, deletions included. */
  method BucketDelta(s: Store, lo: string, hi: string, since: nat) returns (rows: seq<Change>)
    ensures DistinctPairs(rows)
    ensures forall c :: c in rows <==> InRange(c.pair.hash, lo, hi) && Reports(s, since, c)
  {
    rows := [];
    var left := s.rows.Keys;
    while left != {}
      invariant left <= s.rows.Keys
      invariant DistinctPairs(rows)
      invariant forall c :: c in rows <==> c.pair !in left && InRange(c.pair.hash, lo, hi) && Reports(s, since, c)
    {
      SomePair(left);
      var p :| p in left;
      if InRange(p.hash, lo, hi) && s.rows[p].stamp > since {
        var row := Change(p, s.rows[p].status);
        assert forall i :: 0 <= i < |rows| ==> rows[i] in rows;
        rows := rows + [row];
      }
      left := left - {p};
    }
  }

  lemma RangeReply(s: Store, bits: nat, keys: seq<string>, since: seq<nat>, j: nat, rows: seq<Change>)
    requires j < |keys| == |since| && DistinctPairs(rows)
    requires forall c :: c in rows <==> Covers(keys[j], bits, c.pair.hash) && Reports(s, since[j], c)
    ensures Received(bits, keys[j..], since[j..], [s], rows)
  {
    forall i | 0 <= i < |rows|
      ensures Backed(bits, keys[j..], since[j..], [s], rows[i])
    {
      assert rows[i] in rows;
      assert Covers(keys[j..][0], bits, rows[i].pair.hash) && Reports([s][0], since[j..][0], rows[i]);
    }
    forall p: Pair | Covers(keys[j], bits, p.hash) && LastSeq(s, p) > since[j]
      ensures Mentions(rows, p)
    {
      var c := Change(p, s.rows[p].status);
      assert c in rows;
      var i :| 0 <= i < |rows| && rows[i] == c;
      assert rows[i].pair == p;
    }
  }

  /** The delta answer: each key is parsed and re-bucketed, and its range scanned with its own `since`. */
  method AnswerDelta(s: Store, bits: nat, buckets: seq<string>, since: seq<nat>)
    returns (changes: seq<Change>, cursor: nat)
    requires |buckets| == |since| && AreKeys(buckets, bits)
    ensures ChunkReply(s, bits, buckets, since, |buckets|, changes)
    ensures cursor == s.top
  {
    changes := [];
    for j := 0 to |buckets|
      invariant Received(bits, buckets, since, Repeat(s, j), changes)
    {
      var lo := FromStr(buckets[j]);
      var part := [];
      if lo.Some? {
        var key := ComputeBucketKey(lo.value, bits);
        var hi := ComputeBucketUpper(lo.value, bits);
        part := BucketDelta(s, key, hi, since[j]);
      }
      RangeReply(s, bits, buckets, since, j, part);
      ReceivedAppend(bits, buckets, since, Repeat(s, j), [s], changes, part);
      assert Repeat(s, j) + [s] == Repeat(s, j + 1);
      changes := changes + part;
    }
    cursor := s.top;
  }

  // ---- The chunked fetch ---------------------------------------------------

  const U64_MAX := 0xFFFF_FFFF_FFFF_FFFF

  /**
   * What one fetch meets on the wire: nothing, or an answer to each chunk. Chunk `n` asks for the
   * keys from `cuts[n]` up to `cuts[n + 1]` and finds the store as it is at `history[n]`.
   */
  datatype Wire = Down | Answers(cuts: seq<nat>, history: seq<Store>)

  /** The chunks tile the key list; an empty list still makes one request. */
  predicate Tiles(cuts: seq<nat>, n: nat) {
    && |cuts| >= 2 && cuts[0] == 0 && cuts[|cuts| - 1] == n
    && forall i, j :: 0 <= i < j < |cuts| ==> cuts[i] <= cuts[j]
  }

  /** A store as a server can hold it: the sequence number is a signed 64-bit column. */
  predicate Served(s: Store) {
    ValidStore(s) && s.top < 0x8000_0000_0000_0000
  }

  predicate WireFits(w: Wire, keys: nat) {
    w.Answers? ==>
      && Tiles(w.cuts, keys) && |w.cuts| == |w.history| + 1
      && forall i :: 0 <= i < |w.history| ==> Served(w.history[i])
  }

  /** How many keys chunk `n` asks for. */
  function Size(wire: Wire, n: nat): nat
    requires wire.Answers? && n + 1 < |wire.cuts|
  {
    if wire.cuts[n] <= wire.cuts[n + 1] then wire.cuts[n + 1] - wire.cuts[n] else 0
  }

  /** The version behind each key that the first `n` chunks asked for. */
  function ReadBy(wire: Wire, n: nat): seq<Store>
    requires wire.Answers? && n <= |wire.history| < |wire.cuts|
  {
    if n == 0 then [] else ReadBy(wire, n - 1) + Repeat(wire.history[n - 1], Size(wire, n - 1))
  }

  function Joined(replies: seq<seq<Change>>): seq<Change> {
    if replies == [] then [] else Joined(replies[..|replies| - 1]) + replies[|replies| - 1]
  }

  /** Chunk `n` is answered for its keys from the store that it finds. */
  ghost predicate ReplyFits(bits: nat, keys: seq<string>, since: seq<nat>, wire: Wire, n: nat, reply: seq<Change>) {
    && wire.Answers? && n < |wire.history| < |wire.cuts|
    && var lo, hi := wire.cuts[n], wire.cuts[n + 1];
    && lo <= hi <= |keys| && hi <= |since|
    && ChunkReply(wire.history[n], bits, keys[lo..], since[lo..], hi - lo, reply)
  }

  /** So are all the chunks that have been. */
  ghost predicate Replied(bits: nat, keys: seq<string>, since: seq<nat>, wire: Wire, replies: seq<seq<Change>>) {
    forall n :: 0 <= n < |replies| ==> ReplyFits(bits, keys, since, wire, n, replies[n])
  }

  lemma OneMoreJoined(replies: seq<seq<Change>>, reply: seq<Change>)
    ensures Joined(replies + [reply]) == Joined(replies) + reply
  {
    assert (replies + [reply])[..|replies|] == replies;
  }

  lemma OneMoreReply(bits: nat, keys: seq<string>, since: seq<nat>, wire: Wire, replies: seq<seq<Change>>,
                     reply: seq<Change>)
    requires Replied(bits, keys, since, wire, replies) && ReplyFits(bits, keys, since, wire, |replies|, reply)
    ensures Replied(bits, keys, since, wire, replies + [reply])
  {
    forall n | 0 <= n < |replies| + 1
      ensures ReplyFits(bits, keys, since, wire, n, (replies + [reply])[n])
    {
      if n < |replies| {
        assert (replies + [reply])[n] == replies[n];
      }
    }
  }

  /** Every version comes from the wire. */
  predicate FromHistory(versions: seq<Store>, history: seq<Store>) {
    forall v :: v in versions ==> v in history
  }

  lemma BackedInSlice(bits: nat, keys: seq<string>, since: seq<nat>, lo: nat, hi: nat, versions: seq<Store>, c: Change)
    requires lo <= hi <= |keys| == |since| && |versions| == hi - lo
    requires Backed(bits, keys[lo..hi], since[lo..hi], versions, c)
    ensures Backed(bits, keys[lo..], since[lo..], versions, c)
  {
    var j :| 0 <= j < |versions| && Covers(keys[lo..hi][j], bits, c.pair.hash)
      && Reports(versions[j], since[lo..hi][j], c);
    assert keys[lo..][j] == keys[lo..hi][j] && since[lo..][j] == since[lo..hi][j];
  }

  lemma SliceAnswered(bits: nat, keys: seq<string>, since: seq<nat>, lo: nat, hi: nat, versions: seq<Store>,
                      changes: seq<Change>)
    requires lo <= hi <= |keys| == |since| && |versions| == hi - lo
    requires Received(bits, keys[lo..hi], since[lo..hi], versions, changes)
    ensures Received(bits, keys[lo..], since[lo..], versions, changes)
  {
    forall i | 0 <= i < |changes|
      ensures Backed(bits, keys[lo..], since[lo..], versions, changes[i])
    {
      BackedInSlice(bits, keys, since, lo, hi, versions, changes[i]);
    }
    forall j, p: Pair | 0 <= j < |versions| && Covers(keys[lo..][j], bits, p.hash)
      && LastSeq(versions[j], p) > since[lo..][j]
      ensures Mentions(changes, p)
    {
      assert keys[lo..][j] == keys[lo..hi][j] && since[lo..][j] == since[lo..hi][j];
    }
  }

  lemma SliceOfKeys(keys: seq<string>, bits: nat, lo: nat, hi: nat)
    requires AreKeys(keys, bits) && lo <= hi <= |keys|
    ensures AreKeys(keys[lo..hi], bits)
  {
  }

  /** The least of the sequence numbers that the stores met were at. */
  ghost predicate IsLowestTop(cursor: nat, history: seq<Store>) {
    && (exists i :: 0 <= i < |history| && cursor == history[i].top)
    && forall i :: 0 <= i < |history| ==> cursor <= history[i].top
  }

  lemma LowerOf(history: seq<Store>, n: nat, cursor: nat)
    requires n < |history| && if n == 0 then history[0].top < cursor else IsLowestTop(cursor, history[..n])
    ensures IsLowestTop(if history[n].top < cursor then history[n].top else cursor, history[..n + 1])
  {
    var next := history[..n + 1];
    assert next[n] == history[n];
    if n > 0 {
      var i :| 0 <= i < n && cursor == history[..n][i].top;
      assert next[i] == history[i];
      assert forall k :: 0 <= k < n ==> next[k] == history[..n][k];
    }
  }

  /** What the first `n` chunks brought. */
  ghost predicate FetchedSoFar(bits: nat, keys: seq<string>, since: seq<nat>, wire: Wire, versions: seq<Store>,
                               replies: seq<seq<Change>>, changes: seq<Change>)
    requires wire.Answers? && |keys| == |since| && WireFits(wire, |keys|) && |replies| <= |wire.history|
  {
    && Received(bits, keys, since, versions, changes) && |versions| == wire.cuts[|replies|]
    && FromHistory(versions, wire.history) && versions == ReadBy(wire, |replies|)
    && Replied(bits, keys, since, wire, replies) && changes == Joined(replies)
  }

  /** The answer for one slice of the keys is added to what was received for the keys before it. */
  lemma ReceivedMore(bits: nat, keys: seq<string>, since: seq<nat>, versions: seq<Store>, changes: seq<Change>,
                     lo: nat, hi: nat, more: seq<Store>, reply: seq<Change>)
    requires lo <= hi <= |keys| == |since| && AreKeys(keys, bits) && |versions| == lo && |more| == hi - lo
    requires Received(bits, keys, since, versions, changes)
    requires Received(bits, keys[lo..hi], since[lo..hi], more, reply)
    ensures Received(bits, keys, since, versions + more, changes + reply)
    ensures Received(bits, keys[lo..], since[lo..], more, reply)
  {
    SliceAnswered(bits, keys, since, lo, hi, more, reply);
    ReceivedAppend(bits, keys, since, versions, more, changes, reply);
  }

  lemma FetchedMore(bits: nat, keys: seq<string>, since: seq<nat>, wire: Wire, versions: seq<Store>,
                    replies: seq<seq<Change>>, changes: seq<Change>, lo: nat, hi: nat, s: Store, reply: seq<Change>)
    requires |keys| == |since| && AreKeys(keys, bits) && wire.Answers? && WireFits(wire, |keys|)
    requires |replies| < |wire.history| && FetchedSoFar(bits, keys, since, wire, versions, replies, changes)
    requires lo == wire.cuts[|replies|] && hi == wire.cuts[|replies| + 1] && s == wire.history[|replies|]
    requires ChunkReply(s, bits, keys[lo..hi], since[lo..hi], hi - lo, reply)
    ensures FetchedSoFar(bits, keys, since, wire, versions + Repeat(s, hi - lo), replies + [reply], changes + reply)
  {
    var more := Repeat(s, hi - lo);
    ReceivedMore(bits, keys, since, versions, changes, lo, hi, more, reply);
    OneMoreJoined(replies, reply);
    OneMoreReply(bits, keys, since, wire, replies, reply);
    assert s in wire.history;
  }

  /** One request, for the keys from `lo` up to `hi`, to the store as it then is. */
  method FetchSlice(s: Store, bits: nat, keys: seq<string>, since: seq<nat>, lo: nat, hi: nat)
    returns (reply: seq<Change>, top: nat)
    requires lo <= hi <= |keys| == |since| && AreKeys(keys, bits)
    ensures ChunkReply(s, bits, keys[lo..hi], since[lo..hi], hi - lo, reply) && top == s.top
  {
    SliceOfKeys(keys, bits, lo, hi);
    reply, top := AnswerDelta(s, bits, keys[lo..hi], since[lo..hi]);
  }

  /**
   * Ask chunk by chunk, keep every row, and keep the lowest cursor: no bucket was read from a
   * version older than it says.
   */
  method FetchBucketDelta(bits: nat, keys: seq<string>, since: seq<nat>, wire: Wire)
    returns (changes: seq<Change>, cursor: nat, ghost versions: seq<Store>, ghost replies: seq<seq<Change>>)
    requires |keys| == |since| && AreKeys(keys, bits) && wire.Answers? && WireFits(wire, |keys|)
    ensures Received(bits, keys, since, versions, changes) && |versions| == |keys|
    ensures FromHistory(versions, wire.history)
    ensures |replies| == |wire.history| && FetchedSoFar(bits, keys, since, wire, versions, replies, changes)
    ensures IsLowestTop(cursor, wire.history)
  {
    changes, cursor, versions, replies := [], U64_MAX, [], [];
    for n := 0 to |wire.history|
      invariant |replies| == n && FetchedSoFar(bits, keys, since, wire, versions, replies, changes)
      invariant if n == 0 then cursor == U64_MAX else IsLowestTop(cursor, wire.history[..n])
    {
      var lo, hi, s := wire.cuts[n], wire.cuts[n + 1], wire.history[n];
      var reply, top := FetchSlice(s, bits, keys, since, lo, hi);
      FetchedMore(bits, keys, since, wire, versions, replies, changes, lo, hi, s, reply);
      LowerOf(wire.history, n, cursor);
      cursor := if top < cursor then top else cursor;
      versions, replies, changes := versions + Repeat(s, hi - lo), replies + [reply], changes + reply;
    }
    assert wire.history[..|wire.history|] == wire.history;
  }

  // ---- The library ---------------------------------------------------------

  predicate InSome(ranges: seq<(string, string)>, h: Hash) {
    exists i :: 0 <= i < |ranges| && InRange(h, ranges[i].0, ranges[i].1)
  }

  function ClearRanges(mirror: set<Pair>, ranges: seq<(string, string)>): set<Pair> {
    set p | p in mirror && !InSome(ranges, p.hash)
  }

  lemma ClearOneMore(mirror: set<Pair>, ranges: seq<(string, string)>, n: nat)
    requires n < |ranges|
    ensures ClearRanges(mirror, ranges[..n + 1])
         == set p | p in ClearRanges(mirror, ranges[..n]) && !InRange(p.hash, ranges[n].0, ranges[n].1)
  {
    forall h
      ensures InSome(ranges[..n + 1], h) <==> InSome(ranges[..n], h) || InRange(h, ranges[n].0, ranges[n].1)
    {
      if InSome(ranges[..n], h) {
        var i :| 0 <= i < n && InRange(h, ranges[..n][i].0, ranges[..n][i].1);
        assert ranges[..n + 1][i] == ranges[i];
      }
      assert ranges[..n + 1][n] == ranges[n];
    }
  }

  lemma HeldTags(mirror: set<Pair>, h: Hash, current: set<Tag>)
    requires current == set p | p in mirror && p.hash == h :: p.tag
    ensures forall t :: t in current <==> Pair(h, t) in mirror
  {
    forall t | Pair(h, t) in mirror
      ensures t in current
    {
      assert Pair(h, t).tag == t;
    }
  }

  /** Withdrawing and inserting the differences is replacing the tags of the file. */
  lemma DifferencesMerge(c: Client, h: Hash, wanted: set<Tag>, current: set<Tag>, gone: set<Pair>, netNew: set<Pair>)
    requires h in c.files && current == set p | p in c.mirror && p.hash == h :: p.tag
    requires gone == set t | t in current - wanted :: Pair(h, t)
    requires netNew == set t | t in wanted - current :: Pair(h, t)
    ensures c.mirror - gone + netNew == MergeFile(c, h, wanted).mirror
    ensures netNew == MergeFile(c, h, wanted).mirror - c.mirror
  {
    HeldTags(c.mirror, h, current);
    forall p
      ensures p in gone <==> p.hash == h && p in c.mirror && p.tag !in wanted
      ensures p in netNew <==> p.hash == h && p !in c.mirror && p.tag in wanted
      ensures p in MergeFile(c, h, wanted).mirror <==> if p.hash == h then p.tag in wanted else p in c.mirror
    {
      MergeFileAt(c, h, wanted, p);
      assert p == Pair(p.hash, p.tag);
    }
  }

  lemma OnlyFirstAdds(before: Client, hashes: seq<Hash>, h: Hash, entries: map<Hash, set<Tag>>, p: Pair)
    ensures var c := MergeFiles(before, hashes, entries);
            var after := MergeFile(c, h, TagsIn(entries, h));
            && (p in after.mirror && p !in c.mirror ==> p !in before.mirror)
            && (p in c.mirror && p !in before.mirror ==> p in after.mirror)
  {
    MergeFilesAt(before, hashes, entries, p);
    var c := MergeFiles(before, hashes, entries);
    if h in c.files {
      MergeFileAt(c, h, TagsIn(entries, h), p);
    }
  }

  /** A pair that merging one more file adds was neither there before nor added by an earlier file. */
  lemma AddedOnce(before: Client, hashes: seq<Hash>, h: Hash, entries: map<Hash, set<Tag>>, m: set<Pair>,
                  after: set<Pair>)
    requires m == MergeFiles(before, hashes, entries).mirror
    requires after == MergeFile(MergeFiles(before, hashes, entries), h, TagsIn(entries, h)).mirror
    ensures |after - before.mirror| == |m - before.mirror| + |after - m|
  {
    forall p
      ensures p in after && p !in m ==> p !in before.mirror
      ensures p in m && p !in before.mirror ==> p in after
    {
      OnlyFirstAdds(before, hashes, h, entries, p);
    }
    DisjointSizes(before.mirror, m, after);
  }

  lemma DisjointSizes(start: set<Pair>, m: set<Pair>, after: set<Pair>)
    requires forall p :: p in after && p !in m ==> p !in start
    requires forall p :: p in m && p !in start ==> p in after
    ensures |after - start| == |m - start| + |after - m|
  {
    assert after - start == (m - start) + (after - m);
  }

  /** The tables of the library that a pull of one service reads and writes. */
  class LibraryDb {
    var files: seq<Hash>
    var mirror: set<Pair>
    var cursor: Option<nat>
    var marker: Option<nat>
    var generation: Option<string>

    ghost function View(): Client
      reads this
    {
      Client(files, mirror, cursor, marker, generation)
    }

    method Import(h: Hash)
      modifies this`files
      ensures View() == old(View()).(files := if h in old(files) then old(files) else old(files) + [h])
    {
      if h !in files {
        files := files + [h];
      }
    }

    /** The bucket keys of the files after an id, sorted, each once. */
    method OwnedBucketKeysAfter(bits: nat, after: nat) returns (keys: seq<string>)
      ensures keys == BucketKeys(if after <= |files| then files[after..] else [], bits)
    {
      var all := [];
      ghost var later := if after <= |files| then files[after..] else [];
      var i := after;
      while i < |files|
        invariant after <= i <= after + |later|
        invariant |all| == i - after && forall k :: 0 <= k < |all| ==> all[k] == BucketKey(later[k], bits)
      {
        var key := ComputeBucketKey(files[i], bits);
        all := all + [key];
        i := i + 1;
      }
      assert all == KeysOf(later, bits);
      keys := SortDedup(all);
    }

    /** Clear the full buckets, apply the changes in order, remember cursor and marker. */
    method MergeMappingDelta(changes: seq<Change>, fullBuckets: seq<(string, string)>, cursor: nat, fileMarker: nat)
      modifies this`mirror, this`cursor, this`marker
      ensures View() == old(View()).(
                mirror := ApplyChanges(ClearRanges(old(mirror), fullBuckets), files, changes),
                cursor := Some(cursor), marker := Some(fileMarker))
    {
      ghost var before := mirror;
      for n := 0 to |fullBuckets|
        invariant mirror == ClearRanges(before, fullBuckets[..n])
      {
        ClearOneMore(before, fullBuckets, n);
        var (lo, hi) := fullBuckets[n];
        mirror := set p | p in mirror && !InRange(p.hash, lo, hi);
      }
      assert fullBuckets[..|fullBuckets|] == fullBuckets;
      ghost var cleared := mirror;
      for n := 0 to |changes|
        invariant mirror == ApplyChanges(cleared, files, changes[..n])
      {
        assert changes[..n + 1][..n] == changes[..n];
        var c := changes[n];
        if c.pair.hash in files {
          match c.status
          case Current => mirror := mirror + {c.pair};
          case Deleted => mirror := mirror - {c.pair};
        }
      }
      assert changes[..|changes|] == changes;
      this.cursor, marker := Some(cursor), Some(fileMarker);
    }

    /** One requested file: withdraw the tags that are no longer there, insert the net-new ones. */
    method MergeOneFile(h: Hash, wanted: set<Tag>) returns (added: nat)
      modifies this`mirror
      ensures View() == MergeFile(old(View()), h, wanted)
      ensures added == |mirror - old(mirror)|
    {
      added := 0;
      ghost var before := mirror;
      if h in files {
        var current := set p | p in mirror && p.hash == h :: p.tag;
        var gone := set t | t in current - wanted :: Pair(h, t);
        var netNew := set t | t in wanted - current :: Pair(h, t);
        DifferencesMerge(View(), h, wanted, current, gone, netNew);
        mirror := mirror - gone + netNew;
        added := |netNew|;
      } else {
        assert mirror - before == {};
      }
    }

    /** The file-scoped merge of the requested files. Cursor and marker are not touched. */
    method MergeForFiles(hashes: seq<Hash>, entries: map<Hash, set<Tag>>) returns (added: nat)
      modifies this`mirror
      ensures View() == MergeFiles(old(View()), hashes, entries)
      ensures added == |mirror - old(mirror)|
    {
      added := 0;
      ghost var before := View();
      for i := 0 to |hashes|
        invariant View() == MergeFiles(before, hashes[..i], entries)
        invariant added == |mirror - before.mirror|
      {
        assert hashes[..i + 1][..i] == hashes[..i];
        ghost var m := mirror;
        var n := MergeOneFile(hashes[i], TagsIn(entries, hashes[i]));
        AddedOnce(before, hashes[..i], hashes[i], entries, m, mirror);
        added := added + n;
      }
      assert hashes[..|hashes|] == hashes;
    }

    method ResetServiceCursors()
      modifies this`cursor, this`marker
      ensures View() == old(View()).(cursor := None, marker := None)
    {
      cursor, marker := None, None;
    }

    method SetServiceStoreGeneration(g: string)
      modifies this`generation
      ensures View() == old(View()).(generation := Some(g))
    {
      generation := Some(g);
    }
  }

  // ---- The daemon's side ---------------------------------------------------

  method ReconcileStoreGeneration(db: LibraryDb, advertised: Option<string>)
    modifies db
    ensures db.View() == ReconcileGeneration(old(db.View()), advertised)
    ensures advertised.Some? ==> db.generation == advertised
    ensures if advertised.Some? && old(db.generation).Some? && old(db.generation) != advertised then
              db.cursor.None? && db.marker.None?
            else db.cursor == old(db.cursor) && db.marker == old(db.marker)
    ensures db.generation == if advertised.Some? then advertised else old(db.generation)
    ensures db.files == old(db.files) && db.mirror == old(db.mirror)
  {
    if advertised.None? {
      return;
    }
    match db.generation {
      case Some(oldGen) =>
        if oldGen != advertised.value {
          db.ResetServiceCursors();
          db.SetServiceStoreGeneration(advertised.value);
        }
      case None =>
        db.SetServiceStoreGeneration(advertised.value);
    }
  }

  lemma InOneMore(ranges: seq<(string, string)>, range: (string, string), h: Hash)
    ensures InSome(ranges + [range], h) <==> InSome(ranges, h) || InRange(h, range.0, range.1)
  {
    if InSome(ranges, h) {
      var i :| 0 <= i < |ranges| && InRange(h, ranges[i].0, ranges[i].1);
      assert (ranges + [range])[i] == ranges[i];
    }
    assert (ranges + [range])[|ranges|] == range;
  }

  /** One of the first `n` buckets was asked for from the start and covers `h`. */
  ghost predicate InFirstFull(plan: Plan, n: nat, h: Hash)
    requires n <= |plan.keys| == |plan.since|
  {
    exists j :: 0 <= j < n && plan.since[j] == 0 && Covers(plan.keys[j], plan.bits, h)
  }

  lemma FirstFullStep(plan: Plan, n: nat, h: Hash)
    requires n < |plan.keys| == |plan.since|
    ensures InFirstFull(plan, n + 1, h)
       <==> InFirstFull(plan, n, h) || (plan.since[n] == 0 && Covers(plan.keys[n], plan.bits, h))
  {
  }

  /** The range of one key, if it parses. */
  method KeyRange(key: string, bits: nat) returns (range: Option<(string, string)>)
    ensures forall h :: Covers(key, bits, h) <==> range.Some? && InRange(h, range.value.0, range.value.1)
  {
    var lo := FromStr(key);
    range := None;
    if lo.Some? {
      var first := ComputeBucketKey(lo.value, bits);
      var upper := ComputeBucketUpper(lo.value, bits);
      range := Some((first, upper));
    }
  }

  ghost predicate Carries(entries: seq<(Hash, seq<Tag>)>, h: Hash, t: Tag) {
    exists i :: 0 <= i < |entries| && entries[i].0 == h && t in entries[i].1
  }

  lemma CarriesOneMore(entries: seq<(Hash, seq<Tag>)>, n: nat, h: Hash, t: Tag)
    requires n < |entries|
    ensures Carries(entries[..n + 1], h, t) <==> Carries(entries[..n], h, t) || (entries[n].0 == h && t in entries[n].1)
  {
    if Carries(entries[..n], h, t) {
      var i :| 0 <= i < n && entries[..n][i].0 == h && t in entries[..n][i].1;
      assert entries[..n + 1][i] == entries[i];
    }
    assert entries[..n + 1][n] == entries[n];
  }

  /** A hash may be sent more than once: its tags are united, so no group overwrites another. */
  method Coalesce(entries: seq<(Hash, seq<Tag>)>) returns (byHash: map<Hash, set<Tag>>)
    ensures forall h, t :: t in TagsIn(byHash, h) <==> Carries(entries, h, t)
  {
    byHash := map[];
    for i := 0 to |entries|
      invariant forall h, t :: t in TagsIn(byHash, h) <==> Carries(entries[..i], h, t)
    {
      var (hash, tags) := entries[i];
      ghost var before := byHash;
      byHash := byHash[hash := TagsIn(byHash, hash) + set t | t in tags];
      forall h, t
        ensures t in TagsIn(byHash, h) <==> Carries(entries[..i + 1], h, t)
      {
        CarriesOneMore(entries, i, h, t);
      }
    }
    assert entries[..|entries|] == entries;
  }

  /** The ranges of the buckets asked for from the start. */
  method FullBuckets(plan: Plan) returns (ranges: seq<(string, string)>)
    requires |plan.since| == |plan.keys|
    ensures forall h :: InSome(ranges, h) <==> InFullBucket(plan, h)
  {
    ranges := [];
    for j := 0 to |plan.keys|
      invariant forall h :: InSome(ranges, h) <==> InFirstFull(plan, j, h)
    {
      ghost var before := ranges;
      var range := None;
      if plan.since[j] == 0 {
        range := KeyRange(plan.keys[j], plan.bits);
        if range.Some? {
          ranges := ranges + [range.value];
        }
      }
      forall h
        ensures InSome(ranges, h) <==> InFirstFull(plan, j + 1, h)
      {
        FirstFullStep(plan, j, h);
        if range.Some? {
          InOneMore(before, range.value, h);
        }
      }
    }
  }

  /** Files that other parts of the daemon import while the lock is free. */
  method ImportAll(db: LibraryDb, hashes: seq<Hash>)
    requires ValidClient(db.View())
    modifies db`files
    ensures ValidClient(db.View()) && db.View() == old(db.View()).(files := db.files) && old(db.files) <= db.files
  {
    for i := 0 to |hashes|
      invariant ValidClient(db.View()) && db.View() == old(db.View()).(files := db.files) && old(db.files) <= db.files
    {
      db.Import(hashes[i]);
    }
  }

  /** What the one locked read sees. */
  method ReadPlan(db: LibraryDb, bits: nat) returns (plan: Plan)
    ensures plan == MakePlan(db.View(), bits)
  {
    var owned, cursor, marker, currentMarker := db.files, db.cursor, db.marker, |db.files|;
    var newKeys := db.OwnedBucketKeysAfter(bits, OrZero(marker));
    var keys := BucketKeys(owned, bits);
    plan := Plan(bits, keys, Since(keys, newKeys, cursor, marker), cursor, currentMarker);
  }

  lemma PlanSurvives(before: Client, after: Client, plan: Plan)
    requires PlanFits(before, plan) && before.files <= after.files && after == before.(files := after.files)
    ensures PlanFits(after, plan)
  {
    assert after.files[..plan.marker] == before.files[..plan.marker];
  }

  /** The locked write: the ranges of the full buckets, the changes, cursor and marker. */
  method MergePlan(db: LibraryDb, plan: Plan, changes: seq<Change>, cursor: nat)
    requires |plan.since| == |plan.keys|
    modifies db
    ensures db.View() == MergeDelta(old(db.View()), plan, changes, cursor)
  {
    var fullBuckets := FullBuckets(plan);
    db.MergeMappingDelta(changes, fullBuckets, cursor, plan.marker);
    assert ClearRanges(old(db.mirror), fullBuckets) == Clear(old(db.mirror), plan);
  }

  /** Some answer came from a store whose cursor is behind the stored one. */
  ghost predicate WentBack(stored: Option<nat>, wire: Wire) {
    wire.Answers? && stored.Some? && exists i :: 0 <= i < |wire.history| && wire.history[i].top < stored.value
  }

  /** The wire of the fetch that is merged. */
  ghost function MergedWire(stored: Option<nat>, first: Wire, again: Wire): Wire {
    if WentBack(stored, first) then again else first
  }

  /** What a fetch brought, reply by reply and in all. */
  datatype Pulled = Pulled(plan: Plan, versions: seq<Store>, replies: seq<seq<Change>>, changes: seq<Change>,
                           cursor: nat)

  /** Everything the plan asks for was read from the stores the wire met. */
  ghost predicate PulledFrom(d: Pulled, wire: Wire) {
    && wire.Answers? && AreKeys(d.plan.keys, d.plan.bits)
    && Received(d.plan.bits, d.plan.keys, d.plan.since, d.versions, d.changes) && |d.versions| == |d.plan.keys|
    && FromHistory(d.versions, wire.history)
    && WireFits(wire, |d.plan.keys|) && d.versions == ReadBy(wire, |wire.history|)
    && |d.replies| == |wire.history| && Replied(d.plan.bits, d.plan.keys, d.plan.since, wire, d.replies)
    && d.changes == Joined(d.replies)
    && IsLowestTop(d.cursor, wire.history)
  }

  lemma WentBackIff(stored: Option<nat>, d: Pulled, wire: Wire)
    requires PulledFrom(d, wire)
    ensures WentBack(stored, wire) <==> stored.Some? && d.cursor < stored.value
  {
  }

  method FetchPlan(plan: Plan, wire: Wire) returns (ok: bool, changes: seq<Change>, cursor: nat, ghost d: Pulled)
    requires |plan.keys| == |plan.since| && AreKeys(plan.keys, plan.bits) && WireFits(wire, |plan.keys|)
    ensures ok <==> wire.Answers?
    ensures ok ==> d.plan == plan && d.changes == changes && d.cursor == cursor && PulledFrom(d, wire)
  {
    if wire.Down? {
      return false, [], 0, Pulled(plan, [], [], [], 0);
    }
    ghost var versions, replies;
    changes, cursor, versions, replies := FetchBucketDelta(plan.bits, plan.keys, plan.since, wire);
    ok, d := true, Pulled(plan, versions, replies, changes, cursor);
  }

  /**
   * `look` is what the plan brought, `d` what is to be merged: the same, unless the cursor went back
   * and everything was asked for once more.
   */
  ghost predicate Fetches(plan: Plan, first: Wire, again: Wire, ok: bool, look: Pulled, d: Pulled) {
    && (ok <==> first.Answers? && (WentBack(plan.stored, first) ==> again.Answers?))
    && (first.Answers? ==> look.plan == plan && PulledFrom(look, first))
    && (ok ==>
          if WentBack(plan.stored, first) then d.plan == plan.(since := Repeat(0, |plan.keys|)) && PulledFrom(d, again)
          else d == look)
    && (ok ==> |d.plan.since| == |d.plan.keys|)
  }

  lemma AskedFits(met: Client, plan: Plan, first: Wire, again: Wire, ok: bool, look: Pulled, d: Pulled)
    requires PlanFits(met, plan) && ok && Fetches(plan, first, again, ok, look, d)
    ensures PlanFits(met, d.plan)
  {
  }

  /** Fetch without the lock, and ask again for everything if the cursor went backwards. */
  method FetchTwice(plan: Plan, first: Wire, again: Wire)
    returns (ok: bool, asked: Plan, changes: seq<Change>, cursor: nat, ghost look: Pulled, ghost d: Pulled)
    requires |plan.keys| == |plan.since| && AreKeys(plan.keys, plan.bits)
    requires WireFits(first, |plan.keys|) && WireFits(again, |plan.keys|)
    ensures Fetches(plan, first, again, ok, look, d)
    ensures ok ==> d.plan == asked && d.changes == changes && d.cursor == cursor
  {
    asked := plan;
    ok, changes, cursor, look := FetchPlan(plan, first);
    d := look;
    if ok {
      WentBackIff(plan.stored, look, first);
      if plan.stored.Some? && cursor < plan.stored.value {
        asked := plan.(since := Repeat(0, |plan.keys|));
        ok, changes, cursor, d := FetchPlan(asked, again);
      }
    }
  }

  /**
   * What a pull of the client `c` comes to, when `met` is `c` with the files imported meanwhile. A
   * fetch that fails leaves the client as it was met.
   */
  ghost predicate Outcome(c: Client, met: Client, after: Client, bits: nat, first: Wire, again: Wire, ok: bool,
                          look: Pulled, d: Pulled) {
    && Fetches(MakePlan(c, bits), first, again, ok, look, d)
    && after == if ok then MergeDelta(met, d.plan, d.changes, d.cursor) else met
  }

  /**
   * Read under the lock, fetch without it while files may be imported, ask again for everything if
   * the cursor went backwards, merge under the lock.
   */
  method PullDomainDelta(db: LibraryDb, bits: nat, first: Wire, again: Wire, imported: seq<Hash>)
    returns (ok: bool, ghost look: Pulled, ghost d: Pulled)
    requires ValidClient(db.View())
    requires WireFits(first, |BucketKeys(db.files, bits)|) && WireFits(again, |BucketKeys(db.files, bits)|)
    modifies db
    ensures old(db.files) <= db.files && ValidClient(old(db.View()).(files := db.files))
    ensures Outcome(old(db.View()), old(db.View()).(files := db.files), db.View(), bits, first, again, ok, look, d)
    ensures ok ==> PlanFits(old(db.View()).(files := db.files), d.plan)
    ensures ok ==>
              var wire := MergedWire(old(db.cursor), first, again);
              wire.Answers? && db.cursor.Some? && IsLowestTop(db.cursor.value, wire.history)
    ensures ok ==> db.marker == Some(|old(db.files)|)
    ensures !ok ==> db.cursor == old(db.cursor) && db.marker == old(db.marker) && db.mirror == old(db.mirror)
    ensures db.generation == old(db.generation)
  {
    var plan := ReadPlan(db, bits);
    MakePlanFits(db.View(), bits);
    ImportAll(db, imported);
    ghost var met := db.View();
    PlanSurvives(old(db.View()), met, plan);
    var asked, changes, cursor;
    ok, asked, changes, cursor, look, d := FetchTwice(plan, first, again);
    if ok {
      AskedFits(met, plan, first, again, ok, look, d);
      MergePlan(db, asked, changes, cursor);
      assert db.View() == MergeDelta(met, d.plan, d.changes, d.cursor);
    }
  }

  // ---- What a completed pull achieves --------------------------------------

  /** The store only grew, up to `now`, while it was being read. */
  ghost predicate GrewInto(wire: Wire, now: Store) {
    wire.Answers? && forall i :: 0 <= i < |wire.history| ==>
        ValidStore(wire.history[i]) && Extends(wire.history[i], now)
  }

  lemma PullSyncs(c: Client, d: Pulled, wire: Wire, now: Store)
    requires ValidClient(c) && PlanFits(c, d.plan) && PulledFrom(d, wire) && GrewInto(wire, now)
    requires Synced(now, c) || forall j :: 0 <= j < |d.plan.since| ==> d.plan.since[j] == 0
    ensures Synced(now, MergeDelta(c, d.plan, d.changes, d.cursor))
  {
    forall j | 0 <= j < |d.versions|
      ensures ValidStore(d.versions[j]) && Extends(d.versions[j], now) && d.cursor <= d.versions[j].top
    {
      assert d.versions[j] in d.versions;
    }
    var i :| 0 <= i < |wire.history| && d.cursor == wire.history[i].top;
    assert Extends(wire.history[i], now);
    MergeSyncs(now, c, d.plan, d.versions, d.changes, d.cursor);
  }

  /** Read from one unchanging store, every file owned at the locked read ends up as the store has it. */
  lemma QuietPullIsExact(c: Client, d: Pulled, wire: Wire, now: Store, i: nat, t: Tag)
    requires ValidClient(c) && PlanFits(c, d.plan) && PulledFrom(d, wire) && GrewInto(wire, now)
    requires Synced(now, c) || forall j :: 0 <= j < |d.plan.since| ==> d.plan.since[j] == 0
    requires ValidStore(now) && d.cursor == now.top && i < d.plan.marker
    ensures Pair(c.files[i], t) in MergeDelta(c, d.plan, d.changes, d.cursor).mirror <==>
              IsCurrent(now, Pair(c.files[i], t))
  {
    PullSyncs(c, d, wire, now);
    assert LastSeq(now, Pair(c.files[i], t)) <= now.top;
  }

  // ---- And the next pull ---------------------------------------------------

  lemma NotBacked(now: Store, bits: nat, keys: seq<string>, since: seq<nat>, c: Change)
    requires ValidStore(now) && |keys| == |since| && forall j :: 0 <= j < |since| ==> since[j] == now.top
    ensures !Backed(bits, keys, since, Repeat(now, |keys|), c)
  {
    forall j | 0 <= j < |keys|
      ensures !Reports(Repeat(now, |keys|)[j], since[j], c)
    {
    }
  }

  /** Nothing in the store is newer than what was asked for. */
  lemma NothingNewer(now: Store, bits: nat, keys: seq<string>, since: seq<nat>, reply: seq<Change>)
    requires ValidStore(now) && |keys| == |since| && forall j :: 0 <= j < |since| ==> since[j] == now.top
    requires ChunkReply(now, bits, keys, since, |keys|, reply)
    ensures reply == []
  {
    if reply != [] {
      NotBacked(now, bits, keys, since, reply[0]);
    }
  }

  /**
   * The cursor advances: after a pull of a store that did not change, if no file was imported
   * meanwhile, the next one asks every bucket from there on, and is answered with nothing.
   */
  lemma NextPullIsEmpty(c: Client, d: Pulled, wire: Wire, now: Store, bits: nat, reply: seq<Change>)
    requires PlanFits(c, d.plan) && PulledFrom(d, wire) && ValidStore(now)
    requires d.plan.marker == |c.files| && forall i :: 0 <= i < |wire.history| ==> wire.history[i] == now
    ensures var plan := MakePlan(MergeDelta(c, d.plan, d.changes, d.cursor), bits);
            && plan.stored == Some(now.top)
            && (forall j :: 0 <= j < |plan.keys| ==> plan.since[j] == now.top)
            && (ChunkReply(now, bits, plan.keys, plan.since, |plan.keys|, reply) ==> reply == [])
  {
    var after := MergeDelta(c, d.plan, d.changes, d.cursor);
    var plan := MakePlan(after, bits);
    assert NewFiles(after) == [];
    if ChunkReply(now, bits, plan.keys, plan.since, |plan.keys|, reply) {
      NothingNewer(now, bits, plan.keys, plan.since, reply);
    }
  }

  /** Files imported meanwhile make the next pull ask for their buckets from the start, and for no others. */
  lemma OnlyNewFilesAskAfresh(c: Client, d: Pulled, bits: nat, j: nat)
    requires ValidClient(c) && PlanFits(c, d.plan) && d.cursor > 0
    requires var plan := MakePlan(MergeDelta(c, d.plan, d.changes, d.cursor), bits); j < |plan.keys|
    ensures var plan := MakePlan(MergeDelta(c, d.plan, d.changes, d.cursor), bits);
            plan.since[j] ==
              if exists k :: d.plan.marker <= k < |c.files| && BucketKey(c.files[k], bits) == plan.keys[j] then 0
              else d.cursor
  {
    var after := MergeDelta(c, d.plan, d.changes, d.cursor);
    NewFileKeys(after, bits, MakePlan(after, bits).keys[j]);
  }
}
