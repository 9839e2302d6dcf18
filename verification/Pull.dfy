/**
 * What one incremental pull does to the mirror (crates/daemon/src/ops.rs, `pull_domain_delta`,
 * `reconcile_store_generation` and the merge of `pull_repo_for_hashes`), for one hash domain.
 */
module Pull {
  import opened Wrappers
  import opened Sequences
  import opened Strings
  import opened Hashes
  import opened Buckets
  import opened Tags

  // ---- The remote store ----------------------------------------------------

  datatype Pair = Pair(hash: Hash, tag: Tag)

  datatype Status = Current | Deleted

  datatype Row = Row(status: Status, stamp: nat)

  /** One row a pair, stamped with the sequence number of its last change; `top` is the highest. */
  datatype Store = Store(rows: map<Pair, Row>, top: nat, generation: Option<string>)

  predicate ValidStore(s: Store) {
    && (forall p :: p in s.rows ==> 1 <= s.rows[p].stamp <= s.top)
    && (s.top == 0 || exists p :: p in s.rows && s.rows[p].stamp == s.top)
  }

  /** The sequence number of a pair's last change, 0 if it never had one. */
  function LastSeq(s: Store, p: Pair): nat {
    if p in s.rows then s.rows[p].stamp else 0
  }

  predicate IsCurrent(s: Store, p: Pair) {
    p in s.rows && s.rows[p].status == Current
  }

  /** A change to a pair takes the next sequence number; an echo changes nothing and is no step. */
  function Append(s: Store, p: Pair, status: Status): Store {
    s.(rows := s.rows[p := Row(status, s.top + 1)], top := s.top + 1)
  }

  /** `later` is `earlier` after more changes: what it has not stamped anew is as it was. */
  ghost predicate Extends(earlier: Store, later: Store) {
    && earlier.top <= later.top
    && forall p :: LastSeq(later, p) <= earlier.top ==>
         (p in earlier.rows <==> p in later.rows) && (p in later.rows ==> earlier.rows[p] == later.rows[p])
  }

  lemma AppendExtends(s: Store, p: Pair, status: Status)
    requires ValidStore(s)
    ensures ValidStore(Append(s, p, status)) && Extends(s, Append(s, p, status))
    ensures IsCurrent(Append(s, p, status), p) <==> status == Current
    ensures LastSeq(Append(s, p, status), p) == Append(s, p, status).top == s.top + 1
    ensures forall q :: q != p ==>
              && LastSeq(Append(s, p, status), q) == LastSeq(s, q)
              && (IsCurrent(Append(s, p, status), q) <==> IsCurrent(s, q))
  {
    assert Append(s, p, status).rows[p].stamp == s.top + 1;
  }

  lemma ExtendsTransitive(a: Store, b: Store, c: Store)
    requires Extends(a, b) && Extends(b, c)
    ensures Extends(a, c)
  {
    forall p | LastSeq(c, p) <= a.top
      ensures (p in a.rows <==> p in c.rows) && (p in c.rows ==> a.rows[p] == c.rows[p])
    {
      assert LastSeq(b, p) == LastSeq(c, p);
    }
  }

  // ---- The client ----------------------------------------------------------

  /**
   * Owned files in id order (the first has id 1), the mirrored pairs of owned files, the stored
   * cursor and file marker, and the store generation last recorded.
   */
  datatype Client = Client(
    files: seq<Hash>,
    mirror: set<Pair>,
    cursor: Option<nat>,
    marker: Option<nat>,
    generation: Option<string>)

  predicate ValidClient(c: Client) {
    && (forall i, j :: 0 <= i < j < |c.files| ==> c.files[i] != c.files[j])
    && (c.marker.Some? ==> c.marker.value <= |c.files|)
    && (forall p :: p in c.mirror ==> p.hash in c.files)
  }

  /**
   * For every file up to the marker and every tag last changed up to the cursor, the mirror holds
   * the pair exactly when the store says Current.
   */
  ghost predicate Synced(s: Store, c: Client) {
    c.cursor.Some? && c.marker.Some? ==>
      && c.cursor.value <= s.top
      && c.marker.value <= |c.files|
      && forall i, t ::
           0 <= i < c.marker.value && LastSeq(s, Pair(c.files[i], t)) <= c.cursor.value ==>
             (Pair(c.files[i], t) in c.mirror <==> IsCurrent(s, Pair(c.files[i], t)))
  }

  // ---- Planning a pull: one locked read ------------------------------------

  function OrZero(n: Option<nat>): nat {
    match n
    case Some(v) => v
    case None => 0
  }

  function KeysOf(files: seq<Hash>, bits: nat): (keys: seq<string>)
    ensures |keys| == |files| && forall i :: 0 <= i < |files| ==> keys[i] == BucketKey(files[i], bits)
  {
    seq(|files|, i requires 0 <= i < |files| => BucketKey(files[i], bits))
  }

  function BucketKeys(files: seq<Hash>, bits: nat): (keys: seq<string>)
    ensures StrictlyAscending(keys)
    ensures forall k :: k in keys <==> exists i :: 0 <= i < |files| && BucketKey(files[i], bits) == k
  {
    SortDedup(KeysOf(files, bits))
  }

  /** What is asked for: bucket keys, the cursor for each, and what the read saw. */
  datatype Plan = Plan(bits: nat, keys: seq<string>, since: seq<nat>, stored: Option<nat>, marker: nat)

  /** A bucket with a file past the marker is asked for from the start, and so is all without a marker. */
  function Since(keys: seq<string>, newKeys: seq<string>, cursor: Option<nat>, marker: Option<nat>): (since: seq<nat>)
    ensures |since| == |keys|
  {
    seq(|keys|, i requires 0 <= i < |keys| =>
      if marker.None? || keys[i] in newKeys then 0 else OrZero(cursor))
  }

  function NewFiles(c: Client): seq<Hash> {
    if OrZero(c.marker) <= |c.files| then c.files[OrZero(c.marker)..] else []
  }

  /** A file past the marker lies in this bucket. */
  ghost predicate HasNewFile(c: Client, bits: nat, key: string) {
    exists k :: OrZero(c.marker) <= k < |c.files| && BucketKey(c.files[k], bits) == key
  }

  lemma NewFileKeys(c: Client, bits: nat, key: string)
    requires OrZero(c.marker) <= |c.files|
    ensures key in BucketKeys(NewFiles(c), bits) <==> HasNewFile(c, bits, key)
  {
    var files, from := NewFiles(c), OrZero(c.marker);
    forall k | from <= k < |c.files|
      ensures files[k - from] == c.files[k]
    {
    }
    assert HasNewFile(c, bits, key) <==> exists i :: 0 <= i < |files| && BucketKey(files[i], bits) == key by {
      if i :| 0 <= i < |files| && BucketKey(files[i], bits) == key {
        assert BucketKey(c.files[from + i], bits) == key;
      }
      if k :| from <= k < |c.files| && BucketKey(c.files[k], bits) == key {
        assert BucketKey(files[k - from], bits) == key;
      }
    }
  }

  function MakePlan(c: Client, bits: nat): Plan {
    var keys := BucketKeys(c.files, bits);
    var newKeys := BucketKeys(NewFiles(c), bits);
    Plan(bits, keys, Since(keys, newKeys, c.cursor, c.marker), c.cursor, |c.files|)
  }

  // ---- What the server sends -----------------------------------------------

  datatype Change = Change(pair: Pair, status: Status)

  /** The server and the merge both re-bucket a key and scan its range in string order. */
  predicate Covers(key: string, bits: nat, h: Hash) {
    match ParseHash(key)
    case Some(lo) => InRange(h, BucketKey(lo, bits), BucketUpper(lo, bits))
    case None => false
  }

  lemma CoversItsBucket(g: Hash, bits: nat, h: Hash)
    ensures Covers(BucketKey(g, bits), bits, h) <==> BucketKey(h, bits) == BucketKey(g, bits)
  {
    KeyReparses(g, bits);
    RangeIsBucket(h, g, bits);
  }

  ghost predicate IsKey(key: string, bits: nat) {
    exists g: Hash :: key == BucketKey(g, bits)
  }

  /** Each the key of some hash at this width, in ascending order. */
  ghost predicate AreKeys(keys: seq<string>, bits: nat) {
    StrictlyAscending(keys) && forall j :: 0 <= j < |keys| ==> IsKey(keys[j], bits)
  }

  lemma BucketKeysAreKeys(files: seq<Hash>, bits: nat)
    ensures AreKeys(BucketKeys(files, bits), bits)
  {
    var keys := BucketKeys(files, bits);
    forall j | 0 <= j < |keys|
      ensures IsKey(keys[j], bits)
    {
      assert keys[j] in keys;
      var i :| 0 <= i < |files| && BucketKey(files[i], bits) == keys[j];
    }
  }

  lemma CoversIsKey(keys: seq<string>, bits: nat, j: nat, h: Hash)
    requires AreKeys(keys, bits) && j < |keys|
    ensures Covers(keys[j], bits, h) <==> BucketKey(h, bits) == keys[j]
  {
    assert IsKey(keys[j], bits);
    var g: Hash :| keys[j] == BucketKey(g, bits);
    CoversItsBucket(g, bits, h);
  }

  /** A row newer than `since`, as the store has it. */
  predicate Reports(s: Store, since: nat, c: Change) {
    c.pair in s.rows && s.rows[c.pair].stamp > since && c.status == s.rows[c.pair].status
  }

  predicate DistinctPairs(changes: seq<Change>) {
    forall i, j :: 0 <= i < j < |changes| ==> changes[i].pair != changes[j].pair
  }

  predicate Mentions(changes: seq<Change>, p: Pair) {
    exists i :: 0 <= i < |changes| && changes[i].pair == p
  }

  /** A newer row of one of the buckets read. */
  ghost predicate Backed(bits: nat, keys: seq<string>, since: seq<nat>, versions: seq<Store>, c: Change)
    requires |versions| <= |keys| == |since|
  {
    exists j :: 0 <= j < |versions| && Covers(keys[j], bits, c.pair.hash) && Reports(versions[j], since[j], c)
  }

  /** Every newer row of the buckets read is among the changes. */
  ghost predicate AllMentioned(bits: nat, keys: seq<string>, since: seq<nat>, versions: seq<Store>,
                               changes: seq<Change>)
    requires |versions| <= |keys| == |since|
  {
    forall j, p: Pair :: 0 <= j < |versions| && Covers(keys[j], bits, p.hash) && LastSeq(versions[j], p) > since[j] ==>
      Mentions(changes, p)
  }

  /**
   * The first `|versions|` buckets have been read, bucket `j` from the store as it was at
   * `versions[j]`, and `changes` are exactly their rows newer than `since[j]`, each once, in any
   * order.
   */
  ghost predicate Received(bits: nat, keys: seq<string>, since: seq<nat>, versions: seq<Store>, changes: seq<Change>) {
    && |versions| <= |keys| == |since|
    && DistinctPairs(changes)
    && (forall i :: 0 <= i < |changes| ==> Backed(bits, keys, since, versions, changes[i]))
    && AllMentioned(bits, keys, since, versions, changes)
  }

  /** The reply to one request, for the first `n` keys, read from one version of the store. */
  ghost predicate ChunkReply(s: Store, bits: nat, keys: seq<string>, since: seq<nat>, n: nat, changes: seq<Change>) {
    Received(bits, keys, since, Repeat(s, n), changes)
  }

  // ---- Replies about further buckets ----------------------------------------

  lemma BackedEarlier(bits: nat, keys: seq<string>, since: seq<nat>, versions: seq<Store>, later: seq<Store>, c: Change)
    requires |versions| + |later| <= |keys| == |since| && Backed(bits, keys, since, versions, c)
    ensures Backed(bits, keys, since, versions + later, c)
  {
    var j :| 0 <= j < |versions| && Covers(keys[j], bits, c.pair.hash) && Reports(versions[j], since[j], c);
    assert Reports((versions + later)[j], since[j], c);
  }

  lemma SliceAt<T>(s: seq<T>, d: nat, j: nat)
    requires d + j < |s|
    ensures s[d..][j] == s[d + j]
  {
  }

  lemma BackedAt(bits: nat, keys: seq<string>, since: seq<nat>, versions: seq<Store>, c: Change, j: nat)
    requires j < |versions| <= |keys| == |since|
    requires Covers(keys[j], bits, c.pair.hash) && Reports(versions[j], since[j], c)
    ensures Backed(bits, keys, since, versions, c)
  {
  }

  lemma Backer(bits: nat, keys: seq<string>, since: seq<nat>, versions: seq<Store>, c: Change) returns (j: nat)
    requires |versions| <= |keys| == |since| && Backed(bits, keys, since, versions, c)
    ensures j < |versions| && Covers(keys[j], bits, c.pair.hash) && Reports(versions[j], since[j], c)
  {
    j :| 0 <= j < |versions| && Covers(keys[j], bits, c.pair.hash) && Reports(versions[j], since[j], c);
  }

  lemma BackedLater(bits: nat, keys: seq<string>, since: seq<nat>, versions: seq<Store>, later: seq<Store>, c: Change)
    requires |versions| + |later| <= |keys| == |since|
    requires Backed(bits, keys[|versions|..], since[|versions|..], later, c)
    ensures Backed(bits, keys, since, versions + later, c)
  {
    var d := |versions|;
    var j := Backer(bits, keys[d..], since[d..], later, c);
    SliceAt(keys, d, j);
    SliceAt(since, d, j);
    assert (versions + later)[d + j] == later[j];
    BackedAt(bits, keys, since, versions + later, c, d + j);
  }

  lemma MentionedInLonger(a: seq<Change>, b: seq<Change>, p: Pair)
    requires Mentions(a, p) || Mentions(b, p)
    ensures Mentions(a + b, p)
  {
    if Mentions(a, p) {
      var i :| 0 <= i < |a| && a[i].pair == p;
      assert (a + b)[i].pair == p;
    } else {
      var i :| 0 <= i < |b| && b[i].pair == p;
      assert (a + b)[|a| + i].pair == p;
    }
  }

  /** A backed change lies in the bucket of one of the keys. */
  lemma BackedKey(bits: nat, keys: seq<string>, since: seq<nat>, versions: seq<Store>, c: Change) returns (j: nat)
    requires |versions| <= |keys| == |since| && AreKeys(keys, bits) && Backed(bits, keys, since, versions, c)
    ensures j < |versions| && keys[j] == BucketKey(c.pair.hash, bits)
  {
    j :| 0 <= j < |versions| && Covers(keys[j], bits, c.pair.hash) && Reports(versions[j], since[j], c);
    CoversIsKey(keys, bits, j, c.pair.hash);
  }

  lemma RestAreKeys(keys: seq<string>, bits: nat, d: nat)
    requires AreKeys(keys, bits) && d <= |keys|
    ensures AreKeys(keys[d..], bits)
  {
  }

  lemma PartsDiffer(keys: seq<string>, d: nat, a: nat, b: nat)
    requires StrictlyAscending(keys) && a < d && d + b < |keys|
    ensures keys[a] != keys[d..][b]
  {
    LessIrreflexive(keys[a]);
  }

  /** No pair is reported both for an earlier and for a later part of the key list. */
  lemma PartsAreDisjoint(bits: nat, keys: seq<string>, since: seq<nat>, versions: seq<Store>, later: seq<Store>,
                         x: Change, y: Change)
    requires |versions| + |later| <= |keys| == |since| && AreKeys(keys, bits)
    requires Backed(bits, keys, since, versions, x)
    requires Backed(bits, keys[|versions|..], since[|versions|..], later, y)
    ensures x.pair != y.pair
  {
    var d := |versions|;
    RestAreKeys(keys, bits, d);
    var a := BackedKey(bits, keys, since, versions, x);
    var b := BackedKey(bits, keys[d..], since[d..], later, y);
    PartsDiffer(keys, d, a, b);
  }

  /** The newer rows of the buckets from `lo` up to `hi` are among the changes. */
  ghost predicate MentionedBetween(bits: nat, keys: seq<string>, since: seq<nat>, versions: seq<Store>,
                                   changes: seq<Change>, lo: nat, hi: nat)
    requires hi <= |versions| <= |keys| == |since|
  {
    forall j, p: Pair :: lo <= j < hi && Covers(keys[j], bits, p.hash) && LastSeq(versions[j], p) > since[j] ==>
      Mentions(changes, p)
  }

  lemma FirstMentioned(bits: nat, keys: seq<string>, since: seq<nat>, versions: seq<Store>, later: seq<Store>,
                       first: seq<Change>, second: seq<Change>)
    requires |versions| + |later| <= |keys| == |since| && AllMentioned(bits, keys, since, versions, first)
    ensures MentionedBetween(bits, keys, since, versions + later, first + second, 0, |versions|)
  {
    forall p | Mentions(first, p)
      ensures Mentions(first + second, p)
    {
      MentionedInLonger(first, second, p);
    }
  }

  lemma SecondMentions(bits: nat, keys: seq<string>, since: seq<nat>, d: nat, later: seq<Store>, first: seq<Change>,
                       second: seq<Change>, k: nat, v: Store, p: Pair)
    requires d + |later| <= |keys| == |since| && AllMentioned(bits, keys[d..], since[d..], later, second)
    requires k < |later| && v == later[k] && Covers(keys[d + k], bits, p.hash) && LastSeq(v, p) > since[d + k]
    ensures Mentions(first + second, p)
  {
    SliceAt(keys, d, k);
    SliceAt(since, d, k);
    MentionedInLonger(first, second, p);
  }

  lemma SecondMentioned(bits: nat, keys: seq<string>, since: seq<nat>, versions: seq<Store>, later: seq<Store>,
                        first: seq<Change>, second: seq<Change>)
    requires |versions| + |later| <= |keys| == |since|
    requires AllMentioned(bits, keys[|versions|..], since[|versions|..], later, second)
    ensures MentionedBetween(bits, keys, since, versions + later, first + second, |versions|, |versions + later|)
  {
    var d := |versions|;
    forall j, p: Pair | d <= j < |versions + later| && Covers(keys[j], bits, p.hash)
      && LastSeq((versions + later)[j], p) > since[j]
      ensures Mentions(first + second, p)
    {
      SecondMentions(bits, keys, since, d, later, first, second, j - d, (versions + later)[j], p);
    }
  }

  lemma BothMentioned(bits: nat, keys: seq<string>, since: seq<nat>, all: seq<Store>, changes: seq<Change>, d: nat)
    requires d <= |all| <= |keys| == |since|
    requires MentionedBetween(bits, keys, since, all, changes, 0, d)
    requires MentionedBetween(bits, keys, since, all, changes, d, |all|)
    ensures AllMentioned(bits, keys, since, all, changes)
  {
  }

  lemma BothBacked(bits: nat, keys: seq<string>, since: seq<nat>, versions: seq<Store>, later: seq<Store>,
                   first: seq<Change>, second: seq<Change>)
    requires |versions| + |later| <= |keys| == |since| && AreKeys(keys, bits)
    requires Received(bits, keys, since, versions, first)
    requires Received(bits, keys[|versions|..], since[|versions|..], later, second)
    ensures forall i :: 0 <= i < |first + second| ==> Backed(bits, keys, since, versions + later, (first + second)[i])
  {
    forall i | 0 <= i < |first + second|
      ensures Backed(bits, keys, since, versions + later, (first + second)[i])
    {
      if i < |first| {
        BackedEarlier(bits, keys, since, versions, later, first[i]);
      } else {
        BackedLater(bits, keys, since, versions, later, second[i - |first|]);
      }
    }
  }

  lemma BothDistinct(bits: nat, keys: seq<string>, since: seq<nat>, versions: seq<Store>, later: seq<Store>,
                     first: seq<Change>, second: seq<Change>)
    requires |versions| + |later| <= |keys| == |since| && AreKeys(keys, bits)
    requires Received(bits, keys, since, versions, first)
    requires Received(bits, keys[|versions|..], since[|versions|..], later, second)
    ensures DistinctPairs(first + second)
  {
    forall i, k | 0 <= i < |first| && 0 <= k < |second|
      ensures first[i].pair != second[k].pair
    {
      PartsAreDisjoint(bits, keys, since, versions, later, first[i], second[k]);
    }
  }

  /** A further reply, about the next buckets, is added to what was received. */
  lemma ReceivedAppend(bits: nat, keys: seq<string>, since: seq<nat>, versions: seq<Store>, later: seq<Store>,
                       first: seq<Change>, second: seq<Change>)
    requires |versions| + |later| <= |keys| == |since| && AreKeys(keys, bits)
    requires Received(bits, keys, since, versions, first)
    requires Received(bits, keys[|versions|..], since[|versions|..], later, second)
    ensures Received(bits, keys, since, versions + later, first + second)
  {
    BothBacked(bits, keys, since, versions, later, first, second);
    FirstMentioned(bits, keys, since, versions, later, first, second);
    SecondMentioned(bits, keys, since, versions, later, first, second);
    BothMentioned(bits, keys, since, versions + later, first + second, |versions|);
    BothDistinct(bits, keys, since, versions, later, first, second);
  }

  // ---- The merge: one locked write -----------------------------------------

  /** Buckets asked for from the start are authoritative. */
  ghost predicate InFullBucket(plan: Plan, h: Hash)
    requires |plan.since| == |plan.keys|
  {
    exists j :: 0 <= j < |plan.keys| && plan.since[j] == 0 && Covers(plan.keys[j], plan.bits, h)
  }

  ghost function Clear(mirror: set<Pair>, plan: Plan): set<Pair>
    requires |plan.since| == |plan.keys|
  {
    set p | p in mirror && !InFullBucket(plan, p.hash)
  }

  /** Rows of files that are not owned are skipped. */
  function ApplyChange(mirror: set<Pair>, files: seq<Hash>, c: Change): set<Pair> {
    if c.pair.hash !in files then mirror
    else if c.status == Current then mirror + {c.pair}
    else mirror - {c.pair}
  }

  function ApplyChanges(mirror: set<Pair>, files: seq<Hash>, changes: seq<Change>): set<Pair> {
    if changes == [] then mirror
    else ApplyChange(ApplyChanges(mirror, files, changes[..|changes| - 1]), files, changes[|changes| - 1])
  }

  ghost function MergeDelta(c: Client, plan: Plan, changes: seq<Change>, cursor: nat): Client
    requires |plan.since| == |plan.keys|
  {
    c.(mirror := ApplyChanges(Clear(c.mirror, plan), c.files, changes), cursor := Some(cursor),
       marker := Some(plan.marker))
  }

  /** Each pair ends as its one change says, or as it was. */
  lemma {:induction false} ApplyChangesAt(mirror: set<Pair>, files: seq<Hash>, changes: seq<Change>, p: Pair)
    requires DistinctPairs(changes)
    ensures !Mentions(changes, p) || p.hash !in files ==> (p in ApplyChanges(mirror, files, changes) <==> p in mirror)
    ensures forall i :: 0 <= i < |changes| && changes[i].pair == p && p.hash in files ==>
              (p in ApplyChanges(mirror, files, changes) <==> changes[i].status == Current)
  {
    if changes != [] {
      var front, last := changes[..|changes| - 1], changes[|changes| - 1];
      ApplyChangesAt(mirror, files, front, p);
      assert last.pair == p ==> Mentions(changes, p);
      if Mentions(front, p) {
        var i :| 0 <= i < |front| && front[i].pair == p;
        assert changes[i].pair == p;
      }
    }
  }

  /**
   * What the merge makes of one pair of an owned file in bucket `j`: a row newer than what was
   * asked for decides; otherwise a full bucket drops the pair and any other leaves it.
   */
  lemma MergedPair(c: Client, plan: Plan, versions: seq<Store>, changes: seq<Change>, cursor: nat, j: nat, p: Pair)
    requires AreKeys(plan.keys, plan.bits) && Received(plan.bits, plan.keys, plan.since, versions, changes)
    requires |versions| == |plan.keys|
    requires j < |plan.keys| && plan.keys[j] == BucketKey(p.hash, plan.bits) && p.hash in c.files
    ensures p in MergeDelta(c, plan, changes, cursor).mirror <==>
              if LastSeq(versions[j], p) > plan.since[j] then IsCurrent(versions[j], p)
              else plan.since[j] != 0 && p in c.mirror
  {
    var start := Clear(c.mirror, plan);
    forall k | 0 <= k < |plan.keys|
      ensures Covers(plan.keys[k], plan.bits, p.hash) <==> k == j
    {
      CoversIsKey(plan.keys, plan.bits, k, p.hash);
      if plan.keys[k] == plan.keys[j] {
        AscendingDistinct(plan.keys, k, j);
      }
    }
    ApplyChangesAt(start, c.files, changes, p);
    assert InFullBucket(plan, p.hash) <==> plan.since[j] == 0;
    if Mentions(changes, p) {
      var i :| 0 <= i < |changes| && changes[i].pair == p;
      assert Reports(versions[j], plan.since[j], changes[i]);
    }
  }

  // ---- A bucket asked for from the start -----------------------------------

  /** The mirror of a file in a full bucket becomes the store as it was fetched, whatever was there. */
  lemma FullBucketIsExact(c: Client, plan: Plan, versions: seq<Store>, changes: seq<Change>, cursor: nat, j: nat,
                          p: Pair)
    requires AreKeys(plan.keys, plan.bits) && Received(plan.bits, plan.keys, plan.since, versions, changes)
    requires |versions| == |plan.keys|
    requires j < |plan.keys| && plan.keys[j] == BucketKey(p.hash, plan.bits) && p.hash in c.files
    requires plan.since[j] == 0 && ValidStore(versions[j])
    ensures p in MergeDelta(c, plan, changes, cursor).mirror <==> IsCurrent(versions[j], p)
  {
    MergedPair(c, plan, versions, changes, cursor, j, p);
  }

  // ---- The merge theorem ---------------------------------------------------

  /** A bucket is asked for incrementally only if none of its files lies past the stored marker. */
  ghost predicate PlanFits(c: Client, plan: Plan) {
    && plan.marker <= |c.files|
    && plan.keys == BucketKeys(c.files[..plan.marker], plan.bits)
    && |plan.since| == |plan.keys|
    && plan.stored == c.cursor
    && forall j :: 0 <= j < |plan.keys| && plan.since[j] != 0 ==>
         && c.cursor == Some(plan.since[j]) && c.marker.Some?
         && forall i :: c.marker.value <= i < plan.marker ==> BucketKey(c.files[i], plan.bits) != plan.keys[j]
  }

  lemma MakePlanFits(c: Client, bits: nat)
    requires ValidClient(c)
    ensures PlanFits(c, MakePlan(c, bits)) && AreKeys(MakePlan(c, bits).keys, bits)
  {
    var plan := MakePlan(c, bits);
    assert c.files[..plan.marker] == c.files;
    BucketKeysAreKeys(c.files, bits);
    forall j | 0 <= j < |plan.keys| && plan.since[j] != 0
      ensures c.cursor == Some(plan.since[j]) && c.marker.Some?
      ensures forall i :: c.marker.value <= i < plan.marker ==> BucketKey(c.files[i], plan.bits) != plan.keys[j]
    {
      var newFiles := NewFiles(c);
      assert plan.keys[j] !in BucketKeys(newFiles, bits);
      forall i | c.marker.value <= i < plan.marker
        ensures BucketKey(c.files[i], plan.bits) != plan.keys[j]
      {
        assert newFiles[i - c.marker.value] == c.files[i];
      }
    }
  }

  /** Every file the plan covers has its bucket in the plan. */
  lemma FileHasKey(c: Client, plan: Plan, i: nat) returns (j: nat)
    requires PlanFits(c, plan) && i < plan.marker
    ensures j < |plan.keys| && plan.keys[j] == BucketKey(c.files[i], plan.bits)
  {
    var files := c.files[..plan.marker];
    assert files[i] == c.files[i];
    assert BucketKey(files[i], plan.bits) in plan.keys;
    j :| 0 <= j < |plan.keys| && plan.keys[j] == BucketKey(c.files[i], plan.bits);
  }

  /** The returned cursor is no later than any version a bucket was read from. */
  predicate CursorBelow(cursor: nat, versions: seq<Store>) {
    forall j :: 0 <= j < |versions| ==> cursor <= versions[j].top
  }

  /**
   * Merging a fetch keeps the mirror in step with the store, however the store grew while the
   * buckets were being read and since, whatever files were imported and whatever else happened to
   * the mirror meanwhile, as long as it was in step when the merge took the lock, or every bucket
   * was asked for from the start.
   */
  lemma MergeSyncs(s: Store, c: Client, plan: Plan, versions: seq<Store>, changes: seq<Change>, cursor: nat)
    requires ValidClient(c) && PlanFits(c, plan) && AreKeys(plan.keys, plan.bits)
    requires Received(plan.bits, plan.keys, plan.since, versions, changes) && |versions| == |plan.keys|
    requires forall j :: 0 <= j < |versions| ==> ValidStore(versions[j]) && Extends(versions[j], s)
    requires CursorBelow(cursor, versions) && cursor <= s.top
    requires Synced(s, c) || forall j :: 0 <= j < |plan.since| ==> plan.since[j] == 0
    ensures Synced(s, MergeDelta(c, plan, changes, cursor))
  {
    var c' := MergeDelta(c, plan, changes, cursor);
    forall i, t | 0 <= i < plan.marker && LastSeq(s, Pair(c.files[i], t)) <= cursor
      ensures Pair(c.files[i], t) in c'.mirror <==> IsCurrent(s, Pair(c.files[i], t))
    {
      var p := Pair(c.files[i], t);
      var j := FileHasKey(c, plan, i);
      MergedPair(c, plan, versions, changes, cursor, j, p);
      assert LastSeq(s, p) <= versions[j].top;
      assert LastSeq(versions[j], p) == LastSeq(s, p) && (IsCurrent(versions[j], p) <==> IsCurrent(s, p));
    }
  }

  // ---- Pulling one file ----------------------------------------------------

  /** The current tags of `h` in its bucket's range. */
  function SnapshotTags(s: Store, bits: nat, h: Hash): set<Tag> {
    set p | p in s.rows && IsCurrent(s, p) && Covers(BucketKey(h, bits), bits, p.hash) && p.hash == h :: p.tag
  }

  lemma SnapshotIsCurrent(s: Store, bits: nat, h: Hash, t: Tag)
    ensures t in SnapshotTags(s, bits, h) <==> IsCurrent(s, Pair(h, t))
  {
    CoversItsBucket(h, bits, h);
    if IsCurrent(s, Pair(h, t)) {
      assert Pair(h, t).tag in SnapshotTags(s, bits, h);
    }
  }

  /** The file-scoped merge replaces the tags of one owned file and leaves cursor and marker alone. */
  function MergeFile(c: Client, h: Hash, tags: set<Tag>): Client {
    if h in c.files then
      c.(mirror := (set p | p in c.mirror && p.hash != h) + (set t | t in tags :: Pair(h, t)))
    else c
  }

  lemma MergeFileAt(c: Client, h: Hash, tags: set<Tag>, p: Pair)
    requires h in c.files
    ensures p in MergeFile(c, h, tags).mirror <==> if p.hash == h then p.tag in tags else p in c.mirror
  {
    if p.hash == h && p.tag in tags {
      assert Pair(h, p.tag) == p;
    }
  }

  function TagsIn(entries: map<Hash, set<Tag>>, h: Hash): set<Tag> {
    if h in entries then entries[h] else {}
  }

  /** Several files at once, one after the other. */
  function MergeFiles(c: Client, hashes: seq<Hash>, entries: map<Hash, set<Tag>>): Client {
    if hashes == [] then c
    else
      var last := hashes[|hashes| - 1];
      MergeFile(MergeFiles(c, hashes[..|hashes| - 1], entries), last, TagsIn(entries, last))
  }

  /** Every requested file that is owned ends with exactly its entries; every other pair stays. */
  lemma {:induction false} MergeFilesAt(c: Client, hashes: seq<Hash>, entries: map<Hash, set<Tag>>, p: Pair)
    ensures MergeFiles(c, hashes, entries) == c.(mirror := MergeFiles(c, hashes, entries).mirror)
    ensures p in MergeFiles(c, hashes, entries).mirror <==>
              if p.hash in hashes && p.hash in c.files then p.tag in TagsIn(entries, p.hash) else p in c.mirror
  {
    if hashes != [] {
      var front, last := hashes[..|hashes| - 1], hashes[|hashes| - 1];
      MergeFilesAt(c, front, entries, p);
      assert hashes == front + [last];
      if last in c.files {
        MergeFileAt(MergeFiles(c, front, entries), last, TagsIn(entries, last), p);
      }
    }
  }

  /** Up to the cursor, the file has in `s` the tags it had in `seen`; past the marker nothing is asked. */
  ghost predicate AgreesUpTo(s: Store, c: Client, seen: Store, h: Hash) {
    c.cursor.Some? && c.marker.Some? ==>
      forall i, t ::
        0 <= i < c.marker.value && i < |c.files| && c.files[i] == h && LastSeq(s, Pair(h, t)) <= c.cursor.value ==>
          (IsCurrent(seen, Pair(h, t)) <==> IsCurrent(s, Pair(h, t)))
  }

  lemma MergedFileAt(c: Client, seen: Store, bits: nat, h: Hash, p: Pair)
    requires p.hash in c.files
    ensures p in MergeFile(c, h, SnapshotTags(seen, bits, h)).mirror <==>
              if p.hash == h then IsCurrent(seen, p) else p in c.mirror
  {
    if h in c.files {
      MergeFileAt(c, h, SnapshotTags(seen, bits, h), p);
    }
    SnapshotIsCurrent(seen, bits, h, p.tag);
    assert Pair(p.hash, p.tag) == p;
  }

  /** Exactly when a file-scoped merge keeps the mirror in step, whatever version of the store was read. */
  lemma FileMergeExact(s: Store, c: Client, seen: Store, bits: nat, h: Hash)
    requires Synced(s, c)
    ensures Synced(s, MergeFile(c, h, SnapshotTags(seen, bits, h))) <==> AgreesUpTo(s, c, seen, h)
  {
    forall i, t | 0 <= i < |c.files|
      ensures var p := Pair(c.files[i], t);
              p in MergeFile(c, h, SnapshotTags(seen, bits, h)).mirror <==>
                  if c.files[i] == h then IsCurrent(seen, p) else p in c.mirror
    {
      MergedFileAt(c, seen, bits, h, Pair(c.files[i], t));
    }
  }

  /** If the store has only grown since the read, only tags changed since then and up to the cursor matter. */
  lemma OnlyTheGapMatters(s: Store, c: Client, seen: Store, i: nat)
    requires ValidClient(c) && Extends(seen, s) && c.cursor.Some? && c.marker.Some? && i < |c.files|
    ensures AgreesUpTo(s, c, seen, c.files[i]) <==>
              (i < c.marker.value ==>
                forall t :: seen.top < LastSeq(s, Pair(c.files[i], t)) <= c.cursor.value ==>
                  (IsCurrent(seen, Pair(c.files[i], t)) <==> IsCurrent(s, Pair(c.files[i], t))))
  {
    forall t | LastSeq(s, Pair(c.files[i], t)) <= seen.top
      ensures IsCurrent(seen, Pair(c.files[i], t)) <==> IsCurrent(s, Pair(c.files[i], t))
    {
    }
    if i < c.marker.value && AgreesUpTo(s, c, seen, c.files[i]) {
      forall t | seen.top < LastSeq(s, Pair(c.files[i], t)) <= c.cursor.value
        ensures IsCurrent(seen, Pair(c.files[i], t)) <==> IsCurrent(s, Pair(c.files[i], t))
      {
      }
    }
  }

  /** In particular nothing matters while the stored cursor has not passed the version read. */
  lemma NoGapAgrees(s: Store, c: Client, seen: Store, h: Hash)
    requires Extends(seen, s) && (c.cursor.Some? ==> c.cursor.value <= seen.top)
    ensures AgreesUpTo(s, c, seen, h)
  {
  }

  // ---- Store generations ---------------------------------------------------

  /** Forget the cursors when the store's generation is not the recorded one; record the first seen. */
  function ReconcileGeneration(c: Client, advertised: Option<string>): Client {
    match advertised
    case None => c
    case Some(g) =>
      if c.generation.Some? && c.generation.value != g then
        c.(cursor := None, marker := None, generation := Some(g))
      else if c.generation.None? then c.(generation := Some(g))
      else c
  }

  // ---- A library of one file -----------------------------------------------

  lemma OneBucket(h: Hash)
    ensures BucketKeys([h], 0) == [BucketKey(h, 0)]
  {
    var keys := BucketKeys([h], 0);
    var k := BucketKey(h, 0);
    assert BucketKey([h][0], 0) == k;
    assert k in keys;
    forall i | 0 <= i < |keys|
      ensures keys[i] == k
    {
      assert keys[i] in keys;
    }
    if |keys| > 1 {
      AscendingDistinct(keys, 0, 1);
    }
  }

  /** A store with one row answers a request for its bucket with that row. */
  lemma OneRowReply(s: Store, p: Pair)
    requires s.rows.Keys == {p} && s.rows[p].stamp > 0
    ensures ChunkReply(s, 0, [BucketKey(p.hash, 0)], [0], 1, [Change(p, s.rows[p].status)])
  {
    var reply := [Change(p, s.rows[p].status)];
    CoversItsBucket(p.hash, 0, p.hash);
    assert Covers([BucketKey(p.hash, 0)][0], 0, p.hash) && Reports(Repeat(s, 1)[0], [0][0], reply[0]);
    assert Backed(0, [BucketKey(p.hash, 0)], [0], Repeat(s, 1), reply[0]);
    forall q: Pair | LastSeq(s, q) > 0
      ensures Mentions(reply, q)
    {
      assert reply[0].pair == q;
    }
  }

  /** Without newer rows the answer is empty. */
  lemma NoNewsReply(s: Store, h: Hash, since: nat)
    requires forall p :: p in s.rows ==> s.rows[p].stamp <= since
    ensures ChunkReply(s, 0, [BucketKey(h, 0)], [since], 1, [])
  {
  }
}
