/**
 * Runs of the mirror protocol: imports, store changes, store re-seeds, delta pulls fetched chunk
 * by chunk off the lock, and file pulls that overlap them in any way. At most one delta pull of
 * the service is in flight.
 */
module PullRuns {
  import opened Wrappers
  import opened Sequences
  import opened Hashes
  import opened Tags
  import opened Pull

  /** The handshake, kept for the life of the daemon. */
  datatype Caps = NotFetched | Fetched(generation: Option<string>)

  /** A delta pull between its locked read and its merge; one version for each bucket read so far. */
  datatype Fetch = Fetch(
    plan: Plan,
    versions: seq<Store>,
    changes: seq<Change>,
    cursor: Option<nat>,
    retried: bool,
    checked: bool)

  /** A file pull between its fetch and its merge. */
  datatype FileFetch = FileFetch(hash: Hash, bits: nat, tags: set<Tag>, seen: Store)

  datatype State = State(
    store: Store,
    client: Client,
    caps: Caps,
    pull: Option<Fetch>,
    fileFetches: seq<FileFetch>)

  datatype Event =
    | Import(hash: Hash)
    | StoreChange(pair: Pair, status: Status)
    | Grow(later: Store)
    | Reseed(next: Store)
    | Restart
    | FetchCaps
    | Reconcile
    | Begin(bits: nat)
    | FetchChunk(n: nat, reply: seq<Change>)
    | CheckCursor
    | Merge
    | Abort
    | FileRead(file: Hash, width: nat)
    | FileWrite(id: nat)

  // ---- The steps -----------------------------------------------------------

  /** The recorded generation is the one the handshake announced. */
  predicate Reconciled(st: State) {
    st.caps.Fetched? && (st.caps.generation.Some? ==> st.client.generation == st.caps.generation)
  }

  /** The same store after any number of changes. */
  ghost predicate GrowsTo(s: Store, later: Store) {
    ValidStore(later) && Extends(s, later) && later.generation == s.generation
  }

  /** Every bucket has been read; a pull without buckets still makes one request, for the cursor. */
  predicate Complete(f: Fetch) {
    |f.versions| == |f.plan.keys| && f.cursor.Some?
  }

  /** The next request, for any number of keys. */
  ghost predicate ChunkEnabled(s: Store, f: Fetch, n: nat, reply: seq<Change>) {
    var d := |f.versions|;
    && !f.checked
    && d + n <= |f.plan.keys| == |f.plan.since|
    && ChunkReply(s, f.plan.bits, f.plan.keys[d..], f.plan.since[d..], n, reply)
  }

  ghost predicate Enabled(st: State, e: Event) {
    match e
    case Import(h) => h !in st.client.files
    case StoreChange(p, status) => true
    case Grow(later) => GrowsTo(st.store, later)
    case Reseed(next) => ValidStore(next)
    case Restart => true
    case FetchCaps => st.caps.NotFetched?
    case Reconcile => st.caps.Fetched?
    case Begin(bits) => st.pull.None? && Reconciled(st)
    case FetchChunk(n, reply) => st.pull.Some? && ChunkEnabled(st.store, st.pull.value, n, reply)
    case CheckCursor => st.pull.Some? && Complete(st.pull.value) && !st.pull.value.checked
    case Merge =>
      st.pull.Some? && Complete(st.pull.value) && st.pull.value.checked
        && |st.pull.value.plan.since| == |st.pull.value.plan.keys|
    case Abort => st.pull.Some?
    case FileRead(h, bits) => st.caps.Fetched?
    case FileWrite(i) => i < |st.fileFetches|
  }

  function Min(a: Option<nat>, b: nat): nat {
    if a.Some? && a.value < b then a.value else b
  }

  /** The reply's rows are kept and the lower of the cursors counts. */
  function TakeChunk(f: Fetch, s: Store, n: nat, reply: seq<Change>): Fetch {
    f.(versions := f.versions + Repeat(s, n), changes := f.changes + reply, cursor := Some(Min(f.cursor, s.top)))
  }

  /** A cursor behind the stored one means the store was rebuilt: ask for everything, once. */
  function CheckFetch(f: Fetch): Fetch
    requires f.cursor.Some?
  {
    if !f.retried && f.plan.stored.Some? && f.cursor.value < f.plan.stored.value then
      Fetch(f.plan.(since := Repeat(0, |f.plan.keys|)), [], [], None, true, false)
    else f.(checked := true)
  }

  ghost function Step(st: State, e: Event): State
    requires Enabled(st, e)
  {
    match e
    case Import(h) => st.(client := st.client.(files := st.client.files + [h]))
    case StoreChange(p, status) => st.(store := Append(st.store, p, status))
    case Grow(later) => st.(store := later)
    case Reseed(next) => st.(store := next)
    case Restart => st.(caps := NotFetched, pull := None, fileFetches := [])
    case FetchCaps => st.(caps := Fetched(st.store.generation))
    case Reconcile => st.(client := ReconcileGeneration(st.client, st.caps.generation))
    case Begin(bits) => st.(pull := Some(Fetch(MakePlan(st.client, bits), [], [], None, false, false)))
    case FetchChunk(n, reply) => st.(pull := Some(TakeChunk(st.pull.value, st.store, n, reply)))
    case CheckCursor => st.(pull := Some(CheckFetch(st.pull.value)))
    case Merge =>
      var f := st.pull.value;
      st.(client := MergeDelta(st.client, f.plan, f.changes, f.cursor.value), pull := None)
    case Abort => st.(pull := None)
    case FileRead(h, bits) =>
      st.(fileFetches := st.fileFetches + [FileFetch(h, bits, SnapshotTags(st.store, bits, h), st.store)])
    case FileWrite(i) =>
      var ff := st.fileFetches[i];
      st.(client := MergeFile(st.client, ff.hash, ff.tags),
          fileFetches := st.fileFetches[..i] + st.fileFetches[i + 1..])
  }

  // ---- What holds however the store behaves --------------------------------

  ghost predicate FetchInv(st: State, f: Fetch) {
    && PlanFits(st.client, f.plan) && AreKeys(f.plan.keys, f.plan.bits)
    && Received(f.plan.bits, f.plan.keys, f.plan.since, f.versions, f.changes)
    && (forall j :: 0 <= j < |f.versions| ==> ValidStore(f.versions[j]))
    && (if f.cursor.Some? then CursorBelow(f.cursor.value, f.versions) else f.versions == [])
    && Reconciled(st)
  }

  ghost predicate FilesInv(st: State) {
    forall i :: 0 <= i < |st.fileFetches| ==>
      && ValidStore(st.fileFetches[i].seen)
      && st.fileFetches[i].tags == SnapshotTags(st.fileFetches[i].seen, st.fileFetches[i].bits, st.fileFetches[i].hash)
  }

  ghost predicate Basic(st: State) {
    && ValidStore(st.store) && ValidClient(st.client) && FilesInv(st)
    && (st.pull.Some? ==> FetchInv(st, st.pull.value))
  }

  lemma ChunkKeepsFetch(st: State, f: Fetch, n: nat, reply: seq<Change>)
    requires FetchInv(st, f) && ValidStore(st.store) && ChunkEnabled(st.store, f, n, reply)
    ensures FetchInv(st, TakeChunk(f, st.store, n, reply))
  {
    ReceivedAppend(f.plan.bits, f.plan.keys, f.plan.since, f.versions, Repeat(st.store, n), f.changes, reply);
  }

  lemma FreshFetch(st: State, plan: Plan, retried: bool)
    requires PlanFits(st.client, plan) && AreKeys(plan.keys, plan.bits) && Reconciled(st)
    ensures FetchInv(st, Fetch(plan, [], [], None, retried, false))
  {
  }

  lemma ImportKeepsPlan(c: Client, plan: Plan, h: Hash)
    requires PlanFits(c, plan)
    ensures PlanFits(c.(files := c.files + [h]), plan)
  {
    assert (c.files + [h])[..plan.marker] == c.files[..plan.marker];
  }

  /** A merge leaves a valid client, whatever was fetched. */
  lemma {:induction false} AppliedAreOwned(mirror: set<Pair>, files: seq<Hash>, changes: seq<Change>)
    requires forall p :: p in mirror ==> p.hash in files
    ensures forall p :: p in ApplyChanges(mirror, files, changes) ==> p.hash in files
  {
    if changes != [] {
      AppliedAreOwned(mirror, files, changes[..|changes| - 1]);
    }
  }

  lemma MergeKeepsClient(c: Client, plan: Plan, changes: seq<Change>, cursor: nat)
    requires ValidClient(c) && PlanFits(c, plan)
    ensures ValidClient(MergeDelta(c, plan, changes, cursor))
  {
    AppliedAreOwned(Clear(c.mirror, plan), c.files, changes);
  }

  lemma FileMergeKeepsClient(c: Client, h: Hash, tags: set<Tag>)
    requires ValidClient(c)
    ensures ValidClient(MergeFile(c, h, tags))
  {
    if h in c.files {
      forall p | p in MergeFile(c, h, tags).mirror
        ensures p.hash in c.files
      {
        MergeFileAt(c, h, tags, p);
      }
    }
  }

  lemma FilesKept(st: State, e: Event)
    requires FilesInv(st) && ValidStore(st.store) && Enabled(st, e)
    ensures FilesInv(Step(st, e))
  {
  }

  lemma ClientKept(st: State, e: Event)
    requires Basic(st) && Enabled(st, e)
    ensures ValidClient(Step(st, e).client)
  {
    match e {
      case Merge =>
        var f := st.pull.value;
        MergeKeepsClient(st.client, f.plan, f.changes, f.cursor.value);
      case FileWrite(i) =>
        FileMergeKeepsClient(st.client, st.fileFetches[i].hash, st.fileFetches[i].tags);
      case _ =>
    }
  }

  lemma FetchKept(st: State, e: Event)
    requires Basic(st) && Enabled(st, e) && Step(st, e).pull.Some?
    ensures FetchInv(Step(st, e), Step(st, e).pull.value)
  {
    match e {
      case Import(h) => ImportKeepsPlan(st.client, st.pull.value.plan, h);
      case Begin(bits) =>
        MakePlanFits(st.client, bits);
        FreshFetch(st, MakePlan(st.client, bits), false);
      case FetchChunk(n, reply) => ChunkKeepsFetch(st, st.pull.value, n, reply);
      case CheckCursor =>
        var f := st.pull.value;
        FreshFetch(st, f.plan.(since := Repeat(0, |f.plan.keys|)), true);
      case _ =>
    }
  }

  /** The bookkeeping of a pull survives every step, re-seeds and restarts included. */
  lemma BasicKept(st: State, e: Event)
    requires Basic(st) && Enabled(st, e)
    ensures Basic(Step(st, e))
  {
    if e.StoreChange? {
      AppendExtends(st.store, e.pair, e.status);
    }
    FilesKept(st, e);
    ClientKept(st, e);
    if Step(st, e).pull.Some? {
      FetchKept(st, e);
    }
  }

  // ---- Runs ----------------------------------------------------------------

  ghost predicate CanRun(st: State, events: seq<Event>)
    decreases |events|
  {
    events == [] || (Enabled(st, events[0]) && CanRun(Step(st, events[0]), events[1..]))
  }

  ghost function After(st: State, events: seq<Event>): State
    requires CanRun(st, events)
    decreases |events|
  {
    if events == [] then st else After(Step(st, events[0]), events[1..])
  }

  /** Before the first pull: any store, any owned files, nothing mirrored. */
  predicate IsStart(st: State) {
    && ValidStore(st.store) && ValidClient(st.client)
    && st.client.mirror == {} && st.client.cursor.None? && st.client.marker.None?
    && st.caps.NotFetched? && st.pull.None? && st.fileFetches == []
  }

  lemma {:induction false} RunKeepsBasic(st: State, events: seq<Event>)
    requires Basic(st) && CanRun(st, events)
    ensures Basic(After(st, events))
    decreases |events|
  {
    if events != [] {
      BasicKept(st, events[0]);
      RunKeepsBasic(Step(st, events[0]), events[1..]);
    }
  }

  lemma RunCons(st: State, e: Event, rest: seq<Event>)
    requires Enabled(st, e) && CanRun(Step(st, e), rest)
    ensures CanRun(st, [e] + rest) && After(st, [e] + rest) == After(Step(st, e), rest)
  {
    assert ([e] + rest)[1..] == rest;
  }

  lemma {:induction false} RunConcat(st: State, first: seq<Event>, rest: seq<Event>)
    requires CanRun(st, first) && CanRun(After(st, first), rest)
    ensures CanRun(st, first + rest) && After(st, first + rest) == After(After(st, first), rest)
    decreases |first|
  {
    if first == [] {
      assert first + rest == rest;
    } else {
      RunConcat(Step(st, first[0]), first[1..], rest);
      assert first + rest == [first[0]] + (first[1..] + rest);
      RunCons(st, first[0], first[1..] + rest);
    }
  }

  /** An empty store, no files, no pull. */
  const NOTHING := State(Store(map[], 0, None), Client([], {}, None, None, None), NotFetched, None, [])

  /** A store that has seen one pair being added. */
  function Added(p: Pair): Store {
    Store(map[p := Row(Current, 1)], 1, None)
  }

  // ---- A store that only grows ---------------------------------------------

  /** What the pull in flight has read, it has read from earlier versions of the store. */
  ghost predicate PullInStep(st: State) {
    st.pull.Some? ==>
      && (forall j :: 0 <= j < |st.pull.value.versions| ==> Extends(st.pull.value.versions[j], st.store))
      && (st.pull.value.cursor.Some? ==> st.pull.value.cursor.value <= st.store.top)
  }

  /** So have the file pulls that wait to be written. */
  ghost predicate FilesInStep(st: State) {
    forall i :: 0 <= i < |st.fileFetches| ==> Extends(st.fileFetches[i].seen, st.store)
  }

  /** The mirror is in step, and so is the pull in flight. */
  ghost predicate MirrorInv(st: State) {
    Basic(st) && PullInStep(st) && Synced(st.store, st.client)
  }

  ghost predicate SyncInv(st: State) {
    MirrorInv(st) && FilesInStep(st)
  }

  /** The store is still one that the version `seen` grew into. */
  ghost predicate StillGrowing(seen: Store, st: State, e: Event)
    requires Enabled(st, e)
  {
    Extends(seen, st.store) ==> Extends(seen, Step(st, e).store)
  }

  lemma StoreGrows(seen: Store, st: State, e: Event)
    requires ValidStore(st.store) && Enabled(st, e) && !e.Reseed?
    ensures StillGrowing(seen, st, e) && st.store.top <= Step(st, e).store.top
  {
    if Extends(seen, st.store) {
      match e {
        case StoreChange(p, status) =>
          AppendExtends(st.store, p, status);
          ExtendsTransitive(seen, st.store, Append(st.store, p, status));
        case Grow(later) => ExtendsTransitive(seen, st.store, later);
        case _ =>
      }
    }
  }

  lemma PullInStepKept(st: State, e: Event)
    requires ValidStore(st.store) && PullInStep(st) && Enabled(st, e) && !e.Reseed?
    ensures PullInStep(Step(st, e))
  {
    StoreGrows(st.store, st, e);
    forall seen: Store
      ensures StillGrowing(seen, st, e)
    {
      StoreGrows(seen, st, e);
    }
    if st.pull.Some? {
      assert forall j :: 0 <= j < |st.pull.value.versions| ==> StillGrowing(st.pull.value.versions[j], st, e);
    }
  }

  lemma FilesInStepKept(st: State, e: Event)
    requires ValidStore(st.store) && FilesInStep(st) && Enabled(st, e) && !e.Reseed?
    ensures FilesInStep(Step(st, e))
  {
    forall i | 0 <= i < |st.fileFetches|
      ensures StillGrowing(st.fileFetches[i].seen, st, e)
    {
      StoreGrows(st.fileFetches[i].seen, st, e);
    }
  }

  lemma SyncedLater(s: Store, next: Store, c: Client)
    requires Synced(s, c) && Extends(s, next)
    ensures Synced(next, c)
  {
    if c.cursor.Some? && c.marker.Some? {
      forall i, t | 0 <= i < c.marker.value && LastSeq(next, Pair(c.files[i], t)) <= c.cursor.value
        ensures Pair(c.files[i], t) in c.mirror <==> IsCurrent(next, Pair(c.files[i], t))
      {
        assert LastSeq(s, Pair(c.files[i], t)) == LastSeq(next, Pair(c.files[i], t));
      }
    }
  }

  /** What the file pull read is, up to the cursor, what the store still has. */
  ghost predicate Harmless(st: State, i: nat) {
    i < |st.fileFetches| && AgreesUpTo(st.store, st.client, st.fileFetches[i].seen, st.fileFetches[i].hash)
  }

  /** No step but a re-seed and a harmful file write takes the mirror out of step. */
  lemma MirrorKept(st: State, e: Event)
    requires MirrorInv(st) && Enabled(st, e) && !e.Reseed? && (e.FileWrite? ==> Harmless(st, e.id))
    ensures MirrorInv(Step(st, e))
  {
    BasicKept(st, e);
    PullInStepKept(st, e);
    match e {
      case StoreChange(p, status) =>
        AppendExtends(st.store, p, status);
        SyncedLater(st.store, Step(st, e).store, st.client);
      case Grow(later) => SyncedLater(st.store, later, st.client);
      case Merge =>
        var f := st.pull.value;
        MergeSyncs(st.store, st.client, f.plan, f.versions, f.changes, f.cursor.value);
      case FileWrite(i) =>
        var ff := st.fileFetches[i];
        FileMergeExact(st.store, st.client, ff.seen, ff.bits, ff.hash);
      case _ =>
    }
  }

  /** The stored cursor has not passed the version a file pull read. */
  predicate UpToDate(st: State, i: nat) {
    i < |st.fileFetches| && (st.client.cursor.Some? ==> st.client.cursor.value <= st.fileFetches[i].seen.top)
  }

  /** The store is not re-seeded and no file pull writes what a delta pull has since overtaken. */
  predicate Timely(st: State, e: Event) {
    match e
    case Reseed(next) => false
    case FileWrite(i) => UpToDate(st, i)
    case _ => true
  }

  lemma SyncKept(st: State, e: Event)
    requires SyncInv(st) && Enabled(st, e) && Timely(st, e)
    ensures SyncInv(Step(st, e))
  {
    if e.FileWrite? {
      var ff := st.fileFetches[e.id];
      NoGapAgrees(st.store, st.client, ff.seen, ff.hash);
    }
    MirrorKept(st, e);
    FilesInStepKept(st, e);
  }

  /** Every step of a run is timely. */
  ghost predicate RunsTimely(st: State, events: seq<Event>)
    requires CanRun(st, events)
    decreases |events|
  {
    events == [] || (Timely(st, events[0]) && RunsTimely(Step(st, events[0]), events[1..]))
  }

  lemma {:induction false} RunKeepsSync(st: State, events: seq<Event>)
    requires SyncInv(st) && CanRun(st, events) && RunsTimely(st, events)
    ensures SyncInv(After(st, events))
    decreases |events|
  {
    if events != [] {
      SyncKept(st, events[0]);
      RunKeepsSync(Step(st, events[0]), events[1..]);
    }
  }

  /**
   * Safety over whole runs: for every file up to the marker and every tag last changed up to the
   * cursor, the mirror has the pair exactly when the store says Current.
   */
  lemma MirrorStaysInStep(start: State, events: seq<Event>, i: nat, t: Tag)
    requires IsStart(start) && CanRun(start, events) && RunsTimely(start, events)
    requires var c := After(start, events).client;
             && c.cursor.Some? && c.marker.Some? && i < c.marker.value && i < |c.files|
             && LastSeq(After(start, events).store, Pair(c.files[i], t)) <= c.cursor.value
    ensures var st := After(start, events);
            Pair(st.client.files[i], t) in st.client.mirror <==> IsCurrent(st.store, Pair(st.client.files[i], t))
  {
    RunKeepsSync(start, events);
  }

  // ---- Exactly which runs keep the mirror in step --------------------------

  predicate NoReseed(events: seq<Event>) {
    forall k :: 0 <= k < |events| ==> !events[k].Reseed?
  }

  /** Every file write is harmless when it happens. */
  ghost predicate WritesHarmless(st: State, events: seq<Event>)
    requires CanRun(st, events)
    decreases |events|
  {
    events == [] || ((events[0].FileWrite? ==> Harmless(st, events[0].id))
                     && WritesHarmless(Step(st, events[0]), events[1..]))
  }

  /** The mirror is in step at the end and at every point before it. */
  ghost predicate AlwaysSynced(st: State, events: seq<Event>)
    requires CanRun(st, events)
    decreases |events|
  {
    Synced(st.store, st.client) && (events == [] || AlwaysSynced(Step(st, events[0]), events[1..]))
  }

  /** Without a re-seed the mirror stays in step throughout if and only if every file write is harmless. */
  lemma {:induction false} AlwaysSyncedIff(st: State, events: seq<Event>)
    requires MirrorInv(st) && CanRun(st, events) && NoReseed(events)
    ensures AlwaysSynced(st, events) <==> WritesHarmless(st, events)
    ensures WritesHarmless(st, events) ==> MirrorInv(After(st, events))
    decreases |events|
  {
    if events != [] {
      var e := events[0];
      var next := Step(st, e);
      assert !e.Reseed?;
      if e.FileWrite? && !Harmless(st, e.id) {
        var ff := st.fileFetches[e.id];
        FileMergeExact(st.store, st.client, ff.seen, ff.bits, ff.hash);
        assert !Synced(next.store, next.client);
      } else {
        MirrorKept(st, e);
        AlwaysSyncedIff(next, events[1..]);
      }
    }
  }

  // ---- Pulls that do not overlap -------------------------------------------

  predicate CursorInStore(st: State) {
    st.client.cursor.Some? ==> st.client.cursor.value <= st.store.top
  }

  ghost predicate Unpassed(st: State) {
    forall i :: 0 <= i < |st.fileFetches| ==> UpToDate(st, i)
  }

  /** The store is not re-seeded and no delta pull merges between the read and the write of a file pull. */
  ghost predicate RunsApart(st: State, events: seq<Event>)
    requires CanRun(st, events)
    decreases |events|
  {
    events == [] ||
      (!events[0].Reseed? && (events[0].Merge? ==> st.fileFetches == []) && RunsApart(Step(st, events[0]), events[1..]))
  }

  lemma UnpassedKept(st: State, e: Event)
    requires SyncInv(st) && Unpassed(st) && Enabled(st, e) && (e.Merge? ==> st.fileFetches == [])
    requires CursorInStore(st)
    ensures Unpassed(Step(st, e))
  {
    var next := Step(st, e);
    forall i | 0 <= i < |next.fileFetches|
      ensures UpToDate(next, i)
    {
      match e {
        case FileRead(h, bits) => assert i < |st.fileFetches| ==> UpToDate(st, i);
        case FileWrite(k) => assert UpToDate(st, if i < k then i else i + 1);
        case Restart =>
        case Merge =>
        case _ => assert UpToDate(st, i);
      }
    }
  }

  /** When delta pulls and file pulls do not overlap, every write is timely. */
  lemma {:induction false} ApartIsTimely(st: State, events: seq<Event>)
    requires SyncInv(st) && Unpassed(st) && CursorInStore(st) && CanRun(st, events) && RunsApart(st, events)
    ensures RunsTimely(st, events)
    decreases |events|
  {
    if events != [] {
      var e := events[0];
      if e.FileWrite? {
        assert UpToDate(st, e.id);
      }
      SyncKept(st, e);
      UnpassedKept(st, e);
      ApartIsTimely(Step(st, e), events[1..]);
    }
  }

  /** So any run from the start without overlap keeps the mirror in step. */
  lemma ApartStaysInStep(start: State, events: seq<Event>)
    requires IsStart(start) && CanRun(start, events) && RunsApart(start, events)
    ensures Synced(After(start, events).store, After(start, events).client)
  {
    ApartIsTimely(start, events);
    RunKeepsSync(start, events);
  }
}
