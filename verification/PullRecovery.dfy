/**
 * Recovering from a re-seeded store: what a merge makes of a stale mirror, exactly when it repairs
 * it, and what a pull that is given up loses.
 */
module PullRecovery {
  import opened Wrappers
  import opened Sequences
  import opened Strings
  import opened Hashes
  import opened Buckets
  import opened Tags
  import opened Pull
  import opened PullRuns

  // ---- What one merge repairs ----------------------------------------------

  predicate AsksAll(f: Fetch) {
    forall j :: 0 <= j < |f.plan.since| ==> f.plan.since[j] == 0
  }

  /** The bucket of `h` is one of those read, from this version of the store. */
  ghost predicate FetchedFrom(f: Fetch, h: Hash, version: Store) {
    exists j :: 0 <= j < |f.versions| && j < |f.plan.keys| && f.plan.keys[j] == BucketKey(h, f.plan.bits)
      && f.versions[j] == version
  }

  /** After the merge the mirror of file `i` is the store as its bucket was fetched. */
  ghost predicate Repairs(st: State, i: nat)
    requires Enabled(st, Merge) && i < |st.client.files|
  {
    exists version ::
      && FetchedFrom(st.pull.value, st.client.files[i], version)
      && forall t: Tag :: Pair(st.client.files[i], t) in Step(st, Merge).client.mirror <==>
          IsCurrent(version, Pair(st.client.files[i], t))
  }

  lemma OneVersion(st: State, i: nat, j: nat, version: Store)
    requires Basic(st) && Enabled(st, Merge) && i < |st.client.files|
    requires j < |st.pull.value.plan.keys|
             && st.pull.value.plan.keys[j] == BucketKey(st.client.files[i], st.pull.value.plan.bits)
    ensures FetchedFrom(st.pull.value, st.client.files[i], version) <==> version == st.pull.value.versions[j]
  {
    var f := st.pull.value;
    forall k | 0 <= k < |f.plan.keys| && f.plan.keys[k] == f.plan.keys[j]
      ensures k == j
    {
      AscendingDistinct(f.plan.keys, k, j);
    }
  }

  /** A bucket asked for from the start is repaired, from any mirror, cursor and marker whatever. */
  lemma FullBucketRepairs(st: State, i: nat, j: nat)
    requires Basic(st) && Enabled(st, Merge) && i < |st.client.files|
    requires j < |st.pull.value.plan.keys|
             && st.pull.value.plan.keys[j] == BucketKey(st.client.files[i], st.pull.value.plan.bits)
    requires st.pull.value.plan.since[j] == 0
    ensures Repairs(st, i)
  {
    var f := st.pull.value;
    var version := f.versions[j];
    OneVersion(st, i, j, version);
    forall t: Tag
      ensures Pair(st.client.files[i], t) in Step(st, Merge).client.mirror <==>
                IsCurrent(version, Pair(st.client.files[i], t))
    {
      FullBucketIsExact(st.client, f.plan, f.versions, f.changes, f.cursor.value, j, Pair(st.client.files[i], t));
    }
  }

  /** So a pull that asks for everything repairs every file owned at its locked read. */
  lemma MergeRecovers(st: State, i: nat)
    requires Basic(st) && Enabled(st, Merge) && AsksAll(st.pull.value) && i < st.pull.value.plan.marker
    ensures i < |st.client.files| && Repairs(st, i)
  {
    var j := FileHasKey(st.client, st.pull.value.plan, i);
    FullBucketRepairs(st, i, j);
  }

  /**
   * If the store only grew while it was read, the mirror is also back in step with it, whatever it
   * was before and whatever file pulls wait to be written.
   */
  lemma RecoveryRestoresSync(st: State)
    requires Basic(st) && PullInStep(st) && Enabled(st, Merge) && AsksAll(st.pull.value)
    ensures MirrorInv(Step(st, Merge))
  {
    BasicKept(st, Merge);
    PullInStepKept(st, Merge);
    var f := st.pull.value;
    MergeSyncs(st.store, st.client, f.plan, f.versions, f.changes, f.cursor.value);
  }

  // ---- No other bucket is repaired -----------------------------------------

  /** A tag that no pair of the set has. */
  lemma {:induction false} TagBeyond(pairs: set<Pair>) returns (n: nat)
    ensures forall p :: p in pairs ==> |p.tag.subtag| < n
    decreases pairs
  {
    n := 1;
    if pairs != {} {
      assert exists p :: p in pairs by {
        assert (forall p :: p !in pairs) ==> pairs == {};
      }
      var p :| p in pairs;
      var m := TagBeyond(pairs - {p});
      n := if m <= |p.tag.subtag| then |p.tag.subtag| + 1 else m;
    }
  }

  lemma UnknownPair(s: Store, h: Hash) returns (p: Pair)
    ensures p.hash == h && p !in s.rows
  {
    var n := TagBeyond(s.rows.Keys);
    p := Pair(h, Tag("", seq(n, i => 'a')));
    assert p in s.rows ==> p in s.rows.Keys;
  }

  /** Another mirror of the same files. */
  function WithMirror(st: State, mirror: set<Pair>): State {
    st.(client := st.client.(mirror := mirror))
  }

  predicate OwnedPairs(mirror: set<Pair>, files: seq<Hash>) {
    forall p :: p in mirror ==> p.hash in files
  }

  lemma WithMirrorKept(st: State, mirror: set<Pair>)
    requires Basic(st) && OwnedPairs(mirror, st.client.files)
    ensures Basic(WithMirror(st, mirror))
    ensures Enabled(st, Merge) ==> Enabled(WithMirror(st, mirror), Merge)
  {
  }

  /** The merge repairs file `i` whatever the mirror holds. */
  ghost predicate RepairsAny(st: State, i: nat)
    requires Enabled(st, Merge) && i < |st.client.files|
  {
    forall mirror :: OwnedPairs(mirror, st.client.files) ==> Repairs(WithMirror(st, mirror), i)
  }

  /** An incremental bucket keeps a stale pair that the store knows nothing about. */
  lemma StalePairStays(st: State, i: nat, j: nat) returns (mirror: set<Pair>)
    requires Basic(st) && Enabled(st, Merge) && i < |st.client.files|
    requires j < |st.pull.value.plan.keys|
             && st.pull.value.plan.keys[j] == BucketKey(st.client.files[i], st.pull.value.plan.bits)
    requires st.pull.value.plan.since[j] != 0
    ensures OwnedPairs(mirror, st.client.files) && !Repairs(WithMirror(st, mirror), i)
  {
    var f := st.pull.value;
    var p := UnknownPair(f.versions[j], st.client.files[i]);
    mirror := {p};
    var stale := WithMirror(st, mirror);
    WithMirrorKept(st, mirror);
    MergedPair(stale.client, f.plan, f.versions, f.changes, f.cursor.value, j, p);
    assert p in Step(stale, Merge).client.mirror && p == Pair(stale.client.files[i], p.tag);
    forall version | FetchedFrom(f, stale.client.files[i], version)
      ensures !IsCurrent(version, p)
    {
      OneVersion(stale, i, j, version);
    }
  }

  /** A file is repaired whatever the mirror holds if and only if its bucket was asked for from the start. */
  lemma RepairedIffFull(st: State, i: nat, j: nat)
    requires Basic(st) && Enabled(st, Merge) && i < |st.client.files|
    requires j < |st.pull.value.plan.keys|
             && st.pull.value.plan.keys[j] == BucketKey(st.client.files[i], st.pull.value.plan.bits)
    ensures RepairsAny(st, i) <==> st.pull.value.plan.since[j] == 0
  {
    if st.pull.value.plan.since[j] == 0 {
      forall mirror | OwnedPairs(mirror, st.client.files)
        ensures Repairs(WithMirror(st, mirror), i)
      {
        WithMirrorKept(st, mirror);
        FullBucketRepairs(WithMirror(st, mirror), i, j);
      }
    } else {
      var mirror := StalePairStays(st, i, j);
      assert !Repairs(WithMirror(st, mirror), i);
    }
  }

  // ---- A generation that differs -------------------------------------------

  /** The cursors are forgotten, and a pull in flight asks for everything. */
  ghost predicate Forgotten(st: State) {
    Basic(st) && st.client.cursor.None? && st.client.marker.None? && (st.pull.Some? ==> AsksAll(st.pull.value))
  }

  /** Seen as a recorded generation that differs: the cursors are forgotten. */
  lemma NewGenerationForgets(st: State)
    requires Basic(st) && Enabled(st, Reconcile)
    requires st.client.generation.Some? && st.caps.generation.Some? && st.client.generation != st.caps.generation
    ensures Forgotten(Step(st, Reconcile)) && Reconciled(Step(st, Reconcile))
  {
    BasicKept(st, Reconcile);
  }

  /** Only a merge remembers them again, whatever is imported, written, given up or restarted before it. */
  lemma ForgottenKept(st: State, e: Event)
    requires Forgotten(st) && Enabled(st, e) && !e.Merge?
    ensures Forgotten(Step(st, e))
  {
    BasicKept(st, e);
  }

  /**
   * The daemon shakes hands once in its life: a store that was re-seeded under another generation is
   * seen after a restart at the latest, whatever was in flight before it.
   */
  lemma RestartSeesGeneration(st: State)
    requires Basic(st) && st.client.generation.Some? && st.store.generation.Some?
    requires st.client.generation != st.store.generation
    ensures var events := [Restart, FetchCaps, Reconcile];
            && CanRun(st, events)
            && var end := After(st, events);
            && Forgotten(end) && Reconciled(end) && end.pull.None? && end.fileFetches == []
            && end.client.generation == st.store.generation
            && end.client.files == st.client.files && end.client.mirror == st.client.mirror
  {
    var restarted := Step(st, Restart);
    var fetched := Step(restarted, FetchCaps);
    BasicKept(st, Restart);
    BasicKept(restarted, FetchCaps);
    NewGenerationForgets(fetched);
    RunCons(fetched, Reconcile, []);
    RunCons(restarted, FetchCaps, [Reconcile]);
    RunCons(st, Restart, [FetchCaps] + [Reconcile]);
    assert [Restart] + ([FetchCaps] + [Reconcile]) == [Restart, FetchCaps, Reconcile];
  }

  /** No pull begins after a restart before the handshake has been made again. */
  lemma RestartNeedsHandshake(st: State, bits: nat, events: seq<Event>)
    requires CanRun(Step(st, Restart), events) && forall k :: 0 <= k < |events| ==> !events[k].FetchCaps?
    ensures !Enabled(After(Step(st, Restart), events), Begin(bits))
  {
    NoHandshake(Step(st, Restart), events);
  }

  lemma {:induction false} NoHandshake(st: State, events: seq<Event>)
    requires st.caps.NotFetched? && CanRun(st, events) && forall k :: 0 <= k < |events| ==> !events[k].FetchCaps?
    ensures After(st, events).caps.NotFetched?
    decreases |events|
  {
    if events != [] {
      NoHandshake(Step(st, events[0]), events[1..]);
    }
  }

  predicate MergeFree(events: seq<Event>) {
    forall k :: 0 <= k < |events| ==> !events[k].Merge?
  }

  lemma {:induction false} RunKeepsForgotten(st: State, events: seq<Event>)
    requires Forgotten(st) && CanRun(st, events) && MergeFree(events)
    ensures Forgotten(After(st, events))
    decreases |events|
  {
    if events != [] {
      ForgottenKept(st, events[0]);
      RunKeepsForgotten(Step(st, events[0]), events[1..]);
    }
  }

  /**
   * A re-seed seen as a recorded generation that differs: the next pull that completes repairs
   * every file owned at its locked read, however many pulls fail and whatever else happens first.
   */
  lemma GenerationChangeRecovers(st: State, events: seq<Event>, i: nat)
    requires Basic(st) && Enabled(st, Reconcile)
    requires st.client.generation.Some? && st.caps.generation.Some? && st.client.generation != st.caps.generation
    requires CanRun(Step(st, Reconcile), events) && MergeFree(events)
    requires var end := After(Step(st, Reconcile), events); Enabled(end, Merge) && i < end.pull.value.plan.marker
    ensures var end := After(Step(st, Reconcile), events); i < |end.client.files| && Repairs(end, i)
  {
    NewGenerationForgets(st);
    RunKeepsForgotten(Step(st, Reconcile), events);
    MergeRecovers(After(Step(st, Reconcile), events), i);
  }

  // ---- A cursor that went back ---------------------------------------------

  /** The pull in flight is neither given up nor merged. */
  predicate RunsOn(events: seq<Event>) {
    forall k :: 0 <= k < |events| ==> !events[k].Abort? && !events[k].Restart? && !events[k].Merge?
  }

  /** The daemon is about to find that the first reply's cursor is behind the stored one. */
  predicate SeesLow(st: State, e: Event) {
    && e.CheckCursor? && st.pull.Some? && !st.pull.value.retried
    && st.pull.value.cursor.Some? && st.pull.value.plan.stored.Some?
    && st.pull.value.cursor.value < st.pull.value.plan.stored.value
  }

  /** Everything is asked for again, for the files of the locked read. */
  lemma LowCursorPullsAll(st: State)
    requires Basic(st) && Enabled(st, CheckCursor) && !st.pull.value.retried
    requires st.client.cursor.Some? && st.pull.value.cursor.value < st.client.cursor.value
    ensures SeesLow(st, CheckCursor)
    ensures var f := Step(st, CheckCursor).pull.value;
            AsksAll(f) && !f.checked && f.versions == [] && f.plan.marker == st.pull.value.plan.marker
  {
    BasicKept(st, CheckCursor);
  }

  ghost predicate SawLow(st: State, events: seq<Event>)
    requires CanRun(st, events)
    decreases |events|
  {
    events != [] && (SeesLow(st, events[0]) || SawLow(Step(st, events[0]), events[1..]))
  }

  /** What a pull begun with `plan` asks for by now. */
  predicate FollowsPlan(f: Fetch, plan: Plan) {
    f.plan == if f.retried then plan.(since := Repeat(0, |plan.keys|)) else plan
  }

  lemma StepFollowsPlan(st: State, e: Event, plan: Plan)
    requires Basic(st) && st.pull.Some? && FollowsPlan(st.pull.value, plan)
    requires Enabled(st, e) && !e.Abort? && !e.Restart? && !e.Merge?
    ensures var next := Step(st, e);
            && next.pull.Some? && FollowsPlan(next.pull.value, plan)
            && (next.pull.value.retried <==> st.pull.value.retried || SeesLow(st, e))
            && st.client.files <= next.client.files
  {
  }

  lemma {:induction false} RunFollowsPlan(st: State, events: seq<Event>, plan: Plan)
    requires Basic(st) && st.pull.Some? && FollowsPlan(st.pull.value, plan)
    requires CanRun(st, events) && RunsOn(events)
    ensures var end := After(st, events);
            && Basic(end) && end.pull.Some? && FollowsPlan(end.pull.value, plan)
            && (end.pull.value.retried <==> st.pull.value.retried || SawLow(st, events))
            && st.client.files <= end.client.files
    decreases |events|
  {
    if events != [] {
      StepFollowsPlan(st, events[0], plan);
      BasicKept(st, events[0]);
      RunFollowsPlan(Step(st, events[0]), events[1..], plan);
    }
  }

  /** The locked read asks for the bucket of `h` from the start. */
  ghost predicate AsksAfresh(c: Client, bits: nat, h: Hash) {
    c.marker.None? || OrZero(c.cursor) == 0 || HasNewFile(c, bits, BucketKey(h, bits))
  }

  lemma PlanAsksAfresh(c: Client, bits: nat, h: Hash, j: nat)
    requires ValidClient(c) && j < |MakePlan(c, bits).keys| && MakePlan(c, bits).keys[j] == BucketKey(h, bits)
    ensures MakePlan(c, bits).since[j] == 0 <==> AsksAfresh(c, bits, h)
  {
    NewFileKeys(c, bits, BucketKey(h, bits));
  }

  /**
   * After any history, failed pulls and restarts included: the pull that completes next repairs a
   * file owned at its locked read, whatever the mirror holds, if and only if its own first reply
   * was behind the stored cursor, or its locked read asked for the file's bucket afresh.
   */
  lemma NextMergeRepairsIff(start: State, before: seq<Event>, bits: nat, events: seq<Event>, i: nat)
    requires Basic(start) && CanRun(start, before) && Enabled(After(start, before), Begin(bits))
    requires var begun := Step(After(start, before), Begin(bits));
             CanRun(begun, events) && RunsOn(events) && Enabled(After(begun, events), Merge)
    requires i < |After(start, before).client.files|
    ensures var st := After(start, before);
            var begun := Step(st, Begin(bits));
            && i < |After(begun, events).client.files|
            && (RepairsAny(After(begun, events), i) <==>
                SawLow(begun, events) || AsksAfresh(st.client, bits, st.client.files[i]))
  {
    RunKeepsBasic(start, before);
    var st := After(start, before);
    var begun := Step(st, Begin(bits));
    var plan := MakePlan(st.client, bits);
    BasicKept(st, Begin(bits));
    RunFollowsPlan(begun, events, plan);
    var end := After(begun, events);
    assert end.client.files[i] == st.client.files[i];
    var j := FileHasKey(end.client, end.pull.value.plan, i);
    PlanAsksAfresh(st.client, bits, st.client.files[i], j);
    RepairedIffFull(end, i, j);
  }

  /** A re-seed seen as a returned cursor below the stored one: the pull that saw it repairs when it completes. */
  lemma LowCursorRecovers(st: State, bits: nat, events: seq<Event>, i: nat)
    requires Basic(st) && Enabled(st, Begin(bits)) && CanRun(Step(st, Begin(bits)), events) && RunsOn(events)
    requires SawLow(Step(st, Begin(bits)), events) && Enabled(After(Step(st, Begin(bits)), events), Merge)
    requires i < |st.client.files|
    ensures var end := After(Step(st, Begin(bits)), events); i < |end.client.files| && Repairs(end, i)
  {
    BasicKept(st, Begin(bits));
    RunFollowsPlan(Step(st, Begin(bits)), events, MakePlan(st.client, bits));
    MergeRecovers(After(Step(st, Begin(bits)), events), i);
  }

  // ---- In step again, and from then on -------------------------------------

  /** The pull in flight asks for everything and has read nothing yet. */
  ghost predicate StartsAfresh(st: State) {
    Basic(st) && st.pull.Some? && AsksAll(st.pull.value) && st.pull.value.versions == [] && st.pull.value.cursor.None?
  }

  /** So does the pull begun once the cursors are forgotten. */
  lemma ForgottenStartsAfresh(st: State, bits: nat)
    requires Forgotten(st) && Enabled(st, Begin(bits))
    ensures StartsAfresh(Step(st, Begin(bits)))
  {
    ForgottenKept(st, Begin(bits));
  }

  /** And the pull that has just seen a low cursor. */
  lemma LowCursorStartsAfresh(st: State)
    requires Basic(st) && Enabled(st, CheckCursor) && SeesLow(st, CheckCursor)
    ensures StartsAfresh(Step(st, CheckCursor))
  {
    BasicKept(st, CheckCursor);
  }

  /** Reading on, it still asks for everything, and all it reads are versions the store grew out of. */
  lemma {:induction false} FetchStaysInStep(st: State, events: seq<Event>)
    requires Basic(st) && st.pull.Some? && AsksAll(st.pull.value) && PullInStep(st)
    requires CanRun(st, events) && RunsOn(events) && NoReseed(events)
    ensures var end := After(st, events);
            Basic(end) && end.pull.Some? && AsksAll(end.pull.value) && PullInStep(end)
    decreases |events|
  {
    if events != [] {
      BasicKept(st, events[0]);
      PullInStepKept(st, events[0]);
      FetchStaysInStep(Step(st, events[0]), events[1..]);
    }
  }

  /** The pull runs to its merge, and the store is not re-seeded meanwhile. */
  ghost predicate Completes(st: State, fetching: seq<Event>) {
    CanRun(st, fetching) && RunsOn(fetching) && NoReseed(fetching) && Enabled(After(st, fetching), Merge)
  }

  ghost function Merged(st: State, fetching: seq<Event>): State
    requires Completes(st, fetching)
  {
    Step(After(st, fetching), Merge)
  }

  lemma CompletedIsInStep(st: State, fetching: seq<Event>)
    requires StartsAfresh(st) && Completes(st, fetching)
    ensures MirrorInv(Merged(st, fetching))
  {
    FetchStaysInStep(st, fetching);
    RecoveryRestoresSync(After(st, fetching));
  }

  /** The mirror is in step now, and stays so throughout if and only if every file write is harmless. */
  ghost predicate InStepFromNowOn(st: State, later: seq<Event>)
    requires CanRun(st, later)
  {
    Synced(st.store, st.client) && (AlwaysSynced(st, later) <==> WritesHarmless(st, later))
  }

  /**
   * Whole runs with re-seeds, seen as a low cursor: the mirror is in step when the pull that saw it
   * completes, unless the store is re-seeded once more meanwhile, and from then on.
   */
  lemma LowCursorThenInStep(start: State, before: seq<Event>, fetching: seq<Event>, later: seq<Event>)
    requires Basic(start) && CanRun(start, before)
    requires Enabled(After(start, before), CheckCursor) && SeesLow(After(start, before), CheckCursor)
    requires var st := Step(After(start, before), CheckCursor);
             Completes(st, fetching) && CanRun(Merged(st, fetching), later) && NoReseed(later)
    ensures InStepFromNowOn(Merged(Step(After(start, before), CheckCursor), fetching), later)
  {
    RunKeepsBasic(start, before);
    LowCursorStartsAfresh(After(start, before));
    var st := Step(After(start, before), CheckCursor);
    CompletedIsInStep(st, fetching);
    AlwaysSyncedIff(Merged(st, fetching), later);
  }

  /** And seen as a generation that differs, at the pull that completes next, however many were given up. */
  lemma GenerationChangeThenInStep(st: State, before: seq<Event>, bits: nat, fetching: seq<Event>, later: seq<Event>)
    requires Basic(st) && Enabled(st, Reconcile)
    requires st.client.generation.Some? && st.caps.generation.Some? && st.client.generation != st.caps.generation
    requires CanRun(Step(st, Reconcile), before) && MergeFree(before)
    requires Enabled(After(Step(st, Reconcile), before), Begin(bits))
    requires var begun := Step(After(Step(st, Reconcile), before), Begin(bits));
             Completes(begun, fetching) && CanRun(Merged(begun, fetching), later) && NoReseed(later)
    ensures InStepFromNowOn(Merged(Step(After(Step(st, Reconcile), before), Begin(bits)), fetching), later)
  {
    NewGenerationForgets(st);
    RunKeepsForgotten(Step(st, Reconcile), before);
    ForgottenStartsAfresh(After(Step(st, Reconcile), before), bits);
    var begun := Step(After(Step(st, Reconcile), before), Begin(bits));
    CompletedIsInStep(begun, fetching);
    AlwaysSyncedIff(Merged(begun, fetching), later);
  }

  /** When no file pull from an older store still waits at the merge, it is enough that no write is overtaken. */
  lemma RecoveredStaysInStep(st: State, fetching: seq<Event>, later: seq<Event>)
    requires StartsAfresh(st) && Completes(st, fetching) && FilesInStep(Merged(st, fetching))
    requires CanRun(Merged(st, fetching), later) && RunsTimely(Merged(st, fetching), later)
    ensures SyncInv(After(Merged(st, fetching), later))
  {
    CompletedIsInStep(st, fetching);
    RunKeepsSync(Merged(st, fetching), later);
  }

  // ---- A pull that is given up ---------------------------------------------

  const EMPTIED := Store(map[], 0, None)

  function OneFilePlan(h: Hash, since: nat, stored: Option<nat>): Plan {
    Plan(0, [BucketKey(h, 0)], [since], stored, 1)
  }

  /** One owned file, pulled before if `cursor` says so, and a pull in flight or none. */
  function OneFile(h: Hash, store: Store, mirror: set<Pair>, cursor: Option<nat>, pull: Option<Fetch>): State {
    State(store, Client([h], mirror, cursor, if cursor.Some? then Some(1) else None, None), Fetched(None), pull, [])
  }

  lemma OneFilePlanned(h: Hash, c: Client)
    requires c.files == [h] && c.marker == if c.cursor.Some? then Some(1) else None
    ensures MakePlan(c, 0) == OneFilePlan(h, OrZero(c.cursor), c.cursor)
  {
    OneBucket(h);
    assert c.marker.Some? ==> KeysOf(NewFiles(c), 0) == [];
    assert MakePlan(c, 0).since == [OrZero(c.cursor)];
  }

  lemma OneFilePulls(h: Hash, store: Store, mirror: set<Pair>, cursor: Option<nat>)
    ensures var st := OneFile(h, store, mirror, cursor, None);
            && Enabled(st, Begin(0))
            && Step(st, Begin(0)) ==
                 OneFile(h, store, mirror, cursor,
                         Some(Fetch(OneFilePlan(h, OrZero(cursor), cursor), [], [], None, false, false)))
  {
    OneFilePlanned(h, OneFile(h, store, mirror, cursor, None).client);
  }

  lemma OneFileFetches(h: Hash, store: Store, mirror: set<Pair>, cursor: Option<nat>, since: nat, reply: seq<Change>)
    requires ChunkReply(store, 0, [BucketKey(h, 0)], [since], 1, reply)
    ensures var plan := OneFilePlan(h, since, cursor);
            var st := OneFile(h, store, mirror, cursor, Some(Fetch(plan, [], [], None, false, false)));
            && Enabled(st, FetchChunk(1, reply))
            && Step(st, FetchChunk(1, reply)) ==
                 OneFile(h, store, mirror, cursor,
                         Some(Fetch(plan, Repeat(store, 1), reply, Some(store.top), false, false)))
  {
    var f := Fetch(OneFilePlan(h, since, cursor), [], [], None, false, false);
    assert f.plan.keys[0..] == [BucketKey(h, 0)] && f.plan.since[0..] == [since];
    assert TakeChunk(f, store, 1, reply).versions == Repeat(store, 1);
    assert TakeChunk(f, store, 1, reply).changes == reply;
  }

  /** The pull in flight once its one chunk has been read. */
  function Read(h: Hash, store: Store, mirror: set<Pair>, cursor: Option<nat>, reply: seq<Change>): State {
    OneFile(h, store, mirror, cursor,
            Some(Fetch(OneFilePlan(h, OrZero(cursor), cursor), Repeat(store, 1), reply, Some(store.top), false, false)))
  }

  /** Begin, one chunk, the check of the cursor, and then the rest. */
  lemma OneFileChecks(h: Hash, store: Store, mirror: set<Pair>, cursor: Option<nat>, reply: seq<Change>,
                      rest: seq<Event>)
    requires ChunkReply(store, 0, [BucketKey(h, 0)], [OrZero(cursor)], 1, reply)
    requires CanRun(Step(Read(h, store, mirror, cursor, reply), CheckCursor), rest)
    ensures var st := OneFile(h, store, mirror, cursor, None);
            var events := [Begin(0), FetchChunk(1, reply), CheckCursor] + rest;
            && CanRun(st, events)
            && After(st, events) == After(Step(Read(h, store, mirror, cursor, reply), CheckCursor), rest)
  {
    var st := OneFile(h, store, mirror, cursor, None);
    RunCons(Read(h, store, mirror, cursor, reply), CheckCursor, rest);
    OneFileFetches(h, store, mirror, cursor, OrZero(cursor), reply);
    OneFilePulls(h, store, mirror, cursor);
    RunCons(Step(st, Begin(0)), FetchChunk(1, reply), [CheckCursor] + rest);
    RunCons(st, Begin(0), [FetchChunk(1, reply)] + ([CheckCursor] + rest));
    assert [Begin(0), FetchChunk(1, reply), CheckCursor] + rest
           == [Begin(0)] + ([FetchChunk(1, reply)] + ([CheckCursor] + rest));
  }

  /** The pair is added, and a first pull mirrors it. */
  function Mirrored(p: Pair): State {
    OneFile(p.hash, Added(p), {p}, Some(1), None)
  }

  function AddEvents(p: Pair): seq<Event> {
    [Import(p.hash), FetchCaps, Reconcile, StoreChange(p, Current)]
  }

  function FirstPull(p: Pair): seq<Event> {
    AddEvents(p) + ([Begin(0), FetchChunk(1, [Change(p, Current)]), CheckCursor] + [Merge])
  }

  lemma FirstPullMerges(p: Pair, st: State)
    requires st == Step(Read(p.hash, Added(p), {}, None, [Change(p, Current)]), CheckCursor)
    ensures CanRun(st, [Merge]) && After(st, [Merge]) == Mirrored(p)
  {
    var plan := OneFilePlan(p.hash, 0, None);
    assert Clear({}, plan) == {};
    var none: set<Pair> := {};
    assert [Change(p, Current)][..0] == [];
    assert ApplyChanges(none, [p.hash], [Change(p, Current)]) == {p};
    assert Step(st, Merge) == Mirrored(p);
    RunCons(st, Merge, []);
  }

  lemma AddedRuns(p: Pair)
    ensures CanRun(NOTHING, AddEvents(p)) && After(NOTHING, AddEvents(p)) == OneFile(p.hash, Added(p), {}, None, None)
  {
    var es := AddEvents(p);
    var empty := OneFile(p.hash, EMPTIED, {}, None, None);
    assert Step(empty, StoreChange(p, Current)) == OneFile(p.hash, Added(p), {}, None, None);
    assert es[3..] == [StoreChange(p, Current)] + [] && es[2..] == [Reconcile] + es[3..];
    assert es[1..] == [FetchCaps] + es[2..] && es == [Import(p.hash)] + es[1..];
    assert Step(empty, Reconcile) == empty;
    RunCons(empty, StoreChange(p, Current), []);
    RunCons(empty, Reconcile, es[3..]);
    RunCons(empty.(caps := NotFetched), FetchCaps, es[2..]);
    assert Step(NOTHING, Import(p.hash)) == empty.(caps := NotFetched);
    RunCons(NOTHING, Import(p.hash), es[1..]);
  }

  lemma FirstPullRuns(p: Pair)
    ensures CanRun(NOTHING, FirstPull(p)) && After(NOTHING, FirstPull(p)) == Mirrored(p)
  {
    var reply := [Change(p, Current)];
    AddedRuns(p);
    OneRowReply(Added(p), p);
    FirstPullMerges(p, Step(Read(p.hash, Added(p), {}, None, reply), CheckCursor));
    OneFileChecks(p.hash, Added(p), {}, None, reply, [Merge]);
    RunConcat(NOTHING, AddEvents(p), [Begin(0), FetchChunk(1, reply), CheckCursor] + [Merge]);
  }

  /** The emptied store is noticed, the pull is given up, and the store grows as far as it was. */
  function GivenUp(q: Pair): seq<Event> {
    [Reseed(EMPTIED)] + ([Begin(0), FetchChunk(1, []), CheckCursor] + [Abort, StoreChange(q, Current)])
  }

  lemma GivenUpEnds(h: Hash, p: Pair, q: Pair, st: State)
    requires st == Step(Read(h, EMPTIED, {p}, Some(1), []), CheckCursor)
    ensures CanRun(st, [Abort, StoreChange(q, Current)])
    ensures After(st, [Abort, StoreChange(q, Current)]) == OneFile(h, Added(q), {p}, Some(1), None)
  {
    var emptied := OneFile(h, EMPTIED, {p}, Some(1), None);
    assert Step(st, Abort) == emptied;
    assert Step(emptied, StoreChange(q, Current)) == OneFile(h, Added(q), {p}, Some(1), None);
    RunCons(emptied, StoreChange(q, Current), []);
    RunCons(st, Abort, [StoreChange(q, Current)]);
  }

  lemma GivenUpRuns(p: Pair, q: Pair)
    ensures CanRun(Mirrored(p), GivenUp(q))
            && After(Mirrored(p), GivenUp(q)) == OneFile(p.hash, Added(q), {p}, Some(1), None)
  {
    var rest := [Abort, StoreChange(q, Current)];
    NoNewsReply(EMPTIED, p.hash, 1);
    GivenUpEnds(p.hash, p, q, Step(Read(p.hash, EMPTIED, {p}, Some(1), []), CheckCursor));
    OneFileChecks(p.hash, EMPTIED, {p}, Some(1), [], rest);
    RunCons(Mirrored(p), Reseed(EMPTIED), [Begin(0), FetchChunk(1, []), CheckCursor] + rest);
  }

  function NextPull(): seq<Event> {
    [Begin(0), FetchChunk(1, []), CheckCursor] + [Merge]
  }

  lemma NextPullMerges(h: Hash, p: Pair, q: Pair, st: State)
    requires st == Step(Read(h, Added(q), {p}, Some(1), []), CheckCursor)
    ensures CanRun(st, [Merge]) && After(st, [Merge]) == OneFile(h, Added(q), {p}, Some(1), None)
  {
    assert Clear({p}, OneFilePlan(h, 1, Some(1))) == {p};
    assert Step(st, Merge) == OneFile(h, Added(q), {p}, Some(1), None);
    RunCons(st, Merge, []);
  }

  lemma NextPullRuns(p: Pair, q: Pair)
    ensures var st := OneFile(p.hash, Added(q), {p}, Some(1), None);
            CanRun(st, NextPull()) && After(st, NextPull()) == st
  {
    NoNewsReply(Added(q), p.hash, 1);
    NextPullMerges(p.hash, p, q, Step(Read(p.hash, Added(q), {p}, Some(1), []), CheckCursor));
    OneFileChecks(p.hash, Added(q), {p}, Some(1), [], [Merge]);
  }

  function GivenUpEvents(p: Pair, q: Pair): seq<Event> {
    FirstPull(p) + GivenUp(q) + NextPull()
  }

  /**
   * Giving up the pull that saw the low cursor loses the sign: the stored cursor is still there,
   * and once the new store has grown as far the next pull to complete is incremental. It keeps the
   * old store's pair and misses the new one's.
   */
  lemma GivingUpLosesTheSign(p: Pair, q: Pair)
    requires p.hash == q.hash && p != q
    ensures IsStart(NOTHING) && CanRun(NOTHING, GivenUpEvents(p, q))
    ensures var st := After(NOTHING, GivenUpEvents(p, q));
            && p in st.client.mirror && !IsCurrent(st.store, p)
            && q !in st.client.mirror && IsCurrent(st.store, q)
            && !Synced(st.store, st.client)
  {
    FirstPullRuns(p);
    GivenUpRuns(p, q);
    RunConcat(NOTHING, FirstPull(p), GivenUp(q));
    NextPullRuns(p, q);
    RunConcat(NOTHING, FirstPull(p) + GivenUp(q), NextPull());
    StaleIsNotSynced(p, q, OneFile(p.hash, Added(q), {p}, Some(1), None));
  }

  lemma StaleIsNotSynced(p: Pair, q: Pair, st: State)
    requires p.hash == q.hash && p != q && st == OneFile(p.hash, Added(q), {p}, Some(1), None)
    ensures p in st.client.mirror && !IsCurrent(st.store, p) && q !in st.client.mirror && IsCurrent(st.store, q)
    ensures !Synced(st.store, st.client)
  {
    assert Pair(st.client.files[0], q.tag) == q && LastSeq(st.store, q) == 1;
  }
}
