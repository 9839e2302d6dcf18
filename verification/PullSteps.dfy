/**
 * The pull as `pull_domain_delta` carries it out is a run of the mirror protocol, so what holds of
 * every run holds of it.
 */
module PullSteps {
  import opened Wrappers
  import opened Sequences
  import opened Hashes
  import opened Pull
  import opened PullRuns
  import opened PullCode

  // ---- One fetch -----------------------------------------------------------

  /** How one version of the store comes after another: by changes if it can, by a re-seed if not. */
  ghost function Becomes(now: Store, next: Store): Event {
    if GrowsTo(now, next) then Grow(next) else Reseed(next)
  }

  /** The store once `n` chunks have found it. */
  function Found(store: Store, wire: Wire, n: nat): Store
    requires wire.Answers? && n <= |wire.history|
  {
    if n == 0 then store else wire.history[n - 1]
  }

  function LowestOf(history: seq<Store>, n: nat): Option<nat>
    requires n <= |history|
  {
    if n == 0 then None else Some(Min(LowestOf(history, n - 1), history[n - 1].top))
  }

  lemma {:induction false} LowestIs(history: seq<Store>, n: nat) returns (i: nat)
    requires 0 < n <= |history|
    ensures i < n && LowestOf(history, n) == Some(history[i].top)
    ensures forall k :: 0 <= k < n ==> history[i].top <= history[k].top
  {
    i := n - 1;
    if n > 1 {
      var before := LowestIs(history, n - 1);
      if history[before].top < history[i].top {
        i := before;
      }
    }
  }

  /** A fetch that nothing has been read for, and one that everything has. */
  function Unread(plan: Plan, retried: bool): Fetch {
    Fetch(plan, [], [], None, retried, false)
  }

  function ReadAll(d: Pulled, retried: bool): Fetch {
    Fetch(d.plan, d.versions, d.changes, Some(d.cursor), retried, false)
  }

  /** One reply a chunk. */
  predicate Shaped(d: Pulled, wire: Wire) {
    wire.Answers? && |d.replies| == |wire.history| == |wire.cuts| - 1
  }

  function ReadPart(d: Pulled, wire: Wire, retried: bool, n: nat): Fetch
    requires Shaped(d, wire) && n <= |wire.history|
  {
    Fetch(d.plan, ReadBy(wire, n), Joined(d.replies[..n]), LowestOf(wire.history, n), retried, false)
  }

  /** Chunk `n` is answered for the keys that are next, from the store that it finds. */
  ghost predicate ChunkFits(d: Pulled, wire: Wire, n: nat)
    requires Shaped(d, wire) && n < |wire.history|
  {
    var done := |ReadBy(wire, n)|;
    && ValidStore(wire.history[n]) && done + Size(wire, n) <= |d.plan.keys| == |d.plan.since|
    && ChunkReply(wire.history[n], d.plan.bits, d.plan.keys[done..], d.plan.since[done..], Size(wire, n), d.replies[n])
  }

  lemma {:induction false} ReadByLength(wire: Wire, keys: nat, n: nat)
    requires wire.Answers? && WireFits(wire, keys) && n <= |wire.history|
    ensures |ReadBy(wire, n)| == wire.cuts[n]
  {
    if n > 0 {
      ReadByLength(wire, keys, n - 1);
    }
  }

  lemma PulledFits(d: Pulled, wire: Wire, n: nat)
    requires PulledFrom(d, wire) && n < |wire.history|
    ensures ChunkFits(d, wire, n)
  {
    ReadByLength(wire, |d.plan.keys|, n);
    assert ReplyFits(d.plan.bits, d.plan.keys, d.plan.since, wire, n, d.replies[n]);
  }

  lemma AllFit(d: Pulled, wire: Wire)
    requires PulledFrom(d, wire)
    ensures Shaped(d, wire) && forall n :: 0 <= n < |wire.history| ==> ChunkFits(d, wire, n)
  {
    forall n | 0 <= n < |wire.history|
      ensures ChunkFits(d, wire, n)
    {
      PulledFits(d, wire, n);
    }
  }

  function ChunkEvent(d: Pulled, wire: Wire, n: nat): Event
    requires Shaped(d, wire) && n < |wire.history|
  {
    FetchChunk(Size(wire, n), d.replies[n])
  }

  ghost function ChunkEvents(store: Store, d: Pulled, wire: Wire, n: nat): seq<Event>
    requires Shaped(d, wire) && n < |wire.history|
  {
    [Becomes(Found(store, wire, n), wire.history[n]), ChunkEvent(d, wire, n)]
  }

  ghost function WireEvents(store: Store, d: Pulled, wire: Wire, n: nat): seq<Event>
    requires Shaped(d, wire) && n <= |wire.history|
  {
    if n == 0 then [] else WireEvents(store, d, wire, n - 1) + ChunkEvents(store, d, wire, n - 1)
  }

  lemma ReadOneMore(d: Pulled, wire: Wire, retried: bool, n: nat)
    requires Shaped(d, wire) && n < |wire.history|
    ensures TakeChunk(ReadPart(d, wire, retried, n), wire.history[n], Size(wire, n), d.replies[n])
            == ReadPart(d, wire, retried, n + 1)
  {
    assert d.replies[..n + 1] == d.replies[..n] + [d.replies[n]];
    OneMoreJoined(d.replies[..n], d.replies[n]);
  }

  lemma ChunkRuns(st: State, d: Pulled, wire: Wire, retried: bool, n: nat)
    requires Shaped(d, wire) && n < |wire.history| && ChunkFits(d, wire, n)
    requires st.pull == Some(ReadPart(d, wire, retried, n))
    ensures var events := [Becomes(st.store, wire.history[n]), ChunkEvent(d, wire, n)];
            && CanRun(st, events)
            && After(st, events) == st.(store := wire.history[n], pull := Some(ReadPart(d, wire, retried, n + 1)))
  {
    var met := st.(store := wire.history[n]);
    var e, chunk := Becomes(st.store, wire.history[n]), ChunkEvent(d, wire, n);
    ReadOneMore(d, wire, retried, n);
    RunCons(met, chunk, []);
    RunCons(st, e, [chunk]);
    assert [e] + [chunk] == [e, chunk];
  }

  lemma {:induction false} WireRuns(st: State, d: Pulled, wire: Wire, retried: bool, n: nat)
    requires Shaped(d, wire) && n <= |wire.history| && st.pull == Some(Unread(d.plan, retried))
    requires forall k :: 0 <= k < |wire.history| ==> ChunkFits(d, wire, k)
    ensures var events := WireEvents(st.store, d, wire, n);
            && CanRun(st, events)
            && After(st, events) == st.(store := Found(st.store, wire, n), pull := Some(ReadPart(d, wire, retried, n)))
    decreases n
  {
    if n > 0 {
      WireRuns(st, d, wire, retried, n - 1);
      var before := WireEvents(st.store, d, wire, n - 1);
      ChunkRuns(After(st, before), d, wire, retried, n - 1);
      RunConcat(st, before, ChunkEvents(st.store, d, wire, n - 1));
    }
  }

  /** One fetch, chunk by chunk. */
  ghost function FetchEvents(store: Store, d: Pulled, wire: Wire): seq<Event>
    requires Shaped(d, wire)
  {
    WireEvents(store, d, wire, |wire.history|)
  }

  function LastFound(store: Store, wire: Wire): Store {
    if wire.Down? || wire.history == [] then store else wire.history[|wire.history| - 1]
  }

  lemma ReadsAll(d: Pulled, wire: Wire, retried: bool)
    requires PulledFrom(d, wire)
    ensures ReadPart(d, wire, retried, |wire.history|) == ReadAll(d, retried)
  {
    var i := LowestIs(wire.history, |wire.history|);
    assert d.replies[..|wire.history|] == d.replies;
  }

  lemma ReadingRuns(st: State, d: Pulled, wire: Wire, retried: bool)
    requires Shaped(d, wire) && wire.history != [] && st.pull == Some(Unread(d.plan, retried))
    requires forall n :: 0 <= n < |wire.history| ==> ChunkFits(d, wire, n)
    requires ReadPart(d, wire, retried, |wire.history|) == ReadAll(d, retried)
    ensures var events := FetchEvents(st.store, d, wire);
            && CanRun(st, events)
            && After(st, events) == st.(store := LastFound(st.store, wire), pull := Some(ReadAll(d, retried)))
  {
    WireRuns(st, d, wire, retried, |wire.history|);
  }

  lemma FetchRuns(st: State, d: Pulled, wire: Wire, retried: bool)
    requires PulledFrom(d, wire) && st.pull == Some(Unread(d.plan, retried))
    ensures var events := FetchEvents(st.store, d, wire);
            && CanRun(st, events)
            && After(st, events) == st.(store := LastFound(st.store, wire), pull := Some(ReadAll(d, retried)))
  {
    AllFit(d, wire);
    ReadsAll(d, wire, retried);
    ReadingRuns(st, d, wire, retried);
  }

  // ---- The files imported meanwhile ----------------------------------------

  function ImportEvents(hashes: seq<Hash>): seq<Event> {
    seq(|hashes|, i requires 0 <= i < |hashes| => Import(hashes[i]))
  }

  lemma NotYet(files: seq<Hash>, hashes: seq<Hash>)
    requires hashes != [] && forall i, j :: 0 <= i < j < |files + hashes| ==> (files + hashes)[i] != (files + hashes)[j]
    ensures hashes[0] !in files
  {
    var all := files + hashes;
    assert all[|files|] == hashes[0];
    forall i | 0 <= i < |files|
      ensures files[i] != hashes[0]
    {
      assert all[i] == files[i];
    }
  }

  lemma {:induction false} ImportsRun(st: State, hashes: seq<Hash>)
    requires ValidClient(st.client.(files := st.client.files + hashes))
    ensures CanRun(st, ImportEvents(hashes))
    ensures After(st, ImportEvents(hashes)) == st.(client := st.client.(files := st.client.files + hashes))
    decreases |hashes|
  {
    var files := st.client.files;
    if hashes == [] {
      assert files + hashes == files;
    } else {
      var h, rest := hashes[0], hashes[1..];
      assert files + hashes == files + [h] + rest;
      NotYet(files, hashes);
      var next := Step(st, Import(h));
      ImportsRun(next, rest);
      RunCons(st, Import(h), ImportEvents(rest));
      assert [Import(h)] + ImportEvents(rest) == ImportEvents(hashes);
    }
  }

  // ---- The whole pull ------------------------------------------------------

  /** What follows the first fetch: a merge, or a second fetch and its merge, or nothing. */
  ghost function RetryEvents(store: Store, stored: Option<nat>, first: Wire, again: Wire, d: Pulled): seq<Event>
    requires WentBack(stored, first) && again.Answers? ==> PulledFrom(d, again)
  {
    if !WentBack(stored, first) then [CheckCursor, Merge]
    else if again.Down? then [CheckCursor, Abort]
    else [CheckCursor] + (FetchEvents(store, d, again) + [CheckCursor, Merge])
  }

  ghost function BothFetches(store: Store, plan: Plan, first: Wire, again: Wire, ok: bool, look: Pulled, d: Pulled)
    : seq<Event>
    requires Fetches(plan, first, again, ok, look, d)
  {
    if first.Down? then [Abort]
    else FetchEvents(store, look, first) + RetryEvents(LastFound(store, first), plan.stored, first, again, d)
  }

  ghost function PullEvents(store: Store, plan: Plan, imported: seq<Hash>, first: Wire, again: Wire, ok: bool,
                            look: Pulled, d: Pulled): seq<Event>
    requires Fetches(plan, first, again, ok, look, d)
  {
    [Begin(plan.bits)] + (ImportEvents(imported) + BothFetches(store, plan, first, again, ok, look, d))
  }

  /** The store as the last chunk found it. */
  ghost function FinalStore(store: Store, stored: Option<nat>, first: Wire, again: Wire): Store {
    if WentBack(stored, first) then LastFound(LastFound(store, first), again) else LastFound(store, first)
  }

  /** The pull is over, merged or given up. */
  ghost function Ended(st: State, store: Store, ok: bool, d: Pulled): State
    requires ok ==> |d.plan.since| == |d.plan.keys|
  {
    st.(store := store, pull := None,
        client := if ok then MergeDelta(st.client, d.plan, d.changes, d.cursor) else st.client)
  }

  lemma MergeEnds(st: State, d: Pulled, retried: bool)
    requires st.pull == Some(ReadAll(d, retried)) && |d.plan.since| == |d.plan.keys| == |d.versions|
    requires retried || d.plan.stored.None? || d.cursor >= d.plan.stored.value
    ensures CanRun(st, [CheckCursor, Merge])
    ensures After(st, [CheckCursor, Merge])
            == st.(client := MergeDelta(st.client, d.plan, d.changes, d.cursor), pull := None)
  {
    var checked := Step(st, CheckCursor);
    assert checked == st.(pull := Some(ReadAll(d, retried).(checked := true)));
    RunCons(checked, Merge, []);
    RunCons(st, CheckCursor, [Merge]);
  }

  lemma AbortEnds(st: State)
    requires st.pull.Some?
    ensures CanRun(st, [Abort]) && After(st, [Abort]) == st.(pull := None)
  {
    RunCons(st, Abort, []);
  }

  lemma RetryEnds(st: State, plan: Plan, first: Wire, again: Wire, ok: bool, look: Pulled, d: Pulled)
    requires Fetches(plan, first, again, ok, look, d) && first.Answers? && st.pull == Some(ReadAll(look, false))
    ensures var events := RetryEvents(st.store, plan.stored, first, again, d);
            && CanRun(st, events)
            && After(st, events) ==
                 Ended(st, if WentBack(plan.stored, first) then LastFound(st.store, again) else st.store, ok, d)
  {
    WentBackIff(plan.stored, look, first);
    if !WentBack(plan.stored, first) {
      MergeEnds(st, d, false);
    } else {
      var asking := Step(st, CheckCursor);
      assert asking == st.(pull := Some(Unread(plan.(since := Repeat(0, |plan.keys|)), true)));
      if again.Down? {
        AbortEnds(asking);
        RunCons(st, CheckCursor, [Abort]);
      } else {
        FetchRuns(asking, d, again, true);
        MergeEnds(After(asking, FetchEvents(st.store, d, again)), d, true);
        RunConcat(asking, FetchEvents(st.store, d, again), [CheckCursor, Merge]);
        RunCons(st, CheckCursor, FetchEvents(st.store, d, again) + [CheckCursor, Merge]);
      }
    }
  }

  lemma FetchedEnds(st: State, plan: Plan, first: Wire, again: Wire, ok: bool, look: Pulled, d: Pulled)
    requires Fetches(plan, first, again, ok, look, d) && st.pull == Some(Unread(plan, false))
    ensures var events := BothFetches(st.store, plan, first, again, ok, look, d);
            && CanRun(st, events)
            && After(st, events) == Ended(st, FinalStore(st.store, plan.stored, first, again), ok, d)
  {
    if first.Down? {
      AbortEnds(st);
    } else {
      FetchRuns(st, look, first, false);
      var fetched := After(st, FetchEvents(st.store, look, first));
      RetryEnds(fetched, plan, first, again, ok, look, d);
      RunConcat(st, FetchEvents(st.store, look, first), RetryEvents(fetched.store, plan.stored, first, again, d));
    }
  }

  /**
   * Whatever `PullDomainDelta` does to the library, some run of the protocol does to it: the locked
   * read, imports, the store as each chunk finds it, the check of the cursor, the merge or giving up.
   */
  lemma PullIsRun(st: State, after: Client, imported: seq<Hash>, bits: nat, first: Wire, again: Wire, ok: bool,
                  look: Pulled, d: Pulled)
    requires Enabled(st, Begin(bits))
    requires var met := st.client.(files := st.client.files + imported);
             ValidClient(met) && Outcome(st.client, met, after, bits, first, again, ok, look, d)
    ensures var events := PullEvents(st.store, MakePlan(st.client, bits), imported, first, again, ok, look, d);
            && CanRun(st, events)
            && After(st, events) == st.(store := FinalStore(st.store, st.client.cursor, first, again), client := after)
  {
    var plan := MakePlan(st.client, bits);
    var begun := Step(st, Begin(bits));
    ImportsRun(begun, imported);
    var met := After(begun, ImportEvents(imported));
    FetchedEnds(met, plan, first, again, ok, look, d);
    var rest := BothFetches(st.store, plan, first, again, ok, look, d);
    RunConcat(begun, ImportEvents(imported), rest);
    RunCons(st, Begin(bits), ImportEvents(imported) + rest);
  }

  // ---- So it keeps the mirror in step --------------------------------------

  /** Each chunk finds the store as it was or grown. */
  ghost predicate OnlyGrows(store: Store, wire: Wire) {
    wire.Answers? ==>
      forall n {:trigger Found(store, wire, n)} :: 0 <= n < |wire.history| ==>
          GrowsTo(Found(store, wire, n), wire.history[n])
  }

  predicate Gentle(events: seq<Event>) {
    forall k :: 0 <= k < |events| ==> !events[k].Reseed? && !events[k].FileWrite?
  }

  lemma GentleConcat(a: seq<Event>, b: seq<Event>)
    requires Gentle(a) && Gentle(b)
    ensures Gentle(a + b)
  {
  }

  lemma {:induction false} GentleWire(store: Store, d: Pulled, wire: Wire, n: nat)
    requires Shaped(d, wire) && n <= |wire.history| && OnlyGrows(store, wire)
    ensures Gentle(WireEvents(store, d, wire, n))
    decreases n
  {
    if n > 0 {
      GentleWire(store, d, wire, n - 1);
      assert Becomes(Found(store, wire, n - 1), wire.history[n - 1]) == Grow(wire.history[n - 1]);
      GentleConcat(WireEvents(store, d, wire, n - 1), ChunkEvents(store, d, wire, n - 1));
    }
  }

  lemma GentleRetry(store: Store, stored: Option<nat>, first: Wire, again: Wire, d: Pulled)
    requires WentBack(stored, first) && again.Answers? ==> PulledFrom(d, again)
    requires OnlyGrows(store, again)
    ensures Gentle(RetryEvents(store, stored, first, again, d))
  {
    if WentBack(stored, first) && again.Answers? {
      var fetch := FetchEvents(store, d, again);
      GentleWire(store, d, again, |again.history|);
      GentleConcat(fetch, [CheckCursor, Merge]);
      GentleConcat([CheckCursor], fetch + [CheckCursor, Merge]);
    }
  }

  lemma GentlePull(store: Store, plan: Plan, imported: seq<Hash>, first: Wire, again: Wire, ok: bool, look: Pulled,
                   d: Pulled)
    requires Fetches(plan, first, again, ok, look, d)
    requires OnlyGrows(store, first) && OnlyGrows(LastFound(store, first), again)
    ensures Gentle(PullEvents(store, plan, imported, first, again, ok, look, d))
  {
    var rest := [Abort];
    if first.Answers? {
      var fetch := FetchEvents(store, look, first);
      var retry := RetryEvents(LastFound(store, first), plan.stored, first, again, d);
      GentleWire(store, look, first, |first.history|);
      GentleRetry(LastFound(store, first), plan.stored, first, again, d);
      GentleConcat(fetch, retry);
      rest := fetch + retry;
    }
    GentleConcat(ImportEvents(imported), rest);
    GentleConcat([Begin(plan.bits)], ImportEvents(imported) + rest);
  }

  lemma {:induction false} GentleKeeps(st: State, events: seq<Event>)
    requires MirrorInv(st) && CanRun(st, events) && Gentle(events)
    ensures MirrorInv(After(st, events))
    decreases |events|
  {
    if events != [] {
      MirrorKept(st, events[0]);
      GentleKeeps(Step(st, events[0]), events[1..]);
    }
  }

  /** A pull of a store that only grows, merged or given up, leaves the mirror in step with what it found last. */
  lemma PullKeepsInStep(st: State, after: Client, imported: seq<Hash>, bits: nat, first: Wire, again: Wire, ok: bool,
                        look: Pulled, d: Pulled)
    requires MirrorInv(st) && Enabled(st, Begin(bits))
    requires var met := st.client.(files := st.client.files + imported);
             ValidClient(met) && Outcome(st.client, met, after, bits, first, again, ok, look, d)
    requires OnlyGrows(st.store, first) && OnlyGrows(LastFound(st.store, first), again)
    ensures Synced(FinalStore(st.store, st.client.cursor, first, again), after)
  {
    var events := PullEvents(st.store, MakePlan(st.client, bits), imported, first, again, ok, look, d);
    PullIsRun(st, after, imported, bits, first, again, ok, look, d);
    GentlePull(st.store, MakePlan(st.client, bits), imported, first, again, ok, look, d);
    GentleKeeps(st, events);
  }
}
