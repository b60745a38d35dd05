/** Every run of samples and flushes of one key: the incremental flush equals a full one. */
module FlushRuns {
  import opened Wrappers
  import opened Rounding
  import opened Bars
  import opened LiveCandles
  import opened LiveCandleLaws
  import opened IntradayStore

  // ----- Runs --------------------------------------------------------------------

  datatype Pending = Pending(batch: Batch, upTo: nat)

  // lane: what the engine keeps; history: every sample it ever accepted; flushed: how many of those the
  // last committed flush had seen.
  datatype Flow = Flow(lane: Lane, history: seq<Sample>, since: Option<int>, table: Table, flushed: nat,
                       pending: Option<Pending>)

  // Ring depth and ownership TTL of the engine.
  datatype Settings = Settings(cap: nat, ttl: real)

  // What the last committed flush had seen.
  function Seen(f: Flow): seq<Sample> {
    if f.flushed <= |f.history| then f.history[..f.flushed] else f.history
  }

  // A flush reads the ring, waits for the database, and ends; readings may arrive while it waits.
  datatype Event = Recorded(r: Reading) | BeginFlush | Commit | Fail

  const EMPTY_FLOW := Flow(Lane([], None, 0.0), [], None, map[], 0, None)

  // The ring still holds a sample from before the marked second, or has never forgotten anything.
  predicate RingReaches(history: seq<Sample>, cap: nat, since: Option<int>) {
    |history| <= cap || (cap > 0 && since.Some? && SlotOf(history[|history| - cap], 1.0) < since.value)
  }

  // Time order of accepted readings, one flush at a time, and a ring that reaches back to the mark.
  predicate Allowed(f: Flow, e: Event, c: Settings) {
    match e
    case Recorded(r) => Accepts(f.lane, r, c.ttl) && f.history != [] ==> f.history[|f.history| - 1].ts <= r.ts
    case BeginFlush => f.pending.None? && RingReaches(f.history, c.cap, f.since)
    case Commit => f.pending.Some?
    case Fail => f.pending.Some?
  }

  function Apply(f: Flow, e: Event, c: Settings): Flow {
    match e
    case Recorded(r) =>
      f.(lane := Step(f.lane, r, c.cap, c.ttl),
         history := if Accepts(f.lane, r, c.ttl) then f.history + [ToSample(r)] else f.history)
    case BeginFlush =>
      var plan := Plan(f.lane.ring, f.since);
      f.(pending := if plan.Some? then Some(Pending(plan.value, |f.history|)) else None)
    case Commit =>
      if f.pending.None? then f
      else
        var p := f.pending.value;
        Flow(f.lane, f.history, Some(p.batch.mark), Upsert(f.table, p.batch.rows), p.upTo, None)
    case Fail => f.(pending := None)
  }

  function Run(events: seq<Event>, c: Settings): Flow {
    if events == [] then EMPTY_FLOW else Apply(Run(events[..|events| - 1], c), events[|events| - 1], c)
  }

  ghost predicate AllAllowed(events: seq<Event>, c: Settings) {
    forall i :: 0 <= i < |events| ==> Allowed(Run(events[..i], c), events[i], c)
  }

  function MarkAfter(history: seq<Sample>, n: nat): Option<int>
    requires n <= |history|
  {
    if n == 0 then None else Some(SlotOf(history[n - 1], 1.0))
  }

  // The ring is the tail of the history, and the table is that of a from-scratch build over everything
  // the last committed flush had seen.
  ghost predicate Faithful(f: Flow, cap: nat) {
    && TimeOrdered(f.history)
    && f.lane.ring == KeepLast(f.history, cap)
    && f.flushed <= |f.history|
    && f.since == MarkAfter(f.history, f.flushed)
    && f.table == FullTable(Seen(f))
    && (f.pending.Some? ==>
        var p := f.pending.value;
        && f.flushed <= p.upTo <= |f.history|
        && Some(p.batch.mark) == MarkAfter(f.history, p.upTo)
        && Upsert(f.table, p.batch.rows) == FullTable(f.history[..p.upTo]))
  }

  // ----- One flush writes what a full rebuild would --------------------------------

  lemma TagOfPrefix(history: seq<Sample>, n: nat)
    requires n <= |history|
    ensures Tag(history[..n], 1.0) == Tag(history, 1.0)[..n]
  {
  }

  // Forgetting the first m samples only changes the tag of sample m itself.
  lemma TagOfSuffix(history: seq<Sample>, m: nat)
    requires m < |history|
    ensures Tag(history[m..], 1.0)[1..] == Tag(history, 1.0)[m + 1..]
    ensures Tag(history[m..], 1.0)[0] == Slotted(SlotOf(history[m], 1.0), Point(history[m].price, 0))
  {
  }

  lemma PickAbsent(xs: seq<Slotted>, k: int)
    requires forall i :: 0 <= i < |xs| ==> xs[i].slot != k
    ensures Pick(xs, k) == []
  {
  }

  lemma PickFromRing(history: seq<Sample>, m: nat, k: int)
    requires TimeOrdered(history) && m < |history|
    requires m == 0 || SlotOf(history[m], 1.0) < k
    ensures Pick(Tag(history[m..], 1.0), k) == Pick(Tag(history, 1.0), k)
  {
    var xs, ring := Tag(history, 1.0), Tag(history[m..], 1.0);
    if m == 0 {
      assert history[0..] == history;
    } else {
      SlotsAscend(history, 1.0);
      TagOfSuffix(history, m);
      assert xs == xs[..m + 1] + xs[m + 1..] && ring == [ring[0]] + ring[1..];
      var head := xs[..m + 1];
      forall i | 0 <= i < |head|
        ensures head[i].slot != k
      {
        assert i < m ==> xs[i].slot <= xs[m].slot;
      }
      PickAbsent(head, k);
      PickAbsent([ring[0]], k);
      PickConcat(xs[..m + 1], xs[m + 1..], k);
      PickConcat([ring[0]], ring[1..], k);
    }
  }

  lemma PickBeforeMark(history: seq<Sample>, n: nat, k: int)
    requires TimeOrdered(history) && 0 < n <= |history| && k < SlotOf(history[n - 1], 1.0)
    ensures Pick(Tag(history[..n], 1.0), k) == Pick(Tag(history, 1.0), k)
  {
    var xs := Tag(history, 1.0);
    SlotsAscend(history, 1.0);
    TagOfPrefix(history, n);
    assert xs == xs[..n] + xs[n..];
    forall i | 0 <= i < |history| - n
      ensures xs[n..][i].slot != k
    {
      assert xs[n - 1].slot <= xs[n + i].slot;
    }
    PickAbsent(xs[n..], k);
    PickConcat(xs[..n], xs[n..], k);
  }

  /** Bars strictly below the high-water mark are final: no later sample can change them. */
  lemma BarsBelowMarkFinal(history: seq<Sample>, n: nat, k: int)
    requires TimeOrdered(history) && 0 < n <= |history| && k < SlotOf(history[n - 1], 1.0)
    ensures k in FullTable(history[..n]) <==> k in FullTable(history)
    ensures k in FullTable(history) ==> FullTable(history[..n])[k] == FullTable(history)[k]
  {
    PickBeforeMark(history, n, k);
    FullTableMeaning(history, k);
    FullTableMeaning(history[..n], k);
    PickNonEmpty(Tag(history, 1.0), k);
    PickNonEmpty(Tag(history[..n], 1.0), k);
  }

  // The value of the flushed table at one second.
  lemma FlushAt(ring: seq<Sample>, since: Option<int>, table: Table, k: int)
    requires 0 < |ring| <= FLUSH_LIMIT && TimeOrdered(ring) && Plan(ring, since).Some?
    ensures var rows, xs := Plan(ring, since).value.rows, Tag(ring, 1.0);
      && (HasSlot(rows, k) <==> Pick(xs, k) != [] && (since.None? || k >= since.value))
      && (k in Upsert(table, rows) <==> k in table || HasSlot(rows, k))
      && (HasSlot(rows, k) ==> Upsert(table, rows)[k] == RoundBar(MergeAll(Pick(xs, k))))
      && (!HasSlot(rows, k) && k in table ==> Upsert(table, rows)[k] == table[k])
  {
    var rows, xs := Plan(ring, since).value.rows, Tag(ring, 1.0);
    var bars := SecondBars(ring);
    SecondBarsOfRing(ring);
    SecondBarsMeaning(xs, k);
    FreshRows(bars, since, k);
    PickNonEmpty(xs, k);
    UpsertMeaning(table, rows, k);
    if HasSlot(rows, k) {
      var i :| 0 <= i < |rows| && rows[i].slot == k;
      assert rows[i] in rows;
      assert rows[i] in bars;
    }
  }

  lemma PlanExists(ring: seq<Sample>, since: Option<int>)
    requires 0 < |ring| <= FLUSH_LIMIT && TimeOrdered(ring)
    requires since.Some? ==> since.value <= SlotOf(ring[|ring| - 1], 1.0)
    ensures Plan(ring, since).Some?
    ensures Plan(ring, since).value.mark == SlotOf(ring[|ring| - 1], 1.0)
  {
    var bars := SecondBars(ring);
    SecondBarsOfRing(ring);
    var k := SlotOf(ring[|ring| - 1], 1.0);
    assert HasSlot(bars, k) by {
      assert bars[|bars| - 1].slot == k;
    }
    FreshRows(bars, since, k);
  }

  // What a table holds at one second of a history: nothing, or the rounded merge of its samples.
  ghost predicate HoldsAt(table: Table, xs: seq<Slotted>, k: int) {
    && (k in table <==> Pick(xs, k) != [])
    && (k in table ==> table[k] == RoundBar(MergeAll(Pick(xs, k))))
  }

  lemma FullTableHolds(history: seq<Sample>, k: int)
    ensures HoldsAt(FullTable(history), Tag(history, 1.0), k)
  {
    FullTableMeaning(history, k);
    PickNonEmpty(Tag(history, 1.0), k);
  }

  lemma FlushHolds(ring: seq<Sample>, since: Option<int>, table: Table, before: seq<Slotted>, now: seq<Slotted>, k: int)
    requires 0 < |ring| <= FLUSH_LIMIT && TimeOrdered(ring) && Plan(ring, since).Some?
    requires HoldsAt(table, before, k)
    requires if since.Some? && k < since.value then Pick(before, k) == Pick(now, k)
             else Pick(Tag(ring, 1.0), k) == Pick(now, k) && (Pick(before, k) != [] ==> Pick(now, k) != [])
    ensures HoldsAt(Upsert(table, Plan(ring, since).value.rows), now, k)
  {
    FlushAt(ring, since, table, k);
  }

  lemma PickOfPrefix(xs: seq<Slotted>, n: nat, k: int)
    requires n <= |xs| && Pick(xs[..n], k) != []
    ensures Pick(xs, k) != []
  {
    assert xs == xs[..n] + xs[n..];
    PickConcat(xs[..n], xs[n..], k);
  }

  lemma RingFacts(history: seq<Sample>, cap: nat, since: Option<int>)
    requires TimeOrdered(history) && history != [] && cap > 0 && RingReaches(history, cap, since)
    ensures var ring := KeepLast(history, cap);
      var m := |history| - |ring|;
      && 0 < |ring| <= cap && |ring| <= |history| && ring == history[m..] && TimeOrdered(ring)
      && (m == 0 || (since.Some? && SlotOf(history[m], 1.0) < since.value))
  {
  }

  lemma FlushedAtIsFull(history: seq<Sample>, cap: nat, flushed: nat, k: int)
    requires TimeOrdered(history) && flushed <= |history| && history != [] && 0 < cap <= FLUSH_LIMIT
    requires RingReaches(history, cap, MarkAfter(history, flushed))
    requires Plan(KeepLast(history, cap), MarkAfter(history, flushed)).Some?
    ensures var plan := Plan(KeepLast(history, cap), MarkAfter(history, flushed)).value;
      HoldsAt(Upsert(FullTable(history[..flushed]), plan.rows), Tag(history, 1.0), k)
  {
    var since := MarkAfter(history, flushed);
    var ring := KeepLast(history, cap);
    var m := |history| - |ring|;
    RingFacts(history, cap, since);
    hide Plan, Upsert, FullTable, Pick, MergeAll, RoundBar, Tag, HoldsAt, KeepLast, TimeOrdered, RingReaches, SlotOf;
    FullTableHolds(history[..flushed], k);
    TagOfPrefix(history, flushed);
    if since.Some? && k < since.value {
      PickBeforeMark(history, flushed, k);
    } else {
      PickFromRing(history, m, k);
      if Pick(Tag(history, 1.0)[..flushed], k) != [] {
        PickOfPrefix(Tag(history, 1.0), flushed, k);
      }
    }
    FlushHolds(ring, since, FullTable(history[..flushed]), Tag(history[..flushed], 1.0), Tag(history, 1.0), k);
  }

  /** A flush from a ring that reaches back to the mark leaves the table of a full rebuild. */
  lemma FlushIsFull(history: seq<Sample>, cap: nat, flushed: nat)
    requires TimeOrdered(history) && flushed <= |history| && history != [] && 0 < cap <= FLUSH_LIMIT
    requires RingReaches(history, cap, MarkAfter(history, flushed))
    ensures var plan := Plan(KeepLast(history, cap), MarkAfter(history, flushed));
      && plan.Some?
      && Some(plan.value.mark) == MarkAfter(history, |history|)
      && Upsert(FullTable(history[..flushed]), plan.value.rows) == FullTable(history)
  {
    var since := MarkAfter(history, flushed);
    var ring := KeepLast(history, cap);
    SlotsAscend(history, 1.0);
    assert flushed > 0 ==> Tag(history, 1.0)[flushed - 1].slot <= Tag(history, 1.0)[|history| - 1].slot;
    PlanExists(ring, since);
    hide Plan, Upsert, FullTable, Tag, TimeOrdered, RingReaches;
    var table := Upsert(FullTable(history[..flushed]), Plan(ring, since).value.rows);
    forall k
      ensures k in table <==> k in FullTable(history)
      ensures k in table ==> table[k] == FullTable(history)[k]
    {
      FlushedAtIsFull(history, cap, flushed, k);
      FullTableHolds(history, k);
    }
  }

  lemma PlanOfNothing(history: seq<Sample>, cap: nat, since: Option<int>)
    requires history == []
    ensures Plan(KeepLast(history, cap), since).None?
  {
  }

  // ----- Every run -------------------------------------------------------------------

  lemma RecordKeepsFaithful(f: Flow, r: Reading, c: Settings)
    requires Faithful(f, c.cap) && Allowed(f, Recorded(r), c)
    ensures Faithful(Apply(f, Recorded(r), c), c.cap)
  {
    hide FullTable, Upsert, SlotOf, KeepLast;
    if Accepts(f.lane, r, c.ttl) {
      var h := f.history + [ToSample(r)];
      KeepLastSnoc(f.history, ToSample(r), c.cap);
      assert h[..f.flushed] == f.history[..f.flushed];
      if f.pending.Some? {
        assert h[..f.pending.value.upTo] == f.history[..f.pending.value.upTo];
      }
    }
  }

  lemma FaithfulStep(f: Flow, e: Event, c: Settings)
    requires Faithful(f, c.cap) && Allowed(f, e, c) && 0 < c.cap <= FLUSH_LIMIT
    ensures Faithful(Apply(f, e, c), c.cap)
  {
    hide FullTable, Plan, Upsert, RingReaches, SlotOf, KeepLast;
    match e
    case Recorded(r) => RecordKeepsFaithful(f, r, c);
    case BeginFlush =>
      if f.history == [] {
        PlanOfNothing(f.history, c.cap, f.since);
      } else {
        FlushIsFull(f.history, c.cap, f.flushed);
        assert f.history[..|f.history|] == f.history;
      }
    case Commit =>
    case Fail =>
  }

  lemma AllAllowedPrefix(events: seq<Event>, c: Settings)
    requires events != [] && AllAllowed(events, c)
    ensures AllAllowed(events[..|events| - 1], c)
    ensures Allowed(Run(events[..|events| - 1], c), events[|events| - 1], c)
  {
    hide Run, Allowed;
    var n := |events| - 1;
    assert forall i :: 0 <= i < n ==> events[..n][i] == events[i] && events[..n][..i] == events[..i];
  }

  /** In every run, at every moment, the stored table is exactly the 1-second build of all samples seen
      by the last successful flush, however many flushes failed or samples came in between. */
  lemma {:induction false} IncrementalEqualsFull(events: seq<Event>, c: Settings)
    requires AllAllowed(events, c) && 0 < c.cap <= FLUSH_LIMIT
    ensures Faithful(Run(events, c), c.cap)
  {
    if events == [] {
      EmptyIsFaithful(c.cap);
    } else {
      var n := |events| - 1;
      AllAllowedPrefix(events, c);
      hide Faithful, Allowed, Apply, AllAllowed;
      IncrementalEqualsFull(events[..n], c);
      FaithfulStep(Run(events[..n], c), events[n], c);
    }
  }

  // The later flow has accepted all the earlier one had, and its last flush saw all that one's had seen.
  ghost predicate Extends(later: Flow, f: Flow) {
    f.history <= later.history && f.flushed <= later.flushed
  }

  lemma StepExtends(f: Flow, e: Event, c: Settings)
    requires Faithful(f, c.cap)
    ensures Extends(Apply(f, e, c), f)
  {
    hide FullTable, Upsert, Plan, Step, Accepts;
  }

  lemma {:induction false} RunExtends(events: seq<Event>, more: seq<Event>, c: Settings)
    requires AllAllowed(events + more, c) && 0 < c.cap <= FLUSH_LIMIT
    ensures Extends(Run(events + more, c), Run(events, c))
    ensures AllAllowed(events, c)
    decreases |more|
  {
    if more == [] {
      assert events + more == events;
    } else {
      var n := |more| - 1;
      var sofar := events + more[..n];
      assert events + more == sofar + [more[n]];
      assert (sofar + [more[n]])[..|sofar|] == sofar;
      assert Run(sofar + [more[n]], c) == Apply(Run(sofar, c), more[n], c);
      hide Faithful, Allowed, Apply, AllAllowed, Run;
      AllAllowedPrefix(sofar + [more[n]], c);
      RunExtends(events, more[..n], c);
      IncrementalEqualsFull(sofar, c);
      StepExtends(Run(sofar, c), more[n], c);
    }
  }

  /** Every stored row strictly below the high-water mark is final: however the run goes on, the table
      holds the same there for ever. */
  lemma StoredRowsBelowMarkFinal(events: seq<Event>, more: seq<Event>, c: Settings, k: int)
    requires AllAllowed(events + more, c) && 0 < c.cap <= FLUSH_LIMIT
    requires var f := Run(events, c); f.since.Some? && k < f.since.value
    ensures var f, later := Run(events, c), Run(events + more, c);
      && (k in f.table <==> k in later.table)
      && (k in f.table ==> f.table[k] == later.table[k])
  {
    hide Run, FullTable, KeepLast, AllAllowed;
    RunExtends(events, more, c);
    IncrementalEqualsFull(events, c);
    IncrementalEqualsFull(events + more, c);
    FinalBetween(Run(events, c), Run(events + more, c), c.cap, k);
  }

  lemma FinalBetween(f: Flow, later: Flow, cap: nat, k: int)
    requires Faithful(f, cap) && Faithful(later, cap) && Extends(later, f)
    requires f.since.Some? && k < f.since.value
    ensures k in f.table <==> k in later.table
    ensures k in f.table ==> f.table[k] == later.table[k]
  {
    hide FullTable, KeepLast, SlotOf, Upsert;
    var seen := later.history[..later.flushed];
    assert seen[..f.flushed] == f.history[..f.flushed];
    assert seen[f.flushed - 1] == f.history[f.flushed - 1];
    BarsBelowMarkFinal(seen, f.flushed, k);
  }

  lemma EmptyIsFaithful(cap: nat)
    ensures Faithful(EMPTY_FLOW, cap)
  {
    forall k
      ensures k !in FullTable([])
    {
      FullTableMeaning([], k);
    }
    assert EMPTY_FLOW.history[..0] == [];
  }

  // ----- Exactly when a flush is full ---------------------------------------------------

  lemma {:induction false} PickVolumeNonNegative(xs: seq<Slotted>, k: int)
    requires forall i :: 0 <= i < |xs| ==> xs[i].bar.volume >= 0
    ensures Volume(Pick(xs, k)) >= 0
  {
    if xs != [] {
      hide Pick, Volume;
      var n := |xs| - 1;
      PickVolumeNonNegative(xs[..n], k);
      SplitLast(xs);
      PickSnoc(xs[..n], xs[n], k);
      VolumeSnoc(Pick(xs[..n], k), xs[n].bar);
    }
  }

  lemma PickOfOne(x: Slotted)
    ensures Pick([x], x.slot) == [x.bar] && Volume(Pick([x], x.slot)) == x.bar.volume
  {
  }

  lemma SlotOccurs(samples: seq<Sample>, i: nat)
    requires i < |samples|
    ensures Pick(Tag(samples, 1.0), SlotOf(samples[i], 1.0)) != []
  {
    var xs := Tag(samples, 1.0);
    assert xs[i].slot == SlotOf(samples[i], 1.0);
    assert HasSlot(xs, xs[i].slot);
    PickNonEmpty(xs, xs[i].slot);
  }

  // Merging the lost bar into the kept one would not widen its rounded range nor add volume.
  ghost predicate Absorbs(kept: Bar, lost: Bar) {
    lost.volume == 0 && Round2(kept.low) <= Round2(lost.low) && Round2(lost.high) <= Round2(kept.high)
  }

  // Leaving bars out in front of the kept ones, and d of the first kept one's volume, changes nothing.
  ghost predicate FrontHarmless(lost: seq<Bar>, kept: seq<Bar>, d: int) {
    && kept != [] && d == 0
    && (lost != [] ==>
          && Round2(MergeAll(lost).open) == Round2(MergeAll(kept).open)
          && Absorbs(MergeAll(kept), MergeAll(lost)))
  }

  // Leaving bars out behind the kept ones changes nothing.
  ghost predicate BackHarmless(kept: seq<Bar>, lost: seq<Bar>) {
    && kept != []
    && (lost != [] ==>
          && Round2(MergeAll(lost).close) == Round2(MergeAll(kept).close)
          && Absorbs(MergeAll(kept), MergeAll(lost)))
  }

  lemma FrontHarmlessIff(lost: seq<Bar>, first: Bar, rest: seq<Bar>, d: int)
    requires d >= 0 && Volume(lost) >= 0
    ensures var seen := [first] + rest;
      var all := lost + ([first.(volume := first.volume + d)] + rest);
      RoundBar(MergeAll(all)) == RoundBar(MergeAll(seen)) <==> FrontHarmless(lost, seen, d)
  {
    var first' := first.(volume := first.volume + d);
    if rest == [] {
      assert [first] + rest == [first] && [first'] + rest == [first'];
    } else {
      MergeAllConcat([first], rest);
      MergeAllConcat([first'], rest);
    }
    MergeAllConcat(lost, [first'] + rest);
    if lost != [] {
      MergeAllMeaning(lost);
      RoundMerge(MergeAll(lost), MergeAll([first'] + rest));
    }
    hide MergeAll, Round2, Volume;
  }

  lemma BackHarmlessIff(kept: seq<Bar>, lost: seq<Bar>)
    requires kept != [] && Volume(lost) >= 0
    ensures RoundBar(MergeAll(kept + lost)) == RoundBar(MergeAll(kept)) <==> BackHarmless(kept, lost)
  {
    if lost == [] {
      assert kept + lost == kept;
    } else {
      MergeAllConcat(kept, lost);
      MergeAllMeaning(lost);
      RoundMerge(MergeAll(kept), MergeAll(lost));
    }
    hide MergeAll, Round2, Volume;
  }

  // The ring begins with sample m, at or after the mark: the bars it misses would have changed nothing.
  // A missed bar is in the ring's first second, or in the marked second behind what was flushed.
  ghost predicate NothingMissed(history: seq<Sample>, m: nat, flushed: nat)
    requires m < |history| && flushed <= |history|
  {
    var xs, k, since := Tag(history, 1.0), SlotOf(history[m], 1.0), MarkAfter(history, flushed);
    && (forall i :: 0 <= i < m ==> xs[i].slot == k || (since.Some? && xs[i].slot <= since.value))
    && FrontHarmless(Pick(xs[..m], k), Pick(Tag(history[m..], 1.0), k), Delta(history, m))
    && (since.Some? && since.value < k ==>
          BackHarmless(Pick(xs[..flushed], since.value), Pick(xs[flushed..], since.value)))
  }

  lemma FullIffHolds(table: Table, history: seq<Sample>)
    ensures table == FullTable(history) <==> forall k :: HoldsAt(table, Tag(history, 1.0), k)
  {
    var full := FullTable(history);
    forall k
      ensures HoldsAt(full, Tag(history, 1.0), k)
    {
      FullTableHolds(history, k);
    }
    hide FullTable, Tag, Pick;
    if forall k :: HoldsAt(table, Tag(history, 1.0), k) {
      forall k
        ensures k in table <==> k in full
        ensures k in table ==> table[k] == full[k]
      {
        assert HoldsAt(table, Tag(history, 1.0), k) && HoldsAt(full, Tag(history, 1.0), k);
      }
      assert table == full;
    }
  }

  // The flush of a ring that begins with sample m.
  ghost predicate Flushed(table: Table, history: seq<Sample>, m: nat, flushed: nat)
    requires m < |history| && flushed <= |history|
  {
    var since, ring := MarkAfter(history, flushed), history[m..];
    && TimeOrdered(history) && |ring| <= FLUSH_LIMIT && Plan(ring, since).Some?
    && table == Upsert(FullTable(history[..flushed]), Plan(ring, since).value.rows)
    && (since.Some? ==> since.value <= SlotOf(history[m], 1.0))
  }

  // The samples of the ring's first second: those forgotten, the first kept one, and the rest.
  lemma FirstSecond(history: seq<Sample>, m: nat)
    requires m < |history|
    ensures var k, xs := SlotOf(history[m], 1.0), Tag(history, 1.0);
      var first, rest := Point(history[m].price, 0), Pick(xs[m + 1..], k);
      && Pick(Tag(history[m..], 1.0), k) == [first] + rest
      && Pick(xs, k) == Pick(xs[..m], k) + ([first.(volume := first.volume + Delta(history, m))] + rest)
      && Volume(Pick(xs[..m], k)) >= 0
  {
    var k, xs, ring := SlotOf(history[m], 1.0), Tag(history, 1.0), Tag(history[m..], 1.0);
    TagOfSuffix(history, m);
    assert xs[m] == TagAt(history, 1.0, m);
    assert forall i :: 0 <= i < m ==> xs[..m][i].bar.volume >= 0;
    hide Pick, Tag, SlotOf, Volume;
    assert ring == [ring[0]] + xs[m + 1..] && xs == xs[..m] + ([xs[m]] + xs[m + 1..]);
    PickConcat([ring[0]], xs[m + 1..], k);
    PickConcat(xs[..m], [xs[m]] + xs[m + 1..], k);
    PickConcat([xs[m]], xs[m + 1..], k);
    PickOfOne(ring[0]);
    PickOfOne(xs[m]);
    PickVolumeNonNegative(xs[..m], k);
  }

  lemma AtFirstSecond(table: Table, history: seq<Sample>, m: nat, flushed: nat)
    requires m < |history| && flushed <= |history| && Flushed(table, history, m, flushed)
    ensures var k, xs := SlotOf(history[m], 1.0), Tag(history, 1.0);
      HoldsAt(table, xs, k)
      <==> FrontHarmless(Pick(xs[..m], k), Pick(Tag(history[m..], 1.0), k), Delta(history, m))
  {
    hide Pick, Tag, SlotOf, Volume, FullTable, Upsert, Plan, MergeAll, RoundBar, FrontHarmless, Delta;
    var k, xs := SlotOf(history[m], 1.0), Tag(history, 1.0);
    FirstSecond(history, m);
    FrontHarmlessIff(Pick(xs[..m], k), Point(history[m].price, 0), Pick(xs[m + 1..], k), Delta(history, m));
    FlushAt(history[m..], MarkAfter(history, flushed), FullTable(history[..flushed]), k);
  }

  lemma AtLaterSecond(table: Table, history: seq<Sample>, m: nat, flushed: nat, k: int)
    requires m < |history| && flushed <= |history| && Flushed(table, history, m, flushed)
    requires k > SlotOf(history[m], 1.0)
    ensures HoldsAt(table, Tag(history, 1.0), k)
  {
    hide Pick, Tag, SlotOf, FullTable, Upsert, Plan, MergeAll, RoundBar;
    var since, table0 := MarkAfter(history, flushed), FullTable(history[..flushed]);
    PickFromRing(history, m, k);
    FlushAt(history[m..], since, table0, k);
    FullTableHolds(history[..flushed], k);
    TagOfPrefix(history, flushed);
    if Pick(Tag(history, 1.0)[..flushed], k) != [] {
      PickOfPrefix(Tag(history, 1.0), flushed, k);
    }
  }

  // Before its first second a ring holds nothing.
  lemma NothingBeforeRing(history: seq<Sample>, m: nat, k: int)
    requires TimeOrdered(history) && m < |history| && k < SlotOf(history[m], 1.0)
    ensures Pick(Tag(history[m..], 1.0), k) == []
    ensures Pick(Tag(history, 1.0), k) != [] <==> exists i :: 0 <= i < m && Tag(history, 1.0)[i].slot == k
  {
    var xs, ring := Tag(history, 1.0), Tag(history[m..], 1.0);
    SlotsAscend(history, 1.0);
    TagOfSuffix(history, m);
    PickNonEmpty(xs, k);
    forall i | 0 <= i < |ring|
      ensures ring[i].slot != k
    {
      assert i > 0 ==> ring[i] == ring[1..][i - 1] == xs[m + 1..][i - 1] == xs[m + i];
      assert xs[m].slot <= xs[m + i].slot;
    }
    PickAbsent(ring, k);
    assert forall i :: m <= i < |xs| ==> xs[m].slot <= xs[i].slot;
  }

  lemma AtEarlierSecond(table: Table, history: seq<Sample>, m: nat, flushed: nat, k: int)
    requires m < |history| && flushed <= |history| && Flushed(table, history, m, flushed)
    requires k < SlotOf(history[m], 1.0)
    ensures var since, xs := MarkAfter(history, flushed), Tag(history, 1.0);
      HoldsAt(table, xs, k) <==>
        if since.None? || k > since.value then forall i :: 0 <= i < m ==> xs[i].slot != k
        else if k == since.value then BackHarmless(Pick(xs[..flushed], k), Pick(xs[flushed..], k))
        else true
  {
    hide Pick, Tag, SlotOf, FullTable, Upsert, Plan, MergeAll, RoundBar, BackHarmless;
    var since, xs, table0 := MarkAfter(history, flushed), Tag(history, 1.0), FullTable(history[..flushed]);
    NothingBeforeRing(history, m, k);
    FlushAt(history[m..], since, table0, k);
    FullTableHolds(history[..flushed], k);
    TagOfPrefix(history, flushed);
    if since.None? || k > since.value {
      NothingAfterMark(history, flushed, k);
    } else if k == since.value {
      AtMark(history, flushed);
    } else {
      PickBeforeMark(history, flushed, k);
    }
  }

  lemma NothingAfterMark(history: seq<Sample>, flushed: nat, k: int)
    requires TimeOrdered(history) && flushed <= |history|
    requires flushed == 0 || k > SlotOf(history[flushed - 1], 1.0)
    ensures Pick(Tag(history, 1.0)[..flushed], k) == []
  {
    var xs := Tag(history, 1.0);
    SlotsAscend(history, 1.0);
    assert flushed > 0 ==> forall i :: 0 <= i < flushed ==> xs[i].slot <= xs[flushed - 1].slot;
    PickAbsent(xs[..flushed], k);
  }

  // The marked second: what was flushed of it, and what came later.
  lemma AtMark(history: seq<Sample>, flushed: nat)
    requires TimeOrdered(history) && 0 < flushed <= |history|
    ensures var k, xs := SlotOf(history[flushed - 1], 1.0), Tag(history, 1.0);
      && Pick(xs[..flushed], k) != []
      && Pick(xs, k) == Pick(xs[..flushed], k) + Pick(xs[flushed..], k)
      && (RoundBar(MergeAll(Pick(xs, k))) == RoundBar(MergeAll(Pick(xs[..flushed], k)))
          <==> BackHarmless(Pick(xs[..flushed], k), Pick(xs[flushed..], k)))
  {
    var k, xs := SlotOf(history[flushed - 1], 1.0), Tag(history, 1.0);
    TagOfPrefix(history, flushed);
    SlotOccurs(history[..flushed], flushed - 1);
    assert forall i :: 0 <= i < |xs| - flushed ==> xs[flushed..][i].bar.volume >= 0;
    assert xs == xs[..flushed] + xs[flushed..];
    hide Pick, Tag, SlotOf, MergeAll, RoundBar, BackHarmless, Volume;
    PickConcat(xs[..flushed], xs[flushed..], k);
    PickVolumeNonNegative(xs[flushed..], k);
    BackHarmlessIff(Pick(xs[..flushed], k), Pick(xs[flushed..], k));
  }

  lemma ShortRingIff(table: Table, history: seq<Sample>, m: nat, flushed: nat)
    requires m < |history| && flushed <= |history| && Flushed(table, history, m, flushed)
    ensures table == FullTable(history) <==> NothingMissed(history, m, flushed)
  {
    hide Flushed, HoldsAt, Pick, Tag, SlotOf, FullTable, FrontHarmless, BackHarmless, Delta;
    var xs, first, since := Tag(history, 1.0), SlotOf(history[m], 1.0), MarkAfter(history, flushed);
    FullIffHolds(table, history);
    AtFirstSecond(table, history, m, flushed);
    MarkNotPassed(table, history, m, flushed);
    if table == FullTable(history) {
      forall i | 0 <= i < m
        ensures xs[i].slot == first || (since.Some? && xs[i].slot <= since.value)
      {
        if xs[i].slot != first {
          AtEarlierSecond(table, history, m, flushed, xs[i].slot);
        }
      }
      if since.Some? && since.value < first {
        AtEarlierSecond(table, history, m, flushed, since.value);
      }
    }
    if NothingMissed(history, m, flushed) {
      forall k
        ensures HoldsAt(table, xs, k)
      {
        if k > first {
          AtLaterSecond(table, history, m, flushed, k);
        } else if k < first {
          AtEarlierSecond(table, history, m, flushed, k);
        }
      }
    }
  }

  lemma MarkNotPassed(table: Table, history: seq<Sample>, m: nat, flushed: nat)
    requires m < |history| && flushed <= |history| && Flushed(table, history, m, flushed)
    ensures forall i :: 0 <= i <= m ==> Tag(history, 1.0)[i].slot <= SlotOf(history[m], 1.0)
  {
    SlotsAscend(history, 1.0);
  }

  // A flush of a non-empty history always has a plan.
  lemma FlushPlans(history: seq<Sample>, cap: nat, flushed: nat)
    requires TimeOrdered(history) && flushed <= |history| && history != [] && 0 < cap <= FLUSH_LIMIT
    ensures Plan(KeepLast(history, cap), MarkAfter(history, flushed)).Some?
  {
    SlotsAscend(history, 1.0);
    assert flushed > 0 ==> Tag(history, 1.0)[flushed - 1].slot <= Tag(history, 1.0)[|history| - 1].slot;
    PlanExists(KeepLast(history, cap), MarkAfter(history, flushed));
  }

  lemma ShortRing(history: seq<Sample>, cap: nat, flushed: nat)
    requires TimeOrdered(history) && flushed <= |history| && history != [] && 0 < cap <= FLUSH_LIMIT
    requires !RingReaches(history, cap, MarkAfter(history, flushed))
    ensures cap < |history| && KeepLast(history, cap) == history[|history| - cap..]
    ensures var plan := Plan(KeepLast(history, cap), MarkAfter(history, flushed));
      && plan.Some?
      && Flushed(Upsert(FullTable(history[..flushed]), plan.value.rows), history, |history| - cap, flushed)
  {
    FlushPlans(history, cap, flushed);
    hide Plan, Upsert, FullTable, SlotOf;
  }

  /** The incremental flush equals the full one exactly if the ring reaches back before the high-water
      second, or what it no longer holds would not have changed any bar; the latter never holds if the
      oldest sample in the ring carried volume. */
  lemma FlushIsFullIff(history: seq<Sample>, cap: nat, flushed: nat)
    requires TimeOrdered(history) && flushed <= |history| && history != [] && 0 < cap <= FLUSH_LIMIT
    ensures var since := MarkAfter(history, flushed);
      var plan := Plan(KeepLast(history, cap), since);
      && plan.Some?
      && (Upsert(FullTable(history[..flushed]), plan.value.rows) == FullTable(history)
          <==> RingReaches(history, cap, since)
               || (cap < |history| && NothingMissed(history, |history| - cap, flushed)))
    ensures cap < |history| && Delta(history, |history| - cap) > 0 ==>
      !NothingMissed(history, |history| - cap, flushed)
  {
    hide Plan, Upsert, FullTable, Flushed, KeepLast, RingReaches, TimeOrdered, Pick, Tag, SlotOf;
    var since, m := MarkAfter(history, flushed), |history| - cap;
    if RingReaches(history, cap, since) {
      FlushIsFull(history, cap, flushed);
    }
    if !RingReaches(history, cap, since) {
      ShortRing(history, cap, flushed);
      var table := Upsert(FullTable(history[..flushed]), Plan(KeepLast(history, cap), since).value.rows);
      ShortRingIff(table, history, m, flushed);
    }
  }
}
