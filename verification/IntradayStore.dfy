/** The durable 1-second store: incremental high-water-mark flushes into a keyed table, and the roll-up
    that re-buckets stored bars on read. */
module IntradayStore {
  import opened Wrappers
  import opened Rounding
  import opened Bars
  import opened LiveCandles
  import opened LiveCandleLaws

  const FLUSH_LIMIT := 100000

  // ----- The table of one key: epoch second -> bar ------------------------------

  type Table = map<int, Bar>

  function Upsert(table: Table, rows: seq<Slotted>): Table {
    if rows == [] then table
    else Upsert(table, rows[..|rows| - 1])[rows[|rows| - 1].slot := rows[|rows| - 1].bar]
  }

  // Bars at or after the high-water mark; no mark means all of them.
  function Fresh(bars: seq<Slotted>, since: Option<int>): seq<Slotted> {
    Only(bars, k => since.None? || k >= since.value)
  }

  // The 1-second bars a flush sees.
  function SecondBars(ring: seq<Sample>): seq<Slotted> {
    TailSlice(RoundAll(Group(Tag(ring, 1.0))), FLUSH_LIMIT)
  }

  // The table that holds the 1-second bar of every sample in a history.
  function FullTable(history: seq<Sample>): Table {
    var xs := Tag(history, 1.0);
    map k | k in Seconds(xs) :: (if Pick(xs, k) == [] then Point(0.0, 0) else RoundBar(MergeAll(Pick(xs, k))))
  }

  function Seconds(xs: seq<Slotted>): set<int> {
    set i | 0 <= i < |xs| :: xs[i].slot
  }

  // ----- One flush ---------------------------------------------------------------

  // What a flush decided to write, before the database answers.
  datatype Batch = Batch(rows: seq<Slotted>, mark: int)

  function Plan(ring: seq<Sample>, since: Option<int>): Option<Batch> {
    var bars := SecondBars(ring);
    if bars == [] then None
    else
      var rows := Fresh(bars, since);
      if rows == [] then None else Some(Batch(rows, bars[|bars| - 1].slot))
  }

  class Store {
    var tables: map<string, Table>
    var lastFlush: map<string, int>

    constructor ()
      ensures tables == map[] && lastFlush == map[]
    {
      tables, lastFlush := map[], map[];
    }

    function TableOf(key: string): Table
      reads this
    {
      if key in tables then tables[key] else map[]
    }

    function MarkOf(key: string): Option<int>
      reads this
    {
      if key in lastFlush then Some(lastFlush[key]) else None
    }

    // `connected` says whether there is a database, and `commits` is its answer to the upsert: all rows,
    // or an exception and none.
    method FlushLiveToStore(engine: LiveCandleEngine, key: string, connected: bool, commits: bool)
      returns (written: nat)
      modifies this
      ensures var plan := Plan(engine.View(key).ring, old(MarkOf(key)));
        if connected && plan.Some? && commits then
          && written == |plan.value.rows|
          && TableOf(key) == Upsert(old(TableOf(key)), plan.value.rows)
          && MarkOf(key) == Some(plan.value.mark)
        else
          written == 0 && TableOf(key) == old(TableOf(key)) && MarkOf(key) == old(MarkOf(key))
      ensures forall other :: other != key ==>
        TableOf(other) == old(TableOf(other)) && MarkOf(other) == old(MarkOf(other))
    {
      hide Plan, Upsert;
      if !connected {
        return 0;
      }
      var plan := PlanFlush(engine, key, if key in lastFlush then Some(lastFlush[key]) else None);
      if plan.None? || !commits {
        return 0;
      }
      var table := UpsertRows(TableOf(key), plan.value.rows);
      tables := tables[key := table];
      lastFlush := lastFlush[key := plan.value.mark];
      written := |plan.value.rows|;
    }
  }

  // The part of a flush before the database is touched.
  method PlanFlush(engine: LiveCandleEngine, key: string, since: Option<int>) returns (plan: Option<Batch>)
    ensures plan == Plan(engine.View(key).ring, since)
  {
    hide StartOf;
    var candles := engine.Build(key, 1.0, FLUSH_LIMIT);
    ghost var bars := SecondBars(engine.View(key).ring);
    assert candles == Stamp(bars, 1.0);
    SecondOfStamp(bars);
    if candles == [] {
      return None;
    }
    var rows := CollectRows(candles, since, bars);
    if rows == [] {
      return None;
    }
    plan := Some(Batch(rows, candles[|candles| - 1].start.Floor));
  }

  method CollectRows(candles: seq<Candle>, since: Option<int>, ghost bars: seq<Slotted>) returns (rows: seq<Slotted>)
    requires |candles| == |bars|
    requires forall i :: 0 <= i < |bars| ==> candles[i].bar == bars[i].bar && candles[i].start.Floor == bars[i].slot
    ensures rows == Fresh(bars, since)
  {
    rows := [];
    for i := 0 to |candles|
      invariant rows == Fresh(bars[..i], since)
    {
      var t := candles[i].start.Floor;
      assert bars[..i + 1][..i] == bars[..i];
      if since.Some? && t < since.value {
        continue;
      }
      rows := rows + [Slotted(t, candles[i].bar)];
    }
    assert bars[..|candles|] == bars;
  }

  method UpsertRows(table: Table, rows: seq<Slotted>) returns (updated: Table)
    ensures updated == Upsert(table, rows)
  {
    updated := table;
    for i := 0 to |rows|
      invariant updated == Upsert(table, rows[..i])
    {
      assert rows[..i + 1][..i] == rows[..i];
      updated := updated[rows[i].slot := rows[i].bar];
    }
    assert rows[..|rows|] == rows;
  }

  lemma SecondOfStamp(bars: seq<Slotted>)
    ensures forall i :: 0 <= i < |bars| ==> Stamp(bars, 1.0)[i].start.Floor == bars[i].slot
  {
  }

  // ----- What the rows and the full table hold ------------------------------------

  lemma {:induction false} UpsertMeaning(table: Table, rows: seq<Slotted>, k: int)
    requires DistinctSlots(rows)
    ensures k in Upsert(table, rows) <==> k in table || HasSlot(rows, k)
    ensures !HasSlot(rows, k) && k in table ==> Upsert(table, rows)[k] == table[k]
    ensures forall i :: 0 <= i < |rows| && rows[i].slot == k ==> Upsert(table, rows)[k] == rows[i].bar
  {
    if rows != [] {
      var n := |rows| - 1;
      UpsertMeaning(table, rows[..n], k);
      assert rows == rows[..n] + [rows[n]];
      HasSlotSnoc(rows[..n], rows[n], k);
      assert forall i :: 0 <= i < n ==> rows[..n][i] == rows[i];
    }
  }

  lemma FullTableMeaning(history: seq<Sample>, k: int)
    ensures k in FullTable(history) <==> HasSlot(Tag(history, 1.0), k)
    ensures k in FullTable(history) ==>
      Pick(Tag(history, 1.0), k) != [] && FullTable(history)[k] == RoundBar(MergeAll(Pick(Tag(history, 1.0), k)))
  {
    var xs := Tag(history, 1.0);
    PickNonEmpty(xs, k);
    if HasSlot(xs, k) {
      var i :| 0 <= i < |xs| && xs[i].slot == k;
      assert k in Seconds(xs);
    }
  }

  lemma SecondBarsOfRing(ring: seq<Sample>)
    requires |ring| <= FLUSH_LIMIT && TimeOrdered(ring)
    ensures SecondBars(ring) == RoundAll(Group(Tag(ring, 1.0)))
    ensures StrictlyAscending(SecondBars(ring))
    ensures ring == [] <==> SecondBars(ring) == []
    ensures ring != [] ==> SecondBars(ring)[|SecondBars(ring)| - 1].slot == SlotOf(ring[|ring| - 1], 1.0)
  {
    var xs := Tag(ring, 1.0);
    SlotsAscend(ring, 1.0);
    AscendingGroup(xs);
    GroupNotLonger(xs);
  }

  /** A first flush writes every 1-second bar of the ring, or the last hundred thousand if there are more. */
  lemma FirstFlushRows(ring: seq<Sample>)
    ensures var bars := RoundAll(Group(Tag(ring, 1.0)));
      var plan := Plan(ring, None);
      && (plan.None? <==> bars == [])
      && (plan.Some? ==>
            plan.value.rows == if |bars| <= 100000 then bars else bars[|bars| - 100000..])
  {
    hide RoundAll, Group, Tag, Only;
    OnlyOfAll(SecondBars(ring));
  }

  /** Nothing is flushed, and so the mark stays, exactly if every bar of the ring lies before the mark. */
  lemma NothingFreshNoFlush(ring: seq<Sample>, since: Option<int>)
    ensures Plan(ring, since).None? <==>
      forall b :: b in SecondBars(ring) ==> since.Some? && b.slot < since.value
    ensures Plan(ring, since).Some? ==>
      forall b :: b in Plan(ring, since).value.rows <==>
                  b in SecondBars(ring) && (since.None? || b.slot >= since.value)
  {
    OnlyMembers(SecondBars(ring), k => since.None? || k >= since.value);
    hide Only, SecondBars;
    var rows := Fresh(SecondBars(ring), since);
    assert rows != [] ==> rows[0] in rows;
  }

  lemma {:induction false} OnlyOfAll(xs: seq<Slotted>)
    ensures Fresh(xs, None) == xs
  {
    if xs != [] {
      OnlyOfAll(xs[..|xs| - 1]);
    }
  }

  lemma RoundKeepsSlots(g: seq<Slotted>, k: int)
    ensures HasSlot(RoundAll(g), k) <==> HasSlot(g, k)
  {
  }

  // A flush row is the rounded merge of its second's samples in the ring.
  lemma SecondBarsMeaning(xs: seq<Slotted>, k: int)
    ensures HasSlot(RoundAll(Group(xs)), k) <==> HasSlot(xs, k)
    ensures forall x :: x in RoundAll(Group(xs)) && x.slot == k ==>
      Pick(xs, k) != [] && x.bar == RoundBar(MergeAll(Pick(xs, k)))
  {
    var g, bars := Group(xs), RoundAll(Group(xs));
    GroupMeaning(xs);
    hide Pick, MergeAll, RoundBar, Group;
    assert HasSlot(g, k) <==> HasSlot(xs, k);
    RoundKeepsSlots(g, k);
    forall x | x in bars && x.slot == k
      ensures Pick(xs, k) != [] && x.bar == RoundBar(MergeAll(Pick(xs, k)))
    {
      var i :| 0 <= i < |bars| && bars[i] == x;
      assert g[i].slot == k;
    }
  }

  lemma {:induction false} GroupNotLonger(xs: seq<Slotted>)
    ensures |Group(xs)| <= |xs|
  {
    if xs != [] {
      GroupNotLonger(xs[..|xs| - 1]);
    }
  }

  lemma FreshRows(bars: seq<Slotted>, since: Option<int>, k: int)
    requires StrictlyAscending(bars)
    ensures DistinctSlots(Fresh(bars, since))
    ensures HasSlot(Fresh(bars, since), k) <==> HasSlot(bars, k) && (since.None? || k >= since.value)
    ensures forall x :: x in Fresh(bars, since) ==> x in bars
  {
    var rows := Fresh(bars, since);
    OnlyMembers(bars, k => since.None? || k >= since.value);
    OnlyKeepsOrder(bars, k => since.None? || k >= since.value);
    hide Only;
    if HasSlot(rows, k) {
      var i :| 0 <= i < |rows| && rows[i].slot == k;
      assert rows[i] in rows;
      assert rows[i] in bars;
    }
    if HasSlot(bars, k) && (since.None? || k >= since.value) {
      var i :| 0 <= i < |bars| && bars[i].slot == k;
      assert bars[i] in bars;
      assert bars[i] in rows;
    }
  }
}
