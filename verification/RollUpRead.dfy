/** Reading a past day back at a coarser resolution: the SQL roll-up of stored 1-second bars. */
module RollUpRead {
  import opened Wrappers
  import opened Rounding
  import opened Bars
  import opened LiveCandles
  import opened LiveCandleLaws
  import opened IntradayStore
  import opened FlushRuns

  const DAY_SECONDS := 86400
  const IST_OFFSET := 19800

  // Start of an Indian calendar day, in epoch seconds.
  function DayStart(day: int): int {
    day * DAY_SECONDS - IST_OFFSET
  }

  // ----- The query ------------------------------------------------------------------

  // WHERE time >= lo AND time < hi, in time order.
  function RowsBetween(table: Table, lo: int, hi: int): seq<Slotted>
    decreases if lo < hi then hi - lo else 0
  {
    if lo >= hi then []
    else
      var before := RowsBetween(table, lo, hi - 1);
      if hi - 1 in table then before + [Slotted(hi - 1, table[hi - 1])] else before
  }

  // GROUP BY floor(epoch / bucket), first open, max high, min low, last close, sum of volume.
  function RollUpRows(rows: seq<Slotted>, bucketSeconds: int): seq<Slotted>
    requires bucketSeconds > 0
  {
    Group(Reslot(rows, k => k / bucketSeconds))
  }

  function BucketSeconds(requested: real): (n: int)
    ensures n >= 1
    ensures requested >= 1.0 ==> -0.5 <= n as real - requested <= 0.5
  {
    var n := HalfEven(requested);
    if n > 1 then n else 1
  }

  datatype PastDay = NotConnected | NotCaptured | Captured(candles: seq<Candle>)

  function ReadPastIntraday(connected: bool, table: Table, bucketSeconds: real, day: int): PastDay {
    if !connected then NotConnected
    else
      var n := BucketSeconds(bucketSeconds);
      var rows := RowsBetween(table, DayStart(day), DayStart(day + 1));
      if rows == [] then NotCaptured
      else Captured(Stamp(RoundAll(RollUpRows(rows, n)), n as real))
  }

  // ----- Rows of a full table are its 1-second bars ------------------------------------

  lemma {:induction false} RowsBetweenMeaning(table: Table, lo: int, hi: int)
    ensures StrictlyAscending(RowsBetween(table, lo, hi))
    ensures forall x :: x in RowsBetween(table, lo, hi)
                        <==> lo <= x.slot < hi && x.slot in table && x.bar == table[x.slot]
    decreases if lo < hi then hi - lo else 0
  {
    if lo < hi {
      RowsBetweenMeaning(table, lo, hi - 1);
      var before := RowsBetween(table, lo, hi - 1);
      forall i | 0 <= i < |before|
        ensures before[i].slot < hi - 1
      {
        assert before[i] in before;
      }
    }
  }

  // The full table's rows are exactly its history's rounded 1-second bars.
  lemma FullTableMember(history: seq<Sample>, x: Slotted)
    ensures x in RoundAll(Group(Tag(history, 1.0)))
            <==> x.slot in FullTable(history) && x.bar == FullTable(history)[x.slot]
  {
    var bars := RoundAll(Group(Tag(history, 1.0)));
    FullTableMeaning(history, x.slot);
    SecondBarsMeaning(Tag(history, 1.0), x.slot);
    hide RoundAll, Group, Tag, FullTable, Pick, MergeAll, RoundBar;
    if x.slot in FullTable(history) {
      var i :| 0 <= i < |bars| && bars[i].slot == x.slot;
      assert bars[i] in bars;
    }
    if x in bars {
      var i :| 0 <= i < |bars| && bars[i] == x;
      assert bars[i].slot == x.slot;
    }
  }

  lemma FullTableRows(history: seq<Sample>, lo: int, hi: int)
    requires TimeOrdered(history)
    ensures RowsBetween(FullTable(history), lo, hi)
            == Only(RoundAll(Group(Tag(history, 1.0))), k => lo <= k < hi)
  {
    var bars := RoundAll(Group(Tag(history, 1.0)));
    var window := k => lo <= k < hi;
    var rows := RowsBetween(FullTable(history), lo, hi);
    SlotsAscend(history, 1.0);
    AscendingGroup(Tag(history, 1.0));
    OnlyMembers(bars, window);
    OnlyKeepsOrder(bars, window);
    RowsBetweenMeaning(FullTable(history), lo, hi);
    hide RoundAll, Group, Tag, FullTable, Only, RowsBetween, TimeOrdered;
    assert StrictlyAscending(bars);
    hide StrictlyAscending;
    forall x
      ensures x in rows <==> x in Only(bars, window)
    {
      FullTableMember(history, x);
    }
    StrictlyAscendingUnique(rows, Only(bars, window));
  }

  lemma {:induction false} OnlyOfRounded(xs: seq<Slotted>, keep: int -> bool)
    ensures Only(RoundAll(xs), keep) == RoundAll(Only(xs, keep))
  {
    if xs == [] {
      assert RoundAll(Only(xs, keep)) == [];
    } else {
      hide Only, RoundBar;
      var n := |xs| - 1;
      OnlyOfRounded(xs[..n], keep);
      SplitLast(xs);
      OnlySnoc(xs[..n], xs[n], keep);
      RoundAllSnoc(xs[..n], xs[n]);
      OnlySnoc(RoundAll(xs[..n]), Slotted(xs[n].slot, RoundBar(xs[n].bar)), keep);
      RoundAllSnoc(Only(xs[..n], keep), xs[n]);
    }
  }

  // ----- Roll-up commutes with bucketing -------------------------------------------------

  lemma NestedFloor(ts: real, n: int)
    requires n > 0
    ensures (ts / 1.0).Floor / n == (ts / n as real).Floor
  {
    var s, q := ts.Floor, ts.Floor / n;
    assert ts / 1.0 == ts;
    assert q * n <= s < q * n + n;
    assert (q * n) as real == q as real * n as real;
    assert StartOf(q, n as real) <= ts < StartOf(q, n as real) + n as real;
    SlotIsWindow(ts, n as real, q);
  }

  // Samples of a window of whole seconds, bucketed directly at n seconds.
  function DirectBars(history: seq<Sample>, lo: int, hi: int, n: int): seq<Slotted>
    requires n > 0
  {
    RoundAll(Group(Reslot(Only(Tag(history, 1.0), k => lo <= k < hi), k => k / n)))
  }

  lemma RetagSeconds(history: seq<Sample>, n: int)
    requires n > 0
    ensures Reslot(Tag(history, 1.0), k => k / n) == Tag(history, n as real)
  {
    forall i | 0 <= i < |history|
      ensures SlotOf(history[i], 1.0) / n == SlotOf(history[i], n as real)
    {
      NestedFloor(history[i].ts, n);
    }
  }

  /** For every width and every day: rolling the stored, rounded 1-second bars up gives exactly the
      bars of bucketing the day's samples directly, rounded once. */
  lemma RollUpIsDirect(history: seq<Sample>, lo: int, hi: int, n: int)
    requires TimeOrdered(history) && n > 0
    ensures RoundAll(RollUpRows(RowsBetween(FullTable(history), lo, hi), n)) == DirectBars(history, lo, hi, n)
  {
    var xs := Tag(history, 1.0);
    var window := k => lo <= k < hi;
    SlotsAscend(history, 1.0);
    FullTableRows(history, lo, hi);
    OnlyOfRounded(Group(xs), window);
    OnlyOfGroup(xs, window);
    OnlyKeepsOrder(xs, window);
    RoundedRollUp(Only(xs, window), k => k / n);
    hide RoundAll, Group, Tag, FullTable, Only, RowsBetween, Ascending, TimeOrdered;
  }

  // The Indian calendar date of a moment: UTC plus five and a half hours.
  function IstDate(ts: real): int {
    ((ts + 5.5 * 3600.0) / 86400.0).Floor
  }

  lemma IstDateIff(ts: real, day: int)
    ensures IstDate(ts) == day <==> DayStart(day) as real <= ts < DayStart(day + 1) as real
    ensures IstDate(ts) == day <==> DayStart(day) <= ts.Floor < DayStart(day + 1)
  {
    var q := (ts + 19800.0) / 86400.0;
    assert q * 86400.0 == ts + 19800.0;
  }

  // The bucket of a given width starts on this day.
  predicate StartsOn(day: int, slot: int, width: real) {
    IstDate(StartOf(slot, width)) == day
  }

  // The bars the live engine builds at a width whose start lies in the day.
  function LiveBarsOfDay(history: seq<Sample>, day: int, width: real): seq<Slotted>
    requires width > 0.0
  {
    Only(RoundAll(Group(Tag(history, width))), b => StartsOn(day, b, width))
  }

  // A bucket lies in a window exactly if its start does.
  ghost predicate NoneStraddles(lo: int, hi: int, n: int)
    requires n > 0
  {
    forall k {:trigger k / n} :: lo <= k < hi <==> lo <= k / n * n < hi
  }

  lemma AlignedNoneStraddles(lo: int, hi: int, n: int)
    requires n > 0 && lo % n == 0 && hi % n == 0
    ensures NoneStraddles(lo, hi, n)
  {
    forall k
      ensures lo <= k < hi <==> lo <= k / n * n < hi
    {
      BelowMultiple(k, lo / n, n);
      BelowMultiple(k, hi / n, n);
    }
  }

  lemma BelowMultiple(k: int, q: int, n: int)
    requires n > 0
    ensures k < q * n <==> k / n * n < q * n
  {
    var d := k / n;
    assert d * n <= k < d * n + n;
    assert d + 1 <= q ==> (d + 1) * n <= q * n;
    assert q <= d ==> q * n <= d * n;
  }

  lemma {:induction false} OnlyReslot(xs: seq<Slotted>, f: int -> int, keep: int -> bool, keepFine: int -> bool)
    requires forall i :: 0 <= i < |xs| ==> (keepFine(xs[i].slot) <==> keep(f(xs[i].slot)))
    ensures Reslot(Only(xs, keepFine), f) == Only(Reslot(xs, f), keep)
  {
    if xs == [] {
      assert Reslot(Only(xs, keepFine), f) == [];
    } else {
      hide Only, Group;
      var n := |xs| - 1;
      OnlyReslot(xs[..n], f, keep, keepFine);
      SplitLast(xs);
      OnlySnoc(xs[..n], xs[n], keepFine);
      ReslotSnoc(xs[..n], xs[n], f);
      OnlySnoc(Reslot(xs[..n], f), Slotted(f(xs[n].slot), xs[n].bar), keep);
      ReslotSnoc(Only(xs[..n], keepFine), xs[n], f);
    }
  }

  lemma StartsOnWhole(day: int, slot: int, n: int)
    ensures StartsOn(day, slot, n as real) <==> DayStart(day) <= slot * n < DayStart(day + 1)
  {
    assert StartOf(slot, n as real) == (slot * n) as real;
    IstDateIff(StartOf(slot, n as real), day);
  }

  lemma DirectIsLive(history: seq<Sample>, day: int, n: int)
    requires TimeOrdered(history) && n > 0
    requires DayStart(day) % n == 0 && DayStart(day + 1) % n == 0
    ensures DirectBars(history, DayStart(day), DayStart(day + 1), n) == LiveBarsOfDay(history, day, n as real)
  {
    var lo, hi := DayStart(day), DayStart(day + 1);
    var xs, ys := Tag(history, 1.0), Tag(history, n as real);
    var keep := b => StartsOn(day, b, n as real);
    var window := k => lo <= k < hi;
    AlignedNoneStraddles(lo, hi, n);
    forall i | 0 <= i < |xs|
      ensures window(xs[i].slot) <==> keep(xs[i].slot / n)
    {
      StartsOnWhole(day, xs[i].slot / n, n);
    }
    RetagSeconds(history, n);
    OnlyReslot(xs, k => k / n, keep, window);
    SlotsAscend(history, n as real);
    OnlyOfGroup(ys, keep);
    OnlyOfRounded(Group(ys), keep);
  }

  // ----- Exactly which widths fit the Indian day ---------------------------------------------

  lemma DivisorOfCombination(a: int, b: int, n: int, x: int, y: int)
    requires n > 0 && a % n == 0 && b % n == 0
    ensures (x * a + y * b) % n == 0
  {
    var p, q := a / n, b / n;
    assert x * a + y * b == (x * p + y * q) * n;
    MultipleModZero(x * p + y * q, n);
  }

  lemma MultipleModZero(q: int, n: int)
    requires n > 0
    ensures q * n % n == 0
  {
    var r := q * n % n;
    var e := q - q * n / n;
    assert e * n == r;
    assert e >= 1 ==> e * n >= n;
    assert e <= -1 ==> e * n <= -n;
  }

  /** Every Indian day begins on a bucket boundary exactly if the width divides 1800 seconds. */
  lemma DaysAlignedIff(n: int)
    requires n > 0
    ensures (forall day :: DayStart(day) % n == 0) <==> 1800 % n == 0
  {
    assert 10 * DayStart(0) + 3 * DayStart(1) == 1800;
    if 1800 % n == 0 {
      forall day
        ensures DayStart(day) % n == 0
      {
        DivisorOfCombination(1800, 1800, n, 48 * day, -11);
      }
    } else if forall day :: DayStart(day) % n == 0 {
      DivisorOfCombination(DayStart(0), DayStart(1), n, 10, 3);
    }
  }

  lemma GroupOfOne(x: Slotted, keep: int -> bool)
    ensures Group([x]) == [x] && Only([x], keep) == if keep(x.slot) then [x] else []
  {
  }

  lemma TagOfOne(s: Sample, width: real)
    requires width > 0.0
    ensures Tag([s], width) == [Slotted(SlotOf(s, width), Point(s.price, 0))]
  {
  }

  // A lone sample at the first second of a window.
  lemma LoneSampleDirect(lo: int, hi: int, n: int)
    requires n > 0 && lo < hi
    ensures DirectBars([Sample(lo as real, 1.0, 0, None)], lo, hi, n) != []
  {
  }

  // A lone sample in a bucket that starts before the day.
  lemma LoneSampleLive(day: int, n: int)
    requires n > 0 && DayStart(day) % n != 0
    ensures LiveBarsOfDay([Sample(DayStart(day) as real, 1.0, 0, None)], day, n as real) == []
  {
    var lo, b := DayStart(day), Point(1.0, 0);
    var s := Sample(lo as real, 1.0, 0, None);
    assert SlotOf(s, n as real) == lo / n by {
      NestedFloor(lo as real, n);
      assert lo as real / 1.0 == lo as real;
    }
    BelowStart(lo, n);
    StartsOnWhole(day, lo / n, n);
    hide Tag, Group, Only, RoundBar, StartsOn, SlotOf;
    LoneBars(s, n as real, i => StartsOn(day, i, n as real));
  }

  // What bucketing makes of a lone sample.
  lemma LoneBars(s: Sample, width: real, keep: int -> bool)
    requires width > 0.0
    ensures var k := SlotOf(s, width);
      Only(RoundAll(Group(Tag([s], width))), keep)
      == if keep(k) then [Slotted(k, RoundBar(Point(s.price, 0)))] else []
  {
    var k, b := SlotOf(s, width), Point(s.price, 0);
    TagOfOne(s, width);
    GroupOfOne(Slotted(k, b), keep);
    GroupOfOne(Slotted(k, RoundBar(b)), keep);
    hide Tag, Group, Only, RoundBar, SlotOf;
    assert RoundAll([Slotted(k, b)]) == [Slotted(k, RoundBar(b))];
  }

  lemma BelowStart(lo: int, n: int)
    requires n > 0 && lo % n != 0
    ensures lo / n * n < lo
  {
  }

  // ----- From samples to a past day ------------------------------------------------------------

  // Some sample falls on this Indian day.
  ghost predicate DayRecorded(history: seq<Sample>, day: int) {
    exists i :: 0 <= i < |history| && IstDate(history[i].ts) == day
  }

  lemma RecordedSlot(s: Sample, day: int)
    ensures IstDate(s.ts) == day <==> DayStart(day) <= SlotOf(s, 1.0) < DayStart(day + 1)
  {
    assert s.ts / 1.0 == s.ts;
    IstDateIff(s.ts, day);
  }

  /** A past day reads as captured exactly if some sample fell on that Indian date, at whatever width. */
  lemma CapturedIff(history: seq<Sample>, day: int, width: real)
    ensures RowsBetween(FullTable(history), DayStart(day), DayStart(day + 1)) != [] <==> DayRecorded(history, day)
    ensures ReadPastIntraday(true, FullTable(history), width, day).Captured? <==> DayRecorded(history, day)
    ensures ReadPastIntraday(true, FullTable(history), width, day).NotCaptured? <==> !DayRecorded(history, day)
  {
    hide BucketSeconds, IstDate;
    var table, xs := FullTable(history), Tag(history, 1.0);
    var rows := RowsBetween(table, DayStart(day), DayStart(day + 1));
    RowsBetweenMeaning(table, DayStart(day), DayStart(day + 1));
    if rows != [] {
      assert rows[0] in rows;
      FullTableMeaning(history, rows[0].slot);
      var i :| 0 <= i < |xs| && xs[i].slot == rows[0].slot;
      RecordedSlot(history[i], day);
    }
    if DayRecorded(history, day) {
      var i :| 0 <= i < |history| && IstDate(history[i].ts) == day;
      RecordedSlot(history[i], day);
      var k := xs[i].slot;
      assert HasSlot(xs, k);
      FullTableMeaning(history, k);
      assert Slotted(k, table[k]) in rows;
    }
  }

  // What a past day should read as: the live engine's own candles, if the day was recorded.
  ghost function LiveDay(history: seq<Sample>, day: int, width: real): PastDay
    requires width > 0.0
  {
    if DayRecorded(history, day) then Captured(Stamp(LiveBarsOfDay(history, day, width), width)) else NotCaptured
  }

  ghost predicate ReadsLive(history: seq<Sample>, day: int, width: real)
    requires width > 0.0
  {
    ReadPastIntraday(true, FullTable(history), width, day) == LiveDay(history, day, width)
  }

  // A whole number of seconds that divides half an hour.
  predicate FitsDay(width: real) {
    var n := width.Floor;
    width == n as real && n > 0 && 1800 % n == 0
  }

  lemma BucketOfWhole(n: int)
    requires n > 0
    ensures BucketSeconds(n as real) == n
  {
  }

  lemma FittingReadIsLive(history: seq<Sample>, day: int, n: int)
    requires TimeOrdered(history) && n > 0 && 1800 % n == 0
    ensures ReadsLive(history, day, n as real)
  {
    BucketOfWhole(n);
    CapturedIff(history, day, n as real);
    RollUpIsDirect(history, DayStart(day), DayStart(day + 1), n);
    DaysAlignedIff(n);
    DirectIsLive(history, day, n);
    hide StartOf, BucketSeconds, RowsBetween, RollUpRows, FullTable, RoundAll, LiveBarsOfDay, DirectBars, DayRecorded;
  }

  // A whole width that does not fit: the first second of some day is in a bucket of the day before.
  lemma MisalignedReadDiffers(n: int) returns (history: seq<Sample>, day: int)
    requires n > 0 && 1800 % n != 0
    ensures TimeOrdered(history) && !ReadsLive(history, day, n as real)
  {
    DaysAlignedIff(n);
    day :| DayStart(day) % n != 0;
    var lo, hi := DayStart(day), DayStart(day + 1);
    history := [Sample(lo as real, 1.0, 0, None)];
    IstDateIff(lo as real, day);
    assert IstDate(history[0].ts) == day;
    assert DayRecorded(history, day);
    BucketOfWhole(n);
    CapturedIff(history, day, n as real);
    RollUpIsDirect(history, lo, hi, n);
    LoneSampleDirect(lo, hi, n);
    LoneSampleLive(day, n);
    hide StartOf, BucketSeconds, RowsBetween, RollUpRows, FullTable, RoundAll, LiveBarsOfDay, DirectBars, DayRecorded;
  }

  // A lone sample at time `width`: its bucket at that width starts right there.
  lemma SecondBucket(width: real)
    requires width > 0.0
    ensures SlotOf(Sample(width, 1.0, 0, None), width) == 1 && StartOf(1, width) == width
  {
    assert width / width == 1.0;
  }

  // What the read of a recorded day is compared with.
  lemma RecordedRead(history: seq<Sample>, day: int, width: real)
    requires width > 0.0 && DayRecorded(history, day)
    ensures var n := BucketSeconds(width);
      var rows := RowsBetween(FullTable(history), DayStart(day), DayStart(day + 1));
      ReadsLive(history, day, width)
      <==> Stamp(RoundAll(RollUpRows(rows, n)), n as real) == Stamp(LiveBarsOfDay(history, day, width), width)
  {
    CapturedIff(history, day, width);
    hide RowsBetween, RollUpRows, FullTable, LiveBarsOfDay, DayRecorded, BucketSeconds, DayStart, Stamp, RoundAll;
  }

  lemma WholeStart(slot: int, n: int)
    ensures StartOf(slot, n as real).Floor as real == StartOf(slot, n as real)
  {
    assert StartOf(slot, n as real) == (slot * n) as real;
  }

  lemma WholeStartsDiffer(past: seq<Slotted>, n: int, live: seq<Slotted>, width: real)
    requires live != [] && StartOf(live[0].slot, width).Floor as real != StartOf(live[0].slot, width)
    ensures Stamp(past, n as real) != Stamp(live, width)
  {
    hide StartOf;
    if Stamp(past, n as real) == Stamp(live, width) {
      assert Stamp(past, n as real)[0] == Stamp(live, width)[0];
      WholeStart(past[0].slot, n);
      assert false;
    }
  }

  // Stored bars start on whole seconds, live ones at every multiple of the width.
  lemma FractionalReadDiffers(width: real) returns (history: seq<Sample>, day: int)
    requires width > 0.0 && width.Floor as real != width
    ensures TimeOrdered(history) && !ReadsLive(history, day, width)
  {
    var s := Sample(width, 1.0, 0, None);
    history := [s];
    day := IstDate(width);
    SecondBucket(width);
    hide RowsBetween, RollUpRows, FullTable, RoundAll, Only, Group, Tag, RoundBar, SlotOf, StartOf, DayStart, IstDate;
    assert IstDate(history[0].ts) == day;
    assert DayRecorded(history, day);
    assert StartsOn(day, 1, width);
    hide StartsOn, DayRecorded;
    LoneBars(s, width, i => StartsOn(day, i, width));
    RecordedRead(history, day, width);
    hide ReadsLive;
    var n := BucketSeconds(width);
    var past := RoundAll(RollUpRows(RowsBetween(FullTable(history), DayStart(day), DayStart(day + 1)), n));
    WholeStartsDiffer(past, n, LiveBarsOfDay(history, day, width), width);
  }

  /** Reading a day back gives the live engine's own candles of the requested width, for every history
      and every day, exactly if the width is a whole number of seconds dividing 1800. */
  lemma PastReadIsLiveIff(width: real)
    requires width > 0.0
    ensures (forall history, day :: TimeOrdered(history) ==> ReadsLive(history, day, width)) <==> FitsDay(width)
  {
    hide ReadsLive;
    if FitsDay(width) {
      forall history, day | TimeOrdered(history)
        ensures ReadsLive(history, day, width)
      {
        FittingReadIsLive(history, day, width.Floor);
      }
    } else if width == width.Floor as real {
      var history, day := MisalignedReadDiffers(width.Floor);
    } else {
      var history, day := FractionalReadDiffers(width);
    }
  }

  /** Of the widths the service offers all fit but two: 250 and 500 milliseconds, for which a past day is
      served in 1-second bars. */
  lemma OfferedWidths()
    ensures FitsDay(1.0) && FitsDay(5.0) && FitsDay(10.0) && FitsDay(15.0) && FitsDay(30.0)
    ensures !FitsDay(0.25) && !FitsDay(0.5) && BucketSeconds(0.25) == BucketSeconds(0.5) == 1
  {
  }

  lemma {:induction false} OnlySame(xs: seq<Slotted>, keep: int -> bool, same: int -> bool)
    requires forall k :: keep(k) <==> same(k)
    ensures Only(xs, keep) == Only(xs, same)
  {
    if xs != [] {
      OnlySame(xs[..|xs| - 1], keep, same);
    }
  }

  /** Reading a day returns the candles of exactly the samples whose second, five and a half hours on, lies
      in that date; nothing is read of any other. */
  lemma ReadIsOfItsDate(history: seq<Sample>, width: real, day: int)
    requires TimeOrdered(history)
    ensures var n := BucketSeconds(width);
      var ofDay := Only(Tag(history, 1.0), second => (second + 19800) / 86400 == day);
      ReadPastIntraday(true, FullTable(history), width, day)
      == if ofDay == [] then NotCaptured
         else Captured(Stamp(RoundAll(Group(Reslot(ofDay, k => k / n))), n as real))
    ensures ReadPastIntraday(false, FullTable(history), width, day) == NotConnected
  {
    var n := BucketSeconds(width);
    var lo, hi := DayStart(day), DayStart(day + 1);
    var window, date := second => lo <= second < hi, second => (second + 19800) / 86400 == day;
    forall second
      ensures window(second) <==> date(second)
    {
      DaySeconds(second, day);
    }
    hide BucketSeconds, DayStart, RowsBetween, FullTable, RollUpRows, Tag, Only, Group, Stamp, RoundAll;
    OnlySame(Tag(history, 1.0), window, date);
    RollUpIsDirect(history, lo, hi, n);
    NoRowsNoSamples(history, lo, hi);
  }

  lemma DaySeconds(second: int, day: int)
    ensures DayStart(day) <= second < DayStart(day + 1) <==> (second + 19800) / 86400 == day
  {
  }

  lemma NoRowsNoSamples(history: seq<Sample>, lo: int, hi: int)
    requires TimeOrdered(history)
    ensures RowsBetween(FullTable(history), lo, hi) == [] <==> Only(Tag(history, 1.0), k => lo <= k < hi) == []
  {
    var xs, window := Tag(history, 1.0), k => lo <= k < hi;
    FullTableRows(history, lo, hi);
    SlotsAscend(history, 1.0);
    OnlyOfRounded(Group(xs), window);
    OnlyOfGroup(xs, window);
    hide Only, Tag, RowsBetween, FullTable, Group;
    var ys := Only(xs, window);
    if ys == [] {
      GroupOfNothing(ys);
    } else {
      assert HasSlot(ys, ys[0].slot);
      SecondBarsMeaning(ys, ys[0].slot);
      assert RoundAll(Group(ys)) != [];
    }
  }

  /** Every sample of the session from 03:45 to 10:00 UTC of a date is read on that day, and a lone one on
      no other. */
  lemma SessionReadOnItsDay(history: seq<Sample>, i: nat, width: real, date: int, day: int)
    requires i < |history|
    requires date as real * 86400.0 + 13500.0 <= history[i].ts <= date as real * 86400.0 + 36000.0
    ensures ReadPastIntraday(true, FullTable(history), width, date).Captured?
    ensures ReadPastIntraday(true, FullTable([history[i]]), width, day).Captured? <==> day == date
  {
    SessionDate(history[i].ts, date);
    hide IstDate, ReadPastIntraday, FullTable;
    CapturedIff(history, date, width);
    CapturedIff([history[i]], day, width);
    assert [history[i]][0] == history[i];
  }

  lemma SessionDate(ts: real, date: int)
    requires date as real * 86400.0 + 13500.0 <= ts <= date as real * 86400.0 + 36000.0
    ensures IstDate(ts) == date
  {
    IstDateIff(ts, date);
  }

  lemma SeenIsOrdered(f: Flow)
    requires TimeOrdered(f.history)
    ensures TimeOrdered(Seen(f))
  {
  }

  /** End to end: after any run of record() calls and flushes, a past day tells "not captured" exactly when
      no flushed sample fell on it, and otherwise returns the candles the live engine would have served from
      all flushed samples, at the requested width rounded to whole seconds. */
  lemma PastDayIsLive(events: seq<Event>, c: Settings, bucketSeconds: real, day: int)
    requires AllAllowed(events, c) && 0 < c.cap <= FLUSH_LIMIT
    requires 1800 % BucketSeconds(bucketSeconds) == 0
    ensures var f, n := Run(events, c), BucketSeconds(bucketSeconds);
      && ReadPastIntraday(true, f.table, bucketSeconds, day) == LiveDay(Seen(f), day, n as real)
      && (FitsDay(bucketSeconds) ==> n as real == bucketSeconds)
  {
    var f, n := Run(events, c), BucketSeconds(bucketSeconds);
    IncrementalEqualsFull(events, c);
    SeenIsOrdered(f);
    FittingReadIsLive(Seen(f), day, n);
    BucketOfWhole(n);
    if FitsDay(bucketSeconds) {
      BucketOfWhole(bucketSeconds.Floor);
    }
    hide BucketSeconds, LiveDay, RowsBetween, Run, Seen, AllAllowed;
  }
}
