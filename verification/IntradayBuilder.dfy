/** The second candle pipeline: a charted price curve becomes per-interval points, and points become
    OHLC bars.  It is proved to agree with recording the same curve in the live engine. */
module IntradayBuilder {
  import opened Wrappers
  import opened Rounding
  import opened Bars
  import opened LiveCandles
  import opened LiveCandleLaws

  // One parsed point of the charted curve; volume is the day's running total.
  datatype CurvePoint = CurvePoint(ts: real, price: real, cum: int)

  // Input of the bar builder: None marks a missing or unreadable field.
  datatype IntervalPoint = IntervalPoint(ts: Option<real>, price: Option<real>, volume: Option<int>)

  // ----- Sorting -------------------------------------------------------------

  function Insert(sorted: seq<CurvePoint>, p: CurvePoint): seq<CurvePoint> {
    if sorted == [] || sorted[|sorted| - 1].ts <= p.ts then sorted + [p]
    else Insert(sorted[..|sorted| - 1], p) + [sorted[|sorted| - 1]]
  }

  function SortByTime(raw: seq<CurvePoint>): seq<CurvePoint> {
    if raw == [] then [] else Insert(SortByTime(raw[..|raw| - 1]), raw[|raw| - 1])
  }

  ghost predicate Sorted(ps: seq<CurvePoint>) {
    forall i, j :: 0 <= i < j < |ps| ==> ps[i].ts <= ps[j].ts
  }

  function AtTime(ps: seq<CurvePoint>, t: real): seq<CurvePoint> {
    if ps == [] then []
    else
      var n := |ps| - 1;
      if ps[n].ts == t then AtTime(ps[..n], t) + [ps[n]] else AtTime(ps[..n], t)
  }

  lemma AtTimeSnoc(ps: seq<CurvePoint>, p: CurvePoint, t: real)
    ensures AtTime(ps + [p], t) == if p.ts == t then AtTime(ps, t) + [p] else AtTime(ps, t)
  {
  }

  lemma SortedSnoc(ps: seq<CurvePoint>, p: CurvePoint)
    requires Sorted(ps) && forall q :: q in ps ==> q.ts <= p.ts
    ensures Sorted(ps + [p])
  {
  }

  lemma {:induction false} InsertKeepsPoints(sorted: seq<CurvePoint>, p: CurvePoint)
    ensures multiset(Insert(sorted, p)) == multiset(sorted) + multiset{p}
    ensures forall q :: q in Insert(sorted, p) <==> q in sorted || q == p
  {
    if sorted != [] {
      var n := |sorted| - 1;
      SplitLast(sorted);
      InsertKeepsPoints(sorted[..n], p);
    }
  }

  lemma LastIsLatest(sorted: seq<CurvePoint>, q: CurvePoint)
    requires Sorted(sorted) && q in sorted
    ensures q.ts <= sorted[|sorted| - 1].ts
  {
  }

  lemma {:induction false} InsertKeepsOrder(sorted: seq<CurvePoint>, p: CurvePoint)
    requires Sorted(sorted)
    ensures Sorted(Insert(sorted, p))
  {
    if sorted != [] {
      var n := |sorted| - 1;
      var init, last := sorted[..n], sorted[n];
      if last.ts <= p.ts {
        forall q | q in sorted
          ensures q.ts <= p.ts
        {
          LastIsLatest(sorted, q);
        }
        SortedSnoc(sorted, p);
      } else {
        InsertKeepsOrder(init, p);
        InsertKeepsPoints(init, p);
        forall q | q in Insert(init, p)
          ensures q.ts <= last.ts
        {
          if q in init {
            assert q in sorted;
            LastIsLatest(sorted, q);
          }
        }
        hide Sorted, Insert;
        SortedSnoc(Insert(init, p), last);
      }
    }
  }

  lemma {:induction false} InsertIsStable(sorted: seq<CurvePoint>, p: CurvePoint, t: real)
    requires Sorted(sorted)
    ensures AtTime(Insert(sorted, p), t) == AtTime(sorted + [p], t)
  {
    if sorted != [] && sorted[|sorted| - 1].ts > p.ts {
      var init, last := sorted[..|sorted| - 1], sorted[|sorted| - 1];
      InsertIsStable(init, p, t);
      SplitLast(sorted);
      hide AtTime, Sorted;
      AtTimeSnoc(Insert(init, p), last, t);
      AtTimeSnoc(init, p, t);
      AtTimeSnoc(init, last, t);
      AtTimeSnoc(sorted, p, t);
    }
  }

  lemma SortByTimeSnoc(raw: seq<CurvePoint>, p: CurvePoint)
    ensures SortByTime(raw + [p]) == Insert(SortByTime(raw), p)
  {
  }

  /** The curve sort orders by time, keeps every point, and keeps equal times in input order. */
  lemma {:induction false} SortIsStable(raw: seq<CurvePoint>, t: real)
    ensures Sorted(SortByTime(raw))
    ensures multiset(SortByTime(raw)) == multiset(raw)
    ensures AtTime(SortByTime(raw), t) == AtTime(raw, t)
  {
    if raw != [] {
      hide AtTime, Sorted, Insert, SortByTime;
      var init, p := raw[..|raw| - 1], raw[|raw| - 1];
      SplitLast(raw);
      SortIsStable(init, t);
      SortByTimeSnoc(init, p);
      InsertKeepsOrder(SortByTime(init), p);
      InsertKeepsPoints(SortByTime(init), p);
      InsertIsStable(SortByTime(init), p, t);
      AtTimeSnoc(SortByTime(init), p, t);
      AtTimeSnoc(init, p, t);
    }
  }

  // ----- Running totals to per-interval points --------------------------------

  function Increment(ps: seq<CurvePoint>, i: nat): int
    requires i < |ps|
  {
    if i > 0 && ps[i].cum >= ps[i - 1].cum then ps[i].cum - ps[i - 1].cum else 0
  }

  function Intervals(ps: seq<CurvePoint>): (r: seq<IntervalPoint>)
    ensures |r| == |ps|
    ensures forall i :: 0 <= i < |ps| ==>
      r[i] == IntervalPoint(Some(ps[i].ts), Some(ps[i].price), Some(Increment(ps, i)))
  {
    seq(|ps|, i requires 0 <= i < |ps| => IntervalPoint(Some(ps[i].ts), Some(ps[i].price), Some(Increment(ps, i))))
  }

  method FetchIntradayPoints(points: seq<CurvePoint>) returns (out: seq<IntervalPoint>)
    ensures out == Intervals(SortByTime(points))
  {
    var raw := SortByTime(points);
    hide SortByTime, Intervals;
    out := [];
    var prevCum: Option<int> := None;
    for i := 0 to |raw|
      invariant prevCum == if i == 0 then None else Some(raw[i - 1].cum)
      invariant out == Intervals(raw)[..i]
    {
      var p := raw[i];
      var inc := if prevCum.Some? && p.cum >= prevCum.value then p.cum - prevCum.value else 0;
      prevCum := Some(p.cum);
      out := out + [IntervalPoint(Some(p.ts), Some(p.price), Some(inc))];
    }
  }

  // ----- Points to bars --------------------------------------------------------

  predicate Usable(p: IntervalPoint) {
    p.ts.Some? && p.price.Some? && p.price.value > 0.0
  }

  function BucketStart(ts: real, bucketSeconds: int): int
    requires bucketSeconds > 0
  {
    (ts / bucketSeconds as real).Floor * bucketSeconds
  }

  function PointTag(p: IntervalPoint, bucketSeconds: int): Slotted
    requires Usable(p) && bucketSeconds > 0
  {
    Slotted(BucketStart(p.ts.value, bucketSeconds), Point(p.price.value, p.volume.GetOr(0)))
  }

  function PointTags(points: seq<IntervalPoint>, bucketSeconds: int): seq<Slotted>
    requires bucketSeconds > 0
  {
    if points == [] then []
    else
      var n := |points| - 1;
      var before := PointTags(points[..n], bucketSeconds);
      var p := points[n];
      if Usable(p) then before + [PointTag(p, bucketSeconds)] else before
  }

  function Ohlc(points: seq<IntervalPoint>, bucketSeconds: int, limit: int): seq<Candle> {
    if bucketSeconds <= 0 then []
    else Stamp(TailSlice(RoundAll(Group(PointTags(points, bucketSeconds))), limit), 1.0)
  }

  method PointsToOhlc(points: seq<IntervalPoint>, bucketSeconds: int, limit: int) returns (out: seq<Candle>)
    ensures out == Ohlc(points, bucketSeconds, limit)
  {
    if points == [] || bucketSeconds <= 0 {
      return [];
    }
    var buckets: map<int, Bar> := map[];
    var order: seq<int> := [];
    RepresentsNothing(buckets, order, PointTags(points[..0], bucketSeconds));
    hide Represents, Group, Add, IndexOf, PointTags, HasSlot;
    for i := 0 to |points|
      invariant Represents(buckets, order, Group(PointTags(points[..i], bucketSeconds)))
    {
      var p := points[i];
      ghost var xs := PointTags(points[..i], bucketSeconds);
      assert points[..i + 1] == points[..i] + [p];
      PointTagsSnoc(points[..i], p, bucketSeconds);
      if p.ts.None? || p.price.None? || p.price.value <= 0.0 {
        continue;
      }
      var price := p.price.value;
      var b := (p.ts.value / bucketSeconds as real).Floor * bucketSeconds;
      ghost var x := Slotted(b, Point(price, p.volume.GetOr(0)));
      RepresentsAdd(buckets, order, Group(xs), x);
      GroupSnoc(xs, x);
      var cell := if b in buckets then buckets[b] else Bar(price, price, price, price, 0);
      if b !in buckets {
        order := order + [b];
      }
      cell := cell.(high := Max(cell.high, price), low := Min(cell.low, price), close := price);
      cell := cell.(volume := cell.volume + p.volume.GetOr(0));
      assert cell == if b in buckets then Merge(buckets[b], x.bar) else x.bar;
      buckets := buckets[b := cell];
    }
    assert points[..|points|] == points;
    out := EmitCandles(buckets, order, limit, 1.0, Group(PointTags(points, bucketSeconds)));
  }

  // ----- Agreement with the live engine ----------------------------------------

  function AsReadings(ps: seq<CurvePoint>, source: Option<string>): (rs: seq<Reading>)
    ensures |rs| == |ps|
    ensures forall i :: 0 <= i < |ps| ==> rs[i] == Reading(Some(ps[i].price), Some(ps[i].cum), ps[i].ts, source)
  {
    seq(|ps|, i requires 0 <= i < |ps| => Reading(Some(ps[i].price), Some(ps[i].cum), ps[i].ts, source))
  }

  function AsSamples(ps: seq<CurvePoint>, source: Option<string>): (ss: seq<Sample>)
    ensures |ss| == |ps|
    ensures forall i :: 0 <= i < |ps| ==> ss[i] == Sample(ps[i].ts, ps[i].price, ps[i].cum, source)
  {
    seq(|ps|, i requires 0 <= i < |ps| => Sample(ps[i].ts, ps[i].price, ps[i].cum, source))
  }

  // What the live engine holds after recording a curve.
  function Recorded(ps: seq<CurvePoint>, source: Option<string>, cap: nat, ttl: real): seq<Sample> {
    Replay(Lane([], None, 0.0), AsReadings(ps, source), cap, ttl).ring
  }

  ghost predicate PositivePrices(ps: seq<CurvePoint>) {
    forall i :: 0 <= i < |ps| ==> ps[i].price > 0.0
  }

  // The points of a curve that either pipeline looks at.
  function Kept(ps: seq<CurvePoint>): seq<CurvePoint> {
    if ps == [] then []
    else if ps[|ps| - 1].price > 0.0 then Kept(ps[..|ps| - 1]) + [ps[|ps| - 1]]
    else Kept(ps[..|ps| - 1])
  }

  lemma {:induction false} KeptFacts(ps: seq<CurvePoint>)
    ensures |Kept(ps)| <= |ps|
    ensures forall i :: 0 <= i < |Kept(ps)| ==> Kept(ps)[i] in ps
    ensures PositivePrices(ps) ==> Kept(ps) == ps
  {
    if ps != [] {
      KeptFacts(ps[..|ps| - 1]);
      SplitLast(ps);
    }
  }

  lemma OwnReading(lane: Lane, r: Reading, cap: nat, ttl: real)
    requires r.price.Some? && lane.owner in {None, r.source} && |lane.ring| < cap
    ensures Step(lane, r, cap, ttl).ring == if Valid(r) then lane.ring + [ToSample(r)] else lane.ring
    ensures Step(lane, r, cap, ttl).owner in {None, r.source}
  {
  }

  lemma AsReadingsSnoc(ps: seq<CurvePoint>, p: CurvePoint, source: Option<string>)
    ensures AsReadings([], source) == []
    ensures AsReadings(ps + [p], source)
            == AsReadings(ps, source) + [Reading(Some(p.price), Some(p.cum), p.ts, source)]
  {
  }

  lemma AsSamplesSnoc(ps: seq<CurvePoint>, p: CurvePoint, source: Option<string>)
    ensures AsSamples([], source) == []
    ensures AsSamples(ps + [p], source) == AsSamples(ps, source) + [Sample(p.ts, p.price, p.cum, source)]
  {
  }

  // Recording a curve keeps its usable points.
  lemma {:induction false} SingleSourceKept(ps: seq<CurvePoint>, source: Option<string>, cap: nat, ttl: real)
    requires |ps| <= cap
    ensures Replay(Lane([], None, 0.0), AsReadings(ps, source), cap, ttl).ring == AsSamples(Kept(ps), source)
    ensures Replay(Lane([], None, 0.0), AsReadings(ps, source), cap, ttl).owner in {None, source}
  {
    if ps != [] {
      hide Replay, Step, AsReadings, AsSamples;
      var n := |ps| - 1;
      var p := ps[n];
      var r := Reading(Some(p.price), Some(p.cum), p.ts, source);
      SingleSourceKept(ps[..n], source, cap, ttl);
      KeptFacts(ps[..n]);
      SplitLast(ps);
      AsReadingsSnoc(ps[..n], p, source);
      AsSamplesSnoc(Kept(ps[..n]), p, source);
      ReplaySnoc(Lane([], None, 0.0), AsReadings(ps[..n], source), r, cap, ttl);
      OwnReading(Replay(Lane([], None, 0.0), AsReadings(ps[..n], source), cap, ttl), r, cap, ttl);
    }
  }

  lemma PointTagsSnoc(points: seq<IntervalPoint>, p: IntervalPoint, bucketSeconds: int)
    requires bucketSeconds > 0
    ensures PointTags(points + [p], bucketSeconds) == PointTags(points, bucketSeconds) +
            if Usable(p) then [PointTag(p, bucketSeconds)] else []
  {
  }

  lemma {:induction false} TagsMatch(points: seq<IntervalPoint>, tags: seq<Slotted>, f: int -> int, bucketSeconds: int)
    requires |points| == |tags| && bucketSeconds > 0
    requires forall i :: 0 <= i < |points| ==>
      Usable(points[i]) && PointTag(points[i], bucketSeconds) == Slotted(f(tags[i].slot), tags[i].bar)
    ensures PointTags(points, bucketSeconds) == Reslot(tags, f)
  {
    if points != [] {
      hide PointTags, Reslot, BucketStart;
      var n := |points| - 1;
      TagsMatch(points[..n], tags[..n], f, bucketSeconds);
      SplitLast(points);
      SplitLast(tags);
      PointTagsSnoc(points[..n], points[n], bucketSeconds);
      ReslotSnoc(tags[..n], tags[n], f);
    }
  }

  lemma SameTagAt(ps: seq<CurvePoint>, source: Option<string>, i: nat, bucketSeconds: int)
    requires PositivePrices(ps) && i < |ps| && bucketSeconds > 0
    ensures var tag := Tag(AsSamples(ps, source), bucketSeconds as real)[i];
      && Usable(Intervals(ps)[i])
      && PointTag(Intervals(ps)[i], bucketSeconds) == Slotted(tag.slot * bucketSeconds, tag.bar)
  {
  }

  lemma SameTags(ps: seq<CurvePoint>, source: Option<string>, bucketSeconds: int)
    requires PositivePrices(ps) && bucketSeconds > 0
    ensures PointTags(Intervals(ps), bucketSeconds)
            == Reslot(Tag(AsSamples(ps, source), bucketSeconds as real), k => k * bucketSeconds)
  {
    var f := k => k * bucketSeconds;
    var tags := Tag(AsSamples(ps, source), bucketSeconds as real);
    hide PointTags, PointTag;
    forall i | 0 <= i < |ps|
      ensures Usable(Intervals(ps)[i])
      ensures PointTag(Intervals(ps)[i], bucketSeconds) == Slotted(f(tags[i].slot), tags[i].bar)
    {
      SameTagAt(ps, source, i, bucketSeconds);
    }
    TagsMatch(Intervals(ps), tags, f, bucketSeconds);
  }

  lemma SortedSamples(ps: seq<CurvePoint>, source: Option<string>)
    requires Sorted(ps)
    ensures TimeOrdered(AsSamples(ps, source))
  {
  }

  // Grouping commutes with relabelling slots by their start time.
  lemma GroupOfScaledSlots(xs: seq<Slotted>, scale: int)
    requires Ascending(xs) && scale > 0
    ensures Group(Reslot(xs, k => k * scale)) == Reslot(Group(xs), k => k * scale)
  {
    var f := k => k * scale;
    AscendingGroup(xs);
    RollUp(xs, f);
    var g := Group(xs);
    forall i, j | 0 <= i < j < |g|
      ensures g[i].slot * scale < g[j].slot * scale
    {
      IntMulLess(g[i].slot, g[j].slot, scale);
    }
    GroupOfStrict(Reslot(g, f));
  }

  lemma IntMulLess(a: int, b: int, c: int)
    requires a < b && c > 0
    ensures a * c < b * c
  {
  }

  lemma StampScaled(g: seq<Slotted>, bucketSeconds: int, limit: int)
    requires bucketSeconds > 0
    ensures Stamp(TailSlice(RoundAll(Reslot(g, k => k * bucketSeconds)), limit), 1.0)
            == Stamp(TailSlice(RoundAll(g), limit), bucketSeconds as real)
  {
    hide StartOf;
    var f := k => k * bucketSeconds;
    var scaled := RoundAll(Reslot(g, f));
    TailSliceIsSuffix(scaled, limit);
    TailSliceIsSuffix(RoundAll(g), limit);
    var m := TailStart(|g|, limit);
    forall i | 0 <= i < |g| - m
      ensures Stamp(scaled[m..], 1.0)[i] == Stamp(RoundAll(g)[m..], bucketSeconds as real)[i]
    {
      StartOfScaled(g[m + i].slot, bucketSeconds);
    }
  }

  lemma StartOfScaled(k: int, bucketSeconds: int)
    ensures StartOf(k * bucketSeconds, 1.0) == StartOf(k, bucketSeconds as real)
  {
  }

  lemma SortedPipelinesAgree(ps: seq<CurvePoint>, source: Option<string>, bucketSeconds: int, limit: int)
    requires PositivePrices(ps) && Sorted(ps) && bucketSeconds > 0
    ensures Ohlc(Intervals(ps), bucketSeconds, limit) == Candles(AsSamples(ps, source), bucketSeconds as real, limit)
  {
    var samples := AsSamples(ps, source);
    var xs := Tag(samples, bucketSeconds as real);
    SortedSamples(ps, source);
    SlotsAscend(samples, bucketSeconds as real);
    SameTags(ps, source, bucketSeconds);
    GroupOfScaledSlots(xs, bucketSeconds);
    StampScaled(Group(xs), bucketSeconds, limit);
    hide Group, RoundAll, Stamp, TailSlice, Reslot, Tag, PointTags, Intervals, AsSamples, Sorted, PositivePrices;
  }

  /** Two independent pipelines, one result: converting a positive-price curve to per-interval volumes
      and building bars gives the very candles the live engine builds from recording the same curve. */
  lemma PipelinesAgree(raw: seq<CurvePoint>, source: Option<string>, bucketSeconds: int, limit: int,
                       cap: nat, ttl: real)
    requires PositivePrices(raw) && |raw| <= cap
    ensures var ps := SortByTime(raw);
      Ohlc(Intervals(ps), bucketSeconds, limit)
      == Candles(Recorded(ps, source, cap, ttl), bucketSeconds as real, limit)
  {
    var ps := SortByTime(raw);
    SortIsStable(raw, 0.0);
    hide SortByTime, Sorted, AtTime, Replay, AsReadings, AsSamples, Intervals, Group, Kept;
    assert |ps| == |multiset(ps)| == |multiset(raw)| == |raw|;
    forall i | 0 <= i < |ps|
      ensures ps[i].price > 0.0
    {
      assert ps[i] in multiset(ps);
      assert ps[i] in raw;
    }
    SingleSourceKept(ps, source, cap, ttl);
    KeptFacts(ps);
    if bucketSeconds > 0 {
      SortedPipelinesAgree(ps, source, bucketSeconds, limit);
    }
  }

  // ----- Curves with unusable points ----------------------------------------------

  // Running totals that never go back.
  ghost predicate Rising(ps: seq<CurvePoint>) {
    forall i :: 0 < i < |ps| ==> ps[i - 1].cum <= ps[i].cum
  }

  // Volume the bar builder counts: the increments of usable points.
  function BuilderVolume(ps: seq<CurvePoint>): int {
    if ps == [] then 0
    else BuilderVolume(ps[..|ps| - 1]) + if ps[|ps| - 1].price > 0.0 then Increment(ps, |ps| - 1) else 0
  }

  // Increments of the unusable points after the last usable one.
  function Trailing(ps: seq<CurvePoint>): int {
    if Kept(ps) == [] || ps[|ps| - 1].price > 0.0 then 0
    else Trailing(ps[..|ps| - 1]) + Increment(ps, |ps| - 1)
  }

  // Increments of the unusable points between the first and the last usable one.
  function Skipped(ps: seq<CurvePoint>): int {
    if ps == [] then 0
    else
      var init := ps[..|ps| - 1];
      Skipped(init) + if ps[|ps| - 1].price > 0.0 then Trailing(init) else 0
  }

  // Increment of the first usable point.
  function Entry(ps: seq<CurvePoint>): int {
    if ps == [] then 0
    else if Kept(ps[..|ps| - 1]) == [] && ps[|ps| - 1].price > 0.0 then Increment(ps, |ps| - 1)
    else Entry(ps[..|ps| - 1])
  }

  lemma PrefixIncrement(ps: seq<CurvePoint>, n: nat, i: nat)
    requires i < n <= |ps|
    ensures Increment(ps[..n], i) == Increment(ps, i)
  {
  }

  // The difference of the running totals of the usable points, told in increments.
  lemma {:induction false} TotalsTold(ps: seq<CurvePoint>)
    requires Rising(ps)
    ensures var ks := Kept(ps);
      if ks == [] then BuilderVolume(ps) == Skipped(ps) == Entry(ps) == Trailing(ps) == 0
      else
        && ps[|ps| - 1].cum - ks[|ks| - 1].cum == Trailing(ps)
        && ks[|ks| - 1].cum - ks[0].cum == BuilderVolume(ps) - Entry(ps) + Skipped(ps)
    ensures forall i :: 0 < i < |Kept(ps)| ==> Kept(ps)[i - 1].cum <= Kept(ps)[i].cum
    ensures Kept(ps) != [] ==> Kept(ps)[|Kept(ps)| - 1].cum <= ps[|ps| - 1].cum
  {
    if ps != [] {
      TotalsTold(ps[..|ps| - 1]);
    }
  }

  lemma {:induction false} PointTagsVolume(ps: seq<CurvePoint>, bucketSeconds: int)
    requires bucketSeconds > 0
    ensures TotalVolume(PointTags(Intervals(ps), bucketSeconds)) == BuilderVolume(ps)
  {
    if ps == [] {
      assert Intervals(ps) == [];
    } else {
      hide PointTags, Intervals, TotalVolume, PointTag, Increment, Usable;
      var n := |ps| - 1;
      PointTagsVolume(ps[..n], bucketSeconds);
      PointTagsOfLast(ps, bucketSeconds);
      if ps[n].price > 0.0 {
        TagOfPoint(Intervals(ps)[n], bucketSeconds);
        TotalVolumeSnoc(PointTags(Intervals(ps[..n]), bucketSeconds), PointTag(Intervals(ps)[n], bucketSeconds));
      }
    }
  }

  lemma TagOfPoint(p: IntervalPoint, bucketSeconds: int)
    requires bucketSeconds > 0 && Usable(p)
    ensures PointTag(p, bucketSeconds).bar.volume == p.volume.GetOr(0)
  {
  }

  lemma PointTagsOfLast(ps: seq<CurvePoint>, bucketSeconds: int)
    requires bucketSeconds > 0 && ps != []
    ensures var n := |ps| - 1;
      && (Usable(Intervals(ps)[n]) <==> ps[n].price > 0.0)
      && PointTags(Intervals(ps), bucketSeconds)
         == if ps[n].price > 0.0
            then PointTags(Intervals(ps[..n]), bucketSeconds) + [PointTag(Intervals(ps)[n], bucketSeconds)]
            else PointTags(Intervals(ps[..n]), bucketSeconds)
  {
    var n := |ps| - 1;
    forall i | 0 <= i < n
      ensures Intervals(ps)[..n][i] == Intervals(ps[..n])[i]
    {
      PrefixIncrement(ps, n, i);
    }
    assert Intervals(ps)[..n] == Intervals(ps[..n]);
    hide PointTag, BucketStart;
  }

  /** With running totals that never go back, the builder's total volume exceeds the live engine's by the
      increment of the first usable point, which only the builder counts, and falls short of it by the
      increments of the unusable points in between, which only the live engine makes up for. So the totals
      agree exactly if those two are equal. */
  lemma VolumesDifferBySkipped(ps: seq<CurvePoint>, source: Option<string>, bucketSeconds: int, cap: nat, ttl: real)
    requires Rising(ps) && |ps| <= cap && bucketSeconds > 0
    ensures var live := CandleVolume(Candles(Recorded(ps, source, cap, ttl), bucketSeconds as real, 0));
      var built := CandleVolume(Ohlc(Intervals(ps), bucketSeconds, 0));
      && built - live == Entry(ps) - Skipped(ps)
      && (built == live <==> Entry(ps) == Skipped(ps))
  {
    hide Replay, AsReadings, Candles, Ohlc, CandleVolume, Kept, Entry, Skipped, BuilderVolume, Trailing, Intervals;
    hide Delta;
    var samples := AsSamples(Kept(ps), source);
    SingleSourceKept(ps, source, cap, ttl);
    TotalsTold(ps);
    VolumeIsDeltas(samples, bucketSeconds as real);
    if samples != [] {
      VolumeTelescopes(samples, |samples|);
    }
    BuiltVolume(ps, bucketSeconds);
  }

  lemma BuiltVolume(ps: seq<CurvePoint>, bucketSeconds: int)
    requires bucketSeconds > 0
    ensures CandleVolume(Ohlc(Intervals(ps), bucketSeconds, 0)) == BuilderVolume(ps)
  {
    hide Group, RoundAll, PointTags, Stamp, CandleVolume, TotalVolume;
    var xs := PointTags(Intervals(ps), bucketSeconds);
    PointTagsVolume(ps, bucketSeconds);
    GroupKeepsVolume(xs);
    StampKeepsVolume(RoundAll(Group(xs)), 1.0);
  }

  lemma MiddleSkipped()
    ensures var ps := [CurvePoint(0.0, 1.0, 0), CurvePoint(1.0, 0.0, 5), CurvePoint(2.0, 1.0, 5)];
      Entry(ps) == 0 && Skipped(ps) == 5 && BuilderVolume(ps) == 0
  {
    var a, b, c := CurvePoint(0.0, 1.0, 0), CurvePoint(1.0, 0.0, 5), CurvePoint(2.0, 1.0, 5);
    var ps := [a, b, c];
    assert ps[..2] == [a, b] && [a, b][..1] == [a] && [a][..0] == [];
    assert Kept([a]) == [a] && Kept([a, b]) == [a];
    assert Trailing([a]) == 0 && Trailing([a, b]) == 5;
    assert Entry([a]) == 0 && Entry([a, b]) == 0;
    assert Skipped([a]) == 0 && Skipped([a, b]) == 0;
    assert BuilderVolume([a]) == 0 && BuilderVolume([a, b]) == 0;
  }

  /** A curve on which the pipelines disagree: the middle point has no usable price, and its volume is in
      the live candle only. */
  lemma UnusablePointSplitsPipelines(cap: nat, ttl: real)
    requires cap >= 3
    ensures var ps := [CurvePoint(0.0, 1.0, 0), CurvePoint(1.0, 0.0, 5), CurvePoint(2.0, 1.0, 5)];
      && CandleVolume(Candles(Recorded(ps, None, cap, ttl), 60.0, 0)) == 5
      && CandleVolume(Ohlc(Intervals(ps), 60, 0)) == 0
  {
    hide Recorded, Candles, Ohlc, CandleVolume, Kept, Entry, Skipped, BuilderVolume, Intervals;
    MiddleSkipped();
    var ps := [CurvePoint(0.0, 1.0, 0), CurvePoint(1.0, 0.0, 5), CurvePoint(2.0, 1.0, 5)];
    VolumesDifferBySkipped(ps, None, 60, cap, ttl);
    BuiltVolume(ps, 60);
  }

  // ----- All but the volume agrees on every curve ------------------------------------------

  function NoVolume(b: Bar): Bar { b.(volume := 0) }

  function Quiet(xs: seq<Slotted>): (r: seq<Slotted>)
    ensures |r| == |xs|
    ensures forall i :: 0 <= i < |xs| ==> r[i] == Slotted(xs[i].slot, NoVolume(xs[i].bar))
  {
    seq(|xs|, i requires 0 <= i < |xs| => Slotted(xs[i].slot, NoVolume(xs[i].bar)))
  }

  function QuietCandles(cs: seq<Candle>): (r: seq<Candle>)
    ensures |r| == |cs|
    ensures forall i :: 0 <= i < |cs| ==> r[i] == Candle(cs[i].start, NoVolume(cs[i].bar))
  {
    seq(|cs|, i requires 0 <= i < |cs| => Candle(cs[i].start, NoVolume(cs[i].bar)))
  }

  lemma QuietSnoc(xs: seq<Slotted>, x: Slotted)
    ensures Quiet(xs + [x]) == Quiet(xs) + [Slotted(x.slot, NoVolume(x.bar))]
  {
  }

  lemma QuietAdd(g: seq<Slotted>, x: Slotted)
    ensures Quiet(Add(g, x)) == Add(Quiet(g), Slotted(x.slot, NoVolume(x.bar)))
  {
    IndexOfSameSlots(g, Quiet(g), x.slot);
    hide IndexOf;
  }

  lemma {:induction false} QuietGroup(xs: seq<Slotted>)
    ensures Quiet(Group(xs)) == Group(Quiet(xs))
  {
    if xs != [] {
      hide Group, Add, NoVolume;
      var n := |xs| - 1;
      var y := Slotted(xs[n].slot, NoVolume(xs[n].bar));
      QuietGroup(xs[..n]);
      SplitLast(xs);
      QuietSnoc(xs[..n], xs[n]);
      GroupSnoc(xs[..n], xs[n]);
      GroupSnoc(Quiet(xs[..n]), y);
      QuietAdd(Group(xs[..n]), xs[n]);
    } else {
      assert Quiet(xs) == [];
    }
  }

  lemma {:induction false} QuietTags(ps: seq<CurvePoint>, source: Option<string>, bucketSeconds: int)
    requires bucketSeconds > 0
    ensures Quiet(PointTags(Intervals(ps), bucketSeconds))
            == Quiet(Reslot(Tag(AsSamples(Kept(ps), source), bucketSeconds as real), k => k * bucketSeconds))
  {
    var f := k => k * bucketSeconds;
    if ps == [] {
      assert Intervals(ps) == [];
    } else {
      var n := |ps| - 1;
      QuietTags(ps[..n], source, bucketSeconds);
      PointTagsOfLast(ps, bucketSeconds);
      if ps[n].price > 0.0 {
        KeptTag(Kept(ps[..n]), ps[n], source, bucketSeconds);
        QuietSnoc(PointTags(Intervals(ps[..n]), bucketSeconds), PointTag(Intervals(ps)[n], bucketSeconds));
      }
    }
  }

  // One more usable point, one more tag; its volume aside it is the builder's.
  lemma KeptTag(ks: seq<CurvePoint>, p: CurvePoint, source: Option<string>, bucketSeconds: int)
    requires bucketSeconds > 0
    ensures var f := k => k * bucketSeconds;
      Quiet(Reslot(Tag(AsSamples(ks + [p], source), bucketSeconds as real), f))
      == Quiet(Reslot(Tag(AsSamples(ks, source), bucketSeconds as real), f))
         + [Slotted(BucketStart(p.ts, bucketSeconds), Point(p.price, 0))]
  {
    var ss, ss' := AsSamples(ks, source), AsSamples(ks + [p], source);
    assert forall i :: 0 <= i < |ss| ==> ss'[i] == ss[i];
    assert ss'[|ks|] == Sample(p.ts, p.price, p.cum, source);
  }

  lemma QuietEmit(xs: seq<Slotted>, ys: seq<Slotted>, width: real, limit: int)
    requires Quiet(Group(xs)) == Quiet(Group(ys))
    ensures QuietCandles(Stamp(TailSlice(RoundAll(Group(xs)), limit), width))
            == QuietCandles(Stamp(TailSlice(RoundAll(Group(ys)), limit), width))
  {
    var g, h := Group(xs), Group(ys);
    TailSliceIsSuffix(RoundAll(g), limit);
    TailSliceIsSuffix(RoundAll(h), limit);
    assert forall i :: 0 <= i < |g| ==> Quiet(g)[i] == Quiet(h)[i];
    hide Group, TailSlice, StartOf, Round2;
  }

  /** On every curve, with unusable points or not, the two pipelines agree on all but the volume: same
      candles, same starts, same four prices. */
  lemma PipelinesAgreeButVolume(raw: seq<CurvePoint>, source: Option<string>, bucketSeconds: int, limit: int,
                                cap: nat, ttl: real)
    requires |raw| <= cap
    ensures var ps := SortByTime(raw);
      QuietCandles(Ohlc(Intervals(ps), bucketSeconds, limit))
      == QuietCandles(Candles(Recorded(ps, source, cap, ttl), bucketSeconds as real, limit))
  {
    var ps := SortByTime(raw);
    SortIsStable(raw, 0.0);
    assert |ps| == |multiset(ps)| == |multiset(raw)| == |raw|;
    hide SortByTime, AtTime;
    SingleSourceKept(ps, source, cap, ttl);
    if bucketSeconds > 0 {
      hide Recorded, Quiet, QuietCandles, Group, Tag, PointTags, RoundAll, Stamp, TailSlice, Reslot, Kept;
      var samples := AsSamples(Kept(ps), source);
      var xs := Tag(samples, bucketSeconds as real);
      var f := k => k * bucketSeconds;
      KeptIsSorted(ps);
      SortedSamples(Kept(ps), source);
      SlotsAscend(samples, bucketSeconds as real);
      QuietTags(ps, source, bucketSeconds);
      QuietGroup(PointTags(Intervals(ps), bucketSeconds));
      QuietGroup(Reslot(xs, f));
      QuietEmit(PointTags(Intervals(ps), bucketSeconds), Reslot(xs, f), 1.0, limit);
      GroupOfScaledSlots(xs, bucketSeconds);
      StampScaled(Group(xs), bucketSeconds, limit);
    }
  }

  lemma {:induction false} KeptIsSorted(ps: seq<CurvePoint>)
    requires Sorted(ps)
    ensures Sorted(Kept(ps))
  {
    if ps != [] {
      var n := |ps| - 1;
      var ks := Kept(ps[..n]);
      KeptIsSorted(ps[..n]);
      KeptFacts(ps[..n]);
      forall i | 0 <= i < |ks|
        ensures ks[i].ts <= ps[n].ts
      {
        assert ks[i] in ps[..n];
      }
    }
  }
}
