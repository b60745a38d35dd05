/** What the live candles mean, what they conserve, and which readings can influence them. */
module LiveCandleLaws {
  import opened Wrappers
  import opened Rounding
  import opened Bars
  import opened LiveCandles

  // ----- Candles describe the samples in their time window --------------------

  ghost predicate TimeOrdered(samples: seq<Sample>) {
    forall i, j :: 0 <= i < j < |samples| ==> samples[i].ts <= samples[j].ts
  }

  predicate Covers(c: Candle, width: real, s: Sample) {
    c.start <= s.ts < c.start + width
  }

  function DeltaSum(samples: seq<Sample>, a: nat, b: nat): int
    requires a <= b <= |samples|
    decreases b
  {
    if a == b then 0 else DeltaSum(samples, a, b - 1) + Delta(samples, b - 1)
  }

  // The candle of samples[a..b]: its prices are the rounded first, greatest, least and last one.
  ghost predicate Summarises(bar: Bar, samples: seq<Sample>, a: nat, b: nat)
    requires a < b <= |samples|
  {
    && bar.open == Round2(samples[a].price)
    && bar.close == Round2(samples[b - 1].price)
    && (forall j :: a <= j < b ==> bar.low <= Round2(samples[j].price) <= bar.high)
    && (exists j :: a <= j < b && Round2(samples[j].price) == bar.high)
    && (exists j :: a <= j < b && Round2(samples[j].price) == bar.low)
    && bar.volume == DeltaSum(samples, a, b)
  }

  lemma SlotIsWindow(ts: real, width: real, k: int)
    requires width > 0.0
    ensures (ts / width).Floor == k <==> StartOf(k, width) <= ts < StartOf(k, width) + width
  {
    var q, kr := ts / width, k as real;
    var lo, hi := StartOf(k, width), StartOf(k, width) + width;
    assert q.Floor == k <==> kr <= q < kr + 1.0;
    QuotientBelow(ts, width, kr, lo);
    assert (kr + 1.0) * width == kr * width + width;
    QuotientBelow(ts, width, kr + 1.0, hi);
  }

  lemma QuotientBelow(ts: real, width: real, k: real, bound: real)
    requires width > 0.0 && bound == k * width
    ensures ts / width < k <==> ts < bound
  {
  }

  lemma MulLess(a: real, b: real, w: real)
    requires w > 0.0
    ensures a < b ==> a * w < b * w
    ensures a <= b ==> a * w <= b * w
  {
  }

  lemma LaterSlotStartsLater(k: int, l: int, width: real)
    requires width > 0.0 && k < l
    ensures StartOf(k, width) + width <= StartOf(l, width)
  {
    MulLess(k as real + 1.0, l as real, width);
    assert (k as real + 1.0) * width == k as real * width + width;
  }

  lemma SlotsAscend(samples: seq<Sample>, width: real)
    requires width > 0.0 && TimeOrdered(samples)
    ensures Ascending(Tag(samples, width))
  {
    var xs := Tag(samples, width);
    forall i, j | 0 <= i < j < |xs|
      ensures xs[i].slot <= xs[j].slot
    {
      FloorMonotone(samples[i].ts, samples[j].ts, width);
    }
  }

  lemma FloorMonotone(t: real, u: real, width: real)
    requires width > 0.0 && t <= u
    ensures (t / width).Floor <= (u / width).Floor
  {
    var p, q := t / width, u / width;
    assert p * width == t && q * width == u;
    MulLess(q, p, width);
  }

  function BarsOf(xs: seq<Slotted>): (bs: seq<Bar>)
    ensures |bs| == |xs|
    ensures forall i :: 0 <= i < |xs| ==> bs[i] == xs[i].bar
  {
    seq(|xs|, i requires 0 <= i < |xs| => xs[i].bar)
  }

  ghost predicate SlotRange(xs: seq<Slotted>, k: int, a: nat, b: nat) {
    a < b <= |xs| && forall j :: 0 <= j < |xs| ==> (a <= j < b <==> xs[j].slot == k)
  }

  lemma SlotRangeSnoc(xs: seq<Slotted>, k: int, a: nat, b: nat)
    requires xs != [] && Ascending(xs) && SlotRange(xs[..|xs| - 1], k, a, b)
    ensures var last := xs[|xs| - 1];
      && (last.slot == k ==> b == |xs| - 1 && SlotRange(xs, k, a, b + 1))
      && (last.slot != k ==> SlotRange(xs, k, a, b))
  {
    var n := |xs| - 1;
    assert forall j :: 0 <= j < n ==> xs[..n][j] == xs[j];
    assert xs[a].slot == k;
    if b < n {
      assert xs[b].slot != k && xs[a].slot <= xs[b].slot <= xs[n].slot;
    }
  }

  lemma BarsOfRange(xs: seq<Slotted>, a: nat, b: nat)
    requires a <= b < |xs|
    ensures BarsOf(xs[a..b]) == BarsOf(xs[..|xs| - 1][a..b])
    ensures BarsOf(xs[a..b + 1]) == BarsOf(xs[a..b]) + [xs[b].bar]
  {
  }

  lemma LoneSlotRange(xs: seq<Slotted>)
    requires xs != [] && !HasSlot(xs[..|xs| - 1], xs[|xs| - 1].slot)
    ensures SlotRange(xs, xs[|xs| - 1].slot, |xs| - 1, |xs|)
    ensures BarsOf(xs[|xs| - 1..|xs|]) == [xs[|xs| - 1].bar]
  {
  }

  lemma PickOfLast(xs: seq<Slotted>, k: int)
    requires xs != []
    ensures var n := |xs| - 1;
      && Pick(xs, k) == Pick(xs[..n], k) + (if xs[n].slot == k then [xs[n].bar] else [])
      && (HasSlot(xs, k) <==> HasSlot(xs[..n], k) || xs[n].slot == k)
      && (!HasSlot(xs[..n], k) ==> Pick(xs[..n], k) == [])
  {
  }

  // In an ascending stream the bars of one slot are consecutive.
  lemma {:induction false} PickIsRange(xs: seq<Slotted>, k: int) returns (a: nat, b: nat)
    requires Ascending(xs) && HasSlot(xs, k)
    ensures a < b <= |xs| && SlotRange(xs, k, a, b)
    ensures Pick(xs, k) == BarsOf(xs[a..b])
  {
    assert xs != [];
    hide Pick, HasSlot, Ascending, BarsOf, SlotRange;
    var n := |xs| - 1;
    PrefixKeepsOrder(xs);
    PickOfLast(xs, k);
    if HasSlot(xs[..n], k) {
      a, b := PickIsRange(xs[..n], k);
      SlotRangeSnoc(xs, k, a, b);
      BarsOfRange(xs, a, b);
      b := if xs[n].slot == k then b + 1 else b;
    } else {
      LoneSlotRange(xs);
      a, b := n, n + 1;
    }
  }

  lemma {:induction false} VolumeIsDeltaSum(samples: seq<Sample>, width: real, a: nat, b: nat)
    requires width > 0.0 && a <= b <= |samples|
    ensures Volume(BarsOf(Tag(samples, width)[a..b])) == DeltaSum(samples, a, b)
  {
    if a < b {
      VolumeIsDeltaSum(samples, width, a, b - 1);
      var xs := Tag(samples, width);
      assert BarsOf(xs[a..b])[..b - 1 - a] == BarsOf(xs[a..b - 1]);
    }
  }

  /** Rounding the merged bar of consecutive samples summarises exactly those samples. */
  lemma MergedRangeSummarises(samples: seq<Sample>, width: real, a: nat, b: nat)
    requires width > 0.0 && a < b <= |samples|
    ensures Summarises(RoundBar(MergeAll(BarsOf(Tag(samples, width)[a..b]))), samples, a, b)
  {
    var bars := BarsOf(Tag(samples, width)[a..b]);
    var m := MergeAll(bars);
    MergeAllMeaning(bars);
    VolumeIsDeltaSum(samples, width, a, b);
    assert forall i :: 0 <= i < |bars| ==> bars[i] == Point(samples[a + i].price, Delta(samples, a + i));
    forall j | a <= j < b
      ensures Round2(m.low) <= Round2(samples[j].price) <= Round2(m.high)
    {
      assert bars[j - a].low == samples[j].price;
      Round2Monotone(m.low, samples[j].price);
      Round2Monotone(samples[j].price, m.high);
    }
    var h :| 0 <= h < |bars| && bars[h].high == m.high;
    var l :| 0 <= l < |bars| && bars[l].low == m.low;
    assert samples[a + h].price == m.high && samples[a + l].price == m.low;
  }

  predicate OnGrid(start: real, width: real)
    requires width > 0.0
  {
    StartOf((start / width).Floor, width) == start
  }

  ghost predicate IsCandleOf(c: Candle, samples: seq<Sample>, width: real) {
    exists a: nat, b: nat :: a < b <= |samples| && IsRange(c, samples, width, a, b) && Summarises(c.bar, samples, a, b)
  }

  ghost predicate IsRange(c: Candle, samples: seq<Sample>, width: real, a: nat, b: nat) {
    forall j :: 0 <= j < |samples| ==> (a <= j < b <==> Covers(c, width, samples[j]))
  }

  ghost predicate IsCovered(s: Sample, cs: seq<Candle>, width: real) {
    exists i :: 0 <= i < |cs| && Covers(cs[i], width, s)
  }

  lemma CandleSummarisesWindow(samples: seq<Sample>, width: real, i: nat)
    requires width > 0.0 && TimeOrdered(samples) && i < |Candles(samples, width, 0)|
    ensures IsCandleOf(Candles(samples, width, 0)[i], samples, width)
    ensures OnGrid(Candles(samples, width, 0)[i].start, width)
  {
    hide StartOf;
    var xs := Tag(samples, width);
    var k := Group(xs)[i].slot;
    var c := Candles(samples, width, 0)[i];
    SlotsAscend(samples, width);
    GroupMeaning(xs);
    PickNonEmpty(xs, k);
    var a, b := PickIsRange(xs, k);
    MergedRangeSummarises(samples, width, a, b);
    forall j | 0 <= j < |samples|
      ensures a <= j < b <==> Covers(c, width, samples[j])
    {
      assert xs[j] == TagAt(samples, width, j);
      SlotIsWindow(samples[j].ts, width, k);
    }
    assert IsRange(c, samples, width, a, b);
    SlotIsWindow(c.start, width, k);
  }

  lemma SampleIsCovered(samples: seq<Sample>, width: real, j: nat)
    requires width > 0.0 && j < |samples|
    ensures IsCovered(samples[j], Candles(samples, width, 0), width)
  {
    hide StartOf;
    var xs := Tag(samples, width);
    var g := Group(xs);
    GroupMeaning(xs);
    assert xs[j] == TagAt(samples, width, j);
    assert HasSlot(xs, xs[j].slot);
    var i :| 0 <= i < |g| && g[i].slot == xs[j].slot;
    SlotIsWindow(samples[j].ts, width, g[i].slot);
    assert Covers(Candles(samples, width, 0)[i], width, samples[j]);
  }

  lemma CandlesDisjoint(samples: seq<Sample>, width: real, i: nat, j: nat)
    requires width > 0.0 && TimeOrdered(samples) && i < j < |Candles(samples, width, 0)|
    ensures Candles(samples, width, 0)[i].start + width <= Candles(samples, width, 0)[j].start
  {
    hide StartOf;
    var g := Group(Tag(samples, width));
    SlotsAscend(samples, width);
    AscendingGroup(Tag(samples, width));
    LaterSlotStartsLater(g[i].slot, g[j].slot, width);
  }

  /** The one-pass builder is a declarative group-by: on time-ordered samples every candle summarises
      exactly the samples in its half-open window, the windows are disjoint, ascending and aligned to
      the width, and every sample lies in one of them. */
  lemma CandlesMeaning(samples: seq<Sample>, width: real)
    requires width > 0.0 && TimeOrdered(samples)
    ensures var cs := Candles(samples, width, 0);
      && (forall i, j :: 0 <= i < j < |cs| ==> cs[i].start + width <= cs[j].start)
      && (forall j :: 0 <= j < |samples| ==> IsCovered(samples[j], cs, width))
      && (forall i :: 0 <= i < |cs| ==> OnGrid(cs[i].start, width) && IsCandleOf(cs[i], samples, width))
  {
    var cs := Candles(samples, width, 0);
    hide Candles, IsCandleOf, IsCovered, OnGrid, TimeOrdered;
    forall i, j | 0 <= i < j < |cs|
      ensures cs[i].start + width <= cs[j].start
    {
      CandlesDisjoint(samples, width, i, j);
    }
    forall j | 0 <= j < |samples|
      ensures IsCovered(samples[j], cs, width)
    {
      SampleIsCovered(samples, width, j);
    }
    forall i | 0 <= i < |cs|
      ensures OnGrid(cs[i].start, width) && IsCandleOf(cs[i], samples, width)
    {
      CandleSummarisesWindow(samples, width, i);
    }
  }

  /** Even after rounding, and even if samples arrive out of order, a candle keeps low <= open, close <= high,
      and its volume is not negative. */
  lemma CandlesWellShaped(samples: seq<Sample>, width: real, limit: int)
    ensures forall c :: c in Candles(samples, width, limit) ==> WellShaped(c.bar) && c.bar.volume >= 0
  {
    if width > 0.0 {
      var xs := Tag(samples, width);
      GroupKeepsShape(xs);
      var bars := RoundAll(Group(xs));
      forall i | 0 <= i < |bars|
        ensures WellShaped(bars[i].bar) && bars[i].bar.volume >= 0
      {
        assert Group(xs)[i] in Group(xs);
        RoundKeepsShape(Group(xs)[i].bar);
      }
      hide Group, RoundBar, WellShaped;
      TailSliceIsSuffix(bars, limit);
    }
  }

  lemma StampOfSuffix(g: seq<Slotted>, start: nat, width: real)
    requires start <= |g|
    ensures Stamp(g[start..], width) == Stamp(g, width)[start..]
  {
  }

  lemma CandlesAreSuffix(samples: seq<Sample>, width: real, limit: int)
    requires width > 0.0
    ensures var all := Candles(samples, width, 0);
      Candles(samples, width, limit) == all[TailStart(|all|, limit)..]
  {
    var g := RoundAll(Group(Tag(samples, width)));
    TailSliceIsSuffix(g, 0);
    TailSliceIsSuffix(g, limit);
    assert g[0..] == g;
    StampOfSuffix(g, TailStart(|g|, limit), width);
    hide RoundAll, Group, Tag, Stamp, TailSlice, TailStart;
  }

  /** A limit of at least 1 keeps exactly the last candles of the unlimited result, a limit of 0 keeps all
      of them, and a negative one drops that many of the oldest. */
  lemma LimitKeepsLast(samples: seq<Sample>, width: real, limit: int)
    ensures var all, cs := Candles(samples, width, 0), Candles(samples, width, limit);
      && |cs| <= |all|
      && cs == all[|all| - |cs|..]
      && |cs| == if limit == 0 || limit >= |all| then |all|
                 else if limit > 0 then limit
                 else if -limit <= |all| then |all| + limit
                 else 0
  {
    var all, cs := Candles(samples, width, 0), Candles(samples, width, limit);
    if width > 0.0 {
      CandlesAreSuffix(samples, width, limit);
      hide Candles;
      assert |cs| == |all| - TailStart(|all|, limit);
    }
  }

  // ----- Volume --------------------------------------------------------------

  function CandleVolume(cs: seq<Candle>): int {
    if cs == [] then 0 else CandleVolume(cs[..|cs| - 1]) + cs[|cs| - 1].bar.volume
  }

  lemma {:induction false} StampKeepsVolume(bars: seq<Slotted>, width: real)
    ensures CandleVolume(Stamp(bars, width)) == TotalVolume(bars)
  {
    hide StartOf;
    if bars != [] {
      var n := |bars| - 1;
      StampKeepsVolume(bars[..n], width);
      SplitLast(bars);
      TotalVolumeSnoc(bars[..n], bars[n]);
      hide Stamp, TotalVolume;
      assert forall i :: 0 <= i < n ==> bars[..n][i] == bars[i];
      assert Stamp(bars, width)[..n] == Stamp(bars[..n], width);
    }
  }

  lemma {:induction false} TagVolume(samples: seq<Sample>, width: real, n: nat)
    requires width > 0.0 && n <= |samples|
    ensures TotalVolume(Tag(samples, width)[..n]) == DeltaSum(samples, 0, n)
  {
    if n > 0 {
      TagVolume(samples, width, n - 1);
      var xs := Tag(samples, width);
      hide Tag, TotalVolume;
      assert xs[..n] == xs[..n - 1] + [xs[n - 1]];
      TotalVolumeSnoc(xs[..n - 1], xs[n - 1]);
    }
  }

  /** The candles' total volume is the sum of the deltas, so it is the same for every width. */
  lemma VolumeConserved(samples: seq<Sample>, width: real, other: real)
    requires width > 0.0 && other > 0.0
    ensures CandleVolume(Candles(samples, width, 0)) == DeltaSum(samples, 0, |samples|)
    ensures CandleVolume(Candles(samples, width, 0)) == CandleVolume(Candles(samples, other, 0))
  {
    VolumeIsDeltas(samples, width);
    VolumeIsDeltas(samples, other);
  }

  lemma VolumeIsDeltas(samples: seq<Sample>, width: real)
    requires width > 0.0
    ensures CandleVolume(Candles(samples, width, 0)) == DeltaSum(samples, 0, |samples|)
  {
    hide TotalVolume, CandleVolume, DeltaSum, Group, RoundAll, Tag, Stamp;
    var xs := Tag(samples, width);
    StampKeepsVolume(RoundAll(Group(xs)), width);
    GroupKeepsVolume(xs);
    TagVolume(samples, width, |samples|);
    assert xs[..|samples|] == xs;
  }

  /** One source with a non-decreasing total: the candles carry exactly what was traded in between. */
  lemma {:induction false} VolumeTelescopes(samples: seq<Sample>, n: nat)
    requires 0 < n <= |samples|
    requires forall i :: 0 < i < |samples| ==>
      samples[i].src == samples[i - 1].src && samples[i - 1].cum <= samples[i].cum
    ensures DeltaSum(samples, 0, n) == samples[n - 1].cum - samples[0].cum
  {
    if n == 1 {
      assert DeltaSum(samples, 0, 1) == DeltaSum(samples, 0, 0) + Delta(samples, 0);
    } else {
      VolumeTelescopes(samples, n - 1);
    }
  }

  lemma {:induction false} DeltaSumOfJoin(a: seq<Sample>, b: seq<Sample>, n: nat)
    requires a != [] && b != [] && 0 < n <= |b|
    ensures DeltaSum(a + b, 0, |a|) == DeltaSum(a, 0, |a|)
    ensures DeltaSum(a + b, 0, |a| + n) == DeltaSum(a, 0, |a|) + Delta(a + b, |a|) + DeltaSum(b, 0, n)
    decreases n
  {
    PrefixDeltas(a, b, |a|);
    if n == 1 {
      assert DeltaSum(a + b, 0, |a| + 1) == DeltaSum(a + b, 0, |a|) + Delta(a + b, |a|);
      assert DeltaSum(b, 0, 1) == DeltaSum(b, 0, 0) + Delta(b, 0);
    } else {
      DeltaSumOfJoin(a, b, n - 1);
      assert Delta(a + b, |a| + n - 1) == Delta(b, n - 1);
    }
  }

  lemma {:induction false} PrefixDeltas(a: seq<Sample>, b: seq<Sample>, n: nat)
    requires n <= |a|
    ensures DeltaSum(a + b, 0, n) == DeltaSum(a, 0, n)
    decreases n
  {
    if n > 0 {
      PrefixDeltas(a, b, n - 1);
      assert Delta(a + b, n - 1) == Delta(a, n - 1);
    }
  }

  /** What was traded between two stretches of samples counts only if they meet in one source and the
      running total does not fall: a change of source or a reset starts afresh. A lone sample has traded
      nothing. */
  lemma VolumeOfJoin(a: seq<Sample>, b: seq<Sample>, width: real)
    requires width > 0.0 && a != [] && b != []
    ensures var last, first := a[|a| - 1], b[0];
      CandleVolume(Candles(a + b, width, 0)) - CandleVolume(Candles(a, width, 0)) - CandleVolume(Candles(b, width, 0))
      == if last.src != first.src || first.cum < last.cum then 0 else first.cum - last.cum
    ensures CandleVolume(Candles([b[0]], width, 0)) == 0
  {
    hide Candles, CandleVolume;
    VolumeIsDeltas(a, width);
    VolumeIsDeltas(b, width);
    VolumeIsDeltas(a + b, width);
    VolumeIsDeltas([b[0]], width);
    DeltaSumOfJoin(a, b, |b|);
    assert DeltaSum([b[0]], 0, 1) == DeltaSum([b[0]], 0, 0) + Delta([b[0]], 0);
    assert (a + b)[|a|] == b[0] && (a + b)[|a| - 1] == a[|a| - 1];
  }

  // ----- What one reading does ----------------------------------------------------

  /** A reading is taken exactly if its price is positive and no other source owns the key, or has for the
      TTL or less not been heard of; only a named source becomes the owner. What is kept of it is its time,
      price and source, and its total, or zero without one. */
  lemma ReadingIsTaken(lane: Lane, r: Reading, cap: nat, ttl: real)
    requires |lane.ring| < cap
    ensures var next := Step(lane, r, cap, ttl);
      var price := if r.price.Some? then r.price.value else 0.0;
      var total := if r.cum.Some? then r.cum.value else 0;
      var taken := price > 0.0
                   && (r.source == None || lane.owner in {None, r.source} || r.ts > lane.ownerTs + ttl);
      && next.ring == (if taken then lane.ring + [Sample(r.ts, price, total, r.source)] else lane.ring)
      && next.owner == (if taken && r.source != None then r.source else lane.owner)
      && next.ownerTs == (if taken && r.source != None then r.ts else lane.ownerTs)
  {
  }

  // ----- Source ownership -----------------------------------------------------

  // A usable reading of a named source other than the owner.
  predicate Foreign(r: Reading, owner: string) {
    Valid(r) && r.source.Some? && r.source.value != owner
  }

  predicate Owned(r: Reading, owner: string) {
    Valid(r) && r.source == Some(owner)
  }

  function WithoutForeign(rs: seq<Reading>, owner: string): seq<Reading> {
    if rs == [] then []
    else
      var n := |rs| - 1;
      if Foreign(rs[n], owner) then WithoutForeign(rs[..n], owner)
      else WithoutForeign(rs[..n], owner) + [rs[n]]
  }

  // Time of the owner's latest usable reading.
  function LastOwned(rs: seq<Reading>, owner: string, start: real): real {
    if rs == [] then start
    else if Owned(rs[|rs| - 1], owner) then rs[|rs| - 1].ts
    else LastOwned(rs[..|rs| - 1], owner, start)
  }

  // Every foreign reading comes within ttl of the owner's latest one.
  ghost predicate OwnerStaysFresh(rs: seq<Reading>, owner: string, start: real, ttl: real) {
    forall i :: 0 <= i < |rs| && Foreign(rs[i], owner) ==> rs[i].ts - LastOwned(rs[..i], owner, start) <= ttl
  }

  lemma LastOwnedSnoc(rs: seq<Reading>, r: Reading, owner: string, start: real)
    ensures LastOwned(rs + [r], owner, start) == if Owned(r, owner) then r.ts else LastOwned(rs, owner, start)
    ensures WithoutForeign(rs + [r], owner)
            == if Foreign(r, owner) then WithoutForeign(rs, owner) else WithoutForeign(rs, owner) + [r]
  {
  }

  lemma FreshPrefix(rs: seq<Reading>, owner: string, start: real, ttl: real)
    requires rs != [] && OwnerStaysFresh(rs, owner, start, ttl)
    ensures OwnerStaysFresh(rs[..|rs| - 1], owner, start, ttl)
  {
    var n := |rs| - 1;
    assert forall i :: 0 <= i < n ==> rs[..n][i] == rs[i] && rs[..n][..i] == rs[..i];
  }

  // While the owner is fresh a foreign reading changes nothing, and any other is taken the same way.
  lemma FreshStep(lane: Lane, r: Reading, owner: string, cap: nat, ttl: real)
    requires lane.owner == Some(owner)
    requires Foreign(r, owner) ==> r.ts - lane.ownerTs <= ttl
    ensures Foreign(r, owner) ==> Step(lane, r, cap, ttl) == lane && !Accepts(lane, r, ttl)
    ensures Step(lane, r, cap, ttl).owner == Some(owner)
    ensures Step(lane, r, cap, ttl).ownerTs == if Owned(r, owner) then r.ts else lane.ownerTs
  {
  }

  lemma {:induction false} ForeignReadingsIgnored(lane: Lane, rs: seq<Reading>, owner: string, cap: nat, ttl: real)
    requires lane.owner == Some(owner)
    requires OwnerStaysFresh(rs, owner, lane.ownerTs, ttl)
    ensures Replay(lane, rs, cap, ttl) == Replay(lane, WithoutForeign(rs, owner), cap, ttl)
    ensures Accepted(lane, rs, cap, ttl) == Accepted(lane, WithoutForeign(rs, owner), cap, ttl)
    ensures var now := Replay(lane, rs, cap, ttl);
      now.owner == Some(owner) && now.ownerTs == LastOwned(rs, owner, lane.ownerTs)
  {
    if rs != [] {
      hide Replay, Accepted, WithoutForeign, LastOwned, Step, Accepts, Foreign, Owned;
      var n := |rs| - 1;
      var init, r := rs[..n], rs[n];
      SplitLast(rs);
      FreshPrefix(rs, owner, lane.ownerTs, ttl);
      ForeignReadingsIgnored(lane, init, owner, cap, ttl);
      LastOwnedSnoc(init, r, owner, lane.ownerTs);
      ReplaySnoc(lane, init, r, cap, ttl);
      ReplaySnoc(lane, WithoutForeign(init, owner), r, cap, ttl);
      FreshStep(Replay(lane, init, cap, ttl), r, owner, cap, ttl);
    }
  }

  lemma {:induction false} OwnReadingsStayOwn(lane: Lane, rs: seq<Reading>, owner: string, cap: nat, ttl: real)
    requires forall i :: 0 <= i < |rs| ==> !Foreign(rs[i], owner)
    ensures forall s :: s in Accepted(lane, rs, cap, ttl) ==> s.src == None || s.src == Some(owner)
  {
    if rs != [] {
      var n := |rs| - 1;
      OwnReadingsStayOwn(lane, rs[..n], owner, cap, ttl);
    }
  }

  lemma {:induction false} WithoutForeignHasNone(rs: seq<Reading>, owner: string)
    ensures forall r :: r in WithoutForeign(rs, owner) ==> !Foreign(r, owner)
  {
    if rs != [] {
      WithoutForeignHasNone(rs[..|rs| - 1], owner);
    }
  }

  lemma {:induction false} AcceptedGrows(lane: Lane, rs: seq<Reading>, n: nat, cap: nat, ttl: real)
    requires n <= |rs|
    ensures Accepted(lane, rs[..n], cap, ttl) <= Accepted(lane, rs, cap, ttl)
    decreases |rs| - n
  {
    if n == |rs| {
      assert rs[..n] == rs;
    } else {
      AcceptedGrows(lane, rs, n + 1, cap, ttl);
      assert rs[..n + 1][..n] == rs[..n];
    }
  }

  /** Other named sources leave no trace in a lane exactly when each of their usable readings comes
      within the ttl of the owner's latest one. */
  lemma SourceNonInterference(lane: Lane, rs: seq<Reading>, owner: string, cap: nat, ttl: real)
    requires lane.owner == Some(owner)
    ensures OwnerStaysFresh(rs, owner, lane.ownerTs, ttl)
            <==> Accepted(lane, rs, cap, ttl) == Accepted(lane, WithoutForeign(rs, owner), cap, ttl)
    ensures OwnerStaysFresh(rs, owner, lane.ownerTs, ttl)
            ==> Replay(lane, rs, cap, ttl) == Replay(lane, WithoutForeign(rs, owner), cap, ttl)
  {
    if OwnerStaysFresh(rs, owner, lane.ownerTs, ttl) {
      ForeignReadingsIgnored(lane, rs, owner, cap, ttl);
    } else {
      var i := FirstLate(rs, owner, lane.ownerTs, ttl, 0);
      ForeignReadingsIgnored(lane, rs[..i], owner, cap, ttl);
      assert rs[..i + 1][..i] == rs[..i];
      var upTo := Accepted(lane, rs[..i + 1], cap, ttl);
      assert upTo[|upTo| - 1] == ToSample(rs[i]);
      AcceptedGrows(lane, rs, i + 1, cap, ttl);
      assert ToSample(rs[i]) in Accepted(lane, rs, cap, ttl);
      WithoutForeignHasNone(rs, owner);
      OwnReadingsStayOwn(lane, WithoutForeign(rs, owner), owner, cap, ttl);
    }
  }

  lemma FirstLate(rs: seq<Reading>, owner: string, start: real, ttl: real, from: nat) returns (i: nat)
    requires !OwnerStaysFresh(rs, owner, start, ttl)
    requires from <= |rs| && OwnerStaysFresh(rs[..from], owner, start, ttl)
    ensures i < |rs| && Foreign(rs[i], owner) && rs[i].ts - LastOwned(rs[..i], owner, start) > ttl
    ensures OwnerStaysFresh(rs[..i], owner, start, ttl)
    decreases |rs| - from
  {
    assert rs[..|rs|] == rs;
    if from == |rs| {
      assert false;
    } else if Foreign(rs[from], owner) && rs[from].ts - LastOwned(rs[..from], owner, start) > ttl {
      i := from;
    } else {
      assert forall j :: 0 <= j < from ==> rs[..from + 1][j] == rs[..from][j] && rs[..from + 1][..j] == rs[..from][..j];
      assert rs[..from + 1][..from] == rs[..from];
      i := FirstLate(rs, owner, start, ttl, from + 1);
    }
  }

  // The owner speaks at most ttl apart, and no reading comes later than ttl after its last word.
  ghost predicate OwnerSteady(rs: seq<Reading>, owner: string, start: real, ttl: real) {
    && (forall i, j :: 0 <= i < j < |rs| ==> rs[i].ts <= rs[j].ts)
    && (forall i :: 0 <= i < |rs| && Owned(rs[i], owner) ==> rs[i].ts - LastOwned(rs[..i], owner, start) <= ttl)
    && (rs != [] ==> rs[|rs| - 1].ts - LastOwned(rs, owner, start) <= ttl)
  }

  /** A steady owner stays fresh, so interleaving other sources changes no candle of any width. */
  lemma SteadyOwnerAlone(lane: Lane, rs: seq<Reading>, owner: string, cap: nat, ttl: real, width: real, limit: int)
    requires lane.owner == Some(owner) && ttl >= 0.0
    requires OwnerSteady(rs, owner, lane.ownerTs, ttl)
    ensures Candles(Replay(lane, rs, cap, ttl).ring, width, limit)
            == Candles(Replay(lane, WithoutForeign(rs, owner), cap, ttl).ring, width, limit)
  {
    forall i | 0 <= i < |rs| && Foreign(rs[i], owner)
      ensures rs[i].ts - LastOwned(rs[..i], owner, lane.ownerTs) <= ttl
    {
      assert rs[..i + 1][..i] == rs[..i];
      NextOwnedBounds(rs, owner, lane.ownerTs, ttl, i, i + 1);
    }
    SourceNonInterference(lane, rs, owner, cap, ttl);
  }

  lemma NextOwnedBounds(rs: seq<Reading>, owner: string, start: real, ttl: real, i: nat, j: nat)
    requires i < j <= |rs| && OwnerSteady(rs, owner, start, ttl)
    requires LastOwned(rs[..j], owner, start) == LastOwned(rs[..i], owner, start)
    ensures rs[i].ts - LastOwned(rs[..i], owner, start) <= ttl
    decreases |rs| - j
  {
    if j == |rs| {
      assert rs[..j] == rs;
    } else if Owned(rs[j], owner) {
      assert rs[i].ts <= rs[j].ts;
    } else {
      assert rs[..j + 1][..j] == rs[..j];
      NextOwnedBounds(rs, owner, start, ttl, i, j + 1);
    }
  }

  // The lane remembers the latest accepted sample that named a source.
  ghost predicate OwnerIsLastNamed(lane: Lane, log: seq<Sample>) {
    exists i :: LastNamed(log, i) && lane.owner == log[i].src && lane.ownerTs == log[i].ts
  }

  ghost predicate LastNamed(log: seq<Sample>, i: int) {
    0 <= i < |log| && log[i].src.Some? && forall j :: i < j < |log| ==> log[j].src.None?
  }

  ghost predicate ChangesHands(log: seq<Sample>, i: int, j: int) {
    && 0 <= i < j < |log| && log[i].src.Some? && log[j].src.Some? && log[i].src != log[j].src
    && forall k :: i < k < j ==> log[k].src.None?
  }

  ghost predicate OwnershipTold(lane: Lane, log: seq<Sample>, ttl: real) {
    && (forall i, j :: ChangesHands(log, i, j) ==> log[j].ts - log[i].ts > ttl)
    && (if forall i :: 0 <= i < |log| ==> log[i].src.None? then lane.owner.None? else OwnerIsLastNamed(lane, log))
  }

  lemma OwnershipToldStep(lane: Lane, log: seq<Sample>, r: Reading, cap: nat, ttl: real)
    requires OwnershipTold(lane, log, ttl) && Accepts(lane, r, ttl)
    ensures OwnershipTold(Step(lane, r, cap, ttl), log + [ToSample(r)], ttl)
  {
    var lane', log' := Step(lane, r, cap, ttl), log + [ToSample(r)];
    var m := |log|;
    assert forall i :: 0 <= i < m ==> log'[i] == log[i];
    forall i, j | ChangesHands(log', i, j)
      ensures log'[j].ts - log'[i].ts > ttl
    {
      if j < m {
        assert ChangesHands(log, i, j);
      } else {
        assert LastNamed(log, i);
        var i' :| LastNamed(log, i') && lane.owner == log[i'].src && lane.ownerTs == log[i'].ts;
        assert i' == i;
      }
    }
    if r.source.Some? {
      assert LastNamed(log', m);
      assert OwnerIsLastNamed(lane', log');
    } else if lane.owner.Some? {
      var i :| LastNamed(log, i) && lane.owner == log[i].src && lane.ownerTs == log[i].ts;
      assert LastNamed(log', i);
      assert OwnerIsLastNamed(lane', log');
    }
  }

  /** Whatever the clock does: ownership passes on only after more than ttl of silence. */
  lemma {:induction false} TakeoverNeedsSilence(rs: seq<Reading>, cap: nat, ttl: real)
    ensures OwnershipTold(Replay(Lane([], None, 0.0), rs, cap, ttl), Accepted(Lane([], None, 0.0), rs, cap, ttl), ttl)
  {
    var lane := Lane([], None, 0.0);
    if rs != [] {
      var n := |rs| - 1;
      TakeoverNeedsSilence(rs[..n], cap, ttl);
      if Accepts(Replay(lane, rs[..n], cap, ttl), rs[n], ttl) {
        OwnershipToldStep(Replay(lane, rs[..n], cap, ttl), Accepted(lane, rs[..n], cap, ttl), rs[n], cap, ttl);
      }
    }
  }
}
