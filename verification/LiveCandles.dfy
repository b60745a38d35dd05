/** The live-candle engine: one bounded ring of samples per key, one source owning each key, and a
    single pass that buckets the ring into OHLCV candles. */
module LiveCandles {
  import opened Wrappers
  import opened Rounding
  import opened Bars

  datatype Sample = Sample(ts: real, price: real, cum: int, src: Option<string>)

  // Arguments of one record() call; None stands for a value float() refuses.
  datatype Reading = Reading(price: Option<real>, cum: Option<int>, ts: real, source: Option<string>)

  // Everything the engine keeps for one key.
  datatype Lane = Lane(ring: seq<Sample>, owner: Option<string>, ownerTs: real)

  datatype Candle = Candle(start: real, bar: Bar)

  // ----- Recording -----------------------------------------------------------

  predicate Valid(r: Reading) {
    r.price.Some? && r.price.value > 0.0
  }

  // Another source's reading while the owner is still fresh.
  predicate Dropped(lane: Lane, r: Reading, ttl: real) {
    r.source.Some? && lane.owner.Some? && lane.owner != r.source && r.ts - lane.ownerTs <= ttl
  }

  predicate Accepts(lane: Lane, r: Reading, ttl: real) {
    Valid(r) && !Dropped(lane, r, ttl)
  }

  function ToSample(r: Reading): Sample
    requires Valid(r)
  {
    Sample(r.ts, r.price.value, r.cum.GetOr(0), r.source)
  }

  function Step(lane: Lane, r: Reading, cap: nat, ttl: real): Lane {
    if !Accepts(lane, r, ttl) then lane
    else
      var ring := KeepLast(lane.ring + [ToSample(r)], cap);
      if r.source.Some? then Lane(ring, r.source, r.ts) else lane.(ring := ring)
  }

  function Replay(lane: Lane, rs: seq<Reading>, cap: nat, ttl: real): Lane {
    if rs == [] then lane
    else Step(Replay(lane, rs[..|rs| - 1], cap, ttl), rs[|rs| - 1], cap, ttl)
  }

  // The samples a run of readings got accepted, before the ring forgets any.
  function Accepted(lane: Lane, rs: seq<Reading>, cap: nat, ttl: real): seq<Sample> {
    if rs == [] then []
    else
      var n := |rs| - 1;
      var before := Accepted(lane, rs[..n], cap, ttl);
      if Accepts(Replay(lane, rs[..n], cap, ttl), rs[n], ttl) then before + [ToSample(rs[n])] else before
  }

  lemma ReplaySnoc(lane: Lane, rs: seq<Reading>, r: Reading, cap: nat, ttl: real)
    ensures Replay(lane, rs + [r], cap, ttl) == Step(Replay(lane, rs, cap, ttl), r, cap, ttl)
    ensures Accepted(lane, rs + [r], cap, ttl)
            == Accepted(lane, rs, cap, ttl) + if Accepts(Replay(lane, rs, cap, ttl), r, ttl) then [ToSample(r)] else []
  {
  }

  lemma KeepLastSnoc<T>(all: seq<T>, x: T, cap: nat)
    ensures KeepLast(KeepLast(all, cap) + [x], cap) == KeepLast(all + [x], cap)
  {
  }

  lemma {:induction false} RingIsTailOfAccepted(lane: Lane, rs: seq<Reading>, cap: nat, ttl: real)
    requires |lane.ring| <= cap
    ensures Replay(lane, rs, cap, ttl).ring == KeepLast(lane.ring + Accepted(lane, rs, cap, ttl), cap)
  {
    if rs == [] {
      assert lane.ring + [] == lane.ring;
    } else {
      hide Replay, Accepted, KeepLast;
      var n := |rs| - 1;
      RingIsTailOfAccepted(lane, rs[..n], cap, ttl);
      SplitLast(rs);
      ReplaySnoc(lane, rs[..n], rs[n], cap, ttl);
      var all := lane.ring + Accepted(lane, rs[..n], cap, ttl);
      if Accepts(Replay(lane, rs[..n], cap, ttl), rs[n], ttl) {
        var s := ToSample(rs[n]);
        assert lane.ring + Accepted(lane, rs, cap, ttl) == all + [s];
        KeepLastSnoc(all, s, cap);
      }
    }
  }

  // ----- Bucketing -----------------------------------------------------------

  // Volume a sample adds: only against the sample just before it, from the same source, not backwards.
  function Delta(samples: seq<Sample>, i: nat): (d: int)
    requires i < |samples|
    ensures d >= 0
  {
    if i > 0 && samples[i].src == samples[i - 1].src && samples[i].cum >= samples[i - 1].cum
    then samples[i].cum - samples[i - 1].cum
    else 0
  }

  function SlotOf(s: Sample, width: real): int
    requires width > 0.0
  {
    (s.ts / width).Floor
  }

  function TagAt(samples: seq<Sample>, width: real, i: nat): Slotted
    requires width > 0.0 && i < |samples|
  {
    Slotted(SlotOf(samples[i], width), Point(samples[i].price, Delta(samples, i)))
  }

  // Each sample as a one-point bar in its bucket.
  function Tag(samples: seq<Sample>, width: real): (xs: seq<Slotted>)
    requires width > 0.0
    ensures |xs| == |samples|
    ensures forall i :: 0 <= i < |xs| ==> xs[i] == TagAt(samples, width, i)
  {
    seq(|samples|, i requires 0 <= i < |samples| => TagAt(samples, width, i))
  }

  function StartOf(slot: int, width: real): real {
    slot as real * width
  }

  function Stamp(bars: seq<Slotted>, width: real): (cs: seq<Candle>)
    ensures |cs| == |bars|
    ensures forall i :: 0 <= i < |bars| ==> cs[i] == Candle(StartOf(bars[i].slot, width), bars[i].bar)
  {
    seq(|bars|, i requires 0 <= i < |bars| => Candle(StartOf(bars[i].slot, width), bars[i].bar))
  }

  function Candles(samples: seq<Sample>, width: real, limit: int): seq<Candle> {
    if width <= 0.0 then []
    else Stamp(TailSlice(RoundAll(Group(Tag(samples, width))), limit), width)
  }

  class LiveCandleEngine {
    const maxlen: nat
    const primaryTtl: real
    var samples: map<string, seq<Sample>>
    var primarySrc: map<string, string>
    var primaryTs: map<string, real>

    constructor (maxlen: nat, primaryTtl: real)
      ensures this.maxlen == maxlen && this.primaryTtl == primaryTtl
      ensures forall key :: View(key) == Lane([], None, 0.0)
    {
      this.maxlen, this.primaryTtl := maxlen, primaryTtl;
      samples, primarySrc, primaryTs := map[], map[], map[];
    }

    function View(key: string): Lane
      reads this
    {
      Lane(
        if key in samples then samples[key] else [],
        if key in primarySrc then Some(primarySrc[key]) else None,
        if key in primaryTs then primaryTs[key] else 0.0)
    }

    method Record(key: string, price: Option<real>, cumVolume: Option<int>, ts: real, source: Option<string>)
      modifies this
      ensures View(key) == Step(old(View(key)), Reading(price, cumVolume, ts, source), maxlen, primaryTtl)
      ensures forall other :: other != key ==> View(other) == old(View(other))
    {
      if price.None? || price.value <= 0.0 {
        return;
      }
      var v := cumVolume.GetOr(0);
      if source.Some? {
        var ownerTs := if key in primaryTs then primaryTs[key] else 0.0;
        var ownerFresh := ts - ownerTs <= primaryTtl;
        if key in primarySrc && primarySrc[key] != source.value && ownerFresh {
          return;
        }
        primarySrc := primarySrc[key := source.value];
        primaryTs := primaryTs[key := ts];
      }
      var ring := if key in samples then samples[key] else [];
      samples := samples[key := KeepLast(ring + [Sample(ts, price.value, v, source)], maxlen)];
    }

    method Build(key: string, width: real, limit: int) returns (out: seq<Candle>)
      ensures out == Candles(View(key).ring, width, limit)
    {
      var ring := if key in samples then samples[key] else [];
      if ring == [] || width <= 0.0 {
        assert width > 0.0 ==> Tag(ring, width) == [];
        return [];
      }
      var buckets, order := Bucketize(ring, width);
      out := EmitCandles(buckets, order, limit, width, Group(Tag(ring, width)));
    }
  }

  // The sampling pass of build(): one dictionary cell per bucket, keys in order of appearance.
  method Bucketize(ring: seq<Sample>, width: real) returns (buckets: map<int, Bar>, order: seq<int>)
    requires width > 0.0
    ensures Represents(buckets, order, Group(Tag(ring, width)))
  {
    buckets := map[];
    order := [];
    var prevCum: Option<int> := None;
    var prevSrc: Option<string> := None;
    ghost var xs := Tag(ring, width);
    RepresentsNothing(buckets, order, xs[..0]);
    hide Represents, Group, Add, IndexOf, Tag, HasSlot;
    for i := 0 to |ring|
      invariant Represents(buckets, order, Group(xs[..i]))
      invariant prevCum == if i == 0 then None else Some(ring[i - 1].cum)
      invariant i > 0 ==> prevSrc == ring[i - 1].src
    {
      var s := ring[i];
      var idx := (s.ts / width).Floor;
      ghost var x := xs[i];
      RepresentsNext(buckets, order, xs, i);
      ghost var known := idx in buckets;
      var cell := if idx in buckets then buckets[idx] else Bar(s.price, s.price, s.price, s.price, 0);
      if idx !in buckets {
        order := order + [idx];
      }
      cell := cell.(high := Max(cell.high, s.price));
      cell := cell.(low := Min(cell.low, s.price));
      cell := cell.(close := s.price);
      if prevCum.Some? && s.src == prevSrc && s.cum >= prevCum.value {
        cell := cell.(volume := cell.volume + (s.cum - prevCum.value));
      }
      assert x == TagAt(ring, width, i);
      assert cell == if known then Merge(buckets[idx], x.bar) else x.bar;
      buckets := buckets[idx := cell];
      prevCum := Some(s.cum);
      prevSrc := s.src;
    }
    assert xs[..|ring|] == xs;
  }

  // The builder's dictionary and key list hold exactly this grouping.
  ghost predicate Represents(buckets: map<int, Bar>, order: seq<int>, g: seq<Slotted>) {
    && |order| == |g|
    && (forall j :: 0 <= j < |g| ==> order[j] == g[j].slot && order[j] in buckets && buckets[order[j]] == g[j].bar)
    && (forall k :: k in buckets ==> HasSlot(g, k))
    && DistinctSlots(g)
  }

  // RepresentsAdd, for a stream one bar further on.
  lemma RepresentsNext(buckets: map<int, Bar>, order: seq<int>, xs: seq<Slotted>, i: nat)
    requires i < |xs| && Represents(buckets, order, Group(xs[..i]))
    ensures xs[i].slot in buckets ==>
      Represents(buckets[xs[i].slot := Merge(buckets[xs[i].slot], xs[i].bar)], order, Group(xs[..i + 1]))
    ensures xs[i].slot !in buckets ==>
      Represents(buckets[xs[i].slot := xs[i].bar], order + [xs[i].slot], Group(xs[..i + 1]))
  {
    hide Represents, Group, Add;
    RepresentsAdd(buckets, order, Group(xs[..i]), xs[i]);
    GroupSnoc(xs[..i], xs[i]);
    assert xs[..i + 1] == xs[..i] + [xs[i]];
  }

  lemma RepresentsNothing(buckets: map<int, Bar>, order: seq<int>, none: seq<Slotted>)
    requires buckets == map[] && order == [] && none == []
    ensures Represents(buckets, order, Group(none))
  {
  }

  lemma RepresentsAdd(buckets: map<int, Bar>, order: seq<int>, g: seq<Slotted>, x: Slotted)
    requires Represents(buckets, order, g)
    ensures x.slot in buckets <==> IndexOf(g, x.slot) < |g|
    ensures x.slot in buckets ==>
      Represents(buckets[x.slot := Merge(buckets[x.slot], x.bar)], order, Add(g, x))
    ensures x.slot !in buckets ==>
      Represents(buckets[x.slot := x.bar], order + [x.slot], Add(g, x))
  {
    var i := IndexOf(g, x.slot);
    hide IndexOf, Merge;
    if x.slot in buckets {
      assert HasSlot(g, x.slot);
    }
    assert i < |g| ==> order[i] in buckets;
    AddKeepsDistinct(g, x);
    forall k | k == x.slot || k in buckets
      ensures HasSlot(Add(g, x), k)
    {
      HasSlotOfAdd(g, x, k);
    }
  }

  // Position in s of item j of TailSlice(s, limit).
  function TailStart(size: nat, limit: int): (start: nat)
    ensures start <= size
  {
    if limit >= size || limit == 0 then 0
    else if limit > 0 then size - limit
    else if -limit <= size then -limit
    else size
  }

  lemma TailSliceIsSuffix<T>(s: seq<T>, limit: int)
    ensures TailSlice(s, limit) == s[TailStart(|s|, limit)..]
  {
  }

  // The output pass of build(): the last `limit` buckets, rounded and time-stamped.
  method EmitCandles(buckets: map<int, Bar>, order: seq<int>, limit: int, width: real, ghost g: seq<Slotted>)
    returns (out: seq<Candle>)
    requires Represents(buckets, order, g)
    ensures out == Stamp(TailSlice(RoundAll(g), limit), width)
  {
    TailSliceIsSuffix(order, limit);
    TailSliceIsSuffix(RoundAll(g), limit);
    hide StartOf, RoundAll, Stamp, TailSlice, TailStart, DistinctSlots, HasSlot;
    out := [];
    var tail := TailSlice(order, limit);
    ghost var start := TailStart(|g|, limit);
    ghost var spec := Stamp(TailSlice(RoundAll(g), limit), width);
    for j := 0 to |tail|
      invariant out == spec[..j]
    {
      var c := buckets[tail[j]];
      out := out + [Candle(StartOf(tail[j], width),
                           Bar(Round2(c.open), Round2(c.high), Round2(c.low), Round2(c.close), c.volume))];
      assert c == g[start + j].bar && out[j] == spec[j];
    }
  }
}
