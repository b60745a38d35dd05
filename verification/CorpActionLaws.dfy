/** What split adjustment preserves, that it settles in one pass, and how far rounding can drift. */
module CorpActionLaws {
  import opened Wrappers
  import opened Rounding
  import opened CorpActions

  // ----- Facts about quotients and products ---------------------------------------------------

  lemma DivideTwice(x: real, f: real, g: real)
    requires f > 0.0 && g > 0.0
    ensures Times(g, f) > 0.0
    ensures Divide(Divide(x, f), g) == Divide(x, Times(g, f))
    ensures Times(Times(x, f), g) == Times(x, Times(g, f))
  {
  }

  lemma DivideSign(x: real, d: real)
    requires d > 0.0
    ensures x > 0.0 <==> Divide(x, d) > 0.0
    ensures x == 0.0 <==> Divide(x, d) == 0.0
    ensures x > 0.0 <==> Times(x, d) > 0.0
    ensures Divide(0.0, d) == 0.0 && Times(0.0, d) == 0.0
    ensures Times(Divide(x, d), d) == x
  {
  }

  lemma RatioOfScaled(p: real, c: real, d: real, f: real)
    requires c > 0.0 && d > 0.0 && f > 0.0
    ensures Times(d, f) > 0.0 && Divide(c, d) > 0.0
    ensures Divide(Divide(p, Times(d, f)), Divide(c, d)) == Divide(Divide(p, c), f)
  {
  }

  lemma RatioOfScaledVolumes(p: real, c: real, d: real)
    requires p > 0.0 && d > 0.0
    ensures Times(p, d) > 0.0 && Divide(Times(c, d), Times(p, d)) == Divide(c, p)
  {
  }

  lemma OneIsNeutral(x: real)
    ensures Times(x, 1.0) == x == Divide(x, 1.0) && Times(1.0, x) == x
  {
  }

  lemma TimesSwaps(x: real, f: real, g: real)
    ensures Times(Times(x, f), g) == Times(Times(x, g), f)
  {
  }

  // A matched ratio divided by its factor is too close to 1 to match any factor.
  lemma MatchedRatioCloses(ratio: real, f: real)
    requires NearestFactor(ratio) == Some(f)
    ensures f >= 2.0 && Divide(ratio, f) <= 1.06 && NearestFactor(Divide(ratio, f)) == None
  {
  }

  // ----- What detection finds ------------------------------------------------------------------

  lemma BandIff(ratio: real, f: real)
    requires f > 0.0
    ensures Abs(ratio - f) / f <= PRICE_TOL <==> 0.94 * f <= ratio <= 1.06 * f
  {
    var q := Abs(ratio - f) / f;
    assert q * f == Abs(ratio - f);
    ScaledOrder(q, PRICE_TOL, f);
  }

  lemma ScaledOrder(a: real, b: real, f: real)
    requires f > 0.0
    ensures a <= b <==> a * f <= b * f
  {
    assert (b - a) * f == b * f - a * f;
    assert a > b ==> a * f > b * f;
  }

  /** The bands around the factors do not overlap: a ratio matches a factor exactly when it lies within
      6% of it, and never matches two. */
  lemma NearestFactorIff(ratio: real, f: real)
    ensures NearestFactor(ratio) == Some(f) <==> f in FACTORS && 0.94 * f <= ratio <= 1.06 * f
  {
    forall k | 0 <= k < |FACTORS|
      ensures Abs(ratio - FACTORS[k]) / FACTORS[k] <= PRICE_TOL <==> 0.94 * FACTORS[k] <= ratio <= 1.06 * FACTORS[k]
    {
      BandIff(ratio, FACTORS[k]);
    }
    FactorFromFirst(ratio, 0);
  }

  // FactorFrom returns the first matching factor.
  lemma {:induction false} FactorFromFirst(ratio: real, k: nat)
    requires k <= |FACTORS|
    requires forall i :: 0 <= i < |FACTORS| ==>
      (Abs(ratio - FACTORS[i]) / FACTORS[i] <= PRICE_TOL <==> 0.94 * FACTORS[i] <= ratio <= 1.06 * FACTORS[i])
    ensures forall i :: k <= i < |FACTORS| && 0.94 * FACTORS[i] <= ratio <= 1.06 * FACTORS[i] ==>
      FactorFrom(ratio, k) == Some(FACTORS[i])
    ensures FactorFrom(ratio, k).Some? ==>
      exists i :: k <= i < |FACTORS| && FactorFrom(ratio, k) == Some(FACTORS[i])
                  && 0.94 * FACTORS[i] <= ratio <= 1.06 * FACTORS[i]
    decreases |FACTORS| - k
  {
    if k < |FACTORS| {
      FactorFromFirst(ratio, k + 1);
    }
  }

  lemma BandOfPrices(p: real, o: real, f: real)
    requires o > 0.0
    ensures 0.94 * f <= Divide(p, o) <= 1.06 * f <==> 0.94 * f * o <= p <= 1.06 * f * o
  {
    assert Divide(p, o) * o == p;
    ScaledOrder(0.94 * f, Divide(p, o), o);
    ScaledOrder(Divide(p, o), 1.06 * f, o);
  }

  lemma VolumeBandIff(v: real, w: real, f: real)
    requires v > 0.0 && f > 0.0
    ensures Abs(Divide(w, v) - f) / f <= VOLUME_TOL <==> 0.1 * f * v <= w <= 1.9 * f * v
  {
    var q := Divide(w, v);
    assert q * v == w;
    ScaledOrder(0.1 * f, q, v);
    ScaledOrder(q, 1.9 * f, v);
    hide Divide;
    ToleranceIff(q, f, VOLUME_TOL);
  }

  lemma ToleranceIff(q: real, f: real, tol: real)
    requires f > 0.0
    ensures Abs(q - f) / f <= tol <==> f - tol * f <= q <= f + tol * f
  {
    var a, d, m := Abs(q - f) / f, Abs(q - f), tol * f;
    assert a * f == d;
    ScaledOrder(a, tol, f);
    assert a <= tol <==> d <= m;
    assert d <= m <==> f - m <= q <= f + m;
  }

  /** Two neighbouring bars show a split by f if f is one of the seven usual factors, the earlier close lies
      within 6% of f times the later opening price, both being positive, and the volumes, where both are
      known, grew by a tenth of f to 1.9 times f. The opening price is the close of a bar whose open is
      missing or zero. */
  ghost predicate ShowsSplit(prev: Candle, cur: Candle, f: real) {
    var p := if prev.close.Some? then prev.close.value else 0.0;
    var c := if cur.close.Some? then cur.close.value else 0.0;
    var o := if cur.open.Some? && cur.open.value != 0.0 then cur.open.value else c;
    var v := if prev.volume.Some? then prev.volume.value else 0.0;
    var w := if cur.volume.Some? then cur.volume.value else 0.0;
    && f in [2.0, 2.5, 3.0, 4.0, 5.0, 6.0, 10.0]
    && p > 0.0 && o > 0.0 && 0.94 * f * o <= p <= 1.06 * f * o
    && (v <= 0.0 || w <= 0.0 || 0.1 * f * v <= w <= 1.9 * f * v)
  }

  lemma SplitMeaning(prev: Candle, cur: Candle, f: real)
    ensures SplitBetween(prev, cur) == Some(f) <==> ShowsSplit(prev, cur, f)
  {
    hide NearestFactor, Divide, Abs;
    var p, o := Num(prev.close), OpeningPrice(cur);
    var v, w := Num(prev.volume), Num(cur.volume);
    if p > 0.0 && o > 0.0 {
      NearestFactorIff(Divide(p, o), f);
      BandOfPrices(p, o, f);
      if v > 0.0 && f > 0.0 {
        VolumeBandIff(v, w, f);
      }
    }
  }

  /** Detection lists exactly the bars that show a split against the bar before, and their factors. */
  lemma {:induction false} DetectFindsAll(candles: seq<Candle>, i: nat, f: real)
    ensures Event(i, f) in Detect(candles)
            <==> 0 < i < |candles| && SplitBetween(candles[i - 1], candles[i]) == Some(f)
    ensures Event(i, f) in Detect(candles) <==> 0 < i < |candles| && ShowsSplit(candles[i - 1], candles[i], f)
  {
    hide SplitBetween, ShowsSplit;
    if 0 < i < |candles| {
      SplitMeaning(candles[i - 1], candles[i], f);
    }
    if |candles| >= 2 {
      DetectFindsAll(candles[..|candles| - 1], i, f);
      DetectFacts(candles[..|candles| - 1]);
    }
  }

  /** A later bar's close plays no part when its open is present and not zero; otherwise it is the open. */
  lemma CloseStandsInForOpen(prev: Candle, cur: Candle, close: Option<real>)
    ensures cur.open.Some? && cur.open.value != 0.0 ==>
      SplitBetween(prev, cur.(close := close)) == SplitBetween(prev, cur)
    ensures cur.open in {None, Some(0.0)} ==>
      SplitBetween(prev, cur.(open := cur.close)) == SplitBetween(prev, cur)
  {
    hide NearestFactor, Divide, Abs;
  }

  // ----- Exact arithmetic: each bar is scaled by one product ---------------------------------

  // Product of the factors of all events after bar j.
  function Divisor(j: nat, events: seq<Event>): real
    requires PositiveFactors(events)
    decreases |events|
  {
    if events == [] then 1.0
    else
      var e := events[|events| - 1];
      assert e in events;
      var before := Divisor(j, events[..|events| - 1]);
      if j < e.index then Times(before, e.factor) else before
  }

  lemma {:induction false} DivisorPositive(j: nat, events: seq<Event>)
    requires PositiveFactors(events)
    ensures Divisor(j, events) > 0.0
    decreases |events|
  {
    if events != [] {
      var e := events[|events| - 1];
      assert e in events;
      DivisorPositive(j, events[..|events| - 1]);
      DivideSign(Divisor(j, events[..|events| - 1]), e.factor);
    }
  }

  lemma ScaleTwice(c: Candle, f: real, g: real)
    requires f > 0.0 && g > 0.0
    ensures Times(g, f) > 0.0 && Scale(Scale(c, f, Exact), g, Exact) == Scale(c, Times(g, f), Exact)
  {
    DivideTwice(Num(c.open), f, g);
    DivideTwice(Num(c.high), f, g);
    DivideTwice(Num(c.low), f, g);
    DivideTwice(Num(c.close), f, g);
    DivideTwice(Num(c.vwap), f, g);
    DivideTwice(Num(c.volume), f, g);
    hide Divide, Times;
  }

  lemma ScaleByOne(c: Candle)
    ensures Scale(c, 1.0, Exact) == c
  {
  }

  /** Exact adjustment divides a bar's prices and multiplies its volume by the product of the factors
      of all later events. */
  lemma {:induction false} AdjustedScalesByProduct(c: Candle, j: nat, events: seq<Event>)
    requires PositiveFactors(events)
    ensures Divisor(j, events) > 0.0
    ensures Adjusted(c, j, events, Exact) == Scale(c, Divisor(j, events), Exact)
    decreases |events|
  {
    DivisorPositive(j, events);
    if events == [] {
      ScaleByOne(c);
    } else {
      hide Times, Divide, Scale;
      var e := events[|events| - 1];
      var init := events[..|events| - 1];
      assert e in events;
      var c' := if j < e.index then Scale(c, e.factor, Exact) else c;
      AdjustedScalesByProduct(c', j, init);
      if j < e.index {
        ScaleTwice(c, e.factor, Divisor(j, init));
      }
    }
  }

  lemma ProductOfScaled(p: real, v: real, d: real)
    requires d > 0.0
    ensures Divide(p, d) * Times(v, d) == p * v
  {
  }

  // The two bars agree on price times volume, for a price that is present or missing in both.
  predicate SameTurnover(p: Option<real>, v: Option<real>, p': Option<real>, v': Option<real>) {
    && p.Some? == p'.Some? && v.Some? == v'.Some?
    && (p.Some? && v.Some? ==> p.value * v.value == p'.value * v'.value)
  }

  /** Price times volume is conserved bar by bar, for every price of the bar. */
  lemma TurnoverConserved(c: Candle, j: nat, events: seq<Event>)
    requires PositiveFactors(events)
    ensures var c' := Adjusted(c, j, events, Exact);
      && SameTurnover(c.open, c.volume, c'.open, c'.volume)
      && SameTurnover(c.high, c.volume, c'.high, c'.volume)
      && SameTurnover(c.low, c.volume, c'.low, c'.volume)
      && SameTurnover(c.close, c.volume, c'.close, c'.volume)
      && SameTurnover(c.vwap, c.volume, c'.vwap, c'.volume)
  {
    AdjustedScalesByProduct(c, j, events);
    var d := Divisor(j, events);
    hide Adjusted, Divisor;
    ScaledTurnover(c.open, c.volume, d);
    ScaledTurnover(c.high, c.volume, d);
    ScaledTurnover(c.low, c.volume, d);
    ScaledTurnover(c.close, c.volume, d);
    ScaledTurnover(c.vwap, c.volume, d);
    hide ScalePrice, ScaleVolume, SameTurnover;
  }

  lemma ScaledTurnover(p: Option<real>, v: Option<real>, d: real)
    requires d > 0.0
    ensures SameTurnover(p, v, ScalePrice(p, d, Exact), ScaleVolume(v, d, Exact))
  {
    ProductOfScaled(Num(p), Num(v), d);
    hide Divide, Times;
  }

  // ----- Exact arithmetic: adjusting settles in one pass --------------------------------------

  // Factor of the event at bar i, or 1.
  function FactorAt(candles: seq<Candle>, i: nat): (f: real)
    requires 0 < i < |candles|
    ensures f == 1.0 || f >= 2.0
  {
    SplitBetween(candles[i - 1], candles[i]).GetOr(1.0)
  }

  lemma DivisorSnoc(j: nat, events: seq<Event>, e: Event)
    requires PositiveFactors(events + [e])
    ensures PositiveFactors(events)
    ensures Divisor(j, events + [e])
            == if j < e.index then Times(Divisor(j, events), e.factor) else Divisor(j, events)
  {
  }

  lemma DetectSnoc(candles: seq<Candle>)
    requires |candles| >= 2
    ensures var n := |candles| - 1;
      var f := SplitBetween(candles[n - 1], candles[n]);
      Detect(candles) == Detect(candles[..n]) + if f.Some? then [Event(n, f.value)] else []
  {
  }

  function DivisorAt(candles: seq<Candle>, j: nat): real {
    DetectFacts(candles);
    Divisor(j, Detect(candles))
  }

  lemma DivisorAtSnoc(candles: seq<Candle>, j: nat)
    requires |candles| >= 2
    ensures var n := |candles| - 1;
      DivisorAt(candles, j) == if j < n && SplitBetween(candles[n - 1], candles[n]).Some?
                               then Times(DivisorAt(candles[..n], j), FactorAt(candles, n))
                               else DivisorAt(candles[..n], j)
  {
    var n := |candles| - 1;
    var f := SplitBetween(candles[n - 1], candles[n]);
    DetectFacts(candles);
    DetectFacts(candles[..n]);
    if f.Some? {
      assert Detect(candles) == Detect(candles[..n]) + [Event(n, f.value)];
      DivisorSnoc(j, Detect(candles[..n]), Event(n, f.value));
    } else {
      assert Detect(candles) == Detect(candles[..n]);
    }
  }

  lemma DivisorAtEnd(candles: seq<Candle>, j: nat)
    requires |candles| <= j + 1
    ensures DivisorAt(candles, j) == 1.0
  {
    DetectFacts(candles);
    DivisorPastAll(j, Detect(candles));
  }

  // Crossing bar i changes the divisor by exactly that bar's event.
  lemma {:induction false} DivisorStep(candles: seq<Candle>, i: nat)
    requires 0 < i < |candles|
    ensures DivisorAt(candles, i - 1) == Times(DivisorAt(candles, i), FactorAt(candles, i))
    decreases |candles|
  {
    hide Times, SplitBetween, DivisorAt;
    var n := |candles| - 1;
    var init := candles[..n];
    DivisorAtSnoc(candles, i);
    DivisorAtSnoc(candles, i - 1);
    if i < n {
      DivisorStep(init, i);
      assert FactorAt(init, i) == FactorAt(candles, i);
      TimesSwaps(DivisorAt(init, i), FactorAt(candles, i), FactorAt(candles, n));
    } else {
      DivisorAtEnd(init, n);
      DivisorAtEnd(init, n - 1);
      OneIsNeutral(1.0);
      OneIsNeutral(FactorAt(candles, n));
    }
  }

  lemma {:induction false} DivisorPastAll(j: nat, events: seq<Event>)
    requires PositiveFactors(events)
    requires forall e :: e in events ==> e.index <= j
    ensures Divisor(j, events) == 1.0
    decreases |events|
  {
    if events != [] {
      assert events[|events| - 1] in events;
      DivisorPastAll(j, events[..|events| - 1]);
    }
  }

  lemma NumsOfScaled(c: Candle, d: real)
    requires d > 0.0
    ensures OpeningPrice(Scale(c, d, Exact)) == Divide(OpeningPrice(c), d)
    ensures Num(Scale(c, d, Exact).close) == Divide(Num(c.close), d)
    ensures Num(Scale(c, d, Exact).volume) == Times(Num(c.volume), d)
  {
  }

  // Scaling both bars alike changes no decision.
  lemma SameScaleSameSplit(prev: Candle, cur: Candle, d: real)
    requires d > 0.0
    ensures SplitBetween(Scale(prev, d, Exact), Scale(cur, d, Exact)) == SplitBetween(prev, cur)
  {
    hide Divide, Times, NearestFactor, Scale, OpeningPrice, Num;
    var p, c := Num(prev.close), OpeningPrice(cur);
    var v, w := Num(prev.volume), Num(cur.volume);
    NumsOfScaled(prev, d);
    NumsOfScaled(cur, d);
    DivideSign(p, d);
    DivideSign(c, d);
    DivideSign(v, d);
    DivideSign(w, d);
    if p > 0.0 && c > 0.0 {
      RatioOfScaled(p, c, d, 1.0);
      OneIsNeutral(d);
      OneIsNeutral(Divide(p, c));
      if v > 0.0 {
        RatioOfScaledVolumes(v, w, d);
      }
    }
  }

  // Scaling the earlier bar by the matched factor more closes the gap.
  lemma SplitIsClosed(prev: Candle, cur: Candle, d: real)
    requires d > 0.0 && SplitBetween(prev, cur).Some?
    ensures var df := Times(d, SplitBetween(prev, cur).value);
      df > 0.0 && SplitBetween(Scale(prev, df, Exact), Scale(cur, d, Exact)) == None
  {
    hide Divide, Times, NearestFactor, Scale, OpeningPrice, Num;
    var f := SplitBetween(prev, cur).value;
    var p, c := Num(prev.close), OpeningPrice(cur);
    RatioOfScaled(p, c, d, f);
    NumsOfScaled(cur, d);
    NumsOfScaled(prev, Times(d, f));
    MatchedRatioCloses(Divide(p, c), f);
  }

  lemma {:induction false} NoSplitsNoEvents(candles: seq<Candle>)
    requires forall i :: 0 < i < |candles| ==> SplitBetween(candles[i - 1], candles[i]).None?
    ensures Detect(candles) == []
  {
    if |candles| >= 2 {
      NoSplitsNoEvents(candles[..|candles| - 1]);
    }
  }

  lemma AdjustedGapIsGone(candles: seq<Candle>, i: nat)
    requires 0 < i < |candles|
    ensures PositiveFactors(Detect(candles))
    ensures SplitBetween(Adjusted(candles[i - 1], i - 1, Detect(candles), Exact),
                         Adjusted(candles[i], i, Detect(candles), Exact)).None?
  {
    hide Times, Divide, Scale, Detect, Adjusted, Divisor, SplitBetween;
    var events := Detect(candles);
    DetectFacts(candles);
    AdjustedScalesByProduct(candles[i - 1], i - 1, events);
    AdjustedScalesByProduct(candles[i], i, events);
    DivisorStep(candles, i);
    var d := DivisorAt(candles, i);
    if SplitBetween(candles[i - 1], candles[i]).Some? {
      SplitIsClosed(candles[i - 1], candles[i], d);
    } else {
      OneIsNeutral(d);
      SameScaleSameSplit(candles[i - 1], candles[i], d);
    }
  }

  /** In exact arithmetic one pass settles the series: detection finds nothing in the adjusted bars,
      and adjusting again changes nothing. */
  lemma ExactAdjustmentIdempotent(candles: seq<Candle>)
    ensures var once := Adjust(candles, Exact).0; Adjust(once, Exact) == (once, [])
  {
    if |candles| >= 3 {
      hide SplitBetween, Scale;
      DetectFacts(candles);
      var once := AdjustAll(candles, Detect(candles), Exact);
      forall i | 0 < i < |once|
        ensures SplitBetween(once[i - 1], once[i]).None?
      {
        AdjustedGapIsGone(candles, i);
      }
      NoSplitsNoEvents(once);
      assert AdjustAll(once, [], Exact) == once;
    }
  }

  // ----- Rounding after every event ------------------------------------------------------------

  ghost predicate NearPrice(rounded: Option<real>, exact: Option<real>) {
    && rounded.Some? == exact.Some?
    && (rounded.Some? ==>
          && -0.0001 < rounded.value - exact.value < 0.0001
          && (exact.value == 0.0 ==> rounded.value == 0.0)
          && (exact.value <= 0.0 ==> rounded.value <= 0.0))
  }

  ghost predicate NearPrices(rounded: Candle, exact: Candle) {
    && NearPrice(rounded.open, exact.open) && NearPrice(rounded.high, exact.high)
    && NearPrice(rounded.low, exact.low) && NearPrice(rounded.close, exact.close)
    && NearPrice(rounded.vwap, exact.vwap)
  }

  lemma NearPriceScaled(r: Option<real>, e: Option<real>, f: real)
    requires NearPrice(r, e) && f >= 2.0
    ensures NearPrice(ScalePrice(r, f, Rounded), ScalePrice(e, f, Exact))
  {
    if r.Some? {
      DriftHalves(r.value, e.value, f);
      DivideSign(e.value, f);
      hide Divide;
    }
  }

  lemma DriftHalves(x: real, y: real, f: real)
    requires -0.0001 < x - y < 0.0001 && f >= 2.0
    ensures -0.00005 < Divide(x, f) - Divide(y, f) < 0.00005
  {
  }

  lemma {:induction false} NearAfterEvents(r: Candle, e: Candle, j: nat, events: seq<Event>)
    requires NearPrices(r, e) && forall ev :: ev in events ==> ev.factor >= 2.0
    ensures PositiveFactors(events)
    ensures NearPrices(Adjusted(r, j, events, Rounded), Adjusted(e, j, events, Exact))
    decreases |events|
  {
    if events != [] {
      var ev := events[|events| - 1];
      assert ev in events;
      NearPriceScaled(r.open, e.open, ev.factor);
      NearPriceScaled(r.high, e.high, ev.factor);
      NearPriceScaled(r.low, e.low, ev.factor);
      NearPriceScaled(r.close, e.close, ev.factor);
      NearPriceScaled(r.vwap, e.vwap, ev.factor);
      if j < ev.index {
        NearAfterEvents(Scale(r, ev.factor, Rounded), Scale(e, ev.factor, Exact), j, events[..|events| - 1]);
      } else {
        NearAfterEvents(r, e, j, events[..|events| - 1]);
      }
    }
  }

  /** However many events a bar lies behind, rounding after each of them leaves every price within
      0.0001 of the exact one. */
  lemma RoundingBound(candles: seq<Candle>, j: nat)
    requires j < |candles|
    ensures NearPrices(Adjust(candles, Rounded).0[j], Adjust(candles, Exact).0[j])
  {
    if |candles| >= 3 {
      DetectFacts(candles);
      NearAfterEvents(candles[j], candles[j], j, Detect(candles));
    }
  }

  lemma VolumeStep(r: real, e: real, f: real)
    requires 0.0 <= r <= e && f >= 2.0
    ensures 0.0 <= Trunc(Times(r, f)) <= Times(e, f)
    ensures IsWhole(f) && IsWhole(r) && r == e ==>
      Trunc(Times(r, f)) == Times(e, f) && IsWhole(Times(e, f))
  {
    NonNegativeProduct(r, f);
    NonNegativeProduct(e - r, f);
    assert (e - r) * f == e * f - r * f;
    if IsWhole(f) && IsWhole(r) {
      WholeProduct(r, f);
    }
  }

  lemma {:induction false} VolumeTruncates(r: Candle, e: Candle, j: nat, events: seq<Event>)
    requires r.volume.Some? && e.volume.Some? && 0.0 <= r.volume.value <= e.volume.value
    requires forall ev :: ev in events ==> ev.factor >= 2.0
    ensures PositiveFactors(events)
    ensures var r', e' := Adjusted(r, j, events, Rounded), Adjusted(e, j, events, Exact);
      r'.volume.Some? && e'.volume.Some? && 0.0 <= r'.volume.value <= e'.volume.value
    ensures WholeFactorsAfter(j, events) && IsWhole(r.volume.value) && r.volume == e.volume ==>
            Adjusted(r, j, events, Rounded).volume == Adjusted(e, j, events, Exact).volume
    decreases |events|
  {
    if events != [] {
      var ev := events[|events| - 1];
      assert ev in events;
      var init := events[..|events| - 1];
      if j < ev.index {
        VolumeStep(r.volume.value, e.volume.value, ev.factor);
        hide Times, Trunc;
        VolumeTruncates(Scale(r, ev.factor, Rounded), Scale(e, ev.factor, Exact), j, init);
      } else {
        VolumeTruncates(r, e, j, init);
      }
    }
  }

  // The factors of all events after bar j are whole.
  ghost predicate WholeFactorsAfter(j: nat, events: seq<Event>) {
    forall ev :: ev in events && j < ev.index ==> IsWhole(ev.factor)
  }

  lemma WholeProduct(a: real, b: real)
    requires IsWhole(a) && IsWhole(b)
    ensures IsWhole(a * b)
  {
    assert (a.Floor * b.Floor) as real == a * b;
  }

  /** Truncated volumes never exceed the exact ones, and equal them when the volume and the factors of all
      later events are whole. */
  lemma VolumeBound(candles: seq<Candle>, j: nat)
    requires j < |candles| && candles[j].volume.Some? && candles[j].volume.value >= 0.0
    ensures var r, e := Adjust(candles, Rounded).0[j].volume, Adjust(candles, Exact).0[j].volume;
      && r.Some? && e.Some? && 0.0 <= r.value <= e.value
      && (IsWhole(candles[j].volume.value) && WholeFactorsAfter(j, Detect(candles)) ==> r == e)
  {
    if |candles| >= 3 {
      DetectFacts(candles);
      VolumeTruncates(candles[j], candles[j], j, Detect(candles));
    }
  }

  ghost predicate Drifted(v: real, r: Option<real>, d: real) {
    r.Some? && Times(v, d) - (d - 1.0) <= r.value <= Times(v, d)
  }

  // One truncation costs less than one, which later factors multiply up.
  lemma {:induction false} VolumeDrift(c: Candle, j: nat, events: seq<Event>)
    requires c.volume.Some? && c.volume.value >= 0.0
    requires forall ev :: ev in events ==> ev.factor >= 2.0
    ensures PositiveFactors(events) && Divisor(j, events) >= 1.0
    ensures Drifted(c.volume.value, Adjusted(c, j, events, Rounded).volume, Divisor(j, events))
    decreases |events|
  {
    if events == [] {
      OneIsNeutral(c.volume.value);
    } else {
      var ev := events[|events| - 1];
      assert ev in events;
      var init := events[..|events| - 1];
      if j < ev.index {
        var c' := Scale(c, ev.factor, Rounded);
        OneTruncation(c.volume.value, ev.factor);
        VolumeDrift(c', j, init);
        hide Times, Trunc;
        DriftGrows(c.volume.value, ev.factor, c'.volume.value, Divisor(j, init));
      } else {
        VolumeDrift(c, j, init);
      }
    }
  }

  lemma OneTruncation(v: real, f: real)
    requires v >= 0.0 && f >= 2.0
    ensures 0.0 <= Trunc(Times(v, f)) && Times(v, f) - 1.0 < Trunc(Times(v, f)) <= Times(v, f)
  {
    NonNegativeProduct(v, f);
  }

  lemma DriftGrows(v: real, f: real, v': real, d: real)
    requires d >= 1.0 && f >= 2.0 && Times(v, f) - 1.0 < v' <= Times(v, f)
    ensures Times(d, f) >= 1.0
    ensures Times(v', d) <= Times(v, Times(d, f))
    ensures Times(v, Times(d, f)) - (Times(d, f) - 1.0) <= Times(v', d) - (d - 1.0)
  {
    var x := Times(v, f);
    NonNegativeProduct(x - v', d);
    NonNegativeProduct(v' - x + 1.0, d);
    NonNegativeProduct(d, f - 2.0);
    assert (x - v') * d == x * d - v' * d;
    assert (v' - x + 1.0) * d == v' * d - x * d + d;
    assert d * (f - 2.0) == d * f - 2.0 * d;
    assert x * d == v * (d * f);
  }

  // The number without its fraction.
  ghost predicate Truncates(t: real, x: real) {
    IsWhole(t) && (if x >= 0.0 then t <= x < t + 1.0 else t - 1.0 < x <= t)
  }

  ghost predicate PriceDivided(r: Option<real>, p: Option<real>, f: real)
    requires f > 0.0
  {
    p.Some? == r.Some? && (p.Some? ==> Nearest(r.value, p.value / f, 10000.0))
  }

  /** What one event does to a bar before it: every price that is there is divided by the factor and rounded
      to four decimals, and the volume multiplied by it and truncated towards zero; later bars are left. */
  lemma OneEventMeaning(c: Candle, j: nat, e: Event)
    requires e.factor > 0.0
    ensures PositiveFactors([e])
    ensures var r := Adjusted(c, j, [e], Rounded);
      if j >= e.index then r == c
      else
        && PriceDivided(r.open, c.open, e.factor) && PriceDivided(r.high, c.high, e.factor)
        && PriceDivided(r.low, c.low, e.factor) && PriceDivided(r.close, c.close, e.factor)
        && PriceDivided(r.vwap, c.vwap, e.factor)
        && c.volume.Some? == r.volume.Some?
        && (c.volume.Some? ==> Truncates(r.volume.value, c.volume.value * e.factor))
  {
    ScaledOnce(c, j, e);
    hide Adjusted, PriceDivided, ScalePrice, ScaleVolume, Truncates;
    RoundedVolume(c.volume, e.factor);
    RoundedPrice(c.open, e.factor);
    RoundedPrice(c.high, e.factor);
    RoundedPrice(c.low, e.factor);
    RoundedPrice(c.close, e.factor);
    RoundedPrice(c.vwap, e.factor);
  }

  lemma RoundedVolume(v: Option<real>, f: real)
    ensures ScaleVolume(v, f, Rounded).Some? == v.Some?
    ensures v.Some? ==> Truncates(ScaleVolume(v, f, Rounded).value, v.value * f)
  {
    if v.Some? {
      TruncMeaning(v.value * f);
    }
  }

  lemma TruncMeaning(x: real)
    ensures Truncates(Trunc(x), x)
  {
    WholeNegative((-x).Floor);
    assert x >= 0.0 ==> IsWhole(x.Floor as real);
  }

  lemma WholeNegative(n: int)
    ensures IsWhole(-(n as real))
  {
    assert -(n as real) == (-n) as real;
  }

  lemma RoundedPrice(p: Option<real>, f: real)
    requires f > 0.0
    ensures PriceDivided(ScalePrice(p, f, Rounded), p, f)
  {
    if p.Some? {
      RoundsToNearest(Divide(p.value, f));
      hide Round4, Nearest;
    }
  }

  /** A series of fewer than three bars is returned as it is. */
  lemma ShortSeriesUntouched(candles: seq<Candle>, a: Arithmetic)
    requires |candles| < 3
    ensures Adjust(candles, a) == (candles, [])
  {
  }

  // ----- With rounding, settling needs a margin --------------------------------------------------

  // More than rounding can move a price.
  const DRIFT := 0.0001

  // However both prices are rounded, their ratio is out of matching range of the factor.
  ghost predicate PriceClear(p: real, c: real, f: real) {
    p + DRIFT <= 0.94 * Times(c - DRIFT, f) || p - DRIFT >= 1.06 * Times(c + DRIFT, f)
  }

  // Volumes of at least one whose ratio is refused for the factor, also if each were one smaller.
  ghost predicate VolumeClear(v: real, w: real, f: real) {
    v >= 1.0 && w >= 1.0 && (w <= 0.1 * Times(v - 1.0, f) || w - 1.0 >= 1.9 * Times(v, f))
  }

  // No rounding can make the volumes at bar i confirm a split by f: they refuse it by a margin, or they
  // refuse it and nothing is truncated.
  ghost predicate StaysRefused(candles: seq<Candle>, i: nat, f: real)
    requires 0 < i < |candles| && f > 0.0
  {
    var prev, cur := candles[i - 1], candles[i];
    || VolumeClear(Num(prev.volume), Num(cur.volume), f)
    || (!VolumeConfirms(prev, cur, f) && IsWhole(Num(prev.volume)) && IsWhole(Num(cur.volume))
        && WholeFactorsAfter(i - 1, Detect(candles)))
  }

  // No event scales either bar next to the gap before bar i.
  ghost predicate Untouched(candles: seq<Candle>, i: nat) {
    forall e :: e in Detect(candles) ==> e.index < i
  }

  // The prices on both sides of the gap before bar i, on the scale of today.
  function ClosingBefore(candles: seq<Candle>, i: nat): real
    requires 0 < i < |candles| && DivisorAt(candles, i - 1) > 0.0
  {
    Divide(Num(candles[i - 1].close), DivisorAt(candles, i - 1))
  }

  function OpeningAfter(candles: seq<Candle>, i: nat): real
    requires 0 < i < |candles| && DivisorAt(candles, i) > 0.0
  {
    Divide(OpeningPrice(candles[i]), DivisorAt(candles, i))
  }

  /** No event touches the gap before bar i; or its opening price on today's scale is zero or not under a
      hundredth of a paisa, and for every factor the two prices are out of matching range by more than
      rounding can move them, or the gap was no event and its volumes refuse the factor beyond doubt. */
  ghost predicate ClearGap(candles: seq<Candle>, i: nat)
    requires 0 < i < |candles|
  {
    || Untouched(candles, i)
    || (DivisorAtPositive(candles, i);
        DivisorAtPositive(candles, i - 1);
        var p, c := ClosingBefore(candles, i), OpeningAfter(candles, i);
        && (c == 0.0 || Abs(c) >= DRIFT)
        && forall f :: f in FACTORS ==>
             || PriceClear(p, c, f)
             || (SplitBetween(candles[i - 1], candles[i]).None? && StaysRefused(candles, i, f)))
  }

  lemma DivisorAtPositive(candles: seq<Candle>, j: nat)
    ensures DivisorAt(candles, j) > 0.0
  {
    DetectFacts(candles);
    DivisorPositive(j, Detect(candles));
  }

  lemma MatchIsNear(p: real, c: real)
    requires c > 0.0 && NearestFactor(Divide(p, c)).Some?
    ensures var f := NearestFactor(Divide(p, c)).value;
      f in FACTORS && 2.0 <= f && 0.94 * Times(c, f) <= p <= 1.06 * Times(c, f)
  {
    var f := NearestFactor(Divide(p, c)).value;
    DivideSign(p, c);
    NearestFactorIff(Divide(p, c), f);
    hide NearestFactor, Divide, Times;
    ScaleBounds(Divide(p, c), f, c);
  }

  lemma NonNegativeProduct(a: real, b: real)
    requires a >= 0.0 && b >= 0.0
    ensures a * b >= 0.0
  {
  }

  lemma ScaleBounds(r: real, f: real, c: real)
    requires c > 0.0 && 0.94 * f <= r <= 1.06 * f
    ensures 0.94 * Times(c, f) <= Times(r, c) <= 1.06 * Times(c, f)
  {
  }

  lemma ClearIsNotMatched(p: real, c: real, p': real, c': real, f: real)
    requires c' > 0.0 && f > 0.0 && PriceClear(p, c, f)
    requires -DRIFT < p' - p < DRIFT && -DRIFT < c' - c < DRIFT
    ensures NearestFactor(Divide(p', c')) != Some(f)
  {
    hide NearestFactor, Divide;
    if NearestFactor(Divide(p', c')) == Some(f) {
      MatchIsNear(p', c');
      ScaledOrder(c - DRIFT, c', f);
      ScaledOrder(c', c + DRIFT, f);
      assert false;
    }
  }

  lemma NearOpening(r: Candle, e: Candle)
    requires NearPrices(r, e) && (OpeningPrice(e) == 0.0 || Abs(OpeningPrice(e)) >= DRIFT)
    ensures -DRIFT < OpeningPrice(r) - OpeningPrice(e) < DRIFT
    ensures OpeningPrice(e) <= 0.0 ==> OpeningPrice(r) <= 0.0
    ensures -DRIFT < Num(r.close) - Num(e.close) < DRIFT
  {
  }

  // The exact bars on both sides of bar i.
  lemma ExactGap(candles: seq<Candle>, i: nat)
    requires 0 < i < |candles|
    ensures PositiveFactors(Detect(candles)) && DivisorAt(candles, i) > 0.0 && DivisorAt(candles, i - 1) > 0.0
    ensures Num(Adjusted(candles[i - 1], i - 1, Detect(candles), Exact).close) == ClosingBefore(candles, i)
    ensures OpeningPrice(Adjusted(candles[i], i, Detect(candles), Exact)) == OpeningAfter(candles, i)
    ensures SplitBetween(candles[i - 1], candles[i]).None? ==> DivisorAt(candles, i - 1) == DivisorAt(candles, i)
  {
    hide Times, Divide, Scale, Detect, Adjusted, Divisor, SplitBetween;
    var events := Detect(candles);
    DetectFacts(candles);
    AdjustedScalesByProduct(candles[i - 1], i - 1, events);
    AdjustedScalesByProduct(candles[i], i, events);
    DivisorStep(candles, i);
    OneIsNeutral(DivisorAt(candles, i));
    NumsOfScaled(candles[i], DivisorAt(candles, i));
    NumsOfScaled(candles[i - 1], DivisorAt(candles, i - 1));
  }

  lemma MatchedGapCloses(prev: Candle, cur: Candle, d: real)
    requires d > 0.0 && SplitBetween(prev, cur).Some?
    ensures var df := Times(d, SplitBetween(prev, cur).value);
      df > 0.0 && Divide(Num(prev.close), df) <= 1.06 * Divide(OpeningPrice(cur), d)
  {
    hide Divide, Times, NearestFactor;
    var f := SplitBetween(prev, cur).value;
    var p, c := Num(prev.close), OpeningPrice(cur);
    RatioOfScaled(p, c, d, f);
    MatchedRatioCloses(Divide(p, c), f);
    RatioAtMost(Divide(p, Times(d, f)), Divide(c, d), 1.06);
  }

  lemma RatioAtMost(x: real, y: real, k: real)
    requires y > 0.0
    ensures Divide(x, y) <= k ==> x <= k * y
  {
  }

  // Volumes that refuse a factor by a margin go on refusing it once truncated.
  lemma ClearVolumeStaysOut(v: real, w: real, d: real, r0: Candle, r1: Candle, f: real)
    requires d >= 1.0 && f >= 2.0 && VolumeClear(v, w, f)
    requires Drifted(v, r0.volume, d) && Drifted(w, r1.volume, d)
    ensures !VolumeConfirms(r0, r1, f)
  {
    hide Times, Divide, Abs, VolumeClear;
    ClearRatioStaysOut(v, w, d, r0.volume.value, r1.volume.value, f);
  }

  lemma ClearRatioStaysOut(v: real, w: real, d: real, v': real, w': real, f: real)
    requires d >= 1.0 && f >= 2.0 && VolumeClear(v, w, f)
    requires Times(v, d) - (d - 1.0) <= v' <= Times(v, d) && Times(w, d) - (d - 1.0) <= w' <= Times(w, d)
    ensures v' > 0.0 && w' > 0.0 && Abs(Divide(w', v') - f) / f > VOLUME_TOL
  {
    OneLess(v, d, v');
    OneLess(w, d, w');
    if w <= 0.1 * Times(v - 1.0, f) {
      LowStaysLow(v - 1.0, w, d, v', w', f);
    } else {
      HighStaysHigh(v, w - 1.0, d, v', w', f);
    }
    hide Times, Divide, Abs;
    VolumeOutOfBand(v', w', f);
  }

  lemma OneLess(v: real, d: real, v': real)
    requires v >= 1.0 && d >= 1.0 && Times(v, d) - (d - 1.0) <= v'
    ensures 0.0 <= Times(v - 1.0, d) < v'
  {
    NonNegativeProduct(v - 1.0, d);
    assert (v - 1.0) * d == v * d - d;
  }

  lemma LowStaysLow(v: real, w: real, d: real, v': real, w': real, f: real)
    requires d >= 1.0 && f >= 2.0 && w <= 0.1 * Times(v, f) && Times(v, d) < v' && w' <= Times(w, d)
    ensures w' < 0.1 * Times(v', f)
  {
    ScaledOrder(w, 0.1 * (v * f), d);
    assert (0.1 * (v * f)) * d == 0.1 * ((v * d) * f);
    ScaledOrder(v', v * d, f);
  }

  lemma HighStaysHigh(v: real, w: real, d: real, v': real, w': real, f: real)
    requires d >= 1.0 && f >= 2.0 && w >= 1.9 * Times(v, f) && v' <= Times(v, d) && Times(w, d) < w'
    ensures w' > 1.9 * Times(v', f)
  {
    ScaledOrder(1.9 * (v * f), w, d);
    assert (1.9 * (v * f)) * d == 1.9 * ((v * d) * f);
    ScaledOrder(v', v * d, f);
  }

  lemma VolumeOutOfBand(v: real, w: real, f: real)
    requires v > 0.0 && f >= 2.0 && (w < 0.1 * Times(v, f) || w > 1.9 * Times(v, f))
    ensures Abs(Divide(w, v) - f) / f > VOLUME_TOL
  {
    var q := Divide(w, v);
    assert q * v == w;
    assert 0.1 * (v * f) == (0.1 * f) * v && 1.9 * (v * f) == (1.9 * f) * v;
    ScaledOrder(0.1 * f, q, v);
    ScaledOrder(q, 1.9 * f, v);
    hide Divide;
    var a := Abs(q - f) / f;
    assert a * f == Abs(q - f);
    ScaledOrder(a, VOLUME_TOL, f);
  }

  lemma MarginRefuses(candles: seq<Candle>, i: nat, f: real)
    requires 0 < i < |candles| && f in FACTORS && DivisorAt(candles, i - 1) == DivisorAt(candles, i)
    requires VolumeClear(Num(candles[i - 1].volume), Num(candles[i].volume), f)
    ensures PositiveFactors(Detect(candles))
    ensures !VolumeConfirms(Adjusted(candles[i - 1], i - 1, Detect(candles), Rounded),
                            Adjusted(candles[i], i, Detect(candles), Rounded), f)
  {
    var events := Detect(candles);
    DetectFacts(candles);
    VolumeDrift(candles[i - 1], i - 1, events);
    VolumeDrift(candles[i], i, events);
    hide Adjusted, Divisor, Detect, VolumeConfirms, Drifted, VolumeClear;
    ClearVolumeStaysOut(candles[i - 1].volume.value, candles[i].volume.value, DivisorAt(candles, i),
                        Adjusted(candles[i - 1], i - 1, events, Rounded), Adjusted(candles[i], i, events, Rounded), f);
  }

  // A whole volume with whole factors after it is scaled exactly.
  lemma WholeVolume(candles: seq<Candle>, j: nat)
    requires j < |candles| && Num(candles[j].volume) > 0.0 && IsWhole(Num(candles[j].volume))
    requires WholeFactorsAfter(j, Detect(candles))
    ensures PositiveFactors(Detect(candles)) && DivisorAt(candles, j) > 0.0
    ensures Num(Adjusted(candles[j], j, Detect(candles), Rounded).volume)
            == Times(Num(candles[j].volume), DivisorAt(candles, j))
  {
    var events := Detect(candles);
    DetectFacts(candles);
    AdjustedScalesByProduct(candles[j], j, events);
    VolumeTruncates(candles[j], candles[j], j, events);
    NumsOfScaled(candles[j], DivisorAt(candles, j));
    hide Adjusted, Divisor, Detect, Times, Scale;
  }

  lemma WholeRefuses(candles: seq<Candle>, i: nat, f: real)
    requires 0 < i < |candles| && f > 0.0 && DivisorAt(candles, i - 1) == DivisorAt(candles, i)
    requires !VolumeConfirms(candles[i - 1], candles[i], f)
    requires IsWhole(Num(candles[i - 1].volume)) && IsWhole(Num(candles[i].volume))
    requires WholeFactorsAfter(i - 1, Detect(candles))
    ensures PositiveFactors(Detect(candles))
    ensures !VolumeConfirms(Adjusted(candles[i - 1], i - 1, Detect(candles), Rounded),
                            Adjusted(candles[i], i, Detect(candles), Rounded), f)
  {
    WholeVolume(candles, i - 1);
    WholeVolume(candles, i);
    hide Adjusted, DivisorAt, Detect, Times, Divide, Abs;
    var v, w, d := Num(candles[i - 1].volume), Num(candles[i].volume), DivisorAt(candles, i);
    DivideSign(v, d);
    DivideSign(w, d);
    RatioOfScaledVolumes(v, w, d);
  }

  // The rounded bars around an undivided gap refuse what the original volumes refuse beyond doubt.
  lemma RefusedStaysRefused(candles: seq<Candle>, i: nat, f: real)
    requires 0 < i < |candles| && f in FACTORS && StaysRefused(candles, i, f)
    requires DivisorAt(candles, i - 1) == DivisorAt(candles, i)
    ensures PositiveFactors(Detect(candles)) && f > 0.0
    ensures !VolumeConfirms(Adjusted(candles[i - 1], i - 1, Detect(candles), Rounded),
                            Adjusted(candles[i], i, Detect(candles), Rounded), f)
  {
    hide Adjusted, DivisorAt, Detect, VolumeClear, VolumeConfirms;
    if VolumeClear(Num(candles[i - 1].volume), Num(candles[i].volume), f) {
      MarginRefuses(candles, i, f);
    } else {
      WholeRefuses(candles, i, f);
    }
  }

  lemma {:induction false} AdjustedByEarlier(c: Candle, j: nat, events: seq<Event>, a: Arithmetic)
    requires PositiveFactors(events) && forall e :: e in events ==> e.index <= j
    ensures Adjusted(c, j, events, a) == c
    decreases |events|
  {
    if events != [] {
      assert events[|events| - 1] in events;
      AdjustedByEarlier(c, j, events[..|events| - 1], a);
    }
  }

  lemma UntouchedIsSettled(candles: seq<Candle>, i: nat)
    requires 0 < i < |candles| && Untouched(candles, i)
    ensures PositiveFactors(Detect(candles))
    ensures Adjusted(candles[i - 1], i - 1, Detect(candles), Rounded) == candles[i - 1]
    ensures Adjusted(candles[i], i, Detect(candles), Rounded) == candles[i]
    ensures SplitBetween(candles[i - 1], candles[i]).None?
  {
    var split := SplitBetween(candles[i - 1], candles[i]);
    hide Adjusted, Detect, SplitBetween;
    DetectFacts(candles);
    AdjustedByEarlier(candles[i - 1], i - 1, Detect(candles), Rounded);
    AdjustedByEarlier(candles[i], i, Detect(candles), Rounded);
    if split.Some? {
      DetectFindsAll(candles, i, split.value);
    }
  }

  lemma TouchedIsSettled(candles: seq<Candle>, i: nat)
    requires |candles| >= 3 && 0 < i < |candles| && ClearGap(candles, i) && !Untouched(candles, i)
    ensures PositiveFactors(Detect(candles))
    ensures SplitBetween(Adjusted(candles[i - 1], i - 1, Detect(candles), Rounded),
                         Adjusted(candles[i], i, Detect(candles), Rounded)).None?
  {
    hide SplitBetween, Scale, Adjusted, Divide, Times, NearestFactor, Divisor, StaysRefused, PriceClear, Detect;
    hide Untouched, DivisorAt;
    var events := Detect(candles);
    ExactGap(candles, i);
    RoundingBound(candles, i - 1);
    RoundingBound(candles, i);
    var r0, r1 := Adjusted(candles[i - 1], i - 1, events, Rounded), Adjusted(candles[i], i, events, Rounded);
    var e0, e1 := Adjusted(candles[i - 1], i - 1, events, Exact), Adjusted(candles[i], i, events, Exact);
    forall f | f in FACTORS
      ensures PriceClear(Num(e0.close), OpeningPrice(e1), f) || !VolumeConfirms(r0, r1, f)
    {
      if !PriceClear(Num(e0.close), OpeningPrice(e1), f) {
        RefusedStaysRefused(candles, i, f);
      }
    }
    NearMissesNothing(r0, r1, e0, e1);
  }

  /** Gap by gap: where the gap before a bar is clear, the rounded adjustment leaves no event there. */
  lemma ClearGapIsSettled(candles: seq<Candle>, i: nat)
    requires |candles| >= 3 && 0 < i < |candles|
    ensures var once := Adjust(candles, Rounded).0;
      && |once| == |candles|
      && (ClearGap(candles, i) ==>
            SplitBetween(once[i - 1], once[i]).None? && forall f :: Event(i, f) !in Detect(once))
  {
    hide SplitBetween, Adjusted, ClearGap, Detect;
    var once := Adjust(candles, Rounded).0;
    DetectFacts(candles);
    if ClearGap(candles, i) {
      if Untouched(candles, i) {
        UntouchedIsSettled(candles, i);
      } else {
        TouchedIsSettled(candles, i);
      }
      forall f
        ensures Event(i, f) !in Detect(once)
      {
        DetectFindsAll(once, i, f);
      }
    }
  }

  lemma NearMissesNothing(r0: Candle, r1: Candle, e0: Candle, e1: Candle)
    requires NearPrices(r0, e0) && NearPrices(r1, e1)
    requires OpeningPrice(e1) == 0.0 || Abs(OpeningPrice(e1)) >= DRIFT
    requires forall f :: f in FACTORS ==>
      PriceClear(Num(e0.close), OpeningPrice(e1), f) || !VolumeConfirms(r0, r1, f)
    ensures SplitBetween(r0, r1).None?
  {
    hide Divide, PriceClear, Times, NearestFactor;
    NearOpening(r1, e1);
    var p, c, p', c' := Num(e0.close), OpeningPrice(e1), Num(r0.close), OpeningPrice(r1);
    if p' > 0.0 && c' > 0.0 {
      forall f | f in FACTORS && PriceClear(p, c, f)
        ensures NearestFactor(Divide(p', c')) != Some(f)
      {
        ClearIsNotMatched(p, c, p', c', f);
      }
      MatchesAreFactors(Divide(p', c'));
    }
  }

  /** At ordinary prices little is asked of a gap: from one rupee on today's scale it is clear if it is an
      event, or if its price ratio is at least 6.1% away from every factor, where matching begins at 6%. */
  lemma RupeeGapIsClear(candles: seq<Candle>, i: nat)
    requires 0 < i < |candles|
    ensures DivisorAt(candles, i) > 0.0 && DivisorAt(candles, i - 1) > 0.0
    ensures var p, c := ClosingBefore(candles, i), OpeningAfter(candles, i);
      && (c >= 1.0 && SplitBetween(candles[i - 1], candles[i]).Some? ==> ClearGap(candles, i))
      && (c >= 1.0 && (forall f :: f in FACTORS ==> p < 0.939 * Times(c, f) || p > 1.061 * Times(c, f)) ==>
            ClearGap(candles, i))
  {
    hide SplitBetween, Divide, Divisor, Detect, StaysRefused;
    ExactGap(candles, i);
    var p, c := ClosingBefore(candles, i), OpeningAfter(candles, i);
    if SplitBetween(candles[i - 1], candles[i]).Some? {
      DivisorStep(candles, i);
      MatchedGapCloses(candles[i - 1], candles[i], DivisorAt(candles, i));
      assert p <= 1.06 * c;
    }
    hide DivisorAt, ClosingBefore, OpeningAfter;
    if c >= 1.0 {
      forall f | f in FACTORS
        ensures p <= 1.06 * c || p < 0.939 * Times(c, f) || p > 1.061 * Times(c, f) ==> PriceClear(p, c, f)
      {
      }
    }
  }

  lemma MatchesAreFactors(ratio: real)
    ensures NearestFactor(ratio).Some? ==> NearestFactor(ratio).value in FACTORS
  {
  }

  /** With rounding after every event, one pass still settles a series all of whose gaps are clear. */
  lemma RoundedAdjustmentSettles(candles: seq<Candle>)
    requires forall i :: 0 < i < |candles| ==> ClearGap(candles, i)
    ensures var once := Adjust(candles, Rounded).0; Adjust(once, Rounded) == (once, [])
  {
    if |candles| >= 3 {
      hide SplitBetween, Scale, Adjusted, ClearGap;
      var once := Adjust(candles, Rounded).0;
      forall i | 0 < i < |once|
        ensures SplitBetween(once[i - 1], once[i]).None?
      {
        ClearGapIsSettled(candles, i);
      }
      NoSplitsNoEvents(once);
      AdjustAllByNothing(once);
    }
  }

  lemma AdjustAllByNothing(candles: seq<Candle>)
    ensures AdjustAll(candles, [], Rounded) == candles
  {
  }

  function FlatBar(price: real): Candle {
    Candle(Some(price), Some(price), Some(price), Some(price), None, None)
  }

  lemma DetectThree(a: Candle, b: Candle, c: Candle)
    ensures Detect([a, b, c])
            == (if SplitBetween(a, b).Some? then [Event(1, SplitBetween(a, b).value)] else [])
            + (if SplitBetween(b, c).Some? then [Event(2, SplitBetween(b, c).value)] else [])
  {
    hide SplitBetween;
    DetectSnoc([a, b, c]);
    DetectSnoc([a, b]);
    assert [a, b, c][..2] == [a, b] && [a, b][..1] == [a];
    assert Detect([a]) == [];
  }

  lemma SplitOfFlatBars(p: real, c: real, ratio: real)
    requires p > 0.0 && c > 0.0 && p == ratio * c
    ensures SplitBetween(FlatBar(p), FlatBar(c)) == NearestFactor(ratio)
  {
    RatioOf(p, c, ratio);
    hide NearestFactor, Divide;
  }

  lemma SomeRatios()
    ensures NearestFactor(1.75) == None && NearestFactor(1.0) == None
    ensures NearestFactor(2.0) == Some(2.0) && NearestFactor(2.5) == Some(2.5)
  {
  }

  lemma ScaledOnce(c: Candle, j: nat, e: Event)
    requires e.factor > 0.0
    ensures PositiveFactors([e])
    ensures Adjusted(c, j, [e], Rounded) == if j < e.index then Scale(c, e.factor, Rounded) else c
  {
    hide Scale;
    var none: seq<Event> := [e][..0];
    AdjustedByNothing(c, j, none);
    AdjustedByNothing(if j < e.index then Scale(c, e.factor, Rounded) else c, j, none);
  }

  /** Without the margin it need not settle: here rounding turns a ratio of 1.75 into an exact 2. */
  lemma RoundedMayNotSettle()
    ensures var candles := [FlatBar(0.0007), FlatBar(0.0004), FlatBar(0.0002)];
      Detect(candles) == [Event(2, 2.0)] && Detect(Adjust(candles, Rounded).0) == [Event(1, 2.0)]
  {
    var candles := [FlatBar(0.0007), FlatBar(0.0004), FlatBar(0.0002)];
    SomeRatios();
    SplitOfFlatBars(0.0007, 0.0004, 1.75);
    SplitOfFlatBars(0.0004, 0.0002, 2.0);
    SplitOfFlatBars(0.0002, 0.0002, 1.0);
    DetectThree(FlatBar(0.0007), FlatBar(0.0004), FlatBar(0.0002));
    ScaledOnce(FlatBar(0.0007), 0, Event(2, 2.0));
    ScaledOnce(FlatBar(0.0004), 1, Event(2, 2.0));
    RoundedHalves();
    assert Adjusted(FlatBar(0.0002), 2, [Event(2, 2.0)], Rounded) == FlatBar(0.0002);
    hide Scale, SplitBetween, NearestFactor, FlatBar, Detect, Adjusted;
    assert Adjust(candles, Rounded).0 == [FlatBar(0.0004), FlatBar(0.0002), FlatBar(0.0002)];
    DetectThree(FlatBar(0.0004), FlatBar(0.0002), FlatBar(0.0002));
  }

  lemma RatioOf(x: real, y: real, q: real)
    requires y != 0.0 && x == q * y
    ensures Divide(x, y) == q
  {
  }

  lemma RoundedHalves()
    ensures Scale(FlatBar(0.0007), 2.0, Rounded) == FlatBar(0.0004)
    ensures Scale(FlatBar(0.0004), 2.0, Rounded) == FlatBar(0.0002)
  {
  }

  function Traded(price: real, volume: real): Candle {
    FlatBar(price).(volume := Some(volume))
  }

  lemma SplitOfTraded(p: real, c: real, ratio: real, v: real, w: real, grown: real)
    requires p > 0.0 && c > 0.0 && p == ratio * c && v > 0.0 && w > 0.0 && w == grown * v
    ensures SplitBetween(Traded(p, v), Traded(c, w))
            == var f := NearestFactor(ratio);
               if f.Some? && Abs(grown - f.value) / f.value <= VOLUME_TOL then f else None
  {
    RatioOf(p, c, ratio);
    RatioOf(w, v, grown);
    hide NearestFactor, Divide, Abs;
  }

  lemma TruncatedVolumes()
    ensures Scale(Traded(200.0, 6.0), 2.5, Rounded) == Traded(80.0, 15.0)
    ensures Scale(Traded(100.0, 23.0), 2.5, Rounded) == Traded(40.0, 57.0)
  {
    assert Round4(80.0) == 80.0 && Round4(40.0) == 40.0;
    assert Trunc(15.0) == 15.0 && Trunc(57.5) == 57.0;
  }

  lemma TruncationSplits()
    ensures SplitBetween(Traded(200.0, 6.0), Traded(100.0, 23.0)) == None
    ensures SplitBetween(Traded(100.0, 23.0), Traded(40.0, 57.0)) == Some(2.5)
    ensures SplitBetween(Traded(80.0, 15.0), Traded(40.0, 57.0)) == Some(2.0)
    ensures SplitBetween(Traded(40.0, 57.0), Traded(40.0, 57.0)) == None
  {
    hide SplitBetween, NearestFactor, Traded;
    SomeRatios();
    SplitOfTraded(200.0, 100.0, 2.0, 6.0, 23.0, 23.0 / 6.0);
    SplitOfTraded(100.0, 40.0, 2.5, 23.0, 57.0, 57.0 / 23.0);
    SplitOfTraded(80.0, 40.0, 2.0, 15.0, 57.0, 3.8);
    SplitOfTraded(40.0, 40.0, 1.0, 57.0, 57.0, 1.0);
  }

  /** Nor at ordinary prices: here a volume that refused a clean 2:1 gap, 23 after 6, is truncated from
      57.5 to 57 and then confirms it. */
  lemma TruncationMayNotSettle()
    ensures var candles := [Traded(200.0, 6.0), Traded(100.0, 23.0), Traded(40.0, 57.0)];
      Detect(candles) == [Event(2, 2.5)] && Detect(Adjust(candles, Rounded).0) == [Event(1, 2.0)]
  {
    hide Scale, SplitBetween, NearestFactor, Traded, Detect, Adjusted;
    var a, b, c := Traded(200.0, 6.0), Traded(100.0, 23.0), Traded(40.0, 57.0);
    var e := Event(2, 2.5);
    TruncationSplits();
    TruncatedVolumes();
    DetectThree(a, b, c);
    ScaledOnce(a, 0, e);
    ScaledOnce(b, 1, e);
    ScaledOnce(c, 2, e);
    assert Detect([a, b, c]) == [e];
    assert AdjustAll([a, b, c], [e], Rounded) == [Traded(80.0, 15.0), Traded(40.0, 57.0), c];
    assert Adjust([a, b, c], Rounded).0 == [Traded(80.0, 15.0), Traded(40.0, 57.0), c];
    DetectThree(Traded(80.0, 15.0), Traded(40.0, 57.0), c);
  }
}
