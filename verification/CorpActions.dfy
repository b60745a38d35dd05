/** Split and bonus back-adjustment: find clean price gaps, then bring every earlier bar onto the
    current price scale. */
module CorpActions {
  import opened Wrappers
  import opened Rounding

  // None is a missing or null field.
  datatype Candle = Candle(open: Option<real>, high: Option<real>, low: Option<real>, close: Option<real>,
                           vwap: Option<real>, volume: Option<real>)

  datatype Event = Event(index: nat, factor: real)

  // The code rounds after every event; Exact is the same adjustment without rounding.
  datatype Arithmetic = Exact | Rounded

  const FACTORS := [2.0, 2.5, 3.0, 4.0, 5.0, 6.0, 10.0]
  const PRICE_TOL := 0.06
  const VOLUME_TOL := 0.9  // max(0.45, 0.9)

  function Divide(x: real, d: real): real
    requires d != 0.0
  {
    x / d
  }

  function Times(x: real, d: real): real { x * d }

  // ----- Detection -----------------------------------------------------------------------

  function Num(v: Option<real>): real { v.GetOr(0.0) }

  function Abs(x: real): real { if x < 0.0 then -x else x }

  function FactorFrom(ratio: real, k: nat): (f: Option<real>)
    requires k <= |FACTORS|
    ensures f.Some? ==> f.value in FACTORS && f.value >= 2.0 && Abs(ratio - f.value) / f.value <= PRICE_TOL
    decreases |FACTORS| - k
  {
    if k == |FACTORS| then None
    else if Abs(ratio - FACTORS[k]) / FACTORS[k] <= PRICE_TOL then Some(FACTORS[k])
    else FactorFrom(ratio, k + 1)
  }

  function NearestFactor(ratio: real): Option<real> {
    if ratio < 1.4 then None else FactorFrom(ratio, 0)
  }

  // The opening price, or the close where it is missing or zero.
  function OpeningPrice(c: Candle): real {
    if Num(c.open) != 0.0 then Num(c.open) else Num(c.close)
  }

  predicate VolumeConfirms(prev: Candle, cur: Candle, factor: real)
    requires factor > 0.0
  {
    Num(prev.volume) > 0.0 && Num(cur.volume) > 0.0 ==>
      Abs(Divide(Num(cur.volume), Num(prev.volume)) - factor) / factor <= VOLUME_TOL
  }

  // The split factor between two neighbouring bars, if there is a high-confidence one.
  function SplitBetween(prev: Candle, cur: Candle): (f: Option<real>)
    ensures f.Some? ==> f.value in FACTORS && f.value >= 2.0
  {
    if Num(prev.close) <= 0.0 || OpeningPrice(cur) <= 0.0 then None
    else
      var factor := NearestFactor(Divide(Num(prev.close), OpeningPrice(cur)));
      if factor.Some? && VolumeConfirms(prev, cur, factor.value) then factor else None
  }

  function Detect(candles: seq<Candle>): seq<Event> {
    if |candles| < 2 then []
    else
      var n := |candles| - 1;
      var f := SplitBetween(candles[n - 1], candles[n]);
      Detect(candles[..n]) + if f.Some? then [Event(n, f.value)] else []
  }

  // ----- Adjustment ------------------------------------------------------------------------

  function Trunc(x: real): real {
    if x >= 0.0 then x.Floor as real else -((-x).Floor as real)
  }

  function ScalePrice(p: Option<real>, factor: real, a: Arithmetic): Option<real>
    requires factor > 0.0
  {
    if p.None? then None
    else if a.Exact? then Some(Divide(p.value, factor))
    else Some(Round4(Divide(p.value, factor)))
  }

  function ScaleVolume(v: Option<real>, factor: real, a: Arithmetic): Option<real> {
    if v.None? then None
    else if a.Exact? then Some(Times(v.value, factor))
    else Some(Trunc(Times(v.value, factor)))
  }

  function Scale(c: Candle, factor: real, a: Arithmetic): Candle
    requires factor > 0.0
  {
    Candle(ScalePrice(c.open, factor, a), ScalePrice(c.high, factor, a), ScalePrice(c.low, factor, a),
           ScalePrice(c.close, factor, a), ScalePrice(c.vwap, factor, a), ScaleVolume(c.volume, factor, a))
  }

  ghost predicate PositiveFactors(events: seq<Event>) {
    forall e :: e in events ==> e.factor > 0.0
  }

  // One bar under the events, newest first; an event touches only bars before it.
  function Adjusted(c: Candle, j: nat, events: seq<Event>, a: Arithmetic): Candle
    requires PositiveFactors(events)
    decreases |events|
  {
    if events == [] then c
    else
      var e := events[|events| - 1];
      assert e in events;
      Adjusted(if j < e.index then Scale(c, e.factor, a) else c, j, events[..|events| - 1], a)
  }

  function AdjustAll(candles: seq<Candle>, events: seq<Event>, a: Arithmetic): (out: seq<Candle>)
    requires PositiveFactors(events)
    ensures |out| == |candles|
    ensures forall j :: 0 <= j < |out| ==> out[j] == Adjusted(candles[j], j, events, a)
  {
    seq(|candles|, j requires 0 <= j < |candles| => Adjusted(candles[j], j, events, a))
  }

  function Adjust(candles: seq<Candle>, a: Arithmetic): (seq<Candle>, seq<Event>) {
    if |candles| < 3 then (candles, [])
    else
      DetectFacts(candles);
      (AdjustAll(candles, Detect(candles), a), Detect(candles))
  }

  lemma {:induction false} DetectFacts(candles: seq<Candle>)
    ensures PositiveFactors(Detect(candles))
    ensures forall e :: e in Detect(candles) ==> e.factor in FACTORS && e.factor >= 2.0 && 0 < e.index < |candles|
    ensures forall i, j :: 0 <= i < j < |Detect(candles)| ==> Detect(candles)[i].index < Detect(candles)[j].index
  {
    if |candles| >= 2 {
      DetectFacts(candles[..|candles| - 1]);
    }
  }

  method DetectSplitEvents(candles: seq<Candle>) returns (events: seq<Event>)
    ensures events == Detect(candles)
  {
    events := [];
    if |candles| < 2 {
      return;
    }
    for i := 1 to |candles|
      invariant events == Detect(candles[..i])
    {
      assert candles[..i + 1][..i] == candles[..i];
      var factor := CheckGap(candles[i - 1], candles[i]);
      if factor.Some? {
        events := events + [Event(i, factor.value)];
      }
    }
    assert candles[..|candles|] == candles;
  }

  // The body of the detection loop.
  method CheckGap(prev: Candle, cur: Candle) returns (split: Option<real>)
    ensures split == SplitBetween(prev, cur)
  {
    var prevClose, curOpen := Num(prev.close), OpeningPrice(cur);
    if prevClose <= 0.0 || curOpen <= 0.0 {
      return None;
    }
    var factor := NearestFactor(prevClose / curOpen);
    if factor.None? {
      return None;
    }
    var prevVol, curVol := Num(prev.volume), Num(cur.volume);
    var volOk := true;
    if prevVol > 0.0 && curVol > 0.0 {
      volOk := Abs(curVol / prevVol - factor.value) / factor.value <= VOLUME_TOL;
    }
    split := if volOk then factor else None;
  }

  // The inner loops of the adjustment: every bar before the event.
  method ScaleBefore(out: array<Candle>, ev: Event)
    requires ev.index <= out.Length && ev.factor > 0.0
    modifies out
    ensures forall j :: 0 <= j < out.Length ==>
      out[j] == if j < ev.index then Scale(old(out[j]), ev.factor, Rounded) else old(out[j])
  {
    hide Scale;
    for j := 0 to ev.index
      invariant forall l :: 0 <= l < out.Length ==>
        out[l] == if l < j then Scale(old(out[l]), ev.factor, Rounded) else old(out[l])
    {
      out[j] := Scale(out[j], ev.factor, Rounded);
    }
  }

  method AdjustForSplits(candles: seq<Candle>) returns (adjusted: seq<Candle>, events: seq<Event>)
    ensures (adjusted, events) == Adjust(candles, Rounded)
  {
    if |candles| < 3 {
      return candles, [];
    }
    events := DetectSplitEvents(candles);
    DetectFacts(candles);
    adjusted := ApplyEvents(candles, events);
  }

  // Detection lists events by ascending index, so newest to oldest is from the back.
  method ApplyEvents(candles: seq<Candle>, events: seq<Event>) returns (adjusted: seq<Candle>)
    requires PositiveFactors(events) && forall e :: e in events ==> e.index < |candles|
    ensures adjusted == AdjustAll(candles, events, Rounded)
  {
    hide Adjusted;
    var out := new Candle[|candles|](j requires 0 <= j < |candles| => candles[j]);
    var k := |events|;
    assert events[..k] == events;
    while k > 0
      invariant 0 <= k <= |events|
      invariant PositiveFactors(events[..k])
      invariant forall j :: 0 <= j < |candles| ==>
        Adjusted(out[j], j, events[..k], Rounded) == Adjusted(candles[j], j, events, Rounded)
      decreases k
    {
      k := k - 1;
      assert events[k] in events;
      ghost var before := out[..];
      forall j | 0 <= j < |candles|
        ensures var c := if j < events[k].index then Scale(before[j], events[k].factor, Rounded) else before[j];
          Adjusted(before[j], j, events[..k + 1], Rounded) == Adjusted(c, j, events[..k], Rounded)
      {
        AdjustedUnfold(before[j], j, events, k);
      }
      ScaleBefore(out, events[k]);
    }
    adjusted := out[..];
    forall j | 0 <= j < |candles|
      ensures adjusted[j] == Adjusted(candles[j], j, events, Rounded)
    {
      AdjustedByNothing(out[j], j, events[..0]);
    }
    assert adjusted == AdjustAll(candles, events, Rounded);
  }

  lemma AdjustedUnfold(c: Candle, j: nat, events: seq<Event>, k: nat)
    requires PositiveFactors(events) && k < |events|
    ensures PositiveFactors(events[..k]) && PositiveFactors(events[..k + 1]) && events[k].factor > 0.0
    ensures Adjusted(c, j, events[..k + 1], Rounded)
            == Adjusted(if j < events[k].index then Scale(c, events[k].factor, Rounded) else c, j, events[..k], Rounded)
  {
    hide Scale;
    assert events[k] in events;
    assert events[..k + 1][..k] == events[..k];
  }

  lemma AdjustedByNothing(c: Candle, j: nat, none: seq<Event>)
    requires none == []
    ensures Adjusted(c, j, none, Rounded) == c
  {
  }
}
