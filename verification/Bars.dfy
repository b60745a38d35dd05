/** OHLCV bars as a semigroup, and grouping of a stream of slotted bars.

    Both candle builders and the SQL roll-up are the same grouping: bars that fall in one slot are
    merged in stream order, and slots are kept in order of first appearance. */
module Bars {
  import opened Rounding

  datatype Bar = Bar(open: real, high: real, low: real, close: real, volume: int)

  // A bar together with the bucket it belongs to.
  datatype Slotted = Slotted(slot: int, bar: Bar)

  function Point(price: real, volume: int): Bar {
    Bar(price, price, price, price, volume)
  }

  function Merge(a: Bar, b: Bar): Bar {
    Bar(a.open, Max(a.high, b.high), Min(a.low, b.low), b.close, a.volume + b.volume)
  }

  function RoundBar(b: Bar): Bar {
    Bar(Round2(b.open), Round2(b.high), Round2(b.low), Round2(b.close), b.volume)
  }

  ghost predicate WellShaped(b: Bar) {
    b.low <= b.open <= b.high && b.low <= b.close <= b.high
  }

  // ----- Grouping ------------------------------------------------------------

  function IndexOf(g: seq<Slotted>, slot: int): (i: nat)
    ensures i <= |g|
    ensures i < |g| ==> g[i].slot == slot
    ensures forall j :: 0 <= j < i ==> g[j].slot != slot
  {
    if g == [] then 0
    else if g[0].slot == slot then 0
    else 1 + IndexOf(g[1..], slot)
  }

  // One more bar: merged into its slot if the slot exists, else a new last slot.
  function Add(g: seq<Slotted>, x: Slotted): seq<Slotted> {
    var i := IndexOf(g, x.slot);
    if i < |g| then g[i := Slotted(x.slot, Merge(g[i].bar, x.bar))] else g + [x]
  }

  function Group(xs: seq<Slotted>): seq<Slotted> {
    if xs == [] then [] else Add(Group(xs[..|xs| - 1]), xs[|xs| - 1])
  }

  // The bars of one slot, in stream order.
  function Pick(xs: seq<Slotted>, slot: int): seq<Bar> {
    if xs == [] then []
    else
      var before := Pick(xs[..|xs| - 1], slot);
      var x := xs[|xs| - 1];
      if x.slot == slot then before + [x.bar] else before
  }

  function MergeAll(bars: seq<Bar>): Bar
    requires bars != []
  {
    if |bars| == 1 then bars[0]
    else Merge(MergeAll(bars[..|bars| - 1]), bars[|bars| - 1])
  }

  ghost predicate DistinctSlots(g: seq<Slotted>) {
    forall i, j :: 0 <= i < j < |g| ==> g[i].slot != g[j].slot
  }

  ghost predicate Ascending(xs: seq<Slotted>) {
    forall i, j :: 0 <= i < j < |xs| ==> xs[i].slot <= xs[j].slot
  }

  ghost predicate StrictlyAscending(xs: seq<Slotted>) {
    forall i, j :: 0 <= i < j < |xs| ==> xs[i].slot < xs[j].slot
  }

  ghost predicate HasSlot(xs: seq<Slotted>, slot: int) {
    exists i :: 0 <= i < |xs| && xs[i].slot == slot
  }

  lemma GroupSnoc(xs: seq<Slotted>, x: Slotted)
    ensures Group(xs + [x]) == Add(Group(xs), x)
  {
  }

  lemma PickSnoc(xs: seq<Slotted>, x: Slotted, slot: int)
    ensures Pick(xs + [x], slot) == if x.slot == slot then Pick(xs, slot) + [x.bar] else Pick(xs, slot)
  {
  }

  lemma MergeAllSnoc(bars: seq<Bar>, b: Bar)
    ensures MergeAll(bars + [b]) == if bars == [] then b else Merge(MergeAll(bars), b)
  {
  }

  lemma {:induction false} MergeAllConcat(a: seq<Bar>, b: seq<Bar>)
    requires b != []
    ensures MergeAll(a + b) == if a == [] then MergeAll(b) else Merge(MergeAll(a), MergeAll(b))
  {
    if a == [] {
      assert a + b == b;
    } else {
      var n := |b| - 1;
      assert a + b == (a + b[..n]) + [b[n]] && b == b[..n] + [b[n]];
      MergeAllSnoc(a + b[..n], b[n]);
      if n == 0 {
        assert a + b[..n] == a;
      } else {
        MergeAllConcat(a, b[..n]);
        MergeAllSnoc(b[..n], b[n]);
      }
    }
  }

  lemma SplitLast<T>(xs: seq<T>)
    requires xs != []
    ensures xs == xs[..|xs| - 1] + [xs[|xs| - 1]]
  {
  }

  lemma {:induction false} PickNonEmpty(xs: seq<Slotted>, slot: int)
    ensures Pick(xs, slot) != [] <==> HasSlot(xs, slot)
  {
    if xs != [] {
      var n := |xs| - 1;
      SplitLast(xs);
      PickNonEmpty(xs[..n], slot);
      PickSnoc(xs[..n], xs[n], slot);
      HasSlotSnoc(xs[..n], xs[n], slot);
      hide Pick, HasSlot;
    }
  }

  /** What it is to group a stream, in any order: exactly the slots that occur, each once, in order of
      first appearance, each holding the merge of all its bars in stream order. */
  ghost predicate Groups(g: seq<Slotted>, xs: seq<Slotted>) {
    && DistinctSlots(g)
    && (forall k :: HasSlot(g, k) <==> HasSlot(xs, k))
    && (forall i :: 0 <= i < |g| ==> Pick(xs, g[i].slot) != [] && g[i].bar == MergeAll(Pick(xs, g[i].slot)))
    && (forall i, j :: 0 <= i < j < |g| ==> IndexOf(xs, g[i].slot) < IndexOf(xs, g[j].slot))
  }

  lemma GroupsStepBars(g: seq<Slotted>, xs: seq<Slotted>, x: Slotted, i: nat)
    requires Groups(g, xs) && i < |Add(g, x)|
    ensures var y := Add(g, x)[i];
      Pick(xs + [x], y.slot) != [] && y.bar == MergeAll(Pick(xs + [x], y.slot))
  {
    var at := IndexOf(g, x.slot);
    var y := Add(g, x)[i];
    hide IndexOf, Pick, MergeAll, Merge;
    PickSnoc(xs, x, y.slot);
    PickNonEmpty(xs, x.slot);
    MergeAllSnoc(Pick(xs, x.slot), x.bar);
    if at == |g| && i == |g| {
      assert !HasSlot(g, x.slot);
    }
  }

  lemma GroupsStepOrder(g: seq<Slotted>, xs: seq<Slotted>, x: Slotted, i: nat, j: nat)
    requires Groups(g, xs) && i < j < |Add(g, x)|
    ensures IndexOf(xs + [x], Add(g, x)[i].slot) < IndexOf(xs + [x], Add(g, x)[j].slot)
  {
    var g' := Add(g, x);
    assert forall l :: 0 <= l < |g| ==> g'[l].slot == g[l].slot;
    assert HasSlot(g, g[i].slot);
    if j < |g| {
      assert HasSlot(g, g[j].slot);
    } else {
      assert !HasSlot(g, x.slot);
    }
    hide IndexOf, Pick, HasSlot;
    IndexOfSnoc(xs, x, g'[i].slot);
    IndexOfSnoc(xs, x, g'[j].slot);
  }

  lemma AddKeepsDistinct(g: seq<Slotted>, x: Slotted)
    requires DistinctSlots(g)
    ensures DistinctSlots(Add(g, x))
  {
  }

  lemma GroupsStep(g: seq<Slotted>, xs: seq<Slotted>, x: Slotted)
    requires Groups(g, xs)
    ensures Groups(Add(g, x), xs + [x])
  {
    hide Add, Pick, MergeAll, IndexOf, HasSlot, DistinctSlots;
    AddKeepsDistinct(g, x);
    forall k
      ensures HasSlot(Add(g, x), k) <==> HasSlot(xs + [x], k)
    {
      HasSlotSnoc(xs, x, k);
      HasSlotOfAdd(g, x, k);
    }
    forall i | 0 <= i < |Add(g, x)|
      ensures Pick(xs + [x], Add(g, x)[i].slot) != []
      ensures Add(g, x)[i].bar == MergeAll(Pick(xs + [x], Add(g, x)[i].slot))
    {
      GroupsStepBars(g, xs, x, i);
    }
    forall i, j | 0 <= i < j < |Add(g, x)|
      ensures IndexOf(xs + [x], Add(g, x)[i].slot) < IndexOf(xs + [x], Add(g, x)[j].slot)
    {
      GroupsStepOrder(g, xs, x, i, j);
    }
  }

  lemma {:induction false} GroupMeaning(xs: seq<Slotted>)
    ensures Groups(Group(xs), xs)
  {
    if xs != [] {
      hide Groups, Group;
      var n := |xs| - 1;
      SplitLast(xs);
      GroupMeaning(xs[..n]);
      GroupsStep(Group(xs[..n]), xs[..n], xs[n]);
      GroupSnoc(xs[..n], xs[n]);
    }
  }

  lemma HasSlotSnoc(xs: seq<Slotted>, x: Slotted, k: int)
    ensures HasSlot(xs + [x], k) <==> HasSlot(xs, k) || x.slot == k
  {
    assert (xs + [x])[|xs|] == x;
    if HasSlot(xs, k) {
      var i :| 0 <= i < |xs| && xs[i].slot == k;
      assert (xs + [x])[i].slot == k;
    }
  }

  lemma HasSlotOfAdd(g: seq<Slotted>, x: Slotted, k: int)
    ensures HasSlot(Add(g, x), k) <==> HasSlot(g, k) || x.slot == k
  {
    var at := IndexOf(g, x.slot);
    if at < |g| {
      var g' := Add(g, x);
      assert forall i :: 0 <= i < |g| ==> g'[i].slot == g[i].slot;
      assert g'[at].slot == x.slot;
      if HasSlot(g, k) {
        var i :| 0 <= i < |g| && g[i].slot == k;
        assert g'[i].slot == k;
      }
    } else {
      HasSlotSnoc(g, x, k);
    }
  }

  lemma IndexOfSnoc(xs: seq<Slotted>, x: Slotted, k: int)
    ensures HasSlot(xs, k) ==> IndexOf(xs + [x], k) == IndexOf(xs, k) < |xs|
    ensures !HasSlot(xs, k) ==> IndexOf(xs, k) == |xs| <= IndexOf(xs + [x], k)
    ensures !HasSlot(xs, k) && x.slot == k ==> IndexOf(xs + [x], k) == |xs|
  {
    hide IndexOf;
    var i, j := IndexOf(xs, k), IndexOf(xs + [x], k);
    assert forall l :: 0 <= l < |xs| ==> (xs + [x])[l] == xs[l];
    if i < |xs| {
      assert (xs + [x])[i].slot == k;
      assert j >= i;
    } else if x.slot == k {
      assert (xs + [x])[|xs|].slot == k;
    }
  }

  // Independent reading of a merged bar: first open, greatest high, least low, last close.
  ghost predicate Merges(b: Bar, bars: seq<Bar>)
    requires bars != []
  {
    && b.open == bars[0].open && b.close == bars[|bars| - 1].close
    && (forall i :: 0 <= i < |bars| ==> bars[i].high <= b.high && b.low <= bars[i].low)
    && (exists i :: 0 <= i < |bars| && bars[i].high == b.high)
    && (exists i :: 0 <= i < |bars| && bars[i].low == b.low)
    && b.volume == Volume(bars)
  }

  lemma VolumeSnoc(bars: seq<Bar>, b: Bar)
    ensures Volume(bars + [b]) == Volume(bars) + b.volume
  {
  }

  lemma MergesStep(m: Bar, bars: seq<Bar>, b: Bar)
    requires bars != [] && Merges(m, bars)
    ensures Merges(Merge(m, b), bars + [b])
  {
    VolumeSnoc(bars, b);
    hide Volume;
    var all := bars + [b];
    assert forall i :: 0 <= i < |bars| ==> all[i] == bars[i];
    assert all[|bars|] == b;
    var h :| 0 <= h < |bars| && bars[h].high == m.high;
    var l :| 0 <= l < |bars| && bars[l].low == m.low;
    assert all[h].high == m.high && all[l].low == m.low;
  }

  lemma {:induction false} MergeAllMeaning(bars: seq<Bar>)
    requires bars != []
    ensures Merges(MergeAll(bars), bars)
  {
    var n := |bars| - 1;
    if n == 0 {
      VolumeSnoc([], bars[0]);
      assert bars == [] + [bars[0]];
      assert bars[0].high == MergeAll(bars).high && bars[0].low == MergeAll(bars).low;
    } else {
      MergeAllMeaning(bars[..n]);
      SplitLast(bars);
      hide Merges;
      MergesStep(MergeAll(bars[..n]), bars[..n], bars[n]);
      MergeAllSnoc(bars[..n], bars[n]);
    }
  }

  function Volume(bars: seq<Bar>): int {
    if bars == [] then 0 else Volume(bars[..|bars| - 1]) + bars[|bars| - 1].volume
  }

  // ----- Ascending streams ---------------------------------------------------

  ghost predicate Follows(x: Slotted, g: seq<Slotted>) {
    g != [] ==> g[|g| - 1].slot <= x.slot
  }

  lemma {:induction false} AscendingGroup(xs: seq<Slotted>)
    requires Ascending(xs)
    ensures StrictlyAscending(Group(xs))
    ensures xs != [] ==> Group(xs) != [] && Group(xs)[|Group(xs)| - 1].slot == xs[|xs| - 1].slot
    decreases |xs|, 0
  {
    if xs != [] {
      var n := |xs| - 1;
      NextFollows(xs);
      SplitLast(xs);
      GroupSnoc(xs[..n], xs[n]);
      hide Group, Add;
      AddToAscending(Group(xs[..n]), xs[n]);
    }
  }

  // In an ascending stream each bar follows the grouping of those before it.
  lemma {:induction false} NextFollows(xs: seq<Slotted>)
    requires Ascending(xs) && xs != []
    ensures StrictlyAscending(Group(xs[..|xs| - 1]))
    ensures Follows(xs[|xs| - 1], Group(xs[..|xs| - 1]))
    decreases |xs| - 1, 1
  {
    var n := |xs| - 1;
    AscendingGroup(xs[..n]);
    if n == 0 {
      GroupOfNothing(xs[..n]);
    } else {
      assert xs[..n][n - 1] == xs[n - 1];
    }
  }

  lemma GroupOfNothing(xs: seq<Slotted>)
    requires xs == []
    ensures Group(xs) == []
  {
  }

  /** On an ascending stream the next bar meets only the last slot. */
  lemma AddToAscending(g: seq<Slotted>, x: Slotted)
    requires StrictlyAscending(g)
    requires Follows(x, g)
    ensures g != [] && g[|g| - 1].slot == x.slot
            ==> Add(g, x) == g[..|g| - 1] + [Slotted(x.slot, Merge(g[|g| - 1].bar, x.bar))]
    ensures !(g != [] && g[|g| - 1].slot == x.slot) ==> Add(g, x) == g + [x]
    ensures StrictlyAscending(Add(g, x))
  {
  }

  function Reslot(xs: seq<Slotted>, f: int -> int): (r: seq<Slotted>)
    ensures |r| == |xs|
    ensures forall i :: 0 <= i < |xs| ==> r[i] == Slotted(f(xs[i].slot), xs[i].bar)
  {
    seq(|xs|, i requires 0 <= i < |xs| => Slotted(f(xs[i].slot), xs[i].bar))
  }

  lemma AddMergesTwice(g: seq<Slotted>, slot: int, b: Bar, c: Bar)
    ensures Add(Add(g, Slotted(slot, b)), Slotted(slot, c)) == Add(g, Slotted(slot, Merge(b, c)))
  {
    var i := IndexOf(g, slot);
    var once := Add(g, Slotted(slot, b));
    if i < |g| {
      assert once[i].slot == slot;
      assert forall j :: 0 <= j < i ==> once[j].slot != slot;
    } else {
      assert once[|g|].slot == slot;
      assert forall j :: 0 <= j < |g| ==> once[j].slot != slot;
    }
    assert IndexOf(once, slot) == i;
  }

  lemma ReslotSnoc(xs: seq<Slotted>, x: Slotted, f: int -> int)
    ensures Reslot(xs + [x], f) == Reslot(xs, f) + [Slotted(f(x.slot), x.bar)]
    ensures Group(Reslot(xs + [x], f)) == Add(Group(Reslot(xs, f)), Slotted(f(x.slot), x.bar))
  {
  }

  /** Rolling up before or after one more bar joins the fine grouping is the same. */
  lemma RollUpStep(g: seq<Slotted>, x: Slotted, f: int -> int)
    requires StrictlyAscending(g) && Follows(x, g)
    ensures Group(Reslot(Add(g, x), f)) == Add(Group(Reslot(g, f)), Slotted(f(x.slot), x.bar))
  {
    hide Group, Add, Merge, Reslot;
    AddToAscending(g, x);
    if g != [] && g[|g| - 1].slot == x.slot {
      var init, last := g[..|g| - 1], g[|g| - 1];
      SplitLast(g);
      ReslotSnoc(init, last, f);
      ReslotSnoc(init, Slotted(x.slot, Merge(last.bar, x.bar)), f);
      AddMergesTwice(Group(Reslot(init, f)), f(x.slot), last.bar, x.bar);
    } else {
      ReslotSnoc(g, x, f);
    }
  }

  /** Rolling up grouped bars into coarser slots gives the bars of the coarse grouping itself. */
  lemma {:induction false} RollUp(xs: seq<Slotted>, f: int -> int)
    requires Ascending(xs)
    ensures Group(Reslot(Group(xs), f)) == Group(Reslot(xs, f))
  {
    if xs == [] {
      GroupOfNothing(xs);
    } else {
      hide Group, Add, Reslot;
      var n := |xs| - 1;
      RollUp(xs[..n], f);
      NextFollows(xs);
      RollUpStep(Group(xs[..n]), xs[n], f);
      SplitLast(xs);
      GroupSnoc(xs[..n], xs[n]);
      ReslotSnoc(xs[..n], xs[n], f);
    }
  }

  /** A strictly ascending stream is its own grouping. */
  lemma {:induction false} GroupOfStrict(xs: seq<Slotted>)
    requires StrictlyAscending(xs)
    ensures Group(xs) == xs
  {
    if xs != [] {
      var n := |xs| - 1;
      GroupOfStrict(xs[..n]);
      hide Group, Add;
      SplitLast(xs);
      GroupSnoc(xs[..n], xs[n]);
      AddToAscending(xs[..n], xs[n]);
    }
  }

  // ----- Rounding ------------------------------------------------------------

  function RoundAll(xs: seq<Slotted>): (r: seq<Slotted>)
    ensures |r| == |xs|
    ensures forall i :: 0 <= i < |xs| ==> r[i] == Slotted(xs[i].slot, RoundBar(xs[i].bar))
  {
    seq(|xs|, i requires 0 <= i < |xs| => Slotted(xs[i].slot, RoundBar(xs[i].bar)))
  }

  lemma RoundKeepsShape(b: Bar)
    requires WellShaped(b)
    ensures WellShaped(RoundBar(b))
  {
    Round2Monotone(b.low, b.open);
    Round2Monotone(b.low, b.close);
    Round2Monotone(b.open, b.high);
    Round2Monotone(b.close, b.high);
    hide Round2;
  }

  lemma {:induction false} GroupKeepsShape(xs: seq<Slotted>)
    requires forall x :: x in xs ==> WellShaped(x.bar) && x.bar.volume >= 0
    ensures forall x :: x in Group(xs) ==> WellShaped(x.bar) && x.bar.volume >= 0
  {
    if xs != [] {
      GroupKeepsShape(xs[..|xs| - 1]);
    }
  }

  lemma RoundMerge(a: Bar, b: Bar)
    ensures RoundBar(Merge(a, b)) == Merge(RoundBar(a), RoundBar(b))
  {
    Round2OfMaxMin(a.high, b.high);
    Round2OfMaxMin(a.low, b.low);
  }

  lemma {:induction false} IndexOfSameSlots(g: seq<Slotted>, h: seq<Slotted>, slot: int)
    requires |g| == |h| && forall i :: 0 <= i < |g| ==> g[i].slot == h[i].slot
    ensures IndexOf(g, slot) == IndexOf(h, slot)
  {
  }

  lemma RoundAllSnoc(xs: seq<Slotted>, x: Slotted)
    ensures RoundAll(xs + [x]) == RoundAll(xs) + [Slotted(x.slot, RoundBar(x.bar))]
  {
  }

  lemma RoundAdd(g: seq<Slotted>, x: Slotted)
    ensures RoundAll(Add(g, x)) == Add(RoundAll(g), Slotted(x.slot, RoundBar(x.bar)))
  {
    IndexOfSameSlots(g, RoundAll(g), x.slot);
    var i := IndexOf(g, x.slot);
    hide IndexOf, RoundBar, Merge;
    if i < |g| {
      RoundMerge(g[i].bar, x.bar);
    }
  }

  lemma {:induction false} RoundGroup(xs: seq<Slotted>)
    ensures RoundAll(Group(xs)) == Group(RoundAll(xs))
  {
    if xs != [] {
      hide Group, Add, RoundBar;
      var n := |xs| - 1;
      var y := Slotted(xs[n].slot, RoundBar(xs[n].bar));
      RoundGroup(xs[..n]);
      SplitLast(xs);
      RoundAllSnoc(xs[..n], xs[n]);
      GroupSnoc(xs[..n], xs[n]);
      GroupSnoc(RoundAll(xs[..n]), y);
      RoundAdd(Group(xs[..n]), xs[n]);
    }
  }

  lemma RoundAllIdempotent(xs: seq<Slotted>)
    ensures RoundAll(RoundAll(xs)) == RoundAll(xs)
  {
    forall i | 0 <= i < |xs|
      ensures RoundAll(RoundAll(xs))[i] == RoundAll(xs)[i]
    {
      RoundBarIdempotent(xs[i].bar);
    }
    hide RoundBar, RoundAll;
  }

  lemma RoundBarIdempotent(b: Bar)
    ensures RoundBar(RoundBar(b)) == RoundBar(b)
  {
    hide Round2;
    Round2Idempotent(b.open);
    Round2Idempotent(b.high);
    Round2Idempotent(b.low);
    Round2Idempotent(b.close);
  }

  /** Rounding the fine bars before and after the roll-up is the same as rounding once at the end. */
  lemma RoundedRollUp(xs: seq<Slotted>, f: int -> int)
    requires Ascending(xs)
    ensures RoundAll(Group(Reslot(RoundAll(Group(xs)), f))) == RoundAll(Group(Reslot(xs, f)))
  {
    var coarse := Reslot(Group(xs), f);
    assert Reslot(RoundAll(Group(xs)), f) == RoundAll(coarse);
    RoundGroup(coarse);
    RoundAllIdempotent(Group(coarse));
    RollUp(xs, f);
  }

  // ----- Volume --------------------------------------------------------------

  function TotalVolume(xs: seq<Slotted>): int {
    if xs == [] then 0 else TotalVolume(xs[..|xs| - 1]) + xs[|xs| - 1].bar.volume
  }

  lemma TotalVolumeSnoc(xs: seq<Slotted>, x: Slotted)
    ensures TotalVolume(xs + [x]) == TotalVolume(xs) + x.bar.volume
  {
  }

  lemma {:induction false} TotalVolumeOfUpdate(g: seq<Slotted>, i: nat, x: Slotted)
    requires i < |g|
    ensures TotalVolume(g[i := x]) == TotalVolume(g) - g[i].bar.volume + x.bar.volume
  {
    hide TotalVolume;
    var n := |g| - 1;
    SplitLast(g);
    TotalVolumeSnoc(g[..n], g[n]);
    if i < n {
      TotalVolumeOfUpdate(g[..n], i, x);
      assert g[i := x] == g[..n][i := x] + [g[n]];
      TotalVolumeSnoc(g[..n][i := x], g[n]);
    } else {
      assert g[i := x] == g[..n] + [x];
      TotalVolumeSnoc(g[..n], x);
    }
  }

  lemma TotalVolumeOfAdd(g: seq<Slotted>, x: Slotted)
    ensures TotalVolume(Add(g, x)) == TotalVolume(g) + x.bar.volume
  {
    hide TotalVolume, IndexOf;
    var i := IndexOf(g, x.slot);
    if i < |g| {
      TotalVolumeOfUpdate(g, i, Slotted(x.slot, Merge(g[i].bar, x.bar)));
    } else {
      TotalVolumeSnoc(g, x);
    }
  }

  /** Grouping and rounding neither make nor lose volume. */
  lemma {:induction false} GroupKeepsVolume(xs: seq<Slotted>)
    ensures TotalVolume(Group(xs)) == TotalVolume(xs)
    ensures TotalVolume(RoundAll(Group(xs))) == TotalVolume(xs)
  {
    RoundKeepsVolume(Group(xs));
    if xs != [] {
      hide TotalVolume, Group, Add;
      var n := |xs| - 1;
      GroupKeepsVolume(xs[..n]);
      SplitLast(xs);
      GroupSnoc(xs[..n], xs[n]);
      TotalVolumeOfAdd(Group(xs[..n]), xs[n]);
      TotalVolumeSnoc(xs[..n], xs[n]);
    }
  }

  lemma {:induction false} RoundKeepsVolume(xs: seq<Slotted>)
    ensures TotalVolume(RoundAll(xs)) == TotalVolume(xs)
  {
    if xs == [] {
      assert RoundAll(xs) == [];
    } else {
      hide TotalVolume;
      var n := |xs| - 1;
      RoundKeepsVolume(xs[..n]);
      SplitLast(xs);
      RoundAllSnoc(xs[..n], xs[n]);
      TotalVolumeSnoc(xs[..n], xs[n]);
      TotalVolumeSnoc(RoundAll(xs[..n]), Slotted(xs[n].slot, RoundBar(xs[n].bar)));
    }
  }

  // ----- Selecting slots -----------------------------------------------------

  function Only(xs: seq<Slotted>, keep: int -> bool): seq<Slotted> {
    if xs == [] then []
    else
      var before := Only(xs[..|xs| - 1], keep);
      var x := xs[|xs| - 1];
      if keep(x.slot) then before + [x] else before
  }

  lemma OnlySnoc(xs: seq<Slotted>, x: Slotted, keep: int -> bool)
    ensures Only(xs + [x], keep) == if keep(x.slot) then Only(xs, keep) + [x] else Only(xs, keep)
  {
  }

  lemma {:induction false} OnlyMembers(xs: seq<Slotted>, keep: int -> bool)
    ensures forall x :: x in Only(xs, keep) <==> x in xs && keep(x.slot)
  {
    if xs != [] {
      hide Only;
      var n := |xs| - 1;
      OnlyMembers(xs[..n], keep);
      SplitLast(xs);
      OnlySnoc(xs[..n], xs[n], keep);
    }
  }

  lemma AllBelowLast(xs: seq<Slotted>, x: Slotted)
    requires xs != [] && x in xs[..|xs| - 1]
    ensures Ascending(xs) ==> x.slot <= xs[|xs| - 1].slot
    ensures StrictlyAscending(xs) ==> x.slot < xs[|xs| - 1].slot
  {
  }

  lemma AppendKeepsOrder(xs: seq<Slotted>, x: Slotted)
    ensures Ascending(xs) && (forall y :: y in xs ==> y.slot <= x.slot) ==> Ascending(xs + [x])
    ensures StrictlyAscending(xs) && (forall y :: y in xs ==> y.slot < x.slot) ==> StrictlyAscending(xs + [x])
  {
  }

  lemma {:induction false} OnlyKeepsOrder(xs: seq<Slotted>, keep: int -> bool)
    ensures Ascending(xs) ==> Ascending(Only(xs, keep))
    ensures StrictlyAscending(xs) ==> StrictlyAscending(Only(xs, keep))
  {
    if xs != [] {
      var n := |xs| - 1;
      OnlyKeepsOrder(xs[..n], keep);
      OnlyMembers(xs[..n], keep);
      SplitLast(xs);
      OnlySnoc(xs[..n], xs[n], keep);
      hide Only;
      var before := Only(xs[..n], keep);
      forall y | y in before
        ensures Ascending(xs) ==> y.slot <= xs[n].slot
        ensures StrictlyAscending(xs) ==> y.slot < xs[n].slot
      {
        AllBelowLast(xs, y);
      }
      PrefixKeepsOrder(xs);
      AppendKeepsOrder(before, xs[n]);
      hide Ascending, StrictlyAscending;
    }
  }

  lemma PrefixKeepsOrder(xs: seq<Slotted>)
    requires xs != []
    ensures Ascending(xs) ==> Ascending(xs[..|xs| - 1])
    ensures StrictlyAscending(xs) ==> StrictlyAscending(xs[..|xs| - 1])
  {
  }

  lemma OnlyFollows(g: seq<Slotted>, x: Slotted, keep: int -> bool)
    requires StrictlyAscending(g) && Follows(x, g)
    ensures StrictlyAscending(Only(g, keep)) && Follows(x, Only(g, keep))
  {
    OnlyKeepsOrder(g, keep);
    OnlyMembers(g, keep);
    var h := Only(g, keep);
    if h != [] {
      assert h[|h| - 1] in h;
      assert h[|h| - 1] in g;
      LastIsGreatest(g, h[|h| - 1]);
    }
  }

  // Adding one more bar before or after the selection is the same.
  lemma OnlyOfAdd(g: seq<Slotted>, x: Slotted, keep: int -> bool)
    requires StrictlyAscending(g) && Follows(x, g)
    ensures Only(Add(g, x), keep) == if keep(x.slot) then Add(Only(g, keep), x) else Only(g, keep)
  {
    if g != [] && g[|g| - 1].slot == x.slot {
      SplitLast(g);
      OnlyOfTie(g[..|g| - 1], g[|g| - 1], x, keep);
    } else {
      hide Add, Only, StrictlyAscending;
      AddToAscending(g, x);
      OnlySnoc(g, x, keep);
      if keep(x.slot) {
        OnlyFollows(g, x, keep);
        NoTie(g, x, keep);
        AddToAscending(Only(g, keep), x);
      }
    }
  }

  lemma OnlyOfTie(init: seq<Slotted>, last: Slotted, x: Slotted, keep: int -> bool)
    requires StrictlyAscending(init + [last]) && last.slot == x.slot
    ensures var g := init + [last];
      Only(Add(g, x), keep) == if keep(x.slot) then Add(Only(g, keep), x) else Only(g, keep)
  {
    var g := init + [last];
    var merged := Slotted(x.slot, Merge(last.bar, x.bar));
    OnlyFollows(g, x, keep);
    hide Add, Only, Merge, StrictlyAscending;
    AddToAscending(g, x);
    assert Add(g, x) == init + [merged];
    OnlySnoc(init, last, keep);
    OnlySnoc(init, merged, keep);
    if keep(x.slot) {
      AddToAscending(Only(init, keep) + [last], x);
    }
  }

  lemma NoTie(g: seq<Slotted>, x: Slotted, keep: int -> bool)
    requires StrictlyAscending(g) && Follows(x, g) && !(g != [] && g[|g| - 1].slot == x.slot)
    ensures var h := Only(g, keep); !(h != [] && h[|h| - 1].slot == x.slot)
  {
  }

  /** Selecting whole slots before grouping or after it is the same. */
  lemma {:induction false} OnlyOfGroup(xs: seq<Slotted>, keep: int -> bool)
    requires Ascending(xs)
    ensures Only(Group(xs), keep) == Group(Only(xs, keep))
  {
    if xs != [] {
      var n := |xs| - 1;
      OnlyOfGroup(xs[..n], keep);
      NextFollows(xs);
      hide Group, Add, Only;
      SplitLast(xs);
      GroupSnoc(xs[..n], xs[n]);
      OnlyOfAdd(Group(xs[..n]), xs[n], keep);
      OnlySnoc(xs[..n], xs[n], keep);
      GroupSnoc(Only(xs[..n], keep), xs[n]);
    }
  }

  lemma MembersOfInit(a: seq<Slotted>, x: Slotted)
    requires StrictlyAscending(a) && a != []
    ensures x in a[..|a| - 1] <==> x in a && x != a[|a| - 1]
  {
  }

  lemma LastIsGreatest(a: seq<Slotted>, x: Slotted)
    requires StrictlyAscending(a) && x in a
    ensures x.slot <= a[|a| - 1].slot
    ensures x.slot == a[|a| - 1].slot ==> x == a[|a| - 1]
  {
  }

  /** Two strictly ascending streams with the same elements are the same stream. */
  lemma {:induction false} StrictlyAscendingUnique(a: seq<Slotted>, b: seq<Slotted>)
    requires StrictlyAscending(a) && StrictlyAscending(b)
    requires forall x :: x in a <==> x in b
    ensures a == b
  {
    assert a != [] ==> a[0] in a;
    assert b != [] ==> b[0] in b;
    if a != [] && b != [] {
      var m, n := |a| - 1, |b| - 1;
      assert a[m] in a && b[n] in b;
      LastIsGreatest(b, a[m]);
      LastIsGreatest(a, b[n]);
      forall x
        ensures x in a[..m] <==> x in b[..n]
      {
        MembersOfInit(a, x);
        MembersOfInit(b, x);
      }
      StrictlyAscendingUnique(a[..m], b[..n]);
    }
  }

  lemma {:induction false} PickConcat(a: seq<Slotted>, b: seq<Slotted>, slot: int)
    ensures Pick(a + b, slot) == Pick(a, slot) + Pick(b, slot)
  {
    if b == [] {
      assert a + b == a;
    } else {
      hide Pick;
      var n := |b| - 1;
      PickConcat(a, b[..n], slot);
      SplitLast(b);
      assert a + b == (a + b[..n]) + [b[n]];
      PickSnoc(a + b[..n], b[n], slot);
      PickSnoc(b[..n], b[n], slot);
    }
  }
}
