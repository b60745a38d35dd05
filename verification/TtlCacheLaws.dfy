/** The cache against the plain log of what was done to it. */
module TtlCacheLaws {
  import opened Wrappers
  import opened TtlCache

  datatype Op<K, T> = Put(key: K, value: Value<T>, now: real) | Get(key: K, now: real) | Clear(now: real)

  function Do<K(==), T>(s: seq<Entry<K, T>>, op: Op<K, T>, ttl: real, budget: int): seq<Entry<K, T>> {
    match op
    case Put(key, value, now) => AfterPut(s, key, value, now, budget)
    case Get(key, now) => AfterGet(s, key, now, ttl)
    case Clear(_) => []
  }

  function Run<K(==), T>(log: seq<Op<K, T>>, ttl: real, budget: int): seq<Entry<K, T>> {
    if log == [] then [] else Do(Run(log[..|log| - 1], ttl, budget), log[|log| - 1], ttl, budget)
  }

  // Index of the latest put of a key since the last clear, or |log|.
  function LatestPut<K(==), T>(log: seq<Op<K, T>>, key: K): (i: nat)
    ensures i <= |log| && (i < |log| ==> log[i].Put? && log[i].key == key)
  {
    if log == [] then 0
    else
      var n := |log| - 1;
      var op := log[n];
      if op.Put? && op.key == key then n
      else
        var i := LatestPut(log[..n], key);
        if op.Clear? || i == n then n + 1 else i
  }

  // Bytes of every put from index i on.
  function PutBytes<K, T>(log: seq<Op<K, T>>, i: nat): nat {
    if |log| <= i then 0
    else
      var op := log[|log| - 1];
      PutBytes(log[..|log| - 1], i) + if op.Put? then SizeOf(op.value) else 0
  }

  ghost predicate ClockOk<K, T>(log: seq<Op<K, T>>) {
    forall i, j :: 0 <= i < j < |log| ==> log[i].now <= log[j].now
  }

  ghost predicate TimeOrdered<K, T>(s: seq<Entry<K, T>>) {
    forall i, j :: 0 <= i < j < |s| ==> s[i].ts <= s[j].ts
  }

  // ----- What one put evicts ----------------------------------------------------------------

  // k is the least number of oldest entries whose removal makes the rest fit (or leaves one entry).
  ghost predicate ShortestPrefix<K, T>(s: seq<Entry<K, T>>, k: nat, budget: int) {
    && k < |s| && (Bytes(s[k..]) <= budget || k == |s| - 1)
    && forall j :: 0 <= j < k ==> Bytes(s[j..]) > budget
  }

  lemma OldestIsFirst<K, T>(s: seq<Entry<K, T>>)
    requires s != [] && TimeOrdered(s) && DistinctKeys(s)
    ensures Oldest(s) == 0 && Position(s, s[0].key) == 0 && Without(s, s[0].key) == s[1..]
  {
  }

  /** In time order, eviction drops exactly the shortest oldest-first prefix needed, and never the
      newest entry. */
  lemma {:induction false} EvictsShortestPrefix<K, T>(s: seq<Entry<K, T>>, budget: int) returns (k: nat)
    requires s != [] && TimeOrdered(s) && DistinctKeys(s)
    ensures ShortestPrefix(s, k, budget) && EvictToFit(s, budget) == s[k..]
  {
    hide Oldest, Position, Without, Bytes, ShortestPrefix, EvictToFit, TimeOrdered, DistinctKeys;
    EvictStep(s, budget);
    if Bytes(s) <= budget || |s| <= 1 {
      k := 0;
      FitsAlready(s, budget);
    } else {
      var l := EvictsShortestPrefix(s[1..], budget);
      k := l + 1;
      PrefixOfTail(s, l, budget);
    }
  }

  lemma FitsAlready<K, T>(s: seq<Entry<K, T>>, budget: int)
    requires s != [] && (Bytes(s) <= budget || |s| <= 1)
    ensures ShortestPrefix(s, 0, budget) && s[0..] == s
  {
    hide Bytes;
  }

  // In time order the first entry is the one to go.
  lemma EvictStep<K, T>(s: seq<Entry<K, T>>, budget: int)
    requires s != [] && TimeOrdered(s) && DistinctKeys(s)
    ensures EvictToFit(s, budget) == if Bytes(s) <= budget || |s| <= 1 then s else EvictToFit(s[1..], budget)
    ensures TimeOrdered(s[1..]) && DistinctKeys(s[1..])
  {
    hide Oldest, Position, Without, Bytes, EvictToFit, TimeOrdered, DistinctKeys;
    EvictUnfold(s, budget);
    OldestIsFirst(s);
    TailKeepsOrder(s);
  }

  lemma TailKeepsOrder<K, T>(s: seq<Entry<K, T>>)
    requires s != [] && TimeOrdered(s) && DistinctKeys(s)
    ensures TimeOrdered(s[1..]) && DistinctKeys(s[1..])
  {
  }

  lemma EvictUnfold<K, T>(s: seq<Entry<K, T>>, budget: int)
    requires s != []
    ensures EvictToFit(s, budget)
            == if Bytes(s) <= budget || |s| <= 1 then s else EvictToFit(Without(s, s[Oldest(s)].key), budget)
  {
    hide Oldest, Position, Without, Bytes;
  }

  lemma PrefixOfTail<K, T>(s: seq<Entry<K, T>>, l: nat, budget: int)
    requires |s| > 1 && Bytes(s) > budget && ShortestPrefix(s[1..], l, budget)
    ensures ShortestPrefix(s, l + 1, budget) && s[1..][l..] == s[l + 1..]
  {
    hide Bytes;
    assert s[0..] == s;
    forall j | 0 < j <= l + 1
      ensures s[1..][j - 1..] == s[j..]
    {
    }
    forall j | 0 <= j < l + 1
      ensures Bytes(s[j..]) > budget
    {
      assert j > 0 ==> Bytes(s[1..][j - 1..]) > budget;
    }
  }

  // Whatever the clock, what survives an eviction was there before.
  lemma {:induction false} EvictKeepsSome<K, T>(s: seq<Entry<K, T>>, budget: int)
    requires DistinctKeys(s)
    ensures DistinctKeys(EvictToFit(s, budget))
    ensures forall e :: e in EvictToFit(s, budget) ==> e in s
    decreases |s|
  {
    if Bytes(s) > budget && |s| > 1 {
      var key := s[Oldest(s)].key;
      WithoutFacts(s, key);
      EvictKeepsSome(Without(s, key), budget);
    }
  }

  // ----- Every entry is the latest put of its key ----------------------------------------------

  // The entry is what the latest put of its key stored.
  ghost predicate IsLatest<K, T>(e: Entry<K, T>, log: seq<Op<K, T>>) {
    var i := LatestPut(log, e.key);
    i < |log| && e == Entry(e.key, log[i].now, log[i].value, SizeOf(log[i].value))
  }

  ghost predicate FromLog<K, T>(s: seq<Entry<K, T>>, log: seq<Op<K, T>>) {
    DistinctKeys(s) && forall e :: e in s ==> IsLatest(e, log)
  }

  lemma LatestPutSnoc<K, T>(log: seq<Op<K, T>>, op: Op<K, T>, key: K)
    ensures LatestPut(log + [op], key) ==
            if op.Put? && op.key == key then |log|
            else if op.Clear? || LatestPut(log, key) == |log| then |log| + 1
            else LatestPut(log, key)
  {
  }

  lemma LatestStays<K, T>(e: Entry<K, T>, log: seq<Op<K, T>>, op: Op<K, T>)
    requires IsLatest(e, log) && !op.Clear? && !(op.Put? && op.key == e.key)
    ensures IsLatest(e, log + [op])
  {
  }

  lemma AppendKeepsDistinct<K, T>(s: seq<Entry<K, T>>, e: Entry<K, T>)
    requires DistinctKeys(s) && forall x :: x in s ==> x.key != e.key
    ensures DistinctKeys(s + [e])
  {
  }

  lemma StepFromLog<K, T>(s: seq<Entry<K, T>>, log: seq<Op<K, T>>, op: Op<K, T>, ttl: real, budget: int)
    requires FromLog(s, log)
    ensures FromLog(Do(s, op, ttl, budget), log + [op])
  {
    hide IsLatest, SizeOf;
    match op
    case Put(key, value, now) =>
      PutFromLog(s, log, key, value, now, budget);
    case Get(key, now) =>
      WithoutFacts(s, key);
      forall x | x in s
        ensures IsLatest(x, log + [op])
      {
        LatestStays(x, log, op);
      }
    case Clear(_) =>
  }

  lemma PutFromLog<K, T>(s: seq<Entry<K, T>>, log: seq<Op<K, T>>, key: K, v: Value<T>, now: real, budget: int)
    requires FromLog(s, log)
    ensures FromLog(AfterPut(s, key, v, now, budget), log + [Put(key, v, now)])
  {
    hide IsLatest, SizeOf;
    var e := Entry(key, now, v, SizeOf(v));
    WithoutFacts(s, key);
    AppendKeepsDistinct(Without(s, key), e);
    EvictKeepsSome(Without(s, key) + [e], budget);
    NewIsLatest(log, key, v, now);
    forall x | x in AfterPut(s, key, v, now, budget)
      ensures IsLatest(x, log + [Put(key, v, now)])
    {
      if x != e {
        LatestStays(x, log, Put(key, v, now));
      }
    }
  }

  lemma NewIsLatest<K, T>(log: seq<Op<K, T>>, key: K, v: Value<T>, now: real)
    ensures IsLatest(Entry(key, now, v, SizeOf(v)), log + [Put(key, v, now)])
  {
  }

  lemma {:induction false} RunFromLog<K, T>(log: seq<Op<K, T>>, ttl: real, budget: int)
    ensures FromLog(Run(log, ttl, budget), log)
  {
    if log != [] {
      var n := |log| - 1;
      RunFromLog(log[..n], ttl, budget);
      assert log == log[..n] + [log[n]];
      StepFromLog(Run(log[..n], ttl, budget), log[..n], log[n], ttl, budget);
    }
  }

  /** A hit is always the latest put of that key, not cleared since and younger than the ttl, whatever
      the clock did and whatever was evicted. */
  lemma HitIsLatestPut<K, T>(log: seq<Op<K, T>>, key: K, now: real, ttl: real, budget: int)
    ensures var hit := Lookup(Run(log, ttl, budget), key, now, ttl);
      var i := LatestPut(log, key);
      hit.Some? ==> i < |log| && hit == Some(log[i].value) && now - log[i].now < ttl
  {
    RunFromLog(log, ttl, budget);
    var s := Run(log, ttl, budget);
    var i := Position(s, key);
    assert i < |s| ==> s[i] in s;
  }

  // ----- What fits stays ---------------------------------------------------------------------------

  // Entries are in put order, each followed by no more bytes than were put since.
  ghost predicate Compact<K, T>(s: seq<Entry<K, T>>, log: seq<Op<K, T>>) {
    && TimeOrdered(s)
    && (log != [] ==> forall e :: e in s ==> e.ts <= log[|log| - 1].now)
    && forall j :: 0 <= j < |s| ==> Bytes(s[j..]) <= PutBytes(log, LatestPut(log, s[j].key))
  }

  // A fresh latest put whose following puts, itself included, fit the budget.
  ghost predicate Retained<K, T>(log: seq<Op<K, T>>, key: K, ttl: real, budget: int) {
    var i := LatestPut(log, key);
    i < |log| && log[|log| - 1].now - log[i].now < ttl && PutBytes(log, i) <= budget
  }

  ghost predicate HasKey<K, T>(s: seq<Entry<K, T>>, key: K) {
    Position(s, key) < |s|
  }

  lemma PutBytesSnoc<K, T>(log: seq<Op<K, T>>, op: Op<K, T>, i: nat)
    requires i <= |log|
    ensures PutBytes(log + [op], i) == PutBytes(log, i) + if op.Put? then SizeOf(op.value) else 0
    ensures PutBytes(log + [op], |log|) == if op.Put? then SizeOf(op.value) else 0
  {
  }

  // Cutting one entry leaves less behind every other.
  lemma SuffixOfCut<K, T>(s: seq<Entry<K, T>>, i: nat, j: nat)
    requires i < |s| && j < |s| - 1
    ensures Bytes((s[..i] + s[i + 1..])[j..]) <= Bytes(s[if j < i then j else j + 1..])
  {
    var s' := s[..i] + s[i + 1..];
    if j < i {
      BytesCut(s[j..], i - j);
      hide Bytes;
      assert s'[j..] == s[j..][..i - j] + s[j..][i - j + 1..];
    } else {
      assert s'[j..] == s[j + 1..];
    }
  }

  // Removing one entry keeps order and only shrinks what follows the others.
  lemma CutKeepsCompact<K, T>(s: seq<Entry<K, T>>, log: seq<Op<K, T>>, i: nat)
    requires i < |s| && Compact(s, log)
    ensures Compact(s[..i] + s[i + 1..], log)
  {
    hide Bytes, PutBytes, LatestPut;
    var s' := s[..i] + s[i + 1..];
    forall j | 0 <= j < |s'|
      ensures Bytes(s'[j..]) <= PutBytes(log, LatestPut(log, s'[j].key))
    {
      SuffixOfCut(s, i, j);
      assert s'[j] == if j < i then s[j] else s[j + 1];
      assert Bytes(s[if j < i then j else j + 1..]) <= PutBytes(log, LatestPut(log, s'[j].key));
    }
  }

  lemma WithoutKeepsCompact<K, T>(s: seq<Entry<K, T>>, log: seq<Op<K, T>>, key: K)
    requires Compact(s, log)
    ensures Compact(Without(s, key), log)
  {
    if Position(s, key) < |s| {
      CutKeepsCompact(s, log, Position(s, key));
    }
  }

  lemma WithoutKeepsFromLog<K, T>(s: seq<Entry<K, T>>, log: seq<Op<K, T>>, key: K)
    requires FromLog(s, log)
    ensures FromLog(Without(s, key), log) && forall e :: e in Without(s, key) ==> e.key != key
  {
    hide IsLatest;
    WithoutFacts(s, key);
  }

  lemma SuffixKeepsCompact<K, T>(s: seq<Entry<K, T>>, log: seq<Op<K, T>>, k: nat)
    requires k <= |s| && Compact(s, log)
    ensures Compact(s[k..], log)
  {
  }

  lemma BytesOfOne<K, T>(e: Entry<K, T>)
    ensures Bytes([e]) == e.size
  {
  }

  // A put of a new key at the end.
  lemma AppendKeepsCompact<K, T>(s: seq<Entry<K, T>>, log: seq<Op<K, T>>, key: K, v: Value<T>, now: real)
    requires FromLog(s, log) && Compact(s, log) && (forall e :: e in s ==> e.key != key)
    requires log != [] ==> log[|log| - 1].now <= now
    ensures Compact(s + [Entry(key, now, v, SizeOf(v))], log + [Put(key, v, now)])
  {
    var e, op := Entry(key, now, v, SizeOf(v)), Put(key, v, now);
    var s', log' := s + [e], log + [op];
    BytesOfOne(e);
    hide SizeOf, Bytes, PutBytes, LatestPut;
    OlderThanNext(s, log, now);
    forall j | 0 <= j < |s'|
      ensures Bytes(s'[j..]) <= PutBytes(log', LatestPut(log', s'[j].key))
    {
      LatestPutSnoc(log, op, s'[j].key);
      assert s'[j..] == s[j..] + [e];
      BytesConcat(s[j..], [e]);
      if j < |s| {
        assert s[j] in s && IsLatest(s[j], log);
        PutBytesSnoc(log, op, LatestPut(log, s[j].key));
      } else {
        PutBytesSnoc(log, op, |log|);
        assert s[j..] == [];
      }
    }
  }

  lemma OlderThanNext<K, T>(s: seq<Entry<K, T>>, log: seq<Op<K, T>>, now: real)
    requires FromLog(s, log) && Compact(s, log) && (log != [] ==> log[|log| - 1].now <= now)
    ensures forall x :: x in s ==> x.ts <= now
  {
  }

  lemma QuietOpKeepsCompact<K, T>(s: seq<Entry<K, T>>, log: seq<Op<K, T>>, op: Op<K, T>)
    requires FromLog(s, log) && Compact(s, log) && op.Get?
    requires log != [] ==> log[|log| - 1].now <= op.now
    ensures Compact(s, log + [op])
  {
  }

  ghost predicate Keeps<K(!new), T>(s: seq<Entry<K, T>>, log: seq<Op<K, T>>, ttl: real, budget: int) {
    forall key :: Retained(log, key, ttl, budget) ==> HasKey(s, key)
  }

  lemma HasKeyIfMember<K, T>(s: seq<Entry<K, T>>, e: Entry<K, T>)
    requires e in s
    ensures HasKey(s, e.key)
  {
  }

  // Retained now was retained before, unless it is this very put.
  lemma RetainedBefore<K, T>(log: seq<Op<K, T>>, op: Op<K, T>, key: K, ttl: real, budget: int)
    requires ClockOk(log + [op]) && Retained(log + [op], key, ttl, budget)
    ensures !op.Clear?
    ensures (op.Put? && op.key == key) || Retained(log, key, ttl, budget)
  {
  }

  lemma PutKeepsCompact<K, T>(s: seq<Entry<K, T>>, log: seq<Op<K, T>>, key: K, v: Value<T>, now: real)
    requires FromLog(s, log) && Compact(s, log)
    requires log != [] ==> log[|log| - 1].now <= now
    ensures var all := Without(s, key) + [Entry(key, now, v, SizeOf(v))];
      DistinctKeys(all) && Compact(all, log + [Put(key, v, now)])
  {
    hide SizeOf, Compact, IsLatest;
    WithoutFacts(s, key);
    WithoutKeepsCompact(s, log, key);
    WithoutKeepsFromLog(s, log, key);
    AppendKeepsCompact(Without(s, key), log, key, v, now);
    AppendKeepsDistinct(Without(s, key), Entry(key, now, v, SizeOf(v)));
  }

  lemma RetainedIsListed<K(!new), T>(s: seq<Entry<K, T>>, log: seq<Op<K, T>>, op: Op<K, T>, key: K,
    ttl: real, budget: int)
    requires FromLog(s, log) && Keeps(s, log, ttl, budget) && op.Put?
    requires ClockOk(log + [op]) && Retained(log + [op], key, ttl, budget)
    ensures HasKey(Without(s, op.key) + [Entry(op.key, op.now, op.value, SizeOf(op.value))], key)
  {
    hide SizeOf;
    RetainedBefore(log, op, key, ttl, budget);
    WithoutFacts(s, op.key);
    var all := Without(s, op.key) + [Entry(op.key, op.now, op.value, SizeOf(op.value))];
    if key == op.key {
      HasKeyIfMember(all, all[|all| - 1]);
    } else {
      var p := Position(s, key);
      assert s[p] in s && s[p] in Without(s, op.key);
      HasKeyIfMember(all, s[p]);
    }
  }

  lemma PutKeeps<K(!new), T>(s: seq<Entry<K, T>>, log: seq<Op<K, T>>, key: K, v: Value<T>, now: real,
    ttl: real, budget: int)
    requires FromLog(s, log) && Compact(s, log) && Keeps(s, log, ttl, budget)
    requires ClockOk(log + [Put(key, v, now)])
    ensures Compact(AfterPut(s, key, v, now, budget), log + [Put(key, v, now)])
    ensures Keeps(AfterPut(s, key, v, now, budget), log + [Put(key, v, now)], ttl, budget)
  {
    hide SizeOf;
    var op := Put(key, v, now);
    var log' := log + [op];
    var all := Without(s, key) + [Entry(key, now, v, SizeOf(v))];
    assert log != [] ==> log'[|log| - 1].now <= log'[|log|].now;
    PutKeepsCompact(s, log, key, v, now);
    var k := EvictsShortestPrefix(all, budget);
    SuffixKeepsCompact(all, log', k);
    forall key' | Retained(log', key', ttl, budget)
      ensures HasKey(all[k..], key')
    {
      RetainedIsListed(s, log, op, key', ttl, budget);
      var i := Position(all, key');
      assert Bytes(all[i..]) <= budget;
      assert i >= k;
      assert all[k..][i - k] == all[i];
      HasKeyIfMember(all[k..], all[i]);
    }
  }

  lemma GetKeepsCompact<K, T>(s: seq<Entry<K, T>>, log: seq<Op<K, T>>, op: Op<K, T>, ttl: real)
    requires FromLog(s, log) && Compact(s, log) && op.Get?
    requires log != [] ==> log[|log| - 1].now <= op.now
    ensures Compact(AfterGet(s, op.key, op.now, ttl), log + [op])
  {
    hide Compact;
    QuietOpKeepsCompact(s, log, op);
    WithoutKeepsCompact(s, log + [op], op.key);
  }

  // A get drops an entry only when it is too old to be retained.
  lemma GetKeeps<K(!new), T>(s: seq<Entry<K, T>>, log: seq<Op<K, T>>, op: Op<K, T>, key: K, ttl: real, budget: int)
    requires FromLog(s, log) && Keeps(s, log, ttl, budget) && op.Get? && ClockOk(log + [op])
    requires Retained(log + [op], key, ttl, budget)
    ensures HasKey(AfterGet(s, op.key, op.now, ttl), key)
  {
    hide SizeOf;
    RetainedBefore(log, op, key, ttl, budget);
    LatestPutSnoc(log, op, key);
    var p := Position(s, key);
    assert s[p] in s && IsLatest(s[p], log);
    assert (log + [op])[LatestPut(log, key)] == log[LatestPut(log, key)];
    if key != op.key {
      WithoutFacts(s, op.key);
      assert s[p] in AfterGet(s, op.key, op.now, ttl);
      HasKeyIfMember(AfterGet(s, op.key, op.now, ttl), s[p]);
    }
  }

  lemma {:induction false} RunKeeps<K(!new), T>(log: seq<Op<K, T>>, ttl: real, budget: int)
    requires ClockOk(log)
    ensures Compact(Run(log, ttl, budget), log) && Keeps(Run(log, ttl, budget), log, ttl, budget)
  {
    if log != [] {
      hide Compact, Keeps, Do, FromLog, ClockOk;
      var n := |log| - 1;
      SplitLog(log);
      RunKeeps(log[..n], ttl, budget);
      RunFromLog(log[..n], ttl, budget);
      StepKeeps(Run(log[..n], ttl, budget), log[..n], log[n], ttl, budget);
    } else {
      assert Run(log, ttl, budget) == [];
    }
  }

  lemma SplitLog<K, T>(log: seq<Op<K, T>>)
    requires log != [] && ClockOk(log)
    ensures log == log[..|log| - 1] + [log[|log| - 1]] && ClockOk(log[..|log| - 1])
  {
  }

  lemma StepKeeps<K(!new), T>(s: seq<Entry<K, T>>, log: seq<Op<K, T>>, op: Op<K, T>, ttl: real, budget: int)
    requires FromLog(s, log) && Compact(s, log) && Keeps(s, log, ttl, budget) && ClockOk(log + [op])
    ensures Compact(Do(s, op, ttl, budget), log + [op]) && Keeps(Do(s, op, ttl, budget), log + [op], ttl, budget)
  {
    hide SizeOf, AfterPut, AfterGet, Retained, HasKey, FromLog;
    assert log != [] ==> (log + [op])[|log| - 1].now <= (log + [op])[|log|].now;
    match op
    case Put(key, value, now) => PutKeeps(s, log, key, value, now, ttl, budget);
    case Get(key, now) =>
      GetKeepsCompact(s, log, op, ttl);
      forall key' | Retained(log + [op], key', ttl, budget)
        ensures HasKey(AfterGet(s, key, now, ttl), key')
      {
        GetKeeps(s, log, op, key', ttl, budget);
      }
    case Clear(_) =>
      forall key
        ensures !Retained(log + [op], key, ttl, budget)
      {
        ClearRetainsNothing(log, op, key, ttl, budget);
      }
  }

  lemma ClearRetainsNothing<K, T>(log: seq<Op<K, T>>, op: Op<K, T>, key: K, ttl: real, budget: int)
    requires op.Clear?
    ensures !Retained(log + [op], key, ttl, budget)
  {
  }

  /** Nothing that fits is lost: with a clock that does not go back, a put younger than the ttl is still
      served as long as all puts since, itself included, fit the budget. */
  lemma RecentPutIsServed<K(!new), T>(log: seq<Op<K, T>>, key: K, ttl: real, budget: int)
    requires ClockOk(log) && Retained(log, key, ttl, budget)
    ensures Lookup(Run(log, ttl, budget), key, log[|log| - 1].now, ttl) == Some(log[LatestPut(log, key)].value)
  {
    RunKeeps(log, ttl, budget);
    RunFromLog(log, ttl, budget);
    var s := Run(log, ttl, budget);
    assert s[Position(s, key)] in s;
  }

  /** In every run with a sane clock, a put evicts exactly the shortest oldest-first prefix needed. */
  lemma PutEvictsShortestPrefix<K(!new), T>(log: seq<Op<K, T>>, key: K, v: Value<T>, now: real, ttl: real, budget: int)
    returns (k: nat)
    requires ClockOk(log + [Put(key, v, now)])
    ensures var all := Without(Run(log, ttl, budget), key) + [Entry(key, now, v, SizeOf(v))];
      ShortestPrefix(all, k, budget) && AfterPut(Run(log, ttl, budget), key, v, now, budget) == all[k..]
  {
    var log' := log + [Put(key, v, now)];
    assert log != [] ==> log'[|log| - 1].now <= log'[|log|].now;
    assert forall i :: 0 <= i < |log| ==> log'[i] == log[i];
    RunKeeps(log, ttl, budget);
    RunFromLog(log, ttl, budget);
    PutKeepsCompact(Run(log, ttl, budget), log, key, v, now);
    k := EvictsShortestPrefix(Without(Run(log, ttl, budget), key) + [Entry(key, now, v, SizeOf(v))], budget);
  }

  /** In every run a get returns the entry it finds if that is younger than the ttl and drops it otherwise;
      no other entry is touched. */
  lemma GetDropsExpired<K(!new), T>(log: seq<Op<K, T>>, key: K, now: real, ttl: real, budget: int)
    ensures var before, after := Run(log, ttl, budget), Run(log + [Get(key, now)], ttl, budget);
      forall e :: e in after <==> e in before && (e.key != key || now - e.ts < ttl)
    ensures var before := Run(log, ttl, budget);
      forall e :: e in before && e.key == key ==>
        Lookup(before, key, now, ttl) == if now - e.ts < ttl then Some(e.value) else None
  {
    var s := Run(log, ttl, budget);
    RunFromLog(log, ttl, budget);
    assert (log + [Get(key, now)])[..|log|] == log;
    WithoutFacts(s, key);
    var i := Position(s, key);
    forall e | e in s && e.key == key
      ensures i < |s| && e == s[i]
    {
      var j :| 0 <= j < |s| && s[j] == e;
      assert i <= j;
    }
    hide Run, FromLog, Bytes, SizeOf, Without, IsLatest;
  }

  // What a value is taken to weigh: 450 bytes a row and 64 for the list, or 512.
  function Weight<T>(v: Value<T>): nat {
    match v
    case Rows(rows) => 64 + 450 * |rows|
    case Other(_) => 512
  }

  function Weights<K, T>(s: seq<Entry<K, T>>): nat {
    if s == [] then 0 else Weight(s[0].value) + Weights(s[1..])
  }

  lemma {:induction false} BytesAreWeights<K, T>(s: seq<Entry<K, T>>)
    requires forall e :: e in s ==> e.size == SizeOf(e.value)
    ensures Bytes(s) == Weights(s)
  {
    if s != [] {
      assert s[0] in s;
      BytesAreWeights(s[1..]);
    }
  }

  /** In every run the bytes accounted for are the weights of what is held. */
  lemma BytesWeighTheRows<K(!new), T>(log: seq<Op<K, T>>, ttl: real, budget: int)
    ensures Bytes(Run(log, ttl, budget)) == Weights(Run(log, ttl, budget))
  {
    RunFromLog(log, ttl, budget);
    var s := Run(log, ttl, budget);
    forall e | e in s
      ensures e.size == SizeOf(e.value)
    {
    }
    BytesAreWeights(s);
  }
}
