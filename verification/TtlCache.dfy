/** TTL cache bounded by approximate bytes, evicting oldest first. */
module TtlCache {
  import opened Wrappers

  // A list of rows, or anything else.
  datatype Value<+T> = Rows(rows: seq<T>) | Other(item: T)

  datatype Entry<+K, +T> = Entry(key: K, ts: real, value: Value<T>, size: nat)

  function SizeOf<T>(v: Value<T>): nat {
    if v.Rows? then |v.rows| * 450 + 64 else 512
  }

  // ----- An insertion-ordered dictionary -------------------------------------------------

  ghost predicate DistinctKeys<K, T>(s: seq<Entry<K, T>>) {
    forall i, j :: 0 <= i < j < |s| ==> s[i].key != s[j].key
  }

  function Position<K(==), T>(s: seq<Entry<K, T>>, key: K): (i: nat)
    ensures i <= |s|
    ensures i < |s| ==> s[i].key == key
    ensures forall j :: 0 <= j < i ==> s[j].key != key
  {
    if s == [] || s[0].key == key then 0 else 1 + Position(s[1..], key)
  }

  function Without<K(==), T>(s: seq<Entry<K, T>>, key: K): seq<Entry<K, T>> {
    var i := Position(s, key);
    if i < |s| then s[..i] + s[i + 1..] else s
  }

  function Bytes<K, T>(s: seq<Entry<K, T>>): nat {
    if s == [] then 0 else s[0].size + Bytes(s[1..])
  }

  // First of the entries with the least time stamp.
  function Oldest<K, T>(s: seq<Entry<K, T>>): (i: nat)
    requires s != []
    ensures i < |s|
    ensures forall j :: 0 <= j < |s| ==> s[i].ts <= s[j].ts
    ensures forall j :: 0 <= j < i ==> s[i].ts < s[j].ts
  {
    if |s| == 1 then 0
    else
      var i := 1 + Oldest(s[1..]);
      if s[0].ts <= s[i].ts then 0 else i
  }

  function EvictToFit<K(==), T>(s: seq<Entry<K, T>>, budget: int): seq<Entry<K, T>>
    decreases |s|
  {
    if Bytes(s) <= budget || |s| <= 1 then s
    else EvictToFit(Without(s, s[Oldest(s)].key), budget)
  }

  // ----- Operations ------------------------------------------------------------------------

  function Lookup<K(==), T>(s: seq<Entry<K, T>>, key: K, now: real, ttl: real): Option<Value<T>> {
    var i := Position(s, key);
    if i < |s| && now - s[i].ts < ttl then Some(s[i].value) else None
  }

  function AfterGet<K(==), T>(s: seq<Entry<K, T>>, key: K, now: real, ttl: real): seq<Entry<K, T>> {
    if Lookup(s, key, now, ttl).Some? then s else Without(s, key)
  }

  function AfterPut<K(==), T>(s: seq<Entry<K, T>>, key: K, v: Value<T>, now: real, budget: int): seq<Entry<K, T>> {
    EvictToFit(Without(s, key) + [Entry(key, now, v, SizeOf(v))], budget)
  }

  class TTLCache<K(==), T> {
    const ttl: real
    const budget: int
    var store: seq<Entry<K, T>>
    var bytes: int

    // The byte count is never stale.
    ghost predicate Valid()
      reads this
    {
      DistinctKeys(store) && bytes == Bytes(store)
    }

    constructor (ttl: real, budget: int)
      ensures Valid() && store == [] && this.ttl == ttl && this.budget == budget
    {
      this.ttl, this.budget, store, bytes := ttl, budget, [], 0;
    }

    method Get(key: K, now: real) returns (hit: Option<Value<T>>)
      requires Valid()
      modifies this
      ensures Valid()
      ensures hit == Lookup(old(store), key, now, ttl) && store == AfterGet(old(store), key, now, ttl)
    {
      var i := Position(store, key);
      if i < |store| && now - store[i].ts < ttl {
        return Some(store[i].value);
      }
      if i < |store| {
        Evict(key);
      }
      hit := None;
    }

    method Put(key: K, value: Value<T>, now: real)
      requires Valid()
      modifies this
      ensures Valid()
      ensures store == AfterPut(old(store), key, value, now, budget)
      ensures bytes <= budget || |store| == 1
    {
      if Position(store, key) < |store| {
        Evict(key);
      }
      WithoutFacts(old(store), key);
      var b := SizeOf(value);
      var entry := Entry(key, now, value, b);
      BytesConcat(store, [entry]);
      store := store + [entry];
      bytes := bytes + b;
      ghost var goal := EvictToFit(store, budget);
      while bytes > budget && |store| > 1
        invariant Valid() && store != []
        invariant EvictToFit(store, budget) == goal
        decreases |store|
      {
        Evict(store[Oldest(store)].key);
      }
    }

    method Evict(key: K)
      requires Valid()
      modifies this
      ensures Valid() && store == Without(old(store), key)
      ensures |store| == |old(store)| - if Position(old(store), key) < |old(store)| then 1 else 0
    {
      WithoutFacts(store, key);
      var i := Position(store, key);
      if i < |store| {
        bytes := bytes - store[i].size;
        store := store[..i] + store[i + 1..];
      }
    }

    method Clear() returns (n: nat)
      modifies this
      ensures Valid() && store == [] && n == |old(store)|
    {
      n := |store|;
      store := [];
      bytes := 0;
    }
  }

  lemma {:induction false} BytesConcat<K, T>(a: seq<Entry<K, T>>, b: seq<Entry<K, T>>)
    ensures Bytes(a + b) == Bytes(a) + Bytes(b)
  {
    if a == [] {
      assert a + b == b;
    } else {
      BytesConcat(a[1..], b);
      assert (a + b)[1..] == a[1..] + b;
    }
  }

  lemma WithoutFacts<K, T>(s: seq<Entry<K, T>>, key: K)
    requires DistinctKeys(s)
    ensures DistinctKeys(Without(s, key))
    ensures forall e :: e in Without(s, key) <==> e in s && e.key != key
    ensures var i := Position(s, key);
      Bytes(Without(s, key)) == Bytes(s) - if i < |s| then s[i].size else 0
  {
    hide Bytes, Position, DistinctKeys;
    var i := Position(s, key);
    if i < |s| {
      BytesCut(s, i);
      CutKeepsDistinct(s, i);
    }
    forall e
      ensures e in Without(s, key) <==> e in s && e.key != key
    {
      if i < |s| {
        MembersCut(s, i, e);
      }
    }
  }

  lemma CutKeepsDistinct<K, T>(s: seq<Entry<K, T>>, i: nat)
    requires i < |s| && DistinctKeys(s)
    ensures DistinctKeys(s[..i] + s[i + 1..])
  {
  }

  lemma BytesCut<K, T>(s: seq<Entry<K, T>>, i: nat)
    requires i < |s|
    ensures Bytes(s[..i] + s[i + 1..]) == Bytes(s) - s[i].size
  {
    BytesConcat(s[..i], s[i..]);
    BytesConcat(s[..i], s[i + 1..]);
    assert s[i..][1..] == s[i + 1..];
    assert s == s[..i] + s[i..];
    assert Bytes(s[i..]) == s[i].size + Bytes(s[i + 1..]);
    hide Bytes;
  }

  lemma MembersCut<K, T>(s: seq<Entry<K, T>>, i: nat, e: Entry<K, T>)
    requires i < |s| && DistinctKeys(s)
    ensures e in s[..i] + s[i + 1..] <==> e in s && e.key != s[i].key
  {
  }
}
