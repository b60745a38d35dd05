/** Single-flight live quotes: concurrent requests for one key share one upstream fetch, whose tick is
    then served from a micro-cache for a short time. */
module SingleFlight {
  import opened Wrappers

  datatype Outcome<T> = Yielded(tick: T) | NoTick | Raised

  // A finished task still has its done-callback to run before it is settled.
  datatype Phase<T> = Running | Ended(outcome: Outcome<T>, at: real) | Settled(outcome: Outcome<T>, at: real)

  datatype Task<T> = Task(key: string, start: real, phase: Phase<T>)

  // Tasks are named by their position.
  datatype State<T> = State(cache: map<string, (real, T)>, inflight: map<string, nat>, tasks: seq<Task<T>>)

  // What a request gets: a cached tick, or the task whose result it awaits.
  datatype Response<T> = Hit(tick: T) | Await(task: nat)

  // ----- Steps ---------------------------------------------------------------------------

  predicate CacheFresh<T>(s: State<T>, key: string, now: real, ttl: real) {
    key in s.cache && now - s.cache[key].0 < ttl
  }

  function Started<T>(s: State<T>, key: string, now: real): State<T> {
    s.(inflight := s.inflight[key := |s.tasks|], tasks := s.tasks + [Task(key, now, Running)])
  }

  function Request<T>(s: State<T>, key: string, now: real, ttl: real): (State<T>, Response<T>) {
    if CacheFresh(s, key, now, ttl) then (s, Hit(s.cache[key].1))
    else if key in s.inflight then (s, Await(s.inflight[key]))
    else (Started(s, key, now), Await(|s.tasks|))
  }

  function EndFetch<T>(s: State<T>, id: nat, outcome: Outcome<T>, now: real): State<T>
    requires id < |s.tasks|
  {
    var key := s.tasks[id].key;
    var cached := if outcome.Yielded? then s.cache[key := (now, outcome.tick)] else s.cache;
    s.(cache := cached, tasks := s.tasks[id := s.tasks[id].(phase := Ended(outcome, now))])
  }

  // The callback pops whatever task the key has in flight.
  function DoneCallback<T>(s: State<T>, id: nat): State<T>
    requires id < |s.tasks| && s.tasks[id].phase.Ended?
  {
    var t := s.tasks[id];
    s.(inflight := s.inflight - {t.key},
       tasks := s.tasks[id := t.(phase := Settled(t.phase.outcome, t.phase.at))])
  }

  class LiveQuotes<T> {
    const ttl: real
    var cache: map<string, (real, T)>
    var inflight: map<string, nat>
    var tasks: seq<Task<T>>

    constructor (ttl: real)
      ensures View() == State(map[], map[], []) && this.ttl == ttl
    {
      this.ttl, cache, inflight, tasks := ttl, map[], map[], [];
    }

    function View(): State<T>
      reads this
    {
      State(cache, inflight, tasks)
    }

    // _live_quote up to its await.
    method LiveQuote(key: string, now: real) returns (r: Response<T>)
      modifies this
      ensures (View(), r) == Request(old(View()), key, now, ttl)
    {
      if key in cache && now - cache[key].0 < ttl {
        return Hit(cache[key].1);
      }
      if key !in inflight {
        inflight := inflight[key := |tasks|];
        tasks := tasks + [Task(key, now, Running)];
      }
      r := Await(inflight[key]);
    }

    // The end of _do_live_fetch.
    method FinishFetch(id: nat, outcome: Outcome<T>, now: real)
      requires id < |tasks|
      modifies this
      ensures View() == EndFetch(old(View()), id, outcome, now)
    {
      var t := tasks[id];
      if outcome.Yielded? {
        cache := cache[t.key := (now, outcome.tick)];
      }
      tasks := tasks[id := t.(phase := Ended(outcome, now))];
    }

    method RunDoneCallback(id: nat)
      requires id < |tasks| && tasks[id].phase.Ended?
      modifies this
      ensures View() == DoneCallback(old(View()), id)
    {
      var t := tasks[id];
      inflight := inflight - {t.key};
      tasks := tasks[id := t.(phase := Settled(t.phase.outcome, t.phase.at))];
    }
  }

  // ----- Runs ------------------------------------------------------------------------------

  datatype Step<T> = Pass(dt: real) | Call(key: string) | End(id: nat, outcome: Outcome<T>) | Callback(id: nat)

  datatype World<T> = World(s: State<T>, now: real)

  predicate Enabled<T>(w: World<T>, step: Step<T>) {
    match step
    case Pass(dt) => dt >= 0.0
    case Call(_) => true
    case End(id, _) => id < |w.s.tasks| && w.s.tasks[id].phase.Running?
    case Callback(id) => id < |w.s.tasks| && w.s.tasks[id].phase.Ended?
  }

  function Next<T>(w: World<T>, step: Step<T>, ttl: real): World<T>
    requires Enabled(w, step)
  {
    match step
    case Pass(dt) => w.(now := w.now + dt)
    case Call(key) => w.(s := Request(w.s, key, w.now, ttl).0)
    case End(id, outcome) => w.(s := EndFetch(w.s, id, outcome, w.now))
    case Callback(id) => w.(s := DoneCallback(w.s, id))
  }

  // Worlds reached from an empty one by enabled steps; None when some step was not enabled.
  function Play<T>(steps: seq<Step<T>>, ttl: real): Option<World<T>> {
    if steps == [] then Some(World(State(map[], map[], []), 0.0))
    else
      var before := Play(steps[..|steps| - 1], ttl);
      if before.Some? && Enabled(before.value, steps[|steps| - 1])
      then Some(Next(before.value, steps[|steps| - 1], ttl))
      else None
  }

  // ----- What every step keeps ----------------------------------------------------------------

  ghost predicate Unsettled<T>(s: State<T>, id: nat) {
    id < |s.tasks| && !s.tasks[id].phase.Settled?
  }

  // Exactly the unsettled tasks are in flight, each under its own key.
  ghost predicate Registered<T>(s: State<T>) {
    && (forall id: nat :: Unsettled(s, id) ==> s.tasks[id].key in s.inflight && s.inflight[s.tasks[id].key] == id)
    && (forall key :: key in s.inflight ==> Unsettled(s, s.inflight[key]) && s.tasks[s.inflight[key]].key == key)
  }

  // The key's cache entry is no older than this finished fetch's tick.
  ghost predicate Published<T>(s: State<T>, id: nat)
    requires id < |s.tasks|
  {
    var t := s.tasks[id];
    !t.phase.Running? && t.phase.outcome.Yielded? ==> t.key in s.cache && t.phase.at <= s.cache[t.key].0
  }

  // This fetch of the key has ended with a tick.
  ghost predicate Yields<T>(s: State<T>, id: nat, key: string) {
    && id < |s.tasks| && s.tasks[id].key == key
    && !s.tasks[id].phase.Running? && s.tasks[id].phase.outcome.Yielded?
  }

  // It is the last one that has.
  ghost predicate LastYield<T>(s: State<T>, id: nat, key: string) {
    Yields(s, id, key) && forall j :: id < j < |s.tasks| ==> !Yields(s, j, key)
  }

  // The cached tick of the key is that of this fetch, the last such one, with the time it ended.
  ghost predicate CachedFrom<T>(s: State<T>, id: nat, key: string) {
    && key in s.cache && LastYield(s, id, key)
    && s.cache[key] == (s.tasks[id].phase.at, s.tasks[id].phase.outcome.tick)
  }

  ghost predicate CacheTold<T>(s: State<T>) {
    forall key :: key in s.cache ==> exists id: nat :: CachedFrom(s, id, key)
  }

  // The later fetch of a key began only after the earlier one ended, and a ttl after any tick of it.
  ghost predicate Spaced<T>(s: State<T>, i: nat, j: nat, ttl: real)
    requires i < j < |s.tasks|
  {
    var t, u := s.tasks[i], s.tasks[j];
    t.key == u.key ==>
      && t.phase.Settled?
      && t.phase.at <= u.start
      && (t.phase.outcome.Yielded? ==> t.phase.at + ttl <= u.start)
  }

  ghost predicate Good<T>(w: World<T>, ttl: real) {
    var s := w.s;
    && Registered(s)
    && CacheTold(s)
    && (forall key :: key in s.cache ==> s.cache[key].0 <= w.now)
    && (forall id :: 0 <= id < |s.tasks| ==> Published(s, id))
    && (forall id :: 0 <= id < |s.tasks| ==> s.tasks[id].start <= w.now)
    && (forall id :: 0 <= id < |s.tasks| && !s.tasks[id].phase.Running? ==> s.tasks[id].phase.at <= w.now)
    && (forall id :: 0 <= id < |s.tasks| && s.tasks[id].phase.Running? ==> !CacheFresh(s, s.tasks[id].key, w.now, ttl))
    && (forall i, j :: 0 <= i < j < |s.tasks| ==> Spaced(s, i, j, ttl))
  }

  // A request that starts a fetch.
  lemma StartKeepsRegistered<T>(s: State<T>, key: string, now: real)
    requires Registered(s) && key !in s.inflight
    ensures Registered(Started(s, key, now))
  {
  }

  lemma StartKeepsSpaced<T>(s: State<T>, key: string, now: real, ttl: real)
    requires Registered(s) && key !in s.inflight && !CacheFresh(s, key, now, ttl)
    requires forall id :: 0 <= id < |s.tasks| ==> Published(s, id)
    requires forall id :: 0 <= id < |s.tasks| && !s.tasks[id].phase.Running? ==> s.tasks[id].phase.at <= now
    requires forall i, j :: 0 <= i < j < |s.tasks| ==> Spaced(s, i, j, ttl)
    ensures forall i, j :: 0 <= i < j < |s.tasks| + 1 ==> Spaced(Started(s, key, now), i, j, ttl)
  {
    var s' := Started(s, key, now);
    forall i, j | 0 <= i < j < |s'.tasks|
      ensures Spaced(s', i, j, ttl)
    {
      if j < |s.tasks| {
        assert Spaced(s, i, j, ttl);
      } else {
        assert !(s.tasks[i].key == key && Unsettled(s, i));
        assert Published(s, i);
      }
    }
  }

  lemma StartKeepsCacheTold<T>(s: State<T>, key: string, now: real)
    requires CacheTold(s)
    ensures CacheTold(Started(s, key, now))
  {
    var s' := Started(s, key, now);
    forall k | k in s'.cache
      ensures exists id: nat :: CachedFrom(s', id, k)
    {
      var id: nat :| CachedFrom(s, id, k);
      forall j | id < j < |s'.tasks|
        ensures !Yields(s', j, k)
      {
        assert j < |s.tasks| ==> !Yields(s, j, k);
      }
      assert CachedFrom(s', id, k);
    }
  }

  // A fetch that ends is the latest of its key.
  lemma EndKeepsCacheTold<T>(s: State<T>, id: nat, outcome: Outcome<T>, now: real, ttl: real)
    requires CacheTold(s) && id < |s.tasks| && s.tasks[id].phase.Running?
    requires forall i, j :: 0 <= i < j < |s.tasks| ==> Spaced(s, i, j, ttl)
    ensures CacheTold(EndFetch(s, id, outcome, now))
  {
    var s', mine := EndFetch(s, id, outcome, now), s.tasks[id].key;
    forall j, k | 0 <= j < |s.tasks| && (j != id || !outcome.Yielded?)
      ensures Yields(s', j, k) <==> Yields(s, j, k)
    {
    }
    forall k | k in s'.cache
      ensures exists i: nat :: CachedFrom(s', i, k)
    {
      if k == mine && outcome.Yielded? {
        forall j | id < j < |s'.tasks|
          ensures !Yields(s', j, k)
        {
          assert Spaced(s, id, j, ttl);
        }
        assert CachedFrom(s', id, k);
      } else {
        var i: nat :| CachedFrom(s, i, k);
        assert Yields(s, i, k) && i != id;
        forall j | i < j < |s'.tasks|
          ensures !Yields(s', j, k)
        {
          assert !Yields(s, j, k);
        }
        assert Yields(s', i, k);
        assert CachedFrom(s', i, k);
      }
    }
  }

  lemma CallbackKeepsCacheTold<T>(s: State<T>, id: nat)
    requires CacheTold(s) && id < |s.tasks| && s.tasks[id].phase.Ended?
    ensures CacheTold(DoneCallback(s, id))
  {
    var s' := DoneCallback(s, id);
    forall j, k | 0 <= j < |s.tasks|
      ensures Yields(s', j, k) <==> Yields(s, j, k)
    {
    }
    forall k | k in s'.cache
      ensures exists i: nat :: CachedFrom(s', i, k)
    {
      var i: nat :| CachedFrom(s, i, k);
      assert Yields(s', i, k);
      assert CachedFrom(s', i, k);
    }
  }

  lemma CallKeepsGood<T>(w: World<T>, key: string, ttl: real)
    requires Good(w, ttl)
    ensures Good(Next(w, Call(key), ttl), ttl)
  {
    var s := w.s;
    if !CacheFresh(s, key, w.now, ttl) && key !in s.inflight {
      StartKeepsRegistered(s, key, w.now);
      StartKeepsSpaced(s, key, w.now, ttl);
      StartKeepsCacheTold(s, key, w.now);
      hide Registered, Spaced, CacheTold;
      var s' := Started(s, key, w.now);
      assert Next(w, Call(key), ttl).s == s';
      forall id | 0 <= id < |s'.tasks|
        ensures Published(s', id)
      {
        assert id < |s.tasks| ==> Published(s, id);
      }
    }
  }

  lemma EndKeepsRegistered<T>(s: State<T>, id: nat, outcome: Outcome<T>, now: real)
    requires Registered(s) && id < |s.tasks| && s.tasks[id].phase.Running?
    ensures Registered(EndFetch(s, id, outcome, now))
    ensures forall i :: 0 <= i < |s.tasks| && i != id && s.tasks[i].phase.Running? ==> s.tasks[i].key != s.tasks[id].key
  {
  }

  lemma EndKeepsSpaced<T>(s: State<T>, id: nat, outcome: Outcome<T>, now: real, i: nat, j: nat, ttl: real)
    requires id < |s.tasks| && s.tasks[id].phase.Running? && i < j < |s.tasks| && Spaced(s, i, j, ttl)
    ensures Spaced(EndFetch(s, id, outcome, now), i, j, ttl)
  {
  }

  lemma EndKeepsPublished<T>(w: World<T>, id: nat, outcome: Outcome<T>, i: nat, ttl: real)
    requires Good(w, ttl) && Enabled(w, End(id, outcome)) && i < |w.s.tasks|
    ensures Published(EndFetch(w.s, id, outcome, w.now), i)
  {
    hide Registered, Spaced;
    assert Published(w.s, i);
  }

  lemma EndKeepsGood<T>(w: World<T>, id: nat, outcome: Outcome<T>, ttl: real)
    requires Good(w, ttl) && Enabled(w, End(id, outcome))
    ensures Good(Next(w, End(id, outcome), ttl), ttl)
  {
    var s, s' := w.s, EndFetch(w.s, id, outcome, w.now);
    EndKeepsRegistered(s, id, outcome, w.now);
    EndKeepsCacheTold(s, id, outcome, w.now, ttl);
    hide CacheTold;
    forall i | 0 <= i < |s'.tasks|
      ensures Published(s', i)
    {
      EndKeepsPublished(w, id, outcome, i, ttl);
    }
    forall i, j | 0 <= i < j < |s'.tasks|
      ensures Spaced(s', i, j, ttl)
    {
      EndKeepsSpaced(s, id, outcome, w.now, i, j, ttl);
    }
    hide Registered, Spaced, Published;
  }

  lemma CallbackKeepsRegistered<T>(s: State<T>, id: nat)
    requires Registered(s) && id < |s.tasks| && s.tasks[id].phase.Ended?
    ensures Registered(DoneCallback(s, id))
  {
  }

  lemma CallbackKeepsGood<T>(w: World<T>, id: nat, ttl: real)
    requires Good(w, ttl) && Enabled(w, Callback(id))
    ensures Good(Next(w, Callback(id), ttl), ttl)
  {
    var s, s' := w.s, DoneCallback(w.s, id);
    CallbackKeepsRegistered(s, id);
    CallbackKeepsCacheTold(s, id);
    hide Registered, CacheTold;
    forall i | 0 <= i < |s'.tasks|
      ensures Published(s', i)
    {
      assert Published(s, i);
    }
    forall i, j | 0 <= i < j < |s'.tasks|
      ensures Spaced(s', i, j, ttl)
    {
      assert Spaced(s, i, j, ttl);
    }
  }

  lemma PassKeepsGood<T>(w: World<T>, dt: real, ttl: real)
    requires Good(w, ttl) && dt >= 0.0
    ensures Good(w.(now := w.now + dt), ttl)
  {
  }

  lemma {:induction false} ReachableIsGood<T>(steps: seq<Step<T>>, ttl: real)
    ensures Play(steps, ttl).Some? ==> Good(Play(steps, ttl).value, ttl)
  {
    if steps != [] && Play(steps, ttl).Some? {
      hide Good, Enabled, Request, EndFetch, DoneCallback;
      var n := |steps| - 1;
      ReachableIsGood(steps[..n], ttl);
      var w := Play(steps[..n], ttl).value;
      match steps[n]
      case Pass(dt) => PassKeepsGood(w, dt, ttl);
      case Call(key) => CallKeepsGood(w, key, ttl);
      case End(id, outcome) => EndKeepsGood(w, id, outcome, ttl);
      case Callback(id) => CallbackKeepsGood(w, id, ttl);
    }
  }

  // ----- What requests can rely on ----------------------------------------------------------------

  /** In every reachable state a key has at most one unfinished fetch. */
  lemma AtMostOneFetchPerKey<T>(steps: seq<Step<T>>, ttl: real, i: nat, j: nat)
    requires Play(steps, ttl).Some?
    requires var s := Play(steps, ttl).value.s; Unsettled(s, i) && Unsettled(s, j) && s.tasks[i].key == s.tasks[j].key
    ensures i == j
  {
    ReachableIsGood(steps, ttl);
  }

  /** A done-callback only ever removes its own task, and no other key's entry. */
  lemma CallbackRemovesOwnEntry<T>(steps: seq<Step<T>>, ttl: real, id: nat)
    requires Play(steps, ttl).Some? && Enabled(Play(steps, ttl).value, Callback(id))
    ensures var s := Play(steps, ttl).value.s;
      var s' := DoneCallback(s, id);
      && s.tasks[id].key in s.inflight && s.inflight[s.tasks[id].key] == id
      && (forall key :: key in s'.inflight <==> key in s.inflight && s.inflight[key] != id)
      && (forall key :: key in s'.inflight ==> s'.inflight[key] == s.inflight[key])
  {
    ReachableIsGood(steps, ttl);
    assert Unsettled(Play(steps, ttl).value.s, id);
  }

  /** Every request that arrives while a fetch of its key runs awaits that very fetch. */
  lemma ArrivalsShareTheFetch<T>(steps: seq<Step<T>>, ttl: real, id: nat)
    requires Play(steps, ttl).Some?
    requires var s := Play(steps, ttl).value.s; id < |s.tasks| && s.tasks[id].phase.Running?
    ensures var w := Play(steps, ttl).value;
      Request(w.s, w.s.tasks[id].key, w.now, ttl) == (w.s, Await(id))
  {
    ReachableIsGood(steps, ttl);
    assert Unsettled(Play(steps, ttl).value.s, id);
  }

  /** A request is answered from the cache exactly if a fetch of its key yielded a tick less than the ttl
      ago, and then with the tick of the last fetch that did. */
  lemma HitIsLastTick<T>(steps: seq<Step<T>>, ttl: real, key: string)
    requires Play(steps, ttl).Some?
    ensures var w := Play(steps, ttl).value;
      var answer := Request(w.s, key, w.now, ttl).1;
      && (answer.Hit? <==> exists id: nat :: Yields(w.s, id, key) && w.now - w.s.tasks[id].phase.at < ttl)
      && (answer.Hit? ==> exists id: nat ::
            LastYield(w.s, id, key) && answer == Hit(w.s.tasks[id].phase.outcome.tick)
            && w.now - w.s.tasks[id].phase.at < ttl)
  {
    ReachableIsGood(steps, ttl);
    var w := Play(steps, ttl).value;
    hide Play, Registered, Spaced;
    if CacheFresh(w.s, key, w.now, ttl) {
      var id: nat :| CachedFrom(w.s, id, key);
      assert Yields(w.s, id, key);
    }
    if exists id: nat :: Yields(w.s, id, key) && w.now - w.s.tasks[id].phase.at < ttl {
      var id: nat :| Yields(w.s, id, key) && w.now - w.s.tasks[id].phase.at < ttl;
      assert Published(w.s, id);
    }
  }

  // The fetch is the same one, and once it has ended its result stands.
  ghost predicate SameFetch<T>(t: Task<T>, u: Task<T>) {
    && t.key == u.key && t.start == u.start
    && (!t.phase.Running? ==>
          !u.phase.Running? && u.phase.outcome == t.phase.outcome && u.phase.at == t.phase.at)
  }

  lemma StepKeepsFetch<T>(w: World<T>, step: Step<T>, id: nat, ttl: real)
    requires Enabled(w, step) && id < |w.s.tasks|
    ensures id < |Next(w, step, ttl).s.tasks| && SameFetch(w.s.tasks[id], Next(w, step, ttl).s.tasks[id])
  {
  }

  /** The result of a fetch never changes once it has ended, however the run goes on: all who await the
      fetch, whenever they look, get that one result. */
  lemma {:induction false} OneResultPerFetch<T>(steps: seq<Step<T>>, more: seq<Step<T>>, ttl: real, id: nat)
    requires Play(steps + more, ttl).Some?
    ensures Play(steps, ttl).Some?
    ensures var before, after := Play(steps, ttl).value.s, Play(steps + more, ttl).value.s;
      id < |before.tasks| ==> id < |after.tasks| && SameFetch(before.tasks[id], after.tasks[id])
    decreases |more|
  {
    if more == [] {
      assert steps + more == steps;
    } else {
      hide Next, Enabled;
      var n := |more| - 1;
      assert (steps + more)[..|steps| + n] == steps + more[..n];
      OneResultPerFetch(steps, more[..n], ttl, id);
      var w := Play(steps + more[..n], ttl).value;
      if id < |w.s.tasks| {
        StepKeepsFetch(w, more[n], id, ttl);
      }
    }
  }

  /** After a fetch that yielded a tick at some time, no fetch of that key starts for a whole ttl. */
  lemma FetchesAreSpaced<T>(steps: seq<Step<T>>, ttl: real, i: nat, j: nat)
    requires Play(steps, ttl).Some?
    requires var s := Play(steps, ttl).value.s; i < j < |s.tasks| && s.tasks[i].key == s.tasks[j].key
    ensures var s := Play(steps, ttl).value.s;
      && s.tasks[i].phase.Settled? && s.tasks[i].phase.at <= s.tasks[j].start
      && (s.tasks[i].phase.outcome.Yielded? ==> s.tasks[j].start >= s.tasks[i].phase.at + ttl)
  {
    ReachableIsGood(steps, ttl);
    assert Spaced(Play(steps, ttl).value.s, i, j, ttl);
  }
}
