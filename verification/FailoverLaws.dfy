/** Which provider a cascade serves from, what it does to every breaker, and how often a dead provider
    is still called. A name may be listed twice; its two entries share one breaker. */
module FailoverLaws {
  import opened Wrappers
  import opened CircuitBreakers
  import opened Failover
  import BreakerRuns

  /** One fetch_quote call: what was asked, which providers were enabled then, how each would behave, and
      when the call began and ended. */
  datatype Round<T> = Round(req: Request, enabled: map<string, bool>, cs: seq<Conduct<T>>, begun: real, ended: real)

  ghost predicate Listed<T>(ps: seq<Provider>, bs: Breakers, r: Round<T>) {
    |r.cs| == |ps| && forall p :: p in ps ==> p.name in bs
  }

  ghost predicate DistinctNames(ps: seq<Provider>) {
    forall i, j :: 0 <= i < j < |ps| ==> ps[i].name != ps[j].name
  }

  // ----- One cascade -----------------------------------------------------------------------------

  /** What a call asks of a provider: not to be switched off, not to be delayed when an unforced call
      excludes delayed feeds, to be on the venue it is pinned to, and to match a source it forces. */
  predicate Allowed(p: Provider, enabled: map<string, bool>, req: Request) {
    && (p.name in enabled ==> enabled[p.name])
    && (req.excludeDelayed && req.source in {"", "auto"} ==> !p.delayed)
    && (req.exchange != "" ==> p.exchange == req.exchange)
    && (req.source !in {"", "auto"} ==> SourceMatch(p, req.source))
  }

  /** The filters of the cascade let through exactly the providers a call allows. */
  lemma AllowedIffEligible(p: Provider, enabled: map<string, bool>, req: Request)
    ensures Allowed(p, enabled, req) <==> Eligible(p, enabled, req)
  {
    hide SourceMatch;
  }

  // The provider passes every filter, its breaker admits it, it is reachable and has a tick.
  predicate CanServe<T>(p: Provider, b: Breaker, r: Round<T>, c: Conduct<T>, cfg: Config) {
    Allowed(p, r.enabled, r.req) && CanExecute(b, cfg, c.askedAt) && (c.connected || c.connects) && c.fetch.Ticked?
  }

  // Failures recorded by a turn that serves nothing.
  function FailuresRecorded<T>(p: Provider, b: Breaker, r: Round<T>, c: Conduct<T>, cfg: Config): nat {
    if !Allowed(p, r.enabled, r.req) || !CanExecute(b, cfg, c.askedAt) then 0
    else if (c.connected || c.connects) && c.fetch.OtherError? then 2
    else 1
  }

  // How a breaker stands after its provider had a turn and served nothing.
  ghost predicate LostTurn(before: Breaker, after: Breaker, recorded: nat) {
    && after.failures == before.failures + recorded
    && after.successes == before.successes
    && (recorded == 0 ==> after == before)
  }

  // A provider's breaker after its turn.
  function Left<T>(p: Provider, b: Breaker, r: Round<T>, c: Conduct<T>, cfg: Config): Breaker {
    if Allowed(p, r.enabled, r.req) then TakeTurn(b, cfg, c).0 else b
  }

  // The breakers when it is provider j's turn, if nobody before it has served.
  function BreakersAt<T>(ps: seq<Provider>, j: nat, bs: Breakers, r: Round<T>, cfg: Config): (at: Breakers)
    requires Listed(ps, bs, r) && j <= |ps|
    ensures at.Keys == bs.Keys
    decreases j
  {
    if j == 0 then bs
    else
      var before := BreakersAt(ps, j - 1, bs, r, cfg);
      assert ps[j - 1] in ps;
      before[ps[j - 1].name := Left(ps[j - 1], before[ps[j - 1].name], r, r.cs[j - 1], cfg)]
  }

  // The breaker provider j finds at its turn.
  function Own<T>(ps: seq<Provider>, j: nat, bs: Breakers, r: Round<T>, cfg: Config): Breaker
    requires Listed(ps, bs, r) && j < |ps|
  {
    assert ps[j] in ps;
    BreakersAt(ps, j, bs, r, cfg)[ps[j].name]
  }

  predicate Able<T>(ps: seq<Provider>, j: nat, bs: Breakers, r: Round<T>, cfg: Config)
    requires Listed(ps, bs, r) && j < |ps|
  {
    CanServe(ps[j], Own(ps, j, bs, r, cfg), r, r.cs[j], cfg)
  }

  // The first provider able to serve when its turn comes, or |ps|.
  function Server<T>(ps: seq<Provider>, i: nat, bs: Breakers, r: Round<T>, cfg: Config): (s: nat)
    requires Listed(ps, bs, r) && i <= |ps|
    ensures i <= s <= |ps|
    ensures s < |ps| ==> Able(ps, s, bs, r, cfg)
    ensures forall j :: i <= j < s ==> !Able(ps, j, bs, r, cfg)
    decreases |ps| - i
  {
    if i == |ps| || Able(ps, i, bs, r, cfg) then i else Server(ps, i + 1, bs, r, cfg)
  }

  lemma LosingTurn<T>(p: Provider, b: Breaker, r: Round<T>, c: Conduct<T>, cfg: Config)
    requires Positive(cfg) && Allowed(p, r.enabled, r.req)
    ensures TakeTurn(b, cfg, c).1.Served? <==> CanServe(p, b, r, c, cfg)
    ensures TakeTurn(b, cfg, c).1.Served? ==> c.fetch == Ticked(TakeTurn(b, cfg, c).1.tick)
    ensures !TakeTurn(b, cfg, c).1.Served? ==>
      LostTurn(b, TakeTurn(b, cfg, c).0, FailuresRecorded(p, b, r, c, cfg))
  {
  }

  lemma CascadeStep<T>(ps: seq<Provider>, i: nat, bs: Breakers, r: Round<T>, cfg: Config)
    requires Listed(ps, bs, r) && i < |ps| && Positive(cfg)
    ensures ps[i].name in bs
    ensures var mine := bs[ps[i].name];
      var left := Left(ps[i], mine, r, r.cs[i], cfg);
      if CanServe(ps[i], mine, r, r.cs[i], cfg) then
        Cascade(ps, i, bs, r.enabled, r.req, r.cs, cfg) == (bs[ps[i].name := left], Some(r.cs[i].fetch.tick))
      else
        && Cascade(ps, i, bs, r.enabled, r.req, r.cs, cfg)
           == Cascade(ps, i + 1, bs[ps[i].name := left], r.enabled, r.req, r.cs, cfg)
        && LostTurn(mine, left, FailuresRecorded(ps[i], mine, r, r.cs[i], cfg))
  {
    assert ps[i] in ps;
    var mine := bs[ps[i].name];
    AllowedIffEligible(ps[i], r.enabled, r.req);
    hide SourceMatch;
    if Allowed(ps[i], r.enabled, r.req) {
      LosingTurn(ps[i], mine, r, r.cs[i], cfg);
    } else {
      assert bs[ps[i].name := mine] == bs;
    }
  }

  // While nobody serves, the cascade moves on with the breakers left behind.
  lemma {:induction false} CascadeMovesOn<T>(ps: seq<Provider>, j: nat, bs: Breakers, r: Round<T>, cfg: Config)
    requires Listed(ps, bs, r) && j <= |ps| && Positive(cfg)
    requires forall k :: 0 <= k < j ==> !Able(ps, k, bs, r, cfg)
    ensures Cascade(ps, 0, bs, r.enabled, r.req, r.cs, cfg)
            == Cascade(ps, j, BreakersAt(ps, j, bs, r, cfg), r.enabled, r.req, r.cs, cfg)
  {
    if j > 0 {
      hide Cascade, Left, CanServe;
      CascadeMovesOn(ps, j - 1, bs, r, cfg);
      assert !Able(ps, j - 1, bs, r, cfg);
      CascadeStep(ps, j - 1, BreakersAt(ps, j - 1, bs, r, cfg), r, cfg);
    }
  }

  // How many providers get a turn: all up to the one that serves.
  function Turns<T>(ps: seq<Provider>, bs: Breakers, r: Round<T>, cfg: Config): (n: nat)
    requires Listed(ps, bs, r)
    ensures n <= |ps|
  {
    var s := Server(ps, 0, bs, r, cfg);
    if s < |ps| then s + 1 else s
  }

  /** A cascade lets the first provider able to serve do so, each judged by its breaker as it stands when
      its turn comes. Every provider before it leaves its breaker with no failure more, one, or two for an
      unexpected error; no other breaker changes. */
  lemma CascadeMeaning<T>(ps: seq<Provider>, bs: Breakers, r: Round<T>, cfg: Config)
    requires Listed(ps, bs, r) && Positive(cfg)
    ensures var s := Server(ps, 0, bs, r, cfg);
      && Cascade(ps, 0, bs, r.enabled, r.req, r.cs, cfg)
         == (BreakersAt(ps, Turns(ps, bs, r, cfg), bs, r, cfg), if s < |ps| then Some(r.cs[s].fetch.tick) else None)
      && (forall j :: 0 <= j < s ==>
            var at, next := BreakersAt(ps, j, bs, r, cfg), BreakersAt(ps, j + 1, bs, r, cfg);
            && ps[j].name in bs
            && next == at[ps[j].name := next[ps[j].name]]
            && LostTurn(at[ps[j].name], next[ps[j].name],
                        FailuresRecorded(ps[j], at[ps[j].name], r, r.cs[j], cfg)))
      && (forall name :: name in bs && (forall j :: 0 <= j < Turns(ps, bs, r, cfg) ==> ps[j].name != name) ==>
            BreakersAt(ps, Turns(ps, bs, r, cfg), bs, r, cfg)[name] == bs[name])
  {
    hide Cascade, Left, CanServe, LostTurn, FailuresRecorded, Server, BreakersAt;
    var s := Server(ps, 0, bs, r, cfg);
    CascadeMovesOn(ps, s, bs, r, cfg);
    if s < |ps| {
      CascadeStep(ps, s, BreakersAt(ps, s, bs, r, cfg), r, cfg);
      NextBreakers(ps, s, bs, r, cfg);
      assert Able(ps, s, bs, r, cfg);
    } else {
      NobodyLeft(ps, BreakersAt(ps, s, bs, r, cfg), r, cfg);
    }
    forall j | 0 <= j < s
      ensures var at, next := BreakersAt(ps, j, bs, r, cfg), BreakersAt(ps, j + 1, bs, r, cfg);
        && ps[j].name in bs
        && next == at[ps[j].name := next[ps[j].name]]
        && LostTurn(at[ps[j].name], next[ps[j].name],
                    FailuresRecorded(ps[j], at[ps[j].name], r, r.cs[j], cfg))
    {
      assert !Able(ps, j, bs, r, cfg);
      CascadeStep(ps, j, BreakersAt(ps, j, bs, r, cfg), r, cfg);
      NextBreakers(ps, j, bs, r, cfg);
    }
    forall name | name in bs && (forall j :: 0 <= j < Turns(ps, bs, r, cfg) ==> ps[j].name != name)
      ensures BreakersAt(ps, Turns(ps, bs, r, cfg), bs, r, cfg)[name] == bs[name]
    {
      OthersKept(ps, Turns(ps, bs, r, cfg), name, bs, r, cfg);
    }
  }

  lemma NextBreakers<T>(ps: seq<Provider>, j: nat, bs: Breakers, r: Round<T>, cfg: Config)
    requires Listed(ps, bs, r) && j < |ps|
    ensures var at := BreakersAt(ps, j, bs, r, cfg);
      && ps[j].name in at
      && BreakersAt(ps, j + 1, bs, r, cfg) == at[ps[j].name := Left(ps[j], at[ps[j].name], r, r.cs[j], cfg)]
  {
    assert ps[j] in ps;
  }

  lemma NobodyLeft<T>(ps: seq<Provider>, bs: Breakers, r: Round<T>, cfg: Config)
    requires Listed(ps, bs, r)
    ensures Cascade(ps, |ps|, bs, r.enabled, r.req, r.cs, cfg) == (bs, None)
  {
  }

  lemma {:induction false} OthersKept<T>(ps: seq<Provider>, j: nat, name: string, bs: Breakers, r: Round<T>,
                                         cfg: Config)
    requires Listed(ps, bs, r) && j <= |ps| && name in bs && forall k :: 0 <= k < j ==> ps[k].name != name
    ensures BreakersAt(ps, j, bs, r, cfg)[name] == bs[name]
  {
    if j > 0 {
      hide Left;
      OthersKept(ps, j - 1, name, bs, r, cfg);
    }
  }

  // ----- A turn is a run of the breaker -----------------------------------------------------------

  // The steps of the breaker's state machine that a turn consists of.
  function TurnSteps<T>(w: BreakerRuns.World, cfg: Config, c: Conduct<T>): seq<BreakerRuns.Step> {
    var asked := [BreakerRuns.Tick(c.askedAt - w.now), BreakerRuns.Probe];
    var v := BreakerRuns.Play(w, asked, cfg);
    var call := if v.b.state == HalfOpen then v.epoch else 0;
    if !CanExecute(v.b, cfg, v.now) then asked
    else if !c.connected && !c.connects then
      asked + [BreakerRuns.Tick(c.connectAt - c.askedAt), BreakerRuns.ExternalFailure]
    else
      asked + [BreakerRuns.Tick(c.startAt - c.askedAt), BreakerRuns.Start]
      + [BreakerRuns.Tick(c.endAt - c.startAt), BreakerRuns.Finish(call, c.fetch.Ticked?)]
      + if c.fetch.OtherError? then [BreakerRuns.ExternalFailure] else []
  }

  /** What a turn does to a breaker is a run of its state machine: a look at it, then a failed connect told
      from outside, or a call that starts and ends, an unexpected error being told once more. */
  lemma TurnIsRun<T>(w: BreakerRuns.World, cfg: Config, c: Conduct<T>)
    requires Positive(cfg)
    ensures TakeTurn(w.b, cfg, c).0 == BreakerRuns.Play(w, TurnSteps(w, cfg, c), cfg).b
  {
    hide BreakerRuns.Play, BreakerRuns.Next, Fail, Succeed, Admit, Observe, TakeTurn, CanExecute;
    var asked := [BreakerRuns.Tick(c.askedAt - w.now), BreakerRuns.Probe];
    var v := BreakerRuns.Play(w, asked, cfg);
    Asked(w, cfg, c);
    TurnAfterAsking(w.b, cfg, c);
    if CanExecute(v.b, cfg, v.now) {
      if !c.connected && !c.connects {
        BreakerRuns.TickThen(w, asked, c.connectAt, BreakerRuns.ExternalFailure, cfg);
      } else {
        CallIsRun(w, asked, cfg, c);
      }
    }
  }

  lemma Asked<T>(w: BreakerRuns.World, cfg: Config, c: Conduct<T>)
    ensures var v := BreakerRuns.Play(w, [BreakerRuns.Tick(c.askedAt - w.now), BreakerRuns.Probe], cfg);
      v.b == Observe(w.b, cfg, c.askedAt) && v.now == c.askedAt
  {
    BreakerRuns.TickThen(w, [], c.askedAt, BreakerRuns.Probe, cfg);
    assert [] + [BreakerRuns.Tick(c.askedAt - w.now), BreakerRuns.Probe]
           == [BreakerRuns.Tick(c.askedAt - w.now), BreakerRuns.Probe];
    assert BreakerRuns.Play(w, [], cfg) == w;
    hide BreakerRuns.Play;
  }

  // A turn in terms of the breaker as its first look leaves it.
  lemma TurnAfterAsking<T>(b: Breaker, cfg: Config, c: Conduct<T>)
    ensures var v := Observe(b, cfg, c.askedAt);
      && (CanExecute(v, cfg, c.askedAt) ==> v.state != Open)
      && TakeTurn(b, cfg, c).0
         == if !CanExecute(v, cfg, c.askedAt) then v
            else if !c.connected && !c.connects then Fail(v, cfg, c.connectAt)
            else
              var started := Admit(v, cfg, c.startAt);
              match c.fetch
              case Ticked(_) => Succeed(started, cfg)
              case ProviderError => Fail(started, cfg, c.endAt)
              case OtherError => Fail(Fail(started, cfg, c.endAt), cfg, c.endAt)
  {
    hide Fail, Succeed;
  }

  // The call itself, after an admission that still stands when it starts.
  lemma CallIsRun<T>(w: BreakerRuns.World, asked: seq<BreakerRuns.Step>, cfg: Config, c: Conduct<T>)
    requires var v := BreakerRuns.Play(w, asked, cfg);
      v.now == c.askedAt && v.b.state != Open && CanExecute(v.b, cfg, v.now)
    ensures var v := BreakerRuns.Play(w, asked, cfg);
      var call := if v.b.state == HalfOpen then v.epoch else 0;
      var steps := asked + [BreakerRuns.Tick(c.startAt - c.askedAt), BreakerRuns.Start]
        + [BreakerRuns.Tick(c.endAt - c.startAt), BreakerRuns.Finish(call, c.fetch.Ticked?)]
        + if c.fetch.OtherError? then [BreakerRuns.ExternalFailure] else [];
      BreakerRuns.Play(w, steps, cfg).b
      == var started := Admit(v.b, cfg, c.startAt);
         match c.fetch
         case Ticked(_) => Succeed(started, cfg)
         case ProviderError => Fail(started, cfg, c.endAt)
         case OtherError => Fail(Fail(started, cfg, c.endAt), cfg, c.endAt)
  {
    hide BreakerRuns.Play, Succeed, Fail;
    var v := BreakerRuns.Play(w, asked, cfg);
    var call := if v.b.state == HalfOpen then v.epoch else 0;
    var started := asked + [BreakerRuns.Tick(c.startAt - c.askedAt), BreakerRuns.Start];
    var ended := started + [BreakerRuns.Tick(c.endAt - c.startAt), BreakerRuns.Finish(call, c.fetch.Ticked?)];
    BreakerRuns.TickThen(w, asked, c.startAt, BreakerRuns.Start, cfg);
    BreakerRuns.TickThen(w, started, c.endAt, BreakerRuns.Finish(call, c.fetch.Ticked?), cfg);
    BreakerRuns.PlaySnoc(w, ended, BreakerRuns.ExternalFailure, cfg);
    BreakerRuns.NextBreaker(BreakerRuns.Play(w, ended, cfg), BreakerRuns.ExternalFailure, cfg);
    hide BreakerRuns.Next;
    assert ended + [] == ended;
  }

  // Provider s can serve when its turn comes, nobody before it in priority order can.
  ghost predicate IsBest<T>(ps: seq<Provider>, s: nat, bs: Breakers, r: Round<T>, cfg: Config)
    requires Listed(ps, bs, r)
  {
    && s < |ps| && Able(ps, s, bs, r, cfg)
    && forall j :: 0 <= j < |ps| && j != s && Able(ps, j, bs, r, cfg) ==> s < j && Before(ps[s], ps[j])
  }

  /** A cascade returns the tick of the first provider, in priority order, that the call
      allows, that its breaker admits, that can be reached and that has a tick; it raises exactly when there
      is none. Where no name is listed twice, being admitted is a matter of the breakers it started with. */
  lemma CascadeServesFirst<T>(ps: seq<Provider>, bs: Breakers, r: Round<T>, cfg: Config)
    requires Listed(ps, bs, r) && InOrder(ps) && Positive(cfg)
    ensures var tick := Cascade(ps, 0, bs, r.enabled, r.req, r.cs, cfg).1;
      && (tick.None? <==> forall j :: 0 <= j < |ps| ==>
            var c := r.cs[j];
            !(&& Allowed(ps[j], r.enabled, r.req) && CanExecute(Own(ps, j, bs, r, cfg), cfg, c.askedAt)
              && (c.connected || c.connects) && c.fetch.Ticked?))
      && (tick.Some? ==> exists s: nat :: IsBest(ps, s, bs, r, cfg) && r.cs[s].fetch.tick == tick.value)
    ensures DistinctNames(ps) ==>
      forall j :: 0 <= j < |ps| ==> ps[j].name in bs && Own(ps, j, bs, r, cfg) == bs[ps[j].name]
  {
    hide Before, BreakersAt, LostTurn, Allowed;
    CascadeMeaning(ps, bs, r, cfg);
    var s := Server(ps, 0, bs, r, cfg);
    assert forall j :: 0 <= j < |ps| && Able(ps, j, bs, r, cfg) ==> s <= j;
    forall j | 0 <= j < |ps|
      ensures Able(ps, j, bs, r, cfg) <==>
        var c := r.cs[j];
        && Allowed(ps[j], r.enabled, r.req) && CanExecute(Own(ps, j, bs, r, cfg), cfg, c.askedAt)
        && (c.connected || c.connects) && c.fetch.Ticked?
    {
    }
    if s < |ps| {
      assert Able(ps, s, bs, r, cfg);
      assert IsBest(ps, s, bs, r, cfg);
    }
    if DistinctNames(ps) {
      forall j | 0 <= j < |ps|
        ensures ps[j].name in bs && Own(ps, j, bs, r, cfg) == bs[ps[j].name]
      {
        assert ps[j] in ps;
        OthersKept(ps, j, ps[j].name, bs, r, cfg);
      }
    }
  }

  /** A namesake's failure can cost a provider its turn: listed twice behind one breaker that is a failure
      short of opening, the cascade raises although the second entry would have been admitted at first. */
  lemma NamesakeSpoilsTurn<T>(p: Provider, tick: T, cfg: Config)
    requires Positive(cfg) && !p.delayed
    ensures var b := FRESH.(failures := cfg.threshold - 1);
      var fails := Conduct(true, true, ProviderError, 0.0, 0.0, 0.0, 0.0);
      var r := Round(Request("", true, ""), map[], [fails, fails.(fetch := Ticked(tick))], 0.0, 0.0);
      && CanServe(p, b, r, r.cs[1], cfg)
      && Cascade([p, p], 0, map[p.name := b], r.enabled, r.req, r.cs, cfg).1 == None
  {
    var b := FRESH.(failures := cfg.threshold - 1);
    var fails := Conduct(true, true, ProviderError, 0.0, 0.0, 0.0, 0.0);
    var r := Round(Request("", true, ""), map[], [fails, fails.(fetch := Ticked(tick))], 0.0, 0.0);
    var bs := map[p.name := b];
    var tripped := b.(state := Open, failures := cfg.threshold);
    assert Left(p, b, r, fails, cfg) == tripped;
    CascadeStep([p, p], 0, bs, r, cfg);
    var bs' := bs[p.name := tripped];
    CascadeStep([p, p], 1, bs', r, cfg);
    NobodyLeft([p, p], bs'[p.name := Left(p, tripped, r, r.cs[1], cfg)], r, cfg);
    hide Cascade;
  }

  /** The provider that answers is never a delayed one when those are excluded, never off the venue a call
      is pinned to, never off a forced source, and never disabled. */
  lemma CascadeRespectsFilters<T>(ps: seq<Provider>, bs: Breakers, r: Round<T>, cfg: Config)
    requires Listed(ps, bs, r) && Positive(cfg)
    ensures var tick, s := Cascade(ps, 0, bs, r.enabled, r.req, r.cs, cfg).1, Server(ps, 0, bs, r, cfg);
      tick.Some? ==> s < |ps| && r.cs[s].fetch == Ticked(tick.value) && Allowed(ps[s], r.enabled, r.req)
  {
    hide BreakersAt, LostTurn, SourceMatch;
    CascadeMeaning(ps, bs, r, cfg);
    var s := Server(ps, 0, bs, r, cfg);
    if s < |ps| {
      assert Able(ps, s, bs, r, cfg);
    }
  }

  // ----- Load on a dead provider ---------------------------------------------------------------

  // A provider all of whose calls fail; times within one turn do not go back.
  ghost predicate Dead<T>(c: Conduct<T>) {
    !c.fetch.Ticked? && c.askedAt <= c.connectAt <= c.startAt <= c.endAt
  }

  // Turns one after the other, all within [from, until].
  ghost predicate InTurn<T>(cs: seq<Conduct<T>>, from: real, until: real) {
    && from <= until
    && (cs != [] ==>
          && Dead(cs[0]) && from <= cs[0].askedAt && cs[0].endAt <= until
          && InTurn(cs[1..], cs[0].endAt, until))
  }

  function AfterTurns<T>(b: Breaker, cfg: Config, cs: seq<Conduct<T>>): Breaker
    decreases |cs|
  {
    if cs == [] then b else AfterTurns(TakeTurn(b, cfg, cs[0]).0, cfg, cs[1..])
  }

  // The provider itself was reached: asked to connect, or to fetch.
  predicate Loads<T>(turn: Turn<T>) {
    turn.ConnectFailed? || turn.Failed? || turn.Served?
  }

  // How many turns reached the provider itself.
  function Calls<T>(b: Breaker, cfg: Config, cs: seq<Conduct<T>>): nat
    decreases |cs|
  {
    if cs == [] then 0
    else
      var turn := TakeTurn(b, cfg, cs[0]);
      (if Loads(turn.1) then 1 else 0) + Calls(turn.0, cfg, cs[1..])
  }

  // What a breaker may look like between turns at time t.
  ghost predicate Settled(b: Breaker, cfg: Config, t: real) {
    && b.lastFailure <= t
    && (b.state == Closed ==> 0 <= b.failures < cfg.threshold)
  }

  // n recovery timeouts.
  function Timeouts(n: int, cfg: Config): real {
    n as real * cfg.timeout
  }

  lemma TimeoutsAdd(n: int, cfg: Config)
    requires Positive(cfg)
    ensures Timeouts(n, cfg) == Timeouts(n - 1, cfg) + cfg.timeout
    ensures n >= 0 ==> Timeouts(n, cfg) >= 0.0
    ensures Timeouts(0, cfg) == 0.0
  {
  }

  // Calls the breaker can still let through until `until`, measured in recovery timeouts.
  function Allowance(b: Breaker, cfg: Config, t: real, until: real): real {
    match b.state
    case Closed => Timeouts(cfg.threshold - b.failures, cfg) + (until - t)
    case HalfOpen => cfg.timeout + (until - t)
    case Open => until - b.lastFailure
  }

  lemma TurnSpendsAllowance<T>(b: Breaker, cfg: Config, c: Conduct<T>, t: real, until: real)
    requires Positive(cfg) && Settled(b, cfg, t) && Dead(c) && t <= c.askedAt && c.endAt <= until
    ensures var turn := TakeTurn(b, cfg, c);
      && Settled(turn.0, cfg, c.endAt)
      && Allowance(turn.0, cfg, c.endAt, until) >= 0.0
      && (Loads(turn.1) ==> Allowance(turn.0, cfg, c.endAt, until) <= Allowance(b, cfg, t, until) - cfg.timeout)
      && (!Loads(turn.1) ==> Allowance(turn.0, cfg, c.endAt, until) <= Allowance(b, cfg, t, until))
      && !turn.1.Served?
  {
    hide Timeouts;
    var k := cfg.threshold - b.failures;
    TimeoutsAdd(k, cfg);
    TimeoutsAdd(k - 1, cfg);
    TimeoutsAdd(k - 2, cfg);
  }

  lemma {:induction false} CallsWithinAllowance<T>(b: Breaker, cfg: Config, cs: seq<Conduct<T>>, t: real, until: real)
    requires Positive(cfg) && Settled(b, cfg, t) && InTurn(cs, t, until)
    ensures cs == [] || Timeouts(Calls(b, cfg, cs), cfg) <= Allowance(b, cfg, t, until)
    decreases |cs|
  {
    if cs != [] {
      hide Timeouts, TakeTurn, Allowance;
      var turn := TakeTurn(b, cfg, cs[0]);
      TurnSpendsAllowance(b, cfg, cs[0], t, until);
      CallsWithinAllowance(turn.0, cfg, cs[1..], cs[0].endAt, until);
      var rest := Calls(turn.0, cfg, cs[1..]);
      TimeoutsAdd(rest, cfg);
      TimeoutsAdd(rest + 1, cfg);
      TimeoutsAdd(0, cfg);
    }
  }

  lemma TimeoutsToFloor(n: int, span: real, cfg: Config)
    requires Positive(cfg) && Timeouts(n, cfg) <= span
    ensures n <= (span / cfg.timeout).Floor
  {
    var q := span / cfg.timeout;
    assert q * cfg.timeout == span;
    assert n as real > q ==> n as real * cfg.timeout > q * cfg.timeout;
  }

  lemma {:induction false} TimeoutsSplit(n: nat, m: int, cfg: Config)
    requires Positive(cfg)
    ensures Timeouts(m, cfg) == Timeouts(m - n, cfg) + Timeouts(n, cfg)
  {
  }

  // An open breaker first has to let one call through.
  lemma {:induction false} CallsFromOpen<T>(b: Breaker, cfg: Config, cs: seq<Conduct<T>>, t: real, until: real)
    requires Positive(cfg) && Settled(b, cfg, t) && b.state == Open && InTurn(cs, t, until)
    ensures Timeouts(Calls(b, cfg, cs), cfg) <= cfg.timeout + (until - t)
    decreases |cs|
  {
    hide Timeouts;
    TimeoutsAdd(0, cfg);
    if cs != [] {
      TurnFacts(b, cfg, cs[0]);
      var turn := TakeTurn(b, cfg, cs[0]);
      TurnSpendsAllowance(b, cfg, cs[0], t, until);
      if turn.1.Skipped? {
        CallsFromOpen(b, cfg, cs[1..], cs[0].endAt, until);
      } else {
        var rest := Calls(turn.0, cfg, cs[1..]);
        CallsWithinAllowance(turn.0, cfg, cs[1..], cs[0].endAt, until);
        TimeoutsAdd(rest + 1, cfg);
        assert Allowance(turn.0, cfg, cs[0].endAt, until) <= until - t;
      }
    }
  }

  // The bound for the turns of one provider, from any settled state.
  lemma DeadProviderLoad<T>(b: Breaker, cfg: Config, cs: seq<Conduct<T>>, from: real, until: real)
    requires Positive(cfg) && Settled(b, cfg, from) && InTurn(cs, from, until)
    ensures Calls(b, cfg, cs) <= cfg.threshold + ((until - from) / cfg.timeout).Floor
  {
    hide Timeouts;
    var n := Calls(b, cfg, cs);
    TimeoutsSplit(cfg.threshold, n, cfg);
    TimeoutsSplit(1, cfg.threshold, cfg);
    TimeoutsAdd(cfg.threshold - 1, cfg);
    TimeoutsAdd(1, cfg);
    TimeoutsAdd(0, cfg);
    if b.state == Open {
      CallsFromOpen(b, cfg, cs, from, until);
    } else {
      CallsWithinAllowance(b, cfg, cs, from, until);
      if b.state == Closed {
        TimeoutsSplit(b.failures, cfg.threshold, cfg);
        TimeoutsAdd(b.failures, cfg);
      }
    }
    TimeoutsToFloor(if cs == [] then 0 else n - cfg.threshold, until - from, cfg);
  }

  // ----- Load over whole runs of cascades ---------------------------------------------------------

  lemma {:induction false} CallsConcat<T>(b: Breaker, cfg: Config, cs: seq<Conduct<T>>, more: seq<Conduct<T>>)
    ensures AfterTurns(b, cfg, cs + more) == AfterTurns(AfterTurns(b, cfg, cs), cfg, more)
    ensures Calls(b, cfg, cs + more) == Calls(b, cfg, cs) + Calls(AfterTurns(b, cfg, cs), cfg, more)
    decreases |cs|
  {
    if cs == [] {
      assert cs + more == more;
    } else {
      hide TakeTurn, Loads;
      assert (cs + more)[1..] == cs[1..] + more;
      CallsConcat(TakeTurn(b, cfg, cs[0]).0, cfg, cs[1..], more);
    }
  }

  // How the first j entries behave that bear the name and pass the filters.
  function Given<T>(ps: seq<Provider>, j: nat, name: string, r: Round<T>): seq<Conduct<T>>
    requires j <= |ps| == |r.cs|
  {
    if j == 0 then []
    else
      var before := Given(ps, j - 1, name, r);
      if ps[j - 1].name == name && Allowed(ps[j - 1], r.enabled, r.req) then before + [r.cs[j - 1]] else before
  }

  // How many of the first j turns reach the provider of this name itself.
  function LoadOfTurns<T>(ps: seq<Provider>, j: nat, name: string, bs: Breakers, r: Round<T>, cfg: Config): nat
    requires Listed(ps, bs, r) && j <= |ps|
  {
    if j == 0 then 0
    else
      var reached := ps[j - 1].name == name && Allowed(ps[j - 1], r.enabled, r.req)
                     && Loads(TakeTurn(Own(ps, j - 1, bs, r, cfg), cfg, r.cs[j - 1]).1);
      LoadOfTurns(ps, j - 1, name, bs, r, cfg) + if reached then 1 else 0
  }

  lemma OneMoreTurn<T>(b: Breaker, cfg: Config, cs: seq<Conduct<T>>, c: Conduct<T>)
    ensures AfterTurns(b, cfg, cs + [c]) == TakeTurn(AfterTurns(b, cfg, cs), cfg, c).0
    ensures Calls(b, cfg, cs + [c])
            == Calls(b, cfg, cs) + if Loads(TakeTurn(AfterTurns(b, cfg, cs), cfg, c).1) then 1 else 0
  {
    hide TakeTurn, Loads;
    CallsConcat(b, cfg, cs, [c]);
    assert [c][1..] == [];
  }

  lemma {:induction false} BreakerTakesItsTurns<T>(ps: seq<Provider>, j: nat, name: string, bs: Breakers, r: Round<T>,
                                                   cfg: Config)
    requires Listed(ps, bs, r) && j <= |ps| && name in bs
    ensures BreakersAt(ps, j, bs, r, cfg)[name] == AfterTurns(bs[name], cfg, Given(ps, j, name, r))
    ensures LoadOfTurns(ps, j, name, bs, r, cfg) == Calls(bs[name], cfg, Given(ps, j, name, r))
  {
    if j > 0 {
      hide TakeTurn, Loads, Allowed, AfterTurns, Calls;
      BreakerTakesItsTurns(ps, j - 1, name, bs, r, cfg);
      OneMoreTurn(bs[name], cfg, Given(ps, j - 1, name, r), r.cs[j - 1]);
    }
  }

  ghost predicate Fits<T>(ps: seq<Provider>, bs: Breakers, rounds: seq<Round<T>>) {
    forall r :: r in rounds ==> Listed(ps, bs, r)
  }

  function AfterRound<T>(ps: seq<Provider>, bs: Breakers, r: Round<T>, cfg: Config): Breakers
    requires Listed(ps, bs, r)
  {
    Cascade(ps, 0, bs, r.enabled, r.req, r.cs, cfg).0
  }

  lemma FitsNext<T>(ps: seq<Provider>, bs: Breakers, rounds: seq<Round<T>>, cfg: Config)
    requires rounds != [] && Fits(ps, bs, rounds) && Positive(cfg)
    ensures rounds[0] in rounds && AfterRound(ps, bs, rounds[0], cfg).Keys == bs.Keys
    ensures AfterRound(ps, bs, rounds[0], cfg)
            == BreakersAt(ps, Turns(ps, bs, rounds[0], cfg), bs, rounds[0], cfg)
    ensures Fits(ps, AfterRound(ps, bs, rounds[0], cfg), rounds[1..])
  {
    hide LostTurn, BreakersAt, Cascade;
    assert rounds[0] in rounds;
    CascadeMeaning(ps, bs, rounds[0], cfg);
    var after := AfterRound(ps, bs, rounds[0], cfg);
    forall r | r in rounds[1..]
      ensures Listed(ps, after, r)
    {
      assert r in rounds;
    }
  }

  // The breakers after a run of fetch_quote calls.
  function AfterRounds<T>(ps: seq<Provider>, bs: Breakers, rounds: seq<Round<T>>, cfg: Config): Breakers
    requires Fits(ps, bs, rounds) && Positive(cfg)
    decreases |rounds|
  {
    if rounds == [] then bs
    else
      FitsNext(ps, bs, rounds, cfg);
      AfterRounds(ps, AfterRound(ps, bs, rounds[0], cfg), rounds[1..], cfg)
  }

  // How many turns of the run reach the provider of this name itself.
  function LoadOn<T>(ps: seq<Provider>, name: string, bs: Breakers, rounds: seq<Round<T>>, cfg: Config): nat
    requires Fits(ps, bs, rounds) && Positive(cfg)
    decreases |rounds|
  {
    if rounds == [] then 0
    else
      FitsNext(ps, bs, rounds, cfg);
      var r := rounds[0];
      LoadOfTurns(ps, Turns(ps, bs, r, cfg), name, bs, r, cfg)
      + LoadOn(ps, name, AfterRound(ps, bs, r, cfg), rounds[1..], cfg)
  }

  // How the provider of this name behaves in the turns it is given.
  function TurnsGiven<T>(ps: seq<Provider>, name: string, bs: Breakers, rounds: seq<Round<T>>, cfg: Config)
    : seq<Conduct<T>>
    requires Fits(ps, bs, rounds) && Positive(cfg)
    decreases |rounds|
  {
    if rounds == [] then []
    else
      FitsNext(ps, bs, rounds, cfg);
      var r := rounds[0];
      Given(ps, Turns(ps, bs, r, cfg), name, r) + TurnsGiven(ps, name, AfterRound(ps, bs, r, cfg), rounds[1..], cfg)
  }

  /** In a run of cascades a breaker goes through exactly the turns given to the entries of its name, and
      nothing else touches it. */
  lemma {:induction false} RunIsItsTurns<T>(ps: seq<Provider>, name: string, bs: Breakers, rounds: seq<Round<T>>,
                                            cfg: Config)
    requires Positive(cfg) && Fits(ps, bs, rounds) && name in bs
    ensures name in AfterRounds(ps, bs, rounds, cfg)
    ensures AfterRounds(ps, bs, rounds, cfg)[name] == AfterTurns(bs[name], cfg, TurnsGiven(ps, name, bs, rounds, cfg))
    ensures LoadOn(ps, name, bs, rounds, cfg) == Calls(bs[name], cfg, TurnsGiven(ps, name, bs, rounds, cfg))
    decreases |rounds|
  {
    if rounds != [] {
      hide TakeTurn, Cascade, Loads, Fits, BreakersAt, Turns, Given, LoadOfTurns;
      var r := rounds[0];
      FitsNext(ps, bs, rounds, cfg);
      assert Listed(ps, bs, r) by {
        FirstFits(ps, bs, rounds);
      }
      var turns := Given(ps, Turns(ps, bs, r, cfg), name, r);
      var next := AfterRound(ps, bs, r, cfg);
      BreakerTakesItsTurns(ps, Turns(ps, bs, r, cfg), name, bs, r, cfg);
      RunIsItsTurns(ps, name, next, rounds[1..], cfg);
      CallsConcat(bs[name], cfg, turns, TurnsGiven(ps, name, next, rounds[1..], cfg));
    }
  }

  lemma FirstFits<T>(ps: seq<Provider>, bs: Breakers, rounds: seq<Round<T>>)
    requires rounds != [] && Fits(ps, bs, rounds)
    ensures Listed(ps, bs, rounds[0])
  {
    assert rounds[0] in rounds;
  }

  // All entries of the name would fail in this round, in turn.
  ghost predicate DownIn<T>(ps: seq<Provider>, name: string, r: Round<T>) {
    && |r.cs| == |ps| && r.begun <= r.ended
    && (forall j :: 0 <= j < |ps| && ps[j].name == name ==>
          Dead(r.cs[j]) && r.begun <= r.cs[j].askedAt && r.cs[j].endAt <= r.ended)
    && (forall j, k :: 0 <= j < k < |ps| && ps[j].name == ps[k].name == name ==> r.cs[j].endAt <= r.cs[k].askedAt)
  }

  // One call after the other within [from, until], in all of which the provider of this name would fail.
  ghost predicate DownDuring<T>(ps: seq<Provider>, name: string, rounds: seq<Round<T>>, from: real, until: real)
    decreases |rounds|
  {
    && from <= until
    && (rounds != [] ==>
          var r := rounds[0];
          && DownIn(ps, name, r) && from <= r.begun && r.ended <= until
          && DownDuring(ps, name, rounds[1..], r.ended, until))
  }

  lemma {:induction false} InTurnConcat<T>(cs: seq<Conduct<T>>, more: seq<Conduct<T>>, from: real, mid: real,
                                           until: real)
    requires InTurn(cs, from, mid) && InTurn(more, mid, until)
    ensures InTurn(cs + more, from, until)
    decreases |cs|
  {
    if cs == [] {
      assert cs + more == more;
    } else {
      assert (cs + more)[1..] == cs[1..] + more;
      InTurnConcat(cs[1..], more, cs[0].endAt, mid, until);
    }
  }

  lemma {:induction false} GivenInTurn<T>(ps: seq<Provider>, j: nat, name: string, r: Round<T>, until: real)
    requires DownIn(ps, name, r) && j <= |ps| && r.begun <= until
    requires forall k :: 0 <= k < j && ps[k].name == name ==> r.cs[k].endAt <= until
    ensures InTurn(Given(ps, j, name, r), r.begun, until)
  {
    if j > 0 {
      hide Allowed;
      var c := r.cs[j - 1];
      if ps[j - 1].name == name && Allowed(ps[j - 1], r.enabled, r.req) {
        GivenInTurn(ps, j - 1, name, r, c.askedAt);
        assert [c][1..] == [];
        InTurnConcat(Given(ps, j - 1, name, r), [c], r.begun, c.askedAt, until);
      } else {
        GivenInTurn(ps, j - 1, name, r, until);
      }
    }
  }

  lemma {:induction false} TurnsGivenInTurn<T>(ps: seq<Provider>, name: string, bs: Breakers, rounds: seq<Round<T>>,
                                               from: real, until: real, cfg: Config)
    requires Fits(ps, bs, rounds) && DownDuring(ps, name, rounds, from, until) && Positive(cfg)
    ensures InTurn(TurnsGiven(ps, name, bs, rounds, cfg), from, until)
    decreases |rounds|
  {
    if rounds != [] {
      hide TakeTurn, Cascade, Fits, BreakersAt, Turns, Given;
      var r := rounds[0];
      FirstFits(ps, bs, rounds);
      FitsNext(ps, bs, rounds, cfg);
      var turns := Given(ps, Turns(ps, bs, r, cfg), name, r);
      var next := AfterRound(ps, bs, r, cfg);
      GivenInTurn(ps, Turns(ps, bs, r, cfg), name, r, r.ended);
      StartEarlier(turns, r.begun, from, r.ended);
      TurnsGivenInTurn(ps, name, next, rounds[1..], r.ended, until, cfg);
      InTurnConcat(turns, TurnsGiven(ps, name, next, rounds[1..], cfg), from, r.ended, until);
    }
  }

  lemma StartEarlier<T>(cs: seq<Conduct<T>>, from: real, earlier: real, until: real)
    requires InTurn(cs, from, until) && earlier <= from
    ensures InTurn(cs, earlier, until)
  {
  }

  /** In any run of fetch_quote calls, whatever they ask for, whichever sources are switched on and off in
      between and however the other providers fare: a provider that is down for a stretch of length T is
      connected to or called at most threshold + floor(T / timeout) times, also if it is listed twice. */
  lemma DeadProviderLoadInRun<T>(ps: seq<Provider>, name: string, bs: Breakers, rounds: seq<Round<T>>,
                                 from: real, until: real, cfg: Config)
    requires Positive(cfg) && Fits(ps, bs, rounds)
    requires name in bs && Settled(bs[name], cfg, from) && DownDuring(ps, name, rounds, from, until)
    ensures LoadOn(ps, name, bs, rounds, cfg) <= cfg.threshold + ((until - from) / cfg.timeout).Floor
  {
    RunIsItsTurns(ps, name, bs, rounds, cfg);
    TurnsGivenInTurn(ps, name, bs, rounds, from, until, cfg);
    DeadProviderLoad(bs[name], cfg, TurnsGiven(ps, name, bs, rounds, cfg), from, until);
  }

  /** The same bound if the provider's breaker has any history behind it, concurrent calls, cancelled ones
      and manual resets included. */
  lemma DeadProviderLoadAnywhere<T>(ps: seq<Provider>, name: string, bs: Breakers, rounds: seq<Round<T>>,
                                    steps: seq<BreakerRuns.Step>, until: real, cfg: Config)
    requires Positive(cfg) && Fits(ps, bs, rounds)
    requires BreakerRuns.AllEnabled(BreakerRuns.START, steps, cfg)
    requires name in bs && bs[name] == BreakerRuns.Play(BreakerRuns.START, steps, cfg).b
    requires DownDuring(ps, name, rounds, BreakerRuns.Play(BreakerRuns.START, steps, cfg).now, until)
    ensures var from := BreakerRuns.Play(BreakerRuns.START, steps, cfg).now;
      LoadOn(ps, name, bs, rounds, cfg) <= cfg.threshold + ((until - from) / cfg.timeout).Floor
  {
    BreakerRuns.ReachableIsGood(steps, cfg);
    DeadProviderLoadInRun(ps, name, bs, rounds, BreakerRuns.Play(BreakerRuns.START, steps, cfg).now, until, cfg);
  }
}
