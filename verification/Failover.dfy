/** The failover controller: providers in priority order, each behind its own circuit breaker. */
module Failover {
  import opened Wrappers
  import opened CircuitBreakers

  datatype Provider = Provider(name: string, tier: int, priority: int, delayed: bool, exchange: string)

  datatype Fetch<T> = Ticked(tick: T) | ProviderError | OtherError

  /** How a provider would behave in one cascade, and the clock readings along the way: when its breaker
      is asked, when a connect fails, when the call starts and when it ends. */
  datatype Conduct<T> = Conduct(connected: bool, connects: bool, fetch: Fetch<T>,
                                askedAt: real, connectAt: real, startAt: real, endAt: real)

  // An empty string stands for an argument that is not given.
  datatype Request = Request(source: string, excludeDelayed: bool, exchange: string)

  // ----- Names ------------------------------------------------------------------------

  function LowerChar(c: char): char {
    if 'A' <= c <= 'Z' then c - 'A' + 'a' else c
  }

  function Lower(s: string): string {
    seq(|s|, i requires 0 <= i < |s| => LowerChar(s[i]))
  }

  predicate ContainsText(s: string, t: string) {
    exists i :: 0 <= i <= |s| && t <= s[i..]
  }

  predicate SourceMatch(p: Provider, source: string) {
    var s, name := Lower(source), Lower(p.name);
    if s == name then true
    else if s in {"nse", "bse"} then s <= name
    else if s in {"yahoo", "yfinance"} then ContainsText(name, "yahoo")
    else false
  }

  // The same letter, in either case.
  predicate SameLetter(c: char, d: char) {
    c == d || ('A' <= c <= 'Z' && d as int == c as int + 32) || ('A' <= d <= 'Z' && c as int == d as int + 32)
  }

  predicate SameText(s: string, t: string) {
    |s| == |t| && forall i :: 0 <= i < |s| ==> SameLetter(s[i], t[i])
  }

  predicate SameTextAt(s: string, i: int, t: string) {
    0 <= i <= |s| - |t| && SameText(s[i..i + |t|], t)
  }

  lemma SameLetterIff(c: char, d: char)
    ensures SameLetter(c, d) <==> LowerChar(c) == LowerChar(d)
  {
  }

  lemma SameTextIff(s: string, t: string)
    ensures SameText(s, t) <==> Lower(s) == Lower(t)
  {
    hide SameLetter, LowerChar;
    forall i | 0 <= i < |s| && |s| == |t|
      ensures SameLetter(s[i], t[i]) <==> Lower(s)[i] == Lower(t)[i]
    {
      SameLetterIff(s[i], t[i]);
    }
  }

  lemma LowerOfSlice(s: string, i: nat, j: nat)
    requires i <= j <= |s|
    ensures Lower(s)[i..j] == Lower(s[i..j])
  {
  }

  /** A source names a provider whatever the case of its letters: by its whole name, by "nse" or "bse" if
      the name begins so, by "yahoo" or "yfinance" if the name contains yahoo. */
  lemma SourceMatchMeaning(p: Provider, source: string)
    ensures SourceMatch(p, source) <==>
      || SameText(source, p.name)
      || (SameText(source, "nse") && SameTextAt(p.name, 0, "nse"))
      || (SameText(source, "bse") && SameTextAt(p.name, 0, "bse"))
      || ((SameText(source, "yahoo") || SameText(source, "yfinance"))
          && exists i :: SameTextAt(p.name, i, "yahoo"))
  {
    hide LowerChar, SameText;
    var s, name := Lower(source), Lower(p.name);
    SameTextIff(source, p.name);
    forall t | t in {"nse", "bse", "yahoo", "yfinance"}
      ensures SameText(source, t) <==> s == t
    {
      LowerOfKeyword(t);
      SameTextIff(source, t);
    }
    LowerOfKeyword("yahoo");
    LowerOfKeyword("nse");
    LowerOfKeyword("bse");
    if |p.name| >= 3 {
      LowerOfSlice(p.name, 0, 3);
      SameTextIff(p.name[0..3], "nse");
      SameTextIff(p.name[0..3], "bse");
      assert name[..3] == name[0..3];
    }
    ContainsIff(p.name);
  }

  lemma LowerOfKeyword(t: string)
    requires t in {"nse", "bse", "yahoo", "yfinance"}
    ensures Lower(t) == t
  {
  }

  lemma ContainsIff(name: string)
    ensures ContainsText(Lower(name), "yahoo")
            <==> exists i :: SameTextAt(name, i, "yahoo")
  {
    hide SameText, LowerChar;
    LowerOfKeyword("yahoo");
    forall i | 0 <= i <= |name| - 5
      ensures SameTextAt(name, i, "yahoo") <==> "yahoo" <= Lower(name)[i..]
    {
      LowerOfSlice(name, i, i + 5);
      SameTextIff(name[i..i + 5], "yahoo");
      assert Lower(name)[i..][..5] == Lower(name)[i..i + 5];
    }
    if ContainsText(Lower(name), "yahoo") {
      var i :| 0 <= i <= |Lower(name)| && "yahoo" <= Lower(name)[i..];
      assert SameTextAt(name, i, "yahoo");
    }
    if exists i :: SameTextAt(name, i, "yahoo") {
      var i :| SameTextAt(name, i, "yahoo");
      assert "yahoo" <= Lower(name)[i..];
    }
  }

  // ----- Priority order ----------------------------------------------------------------

  predicate TextLeq(a: string, b: string) {
    a == [] || (b != [] && (a[0] < b[0] || (a[0] == b[0] && TextLeq(a[1..], b[1..]))))
  }

  function Rank(p: Provider): int {
    if p.priority != 0 then p.priority else p.tier * 10
  }

  predicate Before(p: Provider, q: Provider) {
    Rank(p) < Rank(q) || (Rank(p) == Rank(q) && TextLeq(p.name, q.name))
  }

  lemma {:induction false} TextLeqTotalOrder(a: string, b: string, c: string)
    ensures TextLeq(a, b) || TextLeq(b, a)
    ensures TextLeq(a, b) && TextLeq(b, c) ==> TextLeq(a, c)
    ensures TextLeq(a, b) && TextLeq(b, a) ==> a == b
  {
    if a != [] && b != [] {
      TextLeqTotalOrder(a[1..], b[1..], if c != [] then c[1..] else c);
      assert a == [a[0]] + a[1..] && b == [b[0]] + b[1..];
    }
  }

  // The names agree up to position i, where the letter of a is smaller.
  predicate SmallerAt(a: string, b: string, i: nat) {
    i < |a| && i < |b| && a[..i] == b[..i] && a[i] < b[i]
  }

  lemma SmallerAtNext(a: string, b: string, i: nat)
    requires a != [] && b != []
    ensures SmallerAt(a, b, i + 1) <==> a[0] == b[0] && SmallerAt(a[1..], b[1..], i)
    ensures SmallerAt(a, b, 0) <==> a[0] < b[0]
  {
    if i + 1 < |a| && i + 1 < |b| {
      assert a[..i + 1] == [a[0]] + a[1..][..i] && b[..i + 1] == [b[0]] + b[1..][..i];
    }
  }

  /** The order of names is that of a dictionary: a prefix first, or else the first differing letter decides. */
  lemma {:induction false} TextLeqMeaning(a: string, b: string)
    ensures TextLeq(a, b) <==> a <= b || exists i: nat :: SmallerAt(a, b, i)
  {
    if a != [] && b != [] {
      hide SmallerAt;
      TextLeqMeaning(a[1..], b[1..]);
      forall i: nat
        ensures SmallerAt(a, b, i + 1) <==> a[0] == b[0] && SmallerAt(a[1..], b[1..], i)
        ensures SmallerAt(a, b, 0) <==> a[0] < b[0]
      {
        SmallerAtNext(a, b, i);
      }
      assert a <= b <==> a[0] == b[0] && a[1..] <= b[1..] by {
        assert a == [a[0]] + a[1..] && b == [b[0]] + b[1..];
      }
      if exists i: nat :: SmallerAt(a[1..], b[1..], i) {
        var i: nat :| SmallerAt(a[1..], b[1..], i);
        assert SmallerAt(a, b, i + 1) <==> a[0] == b[0];
      }
      if exists i: nat :: SmallerAt(a, b, i) {
        var i: nat :| SmallerAt(a, b, i);
        if i > 0 {
          SmallerAtNext(a, b, i - 1);
        }
      }
      SmallerAtNext(a, b, 0);
    }
  }

  /** Providers come by their own priority, smallest first, and by name among equals; one without a priority
      stands where ten times its tier would put it. */
  lemma BeforeMeaning(p: Provider, q: Provider)
    ensures p.priority != 0 && q.priority != 0 ==>
      (Before(p, q) <==> p.priority < q.priority || (p.priority == q.priority && TextLeq(p.name, q.name)))
    ensures p.priority == 0 && p.tier != 0 ==>
      (Before(p, q) <==> Before(p.(priority := 10 * p.tier), q))
      && (Before(q, p) <==> Before(q, p.(priority := 10 * p.tier)))
  {
    hide TextLeq;
  }

  lemma BeforeTotalOrder(p: Provider, q: Provider, r: Provider)
    ensures Before(p, q) || Before(q, p)
    ensures Before(p, q) && Before(q, r) ==> Before(p, r)
  {
    TextLeqTotalOrder(p.name, q.name, r.name);
  }

  ghost predicate InOrder(ps: seq<Provider>) {
    forall i, j :: 0 <= i < j < |ps| ==> Before(ps[i], ps[j])
  }

  // A stable sort of an already ordered list with one more item at the end.
  function Place(ps: seq<Provider>, p: Provider): seq<Provider> {
    if ps == [] || Before(ps[|ps| - 1], p) then ps + [p]
    else Place(ps[..|ps| - 1], p) + [ps[|ps| - 1]]
  }

  lemma {:induction false} PlaceKeepsOrder(ps: seq<Provider>, p: Provider)
    requires InOrder(ps)
    ensures InOrder(Place(ps, p))
    ensures multiset(Place(ps, p)) == multiset(ps) + multiset{p}
  {
    if ps != [] {
      var n := |ps| - 1;
      var init, last := ps[..n], ps[n];
      assert ps == init + [last];
      if Before(last, p) {
        forall i | 0 <= i < |ps|
          ensures Before(ps[i], p)
        {
          BeforeTotalOrder(ps[i], last, p);
        }
      } else {
        PlaceKeepsOrder(init, p);
        BeforeTotalOrder(p, last, last);
        var placed := Place(init, p);
        forall i | 0 <= i < |placed|
          ensures Before(placed[i], last)
        {
          assert placed[i] in multiset(placed);
          assert placed[i] in init || placed[i] == p;
        }
      }
    }
  }

  lemma PlaceMembers(ps: seq<Provider>, p: Provider)
    requires InOrder(ps)
    ensures forall q :: q in Place(ps, p) <==> q in ps || q == p
  {
    PlaceKeepsOrder(ps, p);
    hide Place, InOrder;
    forall q
      ensures q in Place(ps, p) <==> q in ps || q == p
    {
      assert q in Place(ps, p) <==> q in multiset(Place(ps, p));
    }
  }

  // ----- One provider's turn --------------------------------------------------------------

  datatype Turn<T> = Skipped | ConnectFailed | Refused | Failed | Served(tick: T)

  predicate Eligible(p: Provider, enabled: map<string, bool>, req: Request) {
    var forced := req.source != "" && req.source != "auto";
    && (p.name in enabled ==> enabled[p.name])
    && (req.exchange != "" ==> p.exchange == req.exchange)
    && (forced ==> SourceMatch(p, req.source))
    && (req.excludeDelayed && p.delayed ==> forced)
  }

  // The turn of an eligible provider, and its breaker afterwards.
  function TakeTurn<T>(b: Breaker, cfg: Config, c: Conduct<T>): (Breaker, Turn<T>) {
    var asked := Observe(b, cfg, c.askedAt);
    if !CanExecute(b, cfg, c.askedAt) then (asked, Skipped)
    else if !c.connected && !c.connects then (Fail(asked, cfg, c.connectAt), ConnectFailed)
    else
      var started := Admit(asked, cfg, c.startAt);
      if !CanExecute(asked, cfg, c.startAt) then (started, Refused)
      else
        match c.fetch
        case Ticked(t) => (Succeed(started, cfg), Served(t))
        case ProviderError => (Fail(started, cfg, c.endAt), Failed)
        // recorded by execute() and once more by the controller
        case OtherError => (Fail(Fail(started, cfg, c.endAt), cfg, c.endAt), Failed)
  }

  /** A refused turn leaves the breaker as it was, and once the breaker has agreed, the call inside the
      same turn is never refused. */
  lemma TurnFacts<T>(b: Breaker, cfg: Config, c: Conduct<T>)
    requires Positive(cfg)
    ensures TakeTurn(b, cfg, c).1 == Skipped ==> TakeTurn(b, cfg, c).0 == b
    ensures TakeTurn(b, cfg, c).1 == Skipped <==> !CanExecute(b, cfg, c.askedAt)
    ensures TakeTurn(b, cfg, c).1 != Refused
  {
  }

  // ----- Runtime source control ------------------------------------------------------------

  predicate Named(p: Provider, name: string) {
    p.name == name || SourceMatch(p, name)
  }

  function Toggled(enabled: map<string, bool>, ps: seq<Provider>, name: string, on: bool): (r: map<string, bool>)
    ensures forall n :: n in r <==> n in enabled || exists p :: p in ps && Named(p, name) && p.name == n
    ensures forall n :: n in r && (exists p :: p in ps && Named(p, name) && p.name == n) ==> r[n] == on
    ensures forall n :: n in r && !(exists p :: p in ps && Named(p, name) && p.name == n) ==> r[n] == enabled[n]
  {
    hide Named;
    if ps == [] then enabled
    else
      var m := |ps| - 1;
      var before := Toggled(enabled, ps[..m], name, on);
      assert ps == ps[..m] + [ps[m]];
      if Named(ps[m], name) then before[ps[m].name := on] else before
  }

  /** Switching a name on or off sets exactly the providers that match it as a source, a whole name being
      one way to do so; every other provider, and every unknown name, stays as it was. */
  lemma SwitchMeaning(enabled: map<string, bool>, ps: seq<Provider>, name: string, on: bool, n: string)
    ensures var after := Toggled(enabled, ps, name, on);
      if exists p :: p in ps && p.name == n && SourceMatch(p, name) then n in after && after[n] == on
      else (n in after <==> n in enabled) && (n in after ==> after[n] == enabled[n])
    ensures forall p :: p in ps && p.name == name ==> SourceMatch(p, name)
  {
    forall p: Provider
      ensures Named(p, name) <==> SourceMatch(p, name)
    {
    }
    hide Toggled, SourceMatch, Named;
  }

  ghost predicate SomeNamed(ps: seq<Provider>, name: string) {
    exists p :: p in ps && Named(p, name)
  }

  lemma ToggleOne(enabled: map<string, bool>, ps: seq<Provider>, i: nat, name: string, on: bool)
    requires i < |ps|
    ensures var before := Toggled(enabled, ps[..i], name, on);
      Toggled(enabled, ps[..i + 1], name, on) == if Named(ps[i], name) then before[ps[i].name := on] else before
    ensures SomeNamed(ps[..i + 1], name) <==> SomeNamed(ps[..i], name) || Named(ps[i], name)
  {
    hide Named;
    assert ps[..i + 1][..i] == ps[..i];
    assert ps[..i + 1] == ps[..i] + [ps[i]];
  }

  // ----- The cascade -------------------------------------------------------------------------

  type Breakers = map<string, Breaker>

  // Turns of providers i, i+1, ... until one serves.
  function Cascade<T>(ps: seq<Provider>, i: nat, bs: Breakers, enabled: map<string, bool>, req: Request,
                      cs: seq<Conduct<T>>, cfg: Config): (Breakers, Option<T>)
    requires i <= |ps| == |cs|
    requires forall p :: p in ps ==> p.name in bs
    decreases |ps| - i
  {
    if i == |ps| then (bs, None)
    else if !Eligible(ps[i], enabled, req) then Cascade(ps, i + 1, bs, enabled, req, cs, cfg)
    else
      var turn := TakeTurn(bs[ps[i].name], cfg, cs[i]);
      var bs' := bs[ps[i].name := turn.0];
      match turn.1
      case Served(t) => (bs', Some(t))
      case _ => Cascade(ps, i + 1, bs', enabled, req, cs, cfg)
  }

  // What provider i's place in the cascade comes to.
  lemma CascadeUnfold<T>(ps: seq<Provider>, i: nat, bs: Breakers, enabled: map<string, bool>, req: Request,
                         cs: seq<Conduct<T>>, cfg: Config)
    requires i <= |ps| == |cs| && forall p :: p in ps ==> p.name in bs
    ensures Cascade(ps, i, bs, enabled, req, cs, cfg) ==
      if i == |ps| then (bs, None)
      else if !Eligible(ps[i], enabled, req) then Cascade(ps, i + 1, bs, enabled, req, cs, cfg)
      else
        var turn := TakeTurn(bs[ps[i].name], cfg, cs[i]);
        var bs' := bs[ps[i].name := turn.0];
        if turn.1.Served? then (bs', Some(turn.1.tick)) else Cascade(ps, i + 1, bs', enabled, req, cs, cfg)
  {
    hide TakeTurn, Eligible;
  }

  class FailoverController {
    const cfg: Config
    var providers: seq<Provider>
    var breakers: map<string, CircuitBreaker>
    var enabled: map<string, bool>

    ghost predicate Valid()
      reads this
    {
      && InOrder(providers)
      && (forall p :: p in providers ==> p.name in breakers)
      && (forall a, b :: a in breakers && b in breakers && a != b ==> breakers[a] != breakers[b])
      && (forall a :: a in breakers ==> breakers[a].cfg == cfg)
    }

    ghost function Views(): Breakers
      reads this, breakers.Values
    {
      map a | a in breakers :: breakers[a].View()
    }

    constructor (cfg: Config)
      ensures Valid() && this.cfg == cfg && providers == [] && breakers == map[] && enabled == map[]
    {
      this.cfg, providers, breakers, enabled := cfg, [], map[], map[];
    }

    // A provider registered again is listed twice and gets a fresh breaker.
    method RegisterProvider(p: Provider)
      requires Valid()
      modifies this
      ensures Valid()
      ensures providers == Place(old(providers), p)
      ensures multiset(providers) == multiset(old(providers)) + multiset{p}
      ensures Views() == old(Views())[p.name := FRESH]
      ensures enabled == if p.name in old(enabled) then old(enabled) else old(enabled)[p.name := true]
    {
      hide InOrder, Place, Before;
      var cb := new CircuitBreaker(cfg);
      PlaceKeepsOrder(providers, p);
      PlaceMembers(providers, p);
      providers := Place(providers, p);
      breakers := breakers[p.name := cb];
      if p.name !in enabled {
        enabled := enabled[p.name := true];
      }
    }

    method SetEnabled(name: string, on: bool) returns (matched: bool)
      modifies this`enabled
      ensures matched <==> exists p :: p in providers && Named(p, name)
      ensures enabled == Toggled(old(enabled), providers, name, on)
    {
      matched := false;
      assert Toggled(enabled, providers[..0], name, on) == enabled;
      hide Named, Toggled;
      for i := 0 to |providers|
        invariant matched <==> SomeNamed(providers[..i], name)
        invariant enabled == Toggled(old(enabled), providers[..i], name, on)
      {
        ToggleOne(old(enabled), providers, i, name, on);
        if Named(providers[i], name) {
          enabled := enabled[providers[i].name := on];
          matched := true;
        }
      }
      assert providers[..|providers|] == providers;
    }

    /** One cascade, nothing else touching the breakers meanwhile; None is the ProviderError raised when
        every candidate failed. */
    method FetchQuote<T>(req: Request, cs: seq<Conduct<T>>) returns (tick: Option<T>)
      requires Valid() && |cs| == |providers|
      modifies breakers.Values
      ensures Valid()
      ensures (Views(), tick) == Cascade(providers, 0, old(Views()), enabled, req, cs, cfg)
    {
      hide InOrder, TakeTurn, SourceMatch, Cascade;
      ghost var want := Cascade(providers, 0, Views(), enabled, req, cs, cfg);
      for i := 0 to |providers|
        invariant Valid()
        invariant Cascade(providers, i, Views(), enabled, req, cs, cfg) == want
      {
        CascadeUnfold(providers, i, Views(), enabled, req, cs, cfg);
        var p, c := providers[i], cs[i];
        assert p in providers;
        var cb := breakers[p.name];
        ghost var before := Views();
        if p.name in enabled && !enabled[p.name] {
          continue;
        }
        if req.exchange != "" && p.exchange != req.exchange {
          continue;
        }
        var forced := req.source != "" && req.source != "auto";
        if forced && !SourceMatch(p, req.source) {
          continue;
        }
        if req.excludeDelayed && p.delayed && !forced {
          continue;
        }
        var served := RunTurn(cb, c);
        assert Views() == before[p.name := TakeTurn(before[p.name], cfg, c).0];
        if served.Some? {
          return served;
        }
      }
      CascadeUnfold(providers, |providers|, Views(), enabled, req, cs, cfg);
      return None;
    }
  }

  method RunTurn<T>(cb: CircuitBreaker, c: Conduct<T>) returns (tick: Option<T>)
    modifies cb
    ensures var turn := TakeTurn(old(cb.View()), cb.cfg, c);
      cb.View() == turn.0 && tick == if turn.1.Served? then Some(turn.1.tick) else None
  {
    var may := cb.MayExecute(c.askedAt);
    if !may {
      return None;
    }
    if !c.connected {
      if !c.connects {
        cb.RecordFailure(c.connectAt);
        return None;
      }
    }
    var admitted := cb.BeginExecute(c.startAt);
    if !admitted {
      return None;
    }
    match c.fetch {
      case Ticked(t) =>
        cb.RecordSuccess();
        return Some(t);
      case ProviderError =>
        cb.RecordFailure(c.endAt);
      case OtherError =>
        cb.RecordFailure(c.endAt);
        cb.RecordFailure(c.endAt);
    }
    tick := None;
  }
}
