/** Token bucket: at most `rate` tokens, refilled continuously at rate tokens per `per` seconds. */
module RateLimiter {
  datatype Bucket = Bucket(tokens: real, lastRefill: real)

  datatype Limits = Limits(rate: int, per: real)

  ghost predicate Positive(l: Limits) {
    l.rate >= 1 && l.per > 0.0
  }

  // Tokens earned in dt seconds.
  function Earned(l: Limits, dt: real): real
    requires l.per != 0.0
  {
    dt * (l.rate as real / l.per)
  }

  function Refill(b: Bucket, l: Limits, now: real): Bucket
    requires l.per != 0.0
  {
    var tokens := b.tokens + Earned(l, now - b.lastRefill);
    Bucket(if tokens < l.rate as real then tokens else l.rate as real, now)
  }

  predicate Grants(b: Bucket, l: Limits, now: real)
    requires l.per != 0.0
  {
    Refill(b, l, now).tokens >= 1.0
  }

  // One pass of the acquire loop under the lock.
  function Attempt(b: Bucket, l: Limits, now: real): Bucket
    requires l.per != 0.0
  {
    var full := Refill(b, l, now);
    if full.tokens >= 1.0 then full.(tokens := full.tokens - 1.0) else full
  }

  // Sane between any two uses, at clock reading t.
  ghost predicate Sane(b: Bucket, l: Limits, t: real) {
    0.0 <= b.tokens <= l.rate as real && b.lastRefill <= t
  }

  class TokenBucketRateLimiter {
    const limits: Limits
    var tokens: real
    var lastRefill: real

    constructor (rate: int, per: real, now: real)
      ensures limits == Limits(rate, per) && View() == Bucket(rate as real, now)
    {
      limits, tokens, lastRefill := Limits(rate, per), rate as real, now;
    }

    function View(): Bucket
      reads this
    {
      Bucket(tokens, lastRefill)
    }

    method RefillTokens(now: real)
      requires Positive(limits)
      modifies this
      ensures View() == Refill(old(View()), limits, now)
    {
      var elapsed := now - lastRefill;
      var newTokens := elapsed * (limits.rate as real / limits.per);
      tokens := if tokens + newTokens < limits.rate as real then tokens + newTokens else limits.rate as real;
      lastRefill := now;
    }

    method AvailableTokens(now: real) returns (available: real)
      requires Positive(limits)
      modifies this
      ensures View() == Refill(old(View()), limits, now) && available == View().tokens
    {
      RefillTokens(now);
      available := tokens;
    }

    /** `readings` are the clock readings of this caller's successive attempts, nobody else using the
        bucket meanwhile; each sleep lasts at least per/rate.  The token comes after at most one sleep. */
    method AcquireAlone(readings: seq<real>) returns (attempts: nat)
      requires |readings| >= 2
      requires Positive(limits) && Sane(View(), limits, readings[0])
      requires forall i :: 0 < i < |readings| ==> readings[i] - readings[i - 1] >= limits.per / limits.rate as real
      modifies this
      ensures 1 <= attempts <= 2
      ensures attempts == 1 <==> Grants(old(View()), limits, readings[0])
      ensures View() == if attempts == 1 then Attempt(old(View()), limits, readings[0])
                        else Attempt(Attempt(old(View()), limits, readings[0]), limits, readings[1])
      ensures Sane(View(), limits, readings[attempts - 1])
    {
      attempts := 0;
      while true
        invariant attempts < 2
        invariant attempts == 0 ==> View() == old(View())
        invariant attempts == 1 ==> !Grants(old(View()), limits, readings[0])
                                    && View() == Attempt(old(View()), limits, readings[0])
        decreases 2 - attempts
      {
        ghost var before := View();
        AttemptStaysSane(old(View()), limits, readings[0]);
        if attempts == 1 {
          OneSleepSuffices(old(View()), limits, readings[0], readings[1]);
          AttemptStaysSane(before, limits, readings[1]);
        }
        RefillTokens(readings[attempts]);
        attempts := attempts + 1;
        if tokens >= 1.0 {
          tokens := tokens - 1.0;
          return;
        }
      }
    }
  }

  lemma EarnedFacts(l: Limits, a: real, b: real)
    requires Positive(l)
    ensures Earned(l, a + b) == Earned(l, a) + Earned(l, b)
    ensures a >= 0.0 ==> Earned(l, a) >= 0.0
    ensures a <= b ==> Earned(l, a) <= Earned(l, b)
  {
  }

  lemma EarnsOneToken(l: Limits)
    requires Positive(l)
    ensures Earned(l, l.per / l.rate as real) == 1.0
  {
    var n, p := l.rate as real, l.per;
    assert p / n * n == p;
    assert p / n * (n / p) == (p / n * n) / p == 1.0;
  }

  lemma AttemptStaysSane(b: Bucket, l: Limits, now: real)
    requires Positive(l) && Sane(b, l, now)
    ensures Sane(Attempt(b, l, now), l, now) && Sane(Refill(b, l, now), l, now)
  {
    EarnedFacts(l, now - b.lastRefill, 0.0);
  }

  /** A lone caller that was refused gets its token once it has slept per/rate. */
  lemma OneSleepSuffices(b: Bucket, l: Limits, now: real, later: real)
    requires Positive(l) && Sane(b, l, now) && !Grants(b, l, now)
    requires later - now >= l.per / l.rate as real
    ensures Grants(Attempt(b, l, now), l, later)
  {
    AttemptStaysSane(b, l, now);
    EarnsOneToken(l);
    EarnedFacts(l, l.per / l.rate as real, later - now);
  }

  // n attempts at one moment.
  function Burst(n: nat, now: real): seq<Use> { seq(n, _ => Use(now, true)) }

  lemma {:induction false} BurstSpends(b: Bucket, l: Limits, now: real, n: nat)
    requires Positive(l) && Sane(b, l, now) && n > 0
    ensures var full := Refill(b, l, now).tokens;
      var granted := if n <= full.Floor then n else full.Floor;
      && Granted(b, l, Burst(n, now)) == granted
      && Play(b, l, Burst(n, now)) == Bucket(full - granted as real, now)
  {
    AttemptStaysSane(b, l, now);
    assert Burst(n, now)[..n - 1] == Burst(n - 1, now);
    if n == 1 {
      assert Burst(0, now) == [];
    } else {
      BurstSpends(b, l, now, n - 1);
      hide Play, Granted;
      var left := Play(b, l, Burst(n - 1, now));
      RefillAtOnce(left, l);
      PlayOneMore(b, l, Burst(n - 1, now), Use(now, true));
      assert Burst(n, now) == Burst(n - 1, now) + [Use(now, true)];
    }
  }

  lemma RefillAtOnce(b: Bucket, l: Limits)
    requires Positive(l) && b.tokens <= l.rate as real
    ensures Refill(b, l, b.lastRefill) == b
  {
  }

  lemma PlayOneMore(b: Bucket, l: Limits, us: seq<Use>, u: Use)
    requires l.per != 0.0
    ensures Play(b, l, us + [u]) == After(Play(b, l, us), l, u)
    ensures Granted(b, l, us + [u])
            == Granted(b, l, us) + if u.acquires && Grants(Play(b, l, us), l, u.now) then 1 else 0
  {
    assert (us + [u])[..|us|] == us;
  }

  /** A burst is granted as far as the tokens go, and these are earned at rate/per a second up to a full
      bucket: after an idle stretch of length dt at least the smaller of rate and dt * rate/per. In
      particular a bucket that was idle for `per` seconds grants `rate` calls at once, whatever came before. */
  lemma BurstAfterIdle(b: Bucket, l: Limits, now: real, n: nat)
    requires Positive(l) && Sane(b, l, now) && n > 0
    ensures var earned := b.tokens + (now - b.lastRefill) * l.rate as real / l.per;
      var tokens := if earned <= l.rate as real then earned else l.rate as real;
      Granted(b, l, Burst(n, now)) == if n <= tokens.Floor then n else tokens.Floor
    ensures now - b.lastRefill >= l.per ==> Granted(b, l, Burst(n, now)) == if n <= l.rate then n else l.rate
  {
    hide Granted, Earned, Play, Burst;
    BurstSpends(b, l, now, n);
    var earned := b.tokens + (now - b.lastRefill) * l.rate as real / l.per;
    var tokens := if earned <= l.rate as real then earned else l.rate as real;
    RefillMeaning(b, l, now);
    hide Refill;
    if now - b.lastRefill >= l.per {
      EarnedFacts(l, l.per, now - b.lastRefill);
      EarnsRate(l);
      EarnedAsProduct(l, now - b.lastRefill);
      assert tokens.Floor == l.rate;
    }
  }

  lemma RefillMeaning(b: Bucket, l: Limits, now: real)
    requires Positive(l)
    ensures var earned := b.tokens + (now - b.lastRefill) * l.rate as real / l.per;
      Refill(b, l, now).tokens == if earned <= l.rate as real then earned else l.rate as real
  {
    EarnedAsProduct(l, now - b.lastRefill);
    hide Earned;
  }

  lemma EarnsRate(l: Limits)
    requires Positive(l)
    ensures Earned(l, l.per) == l.rate as real
  {
  }

  lemma EarnedAsProduct(l: Limits, dt: real)
    requires Positive(l)
    ensures Earned(l, dt) == dt * l.rate as real / l.per
  {
  }

  // ----- Every run, any number of callers ------------------------------------------------

  datatype Use = Use(now: real, acquires: bool)

  function After(b: Bucket, l: Limits, u: Use): Bucket
    requires l.per != 0.0
  {
    if u.acquires then Attempt(b, l, u.now) else Refill(b, l, u.now)
  }

  function Play(b: Bucket, l: Limits, us: seq<Use>): Bucket
    requires l.per != 0.0
  {
    if us == [] then b else After(Play(b, l, us[..|us| - 1]), l, us[|us| - 1])
  }

  function Granted(b: Bucket, l: Limits, us: seq<Use>): nat
    requires l.per != 0.0
  {
    if us == [] then 0
    else
      var n := |us| - 1;
      var u := us[n];
      Granted(b, l, us[..n]) + if u.acquires && Grants(Play(b, l, us[..n]), l, u.now) then 1 else 0
  }

  ghost predicate ClockOk(us: seq<Use>) {
    forall i, j :: 0 <= i < j < |us| ==> us[i].now <= us[j].now
  }

  lemma {:induction false} RunStaysSane(b: Bucket, l: Limits, us: seq<Use>)
    requires Positive(l) && ClockOk(us) && us != [] && Sane(b, l, us[0].now)
    ensures Sane(Play(b, l, us), l, us[|us| - 1].now) && Play(b, l, us).lastRefill == us[|us| - 1].now
  {
    var n := |us| - 1;
    if n == 0 {
      assert us[..0] == [];
      AttemptStaysSane(b, l, us[0].now);
    } else {
      RunStaysSane(b, l, us[..n]);
      AttemptStaysSane(Play(b, l, us[..n]), l, us[n].now);
    }
  }

  lemma {:induction false} GrantsAndTokens(b: Bucket, l: Limits, us: seq<Use>)
    requires Positive(l) && ClockOk(us) && us != [] && Sane(b, l, us[0].now)
    ensures Granted(b, l, us) as real + Play(b, l, us).tokens
            <= l.rate as real + Earned(l, us[|us| - 1].now - us[0].now)
  {
    var n := |us| - 1;
    if n == 0 {
      assert us[..0] == [];
      EarnedFacts(l, 0.0, 0.0);
    } else {
      hide Earned;
      GrantsAndTokens(b, l, us[..n]);
      RunStaysSane(b, l, us[..n]);
      EarnedFacts(l, us[n - 1].now - us[0].now, us[n].now - us[n - 1].now);
      assert us[n].now - us[0].now == us[n - 1].now - us[0].now + (us[n].now - us[n - 1].now);
    }
  }

  lemma {:induction false} PlayParts(b: Bucket, l: Limits, us: seq<Use>, i: nat)
    requires l.per != 0.0 && i <= |us|
    ensures Play(b, l, us) == Play(Play(b, l, us[..i]), l, us[i..])
    decreases |us|
  {
    if i == |us| {
      assert us[..i] == us;
    } else {
      var n := |us| - 1;
      PlayParts(b, l, us[..n], i);
      assert us[..n][..i] == us[..i] && us[..n][i..] == us[i..][..n - i];
    }
  }

  lemma StretchStartsSane(b: Bucket, l: Limits, us: seq<Use>, i: nat)
    requires Positive(l) && ClockOk(us) && i < |us| && Sane(b, l, us[0].now)
    ensures Sane(Play(b, l, us[..i]), l, us[i].now)
  {
    if i > 0 {
      RunStaysSane(b, l, us[..i]);
    } else {
      assert us[..0] == [];
    }
  }

  /** In every run of any number of callers, the grants inside any stretch of uses number at most
      rate + rate/per times the stretch's length, and the tokens stay between 0 and rate. */
  lemma WindowBound(b: Bucket, l: Limits, us: seq<Use>, i: nat, j: nat)
    requires Positive(l) && ClockOk(us) && i < j <= |us| && Sane(b, l, us[0].now)
    ensures var at := Play(b, l, us[..i]);
      && Granted(at, l, us[i..j]) as real <= l.rate as real + Earned(l, us[j - 1].now - us[i].now)
      && 0.0 <= Play(at, l, us[i..j]).tokens <= l.rate as real
      && Play(at, l, us[i..j]) == Play(b, l, us[..j])
  {
    var at := Play(b, l, us[..i]);
    StretchStartsSane(b, l, us, i);
    hide Play, Granted, Earned;
    GrantsAndTokens(at, l, us[i..j]);
    RunStaysSane(at, l, us[i..j]);
    PlayParts(b, l, us[..j], i);
    assert us[..j][..i] == us[..i] && us[..j][i..] == us[i..j];
  }
}
