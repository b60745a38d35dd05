/** Runs of one breaker with any number of calls in flight. */
module BreakerRuns {
  import opened CircuitBreakers

  /** epoch counts the half-open episodes; inflight holds, for each unfinished call, the episode it was
      admitted in (0 if admitted while closed). Of the calls admitted in the current episode, won were
      recorded as successes and lost were cancelled and so recorded nothing. failedAt is the time of the latest
      failure recorded; outcomes are those recorded since the breaker last became closed, up to the failure
      that opened it (true is success). */
  datatype World = World(b: Breaker, now: real, epoch: nat, inflight: multiset<nat>, won: nat, lost: nat,
                         failedAt: real, outcomes: seq<bool>)

  datatype Step =
    | Tick(dt: real)
    | Probe
    | Start
    | Finish(call: nat, ok: bool)
    | Cancel(call: nat)
    | ExternalFailure
    | ManualReset

  const START := World(FRESH, 0.0, 0, multiset{}, 0, 0, 0.0, [])

  predicate Enabled(w: World, s: Step) {
    match s
    case Tick(dt) => dt >= 0.0
    case Finish(call, _) => call in w.inflight
    case Cancel(call) => call in w.inflight
    case _ => true
  }

  // Reading the state opens a new episode when it turns the breaker half-open.
  function Look(w: World, cfg: Config): World {
    var seen := Observe(w.b, cfg, w.now);
    if seen.state != w.b.state then w.(b := seen, epoch := w.epoch + 1, won := 0, lost := 0) else w
  }

  function Record(w: World, cfg: Config, ok: bool): World {
    var b := if ok then Succeed(w.b, cfg) else Fail(w.b, cfg, w.now);
    var outcomes :=
      if w.b.state == Closed then w.outcomes + [ok]
      else if b.state == Closed then []
      else w.outcomes;
    w.(b := b, failedAt := if ok then w.failedAt else w.now, outcomes := outcomes)
  }

  // The call was admitted in the half-open episode that is now under way.
  predicate IsTrial(w: World, call: nat) {
    call == w.epoch && w.b.state == HalfOpen
  }

  function Next(w: World, s: Step, cfg: Config): World {
    match s
    case Tick(dt) => w.(now := w.now + dt)
    case Probe => Look(w, cfg)
    case Start =>
      var seen := Look(w, cfg);
      if !CanExecute(w.b, cfg, w.now) then seen
      else
        var tag := if seen.b.state == HalfOpen then seen.epoch else 0;
        seen.(b := Admit(w.b, cfg, w.now), inflight := seen.inflight + multiset{tag})
    case Finish(call, ok) =>
      Record(w.(inflight := w.inflight - multiset{call}, won := if ok && IsTrial(w, call) then w.won + 1 else w.won),
             cfg, ok)
    case Cancel(call) =>
      w.(inflight := w.inflight - multiset{call}, lost := if IsTrial(w, call) then w.lost + 1 else w.lost)
    case ExternalFailure => Record(w, cfg, false)
    case ManualReset => w.(b := Reset(w.b), outcomes := [])
  }

  // What a step does to the breaker itself.
  function BreakerAfter(b: Breaker, now: real, s: Step, cfg: Config): Breaker {
    match s
    case Probe => Observe(b, cfg, now)
    case Start => Admit(b, cfg, now)
    case Finish(_, ok) => if ok then Succeed(b, cfg) else Fail(b, cfg, now)
    case ExternalFailure => Fail(b, cfg, now)
    case ManualReset => Reset(b)
    case _ => b
  }

  lemma NextBreaker(w: World, s: Step, cfg: Config)
    ensures Next(w, s, cfg).b == BreakerAfter(w.b, w.now, s, cfg)
    ensures !s.Tick? ==> Next(w, s, cfg).now == w.now
  {
  }

  function Play(w: World, steps: seq<Step>, cfg: Config): World {
    if steps == [] then w else Next(Play(w, steps[..|steps| - 1], cfg), steps[|steps| - 1], cfg)
  }

  ghost predicate AllEnabled(w: World, steps: seq<Step>, cfg: Config) {
    forall i :: 0 <= i < |steps| ==> Enabled(Play(w, steps[..i], cfg), steps[i])
  }

  lemma AllEnabledPrefix(w: World, steps: seq<Step>, cfg: Config)
    requires steps != [] && AllEnabled(w, steps, cfg)
    ensures AllEnabled(w, steps[..|steps| - 1], cfg)
    ensures Enabled(Play(w, steps[..|steps| - 1], cfg), steps[|steps| - 1])
  {
    hide Play, Enabled;
    var n := |steps| - 1;
    assert forall i :: 0 <= i < n ==> steps[..n][i] == steps[i] && steps[..n][..i] == steps[..i];
  }

  lemma PlaySnoc(w: World, steps: seq<Step>, s: Step, cfg: Config)
    ensures Play(w, steps + [s], cfg) == Next(Play(w, steps, cfg), s, cfg)
    ensures AllEnabled(w, steps, cfg) && Enabled(Play(w, steps, cfg), s) ==> AllEnabled(w, steps + [s], cfg)
  {
    hide Next, Enabled;
    var all := steps + [s];
    assert all[..|steps|] == steps;
    assert forall i :: 0 <= i < |steps| ==> all[..i] == steps[..i] && all[i] == steps[i];
  }

  lemma {:induction false} PlayAppend(w: World, a: seq<Step>, b: seq<Step>, cfg: Config)
    ensures Play(w, a + b, cfg) == Play(Play(w, a, cfg), b, cfg)
    ensures AllEnabled(w, a, cfg) && AllEnabled(Play(w, a, cfg), b, cfg) ==> AllEnabled(w, a + b, cfg)
  {
    if b == [] {
      assert a + b == a;
    } else {
      hide Next, Enabled, AllEnabled;
      var n := |b| - 1;
      assert a + b == (a + b[..n]) + [b[n]] && b == b[..n] + [b[n]];
      PlayAppend(w, a, b[..n], cfg);
      PlaySnoc(w, a + b[..n], b[n], cfg);
      PlaySnoc(Play(w, a, cfg), b[..n], b[n], cfg);
      if AllEnabled(w, a, cfg) && AllEnabled(Play(w, a, cfg), b, cfg) {
        AllEnabledPrefix(Play(w, a, cfg), b, cfg);
      }
    }
  }

  lemma PlayTwo(w: World, steps: seq<Step>, s: Step, t: Step, cfg: Config)
    ensures Play(w, steps + [s, t], cfg)
            == Next(Next(Play(w, steps, cfg), s, cfg), t, cfg)
  {
    hide Next, Play;
    PlaySnoc(w, steps, s, cfg);
    PlaySnoc(w, steps + [s], t, cfg);
    assert steps + [s] + [t] == steps + [s, t];
  }

  lemma ClockSet(w: World, time: real, cfg: Config)
    ensures Next(w, Tick(time - w.now), cfg) == w.(now := time)
  {
  }

  // The clock moves on to a time, and then a step is made.
  lemma TickThen(w: World, steps: seq<Step>, time: real, s: Step, cfg: Config)
    requires !s.Tick?
    ensures var v := Play(w, steps, cfg);
      var u := Play(w, steps + [Tick(time - v.now), s], cfg);
      u.b == BreakerAfter(v.b, time, s, cfg) && u.now == time
  {
    var v := Play(w, steps, cfg);
    PlayTwo(w, steps, Tick(time - v.now), s, cfg);
    hide Play, BreakerAfter;
    ClockSet(v, time, cfg);
    hide Next;
    NextBreaker(v.(now := time), s, cfg);
  }

  /** One call that nothing interferes with is a start and an end of the state machine, or a refused start. */
  lemma ExecutedIsRun(w: World, cfg: Config, start: real, ok: bool, end: real)
    ensures var begun := [Tick(start - w.now), Start];
      var v := Play(w, begun, cfg);
      var call := if v.b.state == HalfOpen then v.epoch else 0;
      Executed(w.b, cfg, start, ok, end)
      == Play(w, if CanExecute(w.b, cfg, start) then begun + [Tick(end - start), Finish(call, ok)] else begun, cfg).b
  {
    hide Play, Next, Succeed, Fail;
    var begun := [Tick(start - w.now), Start];
    PlayNothing(w, cfg);
    TickThen(w, [], start, Start, cfg);
    assert [] + begun == begun;
    var v := Play(w, begun, cfg);
    var call := if v.b.state == HalfOpen then v.epoch else 0;
    TickThen(w, begun, end, Finish(call, ok), cfg);
  }

  /** A manual reset leaves a breaker as new, but for the time of its latest failure. */
  lemma ResetIsFresh(b: Breaker)
    ensures Reset(b) == FRESH.(lastFailure := b.lastFailure)
  {
  }

  lemma PlayNothing(w: World, cfg: Config)
    ensures Play(w, [], cfg) == w
  {
  }

  // ----- The failure count -------------------------------------------------------------

  function Score(outcomes: seq<bool>): nat {
    if outcomes == [] then 0
    else
      var before := Score(outcomes[..|outcomes| - 1]);
      if !outcomes[|outcomes| - 1] then before + 1 else if before > 0 then before - 1 else 0
  }

  // Failures minus successes.
  function Net(outcomes: seq<bool>): int {
    if outcomes == [] then 0
    else Net(outcomes[..|outcomes| - 1]) + (if outcomes[|outcomes| - 1] then -1 else 1)
  }

  /** The count kept one outcome at a time is the greatest excess of failures over any suffix. */
  lemma {:induction false} ScoreIsWorstSuffix(h: seq<bool>)
    ensures forall i :: 0 <= i <= |h| ==> Net(h[i..]) <= Score(h)
    ensures exists i :: 0 <= i <= |h| && Net(h[i..]) == Score(h)
  {
    var n := |h| - 1;
    if h == [] {
      assert h[0..] == [] && Net(h[0..]) == Score(h);
    } else {
      var init := h[..n];
      ScoreIsWorstSuffix(init);
      assert h[n + 1..] == [] && Net(h[n + 1..]) == 0;
      forall i | 0 <= i <= n
        ensures Net(h[i..]) == Net(init[i..]) + (if h[n] then -1 else 1)
      {
        assert h[i..][..n - i] == init[i..];
      }
      var i :| 0 <= i <= n && Net(init[i..]) == Score(init);
      assert Net(h[i..]) == Score(h) || Net(h[n + 1..]) == Score(h);
    }
  }

  // ----- What every step keeps -----------------------------------------------------------

  ghost predicate Good(w: World, cfg: Config) {
    && w.b.lastFailure == w.failedAt <= w.now
    && (forall call :: call in w.inflight ==> call <= w.epoch)
    && 0 <= w.b.successes < cfg.maxCalls
    && (w.b.state == Closed ==> w.b.successes == 0 && w.b.failures == Score(w.outcomes) < cfg.threshold)
    && (w.b.state != Closed ==> w.b.failures >= cfg.threshold)
    && (w.b.state == HalfOpen ==>
          && w.epoch >= 1
          && w.now - w.b.lastFailure > cfg.timeout
          && 0 <= w.b.halfOpenCalls <= cfg.maxCalls
          && w.won <= w.b.successes
          && w.b.halfOpenCalls == w.won + w.inflight[w.epoch] + w.lost)
  }

  lemma ScoreSnoc(h: seq<bool>, ok: bool)
    ensures Score(h + [ok]) == if !ok then Score(h) + 1 else if Score(h) > 0 then Score(h) - 1 else 0
  {
  }

  lemma RecordKeepsGood(w: World, cfg: Config, ok: bool)
    requires Positive(cfg) && Good(w, cfg)
    ensures Good(Record(w, cfg, ok), cfg)
  {
    ScoreSnoc(w.outcomes, ok);
    assert Score([]) == 0;
    hide Score;
  }

  lemma FinishKeepsGood(w: World, call: nat, ok: bool, cfg: Config)
    requires Positive(cfg) && Good(w, cfg) && call in w.inflight
    ensures Good(Next(w, Finish(call, ok), cfg), cfg)
  {
  }

  lemma StartKeepsGood(w: World, cfg: Config)
    requires Positive(cfg) && Good(w, cfg)
    ensures Good(Next(w, Start, cfg), cfg)
  {
    var seen := Look(w, cfg);
    assert Good(seen, cfg);
    if CanExecute(w.b, cfg, w.now) {
      var tag := if seen.b.state == HalfOpen then seen.epoch else 0;
      var more := seen.inflight + multiset{tag};
      assert tag == seen.epoch ==> more[seen.epoch] == seen.inflight[seen.epoch] + 1;
    }
  }

  lemma CancelKeepsGood(w: World, call: nat, cfg: Config)
    requires Positive(cfg) && Good(w, cfg) && call in w.inflight
    ensures Good(Next(w, Cancel(call), cfg), cfg)
  {
  }

  lemma StepKeepsGood(w: World, s: Step, cfg: Config)
    requires Positive(cfg) && Good(w, cfg) && Enabled(w, s)
    ensures Good(Next(w, s, cfg), cfg)
  {
    match s
    case Tick(dt) =>
    case Probe =>
    case Start => StartKeepsGood(w, cfg);
    case Finish(call, ok) => FinishKeepsGood(w, call, ok, cfg);
    case Cancel(call) => CancelKeepsGood(w, call, cfg);
    case ExternalFailure => RecordKeepsGood(w, cfg, false);
    case ManualReset =>
  }

  /** Every reachable state, under any interleaving of calls admitted in any earlier state or episode:
      half-open calls are all accounted for, and the counts decide the state. */
  lemma {:induction false} ReachableIsGood(steps: seq<Step>, cfg: Config)
    requires Positive(cfg) && AllEnabled(START, steps, cfg)
    ensures Good(Play(START, steps, cfg), cfg)
  {
    if steps != [] {
      hide Good, Enabled, Next, AllEnabled;
      var n := |steps| - 1;
      AllEnabledPrefix(START, steps, cfg);
      ReachableIsGood(steps[..n], cfg);
      StepKeepsGood(Play(START, steps[..n], cfg), steps[n], cfg);
    }
  }

  // ----- When a call is admitted, and when no call ever is ----------------------------------

  /** Exactly when a reachable breaker admits a call. A half-open one counts the calls of its own episode
      that succeeded, that were cancelled and that are still running, whatever else is in flight. */
  lemma AdmitsIff(steps: seq<Step>, cfg: Config)
    requires Positive(cfg) && AllEnabled(START, steps, cfg)
    ensures var w := Play(START, steps, cfg);
      CanExecute(w.b, cfg, w.now) <==>
        match w.b.state
        case Closed => true
        case Open => w.now - w.failedAt > cfg.timeout
        case HalfOpen => w.won + w.lost + w.inflight[w.epoch] < cfg.maxCalls
  {
    ReachableIsGood(steps, cfg);
  }

  ghost predicate NoCancel(steps: seq<Step>) {
    forall i :: 0 <= i < |steps| ==> !steps[i].Cancel?
  }

  lemma {:induction false} NothingLost(steps: seq<Step>, cfg: Config)
    requires NoCancel(steps)
    ensures Play(START, steps, cfg).lost == 0
  {
    if steps != [] {
      NothingLost(steps[..|steps| - 1], cfg);
    }
  }

  /** If every admitted call ends, a half-open breaker with none of this episode's calls in flight
      always admits the next call, whatever calls of earlier states are still running. */
  lemma HalfOpenAdmitsWhenIdle(steps: seq<Step>, cfg: Config)
    requires Positive(cfg) && AllEnabled(START, steps, cfg) && NoCancel(steps)
    ensures var w := Play(START, steps, cfg);
      w.b.state == HalfOpen && w.inflight[w.epoch] == 0 ==> CanExecute(w.b, cfg, w.now)
  {
    ReachableIsGood(steps, cfg);
    NothingLost(steps, cfg);
  }

  // Half-open, nothing in flight, and no trial call left to hand out.
  ghost predicate Wedged(w: World, cfg: Config) {
    w.b.state == HalfOpen && w.inflight == multiset{} && !CanExecute(w.b, cfg, w.now)
  }

  /** A half-open breaker with nothing in flight is wedged exactly when the successes and the cancellations
      of its own calls have used up every trial; at least one of them is then a cancellation. */
  lemma WedgedIff(steps: seq<Step>, cfg: Config)
    requires Positive(cfg) && AllEnabled(START, steps, cfg)
    ensures var w := Play(START, steps, cfg);
      && (Wedged(w, cfg) <==> w.b.state == HalfOpen && w.inflight == multiset{} && w.won + w.lost == cfg.maxCalls)
      && (Wedged(w, cfg) ==> w.lost >= 1 && !NoCancel(steps))
  {
    ReachableIsGood(steps, cfg);
    if NoCancel(steps) {
      NothingLost(steps, cfg);
    }
  }

  lemma WedgeStep(w: World, s: Step, cfg: Config)
    requires Wedged(w, cfg) && Enabled(w, s) && s != ManualReset && s != ExternalFailure
    ensures Wedged(Next(w, s, cfg), cfg)
  {
  }

  /** A wedged breaker refuses every call for ever, unless it is reset by hand or fed a failure from
      outside. */
  lemma {:induction false} WedgeIsForever(w: World, steps: seq<Step>, cfg: Config)
    requires Wedged(w, cfg) && AllEnabled(w, steps, cfg)
    requires forall i :: 0 <= i < |steps| ==> steps[i] != ManualReset && steps[i] != ExternalFailure
    ensures var w' := Play(w, steps, cfg); Wedged(w', cfg) && !CanExecute(w'.b, cfg, w'.now)
  {
    if steps != [] {
      hide Enabled, Next, AllEnabled;
      var n := |steps| - 1;
      AllEnabledPrefix(w, steps, cfg);
      WedgeIsForever(w, steps[..n], cfg);
      WedgeStep(Play(w, steps[..n], cfg), steps[n], cfg);
    }
  }

  // ----- Runs that can be built for any configuration ----------------------------------------

  function Repeat(n: nat, block: seq<Step>): seq<Step> {
    if n == 0 then [] else Repeat(n - 1, block) + block
  }

  lemma RepeatOnce(n: nat, block: seq<Step>)
    ensures Repeat(0, block) == []
    ensures n > 0 ==> Repeat(n, block) == Repeat(n - 1, block) + block
  {
  }

  // The steps can be played from w and lead to w'.
  ghost predicate Leads(w: World, steps: seq<Step>, w': World, cfg: Config) {
    AllEnabled(w, steps, cfg) && Play(w, steps, cfg) == w'
  }

  lemma LeadsOne(w: World, s: Step, cfg: Config)
    requires Enabled(w, s)
    ensures Leads(w, [s], Next(w, s, cfg), cfg)
  {
    PlaySnoc(w, [], s, cfg);
    assert [] + [s] == [s];
  }

  lemma LeadsNowhere(w: World, cfg: Config)
    ensures Leads(w, [], w, cfg)
  {
  }

  lemma LeadsOn(u: World, a: seq<Step>, v: World, b: seq<Step>, w: World, cfg: Config)
    requires Leads(u, a, v, cfg) && Leads(v, b, w, cfg)
    ensures Leads(u, a + b, w, cfg)
  {
    PlayAppend(u, a, b, cfg);
  }

  lemma LeadsTwo(w: World, s: Step, t: Step, cfg: Config)
    requires Enabled(w, s) && Enabled(Next(w, s, cfg), t)
    ensures Leads(w, [s, t], Next(Next(w, s, cfg), t, cfg), cfg)
  {
    hide Enabled, Next, Leads;
    LeadsOne(w, s, cfg);
    LeadsOne(Next(w, s, cfg), t, cfg);
    LeadsOn(w, [s], Next(w, s, cfg), [t], Next(Next(w, s, cfg), t, cfg), cfg);
    assert [s] + [t] == [s, t];
  }

  // A closed breaker after n failures from outside.
  function Failing(w: World, n: nat, cfg: Config): World {
    w.(b := w.b.(state := if n < cfg.threshold then Closed else Open, failures := n,
                 lastFailure := if n == 0 then w.b.lastFailure else w.now),
       failedAt := if n == 0 then w.failedAt else w.now,
       outcomes := w.outcomes + seq(n, _ => false))
  }

  lemma FailOne(w: World, n: nat, cfg: Config)
    requires Positive(cfg) && 0 < n <= cfg.threshold && w.b.state == Closed && w.b.failures == 0
    ensures Leads(Failing(w, n - 1, cfg), [ExternalFailure], Failing(w, n, cfg), cfg)
  {
    LeadsOne(Failing(w, n - 1, cfg), ExternalFailure, cfg);
    assert w.outcomes + seq(n, _ => false) == w.outcomes + seq(n - 1, _ => false) + [false];
    hide Leads;
  }

  lemma {:induction false} FailUntilOpen(w: World, n: nat, cfg: Config)
    requires Positive(cfg) && n <= cfg.threshold && w.b.state == Closed && w.b.failures == 0
    ensures Leads(w, Repeat(n, [ExternalFailure]), Failing(w, n, cfg), cfg)
  {
    hide Leads, Repeat;
    RepeatOnce(n, [ExternalFailure]);
    if n == 0 {
      LeadsNowhere(w, cfg);
      assert w.outcomes + seq(n, _ => false) == w.outcomes;
    } else {
      FailUntilOpen(w, n - 1, cfg);
      FailOne(w, n, cfg);
      hide Failing;
      LeadsOn(w, Repeat(n - 1, [ExternalFailure]), Failing(w, n - 1, cfg), [ExternalFailure], Failing(w, n, cfg), cfg);
    }
  }

  // The recovery timeout passes and the state is read: a new episode.
  function Reopening(cfg: Config): seq<Step> { [Tick(cfg.timeout + 1.0), Probe] }

  function Reopened(w: World, cfg: Config): World {
    w.(b := w.b.(state := HalfOpen, halfOpenCalls := 0), now := w.now + (cfg.timeout + 1.0),
       epoch := w.epoch + 1, won := 0, lost := 0)
  }

  lemma Reopen(w: World, cfg: Config)
    requires Positive(cfg) && w.b.state == Open && w.b.lastFailure <= w.now
    ensures Leads(w, Reopening(cfg), Reopened(w, cfg), cfg)
  {
    LeadsTwo(w, Tick(cfg.timeout + 1.0), Probe, cfg);
    hide Leads;
  }

  // A half-open breaker after n more of its trials were won, or lost.
  function Won(w: World, n: nat): World {
    w.(b := w.b.(successes := w.b.successes + n, halfOpenCalls := w.b.halfOpenCalls + n), won := w.won + n)
  }

  function Lost(w: World, n: nat): World {
    w.(b := w.b.(halfOpenCalls := w.b.halfOpenCalls + n), lost := w.lost + n)
  }

  ghost predicate Idle(w: World) {
    w.b.state == HalfOpen && w.inflight == multiset{}
  }

  function Winning(w: World): seq<Step> { [Start, Finish(w.epoch, true)] }

  function Losing(w: World): seq<Step> { [Start, Cancel(w.epoch)] }

  lemma WinOne(w: World, cfg: Config)
    requires Idle(w) && w.b.successes + 1 < cfg.maxCalls && w.b.halfOpenCalls < cfg.maxCalls
    ensures Leads(w, Winning(w), Won(w, 1), cfg)
  {
    assert multiset{} + multiset{w.epoch} == multiset{w.epoch};
    LeadsTwo(w, Start, Finish(w.epoch, true), cfg);
    hide Leads;
  }

  lemma LoseOne(w: World, cfg: Config)
    requires Idle(w) && w.b.halfOpenCalls < cfg.maxCalls
    ensures Leads(w, Losing(w), Lost(w, 1), cfg)
  {
    assert multiset{} + multiset{w.epoch} == multiset{w.epoch};
    LeadsTwo(w, Start, Cancel(w.epoch), cfg);
    hide Leads;
  }

  lemma {:induction false} WinTrials(w: World, n: nat, cfg: Config)
    requires Idle(w) && w.b.successes + n < cfg.maxCalls && w.b.halfOpenCalls + n <= cfg.maxCalls
    ensures Leads(w, Repeat(n, Winning(w)), Won(w, n), cfg)
  {
    hide Leads, Repeat;
    RepeatOnce(n, Winning(w));
    if n == 0 {
      LeadsNowhere(w, cfg);
      assert Won(w, 0) == w;
    } else {
      WinTrials(w, n - 1, cfg);
      WinOne(Won(w, n - 1), cfg);
      assert Won(Won(w, n - 1), 1) == Won(w, n) && Winning(Won(w, n - 1)) == Winning(w);
      LeadsOn(w, Repeat(n - 1, Winning(w)), Won(w, n - 1), Winning(w), Won(w, n), cfg);
    }
  }

  lemma {:induction false} LoseTrials(w: World, n: nat, cfg: Config)
    requires Idle(w) && w.b.halfOpenCalls + n <= cfg.maxCalls
    ensures Leads(w, Repeat(n, Losing(w)), Lost(w, n), cfg)
  {
    hide Leads, Repeat;
    RepeatOnce(n, Losing(w));
    if n == 0 {
      LeadsNowhere(w, cfg);
      assert Lost(w, 0) == w;
    } else {
      LoseTrials(w, n - 1, cfg);
      LoseOne(Lost(w, n - 1), cfg);
      assert Lost(Lost(w, n - 1), 1) == Lost(w, n) && Losing(Lost(w, n - 1)) == Losing(w);
      LeadsOn(w, Repeat(n - 1, Losing(w)), Lost(w, n - 1), Losing(w), Lost(w, n), cfg);
    }
  }

  // Failures from outside until the breaker opens, and then the first episode.
  function Opening(cfg: Config): seq<Step>
    requires cfg.threshold >= 0
  {
    Repeat(cfg.threshold, [ExternalFailure]) + Reopening(cfg)
  }

  // The first episode, just opened.
  function FirstEpisode(w: World, cfg: Config): World
    requires cfg.threshold >= 0
  {
    Reopened(Failing(w, cfg.threshold, cfg), cfg)
  }

  lemma OpenAndReopen(w: World, cfg: Config)
    requires Positive(cfg) && w.b.state == Closed && w.b.failures == 0
    ensures Leads(w, Opening(cfg), FirstEpisode(w, cfg), cfg)
  {
    FailUntilOpen(w, cfg.threshold, cfg);
    var v := Failing(w, cfg.threshold, cfg);
    Reopen(v, cfg);
    hide Leads, Next;
    LeadsOn(w, Repeat(cfg.threshold, [ExternalFailure]), v, Reopening(cfg), Reopened(v, cfg), cfg);
  }

  /** Wedging does happen, whatever the configuration: any number of cancelled trials from a single one
      to all of them wedges the breaker, if the other trials of the episode succeed. */
  lemma CancelledTrialsWedge(cfg: Config, lost: nat) returns (steps: seq<Step>, w: World)
    requires Positive(cfg) && 1 <= lost <= cfg.maxCalls
    ensures Leads(START, steps, w, cfg) && Wedged(w, cfg) && w.lost == lost
  {
    hide Leads, Repeat;
    var u := FirstEpisode(START, cfg);
    var v := Won(u, cfg.maxCalls - lost);
    w := Lost(v, lost);
    OpenAndReopen(START, cfg);
    WinTrials(u, cfg.maxCalls - lost, cfg);
    LoseTrials(v, lost, cfg);
    var opening := Opening(cfg);
    var wins := Repeat(cfg.maxCalls - lost, Winning(u));
    var losses := Repeat(lost, Losing(v));
    steps := opening + wins + losses;
    LeadsOn(START, opening, u, wins, v, cfg);
    LeadsOn(START, opening + wins, v, losses, w, cfg);
  }

  // ----- What it takes to close --------------------------------------------------------------

  // Successes among the steps, whoever was admitted when.
  function Successes(steps: seq<Step>): nat {
    if steps == [] then 0
    else Successes(steps[..|steps| - 1]) + if Ended(steps[|steps| - 1]) then 1 else 0
  }

  // A call ends well.
  predicate Ended(s: Step) {
    s.Finish? && s.ok
  }

  // The step closes the breaker or resets it by hand.
  predicate Closes(w: World, s: Step, cfg: Config) {
    s == ManualReset || (w.b.state != Closed && Next(w, s, cfg).b.state == Closed)
  }

  // Successes recorded while half-open since the breaker was last closed or reset.
  function Credit(steps: seq<Step>, cfg: Config): nat {
    if steps == [] then 0
    else
      var before, s := steps[..|steps| - 1], steps[|steps| - 1];
      var w := Play(START, before, cfg);
      if Closes(w, s, cfg) then 0
      else if w.b.state == HalfOpen && Ended(s) then Credit(before, cfg) + 1
      else Credit(before, cfg)
  }

  lemma CreditStep(w: World, s: Step, cfg: Config)
    requires Positive(cfg) && Good(w, cfg)
    ensures Next(w, s, cfg).b.successes
            == if Closes(w, s, cfg) then 0
               else if w.b.state == HalfOpen && Ended(s) then w.b.successes + 1
               else w.b.successes
  {
    NextBreaker(w, s, cfg);
    hide Next;
  }

  lemma {:induction false} CreditIsCounted(steps: seq<Step>, cfg: Config)
    requires Positive(cfg) && AllEnabled(START, steps, cfg)
    ensures Play(START, steps, cfg).b.successes == Credit(steps, cfg)
  {
    if steps != [] {
      hide Good, Next, Closes, Ended, AllEnabled;
      var n := |steps| - 1;
      AllEnabledPrefix(START, steps, cfg);
      CreditIsCounted(steps[..n], cfg);
      ReachableIsGood(steps[..n], cfg);
      CreditStep(Play(START, steps[..n], cfg), steps[n], cfg);
    }
  }

  /** A half-open breaker closes exactly at the success that is the half_open_max_calls-th recorded while
      half-open since it was last closed or reset, over however many episodes they are spread and whether
      or not their calls were admitted as trials. */
  lemma ClosesAtFullCredit(steps: seq<Step>, s: Step, cfg: Config)
    requires Positive(cfg) && AllEnabled(START, steps, cfg) && s != ManualReset
    requires Play(START, steps, cfg).b.state != Closed
    ensures var w := Play(START, steps, cfg);
      Next(w, s, cfg).b.state == Closed
      <==> w.b.state == HalfOpen && Ended(s) && Credit(steps, cfg) + 1 == cfg.maxCalls
  {
    ReachableIsGood(steps, cfg);
    CreditIsCounted(steps, cfg);
    NextBreaker(Play(START, steps, cfg), s, cfg);
    hide Next, Play, AllEnabled;
  }

  // One episode: the breaker was open and has been half-open ever since.
  ghost predicate Episode(before: seq<Step>, during: seq<Step>, cfg: Config) {
    && during != []
    && Play(START, before, cfg).b.state == Open
    && forall k :: 0 < k <= |during| ==> Play(START, before + during[..k], cfg).b.state == HalfOpen
  }

  lemma EpisodeStep(w: World, s: Step, cfg: Config)
    requires Next(w, s, cfg).b.state == HalfOpen && w.b.state != Closed
    ensures Next(w, s, cfg).b.successes == w.b.successes + if Ended(s) && w.b.state == HalfOpen then 1 else 0
    ensures w.b.state == Open ==> !Ended(s)
  {
    NextBreaker(w, s, cfg);
    hide Next;
  }

  lemma {:induction false} EpisodeCredit(before: seq<Step>, during: seq<Step>, cfg: Config)
    requires Episode(before, during, cfg)
    ensures Play(START, before + during, cfg).b.successes
            == Play(START, before, cfg).b.successes + Successes(during)
    decreases |during|
  {
    hide Next, Ended, Play;
    var n := |during| - 1;
    var init := during[..n];
    var w := Play(START, before + init, cfg);
    assert during[..|during|] == during;
    assert before + during == (before + init) + [during[n]];
    PlaySnoc(START, before + init, during[n], cfg);
    EpisodeStep(w, during[n], cfg) by {
      if n == 0 {
        assert before + init == before;
      } else {
        assert Play(START, before + during[..n], cfg).b.state == HalfOpen;
      }
    }
    if n == 0 {
      assert before + init == before;
      assert Successes(init) == 0;
    } else {
      assert forall k :: 0 < k <= n ==> init[..k] == during[..k];
      EpisodeCredit(before, init, cfg);
    }
  }

  /** The closing episode contains fewer successes than half_open_max_calls exactly when the success count
      was not zero as it opened; what is missing is that count. */
  lemma ClosingEpisode(before: seq<Step>, during: seq<Step>, s: Step, cfg: Config)
    requires Positive(cfg) && AllEnabled(START, before + during, cfg) && Episode(before, during, cfg)
    requires s != ManualReset && Next(Play(START, before + during, cfg), s, cfg).b.state == Closed
    ensures var carried := Play(START, before, cfg).b.successes;
      && Successes(during + [s]) == cfg.maxCalls - carried
      && (Successes(during + [s]) < cfg.maxCalls <==> carried > 0)
  {
    assert during[..|during|] == during;
    assert Play(START, before + during, cfg).b.state == HalfOpen;
    EpisodeCredit(before, during, cfg);
    ReachableIsGood(before + during, cfg);
    NextBreaker(Play(START, before + during, cfg), s, cfg);
    assert (during + [s])[..|during|] == during;
    hide Play, AllEnabled, Episode, Next;
  }

  lemma {:induction false} SuccessesAdd(a: seq<Step>, b: seq<Step>)
    ensures Successes(a + b) == Successes(a) + Successes(b)
  {
    if b == [] {
      assert a + b == a;
    } else {
      assert (a + b)[..|a + b| - 1] == a + b[..|b| - 1];
      SuccessesAdd(a, b[..|b| - 1]);
    }
  }

  lemma {:induction false} SuccessesRepeat(n: nat, block: seq<Step>)
    ensures Successes(Repeat(n, block)) == n * Successes(block)
  {
    if n > 0 {
      SuccessesRepeat(n - 1, block);
      SuccessesAdd(Repeat(n - 1, block), block);
      assert n * Successes(block) == (n - 1) * Successes(block) + Successes(block);
    }
  }

  // The trial that closes the breaker.
  function Closing(w: World): World {
    w.(b := w.b.(state := Closed, failures := 0, successes := 0, halfOpenCalls := w.b.halfOpenCalls + 1),
       won := w.won + 1, outcomes := [])
  }

  lemma CloseByTrial(w: World, cfg: Config)
    requires Idle(w) && w.b.successes + 1 == cfg.maxCalls && w.b.halfOpenCalls < cfg.maxCalls
    ensures Leads(w, Winning(w), Closing(w), cfg)
  {
    assert multiset{} + multiset{w.epoch} == multiset{w.epoch};
    LeadsTwo(w, Start, Finish(w.epoch, true), cfg);
    hide Leads;
  }

  // A whole episode of winning trials.
  lemma WinEpisode(v: World, cfg: Config) returns (during: seq<Step>, w: World)
    requires Positive(cfg) && v.b.state == Open && v.b.lastFailure <= v.now && v.inflight == multiset{}
    requires 0 <= v.b.successes < cfg.maxCalls
    ensures Leads(v, during, w, cfg) && w.b.state == Closed && Successes(during) == cfg.maxCalls - v.b.successes
  {
    hide Leads, Repeat, Successes;
    var n := cfg.maxCalls - v.b.successes - 1;
    var u := Reopened(v, cfg);
    var wins := Repeat(n, Winning(u));
    w := Closing(Won(u, n));
    Reopen(v, cfg);
    WinTrials(u, n, cfg);
    CloseByTrial(Won(u, n), cfg);
    assert Winning(Won(u, n)) == Winning(u);
    during := Reopening(cfg) + wins + Winning(u);
    LeadsOn(v, Reopening(cfg), u, wins, Won(u, n), cfg);
    LeadsOn(v, Reopening(cfg) + wins, Won(u, n), Winning(u), w, cfg);
    SuccessesAdd(Reopening(cfg), wins);
    SuccessesAdd(Reopening(cfg) + wins, Winning(u));
    SuccessesRepeat(n, Winning(u));
    SuccessesOfBlocks(u, cfg);
  }

  lemma SuccessesOfBlocks(w: World, cfg: Config)
    ensures Successes(Reopening(cfg)) == 0 && Successes(Winning(w)) == 1
  {
    SuccessesAdd([Tick(cfg.timeout + 1.0)], [Probe]);
    SuccessesAdd([Start], [Finish(w.epoch, true)]);
    assert Reopening(cfg) == [Tick(cfg.timeout + 1.0)] + [Probe];
    assert Winning(w) == [Start] + [Finish(w.epoch, true)];
  }

  // Half-open, then failed from outside.
  function Broken(w: World): World {
    w.(b := w.b.(state := Open, failures := w.b.failures + 1, lastFailure := w.now), failedAt := w.now)
  }

  lemma Break(w: World, cfg: Config)
    requires w.b.state == HalfOpen
    ensures Leads(w, [ExternalFailure], Broken(w), cfg)
  {
    LeadsOne(w, ExternalFailure, cfg);
  }

  /** Successes of an episode that failed still count. For every configuration and every count a breaker
      may carry over, there is a run whose last episode opens with it and closes that many successes early. */
  lemma SuccessesOutliveTheirEpisode(cfg: Config, carried: nat)
    returns (before: seq<Step>, v: World, during: seq<Step>, w: World)
    requires Positive(cfg) && carried < cfg.maxCalls
    ensures Leads(START, before, v, cfg) && v.b.state == Open && v.b.successes == carried
    ensures Leads(v, during, w, cfg) && w.b.state == Closed && Successes(during) == cfg.maxCalls - carried
  {
    hide Leads, Repeat;
    var u := FirstEpisode(START, cfg);
    var wins := Repeat(carried, Winning(u));
    v := Broken(Won(u, carried));
    before := Opening(cfg) + wins + [ExternalFailure];
    OpenAndReopen(START, cfg);
    WinTrials(u, carried, cfg);
    Break(Won(u, carried), cfg);
    LeadsOn(START, Opening(cfg), u, wins, Won(u, carried), cfg);
    LeadsOn(START, Opening(cfg) + wins, Won(u, carried), [ExternalFailure], v, cfg);
    during, w := WinEpisode(v, cfg);
  }

  // A closed breaker with n more calls running, and a half-open one after n of them succeeded late.
  function Running(w: World, n: nat): World {
    w.(inflight := w.inflight[0 := w.inflight[0] + n])
  }

  function Late(w: World, n: nat): World
    requires n <= w.inflight[0]
  {
    w.(inflight := w.inflight[0 := w.inflight[0] - n], b := w.b.(successes := w.b.successes + n))
  }

  lemma {:induction false} StartCalls(w: World, n: nat, cfg: Config)
    requires w.b.state == Closed
    ensures Leads(w, Repeat(n, [Start]), Running(w, n), cfg)
  {
    hide Leads, Repeat;
    RepeatOnce(n, [Start]);
    if n == 0 {
      LeadsNowhere(w, cfg);
      assert Running(w, 0) == w;
    } else {
      StartCalls(w, n - 1, cfg);
      LeadsOne(Running(w, n - 1), Start, cfg);
      assert Running(w, n - 1).inflight + multiset{0} == Running(w, n).inflight;
      LeadsOn(w, Repeat(n - 1, [Start]), Running(w, n - 1), [Start], Running(w, n), cfg);
    }
  }

  lemma LateOne(w: World, cfg: Config)
    requires w.b.state == HalfOpen && w.epoch > 0 && 0 in w.inflight && w.b.successes + 1 < cfg.maxCalls
    ensures Leads(w, [Finish(0, true)], Late(w, 1), cfg)
  {
    LeadsOne(w, Finish(0, true), cfg);
    assert w.inflight - multiset{0} == w.inflight[0 := w.inflight[0] - 1];
  }

  lemma {:induction false} LateSuccesses(w: World, n: nat, cfg: Config)
    requires w.b.state == HalfOpen && w.epoch > 0 && n <= w.inflight[0] && w.b.successes + n < cfg.maxCalls
    ensures Leads(w, Repeat(n, [Finish(0, true)]), Late(w, n), cfg)
  {
    hide Leads, Repeat;
    RepeatOnce(n, [Finish(0, true)]);
    if n == 0 {
      LeadsNowhere(w, cfg);
      assert Late(w, 0) == w;
    } else {
      LateSuccesses(w, n - 1, cfg);
      LateOne(Late(w, n - 1), cfg);
      LeadsOn(w, Repeat(n - 1, [Finish(0, true)]), Late(w, n - 1), [Finish(0, true)], Late(w, n), cfg);
    }
  }

  lemma {:induction false} NeverStarts(n: nat)
    ensures Start !in Repeat(n, [Finish(0, true)])
  {
    var steps := Repeat(n, [Finish(0, true)]);
    if n == 0 {
      assert steps == [];
    } else {
      NeverStarts(n - 1);
      assert steps == Repeat(n - 1, [Finish(0, true)]) + [Finish(0, true)];
    }
  }

  /** A breaker can close without a single trial: for every configuration there is a run that, once open,
      admits no call at all and closes on late successes of calls admitted while it was closed. */
  lemma LateSuccessesClose(cfg: Config) returns (before: seq<Step>, v: World, during: seq<Step>, w: World)
    requires Positive(cfg)
    ensures Leads(START, before, v, cfg) && v.b.state == Open
    ensures Leads(v, during, w, cfg) && w.b.state == Closed
    ensures Start !in during && w.won == 0
  {
    hide Leads, Repeat;
    var n := cfg.maxCalls - 1;
    var a := Running(START, cfg.maxCalls);
    v := Failing(a, cfg.threshold, cfg);
    before := Repeat(cfg.maxCalls, [Start]) + Repeat(cfg.threshold, [ExternalFailure]);
    StartCalls(START, cfg.maxCalls, cfg);
    FailUntilOpen(a, cfg.threshold, cfg);
    LeadsOn(START, Repeat(cfg.maxCalls, [Start]), a, Repeat(cfg.threshold, [ExternalFailure]), v, cfg);
    var u := Reopened(v, cfg);
    var z := Late(u, n);
    var late := Repeat(n, [Finish(0, true)]);
    w := Next(z, Finish(0, true), cfg);
    during := Reopening(cfg) + late + [Finish(0, true)];
    Reopen(v, cfg);
    LateSuccesses(u, n, cfg);
    LeadsOne(z, Finish(0, true), cfg);
    LeadsOn(v, Reopening(cfg), u, late, z, cfg);
    LeadsOn(v, Reopening(cfg) + late, z, [Finish(0, true)], w, cfg);
    NeverStarts(n);
    assert Start !in Reopening(cfg) && Start !in [Finish(0, true)];
  }

  // ----- Opening and cooling down -----------------------------------------------------------

  /** A closed breaker opens exactly at a recorded failure after which the failures of some recent
      stretch outnumber its successes by the threshold. */
  lemma OpensExactlyAtThreshold(steps: seq<Step>, cfg: Config, ok: bool)
    requires Positive(cfg) && AllEnabled(START, steps, cfg) && Play(START, steps, cfg).b.state == Closed
    ensures var w := Play(START, steps, cfg);
      var h := w.outcomes + [ok];
      && (forall i :: 0 <= i <= |w.outcomes| ==> Net(w.outcomes[i..]) < cfg.threshold)
      && (Record(w, cfg, ok).b.state == Open
          <==> !ok && exists i :: 0 <= i <= |h| && Net(h[i..]) >= cfg.threshold)
  {
    var w := Play(START, steps, cfg);
    var h := w.outcomes + [ok];
    ReachableIsGood(steps, cfg);
    ScoreIsWorstSuffix(w.outcomes);
    ScoreIsWorstSuffix(h);
    ScoreSnoc(w.outcomes, ok);
    var i :| 0 <= i <= |h| && Net(h[i..]) == Score(h);
  }

  /** No call is admitted until more than the recovery timeout after the latest failure: an open
      breaker, however often it is probed, called or told of more failures, stays open till then. */
  lemma {:induction false} NoAdmissionDuringCooldown(w: World, steps: seq<Step>, cfg: Config)
    requires Positive(cfg) && w.b.state == Open && w.b.lastFailure <= w.now && AllEnabled(w, steps, cfg)
    requires forall i :: 0 <= i < |steps| ==> steps[i] != ManualReset
    ensures var w' := Play(w, steps, cfg);
      && w'.now >= w.now
      && (w'.now - w.b.lastFailure <= cfg.timeout ==>
            && w'.b.state == Open && w.b.lastFailure <= w'.b.lastFailure
            && !CanExecute(w'.b, cfg, w'.now))
  {
    if steps != [] {
      hide Enabled, Next, AllEnabled, CanExecute;
      var n := |steps| - 1;
      AllEnabledPrefix(w, steps, cfg);
      NoAdmissionDuringCooldown(w, steps[..n], cfg);
      CooldownStep(w.b.lastFailure, Play(w, steps[..n], cfg), steps[n], cfg);
    } else {
      assert !CanExecute(w.b, cfg, w.now) || w.now - w.b.lastFailure > cfg.timeout;
    }
  }

  lemma CooldownStep(failedAt: real, w: World, s: Step, cfg: Config)
    requires Enabled(w, s) && s != ManualReset
    requires w.now - failedAt <= cfg.timeout ==> w.b.state == Open && failedAt <= w.b.lastFailure
    requires failedAt <= w.now
    ensures var w' := Next(w, s, cfg);
      && w'.now >= w.now
      && (w'.now - failedAt <= cfg.timeout ==>
            w'.b.state == Open && failedAt <= w'.b.lastFailure && !CanExecute(w'.b, cfg, w'.now))
  {
  }
}
