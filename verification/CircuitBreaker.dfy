/** Per-provider circuit breaker: CLOSED, OPEN after too many failures, HALF_OPEN while testing recovery. */
module CircuitBreakers {
  datatype CircuitState = Closed | Open | HalfOpen

  datatype Config = Config(threshold: int, timeout: real, maxCalls: int)

  datatype Breaker = Breaker(state: CircuitState, failures: int, successes: int, lastFailure: real, halfOpenCalls: int)

  const FRESH := Breaker(Closed, 0, 0, 0.0, 0)

  ghost predicate Positive(cfg: Config) {
    cfg.threshold >= 1 && cfg.timeout > 0.0 && cfg.maxCalls >= 1
  }

  // ----- Transitions ----------------------------------------------------------------

  // Reading the state: an OPEN breaker turns HALF_OPEN once the recovery timeout has passed.
  function Observe(b: Breaker, cfg: Config, now: real): Breaker {
    if b.state == Open && now - b.lastFailure > cfg.timeout
    then b.(state := HalfOpen, halfOpenCalls := 0)
    else b
  }

  predicate CanExecute(b: Breaker, cfg: Config, now: real) {
    var seen := Observe(b, cfg, now);
    seen.state == Closed || (seen.state == HalfOpen && seen.halfOpenCalls < cfg.maxCalls)
  }

  // Admission of one call: the check and the count of half-open calls are one step.
  function Admit(b: Breaker, cfg: Config, now: real): Breaker {
    var seen := Observe(b, cfg, now);
    if CanExecute(b, cfg, now) && seen.state == HalfOpen
    then seen.(halfOpenCalls := seen.halfOpenCalls + 1)
    else seen
  }

  function Succeed(b: Breaker, cfg: Config): Breaker {
    match b.state
    case HalfOpen =>
      if b.successes + 1 >= cfg.maxCalls then b.(state := Closed, failures := 0, successes := 0)
      else b.(successes := b.successes + 1)
    case Closed => b.(failures := if b.failures > 1 then b.failures - 1 else 0)
    case Open => b
  }

  function Fail(b: Breaker, cfg: Config, now: real): Breaker {
    var counted := b.(failures := b.failures + 1, lastFailure := now);
    if b.state == HalfOpen || (b.state == Closed && counted.failures >= cfg.threshold)
    then counted.(state := Open)
    else counted
  }

  function Reset(b: Breaker): Breaker {
    b.(state := Closed, failures := 0, successes := 0, halfOpenCalls := 0)
  }

  // One whole call: refused, or admitted and recorded when it ends.
  function Executed(b: Breaker, cfg: Config, start: real, ok: bool, end: real): Breaker {
    var admitted := Admit(b, cfg, start);
    if !CanExecute(b, cfg, start) then admitted
    else if ok then Succeed(admitted, cfg)
    else Fail(admitted, cfg, end)
  }

  class CircuitBreaker {
    const cfg: Config
    var state: CircuitState
    var failureCount: int
    var successCount: int
    var lastFailureTime: real
    var halfOpenCalls: int

    constructor (cfg: Config)
      ensures this.cfg == cfg && View() == FRESH
    {
      this.cfg := cfg;
      state, failureCount, successCount, lastFailureTime, halfOpenCalls := Closed, 0, 0, 0.0, 0;
    }

    function View(): Breaker
      reads this
    {
      Breaker(state, failureCount, successCount, lastFailureTime, halfOpenCalls)
    }

    method State(now: real) returns (s: CircuitState)
      modifies this
      ensures View() == Observe(old(View()), cfg, now) && s == View().state
    {
      if state == Open {
        if now - lastFailureTime > cfg.timeout {
          state := HalfOpen;
          halfOpenCalls := 0;
        }
      }
      s := state;
    }

    method RecordSuccess()
      modifies this
      ensures View() == Succeed(old(View()), cfg)
    {
      if state == HalfOpen {
        successCount := successCount + 1;
        if successCount >= cfg.maxCalls {
          state := Closed;
          failureCount := 0;
          successCount := 0;
        }
      } else if state == Closed {
        failureCount := if failureCount - 1 > 0 then failureCount - 1 else 0;
      }
    }

    method RecordFailure(now: real)
      modifies this
      ensures View() == Fail(old(View()), cfg, now)
    {
      failureCount := failureCount + 1;
      lastFailureTime := now;
      if state == HalfOpen {
        state := Open;
      } else if state == Closed {
        if failureCount >= cfg.threshold {
          state := Open;
        }
      }
    }

    method MayExecute(now: real) returns (ok: bool)
      modifies this
      ensures View() == Observe(old(View()), cfg, now) && ok == CanExecute(old(View()), cfg, now)
    {
      var s := State(now);
      if s == Closed {
        ok := true;
      } else if s == HalfOpen {
        ok := halfOpenCalls < cfg.maxCalls;
      } else {
        ok := false;
      }
    }

    // execute() up to the point where it awaits the wrapped function.
    method BeginExecute(now: real) returns (admitted: bool)
      modifies this
      ensures View() == Admit(old(View()), cfg, now) && admitted == CanExecute(old(View()), cfg, now)
    {
      admitted := MayExecute(now);
      if !admitted {
        return;
      }
      var s := State(now);
      if s == HalfOpen {
        halfOpenCalls := halfOpenCalls + 1;
      }
    }

    // execute() of a function that ends at `end`, with nothing else touching the breaker meanwhile.
    method Execute(start: real, ok: bool, end: real) returns (admitted: bool)
      modifies this
      ensures View() == Executed(old(View()), cfg, start, ok, end)
      ensures admitted == CanExecute(old(View()), cfg, start)
    {
      admitted := BeginExecute(start);
      if admitted {
        if ok {
          RecordSuccess();
        } else {
          RecordFailure(end);
        }
      }
    }

    method ResetManually()
      modifies this
      ensures View() == Reset(old(View()))
    {
      state := Closed;
      failureCount := 0;
      successCount := 0;
      halfOpenCalls := 0;
    }
  }
}
