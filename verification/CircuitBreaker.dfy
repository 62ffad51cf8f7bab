/** The proxy's circuit breaker, as a function of its event history. */
module CircuitBreaker {

  datatype State = Closed | Open | HalfOpen
  datatype Config = Config(failureThreshold: int, successThreshold: int, timeout: int)

  datatype Breaker = Breaker(state: State, failures: int, successes: int, changedAt: int,
                             requests: int, totalFailures: int, totalSuccesses: int, rejected: int)

  datatype Event = Allow(now: int) | Success(now: int) | Failure(now: int) | Reset(now: int)

  function New(now: int): Breaker {
    Breaker(Closed, 0, 0, now, 0, 0, 0, 0)
  }

  /** setState. */
  function SetState(b: Breaker, to: State, now: int): Breaker {
    if b.state == to then b
    else
      var moved := b.(state := to, changedAt := now);
      match to
      case Closed => moved.(failures := 0, successes := 0)
      case HalfOpen => moved.(successes := 0)
      case Open => moved
  }

  predicate Admits(c: Config, b: Breaker, now: int) {
    b.state != Open || now - b.changedAt >= c.timeout
  }

  function Step(c: Config, b: Breaker, e: Event): Breaker {
    match e
    case Allow(now) =>
      var counted := b.(requests := b.requests + 1);
      if b.state != Open then counted
      else if Admits(c, b, now) then SetState(counted, HalfOpen, now)
      else counted.(rejected := b.rejected + 1)
    case Success(now) =>
      var counted := b.(totalSuccesses := b.totalSuccesses + 1, failures := 0);
      (match b.state
       case Closed => counted
       case HalfOpen =>
         var more := counted.(successes := b.successes + 1);
         if more.successes >= c.successThreshold then SetState(more, Closed, now) else more
       case Open => SetState(counted.(successes := 1), HalfOpen, now))
    case Failure(now) =>
      var counted := b.(totalFailures := b.totalFailures + 1, failures := b.failures + 1, successes := 0);
      if counted.failures >= c.failureThreshold && b.state != Open then SetState(counted, Open, now) else counted
    case Reset(now) => b.(state := Closed, failures := 0, successes := 0, changedAt := now)
  }

  function Run(c: Config, start: int, h: seq<Event>): Breaker {
    if h == [] then New(start) else Step(c, Run(c, start, h[..|h| - 1]), h[|h| - 1])
  }

  // ---------- The counters are functions of the history ----------

  /** Failures since the last success or reset. */
  function TrailingFailures(h: seq<Event>): nat {
    if h == [] then 0
    else
      var rest := TrailingFailures(h[..|h| - 1]);
      match h[|h| - 1]
      case Failure(_) => rest + 1
      case Allow(_) => rest
      case _ => 0
  }

  /** Successes recorded while half-open since the last other outcome. */
  function TrailingProbes(c: Config, start: int, h: seq<Event>): nat {
    if h == [] then 0
    else
      var rest, state := TrailingProbes(c, start, h[..|h| - 1]), Run(c, start, h[..|h| - 1]).state;
      match h[|h| - 1]
      case Success(_) => if state == HalfOpen then rest + 1 else 0
      case Allow(_) => rest
      case _ => 0
  }

  lemma {:induction false} FailuresFromHistory(c: Config, start: int, h: seq<Event>)
    ensures Run(c, start, h).failures == TrailingFailures(h)
  {
    if h != [] { FailuresFromHistory(c, start, h[..|h| - 1]); }
  }

  ghost predicate Positive(c: Config) {
    c.failureThreshold >= 1 && c.successThreshold >= 1
  }

  /** Bounds per state, and the half-open counter as a function of the history. */
  lemma {:induction false} StateBounds(c: Config, start: int, h: seq<Event>)
    requires Positive(c)
    ensures var b := Run(c, start, h);
      match b.state
      case Closed => b.failures < c.failureThreshold && b.successes == 0
      case Open => b.failures >= c.failureThreshold && b.successes == 0 && TrailingProbes(c, start, h) == 0
      case HalfOpen => b.successes < c.successThreshold && b.successes == TrailingProbes(c, start, h)
  {
    FailuresFromHistory(c, start, h);
    if h != [] { StateBounds(c, start, h[..|h| - 1]); }
  }

  /** One step from each state: it opens from closed exactly on the failure that completes the threshold with no success
      in between, reopens from half-open on any failure at or above it, and closes exactly on the probe success that
      completes the other threshold, or on a reset. The time kept is that of the last change. */
  lemma Transitions(c: Config, start: int, h: seq<Event>, e: Event)
    requires Positive(c)
    ensures var before, after := Run(c, start, h).state, Run(c, start, h + [e]).state;
      && (before == Closed ==>
            && (after == Open <==> e.Failure? && TrailingFailures(h + [e]) == c.failureThreshold)
            && after != HalfOpen)
      && (before == HalfOpen ==>
            && (after == Open <==> e.Failure? && TrailingFailures(h + [e]) >= c.failureThreshold)
            && (after == Closed <==>
                e.Reset? || (e.Success? && TrailingProbes(c, start, h + [e]) == c.successThreshold)))
      && (before == Open ==>
            && (after == HalfOpen <==>
                e.Success? || (e.Allow? && e.now - Run(c, start, h).changedAt >= c.timeout))
            && (after == Closed <==> e.Reset?))
      && Run(c, start, h + [e]).changedAt ==
         if after != before || e.Reset? then e.now else Run(c, start, h).changedAt
  {
    assert (h + [e])[..|h|] == h;
    FailuresFromHistory(c, start, h);
    FailuresFromHistory(c, start, h + [e]);
    StateBounds(c, start, h);
  }

  /** A success that arrives while open half-opens the breaker but is not counted as a probe. */
  lemma LateSuccessNotCounted(c: Config, start: int, h: seq<Event>, now: int)
    requires Run(c, start, h).state == Open
    ensures var b := Run(c, start, h + [Success(now)]); b.state == HalfOpen && b.successes == 0 && b.failures == 0
  {
    assert (h + [Success(now)])[..|h|] == h;
  }

  // ---------- While open ----------

  ghost predicate Rejected(c: Config, start: int, h: seq<Event>, g: seq<Event>) {
    forall i | 0 <= i < |g| && g[i].Allow? :: !Admits(c, Run(c, start, h + g[..i]), g[i].now)
  }

  /** From the moment it opens until the timeout has passed nothing is admitted, however many requests come in and
      however many late failures are recorded. */
  lemma {:induction false} RejectsUntilTimeout(c: Config, start: int, h: seq<Event>, g: seq<Event>)
    requires Run(c, start, h).state == Open
    requires forall e | e in g :: (e.Allow? || e.Failure?) && e.now - Run(c, start, h).changedAt < c.timeout
    ensures Rejected(c, start, h, g)
    ensures Run(c, start, h + g).state == Open && Run(c, start, h + g).changedAt == Run(c, start, h).changedAt
  {
    if g == [] {
      assert h + g == h;
    } else {
      var most, e := g[..|g| - 1], g[|g| - 1];
      assert e in g;
      forall x | x in most ensures x in g {}
      RejectsUntilTimeout(c, start, h, most);
      assert (h + g)[..|h + g| - 1] == h + most;
      forall i | 0 <= i < |g| && g[i].Allow? ensures !Admits(c, Run(c, start, h + g[..i]), g[i].now) {
        if i < |most| { assert most[..i] == g[..i] && most[i] == g[i]; } else { assert g[..i] == most; }
      }
    }
  }

  // ---------- The proxy's calls ----------

  /** A request asks first and, if admitted, later reports once; a reset may come at any time. */
  datatype Call = Begin(now: int) | Finish(ok: bool, now: int) | ManualReset(now: int)
  datatype Proxy = Proxy(breaker: Breaker, inFlight: nat)

  function CallStep(c: Config, p: Proxy, call: Call): Proxy {
    match call
    case Begin(now) =>
      Proxy(Step(c, p.breaker, Allow(now)), if Admits(c, p.breaker, now) then p.inFlight + 1 else p.inFlight)
    case Finish(ok, now) =>
      if p.inFlight == 0 then p
      else Proxy(Step(c, p.breaker, if ok then Success(now) else Failure(now)), p.inFlight - 1)
    case ManualReset(now) => p.(breaker := Step(c, p.breaker, Reset(now)))
  }

  function CallRun(c: Config, start: int, calls: seq<Call>): Proxy {
    if calls == [] then Proxy(New(start), 0)
    else CallStep(c, CallRun(c, start, calls[..|calls| - 1]), calls[|calls| - 1])
  }

  /** The reports of that kind, as far as a request was in flight to make them. */
  function Reports(c: Config, start: int, calls: seq<Call>, ok: bool): nat {
    if calls == [] then 0
    else
      var before, call := calls[..|calls| - 1], calls[|calls| - 1];
      Reports(c, start, before, ok) +
          if call.Finish? && call.ok == ok && CallRun(c, start, before).inFlight > 0 then 1 else 0
  }

  /** The requests begun. */
  function Begun(calls: seq<Call>): nat {
    if calls == [] then 0 else Begun(calls[..|calls| - 1]) + if calls[|calls| - 1].Begin? then 1 else 0
  }

  /** No request is lost from the metrics: rejected, succeeded, failed or still in flight. */
  lemma {:induction false} RequestsConserved(c: Config, start: int, calls: seq<Call>)
    ensures var p := CallRun(c, start, calls);
      var b := p.breaker;
      && b.requests == b.rejected + b.totalSuccesses + b.totalFailures + p.inFlight
      && b.requests == Begun(calls) && 0 <= b.rejected
      && b.totalSuccesses == Reports(c, start, calls, true) && b.totalFailures == Reports(c, start, calls, false)
  {
    if calls != [] { RequestsConserved(c, start, calls[..|calls| - 1]); }
  }

  // ---------- The breaker object ----------

  class CircuitBreaker {
    const config: Config
    var state: State
    var failures: int
    var successes: int
    var changedAt: int
    var requests: int
    var totalFailures: int
    var totalSuccesses: int
    var rejected: int

    function View(): Breaker
      reads this
    {
      Breaker(state, failures, successes, changedAt, requests, totalFailures, totalSuccesses, rejected)
    }

    constructor (c: Config, now: int)
      ensures config == c && View() == New(now)
    {
      config := c;
      state, changedAt := Closed, now;
      failures, successes, requests, totalFailures, totalSuccesses, rejected := 0, 0, 0, 0, 0, 0;
    }

    method ChangeState(to: State, now: int)
      modifies this
      ensures View() == SetState(old(View()), to, now)
    {
      if state != to {
        state := to;
        changedAt := now;
        match to {
          case Closed => failures, successes := 0, 0;
          case HalfOpen => successes := 0;
          case Open =>
        }
      }
    }

    method AllowRequest(now: int) returns (ok: bool)
      modifies this
      ensures View() == Step(config, old(View()), Allow(now))
      ensures ok <==> old(state) != Open || now - old(changedAt) >= config.timeout
    {
      requests := requests + 1;
      match state {
        case Closed => ok := true;
        case HalfOpen => ok := true;
        case Open =>
          if now - changedAt >= config.timeout {
            ChangeState(HalfOpen, now);
            ok := true;
          } else {
            rejected := rejected + 1;
            ok := false;
          }
      }
    }

    method RecordSuccess(now: int)
      modifies this
      ensures View() == Step(config, old(View()), Success(now))
    {
      totalSuccesses := totalSuccesses + 1;
      match state {
        case Closed => failures := 0;
        case HalfOpen =>
          successes, failures := successes + 1, 0;
          if successes >= config.successThreshold { ChangeState(Closed, now); }
        case Open =>
          successes, failures := 1, 0;
          ChangeState(HalfOpen, now);
      }
    }

    method RecordFailure(now: int)
      modifies this
      ensures View() == Step(config, old(View()), Failure(now))
    {
      totalFailures := totalFailures + 1;
      failures, successes := failures + 1, 0;
      if failures >= config.failureThreshold && (state == Closed || state == HalfOpen) { ChangeState(Open, now); }
    }

    method ResetBreaker(now: int)
      modifies this
      ensures View() == Step(config, old(View()), Reset(now))
    {
      state, failures, successes, changedAt := Closed, 0, 0, now;
    }
  }
}
