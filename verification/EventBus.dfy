/** The event bus: deliveries with exponential retry, and the cleanup of old events.
    Times and delays are nanoseconds on one clock; int64 arithmetic on delays wraps around as in Go. */
module EventBus {
  import opened Base

  datatype Status = Pending | Delivered | Failed | DeadLettered
  datatype Delivery = Delivery(event: nat, subscriber: string, status: Status, attempts: nat, nextRetry: int)
  datatype Config = Config(maxRetries: int, retryDelay: int)

  // ---------- Backoff ----------

  function Pow2(k: nat): (p: int)
    ensures p >= 1
  {
    if k == 0 then 1 else 2 * Pow2(k - 1)
  }

  /** retryDelay * time.Duration(1 << uint(attempt)). */
  function Backoff(delay: int, attempt: nat): int64 {
    var shifted: int := if attempt >= 64 then 0 else Wrap64(Pow2(attempt));
    Wrap64(delay * shifted)
  }

  lemma {:induction false} Pow2Monotone(a: nat, b: nat)
    requires a <= b
    ensures Pow2(a) <= Pow2(b)
    decreases b
  {
    if a < b { Pow2Monotone(a, b - 1); }
  }

  lemma Pow2Of63()
    ensures Pow2(62) == 0x4000_0000_0000_0000 && Pow2(63) == 0x8000_0000_0000_0000
  {
    assert Pow2(10) == 0x400;
    assert Pow2(20) == 0x10_0000;
    assert Pow2(30) == 0x4000_0000;
    assert Pow2(40) == 0x100_0000_0000;
    assert Pow2(50) == 0x4_0000_0000_0000;
    assert Pow2(60) == 0x1000_0000_0000_0000;
  }

  lemma ProductMonotone(d: int, x: int, y: int)
    requires d >= 0 && x <= y
    ensures d * x <= d * y
  {
  }

  /** The delay doubles with every attempt exactly as long as the product fits in an int64, for any delay. */
  lemma BackoffExactIff(delay: int, attempt: nat)
    ensures Backoff(delay, attempt) == delay * Pow2(attempt) <==>
            -0x8000_0000_0000_0000 <= delay * Pow2(attempt) < 0x8000_0000_0000_0000
  {
    Pow2Of63();
    hide Pow2;
    if attempt <= 62 {
      Pow2Monotone(attempt, 62);
    } else {
      Pow2Monotone(63, attempt);
      if attempt >= 64 { assert Pow2(64) == 2 * Pow2(63) by { Pow2Next(63); } Pow2Monotone(64, attempt); }
      if delay >= 1 { ProductMonotone(Pow2(attempt), 1, delay); }
      if delay <= -1 { ProductMonotone(Pow2(attempt), delay, -1); }
      if delay <= -2 { ProductMonotone(Pow2(attempt), delay, -2); }
    }
  }

  lemma {:induction false} Pow2Add(a: nat, b: nat)
    ensures Pow2(a + b) == Pow2(a) * Pow2(b)
  {
    if a > 0 {
      Pow2Add(a - 1, b);
      assert Pow2(a + b) == 2 * Pow2(a - 1 + b);
    }
  }

  lemma WrapsAround(x: int, k: int)
    ensures Wrap64(x + k * 0x1_0000_0000_0000_0000) == Wrap64(x)
  {
  }

  /** In every case the delay is the product as an int64, shift and all. */
  lemma BackoffWraps(delay: int, attempt: nat)
    ensures Backoff(delay, attempt) == Wrap64(delay * Pow2(attempt))
  {
    Pow2Of63();
    hide Pow2;
    if attempt <= 62 {
      Pow2Monotone(attempt, 62);
    } else if attempt == 63 {
      assert delay * (Pow2(63) - 0x1_0000_0000_0000_0000) == delay * Pow2(63) + (-delay) * 0x1_0000_0000_0000_0000;
      WrapsAround(delay * Pow2(63), -delay);
    } else {
      Pow2Next(63);
      Pow2Add(64, attempt - 64);
      var k := delay * Pow2(attempt - 64);
      assert delay * Pow2(attempt) == k * Pow2(64) by { Regroup(delay, Pow2(64), Pow2(attempt - 64)); }
      WrapsAround(0, k);
    }
  }

  lemma Regroup(a: int, b: int, c: int)
    ensures a * (b * c) == (a * c) * b
  {
  }

  lemma Pow2Next(k: nat)
    ensures Pow2(k + 1) == 2 * Pow2(k)
  {
  }

  // ---------- Marks ----------

  /** markFailed; `seen` is the attempt count read when the delivery was selected. */
  function MarkFailed(c: Config, d: Delivery, seen: nat, now: int): Delivery {
    if seen + 1 >= c.maxRetries then d.(status := DeadLettered, attempts := seen + 1)
    else d.(status := Failed, attempts := seen + 1, nextRetry := now + Backoff(c.retryDelay, seen + 1))
  }

  function MarkDelivered(d: Delivery): Delivery {
    d.(status := Delivered)
  }

  predicate Due(d: Delivery, now: int) {
    d.status in {Pending, Failed} && d.nextRetry <= now
  }

  // ---------- One delivery, any number of processors ----------

  type ProcessorId = nat

  /** The row, the time of the last statement, the attempt count each processor read when it selected the row, and the
      times of the recorded failures. */
  datatype World = World(d: Delivery, clock: int, held: map<ProcessorId, nat>, failures: seq<int>)

  /** The selecting query, the mark after the handler, and a processor that gives up without a mark. A mark may be lost,
      as its error is ignored. */
  datatype Action =
    | Select(p: ProcessorId, now: int)
    | Mark(p: ProcessorId, ok: bool, written: bool, now: int)
    | Drop(p: ProcessorId)

  function Start(event: nat, subscriber: string, published: int): World {
    World(Delivery(event, subscriber, Pending, 0, published), published, map[], [])
  }

  function Step(c: Config, w: World, a: Action): World {
    match a
    case Select(p, now) =>
      if w.clock <= now && p !in w.held && Due(w.d, now)
      then w.(clock := now, held := w.held[p := w.d.attempts]) else w
    case Mark(p, ok, written, now) =>
      if !(w.clock <= now && p in w.held) then w
      else
        var done := w.(clock := now, held := w.held - {p});
        if !written then done
        else if ok then done.(d := MarkDelivered(w.d))
        else done.(d := MarkFailed(c, w.d, w.held[p], now), failures := w.failures + [now])
    case Drop(p) => w.(held := w.held - {p})
  }

  function Run(c: Config, w: World, acts: seq<Action>): World {
    if acts == [] then w else Step(c, Run(c, w, acts[..|acts| - 1]), acts[|acts| - 1])
  }

  function MaxFailures(c: Config): nat {
    if c.maxRetries < 1 then 1 else c.maxRetries
  }

  /** The step records a failure. */
  predicate Records(w: World, a: Action) {
    a.Mark? && !a.ok && a.written && a.p in w.held && w.clock <= a.now
  }

  /** A recorded failure counts one attempt more than its processor read; the row becomes a dead letter exactly when
      that uses up the retries, and otherwise waits retryDelay·2^attempts, as an int64. */
  lemma FailureEffect(c: Config, w: World, a: Action)
    requires Records(w, a)
    ensures var d, n := Step(c, w, a).d, w.held[a.p] + 1;
      && d.attempts == n && d.event == w.d.event && d.subscriber == w.d.subscriber
      && (d.status == DeadLettered <==> n >= c.maxRetries) && (d.status == Failed <==> n < c.maxRetries)
      && d.nextRetry == if n < c.maxRetries then a.now + Wrap64(c.retryDelay * Pow2(n)) else w.d.nextRetry
  {
    BackoffWraps(c.retryDelay, w.held[a.p] + 1);
    hide Backoff, Wrap64;
  }

  // ---------- Dead letters come late enough ----------

  ghost predicate NoOverflow(c: Config) {
    c.retryDelay >= 1 && (c.maxRetries >= 1 ==> c.retryDelay * Pow2(c.maxRetries - 1) < 0x8000_0000_0000_0000)
  }

  /** The delays before the second to the n-th failure, added up. */
  function Span(delay: int, n: nat): int {
    delay * (Pow2(n) - 2)
  }

  lemma SpanGrows(delay: int, n: nat)
    ensures Span(delay, n + 1) == Span(delay, n) + delay * Pow2(n) && Span(delay, 1) == 0
  {
    assert Pow2(n + 1) - 2 == (Pow2(n) - 2) + Pow2(n);
    assert delay * (Pow2(1) - 2) == 0;
  }

  lemma RetryScheduled(c: Config, n: nat)
    requires NoOverflow(c) && n < c.maxRetries
    ensures Backoff(c.retryDelay, n) == c.retryDelay * Pow2(n)
  {
    Pow2Monotone(n, c.maxRetries - 1);
    ProductMonotone(c.retryDelay, Pow2(n), Pow2(c.maxRetries - 1));
    BackoffExactIff(c.retryDelay, n);
  }

  /** The attempt counts, in the row and in the hands of processors, never exceed the recorded failures, and the status
      says whether the row's count is used up. */
  ghost predicate CountOk(c: Config, w: World) {
    && w.d.attempts <= |w.failures| && w.d.attempts <= MaxFailures(c)
    && (w.d.status == Pending ==> w.d.attempts == 0)
    && (w.d.status == Failed ==> 0 < w.d.attempts < MaxFailures(c))
    && (w.d.status == DeadLettered ==> w.d.attempts == MaxFailures(c))
    && forall p | p in w.held :: w.held[p] < MaxFailures(c) && w.held[p] <= |w.failures|
  }

  /** A failed row waits, and a processor has waited, for all the delays its attempt count stands for. */
  ghost predicate SpacedOk(c: Config, w: World) {
    && (w.failures != [] ==> w.failures[0] <= w.clock)
    && (w.d.status == Failed && w.failures != [] ==>
          w.d.nextRetry - w.failures[0] >= Span(c.retryDelay, w.d.attempts + 1))
    && (w.d.status == DeadLettered && w.failures != [] ==>
          w.failures[|w.failures| - 1] - w.failures[0] >= Span(c.retryDelay, w.d.attempts))
    && forall p | p in w.held && w.held[p] > 0 && w.failures != [] ::
         w.clock - w.failures[0] >= Span(c.retryDelay, w.held[p] + 1)
  }

  lemma CountKept(c: Config, w: World, a: Action)
    requires CountOk(c, w)
    ensures CountOk(c, Step(c, w, a))
  {
  }

  lemma FailureSpaced(c: Config, w: World, a: Action)
    requires NoOverflow(c) && CountOk(c, w) && SpacedOk(c, w) && Records(w, a)
    ensures SpacedOk(c, Step(c, w, a))
  {
    var w', seen := Step(c, w, a), w.held[a.p];
    var first := if w.failures == [] then a.now else w.failures[0];
    assert w'.failures[0] == first && w'.failures[|w'.failures| - 1] == a.now;
    if seen + 1 < c.maxRetries { RetryScheduled(c, seen + 1); }
    SpanGrows(c.retryDelay, 0);
    SpanGrows(c.retryDelay, seen + 1);
    hide Backoff, Span, Pow2, NoOverflow;
    assert a.now - first >= Span(c.retryDelay, seen + 1);
  }

  lemma StepSpaced(c: Config, w: World, a: Action)
    requires NoOverflow(c) && CountOk(c, w) && SpacedOk(c, w)
    ensures SpacedOk(c, Step(c, w, a))
  {
    if Records(w, a) {
      FailureSpaced(c, w, a);
    } else {
      hide Span, Backoff;
    }
  }

  lemma {:induction false} RunOk(c: Config, w: World, acts: seq<Action>)
    requires CountOk(c, w) && SpacedOk(c, w)
    ensures CountOk(c, Run(c, w, acts)) && (NoOverflow(c) ==> SpacedOk(c, Run(c, w, acts)))
  {
    if acts != [] {
      var before, a := Run(c, w, acts[..|acts| - 1]), acts[|acts| - 1];
      RunOk(c, w, acts[..|acts| - 1]);
      CountKept(c, before, a);
      if NoOverflow(c) { StepSpaced(c, before, a); }
      hide CountOk, SpacedOk, NoOverflow, Step;
    }
  }

  /** Any number of processors, any interleaving, any lost marks: a dead letter has at least maxRetries recorded
      failures; and, unless a delay overflows, at least retryDelay·(2^maxRetries − 2) lies between the first and the
      last. */
  lemma DeadLetteredLateEnough(c: Config, event: nat, subscriber: string, published: int, acts: seq<Action>)
    ensures var w := Run(c, Start(event, subscriber, published), acts);
      && w.d.attempts <= |w.failures|
      && (w.d.status == DeadLettered ==> |w.failures| >= MaxFailures(c))
      && (w.d.status == DeadLettered && NoOverflow(c) ==>
            w.failures[|w.failures| - 1] - w.failures[0] >= Span(c.retryDelay, MaxFailures(c)))
  {
    RunOk(c, Start(event, subscriber, published), acts);
  }

  /** One processor, a handler that always fails, and every retry as soon as it is due. */
  function FailingRounds(delay: int, published: int, n: nat): seq<Action> {
    if n == 0 then []
    else
      var now := published + Span(delay, n);
      FailingRounds(delay, published, n - 1) + [Select(0, now), Mark(0, false, true, now)]
  }

  lemma RunTwo(c: Config, w: World, acts: seq<Action>, a: Action, b: Action)
    ensures Run(c, w, acts + [a, b]) == Step(c, Step(c, Run(c, w, acts), a), b)
  {
    hide Step;
    var all := acts + [a, b];
    assert all[..|all| - 1] == acts + [a] && (acts + [a])[..|acts|] == acts;
  }

  lemma FailingRound(c: Config, w: World, now: int)
    requires w.clock <= now && w.held == map[] && Due(w.d, now)
    ensures var w' := Step(c, Step(c, w, Select(0, now)), Mark(0, false, true, now));
      w'.clock == now && w'.held == map[] && w'.d == MarkFailed(c, w.d, w.d.attempts, now) &&
      w'.failures == w.failures + [now]
  {
    hide MarkFailed;
  }

  lemma SpanPositive(delay: int, n: nat)
    requires delay >= 1 && n >= 1
    ensures Span(delay, n) <= Span(delay, n + 1) && Span(delay, n) >= 0
  {
    SpanGrows(delay, n);
    Pow2Monotone(1, n);
    ProductMonotone(delay, 0, Pow2(n) - 2);
    ProductMonotone(delay, 0, Pow2(n));
  }

  /** The bound is reached: a delivery that always fails is tried maxRetries times, at once and then each time
      retryDelay·2^k after the k-th failure, and the last of these makes it a dead letter. */
  lemma {:induction false} DeadLetteredOnTime(c: Config, event: nat, subscriber: string, published: int, n: nat)
    requires NoOverflow(c) && n <= MaxFailures(c)
    ensures var w := Run(c, Start(event, subscriber, published), FailingRounds(c.retryDelay, published, n));
      && w.held == map[] && |w.failures| == w.d.attempts == n
      && w.d.status == (if n == 0 then Pending else if n < MaxFailures(c) then Failed else DeadLettered)
      && (n > 0 ==> w.failures[0] == published && w.failures[n - 1] == w.clock == published + Span(c.retryDelay, n))
      && (n == 0 ==> w.clock == w.d.nextRetry == published)
      && (0 < n < MaxFailures(c) ==> w.d.nextRetry == published + Span(c.retryDelay, n + 1))
  {
    if n > 0 {
      var start, before := Start(event, subscriber, published), FailingRounds(c.retryDelay, published, n - 1);
      var w, now := Run(c, start, before), published + Span(c.retryDelay, n);
      DeadLetteredOnTime(c, event, subscriber, published, n - 1);
      RunTwo(c, start, before, Select(0, now), Mark(0, false, true, now));
      SpanGrows(c.retryDelay, n);
      if n > 1 { SpanPositive(c.retryDelay, n - 1); }
      if n < c.maxRetries { RetryScheduled(c, n); }
      hide Run, Step, Span, Backoff, Pow2, NoOverflow;
      FailingRound(c, w, now);
    }
  }

  // ---------- Exactly on the last failure ----------

  /** Every recorded failure found the attempt count that its processor had read. */
  ghost predicate AllCurrent(c: Config, w: World, acts: seq<Action>) {
    forall i | 0 <= i < |acts| ::
      var before := Run(c, w, acts[..i]);
      Records(before, acts[i]) ==> before.held[acts[i].p] == before.d.attempts
  }

  /** No failure is lost up to any point of the run. */
  ghost predicate AllCounted(c: Config, w: World, acts: seq<Action>) {
    forall k | 0 <= k <= |acts| :: Run(c, w, acts[..k]).d.attempts == |Run(c, w, acts[..k]).failures|
  }

  lemma CountedStep(c: Config, w: World, a: Action)
    requires w.d.attempts == |w.failures|
    ensures Step(c, w, a).d.attempts == |Step(c, w, a).failures| <==> (Records(w, a) ==> w.held[a.p] == w.d.attempts)
  {
  }

  lemma RunStep(c: Config, w: World, acts: seq<Action>, i: nat)
    requires i < |acts|
    ensures Run(c, w, acts[..i + 1]) == Step(c, Run(c, w, acts[..i]), acts[i])
  {
    assert acts[..i + 1][..i] == acts[..i];
  }

  lemma {:induction false} CurrentMeansCounted(c: Config, w: World, acts: seq<Action>, k: nat)
    requires w.d.attempts == |w.failures| && AllCurrent(c, w, acts) && k <= |acts|
    ensures Run(c, w, acts[..k]).d.attempts == |Run(c, w, acts[..k]).failures|
  {
    if k == 0 {
      assert acts[..0] == [];
    } else {
      CurrentMeansCounted(c, w, acts, k - 1);
      RunStep(c, w, acts, k - 1);
      CountedStep(c, Run(c, w, acts[..k - 1]), acts[k - 1]);
    }
  }

  /** The count is exact throughout a run exactly when no processor writes a failure over a count it has not read. */
  lemma CountedIffCurrent(c: Config, event: nat, subscriber: string, published: int, acts: seq<Action>)
    ensures var w := Start(event, subscriber, published); AllCounted(c, w, acts) <==> AllCurrent(c, w, acts)
  {
    var w := Start(event, subscriber, published);
    if AllCurrent(c, w, acts) {
      forall k | 0 <= k <= |acts| ensures Run(c, w, acts[..k]).d.attempts == |Run(c, w, acts[..k]).failures| {
        CurrentMeansCounted(c, w, acts, k);
      }
    } else {
      var i :| 0 <= i < |acts| && Records(Run(c, w, acts[..i]), acts[i])
               && Run(c, w, acts[..i]).held[acts[i].p] != Run(c, w, acts[..i]).d.attempts;
      RunStep(c, w, acts, i);
      if Run(c, w, acts[..i]).d.attempts == |Run(c, w, acts[..i]).failures| {
        CountedStep(c, Run(c, w, acts[..i]), acts[i]);
        assert Run(c, w, acts[..i + 1]).d.attempts != |Run(c, w, acts[..i + 1]).failures|;
      }
    }
  }

  /** Then a delivery is dead-lettered exactly on its last allowed recorded failure, and none is recorded beyond it. */
  lemma DeadLetteredOnLastFailure(c: Config, event: nat, subscriber: string, published: int, acts: seq<Action>,
                                  a: Action)
    requires AllCurrent(c, Start(event, subscriber, published), acts + [a])
    ensures var w := Run(c, Start(event, subscriber, published), acts);
      Records(w, a) ==>
        var w' := Step(c, w, a);
        && |w'.failures| <= MaxFailures(c)
        && (w'.d.status == DeadLettered <==> |w'.failures| == MaxFailures(c))
  {
    var start, all := Start(event, subscriber, published), acts + [a];
    assert all[..|acts|] == acts && all[|acts|] == a;
    CurrentMeansCounted(c, start, all, |acts|);
    RunOk(c, start, acts);
  }

  /** n processors that select the row together each record a failure and the row still counts one attempt: with two or
      more retries the failures are unbounded and the row is no dead letter. */
  lemma FailuresUnbounded(c: Config, event: nat, subscriber: string, published: int, n: nat)
    requires c.maxRetries >= 2 && n >= 1
    ensures var w := Run(c, Start(event, subscriber, published), Together(published, n, n));
      |w.failures| == n && w.d.attempts == 1 && w.d.status == Failed
  {
    TogetherRun(c, event, subscriber, published, n, n);
  }

  /** n selections, then the failing marks of the first m of these processors. */
  function Together(now: int, n: nat, m: nat): seq<Action> {
    if m > 0 then Together(now, n, m - 1) + [Mark(m - 1, false, true, now)]
    else if n > 0 then Together(now, n - 1, 0) + [Select(n - 1, now)]
    else []
  }

  lemma {:induction false} TogetherRun(c: Config, event: nat, subscriber: string, published: int, n: nat, m: nat)
    requires c.maxRetries >= 2 && m <= n
    ensures var start := Start(event, subscriber, published);
      var w := Run(c, start, Together(published, n, m));
      && w.clock == published && |w.failures| == m
      && w.d == (if m == 0 then start.d else MarkFailed(c, start.d, 0, published))
      && (forall p :: p in w.held <==> m <= p < n) && forall p | p in w.held :: w.held[p] == 0
    decreases n, m
  {
    var acts := Together(published, n, m);
    MarkedAgain(c, Start(event, subscriber, published).d, published);
    hide MarkFailed;
    if m > 0 {
      TogetherRun(c, event, subscriber, published, n, m - 1);
      assert acts[..|acts| - 1] == Together(published, n, m - 1);
    } else if n > 0 {
      TogetherRun(c, event, subscriber, published, n - 1, 0);
      assert acts[..|acts| - 1] == Together(published, n - 1, 0);
    }
  }

  lemma MarkedAgain(c: Config, d: Delivery, now: int)
    ensures MarkFailed(c, MarkFailed(c, d, 0, now), 0, now) == MarkFailed(c, d, 0, now)
  {
  }

  ghost predicate StaysSettled(c: Config, w: World) {
    forall acts :: Run(c, w, acts).d.status == w.d.status
  }

  /** A settled row stays as it is in every continuation exactly when no processor still holds it: otherwise a failing
      mark can make a delivered event fail again, and a late success can revive a dead letter. */
  lemma SettledStaysIff(c: Config, w: World)
    requires w.d.status in {Delivered, DeadLettered}
    ensures StaysSettled(c, w) <==> w.held == map[]
  {
    if w.held == map[] {
      forall acts ensures Run(c, w, acts).d.status == w.d.status { NobodyHolds(c, w, acts); }
    } else {
      var p :| p in w.held;
      var act := Mark(p, w.d.status == DeadLettered, true, w.clock);
      var acts := [act];
      assert acts[..0] == [];
      assert Run(c, w, acts) == Step(c, w, act);
      assert Run(c, w, acts).d.status != w.d.status;
    }
  }

  lemma {:induction false} NobodyHolds(c: Config, w: World, acts: seq<Action>)
    requires w.d.status in {Delivered, DeadLettered} && w.held == map[]
    ensures Run(c, w, acts).d == w.d && Run(c, w, acts).held == map[]
  {
    if acts != [] { NobodyHolds(c, w, acts[..|acts| - 1]); }
  }

  // ---------- Events and cleanup ----------

  /** Events by id with their time; delivery rows, each referring to an event. */
  datatype Tables = Tables(events: map<nat, int>, deliveries: seq<Delivery>)

  /** The foreign key of the deliveries table; it has no cascade. */
  ghost predicate Referential(t: Tables) {
    forall d | d in t.deliveries :: d.event in t.events
  }

  predicate Unsettled(d: Delivery) {
    d.status in {Pending, Failed}
  }

  /** The events the cleanup statement selects. */
  function Selected(t: Tables, cutoff: int): set<nat> {
    set e | e in t.events && t.events[e] < cutoff && forall d | d in t.deliveries && d.event == e :: !Unsettled(d)
  }

  /** DELETE: refused as a whole when a selected event still has a delivery row. */
  function Cleanup(t: Tables, cutoff: int): (r: (Tables, bool))
  {
    var gone := Selected(t, cutoff);
    if exists d | d in t.deliveries :: d.event in gone then (t, false) else (t.(events := t.events - gone), true)
  }

  /** Cleanup keeps every event with an unsettled delivery and the references intact. It removes the events before the
      cutoff without a pending or failed delivery, exactly when no such event was ever delivered to anyone; otherwise it
      fails without effect. */
  lemma CleanupSafe(t: Tables, cutoff: int)
    requires Referential(t)
    ensures var (t', ok) := Cleanup(t, cutoff);
      && Referential(t') && t'.deliveries == t.deliveries
      && (forall d | d in t.deliveries && d.status in {Pending, Failed} :: d.event in t'.events)
      && (forall e | e in t'.events :: e in t.events && t'.events[e] == t.events[e])
      && (ok <==> forall d | d in t.deliveries ::
            t.events[d.event] >= cutoff ||
            exists x :: x in t.deliveries && x.event == d.event && x.status in {Pending, Failed})
      && (forall e | e in t.events :: e !in t'.events <==>
            && ok && t.events[e] < cutoff
            && forall d | d in t.deliveries && d.event == e :: d.status !in {Pending, Failed})
  {
  }

  // ---------- The bus object ----------

  /** What becomes of a selected row: it cannot be scanned, or it is handled (bad JSON counts as a failed handler) and
      marked at some later time. */
  datatype Outcome = Unreadable | Handled(ok: bool, written: bool, at: int)

  function AfterOutcome(c: Config, d: Delivery, o: Outcome): Delivery {
    match o
    case Unreadable => d
    case Handled(ok, written, at) =>
      if !written then d else if ok then MarkDelivered(d) else MarkFailed(c, d, d.attempts, at)
  }

  /** The steps by which one processor handles one row. */
  function Handling(p: ProcessorId, o: Outcome, now: int): seq<Action> {
    [Select(p, now)] + match o case Unreadable => [Drop(p)] case Handled(ok, written, at) => [Mark(p, ok, written, at)]
  }

  /** An undisturbed row goes through a run of the protocol. */
  lemma OutcomeIsRun(c: Config, w: World, p: ProcessorId, o: Outcome, now: int)
    requires w.clock <= now && p !in w.held && Due(w.d, now) && (o.Handled? ==> now <= o.at)
    ensures var w' := Run(c, w, Handling(p, o, now)); w'.d == AfterOutcome(c, w.d, o) && w'.held == w.held
  {
    var acts := Handling(p, o, now);
    assert acts[..2] == acts && acts[..0] == [];
    RunStep(c, w, acts, 0);
    RunStep(c, w, acts, 1);
  }

  /** The table while a batch is worked off. */
  ghost predicate BatchRows(c: Config, before: seq<Delivery>, rows: seq<Delivery>, chosen: seq<nat>,
                            outcomes: seq<Outcome>, reached: nat)
  {
    && reached <= |chosen| == |outcomes| && |rows| == |before|
    && (forall k | 0 <= k < |chosen| ::
          chosen[k] < |rows|
          && rows[chosen[k]] ==
             if k < reached then AfterOutcome(c, before[chosen[k]], outcomes[k]) else before[chosen[k]])
    && forall i | 0 <= i < |rows| && i !in chosen :: rows[i] == before[i]
  }

  lemma NextRow(c: Config, before: seq<Delivery>, rows: seq<Delivery>, chosen: seq<nat>, outcomes: seq<Outcome>, k: nat)
    requires BatchRows(c, before, rows, chosen, outcomes, k) && k < |chosen|
    requires forall i, j | 0 <= i < j < |chosen| :: chosen[i] != chosen[j]
    ensures rows[chosen[k]] == before[chosen[k]]
    ensures BatchRows(c, before, rows[chosen[k] := AfterOutcome(c, before[chosen[k]], outcomes[k])], chosen, outcomes,
            k + 1)
  {
    hide AfterOutcome;
  }

  class Bus {
    const config: Config
    var tables: Tables

    constructor (maxRetries: int, retryDelay: int)
      ensures config == Config(if maxRetries == 0 then 3 else maxRetries,
                               if retryDelay == 0 then 1_000_000_000 else retryDelay)
      ensures tables == Tables(map[], [])
    {
      config := Config(if maxRetries == 0 then 3 else maxRetries,
                       if retryDelay == 0 then 1_000_000_000 else retryDelay);
      tables := Tables(map[], []);
    }

    /** Publish: the event and one pending delivery per subscription, in one transaction. */
    method Publish(event: nat, occurredAt: int, subscribers: seq<string>, now: int, db: TxResult) returns (ok: bool)
      requires event !in tables.events && Referential(tables)
      modifies this
      ensures ok == !db.Error() && Referential(tables)
      ensures !db.Applied() ==> tables == old(tables)
      ensures db.Applied() ==>
                && tables.events == old(tables).events[event := occurredAt]
                && |tables.deliveries| == |old(tables).deliveries| + |subscribers|
                && tables.deliveries[..|old(tables).deliveries|] == old(tables).deliveries
      ensures db.Applied() ==> forall i | 0 <= i < |subscribers| ::
                tables.deliveries[|old(tables).deliveries| + i] == Delivery(event, subscribers[i], Pending, 0, now)
    {
      var rows: seq<Delivery> := [];
      for i := 0 to |subscribers|
        invariant |rows| == i && forall k | 0 <= k < i :: rows[k] == Delivery(event, subscribers[k], Pending, 0, now)
      {
        rows := rows + [Delivery(event, subscribers[i], Pending, 0, now)];
      }
      if db.Applied() {
        tables := Tables(tables.events[event := occurredAt], tables.deliveries + rows);
      }
      ok := !db.Error();
    }

    /** The mark after a failed handler; its error is ignored. */
    method RecordFailure(i: nat, seen: nat, now: int, written: bool)
      requires i < |tables.deliveries| && Referential(tables)
      modifies this
      ensures var rows := old(tables).deliveries;
              tables == if written
                        then old(tables).(deliveries := rows[i := MarkFailed(config, rows[i], seen, now)])
                        else old(tables)
      ensures Referential(tables)
      ensures written ==>
                var d, n := tables.deliveries[i], seen + 1;
                && d.attempts == n && d.status == (if n >= config.maxRetries then DeadLettered else Failed)
                && (n < config.maxRetries ==> d.nextRetry == now + Wrap64(config.retryDelay * Pow2(n)))
    {
      BackoffWraps(config.retryDelay, seen + 1);
      hide Backoff, Wrap64;
      if written {
        var attempt := seen + 1;
        var d := tables.deliveries[i];
        if attempt >= config.maxRetries {
          d := d.(status := DeadLettered, attempts := attempt);
        } else {
          d := d.(status := Failed, attempts := attempt, nextRetry := now + Backoff(config.retryDelay, attempt));
        }
        assert d.event == tables.deliveries[i].event;
        tables := tables.(deliveries := tables.deliveries[i := d]);
      }
    }

    /** ProcessPending without interference: `chosen` are the rows of the query, in order; each is marked as its outcome
        says, from the attempt count the query returned, and no other row changes. */
    method ProcessPending(subscriber: string, chosen: seq<nat>, outcomes: seq<Outcome>, now: int)
      requires Referential(tables) && |outcomes| == |chosen|
      requires forall i, j | 0 <= i < j < |chosen| :: chosen[i] != chosen[j]
      requires forall i | 0 <= i < |chosen| ::
                 chosen[i] < |tables.deliveries| && tables.deliveries[chosen[i]].subscriber == subscriber
                 && Due(tables.deliveries[chosen[i]], now)
      modifies this
      ensures Referential(tables) && tables.events == old(tables).events
      ensures BatchRows(config, old(tables).deliveries, tables.deliveries, chosen, outcomes, |chosen|)
    {
      ghost var before := tables.deliveries;
      var seen := seq(|chosen|, i requires 0 <= i < |chosen| && chosen[i] < |tables.deliveries| reads this =>
                        tables.deliveries[chosen[i]].attempts);
      for k := 0 to |chosen|
        invariant Referential(tables) && tables.events == old(tables).events
        invariant BatchRows(config, before, tables.deliveries, chosen, outcomes, k)
      {
        var i := chosen[k];
        NextRow(config, before, tables.deliveries, chosen, outcomes, k);
        assert tables.deliveries[i] in tables.deliveries;
        match outcomes[k] {
          case Unreadable =>
            assert tables.deliveries[i := tables.deliveries[i]] == tables.deliveries;
          case Handled(ok, written, at) =>
            if ok {
              if written {
                tables := tables.(deliveries := tables.deliveries[i := tables.deliveries[i].(status := Delivered)]);
              }
            } else {
              RecordFailure(i, seen[k], at, written);
            }
            assert !written ==> tables.deliveries[i := tables.deliveries[i]] == tables.deliveries;
        }
      }
    }
  }
}
