/** The router's per-client rate limiter: real-valued token buckets behind a map whose idle entries are removed.
    Floating point is modelled by reals, time by seconds that never run backwards. */
module RouterRateLimit {

  const IDLE: real := 600.0

  /** RequestsPerSecond and Burst; the burst is a whole number. */
  datatype Config = Config(rate: real, burst: nat)

  datatype Bucket = Bucket(tokens: real, last: real)
  type Store = map<string, Bucket>

  datatype Op = Take(client: string, now: real) | Cleanup(now: real)

  function Capacity(c: Config): real {
    c.burst as real
  }

  function NewBucket(c: Config, now: real): Bucket {
    Bucket(Capacity(c), now)
  }

  /** The refill of a span of time. */
  function Earned(c: Config, span: real): real {
    span * c.rate
  }

  /** The tokens after refilling up to `now`. */
  function Refilled(c: Config, b: Bucket, now: real): real {
    var grown := b.tokens + (now - b.last) * c.rate;
    if grown > Capacity(c) then Capacity(c) else grown
  }

  /** tokenBucket.take. */
  function TakeOne(c: Config, b: Bucket, now: real): (Bucket, bool) {
    var tokens := Refilled(c, b, now);
    if tokens >= 1.0 then (Bucket(tokens - 1.0, now), true) else (Bucket(tokens, now), false)
  }

  function Lookup(c: Config, s: Store, client: string, now: real): Bucket {
    if client in s then s[client] else NewBucket(c, now)
  }

  predicate Stale(b: Bucket, now: real) {
    now - b.last > IDLE
  }

  function Evicted(s: Store, now: real): Store {
    map client | client in s && !Stale(s[client], now) :: s[client]
  }

  /** One operation; a tick answers nothing, shown as `true`. */
  function Step(c: Config, evict: bool, s: Store, op: Op): (Store, bool) {
    match op
    case Take(client, now) =>
      var (b, ok) := TakeOne(c, Lookup(c, s, client, now), now);
      (s[client := b], ok)
    case Cleanup(now) => (if evict then Evicted(s, now) else s, true)
  }

  function Run(c: Config, evict: bool, s: Store, ops: seq<Op>): (Store, seq<bool>) {
    if ops == [] then (s, [])
    else
      var before := Run(c, evict, s, ops[..|ops| - 1]);
      var (s', ok) := Step(c, evict, before.0, ops[|ops| - 1]);
      (s', before.1 + [ok])
  }

  ghost predicate Ordered(ops: seq<Op>) {
    forall i, j | 0 <= i < j < |ops| :: ops[i].now <= ops[j].now
  }

  /** The evicting middleware answers every run as one that keeps all buckets. */
  ghost predicate Invisible(c: Config) {
    forall ops | Ordered(ops) :: Run(c, true, map[], ops).1 == Run(c, false, map[], ops).1
  }

  // ---------- Enough refill: eviction is invisible ----------

  ghost predicate BucketOk(c: Config, b: Bucket, now: real) {
    0.0 <= b.tokens <= Capacity(c) && b.last <= now
  }

  ghost predicate Agree(c: Config, evicting: Store, kept: Store, now: real) {
    && evicting.Keys <= kept.Keys
    && forall client | client in kept ::
         && BucketOk(c, kept[client], now)
         && if client in evicting then evicting[client] == kept[client] else Stale(kept[client], now)
  }

  lemma RealMul(x: real, y: real, r: real)
    requires x <= y && r >= 0.0
    ensures x * r <= y * r
  {
  }

  lemma Nonnegative(x: real, r: real)
    requires x >= 0.0 && r >= 0.0
    ensures x * r >= 0.0
  {
  }

  lemma RealMulZero(r: real)
    ensures 0.0 * r == 0.0
  {
  }

  lemma NoTimeNoTokens(c: Config, now: real)
    ensures (now - now) * c.rate == 0.0
  {
    RealMulZero(c.rate);
  }

  lemma TakeKeeps(c: Config, b: Bucket, now: real)
    requires c.rate >= 0.0 && BucketOk(c, b, now)
    ensures BucketOk(c, TakeOne(c, b, now).0, now)
    ensures TakeOne(c, b, now).0.tokens <=
            b.tokens + (now - b.last) * c.rate - if TakeOne(c, b, now).1 then 1.0 else 0.0
  {
    var elapsed := now - b.last;
    Nonnegative(elapsed, c.rate);
    var grown := b.tokens + elapsed * c.rate;
    assert grown >= 0.0;
    assert Capacity(c) >= 0.0;
  }

  /** A request on a bucket refilled at this very moment. */
  lemma TakeAgain(c: Config, x: real, now: real)
    requires 0.0 <= x <= Capacity(c)
    ensures TakeOne(c, Bucket(x, now), now) == if x >= 1.0 then (Bucket(x - 1.0, now), true)
            else (Bucket(x, now), false)
  {
    var b := Bucket(x, now);
    var elapsed := now - b.last;
    assert elapsed * c.rate == 0.0 by { NoTimeNoTokens(c, now); }
    assert b.tokens + elapsed * c.rate == x;
    assert Refilled(c, b, now) == x;
  }

  lemma IdleRefill(tokens: real, elapsed: real, rate: real, capacity: real)
    requires tokens >= 0.0 && rate >= 0.0 && elapsed > IDLE && IDLE * rate >= capacity
    ensures tokens + elapsed * rate >= capacity
  {
    RealMul(IDLE, elapsed, rate);
  }

  lemma StaleRefillsFull(c: Config, b: Bucket, now: real)
    requires c.rate >= 0.0 && IDLE * c.rate >= Capacity(c) && BucketOk(c, b, now) && Stale(b, now)
    ensures TakeOne(c, b, now) == TakeOne(c, NewBucket(c, now), now)
  {
    var elapsed := now - b.last;
    IdleRefill(b.tokens, elapsed, c.rate, Capacity(c));
    assert Refilled(c, b, now) == Capacity(c);
    TakeAgain(c, Capacity(c), now);
  }

  lemma StepAgrees(c: Config, evicting: Store, kept: Store, last: real, op: Op)
    requires c.rate >= 0.0 && IDLE * c.rate >= Capacity(c)
    requires Agree(c, evicting, kept, last) && last <= op.now
    ensures var e, k := Step(c, true, evicting, op), Step(c, false, kept, op); e.1 == k.1 && Agree(c, e.0, k.0, op.now)
  {
    hide TakeOne;
    if op.Take? {
      TakeKeeps(c, Lookup(c, kept, op.client, op.now), op.now);
      if op.client in kept && op.client !in evicting { StaleRefillsFull(c, kept[op.client], op.now); }
    }
  }

  ghost function Latest(ops: seq<Op>, otherwise: real): real {
    if ops == [] then otherwise else ops[|ops| - 1].now
  }

  lemma {:induction false} RunsAgree(c: Config, ops: seq<Op>, now: real)
    requires c.rate >= 0.0 && IDLE * c.rate >= Capacity(c) && Ordered(ops) && Latest(ops, now) <= now
    ensures var e, k := Run(c, true, map[], ops), Run(c, false, map[], ops);
      e.1 == k.1 && Agree(c, e.0, k.0, now)
  {
    hide Step;
    if ops != [] {
      var rest, op := ops[..|ops| - 1], ops[|ops| - 1];
      RunsAgree(c, rest, op.now);
      var e, k := Run(c, true, map[], rest).0, Run(c, false, map[], rest).0;
      StepAgrees(c, e, k, op.now, op);
    }
  }

  // ---------- Too little refill: a run that shows the eviction ----------

  function Takes(now: real, n: nat): seq<Op> {
    seq(n, i => Take("client", now))
  }

  lemma {:induction false} RunAppend(c: Config, evict: bool, s: Store, first: seq<Op>, second: seq<Op>)
    ensures var one := Run(c, evict, s, first);
      var two := Run(c, evict, one.0, second);
      Run(c, evict, s, first + second) == (two.0, one.1 + two.1)
  {
    if second == [] {
      assert first + second == first;
      assert Run(c, evict, s, first).1 + [] == Run(c, evict, s, first).1;
    } else {
      RunAppend(c, evict, s, first, second[..|second| - 1]);
      assert (first + second)[..|first + second| - 1] == first + second[..|second| - 1];
      var one := Run(c, evict, s, first);
      var most := Run(c, evict, one.0, second[..|second| - 1]);
      var (s', ok) := Step(c, evict, most.0, second[|second| - 1]);
      assert one.1 + most.1 + [ok] == one.1 + (most.1 + [ok]);
    }
  }

  /** `n` requests at one moment are all admitted exactly when the bucket holds that much, and use it up. */
  lemma {:induction false} TakesAtOnce(c: Config, evict: bool, s: Store, x: real, now: real, n: nat)
    requires 0.0 <= x <= Capacity(c) && "client" in s && s["client"] == Bucket(x, now)
    ensures var (s', answers) := Run(c, evict, s, Takes(now, n));
      && ((forall a | a in answers :: a) <==> n as real <= x)
      && (n as real <= x ==> s' == s["client" := Bucket(x - n as real, now)])
  {
    if n > 0 {
      var most := Takes(now, n - 1);
      assert Takes(now, n)[..n - 1] == most;
      TakesAtOnce(c, evict, s, x, now, n - 1);
      var (s1, answers1) := Run(c, evict, s, most);
      var (s', answers) := Run(c, evict, s, Takes(now, n));
      var (b, ok) := TakeOne(c, Lookup(c, s1, "client", now), now);
      assert answers == answers1 + [ok];
      assert ok in answers && forall a | a in answers1 :: a in answers;
      if (n - 1) as real <= x {
        TakeAgain(c, x - (n - 1) as real, now);
      }
    }
  }

  /** A moment at which an emptied, never evicted bucket is stale but not yet full. */
  lemma VisibleMoment(c: Config) returns (at: real)
    requires c.rate >= 0.0 && IDLE * c.rate < Capacity(c)
    ensures at > IDLE && 0.0 <= at * c.rate < Capacity(c)
  {
    if c.rate == 0.0 {
      at := IDLE + 1.0;
      RealMulZero(at);
    } else {
      at := Midpoint(c.rate, Capacity(c));
      Nonnegative(at, c.rate);
    }
  }

  lemma Midpoint(rate: real, capacity: real) returns (at: real)
    requires rate > 0.0 && IDLE * rate < capacity
    ensures at > IDLE && at * rate < capacity
  {
    var full := capacity / rate;
    assert full * rate == capacity;
    if full <= IDLE { RealMul(full, IDLE, rate); }
    at := (IDLE + full) / 2.0;
    assert IDLE < at < full;
    var short := full - at;
    assert short * rate > 0.0;
    assert at * rate == full * rate - short * rate;
  }

  /** Requests at one moment see only how full the bucket is at that moment. */
  lemma {:induction false} OnlyRefilledMatters(c: Config, evict: bool, s: Store, now: real, n: nat)
    requires n > 0 && 0.0 <= Refilled(c, Lookup(c, s, "client", now), now)
    ensures Run(c, evict, s, Takes(now, n)) ==
            Run(c, evict, s["client" := Bucket(Refilled(c, Lookup(c, s, "client", now), now), now)], Takes(now, n))
  {
    var x := Refilled(c, Lookup(c, s, "client", now), now);
    var t := s["client" := Bucket(x, now)];
    assert Takes(now, n)[..n - 1] == Takes(now, n - 1);
    if n == 1 {
      TakeAgain(c, x, now);
      NoTimeNoTokens(c, now);
      assert Refilled(c, Bucket(x, now), now) == x;
      var b := TakeOne(c, Bucket(x, now), now).0;
      assert s["client" := b] == t["client" := b];
    } else {
      OnlyRefilledMatters(c, evict, s, now, n - 1);
    }
  }

  /** The whole burst at one moment, on a bucket holding `x` then. */
  lemma BurstAtOnce(c: Config, evict: bool, s: Store, x: real, now: real)
    requires c.burst > 0 && x == Refilled(c, Lookup(c, s, "client", now), now) && 0.0 <= x
    ensures var (s', answers) := Run(c, evict, s, Takes(now, c.burst));
      && |answers| == c.burst
      && ((forall a | a in answers :: a) <==> x == Capacity(c))
      && (x == Capacity(c) ==> s' == s["client" := Bucket(0.0, now)])
  {
    OnlyRefilledMatters(c, evict, s, now, c.burst);
    TakesAtOnce(c, evict, s["client" := Bucket(x, now)], x, now, c.burst);
    AnswerCount(c, evict, s, Takes(now, c.burst));
  }

  lemma {:induction false} AnswerCount(c: Config, evict: bool, s: Store, ops: seq<Op>)
    ensures |Run(c, evict, s, ops).1| == |ops|
  {
    if ops != [] { AnswerCount(c, evict, s, ops[..|ops| - 1]); }
  }

  lemma NewBucketFull(c: Config, now: real)
    ensures Refilled(c, NewBucket(c, now), now) == Capacity(c)
  {
    NoTimeNoTokens(c, now);
  }

  /** Empty the bucket, wait, tick, empty it again. */
  function TwoBursts(c: Config, at: real): seq<Op> {
    Takes(0.0, c.burst) + [Cleanup(at)] + Takes(at, c.burst)
  }

  /** The evicting middleware admits both bursts. */
  lemma TwoBurstsAdmitted(c: Config, at: real)
    requires c.burst > 0 && at > IDLE
    ensures Ordered(TwoBursts(c, at))
    ensures |Run(c, true, map[], TwoBursts(c, at)).1| == 2 * c.burst + 1
    ensures forall a | a in Run(c, true, map[], TwoBursts(c, at)).1 :: a
    ensures forall i | 0 <= i < 2 * c.burst + 1 :: Run(c, true, map[], TwoBursts(c, at)).1[i]
  {
    hide Refilled, TakeOne;
    var first, tick, second := Takes(0.0, c.burst), [Cleanup(at)], Takes(at, c.burst);
    var none: Store := map[];
    NewBucketFull(c, 0.0);
    NewBucketFull(c, at);
    BurstAtOnce(c, true, none, Capacity(c), 0.0);
    BurstAtOnce(c, true, none, Capacity(c), at);
    TickEffect(c, at);
    RunAppend(c, true, none, first, tick);
    RunAppend(c, true, none, first + tick, second);
    hide Run;
    var all := Run(c, true, none, TwoBursts(c, at)).1;
    assert all == Run(c, true, none, first).1 + [true] + Run(c, true, none, second).1;
    hide TwoBursts, Takes;
    forall i | 0 <= i < |all| ensures all[i] { assert all[i] in all; }
  }

  /** With too little refill the middleware that keeps its buckets refuses part of the second burst. */
  lemma EvictionShows(c: Config)
    requires c.rate >= 0.0 && IDLE * c.rate < Capacity(c)
    ensures !Invisible(c)
  {
    hide Refilled, TakeOne;
    var at := VisibleMoment(c);
    Nonnegative(IDLE, c.rate);
    var first, tick, second := Takes(0.0, c.burst), [Cleanup(at)], Takes(at, c.burst);
    TwoBurstsAdmitted(c, at);
    NewBucketFull(c, 0.0);
    EmptiedRefilled(c, at);
    BurstAtOnce(c, false, map[], Capacity(c), 0.0);
    BurstAtOnce(c, false, map["client" := Bucket(0.0, 0.0)], at * c.rate, at);
    TickEffect(c, at);
    SplitRun(c, false, first, tick, second);
    hide Run;
    assert Run(c, true, map[], TwoBursts(c, at)).1 != Run(c, false, map[], TwoBursts(c, at)).1;
  }

  lemma EmptiedRefilled(c: Config, at: real)
    requires 0.0 <= at * c.rate < Capacity(c)
    ensures Refilled(c, Bucket(0.0, 0.0), at) == at * c.rate
  {
    var elapsed := at - 0.0;
    assert elapsed == at;
  }

  lemma TickEffect(c: Config, at: real)
    requires at > IDLE
    ensures Run(c, true, map["client" := Bucket(0.0, 0.0)], [Cleanup(at)]) == (map[], [true])
    ensures Run(c, false, map["client" := Bucket(0.0, 0.0)], [Cleanup(at)]).0 == map["client" := Bucket(0.0, 0.0)]
  {
    var s: Store := map["client" := Bucket(0.0, 0.0)];
    assert Stale(s["client"], at);
    assert Evicted(s, at) == map[];
    assert [Cleanup(at)][..0] == [];
    assert Run(c, true, s, []) == (s, []) && Run(c, false, s, []) == (s, []);
    assert [true] == [] + [true];
  }

  /** The answers of the third part are those of running it from where the second part ends. */
  lemma SplitRun(c: Config, evict: bool, first: seq<Op>, tick: seq<Op>, second: seq<Op>)
    ensures var one := Run(c, evict, map[], first);
      var two := Run(c, evict, one.0, tick);
      && |Run(c, evict, map[], first + tick + second).1| == |first| + |tick| + |second|
      && Run(c, evict, map[], first + tick + second).1[|first| + |tick|..] == Run(c, evict, two.0, second).1
  {
    RunAppend(c, evict, map[], first, tick);
    RunAppend(c, evict, map[], first + tick, second);
    AnswerCount(c, evict, map[], first + tick);
    AnswerCount(c, evict, map[], first + tick + second);
  }

  /** A negative rate drains a bucket that is kept: after a long wait it refuses where a new one admits. */
  lemma DrainShows(c: Config)
    requires c.rate < 0.0 && c.burst > 0
    ensures !Invisible(c)
  {
    var at := IDLE + 1.0 + Capacity(c) / -c.rate;
    DrainedBy(c, at);
    var used, none: Store := Bucket(Capacity(c) - 1.0, 0.0), map[];
    var first, tick, second := Takes(0.0, 1), [Cleanup(at)], Takes(at, 1);
    var ops := first + tick + second;
    NewBucketFull(c, 0.0);
    NewBucketFull(c, at);
    OneTake(c, true, none, 0.0);
    OneTake(c, false, none, 0.0);
    OneTake(c, true, none, at);
    OneTake(c, false, map["client" := used], at);
    UsedTick(c, used, at);
    SplitRun(c, true, first, tick, second);
    SplitRun(c, false, first, tick, second);
    assert Ordered(ops);
    hide Run, Refilled;
    assert Run(c, true, none, ops).1 != Run(c, false, none, ops).1;
  }

  lemma DrainedBy(c: Config, at: real)
    requires c.rate < 0.0 && at == IDLE + 1.0 + Capacity(c) / -c.rate
    ensures at > IDLE && Refilled(c, Bucket(Capacity(c) - 1.0, 0.0), at) < 1.0
  {
    var drain := -c.rate;
    var full := Capacity(c) / drain;
    assert full * drain == Capacity(c);
    if full < 0.0 { Nonnegative(-full, drain); }
    var more := IDLE + 1.0;
    Nonnegative(more, drain);
    assert (more + full) * drain == more * drain + full * drain;
    assert at == more + full && at - 0.0 == at;
    assert at * c.rate == -(at * drain);
  }

  lemma OneTake(c: Config, evict: bool, s: Store, now: real)
    ensures var x := Refilled(c, Lookup(c, s, "client", now), now);
      Run(c, evict, s, Takes(now, 1)) ==
      (s["client" := Bucket(if x >= 1.0 then x - 1.0 else x, now)], [x >= 1.0])
  {
    hide Refilled;
    assert Takes(now, 1)[..0] == [] && [] + [true] == [true] && [] + [false] == [false];
  }

  lemma UsedTick(c: Config, b: Bucket, at: real)
    requires b.last == 0.0 && at > IDLE
    ensures Run(c, true, map["client" := b], [Cleanup(at)]).0 == map[]
    ensures Run(c, false, map["client" := b], [Cleanup(at)]).0 == map["client" := b]
  {
    var s: Store := map["client" := b];
    assert Stale(s["client"], at) && Evicted(s, at) == map[];
    assert [Cleanup(at)][..0] == [];
    assert Run(c, true, s, []) == (s, []) && Run(c, false, s, []) == (s, []);
  }

  /** Without a burst nothing is ever admitted, whatever the rate. */
  lemma {:induction false} NoBurst(c: Config, evict: bool, ops: seq<Op>)
    requires c.burst == 0
    ensures var r := Run(c, evict, map[], ops);
      && (forall client | client in r.0 :: r.0[client].tokens <= 0.0)
      && |r.1| == |ops| && forall i | 0 <= i < |ops| :: r.1[i] == ops[i].Cleanup?
  {
    if ops != [] {
      NoBurst(c, evict, ops[..|ops| - 1]);
      hide Refilled;
      var s, op := Run(c, evict, map[], ops[..|ops| - 1]).0, ops[|ops| - 1];
      if op.Take? {
        assert Refilled(c, Lookup(c, s, op.client, op.now), op.now) <= 0.0 by { AtMostCapacity(c, s, op); }
      }
    }
  }

  lemma AtMostCapacity(c: Config, s: Store, op: Op)
    requires op.Take?
    ensures Refilled(c, Lookup(c, s, op.client, op.now), op.now) <= Capacity(c)
  {
  }

  /** Eviction is invisible, for every rate, exactly when there is no burst or ten idle minutes refill it. */
  lemma EvictionInvisibleIff(c: Config)
    ensures Invisible(c) <==> c.burst == 0 || IDLE * c.rate >= Capacity(c)
  {
    hide Run;
    if c.burst == 0 {
      forall ops | Ordered(ops) ensures Run(c, true, map[], ops).1 == Run(c, false, map[], ops).1 {
        NoBurst(c, true, ops);
        NoBurst(c, false, ops);
      }
    } else if c.rate < 0.0 {
      assert IDLE * c.rate < Capacity(c) by { Nonnegative(IDLE, -c.rate); }
      DrainShows(c);
    } else if IDLE * c.rate >= Capacity(c) {
      forall ops | Ordered(ops) ensures Run(c, true, map[], ops).1 == Run(c, false, map[], ops).1 {
        RunsAgree(c, ops, Latest(ops, 0.0));
      }
    } else {
      EvictionShows(c);
    }
  }

  // ---------- Requests admitted in a window ----------

  function Admitted(c: Config, evict: bool, ops: seq<Op>, client: string, from: real, to: real): nat {
    if ops == [] then 0
    else
      var rest, op := ops[..|ops| - 1], ops[|ops| - 1];
      var hit := op.Take? && op.client == client && from <= op.now <= to
                 && Step(c, evict, Run(c, evict, map[], rest).0, op).1;
      Admitted(c, evict, rest, client, from, to) + if hit then 1 else 0
  }

  ghost predicate CalledIn(ops: seq<Op>, client: string, from: real) {
    exists i :: 0 <= i < |ops| && ops[i].Take? && ops[i].client == client && from <= ops[i].now
  }

  lemma {:induction false} KeptOk(c: Config, ops: seq<Op>, now: real)
    requires c.rate >= 0.0 && Ordered(ops) && Latest(ops, now) <= now
    ensures forall client | client in Run(c, false, map[], ops).0 ::
            BucketOk(c, Run(c, false, map[], ops).0[client], now)
  {
    hide TakeOne;
    if ops != [] {
      var rest, op := ops[..|ops| - 1], ops[|ops| - 1];
      KeptOk(c, rest, op.now);
      if op.Take? { TakeKeeps(c, Lookup(c, Run(c, false, map[], rest).0, op.client, op.now), op.now); }
    }
  }

  /** After the first request in the window: admitted so far plus what is left stays within burst and refill. */
  ghost predicate Budget(c: Config, n: nat, b: Bucket, from: real) {
    b.last >= from && n as real + b.tokens <= Capacity(c) + Earned(c, b.last - from)
  }

  lemma LaterCall(c: Config, n: nat, b: Bucket, from: real, now: real)
    requires c.rate >= 0.0 && BucketOk(c, b, now) && Budget(c, n, b, from)
    ensures var (b', ok) := TakeOne(c, b, now); Budget(c, n + if ok then 1 else 0, b', from)
  {
    TakeKeeps(c, b, now);
    var x, y := b.last - from, now - b.last;
    assert now - from == x + y;
    assert (x + y) * c.rate == x * c.rate + y * c.rate;
  }

  lemma FirstCall(c: Config, b: Bucket, from: real, now: real)
    requires c.rate >= 0.0 && BucketOk(c, b, now) && from <= now
    ensures var (b', ok) := TakeOne(c, b, now); Budget(c, if ok then 1 else 0, b', from)
  {
    var x := now - from;
    Nonnegative(x, c.rate);
  }

  lemma {:induction false} WindowBudget(c: Config, ops: seq<Op>, client: string, from: real, to: real)
    requires c.rate >= 0.0 && Ordered(ops) && forall op | op in ops :: op.now <= to
    ensures var n, s := Admitted(c, false, ops, client, from, to), Run(c, false, map[], ops).0;
      && (!CalledIn(ops, client, from) ==> n == 0)
      && (CalledIn(ops, client, from) ==> client in s && Budget(c, n, s[client], from))
  {
    hide TakeOne, Budget;
    if ops != [] {
      var rest, op := ops[..|ops| - 1], ops[|ops| - 1];
      assert op in ops;
      WindowBudget(c, rest, client, from, to);
      KeptOk(c, rest, op.now);
      assert CalledIn(rest, client, from) ==> CalledIn(ops, client, from) by {
        if CalledIn(rest, client, from) {
          var i :| 0 <= i < |rest| && rest[i].Take? && rest[i].client == client && from <= rest[i].now;
          assert ops[i] == rest[i];
        }
      }
      if op.Take? && op.client == client && from <= op.now {
        assert CalledIn(ops, client, from);
        var b := Lookup(c, Run(c, false, map[], rest).0, client, op.now);
        if CalledIn(rest, client, from) {
          LaterCall(c, Admitted(c, false, rest, client, from, to), b, from, op.now);
        } else {
          FirstCall(c, b, from, op.now);
        }
      } else {
        assert CalledIn(ops, client, from) ==> CalledIn(rest, client, from);
      }
    }
  }

  lemma {:induction false} AdmittedSame(c: Config, ops: seq<Op>, client: string, from: real, to: real)
    requires c.rate >= 0.0 && IDLE * c.rate >= Capacity(c) && Ordered(ops)
    ensures Admitted(c, true, ops, client, from, to) == Admitted(c, false, ops, client, from, to)
  {
    hide Step;
    if ops != [] {
      var rest, op := ops[..|ops| - 1], ops[|ops| - 1];
      AdmittedSame(c, rest, client, from, to);
      RunsAgree(c, ops, op.now);
      var e, k := Run(c, true, map[], ops).1, Run(c, false, map[], ops).1;
      assert e[|e| - 1] == k[|k| - 1];
    }
  }

  lemma BudgetBound(c: Config, n: nat, b: Bucket, from: real, to: real)
    requires c.rate >= 0.0 && Budget(c, n, b, from) && b.tokens >= 0.0 && b.last <= to
    ensures n as real <= Capacity(c) + Earned(c, to - from)
  {
    RealMul(b.last - from, to - from, c.rate);
  }

  lemma WindowBoundKept(c: Config, ops: seq<Op>, client: string, from: real, to: real)
    requires c.rate >= 0.0 && Ordered(ops) && from <= to && forall op | op in ops :: op.now <= to
    ensures Admitted(c, false, ops, client, from, to) as real <= Capacity(c) + Earned(c, to - from)
  {
    var n := Admitted(c, false, ops, client, from, to);
    WindowBudget(c, ops, client, from, to);
    KeptOk(c, ops, to);
    hide *;
    if CalledIn(ops, client, from) {
      BudgetBoundOf(c, ops, client, from, to);
    } else {
      NothingAdmitted(c, n, from, to);
    }
  }

  lemma NothingAdmitted(c: Config, n: nat, from: real, to: real)
    requires n == 0 && c.rate >= 0.0 && from <= to
    ensures n as real <= Capacity(c) + Earned(c, to - from)
  {
    Nonnegative(to - from, c.rate);
    assert Earned(c, to - from) >= 0.0 && Capacity(c) >= 0.0;
  }

  lemma BudgetBoundOf(c: Config, ops: seq<Op>, client: string, from: real, to: real)
    requires c.rate >= 0.0 && client in Run(c, false, map[], ops).0
    requires BucketOk(c, Run(c, false, map[], ops).0[client], to)
    requires Budget(c, Admitted(c, false, ops, client, from, to), Run(c, false, map[], ops).0[client], from)
    ensures Admitted(c, false, ops, client, from, to) as real <= Capacity(c) + Earned(c, to - from)
  {
    hide Run, Admitted;
    BudgetBound(c, Admitted(c, false, ops, client, from, to), Run(c, false, map[], ops).0[client], from, to);
  }

  /** In any window a client gets at most the burst plus the refill of the window. */
  ghost predicate WindowBounded(c: Config, evict: bool) {
    forall ops, client, from: real, to: real | Ordered(ops) && from <= to :: InBound(c, evict, ops, client, from, to)
  }

  ghost predicate InBound(c: Config, evict: bool, ops: seq<Op>, client: string, from: real, to: real) {
    Admitted(c, evict, ops, client, from, to) as real <= Capacity(c) + Earned(c, to - from)
  }

  lemma {:induction false} EnoughRefillBounds(c: Config, evict: bool, ops: seq<Op>, client: string, from: real,
                                              to: real)
    requires c.rate >= 0.0 && Ordered(ops) && from <= to && (evict ==> IDLE * c.rate >= Capacity(c))
    ensures InBound(c, evict, ops, client, from, to)
  {
    if ops == [] {
      NothingAdmitted(c, 0, from, to);
    } else if ops[|ops| - 1].now > to {
      hide Run, Step;
      EnoughRefillBounds(c, evict, ops[..|ops| - 1], client, from, to);
    } else {
      hide Run, Step, Admitted;
      if evict { AdmittedSame(c, ops, client, from, to); }
      WindowBoundKept(c, ops, client, from, to);
    }
  }

  function Ticks(ops: seq<Op>): nat {
    if ops == [] then 0 else Ticks(ops[..|ops| - 1]) + if ops[|ops| - 1].Cleanup? then 1 else 0
  }

  lemma {:induction false} TicksConcat(a: seq<Op>, b: seq<Op>)
    ensures Ticks(a + b) == Ticks(a) + Ticks(b)
  {
    if b == [] {
      assert a + b == a;
    } else {
      assert (a + b)[..|a + b| - 1] == a + b[..|b| - 1];
      TicksConcat(a, b[..|b| - 1]);
    }
  }

  lemma {:induction false} NoTicks(ops: seq<Op>)
    requires forall op | op in ops :: op.Take?
    ensures Ticks(ops) == 0
  {
    if ops != [] {
      assert ops[|ops| - 1] in ops;
      NoTicks(ops[..|ops| - 1]);
    }
  }

  /** When every answer is yes, everything but the ticks counts. */
  lemma {:induction false} AllAdmitted(c: Config, evict: bool, ops: seq<Op>, to: real)
    requires forall op | op in ops :: 0.0 <= op.now <= to && (op.Take? ==> op.client == "client")
    requires forall a | a in Run(c, evict, map[], ops).1 :: a
    ensures Admitted(c, evict, ops, "client", 0.0, to) + Ticks(ops) == |ops|
  {
    if ops != [] {
      var rest, op := ops[..|ops| - 1], ops[|ops| - 1];
      hide Step;
      var before, all := Run(c, evict, map[], rest), Run(c, evict, map[], ops);
      assert all.1 == before.1 + [Step(c, evict, before.0, op).1];
      assert all.1[|all.1| - 1] in all.1;
      forall a | a in before.1 ensures a { assert a in all.1; }
      AllAdmitted(c, evict, rest, to);
      assert op in ops;
    }
  }

  lemma TwoBurstsTicks(c: Config, at: real)
    ensures Ticks(TwoBursts(c, at)) == 1 && |TwoBursts(c, at)| == 2 * c.burst + 1
  {
    TicksConcat(Takes(0.0, c.burst) + [Cleanup(at)], Takes(at, c.burst));
    TicksConcat(Takes(0.0, c.burst), [Cleanup(at)]);
    NoTicks(Takes(0.0, c.burst));
    NoTicks(Takes(at, c.burst));
    OneTick(at);
  }

  /** With too little refill the evicting limiter hands out two bursts where one and a part are due. */
  lemma WindowExceeded(c: Config) returns (at: real)
    requires c.rate >= 0.0 && IDLE * c.rate < Capacity(c)
    ensures at >= 0.0 && Ordered(TwoBursts(c, at)) && !InBound(c, true, TwoBursts(c, at), "client", 0.0, at)
  {
    at := VisibleMoment(c);
    assert c.burst > 0 by { Nonnegative(IDLE, c.rate); }
    TwoBurstsAdmitted(c, at);
    assert Admitted(c, true, TwoBursts(c, at), "client", 0.0, at) == 2 * c.burst by {
      hide Run, Admitted, Ticks, Ordered;
      TwoBurstsTicks(c, at);
      AllAdmitted(c, true, TwoBursts(c, at), at);
    }
    hide Run, Admitted, TwoBursts, Ordered;
    TwiceIsTooMuch(c, 2 * c.burst, at);
  }

  lemma TwiceIsTooMuch(c: Config, n: nat, at: real)
    requires n == 2 * c.burst && at * c.rate < Capacity(c)
    ensures n as real > Capacity(c) + Earned(c, at - 0.0)
  {
    assert n as real == Capacity(c) + Capacity(c);
    assert at - 0.0 == at;
  }

  lemma OneTick(at: real)
    ensures Ticks([Cleanup(at)]) == 1
  {
    assert [Cleanup(at)][..0] == [];
  }

  /** A negative rate makes the bound itself negative in a long window. */
  lemma NegativeRateExceeds(c: Config) returns (to: real)
    requires c.rate < 0.0
    ensures to >= 0.0 && !InBound(c, true, [], "client", 0.0, to)
  {
    to := (Capacity(c) + 1.0) / -c.rate;
    assert to * -c.rate == Capacity(c) + 1.0;
    if to < 0.0 { Nonnegative(-to, -c.rate); }
    assert (to - 0.0) * c.rate == -(to * -c.rate);
  }

  /** The middleware, which evicts, keeps every client within burst plus refill in every run and window exactly when ten
      idle minutes refill the whole burst. */
  lemma WindowBoundIff(c: Config)
    ensures WindowBounded(c, true) <==> IDLE * c.rate >= Capacity(c)
  {
    hide InBound;
    if c.rate < 0.0 {
      var to := NegativeRateExceeds(c);
      Nonnegative(IDLE, -c.rate);
      assert Ordered([]);
    } else if IDLE * c.rate >= Capacity(c) {
      forall ops, client, from: real, to: real | Ordered(ops) && from <= to
        ensures InBound(c, true, ops, client, from, to)
      {
        EnoughRefillBounds(c, true, ops, client, from, to);
      }
    } else {
      var at := WindowExceeded(c);
    }
  }

  /** Without eviction the bound always holds. */
  lemma KeptWindowBounded(c: Config)
    requires c.rate >= 0.0
    ensures WindowBounded(c, false)
  {
    hide InBound;
    forall ops, client, from: real, to: real | Ordered(ops) && from <= to
      ensures InBound(c, false, ops, client, from, to)
    {
      EnoughRefillBounds(c, false, ops, client, from, to);
    }
  }

  // ---------- The middleware object ----------

  class Limiter {
    const config: Config
    var buckets: Store

    constructor (c: Config)
      ensures config == c && buckets == map[]
    {
      config := c;
      buckets := map[];
    }

    /** The handler's check: find or create the client's bucket, refill it, take one token. */
    method Admit(client: string, now: real) returns (ok: bool)
      modifies this
      ensures (buckets, ok) == Step(config, true, old(buckets), Take(client, now))
    {
      hide Refilled;
      if client !in buckets {
        buckets := buckets[client := Bucket(Capacity(config), now)];
      }
      var b := buckets[client];
      var tokens := Refilled(config, b, now);
      ok := tokens >= 1.0;
      if ok { tokens := tokens - 1.0; }
      buckets := buckets[client := Bucket(tokens, now)];
      assert buckets == old(buckets)[client := Bucket(tokens, now)];
    }

    /** One tick of the cleanup goroutine. */
    method CleanupTick(now: real)
      modifies this
      ensures (buckets, true) == Step(config, true, old(buckets), Cleanup(now))
      ensures forall client :: client in buckets <==>
                client in old(buckets) && now - old(buckets)[client].last <= 600.0
    {
      var todo := buckets.Keys;
      while todo != {}
        invariant todo <= buckets.Keys <= old(buckets).Keys
        invariant forall client | client in buckets :: buckets[client] == old(buckets)[client]
        invariant forall client | client in old(buckets) && client !in todo ::
                    client in buckets <==> !Stale(old(buckets)[client], now)
        decreases |todo|
      {
        var client :| client in todo;
        if now - buckets[client].last > IDLE {
          buckets := buckets - {client};
        }
        todo := todo - {client};
      }
      assert buckets == Evicted(old(buckets), now);
    }
  }
}
