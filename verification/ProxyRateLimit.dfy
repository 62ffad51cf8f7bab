/** The proxy's in-memory rate limiter: integer token buckets behind a map whose idle entries are removed.
    Time is in nanoseconds and never runs backwards; the limiter always asks for a one-second window. */
module ProxyRateLimit {

  const SECOND: int := 1_000_000_000
  /** Twice the cleanup interval of five minutes. */
  const IDLE: int := 600 * SECOND

  datatype Bucket = Bucket(tokens: int, capacity: int, rate: int, last: int)
  type Store = map<string, Bucket>
  /** The limit each key is always asked with. */
  type Limits = string -> int

  function NewBucket(limit: int, now: int): Bucket {
    Bucket(limit, limit, if limit == 0 then 1 else limit, now)
  }

  function Min(a: int, b: int): int {
    if a < b then a else b
  }

  function Refill(b: Bucket, now: int): Bucket {
    var add := (now - b.last) / SECOND * b.rate;
    if add > 0 then b.(tokens := Min(b.capacity, b.tokens + add), last := now) else b
  }

  function Consume(b: Bucket, now: int): (Bucket, bool) {
    var r := Refill(b, now);
    if r.tokens > 0 then (r.(tokens := r.tokens - 1), true) else (r, false)
  }

  datatype Op =
    | Allow(key: string, now: int)
    | GetCount(key: string, now: int)
    | Reset(key: string, now: int)
    | Cleanup(now: int)

  datatype Answer = Allowed(ok: bool) | Count(n: int) | Nothing

  function Lookup(limits: Limits, s: Store, key: string, now: int): Bucket {
    if key in s then s[key] else NewBucket(limits(key), now)
  }

  function Stale(b: Bucket, now: int): bool {
    now - b.last > IDLE
  }

  function Evicted(s: Store, now: int): Store {
    map key | key in s && !Stale(s[key], now) :: s[key]
  }

  /** The operation on a store; `evict` false is the store that never removes anything. */
  function Step(limits: Limits, evict: bool, s: Store, op: Op): (Store, Answer) {
    match op
    case Allow(key, now) =>
      var (b, ok) := Consume(Lookup(limits, s, key, now), now);
      (s[key := b], Allowed(ok))
    case GetCount(key, now) =>
      if key !in s then (s, Count(0))
      else
        var b := Refill(s[key], now);
        (s[key := b], Count(b.capacity - b.tokens))
    case Reset(key, now) =>
      if key !in s then (s, Nothing) else (s[key := s[key].(tokens := s[key].capacity, last := now)], Nothing)
    case Cleanup(now) => (if evict then Evicted(s, now) else s, Nothing)
  }

  function Run(limits: Limits, evict: bool, ops: seq<Op>): (Store, seq<Answer>) {
    if ops == [] then (map[], [])
    else
      var before := Run(limits, evict, ops[..|ops| - 1]);
      var (s, a) := Step(limits, evict, before.0, ops[|ops| - 1]);
      (s, before.1 + [a])
  }

  ghost predicate Ordered(ops: seq<Op>) {
    forall i, j | 0 <= i < j < |ops| :: ops[i].now <= ops[j].now
  }

  // ---------- Eviction is invisible ----------

  ghost predicate BucketOk(limit: int, b: Bucket) {
    && b.capacity == limit && b.rate == (if limit == 0 then 1 else limit)
    && if limit < 0 then b.tokens == limit else 0 <= b.tokens <= limit
  }

  /** `kept` is the store that evicts nothing: it has the same buckets, plus stale ones. A negative limit admits
      nothing whatever the bucket. */
  ghost predicate Agree(limits: Limits, evicting: Store, kept: Store, now: int) {
    && evicting.Keys <= kept.Keys
    && (forall key | key in evicting :: BucketOk(limits(key), evicting[key]))
    && forall key | key in kept ::
         && BucketOk(limits(key), kept[key]) && kept[key].last <= now
         && (limits(key) >= 0 ==> if key in evicting then evicting[key] == kept[key] else Stale(kept[key], now))
  }

  /** A bucket idle for longer than the eviction age behaves like a new one. */
  lemma StaleRefillsFull(limit: int, b: Bucket, now: int)
    requires BucketOk(limit, b) && Stale(b, now)
    ensures Consume(b, now).1 == Consume(NewBucket(limit, now), now).1
    ensures limit >= 0 ==> Consume(b, now) == Consume(NewBucket(limit, now), now)
    ensures limit < 0 ==> Consume(b, now) == (b, false)
  {
    var seconds := (now - b.last) / SECOND;
    assert seconds >= 600;
    if limit >= 0 {
      assert seconds * b.rate >= b.rate by { MulGrows(seconds, b.rate); }
    } else {
      assert seconds * b.rate <= 0 by { MulSign(seconds, b.rate); }
    }
  }

  lemma RefillOk(limit: int, b: Bucket, now: int)
    requires BucketOk(limit, b) && b.last <= now
    ensures BucketOk(limit, Refill(b, now)) && BucketOk(limit, Consume(b, now).0)
    ensures b.last <= Refill(b, now).last <= now && b.last <= Consume(b, now).0.last <= now
    ensures limit < 0 ==> Consume(b, now) == (b, false) && Refill(b, now) == b
  {
    if limit < 0 { MulSign((now - b.last) / SECOND, b.rate); }
  }

  lemma MulGrows(x: int, y: int)
    requires x >= 1 && y >= 0
    ensures x * y >= y
  {
  }

  lemma MulSign(x: int, y: int)
    requires x >= 0 && y <= 0
    ensures x * y <= 0
  {
  }

  /** A read or reset of a key that eviction has removed. */
  ghost predicate TouchesEvicted(evicting: Store, kept: Store, op: Op) {
    (op.GetCount? || op.Reset?) && op.key in kept && op.key !in evicting
  }

  lemma PutAgrees(limits: Limits, evicting: Store, kept: Store, last: int, now: int, key: string, e: Bucket, k: Bucket)
    requires Agree(limits, evicting, kept, last) && last <= now
    requires BucketOk(limits(key), e) && BucketOk(limits(key), k) && k.last <= now && (limits(key) >= 0 ==> e == k)
    ensures Agree(limits, evicting[key := e], kept[key := k], now)
  {
    hide BucketOk;
  }

  lemma SameAgrees(limits: Limits, evicting: Store, kept: Store, last: int, now: int)
    requires Agree(limits, evicting, kept, last) && last <= now
    ensures Agree(limits, evicting, kept, now) && Agree(limits, Evicted(evicting, now), kept, now)
  {
    hide BucketOk;
  }

  lemma AllowAgrees(limits: Limits, evicting: Store, kept: Store, last: int, key: string, now: int)
    requires Agree(limits, evicting, kept, last) && last <= now
    requires key in evicting ==> evicting[key].last <= now
    ensures var e, k := Step(limits, true, evicting, Allow(key, now)), Step(limits, false, kept, Allow(key, now));
      e.1 == k.1 && Agree(limits, e.0, k.0, now)
  {
    hide Consume, Refill;
    var limit := limits(key);
    var eb, kb := Lookup(limits, evicting, key, now), Lookup(limits, kept, key, now);
    assert BucketOk(limit, eb) && BucketOk(limit, kb);
    RefillOk(limit, eb, now);
    RefillOk(limit, kb, now);
    if key in kept && key !in evicting && limit >= 0 { StaleRefillsFull(limit, kb, now); }
    hide BucketOk;
    PutAgrees(limits, evicting, kept, last, now, key, Consume(eb, now).0, Consume(kb, now).0);
  }

  lemma ReadAgrees(limits: Limits, evicting: Store, kept: Store, last: int, op: Op)
    requires Agree(limits, evicting, kept, last) && last <= op.now
    requires (op.GetCount? || op.Reset?) && (op.key in kept ==> op.key in evicting && evicting[op.key].last <= op.now)
    ensures var e, k := Step(limits, true, evicting, op), Step(limits, false, kept, op);
      e.1 == k.1 && Agree(limits, e.0, k.0, op.now)
  {
    hide Refill, Consume;
    var limit := limits(op.key);
    if op.key in kept {
      var eb, kb := evicting[op.key], kept[op.key];
      RefillOk(limit, eb, op.now);
      RefillOk(limit, kb, op.now);
      PutAgrees(limits, evicting, kept, last, op.now, op.key, Refill(eb, op.now), Refill(kb, op.now));
      PutAgrees(limits, evicting, kept, last, op.now, op.key,
                eb.(tokens := eb.capacity, last := op.now), kb.(tokens := kb.capacity, last := op.now));
    } else {
      SameAgrees(limits, evicting, kept, last, op.now);
    }
  }

  lemma StepNotLater(limits: Limits, s: Store, last: int, op: Op)
    requires (forall key | key in s :: s[key].last <= last) && last <= op.now
    ensures forall key | key in Step(limits, true, s, op).0 :: Step(limits, true, s, op).0[key].last <= op.now
  {
  }

  lemma StepAgrees(limits: Limits, evicting: Store, kept: Store, last: int, op: Op)
    requires Agree(limits, evicting, kept, last) && last <= op.now && !TouchesEvicted(evicting, kept, op)
    requires forall key | key in evicting :: evicting[key].last <= last
    ensures var e, k := Step(limits, true, evicting, op), Step(limits, false, kept, op);
      e.1 == k.1 && Agree(limits, e.0, k.0, op.now) && forall key | key in e.0 :: e.0[key].last <= op.now
  {
    StepNotLater(limits, evicting, last, op);
    hide Agree;
    match op
    case Allow(key, now) => AllowAgrees(limits, evicting, kept, last, key, now);
    case Cleanup(now) => SameAgrees(limits, evicting, kept, last, now);
    case _ => ReadAgrees(limits, evicting, kept, last, op);
  }

  ghost predicate Tame(limits: Limits, ops: seq<Op>) {
    forall i | 0 <= i < |ops| ::
      !TouchesEvicted(Run(limits, true, ops[..i]).0, Run(limits, false, ops[..i]).0, ops[i])
  }

  ghost function Latest(ops: seq<Op>): int {
    if ops == [] then 0 else ops[|ops| - 1].now
  }

  lemma {:induction false} RunsAgree(limits: Limits, ops: seq<Op>)
    requires Ordered(ops) && Tame(limits, ops)
    ensures Run(limits, true, ops).1 == Run(limits, false, ops).1
    ensures Agree(limits, Run(limits, true, ops).0, Run(limits, false, ops).0, Latest(ops))
    ensures forall key | key in Run(limits, true, ops).0 :: Run(limits, true, ops).0[key].last <= Latest(ops)
  {
    hide Step, Agree, TouchesEvicted;
    if ops == [] {
      NothingAgrees(limits);
    } else {
      var rest, op := ops[..|ops| - 1], ops[|ops| - 1];
      forall i | 0 <= i < |rest| ensures rest[..i] == ops[..i] {}
      RunsAgree(limits, rest);
      var e, k := Run(limits, true, rest).0, Run(limits, false, rest).0;
      if rest == [] {
        assert e == map[] && k == map[];
        NothingAgreesAt(limits, op.now);
        StepAgrees(limits, e, k, op.now, op);
      } else {
        StepAgrees(limits, e, k, Latest(rest), op);
      }
    }
  }

  lemma NothingAgrees(limits: Limits)
    ensures Agree(limits, map[], map[], Latest([]))
  {
  }

  lemma NothingAgreesAt(limits: Limits, now: int)
    ensures Agree(limits, map[], map[], now)
  {
  }

  /** Requests and cleanup ticks alone: every answer is the one a store without eviction gives. */
  lemma EvictionInvisible(limits: Limits, ops: seq<Op>)
    requires Ordered(ops) && forall op | op in ops :: op.Allow? || op.Cleanup?
    ensures Run(limits, true, ops).1 == Run(limits, false, ops).1
  {
    hide Run;
    forall i | 0 <= i < |ops|
      ensures !TouchesEvicted(Run(limits, true, ops[..i]).0, Run(limits, false, ops[..i]).0, ops[i])
    {
      assert ops[i] in ops;
    }
    RunsAgree(limits, ops);
  }

  lemma RunStep(limits: Limits, evict: bool, ops: seq<Op>, op: Op)
    ensures var before := Run(limits, evict, ops);
      var (s, a) := Step(limits, evict, before.0, op);
      Run(limits, evict, ops + [op]) == (s, before.1 + [a])
  {
    assert (ops + [op])[..|ops|] == ops;
  }

  // A metrics read of an evicted key makes the eviction visible: only the store that kept the bucket records the refill
  // time of the read, so a later request is refused by one store and admitted by the other.

  const HALF := SECOND / 2

  /** A request, an eviction, a metrics read, and then n requests half a second after the read. */
  function Spend(key: string, n: nat): seq<Op> {
    if n == 0 then [] + [Allow(key, 0)] + [Cleanup(1202 * HALF)] + [GetCount(key, 1204 * HALF)]
    else Spend(key, n - 1) + [Allow(key, 1205 * HALF)]
  }

  /** The store after `Spend`. */
  function Spent(evict: bool, key: string, limit: int, n: nat): Store {
    if evict && n == 0 then map[]
    else map[key := Bucket(limit - n, limit, limit, if evict then 1205 * HALF else 1204 * HALF)]
  }

  /** What one operation makes of a store with one bucket. */
  lemma OneKey(limits: Limits, evict: bool, key: string, b: Bucket, now: int)
    ensures var s: Store := map[key := b];
      && Step(limits, evict, s, Allow(key, now)).0 == map[key := Consume(b, now).0]
      && Step(limits, evict, s, GetCount(key, now)).0 == map[key := Refill(b, now)]
      && Step(limits, evict, s, Cleanup(now)).0 == if evict && Stale(b, now) then map[] else s
    ensures Step(limits, evict, map[], Allow(key, now)).0 == map[key := Consume(NewBucket(limits(key), now), now).0]
  {
  }

  /** A bucket used once at time 0: stale at the tick, full again at the read. */
  lemma UsedRefills(limit: int)
    requires limit >= 1
    ensures var used := Bucket(limit - 1, limit, limit, 0);
      && Consume(NewBucket(limit, 0), 0).0 == used && Stale(used, 1202 * HALF)
      && Refill(used, 1204 * HALF) == Bucket(limit, limit, limit, 1204 * HALF)
  {
    WithinSecond(NewBucket(limit, 0), 0);
    assert (1204 * HALF - 0) / SECOND == 602;
    MulGrows(602, limit);
  }

  lemma SpendStart(limits: Limits, evict: bool, key: string)
    requires limits(key) >= 1
    ensures Run(limits, evict, Spend(key, 0)).0 == Spent(evict, key, limits(key), 0)
  {
    var limit := limits(key);
    var used := Bucket(limit - 1, limit, limit, 0);
    var o1, o2, o3 := Allow(key, 0), Cleanup(1202 * HALF), GetCount(key, 1204 * HALF);
    RunStep(limits, evict, [], o1);
    RunStep(limits, evict, [] + [o1], o2);
    RunStep(limits, evict, [] + [o1] + [o2], o3);
    assert Run(limits, evict, []).0 == map[];
    assert Step(limits, evict, map[], o3).0 == map[];
    OneKey(limits, evict, key, used, 0);
    OneKey(limits, evict, key, used, 1202 * HALF);
    OneKey(limits, evict, key, used, 1204 * HALF);
    UsedRefills(limit);
    hide Run, Step, Refill, Stale;
  }

  lemma WithinSecond(b: Bucket, now: int)
    requires b.last <= now < b.last + SECOND
    ensures Refill(b, now) == b
  {
    assert (now - b.last) / SECOND == 0;
  }

  lemma AfterSecond(b: Bucket, now: int)
    requires now == b.last + SECOND && b.rate == b.capacity >= 1 && b.tokens == 0
    ensures Consume(b, now).1
  {
    assert (now - b.last) / SECOND == 1;
  }

  lemma SpendOne(limits: Limits, evict: bool, key: string, n: nat)
    requires limits(key) >= 1 && n < limits(key)
    ensures Step(limits, evict, Spent(evict, key, limits(key), n), Allow(key, 1205 * HALF)).0
            == Spent(evict, key, limits(key), n + 1)
  {
    var s, limit, now := Spent(evict, key, limits(key), n), limits(key), 1205 * HALF;
    var b := Lookup(limits, s, key, now);
    assert b == Bucket(limit - n, limit, limit, if evict then now else 1204 * HALF);
    WithinSecond(b, now);
    OneKey(limits, evict, key, b, now);
    hide Refill, Step;
  }

  lemma {:induction false} SpendRun(limits: Limits, evict: bool, key: string, n: nat)
    requires limits(key) >= 1 && n <= limits(key)
    ensures Run(limits, evict, Spend(key, n)).0 == Spent(evict, key, limits(key), n)
  {
    hide Run, Step, Spent;
    if n == 0 {
      SpendStart(limits, evict, key);
    } else {
      SpendRun(limits, evict, key, n - 1);
      RunStep(limits, evict, Spend(key, n - 1), Allow(key, 1205 * HALF));
      SpendOne(limits, evict, key, n - 1);
    }
  }

  lemma LastAnswer(limits: Limits, evict: bool, key: string, limit: nat)
    requires limits(key) == limit >= 1
    ensures Step(limits, evict, Spent(evict, key, limit, limit), Allow(key, 1206 * HALF)).1 == Allowed(!evict)
  {
    var b := Spent(evict, key, limit, limit)[key];
    if evict { WithinSecond(b, 1206 * HALF); } else { AfterSecond(b, 1206 * HALF); }
    hide Refill;
  }

  lemma {:induction false} SpendOrdered(key: string, n: nat)
    ensures Ordered(Spend(key, n)) && Latest(Spend(key, n)) <= 1205 * HALF && Spend(key, n) != []
  {
    if n > 0 {
      SpendOrdered(key, n - 1);
      OrderedMore(Spend(key, n - 1), Allow(key, 1205 * HALF));
    }
  }

  lemma OrderedMore(ops: seq<Op>, op: Op)
    requires Ordered(ops) && ops != [] && Latest(ops) <= op.now
    ensures Ordered(ops + [op])
  {
  }

  lemma ReadShowsEviction(limits: Limits, key: string)
    requires limits(key) >= 1
    ensures exists ops :: Ordered(ops) && Run(limits, true, ops).1 != Run(limits, false, ops).1
  {
    var n: nat, last := limits(key), Allow(key, 1206 * HALF);
    var ops := Spend(key, n) + [last];
    SpendOrdered(key, n);
    OrderedMore(Spend(key, n), last);
    SpendRun(limits, true, key, n);
    SpendRun(limits, false, key, n);
    RunStep(limits, true, Spend(key, n), last);
    RunStep(limits, false, Spend(key, n), last);
    LastAnswer(limits, true, key, n);
    LastAnswer(limits, false, key, n);
    hide Run, Step, Spend, Spent;
    var e, k := Run(limits, true, ops).1, Run(limits, false, ops).1;
    assert e[|e| - 1] != k[|k| - 1];
  }

  /** The answers when no key may ever be admitted. */
  function Refusals(ops: seq<Op>): seq<Answer> {
    if ops == [] then []
    else
      var op := ops[|ops| - 1];
      Refusals(ops[..|ops| - 1]) + [if op.Allow? then Allowed(false) else if op.GetCount? then Count(0) else Nothing]
  }

  lemma {:induction false} NothingAdmitted(limits: Limits, evict: bool, ops: seq<Op>)
    requires forall key :: limits(key) <= 0
    ensures Run(limits, evict, ops).1 == Refusals(ops)
    ensures forall key | key in Run(limits, evict, ops).0 ::
              var b := Run(limits, evict, ops).0[key]; b.tokens == b.capacity == limits(key)
  {
    if ops != [] { NothingAdmitted(limits, evict, ops[..|ops| - 1]); }
  }

  /** With metrics reads and resets among the operations, eviction stays invisible exactly when no key has a positive
      limit. */
  lemma EvictionInvisibleIff(limits: Limits)
    ensures (forall ops | Ordered(ops) :: Run(limits, true, ops).1 == Run(limits, false, ops).1)
            <==> (forall key :: limits(key) <= 0)
  {
    if forall key :: limits(key) <= 0 {
      forall ops ensures Run(limits, true, ops).1 == Run(limits, false, ops).1 {
        NothingAdmitted(limits, true, ops);
        NothingAdmitted(limits, false, ops);
      }
    } else {
      var key :| limits(key) > 0;
      ReadShowsEviction(limits, key);
    }
  }

  // ---------- Requests admitted in a window ----------

  function Admitted(limits: Limits, ops: seq<Op>, key: string, from: int, to: int): nat {
    if ops == [] then 0
    else
      var rest, op := ops[..|ops| - 1], ops[|ops| - 1];
      var hit := op.Allow? && op.key == key && from <= op.now <= to
                 && Step(limits, true, Run(limits, true, rest).0, op).1 == Allowed(true);
      Admitted(limits, rest, key, from, to) + if hit then 1 else 0
  }

  predicate ResetOf(op: Op, key: string, from: int, to: int) {
    op.Reset? && op.key == key && from <= op.now <= to
  }

  function Resets(ops: seq<Op>, key: string, from: int, to: int): nat {
    if ops == [] then 0
    else Resets(ops[..|ops| - 1], key, from, to) + if ResetOf(ops[|ops| - 1], key, from, to) then 1 else 0
  }

  function Rate(limit: int): int {
    if limit == 0 then 1 else limit
  }

  /** Whole seconds begun in the window up to the last refill. */
  function Grants(last: int, from: int): int {
    if last < from then 0 else (last - from) / SECOND + 1
  }

  /** Admitted so far plus what is left stays within what was handed out at once and the refills. */
  ghost predicate Budget(limit: int, handed: int, n: int, b: Bucket, from: int) {
    b.last > from - SECOND && n + b.tokens <= handed + Grants(b.last, from) * Rate(limit)
  }

  lemma FloorSum(a: int, b: int)
    requires a >= 0 && b >= 0
    ensures a / SECOND + b / SECOND <= (a + b) / SECOND
  {
  }

  lemma GrantsGrow(last: int, now: int, from: int)
    requires from - SECOND < last <= now && from <= now
    ensures Grants(last, from) + (now - last) / SECOND <= Grants(now, from)
    ensures Grants(last, from) <= Grants(now, from)
  {
    if last >= from {
      FloorSum(last - from, now - last);
      assert (last - from) + (now - last) == now - from;
    } else {
      assert now - last < now - from + SECOND;
    }
  }

  lemma MulMonotone(x: int, y: int, r: int)
    requires x <= y && r >= 0
    ensures x * r <= y * r
  {
  }

  lemma LaterRefill(limit: int, handed: int, n: int, b: Bucket, from: int, now: int)
    requires limit >= 0 && BucketOk(limit, b) && Budget(limit, handed, n, b, from) && b.last <= now && from <= now
    ensures Budget(limit, handed, n, Refill(b, now), from)
  {
    var rate, seconds := Rate(limit), (now - b.last) / SECOND;
    var g, h := Grants(b.last, from), Grants(now, from);
    GrantsGrow(b.last, now, from);
    MulMonotone(g + seconds, h, rate);
    assert (g + seconds) * rate == g * rate + seconds * rate;
    assert b.rate == rate;
  }

  lemma LaterCall(limit: int, handed: int, n: int, b: Bucket, from: int, now: int)
    requires limit >= 0 && BucketOk(limit, b) && Budget(limit, handed, n, b, from) && b.last <= now && from <= now
    ensures var (b', ok) := Consume(b, now); Budget(limit, handed, n + if ok then 1 else 0, b', from)
  {
    LaterRefill(limit, handed, n, b, from, now);
    hide Refill;
  }

  lemma FirstCall(limit: int, handed: int, b: Bucket, from: int, now: int)
    requires limit >= 0 && BucketOk(limit, b) && b.last <= now && from <= now && limit <= handed
    ensures var (b', ok) := Consume(b, now); Budget(limit, handed, if ok then 1 else 0, b', from)
  {
    var rate, seconds := Rate(limit), (now - b.last) / SECOND;
    var b' := Refill(b, now);
    MulMonotone(0, Grants(b'.last, from), rate);
    if seconds >= 1 { MulGrows(seconds, rate); }
  }

  /** Ten idle minutes refill a whole bucket: what is admitted before an eviction is covered by the refills since. */
  lemma EvictionCovered(limit: int, handed: int, n: int, b: Bucket, from: int, now: int)
    requires limit >= 0 && BucketOk(limit, b) && Budget(limit, handed, n, b, from) && Stale(b, now) && from <= now
    ensures n + limit <= handed + Grants(now, from) * Rate(limit)
  {
    var rate, g, h := Rate(limit), Grants(b.last, from), Grants(now, from);
    GrantsGrow(b.last, now, from);
    MulMonotone(g + 1, h, rate);
    assert (g + 1) * rate == g * rate + rate;
  }

  ghost predicate CalledIn(ops: seq<Op>, key: string, from: int) {
    exists i :: 0 <= i < |ops| && ops[i].Allow? && ops[i].key == key && from <= ops[i].now
  }

  lemma StepBucketsOk(limits: Limits, s: Store, last: int, op: Op)
    requires (forall key | key in s :: BucketOk(limits(key), s[key]) && s[key].last <= last) && last <= op.now
    ensures var s' := Step(limits, true, s, op).0;
            forall key | key in s' :: BucketOk(limits(key), s'[key]) && s'[key].last <= op.now
  {
    if op.Allow? { RefillOk(limits(op.key), Lookup(limits, s, op.key, op.now), op.now); }
    if op.GetCount? && op.key in s { RefillOk(limits(op.key), s[op.key], op.now); }
    hide Consume, Refill;
  }

  lemma {:induction false} BucketsOk(limits: Limits, ops: seq<Op>)
    requires Ordered(ops)
    ensures forall key | key in Run(limits, true, ops).0 ::
              BucketOk(limits(key), Run(limits, true, ops).0[key]) && Run(limits, true, ops).0[key].last <= Latest(ops)
  {
    if ops != [] {
      var rest, op := ops[..|ops| - 1], ops[|ops| - 1];
      BucketsOk(limits, rest);
      hide Step, BucketOk;
      StepBucketsOk(limits, Run(limits, true, rest).0, if rest == [] then op.now else Latest(rest), op);
    }
  }

  /** What the window has admitted and what the bucket, or a new one, still holds. */
  ghost predicate InBudget(limits: Limits, called: bool, key: string, from: int, handed: int, n: int, s: Store,
                           now: int)
  {
    if !called then n == 0
    else if key in s then Budget(limits(key), handed, n, s[key], from)
    else n + limits(key) <= handed + Grants(now, from) * Rate(limits(key))
  }

  lemma CalledLast(rest: seq<Op>, op: Op, key: string, from: int)
    ensures CalledIn(rest + [op], key, from) <==>
            CalledIn(rest, key, from) || (op.Allow? && op.key == key && from <= op.now)
  {
    var ops := rest + [op];
    if CalledIn(rest, key, from) {
      var i :| 0 <= i < |rest| && rest[i].Allow? && rest[i].key == key && from <= rest[i].now;
      assert ops[i] == rest[i];
    }
    assert ops[|rest|] == op;
  }

  /** The operation is a request in the window. */
  predicate CallOf(op: Op, key: string, from: int) {
    op.Allow? && op.key == key && from <= op.now
  }

  lemma CallBudget(limits: Limits, called: bool, op: Op, key: string, from: int, handed: int, n: int, s: Store,
                   last: int)
    requires limits(key) >= 0 && limits(key) <= handed && InBudget(limits, called, key, from, handed, n, s, last)
    requires key in s ==> BucketOk(limits(key), s[key]) && s[key].last <= op.now
    requires last <= op.now && (called ==> from <= last) && CallOf(op, key, from)
    ensures var r := Step(limits, true, s, op);
            InBudget(limits, true, key, from, handed, n + if r.1 == Allowed(true) then 1 else 0, r.0, op.now)
  {
    hide Consume, Budget;
    var limit, b := limits(key), Lookup(limits, s, key, op.now);
    if !called {
      FirstCall(limit, handed, b, from, op.now);
    } else if key in s {
      LaterCall(limit, handed, n, b, from, op.now);
    } else {
      GrantsGrow(last, op.now, from);
      MulMonotone(Grants(last, from), Grants(op.now, from), Rate(limit));
      NewInBudget(limit, handed, n, from, op.now);
      LaterCall(limit, handed, n, b, from, op.now);
    }
  }

  lemma NewInBudget(limit: int, handed: int, n: int, from: int, now: int)
    requires from <= now && n + limit <= handed + Grants(now, from) * Rate(limit)
    ensures Budget(limit, handed, n, NewBucket(limit, now), from)
  {
  }

  lemma OtherBudget(limits: Limits, called: bool, op: Op, key: string, from: int, handed: int, n: int, s: Store,
                    last: int)
    requires limits(key) >= 0 && InBudget(limits, called, key, from, handed, n, s, last) && !CallOf(op, key, from)
    requires key in s ==> BucketOk(limits(key), s[key]) && s[key].last <= op.now
    requires last <= op.now && (called ==> from <= last)
    ensures var more := if op.Reset? && op.key == key && from <= op.now then limits(key) else 0;
            InBudget(limits, called, key, from, handed + more, n, Step(limits, true, s, op).0, op.now)
  {
    var limit := limits(key);
    if called {
      GrantsGrow(last, op.now, from);
      MulMonotone(Grants(last, from), Grants(op.now, from), Rate(limit));
      if key in s {
        var b := s[key];
        match op
        case GetCount(_, now) => LaterRefill(limit, handed, n, b, from, now);
        case Cleanup(now) => if Stale(b, now) { EvictionCovered(limit, handed, n, b, from, now); }
        case Reset(_, now) =>
          GrantsGrow(b.last, now, from);
          MulMonotone(Grants(b.last, from), Grants(now, from), Rate(limit));
        case _ =>
      }
    }
    hide Refill, Consume, Grants;
  }

  lemma StepBudget(limits: Limits, called: bool, op: Op, key: string, from: int, to: int, handed: int, n: int, s: Store,
                   last: int)
    requires 0 <= limits(key) <= handed && InBudget(limits, called, key, from, handed, n, s, last)
    requires key in s ==> BucketOk(limits(key), s[key]) && s[key].last <= op.now
    requires last <= op.now <= to && (called ==> from <= last)
    ensures var r := Step(limits, true, s, op);
            var hit := CallOf(op, key, from) && r.1 == Allowed(true);
            InBudget(limits, called || CallOf(op, key, from), key, from,
                     handed + if ResetOf(op, key, from, to) then limits(key) else 0,
                     n + if hit then 1 else 0, r.0, op.now)
  {
    hide Step, InBudget, BucketOk;
    if CallOf(op, key, from) {
      CallBudget(limits, called, op, key, from, handed, n, s, last);
    } else {
      OtherBudget(limits, called, op, key, from, handed, n, s, last);
    }
  }

  /** The capacity, once more for each reset. */
  function Handed(limit: int, ops: seq<Op>, key: string, from: int, to: int): int {
    if ops == [] then limit
    else Handed(limit, ops[..|ops| - 1], key, from, to) + if ResetOf(ops[|ops| - 1], key, from, to) then limit else 0
  }

  lemma {:induction false} HandedIsProduct(limit: int, ops: seq<Op>, key: string, from: int, to: int)
    ensures Handed(limit, ops, key, from, to) == (1 + Resets(ops, key, from, to)) * limit
  {
    if ops != [] {
      HandedIsProduct(limit, ops[..|ops| - 1], key, from, to);
      var n := 1 + Resets(ops[..|ops| - 1], key, from, to);
      assert (n + 1) * limit == n * limit + limit;
    }
  }

  lemma {:induction false} HandedAtLeast(limit: int, ops: seq<Op>, key: string, from: int, to: int)
    requires limit >= 0
    ensures limit <= Handed(limit, ops, key, from, to)
  {
    if ops != [] { HandedAtLeast(limit, ops[..|ops| - 1], key, from, to); }
  }

  ghost predicate RunInBudget(limits: Limits, ops: seq<Op>, key: string, from: int, to: int, now: int) {
    && (CalledIn(ops, key, from) ==> from <= now)
    && InBudget(limits, CalledIn(ops, key, from), key, from, Handed(limits(key), ops, key, from, to),
                Admitted(limits, ops, key, from, to), Run(limits, true, ops).0, now)
  }

  lemma MoreInBudget(limits: Limits, rest: seq<Op>, op: Op, key: string, from: int, to: int, last: int)
    requires limits(key) >= 0 && RunInBudget(limits, rest, key, from, to, last) && last <= op.now <= to
    requires var s := Run(limits, true, rest).0; key in s ==> BucketOk(limits(key), s[key]) && s[key].last <= op.now
    ensures RunInBudget(limits, rest + [op], key, from, to, op.now)
  {
    var ops := rest + [op];
    assert ops[..|ops| - 1] == rest && ops[|ops| - 1] == op;
    CalledLast(rest, op, key, from);
    HandedAtLeast(limits(key), rest, key, from, to);
    hide Step, InBudget, BucketOk, CalledIn, ResetOf;
    StepBudget(limits, CalledIn(rest, key, from), op, key, from, to, Handed(limits(key), rest, key, from, to),
               Admitted(limits, rest, key, from, to), Run(limits, true, rest).0, last);
  }

  lemma {:induction false} WindowBudget(limits: Limits, ops: seq<Op>, key: string, from: int, to: int)
    requires Ordered(ops) && limits(key) >= 0 && forall op | op in ops :: op.now <= to
    ensures RunInBudget(limits, ops, key, from, to, Latest(ops))
  {
    if ops == [] {
      NothingYet(limits, key, from);
    } else {
      var rest, op := ops[..|ops| - 1], ops[|ops| - 1];
      assert op in ops && ops == rest + [op];
      WindowBudget(limits, rest, key, from, to);
      BucketsOk(limits, rest);
      if rest == [] { NothingYet(limits, key, from); }
      hide InBudget, BucketOk, CalledIn, Step;
      MoreInBudget(limits, rest, op, key, from, to, if rest == [] then op.now else Latest(rest));
    }
  }

  lemma NothingYet(limits: Limits, key: string, from: int)
    ensures !CalledIn([], key, from)
    ensures forall handed, s, now :: InBudget(limits, false, key, from, handed, 0, s, now)
  {
  }

  lemma {:induction false} NoLimitNoAdmission(limits: Limits, ops: seq<Op>, key: string, from: int, to: int)
    requires Ordered(ops) && limits(key) <= 0
    ensures Admitted(limits, ops, key, from, to) == 0
  {
    if ops != [] {
      var rest, op := ops[..|ops| - 1], ops[|ops| - 1];
      NoLimitNoAdmission(limits, rest, key, from, to);
      BucketsOk(limits, rest);
      if op.Allow? { RefillOk(limits(op.key), Lookup(limits, Run(limits, true, rest).0, op.key, op.now), op.now); }
    }
  }

  /** Whatever is read, reset and evicted: in any window [from, to] a key gets at most its capacity, once more for each
      reset, plus one refill per started second; a limit of zero or less admits nothing. */
  lemma {:induction false} WindowBound(limits: Limits, ops: seq<Op>, key: string, from: int, to: int)
    requires Ordered(ops) && from <= to
    ensures limits(key) >= 1 ==>
              Admitted(limits, ops, key, from, to) <=
              (1 + Resets(ops, key, from, to)) * limits(key) + ((to - from) / SECOND + 1) * Rate(limits(key))
    ensures limits(key) <= 0 ==> Admitted(limits, ops, key, from, to) == 0
  {
    var limit := limits(key);
    if limit <= 0 {
      NoLimitNoAdmission(limits, ops, key, from, to);
    } else if ops != [] && ops[|ops| - 1].now > to {
      hide Run, Step;
      WindowBound(limits, ops[..|ops| - 1], key, from, to);
    } else {
      forall o | o in ops ensures o.now <= to {}
      WindowBudget(limits, ops, key, from, to);
      BucketsOk(limits, ops);
      HandedIsProduct(limit, ops, key, from, to);
      MulMonotone(0, (to - from) / SECOND + 1, Rate(limit));
      MulMonotone(0, 1 + Resets(ops, key, from, to), limit);
      hide Run, Step, Admitted, Resets, Handed;
      if CalledIn(ops, key, from) {
        var s := Run(limits, true, ops).0;
        var last := if key in s then s[key].last else Latest(ops);
        GrantsGrow(last, to, from);
        MulMonotone(Grants(last, from), Grants(to, from), Rate(limit));
      }
    }
  }

  // ---------- The advised waiting time ----------

  /** The time until the next token at this rate, cut towards zero. */
  function Wait(rate: int): int
    requires rate != 0
  {
    if rate > 0 then SECOND / rate else -(SECOND / -rate)
  }

  /** A refused caller alone with its bucket who comes back after the advised time is admitted exactly when a whole
      second has passed since the last refill: tokens arrive by the second, not one by one. */
  lemma WaitIsEnoughIff(limit: int, b: Bucket, now: int)
    requires limit >= 1 && BucketOk(limit, b) && b.last <= now && !Consume(b, now).1
    ensures Consume(Consume(b, now).0, now + Wait(b.rate)).1 <==> now + Wait(b.rate) - b.last >= SECOND
  {
    var rate := b.rate;
    var seconds := (now - b.last) / SECOND;
    if seconds >= 1 { MulGrows(seconds, rate); }
    assert seconds == 0 && b.tokens == 0 && Consume(b, now).0 == b;
    var later := (now + Wait(rate) - b.last) / SECOND;
    if later >= 1 { MulGrows(later, rate); }
  }

  /** With one token a second the advice is always enough; with more it can be too short. */
  lemma WaitIsEnoughAtOne(b: Bucket, now: int)
    requires BucketOk(1, b) && b.last <= now && !Consume(b, now).1
    ensures Consume(Consume(b, now).0, now + Wait(b.rate)).1
  {
    WaitIsEnoughIff(1, b, now);
  }

  /** n requests at time 0. */
  function Burst(key: string, n: nat): seq<Op> {
    if n == 0 then [] else Burst(key, n - 1) + [Allow(key, 0)]
  }

  /** The store after n of them. */
  function AfterBurst(limit: int, key: string, n: nat): Store {
    if n == 0 then map[] else map[key := Bucket(limit - n, limit, limit, 0)]
  }

  lemma BurstStep(limits: Limits, key: string, n: nat)
    requires limits(key) >= 1 && n < limits(key)
    ensures Step(limits, true, AfterBurst(limits(key), key, n), Allow(key, 0)).0 == AfterBurst(limits(key), key, n + 1)
  {
    var limit := limits(key);
    var b := Bucket(limit - n, limit, limit, 0);
    WithinSecond(b, 0);
    assert n == 0 ==> NewBucket(limit, 0) == b;
    OneKey(limits, true, key, b, 0);
    hide Step, Refill;
  }

  lemma {:induction false} BurstRun(limits: Limits, key: string, n: nat)
    requires limits(key) >= 1 && n <= limits(key)
    ensures Run(limits, true, Burst(key, n)).0 == AfterBurst(limits(key), key, n)
    ensures |Burst(key, n)| == n && |Run(limits, true, Burst(key, n)).1| == n
  {
    hide Run, Step, AfterBurst;
    if n == 0 {
      NoBurst(limits, key);
    } else {
      BurstRun(limits, key, n - 1);
      RunStep(limits, true, Burst(key, n - 1), Allow(key, 0));
      BurstStep(limits, key, n - 1);
    }
  }

  lemma NoBurst(limits: Limits, key: string)
    ensures Run(limits, true, []) == (AfterBurst(limits(key), key, 0), [])
  {
  }

  lemma {:induction false} BurstOrdered(key: string, n: nat, now: int)
    requires now >= 0
    ensures forall i | 0 <= i < |Burst(key, n)| :: Burst(key, n)[i].now == 0
    ensures Ordered(Burst(key, n) + [Allow(key, 0)] + [Allow(key, now)])
  {
    if n > 0 { BurstOrdered(key, n - 1, now); }
  }

  /** With two tokens a second or more the advice can be too short: after a full burst the next request is refused,
      and so is one that comes back alone after the advised time. */
  lemma WaitTooShort(limits: Limits, key: string)
    requires limits(key) >= 2
    ensures var limit := limits(key);
      var ops := Burst(key, limit) + [Allow(key, 0)] + [Allow(key, Wait(limit))];
      && Ordered(ops) && |Run(limits, true, ops).1| == limit + 2
      && Run(limits, true, ops).1[limit] == Allowed(false) && Run(limits, true, ops).1[limit + 1] == Allowed(false)
  {
    var limit: nat := limits(key);
    var o1, o2 := Allow(key, 0), Allow(key, Wait(limit));
    var empty := Bucket(0, limit, limit, 0);
    BurstRun(limits, key, limit);
    RunStep(limits, true, Burst(key, limit), o1);
    RunStep(limits, true, Burst(key, limit) + [o1], o2);
    assert 0 <= Wait(limit) < SECOND;
    BurstOrdered(key, limit, Wait(limit));
    WithinSecond(empty, 0);
    WithinSecond(empty, Wait(limit));
    RefusedStep(limits, key, empty, 0);
    RefusedStep(limits, key, empty, Wait(limit));
    assert AfterBurst(limit, key, limit) == map[key := empty];
    hide Run, Step, Burst, Refill, Wait, AfterBurst, Ordered;
  }

  lemma RefusedStep(limits: Limits, key: string, b: Bucket, now: int)
    requires b.tokens == 0 && Refill(b, now) == b
    ensures Step(limits, true, map[key := b], Allow(key, now)) == (map[key := b], Allowed(false))
  {
    hide Refill;
    var s: Store := map[key := b];
    assert s[key := b] == s;
  }

  // ---------- The store object ----------

  class MemoryStore {
    var buckets: Store

    /** Refill rates are at least one either way, so the waiting time is defined. */
    ghost predicate Valid()
      reads this
    {
      forall key | key in buckets :: buckets[key].rate != 0
    }

    constructor ()
      ensures Valid() && buckets == map[]
    {
      buckets := map[];
    }

    /** MemoryStore.Allow: create the bucket on first use, then consume from it. */
    method Allow(key: string, limit: int, now: int) returns (ok: bool, wait: int)
      requires Valid()
      modifies this
      ensures Valid() && key in buckets
      ensures wait == if ok then 0 else Wait(buckets[key].rate)
      ensures forall limits: Limits | limits(key) == limit ::
                (buckets, Allowed(ok)) == Step(limits, true, old(buckets), Op.Allow(key, now))
    {
      if key !in buckets {
        var rate := limit;
        if rate == 0 { rate := 1; }
        buckets := buckets[key := Bucket(limit, limit, rate, now)];
      }
      var b := buckets[key];
      var add := (now - b.last) / SECOND * b.rate;
      if add > 0 {
        b := b.(tokens := Min(b.capacity, b.tokens + add), last := now);
      }
      ok, wait := b.tokens > 0, 0;
      if ok {
        b := b.(tokens := b.tokens - 1);
      } else {
        wait := if b.rate > 0 then SECOND / b.rate else -(SECOND / -b.rate);
      }
      buckets := buckets[key := b];
      assert buckets == old(buckets)[key := b];
    }

    method GetCount(key: string, now: int) returns (n: int)
      requires Valid()
      modifies this
      ensures Valid()
      ensures forall limits: Limits :: (buckets, Count(n)) == Step(limits, true, old(buckets), Op.GetCount(key, now))
      ensures n == if key in buckets then buckets[key].capacity - buckets[key].tokens else 0
    {
      if key !in buckets { return 0; }
      buckets := buckets[key := Refill(buckets[key], now)];
      n := buckets[key].capacity - buckets[key].tokens;
    }

    method Reset(key: string, now: int)
      requires Valid()
      modifies this
      ensures Valid()
      ensures forall limits: Limits :: (buckets, Nothing) == Step(limits, true, old(buckets), Op.Reset(key, now))
      ensures buckets.Keys == old(buckets).Keys
      ensures key in buckets ==> buckets[key].tokens == buckets[key].capacity == old(buckets)[key].capacity
    {
      if key in buckets {
        buckets := buckets[key := buckets[key].(tokens := buckets[key].capacity, last := now)];
      }
    }

    /** One tick of cleanupLoop: the keys are visited in any order. */
    method CleanupTick(now: int)
      requires Valid()
      modifies this
      ensures Valid()
      ensures buckets == Evicted(old(buckets), now)
      ensures forall key :: key in buckets <==>
                key in old(buckets) && now - old(buckets)[key].last <= 600 * 1_000_000_000
    {
      var todo := buckets.Keys;
      while todo != {}
        invariant todo <= buckets.Keys <= old(buckets).Keys
        invariant forall key | key in buckets :: buckets[key] == old(buckets)[key]
        invariant forall key | key in old(buckets) && key !in todo :: key in buckets <==> !Stale(old(buckets)[key], now)
        decreases |todo|
      {
        var key :| key in todo;
        if now - buckets[key].last > IDLE {
          buckets := buckets - {key};
        }
        todo := todo - {key};
      }
    }
  }
}
