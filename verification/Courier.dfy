/** The courier queue: any number of dispatchers, cancellers and cleaners over one message table.
    Each SQL statement is one atomic step; a failed write may or may not have reached the table. */
module Courier {
  import opened Base

  type MsgId = nat
  type DispatcherId = nat

  datatype Status = Queued | Processing | Sent | Failed | Abandoned | Cancelled
  datatype Row = Row(status: Status, sendCount: nat, key: string, sendAfter: Option<int>, createdAt: int,
                     updatedAt: int)

  /** A row as a dispatcher read it when it claimed it. */
  datatype Claimed = Claimed(id: MsgId, sendCount: nat)
  datatype Phase = Next | Marking(delivered: bool)
  /** The claimed rows still to be handled, and how far the first of them is. */
  datatype Dispatcher = Dispatcher(held: seq<Claimed>, phase: Phase)

  /** What happened to a message: send attempts, successful sends, cancellation. */
  datatype History = History(attempts: nat, delivered: nat, cancelled: bool)

  datatype World = World(rows: map<MsgId, Row>, dispatchers: map<DispatcherId, Dispatcher>, hist: map<MsgId, History>)

  const START := World(map[], map[], map[])
  const IDLE := Dispatcher([], Next)

  datatype Action =
    | Enqueue(id: MsgId, key: string, sendAfter: Option<int>, now: int)
    | Claim(d: DispatcherId, chosen: seq<MsgId>, limit: int, now: int)
    | ScanError(d: DispatcherId)
    | BadTemplate(d: DispatcherId, applied: bool, now: int)
    | Send(d: DispatcherId, ok: bool)
    | Mark(d: DispatcherId, applied: bool, error: bool, now: int)
    | Stop(d: DispatcherId)
    | Cancel(id: MsgId, applied: bool, now: int)
    | Cleanup(cutoff: int)

  // ---------- Table operations ----------

  function Past(w: World, id: MsgId): History {
    if id in w.hist then w.hist[id] else History(0, 0, false)
  }

  function At(w: World, d: DispatcherId): Dispatcher {
    if d in w.dispatchers then w.dispatchers[d] else IDLE
  }

  function SetDispatcher(w: World, d: DispatcherId, state: Dispatcher): World {
    w.(dispatchers := w.dispatchers[d := state])
  }

  /** UPDATE of one row by id: nothing happens when the row is gone. */
  function Update(w: World, id: MsgId, row: Row): World {
    if id in w.rows then w.(rows := w.rows[id := row]) else w
  }

  predicate KeyTaken(w: World, key: string) {
    exists id | id in w.rows :: w.rows[id].key == key
  }

  predicate Due(row: Row, now: int) {
    row.status == Queued && (row.sendAfter.None? || row.sendAfter.value <= now)
  }

  /** The claiming UPDATE as one statement: the chosen rows go to 'processing'. */
  function ClaimAll(w: World, chosen: set<MsgId>, now: int): World {
    w.(rows := map id | id in w.rows ::
         if id in chosen then w.rows[id].(status := Processing, updatedAt := now) else w.rows[id])
  }

  /** markSent. */
  function MarkSent(w: World, id: MsgId, now: int): World {
    if id in w.rows then Update(w, id, w.rows[id].(status := Sent, updatedAt := now)) else w
  }

  /** markFailed: `sendCount` is the value read at claim time, not the row's. */
  function MarkFailed(w: World, maxRetries: int, id: MsgId, sendCount: nat, now: int): World {
    if id !in w.rows then w
    else
      var status := if sendCount + 1 >= maxRetries then Abandoned else Queued;
      Update(w, id, w.rows[id].(status := status, sendCount := sendCount + 1, updatedAt := now))
  }

  function CancelRow(w: World, id: MsgId, now: int): World {
    if id in w.rows && w.rows[id].status == Queued then
      var after := Update(w, id, w.rows[id].(status := Cancelled, updatedAt := now));
      after.(hist := after.hist[id := Past(w, id).(cancelled := true)])
    else w
  }

  predicate Removable(row: Row, cutoff: int) {
    row.status in {Sent, Abandoned, Cancelled} && row.updatedAt < cutoff
  }

  function CleanupRows(w: World, cutoff: int): World {
    w.(rows := w.rows - set id | id in w.rows && Removable(w.rows[id], cutoff))
  }

  // ---------- Steps and runs ----------

  function Step(maxRetries: int, w: World, a: Action): World {
    match a
    case Enqueue(id, key, sendAfter, now) =>
      // ids are fresh; ON CONFLICT (idempotency_key) DO NOTHING
      if id in w.hist || KeyTaken(w, key) then w
      else w.(rows := w.rows[id := Row(Queued, 0, key, sendAfter, now, now)],
              hist := w.hist[id := History(0, 0, false)])
    case Claim(d, chosen, limit, now) =>
      if At(w, d) == IDLE && Claimable(w, chosen, now) && |chosen| <= limit then
        SetDispatcher(ClaimAll(w, (set id | id in chosen), now), d,
                      Dispatcher(seq(|chosen|, i requires 0 <= i < |chosen| && Claimable(w, chosen, now) =>
                                   Claimed(chosen[i], w.rows[chosen[i]].sendCount)), Next))
      else w
    case ScanError(d) =>
      var s := At(w, d);
      if s.held != [] && s.phase.Next? then SetDispatcher(w, d, Dispatcher(s.held[1..], Next)) else w
    case BadTemplate(d, applied, now) =>
      var s := At(w, d);
      if s.held != [] && s.phase.Next? then
        var after := if applied then MarkFailed(w, maxRetries, s.held[0].id, s.held[0].sendCount, now) else w;
        SetDispatcher(after, d, Dispatcher(s.held[1..], Next))
      else w
    case Send(d, ok) =>
      var s := At(w, d);
      if s.held != [] && s.phase.Next? then
        var id := s.held[0].id;
        var h := Past(w, id);
        var sent := h.(attempts := h.attempts + 1, delivered := h.delivered + if ok then 1 else 0);
        SetDispatcher(w.(hist := w.hist[id := sent]), d, Dispatcher(s.held, Marking(ok)))
      else w
    case Mark(d, applied, error, now) =>
      var s := At(w, d);
      if s.held != [] && s.phase.Marking? && (applied || error) then
        var c := s.held[0];
        var after := if !applied then w
                     else if s.phase.delivered then MarkSent(w, c.id, now)
                     else MarkFailed(w, maxRetries, c.id, c.sendCount, now);
        // an error returns from the loop and leaves the remaining claimed rows in 'processing'
        SetDispatcher(after, d, if error then IDLE else Dispatcher(s.held[1..], Next))
      else w
    case Stop(d) => SetDispatcher(w, d, IDLE)
    case Cancel(id, applied, now) => if applied then CancelRow(w, id, now) else w
    case Cleanup(cutoff) => CleanupRows(w, cutoff)
  }

  /** Rows the claiming UPDATE may return: queued, due, no row twice. Which of them it picks is left open. */
  predicate Claimable(w: World, chosen: seq<MsgId>, now: int) {
    && (forall i, j | 0 <= i < j < |chosen| :: chosen[i] != chosen[j])
    && forall i | 0 <= i < |chosen| :: chosen[i] in w.rows && Due(w.rows[chosen[i]], now)
  }

  function Run(maxRetries: int, w: World, acts: seq<Action>): World {
    if acts == [] then w else Step(maxRetries, Run(maxRetries, w, acts[..|acts| - 1]), acts[|acts| - 1])
  }

  // ---------- Invariant ----------

  function MaxAttempts(maxRetries: int): nat {
    if maxRetries < 1 then 1 else maxRetries
  }

  /** What each status says about the past of its message. */
  ghost predicate RowOk(m: nat, row: Row, h: History) {
    && h.cancelled == (row.status == Cancelled)
    && match row.status
       case Queued => h.attempts <= row.sendCount < m && h.delivered == 0
       case Processing => h.attempts <= row.sendCount + 1 <= m && h.delivered <= 1
       case Sent => h.attempts <= m && h.delivered == 1
       case Abandoned => h.attempts <= m == row.sendCount && h.delivered == 0
       case Cancelled => h.attempts <= m && h.delivered == 0
       case Failed => false
  }

  ghost predicate RowsOk(m: nat, w: World) {
    && (forall id | id in w.rows :: id in w.hist && RowOk(m, w.rows[id], w.hist[id]))
    && forall id | id in w.hist && id !in w.rows ::
         w.hist[id].attempts <= m && w.hist[id].delivered <= 1 && (w.hist[id].cancelled ==> w.hist[id].delivered == 0)
  }

  /** Steps a message can still take, counted from its row. */
  function Rank(m: nat, w: World, id: MsgId): int {
    if id !in w.rows then 0
    else match w.rows[id].status
      case Queued => 2 * (m - w.rows[id].sendCount) + 1
      case Processing => 2 * (m - w.rows[id].sendCount)
      case _ => 1
  }

  /** A claimed row is in 'processing' with the send count read, and unsent unless it is being marked. */
  ghost predicate HoldOk(w: World, s: Dispatcher, i: nat)
    requires i < |s.held|
  {
    var c := s.held[i];
    && c.id in w.rows && c.id in w.hist
    && w.rows[c.id].status == Processing && w.rows[c.id].sendCount == c.sendCount
    && if i == 0 && s.phase.Marking? then
         w.hist[c.id].delivered == if s.phase.delivered then 1 else 0
       else w.hist[c.id].attempts <= c.sendCount && w.hist[c.id].delivered == 0
  }

  ghost predicate HoldsOk(w: World) {
    && (forall d, i | d in w.dispatchers && 0 <= i < |w.dispatchers[d].held| :: HoldOk(w, w.dispatchers[d], i))
    && forall d | d in w.dispatchers && w.dispatchers[d].held == [] :: w.dispatchers[d].phase.Next?
  }

  /** No message is held in two places. */
  ghost predicate Exclusive(w: World) {
    forall d, e, i, j
      | d in w.dispatchers && e in w.dispatchers && 0 <= i < |w.dispatchers[d].held| && 0 <= j < |w.dispatchers[e].held|
        && w.dispatchers[d].held[i].id == w.dispatchers[e].held[j].id
      :: d == e && i == j
  }

  ghost predicate UniqueKeys(w: World) {
    forall a, b | a in w.rows && b in w.rows && w.rows[a].key == w.rows[b].key :: a == b
  }

  ghost predicate Inv(m: nat, w: World) {
    RowsOk(m, w) && HoldsOk(w) && Exclusive(w) && UniqueKeys(w)
  }

  // ---------- Every step keeps the invariant ----------

  /** What a dispatcher goes on with after its first row: the rest, or nothing. */
  ghost predicate Continues(s: Dispatcher, next: Dispatcher) {
    next == IDLE || (s.held != [] && next == Dispatcher(s.held[1..], Next))
  }

  lemma DropHead(m: nat, w: World, d: DispatcherId, next: Dispatcher)
    requires Inv(m, w) && Continues(At(w, d), next)
    ensures Inv(m, SetDispatcher(w, d, next))
  {
    var w' := SetDispatcher(w, d, next);
    assert RowsOk(m, w') && UniqueKeys(w');
    forall e, i | e in w'.dispatchers && 0 <= i < |w'.dispatchers[e].held| ensures HoldOk(w', w'.dispatchers[e], i) {
      if e == d { assert HoldOk(w, w.dispatchers[d], i + 1); } else { assert HoldOk(w, w.dispatchers[e], i); }
    }
    forall e, f, i, j
      | e in w'.dispatchers && f in w'.dispatchers && 0 <= i < |w'.dispatchers[e].held| &&
          0 <= j < |w'.dispatchers[f].held|
        && w'.dispatchers[e].held[i].id == w'.dispatchers[f].held[j].id
      ensures e == f && i == j
    {
      var i0 := if e == d then i + 1 else i;
      var j0 := if f == d then j + 1 else j;
      assert w.dispatchers[e].held[i0].id == w.dispatchers[f].held[j0].id;
    }
  }

  /** Writing the row of the first claimed message, once its holder has let go of it. */
  lemma WriteReleased(m: nat, w: World, id: MsgId, row: Row)
    requires Inv(m, w) && id in w.rows && row.key == w.rows[id].key
    requires forall d, i | d in w.dispatchers && 0 <= i < |w.dispatchers[d].held| :: w.dispatchers[d].held[i].id != id
    requires RowOk(m, row, w.hist[id])
    ensures Inv(m, Update(w, id, row))
  {
    var w' := Update(w, id, row);
    forall e, i | e in w'.dispatchers && 0 <= i < |w'.dispatchers[e].held| ensures HoldOk(w', w'.dispatchers[e], i) {
      assert HoldOk(w, w.dispatchers[e], i);
    }
    assert Exclusive(w');
  }

  /** After the holder of `id` moves on, nobody holds it. */
  lemma ReleasedByHolder(m: nat, w: World, d: DispatcherId, next: Dispatcher)
    requires Inv(m, w) && At(w, d).held != [] && Continues(At(w, d), next)
    ensures var id := At(w, d).held[0].id;
            var w' := SetDispatcher(w, d, next);
            forall e, i | e in w'.dispatchers && 0 <= i < |w'.dispatchers[e].held| :: w'.dispatchers[e].held[i].id != id
  {
    var w' := SetDispatcher(w, d, next);
    forall e, i | e in w'.dispatchers && 0 <= i < |w'.dispatchers[e].held|
      ensures w'.dispatchers[e].held[i].id != At(w, d).held[0].id
    {
      var i0 := if e == d then i + 1 else i;
      assert w.dispatchers[e].held[i0].id == w'.dispatchers[e].held[i].id;
    }
  }

  /** The two orders of writing the row and updating the dispatcher agree. */
  lemma WriteThenMove(m: nat, w: World, d: DispatcherId, next: Dispatcher, row: Row)
    requires Inv(m, w) && At(w, d).held != [] && Continues(At(w, d), next)
    requires var id := At(w, d).held[0].id;
             id in w.rows && row.key == w.rows[id].key && RowOk(m, row, w.hist[id])
    ensures Inv(m, SetDispatcher(Update(w, At(w, d).held[0].id, row), d, next))
  {
    hide Inv, RowOk;
    var id := At(w, d).held[0].id;
    DropHead(m, w, d, next);
    ReleasedByHolder(m, w, d, next);
    var moved := SetDispatcher(w, d, next);
    assert Update(moved, id, row) == SetDispatcher(Update(w, id, row), d, next);
    WriteReleased(m, moved, id, row);
  }

  lemma FirstHeld(m: nat, w: World, d: DispatcherId)
    requires Inv(m, w) && At(w, d).held != []
    ensures HoldOk(w, At(w, d), 0) && RowOk(m, w.rows[At(w, d).held[0].id], w.hist[At(w, d).held[0].id])
  {
    assert HoldOk(w, w.dispatchers[d], 0);
  }

  lemma MarkFailedKeeps(maxRetries: int, w: World, d: DispatcherId, next: Dispatcher, now: int)
    requires Inv(MaxAttempts(maxRetries), w) && At(w, d).held != [] && Continues(At(w, d), next)
    requires At(w, d).phase.Next? || !At(w, d).phase.delivered
    ensures var c := At(w, d).held[0];
            Inv(MaxAttempts(maxRetries), SetDispatcher(MarkFailed(w, maxRetries, c.id, c.sendCount, now), d, next))
  {
    hide Inv, Continues;
    var c := At(w, d).held[0];
    FirstHeld(MaxAttempts(maxRetries), w, d);
    var status := if c.sendCount + 1 >= maxRetries then Abandoned else Queued;
    var row := w.rows[c.id].(status := status, sendCount := c.sendCount + 1, updatedAt := now);
    WriteThenMove(MaxAttempts(maxRetries), w, d, next, row);
  }

  lemma MarkSentKeeps(m: nat, w: World, d: DispatcherId, next: Dispatcher, now: int)
    requires Inv(m, w) && At(w, d).held != [] && Continues(At(w, d), next)
    requires At(w, d).phase == Marking(true)
    ensures Inv(m, SetDispatcher(MarkSent(w, At(w, d).held[0].id, now), d, next))
  {
    hide Inv, Continues;
    FirstHeld(m, w, d);
    WriteThenMove(m, w, d, next, w.rows[At(w, d).held[0].id].(status := Sent, updatedAt := now));
  }

  lemma SendKeeps(maxRetries: int, m: nat, w: World, d: DispatcherId, ok: bool)
    requires Inv(m, w)
    ensures Inv(m, Step(maxRetries, w, Send(d, ok)))
  {
    var s := At(w, d);
    if s.held != [] && s.phase.Next? {
      var w' := Step(maxRetries, w, Send(d, ok));
      var id := s.held[0].id;
      assert HoldOk(w, w.dispatchers[d], 0);
      assert RowOk(m, w.rows[id], w.hist[id]);
      forall e, i | e in w'.dispatchers && 0 <= i < |w'.dispatchers[e].held| ensures HoldOk(w', w'.dispatchers[e], i) {
        assert HoldOk(w, w.dispatchers[e], i);
        assert w.dispatchers[e].held[i].id == id ==> e == d && i == 0;
      }
      assert Exclusive(w') && UniqueKeys(w');
    }
  }

  /** A step that leaves the dispatchers and every held message alone keeps what is known about the holds. */
  lemma HoldsUntouched(w: World, w': World)
    requires HoldsOk(w) && Exclusive(w) && w'.dispatchers == w.dispatchers
    requires forall id | id in w.rows && id in w.hist && w.rows[id].status == Processing ::
               id in w'.rows && id in w'.hist && w'.rows[id] == w.rows[id] && w'.hist[id] == w.hist[id]
    ensures HoldsOk(w') && Exclusive(w')
  {
    forall e, i | e in w'.dispatchers && 0 <= i < |w'.dispatchers[e].held| ensures HoldOk(w', w'.dispatchers[e], i) {
      assert HoldOk(w, w.dispatchers[e], i);
    }
  }

  lemma NewKeyUnique(w: World, id: MsgId, row: Row)
    requires UniqueKeys(w) && !KeyTaken(w, row.key)
    ensures UniqueKeys(w.(rows := w.rows[id := row]))
  {
  }

  lemma SameKeysUnique(w: World, w': World)
    requires UniqueKeys(w) && forall id | id in w'.rows :: id in w.rows && w'.rows[id].key == w.rows[id].key
    ensures UniqueKeys(w')
  {
  }

  lemma EnqueueKeeps(maxRetries: int, w: World, a: Action)
    requires Inv(MaxAttempts(maxRetries), w) && a.Enqueue?
    ensures Inv(MaxAttempts(maxRetries), Step(maxRetries, w, a))
  {
    var m := MaxAttempts(maxRetries);
    var w' := Step(maxRetries, w, a);
    if a.id !in w.hist && !KeyTaken(w, a.key) {
      NewKeyUnique(w, a.id, Row(Queued, 0, a.key, a.sendAfter, a.now, a.now));
      assert UniqueKeys(w');
      hide UniqueKeys, KeyTaken;
      assert HoldsOk(w') && Exclusive(w') by {
        hide RowsOk;
        HoldsUntouched(w, w');
      }
      hide HoldsOk, Exclusive;
    }
  }

  lemma CancelKeepsRows(m: nat, w: World, id: MsgId, now: int)
    requires RowsOk(m, w) && id in w.rows && w.rows[id].status == Queued
    ensures RowsOk(m, CancelRow(w, id, now))
  {
    var w' := CancelRow(w, id, now);
    assert RowOk(m, w.rows[id], w.hist[id]);
  }

  lemma CancelKeeps(m: nat, w: World, id: MsgId, now: int)
    requires Inv(m, w)
    ensures Inv(m, CancelRow(w, id, now))
  {
    var w' := CancelRow(w, id, now);
    if id in w.rows && w.rows[id].status == Queued {
      SameKeysUnique(w, w');
      CancelKeepsRows(m, w, id, now);
      hide RowsOk, UniqueKeys;
      HoldsUntouched(w, w');
    }
  }

  lemma CleanupKeeps(m: nat, w: World, cutoff: int)
    requires Inv(m, w)
    ensures Inv(m, CleanupRows(w, cutoff))
  {
    var w' := CleanupRows(w, cutoff);
    assert HoldsOk(w') && Exclusive(w') by {
      hide RowsOk, UniqueKeys;
      HoldsUntouched(w, w');
    }
    hide HoldsOk, Exclusive;
    forall x | x in w.rows ensures RowOk(m, w.rows[x], w.hist[x]) {}
  }

  lemma ClaimKeepsTable(m: nat, w: World, chosen: set<MsgId>, now: int)
    requires Inv(m, w) && forall id | id in chosen :: id in w.rows && w.rows[id].status == Queued
    ensures var w' := ClaimAll(w, chosen, now); RowsOk(m, w') && UniqueKeys(w')
  {
    var w' := ClaimAll(w, chosen, now);
    forall x | x in w'.rows ensures x in w'.hist && RowOk(m, w'.rows[x], w'.hist[x]) {
      RowOfId(m, w, x);
    }
  }

  lemma ClaimKeeps(maxRetries: int, m: nat, w: World, d: DispatcherId, chosen: seq<MsgId>, limit: int, now: int)
    requires Inv(m, w) && Claimable(w, chosen, now)
    ensures Inv(m, Step(maxRetries, w, Claim(d, chosen, limit, now)))
  {
    var w' := Step(maxRetries, w, Claim(d, chosen, limit, now));
    if At(w, d) == IDLE && |chosen| <= limit {
      var ids := set id | id in chosen;
      assert RowsOk(m, w') && UniqueKeys(w') by {
        ClaimKeepsTable(m, w, ids, now);
        hide RowsOk, UniqueKeys;
        SameTable(m, ClaimAll(w, ids, now), w');
      }
      assert HoldsOk(w') by { ClaimHolds(maxRetries, m, w, d, chosen, limit, now); }
      hide RowsOk, UniqueKeys, HoldsOk;
      ClaimExclusive(m, w, w', d, chosen, now);
    }
  }

  lemma ClaimHolds(maxRetries: int, m: nat, w: World, d: DispatcherId, chosen: seq<MsgId>, limit: int, now: int)
    requires Inv(m, w) && Claimable(w, chosen, now) && At(w, d) == IDLE && |chosen| <= limit
    ensures HoldsOk(Step(maxRetries, w, Claim(d, chosen, limit, now)))
  {
    var w' := Step(maxRetries, w, Claim(d, chosen, limit, now));
    forall e, i | e in w'.dispatchers && 0 <= i < |w'.dispatchers[e].held| ensures HoldOk(w', w'.dispatchers[e], i) {
      if e == d { RowOfId(m, w, chosen[i]); } else { assert HoldOk(w, w.dispatchers[e], i); }
    }
  }

  lemma ClaimExclusive(m: nat, w: World, w': World, d: DispatcherId, chosen: seq<MsgId>, now: int)
    requires Inv(m, w) && Claimable(w, chosen, now)
    requires w'.dispatchers.Keys == w.dispatchers.Keys + {d} && |w'.dispatchers[d].held| == |chosen|
    requires forall i | 0 <= i < |chosen| :: w'.dispatchers[d].held[i].id == chosen[i]
    requires forall e | e in w.dispatchers && e != d :: w'.dispatchers[e] == w.dispatchers[e]
    ensures Exclusive(w')
  {
    hide RowsOk, UniqueKeys;
    forall e, f, i, j
      | e in w'.dispatchers && f in w'.dispatchers && 0 <= i < |w'.dispatchers[e].held| &&
          0 <= j < |w'.dispatchers[f].held|
        && w'.dispatchers[e].held[i].id == w'.dispatchers[f].held[j].id
      ensures e == f && i == j
    {
      if e != d { assert HoldOk(w, w.dispatchers[e], i); }
      if f != d { assert HoldOk(w, w.dispatchers[f], j); }
    }
  }

  lemma RowOfId(m: nat, w: World, id: MsgId)
    requires RowsOk(m, w) && id in w.rows
    ensures id in w.hist && RowOk(m, w.rows[id], w.hist[id])
  {
  }

  lemma SameTable(m: nat, w: World, w': World)
    requires RowsOk(m, w) && UniqueKeys(w) && w'.rows == w.rows && w'.hist == w.hist
    ensures RowsOk(m, w') && UniqueKeys(w')
  {
  }

  lemma StepKeeps(maxRetries: int, w: World, a: Action)
    requires Inv(MaxAttempts(maxRetries), w)
    ensures Inv(MaxAttempts(maxRetries), Step(maxRetries, w, a))
  {
    hide Inv, MarkFailed, MarkSent, CancelRow, CleanupRows;
    var m := MaxAttempts(maxRetries);
    match a
    case Enqueue(_, _, _, _) => EnqueueKeeps(maxRetries, w, a);
    case Claim(d, chosen, limit, now) =>
      if Claimable(w, chosen, now) { ClaimKeeps(maxRetries, m, w, d, chosen, limit, now); }
    case ScanError(d) => if At(w, d).held != [] { DropHead(m, w, d, Dispatcher(At(w, d).held[1..], Next)); }
    case BadTemplate(d, applied, now) =>
      var s := At(w, d);
      if s.held != [] && s.phase.Next? {
        var next := Dispatcher(s.held[1..], Next);
        DropHead(m, w, d, next);
        MarkFailedKeeps(maxRetries, w, d, next, now);
      }
    case Send(d, ok) => SendKeeps(maxRetries, m, w, d, ok);
    case Mark(d, applied, error, now) =>
      var s := At(w, d);
      if s.held != [] && s.phase.Marking? {
        var next := if error then IDLE else Dispatcher(s.held[1..], Next);
        DropHead(m, w, d, next);
        if s.phase.delivered {
          MarkSentKeeps(m, w, d, next, now);
        } else {
          MarkFailedKeeps(maxRetries, w, d, next, now);
        }
      }
    case Stop(d) => DropHead(m, w, d, IDLE);
    case Cancel(id, applied, now) => CancelKeeps(m, w, id, now);
    case Cleanup(cutoff) => CleanupKeeps(m, w, cutoff);
  }

  // ---------- Theorems over all runs ----------

  lemma {:induction false} RunKeeps(maxRetries: int, w: World, acts: seq<Action>)
    requires Inv(MaxAttempts(maxRetries), w)
    ensures Inv(MaxAttempts(maxRetries), Run(maxRetries, w, acts))
  {
    if acts != [] {
      RunKeeps(maxRetries, w, acts[..|acts| - 1]);
      StepKeeps(maxRetries, Run(maxRetries, w, acts[..|acts| - 1]), acts[|acts| - 1]);
    }
  }

  // What happened to a message, read off the run.

  /** The world before step `k`. */
  function Before(maxRetries: int, acts: seq<Action>, k: nat): World
    requires k <= |acts|
  {
    Run(maxRetries, START, acts[..k])
  }

  /** Step `k` sends message `id`: its dispatcher has come to that row. */
  predicate SendsAt(maxRetries: int, acts: seq<Action>, k: nat, id: MsgId)
    requires k < |acts|
  {
    && acts[k].Send?
    && var s := At(Before(maxRetries, acts, k), acts[k].d); s.held != [] && s.phase.Next? && s.held[0].id == id
  }

  /** Step `k` cancels message `id`, which is queued. */
  predicate CancelsAt(maxRetries: int, acts: seq<Action>, k: nat, id: MsgId)
    requires k < |acts|
  {
    && acts[k].Cancel? && acts[k].id == id && acts[k].applied
    && var rows := Before(maxRetries, acts, k).rows; id in rows && rows[id].status == Queued
  }

  /** Step `k` changes or removes the row of `id`. */
  predicate ChangesAt(maxRetries: int, acts: seq<Action>, k: nat, id: MsgId)
    requires k < |acts|
  {
    var rows, rows' := Before(maxRetries, acts, k).rows, Before(maxRetries, acts, k + 1).rows;
    id in rows && (id !in rows' || rows'[id] != rows[id])
  }

  function Attempts(maxRetries: int, acts: seq<Action>, id: MsgId): nat {
    if acts == [] then 0
    else Attempts(maxRetries, acts[..|acts| - 1], id) + if SendsAt(maxRetries, acts, |acts| - 1, id) then 1 else 0
  }

  function Deliveries(maxRetries: int, acts: seq<Action>, id: MsgId): nat {
    if acts == [] then 0
    else Deliveries(maxRetries, acts[..|acts| - 1], id) +
         if SendsAt(maxRetries, acts, |acts| - 1, id) && acts[|acts| - 1].ok then 1 else 0
  }

  function Changes(maxRetries: int, acts: seq<Action>, id: MsgId): nat {
    if acts == [] then 0
    else Changes(maxRetries, acts[..|acts| - 1], id) + if ChangesAt(maxRetries, acts, |acts| - 1, id) then 1 else 0
  }

  ghost predicate CancelledIn(maxRetries: int, acts: seq<Action>, id: MsgId) {
    exists k :: 0 <= k < |acts| && CancelsAt(maxRetries, acts, k, id)
  }

  /** How one step changes what the world remembers of a message. */
  lemma HistoryStep(maxRetries: int, w: World, a: Action, id: MsgId)
    ensures var h, h' := Past(w, id), Past(Step(maxRetries, w, a), id);
      var sends := a.Send? && At(w, a.d).held != [] && At(w, a.d).phase.Next? && At(w, a.d).held[0].id == id;
      var cancels := a.Cancel? && a.id == id && a.applied && id in w.rows && w.rows[id].status == Queued;
      && h'.attempts == h.attempts + (if sends then 1 else 0)
      && h'.delivered == h.delivered + (if sends && a.ok then 1 else 0)
      && h'.cancelled == (h.cancelled || cancels)
  {
    hide KeyTaken, Claimable, Removable;
  }

  lemma CancelledStep(maxRetries: int, most: seq<Action>, a: Action, id: MsgId)
    ensures CancelledIn(maxRetries, most + [a], id) <==>
            CancelledIn(maxRetries, most, id) || CancelsAt(maxRetries, most + [a], |most|, id)
  {
    hide Run;
    var acts := most + [a];
    forall k | 0 <= k < |most| ensures CancelsAt(maxRetries, acts, k, id) <==> CancelsAt(maxRetries, most, k, id) {
      assert acts[k] == most[k] && acts[..k] == most[..k];
    }
  }

  /** The world's memory of a message is what the run did to it. */
  lemma {:induction false} HistoryCounts(maxRetries: int, acts: seq<Action>, id: MsgId)
    ensures Past(Run(maxRetries, START, acts), id) ==
            History(Attempts(maxRetries, acts, id), Deliveries(maxRetries, acts, id), CancelledIn(maxRetries, acts, id))
  {
    if acts != [] {
      var most, a := acts[..|acts| - 1], acts[|acts| - 1];
      HistoryCounts(maxRetries, most, id);
      HistoryStep(maxRetries, Run(maxRetries, START, most), a, id);
      CancelledStep(maxRetries, most, a, id);
      assert most + [a] == acts;
      hide Step, CancelledIn;
    }
  }

  lemma {:induction false} ChangesBounded(maxRetries: int, acts: seq<Action>, id: MsgId)
    ensures var m, w := MaxAttempts(maxRetries), Run(maxRetries, START, acts);
      && (id !in w.hist ==> id !in w.rows && Changes(maxRetries, acts, id) == 0)
      && Changes(maxRetries, acts, id) + Rank(m, w, id) <= 2 * m + 1
  {
    if acts != [] {
      hide Step, Inv, Rank;
      var most, a := acts[..|acts| - 1], acts[|acts| - 1];
      ChangesBounded(maxRetries, most, id);
      RunKeeps(maxRetries, START, most);
      RankStep(maxRetries, Run(maxRetries, START, most), a, id);
      assert acts[..|acts|] == acts;
    }
  }

  lemma RankStep(maxRetries: int, w: World, a: Action, id: MsgId)
    requires Inv(MaxAttempts(maxRetries), w)
    ensures var m, w' := MaxAttempts(maxRetries), Step(maxRetries, w, a);
      && (id !in w'.hist ==> id !in w'.rows && id !in w.hist)
      && if id in w.rows then
           if id in w'.rows && w'.rows[id] == w.rows[id] then Rank(m, w', id) == Rank(m, w, id)
           else id in w.hist && Rank(m, w', id) < Rank(m, w, id)
         else if id in w.hist then Rank(m, w', id) == Rank(m, w, id)
         else Rank(m, w', id) <= 2 * m + 1
  {
    if id in w.rows {
      RowOfId(MaxAttempts(maxRetries), w, id);
      StepDescends(maxRetries, w, a, id);
      HistoryStays(maxRetries, w, a, id);
    } else {
      NoRowStep(maxRetries, w, a, id);
    }
    hide Step, Inv;
  }

  lemma HistoryStays(maxRetries: int, w: World, a: Action, id: MsgId)
    requires id in w.hist
    ensures id in Step(maxRetries, w, a).hist
  {
    hide KeyTaken, Removable, Claimable;
  }

  lemma NoRowStep(maxRetries: int, w: World, a: Action, id: MsgId)
    requires id !in w.rows
    ensures var w' := Step(maxRetries, w, a);
      && (id !in w'.hist ==> id !in w'.rows) && (id in w.hist ==> id in w'.hist && id !in w'.rows)
      && (id in w'.rows ==> w'.rows[id].status == Queued && w'.rows[id].sendCount == 0)
  {
    hide KeyTaken, Removable;
  }

  /** In every interleaving, failed writes and abandoned batches included. */
  lemma CourierSafety(maxRetries: int, acts: seq<Action>, id: MsgId)
    ensures var m, w := MaxAttempts(maxRetries), Run(maxRetries, START, acts);
      && Exclusive(w) && UniqueKeys(w)
      && Attempts(maxRetries, acts, id) <= m
      && Deliveries(maxRetries, acts, id) <= 1
      && (CancelledIn(maxRetries, acts, id) ==> Deliveries(maxRetries, acts, id) == 0)
      && Changes(maxRetries, acts, id) <= 2 * m + 1
      && (id in w.rows ==>
            var row := w.rows[id];
            && (row.status == Sent ==> Deliveries(maxRetries, acts, id) == 1)
            && (row.status in {Queued, Abandoned, Cancelled} ==> Deliveries(maxRetries, acts, id) == 0)
            && (row.status == Cancelled <==> CancelledIn(maxRetries, acts, id))
            && (row.status == Queued ==> Attempts(maxRetries, acts, id) <= row.sendCount < m)
            && (row.status == Abandoned ==> row.sendCount == m))
  {
    RunKeeps(maxRetries, START, acts);
    HistoryCounts(maxRetries, acts, id);
    ChangesBounded(maxRetries, acts, id);
    hide CancelledIn, Run;
    var w := Run(maxRetries, START, acts);
    if id in w.rows { RowOfId(MaxAttempts(maxRetries), w, id); }
  }

  /** Once a cancellation has taken effect, no later step of any run sends the message. */
  lemma NeverSentOnceCancelled(maxRetries: int, acts: seq<Action>, c: nat, k: nat, id: MsgId)
    requires c < k < |acts| && CancelsAt(maxRetries, acts, c, id)
    ensures !SendsAt(maxRetries, acts, k, id)
  {
    var m, before := MaxAttempts(maxRetries), acts[..k];
    assert before[c] == acts[c] && before[..c] == acts[..c];
    assert CancelsAt(maxRetries, before, c, id);
    HistoryCounts(maxRetries, before, id);
    RunKeeps(maxRetries, START, before);
    if acts[k].Send? && At(Before(maxRetries, acts, k), acts[k].d).held != [] {
      hide Inv, Run;
      FirstHeld(m, Before(maxRetries, acts, k), acts[k].d);
    }
  }

  lemma RemovedStaysUnsent(maxRetries: int, w: World, a: Action, id: MsgId)
    requires Inv(MaxAttempts(maxRetries), w) && id in w.hist && id !in w.rows
    ensures var w' := Step(maxRetries, w, a);
            id in w'.hist && id !in w'.rows && Past(w', id).attempts == Past(w, id).attempts
  {
    if a.Send? && At(w, a.d).held != [] { FirstHeld(MaxAttempts(maxRetries), w, a.d); }
    hide Inv;
  }

  /** Once cleanup has removed a message, no run attempts it again or brings its row back. */
  lemma {:induction false} NeverSentOnceRemoved(maxRetries: int, before: seq<Action>, after: seq<Action>, id: MsgId)
    requires var w := Run(maxRetries, START, before); id in w.hist && id !in w.rows
    ensures var w := Run(maxRetries, START, before);
            var w' := Run(maxRetries, w, after);
            id in w'.hist && id !in w'.rows && Past(w', id).attempts == Past(w, id).attempts
  {
    if after != [] {
      var most, a := after[..|after| - 1], after[|after| - 1];
      NeverSentOnceRemoved(maxRetries, before, most, id);
      RunKeeps(maxRetries, START, before);
      RunKeeps(maxRetries, Run(maxRetries, START, before), most);
      hide Step;
      RemovedStaysUnsent(maxRetries, Run(maxRetries, Run(maxRetries, START, before), most), a, id);
    }
  }

  /** Any step that touches an existing row takes it strictly closer to its end: a retry uses up one of its sends,
      every other change advances the status. */
  lemma RowChangeDescends(maxRetries: int, acts: seq<Action>, a: Action, id: MsgId)
    ensures var w := Run(maxRetries, START, acts);
            var w' := Step(maxRetries, w, a);
            id in w.rows ==>
              || (id in w'.rows && w'.rows[id] == w.rows[id])
              || Rank(MaxAttempts(maxRetries), w', id) < Rank(MaxAttempts(maxRetries), w, id)
  {
    RunKeeps(maxRetries, START, acts);
    hide Step, Run;
    if id in Run(maxRetries, START, acts).rows { StepDescends(maxRetries, Run(maxRetries, START, acts), a, id); }
  }

  lemma StepDescends(maxRetries: int, w: World, a: Action, id: MsgId)
    requires Inv(MaxAttempts(maxRetries), w) && id in w.rows
    ensures var w' := Step(maxRetries, w, a);
            || (id in w'.rows && w'.rows[id] == w.rows[id])
            || Rank(MaxAttempts(maxRetries), w', id) < Rank(MaxAttempts(maxRetries), w, id)
  {
    RowOfId(MaxAttempts(maxRetries), w, id);
    if a.BadTemplate? || a.Mark? {
      if At(w, a.d).held != [] { assert HoldOk(w, w.dispatchers[a.d], 0); }
    }
    hide Inv;
  }

  /** What an applied mark does to its row: sent if delivered; else one more send is counted, and the row is queued
      again exactly while the count is below the limit. */
  lemma MarkOutcome(maxRetries: int, acts: seq<Action>, a: Action)
    requires (a.Mark? || a.BadTemplate?) && a.applied
    requires var s := At(Run(maxRetries, START, acts), a.d); s.held != [] && (a.Mark? <==> s.phase.Marking?)
    ensures var w, w' := Run(maxRetries, START, acts), Step(maxRetries, Run(maxRetries, START, acts), a);
      var s := At(w, a.d);
      var id := s.held[0].id;
      && id in w.rows && id in w'.rows && w.rows[id].status == Processing
      && var row, row' := w.rows[id], w'.rows[id];
         && w'.rows == w.rows[id := row.(status := row'.status, sendCount := row'.sendCount, updatedAt := a.now)]
         && (a.Mark? && s.phase.delivered ==> row'.status == Sent && row'.sendCount == row.sendCount)
         && (a.BadTemplate? || !s.phase.delivered ==>
               && row'.sendCount == row.sendCount + 1
               && (row'.status == Queued <==> row.sendCount + 1 < maxRetries)
               && (row'.status == Abandoned <==> row.sendCount + 1 >= maxRetries))
  {
    RunKeeps(maxRetries, START, acts);
    FirstHeld(MaxAttempts(maxRetries), Run(maxRetries, START, acts), a.d);
    hide Inv, Run, Claimable;
  }

  // ---------- No message is sent before its time ----------

  /** Step `e` put message `id` into the table. */
  predicate EnqueuesAt(maxRetries: int, acts: seq<Action>, e: nat, id: MsgId)
    requires e < |acts|
  {
    acts[e].Enqueue? && acts[e].id == id && id !in Before(maxRetries, acts, e).hist
        && id in Before(maxRetries, acts, e + 1).rows
  }

  ghost predicate FromEnqueue(maxRetries: int, acts: seq<Action>, id: MsgId, row: Row) {
    exists e :: 0 <= e < |acts| && EnqueuesAt(maxRetries, acts, e, id)
                && acts[e].key == row.key && acts[e].sendAfter == row.sendAfter && acts[e].now == row.createdAt
  }

  /** Dispatcher `d` claimed `id` when it was due. */
  ghost predicate FromClaim(acts: seq<Action>, d: DispatcherId, id: MsgId, row: Row) {
    exists c :: 0 <= c < |acts| && acts[c].Claim? && acts[c].d == d && id in acts[c].chosen
                && (row.sendAfter.None? || row.sendAfter.value <= acts[c].now)
  }

  lemma FromEnqueueLonger(maxRetries: int, acts: seq<Action>, a: Action, id: MsgId, row: Row)
    requires FromEnqueue(maxRetries, acts, id, row)
    ensures FromEnqueue(maxRetries, acts + [a], id, row)
  {
    hide Run;
    var longer := acts + [a];
    var e :| 0 <= e < |acts| && EnqueuesAt(maxRetries, acts, e, id)
             && acts[e].key == row.key && acts[e].sendAfter == row.sendAfter && acts[e].now == row.createdAt;
    assert longer[e] == acts[e] && longer[..e] == acts[..e] && longer[..e + 1] == acts[..e + 1];
  }

  lemma FromClaimLonger(acts: seq<Action>, a: Action, d: DispatcherId, id: MsgId, row: Row)
    requires FromClaim(acts, d, id, row)
    ensures FromClaim(acts + [a], d, id, row)
  {
    var c :| 0 <= c < |acts| && acts[c].Claim? && acts[c].d == d && id in acts[c].chosen
             && (row.sendAfter.None? || row.sendAfter.value <= acts[c].now);
    assert (acts + [a])[c] == acts[c];
  }

  /** Key, send-after time and creation time of a row never change. */
  lemma FixedFields(maxRetries: int, w: World, a: Action, id: MsgId)
    requires id in w.rows && id in Step(maxRetries, w, a).rows && (id in w.hist || !a.Enqueue?)
    ensures var row, row' := w.rows[id], Step(maxRetries, w, a).rows[id];
      row'.key == row.key && row'.sendAfter == row.sendAfter && row'.createdAt == row.createdAt
  {
    hide KeyTaken, Removable;
  }

  lemma NewRow(maxRetries: int, w: World, a: Action, id: MsgId)
    requires id !in w.rows && id in Step(maxRetries, w, a).rows
    ensures a.Enqueue? && a.id == id && id !in w.hist
    ensures Step(maxRetries, w, a).rows[id] == Row(Queued, 0, a.key, a.sendAfter, a.now, a.now)
  {
    hide KeyTaken, Removable;
  }

  lemma {:induction false} RowsFromEnqueues(maxRetries: int, acts: seq<Action>, id: MsgId)
    requires id in Run(maxRetries, START, acts).rows
    ensures FromEnqueue(maxRetries, acts, id, Run(maxRetries, START, acts).rows[id])
  {
    var most, a := acts[..|acts| - 1], acts[|acts| - 1];
    var w := Run(maxRetries, START, most);
    assert acts[..|acts|] == acts && acts == most + [a] && Run(maxRetries, START, acts) == Step(maxRetries, w, a);
    hide Step;
    if id in w.rows {
      RowsFromEnqueues(maxRetries, most, id);
      RunKeeps(maxRetries, START, most);
      RowOfId(MaxAttempts(maxRetries), w, id);
      FixedFields(maxRetries, w, a, id);
      hide Run;
      FromEnqueueLonger(maxRetries, most, a, id, w.rows[id]);
    } else {
      NewRow(maxRetries, w, a, id);
      assert EnqueuesAt(maxRetries, acts, |acts| - 1, id);
    }
  }

  /** What a dispatcher holds after a step, it claimed in that step or held before. */
  lemma HeldStep(maxRetries: int, w: World, a: Action, d: DispatcherId, i: nat)
    requires i < |At(Step(maxRetries, w, a), d).held|
    ensures var c := At(Step(maxRetries, w, a), d).held[i];
      || (exists j :: 0 <= j < |At(w, d).held| && At(w, d).held[j].id == c.id)
      || (a.Claim? && a.d == d && c.id in a.chosen && c.id in w.rows && w.rows[c.id].status == Queued
          && (w.rows[c.id].sendAfter.None? || w.rows[c.id].sendAfter.value <= a.now))
  {
    hide KeyTaken, Removable;
    var s, s' := At(w, d), At(Step(maxRetries, w, a), d);
    if s'.held == s.held {
      assert s.held[i].id == s'.held[i].id;
    } else if s.held != [] && s'.held == s.held[1..] {
      assert s.held[i + 1].id == s'.held[i].id;
    }
  }

  lemma {:induction false} HeldFromClaims(maxRetries: int, acts: seq<Action>, d: DispatcherId, i: nat)
    requires i < |At(Run(maxRetries, START, acts), d).held|
    ensures var w := Run(maxRetries, START, acts);
      var id := At(w, d).held[i].id; id in w.rows && FromClaim(acts, d, id, w.rows[id])
  {
    var most, a := acts[..|acts| - 1], acts[|acts| - 1];
    var w, w' := Run(maxRetries, START, most), Run(maxRetries, START, acts);
    assert acts == most + [a] && w' == Step(maxRetries, w, a);
    var id := At(w', d).held[i].id;
    RunKeeps(maxRetries, START, acts);
    HeldInTable(MaxAttempts(maxRetries), w');
    assert id in w'.rows;
    HeldStep(maxRetries, w, a, d, i);
    hide Step, Inv;
    if j :| 0 <= j < |At(w, d).held| && At(w, d).held[j].id == id {
      HeldFromClaims(maxRetries, most, d, j);
      RunKeeps(maxRetries, START, most);
      hide Run;
      StillSameTime(maxRetries, w, a, id);
      FromClaimLonger(most, a, d, id, w.rows[id]);
    } else {
      RunKeeps(maxRetries, START, most);
      StillSameTime(maxRetries, w, a, id);
      assert acts[|acts| - 1] == a;
    }
  }

  lemma StillSameTime(maxRetries: int, w: World, a: Action, id: MsgId)
    requires Inv(MaxAttempts(maxRetries), w) && id in w.rows && id in Step(maxRetries, w, a).rows
    ensures Step(maxRetries, w, a).rows[id].sendAfter == w.rows[id].sendAfter
  {
    hide Step;
    RowOfId(MaxAttempts(maxRetries), w, id);
    FixedFields(maxRetries, w, a, id);
  }

  /** Every send of every run: step `e` put the message into the table, step `c` claimed it for the same dispatcher, and
      by then the send-after time given in step `e` had come. */
  lemma SentWhenDue(maxRetries: int, acts: seq<Action>, k: nat, id: MsgId) returns (e: nat, c: nat)
    requires k < |acts| && SendsAt(maxRetries, acts, k, id)
    ensures e < k && EnqueuesAt(maxRetries, acts, e, id)
    ensures c < k && acts[c].Claim? && acts[c].d == acts[k].d && id in acts[c].chosen
    ensures acts[e].sendAfter.None? || acts[e].sendAfter.value <= acts[c].now
  {
    var before := acts[..k];
    var w := Run(maxRetries, START, before);
    HeldFromClaims(maxRetries, before, acts[k].d, 0);
    RowsFromEnqueues(maxRetries, before, id);
    hide Run;
    var row := w.rows[id];
    c :| 0 <= c < |before| && before[c].Claim? && before[c].d == acts[k].d && id in before[c].chosen
         && (row.sendAfter.None? || row.sendAfter.value <= before[c].now);
    e :| 0 <= e < |before| && EnqueuesAt(maxRetries, before, e, id)
         && before[e].key == row.key && before[e].sendAfter == row.sendAfter && before[e].now == row.createdAt;
    assert before[..e] == acts[..e] && before[..e + 1] == acts[..e + 1];
  }

  // ---------- Rounds without interference ----------

  /** An idle dispatcher claims one message, sends it, and marks the result. */
  function Round(d: DispatcherId, id: MsgId, ok: bool, now: int): seq<Action> {
    [Claim(d, [id], 1, now), Send(d, ok), Mark(d, true, false, now)]
  }

  lemma RunThree(maxRetries: int, w: World, a: Action, b: Action, c: Action)
    ensures Run(maxRetries, w, [a, b, c]) == Step(maxRetries, Step(maxRetries, Step(maxRetries, w, a), b), c)
  {
    hide Step;
    assert [a, b, c][..2] == [a, b] && [a, b][..1] == [a] && [a][..0] == [];
    assert Run(maxRetries, w, [a]) == Step(maxRetries, w, a);
    assert Run(maxRetries, w, [a, b]) == Step(maxRetries, Step(maxRetries, w, a), b);
  }

  /** Every queued message that is due can be claimed and sent, and is then done or one retry further. */
  lemma RoundEffect(maxRetries: int, w: World, d: DispatcherId, id: MsgId, ok: bool, now: int)
    requires At(w, d) == IDLE && id in w.rows && w.rows[id].status == Queued
    requires w.rows[id].sendAfter.None? || w.rows[id].sendAfter.value <= now
    ensures var w', row := Run(maxRetries, w, Round(d, id, ok, now)), w.rows[id];
      && At(w', d) == IDLE && Past(w', id).attempts == Past(w, id).attempts + 1
      && w'.rows == w.rows[id := row.(
           status := if ok then Sent else if row.sendCount + 1 < maxRetries then Queued else Abandoned,
           sendCount := row.sendCount + if ok then 0 else 1, updatedAt := now)]
  {
    var claim, send, mark := Claim(d, [id], 1, now), Send(d, ok), Mark(d, true, false, now);
    RunThree(maxRetries, w, claim, send, mark);
    var w1 := Step(maxRetries, w, claim);
    assert w1.rows == w.rows[id := w.rows[id].(status := Processing, updatedAt := now)] &&
           At(w1, d) == Dispatcher([Claimed(id, w.rows[id].sendCount)], Next) && w1.hist == w.hist by {
      OneClaimed(maxRetries, w, d, id, now);
    }
    hide Claimable, Run;
  }

  lemma OneClaimed(maxRetries: int, w: World, d: DispatcherId, id: MsgId, now: int)
    requires At(w, d) == IDLE && id in w.rows && Due(w.rows[id], now)
    ensures var w1 := Step(maxRetries, w, Claim(d, [id], 1, now));
      && w1.rows == w.rows[id := w.rows[id].(status := Processing, updatedAt := now)] && w1.hist == w.hist
      && At(w1, d) == Dispatcher([Claimed(id, w.rows[id].sendCount)], Next)
  {
    assert Claimable(w, [id], now);
    assert (set x | x in [id]) == {id};
    var w1 := Step(maxRetries, w, Claim(d, [id], 1, now));
    assert At(w1, d).held == [Claimed(id, w.rows[id].sendCount)];
  }

  function FailingRounds(d: DispatcherId, id: MsgId, n: nat, now: int): seq<Action> {
    if n == 0 then [] else FailingRounds(d, id, n - 1, now) + Round(d, id, false, now)
  }

  /** A message that always fails is tried exactly as often as allowed: it is queued again after every failure but the
      last, and then abandoned. */
  lemma {:induction false} AbandonedAfterLastFailure(maxRetries: int, w: World, d: DispatcherId, id: MsgId, n: nat,
                                                     now: int)
    requires At(w, d) == IDLE && id in w.rows && w.rows[id].status == Queued && w.rows[id].sendCount == 0
    requires w.rows[id].sendAfter.None? || w.rows[id].sendAfter.value <= now
    requires n <= MaxAttempts(maxRetries)
    ensures var w' := Run(maxRetries, w, FailingRounds(d, id, n, now));
      && At(w', d) == IDLE && id in w'.rows && Past(w', id).attempts == Past(w, id).attempts + n
      && w'.rows[id].sendCount == n && w'.rows[id].sendAfter == w.rows[id].sendAfter
      && w'.rows[id].status == if n < MaxAttempts(maxRetries) then Queued else Abandoned
  {
    if n > 0 {
      AbandonedAfterLastFailure(maxRetries, w, d, id, n - 1, now);
      var rounds := FailingRounds(d, id, n - 1, now);
      RunAppend(maxRetries, w, rounds, Round(d, id, false, now));
      RoundEffect(maxRetries, Run(maxRetries, w, rounds), d, id, false, now);
      hide Run, Round;
    }
  }

  /** A queued message reaches the table exactly when no row carries its idempotency key; leaving the key out means
      the key "", so a second keyless message is dropped while the first is in the table. */
  lemma KeylessMessageDropped(maxRetries: int, w: World, first: MsgId, second: MsgId, sendAfter: Option<int>, now: int)
    requires first in w.rows && w.rows[first].key == "" && second !in w.hist
    ensures Step(maxRetries, w, Enqueue(second, "", sendAfter, now)) == w
  {
    assert KeyTaken(w, "");
  }

  // ---------- The courier object ----------

  /** What happens to one claimed row: not scannable, template data invalid, or a send with its mark. */
  datatype Outcome = Unreadable | InvalidTemplate(db: TxResult) | Attempt(ok: bool, db: TxResult)

  /** The row a claimed row turns into when its outcome is handled. */
  function Handled(maxRetries: int, row: Row, outcome: Outcome, now: int): Row {
    var claimed := row.(status := Processing, updatedAt := now);
    var failed := claimed.(status := if row.sendCount + 1 >= maxRetries then Abandoned else Queued,
                           sendCount := row.sendCount + 1);
    match outcome
    case Unreadable => claimed
    case InvalidTemplate(db) => if db.Applied() then failed else claimed
    case Attempt(ok, db) => if !db.Applied() then claimed else if ok then claimed.(status := Sent) else failed
  }

  /** The steps by which a dispatcher handles its first row. */
  function Handling(d: DispatcherId, outcome: Outcome, now: int): seq<Action> {
    match outcome
    case Unreadable => [ScanError(d)]
    case InvalidTemplate(db) => [BadTemplate(d, db.Applied(), now)]
    case Attempt(ok, db) => [Send(d, ok), Mark(d, db.Applied(), db.Error(), now)]
  }

  predicate Fatal(outcome: Outcome) {
    outcome.Attempt? && outcome.db.Error()
  }

  /** The rows counted as processed. */
  function Processed(outcomes: seq<Outcome>): nat {
    if outcomes == [] then 0
    else
      var last := outcomes[|outcomes| - 1];
      Processed(outcomes[..|outcomes| - 1]) + if last.Unreadable? || Fatal(last) then 0 else 1
  }

  lemma NoneProcessed()
    ensures Processed([]) == 0
  {
  }

  /** Every row reached counts, except unreadable ones and a failed mark. */
  lemma {:induction false} ProcessedCounts(outcomes: seq<Outcome>)
    ensures Processed(outcomes) ==
            |set i | 0 <= i < |outcomes| && !outcomes[i].Unreadable?
                       && !(outcomes[i].Attempt? && outcomes[i].db.Error())|
  {
    var counted := set i | 0 <= i < |outcomes| && !outcomes[i].Unreadable? && !Fatal(outcomes[i]);
    assert counted == set i | 0 <= i < |outcomes| && !outcomes[i].Unreadable?
                                && !(outcomes[i].Attempt? && outcomes[i].db.Error());
    if outcomes != [] {
      var n := |outcomes| - 1;
      var most := outcomes[..n];
      var fewer := set i | 0 <= i < n && !most[i].Unreadable? && !(most[i].Attempt? && most[i].db.Error());
      ProcessedCounts(most);
      assert counted == if outcomes[n].Unreadable? || Fatal(outcomes[n]) then fewer else fewer + {n};
    }
  }

  lemma ProcessedMore(outcomes: seq<Outcome>, i: nat)
    requires i < |outcomes|
    ensures Processed(outcomes[..i + 1]) ==
            Processed(outcomes[..i]) + if outcomes[i].Unreadable? || Fatal(outcomes[i]) then 0 else 1
  {
    assert outcomes[..i + 1][..i] == outcomes[..i];
  }

  /** What becomes of a claimed row: sent when delivered; one more send counted when not, and queued again exactly while
      the count is below the limit; still claimed when nothing was written. */
  predicate HandledAs(maxRetries: int, row: Row, row': Row, outcome: Outcome) {
    if outcome.Unreadable? || !outcome.db.Applied() then row'.status == Processing && row'.sendCount == row.sendCount
    else if outcome.Attempt? && outcome.ok then row'.status == Sent && row'.sendCount == row.sendCount
    else
      && row'.sendCount == row.sendCount + 1
      && (row'.status == Queued <==> row.sendCount + 1 < maxRetries)
      && (row'.status == Abandoned <==> row.sendCount + 1 >= maxRetries)
  }

  lemma BatchMeaning(maxRetries: int, before: map<MsgId, Row>, rows: map<MsgId, Row>, chosen: seq<MsgId>,
                     outcomes: seq<Outcome>, now: int, reached: nat)
    requires BatchRows(maxRetries, before, rows, chosen, outcomes, now, reached)
    ensures reached <= |chosen| == |outcomes| && rows.Keys == before.Keys
    ensures forall i | 0 <= i < |chosen| :: chosen[i] in before
    ensures forall i | 0 <= i < reached :: HandledAs(maxRetries, before[chosen[i]], rows[chosen[i]], outcomes[i])
  {
  }

  /** Handling one row of the batch changes that row as `Handled` says and nothing else. */
  lemma HandlingEffect(maxRetries: int, w: World, d: DispatcherId, claimedFrom: Row, outcome: Outcome, now: int)
    requires At(w, d).held != [] && At(w, d).phase == Next
    requires At(w, d).held[0].id in w.rows && At(w, d).held[0].sendCount == claimedFrom.sendCount
    requires w.rows[At(w, d).held[0].id] == claimedFrom.(status := Processing, updatedAt := now)
    ensures var w' := Run(maxRetries, w, Handling(d, outcome, now));
      && w'.rows == w.rows[At(w, d).held[0].id := Handled(maxRetries, claimedFrom, outcome, now)]
      && At(w', d) == (if Fatal(outcome) then IDLE else Dispatcher(At(w, d).held[1..], Next))
      && HandledAs(maxRetries, claimedFrom, w'.rows[At(w, d).held[0].id], outcome)
  {
    var acts := Handling(d, outcome, now);
    if |acts| == 1 {
      assert Run(maxRetries, w, acts) == Step(maxRetries, w, acts[0]) by { assert acts[..0] == []; }
    } else {
      var one := acts[..1];
      assert one[..0] == [];
      assert Run(maxRetries, w, one) == Step(maxRetries, w, acts[0]);
    }
  }

  lemma {:induction false} RunAppend(maxRetries: int, w: World, first: seq<Action>, second: seq<Action>)
    ensures Run(maxRetries, w, first + second) == Run(maxRetries, Run(maxRetries, w, first), second)
  {
    hide Step;
    if second == [] {
      assert first + second == first;
    } else {
      RunAppend(maxRetries, w, first, second[..|second| - 1]);
      assert (first + second)[..|first + second| - 1] == first + second[..|second| - 1];
    }
  }

  /** The table while a batch is worked off: rows reached are as handled, the others of the batch are claimed, the rest
      of the table is untouched. */
  ghost predicate BatchRows(maxRetries: int, before: map<MsgId, Row>, rows: map<MsgId, Row>, chosen: seq<MsgId>,
                            outcomes: seq<Outcome>, now: int, reached: nat)
  {
    && reached <= |chosen| == |outcomes| && rows.Keys == before.Keys
    && (forall i | 0 <= i < |chosen| :: chosen[i] in before)
    && (forall i | 0 <= i < reached :: rows[chosen[i]] == Handled(maxRetries, before[chosen[i]], outcomes[i], now))
    && (forall i | reached <= i < |chosen| ::
          rows[chosen[i]] == before[chosen[i]].(status := Processing, updatedAt := now))
    && forall id | id in rows && id !in chosen :: rows[id] == before[id]
  }

  lemma NextInBatch(maxRetries: int, before: map<MsgId, Row>, rows: map<MsgId, Row>, chosen: seq<MsgId>,
                    outcomes: seq<Outcome>, now: int, reached: nat)
    requires BatchRows(maxRetries, before, rows, chosen, outcomes, now, reached) && reached < |chosen|
    requires forall i, j | 0 <= i < j < |chosen| :: chosen[i] != chosen[j]
    ensures rows[chosen[reached]] == before[chosen[reached]].(status := Processing, updatedAt := now)
    ensures BatchRows(maxRetries, before,
                      rows[chosen[reached] := Handled(maxRetries, before[chosen[reached]], outcomes[reached], now)],
                      chosen, outcomes, now, reached + 1)
  {
    hide Handled;
  }

  /** The claimed rows as the UPDATE returns them. */
  function Held(w: World, chosen: seq<MsgId>): seq<Claimed>
    requires forall i | 0 <= i < |chosen| :: chosen[i] in w.rows
  {
    seq(|chosen|, i requires 0 <= i < |chosen| => Claimed(chosen[i], w.rows[chosen[i]].sendCount))
  }

  /** Between two rows of a batch: `w` is the state, `start` the state before the claim, `trace` the steps since. */
  ghost predicate InBatch(maxRetries: int, start: World, w: World, d: DispatcherId, chosen: seq<MsgId>,
                          outcomes: seq<Outcome>, now: int, reached: nat, trace: seq<Action>)
  {
    && BatchRows(maxRetries, start.rows, w.rows, chosen, outcomes, now, reached)
    && w == Run(maxRetries, start, trace) && At(w, d) == Dispatcher(Held(start, chosen)[reached..], Next)
  }

  lemma BatchDone(maxRetries: int, start: World, w: World, d: DispatcherId, chosen: seq<MsgId>,
                  outcomes: seq<Outcome>, now: int, reached: nat, trace: seq<Action>)
    requires InBatch(maxRetries, start, w, d, chosen, outcomes, now, reached, trace)
    ensures var w' := Step(maxRetries, w, Stop(d));
      && w' == Run(maxRetries, start, trace + [Stop(d)]) && At(w', d) == IDLE
      && BatchRows(maxRetries, start.rows, w'.rows, chosen, outcomes, now, reached)
  {
    assert (trace + [Stop(d)])[..|trace|] == trace;
    hide BatchRows, Claimable;
  }

  lemma BatchTurn(maxRetries: int, start: World, w: World, d: DispatcherId, chosen: seq<MsgId>,
                  outcomes: seq<Outcome>, now: int, reached: nat, trace: seq<Action>)
    requires InBatch(maxRetries, start, w, d, chosen, outcomes, now, reached, trace) && reached < |chosen| == |outcomes|
    requires Claimable(start, chosen, now)
    ensures At(w, d).held != [] && At(w, d).phase == Next
    ensures var steps := Handling(d, outcomes[reached], now);
      var w' := Run(maxRetries, w, steps);
      if Fatal(outcomes[reached]) then
        && At(w', d) == IDLE && w' == Run(maxRetries, start, trace + steps)
        && BatchRows(maxRetries, start.rows, w'.rows, chosen, outcomes, now, reached + 1)
      else InBatch(maxRetries, start, w', d, chosen, outcomes, now, reached + 1, trace + steps)
  {
    var id, outcome := chosen[reached], outcomes[reached];
    NextInBatch(maxRetries, start.rows, w.rows, chosen, outcomes, now, reached);
    assert id in w.rows && Held(start, chosen)[reached..][1..] == Held(start, chosen)[reached + 1..];
    hide BatchRows, Run, Handled, Handling;
    HandlingEffect(maxRetries, w, d, start.rows[id], outcome, now);
    RunAppend(maxRetries, start, trace, Handling(d, outcome, now));
  }

  lemma HeldInTable(m: nat, w: World)
    requires Inv(m, w)
    ensures forall d, i | d in w.dispatchers && 0 <= i < |w.dispatchers[d].held| ::
            w.dispatchers[d].held[i].id in w.rows
  {
    forall d, i | d in w.dispatchers && 0 <= i < |w.dispatchers[d].held| ensures w.dispatchers[d].held[i].id in w.rows {
      assert HoldOk(w, w.dispatchers[d], i);
    }
  }

  class Service {
    const maxRetries: int
    var world: World

    constructor (configured: int)
      ensures maxRetries == (if configured == 0 then 3 else configured) && world == START
    {
      maxRetries := if configured == 0 then 3 else configured;
      world := START;
    }

    /** queueMessage: reports success whether or not the conflict clause dropped the row. */
    method QueueMessage(id: MsgId, key: string, sendAfter: Option<int>, now: int, db: TxResult) returns (ok: bool)
      requires id !in world.hist && id !in world.rows
      modifies this
      ensures ok == !db.Error()
      ensures world == if db.Applied() then Step(maxRetries, old(world), Enqueue(id, key, sendAfter, now))
              else old(world)
      ensures world.rows == if db.Applied() && forall x | x in old(world).rows :: old(world).rows[x].key != key
                            then old(world).rows[id := Row(Queued, 0, key, sendAfter, now, now)] else old(world).rows
    {
      if db.Applied() && !KeyTaken(world, key) {
        world := world.(rows := world.rows[id := Row(Queued, 0, key, sendAfter, now, now)],
                        hist := world.hist[id := History(0, 0, false)]);
      }
      ok := !db.Error();
    }

    /** Cancel: without a database error it succeeds exactly on a queued message. */
    method Cancel(id: MsgId, now: int, db: TxResult) returns (ok: bool)
      modifies this
      ensures world == Step(maxRetries, old(world), Action.Cancel(id, db.Applied(), now))
      ensures ok <==> !db.Error() && id in old(world).rows && old(world).rows[id].status == Queued
      ensures world.rows == if db.Applied() && id in old(world).rows && old(world).rows[id].status == Queued
                            then old(world).rows[id := old(world).rows[id].(status := Cancelled, updatedAt := now)]
                            else old(world).rows
    {
      var affected := id in world.rows && world.rows[id].status == Queued;
      if affected && db.Applied() {
        world := world.(rows := world.rows[id := world.rows[id].(status := Cancelled, updatedAt := now)],
                        hist := world.hist[id := Past(world, id).(cancelled := true)]);
      }
      ok := !db.Error() && affected;
    }

    /** Cleanup: exactly the finished rows last changed before the cutoff go, none that a dispatcher holds, and without
        an error the count is exact. */
    method Cleanup(now: int, olderThan: int, db: TxResult) returns (affected: nat, ok: bool)
      modifies this
      ensures world == if db.Applied() then Step(maxRetries, old(world), Action.Cleanup(now - olderThan))
              else old(world)
      ensures forall id :: id in world.rows <==>
                id in old(world).rows &&
                !(db.Applied() && old(world).rows[id].status in {Sent, Abandoned, Cancelled} &&
                  old(world).rows[id].updatedAt < now - olderThan)
      ensures forall id | id in world.rows :: world.rows[id] == old(world).rows[id]
      ensures Inv(MaxAttempts(maxRetries), old(world)) ==>
                && Inv(MaxAttempts(maxRetries), world)
                && forall d, i | d in world.dispatchers && 0 <= i < |world.dispatchers[d].held| ::
                     world.dispatchers[d].held[i].id in world.rows
      ensures ok == !db.Error() && affected == if ok then |old(world).rows| - |world.rows| else 0
    {
      hide Inv;
      var cutoff := now - olderThan;
      if Inv(MaxAttempts(maxRetries), world) { CleanupKeeps(MaxAttempts(maxRetries), world, cutoff); }
      affected, ok := 0, !db.Error();
      if db.Applied() {
        var gone := set id | id in world.rows && Removable(world.rows[id], cutoff);
        assert (world.rows - gone).Keys == world.rows.Keys - gone && gone <= world.rows.Keys;
        if ok { affected := |gone|; }
        world := world.(rows := world.rows - gone);
      }
      if Inv(MaxAttempts(maxRetries), world) { HeldInTable(MaxAttempts(maxRetries), world); }
    }

    /** One turn of the loop over the claimed rows. */
    method HandleFirst(d: DispatcherId, outcome: Outcome, now: int)
      requires At(world, d).held != [] && At(world, d).phase == Next
      modifies this
      ensures world == Run(maxRetries, old(world), Handling(d, outcome, now))
    {
      match outcome {
        case Unreadable =>
          RunOne(maxRetries, world, ScanError(d));
          world := Step(maxRetries, world, ScanError(d));
        case InvalidTemplate(db) =>
          RunOne(maxRetries, world, BadTemplate(d, db.Applied(), now));
          world := Step(maxRetries, world, BadTemplate(d, db.Applied(), now));
        case Attempt(ok, db) =>
          var mark := Mark(d, db.Applied(), db.Error(), now);
          RunOne(maxRetries, world, Send(d, ok));
          RunAppend(maxRetries, world, [Send(d, ok)], [mark]);
          world := Step(maxRetries, world, Send(d, ok));
          RunOne(maxRetries, world, mark);
          world := Step(maxRetries, world, mark);
      }
    }

    /** The claiming UPDATE. */
    method ClaimBatch(d: DispatcherId, limit: int, chosen: seq<MsgId>, ghost outcomes: seq<Outcome>, now: int)
      requires At(world, d) == IDLE && Claimable(world, chosen, now) && |outcomes| == |chosen| <= limit
      modifies this
      ensures InBatch(maxRetries, old(world), world, d, chosen, outcomes, now, 0, [Claim(d, chosen, limit, now)])
    {
      RunOne(maxRetries, world, Claim(d, chosen, limit, now));
      world := Step(maxRetries, world, Claim(d, chosen, limit, now));
      assert At(world, d).held == Held(old(world), chosen)[0..];
    }

    /** ProcessQueue without interference: the batch is one run of this dispatcher's steps. The row iterator yields the
        first `yielded` of the claimed rows and may end with an error. Every row up to the last one reached is as its
        outcome says, the rows after a failed mark or a broken iteration stay in 'processing', no other row changes. */
    method ProcessQueue(d: DispatcherId, batchSize: int, chosen: seq<MsgId>, outcomes: seq<Outcome>, yielded: nat,
                        broken: bool, now: int)
      returns (processed: nat, err: bool, reached: nat, ghost trace: seq<Action>)
      requires At(world, d) == IDLE && Claimable(world, chosen, now) && |outcomes| == |chosen|
      requires |chosen| <= if batchSize == 0 then 10 else batchSize
      requires yielded <= |chosen| && (yielded < |chosen| ==> broken)
      modifies this
      ensures world == Run(maxRetries, old(world), trace) && At(world, d) == IDLE
      ensures reached <= yielded && processed == Processed(outcomes[..reached])
      ensures var failed := reached > 0 && Fatal(outcomes[reached - 1]);
              (err <==> failed || broken) && (!failed ==> reached == yielded)
      ensures BatchRows(maxRetries, old(world).rows, world.rows, chosen, outcomes, now, reached)
      ensures forall i | 0 <= i < reached :: chosen[i] in old(world).rows && chosen[i] in world.rows &&
                HandledAs(maxRetries, old(world).rows[chosen[i]], world.rows[chosen[i]], outcomes[i])
    {
      hide *;
      var limit := if batchSize == 0 then 10 else batchSize;
      ghost var start := world;
      trace := [Claim(d, chosen, limit, now)];
      ClaimBatch(d, limit, chosen, outcomes, now);
      processed, reached := 0, 0;
      assert outcomes[..0] == [] && Processed([]) == 0 by { NoneProcessed(); }
      while reached < yielded
        invariant reached <= yielded && processed == Processed(outcomes[..reached])
        invariant reached > 0 ==> !Fatal(outcomes[reached - 1])
        invariant InBatch(maxRetries, start, world, d, chosen, outcomes, now, reached, trace)
        decreases yielded - reached
      {
        var outcome := outcomes[reached];
        BatchTurn(maxRetries, start, world, d, chosen, outcomes, now, reached, trace);
        ProcessedMore(outcomes, reached);
        HandleFirst(d, outcome, now);
        trace := trace + Handling(d, outcome, now);
        reached := reached + 1;
        if Fatal(outcome) {
          err := true;
          BatchMeaning(maxRetries, start.rows, world.rows, chosen, outcomes, now, reached);
          return;
        }
        if !outcome.Unreadable? {
          processed := processed + 1;
        }
      }
      BatchDone(maxRetries, start, world, d, chosen, outcomes, now, reached, trace);
      world := Step(maxRetries, world, Stop(d));
      trace := trace + [Stop(d)];
      BatchMeaning(maxRetries, start.rows, world.rows, chosen, outcomes, now, reached);
      err := broken;
    }
  }

  lemma RunOne(maxRetries: int, w: World, a: Action)
    ensures Run(maxRetries, w, [a]) == Step(maxRetries, w, a)
  {
    assert [a][..0] == [];
  }
}
