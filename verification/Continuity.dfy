/** One-time continuity containers: `Consume` reads a container and then deletes it, as two separate statements, so any
    number of calls and the expiry cleanup interleave between them. */
module Continuity {
  import opened Base

  type ContainerId = nat
  type CallId = nat

  datatype Container = Container(payload: string, expiresAt: int)

  /** A Consume call that has read its container and not yet deleted it. */
  datatype Reading = Reading(id: ContainerId, container: Container)

  /** The table, the ids ever stored, the calls between their two statements, and what each finished call returned. */
  datatype World = World(rows: map<ContainerId, Container>, used: map<ContainerId, Container>,
                         reading: map<CallId, Reading>, returned: seq<Reading>)

  const START := World(map[], map[], map[], [])

  datatype Action =
    | Store(id: ContainerId, container: Container)
    | Retrieve(call: CallId, id: ContainerId, now: int)
    | Delete(call: CallId, replyLost: bool)
    | DeleteExpired(now: int)

  function Step(w: World, a: Action): World {
    match a
    case Store(id, container) =>
      // ids are fresh
      if id in w.used then w else w.(rows := w.rows[id := container], used := w.used[id := container])
    case Retrieve(call, id, now) =>
      if call in w.reading || id !in w.rows || now > w.rows[id].expiresAt then w
      else w.(reading := w.reading[call := Reading(id, w.rows[id])])
    case Delete(call, replyLost) =>
      if call !in w.reading then w
      else
        var r := w.reading[call];
        var done := w.(reading := w.reading - {call});
        // no row affected, or a database error: the call returns an error
        if r.id !in w.rows then done
        else if replyLost then done.(rows := w.rows - {r.id})
        else done.(rows := w.rows - {r.id}, returned := w.returned + [r])
    case DeleteExpired(now) =>
      w.(rows := map id | id in w.rows && w.rows[id].expiresAt >= now :: w.rows[id])
  }

  function Run(acts: seq<Action>): World {
    if acts == [] then START else Step(Run(acts[..|acts| - 1]), acts[|acts| - 1])
  }

  ghost predicate Inv(w: World) {
    && (forall id | id in w.rows :: id in w.used && w.used[id] == w.rows[id])
    && (forall c | c in w.reading :: w.reading[c].id in w.used && w.reading[c].container == w.used[w.reading[c].id])
    && (forall i | 0 <= i < |w.returned| ::
          && w.returned[i].id in w.used && w.returned[i].container == w.used[w.returned[i].id]
          && w.returned[i].id !in w.rows)
    && forall i, j | 0 <= i < j < |w.returned| :: w.returned[i].id != w.returned[j].id
  }

  lemma DeleteKeeps(w: World, call: CallId, replyLost: bool)
    requires Inv(w)
    ensures Inv(Step(w, Delete(call, replyLost)))
  {
    if call in w.reading && w.reading[call].id in w.rows && !replyLost {
      var r, w' := w.reading[call], Step(w, Delete(call, replyLost));
      forall i | 0 <= i < |w'.returned| ensures w'.returned[i] == if i < |w.returned| then w.returned[i] else r {}
    }
  }

  lemma StepKeeps(w: World, a: Action)
    requires Inv(w)
    ensures Inv(Step(w, a))
  {
    match a
    case Delete(call, replyLost) =>
      hide Inv, Step;
      DeleteKeeps(w, call, replyLost);
    case _ =>
  }

  lemma {:induction false} RunKeeps(acts: seq<Action>)
    ensures Inv(Run(acts))
  {
    if acts != [] {
      hide Inv, Step;
      RunKeeps(acts[..|acts| - 1]);
      StepKeeps(Run(acts[..|acts| - 1]), acts[|acts| - 1]);
    }
  }

  /** At most one call returns a given container, with what was stored, and none after it is gone. */
  lemma ConsumedAtMostOnce(acts: seq<Action>, i: nat, j: nat)
    requires i < |Run(acts).returned| && j < |Run(acts).returned|
    ensures var w := Run(acts);
      && (w.returned[i].id == w.returned[j].id ==> i == j)
      && w.returned[i].id !in w.rows
      && w.returned[i].id in w.used && w.returned[i].container == w.used[w.returned[i].id]
  {
    RunKeeps(acts);
  }

  // ---------- No container is returned late ----------

  /** It was read when it had not expired. */
  ghost predicate InTime(acts: seq<Action>, r: Reading) {
    exists k :: 0 <= k < |acts| && acts[k].Retrieve? && acts[k].id == r.id && acts[k].now <= r.container.expiresAt
  }

  ghost predicate AllInTime(acts: seq<Action>, w: World) {
    && (forall c | c in w.reading :: InTime(acts, w.reading[c]))
    && forall i | 0 <= i < |w.returned| :: InTime(acts, w.returned[i])
  }

  lemma InTimeExtends(acts: seq<Action>, a: Action, r: Reading)
    requires InTime(acts, r)
    ensures InTime(acts + [a], r)
  {
    var k :| 0 <= k < |acts| && acts[k].Retrieve? && acts[k].id == r.id && acts[k].now <= r.container.expiresAt;
    assert (acts + [a])[k] == acts[k];
  }

  lemma StepInTime(acts: seq<Action>, w: World, a: Action)
    requires AllInTime(acts, w)
    ensures AllInTime(acts + [a], Step(w, a))
  {
    var longer, w' := acts + [a], Step(w, a);
    forall r: Reading | InTime(acts, r) ensures InTime(longer, r) { InTimeExtends(acts, a, r); }
    if a.Retrieve? && w' != w {
      assert longer[|acts|] == a;
      assert InTime(longer, w'.reading[a.call]);
    }
    hide InTime;
  }

  lemma {:induction false} RunInTime(acts: seq<Action>)
    ensures AllInTime(acts, Run(acts))
  {
    if acts != [] {
      hide Step, AllInTime;
      var most, a := acts[..|acts| - 1], acts[|acts| - 1];
      RunInTime(most);
      StepInTime(most, Run(most), a);
      assert most + [a] == acts;
    }
  }

  /** Whatever interleaves: a container that a call returns had not expired when it was read. */
  lemma ReturnedInTime(acts: seq<Action>, i: nat) returns (k: nat)
    requires i < |Run(acts).returned|
    ensures var r := Run(acts).returned[i];
      k < |acts| && acts[k].Retrieve? && acts[k].id == r.id && acts[k].now <= r.container.expiresAt
  {
    RunInTime(acts);
    var r := Run(acts).returned[i];
    hide Run;
    k :| 0 <= k < |acts| && acts[k].Retrieve? && acts[k].id == r.id && acts[k].now <= r.container.expiresAt;
  }

  /** The two statements of an undisturbed call return the container exactly when it is there and unexpired. */
  lemma ConsumeAlone(w: World, call: CallId, id: ContainerId, now: int)
    requires call !in w.reading
    ensures var w' := Step(Step(w, Retrieve(call, id, now)), Delete(call, false));
      if id in w.rows && now <= w.rows[id].expiresAt then
        w' == w.(rows := w.rows - {id}, returned := w.returned + [Reading(id, w.rows[id])])
      else w' == w
  {
    assert id in w.rows ==> w.reading[call := Reading(id, w.rows[id])] - {call} == w.reading;
  }

  /** The cleanup removes exactly the expired containers. */
  lemma ExpiryExact(w: World, now: int)
    ensures var w' := Step(w, DeleteExpired(now));
      && (forall id :: id in w'.rows <==> id in w.rows && !(w.rows[id].expiresAt < now))
      && (forall id | id in w'.rows :: w'.rows[id] == w.rows[id]) && w'.returned == w.returned
  {
  }

  class ContinuityStore {
    var rows: map<ContainerId, Container>

    constructor ()
      ensures rows == map[]
    {
      rows := map[];
    }

    /** Consume with nothing in between: it returns the container exactly when it is there and unexpired, and removes
        it. */
    method Consume(id: ContainerId, now: int) returns (r: Option<Container>)
      modifies this
      ensures r == if id in old(rows) && now <= old(rows)[id].expiresAt then Some(old(rows)[id]) else None
      ensures rows == if r.Some? then old(rows) - {id} else old(rows)
    {
      if id !in rows { return None; }
      var container := rows[id];
      if now > container.expiresAt { return None; }
      rows := rows - {id};
      r := Some(container);
    }
  }
}
