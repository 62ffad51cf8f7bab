/** The schema migrator: runs that may crash, lose the reply of a commit or contend for the advisory lock.
    `exec` says what a script does to a schema (`None` if it fails); a schema is named by a number. */
module Migrator {
  import opened Base

  datatype Migration = Migration(version: int, name: string, up: string, down: string)
  type Schema = int
  type Exec = (Schema, string) -> Option<Schema>

  // ---------- Loading ----------

  /** A migration file in directory-walk order, its name already parsed. */
  datatype File = File(version: int, name: string, isUp: bool, content: string)

  predicate Is(f: File, v: int, isUp: bool) {
    f.version == v && f.isUp == isUp
  }

  /** The content of the last file of that version and direction, or nothing. */
  ghost predicate LastScript(files: seq<File>, v: int, isUp: bool, script: string) {
    if exists k :: 0 <= k < |files| && Is(files[k], v, isUp) then
      exists k :: 0 <= k < |files| && Is(files[k], v, isUp) && script == files[k].content &&
                  forall j | k < j < |files| :: !Is(files[j], v, isUp)
    else script == ""
  }

  /** The name given by the first file of that version. */
  ghost predicate FirstName(files: seq<File>, v: int, name: string) {
    exists k :: 0 <= k < |files| && files[k].version == v && name == files[k].name &&
                forall j | 0 <= j < k :: files[j].version != v
  }

  /** Files of one version make one migration: the first gives the name, the last of each direction the script. */
  ghost predicate MadeFrom(files: seq<File>, m: Migration) {
    && FirstName(files, m.version, m.name)
    && LastScript(files, m.version, true, m.up) && LastScript(files, m.version, false, m.down)
  }

  lemma LastScriptStep(files: seq<File>, f: File, v: int, isUp: bool, script: string)
    requires Is(f, v, isUp) || LastScript(files, v, isUp, script)
    ensures LastScript(files + [f], v, isUp, if Is(f, v, isUp) then f.content else script)
  {
    var more := files + [f];
    if Is(f, v, isUp) {
      assert Is(more[|files|], v, isUp);
    } else if exists k :: 0 <= k < |files| && Is(files[k], v, isUp) {
      var k :| 0 <= k < |files| && Is(files[k], v, isUp) && script == files[k].content &&
               forall j | k < j < |files| :: !Is(files[j], v, isUp);
      assert Is(more[k], v, isUp);
    }
  }

  lemma FirstNameStep(files: seq<File>, f: File, v: int, name: string)
    requires FirstName(files, v, name) || (name == f.name && v == f.version && forall g | g in files :: g.version != v)
    ensures FirstName(files + [f], v, name)
  {
    var more := files + [f];
    if FirstName(files, v, name) {
      var k :| 0 <= k < |files| && files[k].version == v && name == files[k].name &&
               forall j | 0 <= j < k :: files[j].version != v;
      assert more[k] == files[k];
    } else {
      assert more[|files|] == f;
      forall j | 0 <= j < |files| ensures more[j].version != v { assert files[j] in files; }
    }
  }

  /** A migration after one more file. */
  lemma MadeFromStep(files: seq<File>, f: File, was: Migration)
    requires MadeFrom(files, was) ||
             (was == Migration(f.version, f.name, "", "") && forall g | g in files :: g.version != f.version)
    ensures MadeFrom(files + [f], if f.version != was.version then was
                                  else if f.isUp then was.(up := f.content) else was.(down := f.content))
  {
    var v := was.version;
    FirstNameStep(files, f, v, was.name);
    if !MadeFrom(files, was) {
      forall k | 0 <= k < |files| ensures files[k].version != v { assert files[k] in files; }
    }
    LastScriptStep(files, f, v, true, was.up);
    LastScriptStep(files, f, v, false, was.down);
    hide FirstName, LastScript;
  }

  /** The map the loader builds from some files. */
  ghost predicate MergedFrom(files: seq<File>, merged: map<int, Migration>) {
    && (forall v :: v in merged <==> exists f :: f in files && f.version == v)
    && forall v | v in merged :: merged[v].version == v && MadeFrom(files, merged[v])
  }

  lemma MergedStep(files: seq<File>, f: File, merged: map<int, Migration>, mig: Migration)
    requires MergedFrom(files, merged)
    requires var was := if f.version in merged then merged[f.version] else Migration(f.version, f.name, "", "");
      mig == if f.isUp then was.(up := f.content) else was.(down := f.content)
    ensures MergedFrom(files + [f], merged[f.version := mig])
  {
    var more, merged' := files + [f], merged[f.version := mig];
    hide MadeFrom;
    forall v ensures v in merged' <==> exists g :: g in more && g.version == v {
      if v == f.version { assert f in more; }
      if v in merged { var g :| g in files && g.version == v; assert g in more; }
    }
    forall v | v in merged' ensures MadeFrom(more, merged'[v]) {
      MadeFromStep(files, f, if v in merged then merged[v] else Migration(f.version, f.name, "", ""));
    }
  }

  ghost predicate StrictlySorted(ms: seq<Migration>) {
    forall i, j | 0 <= i < j < |ms| :: ms[i].version < ms[j].version
  }

  /** Put `m` before the first migration of a higher version. */
  function Insert(m: Migration, ms: seq<Migration>): seq<Migration> {
    if ms == [] || m.version < ms[0].version then [m] + ms else [ms[0]] + Insert(m, ms[1..])
  }

  lemma {:induction false} InsertKeepsSorted(m: Migration, ms: seq<Migration>)
    requires StrictlySorted(ms) && forall i | 0 <= i < |ms| :: ms[i].version != m.version
    ensures StrictlySorted(Insert(m, ms)) && forall x :: x in Insert(m, ms) <==> x == m || x in ms
  {
    if ms != [] && !(m.version < ms[0].version) {
      var rest := ms[1..];
      InsertKeepsSorted(m, rest);
      assert ms == [ms[0]] + rest;
      forall j | 0 <= j < |Insert(m, rest)| ensures ms[0].version < Insert(m, rest)[j].version {
        assert Insert(m, rest)[j] in Insert(m, rest);
      }
    }
  }

  lemma AnyOf<T>(s: set<T>) returns (x: T)
    requires s != {}
    ensures x in s
  {
    x :| x in s;
  }

  /** Some key of a map, whichever the iteration yields next. */
  method Choose<T(==)>(s: set<T>) returns (x: T)
    requires s != {}
    ensures x in s
  {
    x :| x in s;
  }

  /** loadMigrations: merge the files by version, then sort. */
  method LoadMigrations(files: seq<File>) returns (ms: seq<Migration>)
    ensures StrictlySorted(ms)
    ensures forall f | f in files :: exists m :: m in ms && m.version == f.version
    ensures forall m | m in ms :: MadeFrom(files, m)
  {
    hide MadeFrom;
    var merged: map<int, Migration> := map[];
    for k := 0 to |files|
      invariant MergedFrom(files[..k], merged)
    {
      assert files[..k + 1] == files[..k] + [files[k]];
      var f := files[k];
      var mig := if f.version in merged then merged[f.version] else Migration(f.version, f.name, "", "");
      if f.isUp { mig := mig.(up := f.content); } else { mig := mig.(down := f.content); }
      MergedStep(files[..k], f, merged, mig);
      merged := merged[f.version := mig];
    }
    assert files[..|files|] == files;
    ms := [];
    var todo := merged.Keys;
    while todo != {}
      invariant todo <= merged.Keys && StrictlySorted(ms)
      invariant forall x :: x in ms <==> x.version in merged && x.version !in todo && merged[x.version] == x
      decreases |todo|
    {
      var v := Choose(todo);
      forall i | 0 <= i < |ms| ensures ms[i].version != v { assert ms[i] in ms; }
      InsertKeepsSorted(merged[v], ms);
      ms := Insert(merged[v], ms);
      todo := todo - {v};
    }
    forall f | f in files ensures exists m :: m in ms && m.version == f.version {
      assert f.version in merged && merged[f.version] in ms;
    }
  }

  // ---------- Runs ----------

  type ProcessId = nat
  type RollbackId = nat

  /** A connection that holds the lock: its run has not yet read the current version, is inside the loop, or has failed
      and has still to unlock; or no run uses it and the lock was left behind. */
  datatype Phase = Locked | Applying(current: int, next: nat) | Ending | Left

  /** The tracking table and the schema; the connection that holds the lock and how often it has taken it; the version
      each rollback in progress has read; and how often each version's up and down script has taken effect. */
  datatype World = World(applied: set<int>, schema: Schema, holder: Option<ProcessId>, depth: nat, phase: Phase,
                         reading: map<RollbackId, int>, executed: multiset<int>, undone: multiset<int>)

  datatype Action =
    | TryLock(p: ProcessId)
    | ReadVersion(p: ProcessId)
    | Advance(p: ProcessId, tx: TxResult)
    | Unlock(p: ProcessId, ok: bool)
    | Crash(p: ProcessId)
    | RollbackRead(r: RollbackId)
    | RollbackWrite(r: RollbackId, tx: TxResult)

  function Fresh(schema: Schema): World {
    World({}, schema, None, 0, Locked, map[], multiset{}, multiset{})
  }

  predicate IsMax(s: set<int>, v: int) {
    v in s && forall x | x in s :: x <= v
  }

  lemma {:induction false} MaxExists(s: set<int>)
    requires s != {}
    ensures exists v :: IsMax(s, v)
  {
    var x: int := AnyOf(s);
    if s == {x} {
      assert IsMax(s, x);
    } else {
      assert s - {x} != {};
      MaxExists(s - {x});
      var y :| IsMax(s - {x}, y);
      assert forall z | z in s :: z == x || z in s - {x};
      assert IsMax(s, if x > y then x else y);
    }
  }

  /** SELECT COALESCE(MAX(version), 0). */
  function CurrentVersion(applied: set<int>): (v: int)
    ensures if applied == {} then v == 0 else IsMax(applied, v)
  {
    if applied == {} then 0 else
    MaxExists(applied);
    var v :| v in applied && forall x | x in applied :: x <= v;
    v
  }

  ghost function Down(ms: seq<Migration>, v: int): Option<string> {
    if exists i :: 0 <= i < |ms| && ms[i].version == v then
      var i :| 0 <= i < |ms| && ms[i].version == v;
      if ms[i].down == "" then None else Some(ms[i].down)
    else None
  }

  /** The schema after the down script of `v`, if there is one and it succeeds. */
  ghost function Undo(exec: Exec, ms: seq<Migration>, w: World, v: int): Option<Schema> {
    match Down(ms, v)
    case None => None
    case Some(script) => exec(w.schema, script)
  }

  /** applyMigration inside its transaction. */
  function Apply(exec: Exec, w: World, m: Migration, tx: TxResult): (World, bool) {
    match exec(w.schema, m.up)
    case None => (w, false)
    case Some(schema) =>
      if tx.RolledBack? || m.version in w.applied then (w, false)
      else (w.(applied := w.applied + {m.version}, schema := schema, executed := w.executed + multiset{m.version}),
            tx.Committed?)
  }

  /** The deferred unlock, whose error is ignored: it takes back one of the holds of the connection. */
  function Unlocked(w: World, ok: bool): World {
    if !ok then w.(phase := Left)
    else if w.depth <= 1 then w.(holder := None, depth := 0, phase := Locked)
    else w.(depth := w.depth - 1, phase := Left)
  }

  ghost function Step(exec: Exec, ms: seq<Migration>, w: World, a: Action): World {
    match a
    // a session lock is re-entrant: a connection that still has it gets it again
    case TryLock(p) =>
      if w.holder.None? || (w.holder == Some(p) && w.phase.Left?)
      then w.(holder := Some(p), depth := w.depth + 1, phase := Locked) else w
    case ReadVersion(p) =>
      if w.holder == Some(p) && w.phase.Locked? then w.(phase := Applying(CurrentVersion(w.applied), 0)) else w
    case Advance(p, tx) =>
      if w.holder == Some(p) && w.phase.Applying? && w.phase.next < |ms| then
        var m := ms[w.phase.next];
        var onward := w.phase.(next := w.phase.next + 1);
        if m.version <= w.phase.current then w.(phase := onward)
        else
          var (w', ok) := Apply(exec, w, m, tx);
          // an error ends the run; the deferred unlock is still to come
          if ok then w'.(phase := onward) else w'.(phase := Ending)
      else w
    case Unlock(p, ok) => if w.holder == Some(p) && !w.phase.Left? then Unlocked(w, ok) else w
    // the connection is closed
    case Crash(p) => if w.holder == Some(p) then w.(holder := None, depth := 0, phase := Locked) else w
    // Rollback takes no lock: it reads the newest version, and later undoes that version in a transaction
    case RollbackRead(r) =>
      if w.applied == {} || r in w.reading then w else w.(reading := w.reading[r := CurrentVersion(w.applied)])
    case RollbackWrite(r, tx) =>
      if r !in w.reading then w
      else
        var v, done := w.reading[r], w.(reading := w.reading - {r});
        match Undo(exec, ms, w, v)
        case None => done
        case Some(schema) =>
          if tx.RolledBack? then done
          else done.(applied := w.applied - {v}, schema := schema, undone := w.undone + multiset{v})
  }

  ghost function Run(exec: Exec, ms: seq<Migration>, w: World, acts: seq<Action>): World {
    if acts == [] then w else Step(exec, ms, Run(exec, ms, w, acts[..|acts| - 1]), acts[|acts| - 1])
  }

  // ---------- Invariant ----------

  /** The versions among the first `k` migrations that can be applied at all: those of 1 and up. */
  ghost function Prefix(ms: seq<Migration>, k: nat): set<int>
    requires k <= |ms|
  {
    set i | 0 <= i < k && ms[i].version >= 1 :: ms[i].version
  }

  /** The schema after their up scripts in order. */
  ghost function Folded(exec: Exec, start: Schema, ms: seq<Migration>, k: nat): Option<Schema>
    requires k <= |ms|
  {
    if k == 0 then Some(start)
    else
      match Folded(exec, start, ms, k - 1)
      case None => None
      case Some(s) => if ms[k - 1].version >= 1 then exec(s, ms[k - 1].up) else Some(s)
  }

  /** What the current version says about each migration when the first `k` are applied. */
  ghost predicate Boundary(ms: seq<Migration>, current: int, k: nat) {
    && current >= 0
    && forall i | 0 <= i < |ms| ::
         if i < k then ms[i].version <= current else ms[i].version >= 1 ==> ms[i].version > current
  }

  /** The first `k` migrations are applied; a run in its loop started at some `base` and has got to `k`. */
  ghost predicate At(ms: seq<Migration>, w: World, k: nat, base: nat) {
    && base <= k <= |ms| && w.applied == Prefix(ms, k)
    && (w.holder.Some? && w.phase.Applying? ==>
          Boundary(ms, w.phase.current, base) && w.phase.next <= |ms|
          && k == if w.phase.next > base then w.phase.next else base)
  }

  ghost predicate Inv(exec: Exec, start: Schema, ms: seq<Migration>, w: World) {
    exists k: nat, base: nat :: k <= |ms| && At(ms, w, k, base) && Folded(exec, start, ms, k) == Some(w.schema) &&
        w.executed == multiset(w.applied)
  }

  lemma PrefixBoundary(ms: seq<Migration>, k: nat)
    requires StrictlySorted(ms) && k <= |ms|
    ensures Boundary(ms, CurrentVersion(Prefix(ms, k)), k)
  {
    var applied := Prefix(ms, k);
    var current := CurrentVersion(applied);
    forall i | 0 <= i < k && ms[i].version >= 1 ensures ms[i].version <= current { assert ms[i].version in applied; }
    if applied != {} {
      var j :| 0 <= j < k && ms[j].version >= 1 && ms[j].version == current;
    }
  }

  lemma PrefixGrows(ms: seq<Migration>, k: nat)
    requires StrictlySorted(ms) && k < |ms|
    ensures ms[k].version !in Prefix(ms, k)
    ensures Prefix(ms, k + 1) == if ms[k].version >= 1 then Prefix(ms, k) + {ms[k].version} else Prefix(ms, k)
  {
    var more := Prefix(ms, k + 1);
    forall v ensures v in more <==> v in Prefix(ms, k) || (v == ms[k].version && v >= 1) {
      if v == ms[k].version && v >= 1 { assert 0 <= k < k + 1 && ms[k].version == v; }
      if v in Prefix(ms, k) {
        var i :| 0 <= i < k && ms[i].version >= 1 && ms[i].version == v;
        assert 0 <= i < k + 1;
      }
    }
  }

  /** The loop passes over migrations up to the current version, and over those below version 1. */
  lemma SkipAt(exec: Exec, start: Schema, ms: seq<Migration>, w: World, k: nat, base: nat) returns (k': nat)
    requires StrictlySorted(ms) && At(ms, w, k, base) && w.holder.Some? && w.phase.Applying? && w.phase.next < |ms|
    requires ms[w.phase.next].version <= w.phase.current
    ensures k' <= |ms| && At(ms, w.(phase := w.phase.(next := w.phase.next + 1)), k', base)
    ensures Folded(exec, start, ms, k) == Some(w.schema) ==> Folded(exec, start, ms, k') == Some(w.schema)
  {
    var n := w.phase.next;
    PrefixGrows(ms, n);
    hide Prefix;
    k' := if n >= base then n + 1 else k;
  }

  /** The loop applies the first migration beyond what is applied. */
  lemma ApplyAt(exec: Exec, start: Schema, ms: seq<Migration>, w: World, k: nat, base: nat)
    requires StrictlySorted(ms) && At(ms, w, k, base) && w.holder.Some? && w.phase.Applying? && w.phase.next < |ms|
    requires ms[w.phase.next].version > w.phase.current
    ensures k == w.phase.next && base <= k && ms[k].version >= 1 && ms[k].version !in w.applied
    ensures w.applied + {ms[k].version} == Prefix(ms, k + 1)
    ensures Folded(exec, start, ms, k) == Some(w.schema) ==> Folded(exec, start, ms, k + 1) == exec(w.schema, ms[k].up)
  {
    PrefixGrows(ms, w.phase.next);
    hide Prefix;
  }

  /** One turn of the loop, from the first `k` applied to the first `k'`. */
  lemma AdvanceAt(exec: Exec, start: Schema, ms: seq<Migration>, w: World, k: nat, base: nat, p: ProcessId,
                  tx: TxResult)
    returns (k': nat, base': nat)
    requires StrictlySorted(ms) && At(ms, w, k, base)
    ensures var w' := Step(exec, ms, w, Advance(p, tx));
      && k' <= |ms| && At(ms, w', k', base')
      && (Folded(exec, start, ms, k) == Some(w.schema) ==> Folded(exec, start, ms, k') == Some(w'.schema))
      && (w.executed == multiset(w.applied) ==> w'.executed == multiset(w'.applied))
  {
    hide Prefix, Boundary, Folded, StrictlySorted;
    k', base' := k, base;
    if w.holder == Some(p) && w.phase.Applying? && w.phase.next < |ms| {
      if ms[w.phase.next].version <= w.phase.current {
        k' := SkipAt(exec, start, ms, w, k, base);
      } else {
        ApplyAt(exec, start, ms, w, k, base);
        if exec(w.schema, ms[k].up).Some? && !tx.RolledBack? {
          assert multiset(w.applied + {ms[k].version}) == multiset(w.applied) + multiset{ms[k].version};
          k' := k + 1;
        }
      }
    }
  }

  lemma StepAt(exec: Exec, start: Schema, ms: seq<Migration>, w: World, k: nat, base: nat, a: Action)
    returns (k': nat, base': nat)
    requires StrictlySorted(ms) && At(ms, w, k, base) && !a.RollbackWrite?
    ensures var w' := Step(exec, ms, w, a);
      && k' <= |ms| && At(ms, w', k', base')
      && (Folded(exec, start, ms, k) == Some(w.schema) ==> Folded(exec, start, ms, k') == Some(w'.schema))
      && (w.executed == multiset(w.applied) ==> w'.executed == multiset(w'.applied))
  {
    k', base' := k, base;
    match a
    case ReadVersion(p) =>
      PrefixBoundary(ms, k);
      if w.holder == Some(p) && w.phase.Locked? { base' := k; }
    case Advance(p, tx) => k', base' := AdvanceAt(exec, start, ms, w, k, base, p, tx);
    case _ =>
  }

  lemma {:induction false} RunInv(exec: Exec, start: Schema, ms: seq<Migration>, acts: seq<Action>)
    requires StrictlySorted(ms) && forall a | a in acts :: !a.RollbackWrite?
    ensures Inv(exec, start, ms, Run(exec, ms, Fresh(start), acts))
  {
    hide Step, At;
    if acts == [] {
      assert At(ms, Fresh(start), 0, 0) by { NothingApplied(ms, start); }
      assert Folded(exec, start, ms, 0) == Some(start);
    } else {
      var rest, a := acts[..|acts| - 1], acts[|acts| - 1];
      assert a in acts;
      RunInv(exec, start, ms, rest);
      var w := Run(exec, ms, Fresh(start), rest);
      var k: nat, base: nat :| k <= |ms| && At(ms, w, k, base) && Folded(exec, start, ms, k) == Some(w.schema)
                   && w.executed == multiset(w.applied);
      var k', base' := StepAt(exec, start, ms, w, k, base, a);
    }
  }

  lemma NothingApplied(ms: seq<Migration>, start: Schema)
    ensures At(ms, Fresh(start), 0, 0)
  {
  }

  /** Any history of runs, crashes and lock contention leaves the applied versions a prefix of the sorted positive ones,
      the schema the in-order result of their scripts, and every script executed exactly once. */
  lemma MigrationsAreAPrefix(exec: Exec, start: Schema, ms: seq<Migration>, acts: seq<Action>)
    requires StrictlySorted(ms) && forall a | a in acts :: !a.RollbackWrite?
    ensures var w := Run(exec, ms, Fresh(start), acts);
      && w.executed == multiset(w.applied)
      && exists k | 0 <= k <= |ms| :: w.applied == Prefix(ms, k) && Folded(exec, start, ms, k) == Some(w.schema)
  {
    RunInv(exec, start, ms, acts);
    var w := Run(exec, ms, Fresh(start), acts);
    var k: nat, base: nat :| k <= |ms| && At(ms, w, k, base) && Folded(exec, start, ms, k) == Some(w.schema)
                   && w.executed == multiset(w.applied);
  }

  /** A run that reaches the end of its loop leaves what one undisturbed run on the initial schema produces, whatever
      crashed before it; migrations below version 1 are never part of it. */
  lemma CompletedRunIsComplete(exec: Exec, start: Schema, ms: seq<Migration>, acts: seq<Action>, p: ProcessId)
    requires StrictlySorted(ms) && forall a | a in acts :: !a.RollbackWrite?
    requires LoopDone(ms, Run(exec, ms, Fresh(start), acts), p)
    ensures var w := Run(exec, ms, Fresh(start), acts);
      && Some(w.schema) == Folded(exec, start, ms, |ms|)
      && forall v :: v in w.applied <==> v >= 1 && exists i :: 0 <= i < |ms| && ms[i].version == v
  {
    RunInv(exec, start, ms, acts);
    var w := Run(exec, ms, Fresh(start), acts);
    var k: nat, base: nat :| k <= |ms| && At(ms, w, k, base) && Folded(exec, start, ms, k) == Some(w.schema)
                   && w.executed == multiset(w.applied);
    assert k == |ms|;
  }

  // ---------- Rollback ----------

  /** Undoing the last migration shortens the prefix by it. */
  lemma PrefixShrinks(ms: seq<Migration>, k: nat) returns (k': nat)
    requires StrictlySorted(ms) && k <= |ms| && Prefix(ms, k) != {}
    ensures k' < k && Prefix(ms, k') == Prefix(ms, k) - {CurrentVersion(Prefix(ms, k))}
  {
    var v := CurrentVersion(Prefix(ms, k));
    k' :| 0 <= k' < k && ms[k'].version >= 1 && ms[k'].version == v;
    var shorter := Prefix(ms, k');
    forall x ensures x in shorter <==> x in Prefix(ms, k) && x != v {
      if x in Prefix(ms, k) && x != v {
        var i :| 0 <= i < k && ms[i].version >= 1 && ms[i].version == x;
        assert i < k';
      }
      if x in shorter {
        var i :| 0 <= i < k' && ms[i].version >= 1 && ms[i].version == x;
        assert 0 <= i < k;
      }
    }
  }

  /** A rollback's transaction runs the down script of the version it read, if that is loaded and not empty, and deletes
      that version; otherwise it changes nothing. */
  lemma RollbackEffect(exec: Exec, ms: seq<Migration>, w: World, r: RollbackId, tx: TxResult)
    requires StrictlySorted(ms) && r in w.reading
    ensures var w', v := Step(exec, ms, w, RollbackWrite(r, tx)), w.reading[r];
      if i :| 0 <= i < |ms| && ms[i].version == v && ms[i].down != "" && exec(w.schema, ms[i].down).Some? &&
              !tx.RolledBack? then
        && w'.applied == w.applied - {v} && exec(w.schema, ms[i].down) == Some(w'.schema)
        && w'.undone == w.undone + multiset{v}
      else w'.applied == w.applied && w'.schema == w.schema && w'.undone == w.undone
  {
  }

  /** Applying a migration and rolling it back restores schema and table, when its down script undoes its up script. */
  lemma RollbackRestores(exec: Exec, ms: seq<Migration>, w: World, p: ProcessId, r: RollbackId)
    requires StrictlySorted(ms) && Applies(exec, ms, w, Advance(p, Committed)) && r !in w.reading
    requires var m := ms[w.phase.next];
      && (forall v | v in w.applied :: v < m.version) && m.down != ""
      && exec(exec(w.schema, m.up).value, m.down) == Some(w.schema)
    ensures var w1 := Step(exec, ms, w, Advance(p, Committed));
      var w3 := Step(exec, ms, Step(exec, ms, w1, RollbackRead(r)), RollbackWrite(r, Committed));
      w1.applied == w.applied + {ms[w.phase.next].version} && w3.applied == w.applied && w3.schema == w.schema
  {
    var m := ms[w.phase.next];
    var w1 := Step(exec, ms, w, Advance(p, Committed));
    assert CurrentVersion(w1.applied) == m.version by { assert m.version in w1.applied; }
    var w2 := Step(exec, ms, w1, RollbackRead(r));
    assert w2 == w1.(reading := w1.reading[r := m.version]);
    RollbackEffect(exec, ms, w2, r, Committed);
    hide Step;
    assert w1.applied - {m.version} == w.applied;
  }

  ghost predicate IsPrefix(ms: seq<Migration>, applied: set<int>) {
    exists k | 0 <= k <= |ms| :: applied == Prefix(ms, k)
  }

  /** The step is a rollback's transaction, and it takes effect. */
  ghost predicate Undoes(exec: Exec, ms: seq<Migration>, w: World, a: Action) {
    a.RollbackWrite? && a.r in w.reading && Undo(exec, ms, w, w.reading[a.r]).Some? && !a.tx.RolledBack?
  }

  /** The step is a turn of a run's loop, and it applies its migration. */
  ghost predicate Applies(exec: Exec, ms: seq<Migration>, w: World, a: Action) {
    && a.Advance? && w.holder == Some(a.p) && w.phase.Applying? && w.phase.next < |ms|
    && ms[w.phase.next].version > w.phase.current && ms[w.phase.next].version !in w.applied
    && exec(w.schema, ms[w.phase.next].up).Some? && !a.tx.RolledBack?
  }

  /** A later migration is applied and the one at `low` is not. */
  ghost predicate Missing(ms: seq<Migration>, applied: set<int>, low: nat, high: nat) {
    low < high < |ms| && ms[low].version >= 1 && ms[low].version !in applied && ms[high].version in applied
  }

  lemma MissingBreaksPrefix(ms: seq<Migration>, applied: set<int>, low: nat, high: nat)
    requires StrictlySorted(ms) && Missing(ms, applied, low, high)
    ensures !IsPrefix(ms, applied)
  {
    forall k | 0 <= k <= |ms| ensures applied != Prefix(ms, k) {
      if low < k { assert ms[low].version in Prefix(ms, k); } else { assert ms[high].version !in Prefix(ms, k); }
    }
  }

  /** Removing a version keeps the prefix exactly when it is absent anyway or the newest. */
  lemma RemovalKeepsPrefixIff(ms: seq<Migration>, k: nat, v: int)
    requires StrictlySorted(ms) && k <= |ms|
    ensures IsPrefix(ms, Prefix(ms, k) - {v}) <==> v !in Prefix(ms, k) || v == CurrentVersion(Prefix(ms, k))
  {
    var applied := Prefix(ms, k);
    var top := CurrentVersion(applied);
    if v !in applied {
      assert applied - {v} == applied;
    } else if v == top {
      var k' := PrefixShrinks(ms, k);
    } else {
      var low :| 0 <= low < k && ms[low].version >= 1 && ms[low].version == v;
      var high :| 0 <= high < k && ms[high].version >= 1 && ms[high].version == top;
      MissingBreaksPrefix(ms, applied - {v}, low, high);
    }
  }

  /** Applying a migration keeps the prefix exactly when all earlier ones are applied. */
  lemma AdditionKeepsPrefixIff(ms: seq<Migration>, k: nat, n: nat)
    requires StrictlySorted(ms) && k <= |ms| && n < |ms| && ms[n].version >= 1 && ms[n].version !in Prefix(ms, k)
    ensures IsPrefix(ms, Prefix(ms, k) + {ms[n].version}) <==>
            forall i | 0 <= i < n && ms[i].version >= 1 :: ms[i].version in Prefix(ms, k)
  {
    var applied := Prefix(ms, k);
    if i :| 0 <= i < n && ms[i].version >= 1 && ms[i].version !in applied {
      MissingBreaksPrefix(ms, applied + {ms[n].version}, i, n);
    } else {
      PrefixGrows(ms, n);
      assert k <= n;
      forall v | v in Prefix(ms, n) ensures v in applied {
        var i :| 0 <= i < n && ms[i].version >= 1 && ms[i].version == v;
      }
      forall v | v in applied ensures v in Prefix(ms, n) {
        var i :| 0 <= i < k && ms[i].version >= 1 && ms[i].version == v;
        assert 0 <= i < n;
      }
      assert applied == Prefix(ms, n);
    }
  }

  /** What a step must find for the prefix to survive it: a rollback, that the version it read is still the newest or
      already gone; a run, that everything before the migration it applies is applied. */
  ghost predicate Sound(exec: Exec, ms: seq<Migration>, w: World, a: Action) {
    && (Undoes(exec, ms, w, a) ==> w.reading[a.r] !in w.applied || w.reading[a.r] == CurrentVersion(w.applied))
    && (Applies(exec, ms, w, a) ==>
          forall i | 0 <= i < w.phase.next && ms[i].version >= 1 :: ms[i].version in w.applied)
  }

  /** Only versions of 1 and up are ever applied. */
  ghost predicate Positive(w: World) {
    (forall v | v in w.applied :: v >= 1) && (w.phase.Applying? ==> w.phase.current >= 0)
  }

  lemma StepPrefixIff(exec: Exec, ms: seq<Migration>, w: World, a: Action)
    requires StrictlySorted(ms) && IsPrefix(ms, w.applied) && Positive(w)
    ensures IsPrefix(ms, Step(exec, ms, w, a).applied) <==> Sound(exec, ms, w, a)
  {
    var k :| 0 <= k <= |ms| && w.applied == Prefix(ms, k);
    if Undoes(exec, ms, w, a) {
      RemovalKeepsPrefixIff(ms, k, w.reading[a.r]);
    } else if Applies(exec, ms, w, a) {
      AdditionKeepsPrefixIff(ms, k, w.phase.next);
    } else {
      hide IsPrefix;
      assert Step(exec, ms, w, a).applied == w.applied;
    }
  }

  lemma {:induction false} RunPositive(exec: Exec, start: Schema, ms: seq<Migration>, acts: seq<Action>)
    ensures Positive(Run(exec, ms, Fresh(start), acts))
  {
    if acts != [] { RunPositive(exec, start, ms, acts[..|acts| - 1]); }
  }

  lemma PrefixRun(exec: Exec, start: Schema, ms: seq<Migration>, acts: seq<Action>, i: nat)
    requires i < |acts|
    ensures Run(exec, ms, Fresh(start), acts[..i + 1]) ==
            Step(exec, ms, Run(exec, ms, Fresh(start), acts[..i]), acts[i])
  {
    assert acts[..i + 1][..i] == acts[..i];
  }

  ghost predicate PrefixThroughout(exec: Exec, start: Schema, ms: seq<Migration>, acts: seq<Action>) {
    forall k | 0 <= k <= |acts| :: IsPrefix(ms, Run(exec, ms, Fresh(start), acts[..k]).applied)
  }

  ghost predicate SoundThroughout(exec: Exec, start: Schema, ms: seq<Migration>, acts: seq<Action>) {
    forall i | 0 <= i < |acts| :: Sound(exec, ms, Run(exec, ms, Fresh(start), acts[..i]), acts[i])
  }

  lemma {:induction false} SoundMeansPrefix(exec: Exec, start: Schema, ms: seq<Migration>, acts: seq<Action>, k: nat)
    requires StrictlySorted(ms) && SoundThroughout(exec, start, ms, acts) && k <= |acts|
    ensures IsPrefix(ms, Run(exec, ms, Fresh(start), acts[..k]).applied)
  {
    hide Step, Sound, IsPrefix;
    if k == 0 {
      assert acts[..0] == [];
      NothingApplied(ms, start);
      AtIsPrefix(ms, Fresh(start));
    } else {
      SoundMeansPrefix(exec, start, ms, acts, k - 1);
      RunPositive(exec, start, ms, acts[..k - 1]);
      PrefixRun(exec, start, ms, acts, k - 1);
      StepPrefixIff(exec, ms, Run(exec, ms, Fresh(start), acts[..k - 1]), acts[k - 1]);
    }
  }

  /** Over any history of runs, crashes and overlapping rollbacks: the applied versions stay a prefix throughout exactly
      when every step that takes effect is sound. */
  lemma PrefixIffSound(exec: Exec, start: Schema, ms: seq<Migration>, acts: seq<Action>)
    requires StrictlySorted(ms)
    ensures PrefixThroughout(exec, start, ms, acts) <==> SoundThroughout(exec, start, ms, acts)
  {
    hide Step, Sound, IsPrefix, Run;
    if SoundThroughout(exec, start, ms, acts) {
      forall k | 0 <= k <= |acts| ensures IsPrefix(ms, Run(exec, ms, Fresh(start), acts[..k]).applied) {
        SoundMeansPrefix(exec, start, ms, acts, k);
      }
    }
    if PrefixThroughout(exec, start, ms, acts) {
      forall i | 0 <= i < |acts| ensures Sound(exec, ms, Run(exec, ms, Fresh(start), acts[..i]), acts[i]) {
        assert IsPrefix(ms, Run(exec, ms, Fresh(start), acts[..i + 1]).applied);
        RunPositive(exec, start, ms, acts[..i]);
        PrefixRun(exec, start, ms, acts, i);
        StepPrefixIff(exec, ms, Run(exec, ms, Fresh(start), acts[..i]), acts[i]);
      }
    }
  }

  /** Rollbacks take effect only outside the loop of a run, and only on a version that is still the newest or gone. */
  ghost predicate QuietRollbacks(exec: Exec, start: Schema, ms: seq<Migration>, acts: seq<Action>) {
    forall i | 0 <= i < |acts| && Undoes(exec, ms, Run(exec, ms, Fresh(start), acts[..i]), acts[i]) ::
      Quiet(Run(exec, ms, Fresh(start), acts[..i]), acts[i].r)
  }

  ghost predicate Quiet(w: World, r: RollbackId)
    requires r in w.reading
  {
    !(w.holder.Some? && w.phase.Applying?) && (w.reading[r] in w.applied ==> w.reading[r] == CurrentVersion(w.applied))
  }

  /** With quiet rollbacks the applied versions stay a prefix, whatever runs and crashes there are. */
  lemma {:induction false} QuietRollbacksKeepPrefix(exec: Exec, start: Schema, ms: seq<Migration>, acts: seq<Action>)
    requires StrictlySorted(ms) && QuietRollbacks(exec, start, ms, acts)
    ensures exists k: nat, base: nat :: At(ms, Run(exec, ms, Fresh(start), acts), k, base)
    ensures IsPrefix(ms, Run(exec, ms, Fresh(start), acts).applied)
  {
    hide Step, At, IsPrefix, Undoes, Quiet;
    if acts == [] {
      NothingApplied(ms, start);
    } else {
      var rest, a := acts[..|acts| - 1], acts[|acts| - 1];
      forall i | 0 <= i < |rest| ensures rest[..i] == acts[..i] {}
      QuietRollbacksKeepPrefix(exec, start, ms, rest);
      var w := Run(exec, ms, Fresh(start), rest);
      var k: nat, base: nat :| At(ms, w, k, base);
      var k', base' := k, base;
      if a.RollbackWrite? {
        k', base' := RollbackAt(exec, ms, w, k, base, a);
      } else {
        k', base' := StepAt(exec, start, ms, w, k, base, a);
      }
      assert At(ms, Step(exec, ms, w, a), k', base');
    }
    AtIsPrefix(ms, Run(exec, ms, Fresh(start), acts));
  }

  lemma AtIsPrefix(ms: seq<Migration>, w: World)
    requires exists k: nat, base: nat :: At(ms, w, k, base)
    ensures IsPrefix(ms, w.applied)
  {
    var k: nat, base: nat :| At(ms, w, k, base);
  }

  lemma RollbackAt(exec: Exec, ms: seq<Migration>, w: World, k: nat, base: nat, a: Action) returns (k': nat, base': nat)
    requires StrictlySorted(ms) && At(ms, w, k, base) && a.RollbackWrite?
    requires Undoes(exec, ms, w, a) ==> Quiet(w, a.r)
    ensures At(ms, Step(exec, ms, w, a), k', base')
  {
    k', base' := k, base;
    if Undoes(exec, ms, w, a) {
      var v := w.reading[a.r];
      if v in w.applied {
        k' := PrefixShrinks(ms, k);
        base' := k';
      } else {
        assert w.applied - {v} == w.applied;
      }
    }
  }

  // ---------- What was applied and what was undone ----------

  ghost predicate Balanced(w: World) {
    w.executed == w.undone + multiset(w.applied)
  }

  /** What a step does to the table and the counts. */
  lemma StepCounts(exec: Exec, ms: seq<Migration>, w: World, a: Action)
    ensures var w' := Step(exec, ms, w, a);
      if Undoes(exec, ms, w, a) then
        var v := w.reading[a.r];
        w'.executed == w.executed && w'.undone == w.undone + multiset{v} && w'.applied == w.applied - {v}
      else if Applies(exec, ms, w, a) then
        var v := ms[w.phase.next].version;
        w'.executed == w.executed + multiset{v} && w'.undone == w.undone && w'.applied == w.applied + {v}
      else w'.executed == w.executed && w'.undone == w.undone && w'.applied == w.applied
  {
    hide CurrentVersion, Undo;
  }

  lemma StepBalancedIff(exec: Exec, ms: seq<Migration>, w: World, a: Action)
    requires Balanced(w)
    ensures Balanced(Step(exec, ms, w, a)) <==> (Undoes(exec, ms, w, a) ==> w.reading[a.r] in w.applied)
  {
    StepCounts(exec, ms, w, a);
    hide Step;
    var w' := Step(exec, ms, w, a);
    if Undoes(exec, ms, w, a) {
      var v := w.reading[a.r];
      hide Undoes;
      if v in w.applied {
        assert multiset(w.applied) == multiset(w.applied - {v}) + multiset{v};
      } else {
        assert w.applied - {v} == w.applied;
        assert w'.executed[v] != (w'.undone + multiset(w'.applied))[v];
      }
    } else if Applies(exec, ms, w, a) {
      var v := ms[w.phase.next].version;
      assert multiset(w.applied + {v}) == multiset(w.applied) + multiset{v};
    }
  }

  ghost predicate BalancedThroughout(exec: Exec, start: Schema, ms: seq<Migration>, acts: seq<Action>) {
    forall k | 0 <= k <= |acts| :: Balanced(Run(exec, ms, Fresh(start), acts[..k]))
  }

  /** Every rollback that takes effect finds its version applied. */
  ghost predicate UndoesApplied(exec: Exec, start: Schema, ms: seq<Migration>, acts: seq<Action>) {
    forall i | 0 <= i < |acts| && Undoes(exec, ms, Run(exec, ms, Fresh(start), acts[..i]), acts[i]) ::
      Run(exec, ms, Fresh(start), acts[..i]).reading[acts[i].r] in Run(exec, ms, Fresh(start), acts[..i]).applied
  }

  lemma {:induction false} UndoesAppliedBalances(exec: Exec, start: Schema, ms: seq<Migration>, acts: seq<Action>,
                                                 k: nat)
    requires UndoesApplied(exec, start, ms, acts) && k <= |acts|
    ensures Balanced(Run(exec, ms, Fresh(start), acts[..k]))
  {
    hide Step, Undoes;
    if k == 0 {
      assert acts[..0] == [];
    } else {
      UndoesAppliedBalances(exec, start, ms, acts, k - 1);
      PrefixRun(exec, start, ms, acts, k - 1);
      StepBalancedIff(exec, ms, Run(exec, ms, Fresh(start), acts[..k - 1]), acts[k - 1]);
    }
  }

  /** Conservation: up scripts executed are down scripts executed plus versions applied, throughout a history, exactly
      when no rollback undoes a version that another has undone since it was read. */
  lemma BalancedIff(exec: Exec, start: Schema, ms: seq<Migration>, acts: seq<Action>)
    ensures BalancedThroughout(exec, start, ms, acts) <==> UndoesApplied(exec, start, ms, acts)
  {
    hide Step, Balanced, Run;
    if UndoesApplied(exec, start, ms, acts) {
      forall k | 0 <= k <= |acts| ensures Balanced(Run(exec, ms, Fresh(start), acts[..k])) {
        UndoesAppliedBalances(exec, start, ms, acts, k);
      }
    }
    if BalancedThroughout(exec, start, ms, acts) {
      forall i | 0 <= i < |acts| && Undoes(exec, ms, Run(exec, ms, Fresh(start), acts[..i]), acts[i])
        ensures var w := Run(exec, ms, Fresh(start), acts[..i]); w.reading[acts[i].r] in w.applied
      {
        assert Balanced(Run(exec, ms, Fresh(start), acts[..i + 1]));
        PrefixRun(exec, start, ms, acts, i);
        StepBalancedIff(exec, ms, Run(exec, ms, Fresh(start), acts[..i]), acts[i]);
      }
    }
  }

  // ---------- Histories that break the prefix ----------

  lemma NoSteps(exec: Exec, ms: seq<Migration>, w: World)
    ensures Run(exec, ms, w, []) == w
  {
  }

  lemma RunStep(exec: Exec, ms: seq<Migration>, w: World, acts: seq<Action>, a: Action)
    ensures Run(exec, ms, w, acts + [a]) == Step(exec, ms, Run(exec, ms, w, acts), a)
  {
    assert (acts + [a])[..|acts|] == acts;
  }

  /** Versions 1, 2 and 3 whose scripts always succeed. */
  ghost predicate Example(exec: Exec, ms: seq<Migration>) {
    && |ms| == 3 && ms[0].version == 1 && ms[1].version == 2 && ms[2].version == 3 && ms[1].down != ""
    && forall s, x :: exec(s, x).Some?
  }

  lemma OneMore(exec: Exec, ms: seq<Migration>, w: World, n: nat)
    requires w.holder == Some(0) && w.phase == Applying(0, n) && n < |ms|
    requires ms[n].version >= 1 && ms[n].version !in w.applied && exec(w.schema, ms[n].up).Some?
    ensures var w' := Step(exec, ms, w, Advance(0, Committed));
      && w'.holder == Some(0) && w'.phase == Applying(0, n + 1) && w'.applied == w.applied + {ms[n].version}
      && w'.reading == w.reading && w'.undone == w.undone && w'.executed == w.executed + multiset{ms[n].version}
      && w'.depth == w.depth
  {
  }

  /** A rollback that read version 2 removes it, whether or not it is there. */
  lemma UndoTwo(exec: Exec, ms: seq<Migration>, w: World, r: RollbackId)
    requires Example(exec, ms) && r in w.reading && w.reading[r] == 2
    ensures var w' := Step(exec, ms, w, RollbackWrite(r, Committed));
      && w'.holder == w.holder && w'.phase == w.phase && w'.applied == w.applied - {2}
      && w'.reading == w.reading - {r} && w'.undone == w.undone + multiset{2} && w'.executed == w.executed
  {
    assert ms[1].version == 2;
  }

  /** The run of process 0 after its second turn, with two rollbacks begun. */
  lemma Halfway(exec: Exec, ms: seq<Migration>) returns (acts: seq<Action>)
    requires Example(exec, ms)
    ensures var w := Run(exec, ms, Fresh(0), acts);
      && w.applied == {1, 2} && w.holder == Some(0) && w.phase == Applying(0, 2) && w.reading == map[0 := 2, 1 := 2]
      && w.depth == 1
      && w.executed == multiset{1, 2} && w.undone == multiset{}
  {
    var go := Advance(0, Committed);
    var t2 := [] + [TryLock(0)] + [ReadVersion(0)];
    RunStep(exec, ms, Fresh(0), [], TryLock(0));
    RunStep(exec, ms, Fresh(0), [] + [TryLock(0)], ReadVersion(0));
    RunStep(exec, ms, Fresh(0), t2, go);
    RunStep(exec, ms, Fresh(0), t2 + [go], go);
    RunStep(exec, ms, Fresh(0), t2 + [go] + [go], RollbackRead(0));
    RunStep(exec, ms, Fresh(0), t2 + [go] + [go] + [RollbackRead(0)], RollbackRead(1));
    acts := t2 + [go] + [go] + [RollbackRead(0)] + [RollbackRead(1)];
    var w2 := Run(exec, ms, Fresh(0), t2);
    assert w2 == Fresh(0).(holder := Some(0), depth := 1, phase := Applying(0, 0));
    OneMore(exec, ms, w2, 0);
    OneMore(exec, ms, Step(exec, ms, w2, go), 1);
    var w4 := Run(exec, ms, Fresh(0), t2 + [go] + [go]);
    hide Run, Step;
    assert w4.applied == {1, 2} && w4.executed == multiset{1, 2};
    BothRead(exec, ms, w4);
  }

  lemma BothRead(exec: Exec, ms: seq<Migration>, w: World)
    requires w.applied == {1, 2} && w.reading == map[]
    ensures Step(exec, ms, Step(exec, ms, w, RollbackRead(0)), RollbackRead(1)) == w.(reading := map[0 := 2, 1 := 2])
  {
    assert CurrentVersion({1, 2}) == 2;
  }

  lemma GapIsNoPrefix(ms: seq<Migration>)
    requires |ms| == 3 && ms[0].version == 1 && ms[1].version == 2 && ms[2].version == 3
    ensures !IsPrefix(ms, {1, 3})
  {
    assert StrictlySorted(ms);
    MissingBreaksPrefix(ms, {1, 3}, 1, 2);
  }

  /** A rollback inside a run can leave a gap: with versions 1, 2, 3 and a rollback after 2, the run goes on to apply
      3. */
  lemma RollbackDuringRunLeavesGap(exec: Exec, ms: seq<Migration>)
    requires Example(exec, ms)
    ensures exists acts :: !IsPrefix(ms, Run(exec, ms, Fresh(0), acts).applied)
  {
    hide Step, IsPrefix;
    var acts := Halfway(exec, ms);
    var w := Run(exec, ms, Fresh(0), acts);
    var back, go := RollbackWrite(0, Committed), Advance(0, Committed);
    RunStep(exec, ms, Fresh(0), acts, back);
    RunStep(exec, ms, Fresh(0), acts + [back], go);
    UndoTwo(exec, ms, w, 0);
    OneMore(exec, ms, Step(exec, ms, w, back), 2);
    assert Run(exec, ms, Fresh(0), acts + [back] + [go]).applied == {1, 3};
    GapIsNoPrefix(ms);
  }

  /** So can a rollback outside every run that has read its version before one: the run applies 3 and ends, then the
      rollback removes 2. */
  lemma StaleRollbackLeavesGap(exec: Exec, ms: seq<Migration>)
    requires Example(exec, ms)
    ensures exists acts ::
              Run(exec, ms, Fresh(0), acts).holder.None? && !IsPrefix(ms, Run(exec, ms, Fresh(0), acts).applied)
  {
    hide IsPrefix;
    var acts := Halfway(exec, ms);
    var w := Run(exec, ms, Fresh(0), acts);
    var go, end, back := Advance(0, Committed), Unlock(0, true), RollbackWrite(0, Committed);
    RunStep(exec, ms, Fresh(0), acts, go);
    RunStep(exec, ms, Fresh(0), acts + [go], end);
    RunStep(exec, ms, Fresh(0), acts + [go] + [end], back);
    OneMore(exec, ms, w, 2);
    var w' := Step(exec, ms, Step(exec, ms, w, go), end);
    UndoTwo(exec, ms, w', 0);
    hide Step;
    assert Run(exec, ms, Fresh(0), acts + [go] + [end] + [back]).applied == {1, 3};
    GapIsNoPrefix(ms);
  }

  /** Two rollbacks that read the same version both execute its down script. */
  lemma DownScriptTwice(exec: Exec, ms: seq<Migration>)
    requires Example(exec, ms)
    ensures exists acts ::
              Run(exec, ms, Fresh(0), acts).executed[2] == 1 && Run(exec, ms, Fresh(0), acts).undone[2] == 2
  {
    hide Step;
    var acts := Halfway(exec, ms);
    var w := Run(exec, ms, Fresh(0), acts);
    var one, two := RollbackWrite(0, Committed), RollbackWrite(1, Committed);
    RunStep(exec, ms, Fresh(0), acts, one);
    RunStep(exec, ms, Fresh(0), acts + [one], two);
    UndoTwo(exec, ms, w, 0);
    UndoTwo(exec, ms, Step(exec, ms, w, one), 1);
    var after := Run(exec, ms, Fresh(0), acts + [one] + [two]);
    assert after.executed[2] == 1 && after.undone[2] == 2;
  }

  /** A later migration is applied, the one at `low` is not, and no run in progress will come to it. */
  ghost predicate Gap(ms: seq<Migration>, w: World, low: nat, high: nat) {
    && Missing(ms, w.applied, low, high)
    && (w.holder.Some? && w.phase.Applying? ==> low < w.phase.next || ms[low].version <= w.phase.current)
  }

  lemma GapKept(exec: Exec, ms: seq<Migration>, w: World, a: Action, low: nat, high: nat)
    requires StrictlySorted(ms) && Gap(ms, w, low, high) && !a.RollbackWrite?
    ensures Gap(ms, Step(exec, ms, w, a), low, high)
  {
  }

  /** No later run fills a gap, however many there are. */
  lemma {:induction false} GapStays(exec: Exec, ms: seq<Migration>, w: World, acts: seq<Action>, low: nat, high: nat)
    requires StrictlySorted(ms) && Gap(ms, w, low, high) && forall a | a in acts :: !a.RollbackWrite?
    ensures Gap(ms, Run(exec, ms, w, acts), low, high) && !IsPrefix(ms, Run(exec, ms, w, acts).applied)
  {
    if acts != [] {
      assert acts[|acts| - 1] in acts;
      GapStays(exec, ms, w, acts[..|acts| - 1], low, high);
      GapKept(exec, ms, Run(exec, ms, w, acts[..|acts| - 1]), acts[|acts| - 1], low, high);
    }
    MissingBreaksPrefix(ms, Run(exec, ms, w, acts).applied, low, high);
  }

  /** The run of `p` is at the end of its loop. */
  ghost predicate LoopDone(ms: seq<Migration>, w: World, p: ProcessId) {
    w.holder == Some(p) && w.phase.Applying? && w.phase.next == |ms|
  }

  // ---------- The lock ----------

  /** The lock is counted exactly while it is held. */
  predicate LockOk(w: World) {
    if w.holder.None? then w.depth == 0 && w.phase.Locked? else w.depth >= 1
  }

  /** The connection has been left with the lock at least once more than its run will give back. */
  ghost predicate LeftWith(w: World, p: ProcessId) {
    w.holder == Some(p) && w.depth >= if w.phase.Left? then 1 else 2
  }

  lemma LeftWithKept(exec: Exec, ms: seq<Migration>, w: World, p: ProcessId, a: Action)
    requires LeftWith(w, p) && a != Crash(p)
    ensures LeftWith(Step(exec, ms, w, a), p)
  {
  }

  /** Once an unlock has failed, no run of another connection ever gets the lock until that connection is closed, even
      when later runs on it succeed and unlock. */
  lemma {:induction false} FailedUnlockBlocks(exec: Exec, ms: seq<Migration>, w: World, p: ProcessId, acts: seq<Action>)
    requires LockOk(w) && w.holder == Some(p) && !w.phase.Left?
    requires forall i | 0 <= i < |acts| :: acts[i] != Crash(p)
    ensures var after := Run(exec, ms, Step(exec, ms, w, Unlock(p, false)), acts);
      LeftWith(after, p) && forall q | q != p :: Step(exec, ms, after, TryLock(q)) == after
  {
    if acts != [] {
      FailedUnlockBlocks(exec, ms, w, p, acts[..|acts| - 1]);
      LeftWithKept(exec, ms, Run(exec, ms, Step(exec, ms, w, Unlock(p, false)), acts[..|acts| - 1]), p,
          acts[|acts| - 1]);
    }
  }

  /** What can stop a migration: its script or its transaction fails, or its version is already recorded. */
  predicate Blocked(exec: Exec, w: World, m: Migration, tx: TxResult) {
    exec(w.schema, m.up).None? || tx.Error() || m.version in w.applied
  }

  // ---------- The migrator object ----------

  class Database {
    var world: World

    constructor (schema: Schema)
      ensures world == Fresh(schema)
    {
      world := Fresh(schema);
    }

    /** Migrate, undisturbed: a run of this connection's steps. It fails without effect when another connection has the
        lock; otherwise only when a migration cannot be applied; when it succeeds every migration has been visited; the
        lock is free afterwards exactly when it was free before and the unlock went through. */
    method Migrate(exec: Exec, ms: seq<Migration>, p: ProcessId, txs: seq<TxResult>, unlock: bool)
      returns (ok: bool, ghost trace: seq<Action>)
      requires |txs| == |ms| && LockOk(world) && (world.holder == Some(p) ==> world.phase.Left?)
      modifies this
      ensures LockOk(world) && world == Run(exec, ms, old(world), trace)
      ensures forall a | a in trace :: !a.RollbackWrite?
      ensures old(world).holder.Some? && old(world).holder != Some(p) ==> !ok && world == old(world)
      ensures !ok && (old(world).holder.Some? ==> old(world).holder == Some(p)) ==>
                exists n :: 0 <= n < |ms| && n + 2 < |trace| && ms[n].version > CurrentVersion(old(world).applied)
                            && Blocked(exec, Run(exec, ms, old(world), trace[..n + 2]), ms[n], txs[n])
      ensures world.holder.None? <==> old(world).holder.None? && unlock
      ensures old(world).holder.None? || old(world).holder == Some(p) ==>
                world.depth == old(world).depth + if unlock then 0 else 1
      ensures ok ==> exists most ::
                (trace == most + [Unlock(p, unlock)] && LoopDone(ms, Run(exec, ms, old(world), most), p))
    {
      hide Run, CurrentVersion;
      ghost var start := world;
      trace := [];
      assert Run(exec, ms, start, []) == start by { NoSteps(exec, ms, start); }
      if world.holder.Some? && world.holder != Some(p) { return false, []; }
      RunStep(exec, ms, start, [], TryLock(p));
      RunStep(exec, ms, start, [] + [TryLock(p)], ReadVersion(p));
      world := world.(holder := Some(p), depth := world.depth + 1, phase := Locked);
      var depth := world.depth;
      var current := CurrentVersion(world.applied);
      world := world.(phase := Applying(current, 0));
      trace := [] + [TryLock(p)] + [ReadVersion(p)];
      var n := 0;
      ok := true;
      while n < |ms| && ok
        invariant 0 <= n <= |ms| && world == Run(exec, ms, start, trace)
        invariant world.holder == Some(p) && world.depth == depth
        invariant world.phase == if ok then Applying(current, n) else Ending
        invariant forall a | a in trace :: !a.RollbackWrite?
        invariant if ok then |trace| == n + 2
                  else n < |ms| && |trace| == n + 3 && ms[n].version > current &&
                       Blocked(exec, Run(exec, ms, start, trace[..n + 2]), ms[n], txs[n])
        decreases |ms| - n, ok
      {
        RunStep(exec, ms, start, trace, Advance(p, txs[n]));
        assert (trace + [Advance(p, txs[n])])[..n + 2] == trace;
        trace := trace + [Advance(p, txs[n])];
        if ms[n].version <= current {
          world := world.(phase := Applying(current, n + 1));
          n := n + 1;
        } else {
          var (w', applied) := Apply(exec, world, ms[n], txs[n]);
          if applied {
            world := w'.(phase := Applying(current, n + 1));
            n := n + 1;
          } else {
            world := w'.(phase := Ending);
            ok := false;
          }
        }
      }
      RunStep(exec, ms, start, trace, Unlock(p, unlock));
      ghost var most := trace;
      trace := trace + [Unlock(p, unlock)];
      assert !ok ==> trace[..n + 2] == most[..n + 2];
      world := Unlocked(world, unlock);
    }
  }
}
