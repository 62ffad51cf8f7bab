/** Sessions and their authentication assurance level. */
module Sessions {
  import opened Base

  datatype AAL = AAL0 | AAL1 | AAL2
  datatype AuthMethod =
    | Password | Totp | WebAuthn | MagicLink | Social | Saml | Passkey | Sms | Backup | Other(name: string)

  type Identity = nat
  type SessionId = nat

  datatype Session = Session(identity: Identity, aal: AAL, methods: seq<AuthMethod>, active: bool)

  function MethodToAAL(m: AuthMethod): AAL {
    match m
    case Password | MagicLink | Social | Saml | Passkey => AAL1
    case Totp | WebAuthn | Sms | Backup => AAL2
    case Other(_) => AAL0
  }

  function ComputeAAL(current: AAL, contrib: AAL): AAL {
    if current == AAL1 && contrib == AAL2 then AAL2
    else if current == AAL0 then contrib
    else current
  }

  function Level(a: AAL): nat {
    match a case AAL0 => 0 case AAL1 => 1 case AAL2 => 2
  }

  /** The session a single method opens: never above AAL1. */
  function Opened(identity: Identity, m: AuthMethod): Session {
    Session(identity, if MethodToAAL(m) == AAL2 then AAL1 else MethodToAAL(m), [m], true)
  }

  function WithMethod(s: Session, m: AuthMethod): Session {
    s.(aal := ComputeAAL(s.aal, MethodToAAL(m)), methods := s.methods + [m])
  }

  /** The session after opening with the first method and adding the others in turn. */
  function AfterMethods(identity: Identity, ms: seq<AuthMethod>): Session
    requires ms != []
  {
    if |ms| == 1 then Opened(identity, ms[0])
    else WithMethod(AfterMethods(identity, ms[..|ms| - 1]), ms[|ms| - 1])
  }

  ghost predicate StrongLater(ms: seq<AuthMethod>) {
    exists k :: 1 <= k < |ms| && ms[k] in {Totp, WebAuthn, Sms, Backup}
  }

  ghost predicate AnyKnown(ms: seq<AuthMethod>) {
    exists k :: 0 <= k < |ms| && !ms[k].Other?
  }

  lemma MethodLevels(m: AuthMethod)
    ensures MethodToAAL(m) == AAL2 <==> m in {Totp, WebAuthn, Sms, Backup}
    ensures MethodToAAL(m) == AAL0 <==> m.Other?
  {
  }

  lemma StrongLaterStep(rest: seq<AuthMethod>, last: AuthMethod)
    requires rest != []
    ensures StrongLater(rest + [last]) <==> StrongLater(rest) || last in {Totp, WebAuthn, Sms, Backup}
  {
    var ms := rest + [last];
    if StrongLater(rest) {
      var k :| 1 <= k < |rest| && rest[k] in {Totp, WebAuthn, Sms, Backup};
      assert ms[k] == rest[k];
    }
    if last in {Totp, WebAuthn, Sms, Backup} { assert ms[|ms| - 1] == last; }
  }

  lemma AnyKnownStep(rest: seq<AuthMethod>, last: AuthMethod)
    ensures AnyKnown(rest + [last]) <==> AnyKnown(rest) || !last.Other?
  {
    var ms := rest + [last];
    if AnyKnown(rest) {
      var k :| 0 <= k < |rest| && !rest[k].Other?;
      assert ms[k] == rest[k];
    }
    if !last.Other? { assert ms[|ms| - 1] == last; }
  }

  /** The level is a function of where the strong methods stand: AAL2 exactly when one comes second or later. */
  lemma {:induction false} LevelOfMethods(identity: Identity, ms: seq<AuthMethod>)
    requires ms != []
    ensures var s := AfterMethods(identity, ms);
      && s.methods == ms && s.identity == identity && s.active
      && s.aal == if StrongLater(ms) then AAL2 else if AnyKnown(ms) then AAL1 else AAL0
  {
    if |ms| > 1 {
      var rest, last := ms[..|ms| - 1], ms[|ms| - 1];
      LevelOfMethods(identity, rest);
      assert ms == rest + [last];
      MethodLevels(last);
      StrongLaterStep(rest, last);
      AnyKnownStep(rest, last);
      assert StrongLater(rest) ==> AnyKnown(rest);
    } else {
      MethodLevels(ms[0]);
      assert AnyKnown(ms) <==> !ms[0].Other?;
    }
  }

  /** Adding a method never lowers the level, and AAL2 always rests on at least two recorded methods. */
  lemma LevelNeverDrops(identity: Identity, ms: seq<AuthMethod>, m: AuthMethod)
    requires ms != []
    ensures Level(AfterMethods(identity, ms).aal) <= Level(AfterMethods(identity, ms + [m]).aal)
    ensures AfterMethods(identity, ms).aal == AAL2 ==> |ms| >= 2
  {
    assert (ms + [m])[..|ms|] == ms;
    LevelOfMethods(identity, ms);
  }

  /** Order matters: a strong method that only opens the session leaves it at AAL1. */
  lemma StrongFirstStaysAal1(identity: Identity, first: AuthMethod, others: seq<AuthMethod>)
    requires first in {Totp, WebAuthn, Sms, Backup}
    requires forall m | m in others :: m !in {Totp, WebAuthn, Sms, Backup}
    ensures AfterMethods(identity, [first] + others).aal == AAL1
  {
    var ms := [first] + others;
    LevelOfMethods(identity, ms);
    assert !ms[0].Other?;
    assert forall k | 1 <= k < |ms| :: ms[k] in others;
  }

  // ---------- The session manager ----------

  /** Creating a session takes two inserts: neither, only the session row, or both take effect. */
  datatype CreateResult = NotCreated | RowOnly | Created

  class Manager {
    var sessions: map<SessionId, Session>

    constructor ()
      ensures sessions == map[]
    {
      sessions := map[];
    }

    /** Create. A failed second insert leaves a session row without methods, whose token nobody was given. */
    method Create(id: SessionId, identity: Identity, m: AuthMethod, db: CreateResult) returns (r: Option<Session>)
      requires id !in sessions
      modifies this
      ensures r == if db.Created? then Some(Opened(identity, m)) else None
      ensures sessions == match db
                case NotCreated => old(sessions)
                case RowOnly => old(sessions)[id := Opened(identity, m).(methods := [])]
                case Created => old(sessions)[id := Opened(identity, m)]
    {
      var methodAAL := MethodToAAL(m);
      var initial := methodAAL;
      if methodAAL == AAL2 { initial := AAL1; }
      var session := Session(identity, initial, [m], true);
      if db.NotCreated? { return None; }
      sessions := sessions[id := session.(methods := [])];
      if db.RowOnly? { return None; }
      sessions := sessions[id := session];
      r := Some(session);
    }

    /** AddAuthMethod: method row and level change together or not at all. */
    method AddAuthMethod(id: SessionId, m: AuthMethod, db: TxResult) returns (ok: bool)
      modifies this
      ensures ok <==> db.Committed? && id in old(sessions)
      ensures sessions == if id in old(sessions) && !db.RolledBack?
                          then old(sessions)[id := WithMethod(old(sessions)[id], m)] else old(sessions)
    {
      if id !in sessions || db.RolledBack? { return false; }
      var s := sessions[id];
      var next := s.(methods := s.methods + [m]);
      var newAAL := ComputeAAL(s.aal, MethodToAAL(m));
      if newAAL != s.aal { next := next.(aal := newAAL); }
      sessions := sessions[id := next];
      ok := db.Committed?;
    }

    /** RevokeAllForIdentity: that identity's sessions become inactive, all others stay. */
    method RevokeAllForIdentity(identity: Identity)
      modifies this
      ensures sessions.Keys == old(sessions).Keys
      ensures forall id | id in sessions :: sessions[id] ==
                if old(sessions)[id].identity == identity then old(sessions)[id].(active := false)
                    else old(sessions)[id]
    {
      sessions := map id | id in sessions ::
        if sessions[id].identity == identity && sessions[id].active then sessions[id].(active := false)
            else sessions[id];
    }
  }
}
