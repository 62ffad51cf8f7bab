/** Login with a second factor: flow store, session store and the services asked during a request, as one state
    machine. A request loads its flow in one step, decides and opens its session in a second, adds the second factor in
    a third and writes its flow and answers in a fourth, so requests interleave at every statement, may write stale
    flows, and their sessions may be revoked or removed in between; every database write may fail, with or without
    effect. */
module Login {
  import opened Base
  import opened Sessions

  type FlowId = nat
  type RequestId = nat

  datatype FlowType = LoginFlow | OtherFlow
  datatype FlowState = Active | Completed | Failed | Expired

  /** The pending_login_* entries of a flow context. */
  datatype Pending = Pending(identity: Identity, primary: AuthMethod)
  datatype Flow = Flow(ftype: FlowType, state: FlowState, csrf: string, expiresAt: int, pending: Option<Pending>,
                       identity: Option<Identity>, session: Option<SessionId>)

  /** A flow as some request read it; `validated` if state, expiry and CSRF token were checked. */
  datatype Loaded = Loaded(id: FlowId, flow: Flow, validated: bool)

  /** What a request still has to do: write the flow that asks for a second factor; or, with its session opened, add the
      second factor if there is one, remember the device, write the flow and answer with the session as shown. */
  datatype Job =
    | Asking(id: FlowId, flow: Flow)
    | Opening(sid: SessionId, shown: Session, second: Option<AuthMethod>, loaded: Option<Loaded>, clear: bool,
              remember: bool)

  /** The stores, the flows requests have read, the requests under way, and the session ids ever used. */
  datatype World = World(flows: map<FlowId, Flow>, sessions: map<SessionId, Session>, loaded: map<RequestId, Loaded>,
                         jobs: map<RequestId, Job>, used: set<SessionId>)

  const START := World(map[], map[], map[], map[], {})

  /** What the other services and the database answer during one request. */
  datatype Env = Env(
    passwordEnabled: bool, password: (string, string) -> Option<Identity>,
    external: Option<(Identity, bool)>, passkey: Option<Identity>, magicLink: Option<Identity>,
    codeSent: string -> bool, active: Identity -> Option<bool>,
    mfaEnabled: bool, enrolled: Identity -> Option<bool>,
    device: string, trusted: (Identity, string) -> Option<bool>,
    totp: (Identity, string) -> bool, backup: (Identity, string) -> bool, remember: Identity -> bool,
    newFlow: FlowId, newCsrf: string, newExpiry: int, flowCreated: bool, newSession: SessionId,
    create: CreateResult, add: TxResult, flowWrite: TxResult)

  /** Trimmed form values. */
  datatype Input = Input(identifier: string, password: string, totp: string, backup: string, remember: bool)

  datatype Kind = Submit(input: Input) | ExternalLogin | PasskeyLogin

  datatype Action =
    | NewFlow(id: FlowId, ftype: FlowType, csrf: string, expiresAt: int)
    | Load(req: RequestId, id: FlowId, csrf: string, now: int, validate: bool)
    | Execute(req: RequestId, flow: FlowId, env: Env, kind: Kind)
    | FollowMagicLink(req: RequestId, env: Env)
    | AddSecond(req: RequestId, tx: TxResult)
    | Finish(req: RequestId, remembered: bool, write: TxResult)
    | Abandon(req: RequestId)
    | CompleteFlow(req: RequestId, write: TxResult)
    | FailFlow(req: RequestId, write: TxResult)
    | Register(sid: SessionId, identity: Identity, create: CreateResult)
    | PurgeFlows(ids: set<FlowId>)
    | RevokeSessions(ids: set<SessionId>)
    | PurgeSessions(sids: set<SessionId>)

  datatype Outcome = Rejected | Working | ChallengeSent | MfaRequired(flow: FlowId)
                   | Authenticated(session: SessionId, identity: Identity, aal: AAL)

  /** A request is answered, or goes on with its job. */
  datatype Next = Done(o: Outcome) | Continue(job: Job)

  // ---------- Flow store ----------

  /** UPDATE core_flows … WHERE id: the result is the world and whether success was reported. */
  function UpdateFlow(w: World, id: FlowId, flow: Flow, write: TxResult): (World, bool) {
    if id !in w.flows || write.RolledBack? then (w, false)
    else (w.(flows := w.flows[id := flow]), write.Committed?)
  }

  predicate Terminal(s: FlowState) {
    s != Active
  }

  /** ValidateFlow's checks on a flow just read. */
  predicate Valid(flow: Flow, csrf: string, now: int) {
    now <= flow.expiresAt && flow.state == Active && flow.csrf != "" && flow.csrf == csrf
  }

  // ---------- Second factor ----------

  datatype SecondFactor = NotRequired | TrustedDevice | Ask | Unavailable

  /** ensureSecondFactorOrTrustedDevice, up to preparing the flow. */
  function EnsureSecondFactor(env: Env, i: Identity): SecondFactor {
    if !env.mfaEnabled then NotRequired
    else
      match env.enrolled(i)
      case None => Unavailable
      case Some(false) => NotRequired
      case Some(true) =>
        if env.device == "" then Ask
        else
          match env.trusted(i, env.device)
          case None => Unavailable
          case Some(valid) => if valid then TrustedDevice else Ask
  }

  /** prepareMFALoginFlow, on the given flow or on a new one, up to writing it. */
  function AskSecondFactor(env: Env, w: World, loaded: Option<Loaded>, i: Identity, m: AuthMethod): (World, Next) {
    if loaded.Some? then (w, Continue(Asking(loaded.value.id, loaded.value.flow.(pending := Some(Pending(i, m))))))
    else if !env.flowCreated then (w, Done(Rejected))
    else
      var created := Flow(LoginFlow, Active, env.newCsrf, env.newExpiry, None, None, None);
      (w.(flows := w.flows[env.newFlow := created]),
       Continue(Asking(env.newFlow, created.(pending := Some(Pending(i, m))))))
  }

  /** applySessionAuthMethod: the session as the response shows it. */
  function ApplySessionAuthMethod(s: Session, m: AuthMethod): Session {
    if m in s.methods then s
    else s.(methods := s.methods + [m], aal := if m in {Totp, WebAuthn, Sms, Backup} then AAL2 else s.aal)
  }

  /** createSession. */
  function OpenSession(env: Env, w: World, i: Identity, m: AuthMethod, second: Option<AuthMethod>,
                       loaded: Option<Loaded>, clear: bool, remember: bool): (World, Next)
  {
    var session, sid := Opened(i, m), env.newSession;
    match env.create
    case NotCreated => (w, Done(Rejected))
    case RowOnly => (w.(sessions := w.sessions[sid := session.(methods := [])], used := w.used + {sid}), Done(Rejected))
    case Created =>
      (w.(sessions := w.sessions[sid := session], used := w.used + {sid}),
       Continue(Opening(sid, session, second, loaded, clear, remember)))
  }

  /** AddAuthMethod for the second factor of a job, and applySessionAuthMethod; an error ends the request. */
  function AddFactor(w: World, job: Job, tx: TxResult): (World, Next)
    requires job.Opening? && job.second.Some?
  {
    if job.sid !in w.sessions || tx.RolledBack? then (w, Done(Rejected))
    else
      (w.(sessions := w.sessions[job.sid := WithMethod(w.sessions[job.sid], job.second.value)]),
       if tx.Error() then Done(Rejected)
       else Continue(job.(shown := ApplySessionAuthMethod(job.shown, job.second.value), second := None)))
  }

  /** The end of a request: remember the device, write the flow, answer. */
  function Conclude(w: World, job: Job, remembered: bool, write: TxResult): (World, Outcome) {
    match job
    case Asking(id, flow) =>
      var (w', ok) := UpdateFlow(w, id, flow, write);
      (w', if ok then MfaRequired(id) else Rejected)
    case Opening(sid, shown, second, loaded, clear, remember) =>
      if second.Some? || (remember && !remembered) then (w, Rejected)
      else if loaded.None? then (w, Authenticated(sid, shown.identity, shown.aal))
      else
        var flow := loaded.value.flow.(identity := Some(shown.identity), session := Some(sid));
        var (w', ok) := UpdateFlow(w, loaded.value.id, if clear then flow.(pending := None) else flow, write);
        (w', if ok then Authenticated(sid, shown.identity, shown.aal) else Rejected)
  }

  /** finishPrimaryAuthentication, up to opening the session or asking for the second factor. */
  function FinishPrimary(env: Env, w: World, loaded: Option<Loaded>, i: Identity, m: AuthMethod): (World, Next) {
    if env.active(i) != Some(true) then (w, Done(Rejected))
    else
      var factor := EnsureSecondFactor(env, i);
      if factor.Unavailable? then (w, Done(Rejected))
      else if factor.Ask? then AskSecondFactor(env, w, loaded, i, m)
      else OpenSession(env, w, i, m, if factor.TrustedDevice? then Some(Totp) else None, loaded, false, false)
  }

  /** completePendingMFALogin, up to opening the session. */
  function CompletePending(env: Env, w: World, loaded: Loaded, input: Input, p: Pending): (World, Next) {
    if !env.mfaEnabled || (input.totp == "" && input.backup == "") then (w, Done(Rejected))
    else if input.totp != "" && !env.totp(p.identity, input.totp) then (w, Done(Rejected))
    else if input.totp == "" && !env.backup(p.identity, input.backup) then (w, Done(Rejected))
    else
      var second := if input.totp != "" then Totp else Backup;
      OpenSession(env, w, p.identity, p.primary, Some(second), Some(loaded), true, input.remember)
  }

  /** executeLoginFlow. */
  function ExecuteLogin(env: Env, w: World, loaded: Loaded, input: Input): (World, Next) {
    match loaded.flow.pending
    case Some(p) => CompletePending(env, w, loaded, input, p)
    case None =>
      if input.password == "" then
        (w, Done(if input.identifier != "" && env.codeSent(input.identifier) then ChallengeSent else Rejected))
      else if !env.passwordEnabled || input.identifier == "" then (w, Done(Rejected))
      else
        match env.password(input.identifier, input.password)
        case None => (w, Done(Rejected))
        case Some(i) => FinishPrimary(env, w, Some(loaded), i, Password)
  }

  function Handle(w: World, loaded: Loaded, env: Env, kind: Kind): (World, Next) {
    match kind
    case Submit(input) => if loaded.flow.ftype == LoginFlow then ExecuteLogin(env, w, loaded, input)
        else (w, Done(Rejected))
    case ExternalLogin =>
      if loaded.flow.ftype != LoginFlow || env.external.None? then (w, Done(Rejected))
      else FinishPrimary(env, w, Some(loaded), env.external.value.0, if env.external.value.1 then Saml else Social)
    case PasskeyLogin =>
      if env.passkey.None? then (w, Done(Rejected)) else FinishPrimary(env, w, Some(loaded), env.passkey.value, Passkey)
  }

  // ---------- Steps ----------

  /** New ids are unused. */
  predicate FreshIds(w: World, env: Env) {
    && env.newFlow !in w.flows && env.newSession !in w.used &&
          (forall r | r in w.loaded :: w.loaded[r].id != env.newFlow)
    && forall r | r in w.jobs && w.jobs[r].Asking? :: w.jobs[r].id != env.newFlow
  }

  /** Answer, or keep the job for later steps. */
  function Proceed(req: RequestId, result: (World, Next)): (World, Outcome) {
    match result.1
    case Done(o) => (result.0, o)
    case Continue(job) => (result.0.(jobs := result.0.jobs[req := job]), Working)
  }

  function StepWith(w: World, a: Action): (World, Outcome) {
    match a
    case NewFlow(id, ftype, csrf, expiresAt) =>
      if id in w.flows || exists r | r in w.loaded :: w.loaded[r].id == id then (w, Rejected)
      else (w.(flows := w.flows[id := Flow(ftype, Active, csrf, expiresAt, None, None, None)]), Rejected)
    case Load(req, id, csrf, now, validate) =>
      if id in w.flows && (validate ==> Valid(w.flows[id], csrf, now)) then
        (w.(loaded := w.loaded[req := Loaded(id, w.flows[id], validate)]), Rejected)
      else (w, Rejected)
    case Execute(req, flow, env, kind) =>
      if req in w.loaded && req !in w.jobs && w.loaded[req].validated && w.loaded[req].id == flow &&
          FreshIds(w, env) then
        Proceed(req, Handle(w.(loaded := w.loaded - {req}), w.loaded[req], env, kind))
      else (w, Rejected)
    case FollowMagicLink(req, env) =>
      if req !in w.jobs && FreshIds(w, env) && env.magicLink.Some? then
        Proceed(req, FinishPrimary(env, w, None, env.magicLink.value, MagicLink))
      else (w, Rejected)
    case AddSecond(req, tx) =>
      if req in w.jobs && w.jobs[req].Opening? && w.jobs[req].second.Some? then
        Proceed(req, AddFactor(w.(jobs := w.jobs - {req}), w.jobs[req], tx))
      else (w, Rejected)
    case Finish(req, remembered, write) =>
      if req in w.jobs && (w.jobs[req].Opening? ==> w.jobs[req].second.None?) then
        Conclude(w.(jobs := w.jobs - {req}), w.jobs[req], remembered, write)
      else (w, Rejected)
    case Abandon(req) => (w.(jobs := w.jobs - {req}), Rejected)
    case CompleteFlow(req, write) =>
      if req in w.loaded && !Terminal(w.loaded[req].flow.state) then
        (UpdateFlow(w, w.loaded[req].id, w.loaded[req].flow.(state := Completed), write).0, Rejected)
      else (w, Rejected)
    case FailFlow(req, write) =>
      if req in w.loaded then
        var flow := w.loaded[req].flow;
        (UpdateFlow(w, w.loaded[req].id, if Terminal(flow.state) then flow else flow.(state := Failed), write).0,
         Rejected)
      else (w, Rejected)
    case Register(sid, identity, create) =>
      // the session at the end of a registration, for the new identity
      if sid in w.used || create.NotCreated? then (w, Rejected)
      else
        var session := Opened(identity, Password);
        (w.(sessions := w.sessions[sid := if create.RowOnly? then session.(methods := []) else session],
            used := w.used + {sid}),
         Rejected)
    case PurgeFlows(ids) => (w.(flows := w.flows - ids), Rejected)
    case RevokeSessions(ids) =>
      (w.(sessions := map s | s in w.sessions :: if s in ids then w.sessions[s].(active := false) else w.sessions[s]),
       Rejected)
    case PurgeSessions(sids) => (w.(sessions := w.sessions - sids), Rejected)
  }

  function Step(w: World, a: Action): World { StepWith(w, a).0 }
  function Respond(w: World, a: Action): Outcome { StepWith(w, a).1 }

  function Run(acts: seq<Action>): World {
    if acts == [] then START else Step(Run(acts[..|acts| - 1]), acts[|acts| - 1])
  }

  // ---------- What a request proved about an identity ----------

  /** The request carried a valid primary factor for `i`; said of inputs and service answers alone. */
  predicate PrimaryVerified(a: Action, i: Identity, m: AuthMethod) {
    match a
    case Execute(_, _, env, Submit(input)) =>
      && m == Password && env.passwordEnabled && input.identifier != "" && input.password != ""
      && env.password(input.identifier, input.password) == Some(i)
    case Execute(_, _, env, ExternalLogin) =>
      env.external.Some? && env.external.value.0 == i && m == if env.external.value.1 then Saml else Social
    case Execute(_, _, env, PasskeyLogin) => m == Passkey && env.passkey == Some(i)
    case FollowMagicLink(_, env) => m == MagicLink && env.magicLink == Some(i)
    case _ => false
  }

  /** The request carried a valid second factor for `i`: TOTP code, backup code or trusted device. */
  predicate SecondVerified(a: Action, i: Identity) {
    match a
    case Execute(_, _, env, Submit(input)) => env.mfaEnabled && (CodeVerified(env, input, i) || Trusted(env, i))
    case Execute(_, _, env, _) => env.mfaEnabled && Trusted(env, i)
    case FollowMagicLink(_, env) => env.mfaEnabled && Trusted(env, i)
    case _ => false
  }

  /** A TOTP code was sent and is right, or else a backup code. */
  predicate CodeVerified(env: Env, input: Input, i: Identity) {
    || (input.totp != "" && env.totp(i, input.totp))
    || (input.totp == "" && input.backup != "" && env.backup(i, input.backup))
  }

  predicate Trusted(env: Env, i: Identity) {
    env.device != "" && env.trusted(i, env.device) == Some(true)
  }

  predicate HasEnv(a: Action) { a.Execute? || a.FollowMagicLink? }

  /** The enrolled-factor check said that no second factor is needed. */
  predicate NoFactorNeeded(a: Action, i: Identity)
    requires HasEnv(a)
  {
    !a.env.mfaEnabled || a.env.enrolled(i) == Some(false)
  }

  /** The flow a request works on; a magic link works on the flow it may create. */
  predicate Concerns(a: Action, f: FlowId) {
    (a.Execute? && a.flow == f) || (a.FollowMagicLink? && a.env.newFlow == f)
  }

  /** Before step `k` that request loaded the flow with validation: it was then active and not expired, and its CSRF
      token was sent. */
  ghost predicate FromLoad(acts: seq<Action>, k: nat, r: RequestId, id: FlowId, flow: Flow)
    requires k <= |acts|
  {
    exists l :: 0 <= l < k && acts[l].Load? && acts[l].validate && acts[l].req == r && acts[l].id == id
                && id in Run(acts[..l]).flows && Run(acts[..l]).flows[id] == flow
                && flow.state == Active && acts[l].now <= flow.expiresAt && flow.csrf != "" && flow.csrf == acts[l].csrf
  }

  /** Request `k` follows a magic link, or works on a flow it loaded with validation: a login flow, unless it is a
      passkey login. */
  ghost predicate Admitted(acts: seq<Action>, k: nat)
    requires k < |acts|
  {
    acts[k].Execute? ==>
      exists flow :: FromLoad(acts, k, acts[k].req, acts[k].flow, flow) &&
                     (acts[k].kind.PasskeyLogin? || flow.ftype == LoginFlow)
  }

  /** Request `j` was admitted, verified the primary factor `m` of `i`, and found `i` active. */
  ghost predicate VerifiedBy(acts: seq<Action>, j: nat, i: Identity, m: AuthMethod)
    requires j < |acts|
  {
    HasEnv(acts[j]) && PrimaryVerified(acts[j], i, m) && acts[j].env.active(i) == Some(true) && Admitted(acts, j)
  }

  /** Request `j` on flow `f` verified the primary factor, and found a second factor enrolled and the device not
      trusted. */
  ghost predicate AskedBy(acts: seq<Action>, j: nat, f: FlowId, p: Pending)
    requires j < |acts|
  {
    && VerifiedBy(acts, j, p.identity, p.primary) && Concerns(acts[j], f)
    && acts[j].env.mfaEnabled && acts[j].env.enrolled(p.identity) == Some(true) && !Trusted(acts[j].env, p.identity)
  }

  /** Some earlier request on flow `f` put this login there. */
  ghost predicate PendingOk(acts: seq<Action>, f: FlowId, p: Pending) {
    exists j :: 0 <= j < |acts| && AskedBy(acts, j, f, p)
  }

  ghost predicate FlowOk(acts: seq<Action>, f: FlowId, flow: Flow) {
    flow.pending.Some? ==> PendingOk(acts, f, flow.pending.value)
  }

  /** Request `k` opened session `s`: primary verified then or before, second factor verified or not needed. */
  ghost predicate OpenedBy(acts: seq<Action>, k: nat, sid: SessionId, s: Session)
    requires k < |acts|
  {
    && HasEnv(acts[k]) && acts[k].env.newSession == sid
    && PrimaryBy(acts, k, s.identity) && Admitted(acts, k)
    && (SecondVerified(acts[k], s.identity) || NoFactorNeeded(acts[k], s.identity))
    && (s.aal == AAL2 ==> SecondVerified(acts[k], s.identity))
  }

  /** Registration `k` opened session `s`, which has stayed at AAL1. */
  ghost predicate RegisteredBy(acts: seq<Action>, k: nat, sid: SessionId, s: Session)
    requires k < |acts|
  {
    acts[k].Register? && acts[k].sid == sid && acts[k].identity == s.identity && s.aal == AAL1
  }

  ghost predicate SessionOk(acts: seq<Action>, sid: SessionId, s: Session) {
    exists k :: 0 <= k < |acts| && (OpenedBy(acts, k, sid, s) || RegisteredBy(acts, k, sid, s))
  }

  /** The session has been removed from the store since step `k`. */
  ghost predicate Purged(acts: seq<Action>, k: nat, sid: SessionId) {
    exists i :: k < i < |acts| && acts[i].PurgeSessions? && sid in acts[i].sids
  }

  /** The primary factor of `i` was verified by request `k` itself, or by an earlier one on the flow it works on. */
  ghost predicate PrimaryBy(acts: seq<Action>, k: nat, i: Identity) {
    exists j, m :: 0 <= j <= k < |acts| && VerifiedBy(acts, j, i, m) && SameLogin(acts, j, k)
  }

  /** Steps `j` and `k` belong to one login: they are one request, or `k` works on a flow that `j` worked on or
      created. */
  ghost predicate SameLogin(acts: seq<Action>, j: nat, k: nat)
    requires j < |acts| && k < |acts|
  {
    j == k || (acts[k].Execute? && Concerns(acts[j], acts[k].flow))
  }

  /** Request `k` opened this job: its factors are verified, and the level it shows is that of the stored session. */
  ghost predicate JobBy(acts: seq<Action>, stored: Option<Session>, k: nat, r: RequestId, job: Job)
    requires k < |acts| && job.Opening?
  {
    && HasEnv(acts[k]) && acts[k].req == r && acts[k].env.newSession == job.sid
    && PrimaryBy(acts, k, job.shown.identity) && Admitted(acts, k) && JobFlow(acts[k], job)
    && (if job.second.Some? then
          && SecondVerified(acts[k], job.shown.identity) && job.shown.aal == AAL1
          && job.second.value in {Totp, Backup} && job.second.value !in job.shown.methods
        else
          || (job.shown.aal == AAL2 && SecondVerified(acts[k], job.shown.identity))
          || (job.shown.aal == AAL1 && NoFactorNeeded(acts[k], job.shown.identity)))
    && match stored
       case Some(s) => s.identity == job.shown.identity && s.aal == job.shown.aal
       case None => Purged(acts, k, job.sid)
  }

  /** The job is to write the request's flow; no login stays pending after a submission. */
  predicate JobFlow(a: Action, job: Job)
    requires job.Opening? && HasEnv(a)
  {
    match a
    case Execute(_, flow, _, kind) =>
      && job.loaded.Some? && job.loaded.value.id == flow
      && (kind.Submit? ==> job.clear || job.loaded.value.flow.pending.None?)
    case FollowMagicLink(_, _) => job.loaded.None?
  }

  function Stored(w: World, sid: SessionId): Option<Session> {
    if sid in w.sessions then Some(w.sessions[sid]) else None
  }

  ghost predicate JobOk(acts: seq<Action>, w: World, r: RequestId, job: Job) {
    match job
    case Asking(id, flow) =>
      && flow.pending.Some?
      && exists k :: 0 <= k < |acts| && HasEnv(acts[k]) && AskedBy(acts, k, id, flow.pending.value) && acts[k].req == r
    case Opening(sid, _, _, loaded, _, _) =>
      && sid in w.used && (loaded.Some? ==> FlowOk(acts, loaded.value.id, loaded.value.flow))
      && exists k :: 0 <= k < |acts| && JobBy(acts, Stored(w, sid), k, r, job)
  }

  ghost predicate FlowsOk(acts: seq<Action>, w: World) {
    && (forall f | f in w.flows :: FlowOk(acts, f, w.flows[f]))
    && (forall r | r in w.loaded :: FlowOk(acts, w.loaded[r].id, w.loaded[r].flow))
  }

  ghost predicate SessionsOk(acts: seq<Action>, w: World) {
    forall s | s in w.sessions :: s in w.used && SessionOk(acts, s, w.sessions[s])
  }

  ghost predicate JobsOk(acts: seq<Action>, w: World) {
    && (forall r | r in w.jobs :: JobOk(acts, w, r, w.jobs[r]))
    && forall r, q
         | r in w.jobs && q in w.jobs && w.jobs[r].Opening? && w.jobs[q].Opening? && w.jobs[r].sid == w.jobs[q].sid
         :: r == q
  }

  ghost predicate Inv(acts: seq<Action>, w: World) {
    FlowsOk(acts, w) && SessionsOk(acts, w) && JobsOk(acts, w)
  }

  // ---------- Longer histories ----------

  lemma PendingOkExtends(acts: seq<Action>, a: Action, f: FlowId, p: Pending)
    requires PendingOk(acts, f, p)
    ensures PendingOk(acts + [a], f, p)
  {
    var j :| 0 <= j < |acts| && AskedBy(acts, j, f, p);
    AskedByExtends(acts, a, j, f, p);
  }

  lemma FromLoadExtends(acts: seq<Action>, a: Action, k: nat, r: RequestId, id: FlowId, flow: Flow)
    requires k <= |acts|
    ensures FromLoad(acts + [a], k, r, id, flow) <==> FromLoad(acts, k, r, id, flow)
  {
    forall l | 0 <= l < k ensures (acts + [a])[l] == acts[l] && (acts + [a])[..l] == acts[..l] {}
  }

  lemma AdmittedExtends(acts: seq<Action>, a: Action, k: nat)
    requires k < |acts|
    ensures Admitted(acts + [a], k) <==> Admitted(acts, k)
  {
    hide FromLoad;
    assert (acts + [a])[k] == acts[k];
    if acts[k].Execute? {
      forall flow
        ensures FromLoad(acts + [a], k, acts[k].req, acts[k].flow, flow) <==>
                FromLoad(acts, k, acts[k].req, acts[k].flow, flow)
      {
        FromLoadExtends(acts, a, k, acts[k].req, acts[k].flow, flow);
      }
    }
  }

  lemma VerifiedByExtends(acts: seq<Action>, a: Action, j: nat, i: Identity, m: AuthMethod)
    requires j < |acts|
    ensures VerifiedBy(acts + [a], j, i, m) <==> VerifiedBy(acts, j, i, m)
  {
    hide Admitted, PrimaryVerified;
    assert (acts + [a])[j] == acts[j];
    AdmittedExtends(acts, a, j);
  }

  lemma AskedByExtends(acts: seq<Action>, a: Action, j: nat, f: FlowId, p: Pending)
    requires j < |acts| && AskedBy(acts, j, f, p)
    ensures AskedBy(acts + [a], j, f, p)
  {
    assert (acts + [a])[j] == acts[j];
    VerifiedByExtends(acts, a, j, p.identity, p.primary);
    hide VerifiedBy;
  }

  lemma FlowOkExtends(acts: seq<Action>, a: Action, f: FlowId, flow: Flow)
    requires FlowOk(acts, f, flow)
    ensures FlowOk(acts + [a], f, flow)
  {
    if flow.pending.Some? { PendingOkExtends(acts, a, f, flow.pending.value); }
  }

  lemma PrimaryByExtends(acts: seq<Action>, a: Action, k: nat, i: Identity)
    requires PrimaryBy(acts, k, i)
    ensures PrimaryBy(acts + [a], k, i)
  {
    var j, m :| 0 <= j <= k < |acts| && VerifiedBy(acts, j, i, m) && SameLogin(acts, j, k);
    VerifiedByExtends(acts, a, j, i, m);
    hide VerifiedBy;
    assert (acts + [a])[j] == acts[j] && (acts + [a])[k] == acts[k];
    assert SameLogin(acts + [a], j, k);
  }

  lemma SessionOkExtends(acts: seq<Action>, a: Action, sid: SessionId, s: Session)
    requires SessionOk(acts, sid, s)
    ensures SessionOk(acts + [a], sid, s)
  {
    var k :| 0 <= k < |acts| && (OpenedBy(acts, k, sid, s) || RegisteredBy(acts, k, sid, s));
    assert (acts + [a])[k] == acts[k];
    if OpenedBy(acts, k, sid, s) {
      PrimaryByExtends(acts, a, k, s.identity);
      AdmittedExtends(acts, a, k);
      hide PrimaryBy, Admitted;
      assert OpenedBy(acts + [a], k, sid, s);
    } else {
      assert RegisteredBy(acts + [a], k, sid, s);
    }
  }

  lemma JobByExtends(acts: seq<Action>, a: Action, stored: Option<Session>, k: nat, r: RequestId, job: Job)
    requires job.Opening? && k < |acts| && JobBy(acts, stored, k, r, job)
    ensures JobBy(acts + [a], stored, k, r, job)
  {
    hide SecondVerified, PrimaryBy, NoFactorNeeded, Admitted;
    var longer := acts + [a];
    PrimaryByExtends(acts, a, k, job.shown.identity);
    AdmittedExtends(acts, a, k);
    assert longer[k] == acts[k];
    if stored.None? {
      var i :| k < i < |acts| && acts[i].PurgeSessions? && job.sid in acts[i].sids;
      assert longer[i] == acts[i];
    }
  }

  lemma JobOkExtends(acts: seq<Action>, a: Action, w: World, r: RequestId, job: Job)
    requires JobOk(acts, w, r, job)
    ensures JobOk(acts + [a], w, r, job)
  {
    hide FlowOk, JobBy, AskedBy;
    match job
    case Asking(id, flow) =>
      var k :| 0 <= k < |acts| && HasEnv(acts[k]) && AskedBy(acts, k, id, flow.pending.value) && acts[k].req == r;
      AskedByExtends(acts, a, k, id, flow.pending.value);
      assert (acts + [a])[k] == acts[k];
    case Opening(sid, _, _, loaded, _, _) =>
      if loaded.Some? { FlowOkExtends(acts, a, loaded.value.id, loaded.value.flow); }
      var k :| 0 <= k < |acts| && JobBy(acts, Stored(w, sid), k, r, job);
      JobByExtends(acts, a, Stored(w, sid), k, r, job);
  }

  lemma InvExtends(acts: seq<Action>, a: Action, w: World)
    requires Inv(acts, w)
    ensures Inv(acts + [a], w)
  {
    hide FlowOk, SessionOk, JobOk;
    forall f | f in w.flows ensures FlowOk(acts + [a], f, w.flows[f]) { FlowOkExtends(acts, a, f, w.flows[f]); }
    forall r | r in w.loaded ensures FlowOk(acts + [a], w.loaded[r].id, w.loaded[r].flow) {
      FlowOkExtends(acts, a, w.loaded[r].id, w.loaded[r].flow);
    }
    forall s | s in w.sessions ensures SessionOk(acts + [a], s, w.sessions[s]) {
      SessionOkExtends(acts, a, s, w.sessions[s]);
    }
    forall r | r in w.jobs ensures JobOk(acts + [a], w, r, w.jobs[r]) { JobOkExtends(acts, a, w, r, w.jobs[r]); }
  }

  // ---------- The parts of a step ----------

  lemma JobOkSame(acts: seq<Action>, w: World, w': World, r: RequestId, job: Job)
    requires JobOk(acts, w, r, job) && w.used <= w'.used && (job.Opening? ==> Stored(w', job.sid) == Stored(w, job.sid))
    ensures JobOk(acts, w', r, job)
  {
    hide FlowOk, JobBy;
    if job.Opening? {
      var k :| 0 <= k < |acts| && JobBy(acts, Stored(w, job.sid), k, r, job);
      assert JobBy(acts, Stored(w', job.sid), k, r, job);
    }
  }

  /** A change that leaves used ids and every job's session alone keeps the jobs. */
  lemma JobsUntouched(acts: seq<Action>, w: World, w': World)
    requires JobsOk(acts, w) && w'.jobs.Keys <= w.jobs.Keys && (forall r | r in w'.jobs :: w'.jobs[r] == w.jobs[r])
    requires w.used <= w'.used
    requires forall r | r in w'.jobs && w'.jobs[r].Opening? :: Stored(w', w'.jobs[r].sid) == Stored(w, w'.jobs[r].sid)
    ensures JobsOk(acts, w')
  {
    hide JobOk;
    forall r | r in w'.jobs ensures JobOk(acts, w', r, w'.jobs[r]) { JobOkSame(acts, w, w', r, w.jobs[r]); }
  }

  lemma UpdateFlowOk(acts: seq<Action>, w: World, id: FlowId, flow: Flow, write: TxResult)
    requires Inv(acts, w) && FlowOk(acts, id, flow)
    ensures Inv(acts, UpdateFlow(w, id, flow, write).0)
  {
    hide FlowOk, SessionOk, JobBy;
    var w' := UpdateFlow(w, id, flow, write).0;
    JobsUntouched(acts, w, w');
  }

  /** All primary factors give AAL1 on their own. */
  lemma PrimaryLevel(a: Action, i: Identity, m: AuthMethod)
    requires PrimaryVerified(a, i, m)
    ensures MethodToAAL(m) == AAL1
  {
  }

  /** What the continuation of the last request must satisfy. */
  ghost predicate NextOk(acts: seq<Action>, w: World, r: RequestId, next: Next) {
    && (next.Done? ==> !next.o.Authenticated?)
    && (next.Continue? ==> JobOk(acts, w, r, next.job))
    && (next.Continue? && next.job.Opening? ==>
          forall q | q in w.jobs && w.jobs[q].Opening? :: w.jobs[q].sid != next.job.sid)
  }

  /** Recording a session the last request has the factors for. */
  lemma JustOpened(acts: seq<Action>, w: World, sid: SessionId, s: Session)
    requires acts != [] && Admitted(acts, |acts| - 1) && Inv(acts, w)
    requires HasEnv(acts[|acts| - 1]) && acts[|acts| - 1].env.newSession == sid
    requires sid !in w.used && PrimaryBy(acts, |acts| - 1, s.identity) && s.aal != AAL2
    requires SecondVerified(acts[|acts| - 1], s.identity) || NoFactorNeeded(acts[|acts| - 1], s.identity)
    ensures Inv(acts, w.(sessions := w.sessions[sid := s], used := w.used + {sid}))
    ensures forall q | q in w.jobs && w.jobs[q].Opening? :: w.jobs[q].sid != sid
  {
    hide PrimaryBy, SecondVerified, FlowOk, JobBy, Admitted;
    var w' := w.(sessions := w.sessions[sid := s], used := w.used + {sid});
    assert OpenedBy(acts, |acts| - 1, sid, s);
    assert SessionOk(acts, sid, s);
    hide OpenedBy, SessionOk;
    forall q | q in w.jobs && w.jobs[q].Opening? ensures w.jobs[q].sid != sid { assert JobOk(acts, w, q, w.jobs[q]); }
    JobsUntouched(acts, w, w');
  }

  lemma OpenSessionOk(acts: seq<Action>, w: World, i: Identity, m: AuthMethod, second: Option<AuthMethod>,
                      loaded: Option<Loaded>, clear: bool, remember: bool)
    requires acts != [] && HasEnv(acts[|acts| - 1]) && Inv(acts, w) && acts[|acts| - 1].env.newSession !in w.used
    requires PrimaryBy(acts, |acts| - 1, i) && MethodToAAL(m) == AAL1 && Admitted(acts, |acts| - 1)
    requires loaded.Some? ==> FlowOk(acts, loaded.value.id, loaded.value.flow)
    requires JobFlow(acts[|acts| - 1], Opening(0, Opened(i, m), second, loaded, clear, remember))
    requires match second
             case None => NoFactorNeeded(acts[|acts| - 1], i)
             case Some(s) => s in {Totp, Backup} && SecondVerified(acts[|acts| - 1], i)
    ensures var a := acts[|acts| - 1];
      var (w', next) := OpenSession(a.env, w, i, m, second, loaded, clear, remember);
      Inv(acts, w') && NextOk(acts, w', a.req, next)
  {
    hide Inv, PrimaryBy, SecondVerified, FlowOk, NoFactorNeeded, Admitted;
    var a := acts[|acts| - 1];
    var sid, start := a.env.newSession, Opened(i, m);
    JustOpened(acts, w, sid, start);
    JustOpened(acts, w, sid, start.(methods := []));
    var (w', next) := OpenSession(a.env, w, i, m, second, loaded, clear, remember);
    if next.Continue? {
      assert JobBy(acts, Stored(w', sid), |acts| - 1, a.req, next.job);
      hide JobBy;
      assert JobOk(acts, w', a.req, next.job);
    }
  }

  lemma AskSecondFactorOk(acts: seq<Action>, w: World, loaded: Option<Loaded>, i: Identity, m: AuthMethod)
    requires acts != [] && HasEnv(acts[|acts| - 1]) && Inv(acts, w)
    requires AskedBy(acts, |acts| - 1, if loaded.Some? then loaded.value.id else acts[|acts| - 1].env.newFlow,
                     Pending(i, m))
    ensures var a := acts[|acts| - 1];
      var (w', next) := AskSecondFactor(a.env, w, loaded, i, m); Inv(acts, w') && NextOk(acts, w', a.req, next)
  {
    var a := acts[|acts| - 1];
    var id := if loaded.Some? then loaded.value.id else a.env.newFlow;
    assert PendingOk(acts, id, Pending(i, m));
    var created := Flow(LoginFlow, Active, a.env.newCsrf, a.env.newExpiry, None, None, None);
    var (w', next) := AskSecondFactor(a.env, w, loaded, i, m);
    FlowCreatedOk(acts, w, id, created);
    hide Inv, AskedBy;
    assert next.Continue? ==> JobOk(acts, w', a.req, next.job);
  }

  lemma FlowCreatedOk(acts: seq<Action>, w: World, id: FlowId, flow: Flow)
    requires Inv(acts, w) && flow.pending.None?
    ensures Inv(acts, w.(flows := w.flows[id := flow]))
  {
    hide PendingOk, SessionOk, JobOk;
    JobsUntouched(acts, w, w.(flows := w.flows[id := flow]));
  }

  lemma FinishPrimaryOk(acts: seq<Action>, w: World, loaded: Option<Loaded>, i: Identity, m: AuthMethod)
    requires acts != [] && HasEnv(acts[|acts| - 1]) && Inv(acts, w) && acts[|acts| - 1].env.newSession !in w.used
    requires loaded.Some? ==> FlowOk(acts, loaded.value.id, loaded.value.flow)
    requires var a := acts[|acts| - 1];
      && PrimaryVerified(a, i, m) && Concerns(a, if loaded.Some? then loaded.value.id else a.env.newFlow)
      && Admitted(acts, |acts| - 1) && JobFlow(a, Opening(0, Opened(i, m), None, loaded, false, false))
    ensures var a := acts[|acts| - 1];
      var (w', next) := FinishPrimary(a.env, w, loaded, i, m); Inv(acts, w') && NextOk(acts, w', a.req, next)
  {
    hide Inv, FlowOk, OpenSession, AskSecondFactor, JobOk, Admitted;
    var a := acts[|acts| - 1];
    PrimaryLevel(a, i, m);
    var factor := EnsureSecondFactor(a.env, i);
    if a.env.active(i) == Some(true) {
      assert SameLogin(acts, |acts| - 1, |acts| - 1) && VerifiedBy(acts, |acts| - 1, i, m);
      if factor.Ask? {
        AskSecondFactorOk(acts, w, loaded, i, m);
      } else if factor.NotRequired? || factor.TrustedDevice? {
        assert PrimaryBy(acts, |acts| - 1, i);
        hide PrimaryBy, VerifiedBy;
        OpenSessionOk(acts, w, i, m, if factor.TrustedDevice? then Some(Totp) else None, loaded, false, false);
      }
    }
  }

  lemma PendingKnown(acts: seq<Action>, id: FlowId, p: Pending)
    requires PendingOk(acts, id, p) && acts != [] && acts[|acts| - 1].Execute? && acts[|acts| - 1].flow == id
    ensures PrimaryBy(acts, |acts| - 1, p.identity) && MethodToAAL(p.primary) == AAL1
  {
    hide Admitted;
    var j :| 0 <= j < |acts| && AskedBy(acts, j, id, p);
    assert SameLogin(acts, j, |acts| - 1);
    PrimaryLevel(acts[j], p.identity, p.primary);
  }

  lemma CompletePendingOk(acts: seq<Action>, w: World, loaded: Loaded, input: Input)
    requires acts != [] && acts[|acts| - 1].Execute? && acts[|acts| - 1].kind == Submit(input) && Inv(acts, w)
    requires acts[|acts| - 1].env.newSession !in w.used && acts[|acts| - 1].flow == loaded.id
    requires loaded.flow.pending.Some? && FlowOk(acts, loaded.id, loaded.flow) && Admitted(acts, |acts| - 1)
    ensures var a := acts[|acts| - 1];
      var (w', next) := CompletePending(a.env, w, loaded, input, loaded.flow.pending.value);
      Inv(acts, w') && NextOk(acts, w', a.req, next)
  {
    var a, p := acts[|acts| - 1], loaded.flow.pending.value;
    PendingKnown(acts, loaded.id, p);
    hide Inv, FlowOk, PendingOk, OpenSession, PrimaryBy, MethodToAAL, JobOk, Admitted;
    if SecondVerified(a, p.identity) {
      OpenSessionOk(acts, w, p.identity, p.primary, Some(if input.totp != "" then Totp else Backup), Some(loaded), true,
                    input.remember);
    }
  }

  lemma HandleOk(acts: seq<Action>, w: World, loaded: Loaded)
    requires acts != [] && acts[|acts| - 1].Execute? && acts[|acts| - 1].flow == loaded.id && Inv(acts, w)
    requires FlowOk(acts, loaded.id, loaded.flow) && acts[|acts| - 1].env.newSession !in w.used
    requires loaded.flow.ftype == LoginFlow || acts[|acts| - 1].kind.PasskeyLogin? ==> Admitted(acts, |acts| - 1)
    ensures var a := acts[|acts| - 1];
      var (w', next) := Handle(w, loaded, a.env, a.kind); Inv(acts, w') && NextOk(acts, w', a.req, next)
  {
    hide Inv, FlowOk, CompletePending, FinishPrimary, JobOk, Admitted;
    var a := acts[|acts| - 1];
    var env := a.env;
    match a.kind
    case Submit(input) =>
      if loaded.flow.ftype != LoginFlow {
      } else if loaded.flow.pending.Some? {
        CompletePendingOk(acts, w, loaded, input);
      } else if env.password(input.identifier, input.password).Some? && input.identifier != "" && input.password != ""
                && env.passwordEnabled {
        FinishPrimaryOk(acts, w, Some(loaded), env.password(input.identifier, input.password).value, Password);
      }
    case ExternalLogin =>
      if loaded.flow.ftype == LoginFlow && env.external.Some? {
        FinishPrimaryOk(acts, w, Some(loaded), env.external.value.0, if env.external.value.1 then Saml else Social);
      }
    case PasskeyLogin =>
      if env.passkey.Some? { FinishPrimaryOk(acts, w, Some(loaded), env.passkey.value, Passkey); }
  }

  lemma ProceedOk(acts: seq<Action>, w: World, r: RequestId, next: Next)
    requires Inv(acts, w) && r !in w.jobs && NextOk(acts, w, r, next)
    ensures Inv(acts, Proceed(r, (w, next)).0) && !Proceed(r, (w, next)).1.Authenticated?
  {
    hide FlowOk, SessionOk, JobBy;
    var w' := Proceed(r, (w, next)).0;
    hide JobOk;
    forall q | q in w'.jobs ensures JobOk(acts, w', q, w'.jobs[q]) { JobOkSame(acts, w, w', q, w'.jobs[q]); }
  }

  /** Ending a job. */
  lemma WithoutJob(acts: seq<Action>, w: World, r: RequestId)
    requires Inv(acts, w)
    ensures Inv(acts, w.(jobs := w.jobs - {r}))
    ensures r in w.jobs ==> JobOk(acts, w.(jobs := w.jobs - {r}), r, w.jobs[r])
    ensures r in w.jobs && w.jobs[r].Opening? ==>
              forall q | q in w.jobs - {r} && w.jobs[q].Opening? :: w.jobs[q].sid != w.jobs[r].sid
  {
    hide FlowOk, SessionOk, JobBy;
    hide JobOk;
    JobsUntouched(acts, w, w.(jobs := w.jobs - {r}));
    if r in w.jobs { JobOkSame(acts, w, w.(jobs := w.jobs - {r}), r, w.jobs[r]); }
  }

  /** The second factor raises the stored and the shown level together. */
  lemma AddFactorOk(acts: seq<Action>, w: World, r: RequestId, job: Job, tx: TxResult)
    requires Inv(acts, w) && r !in w.jobs && JobOk(acts, w, r, job) && job.Opening? && job.second.Some?
    requires forall q | q in w.jobs && w.jobs[q].Opening? :: w.jobs[q].sid != job.sid
    ensures var (w', next) := AddFactor(w, job, tx); Inv(acts, w') && NextOk(acts, w', r, next)
  {
    hide Inv, FlowOk, JobBy, WithMethod, ApplySessionAuthMethod;
    if job.sid in w.sessions && !tx.RolledBack? {
      var (w', next) := AddFactor(w, job, tx);
      var k :| 0 <= k < |acts| && JobBy(acts, Stored(w, job.sid), k, r, job);
      FactorAdded(acts, w, k, r, job, tx);
      SessionChanged(acts, w, job.sid, w'.sessions[job.sid]);
      if next.Continue? {
        assert JobBy(acts, Stored(w', job.sid), k, r, next.job);
        assert JobOk(acts, w', r, next.job);
      }
      hide JobOk, SessionOk;
    }
  }

  lemma SessionChanged(acts: seq<Action>, w: World, sid: SessionId, s: Session)
    requires Inv(acts, w) && sid in w.sessions && SessionOk(acts, sid, s)
    requires forall q | q in w.jobs && w.jobs[q].Opening? :: w.jobs[q].sid != sid
    ensures Inv(acts, w.(sessions := w.sessions[sid := s]))
  {
    hide FlowOk, SessionOk, JobOk;
    JobsUntouched(acts, w, w.(sessions := w.sessions[sid := s]));
  }

  lemma FactorAdded(acts: seq<Action>, w: World, k: nat, r: RequestId, job: Job, tx: TxResult)
    requires k < |acts| && job.Opening? && job.second.Some? && job.sid in w.sessions && !tx.RolledBack?
    requires JobBy(acts, Stored(w, job.sid), k, r, job)
    ensures var (w', next) := AddFactor(w, job, tx);
      && SessionOk(acts, job.sid, w'.sessions[job.sid])
      && (next.Continue? ==> JobBy(acts, Stored(w', job.sid), k, r, next.job))
  {
    hide SecondVerified, PrimaryBy;
    var (w', next) := AddFactor(w, job, tx);
    var s := w'.sessions[job.sid];
    assert s.aal == AAL2 && s.identity == job.shown.identity;
    assert OpenedBy(acts, k, job.sid, s);
  }

  ghost predicate AnswerOk(acts: seq<Action>, w: World, r: RequestId, o: Outcome) {
    o.Authenticated? ==> exists k :: 0 <= k < |acts| && AnsweredBy(acts, w, k, r, o)
  }

  /** What an "authenticated" answer means: request `k` opened the session with the factors it needed, and the store
      shows it at that level unless it has been removed since. */
  ghost predicate AnsweredBy(acts: seq<Action>, w: World, k: nat, r: RequestId, o: Outcome)
    requires k < |acts| && o.Authenticated?
  {
    && HasEnv(acts[k]) && acts[k].req == r && acts[k].env.newSession == o.session
    && PrimaryBy(acts, k, o.identity) && Admitted(acts, k) && FlowClosed(acts[k], w, o)
    && ((o.aal == AAL2 && SecondVerified(acts[k], o.identity)) ||
          (o.aal == AAL1 && NoFactorNeeded(acts[k], o.identity)))
    && match Stored(w, o.session)
       case Some(s) => s.identity == o.identity && s.aal == o.aal
       case None => Purged(acts, k, o.session)
  }

  /** The request's flow names the identity and the session; after a submission no login is pending in it. */
  predicate FlowClosed(a: Action, w: World, o: Outcome)
    requires o.Authenticated?
  {
    a.Execute? ==>
      && a.flow in w.flows && w.flows[a.flow].identity == Some(o.identity)
      && w.flows[a.flow].session == Some(o.session)
      && (a.kind.Submit? ==> w.flows[a.flow].pending.None?)
  }

  lemma ConcludeOk(acts: seq<Action>, w: World, r: RequestId, job: Job, remembered: bool, write: TxResult)
    requires Inv(acts, w) && JobOk(acts, w, r, job)
    ensures var (w', o) := Conclude(w, job, remembered, write); Inv(acts, w') && AnswerOk(acts, w', r, o)
  {
    match job
    case Asking(id, flow) =>
      assert FlowOk(acts, id, flow);
      hide FlowOk, Inv;
      UpdateFlowOk(acts, w, id, flow, write);
    case Opening(sid, shown, second, loaded, clear, remember) =>
      ConcludeAnswer(acts, w, r, job, remembered, write);
      hide AnswerOk;
      if loaded.Some? {
        var flow := loaded.value.flow.(identity := Some(shown.identity), session := Some(sid));
        assert FlowOk(acts, loaded.value.id, if clear then flow.(pending := None) else flow);
        hide FlowOk, Inv, JobBy;
        UpdateFlowOk(acts, w, loaded.value.id, if clear then flow.(pending := None) else flow, write);
      }
  }

  lemma ConcludeAnswer(acts: seq<Action>, w: World, r: RequestId, job: Job, remembered: bool, write: TxResult)
    requires JobOk(acts, w, r, job) && job.Opening?
    ensures var (w', o) := Conclude(w, job, remembered, write); AnswerOk(acts, w', r, o)
  {
    hide SecondVerified, PrimaryBy, NoFactorNeeded, Purged, Admitted, FlowOk;
    var (w', o) := Conclude(w, job, remembered, write);
    if o.Authenticated? {
      var k :| 0 <= k < |acts| && JobBy(acts, Stored(w, job.sid), k, r, job);
      assert AnsweredBy(acts, w', k, r, o);
    }
  }

  lemma RevokedSessionOk(acts: seq<Action>, sid: SessionId, s: Session)
    requires SessionOk(acts, sid, s)
    ensures SessionOk(acts, sid, s.(active := false))
  {
    var k :| 0 <= k < |acts| && (OpenedBy(acts, k, sid, s) || RegisteredBy(acts, k, sid, s));
    assert OpenedBy(acts, k, sid, s) ==> OpenedBy(acts, k, sid, s.(active := false));
    assert RegisteredBy(acts, k, sid, s) ==> RegisteredBy(acts, k, sid, s.(active := false));
  }

  lemma RevokeOk(acts: seq<Action>, w: World, ids: set<SessionId>)
    requires Inv(acts, w)
    ensures Inv(acts, Step(w, RevokeSessions(ids)))
  {
    var w' := Step(w, RevokeSessions(ids));
    hide FlowOk, SessionOk, JobOk;
    forall s | s in w.sessions { RevokedSessionOk(acts, s, w.sessions[s]); }
    forall r | r in w'.jobs ensures JobOk(acts, w', r, w'.jobs[r]) { RevokedJobOk(acts, w, w', r, w.jobs[r]); }
  }

  /** A job does not care whether its session is active. */
  lemma RevokedJobOk(acts: seq<Action>, w: World, w': World, r: RequestId, job: Job)
    requires JobOk(acts, w, r, job) && w'.used == w.used
    requires job.Opening? ==>
               match (Stored(w, job.sid), Stored(w', job.sid))
               case (Some(s), Some(s')) => s'.identity == s.identity && s'.aal == s.aal
               case (None, None) => true
               case _ => false
    ensures JobOk(acts, w', r, job)
  {
    hide FlowOk, SecondVerified, PrimaryBy, NoFactorNeeded, Purged, Admitted, AskedBy;
    if job.Opening? {
      var k :| 0 <= k < |acts| && JobBy(acts, Stored(w, job.sid), k, r, job);
      assert JobBy(acts, Stored(w', job.sid), k, r, job);
    }
  }

  /** Removing sessions is the last action. */
  lemma PurgeOk(acts: seq<Action>, w: World, sids: set<SessionId>)
    requires acts != [] && acts[|acts| - 1] == PurgeSessions(sids) && Inv(acts[..|acts| - 1], w)
    ensures Inv(acts, Step(w, PurgeSessions(sids)))
  {
    var before, a := acts[..|acts| - 1], acts[|acts| - 1];
    assert acts == before + [a];
    InvExtends(before, a, w);
    JobsPurged(acts, w, sids);
    hide FlowOk, SessionOk, JobsOk;
  }

  lemma JobsPurged(acts: seq<Action>, w: World, sids: set<SessionId>)
    requires acts != [] && acts[|acts| - 1] == PurgeSessions(sids)
    requires JobsOk(acts[..|acts| - 1], w) && JobsOk(acts, w)
    ensures JobsOk(acts, Step(w, PurgeSessions(sids)))
  {
    hide JobOk;
    var w' := Step(w, PurgeSessions(sids));
    forall r | r in w'.jobs ensures JobOk(acts, w', r, w'.jobs[r]) { JobPurged(acts, w, r, w.jobs[r], sids); }
  }

  lemma JobPurged(acts: seq<Action>, w: World, r: RequestId, job: Job, sids: set<SessionId>)
    requires acts != [] && acts[|acts| - 1] == PurgeSessions(sids)
    requires JobOk(acts[..|acts| - 1], w, r, job) && JobOk(acts, w, r, job)
    ensures JobOk(acts, Step(w, PurgeSessions(sids)), r, job)
  {
    if job.Opening? {
      hide SecondVerified, PrimaryBy, NoFactorNeeded, FlowOk;
      var before, w' := acts[..|acts| - 1], Step(w, PurgeSessions(sids));
      var k :| 0 <= k < |before| && JobBy(before, Stored(w, job.sid), k, r, job);
      assert acts == before + [PurgeSessions(sids)];
      JobByExtends(before, PurgeSessions(sids), Stored(w, job.sid), k, r, job);
      assert job.sid in sids ==> Purged(acts, k, job.sid);
      assert JobBy(acts, Stored(w', job.sid), k, r, job);
    }
  }

  lemma RegisterOk(acts: seq<Action>, w: World, a: Action)
    requires Inv(acts, w) && acts != [] && acts[|acts| - 1] == a && a.Register?
    ensures Inv(acts, Step(w, a))
  {
    if a.sid !in w.used && !a.create.NotCreated? {
      var w' := Step(w, a);
      assert RegisteredBy(acts, |acts| - 1, a.sid, w'.sessions[a.sid]);
      assert SessionOk(acts, a.sid, w'.sessions[a.sid]);
      hide FlowOk, SessionOk;
      forall q | q in w.jobs && w.jobs[q].Opening? ensures w.jobs[q].sid != a.sid {
        assert JobOk(acts, w, q, w.jobs[q]);
      }
      hide JobOk;
      JobsUntouched(acts, w, w');
    }
  }

  /** Steps on flows alone. */
  lemma FlowStepOk(acts: seq<Action>, w: World, a: Action)
    requires Inv(acts, w) && (a.NewFlow? || a.Load? || a.CompleteFlow? || a.FailFlow? || a.PurgeFlows?)
    ensures Inv(acts, Step(w, a))
  {
    hide PendingOk, SessionOk, JobBy;
    match a
    case CompleteFlow(req, write) =>
      if req in w.loaded { UpdateFlowOk(acts, w, w.loaded[req].id, w.loaded[req].flow.(state := Completed), write); }
    case FailFlow(req, write) =>
      if req in w.loaded {
        UpdateFlowOk(acts, w, w.loaded[req].id, w.loaded[req].flow.(state := Failed), write);
        UpdateFlowOk(acts, w, w.loaded[req].id, w.loaded[req].flow, write);
      }
    case _ => JobsUntouched(acts, w, Step(w, a));
  }

  lemma RequestStepOk(acts: seq<Action>, w: World, a: Action)
    requires Inv(acts, w) && acts != [] && acts[|acts| - 1] == a && HasEnv(a)
    requires a.Execute? && a.req in w.loaded && w.loaded[a.req].validated ==>
               FromLoad(acts, |acts| - 1, a.req, w.loaded[a.req].id, w.loaded[a.req].flow)
    ensures Inv(acts, Step(w, a)) && !Respond(w, a).Authenticated?
  {
    hide Handle, FinishPrimary, SessionOk, JobOk, FlowOk, Proceed, FromLoad;
    match a
    case Execute(req, flow, env, kind) =>
      if req in w.loaded && req !in w.jobs && w.loaded[req].validated && w.loaded[req].id == flow &&
          FreshIds(w, env) {
        var w0 := w.(loaded := w.loaded - {req});
        assert Inv(acts, w0) by { FewerLoaded(acts, w, req); }
        HandleOk(acts, w0, w.loaded[req]);
        var (w', next) := Handle(w0, w.loaded[req], env, kind);
        HandleKeepsJobs(w0, w.loaded[req], env, kind);
        ProceedOk(acts, w', req, next);
      }
    case FollowMagicLink(req, env) =>
      if req !in w.jobs && FreshIds(w, env) && env.magicLink.Some? {
        FinishPrimaryOk(acts, w, None, env.magicLink.value, MagicLink);
        var (w', next) := FinishPrimary(env, w, None, env.magicLink.value, MagicLink);
        FinishKeepsJobs(env, w, None, env.magicLink.value, MagicLink);
        ProceedOk(acts, w', req, next);
      }
  }

  lemma FewerLoaded(acts: seq<Action>, w: World, req: RequestId)
    requires Inv(acts, w)
    ensures Inv(acts, w.(loaded := w.loaded - {req}))
  {
    hide FlowOk, SessionOk, JobBy;
    JobsUntouched(acts, w, w.(loaded := w.loaded - {req}));
  }

  lemma FinishKeepsJobs(env: Env, w: World, loaded: Option<Loaded>, i: Identity, m: AuthMethod)
    ensures FinishPrimary(env, w, loaded, i, m).0.jobs == w.jobs
    ensures FinishPrimary(env, w, loaded, i, m).0.loaded == w.loaded
  {
    hide EnsureSecondFactor, Opened, OpenSession, AskSecondFactor;
    OpenKeepsJobs(env, w, i, m, Some(Totp), loaded);
    OpenKeepsJobs(env, w, i, m, None, loaded);
    AskKeepsJobs(env, w, loaded, i, m);
  }

  lemma OpenKeepsJobs(env: Env, w: World, i: Identity, m: AuthMethod, second: Option<AuthMethod>,
                      loaded: Option<Loaded>)
    ensures var w' := OpenSession(env, w, i, m, second, loaded, false, false).0;
      w'.jobs == w.jobs && w'.loaded == w.loaded
  {
  }

  lemma AskKeepsJobs(env: Env, w: World, loaded: Option<Loaded>, i: Identity, m: AuthMethod)
    ensures var w' := AskSecondFactor(env, w, loaded, i, m).0; w'.jobs == w.jobs && w'.loaded == w.loaded
  {
  }

  lemma HandleKeepsJobs(w: World, loaded: Loaded, env: Env, kind: Kind)
    ensures Handle(w, loaded, env, kind).0.jobs == w.jobs
    ensures Handle(w, loaded, env, kind).0.loaded == w.loaded
  {
  }

  lemma JobStepOk(acts: seq<Action>, w: World, a: Action)
    requires Inv(acts, w) && (a.AddSecond? || a.Finish? || a.Abandon?)
    ensures Inv(acts, Step(w, a)) && AnswerOk(acts, Step(w, a), a.req, Respond(w, a))
  {
    hide Inv, JobOk, AddFactor, Conclude, Proceed;
    WithoutJob(acts, w, a.req);
    if a.req in w.jobs {
      var w0, job := w.(jobs := w.jobs - {a.req}), w.jobs[a.req];
      match a
      case AddSecond(req, tx) =>
        if job.Opening? && job.second.Some? {
          AddFactorOk(acts, w0, req, job, tx);
          var (w', next) := AddFactor(w0, job, tx);
          AddKeepsJobs(w0, job, tx);
          ProceedOk(acts, w', req, next);
        }
      case Finish(req, remembered, write) => ConcludeOk(acts, w0, req, job, remembered, write);
      case Abandon(_) =>
    }
  }

  lemma AddKeepsJobs(w: World, job: Job, tx: TxResult)
    requires job.Opening? && job.second.Some?
    ensures AddFactor(w, job, tx).0.jobs == w.jobs && AddFactor(w, job, tx).0.loaded == w.loaded
  {
  }

  predicate HasRequest(a: Action) {
    HasEnv(a) || a.AddSecond? || a.Finish? || a.Abandon?
  }

  lemma StepKeepsLoaded(w: World, a: Action, r: RequestId)
    requires r in Step(w, a).loaded && !(a.Load? && a.req == r)
    ensures r in w.loaded && Step(w, a).loaded[r] == w.loaded[r]
  {
    hide FreshIds, Handle, FinishPrimary, AddFactor, Conclude;
    match a
    case Execute(req, _, env, kind) =>
      if req in w.loaded { HandleKeepsJobs(w.(loaded := w.loaded - {req}), w.loaded[req], env, kind); }
    case FollowMagicLink(_, env) =>
      if env.magicLink.Some? { FinishKeepsJobs(env, w, None, env.magicLink.value, MagicLink); }
    case AddSecond(req, tx) =>
      if req in w.jobs && w.jobs[req].Opening? && w.jobs[req].second.Some? {
        AddKeepsJobs(w.(jobs := w.jobs - {req}), w.jobs[req], tx);
      }
    case Finish(req, remembered, write) =>
      if req in w.jobs { ConcludeKeepsLoaded(w.(jobs := w.jobs - {req}), w.jobs[req], remembered, write); }
    case _ =>
  }

  lemma ConcludeKeepsLoaded(w: World, job: Job, remembered: bool, write: TxResult)
    ensures Conclude(w, job, remembered, write).0.loaded == w.loaded
  {
  }

  /** A flow that a request holds as validated was valid when it loaded it. */
  lemma {:induction false} LoadedWasValid(acts: seq<Action>, r: RequestId)
    requires r in Run(acts).loaded && Run(acts).loaded[r].validated
    ensures FromLoad(acts, |acts|, r, Run(acts).loaded[r].id, Run(acts).loaded[r].flow)
  {
    var most, a := acts[..|acts| - 1], acts[|acts| - 1];
    var w := Run(most);
    assert Run(acts) == Step(w, a);
    if a.Load? && a.req == r && Step(w, a) != w {
      assert acts[..|most|] == most;
    } else {
      assert r in w.loaded && w.loaded[r] == Run(acts).loaded[r] by {
        if !(a.Load? && a.req == r) { StepKeepsLoaded(w, a, r); }
      }
      hide Step;
      LoadedWasValid(most, r);
      FromLoadExtends(most, a, |most|, r, w.loaded[r].id, w.loaded[r].flow);
      assert acts == most + [a];
    }
  }

  lemma StepOk(acts: seq<Action>, w: World, a: Action)
    requires Inv(acts, w) && w == Run(acts)
    ensures Inv(acts + [a], Step(w, a))
    ensures if HasRequest(a) then AnswerOk(acts + [a], Step(w, a), a.req, Respond(w, a))
            else !Respond(w, a).Authenticated?
  {
    var longer := acts + [a];
    assert longer[..|acts|] == acts && longer[|acts|] == a;
    if a.PurgeSessions? {
      PurgeOk(longer, w, a.sids);
    } else {
      InvExtends(acts, a, w);
      hide Inv;
      if HasEnv(a) {
        if a.Execute? && a.req in w.loaded && w.loaded[a.req].validated {
          LoadedWasValid(acts, a.req);
          FromLoadExtends(acts, a, |acts|, a.req, w.loaded[a.req].id, w.loaded[a.req].flow);
        }
        hide FromLoad;
        RequestStepOk(longer, w, a);
      } else if a.AddSecond? || a.Finish? || a.Abandon? {
        JobStepOk(longer, w, a);
      } else if a.RevokeSessions? {
        RevokeOk(longer, w, a.ids);
      } else if a.Register? {
        RegisterOk(longer, w, a);
      } else {
        FlowStepOk(longer, w, a);
      }
    }
  }

  lemma {:induction false} RunOk(acts: seq<Action>)
    ensures Inv(acts, Run(acts))
  {
    if acts != [] {
      hide Inv, Step;
      var most := acts[..|acts| - 1];
      RunOk(most);
      StepOk(most, Run(most), acts[|acts| - 1]);
      assert most + [acts[|acts| - 1]] == acts;
    } else {
      NothingYet();
    }
  }

  lemma NothingYet()
    ensures Inv([], START)
  {
  }

  // ---------- Theorems over all runs ----------

  /** An "authenticated" answer, in any interleaving of the statements of any requests: request `k` opened the session
      for that identity; request `j`, the same or an earlier one on the same flow, verified its primary factor and found
      the identity active; both worked on a flow loaded with validation; if the enrolled-factor check said yes, a TOTP
      code, backup code or trusted device was verified by request `k` for that same identity and the level is AAL2; the
      store has the session for that identity at the level shown, unless it has been removed since; and the flow names
      both. */
  lemma LoginSafety(acts: seq<Action>, a: Action) returns (j: nat, m: AuthMethod, k: nat)
    requires Respond(Run(acts), a).Authenticated?
    ensures a.Finish? && j <= k < |acts| && HasEnv(acts[j]) && HasEnv(acts[k]) && acts[k].req == a.req
    ensures SameLogin(acts, j, k) && Admitted(acts, j) && Admitted(acts, k)
    ensures var w', o := Step(Run(acts), a), Respond(Run(acts), a);
      && PrimaryVerified(acts[j], o.identity, m) && acts[j].env.active(o.identity) == Some(true)
      && acts[k].env.newSession == o.session
      && (acts[k].env.mfaEnabled && acts[k].env.enrolled(o.identity) != Some(false) ==>
            SecondVerified(acts[k], o.identity) && o.aal == AAL2)
      && (o.aal != AAL2 ==> o.aal == AAL1 && NoFactorNeeded(acts[k], o.identity))
      && (o.session in w'.sessions ==>
            w'.sessions[o.session].identity == o.identity && w'.sessions[o.session].aal == o.aal)
      && (o.session !in w'.sessions ==> Purged(acts, k, o.session))
      && FlowClosed(acts[k], w', o)
  {
    RunOk(acts);
    StepOk(acts, Run(acts), a);
    OnlyFinishAnswers(Run(acts), a);
    hide Inv, Run, VerifiedBy, Admitted, SecondVerified, Step, Respond, StepWith, PrimaryVerified, FlowClosed;
    var longer, w', o := acts + [a], Step(Run(acts), a), Respond(Run(acts), a);
    k :| 0 <= k < |longer| && AnsweredBy(longer, w', k, a.req, o);
    assert longer[|acts|] == a && k < |acts| && longer[k] == acts[k];
    j, m :| 0 <= j <= k < |longer| && VerifiedBy(longer, j, o.identity, m) && SameLogin(longer, j, k);
    assert longer[j] == acts[j];
    VerifiedByExtends(acts, a, j, o.identity, m);
    AdmittedExtends(acts, a, k);
    VerifiedMeans(acts, j, o.identity, m);
    if Stored(w', o.session).None? { NotPurgedLast(acts, a, k, o.session); }
  }

  lemma VerifiedMeans(acts: seq<Action>, j: nat, i: Identity, m: AuthMethod)
    requires j < |acts| && VerifiedBy(acts, j, i, m)
    ensures HasEnv(acts[j]) && PrimaryVerified(acts[j], i, m) && acts[j].env.active(i) == Some(true)
    ensures Admitted(acts, j)
  {
  }

  lemma OnlyFinishAnswers(w: World, a: Action)
    requires Respond(w, a).Authenticated?
    ensures a.Finish?
  {
    hide UpdateFlow, FreshIds;
  }

  lemma NotPurgedLast(acts: seq<Action>, a: Action, k: nat, sid: SessionId)
    requires k < |acts| && a.Finish? && Purged(acts + [a], k, sid)
    ensures Purged(acts, k, sid)
  {
    var longer := acts + [a];
    var i :| k < i < |longer| && longer[i].PurgeSessions? && sid in longer[i].sids;
    assert i < |acts| && longer[i] == acts[i];
  }

  /** Every session in the store was opened by a login request with the factors it needed, answered or not, for an
      identity then found active, or by a registration for its new identity, and then it is at AAL1. */
  lemma EverySessionHasItsFactors(acts: seq<Action>, sid: SessionId) returns (j: nat, m: AuthMethod, k: nat)
    requires sid in Run(acts).sessions
    ensures j <= k < |acts|
    ensures var s := Run(acts).sessions[sid];
      if acts[k].Register? then acts[k].sid == sid && acts[k].identity == s.identity && s.aal == AAL1
      else
        && HasEnv(acts[k]) && acts[k].env.newSession == sid && Admitted(acts, k)
        && HasEnv(acts[j]) && SameLogin(acts, j, k) && Admitted(acts, j)
        && PrimaryVerified(acts[j], s.identity, m) && acts[j].env.active(s.identity) == Some(true)
        && (SecondVerified(acts[k], s.identity) || NoFactorNeeded(acts[k], s.identity))
        && (s.aal == AAL2 ==> SecondVerified(acts[k], s.identity))
  {
    RunOk(acts);
    var s := Run(acts).sessions[sid];
    assert SessionOk(acts, sid, s);
    hide Run, Inv, Admitted, SecondVerified;
    k :| 0 <= k < |acts| && (OpenedBy(acts, k, sid, s) || RegisteredBy(acts, k, sid, s));
    j, m := k, Password;
    if !acts[k].Register? {
      j, m :| 0 <= j <= k < |acts| && VerifiedBy(acts, j, s.identity, m) && SameLogin(acts, j, k);
    }
  }

  /** A login pending in a flow belongs to an identity that was active and whose primary factor was verified on that
      flow, when a second factor was needed. */
  lemma PendingWasVerified(acts: seq<Action>, f: FlowId) returns (j: nat)
    requires f in Run(acts).flows && Run(acts).flows[f].pending.Some?
    ensures j < |acts| && HasEnv(acts[j]) && Concerns(acts[j], f) && Admitted(acts, j)
    ensures var p := Run(acts).flows[f].pending.value;
      && PrimaryVerified(acts[j], p.identity, p.primary) && acts[j].env.active(p.identity) == Some(true)
      && acts[j].env.mfaEnabled && acts[j].env.enrolled(p.identity) == Some(true)
      && !Trusted(acts[j].env, p.identity)
  {
    RunOk(acts);
    var p := Run(acts).flows[f].pending.value;
    assert FlowOk(acts, f, Run(acts).flows[f]);
    hide Admitted, Run, PrimaryVerified, Trusted;
    j :| 0 <= j < |acts| && AskedBy(acts, j, f, p);
  }

  /** An answer that asks for a second factor: the flow then holds the login that this request verified the primary
      factor of. */
  lemma MfaRequiredMeansPending(acts: seq<Action>, a: Action) returns (j: nat)
    requires Respond(Run(acts), a).MfaRequired?
    ensures var w', f := Step(Run(acts), a), Respond(Run(acts), a).flow;
      && a.Finish? && f in w'.flows && w'.flows[f].pending.Some?
      && j < |acts| && HasEnv(acts[j]) && acts[j].req == a.req && AskedBy(acts, j, f, w'.flows[f].pending.value)
  {
    RunOk(acts);
    hide AskedBy, JobBy, SessionOk, FlowOk;
    var w := Run(acts);
    OnlyFinishAsks(w, a);
    hide Run;
    assert JobOk(acts, w, a.req, w.jobs[a.req]);
    var job := w.jobs[a.req];
    j :| 0 <= j < |acts| && HasEnv(acts[j]) && AskedBy(acts, j, job.id, job.flow.pending.value) && acts[j].req == a.req;
  }

  lemma OnlyFinishAsks(w: World, a: Action)
    requires Respond(w, a).MfaRequired?
    ensures a.Finish? && a.req in w.jobs && w.jobs[a.req].Asking? && Respond(w, a).flow == w.jobs[a.req].id
    ensures var f := w.jobs[a.req].id; f in Step(w, a).flows && Step(w, a).flows[f] == w.jobs[a.req].flow
  {
    hide FreshIds;
  }

  /** When the response would show another level than the store: a strong second factor that already opened the
      session, or an ordinary one after an unknown method. */
  lemma ResponseMatchesStoreIff(i: Identity, primary: AuthMethod, second: AuthMethod)
    ensures ApplySessionAuthMethod(Opened(i, primary), second).aal == WithMethod(Opened(i, primary), second).aal <==>
            !(primary == second && MethodToAAL(second) == AAL2) && !(primary.Other? && MethodToAAL(second) == AAL1)
  {
  }

  // ---------- The other steps on flows and sessions ----------

  /** Validation lets a flow through exactly when it is active, not past its expiry, and its non-empty CSRF token is the
      one sent. */
  lemma LoadIff(w: World, req: RequestId, id: FlowId, csrf: string, now: int)
    requires req !in w.loaded
    ensures var w' := Step(w, Load(req, id, csrf, now, true));
      && (req in w'.loaded <==>
          && id in w.flows && w.flows[id].state == Active && !(now > w.flows[id].expiresAt)
          && csrf != "" && w.flows[id].csrf == csrf)
      && (req in w'.loaded ==> w'.loaded[req] == Loaded(id, w.flows[id], true))
  {
  }

  /** Ending a flow: only an active one, as it was read, becomes completed or failed; any other is left in its state. */
  lemma EndingFlow(w: World, req: RequestId)
    requires req in w.loaded && w.loaded[req].id in w.flows
    ensures var id, flow := w.loaded[req].id, w.loaded[req].flow;
      var done, failed := Step(w, CompleteFlow(req, Committed)), Step(w, FailFlow(req, Committed));
      if flow.state == Active then
        && done.flows == w.flows[id := flow.(state := Completed)]
        && failed.flows == w.flows[id := flow.(state := Failed)]
      else done == w && failed.flows == w.flows[id := flow]
  {
  }

  /** A registration stores a session at AAL1 with its method, or without one when the second insert failed; revoking
      makes exactly the named sessions inactive. */
  lemma RegisterAndRevoke(w: World, sid: SessionId, i: Identity, create: CreateResult, ids: set<SessionId>)
    ensures Step(w, Register(sid, i, create)).sessions ==
            if sid in w.used || create.NotCreated? then w.sessions
            else w.sessions[sid := Session(i, AAL1, if create.Created? then [Password] else [], true)]
    ensures var after := Step(w, RevokeSessions(ids)).sessions;
      && after.Keys == w.sessions.Keys
      && forall s | s in after :: after[s] == w.sessions[s].(active := w.sessions[s].active && s !in ids)
  {
  }

  // ---------- A request without interference ----------

  /** The rest of a request, with the database answers of `env`. */
  function Undisturbed(env: Env, result: (World, Next)): (World, Outcome) {
    match result.1
    case Done(o) => (result.0, o)
    case Continue(job) =>
      if job.Opening? && job.second.Some? then
        var (w', next) := AddFactor(result.0, job, env.add);
        (match next
         case Done(o) => (w', o)
         case Continue(ready) => Conclude(w', ready, env.remember(ready.shown.identity), env.flowWrite))
      else Conclude(result.0, job, job.Opening? && env.remember(job.shown.identity), env.flowWrite)
  }

  /** The steps after the first by which a request goes on. */
  function Rest(req: RequestId, env: Env, job: Job): seq<Action> {
    var finish := Finish(req, job.Opening? && env.remember(job.shown.identity), env.flowWrite);
    if job.Opening? && job.second.Some? then [AddSecond(req, env.add), finish] else [finish]
  }

  /** The world and the last answer after some steps. */
  function RunFrom(w: World, o: Outcome, acts: seq<Action>): (World, Outcome)
    decreases |acts|
  {
    if acts == [] then (w, o) else RunFrom(Step(w, acts[0]), Respond(w, acts[0]), acts[1..])
  }

  /** Processing a request in one go is a run of its steps, with the answer of the last. */
  lemma UndisturbedIsRun(w: World, req: RequestId, env: Env, job: Job)
    requires req !in w.jobs
    ensures Undisturbed(env, (w, Continue(job))) ==
            RunFrom(Proceed(req, (w, Continue(job))).0, Working, Rest(req, env, job))
  {
    var w1 := Proceed(req, (w, Continue(job))).0;
    assert w1.jobs - {req} == w.jobs;
    assert w1.(jobs := w1.jobs - {req}) == w;
    var acts := Rest(req, env, job);
    if job.Opening? && job.second.Some? {
      TwoSteps(w1, acts[0], acts[1]);
      var w2 := Step(w1, acts[0]);
      var (w', next) := AddFactor(w, job, env.add);
      AddKeepsJobs(w, job, env.add);
      hide AddFactor, Conclude;
      if next.Continue? {
        assert w2.jobs - {req} == w'.jobs;
        assert w2.(jobs := w2.jobs - {req}) == w';
        assert next.job.shown.identity == job.shown.identity && next.job.second.None? by {
          AddKeepsIdentity(w, job, env.add);
        }
      }
    } else {
      assert acts[1..] == [];
    }
  }

  lemma TwoSteps(w: World, a: Action, b: Action)
    ensures var w1 := Step(w, a); RunFrom(w, Working, [a, b]) == (Step(w1, b), Respond(w1, b))
  {
    hide StepWith;
    var w1, acts := Step(w, a), [a, b];
    assert acts[1..] == [b] && [b][1..] == [];
    assert RunFrom(w1, Respond(w, a), [b]) == RunFrom(Step(w1, b), Respond(w1, b), []);
  }

  lemma AddKeepsIdentity(w: World, job: Job, tx: TxResult)
    requires job.Opening? && job.second.Some?
    ensures var next := AddFactor(w, job, tx).1;
      if next.Done? then next.o == Rejected
      else next.job.Opening? && next.job.shown.identity == job.shown.identity && next.job.second.None?
  {
  }

  /** The flow the request answers about can be written. */
  predicate Writable(env: Env, w: World, loaded: Option<Loaded>) {
    loaded.Some? ==> loaded.value.id in w.flows && env.flowWrite.Committed?
  }

  /** A verified primary factor of `i` opens a session at once. */
  predicate OpensAtOnce(env: Env, w: World, loaded: Option<Loaded>, i: Identity) {
    && env.active(i) == Some(true) && env.create.Created? && Writable(env, w, loaded)
    && (env.mfaEnabled ==>
          || env.enrolled(i) == Some(false)
          || (env.enrolled(i) == Some(true) && Trusted(env, i) && env.add.Committed?))
  }

  /** A verified primary factor of `i` is answered by asking for the second. */
  predicate AsksFactor(env: Env, w: World, loaded: Option<Loaded>, i: Identity) {
    && env.active(i) == Some(true) && env.mfaEnabled && env.enrolled(i) == Some(true)
    && (env.device == "" || env.trusted(i, env.device) == Some(false))
    && (if loaded.Some? then Writable(env, w, loaded) else env.flowCreated && env.flowWrite.Committed?)
  }

  /** Exactly when a verified primary factor logs in, and exactly when it leads to the second factor; the session then
      stored holds the factors in order. */
  lemma FinishPrimaryOutcome(env: Env, w: World, loaded: Option<Loaded>, i: Identity, m: AuthMethod)
    requires MethodToAAL(m) == AAL1
    ensures var (w', o) := Undisturbed(env, FinishPrimary(env, w, loaded, i, m));
      && (o.Authenticated? <==> OpensAtOnce(env, w, loaded, i))
      && (o.Authenticated? && !(env.mfaEnabled && env.enrolled(i) == Some(true)) ==>
            && o == Authenticated(env.newSession, i, AAL1)
            && w'.sessions == w.sessions[env.newSession := Session(i, AAL1, [m], true)])
      && (o.Authenticated? && env.mfaEnabled && env.enrolled(i) == Some(true) ==>
            && o == Authenticated(env.newSession, i, AAL2)
            && w'.sessions == w.sessions[env.newSession := Session(i, AAL2, [m, Totp], true)])
      && (o.MfaRequired? <==> AsksFactor(env, w, loaded, i))
      && (o.MfaRequired? ==> o.flow == if loaded.Some? then loaded.value.id else env.newFlow)
      && (!o.Authenticated? && !o.MfaRequired? ==> o == Rejected)
  {
    var factor := EnsureSecondFactor(env, i);
    if env.active(i) == Some(true) && !factor.Unavailable? {
      if factor.Ask? {
      } else {
        OpenOutcome(env, w, i, m, if factor.TrustedDevice? then Some(Totp) else None, loaded, false, false);
        hide OpenSession;
      }
    }
  }

  /** What comes of opening a session and, if there is one, adding the second factor. */
  lemma OpenOutcome(env: Env, w: World, i: Identity, m: AuthMethod, second: Option<AuthMethod>, loaded: Option<Loaded>,
                    clear: bool, remember: bool)
    requires MethodToAAL(m) == AAL1 && (second.Some? ==> MethodToAAL(second.value) == AAL2)
    ensures var (w', o) := Undisturbed(env, OpenSession(env, w, i, m, second, loaded, clear, remember));
      && (o.Authenticated? <==> env.create.Created? && (second.Some? ==> env.add.Committed?)
                                && (remember ==> env.remember(i)) && Writable(env, w, loaded))
      && (o.Authenticated? ==>
            && o == Authenticated(env.newSession, i, if second.Some? then AAL2 else AAL1)
            && w'.sessions == w.sessions[env.newSession :=
                 Session(i, o.aal, if second.Some? then [m, second.value] else [m], true)])
      && (!o.Authenticated? ==> o == Rejected)
  {
    if env.create.Created? {
      var sid, s := env.newSession, Opened(i, m);
      var w1 := w.(sessions := w.sessions[sid := s], used := w.used + {sid});
      if second.Some? {
        var t := Session(i, AAL2, [m, second.value], true);
        assert WithMethod(s, second.value) == t && ApplySessionAuthMethod(s, second.value) == t;
        SetTwice(w.sessions, sid, s, t);
        hide WithMethod, ApplySessionAuthMethod, Opened, Conclude;
        var w2 := w1.(sessions := w.sessions[sid := t]);
        ConcludeOutcome(env, w2, sid, t, loaded, clear, remember);
      } else {
        hide Conclude;
        ConcludeOutcome(env, w1, sid, s, loaded, clear, remember);
      }
    }
  }

  lemma SetTwice<K, V>(m: map<K, V>, k: K, a: V, b: V)
    ensures m[k := a][k := b] == m[k := b]
  {
  }

  lemma ConcludeOutcome(env: Env, w: World, sid: SessionId, shown: Session, loaded: Option<Loaded>, clear: bool,
                        remember: bool)
    ensures var job := Opening(sid, shown, None, loaded, clear, remember);
      var (w', o) := Conclude(w, job, env.remember(shown.identity), env.flowWrite);
      && w'.sessions == w.sessions
      && o == if Writable(env, w, loaded) && (remember ==> env.remember(shown.identity))
              then Authenticated(sid, shown.identity, shown.aal) else Rejected
  {
  }

  /** Exactly when the second step of a login succeeds. */
  lemma CompletePendingOutcome(env: Env, w: World, loaded: Loaded, input: Input, p: Pending)
    requires MethodToAAL(p.primary) == AAL1
    ensures var (w', o) := Undisturbed(env, CompletePending(env, w, loaded, input, p));
      && (o.Authenticated? <==>
          && env.mfaEnabled && CodeVerified(env, input, p.identity) && env.create.Created? && env.add.Committed?
          && (input.remember ==> env.remember(p.identity)) && Writable(env, w, Some(loaded)))
      && (o.Authenticated? ==>
            && o == Authenticated(env.newSession, p.identity, AAL2)
            && w'.sessions == w.sessions[env.newSession :=
                 Session(p.identity, AAL2, [p.primary, if input.totp != "" then Totp else Backup], true)])
      && (!o.Authenticated? ==> o == Rejected)
  {
    var second := if input.totp != "" then Totp else Backup;
    OpenOutcome(env, w, p.identity, p.primary, Some(second), Some(loaded), true, input.remember);
    hide OpenSession, AddFactor, Conclude;
  }

  /** Exactly when submitting a login form without a pending login has each of its outcomes. */
  lemma SubmissionOutcome(env: Env, w: World, loaded: Loaded, input: Input)
    requires loaded.flow.pending.None?
    ensures var o := Undisturbed(env, ExecuteLogin(env, w, loaded, input)).1;
      var found := if env.passwordEnabled && input.identifier != "" && input.password != ""
                   then env.password(input.identifier, input.password) else None;
      && (o.ChallengeSent? <==> input.password == "" && input.identifier != "" && env.codeSent(input.identifier))
      && (o.Authenticated? <==> found.Some? && OpensAtOnce(env, w, Some(loaded), found.value))
      && (o.Authenticated? ==> o.identity == found.value && o.session == env.newSession)
      && (o.MfaRequired? <==> found.Some? && AsksFactor(env, w, Some(loaded), found.value))
  {
    hide OpensAtOnce, AsksFactor;
    if env.password(input.identifier, input.password).Some? {
      FinishPrimaryOutcome(env, w, Some(loaded), env.password(input.identifier, input.password).value, Password);
    }
    hide FinishPrimary, AddFactor, Conclude;
  }

  // ---------- The server object ----------

  class Server {
    var world: World

    constructor ()
      ensures world == START
    {
      world := START;
    }

    /** UpdateFlow of the flow service. */
    method WriteFlow(id: FlowId, flow: Flow, write: TxResult) returns (ok: bool)
      modifies this
      ensures (world, ok) == UpdateFlow(old(world), id, flow, write)
    {
      if id !in world.flows || write.RolledBack? { return false; }
      world := world.(flows := world.flows[id := flow]);
      ok := write.Committed?;
    }

    /** createSession: `None` when it fails. */
    method CreateSession(env: Env, i: Identity, m: AuthMethod) returns (r: Option<Session>)
      requires env.newSession !in world.used
      modifies this
      ensures forall second, loaded, clear, remember ::
                OpenSession(env, old(world), i, m, second, loaded, clear, remember) ==
                (world, if r.Some? then Continue(Opening(env.newSession, r.value, second, loaded, clear, remember))
                      else Done(Rejected))
    {
      if env.create.NotCreated? { return None; }
      var session := Opened(i, m);
      var row := if env.create.RowOnly? then session.(methods := []) else session;
      world := world.(sessions := world.sessions[env.newSession := row],
                      used := world.used + {env.newSession});
      r := if env.create.RowOnly? then None else Some(session);
    }

    /** AddAuthMethod and applySessionAuthMethod. */
    method AddSecondFactor(env: Env, session: Session, second: AuthMethod) returns (r: Option<Session>)
      modifies this
      ensures forall loaded, clear, remember ::
                AddFactor(old(world), Opening(env.newSession, session, Some(second), loaded, clear, remember),
                    env.add) ==
                (world, if r.Some? then Continue(Opening(env.newSession, r.value, None, loaded, clear, remember))
                      else Done(Rejected))
    {
      if env.newSession !in world.sessions || env.add.RolledBack? { return None; }
      world := world.(sessions := world.sessions[env.newSession := WithMethod(world.sessions[env.newSession], second)]);
      if env.add.Error() { return None; }
      var shown := ShowMethod(session, second);
      r := Some(shown);
    }

    /** applySessionAuthMethod: the loop looks for the method before appending it. */
    method ShowMethod(s: Session, m: AuthMethod) returns (r: Session)
      ensures r == ApplySessionAuthMethod(s, m)
    {
      for k := 0 to |s.methods|
        invariant m !in s.methods[..k]
      {
        if s.methods[k] == m { return s; }
      }
      assert s.methods[..|s.methods|] == s.methods;
      r := s.(methods := s.methods + [m]);
      if m == Totp || m == WebAuthn || m == Sms || m == Backup { r := r.(aal := AAL2); }
    }

    /** applyAuthContextToFlow and the answer. */
    method FinishLogin(env: Env, loaded: Option<Loaded>, session: Session, clear: bool) returns (o: Outcome)
      modifies this
      ensures forall remembered ::
        (world, o) == Conclude(old(world), Opening(env.newSession, session, None, loaded, clear, false), remembered,
              env.flowWrite)
      ensures (world, o) == Conclude(old(world), Opening(env.newSession, session, None, loaded, clear, true), true,
              env.flowWrite)
    {
      o := Authenticated(env.newSession, session.identity, session.aal);
      if loaded.None? { return; }
      var flow := loaded.value.flow.(identity := Some(session.identity), session := Some(env.newSession));
      if clear { flow := flow.(pending := None); }
      var ok := WriteFlow(loaded.value.id, flow, env.flowWrite);
      if !ok { o := Rejected; }
    }

    method PrepareMfaLoginFlow(env: Env, loaded: Option<Loaded>, i: Identity, m: AuthMethod) returns (o: Outcome)
      modifies this
      ensures (world, o) == Undisturbed(env, AskSecondFactor(env, old(world), loaded, i, m))
    {
      var id, flow;
      if loaded.None? {
        if !env.flowCreated { return Rejected; }
        id, flow := env.newFlow, Flow(LoginFlow, Active, env.newCsrf, env.newExpiry, None, None, None);
        world := world.(flows := world.flows[id := flow]);
      } else {
        id, flow := loaded.value.id, loaded.value.flow;
      }
      flow := flow.(pending := Some(Pending(i, m)));
      var ok := WriteFlow(id, flow, env.flowWrite);
      o := if ok then MfaRequired(id) else Rejected;
    }

    method FinishPrimaryAuthentication(env: Env, loaded: Option<Loaded>, i: Identity, m: AuthMethod)
      returns (o: Outcome)
      requires env.newSession !in world.used
      modifies this
      ensures (world, o) == Undisturbed(env, FinishPrimary(env, old(world), loaded, i, m))
    {
      hide OpenSession, AddFactor, Conclude, AskSecondFactor;
      if env.active(i) != Some(true) { return Rejected; }
      var factor := EnsureSecondFactor(env, i);
      if factor.Unavailable? { return Rejected; }
      if factor.Ask? {
        o := PrepareMfaLoginFlow(env, loaded, i, m);
        return;
      }
      var session := CreateSession(env, i, m);
      if session.None? { return Rejected; }
      if factor.TrustedDevice? {
        session := AddSecondFactor(env, session.value, Totp);
        if session.None? { return Rejected; }
      }
      o := FinishLogin(env, loaded, session.value, false);
    }

    method CompletePendingMfaLogin(env: Env, loaded: Loaded, input: Input, p: Pending) returns (o: Outcome)
      requires env.newSession !in world.used
      modifies this
      ensures (world, o) == Undisturbed(env, CompletePending(env, old(world), loaded, input, p))
    {
      hide OpenSession, AddFactor;
      if !env.mfaEnabled { return Rejected; }
      if input.totp == "" && input.backup == "" { return Rejected; }
      var second;
      if input.totp != "" {
        if !env.totp(p.identity, input.totp) { return Rejected; }
        second := Totp;
      } else {
        if !env.backup(p.identity, input.backup) { return Rejected; }
        second := Backup;
      }
      var session := CreateSession(env, p.identity, p.primary);
      if session.None? { return Rejected; }
      session := AddSecondFactor(env, session.value, second);
      if session.None? { return Rejected; }
      if input.remember && !env.remember(session.value.identity) { return Rejected; }
      o := FinishLogin(env, Some(loaded), session.value, true);
    }

    /** executeLoginFlow. */
    method ExecuteLoginFlow(env: Env, loaded: Loaded, input: Input) returns (o: Outcome)
      requires env.newSession !in world.used
      modifies this
      ensures (world, o) == Undisturbed(env, ExecuteLogin(env, old(world), loaded, input))
    {
      if loaded.flow.pending.Some? {
        o := CompletePendingMfaLogin(env, loaded, input, loaded.flow.pending.value);
        return;
      }
      if input.password != "" {
        if !env.passwordEnabled || input.identifier == "" { return Rejected; }
        var identity := env.password(input.identifier, input.password);
        if identity.None? { return Rejected; }
        o := FinishPrimaryAuthentication(env, Some(loaded), identity.value, Password);
        return;
      }
      o := if input.identifier != "" && env.codeSent(input.identifier) then ChallengeSent else Rejected;
    }
  }
}
