/** Login, email verification and logout interleaved one Redis or database operation at a time
    (apps/api/src/modules/auth/service.ts, apps/api/src/modules/auth/email-verification-service.ts,
    apps/api/src/lib/session.ts), on a clock in whole seconds. */
module Sessions {
  import opened Options

  const SESSION_TTL_SECONDS: nat := 2592000

  type Sid = int
  type User = int
  type Pid = int
  datatype Role = Public | Participant | Organizer | Admin

  function Rank(r: Role): nat {
    match r case Public => 0 case Participant => 1 case Organizer => 2 case Admin => 3
  }

  datatype Session = Session(user: User, role: Role, expiresAt: int)
  datatype Row = Row(user: User, revoked: bool)

  /** Where a request stands: the operation it performs next. */
  datatype Proc =
    | InsertUser(user: User)
    | SelectUser(user: User)
    | SetSession(user: User, role: Role)
    | InsertRow(user: User, sid: Sid)
    | Compensate(sid: Sid)
    | ConsumeToken(user: User, sid: Sid)
    | RefreshRole(sid: Sid, role: Role)
    | DeleteSession(sid: Sid)
    | RevokeRow(sid: Sid)
    | Finished

  /** `used`: session ids ever generated or presented. `loggedOut`: ids a logout has deleted.
      `unconfirmed`: ids whose SET was applied although the login saw an error, or whose compensating DEL failed. */
  datatype State = State(now: int, redis: map<Sid, Session>, rows: map<Sid, Row>, users: map<User, Role>,
                         procs: map<Pid, Proc>, used: set<Sid>, loggedOut: set<Sid>, unconfirmed: set<Sid>)

  /** Done: applied and acknowledged. Refused: not applied, error. Lost: applied, but the caller saw an error. */
  datatype Io = Done | Refused | Lost

  datatype Step =
    | Tick(seconds: nat)
    | BeginLogin(pid: Pid, user: User)
    | BeginVerify(pid: Pid, sid: Sid)
    | BeginLogout(pid: Pid, sid: Sid)
    | Go(pid: Pid, io: Io, newSid: Sid, tokenValid: bool)

  function Readable(s: State, sid: Sid): Option<Session> {
    if sid in s.redis && s.now < s.redis[sid].expiresAt then Some(s.redis[sid]) else None
  }

  function Begin(s: State, pid: Pid, p: Proc): State {
    if pid in s.procs then s else s.(procs := s.procs[pid := p])
  }

  /** Role after a valid token is consumed: only a participant is raised. */
  function Elevated(r: Role): Role {
    if r == Participant then Organizer else r
  }

  function Perform(s: State, p: Proc, io: Io, newSid: Sid, tokenValid: bool): (r: (State, Proc))
    ensures r.0.procs == s.procs
  {
    match p
    case InsertUser(user) =>
      if io.Refused? then (s, Finished)
      else
        var s' := if user in s.users then s else s.(users := s.users[user := Participant]);
        if io.Lost? then (s', Finished)
        else if user in s.users then (s', SelectUser(user))
        else (s', SetSession(user, Participant))
    case SelectUser(user) =>
      if !io.Done? || user !in s.users then (s, Finished) else (s, SetSession(user, s.users[user]))
    case SetSession(user, role) =>
      if newSid in s.used then (s, p)
      else if io.Refused? then (s.(used := s.used + {newSid}), Finished)
      else
        var s' := s.(used := s.used + {newSid}, redis := s.redis[newSid := Session(user, role, s.now + SESSION_TTL_SECONDS)]);
        if io.Lost? then (s'.(unconfirmed := s.unconfirmed + {newSid}), Finished)
        else (s', InsertRow(user, newSid))
    case InsertRow(user, sid) =>
      var s' := if io.Refused? then s else s.(rows := s.rows[sid := Row(user, false)]);
      (s', if io.Done? then Finished else Compensate(sid))
    case Compensate(sid) =>
      if io.Refused? then (s.(unconfirmed := s.unconfirmed + {sid}), Finished)
      else (s.(redis := s.redis - {sid}), Finished)
    case ConsumeToken(user, sid) =>
      if io.Refused? || !tokenValid || user !in s.users then (s, Finished)
      else
        var role := Elevated(s.users[user]);
        (s.(users := s.users[user := role]), if io.Lost? then Finished else RefreshRole(sid, role))
    case RefreshRole(sid, role) =>
      if io.Refused? || Readable(s, sid).None? then (s, Finished)
      else
        var ttl := s.redis[sid].expiresAt - s.now;
        (s.(redis := s.redis[sid := s.redis[sid].(role := role, expiresAt := s.now + ttl)]), Finished)
    case DeleteSession(sid) =>
      if io.Refused? then (s, Finished)
      else
        var s' := s.(redis := s.redis - {sid}, loggedOut := s.loggedOut + {sid});
        (s', if io.Lost? then Finished else RevokeRow(sid))
    case RevokeRow(sid) =>
      if io.Refused? || sid !in s.rows then (s, Finished)
      else (s.(rows := s.rows[sid := s.rows[sid].(revoked := true)]), Finished)
    case Finished => (s, p)
  }

  function Next(s: State, step: Step): State {
    match step
    case Tick(seconds) => s.(now := s.now + seconds)
    case BeginLogin(pid, user) => Begin(s, pid, InsertUser(user))
    case BeginVerify(pid, sid) =>
      // the route reads the session first and passes on its user
      if Readable(s, sid).None? then s else Begin(s, pid, ConsumeToken(s.redis[sid].user, sid))
    case BeginLogout(pid, sid) => Begin(s.(used := s.used + {sid}), pid, DeleteSession(sid))
    case Go(pid, io, newSid, tokenValid) =>
      if pid !in s.procs then s
      else
        var (s', p') := Perform(s, s.procs[pid], io, newSid, tokenValid);
        s'.(procs := s.procs[pid := p'])
  }

  function After(s: State, steps: seq<Step>): State
    decreases |steps|
  {
    if steps == [] then s else After(Next(s, steps[0]), steps[1..])
  }

  function Init(now: int): State {
    State(now, map[], map[], map[], map[], {}, {}, {})
  }

  // ---------- Invariant ----------

  ghost predicate InFlight(s: State, sid: Sid) {
    exists pid :: pid in s.procs && Creating(s.procs[pid], sid)
  }

  predicate Creating(p: Proc, sid: Sid) {
    (p.InsertRow? || p.Compensate?) && p.sid == sid
  }

  ghost predicate ProcOk(s: State, p: Proc) {
    match p
    case SetSession(user, role) => user in s.users && Rank(role) <= Rank(s.users[user])
    case InsertRow(_, sid) => sid in s.used
    case Compensate(sid) => sid in s.used
    case ConsumeToken(user, sid) => sid in s.used && (sid in s.redis ==> s.redis[sid].user == user)
    case RefreshRole(sid, role) => sid in s.used &&
      (sid in s.redis ==> s.redis[sid].user in s.users && Rank(role) <= Rank(s.users[s.redis[sid].user]))
    case DeleteSession(sid) => sid in s.used
    case _ => true
  }

  ghost predicate SessionOk(s: State, sid: Sid) {
    && sid in s.redis && sid in s.used && sid !in s.loggedOut
    && s.redis[sid].user in s.users && Rank(s.redis[sid].role) <= Rank(s.users[s.redis[sid].user])
    && (sid in s.rows || InFlight(s, sid) || sid in s.unconfirmed)
  }

  ghost predicate Inv(s: State) {
    && (forall pid :: pid in s.procs ==> ProcOk(s, s.procs[pid]))
    && (forall sid :: sid in s.redis ==> SessionOk(s, sid))
    && s.loggedOut <= s.used
  }

  lemma UsersOnlyRise(s: State, step: Step)
    ensures forall u :: u in s.users ==> u in Next(s, step).users && Rank(s.users[u]) <= Rank(Next(s, step).users[u])
  {
  }

  /** A session record keeps its user and its expiry; only a login adds one, under an unused id. */
  lemma SessionsOnlyChangeRole(s: State, step: Step, sid: Sid)
    requires Inv(s) && sid in Next(s, step).redis
    ensures sid in s.redis ==> Next(s, step).redis[sid] == s.redis[sid].(role := Next(s, step).redis[sid].role)
    ensures sid !in s.redis ==> sid !in s.used
  {
  }

  lemma ProcsStayOk(s: State, step: Step, pid: Pid)
    requires Inv(s) && pid in s.procs && Next(s, step).procs[pid] == s.procs[pid]
    ensures ProcOk(Next(s, step), s.procs[pid])
  {
    var s' := Next(s, step);
    var p := s.procs[pid];
    assert ProcOk(s, p);
    UsersOnlyRise(s, step);
    if (p.ConsumeToken? || p.RefreshRole?) && p.sid in s'.redis {
      SessionsOnlyChangeRole(s, step, p.sid);
    }
  }

  lemma PerformedProcOk(s: State, pid: Pid, io: Io, newSid: Sid, tokenValid: bool)
    requires Inv(s) && pid in s.procs
    ensures var (s', p') := Perform(s, s.procs[pid], io, newSid, tokenValid); ProcOk(s', p')
  {
    assert ProcOk(s, s.procs[pid]);
    match s.procs[pid]
    case ConsumeToken(user, sid) =>
    case SetSession(user, role) =>
    case InsertUser(user) =>
    case _ =>
  }

  lemma BegunProcOk(s: State, step: Step)
    requires Inv(s) && !step.Go? && !step.Tick? && step.pid in Next(s, step).procs && step.pid !in s.procs
    ensures ProcOk(Next(s, step), Next(s, step).procs[step.pid])
  {
  }

  lemma StepProcsOk(s: State, step: Step, pid: Pid)
    requires Inv(s) && pid in Next(s, step).procs
    ensures ProcOk(Next(s, step), Next(s, step).procs[pid])
  {
    if step.Go? && step.pid in s.procs {
      if pid == step.pid {
        PerformedProcOk(s, pid, step.io, step.newSid, step.tokenValid);
      } else {
        ProcsStayOk(s, step, pid);
      }
    } else if pid in s.procs {
      ProcsStayOk(s, step, pid);
    } else {
      BegunProcOk(s, step);
    }
  }

  lemma PerformedCreation(s: State, pid: Pid, io: Io, newSid: Sid, tokenValid: bool, sid: Sid)
    requires pid in s.procs && Creating(s.procs[pid], sid)
    ensures var (s', p') := Perform(s, s.procs[pid], io, newSid, tokenValid);
      sid in s'.redis ==> Creating(p', sid) || sid in s'.rows || sid in s'.unconfirmed
  {
  }

  lemma StillInFlight(s: State, step: Step, sid: Sid)
    requires InFlight(s, sid) && sid in Next(s, step).redis
    ensures InFlight(Next(s, step), sid) || sid in Next(s, step).rows || sid in Next(s, step).unconfirmed
  {
    var s' := Next(s, step);
    var pid :| pid in s.procs && Creating(s.procs[pid], sid);
    if step.Go? && step.pid in s.procs {
      if step.pid == pid {
        PerformedCreation(s, pid, step.io, step.newSid, step.tokenValid, sid);
      }
    }
    assert Creating(s'.procs[pid], sid) ==> InFlight(s', sid);
  }

  lemma SessionStaysOk(s: State, step: Step, sid: Sid)
    requires Inv(s) && sid in s.redis && sid in Next(s, step).redis
    ensures SessionOk(Next(s, step), sid)
  {
    assert SessionOk(s, sid);
    UsersOnlyRise(s, step);
    SessionsOnlyChangeRole(s, step, sid);
    if InFlight(s, sid) { StillInFlight(s, step, sid); }
    if step.Go? && step.pid in s.procs { assert ProcOk(s, s.procs[step.pid]); }
  }

  lemma NewSessionOk(s: State, step: Step, sid: Sid)
    requires Inv(s) && sid !in s.redis && sid in Next(s, step).redis
    ensures SessionOk(Next(s, step), sid)
  {
    assert step.Go? && step.pid in s.procs && s.procs[step.pid].SetSession?;
    assert ProcOk(s, s.procs[step.pid]);
    assert Next(s, step).procs[step.pid].InsertRow? ==> Creating(Next(s, step).procs[step.pid], sid);
  }

  lemma StepKeepsInv(s: State, step: Step)
    requires Inv(s)
    ensures Inv(Next(s, step))
  {
    var s' := Next(s, step);
    forall pid | pid in s'.procs ensures ProcOk(s', s'.procs[pid]) {
      StepProcsOk(s, step, pid);
    }
    forall sid | sid in s'.redis ensures SessionOk(s', sid) {
      if sid in s.redis { SessionStaysOk(s, step, sid); } else { NewSessionOk(s, step, sid); }
    }
    UsedGrows(s, step);
  }

  lemma UsedGrows(s: State, step: Step)
    requires Inv(s)
    ensures s.used <= Next(s, step).used && s.loggedOut <= Next(s, step).loggedOut <= Next(s, step).used
  {
    if step.Go? && step.pid in s.procs { assert ProcOk(s, s.procs[step.pid]); }
  }

  lemma {:induction false} RunKeepsInv(s: State, steps: seq<Step>)
    requires Inv(s)
    ensures Inv(After(s, steps))
    decreases |steps|
  {
    if steps != [] {
      StepKeepsInv(s, steps[0]);
      RunKeepsInv(Next(s, steps[0]), steps[1..]);
    }
  }

  // ---------- Over every run ----------

  lemma {:induction false} RunGrows(s: State, steps: seq<Step>)
    requires Inv(s)
    ensures s.loggedOut <= After(s, steps).loggedOut
    ensures forall u :: u in s.users ==> u in After(s, steps).users && Rank(s.users[u]) <= Rank(After(s, steps).users[u])
    decreases |steps|
  {
    if steps != [] {
      StepKeepsInv(s, steps[0]);
      UsedGrows(s, steps[0]);
      UsersOnlyRise(s, steps[0]);
      RunGrows(Next(s, steps[0]), steps[1..]);
    }
  }

  /** Once a logout has deleted a session it is never readable again, whatever refreshes and logins follow. */
  lemma LoggedOutForGood(now: int, before: seq<Step>, after: seq<Step>, sid: Sid)
    requires sid in After(Init(now), before).loggedOut
    ensures Readable(After(After(Init(now), before), after), sid).None?
  {
    var s := After(Init(now), before);
    RunKeepsInv(Init(now), before);
    RunKeepsInv(s, after);
    RunGrows(s, after);
    var s' := After(s, after);
    assert sid in s'.redis ==> SessionOk(s', sid);
  }

  /** A user's role never loses rank, and no session ever carries more than its user's current role. */
  lemma RolesOnlyRise(now: int, before: seq<Step>, after: seq<Step>, u: User, sid: Sid)
    ensures var s := After(Init(now), before); var s' := After(s, after);
      && (u in s.users ==> u in s'.users && Rank(s.users[u]) <= Rank(s'.users[u]))
      && (sid in s'.redis ==> s'.redis[sid].user in s'.users && Rank(s'.redis[sid].role) <= Rank(s'.users[s'.redis[sid].user]))
  {
    var s := After(Init(now), before);
    RunKeepsInv(Init(now), before);
    RunKeepsInv(s, after);
    RunGrows(s, after);
    if sid in After(s, after).redis { assert SessionOk(After(s, after), sid); }
  }

  lemma {:induction false} RunKeepsExpiry(s: State, steps: seq<Step>, sid: Sid)
    requires Inv(s) && sid in s.used && sid in After(s, steps).redis
    ensures sid in s.redis && After(s, steps).redis[sid] == s.redis[sid].(role := After(s, steps).redis[sid].role)
    decreases |steps|
  {
    if steps != [] {
      StepKeepsInv(s, steps[0]);
      UsedGrows(s, steps[0]);
      RunKeepsExpiry(Next(s, steps[0]), steps[1..], sid);
      SessionsOnlyChangeRole(s, steps[0], sid);
    }
  }

  /** No role refresh extends a session: between any two moments of its life the expiry is the same. */
  lemma RefreshNeverExtends(now: int, before: seq<Step>, after: seq<Step>, sid: Sid)
    requires sid in After(Init(now), before).redis && sid in After(After(Init(now), before), after).redis
    ensures After(After(Init(now), before), after).redis[sid].expiresAt == After(Init(now), before).redis[sid].expiresAt
  {
    RunKeepsInv(Init(now), before);
    assert SessionOk(After(Init(now), before), sid);
    RunKeepsExpiry(After(Init(now), before), after, sid);
  }

  /** With no creation in flight, every Redis session has its database row, unless its SET was applied behind
      an error or its compensating DEL failed. */
  lemma EverySessionHasARow(now: int, steps: seq<Step>, sid: Sid)
    requires var s := After(Init(now), steps); sid in s.redis && !InFlight(s, sid) && sid !in s.unconfirmed
    ensures sid in After(Init(now), steps).rows
  {
    RunKeepsInv(Init(now), steps);
    assert SessionOk(After(Init(now), steps), sid);
  }

  // ---------- Roles ----------

  /** The commit that verifies a user's email. */
  predicate Consumes(s: State, step: Step, u: User) {
    && step.Go? && step.pid in s.procs && s.procs[step.pid].ConsumeToken? && s.procs[step.pid].user == u
    && !step.io.Refused? && step.tokenValid && u in s.users
  }

  ghost predicate EverVerified(s: State, steps: seq<Step>, u: User)
    decreases |steps|
  {
    steps != [] && (Consumes(s, steps[0], u) || EverVerified(Next(s, steps[0]), steps[1..], u))
  }

  lemma RoleAfterStep(s: State, step: Step, u: User)
    ensures u in s.users ==> u in Next(s, step).users
    ensures u in Next(s, step).users ==>
      Next(s, step).users[u] == (if u !in s.users then Participant
                                 else if Consumes(s, step, u) && s.users[u] == Participant then Organizer
                                 else s.users[u])
  {
  }

  /** Over every run each user starts as a participant and is an organizer exactly once an email of theirs has been verified;
      nobody is ever anything else. */
  lemma {:induction false} RoleIffVerified(s: State, steps: seq<Step>, u: User)
    requires u in s.users ==> s.users[u] in {Participant, Organizer}
    requires u in After(s, steps).users
    ensures After(s, steps).users[u] ==
      if EverVerified(s, steps, u) || (u in s.users && s.users[u] == Organizer) then Organizer else Participant
    decreases |steps|
  {
    if steps != [] {
      RoleAfterStep(s, steps[0], u);
      RoleIffVerified(Next(s, steps[0]), steps[1..], u);
    }
  }

  predicate Grantable(r: Role) {
    r == Participant || r == Organizer
  }

  /** No role but these two is stored, held by a session or on its way to one, and a refresh only ever carries the higher. */
  ghost predicate RolesOk(s: State) {
    && (forall u :: u in s.users ==> Grantable(s.users[u]))
    && (forall sid :: sid in s.redis ==> Grantable(s.redis[sid].role))
    && (forall pid :: pid in s.procs ==>
          (s.procs[pid].SetSession? ==> Grantable(s.procs[pid].role)) && (s.procs[pid].RefreshRole? ==> s.procs[pid].role == Organizer))
  }

  lemma PerformKeepsRoles(s: State, p: Proc, io: Io, newSid: Sid, tokenValid: bool)
    requires RolesOk(s) && (p.SetSession? ==> Grantable(p.role)) && (p.RefreshRole? ==> p.role == Organizer)
    ensures var (s', p') := Perform(s, p, io, newSid, tokenValid);
      RolesOk(s') && (p'.SetSession? ==> Grantable(p'.role)) && (p'.RefreshRole? ==> p'.role == Organizer)
  {
  }

  lemma StepKeepsRoles(s: State, step: Step)
    requires RolesOk(s)
    ensures RolesOk(Next(s, step))
  {
    if step.Go? && step.pid in s.procs {
      PerformKeepsRoles(s, s.procs[step.pid], step.io, step.newSid, step.tokenValid);
    }
  }

  lemma {:induction false} RunKeepsRoles(s: State, steps: seq<Step>)
    requires RolesOk(s)
    ensures RolesOk(After(s, steps))
    decreases |steps|
  {
    if steps != [] {
      StepKeepsRoles(s, steps[0]);
      RunKeepsRoles(Next(s, steps[0]), steps[1..]);
    }
  }

  /** From the empty store, no session ever carries a role but participant or organizer, and organizer only for a user whose
      email has been verified. */
  lemma SessionRoles(now: int, steps: seq<Step>, sid: Sid)
    requires sid in After(Init(now), steps).redis
    ensures var session := After(Init(now), steps).redis[sid];
      session.role == Participant || (session.role == Organizer && EverVerified(Init(now), steps, session.user))
  {
    RunKeepsRoles(Init(now), steps);
    RolesOnlyRise(now, steps, [], 0, sid);
    var s := After(Init(now), steps);
    assert After(s, []) == s;
    RoleIffVerified(Init(now), steps, s.redis[sid].user);
  }

  /** Nobody loses the organizer role. */
  lemma OrganizerForGood(now: int, before: seq<Step>, after: seq<Step>, u: User)
    requires var s := After(Init(now), before); u in s.users && s.users[u] == Organizer
    ensures var s' := After(After(Init(now), before), after); u in s'.users && s'.users[u] == Organizer
  {
    RunKeepsRoles(Init(now), before);
    RunKeepsRoles(After(Init(now), before), after);
    RolesOnlyRise(now, before, after, u, 0);
  }

  // ---------- A login lasts ----------

  /** A new session is the login's own: its user, the role it has looked up, and thirty days from now. */
  lemma NewSessionIsTheLogins(s: State, step: Step, sid: Sid)
    requires Inv(s) && sid !in s.redis && sid in Next(s, step).redis
    ensures step.Go? && step.pid in s.procs && s.procs[step.pid].SetSession? && sid !in s.used
    ensures var p := s.procs[step.pid]; Next(s, step).redis[sid] == Session(p.user, p.role, s.now + 30 * 24 * 60 * 60)
  {
  }

  /** Nobody but `pid` is still writing the session. */
  ghost predicate SoleCreator(s: State, pid: Pid, sid: Sid) {
    sid in s.used && forall q :: q in s.procs && Creating(s.procs[q], sid) ==> q == pid
  }

  /** The session is there for its user until its expiry, with at least this role, unless a logout has ended it. */
  ghost predicate Lasts(s: State, sid: Sid, session: Session) {
    || sid in s.loggedOut
    || (sid in s.redis && s.redis[sid].user == session.user && s.redis[sid].expiresAt == session.expiresAt
        && Rank(session.role) <= Rank(s.redis[sid].role))
  }

  predicate By(step: Step, pid: Pid) {
    !step.Tick? && step.pid == pid
  }

  lemma StepLasts(s: State, step: Step, pid: Pid, sid: Sid, session: Session)
    requires Inv(s) && RolesOk(s) && SoleCreator(s, pid, sid) && Lasts(s, sid, session) && Grantable(session.role)
    requires By(step, pid) && pid in s.procs && Creating(s.procs[pid], sid) ==> step.Go? && s.procs[pid].InsertRow?
    ensures SoleCreator(Next(s, step), pid, sid) && Lasts(Next(s, step), sid, session)
  {
    UsedGrows(s, step);
    if step.Go? && step.pid in s.procs { assert ProcOk(s, s.procs[step.pid]); }
  }

  lemma {:induction false} RunLasts(s: State, steps: seq<Step>, pid: Pid, sid: Sid, session: Session)
    requires Inv(s) && RolesOk(s) && SoleCreator(s, pid, sid) && Lasts(s, sid, session) && Grantable(session.role)
    requires (pid in s.procs && Creating(s.procs[pid], sid)) ==> forall i :: 0 <= i < |steps| ==> !By(steps[i], pid)
    ensures SoleCreator(After(s, steps), pid, sid) && Lasts(After(s, steps), sid, session)
    decreases |steps|
  {
    if steps != [] {
      StepKeepsInv(s, steps[0]);
      StepKeepsRoles(s, steps[0]);
      StepLasts(s, steps[0], pid, sid, session);
      if !(pid in s.procs && Creating(s.procs[pid], sid)) { StaysSettled(s, steps[0], pid, sid); }
      RunLasts(Next(s, steps[0]), steps[1..], pid, sid, session);
    }
  }

  lemma StaysSettled(s: State, step: Step, pid: Pid, sid: Sid)
    requires SoleCreator(s, pid, sid) && !(pid in s.procs && Creating(s.procs[pid], sid))
    ensures !(pid in Next(s, step).procs && Creating(Next(s, step).procs[pid], sid))
  {
  }

  /** A session whose creation is over is readable by its user for the rest of its thirty days, whatever others do, unless a
      logout ends it: then never again. */
  lemma SessionsLast(now: int, before: seq<Step>, after: seq<Step>, sid: Sid)
    requires var s := After(Init(now), before); sid in s.redis && !InFlight(s, sid)
    ensures var s := After(Init(now), before); var s' := After(s, after); var session := s.redis[sid];
      if sid in s'.loggedOut then Readable(s', sid).None?
      else if s'.now >= session.expiresAt then Readable(s', sid).None?
      else Readable(s', sid).Some? && Readable(s', sid).value.user == session.user && Readable(s', sid).value.expiresAt == session.expiresAt
           && Rank(session.role) <= Rank(Readable(s', sid).value.role)
  {
    var s := After(Init(now), before);
    RunKeepsInv(Init(now), before);
    RunKeepsRoles(Init(now), before);
    assert SessionOk(s, sid);
    forall q | q in s.procs && Creating(s.procs[q], sid) ensures false {
      assert InFlight(s, sid);
    }
    RunLasts(s, after, 0, sid, s.redis[sid]);
    RunKeepsInv(s, after);
    var s' := After(s, after);
    assert sid in s'.redis ==> SessionOk(s', sid);
  }
}
