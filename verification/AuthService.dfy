/** Login, email verification and logout as the code runs them (apps/api/src/modules/auth/service.ts,
    apps/api/src/modules/auth/email-verification-service.ts), everyone else acting between any two operations and any operation
    failing. Each operation is proved to be the step the protocol takes, so what is proved about all interleavings holds here. */
module AuthService {
  import opened Options
  import opened Sessions

  type TokenHash = int
  datatype Token = Token(user: User, verified: bool, expiresAt: int)
  datatype LoginResult = LoggedIn | LoginFailed
  datatype VerifyResult = Verified(role: Role) | NotVerified

  predicate Foreign(step: Step, pid: Pid) {
    step.Tick? || step.pid != pid
  }

  ghost predicate AllForeign(others: nat -> seq<Step>, pid: Pid) {
    forall k, i :: 0 <= i < |others(k)| ==> Foreign(others(k)[i], pid)
  }

  lemma ForeignStep(s: State, step: Step, pid: Pid)
    requires Foreign(step, pid)
    ensures (pid in Next(s, step).procs <==> pid in s.procs) && (pid in s.procs ==> Next(s, step).procs[pid] == s.procs[pid])
    ensures s.now <= Next(s, step).now
  {
  }

  lemma StepOnlyAdds(s: State, step: Step)
    ensures s.used <= Next(s, step).used && s.loggedOut <= Next(s, step).loggedOut
  {
  }

  lemma {:induction false} AfterSnoc(s: State, steps: seq<Step>, step: Step)
    ensures After(s, steps + [step]) == Next(After(s, steps), step)
    decreases |steps|
  {
    if steps == [] {
      assert [step][1..] == [] && steps + [step] == [step];
      assert After(s, [step]) == After(Next(s, step), []);
    } else {
      assert (steps + [step])[1..] == steps[1..] + [step];
      AfterSnoc(Next(s, steps[0]), steps[1..], step);
    }
  }

  lemma {:induction false} AfterJoined(s: State, a: seq<Step>, b: seq<Step>)
    ensures After(s, a + b) == After(After(s, a), b)
    decreases |a|
  {
    if a == [] {
      assert a + b == b;
    } else {
      assert (a + b)[1..] == a[1..] + b;
      AfterJoined(Next(s, a[0]), a[1..], b);
    }
  }

  lemma Reachable(start: int, steps: seq<Step>)
    ensures Inv(After(Init(start), steps)) && RolesOk(After(Init(start), steps))
  {
    RunKeepsInv(Init(start), steps);
    RunKeepsRoles(Init(start), steps);
  }

  lemma RunGoesOn(start: int, steps: seq<Step>, s: State, step: Step)
    requires s == After(Init(start), steps)
    ensures After(Init(start), steps + [step]) == Next(s, step)
  {
    AfterSnoc(Init(start), steps, step);
  }

  lemma PerformKeepsClock(s: State, p: Proc, io: Io, sid: Sid, tokenValid: bool)
    ensures Perform(s, p, io, sid, tokenValid).0.now == s.now && Perform(s, p, io, sid, tokenValid).0.procs == s.procs
  {
  }

  lemma SoleFinished(s: State, pid: Pid, sid: Sid)
    requires SoleCreator(s, pid, sid) && pid in s.procs && s.procs[pid].Finished?
    ensures !InFlight(s, sid)
  {
  }

  class AuthStore {
    const start: int
    var now: int
    var redis: map<Sid, Session>
    var rows: map<Sid, Row>
    var users: map<User, Role>
    var tokens: map<TokenHash, Token>
    var procs: map<Pid, Proc>
    var used: set<Sid>
    var loggedOut: set<Sid>
    var unconfirmed: set<Sid>
    /** Every step so far. */
    ghost var steps: seq<Step>

    function View(): State
      reads this
    {
      State(now, redis, rows, users, procs, used, loggedOut, unconfirmed)
    }

    ghost predicate Valid()
      reads this
    {
      View() == After(Init(start), steps)
    }

    ghost predicate At(pid: Pid, p: Proc)
      reads this
    {
      pid in procs && procs[pid] == p
    }

    constructor (start: int)
      ensures Valid() && this.start == start && View() == Init(start) && tokens == map[]
    {
      this.start := start;
      now, redis, rows, users, tokens, procs := start, map[], map[], map[], map[], map[];
      used, loggedOut, unconfirmed, steps := {}, {}, {}, [];
    }

    /** A step of someone else's or of the clock. */
    method Take(step: Step)
      requires Valid()
      modifies this
      ensures Valid() && View() == Next(old(View()), step) && steps == old(steps) + [step] && tokens == old(tokens)
    {
      RunGoesOn(start, steps, View(), step);
      var s := Next(View(), step);
      now, redis, rows, users, procs := s.now, s.redis, s.rows, s.users, s.procs;
      used, loggedOut, unconfirmed := s.used, s.loggedOut, s.unconfirmed;
      steps := steps + [step];
    }

    method Others(ghost pid: Pid, list: seq<Step>)
      requires Valid() && forall i :: 0 <= i < |list| ==> Foreign(list[i], pid)
      modifies this
      ensures Valid() && tokens == old(tokens) && old(used) <= used && old(loggedOut) <= loggedOut && old(now) <= now
      ensures View() == After(old(View()), list) && steps == old(steps) + list
      ensures (pid in procs <==> pid in old(procs)) && (pid in procs ==> procs[pid] == old(procs)[pid])
    {
      for i := 0 to |list|
        invariant Valid() && tokens == old(tokens) && old(used) <= used && old(loggedOut) <= loggedOut && old(now) <= now
        invariant View() == After(old(View()), list[..i]) && steps == old(steps) + list[..i]
        invariant (pid in procs <==> pid in old(procs)) && (pid in procs ==> procs[pid] == old(procs)[pid])
      {
        ForeignStep(View(), list[i], pid);
        StepOnlyAdds(View(), list[i]);
        AfterSnoc(old(View()), list[..i], list[i]);
        assert list[..i + 1] == list[..i] + [list[i]];
        Take(list[i]);
      }
      assert list[..|list|] == list;
    }

    /** The request's place in the code after an operation that has done its part on Redis and the tables. */
    method Note(pid: Pid, io: Io, sid: Sid, tokenValid: bool, before: State)
      requires before == After(Init(start), steps) && pid in before.procs
      requires before == View().(redis := before.redis, rows := before.rows, users := before.users)
      requires var s := Perform(before, before.procs[pid], io, sid, tokenValid).0; s.redis == redis && s.rows == rows && s.users == users
      modifies this`procs, this`used, this`loggedOut, this`unconfirmed, this`steps
      ensures Valid() && View() == Next(before, Go(pid, io, sid, tokenValid)) && steps == old(steps) + [Go(pid, io, sid, tokenValid)]
    {
      RunGoesOn(start, steps, before, Go(pid, io, sid, tokenValid));
      PerformKeepsClock(before, before.procs[pid], io, sid, tokenValid);
      var (s, p) := Perform(before, before.procs[pid], io, sid, tokenValid);
      procs, used, loggedOut, unconfirmed := procs[pid := p], s.used, s.loggedOut, s.unconfirmed;
      steps := steps + [Go(pid, io, sid, tokenValid)];
    }

    // ---------- Operations ----------

    /** INSERT ... ON CONFLICT DO NOTHING. */
    method UpsertUser(pid: Pid, io: Io)
      requires Valid() && pid in procs && procs[pid].InsertUser?
      modifies this
      ensures Valid() && View() == Next(old(View()), Go(pid, io, 0, false)) && old(steps) <= steps
    {
      var before, user := View(), procs[pid].user;
      if !io.Refused? && user !in users {
        users := users[user := Participant];
      }
      Note(pid, io, 0, false, before);
    }

    method CreateRedisSession(pid: Pid, sid: Sid, io: Io)
      requires Valid() && pid in procs && procs[pid].SetSession? && sid !in used
      modifies this
      ensures Valid() && View() == Next(old(View()), Go(pid, io, sid, false)) && old(steps) <= steps
    {
      var before, p := View(), procs[pid];
      if !io.Refused? {
        redis := redis[sid := Session(p.user, p.role, now + SESSION_TTL_SECONDS)];
      }
      Note(pid, io, sid, false, before);
    }

    method InsertSessionRow(pid: Pid, io: Io)
      requires Valid() && pid in procs && procs[pid].InsertRow?
      modifies this
      ensures Valid() && View() == Next(old(View()), Go(pid, io, 0, false)) && old(steps) <= steps
    {
      var before, p := View(), procs[pid];
      if !io.Refused? {
        rows := rows[p.sid := Row(p.user, false)];
      }
      Note(pid, io, 0, false, before);
    }

    /** DEL, by the compensation of a login or by a logout. */
    method DeleteRedisSession(pid: Pid, io: Io)
      requires Valid() && pid in procs && (procs[pid].Compensate? || procs[pid].DeleteSession?)
      modifies this
      ensures Valid() && View() == Next(old(View()), Go(pid, io, 0, false)) && old(steps) <= steps
    {
      var before, sid := View(), procs[pid].sid;
      if !io.Refused? {
        redis := redis - {sid};
      }
      Note(pid, io, 0, false, before);
    }

    method RevokeSessionRow(pid: Pid, io: Io)
      requires Valid() && pid in procs && procs[pid].RevokeRow?
      modifies this
      ensures Valid() && View() == Next(old(View()), Go(pid, io, 0, false)) && old(steps) <= steps
    {
      var before, sid := View(), procs[pid].sid;
      if !io.Refused? && sid in rows {
        rows := rows[sid := rows[sid].(revoked := true)];
      }
      Note(pid, io, 0, false, before);
    }

    predicate Usable(token: TokenHash, user: User)
      reads this
    {
      token in tokens && tokens[token].user == user && !tokens[token].verified && now < tokens[token].expiresAt
    }

    /** One transaction: consume the token, raise a participant, read the role. */
    method ConsumeEmailToken(pid: Pid, token: TokenHash, io: Io)
      requires Valid() && pid in procs && procs[pid].ConsumeToken?
      modifies this
      ensures Valid() && View() == Next(old(View()), Go(pid, io, 0, old(Usable(token, procs[pid].user)))) && old(steps) <= steps
      ensures tokens == (if !io.Refused? && old(Usable(token, procs[pid].user)) && old(procs[pid].user in users)
                         then old(tokens)[token := old(tokens)[token].(verified := true)] else old(tokens))
      ensures tokens != old(tokens) ==>
        var user := old(procs)[pid].user;
        user in users && users[user] == if old(users)[user] == Participant then Organizer else old(users)[user]
    {
      var before, user := View(), procs[pid].user;
      var usable := Usable(token, user);
      if !io.Refused? && usable && user in users {
        assert users[user := users[user]] == users;
        tokens := tokens[token := tokens[token].(verified := true)];
        if users[user] == Participant {
          users := users[user := Organizer];
        }
      }
      Note(pid, io, 0, usable, before);
    }

    /** The script keeps the time left and writes nothing for a key that is gone. */
    method RefreshSessionRole(pid: Pid, io: Io)
      requires Valid() && pid in procs && procs[pid].RefreshRole?
      modifies this
      ensures Valid() && View() == Next(old(View()), Go(pid, io, 0, false)) && tokens == old(tokens) && old(steps) <= steps
    {
      var before, p := View(), procs[pid];
      if !io.Refused? && p.sid in redis {
        var ttl := redis[p.sid].expiresAt - now;
        if ttl > 0 {
          redis := redis[p.sid := Session(redis[p.sid].user, p.role, now + ttl)];
        }
      }
      Note(pid, io, 0, false, before);
    }

    // ---------- Requests ----------

    /** What a login goes on with: the role stored now, or a participant's for a user it has created. */
    ghost predicate KnowsRole(pid: Pid, user: User, created: bool)
      reads this
    {
      && pid in procs && procs[pid].SetSession? && procs[pid].user == user && user in users
      && (procs[pid].role == users[user] || (created && procs[pid].role == Participant))
    }

    /** The user is stored, and the request is over or knows the user's role. */
    method Upsert(pid: Pid, io: Io)
      requires Valid() && pid in procs && procs[pid].InsertUser?
      modifies this
      ensures Valid() && old(steps) <= steps && now == old(now) && pid in procs
      ensures var user := old(procs)[pid].user;
        || At(pid, Finished) || (old(user in users) && At(pid, SelectUser(user))) || (old(user !in users) && At(pid, SetSession(user, Participant)))
      ensures !procs[pid].Finished? ==> old(procs)[pid].user in users
      ensures io.Done? ==> !procs[pid].Finished?
    {
      UpsertUser(pid, io);
    }

    method LookUp(pid: Pid, io: Io)
      requires Valid() && pid in procs && procs[pid].SelectUser?
      modifies this
      ensures Valid() && old(steps) <= steps && now == old(now) && users == old(users)
      ensures At(pid, Finished) || KnowsRole(pid, old(procs)[pid].user, false)
      ensures io.Done? && old(procs)[pid].user in users ==> !At(pid, Finished)
    {
      Take(Go(pid, io, 0, false));
    }

    lemma RolesSince(before: seq<Step>)
      requires Valid() && before <= steps
      ensures var s := After(Init(start), before);
        forall u :: u in s.users ==> u in users && Rank(s.users[u]) <= Rank(users[u])
    {
      assert steps == before + steps[|before|..];
      AfterJoined(Init(start), before, steps[|before|..]);
      RunKeepsInv(Init(start), before);
      RunGrows(After(Init(start), before), steps[|before|..]);
    }

    /** Looks the user up or creates it: the request is over, or knows the user's role, no lower than it was before. */
    method FindUser(pid: Pid, user: User, upsert: Io, select: Io, others: nat -> seq<Step>)
      requires Valid() && pid !in procs && AllForeign(others, pid)
      modifies this
      ensures Valid() && old(steps) <= steps && old(now) <= now && pid in procs
      ensures At(pid, Finished)
        || (procs[pid].SetSession? && procs[pid].user == user && (user in old(users) ==> Rank(old(users)[user]) <= Rank(procs[pid].role)))
      ensures upsert.Done? && select.Done? ==> !At(pid, Finished)
    {
      ghost var before := steps;
      Take(BeginLogin(pid, user));
      Others(pid, others(0));
      RolesSince(before);
      Upsert(pid, upsert);
      ghost var stored := steps;
      Others(pid, others(1));
      RolesSince(before);
      RolesSince(stored);
      if procs[pid].SelectUser? {
        LookUp(pid, select);
      }
    }

    /** A session identifier nobody has used yet is gone from Redis or noted as unconfirmed when the login fails. */
    ghost predicate CleanedUp(sid: Sid)
      reads this
    {
      sid !in redis || sid in unconfirmed
    }

    /** The session is there, up to a logout, and only this request is still creating it. */
    ghost predicate Kept(pid: Pid, sid: Sid, session: Session)
      reads this
    {
      SoleCreator(View(), pid, sid) && Lasts(View(), sid, session) && Grantable(session.role)
    }

    lemma OthersKeep(pid: Pid, sid: Sid, session: Session, list: seq<Step>)
      requires Valid() && Kept(pid, sid, session) && forall i :: 0 <= i < |list| ==> Foreign(list[i], pid)
      ensures SoleCreator(After(View(), list), pid, sid) && Lasts(After(View(), list), sid, session)
    {
      Reachable(start, steps);
      RunLasts(View(), list, pid, sid, session);
    }

    method FirstWrite(pid: Pid, sid: Sid, io: Io)
      requires Valid() && pid in procs && procs[pid].SetSession? && sid !in used
      modifies this
      ensures Valid() && pid in procs && old(steps) <= steps && now == old(now)
      ensures var p := old(procs)[pid];
        if io.Done? then At(pid, InsertRow(p.user, sid)) && Kept(pid, sid, Session(p.user, p.role, old(now) + SESSION_TTL_SECONDS))
        else At(pid, Finished) && CleanedUp(sid)
    {
      Reachable(start, steps);
      assert sid !in redis by { assert sid in redis ==> SessionOk(View(), sid); }
      assert forall q :: q in procs ==> ProcOk(View(), procs[q]);
      CreateRedisSession(pid, sid, io);
    }

    method SecondWrite(pid: Pid, io: Io, ghost session: Session)
      requires Valid() && pid in procs && procs[pid].InsertRow? && Kept(pid, procs[pid].sid, session)
      modifies this
      ensures Valid() && old(steps) <= steps && now == old(now)
      ensures var p := old(procs)[pid];
        if io.Done? then At(pid, Finished) && p.sid in rows && rows[p.sid] == Row(p.user, false) && Kept(pid, p.sid, session)
        else At(pid, Compensate(p.sid))
    {
      Reachable(start, steps);
      StepLasts(View(), Go(pid, io, 0, false), pid, procs[pid].sid, session);
      InsertSessionRow(pid, io);
    }

    method Undo(pid: Pid, io: Io)
      requires Valid() && pid in procs && procs[pid].Compensate?
      modifies this
      ensures Valid() && At(pid, Finished) && CleanedUp(old(procs)[pid].sid) && old(steps) <= steps && now == old(now)
    {
      DeleteRedisSession(pid, io);
    }

    /** Logged in: the row is there, and until a logout so is the session, finished, for this user and until this instant. */
    ghost predicate Established(sid: Sid, user: User, role: Role, expiresAt: int)
      reads this
    {
      && sid in rows && rows[sid] == Row(user, false)
      && !InFlight(View(), sid) && Lasts(View(), sid, Session(user, role, expiresAt))
    }

    /** Redis first, then the row, and a compensating delete when the row fails. A login that succeeds has established a session
        of the role it looked up, for thirty days. */
    method CreateSession(pid: Pid, sid: Sid, setex: Io, insert: Io, del: Io, others: nat -> seq<Step>) returns (r: LoginResult)
      requires Valid() && pid in procs && procs[pid].SetSession? && sid !in used && AllForeign(others, pid)
      modifies this
      ensures Valid() && At(pid, Finished) && old(steps) <= steps && old(now) <= now
      ensures r == if setex.Done? && insert.Done? then LoggedIn else LoginFailed
      ensures if r.LoggedIn? then Established(sid, old(procs)[pid].user, old(procs)[pid].role, old(now) + 2592000) else CleanedUp(sid)
    {
      ghost var session := Session(procs[pid].user, procs[pid].role, now + SESSION_TTL_SECONDS);
      FirstWrite(pid, sid, setex);
      if !setex.Done? {
        return LoginFailed;
      }
      OthersKeep(pid, sid, session, others(0));
      Others(pid, others(0));
      SecondWrite(pid, insert, session);
      if insert.Done? {
        SoleFinished(View(), pid, sid);
        return LoggedIn;
      }
      Others(pid, others(1));
      Undo(pid, del);
      r := LoginFailed;
    }

    /** One whole login. `generate` stands for the random identifier: it answers one that is not in use. A login that succeeds has
        established a session of a role no lower than the user had, expiring thirty days after some instant of the request. */
    method VerifyOtpAndCreateSession(pid: Pid, user: User, upsert: Io, select: Io, setex: Io, insert: Io, del: Io,
                                     generate: set<Sid> -> Sid, others: nat -> nat -> seq<Step>)
      returns (r: LoginResult, sid: Option<Sid>, ghost role: Role, ghost expiresAt: int)
      requires Valid() && pid !in procs && (forall k :: AllForeign(others(k), pid)) && forall taken :: generate(taken) !in taken
      modifies this
      ensures Valid() && At(pid, Finished)
      ensures r.LoggedIn? ==>
        && sid.Some? && Established(sid.value, user, role, expiresAt) && old(now) + 2592000 <= expiresAt <= now + 2592000
        && (user in old(users) ==> Rank(old(users)[user]) <= Rank(role))
      ensures r.LoginFailed? && sid.Some? ==> CleanedUp(sid.value)
      ensures upsert.Done? && select.Done? && setex.Done? && insert.Done? ==> r.LoggedIn?
    {
      FindUser(pid, user, upsert, select, others(0));
      if procs[pid].Finished? {
        return LoginFailed, None, Public, 0;
      }
      Others(pid, others(1)(0));
      var id := generate(used);
      sid, role, expiresAt := Some(id), procs[pid].role, now + 2592000;
      r := CreateSession(pid, id, setex, insert, del, others(2));
    }

    method DeleteFirst(pid: Pid, io: Io)
      requires Valid() && pid in procs && procs[pid].DeleteSession?
      modifies this
      ensures Valid() && var sid := old(procs)[pid].sid;
        if io.Done? then At(pid, RevokeRow(sid)) && sid in loggedOut else At(pid, Finished)
    {
      DeleteRedisSession(pid, io);
    }

    method RevokeLast(pid: Pid, io: Io)
      requires Valid() && pid in procs && procs[pid].RevokeRow?
      modifies this
      ensures Valid() && At(pid, Finished) && old(loggedOut) <= loggedOut
      ensures var sid := old(procs)[pid].sid; !io.Refused? && sid in rows ==> rows[sid].revoked
    {
      RevokeSessionRow(pid, io);
    }

    /** Redis first; a failed revocation of the row is ignored. A logout that reports success has ended the session: it is not
        readable, and by the protocol never will be again, whatever refreshes were under way. */
    method LogoutSession(pid: Pid, sid: Sid, del: Io, revoke: Io, others: nat -> seq<Step>) returns (ok: bool)
      requires Valid() && pid !in procs && AllForeign(others, pid)
      modifies this
      ensures Valid() && At(pid, Finished)
      ensures ok <==> del.Done?
      ensures ok ==> sid in loggedOut && Readable(View(), sid).None?
      ensures ok && !revoke.Refused? && sid in rows ==> rows[sid].revoked
      ensures ok ==> forall later :: Readable(After(View(), later), sid).None?
    {
      Take(BeginLogout(pid, sid));
      Others(pid, others(0));
      DeleteFirst(pid, del);
      ok := del.Done?;
      if ok {
        Others(pid, others(1));
        RevokeLast(pid, revoke);
        forall later ensures Readable(After(View(), later), sid).None? {
          LoggedOutForGood(start, steps, later, sid);
        }
        assert After(View(), []) == View();
      }
    }

    /** The transaction's outcome: the token is spent on its user, who has the role answered. */
    ghost predicate Spent(token: TokenHash, user: User, role: Role)
      reads this
    {
      token in tokens && tokens[token].verified && tokens[token].user == user && user in users && users[user] == role
    }

    method ConsumeFirst(pid: Pid, token: TokenHash, io: Io) returns (r: VerifyResult)
      requires Valid() && pid in procs && procs[pid].ConsumeToken?
      modifies this
      ensures Valid() && old(steps) <= steps
      ensures if r.Verified? then At(pid, RefreshRole(old(procs)[pid].sid, r.role)) else At(pid, Finished)
      ensures tokens == old(tokens) || (token in old(tokens) && !old(tokens)[token].verified
                                        && tokens == old(tokens)[token := old(tokens)[token].(verified := true)])
      ensures r.Verified? ==> r.role == Organizer && tokens != old(tokens) && Spent(token, old(procs)[pid].user, Organizer)
      ensures io.Done? && old(Usable(token, procs[pid].user)) && old(procs[pid].user in users) ==> r.Verified?
      ensures now == old(now)
    {
      Reachable(start, steps);
      ConsumeEmailToken(pid, token, io);
      r := if procs[pid].RefreshRole? then Verified(procs[pid].role) else NotVerified;
      assert r.Verified? ==> token in tokens && tokens[token].verified && token in old(tokens) && !old(tokens)[token].verified;
    }

    method RefreshLast(pid: Pid, io: Io)
      requires Valid() && pid in procs && procs[pid].RefreshRole?
      modifies this
      ensures Valid() && At(pid, Finished) && tokens == old(tokens) && old(steps) <= steps && now == old(now)
      ensures var p := old(procs)[pid];
        !io.Refused? && Readable(View(), p.sid).Some? ==> Readable(View(), p.sid).value.role == p.role
    {
      RefreshSessionRole(pid, io);
    }

    lemma StillOrganizer(before: seq<Step>, user: User)
      requires Valid() && before <= steps
      requires var s := After(Init(start), before); user in s.users && s.users[user] == Organizer
      ensures user in users && users[user] == Organizer
    {
      assert steps == before + steps[|before|..];
      AfterJoined(Init(start), before, steps[|before|..]);
      OrganizerForGood(start, before, steps[|before|..], user);
    }

    /** A session that was there is the same but for its role. */
    lemma SameSession(before: seq<Step>, sid: Sid)
      requires Valid() && before <= steps && sid in After(Init(start), before).redis
      ensures sid in redis ==> redis[sid] == After(Init(start), before).redis[sid].(role := redis[sid].role)
    {
      assert steps == before + steps[|before|..];
      AfterJoined(Init(start), before, steps[|before|..]);
      Reachable(start, before);
      assert SessionOk(After(Init(start), before), sid);
      if sid in redis { RunKeepsExpiry(After(Init(start), before), steps[|before|..], sid); }
    }

    method BeginVerification(pid: Pid, sid: Sid)
      requires Valid() && pid !in procs
      modifies this
      ensures Valid() && old(steps) <= steps && tokens == old(tokens) && now == old(now)
      ensures pid in procs <==> old(Readable(View(), sid)).Some?
      ensures pid in procs ==> old(redis)[sid].user in users
      ensures pid in procs ==> sid in old(redis) && At(pid, ConsumeToken(old(redis)[sid].user, sid))
    {
      Reachable(start, steps);
      assert sid in redis ==> SessionOk(View(), sid);
      Take(BeginVerify(pid, sid));
    }

    method TakeToken(pid: Pid, token: TokenHash, io: Io, list: seq<Step>) returns (r: VerifyResult)
      requires Valid() && pid in procs && procs[pid].ConsumeToken? && procs[pid].user in users
      requires forall i :: 0 <= i < |list| ==> Foreign(list[i], pid)
      modifies this
      ensures Valid() && old(steps) <= steps && old(now) <= now
      ensures if r.Verified? then At(pid, RefreshRole(old(procs)[pid].sid, r.role)) else At(pid, Finished)
      ensures tokens == old(tokens) || (token in old(tokens) && !old(tokens)[token].verified
                                        && tokens == old(tokens)[token := old(tokens)[token].(verified := true)])
      ensures r.Verified? ==> r.role == Organizer && tokens != old(tokens) && Spent(token, old(procs)[pid].user, Organizer)
      ensures io.Done? && old(Usable(token, procs[pid].user)) && now < old(tokens)[token].expiresAt ==> r.Verified?
    {
      ghost var before := steps;
      Others(pid, list);
      RolesSince(before);
      r := ConsumeFirst(pid, token, io);
    }

    /** One email verification: the session names the user, the token is consumed at most once, and a user whose verification
        succeeds is an organizer. Once the refresh has been applied, a session still readable says so too, as long as before. */
    method VerifyEmailToken(pid: Pid, token: TokenHash, sid: Sid, consume: Io, refresh: Io, others: nat -> seq<Step>)
      returns (r: VerifyResult)
      requires Valid() && pid !in procs && AllForeign(others, pid)
      modifies this
      ensures Valid() && (pid !in procs || At(pid, Finished))
      ensures tokens == old(tokens) || (token in old(tokens) && !old(tokens)[token].verified
                                        && tokens == old(tokens)[token := old(tokens)[token].(verified := true)])
      ensures r.Verified? ==>
        && r.role == Organizer && tokens != old(tokens) && sid in old(redis) && Spent(token, old(redis)[sid].user, Organizer)
        && (!refresh.Refused? && Readable(View(), sid).Some? ==> Readable(View(), sid) == Some(old(redis)[sid].(role := Organizer)))
      ensures consume.Done? && old(Readable(View(), sid)).Some? && old(Usable(token, redis[sid].user)) && now < old(tokens)[token].expiresAt
        ==> r.Verified?
    {
      ghost var before := steps;
      BeginVerification(pid, sid);
      if pid !in procs {
        return NotVerified;
      }
      r := TakeToken(pid, token, consume, others(0));
      if r.Verified? {
        FinishVerification(pid, token, sid, refresh, others(1));
        SameSession(before, sid);
      }
    }

    method FinishVerification(pid: Pid, ghost token: TokenHash, ghost sid: Sid, refresh: Io, list: seq<Step>)
      requires Valid() && At(pid, RefreshRole(sid, Organizer)) && forall i :: 0 <= i < |list| ==> Foreign(list[i], pid)
      requires token in tokens && Spent(token, tokens[token].user, Organizer)
      modifies this
      ensures Valid() && At(pid, Finished) && tokens == old(tokens) && old(steps) <= steps && old(now) <= now
      ensures Spent(token, tokens[token].user, Organizer)
      ensures !refresh.Refused? && Readable(View(), sid).Some? ==> Readable(View(), sid).value.role == Organizer
    {
      ghost var before := steps;
      Others(pid, list);
      RefreshLast(pid, refresh);
      StillOrganizer(before, tokens[token].user);
    }
  }
}
