/** The single-flight cache protocol (apps/api/src/lib/cache-stampede.ts) as interleaved steps of
    any number of callers over one cache key and its lock, with a clock in milliseconds.
    The sitemap worker (apps/api/src/queues/sitemap-regen.ts) is a caller that never locks. */
module SingleFlight {
  import opened Options

  type Caller = int

  datatype Config = Config(lockTtlMs: nat, lockTimeoutMs: nat, ttlMs: nat, isSitemapKey: bool)

  /** A producer result: who produced it, and how many database commits its oldest read had seen. */
  datatype Value = Value(producer: Caller, version: nat)
  /** What GET can see: a stored result, or a hand-edited payload that does not parse. */
  datatype Raw = Json(value: Value) | Garbage
  datatype Entry = Entry(raw: Raw, expiresAt: int)
  /** The caller's random token is modelled by the caller itself. */
  datatype Lock = Lock(token: Caller, expiresAt: int)

  datatype Outcome = Own(value: Value) | FromCache(value: Value) | Failed

  datatype Phase =
    | Reading
    | Locking
    | Acquired(since: int)
    | Leading(since: int, startedAt: int, oldestRead: Option<nat>)
    | Writing(since: int, startedAt: int, value: Value)
    | Releasing(since: int, outcome: Outcome)
    | Polling(deadline: int, firstPass: bool)
    | Alone(oldestRead: Option<nat>)
    | Done(outcome: Outcome)
    | WorkerRunning(startedAt: int, oldestRead: Option<nat>)
    | WorkerDone(written: Option<Value>)

  /** `acquired` remembers every caller that was told its SET NX succeeded; `commits` the time of every database commit. */
  datatype State = State(now: int, cache: Option<Entry>, lock: Option<Lock>, callers: map<Caller, Phase>,
                         acquired: set<Caller>, commits: seq<int>)

  /** Up: the command ran. Down: it failed and did nothing. LostReply: it ran but the caller saw an error. */
  datatype Redis = Up | Down | LostReply

  datatype Act = Get(redis: Redis) | TryLock(redis: Redis) | Start | Read | Produce(ok: bool)
    | Write(redis: Redis) | Release(redis: Redis) | Poll(redis: Redis) | GiveUp

  datatype Step =
    | Tick(ms: nat)
    | Commit
    | Invalidate(redis: Redis)
    | HandEdit(expiresAt: int)
    | Arrive(who: Caller)
    | WorkerArrive(who: Caller)
    | Call(who: Caller, act: Act)

  function Visible(s: State): Option<Raw> {
    if s.cache.Some? && s.now < s.cache.value.expiresAt then Some(s.cache.value.raw) else None
  }

  function LiveLock(s: State): Option<Caller> {
    if s.lock.Some? && s.now < s.lock.value.expiresAt then Some(s.lock.value.token) else None
  }

  function SetEx(cfg: Config, s: State, v: Value): Option<Entry> {
    Some(Entry(Json(v), s.now + cfg.ttlMs))
  }

  datatype Effect = Effect(phase: Phase, cache: Option<Entry>, lock: Option<Lock>, acquires: bool)

  function Move(s: State, p: Phase): Effect {
    Effect(p, s.cache, s.lock, false)
  }

  /** One action of one caller; an action its phase does not allow changes nothing. */
  function React(cfg: Config, s: State, c: Caller, p: Phase, act: Act): Effect {
    match (p, act)
    case (Reading, Get(redis)) =>
      if !redis.Up? then Move(s, Alone(None))
      else if Visible(s).Some? && Visible(s).value.Json? then Move(s, Done(FromCache(Visible(s).value.value)))
      else Move(s, Locking)
    case (Locking, TryLock(redis)) =>
      var free := LiveLock(s).None?;
      var lock' := if free && !redis.Down? then Some(Lock(c, s.now + cfg.lockTtlMs)) else s.lock;
      if !redis.Up? then Effect(Alone(None), s.cache, lock', false)
      else if free then Effect(Acquired(s.now), s.cache, lock', true)
      else Move(s, Polling(s.now + cfg.lockTimeoutMs, true))
    case (Acquired(since), Start) => Move(s, Leading(since, s.now, None))
    case (Leading(since, startedAt, None), Read) => Move(s, Leading(since, startedAt, Some(|s.commits|)))
    case (Leading(since, startedAt, oldest), Produce(ok)) =>
      if !ok then Move(s, Releasing(since, Failed))
      else if oldest.Some? then Move(s, Writing(since, startedAt, Value(c, oldest.value)))
      else Move(s, p)
    case (Writing(since, _, v), Write(redis)) =>
      Effect(Releasing(since, Own(v)), if redis.Down? then s.cache else SetEx(cfg, s, v), s.lock, false)
    case (Releasing(_, outcome), Release(redis)) =>
      Effect(Done(outcome), s.cache, if !redis.Down? && LiveLock(s) == Some(c) then None else s.lock, false)
    case (Polling(deadline, _), Poll(redis)) =>
      if !redis.Up? then Move(s, Alone(None))
      else if Visible(s).Some? then
        (match Visible(s).value case Json(v) => Move(s, Done(FromCache(v))) case Garbage => Move(s, Alone(None)))
      else Move(s, Polling(deadline, false))
    case (Polling(deadline, firstPass), GiveUp) =>
      if !firstPass && s.now >= deadline then Move(s, Alone(None)) else Move(s, p)
    case (Alone(None), Read) => Move(s, Alone(Some(|s.commits|)))
    case (Alone(oldest), Produce(ok)) =>
      if !ok then Move(s, Done(Failed))
      else if oldest.Some? then Move(s, Done(Own(Value(c, oldest.value))))
      else Move(s, p)
    case (WorkerRunning(startedAt, None), Read) => Move(s, WorkerRunning(startedAt, Some(|s.commits|)))
    case (WorkerRunning(startedAt, oldest), Produce(ok)) =>
      if !ok then Move(s, WorkerDone(None)) else Move(s, p)
    case (WorkerRunning(_, Some(k)), Write(redis)) =>
      if redis.Down? then Move(s, WorkerDone(None))
      else Effect(WorkerDone(Some(Value(c, k))), SetEx(cfg, s, Value(c, k)), s.lock, false)
    case _ => Move(s, p)
  }

  function Next(cfg: Config, s: State, step: Step): State {
    match step
    case Tick(ms) => s.(now := s.now + ms)
    case Commit => s.(commits := s.commits + [s.now])
    case Invalidate(redis) => if redis.Down? then s else s.(cache := None)
    case HandEdit(expiresAt) => s.(cache := Some(Entry(Garbage, expiresAt)))
    case Arrive(c) => if c in s.callers then s else s.(callers := s.callers[c := Reading])
    case WorkerArrive(c) =>
      if c in s.callers || !cfg.isSitemapKey then s else s.(callers := s.callers[c := WorkerRunning(s.now, None)])
    case Call(c, act) =>
      if c !in s.callers then s
      else
        var e := React(cfg, s, c, s.callers[c], act);
        s.(callers := s.callers[c := e.phase], cache := e.cache, lock := e.lock,
           acquired := if e.acquires then s.acquired + {c} else s.acquired)
  }

  function Init(now: int): State {
    State(now, None, None, map[], {}, [])
  }

  ghost predicate IsRun(cfg: Config, run: seq<State>) {
    && run != [] && run[0] == Init(run[0].now)
    && forall i, j {:trigger IsStep(cfg, run[i], run[j])} :: 0 <= i < |run| && j == i + 1 < |run| ==> IsStep(cfg, run[i], run[j])
  }

  ghost predicate IsStep(cfg: Config, s: State, s': State) {
    exists step :: s' == Next(cfg, s, step)
  }

  // ---------- Locks ----------

  /** Compare-and-delete: a live lock leaves Redis only through its own holder's release. */
  lemma OnlyHolderReleases(cfg: Config, s: State, step: Step, holder: Caller)
    requires LiveLock(s) == Some(holder)
    ensures var s' := Next(cfg, s, step);
      s'.lock != s.lock ==> step.Call? && step.who == holder && step.act.Release? && s'.lock == None
  {
  }

  // ---------- What may be in the cache ----------

  ghost predicate WroteIt(s: State, v: Value) {
    v.producer in s.callers &&
    match s.callers[v.producer]
    case Releasing(_, outcome) => outcome == Own(v) && v.producer in s.acquired
    case Done(outcome) => outcome == Own(v) && v.producer in s.acquired
    case WorkerDone(written) => written == Some(v)
    case _ => false
  }

  ghost predicate InSection(s: State, c: Caller) {
    c in s.callers && (s.callers[c].Acquired? || s.callers[c].Leading? || s.callers[c].Writing? || s.callers[c].Releasing?)
  }

  ghost predicate PhaseOk(cfg: Config, s: State, c: Caller, p: Phase) {
    && (p.Acquired? || p.Leading? || p.Writing? || p.Releasing? ==> c in s.acquired)
    && (p.Writing? ==> p.value.producer == c)
    && (p.Releasing? && p.outcome.Own? ==> p.outcome.value.producer == c)
    && (p.Releasing? ==> !p.outcome.FromCache?)
    && (p.Done? && p.outcome.Own? ==> p.outcome.value.producer == c)
    && (p.WorkerRunning? || p.WorkerDone? ==> cfg.isSitemapKey)
  }

  ghost predicate Provenance(cfg: Config, s: State) {
    && (forall c :: c in s.callers ==> PhaseOk(cfg, s, c, s.callers[c]))
    && (s.cache.Some? && s.cache.value.raw.Json? ==> WroteIt(s, s.cache.value.raw.value))
  }

  lemma ReactPhaseOk(cfg: Config, s: State, c: Caller, act: Act)
    requires Provenance(cfg, s) && c in s.callers
    ensures PhaseOk(cfg, Next(cfg, s, Call(c, act)), c, React(cfg, s, c, s.callers[c], act).phase)
  {
    assert PhaseOk(cfg, s, c, s.callers[c]);
  }

  lemma ReactCache(cfg: Config, s: State, c: Caller, act: Act, v: Value)
    requires Provenance(cfg, s) && c in s.callers
    requires var e := React(cfg, s, c, s.callers[c], act); e.cache.Some? && e.cache.value.raw == Json(v)
    ensures WroteIt(Next(cfg, s, Call(c, act)), v)
  {
    assert PhaseOk(cfg, s, c, s.callers[c]);
  }

  lemma StepProvenance(cfg: Config, s: State, step: Step)
    requires Provenance(cfg, s)
    ensures Provenance(cfg, Next(cfg, s, step))
  {
    var s' := Next(cfg, s, step);
    match step
    case Call(c, act) =>
      if c in s.callers {
        ReactPhaseOk(cfg, s, c, act);
        forall d | d in s'.callers ensures PhaseOk(cfg, s', d, s'.callers[d]) {
          if d != c { assert PhaseOk(cfg, s, d, s.callers[d]); }
        }
        if s'.cache.Some? && s'.cache.value.raw.Json? {
          ReactCache(cfg, s, c, act, s'.cache.value.raw.value);
        }
      }
    case _ =>
      forall d | d in s'.callers ensures PhaseOk(cfg, s', d, s'.callers[d]) {
        if d in s.callers { assert PhaseOk(cfg, s, d, s.callers[d]); }
      }
  }

  lemma {:induction false} RunProvenance(cfg: Config, run: seq<State>, i: nat)
    requires IsRun(cfg, run) && i < |run|
    ensures Provenance(cfg, run[i])
  {
    if i > 0 {
      RunProvenance(cfg, run, i - 1);
      assert IsStep(cfg, run[i - 1], run[i]);
      var step :| run[i] == Next(cfg, run[i - 1], step);
      StepProvenance(cfg, run[i - 1], step);
    }
  }

  /** In every run, a cached value was written by a caller that had acquired the lock and that returns this
      very value itself (so never by a failed producer, a follower or a fail-open caller), or by the worker on its key. */
  lemma CachedValueIsALeadersResult(cfg: Config, run: seq<State>, i: nat, v: Value)
    requires IsRun(cfg, run) && i < |run| && Visible(run[i]) == Some(Json(v))
    ensures v.producer in run[i].callers
    ensures var p := run[i].callers[v.producer];
      || ((p.Done? || p.Releasing?) && p.outcome == Own(v) && v.producer in run[i].acquired)
      || (cfg.isSitemapKey && p == WorkerDone(Some(v)))
  {
    RunProvenance(cfg, run, i);
    assert PhaseOk(cfg, run[i], v.producer, run[i].callers[v.producer]);
  }

  lemma {:induction false} AcquiredAreCallers(cfg: Config, run: seq<State>, i: nat)
    requires IsRun(cfg, run) && i < |run|
    ensures run[i].acquired <= run[i].callers.Keys
  {
    if i > 0 {
      AcquiredAreCallers(cfg, run, i - 1);
      assert IsStep(cfg, run[i - 1], run[i]);
    }
  }

  // ---------- What a caller may return ----------

  ghost predicate Active(s: State, c: Caller) {
    c in s.callers && !s.callers[c].Done?
  }

  ghost predicate SawInCache(run: seq<State>, c: Caller, v: Value, upTo: nat)
    requires upTo <= |run|
  {
    exists k :: 0 <= k < upTo && Active(run[k], c) && Visible(run[k]) == Some(Json(v))
  }

  lemma StepToFromCache(cfg: Config, s: State, step: Step, c: Caller, v: Value)
    requires var s' := Next(cfg, s, step); c in s'.callers && s'.callers[c] == Done(FromCache(v))
    requires Provenance(cfg, s)
    ensures (c in s.callers && s.callers[c] == Done(FromCache(v))) || (Active(s, c) && Visible(s) == Some(Json(v)))
  {
    if c in s.callers { assert PhaseOk(cfg, s, c, s.callers[c]); }
  }

  /** Every returned value is the caller's own producer's result, or was readable in the cache during the call. */
  lemma {:induction false} ReturnedValueIsOwnOrCached(cfg: Config, run: seq<State>, i: nat, c: Caller)
    requires IsRun(cfg, run) && i < |run| && c in run[i].callers && run[i].callers[c].Done?
    ensures match run[i].callers[c].outcome
      case Own(v) => v.producer == c
      case FromCache(v) => SawInCache(run, c, v, i)
      case Failed => true
  {
    RunProvenance(cfg, run, i);
    assert PhaseOk(cfg, run[i], c, run[i].callers[c]);
    if run[i].callers[c].outcome.FromCache? {
      var v := run[i].callers[c].outcome.value;
      assert i > 0;
      assert IsStep(cfg, run[i - 1], run[i]);
      var step :| run[i] == Next(cfg, run[i - 1], step);
      RunProvenance(cfg, run, i - 1);
      StepToFromCache(cfg, run[i - 1], step, c, v);
      if c in run[i - 1].callers && run[i - 1].callers[c] == Done(FromCache(v)) {
        ReturnedValueIsOwnOrCached(cfg, run, i - 1, c);
        var k :| 0 <= k < i - 1 && Active(run[k], c) && Visible(run[k]) == Some(Json(v));
        assert Active(run[k], c);
      } else {
        assert Active(run[i - 1], c);
      }
    }
  }

  // ---------- Mutual exclusion ----------

  ghost predicate Punctual(cfg: Config, s: State) {
    forall c :: InSection(s, c) ==> s.now < s.callers[c].since + cfg.lockTtlMs
  }

  ghost predicate LeaderHoldsLock(cfg: Config, s: State) {
    forall c :: InSection(s, c) ==> s.lock == Some(Lock(c, s.callers[c].since + cfg.lockTtlMs))
  }

  lemma StepLeaderHoldsLock(cfg: Config, s: State, step: Step)
    requires LeaderHoldsLock(cfg, s) && Punctual(cfg, s)
    ensures LeaderHoldsLock(cfg, Next(cfg, s, step))
  {
    var s' := Next(cfg, s, step);
    forall d | InSection(s', d) ensures s'.lock == Some(Lock(d, s'.callers[d].since + cfg.lockTtlMs)) {
      assert InSection(s, d) ==> s.now < s.callers[d].since + cfg.lockTtlMs;
      if step.Call? && InSection(s, step.who) { assert s.lock.value.token == step.who; }
    }
  }

  lemma {:induction false} RunLeaderHoldsLock(cfg: Config, run: seq<State>, i: nat)
    requires IsRun(cfg, run) && i < |run|
    requires forall k :: 0 <= k < i ==> Punctual(cfg, run[k])
    ensures LeaderHoldsLock(cfg, run[i])
  {
    if i > 0 {
      RunLeaderHoldsLock(cfg, run, i - 1);
      assert IsStep(cfg, run[i - 1], run[i]);
      var step :| run[i] == Next(cfg, run[i - 1], step);
      StepLeaderHoldsLock(cfg, run[i - 1], step);
    }
  }

  /** If every leader leaves its section within lockTtlMs of acquiring, at most one caller is in it at a time. */
  lemma AtMostOneLeader(cfg: Config, run: seq<State>, i: nat, a: Caller, b: Caller)
    requires IsRun(cfg, run) && i < |run|
    requires forall k :: 0 <= k < i ==> Punctual(cfg, run[k])
    requires InSection(run[i], a) && InSection(run[i], b)
    ensures a == b
  {
    RunLeaderHoldsLock(cfg, run, i);
  }

  /** A caller arrives, misses the cache and tries the lock. */
  function ArriveAndTry(cfg: Config, s: State, c: Caller): State {
    Next(cfg, Next(cfg, Next(cfg, s, Arrive(c)), Call(c, Get(Up))), Call(c, TryLock(Up)))
  }

  lemma TriesAndAcquires(cfg: Config, s: State, c: Caller)
    requires c !in s.callers && Visible(s).None? && LiveLock(s).None?
    ensures var s' := ArriveAndTry(cfg, s, c);
      s'.callers == s.callers[c := Acquired(s.now)] && s'.now == s.now && s'.cache == s.cache
      && s'.lock == Some(Lock(c, s.now + cfg.lockTtlMs))
  {
    var s1 := Next(cfg, s, Arrive(c));
    var s2 := Next(cfg, s1, Call(c, Get(Up)));
    assert s2.callers[c] == Locking && LiveLock(s2).None?;
  }

  ghost predicate IsLate(cfg: Config, s: State, a: Caller)
    requires InSection(s, a)
  {
    s.now >= s.callers[a].since + cfg.lockTtlMs
  }

  lemma TryLockIffLate(cfg: Config, s: State, a: Caller, b: Caller)
    requires LeaderHoldsLock(cfg, s) && InSection(s, a) && b in s.callers && s.callers[b] == Locking
    ensures var s' := Next(cfg, s, Call(b, TryLock(Up))); InSection(s', a) && (InSection(s', b) <==> IsLate(cfg, s, a))
  {
  }

  /** The exact condition, over runs: in a run whose leaders have been punctual so far, a caller about to try the lock joins
      the leader in its section exactly when the leader is late by now. */
  lemma OverlapIffLate(cfg: Config, run: seq<State>, i: nat, a: Caller, b: Caller)
    requires IsRun(cfg, run) && i < |run|
    requires forall k :: 0 <= k < i ==> Punctual(cfg, run[k])
    requires InSection(run[i], a) && b in run[i].callers && run[i].callers[b] == Locking
    ensures var s' := Next(cfg, run[i], Call(b, TryLock(Up))); InSection(s', a) && (InSection(s', b) <==> IsLate(cfg, run[i], a))
  {
    RunLeaderHoldsLock(cfg, run, i);
    TryLockIffLate(cfg, run[i], a, b);
  }

  lemma ArrivesAtLock(cfg: Config, s: State, c: Caller)
    requires c !in s.callers && Visible(s).None?
    ensures var s' := Next(cfg, Next(cfg, s, Arrive(c)), Call(c, Get(Up))); s' == s.(callers := s.callers[c := Locking])
  {
    var s1 := Next(cfg, s, Arrive(c));
    assert s1.callers[c] == Reading;
    assert s1.callers[c := Locking] == s.callers[c := Locking];
  }

  /** And the condition is about every such state, not only about callers already waiting: once the key has been invalidated,
      a caller that arrives now joins the leader exactly when the leader is late. */
  lemma NewcomerOverlapsIffLate(cfg: Config, run: seq<State>, i: nat, a: Caller, b: Caller)
    requires IsRun(cfg, run) && i < |run|
    requires forall k :: 0 <= k < i ==> Punctual(cfg, run[k])
    requires InSection(run[i], a) && b !in run[i].callers
    ensures var s' := ArriveAndTry(cfg, Next(cfg, run[i], Invalidate(Up)), b);
      InSection(s', a) && (InSection(s', b) <==> IsLate(cfg, run[i], a))
  {
    RunLeaderHoldsLock(cfg, run, i);
    var s := Next(cfg, run[i], Invalidate(Up));
    ArrivesAtLock(cfg, s, b);
    var s2 := s.(callers := s.callers[b := Locking]);
    forall c | InSection(s2, c) ensures s2.lock == Some(Lock(c, s2.callers[c].since + cfg.lockTtlMs)) {
      assert InSection(run[i], c);
    }
    TryLockIffLate(cfg, s2, a, b);
  }

  /** Such a late leader is reachable, for every lock time: a second caller arrives exactly when the lock has run out. */
  lemma LateLeaderOverlaps(cfg: Config, now: int, a: Caller, b: Caller)
    requires a != b
    ensures var s := ArriveAndTry(cfg, Next(cfg, ArriveAndTry(cfg, Init(now), a), Tick(cfg.lockTtlMs)), b);
      InSection(s, a) && InSection(s, b)
  {
    TriesAndAcquires(cfg, Init(now), a);
    TriesAndAcquires(cfg, Next(cfg, ArriveAndTry(cfg, Init(now), a), Tick(cfg.lockTtlMs)), b);
  }

  /** A release that is carried out gives a live lock of one's own away: whoever tries next has it. */
  lemma ReleaseHandsOver(cfg: Config, s: State, a: Caller, b: Caller, redis: Redis)
    requires a in s.callers && s.callers[a].Releasing? && LiveLock(s) == Some(a) && !redis.Down?
    requires b in s.callers && s.callers[b] == Locking
    ensures var s' := Next(cfg, Next(cfg, s, Call(a, Release(redis))), Call(b, TryLock(Up)));
      s'.callers[a] == Done(s.callers[a].outcome) && s'.callers[b] == Acquired(s.now) && s'.lock == Some(Lock(b, s.now + cfg.lockTtlMs))
  {
  }

  /** A caller leaves the cache aside only when Redis failed, an entry did not parse, or it has waited its time. */
  lemma WhyAlone(cfg: Config, s: State, step: Step, c: Caller)
    requires c in s.callers && !s.callers[c].Alone? && Next(cfg, s, step).callers[c].Alone?
    ensures step.Call? && step.who == c
    ensures match (s.callers[c], step.act)
      case (Reading, Get(redis)) => !redis.Up?
      case (Locking, TryLock(redis)) => !redis.Up?
      case (Polling(_, _), Poll(redis)) => !redis.Up? || Visible(s) == Some(Garbage)
      case (Polling(deadline, firstPass), GiveUp) => !firstPass && deadline <= s.now
      case _ => false
  {
  }

  /** The sitemap worker: arrives on its key, reads, and writes without the lock; a failure writes nothing. */
  lemma WorkerWrites(cfg: Config, s: State, c: Caller)
    requires cfg.isSitemapKey && c !in s.callers
    ensures var s' := Next(cfg, Next(cfg, s, WorkerArrive(c)), Call(c, Read)); var v := Value(c, |s.commits|);
      && s'.callers == s.callers[c := WorkerRunning(s.now, Some(|s.commits|))] && ToWrite(s'.callers[c], c) == Some(v)
      && Next(cfg, s', Call(c, Write(Up))) == s'.(callers := s'.callers[c := WorkerDone(Some(v))], cache := Some(Entry(Json(v), s.now + cfg.ttlMs)))
      && Next(cfg, s', Call(c, Produce(true))).callers == s'.callers
      && Next(cfg, s', Call(c, Produce(false))).callers[c] == WorkerDone(None)
  {
    var s1 := Next(cfg, s, WorkerArrive(c));
    assert s1.callers[c] == WorkerRunning(s.now, None);
    var s2 := Next(cfg, s1, Call(c, Read));
    assert s2.callers[c] == WorkerRunning(s.now, Some(|s.commits|));
    assert s1.callers[c := WorkerRunning(s.now, Some(|s.commits|))] == s.callers[c := WorkerRunning(s.now, Some(|s.commits|))];
    assert s2.callers[c := s2.callers[c]] == s2.callers;
  }

  // ---------- A written value is read ----------

  function After(cfg: Config, s: State, steps: seq<Step>): State
    decreases |steps|
  {
    if steps == [] then s else After(cfg, Next(cfg, s, steps[0]), steps[1..])
  }

  /** A step that writes or deletes no cache entry. */
  predicate Quiet(step: Step) {
    match step
    case Invalidate(redis) => redis.Down?
    case HandEdit(_) => false
    case Call(_, Write(redis)) => redis.Down?
    case _ => true
  }

  lemma {:induction false} QuietKeepsCache(cfg: Config, s: State, steps: seq<Step>)
    requires forall i :: 0 <= i < |steps| ==> Quiet(steps[i])
    ensures After(cfg, s, steps).cache == s.cache && s.now <= After(cfg, s, steps).now
    decreases |steps|
  {
    if steps != [] {
      QuietKeepsCache(cfg, Next(cfg, s, steps[0]), steps[1..]);
    }
  }

  /** The value a caller is about to write: a leader's result, or the worker's. */
  function ToWrite(p: Phase, c: Caller): Option<Value> {
    match p
    case Writing(_, _, v) => Some(v)
    case WorkerRunning(_, Some(version)) => Some(Value(c, version))
    case _ => None
  }

  /** What is written is read: until another write or a deletion, the value is in the cache for exactly ttlMs, and within that
      time every caller that reads or polls ends with it. */
  lemma WrittenValueIsRead(cfg: Config, s: State, c: Caller, v: Value, redis: Redis, steps: seq<Step>)
    requires c in s.callers && ToWrite(s.callers[c], c) == Some(v) && !redis.Down?
    requires forall i :: 0 <= i < |steps| ==> Quiet(steps[i])
    ensures var s' := After(cfg, Next(cfg, s, Call(c, Write(redis))), steps);
      Visible(s') == if s'.now < s.now + cfg.ttlMs then Some(Json(v)) else None
    ensures var s' := After(cfg, Next(cfg, s, Call(c, Write(redis))), steps);
      s'.now < s.now + cfg.ttlMs ==> forall d :: d in s'.callers ==>
        && (s'.callers[d] == Reading ==> Next(cfg, s', Call(d, Get(Up))).callers[d] == Done(FromCache(v)))
        && (s'.callers[d].Polling? ==> Next(cfg, s', Call(d, Poll(Up))).callers[d] == Done(FromCache(v)))
  {
    QuietKeepsCache(cfg, Next(cfg, s, Call(c, Write(redis))), steps);
  }

  // ---------- What an invalidation leaves behind ----------

  /** The caller holds a result or a snapshot that misses a commit. */
  predicate Behind(p: Phase, commit: nat) {
    match p
    case Leading(_, _, Some(version)) => version <= commit
    case Writing(_, _, v) => v.version <= commit
    case WorkerRunning(_, Some(version)) => version <= commit
    case _ => false
  }

  ghost predicate BehindOnly(s: State, base: State, commit: nat) {
    && commit < |s.commits|
    && (forall c :: c in s.callers && Behind(s.callers[c], commit) ==> c in base.callers && Behind(base.callers[c], commit))
    && (s.cache.Some? && s.cache.value.raw.Json? && s.cache.value.raw.value.version <= commit ==>
          var c := s.cache.value.raw.value.producer; c in base.callers && Behind(base.callers[c], commit))
  }

  lemma StepBehindOnly(cfg: Config, s: State, step: Step, base: State, commit: nat)
    requires BehindOnly(s, base, commit) && Provenance(cfg, s)
    ensures BehindOnly(Next(cfg, s, step), base, commit)
  {
    if step.Call? && step.who in s.callers {
      assert PhaseOk(cfg, s, step.who, s.callers[step.who]);
    }
  }

  lemma {:induction false} RunBehindOnly(cfg: Config, run: seq<State>, i: nat, j: nat, commit: nat)
    requires IsRun(cfg, run) && i < j < |run| && commit < |run[i].commits|
    requires exists redis: Redis :: !redis.Down? && run[i + 1] == Next(cfg, run[i], Invalidate(redis))
    ensures BehindOnly(run[j], run[i], commit)
    decreases j
  {
    if j > i + 1 {
      RunBehindOnly(cfg, run, i, j - 1, commit);
      RunProvenance(cfg, run, j - 1);
      assert IsStep(cfg, run[j - 1], run[j]);
      var step :| run[j] == Next(cfg, run[j - 1], step);
      StepBehindOnly(cfg, run[j - 1], step, run[i], commit);
    }
  }

  /** After an invalidation that reached Redis, a cached value can miss an earlier commit only if its producer was already
      under way at the invalidation, with a snapshot that misses the commit. */
  lemma StaleOnlyFromInFlight(cfg: Config, run: seq<State>, i: nat, j: nat, v: Value, commit: nat)
    requires IsRun(cfg, run) && i < j < |run|
    requires exists redis: Redis :: !redis.Down? && run[i + 1] == Next(cfg, run[i], Invalidate(redis))
    requires v.version <= commit < |run[i].commits| && Visible(run[j]) == Some(Json(v))
    ensures v.producer in run[i].callers && Behind(run[i].callers[v.producer], commit)
  {
    RunBehindOnly(cfg, run, i, j, commit);
  }

  // ---------- Bounded staleness ----------

  /** The runs considered: nobody who will write is still at it more than d after its producer started. */
  ghost predicate Timely(s: State, d: nat) {
    forall c :: c in s.callers && (s.callers[c].Leading? || s.callers[c].Writing? || s.callers[c].WorkerRunning?)
      ==> s.now <= s.callers[c].startedAt + d
  }

  /** Every commit a snapshot missed came after the producer had started. */
  ghost predicate MissedAfter(s: State, version: nat, since: int) {
    forall k :: version <= k < |s.commits| ==> since <= s.commits[k]
  }

  ghost predicate SnapshotOk(s: State, p: Phase) {
    match p
    case Leading(_, startedAt, oldest) => startedAt <= s.now && (oldest.Some? ==> MissedAfter(s, oldest.value, startedAt))
    case Writing(_, startedAt, v) => startedAt <= s.now && MissedAfter(s, v.version, startedAt)
    case WorkerRunning(startedAt, oldest) => startedAt <= s.now && (oldest.Some? ==> MissedAfter(s, oldest.value, startedAt))
    case _ => true
  }

  ghost predicate FreshEnough(cfg: Config, s: State, d: nat) {
    && (forall c :: c in s.callers ==> SnapshotOk(s, s.callers[c]))
    && (s.cache.Some? && s.cache.value.raw.Json? ==>
          s.cache.value.expiresAt <= s.now + cfg.ttlMs
          && MissedAfter(s, s.cache.value.raw.value.version, s.cache.value.expiresAt - cfg.ttlMs - d))
  }

  lemma ReactSnapshot(cfg: Config, s: State, c: Caller, act: Act)
    requires c in s.callers && SnapshotOk(s, s.callers[c])
    ensures SnapshotOk(s, React(cfg, s, c, s.callers[c], act).phase)
  {
  }

  lemma StepSnapshots(cfg: Config, s: State, step: Step, d: nat)
    requires FreshEnough(cfg, s, d)
    ensures forall c :: c in Next(cfg, s, step).callers ==> SnapshotOk(Next(cfg, s, step), Next(cfg, s, step).callers[c])
  {
    var s' := Next(cfg, s, step);
    if step.Call? && step.who in s.callers {
      ReactSnapshot(cfg, s, step.who, step.act);
      forall c | c in s'.callers ensures SnapshotOk(s', s'.callers[c]) {
        assert c == step.who || s'.callers[c] == s.callers[c];
      }
    } else {
      forall c | c in s'.callers ensures SnapshotOk(s', s'.callers[c]) {
        if c in s.callers { assert SnapshotOk(s, s.callers[c]); }
      }
    }
  }

  lemma StepFreshEnough(cfg: Config, s: State, step: Step, d: nat)
    requires FreshEnough(cfg, s, d) && Timely(s, d)
    ensures FreshEnough(cfg, Next(cfg, s, step), d)
  {
    StepSnapshots(cfg, s, step, d);
    if step.Call? && step.who in s.callers {
      assert SnapshotOk(s, s.callers[step.who]);
    }
  }

  lemma {:induction false} RunFreshEnough(cfg: Config, run: seq<State>, i: nat, d: nat)
    requires IsRun(cfg, run) && i < |run|
    requires forall k :: 0 <= k < i ==> Timely(run[k], d)
    ensures FreshEnough(cfg, run[i], d)
  {
    if i > 0 {
      RunFreshEnough(cfg, run, i - 1, d);
      assert IsStep(cfg, run[i - 1], run[i]);
      var step :| run[i] == Next(cfg, run[i - 1], step);
      StepFreshEnough(cfg, run[i - 1], step, d);
    }
  }

  /** Bounded staleness. If no leader or worker takes more than d from producer start to write, a cached value
      that missed the commit made at time m is unreadable from m + d + ttl on, whatever the invalidating DELs did. */
  lemma BoundedStaleness(cfg: Config, run: seq<State>, i: nat, d: nat, v: Value, commit: nat)
    requires IsRun(cfg, run) && i < |run|
    requires forall k :: 0 <= k < i ==> Timely(run[k], d)
    requires Visible(run[i]) == Some(Json(v))
    requires v.version <= commit < |run[i].commits|
    ensures run[i].now < run[i].commits[commit] + d + cfg.ttlMs
  {
    RunFreshEnough(cfg, run, i, d);
  }
}
