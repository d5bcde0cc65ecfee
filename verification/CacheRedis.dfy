/** singleFlight as the code runs it (apps/api/src/lib/cache-stampede.ts): the Redis commands as updates of the shared keys,
    the follower's polling loop, and the whole call, with everyone else acting in between. Each of them is proved to be steps of
    the protocol, so what is proved about runs holds of this code. */
module CacheRedis {
  import opened Options
  import opened SingleFlight

  /** What a command answers; an error says nothing about whether it was applied. */
  datatype Reply<+T> = Answer(value: T) | Error

  /** The steps of everyone else. */
  predicate Foreign(step: Step, me: Caller) {
    match step
    case Arrive(who) => who != me
    case WorkerArrive(who) => who != me
    case Call(who, _) => who != me
    case _ => true
  }

  ghost predicate AllForeign(others: nat -> seq<Step>, me: Caller) {
    forall k, i :: 0 <= i < |others(k)| ==> Foreign(others(k)[i], me)
  }

  lemma ForeignStep(cfg: Config, s: State, step: Step, me: Caller)
    requires Foreign(step, me)
    ensures var s' := Next(cfg, s, step);
      s.now <= s'.now && (me in s'.callers <==> me in s.callers) && (me in s.callers ==> s'.callers[me] == s.callers[me])
      && (me in s'.acquired <==> me in s.acquired)
  {
  }

  lemma RunExtends(cfg: Config, run: seq<State>, step: Step)
    requires IsRun(cfg, run)
    ensures IsRun(cfg, run + [Next(cfg, run[|run| - 1], step)])
  {
    var run' := run + [Next(cfg, run[|run| - 1], step)];
    forall i, j | 0 <= i < |run'| && j == i + 1 < |run'| ensures IsStep(cfg, run'[i], run'[j]) {
      if j < |run| { assert IsStep(cfg, run[i], run[j]); }
    }
  }

  function Min(a: int, b: int): int {
    if a <= b then a else b
  }

  function CeilDiv(a: nat, b: nat): nat
    requires b > 0
  {
    (a + b - 1) / b
  }

  lemma CeilDivAbove(k: nat, a: nat, b: nat)
    requires b > 0 && k * b < a
    ensures k + 1 <= CeilDiv(a, b)
  {
    var q := CeilDiv(a, b);
    assert a <= q * b;
    ProductOrder(q, k, b);
  }

  lemma ProductOrder(q: nat, k: nat, b: nat)
    ensures q <= k ==> q * b <= k * b
  {
  }

  /** The follower's books at the head of its loop. */
  predicate Accounted(polls: nat, slept: nat, now: int, deadline: int, timeout: nat, interval: nat)
    requires interval > 0
  {
    && slept <= timeout && deadline - timeout + slept <= now
    && (now < deadline ==> slept == polls * interval)
    && (polls <= 1 || polls <= CeilDiv(timeout, interval))
  }

  /** One more poll started at `now`; `later` is the instant of the next check of the deadline. */
  lemma OneMorePoll(polls: nat, slept: nat, now: int, later: int, deadline: int, timeout: nat, interval: nat)
    requires interval > 0 && Accounted(polls, slept, now, deadline, timeout, interval) && now <= later
    requires polls == 0 || now < deadline
    ensures polls + 1 <= 1 || polls + 1 <= CeilDiv(timeout, interval)
    ensures later < deadline ==>
      (var pause := Min(interval, deadline - later); Accounted(polls + 1, slept + pause, later + pause, deadline, timeout, interval))
  {
    if polls > 0 {
      CeilDivAbove(polls, timeout, interval);
    }
    assert (polls + 1) * interval == polls * interval + interval;
  }

  /** From index `from` on, some state of the run is right after the write of v. */
  ghost predicate WrittenIn(cfg: Config, run: seq<State>, from: nat, v: Value) {
    exists k :: from <= k < |run| && run[k].cache == Some(Entry(Json(v), run[k].now + cfg.ttlMs))
  }

  /** Why a follower stops waiting: the time is up, or a poll failed or found an entry that does not parse. */
  ghost predicate HadToGiveUp(run: seq<State>, from: nat, now: int, deadline: int, polls: nat, redis: nat -> Redis) {
    || now >= deadline
    || (exists k :: 0 <= k < polls && !redis(k).Up?)
    || (exists k :: from <= k < |run| && Visible(run[k]) == Some(Garbage))
  }

  class Client {
    const cfg: Config
    var now: int
    var cache: Option<Entry>
    var lock: Option<Lock>
    var callers: map<Caller, Phase>
    var acquired: set<Caller>
    var commits: seq<int>
    /** Every state so far. */
    ghost var run: seq<State>

    function View(): State
      reads this
    {
      State(now, cache, lock, callers, acquired, commits)
    }

    ghost predicate Valid()
      reads this
    {
      IsRun(cfg, run) && run[|run| - 1] == View()
    }

    ghost predicate At(me: Caller, phase: Phase)
      reads this
    {
      me in callers && callers[me] == phase
    }

    constructor (cfg: Config, now: int)
      ensures Valid() && this.cfg == cfg && View() == Init(now)
    {
      this.cfg := cfg;
      this.now, cache, lock, callers, acquired, commits := now, None, None, map[], {}, [];
      run := [Init(now)];
    }

    /** A step that is no command of this caller: someone else's, the clock's, or the caller's own progress. */
    method Take(step: Step)
      requires Valid()
      modifies this
      ensures Valid() && View() == Next(cfg, old(View()), step) && run == old(run) + [View()]
    {
      RunExtends(cfg, run, step);
      var s := Next(cfg, View(), step);
      now, cache, lock, callers, acquired, commits := s.now, s.cache, s.lock, s.callers, s.acquired, s.commits;
      run := run + [s];
    }

    method Others(ghost me: Caller, steps: seq<Step>)
      requires Valid() && forall i :: 0 <= i < |steps| ==> Foreign(steps[i], me)
      modifies this
      ensures Valid() && old(now) <= now && old(run) <= run && (me in acquired <==> me in old(acquired))
      ensures (me in callers <==> me in old(callers)) && (me in callers ==> callers[me] == old(callers)[me])
    {
      for i := 0 to |steps|
        invariant Valid() && old(now) <= now && old(run) <= run && (me in acquired <==> me in old(acquired))
        invariant (me in callers <==> me in old(callers)) && (me in callers ==> callers[me] == old(callers)[me])
      {
        ForeignStep(cfg, View(), steps[i], me);
        Take(steps[i]);
      }
    }

    /** The caller's place in the code after a command; the command has done its part on the keys. */
    method Note(me: Caller, act: Act, before: State)
      requires IsRun(cfg, run) && run[|run| - 1] == before && me in callers
      requires before == View().(cache := before.cache, lock := before.lock)
      requires var e := React(cfg, before, me, callers[me], act); e.cache == cache && e.lock == lock
      modifies this`callers, this`acquired, this`run
      ensures Valid() && View() == Next(cfg, before, Call(me, act)) && run == old(run) + [View()]
    {
      RunExtends(cfg, run, Call(me, act));
      var e := React(cfg, before, me, callers[me], act);
      callers, acquired := callers[me := e.phase], if e.acquires then acquired + {me} else acquired;
      run := run + [View()];
    }

    // ---------- Commands ----------

    method Get(redis: Redis) returns (reply: Reply<Option<Raw>>)
      ensures reply == if redis.Up? then Answer(Visible(View())) else Error
    {
      if !redis.Up? {
        return Error;
      }
      if cache.None? || now >= cache.value.expiresAt {
        return Answer(None);
      }
      reply := Answer(Some(cache.value.raw));
    }

    method ReadCache(me: Caller, redis: Redis) returns (reply: Reply<Option<Raw>>)
      requires Valid() && At(me, Reading)
      modifies this
      ensures Valid() && View() == Next(cfg, old(View()), Call(me, Act.Get(redis))) && run == old(run) + [View()]
      ensures reply == if redis.Up? then Answer(old(Visible(View()))) else Error
    {
      reply := Get(redis);
      Note(me, Act.Get(redis), View());
    }

    method PollCache(me: Caller, redis: Redis) returns (reply: Reply<Option<Raw>>)
      requires Valid() && me in callers && callers[me].Polling?
      modifies this
      ensures Valid() && View() == Next(cfg, old(View()), Call(me, Poll(redis))) && run == old(run) + [View()]
      ensures reply == if redis.Up? then Answer(old(Visible(View()))) else Error
    {
      reply := Get(redis);
      Note(me, Poll(redis), View());
    }

    /** SET lock token PX lockTtlMs NX. */
    method TryAcquireLock(me: Caller, redis: Redis) returns (reply: Reply<bool>)
      requires Valid() && At(me, Locking)
      modifies this
      ensures Valid() && View() == Next(cfg, old(View()), Call(me, TryLock(redis))) && run == old(run) + [View()]
      ensures reply == if redis.Up? then Answer(old(LiveLock(View())).None?) else Error
    {
      var before := View();
      var free := !(lock.Some? && now < lock.value.expiresAt);
      if free && !redis.Down? {
        lock := Some(Lock(me, now + cfg.lockTtlMs));
      }
      Note(me, TryLock(redis), before);
      reply := if redis.Up? then Answer(free) else Error;
    }

    /** The release script deletes only one's own token; its failure is ignored. */
    method ReleaseLock(me: Caller, redis: Redis)
      requires Valid() && me in callers && callers[me].Releasing?
      modifies this
      ensures Valid() && View() == Next(cfg, old(View()), Call(me, Release(redis))) && run == old(run) + [View()]
      ensures lock == if !redis.Down? && old(LiveLock(View())) == Some(me) then None else old(lock)
      ensures acquired == old(acquired)
    {
      var before := View();
      if !redis.Down? && lock.Some? && now < lock.value.expiresAt && lock.value.token == me {
        lock := None;
      }
      Note(me, Release(redis), before);
    }

    /** SETEX key ttl value; its failure is ignored. */
    method WriteCache(me: Caller, redis: Redis)
      requires Valid() && me in callers && callers[me].Writing?
      modifies this
      ensures Valid() && View() == Next(cfg, old(View()), Call(me, Write(redis))) && run == old(run) + [View()]
      ensures !redis.Down? ==> cache == Some(Entry(Json(old(callers)[me].value), now + cfg.ttlMs))
      ensures acquired == old(acquired)
    {
      var before := View();
      if !redis.Down? {
        cache := Some(Entry(Json(callers[me].value), now + cfg.ttlMs));
      }
      Note(me, Write(redis), before);
    }

    // ---------- Where each step leaves the caller ----------

    method Sleep(ghost me: Caller, ms: nat)
      requires Valid()
      modifies this
      ensures Valid() && now == old(now) + ms && callers == old(callers) && acquired == old(acquired) && old(run) <= run
    {
      Take(Tick(ms));
    }

    method Begin(me: Caller)
      requires Valid() && me !in callers
      modifies this
      ensures Valid() && At(me, Reading) && me !in acquired && old(run) <= run
    {
      AcquiredAreCallers(cfg, run, |run| - 1);
      Take(Arrive(me));
    }

    method FirstRead(me: Caller, redis: Redis) returns (reply: Reply<Option<Raw>>)
      requires Valid() && At(me, Reading)
      modifies this
      ensures Valid() && acquired == old(acquired) && old(run) <= run
      ensures match reply
        case Error => At(me, Alone(None))
        case Answer(Some(Json(v))) => At(me, Done(FromCache(v)))
        case Answer(_) => At(me, Locking)
    {
      reply := ReadCache(me, redis);
    }

    method FirstLock(me: Caller, redis: Redis) returns (reply: Reply<bool>)
      requires Valid() && At(me, Locking)
      modifies this
      ensures Valid() && now == old(now) && old(run) <= run
      ensures me in acquired <==> me in old(acquired) || reply == Answer(true)
      ensures match reply
        case Error => At(me, Alone(None))
        case Answer(true) => At(me, Acquired(now))
        case Answer(false) => At(me, Polling(now + cfg.lockTimeoutMs, true))
    {
      reply := TryAcquireLock(me, redis);
    }

    method PollOnce(me: Caller, redis: Redis) returns (reply: Reply<Option<Raw>>)
      requires Valid() && me in callers && callers[me].Polling?
      modifies this
      ensures Valid() && now == old(now) && acquired == old(acquired) && old(run) <= run
      ensures reply.Error? <==> !redis.Up?
      ensures reply == Answer(Some(Garbage)) ==> Visible(run[|old(run)| - 1]) == Some(Garbage)
      ensures match reply
        case Error => At(me, Alone(None))
        case Answer(Some(Json(v))) => At(me, Done(FromCache(v)))
        case Answer(Some(Garbage)) => At(me, Alone(None))
        case Answer(None) => At(me, Polling(old(callers)[me].deadline, false))
    {
      reply := PollCache(me, redis);
    }

    method StopWaiting(me: Caller)
      requires Valid() && me in callers && callers[me].Polling? && !callers[me].firstPass && now >= callers[me].deadline
      modifies this
      ensures Valid() && At(me, Alone(None)) && acquired == old(acquired) && now == old(now) && old(run) <= run
    {
      Take(Call(me, GiveUp));
    }

    method StartProducing(me: Caller)
      requires Valid() && me in callers && callers[me].Acquired?
      modifies this
      ensures Valid() && me in callers && callers[me].Leading? && callers[me].oldestRead.None?
      ensures acquired == old(acquired) && old(run) <= run
    {
      Take(Call(me, Start));
    }

    method ReadSnapshot(me: Caller)
      requires Valid() && me in callers && callers[me].Leading? && callers[me].oldestRead.None?
      modifies this
      ensures Valid() && me in callers && callers[me].Leading? && callers[me].oldestRead.Some?
      ensures acquired == old(acquired) && old(run) <= run
    {
      Take(Call(me, Read));
    }

    method FinishProducing(me: Caller, ok: bool)
      requires Valid() && me in callers && callers[me].Leading? && callers[me].oldestRead.Some?
      modifies this
      ensures Valid() && me in callers && acquired == old(acquired) && old(run) <= run
      ensures if ok then callers[me].Writing? && callers[me].value.producer == me
              else callers[me].Releasing? && callers[me].outcome == Failed
    {
      Take(Call(me, Produce(ok)));
    }

    method LeaderProduces(me: Caller, ok: bool, others: nat -> seq<Step>)
      requires Valid() && me in callers && callers[me].Acquired? && AllForeign(others, me)
      modifies this
      ensures Valid() && me in callers && (me in acquired <==> me in old(acquired)) && old(run) <= run
      ensures if ok then callers[me].Writing? && callers[me].value.producer == me
              else callers[me].Releasing? && callers[me].outcome == Failed
    {
      Others(me, others(0));
      StartProducing(me);
      Others(me, others(1));
      ReadSnapshot(me);
      Others(me, others(2));
      FinishProducing(me, ok);
    }

    method LeaderWrites(me: Caller, write: Redis)
      requires Valid() && me in callers && callers[me].Writing?
      modifies this
      ensures Valid() && me in callers && acquired == old(acquired) && old(run) <= run
      ensures callers[me].Releasing? && callers[me].outcome == Own(old(callers)[me].value)
      ensures !write.Down? ==> WrittenIn(cfg, run, |old(run)|, old(callers)[me].value)
    {
      WriteCache(me, write);
      assert run[|old(run)|] == View();
    }

    method LeaderReleases(me: Caller, release: Redis)
      requires Valid() && me in callers && callers[me].Releasing?
      modifies this
      ensures Valid() && At(me, Done(old(callers)[me].outcome)) && acquired == old(acquired) && old(run) <= run
      ensures !release.Down? ==> LiveLock(View()) != Some(me)
    {
      ReleaseLock(me, release);
    }

    // ---------- The call ----------

    /** The producer without the cache: after a Redis error, or when the leader took too long. Nothing is written. */
    method RunAlone(me: Caller, ok: bool, others: nat -> seq<Step>) returns (o: Outcome)
      requires Valid() && At(me, Alone(None)) && AllForeign(others, me)
      modifies this
      ensures Valid() && At(me, Done(o)) && (me in acquired <==> me in old(acquired)) && old(run) <= run
      ensures if ok then o.Own? && o.value.producer == me else o == Failed
    {
      Others(me, others(0));
      Take(Call(me, Read));
      Others(me, others(1));
      Take(Call(me, Produce(ok)));
      o := callers[me].outcome;
    }

    /** The leader: produce, write, and in every case release. A write and a release that reach Redis have put the result into
        the cache for ttlMs and given the lock away. */
    method RunLeader(me: Caller, ok: bool, write: Redis, release: Redis, others: nat -> seq<Step>) returns (o: Outcome)
      requires Valid() && me in callers && callers[me].Acquired? && AllForeign(others, me)
      modifies this
      ensures Valid() && At(me, Done(o)) && (me in acquired <==> me in old(acquired)) && old(run) <= run
      ensures if ok then o.Own? && o.value.producer == me else o == Failed
      ensures ok && !write.Down? ==> WrittenIn(cfg, run, |old(run)|, o.value)
      ensures !release.Down? ==> LiveLock(View()) != Some(me)
    {
      LeaderProduces(me, ok, others);
      Others(me, others(3));
      if ok {
        LeaderWrites(me, write);
      }
      Others(me, others(4));
      o := callers[me].outcome;
      LeaderReleases(me, release);
    }

    /** One pass of the follower's loop: a poll and, when the key is absent and time is left, a pause. */
    method PollRound(me: Caller, deadline: int, pollIntervalMs: nat, redis: Redis, before: seq<Step>, after: seq<Step>)
      returns (reply: Reply<Option<Raw>>, pause: Option<nat>)
      requires Valid() && me in callers && callers[me].Polling? && callers[me].deadline == deadline && pollIntervalMs > 0
      requires (forall i :: 0 <= i < |before| ==> Foreign(before[i], me)) && forall i :: 0 <= i < |after| ==> Foreign(after[i], me)
      modifies this
      ensures Valid() && old(now) <= now && (me in acquired <==> me in old(acquired)) && old(run) <= run
      ensures pause.Some? ==> reply == Answer(None)
      ensures match reply
        case Error => !redis.Up? && At(me, Alone(None))
        case Answer(Some(Json(v))) => At(me, Done(FromCache(v)))
        case Answer(Some(Garbage)) => At(me, Alone(None)) && exists k :: |old(run)| - 1 <= k < |run| && Visible(run[k]) == Some(Garbage)
        case Answer(None) =>
          && At(me, Polling(deadline, false))
          && (if pause.None? then now >= deadline
              else 0 < pause.value && old(now) <= now - pause.value && pause.value == Min(pollIntervalMs, deadline - (now - pause.value)))
    {
      pause := None;
      Others(me, before);
      reply := PollOnce(me, redis);
      if reply == Answer(None) {
        Others(me, after);
        var remaining := deadline - now;
        if remaining > 0 {
          pause := Some(Min(pollIntervalMs, remaining));
          Sleep(me, pause.value);
        }
      }
    }

    /** The follower's loop: at least one poll, a bounded number of them, and a bounded total of requested sleep, whatever
        the others do and however long the commands take; and it ends without the value only when it had to give up. */
    method WaitForLeader(me: Caller, pollIntervalMs: nat, redis: nat -> Redis, others: nat -> seq<Step>)
      returns (hit: Option<Value>, polls: nat, slept: nat)
      requires Valid() && At(me, Polling(now + cfg.lockTimeoutMs, true)) && AllForeign(others, me) && pollIntervalMs > 0
      modifies this
      ensures Valid() && (me in acquired <==> me in old(acquired)) && old(run) <= run
      ensures if hit.Some? then At(me, Done(FromCache(hit.value))) else At(me, Alone(None))
      ensures hit.None? ==> HadToGiveUp(run, |old(run)| - 1, now, old(now) + cfg.lockTimeoutMs, polls, redis)
      ensures polls >= 1 && slept <= cfg.lockTimeoutMs
      ensures polls == 1 || polls <= CeilDiv(cfg.lockTimeoutMs, pollIntervalMs)
    {
      var deadline := now + cfg.lockTimeoutMs;
      var firstPass := true;
      polls, slept := 0, 0;
      while firstPass || now < deadline
        invariant Valid() && At(me, Polling(deadline, firstPass)) && (me in acquired <==> me in old(acquired)) && old(run) <= run
        invariant firstPass <==> polls == 0
        invariant Accounted(polls, slept, now, deadline, cfg.lockTimeoutMs, pollIntervalMs)
        decreases firstPass, deadline - now
      {
        ghost var before := now;
        firstPass := false;
        var reply, pause := PollRound(me, deadline, pollIntervalMs, redis(polls), others(2 * polls), others(2 * polls + 1));
        ghost var resumed := if pause.Some? then now - pause.value else now;
        OneMorePoll(polls, slept, before, resumed, deadline, cfg.lockTimeoutMs, pollIntervalMs);
        polls := polls + 1;
        match reply {
          case Error => return None, polls, slept;
          case Answer(Some(Json(v))) => return Some(v), polls, slept;
          case Answer(Some(Garbage)) => return None, polls, slept;
          case Answer(None) =>
        }
        if pause.None? {
          break;
        }
        slept := slept + pause.value;
      }
      StopWaiting(me);
      hit := None;
    }

    /** From a miss on: lead, follow, or fall back. */
    method RunAfterMiss(me: Caller, ok: bool, tryLock: Redis, write: Redis, release: Redis,
                        pollIntervalMs: nat, poll: nat -> Redis, others: nat -> nat -> seq<Step>) returns (o: Outcome)
      requires Valid() && At(me, Locking) && me !in acquired && pollIntervalMs > 0 && forall k :: AllForeign(others(k), me)
      modifies this
      ensures Valid() && At(me, Done(o)) && old(run) <= run
      ensures match o case Own(v) => ok && v.producer == me case Failed => !ok case FromCache(_) => true
      ensures me in acquired && ok && !write.Down? ==> o.Own? && WrittenIn(cfg, run, |old(run)|, o.value)
      ensures me in acquired && !release.Down? ==> LiveLock(View()) != Some(me)
    {
      var acquired := FirstLock(me, tryLock);
      if acquired.Error? {
        o := RunAlone(me, ok, others(1));
      } else if acquired.value {
        o := RunLeader(me, ok, write, release, others(2));
      } else {
        var hit, _, _ := WaitForLeader(me, pollIntervalMs, poll, others(3));
        if hit.Some? {
          o := FromCache(hit.value);
        } else {
          o := RunAlone(me, ok, others(4));
        }
      }
    }

    method Enter(me: Caller, get: Redis, others: nat -> seq<Step>) returns (cached: Reply<Option<Raw>>)
      requires Valid() && me !in callers && AllForeign(others, me)
      modifies this
      ensures Valid() && me !in acquired && |old(run)| <= |run|
      ensures match cached
        case Error => At(me, Alone(None))
        case Answer(Some(Json(v))) => At(me, Done(FromCache(v)))
        case Answer(_) => At(me, Locking)
    {
      Begin(me);
      Others(me, others(0));
      cached := FirstRead(me, get);
      Others(me, others(1));
    }

    /** One whole call, everyone else acting between any two of its operations and any Redis command failing. It is a run of
        the protocol that ends with this caller done, so the theorems about runs hold of what it returns. If it led, its result
        has been put into the cache for ttlMs and its lock is gone. */
    method RunSingleFlight(me: Caller, ok: bool, get: Redis, tryLock: Redis, write: Redis, release: Redis,
                           pollIntervalMs: nat, poll: nat -> Redis, others: nat -> nat -> seq<Step>) returns (o: Outcome)
      requires Valid() && me !in callers && pollIntervalMs > 0 && forall k :: AllForeign(others(k), me)
      modifies this
      ensures Valid() && At(me, Done(o))
      ensures match o
        case Own(v) => ok && v.producer == me
        case Failed => !ok
        case FromCache(v) => SawInCache(run, me, v, |run| - 1)
      ensures me in acquired && ok && !write.Down? ==> o.Own? && WrittenIn(cfg, run, |old(run)|, o.value)
      ensures me in acquired && !release.Down? ==> LiveLock(View()) != Some(me)
    {
      var cached := Enter(me, get, others(0));
      if cached.Error? {
        o := RunAlone(me, ok, others(5));
      } else if cached.value.Some? && cached.value.value.Json? {
        o := FromCache(cached.value.value.value);
      } else {
        o := RunAfterMiss(me, ok, tryLock, write, release, pollIntervalMs, poll, others);
      }
      ReturnedValueIsOwnOrCached(cfg, run, |run| - 1, me);
    }
  }
}
