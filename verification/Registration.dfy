/** Registration state of a public event and the timers that refresh it
    (apps/web/src/features/event-detail/registration.ts), the listing's discovery status
    (packages/shared/src/utils/event-discovery-status.ts) and the schedule rules
    (validateEventSchedule in packages/shared/src/schemas/event.ts). Times are milliseconds. */
module Registration {
  import opened Options
  import opened Pricing
  import opened TickChain

  datatype Window = Window(opensAt: Stamp, closesAt: Stamp, endAt: Stamp)
  datatype State = NotYetOpen | Open | ClosedWindow | EventEnded

  /** endAt is a required field, so Absent does not occur there; it would read as ended. */
  function StateAt(w: Window, now: int): State {
    if !w.endAt.At? || now >= w.endAt.ms then EventEnded
    else if w.closesAt.Unparseable? || (w.closesAt.At? && now >= w.closesAt.ms) then ClosedWindow
    else if w.opensAt.At? && now < w.opensAt.ms then NotYetOpen
    else Open
  }

  function Rank(s: State): nat {
    match s case NotYetOpen => 0 case Open => 1 case ClosedWindow => 2 case EventEnded => 3
  }

  /** Registration only moves forward, whatever the bounds and their order. */
  lemma StateMovesForward(w: Window, now: int, later: int)
    requires now <= later
    ensures Rank(StateAt(w, now)) <= Rank(StateAt(w, later))
  {
  }

  /** The bounds that can be read decide; a close that cannot be read closes, an end that cannot be read ends, an opening that
      cannot be read is ignored. */
  lemma StateFromBounds(w: Window, now: int)
    ensures StateAt(w, now) == EventEnded <==> (w.endAt.At? ==> w.endAt.ms <= now)
    ensures Rank(StateAt(w, now)) >= Rank(ClosedWindow) <==>
      (w.endAt.At? ==> w.endAt.ms <= now) || w.closesAt.Unparseable? || (w.closesAt.At? && w.closesAt.ms <= now)
    ensures StateAt(w, now) == NotYetOpen <==>
      w.endAt.At? && now < w.endAt.ms && (w.closesAt == Absent || (w.closesAt.At? && now < w.closesAt.ms)) && w.opensAt.At? && now < w.opensAt.ms
  {
  }

  // ---------- Boundaries and timers ----------

  predicate IsBoundary(w: Window, t: int) {
    w.opensAt == At(t) || w.closesAt == At(t) || w.endAt == At(t)
  }

  function Sooner(best: Option<int>, bound: Stamp, now: int): Option<int> {
    if bound.At? && bound.ms > now && (best.None? || bound.ms < best.value) then Some(bound.ms) else best
  }

  function NextBoundary(w: Window, now: int): Option<int> {
    Sooner(Sooner(Sooner(None, w.opensAt, now), w.closesAt, now), w.endAt, now)
  }

  /** The source collects the future bounds in a list and takes the least. */
  method GetNextBoundaryMs(w: Window, now: int) returns (r: Option<int>)
    ensures r == NextBoundary(w, now)
    ensures r.Some? ==> now < r.value && IsBoundary(w, r.value)
    ensures forall t :: now < t && IsBoundary(w, t) ==> r.Some? && r.value <= t
  {
    var bounds := [w.opensAt, w.closesAt, w.endAt];
    var candidates: seq<int> := [];
    var i := 0;
    while i < |bounds|
      invariant 0 <= i <= 3
      invariant forall c :: c in candidates ==> now < c && exists k :: 0 <= k < i && bounds[k] == At(c)
      invariant forall k :: 0 <= k < i && bounds[k].At? && now < bounds[k].ms ==> bounds[k].ms in candidates
    {
      if bounds[i].At? && bounds[i].ms > now {
        candidates := candidates + [bounds[i].ms];
      }
      i := i + 1;
    }
    r := Least(candidates);
    BoundaryLeast(w, now);
    assert bounds[0] == w.opensAt && bounds[1] == w.closesAt && bounds[2] == w.endAt;
    assert r.Some? ==> r.value in candidates && IsBoundary(w, r.value);
    forall t | now < t && IsBoundary(w, t) ensures r.Some? && r.value <= t {
      assert t in candidates;
    }
    assert r.Some? ==> NextBoundary(w, now).Some? && NextBoundary(w, now).value <= r.value;
  }

  method Least(xs: seq<int>) returns (r: Option<int>)
    ensures r.None? <==> xs == []
    ensures r.Some? ==> r.value in xs && forall x :: x in xs ==> r.value <= x
  {
    r := None;
    for i := 0 to |xs|
      invariant r.None? <==> i == 0
      invariant r.Some? ==> r.value in xs[..i] && forall x :: x in xs[..i] ==> r.value <= x
    {
      assert xs[..i + 1] == xs[..i] + [xs[i]];
      if r.None? || xs[i] < r.value {
        r := Some(xs[i]);
      }
    }
    assert xs[..|xs|] == xs;
  }

  lemma BoundaryLeast(w: Window, now: int)
    ensures var r := NextBoundary(w, now);
      && (r.Some? ==> now < r.value && IsBoundary(w, r.value))
      && forall t :: now < t && IsBoundary(w, t) ==> r.Some? && r.value <= t
  {
  }

  const MAX_BOUNDARY_DELAY_MS := 2147483647

  function Max(a: int, b: int): int {
    if a >= b then a else b
  }

  function NextTick(w: Window, now: int): (r: Option<int>)
    ensures r.Some? ==> now < r.value <= now + 2147483647
  {
    match NextBoundary(w, now)
    case None => None
    case Some(next) =>
      var delay := Max(1, next - now + 1);
      Some(now + if delay <= MAX_BOUNDARY_DELAY_MS then delay else MAX_BOUNDARY_DELAY_MS)
  }

  function Chain(w: Window): int -> Option<int> {
    (now: int) => NextTick(w, now)
  }

  ghost function LastTick(w: Window, from: int, t: int): int
    requires from <= t
  {
    Last(Chain(w), from, t)
  }

  lemma LastTickIsLast(w: Window, from: int, t: int)
    requires from <= t
    ensures var last := LastTick(w, from, t);
      from <= last <= t && (NextTick(w, last).Some? ==> t < NextTick(w, last).value)
  {
    LastIsLast(Chain(w), from, t);
  }

  lemma StateHoldsBetweenBoundaries(w: Window, now: int, t: int)
    requires now <= t && forall b :: now < b <= t ==> !IsBoundary(w, b)
    ensures StateAt(w, t) == StateAt(w, now)
  {
    assert w.endAt.At? && now < w.endAt.ms <= t ==> IsBoundary(w, w.endAt.ms);
    assert w.closesAt.At? && now < w.closesAt.ms <= t ==> IsBoundary(w, w.closesAt.ms);
    assert w.opensAt.At? && now < w.opensAt.ms <= t ==> IsBoundary(w, w.opensAt.ms);
  }

  /** With timers firing on time, even in clamped pieces, the state on screen is the true one at every
      millisecond that is not itself a boundary. */
  lemma ChainShowsTrueState(w: Window, from: int, t: int)
    requires from <= t && !IsBoundary(w, t)
    ensures StateAt(w, LastTick(w, from, t)) == StateAt(w, t)
  {
    var last := LastTick(w, from, t);
    LastTickIsLast(w, from, t);
    BoundaryLeast(w, last);
    StateHoldsBetweenBoundaries(w, last, t);
  }

  /** No tick is wasted: each one comes right after a boundary, or is a piece of a wait too long for one timer. */
  lemma TicksFollowBoundaries(w: Window, now: int)
    requires NextTick(w, now).Some?
    ensures var tick := NextTick(w, now).value;
      tick == now + 2147483647 || (now < tick - 1 && IsBoundary(w, tick - 1) && forall b :: now < b < tick - 1 ==> !IsBoundary(w, b))
  {
    BoundaryLeast(w, now);
  }

  /** The chain ends once every boundary lies behind. */
  lemma ChainEnds(w: Window, from: int, t: int)
    requires from <= t && forall b :: IsBoundary(w, b) ==> b < t
    ensures NextTick(w, LastTick(w, from, t)).None?
  {
    var last := LastTick(w, from, t);
    LastTickIsLast(w, from, t);
    BoundaryLeast(w, last);
  }

  /** The hook's state: the instant last rendered and the pending timeout. */
  class RegistrationHook {
    const bounds: Window
    var now: Option<int>
    var timeoutAt: Option<int>

    constructor (bounds: Window)
      ensures this.bounds == bounds && now.None? && timeoutAt.None?
    {
      this.bounds, now, timeoutAt := bounds, None, None;
    }

    method Tick(current: int)
      modifies this`now, this`timeoutAt
      ensures now == Some(current)
      ensures timeoutAt == NextTick(bounds, current)
    {
      now, timeoutAt := Some(current), None;
      var next := GetNextBoundaryMs(bounds, current);
      if next.None? {
        return;
      }
      var delay := Max(1, next.value - current + 1);
      if delay > MAX_BOUNDARY_DELAY_MS {
        delay := MAX_BOUNDARY_DELAY_MS;
      }
      timeoutAt := Some(current + delay);
    }
  }

  // ---------- Discovery status ----------

  datatype Status = Upcoming | RegistrationOpen | RegistrationClosed | SoldOut | Ended
  /** Spots remaining, or None when the category has no capacity. */
  type Capacity = Option<int>

  function DiscoveryStatus(w: Window, categories: seq<Capacity>, now: int): Status {
    if !w.endAt.At? || now >= w.endAt.ms then Ended
    else if w.closesAt != Absent && (w.closesAt.Unparseable? || now >= w.closesAt.ms) then RegistrationClosed
    else if w.opensAt.At? && now < w.opensAt.ms then Upcoming
    else if categories == [] || exists i | 0 <= i < |categories| :: categories[i].None? then RegistrationOpen
    else if forall i | 0 <= i < |categories| :: categories[i] == Some(0) then SoldOut
    else RegistrationOpen
  }

  /** Listing and detail page agree, sold out being a kind of open. */
  lemma DiscoveryAgrees(w: Window, categories: seq<Capacity>, now: int)
    ensures StateAt(w, now) ==
      match DiscoveryStatus(w, categories, now)
      case Upcoming => NotYetOpen
      case RegistrationOpen => Open
      case SoldOut => Open
      case RegistrationClosed => ClosedWindow
      case Ended => EventEnded
    ensures DiscoveryStatus(w, categories, now) == SoldOut <==>
      StateAt(w, now) == Open && categories != [] && forall i :: 0 <= i < |categories| ==> categories[i] == Some(0)
  {
  }

  // ---------- Accepted schedules ----------

  /** Calendar day in Asia/Kolkata, which is UTC+5:30 all year. */
  function CoimbatoreDay(ms: int): int {
    (ms + 19800000) / 86400000
  }

  datatype Schedule = Schedule(startAt: int, endAt: int, opensAt: Option<int>, closesAt: Option<int>)

  predicate AcceptedSchedule(s: Schedule) {
    && s.startAt < s.endAt
    && CoimbatoreDay(s.startAt) == CoimbatoreDay(s.endAt)
    && (s.opensAt.Some? <==> s.closesAt.Some?)
    && (s.opensAt.Some? && s.closesAt.Some? ==> s.opensAt.value < s.closesAt.value <= s.startAt)
  }

  /** Midnight in Coimbatore at the start of a day. */
  function Midnight(day: int): int {
    day * 86400000 - 19800000
  }

  /** The schedule rules: a positive length within one local day, and both registration bounds or none, in order and before the start. */
  lemma AcceptedWithinOneDay(s: Schedule)
    ensures AcceptedSchedule(s) <==>
      && s.startAt < s.endAt && (exists day :: Midnight(day) <= s.startAt && s.endAt < Midnight(day + 1))
      && match (s.opensAt, s.closesAt)
         case (None, None) => true
         case (Some(opens), Some(closes)) => opens < closes <= s.startAt
         case _ => false
  {
    var day := CoimbatoreDay(s.startAt);
    assert Midnight(day) <= s.startAt < Midnight(day + 1);
    if CoimbatoreDay(s.endAt) == day {
      assert s.endAt < Midnight(day + 1);
    }
    forall d | Midnight(d) <= s.startAt < s.endAt < Midnight(d + 1) ensures d == CoimbatoreDay(s.startAt) == CoimbatoreDay(s.endAt) {
    }
  }

  function Bound(b: Option<int>): Stamp {
    if b.Some? then At(b.value) else Absent
  }

  function WindowOf(s: Schedule): Window {
    Window(Bound(s.opensAt), Bound(s.closesAt), At(s.endAt))
  }

  /** An accepted schedule with a registration window passes through all four states, each on its own non-empty interval. */
  lemma AcceptedPassesAllStates(s: Schedule, t: int)
    requires AcceptedSchedule(s) && s.opensAt.Some?
    ensures s.closesAt.Some? && s.opensAt.value < s.closesAt.value < s.endAt
    ensures StateAt(WindowOf(s), t) ==
      if t < s.opensAt.value then NotYetOpen else if t < s.closesAt.value then Open
      else if t < s.endAt then ClosedWindow else EventEnded
  {
  }
}
