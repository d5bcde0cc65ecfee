/** The early-bird countdown (apps/web/src/features/event-detail/early-bird.ts): the next cutoff, its label,
    and the chain of timeouts that keeps the label current. Times are milliseconds. */
module EarlyBird {
  import opened Options
  import opened Pricing
  import opened TickChain
  import Registration

  datatype EventTimes = EventTimes(registrationOpensAt: Stamp, registrationClosesAt: Stamp, endAt: Stamp)
  datatype Active = Active(cutoffMs: int, category: CategoryKey)

  function NotLater(limit: int, bound: Stamp): int {
    if bound.At? && bound.ms < limit then bound.ms else limit
  }

  /** The instant a tier's offer stops being usable. */
  function CutoffMs(t: Tier, event: EventTimes): int
    requires HasValidEarlyBirdOffer(t)
  {
    NotLater(NotLater(t.earlyBirdDeadline.ms, event.registrationClosesAt), event.endAt)
  }

  predicate Eligible(t: Tier, event: EventTimes, now: int) {
    && HasValidEarlyBirdOffer(t)
    && CutoffMs(t, event) > now
    && !(event.registrationOpensAt.At? && event.registrationOpensAt.ms >= CutoffMs(t, event))
  }

  /** The fold over the first k tiers. */
  function Best(tiers: seq<Tier>, event: EventTimes, now: int, k: nat): Option<Active>
    requires k <= |tiers|
  {
    if k == 0 then None
    else
      var best := Best(tiers, event, now, k - 1);
      var tier := tiers[k - 1];
      if Eligible(tier, event, now) && (best.None? || CutoffMs(tier, event) < best.value.cutoffMs)
      then Some(Active(CutoffMs(tier, event), tier.category)) else best
  }

  function NextCutoff(tiers: seq<Tier>, event: EventTimes, now: int): Option<Active> {
    Best(tiers, event, now, |tiers|)
  }

  /** The offer can be used at an instant: registration has opened, and neither the deadline nor the close nor the end has come. */
  predicate UsableAt(t: Tier, event: EventTimes, u: int) {
    && HasValidEarlyBirdOffer(t) && u < t.earlyBirdDeadline.ms
    && (event.registrationOpensAt.At? ==> event.registrationOpensAt.ms <= u)
    && (event.registrationClosesAt.At? ==> u < event.registrationClosesAt.ms)
    && (event.endAt.At? ==> u < event.endAt.ms)
  }

  /** The instant an offer ends. */
  ghost predicate EndsAt(t: Tier, event: EventTimes, cutoff: int) {
    UsableAt(t, event, cutoff - 1) && forall u :: u >= cutoff ==> !UsableAt(t, event, u)
  }

  /** The answer names the end of an offer still usable from now on; there is none exactly when no such offer is left. */
  method GetNextActiveEarlyBirdCutoff(tiers: seq<Tier>, event: EventTimes, now: int) returns (best: Option<Active>)
    ensures best == NextCutoff(tiers, event, now)
    ensures best.Some? <==> exists i, u :: 0 <= i < |tiers| && now <= u && UsableAt(tiers[i], event, u)
    ensures best.Some? ==>
      && now < best.value.cutoffMs
      && exists i :: 0 <= i < |tiers| && tiers[i].category == best.value.category && EndsAt(tiers[i], event, best.value.cutoffMs)
  {
    CutoffEndsOffer(tiers, event, now);
    best := None;
    for k := 0 to |tiers|
      invariant best == Best(tiers, event, now, k)
    {
      var tier := tiers[k];
      if !HasValidEarlyBirdOffer(tier) { continue; }
      var cutoffMs := CutoffMs(tier, event);
      if cutoffMs <= now { continue; }
      if event.registrationOpensAt.At? && event.registrationOpensAt.ms >= cutoffMs { continue; }
      if best.None? || cutoffMs < best.value.cutoffMs {
        best := Some(Active(cutoffMs, tier.category));
      }
    }
  }

  /** The soonest usable cutoff, first tier on a tie. */
  lemma {:induction false} BestIsSoonest(tiers: seq<Tier>, event: EventTimes, now: int, k: nat)
    requires k <= |tiers|
    ensures var best := Best(tiers, event, now, k);
      if best.None? then forall i :: 0 <= i < k ==> !Eligible(tiers[i], event, now)
      else exists i :: 0 <= i < k && Soonest(tiers, event, now, k, i, best.value)
  {
    if k > 0 {
      BestIsSoonest(tiers, event, now, k - 1);
      var before, best := Best(tiers, event, now, k - 1), Best(tiers, event, now, k);
      var i := k - 1;
      if before.Some? {
        var j :| 0 <= j < k - 1 && Soonest(tiers, event, now, k - 1, j, before.value);
        if best == before { i := j; }
      }
      assert best.Some? ==> Soonest(tiers, event, now, k, i, best.value);
    }
  }

  ghost predicate Soonest(tiers: seq<Tier>, event: EventTimes, now: int, k: nat, i: nat, a: Active)
    requires k <= |tiers|
  {
    && i < k && Eligible(tiers[i], event, now) && a == Active(CutoffMs(tiers[i], event), tiers[i].category)
    && (forall j :: 0 <= j < k && Eligible(tiers[j], event, now) ==> a.cutoffMs <= CutoffMs(tiers[j], event))
    && (forall j :: 0 <= j < i && Eligible(tiers[j], event, now) ==> a.cutoffMs < CutoffMs(tiers[j], event))
  }

  // ---------- What a cutoff is ----------

  /** The cutoff is one of the three bounds and none of them is earlier. */
  lemma CutoffIsLeastBound(t: Tier, event: EventTimes)
    requires HasValidEarlyBirdOffer(t)
    ensures var cutoff := CutoffMs(t, event);
      && cutoff <= t.earlyBirdDeadline.ms
      && (event.registrationClosesAt.At? ==> cutoff <= event.registrationClosesAt.ms)
      && (event.endAt.At? ==> cutoff <= event.endAt.ms)
      && (cutoff == t.earlyBirdDeadline.ms || event.registrationClosesAt == At(cutoff) || event.endAt == At(cutoff))
  {
  }

  /** A tier counts exactly when its offer can still be used at some instant from now on, and then its cutoff is the first
      instant from which it no longer can. */
  lemma EligibleIffUsable(t: Tier, event: EventTimes, now: int)
    ensures Eligible(t, event, now) <==> exists u :: now <= u && UsableAt(t, event, u)
    ensures Eligible(t, event, now) ==>
      UsableAt(t, event, CutoffMs(t, event) - 1) && forall u :: u >= CutoffMs(t, event) ==> !UsableAt(t, event, u)
  {
    if Eligible(t, event, now) {
      assert UsableAt(t, event, CutoffMs(t, event) - 1);
    }
  }

  lemma CutoffEndsOffer(tiers: seq<Tier>, event: EventTimes, now: int)
    ensures var best := NextCutoff(tiers, event, now);
      && (best.Some? <==> exists i, u :: 0 <= i < |tiers| && now <= u && UsableAt(tiers[i], event, u))
      && (best.Some? ==>
            && now < best.value.cutoffMs
            && exists i :: 0 <= i < |tiers| && tiers[i].category == best.value.category && EndsAt(tiers[i], event, best.value.cutoffMs))
  {
    BestIsSoonest(tiers, event, now, |tiers|);
    var best := NextCutoff(tiers, event, now);
    forall i | 0 <= i < |tiers| ensures Eligible(tiers[i], event, now) <==> exists u :: now <= u && UsableAt(tiers[i], event, u) {
      EligibleIffUsable(tiers[i], event, now);
    }
    if best.Some? {
      var i :| 0 <= i < |tiers| && Soonest(tiers, event, now, |tiers|, i, best.value);
      EligibleIffUsable(tiers[i], event, now);
    }
  }

  function WindowOf(event: EventTimes): Registration.Window {
    Registration.Window(event.registrationOpensAt, event.registrationClosesAt, event.endAt)
  }

  /** On an event whose close and end can be read, using the offer is registering, while open, at the early-bird price. */
  lemma UsableMeans(t: Tier, event: EventTimes, u: int)
    requires event.endAt.At? && !event.registrationClosesAt.Unparseable?
    ensures UsableAt(t, event, u) <==>
      Registration.StateAt(WindowOf(event), u) == Registration.Open && IsEarlyBird(t, u)
  {
  }

  // ---------- Label and delay ----------

  datatype Label = DaysHours(days: int, hours: int) | HoursMinutes(hours: int, minutes: int) | Minutes(minutes: int) | UnderAMinute

  function FormatCountdown(cutoffMs: int, nowMs: int): Option<Label> {
    var remainingMs := cutoffMs - nowMs;
    if remainingMs <= 0 then None
    else
      var totalMinutes := remainingMs / 60000;
      if totalMinutes < 1 then Some(UnderAMinute)
      else if totalMinutes < 60 then Some(Minutes(totalMinutes))
      else
        var totalHours := totalMinutes / 60;
        if totalHours < 24 then Some(HoursMinutes(totalHours, totalMinutes - totalHours * 60))
        else Some(DaysHours(totalHours / 24, totalHours - totalHours / 24 * 24))
  }

  /** The time a label stands for, in milliseconds, and its unit. */
  function Reads(l: Label): int {
    match l
    case DaysHours(d, h) => d * 86400000 + h * 3600000
    case HoursMinutes(h, m) => h * 3600000 + m * 60000
    case Minutes(m) => m * 60000
    case UnderAMinute => 0
  }

  function Unit(l: Label): int {
    if l.DaysHours? then 3600000 else 60000
  }

  predicate InRange(l: Label) {
    match l
    case DaysHours(d, h) => d >= 1 && 0 <= h < 24
    case HoursMinutes(h, m) => 1 <= h < 24 && 0 <= m < 60
    case Minutes(m) => 1 <= m < 60
    case UnderAMinute => true
  }

  /** A label is shown exactly while time remains, and reads that time rounded down to its unit. */
  lemma LabelReadsRemaining(cutoffMs: int, nowMs: int)
    ensures var text := FormatCountdown(cutoffMs, nowMs);
      && (text.Some? <==> nowMs < cutoffMs)
      && (text.Some? ==> InRange(text.value) && Reads(text.value) <= cutoffMs - nowMs < Reads(text.value) + Unit(text.value))
  {
    var ms := cutoffMs - nowMs;
    if ms > 0 {
      var minutes := ms / 60000;
      var hours := minutes / 60;
      assert minutes * 60000 <= ms < minutes * 60000 + 60000;
      assert hours * 60 <= minutes < hours * 60 + 60;
      assert hours / 24 * 24 <= hours < hours / 24 * 24 + 24;
    }
  }

  function NextDelayMs(cutoffMs: int, nowMs: int): Option<int> {
    var remainingMs := cutoffMs - nowMs;
    if remainingMs <= 0 then None
    else
      var delay := remainingMs - remainingMs / 60000 * 60000 + 1;
      Some(if delay < 1 then 1 else delay)
  }

  lemma DelayBounds(cutoffMs: int, nowMs: int)
    ensures NextDelayMs(cutoffMs, nowMs) == if nowMs < cutoffMs then Some((cutoffMs - nowMs) % 60000 + 1) else None
    ensures nowMs < cutoffMs ==>
      && 1 <= NextDelayMs(cutoffMs, nowMs).value <= 60000
      && nowMs + NextDelayMs(cutoffMs, nowMs).value <= cutoffMs + 1
  {
  }

  /** Up to the next tick the minute count of the displayed cutoff does not change. */
  lemma LabelHoldsUntilTick(cutoffMs: int, nowMs: int, t: int)
    requires nowMs < cutoffMs && nowMs <= t < nowMs + NextDelayMs(cutoffMs, nowMs).value && t != cutoffMs
    ensures t < cutoffMs && FormatCountdown(cutoffMs, t) == FormatCountdown(cutoffMs, nowMs)
  {
    DelayBounds(cutoffMs, nowMs);
    assert (cutoffMs - t) / 60000 == (cutoffMs - nowMs) / 60000;
  }

  // ---------- The chain ----------

  datatype Shown = Shown(text: Label, category: CategoryKey)

  /** The label computed from scratch at an instant. */
  function FreshLabel(tiers: seq<Tier>, event: EventTimes, now: int): Option<Shown> {
    match NextCutoff(tiers, event, now)
    case None => None
    case Some(a) =>
      var text := FormatCountdown(a.cutoffMs, now);
      if text.None? then None else Some(Shown.Shown(text.value, a.category))
  }

  /** Whenever a label is shown, some tier sells at its early-bird price now, the label counts down to the first instant that
      tier's offer can no longer be used, and no other tier's offer ends sooner; none is shown exactly when no offer can be
      used any more. */
  lemma LabelAdvertisesOffer(tiers: seq<Tier>, event: EventTimes, now: int)
    ensures FreshLabel(tiers, event, now).Some? <==> exists i, u :: 0 <= i < |tiers| && now <= u && UsableAt(tiers[i], event, u)
    ensures var shown := FreshLabel(tiers, event, now);
      shown.Some? ==> exists i :: 0 <= i < |tiers| && Advertised(tiers, event, now, i, shown.value)
  {
    BestIsSoonest(tiers, event, now, |tiers|);
    CutoffEndsOffer(tiers, event, now);
    var best := NextCutoff(tiers, event, now);
    if best.Some? {
      var i :| 0 <= i < |tiers| && Soonest(tiers, event, now, |tiers|, i, best.value);
      LabelReadsRemaining(best.value.cutoffMs, now);
      SoonestIsAdvertised(tiers, event, now, i, best.value, FreshLabel(tiers, event, now).value);
    }
  }

  ghost predicate Advertised(tiers: seq<Tier>, event: EventTimes, now: int, i: nat, shown: Shown)
    requires i < |tiers|
  {
    && shown.category == tiers[i].category && tiers[i].earlyBirdPrice == Some(EffectivePrice(tiers[i], now)) && IsEarlyBird(tiers[i], now)
    && exists cutoff :: now < cutoff && EndsAt(tiers[i], event, cutoff)
         && Reads(shown.text) <= cutoff - now < Reads(shown.text) + Unit(shown.text)
         && forall j, u :: 0 <= j < |tiers| && now < u && EndsAt(tiers[j], event, u) ==> cutoff <= u
  }

  lemma SoonestIsAdvertised(tiers: seq<Tier>, event: EventTimes, now: int, i: nat, a: Active, shown: Shown)
    requires i < |tiers| && Soonest(tiers, event, now, |tiers|, i, a)
    requires FormatCountdown(a.cutoffMs, now) == Some(shown.text) && shown.category == a.category
    ensures Advertised(tiers, event, now, i, shown)
  {
    EligibleIffUsable(tiers[i], event, now);
    CutoffIsLeastBound(tiers[i], event);
    LabelReadsRemaining(a.cutoffMs, now);
    assert EndsAt(tiers[i], event, a.cutoffMs);
    forall j, u | 0 <= j < |tiers| && now < u && EndsAt(tiers[j], event, u) ensures a.cutoffMs <= u {
      EligibleIffUsable(tiers[j], event, now);
      assert UsableAt(tiers[j], event, u - 1);
    }
  }

  /** While a label is shown the page says registration is open or still to open, exactly when the close and the end can be
      read: the countdown skips a bound that does not parse, the registration state takes it as passed. */
  lemma LabelAgreesIffBoundsParse(tiers: seq<Tier>, event: EventTimes, now: int)
    requires FreshLabel(tiers, event, now).Some?
    ensures Registration.StateAt(WindowOf(event), now) in {Registration.NotYetOpen, Registration.Open} <==>
      event.endAt.At? && !event.registrationClosesAt.Unparseable?
  {
    LabelAdvertisesOffer(tiers, event, now);
    var i, u :| 0 <= i < |tiers| && now <= u && UsableAt(tiers[i], event, u);
  }

  /** When the tick at `now` schedules the next one, if it does. */
  function NextTick(tiers: seq<Tier>, event: EventTimes, now: int): (r: Option<int>)
    ensures r.Some? ==> now < r.value <= now + 60000
  {
    match NextCutoff(tiers, event, now)
    case None => None
    case Some(a) =>
      if a.cutoffMs <= now then None
      else
        DelayBounds(a.cutoffMs, now);
        Some(now + NextDelayMs(a.cutoffMs, now).value)
  }

  function Chain(tiers: seq<Tier>, event: EventTimes): int -> Option<int> {
    (now: int) => NextTick(tiers, event, now)
  }

  ghost function LastTick(tiers: seq<Tier>, event: EventTimes, from: int, t: int): int
    requires from <= t
  {
    Last(Chain(tiers, event), from, t)
  }

  lemma LastTickIsLast(tiers: seq<Tier>, event: EventTimes, from: int, t: int)
    requires from <= t
    ensures var last := LastTick(tiers, event, from, t);
      from <= last <= t && (NextTick(tiers, event, last).Some? ==> t < NextTick(tiers, event, last).value)
  {
    LastIsLast(Chain(tiers, event), from, t);
  }

  lemma {:induction false} SameEligible(tiers: seq<Tier>, event: EventTimes, now: int, t: int, k: nat)
    requires k <= |tiers|
    requires forall i :: 0 <= i < k ==> (Eligible(tiers[i], event, now) <==> Eligible(tiers[i], event, t))
    ensures Best(tiers, event, now, k) == Best(tiers, event, t, k)
  {
    if k > 0 {
      SameEligible(tiers, event, now, t, k - 1);
    }
  }

  lemma CutoffStays(tiers: seq<Tier>, event: EventTimes, now: int, t: int)
    requires now <= t
    requires NextCutoff(tiers, event, now).Some? ==> t < NextCutoff(tiers, event, now).value.cutoffMs
    ensures NextCutoff(tiers, event, t) == NextCutoff(tiers, event, now)
  {
    BestIsSoonest(tiers, event, now, |tiers|);
    SameEligible(tiers, event, now, t, |tiers|);
  }

  lemma CutoffInFuture(tiers: seq<Tier>, event: EventTimes, now: int)
    ensures NextCutoff(tiers, event, now).Some? ==> now < NextCutoff(tiers, event, now).value.cutoffMs
  {
    BestIsSoonest(tiers, event, now, |tiers|);
  }

  /** With timers firing on time, the label on screen is the label a fresh computation gives, at every millisecond
      and across roll-overs, except at the very instant of the displayed cutoff, when it still reads "<1m". */
  lemma ChainShowsFreshLabel(tiers: seq<Tier>, event: EventTimes, from: int, t: int)
    requires from <= t
    ensures var last := LastTick(tiers, event, from, t);
      var shown := FreshLabel(tiers, event, last);
      || shown == FreshLabel(tiers, event, t)
      || (NextCutoff(tiers, event, last).Some?
          && NextCutoff(tiers, event, last).value.cutoffMs == t
          && shown == Some(Shown.Shown(UnderAMinute, NextCutoff(tiers, event, last).value.category)))
  {
    var last := LastTick(tiers, event, from, t);
    LastTickIsLast(tiers, event, from, t);
    CutoffInFuture(tiers, event, last);
    match NextCutoff(tiers, event, last)
    case None => CutoffStays(tiers, event, last, t);
    case Some(a) =>
      DelayBounds(a.cutoffMs, last);
      if t != a.cutoffMs {
        LabelHoldsUntilTick(a.cutoffMs, last, t);
        CutoffStays(tiers, event, last, t);
      }
  }

  /** The chain ends: once every cutoff lies behind, the last tick has scheduled nothing more. */
  lemma ChainEnds(tiers: seq<Tier>, event: EventTimes, from: int, t: int)
    requires from <= t
    requires forall i :: 0 <= i < |tiers| && HasValidEarlyBirdOffer(tiers[i]) ==> CutoffMs(tiers[i], event) < t
    ensures NextTick(tiers, event, LastTick(tiers, event, from, t)).None?
  {
    var last := LastTick(tiers, event, from, t);
    LastTickIsLast(tiers, event, from, t);
    BestIsSoonest(tiers, event, last, |tiers|);
    if NextCutoff(tiers, event, last).Some? {
      DelayBounds(NextCutoff(tiers, event, last).value.cutoffMs, last);
    }
  }

  /** The hook's state: the instant last rendered and the pending timeout. */
  class CountdownHook {
    const tiers: seq<Tier>
    const event: EventTimes
    var now: Option<int>
    var timeoutAt: Option<int>

    constructor (tiers: seq<Tier>, event: EventTimes)
      ensures this.tiers == tiers && this.event == event && now.None? && timeoutAt.None?
    {
      this.tiers, this.event, now, timeoutAt := tiers, event, None, None;
    }

    method Tick(current: int)
      modifies this`now, this`timeoutAt
      ensures now == Some(current)
      ensures timeoutAt == NextTick(tiers, event, current)
    {
      now, timeoutAt := Some(current), None;
      var next := GetNextActiveEarlyBirdCutoff(tiers, event, current);
      if next.None? {
        return;
      }
      CutoffInFuture(tiers, event, current);
      var delay := NextDelayMs(next.value.cutoffMs, current);
      if delay.None? {
        return;
      }
      timeoutAt := Some(current + delay.value);
    }
  }
}
