/** What every reachable state of the marketplace guarantees, and what later steps cannot undo. */
module MarketplaceLaws {
  import opened Options
  import LinkedAccount
  import opened EventLifecycle
  import opened Marketplace
  import Organizers = OrganizerReview
  import Pricing
  import Registration
  import SlugTables
  import SlugHistory

  ghost predicate OneTier(event: Event, c: Category) {
    exists i :: 0 <= i < |event.tiers| && event.tiers[i].category == c.id
      && forall j :: 0 <= j < |event.tiers| && event.tiers[j].category == c.id ==> j == i
  }

  ghost predicate OneHero(event: Event) {
    exists i :: i in event.images && event.images[i] == Image(Hero, ImageUploaded)
      && forall j :: j in event.images && event.images[j] == Image(Hero, ImageUploaded) ==> j == i
  }

  lemma TierForCategory(event: Event, c: Category)
    requires OneTierEach(event.tiers, event.categories) && c in event.categories
    ensures OneTier(event, c)
  {
    assert c.id in TierIds(event.tiers);
    var t :| t in event.tiers && t.category == c.id;
    var i :| 0 <= i < |event.tiers| && event.tiers[i] == t;
  }

  /** In every reachable state, an event that is published or under review has a category, exactly one tier for each,
      no other tier, exactly one uploaded hero and a verified organizer; and an organizer with an active account, unless that
      organizer's account is unclean. */
  lemma LiveEventsAreComplete(steps: seq<Timed>, e: EventId)
    requires var m := After(EMPTY, steps).market; e in m.events && Live(m.events[e])
    ensures var w := After(EMPTY, steps); var event := w.market.events[e];
      && event.categories != [] && |event.tiers| == |event.categories|
      && (forall c :: c in event.categories ==> OneTier(event, c))
      && OneHero(event)
      && event.organizerId in w.market.desks
      && var row := w.market.desks[event.organizerId].organizer;
         row.isVerified && row.verificationStatus == Organizers.Approved
         && (event.organizerId !in w.unclean ==> row.accountStatus == Organizers.Active)
  {
    EmptyInv();
    RunKeepsInv(EMPTY, steps);
    var w := After(EMPTY, steps);
    var event := w.market.events[e];
    assert Backed(w, event);
    forall c | c in event.categories ensures OneTier(event, c) {
      TierForCategory(event, c);
    }
    OneEachSameLength(event.tiers, event.categories);
    var i :| i in event.images && event.images[i] == Image(Hero, ImageUploaded);
    assert OneUploaded(event.images);
  }

  /** The first four events an organizer ever has published were each first published by an approval, and the log that
      says so names exactly the events with a first publication. */
  lemma FirstFourByApproval(steps: seq<Timed>, o: OrganizerId)
    ensures var w := After(EMPTY, steps); var log := FirstsOf(w, o);
      && (forall i :: 0 <= i < |log| && i < 4 ==> log[i].byAdmin)
      && |log| == |PublishedPaid(w.market, o)|
      && forall e :: (exists i :: 0 <= i < |log| && log[i].event == e) <==>
           e in w.market.events && w.market.events[e].organizerId == o && w.market.events[e].firstPublishedAt.Some?
  {
    EmptyInv();
    RunKeepsInv(EMPTY, steps);
    var w := After(EMPTY, steps);
    assert LogOk(w, o);
    forall e ensures e in PublishedPaid(w.market, o) <==>
      e in w.market.events && w.market.events[e].organizerId == o && w.market.events[e].firstPublishedAt.Some?
    {
      if e in w.market.events { assert EventLifecycle.Inv(w.market.events[e], w.clock); }
    }
  }

  /** publishedAt is set exactly while the event is published, and then not before the first publication. */
  lemma PublicationDates(steps: seq<Timed>, e: EventId)
    requires e in After(EMPTY, steps).market.events
    ensures var event := After(EMPTY, steps).market.events[e];
      && (event.publishedAt.Some? <==> event.status == Published)
      && (event.status == Published ==> event.firstPublishedAt.Some? && event.firstPublishedAt.value <= event.publishedAt.value)
      && (event.tiers == [] || OneTierEach(event.tiers, event.categories))
  {
    EmptyInv();
    RunKeepsInv(EMPTY, steps);
  }

  /** Every stored event has an accepted schedule, so with a registration window its public page passes through all
      four registration states, each on its own non-empty interval. */
  lemma SchedulesPassAllStates(steps: seq<Timed>, e: EventId, t: int)
    requires var m := After(EMPTY, steps).market; e in m.events && m.events[e].schedule.opensAt.Some?
    ensures var s := After(EMPTY, steps).market.events[e].schedule;
      && s.closesAt.Some? && s.opensAt.value < s.closesAt.value <= s.startAt < s.endAt
      && Registration.StateAt(Registration.WindowOf(s), t) ==
           if t < s.opensAt.value then Registration.NotYetOpen else if t < s.closesAt.value then Registration.Open
           else if t < s.endAt then Registration.ClosedWindow else Registration.EventEnded
  {
    EmptyInv();
    RunKeepsInv(EMPTY, steps);
    Registration.AcceptedPassesAllStates(After(EMPTY, steps).market.events[e].schedule, t);
  }

  /** For every stored tier, page and server charge the same positive price at every instant but the deadline itself. */
  lemma StoredPricesAgree(steps: seq<Timed>, e: EventId, t: Pricing.Tier, now: int)
    requires var m := After(EMPTY, steps).market; e in m.events && t in m.events[e].tiers
    ensures Pricing.ServerPrice(t, now) >= EVENT_PRICING_MIN_PRICE_PAISE
    ensures Pricing.EffectivePrice(t, now) == Pricing.ServerPrice(t, now) <==> t.earlyBirdDeadline != Pricing.At(now)
  {
    EmptyInv();
    RunKeepsInv(EMPTY, steps);
    PricedMeansActive(After(EMPTY, steps).market.events[e], now);
    Pricing.WebAndServerAgree(t, now);
  }

  // ---------- Accounts ----------

  predicate HasActive(w: World, o: OrganizerId) {
    o in w.market.desks && w.market.desks[o].organizer.accountStatus == Organizers.Active
  }

  predicate ActivatedBy(w: World, t: Timed, o: OrganizerId) {
    t.op.DoJob? && t.op.organizer == o && o in w.market.desks && LinkedAccount.Activates(w.market.desks[o], LinkedAccount.Background(t.op.step))
  }

  /** The step an organizer's desk takes, if it takes one. */
  function DeskStepOf(w: World, t: Timed, o: OrganizerId): Option<LinkedAccount.DeskStep> {
    match t.op
    case DoAtDesk(x, dop) => if x == o then Some(LinkedAccount.Route(dop, w.clock + t.elapsed)) else None
    case DoJob(x, step) => if x == o then Some(LinkedAccount.Background(step)) else None
    case _ => None
  }

  lemma DeskAfterStep(w: World, t: Timed, o: OrganizerId)
    ensures o in w.market.desks ==>
      && o in Step(w, t).market.desks
      && Step(w, t).market.desks[o] == match DeskStepOf(w, t, o)
                                       case None => w.market.desks[o]
                                       case Some(step) => LinkedAccount.Advance(w.market.desks[o], step)
    ensures o !in w.market.desks && o in Step(w, t).market.desks ==>
      Step(w, t).market.desks[o] == LinkedAccount.Desk(Organizers.NEW_ORGANIZER, map[])
  {
  }

  lemma StepActivates(w: World, t: Timed, o: OrganizerId)
    requires !HasActive(w, o)
    ensures HasActive(Step(w, t), o) <==> ActivatedBy(w, t, o)
  {
    DeskAfterStep(w, t, o);
    if o in w.market.desks && DeskStepOf(w, t, o).Some? {
      LinkedAccount.BecomesActiveIff(w.market.desks[o], DeskStepOf(w, t, o).value);
    }
  }

  ghost predicate EverActivated(w: World, steps: seq<Timed>, o: OrganizerId)
    decreases |steps|
  {
    steps != [] && (ActivatedBy(w, steps[0], o) || EverActivated(Step(w, steps[0]), steps[1..], o))
  }

  lemma {:induction false} RunActivates(w: World, steps: seq<Timed>, o: OrganizerId)
    requires HasActive(After(w, steps), o)
    ensures HasActive(w, o) || EverActivated(w, steps, o)
    decreases |steps|
  {
    if steps != [] && !HasActive(w, o) {
      StepActivates(w, steps[0], o);
      RunActivates(Step(w, steps[0]), steps[1..], o);
    }
  }

  /** Behind every live event stands the provider's word: its organizer's account is active, and a job of that organizer has
      had the reply "activated", unless the account is unclean. */
  lemma LiveEventsAreActivated(steps: seq<Timed>, e: EventId)
    requires var m := After(EMPTY, steps).market; e in m.events && Live(m.events[e])
    ensures var w := After(EMPTY, steps); var o := w.market.events[e].organizerId;
      o !in w.unclean ==> HasActive(w, o) && EverActivated(EMPTY, steps, o)
  {
    LiveEventsAreComplete(steps, e);
    var w := After(EMPTY, steps);
    var o := w.market.events[e].organizerId;
    if o !in w.unclean { RunActivates(EMPTY, steps, o); }
  }

  // ---------- Slugs ----------

  /** The events a slug lookup answers for. */
  function Public(m: Market): set<EventId> {
    set e | e in m.events && (m.events[e].status == Published || m.events[e].status == Completed)
  }

  lemma StepKeepsHeld(w: World, t: Timed, e: EventId)
    ensures SlugHistory.HeldBy(SlugWorld(w), e) <= SlugHistory.HeldBy(SlugWorld(Step(w, t)), e)
  {
  }

  lemma {:induction false} RunKeepsHeld(w: World, steps: seq<Timed>, e: EventId)
    ensures SlugHistory.HeldBy(SlugWorld(w), e) <= SlugHistory.HeldBy(SlugWorld(After(w, steps)), e)
    decreases |steps|
  {
    if steps != [] {
      StepKeepsHeld(w, steps[0], e);
      RunKeepsHeld(Step(w, steps[0]), steps[1..], e);
    }
  }

  /** Any slug an event held at any point leads, while the event is public, to that event, directly or by one redirect to a
      slug that answers directly; and no other event ever holds it. */
  lemma EventSlugsLeadHome(before: seq<Timed>, after: seq<Timed>, e: EventId, slug: string)
    requires slug in SlugHistory.HeldBy(SlugWorld(After(EMPTY, before)), e)
    ensures var w := After(After(EMPTY, before), after);
      && e in w.market.events && e in w.market.slugs.active
      && (forall other :: slug in SlugHistory.HeldBy(SlugWorld(w), other) ==> other == e)
      && (e in Public(w.market) ==>
            var current := w.market.slugs.active[e];
            && SlugHistory.LookupSlug(w.market.slugs, SlugTables.EventKind, Public(w.market), current) == SlugHistory.Found(e)
            && SlugHistory.LookupSlug(w.market.slugs, SlugTables.EventKind, Public(w.market), slug)
               == if slug == current then SlugHistory.Found(e) else SlugHistory.MovedTo(current))
  {
    var mid := After(EMPTY, before);
    var w := After(mid, after);
    EmptyInv();
    RunKeepsInv(EMPTY, before);
    RunKeepsInv(mid, after);
    RunKeepsHeld(mid, after, e);
    forall other | slug in SlugHistory.HeldBy(SlugWorld(w), other) ensures other == e {
      SlugHistory.NoOtherHolder(SlugWorld(w), e, other, slug);
    }
    SlugHistory.OneHop(SlugWorld(w), SlugTables.EventKind, Public(w.market), e, slug);
  }

  /** The slug probe of readiness never fails, so no publication is ever refused for its slug. */
  lemma SlugConflictNeverHappens(steps: seq<Timed>, who: Actor, e: EventId, move: Move, now: int)
    ensures MoveEvent(After(EMPTY, steps).market, who, e, move, now).1 != Denied(SlugConflict)
  {
    EmptyInv();
    RunKeepsInv(EMPTY, steps);
    var m := After(EMPTY, steps).market;
    if e in m.events && m.events[e].organizerId in m.desks {
      OwnSlugIsFree(After(EMPTY, steps), e);
      ProbePassing(m.events[e], move, ContextFor(m, e), now);
    }
  }

  lemma OwnSlugIsFree(w: World, e: EventId)
    requires SlugsOk(w) && e in w.market.events
    ensures SlugFree(w.market, e)
  {
    SlugHistory.OwnSlugStaysAvailable(w.market.slugs, e);
  }

  lemma ProbePassing(e: Event, move: Move, c: Context, now: int)
    requires c.slugFree
    ensures MoveTo(e, move, c, now).1 != Denied(SlugConflict)
  {
    DenialsAre(e, c, now);
    assert Passes(SlugAvailable, e, c, now);
  }

  // ---------- What later steps cannot undo ----------

  lemma RowAfterStep(w: World, t: Timed, e: EventId)
    requires e in w.market.events
    ensures e in Step(w, t).market.events
    ensures var row, row' := w.market.events[e], Step(w, t).market.events[e];
      || row' == row
      || (t.op.DoEdit? && row' == Apply(row, t.op.edit).0)
      || (t.op.DoMove? && exists c :: row' == MoveTo(row, t.op.move, c, Step(w, t).clock).0)
  {
    if t.op.DoMove? && Step(w, t).market != w.market { MoveShape(w, t); }
  }

  /** Same categories, whatever their spots. */
  ghost predicate SameCategories(a: seq<Category>, b: seq<Category>) {
    |a| == |b| && forall i :: 0 <= i < |a| ==> a[i].id == b[i].id && a[i].slug == b[i].slug && a[i].sortOrder == b[i].sortOrder
  }

  ghost predicate Fixed(row: Event, row': Event) {
    && row'.organizerId == row.organizerId && row'.isPaid == row.isPaid
    && (row.firstPublishedAt.Some? ==> row'.firstPublishedAt == row.firstPublishedAt)
    && (row.tiers != [] ==> row'.tiers != [] && SameCategories(row.categories, row'.categories))
  }

  lemma EditKeepsFixed(row: Event, edit: Edit)
    ensures Fixed(row, Apply(row, edit).0)
  {
    EditKeepsOwner(row, edit);
    if row.tiers != [] { PricedCategoriesFrozen(row, edit); }
  }

  lemma MoveKeepsFixed(row: Event, move: Move, c: Context, now: int)
    ensures Fixed(row, MoveTo(row, move, c, now).0)
  {
  }

  lemma StepKeepsFixed(w: World, t: Timed, e: EventId)
    requires e in w.market.events
    ensures e in Step(w, t).market.events && Fixed(w.market.events[e], Step(w, t).market.events[e])
  {
    RowAfterStep(w, t, e);
    var row, row' := w.market.events[e], Step(w, t).market.events[e];
    if t.op.DoEdit? && row' == Apply(row, t.op.edit).0 {
      EditKeepsFixed(row, t.op.edit);
    } else if row' != row {
      var c :| row' == MoveTo(row, t.op.move, c, Step(w, t).clock).0;
      MoveKeepsFixed(row, t.op.move, c, Step(w, t).clock);
    }
  }

  /** A first publication is never overwritten or cleared, and a priced event keeps its categories for good. */
  lemma {:induction false} FixedForGood(w: World, steps: seq<Timed>, e: EventId)
    requires e in w.market.events
    ensures e in After(w, steps).market.events && Fixed(w.market.events[e], After(w, steps).market.events[e])
    decreases |steps|
  {
    if steps != [] {
      StepKeepsFixed(w, steps[0], e);
      FixedForGood(Step(w, steps[0]), steps[1..], e);
    }
  }
}
