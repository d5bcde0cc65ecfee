/** What each change of an event does, in every reachable state: who can make it, when it goes through, the whole new row and
    what the public sees of it; and that a refusal changes nothing. */
module EventOutcomes {
  import opened Options
  import opened EventLifecycle
  import opened Marketplace
  import opened MarketplaceLaws
  import Organizers = OrganizerReview
  import Pricing
  import Registration
  import SlugHistory
  import SlugTables

  /** Why an event cannot be published now: the first condition that fails. In a reachable state nothing else can. */
  function Obstacle(m: Market, e: EventId, now: int): Option<Denial>
    requires e in m.events && m.events[e].organizerId in m.desks
  {
    var row, organizer := m.events[e], m.desks[m.events[e].organizerId].organizer;
    if organizer.verificationStatus != Organizers.Approved then Some(OrganizerNotVerified)
    else if organizer.accountStatus != Organizers.Active then Some(RazorpayNotLinked)
    else if row.schedule.startAt <= now then Some(DateInPast)
    else if row.tiers == [] then Some(PricingInactive)
    else if !HasHero(row) || row.refundPolicy in {None, Some("")} || row.cancellationPolicy in {None, Some("")} then Some(Incomplete)
    else None
  }

  lemma SameDenials(a: Event, b: Event, c: Context, now: int)
    requires b == a.(status := b.status)
    ensures Denials(a, c, now) == Denials(b, c, now)
  {
    forall check ensures check in Denials(a, c, now) <==> check in Denials(b, c, now) {
      assert Passes(check, a, c, now) <==> Passes(check, b, c, now);
    }
  }

  lemma BlankIs(text: Option<string>)
    ensures NonBlank(text) <==> text !in {None, Some("")}
  {
  }

  lemma ObstacleIs(w: World, e: EventId, now: int)
    requires Marketplace.Inv(w) && e in w.market.events && w.market.events[e].organizerId in w.market.desks
    ensures var denials := Denials(w.market.events[e], ContextFor(w.market, e), now);
      Obstacle(w.market, e, now) == if denials == {} then None else Some(DenialFor(denials))
  {
    var row, c := w.market.events[e], ContextFor(w.market, e);
    var draft := row.(status := Draft);
    BlankIs(row.refundPolicy);
    BlankIs(row.cancellationPolicy);
    assert c.isVerified <==> w.market.desks[row.organizerId].organizer.verificationStatus == Organizers.Approved;
    OwnSlugIsFree(w, e);
    SameDenials(row, draft, c, now);
    RefusalReason(draft, c, now);
    DraftRefusal(draft, c, now);
  }

  lemma DraftRefusal(e: Event, c: Context, now: int)
    requires e.status == Draft
    ensures var answer := PublishStep(e, c, now).1;
      if Denials(e, c, now) == {} then !answer.Denied? else answer == Denied(DenialFor(Denials(e, c, now)))
  {
  }

  /** The readiness list of a reachable event, item by item: pricing that is there at all is complete and active, and a row's
      own slug is always available. */
  ghost predicate Fails(m: Market, e: EventId, now: int, check: Check)
    requires e in m.events && m.events[e].organizerId in m.desks
  {
    var row, organizer := m.events[e], m.desks[m.events[e].organizerId].organizer;
    match check
    case OrganizerVerified => organizer.verificationStatus != Organizers.Approved
    case RazorpayLinked => organizer.accountStatus != Organizers.Active
    case CategoriesConfigured => row.categories == []
    case PricingConfigured => row.tiers == []
    case ActivePricing => row.tiers == []
    case HeroImageUploaded => forall i :: i in row.images ==> row.images[i] != Image(Hero, ImageUploaded)
    case RefundPolicyConfigured => row.refundPolicy in {None, Some("")}
    case CancellationPolicyConfigured => row.cancellationPolicy in {None, Some("")}
    case StartsInFuture => row.schedule.startAt <= now
    case EndsInFuture => row.schedule.endAt <= now
    case SlugAvailable => false
  }

  lemma ItemIs(w: World, e: EventId, now: int, check: Check)
    requires Marketplace.Inv(w) && e in w.market.events && w.market.events[e].organizerId in w.market.desks
    ensures Passes(check, w.market.events[e], ContextFor(w.market, e), now) <==> !Fails(w.market, e, now, check)
  {
    var row, c := w.market.events[e], ContextFor(w.market, e);
    match check
    case OrganizerVerified =>
      assert c.isVerified <==> w.market.desks[row.organizerId].organizer.verificationStatus == Organizers.Approved;
    case SlugAvailable => OwnSlugIsFree(w, e);
    case _ => OwnItemIs(w.market, e, now, check);
  }

  lemma OwnItemIs(m: Market, e: EventId, now: int, check: Check)
    requires e in m.events && m.events[e].organizerId in m.desks && Configured(m.events[e])
    requires !check.OrganizerVerified? && !check.SlugAvailable?
    ensures Passes(check, m.events[e], ContextFor(m, e), now) <==> !Fails(m, e, now, check)
  {
    var row := m.events[e];
    match check
    case ActivePricing => PricedMeansActive(row, now);
    case PricingConfigured => if row.tiers != [] { PricedPassesPricing(row, ContextFor(m, e), now); }
    case RefundPolicyConfigured => BlankIs(row.refundPolicy);
    case CancellationPolicyConfigured => BlankIs(row.cancellationPolicy);
    case _ =>
  }

  /** In every reachable state the readiness of an event lists exactly these items, and asks for a review below four first
      publications. */
  lemma ReadinessLists(steps: seq<Timed>, e: EventId, now: int)
    requires e in After(EMPTY, steps).market.events
    ensures var w := After(EMPTY, steps); var m := w.market; var o := m.events[e].organizerId;
      && o in m.desks
      && (forall check :: check in Denials(m.events[e], ContextFor(m, e), now) <==> Fails(m, e, now, check))
      && (NeedsReview(m.events[e], ContextFor(m, e), now) <==> |FirstsOf(w, o)| < 4)
  {
    EmptyInv();
    RunKeepsInv(EMPTY, steps);
    var w := After(EMPTY, steps);
    assert Backed(w, w.market.events[e]) && LogOk(w, w.market.events[e].organizerId);
    DenialsAre(w.market.events[e], ContextFor(w.market, e), now);
    forall check ensures Passes(check, w.market.events[e], ContextFor(w.market, e), now) <==> !Fails(w.market, e, now, check) {
      ItemIs(w, e, now, check);
    }
  }

  /** One event row changed, and nothing else. */
  ghost predicate OnlyRow(m: Market, m': Market, e: EventId, row: Event) {
    m' == m.(events := m.events[e := row])
  }

  /** What a visitor gets for an event's own slug. */
  ghost function Visit(m: Market, e: EventId): SlugHistory.Lookup
    requires e in m.slugs.active
  {
    SlugHistory.LookupSlug(m.slugs, SlugTables.EventKind, Public(m), m.slugs.active[e])
  }

  lemma VisitIs(w: World, m: Market, e: EventId)
    requires Marketplace.Inv(w) && e in w.market.events && m.slugs == w.market.slugs
    ensures e in m.slugs.active && Visit(m, e) == if e in Public(m) then SlugHistory.Found(e) else SlugHistory.Missing
  {
    var s := SlugWorld(w);
    assert e in s.held && s.tables.active[e] in s.held[e];
    SlugHistory.OneHop(s, SlugTables.EventKind, Public(m), e, s.tables.active[e]);
  }

  /** The row of an event going public: a first publication keeps its stamp. */
  function PublishedRow(row: Event, now: int): Event {
    row.(status := Published, publishedAt := Some(now),
         firstPublishedAt := if row.firstPublishedAt.None? then Some(now) else row.firstPublishedAt)
  }

  /** What a visitor sees once one row has gone public. */
  ghost predicate GoesPublic(m: Market, m': Market, e: EventId) {
    Public(m') == Public(m) + {e} && e in m'.slugs.active && Visit(m', e) == SlugHistory.Found(e)
  }

  lemma PublishedGoesPublic(w: World, m': Market, e: EventId, row: Event)
    requires Marketplace.Inv(w) && e in w.market.events && OnlyRow(w.market, m', e, row) && row.status == Published
    ensures GoesPublic(w.market, m', e)
  {
    VisitIs(w, m', e);
  }

  /** Publishing or approving, once the event is at hand. */
  function Decided(m: Market, e: EventId, now: int, row': Event, transition: Transition): (Market, Answer)
    requires e in m.events && m.events[e].organizerId in m.desks
  {
    match Obstacle(m, e, now)
    case Some(denial) => (m, Denied(denial))
    case None => (m.(events := m.events[e := row']), Moved(transition))
  }

  lemma SameMarket(m: Market, e: EventId)
    requires e in m.events
    ensures m.(events := m.events[e := m.events[e]]) == m
  {
    assert m.events[e := m.events[e]] == m.events;
  }

  lemma ApprovalIs(w: World, e: EventId, now: int)
    requires Marketplace.Inv(w) && e in w.market.events && w.market.events[e].status == UnderReview
    ensures var m := w.market;
      && m.events[e].organizerId in m.desks
      && MoveEvent(m, Admin, e, AdminApprove, now) == Decided(m, e, now, PublishedRow(m.events[e], now), UnderReviewToPublished)
  {
    assert Backed(w, w.market.events[e]);
    ObstacleIs(w, e, now);
    SameMarket(w.market, e);
  }

  lemma ReviewObstacles(w: World, e: EventId, now: int)
    requires Marketplace.Inv(w) && e in w.market.events && w.market.events[e].status == UnderReview
    ensures w.market.events[e].organizerId in w.market.desks
    ensures Obstacle(w.market, e, now) in {None, Some(RazorpayNotLinked), Some(DateInPast), Some(Incomplete)}
  {
    assert Backed(w, w.market.events[e]);
    OneEachSameLength(w.market.events[e].tiers, w.market.events[e].categories);
  }

  /** An administrator's approval. It can only fail because the organizer's account is no longer active, the start has come
      or a policy text has gone; otherwise the event is public from now on, under its slug. */
  lemma ApprovalTakesEffect(steps: seq<Timed>, e: EventId, now: int)
    requires var m := After(EMPTY, steps).market; e in m.events && m.events[e].status == UnderReview
    ensures var m := After(EMPTY, steps).market; var (m', answer) := MoveEvent(m, Admin, e, AdminApprove, now);
      && m.events[e].organizerId in m.desks
      && match Obstacle(m, e, now)
         case None => answer == Moved(UnderReviewToPublished) && OnlyRow(m, m', e, PublishedRow(m.events[e], now)) && GoesPublic(m, m', e)
         case Some(denial) => answer == Denied(denial) && m' == m && denial in {RazorpayNotLinked, DateInPast, Incomplete}
  {
    EmptyInv();
    RunKeepsInv(EMPTY, steps);
    var w := After(EMPTY, steps);
    ApprovalIs(w, e, now);
    ReviewObstacles(w, e, now);
    if Obstacle(w.market, e, now).None? {
      PublishedGoesPublic(w, MoveEvent(w.market, Admin, e, AdminApprove, now).0, e, PublishedRow(w.market.events[e], now));
    }
  }

  lemma PublicationIs(w: World, e: EventId, now: int)
    requires Marketplace.Inv(w) && e in w.market.events && w.market.events[e].status == Draft
    ensures var m := w.market; var row := m.events[e]; var o := row.organizerId;
      && o in m.desks
      && MoveEvent(m, Owner(o), e, Publish, now) ==
           if |FirstsOf(w, o)| < 4
           then Decided(m, e, now, row.(status := UnderReview, submittedForReviewAt := Some(now)), DraftToUnderReview)
           else Decided(m, e, now, PublishedRow(row, now).(submittedForReviewAt := None), DraftToPublished)
  {
    assert Backed(w, w.market.events[e]) && LogOk(w, w.market.events[e].organizerId);
    assert EventLifecycle.Inv(w.market.events[e], w.clock);
    ObstacleIs(w, e, now);
    SameMarket(w.market, e);
  }

  /** What the publication of a draft leads to: review below four first publications, the public from four on. */
  ghost predicate Submitted(m: Market, m': Market, answer: Answer, e: EventId, now: int, firsts: nat)
    requires e in m.events
  {
    var row := m.events[e];
    if firsts < 4 then
      answer == Moved(DraftToUnderReview) && OnlyRow(m, m', e, row.(status := UnderReview, submittedForReviewAt := Some(now)))
      && Public(m') == Public(m)
    else
      answer == Moved(DraftToPublished) && OnlyRow(m, m', e, PublishedRow(row, now).(submittedForReviewAt := None))
      && GoesPublic(m, m', e)
  }

  lemma PublicationAt(w: World, e: EventId, now: int)
    requires Marketplace.Inv(w) && e in w.market.events && w.market.events[e].status == Draft
    ensures var m := w.market; var o := m.events[e].organizerId; var (m', answer) := MoveEvent(m, Owner(o), e, Publish, now);
      && o in m.desks
      && match Obstacle(m, e, now)
         case Some(denial) => answer == Denied(denial) && m' == m
         case None => Submitted(m, m', answer, e, now, |FirstsOf(w, o)|)
  {
    var row := w.market.events[e];
    PublicationIs(w, e, now);
    if Obstacle(w.market, e, now).None? && |FirstsOf(w, row.organizerId)| >= 4 {
      PublishedGoesPublic(w, MoveEvent(w.market, Owner(row.organizerId), e, Publish, now).0, e, PublishedRow(row, now).(submittedForReviewAt := None));
    }
  }

  /** An owner's publication of a draft: refused for the first obstacle, and then nothing changes; or it goes through. */
  lemma PublicationTakesEffect(steps: seq<Timed>, e: EventId, now: int)
    requires var m := After(EMPTY, steps).market; e in m.events && m.events[e].status == Draft
    ensures var w := After(EMPTY, steps); var m := w.market; var o := m.events[e].organizerId;
      var (m', answer) := MoveEvent(m, Owner(o), e, Publish, now);
      && o in m.desks
      && match Obstacle(m, e, now)
         case Some(denial) => answer == Denied(denial) && m' == m
         case None => Submitted(m, m', answer, e, now, |FirstsOf(w, o)|)
  {
    EmptyInv();
    RunKeepsInv(EMPTY, steps);
    PublicationAt(After(EMPTY, steps), e, now);
  }

  /** An unpublished event is a draft again and no longer answers; its first publication stays on record. */
  lemma UnpublicationTakesEffect(steps: seq<Timed>, o: OrganizerId, e: EventId, now: int)
    requires var m := After(EMPTY, steps).market; e in m.events && m.events[e].organizerId == o && m.events[e].status == Published
    ensures var m := After(EMPTY, steps).market; var (m', answer) := MoveEvent(m, Owner(o), e, Unpublish, now);
      && answer == Moved(PublishedToDraft) && OnlyRow(m, m', e, m.events[e].(status := Draft, publishedAt := None))
      && Public(m') == Public(m) - {e} && e in m'.slugs.active && Visit(m', e) == SlugHistory.Missing
      && m'.events[e].firstPublishedAt.Some?
  {
    EmptyInv();
    RunKeepsInv(EMPTY, steps);
    var w := After(EMPTY, steps);
    var m' := MoveEvent(w.market, Owner(o), e, Unpublish, now).0;
    assert Backed(w, w.market.events[e]);
    VisitIs(w, m', e);
  }

  /** A rejected event is a draft again, to be edited and submitted once more. */
  lemma RejectionTakesEffect(steps: seq<Timed>, e: EventId, now: int)
    requires var m := After(EMPTY, steps).market; e in m.events && m.events[e].status == UnderReview
    ensures var m := After(EMPTY, steps).market; var (m', answer) := MoveEvent(m, Admin, e, AdminReject, now);
      answer == Moved(UnderReviewToDraft) && OnlyRow(m, m', e, m.events[e].(status := Draft)) && Public(m') == Public(m)
  {
    EmptyInv();
    RunKeepsInv(EMPTY, steps);
    assert Backed(After(EMPTY, steps), After(EMPTY, steps).market.events[e]);
    assert EventLifecycle.Inv(After(EMPTY, steps).market.events[e], After(EMPTY, steps).clock);
  }

  /** Nobody but the owner publishes or unpublishes, nobody but an administrator approves or rejects, and each from the one
      status it starts at: any other call changes nothing and never reports a transition made. */
  lemma OtherMovesDoNothing(m: Market, who: Actor, e: EventId, move: Move, now: int)
    requires !(e in m.events
      && match move
         case Publish => m.events[e].status == Draft && who == Owner(m.events[e].organizerId)
         case Unpublish => m.events[e].status == Published && who == Owner(m.events[e].organizerId)
         case AdminApprove => m.events[e].status == UnderReview && who == Admin
         case AdminReject => m.events[e].status == UnderReview && who == Admin)
    ensures var (m', answer) := MoveEvent(m, who, e, move, now);
      m' == m && (answer.Moved? ==> answer.transition in {AlreadyPublished, AlreadyUnderReview})
  {
    if e in m.events { SameMarket(m, e); }
  }

  // ---------- Creating and editing ----------

  /** A creation by an organizer with an accepted schedule and a slug to be had gives a draft with nothing configured, found
      by nobody yet; any other changes nothing. */
  lemma CreationTakesEffect(m: Market, o: OrganizerId, e: EventId, title: string, schedule: Registration.Schedule)
    ensures var slug := SlugTables.Reserve(m.slugs, SlugTables.EventKind, title, None, 50);
      CreateEvent(m, o, e, title, schedule).1 == Ok <==>
        Registration.AcceptedSchedule(schedule) && o in m.desks && e !in m.events && slug.Reserved?
    ensures var slug := SlugTables.Reserve(m.slugs, SlugTables.EventKind, title, None, 50);
      CreateEvent(m, o, e, title, schedule).0 ==
        if CreateEvent(m, o, e, title, schedule).1 != Ok then m
        else m.(events := m.events[e := Event(o, title, Draft, true, None, None, None, schedule, None, None, [], [], map[])],
                slugs := SlugTables.Tables(m.slugs.active[e := slug.slug], m.slugs.redirects))
    ensures Public(CreateEvent(m, o, e, title, schedule).0) == Public(m)
  {
  }

  ghost predicate AllowedTier(t: Pricing.Tier) {
    && 100 <= t.basePrice <= 10000000
    && match (t.earlyBirdPrice, t.earlyBirdDeadline)
       case (None, Absent) => true
       case (Some(price), At(_)) => 100 <= price < t.basePrice
       case _ => false
  }

  ghost predicate Repeats(config: seq<CategoryConfig>) {
    exists i, j :: 0 <= i < j < |config|
      && (config[i].id == config[j].id || config[i].slug == config[j].slug || config[i].sortOrder == config[j].sortOrder)
  }

  /** When the owner's edit goes through. */
  ghost predicate Acceptable(row: Event, edit: Edit) {
    match edit
    case UpdateDraft(payload) => row.status == Draft && payload.Details? && Registration.AcceptedSchedule(payload.schedule)
    case ReplaceCategories(config) => row.status == Draft && row.tiers == [] && config != [] && !Repeats(config)
    case ReplacePricing(tiers) =>
      row.status == Draft && tiers != [] && OneTierEach(tiers, row.categories) && forall t :: t in tiers ==> AllowedTier(t)
    case UpdateCapacity(id, total, remaining) =>
      && row.status == Draft && (total.Some? || remaining.Some?) && (total.Some? ==> total.value >= 1) && (remaining.Some? ==> remaining.value >= 0)
      && exists k :: k in row.categories && k.id == id
           && (remaining.Some? ==> remaining.value <= if total.Some? then total.value else k.spotsTotal)
    case UpdatePolicies(refund, cancellation) => row.status in {Draft, Published} && refund != "" && cancellation != ""
    case PatchPublished(highRisk, _, _) => row.status == Published && !highRisk
    case RequestImage(i, kind) => i !in row.images && (kind == Hero ==> row.status == Draft)
    case ConfirmImage(i, upload) =>
      i in row.images && row.images[i].status == ImagePending && (row.images[i].kind == Hero ==> row.status == Draft) && upload == GoodUpload
    case DeleteImage(i) =>
      i in row.images && row.images[i].status in {ImagePending, ImageUploaded} && (row.images[i].kind == Hero ==> row.status == Draft)
  }

  /** The new spots of a category: the numbers given, the ones it had otherwise, its remaining spots never above its total. */
  ghost predicate NewSpots(k: Category, k': Category, total: Option<int>, remaining: Option<int>) {
    && k' == k.(spotsTotal := k'.spotsTotal, spotsRemaining := k'.spotsRemaining)
    && (if total.Some? then k'.spotsTotal == total.value else k'.spotsTotal == k.spotsTotal)
    && (if remaining.Some? then k'.spotsRemaining == remaining.value
        else k'.spotsRemaining <= k'.spotsTotal && (k'.spotsRemaining == k.spotsRemaining || k'.spotsRemaining == k'.spotsTotal < k.spotsRemaining))
  }

  /** The images after one of them changed: this one as given, the others as they were. */
  ghost predicate OnlyImage(row: Event, row': Event, i: ImageId, image: Image) {
    row' == row.(images := row.images[i := image])
  }

  /** What an edit that went through has done to the row: this, and nothing else. */
  ghost predicate Edited(row: Event, edit: Edit, row': Event) {
    match edit
    case UpdateDraft(payload) => payload.Details? && row' == row.(title := payload.title, schedule := payload.schedule)
    case ReplaceCategories(config) =>
      && row' == row.(categories := row'.categories) && |row'.categories| == |config|
      && forall i :: 0 <= i < |config| ==> row'.categories[i] == Category(config[i].id, config[i].slug, config[i].sortOrder, 100, 100)
    case ReplacePricing(tiers) => row' == row.(tiers := tiers)
    case UpdateCapacity(id, total, remaining) =>
      && row' == row.(categories := row'.categories) && |row'.categories| == |row.categories|
      && forall i :: 0 <= i < |row.categories| ==>
           if row.categories[i].id == id then NewSpots(row.categories[i], row'.categories[i], total, remaining) else row'.categories[i] == row.categories[i]
    case UpdatePolicies(refund, cancellation) => row' == row.(refundPolicy := Some(refund), cancellationPolicy := Some(cancellation))
    case PatchPublished(_, refund, cancellation) =>
      && row' == row.(refundPolicy := row'.refundPolicy, cancellationPolicy := row'.cancellationPolicy)
      && (match refund case SetTo(text) => row'.refundPolicy == text case Keep => row'.refundPolicy == row.refundPolicy)
      && (match cancellation case SetTo(text) => row'.cancellationPolicy == text case Keep => row'.cancellationPolicy == row.cancellationPolicy)
    case RequestImage(i, kind) => OnlyImage(row, row', i, Image(kind, ImagePending))
    case ConfirmImage(i, _) =>
      && row' == row.(images := row'.images) && row'.images.Keys == row.images.Keys && i in row.images
      && row'.images[i] == Image(row.images[i].kind, ImageUploaded)
      && forall x :: x in row.images && x != i ==>
           (if row.images[x].kind == row.images[i].kind && row.images[x].status in {ImagePending, ImageUploaded}
            then row'.images[x] == Image(row.images[x].kind, ImageReplaced) else row'.images[x] == row.images[x])
    case DeleteImage(i) => i in row.images && OnlyImage(row, row', i, Image(row.images[i].kind, ImageDeleted))
  }

  lemma AllowedTierIs(t: Pricing.Tier)
    ensures ParsesTier(t) <==> AllowedTier(t)
  {
  }

  lemma PricingAcceptedIff(row: Event, tiers: seq<Pricing.Tier>)
    requires DistinctCategories(row.categories)
    ensures ParsesPricing(tiers) && row.categories != [] && PricingCovers(tiers, row.categories)
      <==> tiers != [] && OneTierEach(tiers, row.categories) && forall t :: t in tiers ==> AllowedTier(t)
  {
    forall t | t in tiers ensures ParsesTier(t) <==> AllowedTier(t) { AllowedTierIs(t); }
    if ParsesPricing(tiers) && PricingCovers(tiers, row.categories) {
      CoverageIsOneEach(tiers, row.categories);
    }
    if tiers != [] && OneTierEach(tiers, row.categories) {
      OneEachSameLength(tiers, row.categories);
      assert tiers[0] in tiers && tiers[0].category in TierIds(tiers);
      forall t | t in tiers ensures t.category in CategoryIds(row.categories) { assert t.category in TierIds(tiers); }
      forall c | c in row.categories ensures c.id in TierIds(tiers) { assert c.id in CategoryIds(row.categories); }
    }
  }

  lemma SameCategory(categories: seq<Category>, a: Category, b: Category)
    requires DistinctCategories(categories) && a in categories && b in categories && a.id == b.id
    ensures a == b
  {
  }

  lemma CapacityAcceptedIff(row: Event, id: Pricing.CategoryKey, total: Option<int>, remaining: Option<int>)
    requires DistinctCategories(row.categories)
    ensures Apply(row, UpdateCapacity(id, total, remaining)).1 == Ok <==> Acceptable(row, UpdateCapacity(id, total, remaining))
    ensures Apply(row, UpdateCapacity(id, total, remaining)).1 == Ok ==>
      Edited(row, UpdateCapacity(id, total, remaining), Apply(row, UpdateCapacity(id, total, remaining)).0)
  {
    if id in CategoryIds(row.categories) {
      var found := CategoryOf(row.categories, id);
      forall k | k in row.categories && k.id == id ensures k == found { SameCategory(row.categories, k, found); }
    }
  }

  lemma EditAcceptedIff(row: Event, edit: Edit)
    requires DistinctCategories(row.categories)
    ensures Apply(row, edit).1 == Ok && WellFormed(edit) <==> Acceptable(row, edit)
    ensures Apply(row, edit).1 == Ok ==> Edited(row, edit, Apply(row, edit).0)
  {
    match edit
    case ReplacePricing(tiers) => PricingAcceptedIff(row, tiers);
    case UpdateCapacity(id, total, remaining) => CapacityAcceptedIff(row, id, total, remaining);
    case _ =>
  }

  /** The title an edit leaves, and whether its slug can be had. */
  function TitleAfter(row: Event, edit: Edit): string {
    if edit.UpdateDraft? && edit.payload.Details? then edit.payload.title else row.title
  }

  function SlugFor(m: Market, e: EventId, title: string): SlugTables.Reservation {
    SlugTables.Reserve(m.slugs, SlugTables.EventKind, title, Some(e), 50)
  }

  lemma EditIs(m: Market, e: EventId, edit: Edit)
    requires e in m.events && m.events[e].organizerId in m.desks
    ensures var row := m.events[e]; var (row', answer) := Apply(row, edit);
      EditEvent(m, row.organizerId, e, edit) ==
        if !WellFormed(edit) then (m, BadRequest)
        else if row'.title == row.title then (m.(events := m.events[e := row']), answer)
        else
          var (slugs, r) := SlugHistory.Rename(m.slugs, SlugTables.EventKind, e, row'.title, 50);
          if r.Renamed? then (m.(events := m.events[e := row'], slugs := slugs), answer) else (m, StateConflict)
  {
  }

  /** A bad object is confirmed for an image still open, where its kind may be changed. */
  predicate RejectsUpload(row: Event, edit: Edit) {
    && edit.ConfirmImage? && edit.upload == BadUpload && edit.image in row.images && row.images[edit.image].status == ImagePending
    && (row.images[edit.image].kind == Hero ==> row.status == Draft)
  }

  function WithoutImage(row: Event, i: ImageId): Event
    requires i in row.images
  {
    row.(images := row.images[i := Image(row.images[i].kind, ImageDeleted)])
  }

  lemma RefusedEdit(row: Event, edit: Edit)
    ensures Apply(row, edit).1 != Ok ==>
      Apply(row, edit).0 == if RejectsUpload(row, edit) then WithoutImage(row, edit.image) else row
    ensures Apply(row, edit).0.title == if Apply(row, edit).1 == Ok then TitleAfter(row, edit) else row.title
  {
  }

  /** The owner's edit goes through exactly when it is acceptable and, for a new title, a slug can be had; then the row is as
      edited and the slug renamed, and nothing else has changed. An edit that does not go through changes nothing, except that
      a rejected upload ends its own image. */
  lemma EditTakesEffect(steps: seq<Timed>, e: EventId, edit: Edit)
    requires e in After(EMPTY, steps).market.events
    ensures var m := After(EMPTY, steps).market; var row := m.events[e];
      var (m', answer) := EditEvent(m, row.organizerId, e, edit); var title := TitleAfter(row, edit);
      && (answer == Ok <==> Acceptable(row, edit) && (title != row.title ==> SlugFor(m, e, title).Reserved?))
      && (answer == Ok ==>
            && e in m'.events && Edited(row, edit, m'.events[e]) && m' == m.(events := m.events[e := m'.events[e]], slugs := m'.slugs)
            && e in m.slugs.active && m'.slugs.active == if title == row.title then m.slugs.active else m.slugs.active[e := SlugFor(m, e, title).slug])
      && (answer != Ok ==> m' == if RejectsUpload(row, edit) then m.(events := m.events[e := WithoutImage(row, edit.image)]) else m)
  {
    EmptyInv();
    RunKeepsInv(EMPTY, steps);
    EditAt(After(EMPTY, steps), e, edit);
  }

  lemma EditAt(w: World, e: EventId, edit: Edit)
    requires Marketplace.Inv(w) && e in w.market.events
    ensures var m := w.market; var row := m.events[e];
      var (m', answer) := EditEvent(m, row.organizerId, e, edit); var title := TitleAfter(row, edit);
      && (answer == Ok <==> Acceptable(row, edit) && (title != row.title ==> SlugFor(m, e, title).Reserved?))
      && (answer == Ok ==>
            && e in m'.events && Edited(row, edit, m'.events[e]) && m' == m.(events := m.events[e := m'.events[e]], slugs := m'.slugs)
            && e in m.slugs.active && m'.slugs.active == if title == row.title then m.slugs.active else m.slugs.active[e := SlugFor(m, e, title).slug])
      && (answer != Ok ==> m' == if RejectsUpload(row, edit) then m.(events := m.events[e := WithoutImage(row, edit.image)]) else m)
  {
    var m, row := w.market, w.market.events[e];
    assert Backed(w, row) && EventLifecycle.Inv(row, w.clock);
    EditIs(m, e, edit);
    EditAcceptedIff(row, edit);
    RefusedEdit(row, edit);
    SameMarket(m, e);
    var title := TitleAfter(row, edit);
    if title != row.title {
      assert m.slugs.active.Keys == m.events.Keys;
      SlugHistory.RenameTakesEffect(m.slugs, SlugTables.EventKind, e, title, 50, {e});
    }
  }

  /** Nobody else's edit does anything. */
  lemma OnlyTheOwnerEdits(m: Market, actor: OrganizerId, e: EventId, edit: Edit)
    requires e !in m.events || actor !in m.desks || m.events[e].organizerId != actor
    ensures EditEvent(m, actor, e, edit).0 == m && EditEvent(m, actor, e, edit).1 in {BadRequest, Missing, Forbidden}
  {
  }
}
