/** What a published event's rows look like to the public: the lifecycle invariants carried through the queries and
    projections of the detail page and the listing. */
module PublicView {
  import opened Options
  import opened Queries
  import opened Listing
  import Lifecycle = EventLifecycle
  import Pricing
  import Marketplace

  predicate SameCategory(r: CategoryRow, c: Lifecycle.Category) {
    r.id == c.id && r.slug == c.slug && r.sortOrder == c.sortOrder
  }

  predicate SameTier(r: TierRow, t: Pricing.Tier) {
    && r.eventCategoryId == t.category && r.basePrice == t.basePrice
    && r.earlyBirdPrice == t.earlyBirdPrice && r.earlyBirdDeadline == t.earlyBirdDeadline
  }

  predicate SameImage(r: ImageRow, image: Lifecycle.Image) {
    && (r.kind == Hero <==> image.kind == Lifecycle.Hero)
    && (r.status == Uploaded <==> image.status == Lifecycle.ImageUploaded)
  }

  ghost predicate CategoryRowOf(db: Database, e: EventId, c: Lifecycle.Category) {
    exists r :: r in db.categories && r.eventId == e && SameCategory(r, c)
  }

  ghost predicate CategoryOfRow(event: Lifecycle.Event, r: CategoryRow) {
    exists c :: c in event.categories && SameCategory(r, c)
  }

  ghost predicate TierRowOf(db: Database, e: EventId, t: Pricing.Tier) {
    exists r :: r in db.tiers && r.eventId == e && SameTier(r, t)
  }

  ghost predicate TierOfRow(event: Lifecycle.Event, r: TierRow) {
    exists t :: t in event.tiers && SameTier(r, t)
  }

  ghost predicate ImageRowOf(db: Database, e: EventId, i: Lifecycle.ImageId, image: Lifecycle.Image) {
    exists r :: r in db.images && r.eventId == e && r.id == i && SameImage(r, image)
  }

  ghost predicate ImageOfRow(event: Lifecycle.Event, r: ImageRow) {
    r.id in event.images && SameImage(r, event.images[r.id])
  }

  /** Under the event's identifier the child tables hold its categories, tiers and images, with their contents, and nothing else. */
  ghost predicate Stores(db: Database, e: EventId, event: Lifecycle.Event) {
    && (forall c :: c in event.categories ==> CategoryRowOf(db, e, c))
    && (forall r :: r in db.categories && r.eventId == e ==> CategoryOfRow(event, r))
    && (forall t :: t in event.tiers ==> TierRowOf(db, e, t))
    && (forall r :: r in db.tiers && r.eventId == e ==> TierOfRow(event, r))
    && (forall r :: r in db.tiers ==> multiset(db.tiers)[r] == 1)
    && (forall i :: i in event.images ==> ImageRowOf(db, e, i, event.images[i]))
    && (forall r :: r in db.images && r.eventId == e ==> ImageOfRow(event, r))
  }

  lemma {:induction false} AllEqual<R(!new)>(s: seq<R>, x: R)
    requires forall y :: y in s ==> y == x
    ensures |s| == multiset(s)[x]
  {
    if s != [] {
      assert s[0] in s && s == [s[0]] + s[1..];
      assert forall y :: y in s[1..] ==> y in s;
      AllEqual(s[1..], x);
      assert multiset(s) == multiset{x} + multiset(s[1..]);
    }
  }

  /** A predicate that one row alone meets picks exactly that row. */
  lemma PicksOne<R(!new)>(p: R -> bool, rows: seq<R>, x: R)
    requires p(x) && multiset(rows)[x] == 1 && forall y :: y in rows && p(y) ==> y == x
    ensures |Filter(p, rows)| == 1
  {
    FilterMembers(p, rows);
    FilterCounts(p, rows, x);
    AllEqual(Filter(p, rows), x);
  }

  lemma CategoryRows(db: Database, e: EventId, detail: Answer)
    requires DetailAnswer(db, e, detail)
    ensures forall c :: c in detail.categories <==> c in db.categories && c.eventId == e
  {
    var ofEvent := OfEvent(CategoryEvent, e);
    InTable(db.categories, ofEvent, CategoryOrder, detail.categories);
    forall c ensures c in detail.categories <==> c in db.categories && c.eventId == e {
      assert ofEvent(c) <==> CategoryEvent(c) == e;
    }
  }

  lemma TierRows(db: Database, e: EventId, detail: Answer)
    requires DetailAnswer(db, e, detail) && forall t :: t in db.tiers ==> multiset(db.tiers)[t] == 1
    ensures forall t :: t in detail.tiers <==> t in db.tiers && t.eventId == e
    ensures forall t :: t in detail.tiers ==> multiset(detail.tiers)[t] == 1
  {
    var ofEvent := OfEvent(TierEvent, e);
    InTable(db.tiers, ofEvent, TierOrder, detail.tiers);
    forall t ensures t in detail.tiers <==> t in db.tiers && t.eventId == e {
      assert ofEvent(t) <==> TierEvent(t) == e;
    }
    forall t | t in detail.tiers ensures multiset(detail.tiers)[t] == 1 {
      FilterCounts(ofEvent, db.tiers, t);
    }
  }

  /** One tier per category in the lifecycle is one matching row per category for the projections. */
  lemma StoredPricing(db: Database, e: EventId, event: Lifecycle.Event, detail: Answer)
    requires Indexed(db) && Stores(db, e, event) && DetailAnswer(db, e, detail)
    requires Lifecycle.OneTierEach(event.tiers, event.categories)
    ensures Priced(detail.tiers, detail.categories)
  {
    CategoryRows(db, e, detail);
    TierRows(db, e, detail);
    forall c | c in detail.categories ensures |Filter(ForCategory(c.id), detail.tiers)| == 1 {
      assert CategoryOfRow(event, c);
      assert c.id in Lifecycle.TierIds(event.tiers);
      var k :| k in event.tiers && k.category == c.id;
      assert TierRowOf(db, e, k);
      var t :| t in db.tiers && t.eventId == e && SameTier(t, k);
      PicksOne(ForCategory(c.id), detail.tiers, t);
    }
  }

  lemma StoredCategories(db: Database, e: EventId, event: Lifecycle.Event, detail: Answer)
    requires Stores(db, e, event) && DetailAnswer(db, e, detail) && event.categories != []
    ensures detail.categories != []
  {
    CategoryRows(db, e, detail);
    var c := event.categories[0];
    assert c in event.categories && CategoryRowOf(db, e, c);
    var r :| r in db.categories && r.eventId == e && SameCategory(r, c);
    assert r in detail.categories;
  }

  /** The hero shown is one of the event's own uploaded heroes. */
  lemma StoredHero(db: Database, e: EventId, event: Lifecycle.Event, detail: Answer)
    requires Indexed(db) && Stores(db, e, event) && DetailAnswer(db, e, detail) && Lifecycle.HasHero(event)
    ensures OwnHero(event, DetailCard(detail).hero)
  {
    var i :| i in event.images && event.images[i] == Lifecycle.Image(Lifecycle.Hero, Lifecycle.ImageUploaded);
    assert ImageRowOf(db, e, i, event.images[i]);
    var r :| r in db.images && r.eventId == e && r.id == i && SameImage(r, event.images[i]);
    HeroIsNewest(db, e, detail, r);
    assert ImageOfRow(event, DetailCard(detail).hero.value);
  }

  /** Every price shown is the event's own price for the category beside it. */
  lemma StoredPrices(db: Database, e: EventId, event: Lifecycle.Event, detail: Answer, shown: PublicTier)
    requires Indexed(db) && Stores(db, e, event) && DetailAnswer(db, e, detail) && shown in DetailCard(detail).tiers
    ensures OwnPrice(event, shown)
  {
    CategoryRows(db, e, detail);
    TierRows(db, e, detail);
    ShownTiersAreRows(detail.tiers, detail.categories);
  }

  ghost predicate OwnHero(event: Lifecycle.Event, hero: Option<ImageRow>) {
    hero.Some? && hero.value.id in event.images && event.images[hero.value.id] == Lifecycle.Image(Lifecycle.Hero, Lifecycle.ImageUploaded)
  }

  ghost predicate OwnPrice(event: Lifecycle.Event, shown: PublicTier) {
    shown.category.id == shown.tier.eventCategoryId && TierOfRow(event, shown.tier)
  }

  ghost predicate OwnCategories(event: Lifecycle.Event, rows: seq<CategoryRow>) {
    && (forall r :: r in rows ==> CategoryOfRow(event, r))
    && (forall c :: c in event.categories ==> exists r :: r in rows && SameCategory(r, c))
  }

  /** Everything shown is the event's own: all categories in their order, exactly one price for each, and a hero. */
  ghost predicate ShownWhole(event: Lifecycle.Event, card: Card) {
    && OwnHero(event, card.hero) && OwnCategories(event, card.categories) && card.categories != []
    && CategoriesOf(card.tiers) == card.categories && forall y :: y in card.tiers ==> OwnPrice(event, y)
  }

  lemma AllCategoriesShown(db: Database, e: EventId, event: Lifecycle.Event, detail: Answer)
    requires Stores(db, e, event) && DetailAnswer(db, e, detail)
    ensures OwnCategories(event, detail.categories)
  {
    CategoryRows(db, e, detail);
    forall c | c in event.categories ensures exists r :: r in detail.categories && SameCategory(r, c) {
      assert CategoryRowOf(db, e, c);
    }
  }

  lemma ConfiguredIsShownWhole(db: Database, e: EventId, event: Lifecycle.Event, detail: Answer)
    requires Indexed(db) && Stores(db, e, event) && DetailAnswer(db, e, detail)
    requires event.categories != [] && Lifecycle.OneTierEach(event.tiers, event.categories) && Lifecycle.HasHero(event)
    ensures ShownWhole(event, DetailCard(detail))
  {
    StoredCategories(db, e, event, detail);
    StoredPricing(db, e, event, detail);
    StoredHero(db, e, event, detail);
    AllCategoriesShown(db, e, event, detail);
    TiersFollowCategories(db, e, detail);
    forall y | y in DetailCard(detail).tiers ensures OwnPrice(event, y) {
      StoredPrices(db, e, event, detail, y);
    }
  }

  /** Whatever history led there, the public page of a published event shows the event whole, and its card on any listing
      page that includes it shows the same. */
  lemma PublishedEventIsShownWhole(steps: seq<Marketplace.Timed>, e: EventId, db: Database, detail: Answer,
                                   ids: seq<EventId>, batch: Answer)
    requires var m := Marketplace.After(Marketplace.EMPTY, steps).market;
      e in m.events && m.events[e].status == Lifecycle.Published && Stores(db, e, m.events[e])
    requires Indexed(db) && DetailAnswer(db, e, detail) && e in ids && BatchAnswer(db, ids, batch)
    ensures ShownWhole(Marketplace.After(Marketplace.EMPTY, steps).market.events[e], DetailCard(detail))
    ensures BatchCard(batch, e) == DetailCard(detail)
  {
    Marketplace.EmptyInv();
    Marketplace.RunKeepsInv(Marketplace.EMPTY, steps);
    ConfiguredIsShownWhole(db, e, Marketplace.After(Marketplace.EMPTY, steps).market.events[e], detail);
    ListingRefinesDetail(db, ids, batch, e, detail);
  }
}
