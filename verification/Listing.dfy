/** The public listing's batched queries against the detail page's per-event queries
    (apps/api/src/modules/events/public-listing-service.ts, apps/api/src/modules/events/public-detail-service.ts).
    Columns the two paths copy through unchanged are one field, `content`. */
module Listing {
  import opened Options
  import opened Queries
  import Pricing

  type EventId = int
  type CategoryId = int
  datatype Kind = Hero | RouteMap
  datatype ImageStatus = Pending | Uploaded | Replaced | Deleted

  datatype CategoryRow = CategoryRow(id: CategoryId, eventId: EventId, sortOrder: int, slug: string, content: int)
  datatype TierRow = TierRow(id: int, eventId: EventId, eventCategoryId: CategoryId, basePrice: int,
                             earlyBirdPrice: Option<int>, earlyBirdDeadline: Pricing.Stamp)
  datatype ImageRow = ImageRow(id: int, eventId: EventId, kind: Kind, status: ImageStatus, createdAt: int, content: int)

  datatype Database = Database(categories: seq<CategoryRow>, tiers: seq<TierRow>, images: seq<ImageRow>)

  ghost predicate UniqueIds(categories: seq<CategoryRow>) {
    && (forall a, b :: a in categories && b in categories && a.id == b.id ==> a == b)
    && (forall c :: c in categories ==> multiset(categories)[c] == 1)
  }

  /** The unique indexes and primary keys the orderings rest on. */
  ghost predicate Indexed(db: Database) {
    && (forall a, b :: a in db.categories && b in db.categories && a.eventId == b.eventId && a.sortOrder == b.sortOrder ==> a == b)
    && UniqueIds(db.categories)
    && (forall a, b :: a in db.tiers && b in db.tiers && a.eventId == b.eventId && a.eventCategoryId == b.eventCategoryId ==> a == b)
    && (forall a, b :: a in db.images && b in db.images && a.id == b.id ==> a == b)
  }

  // ---------- The two sets of queries ----------

  predicate BatchCategoryOrder(a: CategoryRow, b: CategoryRow) {
    a.eventId < b.eventId || (a.eventId == b.eventId && a.sortOrder < b.sortOrder)
  }

  predicate CategoryOrder(a: CategoryRow, b: CategoryRow) {
    a.sortOrder < b.sortOrder
  }

  predicate BatchTierOrder(a: TierRow, b: TierRow) {
    a.eventId < b.eventId || (a.eventId == b.eventId && a.eventCategoryId < b.eventCategoryId)
  }

  predicate TierOrder(a: TierRow, b: TierRow) {
    a.eventCategoryId < b.eventCategoryId
  }

  predicate Newer(a: ImageRow, b: ImageRow) {
    a.createdAt > b.createdAt || (a.createdAt == b.createdAt && a.id > b.id)
  }

  predicate BatchImageOrder(a: ImageRow, b: ImageRow) {
    a.eventId < b.eventId || (a.eventId == b.eventId && Newer(a, b))
  }

  predicate ImageOrder(a: ImageRow, b: ImageRow) {
    (a.kind == Hero && b.kind == RouteMap) || (a.kind == b.kind && Newer(a, b))
  }

  function CategoryEvent(c: CategoryRow): EventId { c.eventId }
  function TierEvent(t: TierRow): EventId { t.eventId }
  function ImageEvent(m: ImageRow): EventId { m.eventId }
  predicate IsHero(m: ImageRow) { m.kind == Hero }
  predicate IsRouteMap(m: ImageRow) { m.kind == RouteMap }

  function OfEvent<R>(eventOf: R -> EventId, e: EventId): R -> bool {
    (x: R) => eventOf(x) == e
  }

  function OnPage<R>(eventOf: R -> EventId, ids: seq<EventId>): R -> bool {
    (x: R) => eventOf(x) in ids
  }

  function ListedHero(ids: seq<EventId>): ImageRow -> bool {
    (m: ImageRow) => m.eventId in ids && m.status == Uploaded && m.kind == Hero
  }

  function UploadedFor(e: EventId): ImageRow -> bool {
    (m: ImageRow) => m.eventId == e && m.status == Uploaded
  }

  datatype Answer = Answer(categories: seq<CategoryRow>, tiers: seq<TierRow>, images: seq<ImageRow>)

  /** What selectBatchRows may return for a page of events. */
  ghost predicate BatchAnswer(db: Database, ids: seq<EventId>, r: Answer) {
    && Answers(db.categories, OnPage(CategoryEvent, ids), BatchCategoryOrder, r.categories)
    && Answers(db.tiers, OnPage(TierEvent, ids), BatchTierOrder, r.tiers)
    && Answers(db.images, ListedHero(ids), BatchImageOrder, r.images)
  }

  /** What the detail page's three queries may return for one event. */
  ghost predicate DetailAnswer(db: Database, e: EventId, r: Answer) {
    && Answers(db.categories, OfEvent(CategoryEvent, e), CategoryOrder, r.categories)
    && Answers(db.tiers, OfEvent(TierEvent, e), TierOrder, r.tiers)
    && Answers(db.images, UploadedFor(e), ImageOrder, r.images)
  }

  // ---------- Projection ----------

  function Group<R>(eventOf: R -> EventId, e: EventId, rows: seq<R>): seq<R> {
    Filter(OfEvent(eventOf, e), rows)
  }

  lemma GroupSnoc<R>(eventOf: R -> EventId, e: EventId, rows: seq<R>, x: R)
    ensures Group(eventOf, e, rows + [x]) == Group(eventOf, e, rows) + if eventOf(x) == e then [x] else []
  {
    FilterSnoc(OfEvent(eventOf, e), rows, x);
  }

  function Heroes(images: seq<ImageRow>): seq<ImageRow> {
    Filter(IsHero, images)
  }

  function RouteMaps(images: seq<ImageRow>): seq<ImageRow> {
    Filter(IsRouteMap, images)
  }

  datatype PublicTier = PublicTier(tier: TierRow, category: CategoryRow)

  /** A map built entry by entry: on a repeated key the last entry stays. */
  function CategoryById(categories: seq<CategoryRow>): map<CategoryId, CategoryRow> {
    if categories == [] then map[]
    else var last := categories[|categories| - 1]; CategoryById(categories[..|categories| - 1])[last.id := last]
  }

  function Joined(tiers: seq<TierRow>, byId: map<CategoryId, CategoryRow>): seq<PublicTier> {
    if tiers == [] then [] else
    var first := if tiers[0].eventCategoryId in byId then [PublicTier(tiers[0], byId[tiers[0].eventCategoryId])] else [];
    first + Joined(tiers[1..], byId)
  }

  /** The stable sort by category order: equal keys keep their order. */
  function Insert(x: PublicTier, s: seq<PublicTier>): seq<PublicTier> {
    if s == [] || x.category.sortOrder <= s[0].category.sortOrder then [x] + s else [s[0]] + Insert(x, s[1..])
  }

  function SortByCategory(s: seq<PublicTier>): seq<PublicTier> {
    if s == [] then [] else Insert(s[0], SortByCategory(s[1..]))
  }

  function PublicTiers(tiers: seq<TierRow>, categories: seq<CategoryRow>): seq<PublicTier> {
    SortByCategory(Joined(tiers, CategoryById(categories)))
  }

  function First<R>(s: seq<R>): Option<R> {
    if s == [] then None else Some(s[0])
  }

  datatype Card = Card(categories: seq<CategoryRow>, tiers: seq<PublicTier>, hero: Option<ImageRow>)

  /** The part of the detail response a card also shows. */
  function DetailCard(r: Answer): Card {
    Card(r.categories, PublicTiers(r.tiers, r.categories), First(Heroes(r.images)))
  }

  function BatchCard(r: Answer, e: EventId): Card {
    var categories := Group(CategoryEvent, e, r.categories);
    Card(categories, PublicTiers(Group(TierEvent, e, r.tiers), categories), First(Group(ImageEvent, e, r.images)))
  }

  // ---------- The listing refines the detail page ----------

  lemma CategoriesAgree(db: Database, ids: seq<EventId>, batch: Answer, e: EventId, detail: Answer)
    requires Indexed(db) && e in ids && BatchAnswer(db, ids, batch) && DetailAnswer(db, e, detail)
    ensures Group(CategoryEvent, e, batch.categories) == detail.categories
  {
    var ofEvent, onPage := OfEvent(CategoryEvent, e), OnPage(CategoryEvent, ids);
    assert Total(CategoryOrder, ofEvent, ofEvent, db.categories);
    forall x: CategoryRow ensures onPage(x) && ofEvent(x) <==> ofEvent(x) {
      assert ofEvent(x) <==> CategoryEvent(x) == e;
      assert onPage(x) <==> CategoryEvent(x) in ids;
    }
    forall a: CategoryRow, b: CategoryRow | ofEvent(a) && ofEvent(b) && CategoryOrder(a, b) ensures BatchCategoryOrder(a, b) {
      assert CategoryEvent(a) == e == CategoryEvent(b);
    }
    NarrowedAnswer(db.categories, onPage, BatchCategoryOrder, batch.categories, ofEvent, ofEvent, CategoryOrder, detail.categories, ofEvent);
    InTable(db.categories, ofEvent, CategoryOrder, detail.categories);
    FilterAll(ofEvent, detail.categories);
  }

  lemma TiersAgree(db: Database, ids: seq<EventId>, batch: Answer, e: EventId, detail: Answer)
    requires Indexed(db) && e in ids && BatchAnswer(db, ids, batch) && DetailAnswer(db, e, detail)
    ensures Group(TierEvent, e, batch.tiers) == detail.tiers
  {
    var ofEvent, onPage := OfEvent(TierEvent, e), OnPage(TierEvent, ids);
    assert Total(TierOrder, ofEvent, ofEvent, db.tiers);
    forall x: TierRow ensures onPage(x) && ofEvent(x) <==> ofEvent(x) {
      assert ofEvent(x) <==> TierEvent(x) == e;
      assert onPage(x) <==> TierEvent(x) in ids;
    }
    forall a: TierRow, b: TierRow | ofEvent(a) && ofEvent(b) && TierOrder(a, b) ensures BatchTierOrder(a, b) {
      assert TierEvent(a) == e == TierEvent(b);
    }
    NarrowedAnswer(db.tiers, onPage, BatchTierOrder, batch.tiers, ofEvent, ofEvent, TierOrder, detail.tiers, ofEvent);
    InTable(db.tiers, ofEvent, TierOrder, detail.tiers);
    FilterAll(ofEvent, detail.tiers);
  }

  lemma HeroesAgree(db: Database, ids: seq<EventId>, batch: Answer, e: EventId, detail: Answer)
    requires Indexed(db) && e in ids && BatchAnswer(db, ids, batch) && DetailAnswer(db, e, detail)
    ensures Group(ImageEvent, e, batch.images) == Heroes(detail.images)
  {
    NarrowedAnswer(db.images, ListedHero(ids), BatchImageOrder,
                   batch.images, OfEvent(ImageEvent, e),
                   UploadedFor(e), ImageOrder, detail.images, IsHero);
  }

  /** For every event on a page, whatever order the database breaks free choices in, the card shows what the
      detail page shows. */
  lemma ListingRefinesDetail(db: Database, ids: seq<EventId>, batch: Answer, e: EventId, detail: Answer)
    requires Indexed(db) && e in ids && BatchAnswer(db, ids, batch) && DetailAnswer(db, e, detail)
    ensures BatchCard(batch, e) == DetailCard(detail)
  {
    CategoriesAgree(db, ids, batch, e, detail);
    TiersAgree(db, ids, batch, e, detail);
    HeroesAgree(db, ids, batch, e, detail);
  }

  // ---------- The loops ----------

  function RowsFor<R>(grouped: map<EventId, seq<R>>, e: EventId): seq<R> {
    if e in grouped then grouped[e] else []
  }

  function RowFor<R>(latest: map<EventId, R>, e: EventId): Option<R> {
    if e in latest then Some(latest[e]) else None
  }

  /** The groups hold every row once, each group in the order of the rows. */
  ghost predicate Groups<R(!new)>(grouped: map<EventId, seq<R>>, eventOf: R -> EventId, rows: seq<R>) {
    forall e :: RowsFor(grouped, e) == Group(eventOf, e, rows)
  }

  ghost predicate Firsts(latest: map<EventId, ImageRow>, rows: seq<ImageRow>) {
    forall e :: RowFor(latest, e) == First(Group(ImageEvent, e, rows))
  }

  method GroupByEventId<R(!new)>(eventOf: R -> EventId, rows: seq<R>) returns (grouped: map<EventId, seq<R>>)
    ensures Groups(grouped, eventOf, rows)
  {
    grouped := map[];
    for i := 0 to |rows|
      invariant Groups(grouped, eventOf, rows[..i])
    {
      var row := rows[i];
      var e := eventOf(row);
      assert rows[..i + 1] == rows[..i] + [row];
      ghost var before := grouped;
      if e in grouped {
        grouped := grouped[e := grouped[e] + [row]];
      } else {
        grouped := grouped[e := [row]];
      }
      forall e' ensures RowsFor(grouped, e') == Group(eventOf, e', rows[..i + 1]) {
        GroupSnoc(eventOf, e', rows[..i], row);
        assert RowsFor(before, e') == Group(eventOf, e', rows[..i]);
      }
    }
    assert rows[..|rows|] == rows;
  }

  method LatestImageByEventId(rows: seq<ImageRow>) returns (latest: map<EventId, ImageRow>)
    ensures Firsts(latest, rows)
  {
    latest := map[];
    for i := 0 to |rows|
      invariant Firsts(latest, rows[..i])
    {
      var row := rows[i];
      assert rows[..i + 1] == rows[..i] + [row];
      ghost var before := latest;
      if row.eventId !in latest {
        latest := latest[row.eventId := row];
      }
      forall e ensures RowFor(latest, e) == First(Group(ImageEvent, e, rows[..i + 1])) {
        GroupSnoc(ImageEvent, e, rows[..i], row);
        assert RowFor(before, e) == First(Group(ImageEvent, e, rows[..i]));
      }
    }
    assert rows[..|rows|] == rows;
  }

  method SelectLatestPublicImageRows(rows: seq<ImageRow>) returns (hero: Option<ImageRow>, routeMap: Option<ImageRow>)
    ensures hero == First(Heroes(rows))
    ensures routeMap == First(RouteMaps(rows))
  {
    hero, routeMap := None, None;
    for i := 0 to |rows|
      invariant hero == First(Heroes(rows[..i]))
      invariant routeMap == First(RouteMaps(rows[..i]))
    {
      var row := rows[i];
      assert rows[..i + 1] == rows[..i] + [row];
      FilterSnoc(IsHero, rows[..i], row);
      FilterSnoc(IsRouteMap, rows[..i], row);
      if row.kind == Hero && hero == None {
        hero := Some(row);
      }
      if row.kind == RouteMap && routeMap == None {
        routeMap := Some(row);
      }
    }
    assert rows[..|rows|] == rows;
  }

  /** Each card is the one the detail page's queries lead to, however they order their free choices. */
  ghost predicate ShowsDetail(db: Database, ids: seq<EventId>, cards: seq<Card>)
    requires |cards| == |ids|
  {
    forall i, detail :: 0 <= i < |ids| && DetailAnswer(db, ids[i], detail) ==> cards[i] == DetailCard(detail)
  }

  lemma PageRefinesDetail(ids: seq<EventId>, batch: Answer, cards: seq<Card>)
    requires |cards| == |ids|
    requires forall i :: 0 <= i < |ids| ==> cards[i] == BatchCard(batch, ids[i])
    ensures forall db :: Indexed(db) && BatchAnswer(db, ids, batch) ==> ShowsDetail(db, ids, cards)
  {
    forall db, i, detail | Indexed(db) && BatchAnswer(db, ids, batch) && 0 <= i < |ids| && DetailAnswer(db, ids[i], detail)
      ensures cards[i] == DetailCard(detail)
    {
      ListingRefinesDetail(db, ids, batch, ids[i], detail);
    }
  }

  lemma CardFor(batch: Answer, e: EventId, categories: map<EventId, seq<CategoryRow>>, tiers: map<EventId, seq<TierRow>>, heroes: map<EventId, ImageRow>)
    requires Groups(categories, CategoryEvent, batch.categories) && Groups(tiers, TierEvent, batch.tiers)
    requires Firsts(heroes, batch.images)
    ensures Card(RowsFor(categories, e), PublicTiers(RowsFor(tiers, e), RowsFor(categories, e)), RowFor(heroes, e)) == BatchCard(batch, e)
  {
  }

  method CardsInOrder(ids: seq<EventId>, batch: Answer) returns (cards: seq<Card>)
    ensures |cards| == |ids|
    ensures forall i :: 0 <= i < |ids| ==> cards[i] == BatchCard(batch, ids[i])
  {
    var categoriesByEventId := GroupByEventId(CategoryEvent, batch.categories);
    var pricingTiersByEventId := GroupByEventId(TierEvent, batch.tiers);
    var latestHeroByEventId := LatestImageByEventId(batch.images);
    cards := [];
    for i := 0 to |ids|
      invariant |cards| == i
      invariant forall j :: 0 <= j < i ==> cards[j] == BatchCard(batch, ids[j])
    {
      var card := BuildCard(ids[i], batch, categoriesByEventId, pricingTiersByEventId, latestHeroByEventId);
      cards := cards + [card];
    }
  }

  method BuildCard(e: EventId, ghost batch: Answer, categoriesByEventId: map<EventId, seq<CategoryRow>>,
                   pricingTiersByEventId: map<EventId, seq<TierRow>>, latestHeroByEventId: map<EventId, ImageRow>) returns (card: Card)
    requires Groups(categoriesByEventId, CategoryEvent, batch.categories) && Groups(pricingTiersByEventId, TierEvent, batch.tiers)
    requires Firsts(latestHeroByEventId, batch.images)
    ensures card == BatchCard(batch, e)
  {
    var categories := RowsFor(categoriesByEventId, e);
    card := Card(categories, PublicTiers(RowsFor(pricingTiersByEventId, e), categories), RowFor(latestHeroByEventId, e));
    CardFor(batch, e, categoriesByEventId, pricingTiersByEventId, latestHeroByEventId);
  }

  /** buildCards, over the batch the three queries returned. */
  method BuildCards(ids: seq<EventId>, batch: Answer) returns (cards: seq<Card>)
    ensures |cards| == |ids|
    ensures forall i :: 0 <= i < |ids| ==> cards[i] == BatchCard(batch, ids[i])
    ensures forall db :: Indexed(db) && BatchAnswer(db, ids, batch) ==> ShowsDetail(db, ids, cards)
  {
    cards := CardsInOrder(ids, batch);
    PageRefinesDetail(ids, batch, cards);
  }

  // ---------- What a reader of either page sees ----------

  ghost predicate UploadedHero(db: Database, e: EventId, m: ImageRow) {
    m in db.images && m.eventId == e && m.status == Uploaded && m.kind == Hero
  }

  lemma HeroRows(db: Database, e: EventId, detail: Answer)
    requires DetailAnswer(db, e, detail)
    ensures forall m :: m in Heroes(detail.images) <==> UploadedHero(db, e, m)
    ensures Sorted(Newer, Heroes(detail.images))
  {
    PickedRows(db.images, UploadedFor(e), ImageOrder, detail.images, IsHero, Newer);
  }

  /** The hero shown is the newest uploaded hero, and one is shown whenever one exists. */
  lemma HeroIsNewest(db: Database, e: EventId, detail: Answer, m: ImageRow)
    requires Indexed(db) && DetailAnswer(db, e, detail) && UploadedHero(db, e, m)
    ensures var hero := DetailCard(detail).hero;
      hero.Some? && UploadedHero(db, e, hero.value) && (hero.value == m || Newer(hero.value, m))
  {
    HeroRows(db, e, detail);
    var f := Heroes(detail.images);
    var k :| 0 <= k < |f| && f[k] == m;
    assert f[0] in f;
  }

  ghost predicate UploadedRouteMap(db: Database, e: EventId, m: ImageRow) {
    m in db.images && m.eventId == e && m.status == Uploaded && m.kind == RouteMap
  }

  lemma RouteMapRows(db: Database, e: EventId, detail: Answer)
    requires DetailAnswer(db, e, detail)
    ensures forall m :: m in RouteMaps(detail.images) <==> UploadedRouteMap(db, e, m)
    ensures Sorted(Newer, RouteMaps(detail.images))
  {
    PickedRows(db.images, UploadedFor(e), ImageOrder, detail.images, IsRouteMap, Newer);
  }

  /** The route map on the detail page likewise: the newest uploaded one, and one is shown exactly when one exists. */
  lemma RouteMapIsNewest(db: Database, e: EventId, detail: Answer)
    requires DetailAnswer(db, e, detail)
    ensures var shown := First(RouteMaps(detail.images));
      && (shown.Some? <==> exists m :: UploadedRouteMap(db, e, m))
      && (shown.Some? ==> UploadedRouteMap(db, e, shown.value) && forall m :: UploadedRouteMap(db, e, m) ==> !Newer(m, shown.value))
  {
    RouteMapRows(db, e, detail);
    var f := RouteMaps(detail.images);
    if m :| UploadedRouteMap(db, e, m) { assert m in f; }
    if f != [] {
      assert f[0] in f;
      forall m | UploadedRouteMap(db, e, m) ensures !Newer(m, f[0]) {
        var k :| 0 <= k < |f| && f[k] == m;
      }
    }
  }

  // ---------- Price tiers come out in category order ----------

  function CategoriesOf(s: seq<PublicTier>): seq<CategoryRow> {
    if s == [] then [] else [s[0].category] + CategoriesOf(s[1..])
  }

  function ForCategory(id: CategoryId): TierRow -> bool {
    (t: TierRow) => t.eventCategoryId == id
  }

  /** Every category of the event has exactly one tier; a tier of a category the event lacks is dropped. */
  ghost predicate Priced(tiers: seq<TierRow>, categories: seq<CategoryRow>) {
    forall c :: c in categories ==> |Filter(ForCategory(c.id), tiers)| == 1
  }

  lemma {:induction false} CategoryByIdIs(categories: seq<CategoryRow>)
    requires forall a, b :: a in categories && b in categories && a.id == b.id ==> a == b
    ensures forall c :: c in categories ==> c.id in CategoryById(categories) && CategoryById(categories)[c.id] == c
    ensures forall k :: k in CategoryById(categories) ==> CategoryById(categories)[k] in categories && CategoryById(categories)[k].id == k
  {
    if categories != [] {
      var n := |categories| - 1;
      CategoryByIdIs(categories[..n]);
      assert categories == categories[..n] + [categories[n]];
    }
  }

  lemma CategoriesCons(x: PublicTier, s: seq<PublicTier>)
    ensures CategoriesOf([x] + s) == [x.category] + CategoriesOf(s)
  {
    assert ([x] + s)[1..] == s;
  }

  /** One row's contribution to the number of rows carrying category c. */
  lemma JoinedHead(tiers: seq<TierRow>, byId: map<CategoryId, CategoryRow>, c: CategoryRow)
    requires tiers != []
    ensures var id := tiers[0].eventCategoryId;
      multiset(CategoriesOf(Joined(tiers, byId)))[c]
      == multiset(CategoriesOf(Joined(tiers[1..], byId)))[c] + if id in byId && byId[id] == c then 1 else 0
  {
    var id := tiers[0].eventCategoryId;
    var rest := Joined(tiers[1..], byId);
    if id in byId {
      CategoriesCons(PublicTier(tiers[0], byId[id]), rest);
      assert multiset([byId[id]] + CategoriesOf(rest)) == multiset{byId[id]} + multiset(CategoriesOf(rest));
    } else {
      assert Joined(tiers, byId) == rest;
    }
  }

  lemma {:induction false} JoinedRows(tiers: seq<TierRow>, byId: map<CategoryId, CategoryRow>, c: CategoryRow)
    requires forall k :: k in byId ==> byId[k].id == k
    ensures multiset(CategoriesOf(Joined(tiers, byId)))[c]
      == if c.id in byId && byId[c.id] == c then |Filter(ForCategory(c.id), tiers)| else 0
  {
    if tiers != [] {
      JoinedHead(tiers, byId, c);
      JoinedRows(tiers[1..], byId, c);
    }
  }

  lemma SortedCons(c: CategoryRow, cs: seq<CategoryRow>)
    requires Sorted(CategoryOrder, cs) && forall d :: d in cs ==> c.sortOrder <= d.sortOrder
    ensures Sorted(CategoryOrder, [c] + cs)
  {
  }

  lemma SortedTail(c: CategoryRow, cs: seq<CategoryRow>)
    requires Sorted(CategoryOrder, [c] + cs)
    ensures Sorted(CategoryOrder, cs) && forall d :: d in cs ==> c.sortOrder <= d.sortOrder
  {
    var s := [c] + cs;
    assert forall i :: 0 <= i < |cs| ==> s[i + 1] == cs[i];
    forall i | 0 <= i < |cs| ensures c.sortOrder <= cs[i].sortOrder {
      assert !CategoryOrder(s[i + 1], s[0]);
    }
  }

  lemma {:induction false} InsertSorted(x: PublicTier, s: seq<PublicTier>)
    requires Sorted(CategoryOrder, CategoriesOf(s))
    ensures Sorted(CategoryOrder, CategoriesOf(Insert(x, s)))
    ensures multiset(CategoriesOf(Insert(x, s))) == multiset{x.category} + multiset(CategoriesOf(s))
  {
    if s == [] || x.category.sortOrder <= s[0].category.sortOrder {
      CategoriesCons(x, s);
      if s != [] { SortedTail(s[0].category, CategoriesOf(s[1..])); }
      SortedCons(x.category, CategoriesOf(s));
    } else {
      var rest := Insert(x, s[1..]);
      SortedTail(s[0].category, CategoriesOf(s[1..]));
      InsertSorted(x, s[1..]);
      CategoriesCons(s[0], rest);
      forall d | d in CategoriesOf(rest) ensures s[0].category.sortOrder <= d.sortOrder {
        assert d in multiset(CategoriesOf(rest));
      }
      SortedCons(s[0].category, CategoriesOf(rest));
    }
  }

  lemma {:induction false} SortSorted(s: seq<PublicTier>)
    ensures Sorted(CategoryOrder, CategoriesOf(SortByCategory(s)))
    ensures multiset(CategoriesOf(SortByCategory(s))) == multiset(CategoriesOf(s))
  {
    if s != [] {
      SortSorted(s[1..]);
      InsertSorted(s[0], SortByCategory(s[1..]));
    }
  }

  lemma {:induction false} InsertMembers(x: PublicTier, s: seq<PublicTier>)
    ensures forall y :: y in Insert(x, s) <==> y == x || y in s
  {
    if s != [] && x.category.sortOrder > s[0].category.sortOrder {
      InsertMembers(x, s[1..]);
    }
  }

  lemma {:induction false} SortMembers(s: seq<PublicTier>)
    ensures forall y :: y in SortByCategory(s) <==> y in s
  {
    if s != [] {
      SortMembers(s[1..]);
      InsertMembers(s[0], SortByCategory(s[1..]));
    }
  }

  lemma {:induction false} JoinedMembers(tiers: seq<TierRow>, byId: map<CategoryId, CategoryRow>)
    ensures forall y :: y in Joined(tiers, byId) ==>
      y.tier in tiers && y.tier.eventCategoryId in byId && y.category == byId[y.tier.eventCategoryId]
  {
    if tiers != [] {
      JoinedMembers(tiers[1..], byId);
    }
  }

  /** Each tier shown is a row of the event, under the category it prices. */
  lemma ShownTiersAreRows(tiers: seq<TierRow>, categories: seq<CategoryRow>)
    requires forall a, b :: a in categories && b in categories && a.id == b.id ==> a == b
    ensures forall y :: y in PublicTiers(tiers, categories) ==> y.tier in tiers && y.category in categories && y.category.id == y.tier.eventCategoryId
  {
    CategoryByIdIs(categories);
    JoinedMembers(tiers, CategoryById(categories));
    SortMembers(Joined(tiers, CategoryById(categories)));
  }

  lemma CategoryOrderTotal(db: Database, e: EventId, detail: Answer)
    requires Indexed(db) && DetailAnswer(db, e, detail)
    ensures forall x, y :: x in detail.categories && y in detail.categories && x != y ==> CategoryOrder(x, y) != CategoryOrder(y, x)
  {
    InTable(db.categories, OfEvent(CategoryEvent, e), CategoryOrder, detail.categories);
  }

  lemma SelectionKeepsIds(db: Database, e: EventId, detail: Answer)
    requires Indexed(db) && DetailAnswer(db, e, detail)
    ensures UniqueIds(detail.categories)
  {
    var ofEvent := OfEvent(CategoryEvent, e);
    InTable(db.categories, ofEvent, CategoryOrder, detail.categories);
    forall c | c in detail.categories ensures multiset(detail.categories)[c] == 1 {
      FilterCounts(ofEvent, db.categories, c);
    }
  }

  lemma EachCategoryOnce(tiers: seq<TierRow>, categories: seq<CategoryRow>)
    requires UniqueIds(categories) && Priced(tiers, categories)
    ensures multiset(CategoriesOf(PublicTiers(tiers, categories))) == multiset(categories)
  {
    var joined := Joined(tiers, CategoryById(categories));
    CategoryByIdIs(categories);
    SortSorted(joined);
    forall c ensures multiset(CategoriesOf(joined))[c] == multiset(categories)[c] {
      JoinedRows(tiers, CategoryById(categories), c);
    }
  }

  /** Once an event is priced, both pages show its tiers one per category, in the order of the categories. */
  lemma TiersFollowCategories(db: Database, e: EventId, detail: Answer)
    requires Indexed(db) && DetailAnswer(db, e, detail) && Priced(detail.tiers, detail.categories)
    ensures CategoriesOf(PublicTiers(detail.tiers, detail.categories)) == detail.categories
  {
    SelectionKeepsIds(db, e, detail);
    EachCategoryOnce(detail.tiers, detail.categories);
    SortSorted(Joined(detail.tiers, CategoryById(detail.categories)));
    CategoryOrderTotal(db, e, detail);
    SortedUnique(CategoryOrder, detail.categories, CategoriesOf(PublicTiers(detail.tiers, detail.categories)));
  }

  // ---------- Pagination ----------

  datatype Meta = Meta(page: nat, limit: nat, total: nat, totalPages: nat, hasNext: bool, hasPrev: bool)

  function BuildOffsetPaginationMeta(page: nat, limit: nat, total: nat): Meta
    requires page > 0 && limit > 0
  {
    if total == 0 then Meta(page, limit, total, 0, false, false)
    else Meta(page, limit, total, (total + limit - 1) / limit, page * limit < total, page > 1)
  }

  /** Row `k` of the ordered result is on page p when OFFSET and LIMIT select it. */
  predicate OnPageNumber(k: nat, p: nat, limit: nat) {
    p > 0 && (p - 1) * limit <= k < (p - 1) * limit + limit
  }

  /** Every row is on exactly one page, and that page exists. */
  lemma EveryRowHasOnePage(page: nat, limit: nat, total: nat, k: nat)
    requires page > 0 && limit > 0 && k < total
    ensures OnPageNumber(k, k / limit + 1, limit) && k / limit + 1 <= BuildOffsetPaginationMeta(page, limit, total).totalPages
    ensures OnPageNumber(k, page, limit) ==> page == k / limit + 1
  {
    PageExists(total, k, limit);
    if OnPageNumber(k, page, limit) {
      OnlyPage(k, page, k / limit + 1, limit);
    }
  }

  lemma PageExists(total: nat, k: nat, limit: nat)
    requires limit > 0 && k < total
    ensures OnPageNumber(k, k / limit + 1, limit) && k / limit < (total + limit - 1) / limit
  {
    var q, pages := k / limit, (total + limit - 1) / limit;
    DivBounds(k, limit);
    DivBounds(total + limit - 1, limit);
    Monotone(q, pages, limit);
    assert (q + 1 - 1) * limit == q * limit;
  }

  lemma OnlyPage(k: nat, p: nat, q: nat, limit: nat)
    requires OnPageNumber(k, p, limit) && OnPageNumber(k, q, limit)
    ensures p == q
  {
    Monotone(p - 1, q, limit);
    Monotone(q - 1, p, limit);
  }

  /** hasNext stops at the last page: it holds exactly when a later page has a row. */
  lemma HasNextStops(page: nat, limit: nat, total: nat)
    requires page > 0 && limit > 0
    ensures var m := BuildOffsetPaginationMeta(page, limit, total);
      (m.hasNext <==> page < m.totalPages) && (m.totalPages == 0 <==> total == 0) && (m.hasPrev <==> page > 1 && total > 0)
  {
    DivBounds(total + limit - 1, limit);
    Monotone((total + limit - 1) / limit - 1, page, limit);
    Monotone(page, (total + limit - 1) / limit, limit);
  }

  /** No page that exists is empty. */
  lemma EveryPageHasARow(page: nat, limit: nat, total: nat, p: nat)
    requires page > 0 && limit > 0 && 0 < p <= BuildOffsetPaginationMeta(page, limit, total).totalPages
    ensures (p - 1) * limit < total && OnPageNumber((p - 1) * limit, p, limit)
  {
    DivBounds(total + limit - 1, limit);
    if p < (total + limit - 1) / limit { Monotone(p, (total + limit - 1) / limit, limit); }
    assert (p - 1) * limit == p * limit - limit;
  }

  lemma DivBounds(n: nat, limit: nat)
    requires limit > 0
    ensures n / limit * limit <= n < n / limit * limit + limit
  {
  }

  lemma Monotone(a: int, b: int, limit: nat)
    requires limit > 0
    ensures a * limit < b * limit <==> a < b
  {
  }
}
