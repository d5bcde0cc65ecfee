/** One event with its categories, price tiers and images (apps/api/src/modules/events/service.ts,
    apps/api/src/modules/events/event-image-service.ts). Each operation is one transaction under the event's
    row lock. Child rows are kept with their event: every query and foreign key on them names it. */
module EventLifecycle {
  import opened Options
  import opened Pricing
  import opened Sets
  import Organizers = OrganizerReview
  import Registration

  type OrganizerId = int
  type ImageId = int

  datatype EventStatus = Draft | UnderReview | Published | Completed | Cancelled
  datatype Category = Category(id: CategoryKey, slug: string, sortOrder: int, spotsTotal: int, spotsRemaining: int)
  datatype ImageKind = Hero | RouteMap
  datatype ImageStatus = ImagePending | ImageUploaded | ImageReplaced | ImageDeleted
  datatype Image = Image(kind: ImageKind, status: ImageStatus)

  /** Policy texts are stored trimmed, so a non-blank text is a non-empty one. */
  datatype Event = Event(
    organizerId: OrganizerId, title: string, status: EventStatus, isPaid: bool, publishedAt: Option<int>, firstPublishedAt: Option<int>,
    submittedForReviewAt: Option<int>, schedule: Registration.Schedule, refundPolicy: Option<string>, cancellationPolicy: Option<string>,
    categories: seq<Category>, tiers: seq<Tier>, images: map<ImageId, Image>)

  const EVENT_CATEGORY_DEFAULT_SPOTS := 100
  const EVENT_CATEGORY_MIN_SPOTS := 1
  const EVENT_PRICING_MIN_PRICE_PAISE := 100
  const EVENT_PRICING_MAX_PRICE_PAISE := 10000000

  /** A new event is always paid: the input schema and a table check fix the column. */
  function NewDraft(organizer: OrganizerId, title: string, schedule: Registration.Schedule): Event {
    Event(organizer, title, Draft, true, None, None, None, schedule, None, None, [], [], map[])
  }

  // ---------- Categories and tiers ----------

  function CategoryIds(categories: seq<Category>): set<CategoryKey> {
    set c | c in categories :: c.id
  }

  function TierIds(tiers: seq<Tier>): set<CategoryKey> {
    set t | t in tiers :: t.category
  }

  /** The test of replaceEventPricing's validator. */
  predicate PricingCovers(tiers: seq<Tier>, categories: seq<Category>) {
    && (forall t | t in tiers :: t.category in CategoryIds(categories))
    && |tiers| == |categories|
    && (forall c | c in categories :: c.id in TierIds(tiers))
  }

  ghost predicate DistinctCategories(categories: seq<Category>) {
    forall i, j :: 0 <= i < j < |categories| ==>
      categories[i].id != categories[j].id && categories[i].sortOrder != categories[j].sortOrder && categories[i].slug != categories[j].slug
  }

  /** Exactly one tier for each category, and no other tier. */
  ghost predicate OneTierEach(tiers: seq<Tier>, categories: seq<Category>) {
    && TierIds(tiers) == CategoryIds(categories)
    && (forall i, j :: 0 <= i < j < |tiers| ==> tiers[i].category != tiers[j].category)
  }

  function Keys(categories: seq<Category>): seq<CategoryKey> {
    seq(|categories|, i requires 0 <= i < |categories| => categories[i].id)
  }

  function TierKeys(tiers: seq<Tier>): seq<CategoryKey> {
    seq(|tiers|, i requires 0 <= i < |tiers| => tiers[i].category)
  }

  function Elements(s: seq<CategoryKey>): set<CategoryKey> {
    set x | x in s
  }

  /** A list is as long as its set of elements exactly when nothing repeats. */
  lemma {:induction false} NoRepeats(s: seq<CategoryKey>)
    ensures |Elements(s)| <= |s|
    ensures |Elements(s)| == |s| <==> forall i, j :: 0 <= i < j < |s| ==> s[i] != s[j]
  {
    if s != [] {
      var n := |s| - 1;
      NoRepeats(s[..n]);
      assert Elements(s) == Elements(s[..n]) + {s[n]};
      if s[n] in s[..n] {
        assert Elements(s) == Elements(s[..n]);
      }
    }
  }

  lemma KeysAre(tiers: seq<Tier>, categories: seq<Category>)
    ensures Elements(Keys(categories)) == CategoryIds(categories)
    ensures Elements(TierKeys(tiers)) == TierIds(tiers)
  {
    forall c | c in categories ensures c.id in Keys(categories) {
      var i :| 0 <= i < |categories| && categories[i] == c;
      assert Keys(categories)[i] == c.id;
    }
    forall t | t in tiers ensures t.category in TierKeys(tiers) {
      var i :| 0 <= i < |tiers| && tiers[i] == t;
      assert TierKeys(tiers)[i] == t.category;
    }
  }

  /** Equal length and coverage alone leave no category with two tiers and no stray tier. */
  lemma CoverageIsOneEach(tiers: seq<Tier>, categories: seq<Category>)
    requires DistinctCategories(categories) && |tiers| == |categories|
    requires forall c :: c in categories ==> c.id in TierIds(tiers)
    ensures OneTierEach(tiers, categories)
  {
    var keys, tierKeys := Keys(categories), TierKeys(tiers);
    KeysAre(tiers, categories);
    NoRepeats(keys);
    NoRepeats(tierKeys);
    SubsetSize(Elements(keys), Elements(tierKeys));
    forall i, j | 0 <= i < j < |tiers| ensures tiers[i].category != tiers[j].category {
      assert tierKeys[i] != tierKeys[j];
    }
  }

  lemma OneEachSameLength(tiers: seq<Tier>, categories: seq<Category>)
    requires OneTierEach(tiers, categories) && DistinctCategories(categories)
    ensures |tiers| == |categories|
  {
    KeysAre(tiers, categories);
    NoRepeats(Keys(categories));
    NoRepeats(TierKeys(tiers));
  }

  // ---------- Readiness ----------

  datatype Check = OrganizerVerified | RazorpayLinked | CategoriesConfigured | PricingConfigured | ActivePricing
    | HeroImageUploaded | RefundPolicyConfigured | CancellationPolicyConfigured | StartsInFuture | EndsInFuture | SlugAvailable

  /** What readiness reads outside the event's own rows. */
  datatype Context = Context(isVerified: bool, accountStatus: Organizers.AccountStatus, publishedPaidEvents: nat, slugFree: bool)

  predicate HasPositiveTier(e: Event, now: int) {
    exists t | t in e.tiers :: ServerPrice(t, now) > 0
  }

  predicate IsPaid(e: Event, now: int) {
    e.isPaid || HasPositiveTier(e, now)
  }

  predicate HasHero(e: Event) {
    exists i | i in e.images :: e.images[i] == Image(Hero, ImageUploaded)
  }

  predicate NonBlank(text: Option<string>) {
    text.Some? && text.value != ""
  }

  predicate Passes(check: Check, e: Event, c: Context, now: int) {
    match check
    case OrganizerVerified => c.isVerified
    case RazorpayLinked => !IsPaid(e, now) || c.accountStatus == Organizers.Active
    case CategoriesConfigured => |e.categories| > 0
    case PricingConfigured => |e.categories| > 0 && |e.tiers| == |e.categories| && forall k | k in e.categories :: k.id in TierIds(e.tiers)
    case ActivePricing => |e.tiers| > 0 && (!IsPaid(e, now) || HasPositiveTier(e, now))
    case HeroImageUploaded => HasHero(e)
    case RefundPolicyConfigured => NonBlank(e.refundPolicy)
    case CancellationPolicyConfigured => NonBlank(e.cancellationPolicy)
    case StartsInFuture => e.schedule.startAt > now
    case EndsInFuture => e.schedule.endAt > now
    case SlugAvailable => c.slugFree
  }

  function Denials(e: Event, c: Context, now: int): set<Check> {
    set check: Check | !Passes(check, e, c, now)
  }

  /** The default policy: an organizer's first four paid events to be published go through review. */
  predicate NeedsReview(e: Event, c: Context, now: int) {
    IsPaid(e, now) && c.publishedPaidEvents <= 3
  }

  datatype Denial = OrganizerNotVerified | RazorpayNotLinked | SlugConflict | DateInPast | PricingInactive | Incomplete

  function DenialFor(denials: set<Check>): Denial {
    if OrganizerVerified in denials then OrganizerNotVerified
    else if RazorpayLinked in denials then RazorpayNotLinked
    else if SlugAvailable in denials then SlugConflict
    else if StartsInFuture in denials || EndsInFuture in denials then DateInPast
    else if ActivePricing in denials then PricingInactive
    else Incomplete
  }

  // ---------- Operations ----------

  datatype CategoryConfig = CategoryConfig(id: CategoryKey, slug: string, sortOrder: int)

  /** The request schema, and the identifiers the inserted rows receive. */
  predicate ParsesCategories(config: seq<CategoryConfig>) {
    && config != []
    && (forall i, j | 0 <= i < j < |config| ::
          config[i].id != config[j].id && config[i].slug != config[j].slug && config[i].sortOrder != config[j].sortOrder)
  }

  predicate ParsesTier(t: Tier) {
    && EVENT_PRICING_MIN_PRICE_PAISE <= t.basePrice <= EVENT_PRICING_MAX_PRICE_PAISE && MeetsChecks(t)
    && (t.earlyBirdPrice.Some? ==> EVENT_PRICING_MIN_PRICE_PAISE <= t.earlyBirdPrice.value)
  }

  predicate ParsesPricing(tiers: seq<Tier>) {
    && tiers != []
    && (forall t | t in tiers :: ParsesTier(t))
    && (forall i, j | 0 <= i < j < |tiers| :: tiers[i].category != tiers[j].category)
  }

  predicate ParsesCapacity(total: Option<int>, remaining: Option<int>) {
    && (total.Some? || remaining.Some?)
    && (total.Some? ==> total.value >= EVENT_CATEGORY_MIN_SPOTS)
    && (remaining.Some? ==> remaining.value >= 0)
  }

  /** What gets past the first validation of a draft edit. */
  predicate ParsesDraft(payload: DraftPayload) {
    payload.LowRiskFieldsOnly? || (payload.Details? && Registration.AcceptedSchedule(payload.schedule))
  }

  function NewCategories(config: seq<CategoryConfig>): seq<Category> {
    seq(|config|, i requires 0 <= i < |config| =>
      Category(config[i].id, config[i].slug, config[i].sortOrder, EVENT_CATEGORY_DEFAULT_SPOTS, EVENT_CATEGORY_DEFAULT_SPOTS))
  }

  datatype Upload = NoUpload | BadUpload | GoodUpload
  datatype Text = Keep | SetTo(text: Option<string>)

  /** The body of a draft edit: details the schema parses but for the schedule rules, fields that only the published patch
      takes, or anything else. */
  datatype DraftPayload = Details(title: string, schedule: Registration.Schedule) | LowRiskFieldsOnly | Malformed

  /** Edits by the event's owner. */
  datatype Edit = UpdateDraft(payload: DraftPayload) | ReplaceCategories(config: seq<CategoryConfig>) | ReplacePricing(tiers: seq<Tier>)
    | UpdateCapacity(category: CategoryKey, spotsTotal: Option<int>, spotsRemaining: Option<int>)
    | UpdatePolicies(refund: string, cancellation: string) | PatchPublished(highRisk: bool, refundText: Text, cancellationText: Text)
    | RequestImage(image: ImageId, kind: ImageKind) | ConfirmImage(image: ImageId, upload: Upload) | DeleteImage(image: ImageId)

  /** Status changes: two by the owner, two by an administrator. */
  datatype Move = Publish | Unpublish | AdminApprove | AdminReject

  datatype Transition = AlreadyPublished | AlreadyUnderReview | DraftToUnderReview | DraftToPublished | PublishedToDraft
    | UnderReviewToPublished | UnderReviewToDraft
  datatype Answer = Ok | Moved(transition: Transition) | Missing | Forbidden | StateConflict | BadRequest | Denied(denial: Denial)

  function Patched(current: Option<string>, patch: Text): Option<string> {
    if patch.Keep? then current else patch.text
  }

  function Coalesce(first: Option<int>, now: int): Option<int> {
    if first.Some? then first else Some(now)
  }

  /** Images of the kind still open or shown, other than the confirmed one, become replaced. */
  function ReplaceOthers(images: map<ImageId, Image>, image: ImageId, kind: ImageKind): map<ImageId, Image> {
    map i | i in images ::
      if i != image && images[i].kind == kind && images[i].status in {ImagePending, ImageUploaded} then Image(kind, ImageReplaced) else images[i]
  }

  function SetCapacity(categories: seq<Category>, id: CategoryKey, total: int, remaining: int): seq<Category> {
    seq(|categories|, i requires 0 <= i < |categories| =>
      if categories[i].id == id then categories[i].(spotsTotal := total, spotsRemaining := remaining) else categories[i])
  }

  function Apply(e: Event, edit: Edit): (Event, Answer) {
    match edit
    case UpdateDraft(payload) =>
      if !ParsesDraft(payload) then (e, BadRequest)
      else if e.status != Draft then (e, StateConflict)
      else if payload.LowRiskFieldsOnly? then (e, BadRequest)
      else (e.(title := payload.title, schedule := payload.schedule), Ok)
    case ReplaceCategories(config) =>
      if !ParsesCategories(config) then (e, BadRequest)
      else if e.status != Draft || e.tiers != [] then (e, StateConflict)
      else (e.(categories := NewCategories(config)), Ok)
    case ReplacePricing(tiers) =>
      if !ParsesPricing(tiers) then (e, BadRequest)
      else if e.status != Draft || e.categories == [] then (e, StateConflict)
      else if !PricingCovers(tiers, e.categories) then (e, BadRequest)
      else (e.(tiers := tiers), Ok)
    case UpdateCapacity(id, total, remaining) => Capacity(e, id, total, remaining)
    case UpdatePolicies(refund, cancellation) =>
      if refund == "" || cancellation == "" then (e, BadRequest)
      else if e.status != Draft && e.status != Published then (e, StateConflict)
      else (e.(refundPolicy := Some(refund), cancellationPolicy := Some(cancellation)), Ok)
    case PatchPublished(highRisk, refund, cancellation) =>
      if e.status != Published || highRisk then (e, StateConflict)
      else (e.(refundPolicy := Patched(e.refundPolicy, refund), cancellationPolicy := Patched(e.cancellationPolicy, cancellation)), Ok)
    case RequestImage(i, kind) =>
      if i in e.images || (kind == Hero && e.status != Draft) then (e, StateConflict)
      else (e.(images := e.images[i := Image(kind, ImagePending)]), Ok)
    case ConfirmImage(i, upload) => Confirm(e, i, upload)
    case DeleteImage(i) =>
      if i !in e.images || e.images[i].status !in {ImagePending, ImageUploaded} then (e, Missing)
      else if e.images[i].kind == Hero && e.status != Draft then (e, StateConflict)
      else (e.(images := e.images[i := e.images[i].(status := ImageDeleted)]), Ok)
  }

  function Capacity(e: Event, id: CategoryKey, total: Option<int>, remaining: Option<int>): (Event, Answer) {
    if !ParsesCapacity(total, remaining) then (e, BadRequest)
    else if e.status != Draft then (e, StateConflict)
    else if id !in CategoryIds(e.categories) then (e, Missing)
    else
      var row := CategoryOf(e.categories, id);
      var nextTotal := if total.Some? then total.value else row.spotsTotal;
      var nextRemaining := if remaining.Some? then remaining.value else if row.spotsRemaining < nextTotal then row.spotsRemaining else nextTotal;
      if nextRemaining > nextTotal then (e, BadRequest)
      else (e.(categories := SetCapacity(e.categories, id, nextTotal, nextRemaining)), Ok)
  }

  function CategoryOf(categories: seq<Category>, id: CategoryKey): (row: Category)
    requires id in CategoryIds(categories)
    ensures row in categories && row.id == id
  {
    if categories[0].id == id then categories[0] else CategoryOf(categories[1..], id)
  }

  function Confirm(e: Event, i: ImageId, upload: Upload): (Event, Answer) {
    if i !in e.images || e.images[i].status != ImagePending then (e, Missing)
    else if e.images[i].kind == Hero && e.status != Draft then (e, StateConflict)
    else match upload
      case NoUpload => (e, BadRequest)
      case BadUpload => (e.(images := e.images[i := e.images[i].(status := ImageDeleted)]), BadRequest)
      case GoodUpload =>
        (e.(images := ReplaceOthers(e.images, i, e.images[i].kind)[i := e.images[i].(status := ImageUploaded)]), Ok)
  }

  function PublishStep(e: Event, c: Context, now: int): (Event, Answer) {
    if e.status == Published then (e, Moved(AlreadyPublished))
    else if e.status == UnderReview then (e, Moved(AlreadyUnderReview))
    else if e.status == Completed || e.status == Cancelled then (e, StateConflict)
    else if Denials(e, c, now) != {} then (e, Denied(DenialFor(Denials(e, c, now))))
    else if NeedsReview(e, c, now) then
      (e.(status := UnderReview, publishedAt := None, submittedForReviewAt := Some(now)), Moved(DraftToUnderReview))
    else
      (e.(status := Published, publishedAt := Some(now), firstPublishedAt := Coalesce(e.firstPublishedAt, now), submittedForReviewAt := None),
       Moved(DraftToPublished))
  }

  function UnpublishStep(e: Event): (Event, Answer) {
    if e.status != Published then (e, StateConflict)
    else (e.(status := Draft, publishedAt := None), Moved(PublishedToDraft))
  }

  function AdminApproveStep(e: Event, c: Context, now: int): (Event, Answer) {
    if e.status != UnderReview then (e, StateConflict)
    else if Denials(e, c, now) != {} then (e, Denied(DenialFor(Denials(e, c, now))))
    else
      (e.(status := Published, publishedAt := Some(now), firstPublishedAt := Coalesce(e.firstPublishedAt, now)), Moved(UnderReviewToPublished))
  }

  function AdminRejectStep(e: Event): (Event, Answer) {
    if e.status != UnderReview then (e, StateConflict)
    else (e.(status := Draft, publishedAt := None), Moved(UnderReviewToDraft))
  }

  function MoveTo(e: Event, move: Move, c: Context, now: int): (Event, Answer) {
    match move
    case Publish => PublishStep(e, c, now)
    case Unpublish => UnpublishStep(e)
    case AdminApprove => AdminApproveStep(e, c, now)
    case AdminReject => AdminRejectStep(e)
  }

  // ---------- Invariant ----------

  predicate Live(e: Event) {
    e.status == Published || e.status == UnderReview
  }

  ghost predicate OneUploaded(images: map<ImageId, Image>) {
    forall i, j :: i in images && j in images && images[i].status == ImageUploaded && images[i] == images[j] ==> i == j
  }

  ghost predicate CapacityOk(categories: seq<Category>) {
    forall k :: k in categories ==> 0 <= k.spotsRemaining <= k.spotsTotal && k.spotsTotal >= EVENT_CATEGORY_MIN_SPOTS
  }

  ghost predicate Dates(e: Event, now: int) {
    && (e.publishedAt.Some? <==> e.status == Published)
    && (e.status == Published ==> e.firstPublishedAt.Some? && e.firstPublishedAt.value <= e.publishedAt.value)
    && (e.firstPublishedAt.Some? ==> e.firstPublishedAt.value <= now)
    && (e.status == UnderReview ==> e.submittedForReviewAt.Some?)
  }

  ghost predicate PricingOk(categories: seq<Category>, tiers: seq<Tier>) {
    && DistinctCategories(categories) && CapacityOk(categories)
    && (tiers == [] || (categories != [] && OneTierEach(tiers, categories)))
    && (forall t :: t in tiers ==> ParsesTier(t))
  }

  /** The configuration part, true of drafts too. */
  ghost predicate Configured(e: Event) {
    PricingOk(e.categories, e.tiers) && OneUploaded(e.images) && e.isPaid && Registration.AcceptedSchedule(e.schedule)
  }

  ghost predicate Inv(e: Event, now: int) {
    && Configured(e) && Dates(e, now)
    && (Live(e) ==> e.categories != [] && OneTierEach(e.tiers, e.categories) && HasHero(e))
    && !e.status.Completed? && !e.status.Cancelled?
  }

  lemma NewDraftInv(organizer: OrganizerId, title: string, schedule: Registration.Schedule, now: int)
    requires Registration.AcceptedSchedule(schedule)
    ensures Inv(NewDraft(organizer, title, schedule), now)
  {
  }

  lemma ConfirmKeepsOneUploaded(images: map<ImageId, Image>, i: ImageId)
    requires OneUploaded(images) && i in images
    ensures OneUploaded(ReplaceOthers(images, i, images[i].kind)[i := images[i].(status := ImageUploaded)])
  {
  }

  lemma NewCategoriesFit(config: seq<CategoryConfig>)
    requires ParsesCategories(config)
    ensures DistinctCategories(NewCategories(config)) && CapacityOk(NewCategories(config)) && NewCategories(config) != []
  {
  }

  lemma CapacityFits(categories: seq<Category>, id: CategoryKey, total: int, remaining: int)
    requires DistinctCategories(categories) && CapacityOk(categories) && 0 <= remaining <= total && total >= EVENT_CATEGORY_MIN_SPOTS
    ensures DistinctCategories(SetCapacity(categories, id, total, remaining)) && CapacityOk(SetCapacity(categories, id, total, remaining))
    ensures CategoryIds(SetCapacity(categories, id, total, remaining)) == CategoryIds(categories)
  {
    SameIds(categories, SetCapacity(categories, id, total, remaining));
  }

  lemma CapacityKeepsPricing(e: Event, id: CategoryKey, total: Option<int>, remaining: Option<int>)
    requires PricingOk(e.categories, e.tiers)
    ensures PricingOk(Capacity(e, id, total, remaining).0.categories, Capacity(e, id, total, remaining).0.tiers)
  {
    if Capacity(e, id, total, remaining).1 == Ok {
      var row := CategoryOf(e.categories, id);
      var nextTotal := if total.Some? then total.value else row.spotsTotal;
      var nextRemaining := if remaining.Some? then remaining.value else if row.spotsRemaining < nextTotal then row.spotsRemaining else nextTotal;
      CapacityFits(e.categories, id, nextTotal, nextRemaining);
    }
  }

  lemma EditKeepsPricing(e: Event, edit: Edit)
    requires PricingOk(e.categories, e.tiers)
    ensures PricingOk(Apply(e, edit).0.categories, Apply(e, edit).0.tiers)
  {
    if edit.ReplaceCategories? {
      if Apply(e, edit).1 == Ok { NewCategoriesFit(edit.config); }
    } else if edit.ReplacePricing? {
      if Apply(e, edit).1 == Ok { CoverageIsOneEach(edit.tiers, e.categories); }
    } else if edit.UpdateCapacity? {
      CapacityKeepsPricing(e, edit.category, edit.spotsTotal, edit.spotsRemaining);
    }
  }

  /** Categories that keep their ids keep their tiers. */
  lemma SameIds(categories: seq<Category>, categories': seq<Category>)
    requires |categories'| == |categories|
    requires forall i :: 0 <= i < |categories| ==> categories'[i].id == categories[i].id
    ensures CategoryIds(categories') == CategoryIds(categories)
  {
    forall k | k in CategoryIds(categories) ensures k in CategoryIds(categories') {
      var i :| 0 <= i < |categories| && categories[i].id == k;
      assert categories'[i] in categories';
    }
    forall k | k in CategoryIds(categories') ensures k in CategoryIds(categories) {
      var i :| 0 <= i < |categories'| && categories'[i].id == k;
      assert categories[i] in categories;
    }
  }

  lemma EditKeepsImages(e: Event, edit: Edit)
    requires OneUploaded(e.images)
    ensures OneUploaded(Apply(e, edit).0.images)
    ensures e.status != Draft ==> SameHeroes(e, Apply(e, edit).0)
  {
    if edit.ConfirmImage? && Confirm(e, edit.image, edit.upload).1 == Ok {
      ConfirmKeepsOneUploaded(e.images, edit.image);
    }
  }

  ghost predicate SameHeroes(e: Event, e': Event) {
    forall i :: (i in e.images && e.images[i].kind == Hero) || (i in e'.images && e'.images[i].kind == Hero) ==>
      i in e.images && i in e'.images && e.images[i] == e'.images[i]
  }

  lemma EditKeepsInv(e: Event, edit: Edit, now: int)
    requires Inv(e, now)
    ensures Inv(Apply(e, edit).0, now)
  {
    EditKeepsPricing(e, edit);
    EditKeepsImages(e, edit);
    if Live(e) { LiveIsFrozen(e, edit); }
  }

  /** While an event is published or under review, its schedule, categories, prices and hero cannot be edited;
      what an edit can change is the two policy texts and the route map. */
  lemma LiveIsFrozen(e: Event, edit: Edit)
    requires Live(e)
    ensures var e' := Apply(e, edit).0;
      && e' == e.(images := e'.images, refundPolicy := e'.refundPolicy, cancellationPolicy := e'.cancellationPolicy)
      && SameHeroes(e, e') && (HasHero(e) <==> HasHero(e'))
      && (e.status == UnderReview ==> e'.refundPolicy == e.refundPolicy && e'.cancellationPolicy == e.cancellationPolicy)
  {
    OpenHeroOnlyInDraft(e, edit);
  }

  lemma OpenHeroOnlyInDraft(e: Event, edit: Edit)
    requires e.status != Draft
    ensures SameHeroes(e, Apply(e, edit).0)
    ensures HasHero(e) <==> HasHero(Apply(e, edit).0)
  {
  }

  /** Once priced, an event keeps its set of categories, in every status, and stays priced. */
  lemma PricedCategoriesFrozen(e: Event, edit: Edit)
    requires e.tiers != []
    ensures Apply(e, edit).0.tiers != []
    ensures |Apply(e, edit).0.categories| == |e.categories|
    ensures forall i :: 0 <= i < |e.categories| ==>
      Apply(e, edit).0.categories[i] == e.categories[i].(spotsTotal := Apply(e, edit).0.categories[i].spotsTotal,
                                                          spotsRemaining := Apply(e, edit).0.categories[i].spotsRemaining)
  {
  }

  /** The two routes that write policy texts of a published event agree. */
  lemma PolicyRoutesAgree(e: Event, refund: string, cancellation: string)
    requires e.status == Published && refund != "" && cancellation != ""
    ensures Apply(e, UpdatePolicies(refund, cancellation)) == Apply(e, PatchPublished(false, SetTo(Some(refund)), SetTo(Some(cancellation))))
    ensures Apply(e, PatchPublished(false, Keep, Keep)) == (e, Ok)
  {
  }

  // ---------- Publication ----------

  /** Stored prices are positive at every instant, so a stored event has an active price exactly when it is priced. */
  lemma PricedMeansActive(e: Event, now: int)
    requires Configured(e)
    ensures forall t :: t in e.tiers ==> ServerPrice(t, now) >= EVENT_PRICING_MIN_PRICE_PAISE
    ensures HasPositiveTier(e, now) <==> e.tiers != []
  {
    if e.tiers != [] {
      assert e.tiers[0] in e.tiers && ParsesTier(e.tiers[0]);
    }
  }

  /** Why a draft is refused, in terms of the organizer and the event: the first failing condition in this order. */
  lemma RefusalReason(e: Event, c: Context, now: int)
    requires Configured(e) && e.status == Draft
    ensures var answer := PublishStep(e, c, now).1; var linked := c.isVerified && c.accountStatus == Organizers.Active;
      && (answer == Denied(OrganizerNotVerified) <==> !c.isVerified)
      && (answer == Denied(RazorpayNotLinked) <==> c.isVerified && !linked)
      && (answer == Denied(SlugConflict) <==> linked && !c.slugFree)
      && (answer == Denied(DateInPast) <==> linked && c.slugFree && e.schedule.startAt <= now)
      && (answer == Denied(PricingInactive) <==> linked && c.slugFree && e.schedule.startAt > now && e.tiers == [])
      && (answer == Denied(Incomplete) <==> (linked && c.slugFree && e.schedule.startAt > now && e.tiers != []
            && !(HasHero(e) && NonBlank(e.refundPolicy) && NonBlank(e.cancellationPolicy))))
  {
    PricedMeansActive(e, now);
    DenialsAre(e, c, now);
    if c.isVerified && c.accountStatus == Organizers.Active && c.slugFree && e.schedule.startAt > now && e.tiers != [] {
      OwnChecks(e, c, now);
      assert Passes(ActivePricing, e, c, now) && Passes(EndsInFuture, e, c, now);
    } else if e.tiers == [] {
      assert !Passes(ActivePricing, e, c, now);
    } else {
      assert !Passes(OrganizerVerified, e, c, now) || !Passes(RazorpayLinked, e, c, now) || !Passes(SlugAvailable, e, c, now)
        || !Passes(StartsInFuture, e, c, now);
    }
  }

  lemma DenialsAre(e: Event, c: Context, now: int)
    ensures forall check :: check in Denials(e, c, now) <==> !Passes(check, e, c, now)
    ensures Denials(e, c, now) == {} <==> forall check :: Passes(check, e, c, now)
  {
    if check :| !Passes(check, e, c, now) {
      assert check in Denials(e, c, now);
    }
  }

  /** The checks an event under an active, verified organizer can still fail. */
  lemma OwnChecks(e: Event, c: Context, now: int)
    requires Configured(e) && e.tiers != [] && c.isVerified && c.accountStatus == Organizers.Active && c.slugFree && e.schedule.startAt > now
    ensures (forall check :: Passes(check, e, c, now)) <==> HasHero(e) && NonBlank(e.refundPolicy) && NonBlank(e.cancellationPolicy)
  {
    PricedMeansActive(e, now);
    PricedPassesPricing(e, c, now);
    if HasHero(e) && NonBlank(e.refundPolicy) && NonBlank(e.cancellationPolicy) {
      forall check ensures Passes(check, e, c, now) {
        match check
        case OrganizerVerified => case RazorpayLinked => case CategoriesConfigured => case PricingConfigured =>
        case ActivePricing => case HeroImageUploaded => case RefundPolicyConfigured => case CancellationPolicyConfigured =>
        case StartsInFuture => case EndsInFuture => case SlugAvailable =>
      }
    } else {
      assert !Passes(HeroImageUploaded, e, c, now) || !Passes(RefundPolicyConfigured, e, c, now) || !Passes(CancellationPolicyConfigured, e, c, now);
    }
  }

  lemma PricedPassesPricing(e: Event, c: Context, now: int)
    requires Configured(e) && e.tiers != []
    ensures Passes(CategoriesConfigured, e, c, now) && Passes(PricingConfigured, e, c, now)
  {
    OneEachSameLength(e.tiers, e.categories);
    forall k | k in e.categories ensures k.id in TierIds(e.tiers) {
      assert k.id in CategoryIds(e.categories);
    }
  }

  lemma ReadyEventIsConfigured(e: Event, c: Context, now: int)
    requires Configured(e) && Denials(e, c, now) == {}
    ensures e.categories != [] && OneTierEach(e.tiers, e.categories) && HasHero(e)
    ensures c.isVerified && c.accountStatus == Organizers.Active
  {
    forall check ensures Passes(check, e, c, now) {
      assert check !in Denials(e, c, now);
    }
    assert Passes(PricingConfigured, e, c, now) && Passes(HeroImageUploaded, e, c, now);
    assert Passes(OrganizerVerified, e, c, now) && Passes(RazorpayLinked, e, c, now);
    CoverageIsOneEach(e.tiers, e.categories);
  }

  lemma MoveKeepsInv(e: Event, move: Move, c: Context, now: int)
    requires Inv(e, now)
    ensures Inv(MoveTo(e, move, c, now).0, now)
  {
    if Denials(e, c, now) == {} { ReadyEventIsConfigured(e, c, now); }
  }

  /** An event goes live only under a verified organizer with an active payment account. */
  lemma GoingLiveNeedsOrganizer(e: Event, move: Move, c: Context, now: int)
    requires Configured(e) && !Live(e) && Live(MoveTo(e, move, c, now).0)
    ensures c.isVerified && c.accountStatus == Organizers.Active
  {
    ReadyEventIsConfigured(e, c, now);
  }

  /** The first publication is stamped once; without an approval it needs four earlier ones. */
  lemma FirstPublicationRule(e: Event, move: Move, c: Context, now: int)
    requires e.isPaid
    ensures var e' := MoveTo(e, move, c, now).0;
      && (e.firstPublishedAt.Some? ==> e'.firstPublishedAt == e.firstPublishedAt)
      && (e.firstPublishedAt.None? && e'.firstPublishedAt.Some? ==>
            (e'.firstPublishedAt == Some(now) && e'.status == Published
             && (move == AdminApprove || (move == Publish && c.publishedPaidEvents >= 4))))
  {
  }
}
