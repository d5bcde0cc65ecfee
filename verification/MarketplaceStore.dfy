/** The marketplace tables as the routes update them, statement by statement. Every route and job step goes through `Serve`,
    which performs one step of the marketplace and keeps its invariant; the methods before it are the routes' bodies. */
module MarketplaceStore {
  import opened Options
  import opened EventLifecycle
  import opened LinkedAccount
  import opened Marketplace
  import Organizers = OrganizerReview
  import Pricing
  import Registration
  import SlugHistory
  import SlugStore
  import SlugTables

  /** Writing back a row as it was changes nothing. */
  lemma SameRow<V>(table: map<int, V>, key: int)
    ensures key in table ==> table[key := table[key]] == table
  {
  }

  lemma LastWriteStays<V>(table: map<int, V>, key: int, first: V, second: V)
    ensures table[key := first][key := second] == table[key := second]
  {
  }

  /** Noting a slug a row holds already changes nothing. */
  lemma NotingSame(w: SlugHistory.World, id: SlugTables.Id)
    requires SlugHistory.Inv(w)
    ensures SlugHistory.Noting(w, w.tables, id).held == w.held
  {
    if id in w.tables.active { assert w.held[id] == w.held[id] + {w.tables.active[id]}; }
  }

  predicate AboutColumns(c: Check) {
    c.RefundPolicyConfigured? || c.CancellationPolicyConfigured? || c.StartsInFuture? || c.EndsInFuture? || c.SlugAvailable?
  }

  /** The two groups of failed items together are the denials. */
  lemma AllDenials(e: Event, c: Context, now: int, rows: set<Check>, columns: set<Check>)
    requires forall k: Check :: k in rows ==> !AboutColumns(k)
    requires forall k: Check :: k in columns ==> AboutColumns(k)
    requires OrganizerVerified in rows <==> !Passes(OrganizerVerified, e, c, now)
    requires RazorpayLinked in rows <==> !Passes(RazorpayLinked, e, c, now)
    requires CategoriesConfigured in rows <==> !Passes(CategoriesConfigured, e, c, now)
    requires PricingConfigured in rows <==> !Passes(PricingConfigured, e, c, now)
    requires ActivePricing in rows <==> !Passes(ActivePricing, e, c, now)
    requires HeroImageUploaded in rows <==> !Passes(HeroImageUploaded, e, c, now)
    requires RefundPolicyConfigured in columns <==> !Passes(RefundPolicyConfigured, e, c, now)
    requires CancellationPolicyConfigured in columns <==> !Passes(CancellationPolicyConfigured, e, c, now)
    requires StartsInFuture in columns <==> !Passes(StartsInFuture, e, c, now)
    requires EndsInFuture in columns <==> !Passes(EndsInFuture, e, c, now)
    requires SlugAvailable in columns <==> !Passes(SlugAvailable, e, c, now)
    ensures rows + columns == Denials(e, c, now)
  {
    forall check ensures check in rows + columns <==> check in Denials(e, c, now) {
      match check
      case OrganizerVerified => case RazorpayLinked => case CategoriesConfigured => case PricingConfigured =>
      case ActivePricing => case HeroImageUploaded => case RefundPolicyConfigured => case CancellationPolicyConfigured =>
      case StartsInFuture => case EndsInFuture => case SlugAvailable =>
    }
  }

  /** The items about the organizer and the event's child rows. */
  method CheckRows(event: Event, c: Context, isPaid: bool, hasPositiveTier: bool) returns (failed: set<Check>)
    ensures forall k: Check :: k in failed ==> !AboutColumns(k)
    ensures OrganizerVerified in failed <==> !c.isVerified
    ensures RazorpayLinked in failed <==> isPaid && c.accountStatus != Organizers.Active
    ensures CategoriesConfigured in failed <==> event.categories == []
    ensures PricingConfigured in failed <==>
      !(|event.categories| > 0 && |event.tiers| == |event.categories| && forall k :: k in event.categories ==> k.id in TierIds(event.tiers))
    ensures ActivePricing in failed <==> event.tiers == [] || (isPaid && !hasPositiveTier)
    ensures HeroImageUploaded in failed <==> !HasHero(event)
  {
    var tierCategoryIds := TierIds(event.tiers);
    var pricingCoversEveryCategory := |event.categories| > 0 && |event.tiers| == |event.categories|
      && forall k | k in event.categories :: k.id in tierCategoryIds;
    failed := {};
    if !c.isVerified {
      failed := failed + {OrganizerVerified};
    }
    if isPaid && c.accountStatus != Organizers.Active {
      failed := failed + {RazorpayLinked};
    }
    if |event.categories| == 0 {
      failed := failed + {CategoriesConfigured};
    }
    if !pricingCoversEveryCategory {
      failed := failed + {PricingConfigured};
    }
    if !(|event.tiers| > 0 && (!isPaid || hasPositiveTier)) {
      failed := failed + {ActivePricing};
    }
    if !HasHero(event) {
      failed := failed + {HeroImageUploaded};
    }
  }

  /** The items about the event's own columns. */
  method CheckColumns(event: Event, slugFree: bool, now: int) returns (failed: set<Check>)
    ensures forall k: Check :: k in failed ==> AboutColumns(k)
    ensures RefundPolicyConfigured in failed <==> !NonBlank(event.refundPolicy)
    ensures CancellationPolicyConfigured in failed <==> !NonBlank(event.cancellationPolicy)
    ensures StartsInFuture in failed <==> event.schedule.startAt <= now
    ensures EndsInFuture in failed <==> event.schedule.endAt <= now
    ensures SlugAvailable in failed <==> !slugFree
  {
    failed := {};
    if !NonBlank(event.refundPolicy) {
      failed := failed + {RefundPolicyConfigured};
    }
    if !NonBlank(event.cancellationPolicy) {
      failed := failed + {CancellationPolicyConfigured};
    }
    if event.schedule.startAt <= now {
      failed := failed + {StartsInFuture};
    }
    if event.schedule.endAt <= now {
      failed := failed + {EndsInFuture};
    }
    if !slugFree {
      failed := failed + {SlugAvailable};
    }
  }

  /** The failed checks, and whether a publication would go through review. */
  method BuildPublishReadiness(event: Event, c: Context, now: int) returns (denials: set<Check>, review: bool)
    ensures denials == Denials(event, c, now) && review == NeedsReview(event, c, now)
  {
    var hasPositiveTier := HasPositiveTier(event, now);
    var isPaid := event.isPaid || hasPositiveTier;
    var rows := CheckRows(event, c, isPaid, hasPositiveTier);
    var columns := CheckColumns(event, c.slugFree, now);
    denials := rows + columns;
    review := isPaid && c.publishedPaidEvents <= 3;
    AllDenials(event, c, now, rows, columns);
  }

  class Store {
    var desks: map<OrganizerId, Desk>
    var events: map<EventId, Event>
    var clock: int
    const slugs: SlugStore.Store
    ghost var firsts: map<OrganizerId, seq<First>>
    ghost var unclean: set<OrganizerId>

    function View(): Market
      reads this, slugs
    {
      Market(desks, events, slugs.View())
    }

    ghost function History(): World
      reads this, slugs
    {
      World(View(), clock, firsts, slugs.held, unclean)
    }

    ghost predicate Valid()
      reads this, slugs
    {
      slugs.kind == SlugTables.EventKind && Marketplace.Inv(History())
    }

    constructor ()
      ensures Valid() && History() == EMPTY && fresh(slugs)
    {
      desks, events, clock, firsts, unclean := map[], map[], 0, map[], {};
      slugs := new SlugStore.Store(SlugTables.EventKind);
      new;
      EmptyInv();
    }

    // ---------- Organizer rows ----------

    method WriteOrganizer(o: OrganizerId, row: Organizers.Organizer)
      requires o in desks
      modifies this`desks
      ensures desks == old(desks)[o := old(desks)[o].(organizer := row)]
    {
      desks := desks[o := desks[o].(organizer := row)];
    }

    /** Reads documents, policies and status, then writes the columns of the new status, if there is one. */
    method MaybeUpdateOrganizerVerificationStatus(o: OrganizerId, now: int)
      modifies this`desks
      ensures o !in old(desks) ==> desks == old(desks)
      ensures o in old(desks) ==>
        desks == old(desks)[o := old(desks)[o].(organizer := Organizers.MaybeUpdateStatus(old(desks)[o].organizer, now))]
    {
      if o !in desks {
        return;
      }
      var row := desks[o].organizer;
      var uploadedTypes := Organizers.UploadedTypes(row);
      var allDocsUploaded := |uploadedTypes| >= Organizers.REQUIRED_DOCUMENT_COUNT;
      if row.verificationStatus == Organizers.Approved {
        return;
      }
      var _, policiesAccepted := Organizers.GetPolicyStatus(Organizers.CURRENT, row.consents);
      var readyForReview := allDocsUploaded && policiesAccepted;
      if readyForReview && (row.verificationStatus == Organizers.PendingDocuments || row.verificationStatus == Organizers.Rejected) {
        row := row.(verificationStatus := Organizers.PendingReview, submittedForReviewAt := Some(now));
        row := row.(reviewedAt := None, rejectionReason := None);
        WriteOrganizer(o, row);
      } else if !readyForReview && row.verificationStatus == Organizers.PendingReview {
        row := row.(verificationStatus := Organizers.PendingDocuments, submittedForReviewAt := None);
        row := row.(reviewedAt := None, rejectionReason := None);
        WriteOrganizer(o, row);
      }
    }

    method RegisterOrganizer(o: OrganizerId) returns (r: Organizers.Outcome)
      modifies this`desks
      ensures (View(), r) == Register(old(View()), o)
    {
      if o in desks {
        return Organizers.Conflict;
      }
      desks := desks[o := Desk(Organizers.NEW_ORGANIZER, map[])];
      r := Organizers.Done;
    }

    method RequestDocumentUpload(o: OrganizerId, d: Organizers.DocId, documentType: Organizers.DocType, now: int)
      returns (r: Organizers.Outcome)
      modifies this`desks
      ensures (View(), r) == AtDesk(old(View()), o, Organizers.RequestDocument(d, documentType), now)
    {
      SameRow(desks, o);
      if o !in desks {
        return Organizers.NotFound;
      }
      var row := desks[o].organizer;
      if d in row.docs {
        return Organizers.Conflict;
      }
      WriteOrganizer(o, row.(docs := row.docs[d := Organizers.Doc(documentType, Organizers.PendingUpload)]));
      r := Organizers.Done;
    }

    method ConfirmDocumentUpload(o: OrganizerId, d: Organizers.DocId, stored: Organizers.StoredObject, now: int)
      returns (r: Organizers.Outcome)
      modifies this`desks
      ensures (View(), r) == AtDesk(old(View()), o, Organizers.ConfirmDocument(d, stored), now)
    {
      SameRow(desks, o);
      if o !in desks || d !in desks[o].organizer.docs || desks[o].organizer.docs[d].status != Organizers.PendingUpload {
        return Organizers.NotFound;
      }
      var row := desks[o].organizer;
      var doc := row.docs[d];
      if stored == Organizers.NoObject {
        return Organizers.Invalid;
      }
      if stored == Organizers.TooLarge {
        WriteOrganizer(o, row.(docs := row.docs[d := doc.(status := Organizers.Deleted)]));
        return Organizers.Invalid;
      }
      // any document of the type uploaded before becomes replaced, then this one is uploaded
      row := row.(docs := map x | x in row.docs
        :: if row.docs[x].documentType == doc.documentType && row.docs[x].status == Organizers.Uploaded
             then row.docs[x].(status := Organizers.Replaced) else row.docs[x]);
      assert row.docs == Organizers.ReplaceUploaded(desks[o].organizer.docs, doc.documentType);
      row := row.(docs := row.docs[d := doc.(status := Organizers.Uploaded)]);
      WriteOrganizer(o, row);
      ghost var written := desks[o];
      MaybeUpdateOrganizerVerificationStatus(o, now);
      LastWriteStays(old(desks), o, written, desks[o]);
      r := Organizers.Done;
    }

    method DeleteVerificationDocument(o: OrganizerId, d: Organizers.DocId, now: int) returns (r: Organizers.Outcome)
      modifies this`desks
      ensures (View(), r) == AtDesk(old(View()), o, Organizers.DeleteDocument(d), now)
    {
      SameRow(desks, o);
      if o !in desks || d !in desks[o].organizer.docs
        || desks[o].organizer.docs[d].status !in {Organizers.PendingUpload, Organizers.Uploaded}
      {
        return Organizers.NotFound;
      }
      var row := desks[o].organizer;
      WriteOrganizer(o, row.(docs := row.docs[d := row.docs[d].(status := Organizers.Deleted)]));
      ghost var written := desks[o];
      MaybeUpdateOrganizerVerificationStatus(o, now);
      LastWriteStays(old(desks), o, written, desks[o]);
      r := Organizers.Done;
    }

    static method MissingRows(consents: seq<Organizers.Consent>, types: seq<Organizers.Policy>, now: int)
      returns (rows: seq<Organizers.Consent>)
      ensures rows == Organizers.NewRows(Organizers.CURRENT, consents, types, now)
    {
      rows := [];
      for i := 0 to |types|
        invariant rows + Organizers.NewRows(Organizers.CURRENT, consents, types[i..], now)
          == Organizers.NewRows(Organizers.CURRENT, consents, types, now)
      {
        assert types[i..][1..] == types[i + 1..];
        if !Organizers.HasCurrentRow(Organizers.CURRENT, consents, types[i]) {
          rows := rows + [Organizers.Consent(types[i], Organizers.VersionOf(Organizers.CURRENT, types[i]), now)];
        }
      }
    }

    /** Which policies are accepted is read once, before any row is inserted. */
    method AcceptPolicies(o: OrganizerId, types: seq<Organizers.Policy>, now: int) returns (r: Organizers.Outcome)
      modifies this`desks
      ensures (View(), r) == AtDesk(old(View()), o, Organizers.AcceptPolicies(types), now)
    {
      SameRow(desks, o);
      if o !in desks {
        return Organizers.NotFound;
      }
      if types == [] || !Organizers.Distinct(types) {
        return Organizers.Invalid;
      }
      var row := desks[o].organizer;
      var rows := MissingRows(row.consents, types, now);
      WriteOrganizer(o, row.(consents := row.consents + rows));
      ghost var written := desks[o];
      MaybeUpdateOrganizerVerificationStatus(o, now);
      LastWriteStays(old(desks), o, written, desks[o]);
      r := Organizers.Done;
    }

    /** Approval also resets the payment account, whatever its state. */
    method ApproveOrganizer(o: OrganizerId, now: int) returns (r: Organizers.Outcome)
      modifies this`desks
      ensures (View(), r) == AtDesk(old(View()), o, Organizers.Approve, now)
    {
      SameRow(desks, o);
      if o in desks && desks[o].organizer.verificationStatus == Organizers.PendingReview {
        var row := desks[o].organizer.(verificationStatus := Organizers.Approved, isVerified := true);
        row := row.(reviewedAt := Some(now), accountStatus := Organizers.NotStarted);
        WriteOrganizer(o, row);
        return Organizers.Done;
      }
      r := if o in desks then Organizers.Conflict else Organizers.NotFound;
    }

    method RejectOrganizer(o: OrganizerId, reason: string, now: int) returns (r: Organizers.Outcome)
      modifies this`desks
      ensures (View(), r) == AtDesk(old(View()), o, Organizers.Reject(reason), now)
    {
      SameRow(desks, o);
      if o in desks && desks[o].organizer.verificationStatus == Organizers.PendingReview {
        var row := desks[o].organizer.(verificationStatus := Organizers.Rejected, isVerified := false);
        row := row.(reviewedAt := Some(now), rejectionReason := Some(reason));
        WriteOrganizer(o, row);
        return Organizers.Done;
      }
      r := if o in desks then Organizers.Conflict else Organizers.NotFound;
    }

    // ---------- Linked accounts ----------

    /** From the row a job has read to its compare-and-set: true when the job goes on to call the API. */
    method ClaimLinkedAccount(o: OrganizerId, j: JobId) returns (claimed: bool)
      requires o in desks && j in desks[o].jobs && desks[o].jobs[j].Fetched?
      modifies this`desks
      ensures View() == RunJob(old(View()), o, Claim(j))
      ensures claimed <==> j in desks[o].jobs && desks[o].jobs[j].Claimed?
    {
      var d := desks[o];
      var seen := d.jobs[j];
      claimed := false;
      if seen.accountId.Some? && seen.accountId.value != "" && seen.status in {Organizers.Active, Organizers.AccountPending} {
        desks := desks[o := d.(jobs := d.jobs - {j})];
        return;
      }
      if d.organizer.accountStatus in {Organizers.NotStarted, Organizers.Failed, Organizers.NeedsAction} {
        desks := desks[o := Desk(d.organizer.(accountStatus := Organizers.AccountPending), d.jobs[j := Claimed])];
        claimed := true;
      } else {
        desks := desks[o := d.(jobs := d.jobs - {j})];
      }
    }

    /** The read a job starts with. */
    method FetchOrganizer(o: OrganizerId, j: JobId)
      requires o in desks && j !in desks[o].jobs
      modifies this`desks
      ensures View() == RunJob(old(View()), o, Fetch(j))
    {
      var d := desks[o];
      desks := desks[o := d.(jobs := d.jobs[j := Fetched(d.organizer.accountId, d.organizer.accountStatus)])];
    }

    /** The success write. Applied but not acknowledged, it is followed by the catch block. */
    method WriteCreated(o: OrganizerId, j: JobId, accountId: string, rawStatus: string, acknowledged: bool)
      requires o in desks && j in desks[o].jobs && desks[o].jobs[j].Claimed?
      modifies this`desks
      ensures View() == RunJob(old(View()), o,
                               if acknowledged then Finish(j, Created(accountId, rawStatus)) else LoseReply(j, accountId, rawStatus))
      ensures o in desks && StandsFor(rawStatus, desks[o].organizer.accountStatus)
    {
      var d := desks[o];
      var raw := if rawStatus != "" then rawStatus else "created";
      var row := d.organizer.(accountId := Some(accountId), accountStatus := MapRazorpayStatus(raw));
      desks := desks[o := Desk(row, if acknowledged then d.jobs - {j} else d.jobs[j := Failing])];
    }

    /** The last write of a job: nothing checks the row again. */
    method FinishLinkedAccount(o: OrganizerId, j: JobId, outcome: ApiOutcome)
      requires o in desks && j in desks[o].jobs && !desks[o].jobs[j].Fetched?
      modifies this`desks
      ensures View() == RunJob(old(View()), o, Finish(j, outcome))
      ensures old(desks)[o].jobs[j].Claimed? && outcome.Created? ==> o in desks && StandsFor(outcome.rawStatus, desks[o].organizer.accountStatus)
    {
      var d := desks[o];
      if d.jobs[j].Claimed? && outcome.Created? {
        WriteCreated(o, j, outcome.accountId, outcome.rawStatus, true);
        return;
      }
      var row := d.organizer;
      if outcome == Disabled && d.jobs[j].Claimed? {
        row := row.(accountStatus := Organizers.NotStarted);
      } else if outcome != Crash {
        row := row.(accountStatus := Organizers.Failed);
      }
      desks := desks[o := Desk(row, d.jobs - {j})];
    }

    // ---------- Event configuration ----------

    method ReplaceEventCategories(actor: OrganizerId, e: EventId, config: seq<CategoryConfig>) returns (r: Answer)
      modifies this`events
      ensures (View(), r) == EditEvent(old(View()), actor, e, ReplaceCategories(config))
    {
      SameRow(events, e);
      if !ParsesCategories(config) {
        return BadRequest;
      }
      if actor !in desks || e !in events {
        return Missing;
      }
      var event := events[e];
      if event.organizerId != actor {
        return Forbidden;
      }
      if event.status != Draft || |event.tiers| > 0 {
        return StateConflict;
      }
      var categories := [];
      for i := 0 to |config|
        invariant categories == NewCategories(config)[..i]
      {
        categories := categories
          + [Category(config[i].id, config[i].slug, config[i].sortOrder, EVENT_CATEGORY_DEFAULT_SPOTS, EVENT_CATEGORY_DEFAULT_SPOTS)];
      }
      assert categories == NewCategories(config);
      events := events[e := event.(categories := categories)];
      r := Ok;
    }

    method ReplaceEventPricing(actor: OrganizerId, e: EventId, tiers: seq<Pricing.Tier>) returns (r: Answer)
      modifies this`events
      ensures (View(), r) == EditEvent(old(View()), actor, e, ReplacePricing(tiers))
    {
      SameRow(events, e);
      if !ParsesPricing(tiers) {
        return BadRequest;
      }
      if actor !in desks || e !in events {
        return Missing;
      }
      var event := events[e];
      if event.organizerId != actor {
        return Forbidden;
      }
      if event.status != Draft {
        return StateConflict;
      }
      if |event.categories| == 0 {
        return StateConflict;
      }
      if exists t | t in tiers :: t.category !in CategoryIds(event.categories) {
        return BadRequest;
      }
      if |tiers| != |event.categories| || exists c | c in event.categories :: c.id !in TierIds(tiers) {
        return BadRequest;
      }
      events := events[e := event.(tiers := tiers)];
      r := Ok;
    }

    /** The slug rows belong to the event rows. */
    ghost predicate SlugRows()
      reads this, slugs
    {
      slugs.kind == SlugTables.EventKind && slugs.Valid() && slugs.active.Keys == events.Keys
    }

    method CreateDraftEvent(actor: OrganizerId, e: EventId, title: string, schedule: Registration.Schedule) returns (r: Answer)
      requires SlugRows()
      modifies this`events, slugs
      ensures (View(), r) == CreateEvent(old(View()), actor, e, title, schedule)
      ensures slugs.held == if View().slugs == old(View().slugs) then old(slugs.held)
                            else SlugHistory.Noting(old(slugs.History()), View().slugs, e).held
    {
      if !Registration.AcceptedSchedule(schedule) {
        return BadRequest;
      }
      if actor !in desks {
        return Missing;
      }
      if e in events {
        return StateConflict;
      }
      var inserted := slugs.Insert(e, title, DEFAULT_EVENT_SLUG_MAX_ATTEMPTS);
      if !inserted.Created? {
        return StateConflict;
      }
      events := events[e := NewDraft(actor, title, schedule)];
      r := Ok;
    }

    /** The details and, when the title changes, the rename. Without a free slug the transaction is rolled back. */
    method UpdateDraftEvent(actor: OrganizerId, e: EventId, payload: DraftPayload) returns (r: Answer)
      requires SlugRows()
      modifies this`events, slugs
      ensures (View(), r) == EditEvent(old(View()), actor, e, UpdateDraft(payload))
      ensures slugs.held == if View().slugs == old(View().slugs) then old(slugs.held)
                            else SlugHistory.Noting(old(slugs.History()), View().slugs, e).held
    {
      SameRow(events, e);
      if !ParsesDraft(payload) {
        return BadRequest;
      }
      if actor !in desks || e !in events {
        return Missing;
      }
      var event := events[e];
      if event.organizerId != actor {
        return Forbidden;
      }
      if event.status != Draft {
        return StateConflict;
      }
      if payload.LowRiskFieldsOnly? {
        return BadRequest;
      }
      if payload.title != event.title {
        NotingSame(slugs.History(), e);
        var renamed := slugs.UpdateSlug(e, "", payload.title, DEFAULT_EVENT_SLUG_MAX_ATTEMPTS);
        if !renamed.Renamed? {
          return StateConflict;
        }
      }
      events := events[e := event.(title := payload.title, schedule := payload.schedule)];
      r := Ok;
    }

    method UpdateEventPolicies(actor: OrganizerId, e: EventId, refund: string, cancellation: string) returns (r: Answer)
      modifies this`events
      ensures (View(), r) == EditEvent(old(View()), actor, e, UpdatePolicies(refund, cancellation))
    {
      SameRow(events, e);
      if refund == "" || cancellation == "" {
        return BadRequest;
      }
      if actor !in desks || e !in events {
        return Missing;
      }
      if events[e].organizerId != actor {
        return Forbidden;
      }
      if events[e].status != Draft && events[e].status != Published {
        return StateConflict;
      }
      events := events[e := events[e].(refundPolicy := Some(refund), cancellationPolicy := Some(cancellation))];
      r := Ok;
    }

    /** Only the fields that differ are written, and nothing when none does. */
    method UpdatePublishedEvent(actor: OrganizerId, e: EventId, highRisk: bool, refundText: Text, cancellationText: Text)
      returns (r: Answer)
      modifies this`events
      ensures (View(), r) == EditEvent(old(View()), actor, e, PatchPublished(highRisk, refundText, cancellationText))
    {
      SameRow(events, e);
      if actor !in desks || e !in events {
        return Missing;
      }
      var event := events[e];
      if event.organizerId != actor {
        return Forbidden;
      }
      if event.status != Published || highRisk {
        return StateConflict;
      }
      var changed, updated := false, event;
      if refundText.SetTo? && refundText.text != event.refundPolicy {
        updated := updated.(refundPolicy := refundText.text);
        changed := true;
      }
      if cancellationText.SetTo? && cancellationText.text != event.cancellationPolicy {
        updated := updated.(cancellationPolicy := cancellationText.text);
        changed := true;
      }
      if !changed {
        return Ok;
      }
      events := events[e := updated];
      r := Ok;
    }

    method UpdateEventCategoryCapacity(actor: OrganizerId, e: EventId, id: Pricing.CategoryKey,
                                       spotsTotal: Option<int>, spotsRemaining: Option<int>) returns (r: Answer)
      modifies this`events
      ensures (View(), r) == EditEvent(old(View()), actor, e, UpdateCapacity(id, spotsTotal, spotsRemaining))
    {
      SameRow(events, e);
      if !ParsesCapacity(spotsTotal, spotsRemaining) {
        return BadRequest;
      }
      if actor !in desks || e !in events {
        return Missing;
      }
      var event := events[e];
      if event.organizerId != actor {
        return Forbidden;
      }
      if event.status != Draft {
        return StateConflict;
      }
      if id !in CategoryIds(event.categories) {
        return Missing;
      }
      var category := CategoryOf(event.categories, id);
      var nextTotal := if spotsTotal.Some? then spotsTotal.value else category.spotsTotal;
      var nextRemaining := if category.spotsRemaining < nextTotal then category.spotsRemaining else nextTotal;
      if spotsRemaining.Some? {
        nextRemaining := spotsRemaining.value;
      }
      if nextRemaining > nextTotal {
        return BadRequest;
      }
      events := events[e := event.(categories := SetCapacity(event.categories, id, nextTotal, nextRemaining))];
      r := Ok;
    }

    // ---------- Event images ----------

    method RequestEventImageUpload(actor: OrganizerId, e: EventId, i: ImageId, kind: ImageKind) returns (r: Answer)
      modifies this`events
      ensures (View(), r) == EditEvent(old(View()), actor, e, RequestImage(i, kind))
    {
      SameRow(events, e);
      if actor !in desks || e !in events {
        return Missing;
      }
      var event := events[e];
      if event.organizerId != actor {
        return Forbidden;
      }
      if i in event.images || (kind == Hero && event.status != Draft) {
        return StateConflict;
      }
      events := events[e := event.(images := event.images[i := Image(kind, ImagePending)])];
      r := Ok;
    }

    /** A good upload first replaces the kind's other open or shown images, then is shown itself. */
    method ConfirmEventImageUpload(actor: OrganizerId, e: EventId, i: ImageId, upload: Upload) returns (r: Answer)
      modifies this`events
      ensures (View(), r) == EditEvent(old(View()), actor, e, ConfirmImage(i, upload))
    {
      SameRow(events, e);
      if actor !in desks || e !in events {
        return Missing;
      }
      var event := events[e];
      if event.organizerId != actor {
        return Forbidden;
      }
      if i !in event.images || event.images[i].status != ImagePending {
        return Missing;
      }
      var image := event.images[i];
      if image.kind == Hero && event.status != Draft {
        return StateConflict;
      }
      if upload == NoUpload {
        return BadRequest;
      }
      if upload == BadUpload {
        events := events[e := event.(images := event.images[i := image.(status := ImageDeleted)])];
        return BadRequest;
      }
      var images := map x | x in event.images
        :: if event.images[x].kind == image.kind && event.images[x].status in {ImagePending, ImageUploaded} && x != i
             then event.images[x].(status := ImageReplaced) else event.images[x];
      assert images == ReplaceOthers(event.images, i, image.kind);
      events := events[e := event.(images := images[i := image.(status := ImageUploaded)])];
      r := Ok;
    }

    method DeleteEventImage(actor: OrganizerId, e: EventId, i: ImageId) returns (r: Answer)
      modifies this`events
      ensures (View(), r) == EditEvent(old(View()), actor, e, DeleteImage(i))
    {
      SameRow(events, e);
      if actor !in desks || e !in events {
        return Missing;
      }
      var event := events[e];
      if event.organizerId != actor {
        return Forbidden;
      }
      if i !in event.images || event.images[i].status !in {ImagePending, ImageUploaded} {
        return Missing;
      }
      if event.images[i].kind == Hero && event.status != Draft {
        return StateConflict;
      }
      events := events[e := event.(images := event.images[i := event.images[i].(status := ImageDeleted)])];
      r := Ok;
    }

    // ---------- Publication ----------

    method ProbeSlug(e: EventId) returns (free: bool)
      ensures free == SlugFree(View(), e)
    {
      if e !in slugs.active {
        return false;
      }
      var taken := slugs.SlugExists(slugs.active[e], Some(e));
      free := !taken;
    }

    /** What readiness reads outside the event's own rows: the organizer, the count of published paid events, the slug probe. */
    method ReadContext(e: EventId) returns (c: Context)
      requires e in events && events[e].organizerId in desks
      ensures c == ContextFor(View(), e)
    {
      var organizer := desks[events[e].organizerId].organizer;
      var slugFree := ProbeSlug(e);
      c := Context(organizer.isVerified, organizer.accountStatus, |PublishedPaid(View(), events[e].organizerId)|, slugFree);
    }

    method PublishEvent(actor: OrganizerId, e: EventId, now: int) returns (r: Answer)
      modifies this`events
      ensures (View(), r) == MoveEvent(old(View()), Owner(actor), e, Publish, now)
      ensures r == Moved(DraftToPublished) ==> e in events && events[e].status == Published && events[e].publishedAt == Some(now)
      ensures r == Moved(DraftToUnderReview) ==> e in events && events[e].status == UnderReview && events[e].submittedForReviewAt == Some(now)
    {
      SameRow(events, e);
      if actor !in desks || e !in events {
        return Missing;
      }
      var event := events[e];
      if event.organizerId != actor {
        return Forbidden;
      }
      var context := ReadContext(e);
      var denials, review := BuildPublishReadiness(event, context, now);
      if event.status == Published {
        return Moved(AlreadyPublished);
      }
      if event.status == UnderReview {
        return Moved(AlreadyUnderReview);
      }
      if event.status != Draft {
        return StateConflict;
      }
      if denials != {} {
        return Denied(DenialFor(denials));
      }
      if review {
        event := event.(status := UnderReview, publishedAt := None, submittedForReviewAt := Some(now));
        r := Moved(DraftToUnderReview);
      } else {
        event := event.(status := Published, publishedAt := Some(now), submittedForReviewAt := None);
        event := event.(firstPublishedAt := Coalesce(event.firstPublishedAt, now));
        r := Moved(DraftToPublished);
      }
      events := events[e := event];
    }

    method UnpublishEvent(actor: OrganizerId, e: EventId, now: int) returns (r: Answer)
      modifies this`events
      ensures (View(), r) == MoveEvent(old(View()), Owner(actor), e, Unpublish, now)
      ensures r == Moved(PublishedToDraft) ==> e in events && events[e].status == Draft && events[e].publishedAt == None
    {
      SameRow(events, e);
      if actor !in desks || e !in events {
        return Missing;
      }
      if events[e].organizerId != actor {
        return Forbidden;
      }
      if events[e].status != Published {
        return StateConflict;
      }
      events := events[e := events[e].(status := Draft, publishedAt := None)];
      r := Moved(PublishedToDraft);
    }

    method AdminApproveEvent(e: EventId, now: int) returns (r: Answer)
      modifies this`events
      ensures (View(), r) == MoveEvent(old(View()), Admin, e, AdminApprove, now)
      ensures r == Moved(UnderReviewToPublished) ==> e in events && events[e].status == Published && events[e].publishedAt == Some(now)
    {
      SameRow(events, e);
      if e !in events {
        return Missing;
      }
      var event := events[e];
      if event.status != UnderReview {
        return StateConflict;
      }
      if event.organizerId !in desks {
        return Missing;
      }
      var context := ReadContext(e);
      var denials, _ := BuildPublishReadiness(event, context, now);
      if denials != {} {
        return Denied(DenialFor(denials));
      }
      event := event.(status := Published, publishedAt := Some(now));
      events := events[e := event.(firstPublishedAt := Coalesce(event.firstPublishedAt, now))];
      r := Moved(UnderReviewToPublished);
    }

    method AdminRejectEvent(e: EventId, now: int) returns (r: Answer)
      modifies this`events
      ensures (View(), r) == MoveEvent(old(View()), Admin, e, AdminReject, now)
      ensures r == Moved(UnderReviewToDraft) ==> e in events && events[e].status == Draft
    {
      SameRow(events, e);
      if e !in events {
        return Missing;
      }
      if events[e].status != UnderReview {
        return StateConflict;
      }
      if events[e].organizerId !in desks {
        return Missing;
      }
      events := events[e := events[e].(status := Draft, publishedAt := None)];
      r := Moved(UnderReviewToDraft);
    }

    // ---------- The whole store ----------

    method ServeDesk(o: OrganizerId, op: Organizers.Op, now: int) returns (r: Organizers.Outcome)
      modifies this`desks
      ensures (View(), r) == AtDesk(old(View()), o, op, now)
    {
      match op {
        case RequestDocument(d, t) => r := RequestDocumentUpload(o, d, t, now);
        case ConfirmDocument(d, stored) => r := ConfirmDocumentUpload(o, d, stored, now);
        case DeleteDocument(d) => r := DeleteVerificationDocument(o, d, now);
        case AcceptPolicies(types) => r := AcceptPolicies(o, types, now);
        case Approve => r := ApproveOrganizer(o, now);
        case Reject(reason) => r := RejectOrganizer(o, reason, now);
      }
    }

    /** A job step for a job that is not at that point, or no longer there, touches nothing. */
    method ServeJob(o: OrganizerId, step: JobStep)
      modifies this`desks
      ensures View() == RunJob(old(View()), o, step)
    {
      SameRow(desks, o);
      if o !in desks {
        return;
      }
      var jobs := desks[o].jobs;
      match step {
        case Fetch(j) =>
          if j !in jobs {
            FetchOrganizer(o, j);
          }
        case Claim(j) =>
          if j in jobs && jobs[j].Fetched? {
            var _ := ClaimLinkedAccount(o, j);
          }
        case Finish(j, outcome) =>
          if j in jobs && !jobs[j].Fetched? {
            FinishLinkedAccount(o, j, outcome);
          }
        case LoseReply(j, accountId, rawStatus) =>
          if j in jobs && jobs[j].Claimed? {
            WriteCreated(o, j, accountId, rawStatus, false);
          }
      }
    }

    method ServeEdit(actor: OrganizerId, e: EventId, edit: Edit) returns (r: Answer)
      requires SlugRows()
      modifies this`events, slugs
      ensures (View(), r) == EditEvent(old(View()), actor, e, edit)
      ensures slugs.held == if View().slugs == old(View().slugs) then old(slugs.held)
                            else SlugHistory.Noting(old(slugs.History()), View().slugs, e).held
    {
      match edit {
        case UpdateDraft(payload) => r := UpdateDraftEvent(actor, e, payload);
        case ReplaceCategories(config) => r := ReplaceEventCategories(actor, e, config);
        case ReplacePricing(tiers) => r := ReplaceEventPricing(actor, e, tiers);
        case UpdateCapacity(id, total, remaining) => r := UpdateEventCategoryCapacity(actor, e, id, total, remaining);
        case UpdatePolicies(refund, cancellation) => r := UpdateEventPolicies(actor, e, refund, cancellation);
        case PatchPublished(highRisk, refund, cancellation) => r := UpdatePublishedEvent(actor, e, highRisk, refund, cancellation);
        case RequestImage(i, kind) => r := RequestEventImageUpload(actor, e, i, kind);
        case ConfirmImage(i, upload) => r := ConfirmEventImageUpload(actor, e, i, upload);
        case DeleteImage(i) => r := DeleteEventImage(actor, e, i);
      }
    }

    method ServeMove(who: Actor, e: EventId, move: Move, now: int) returns (r: Answer)
      modifies this`events
      ensures (View(), r) == MoveEvent(old(View()), who, e, move, now)
    {
      if !Allowed(who, move) {
        return Forbidden;
      }
      match move {
        case Publish => r := PublishEvent(who.organizer, e, now);
        case Unpublish => r := UnpublishEvent(who.organizer, e, now);
        case AdminApprove => r := AdminApproveEvent(e, now);
        case AdminReject => r := AdminRejectEvent(e, now);
      }
    }

    method Dispatch(op: Op, now: int)
      requires SlugRows()
      modifies this`desks, this`events, slugs
      ensures View() == Do(old(View()), op, now)
      ensures slugs.held == Held(old(History()), View(), op)
    {
      match op {
        case DoRegister(o) => var _ := RegisterOrganizer(o);
        case DoAtDesk(o, dop) => var _ := ServeDesk(o, dop, now);
        case DoJob(o, step) => ServeJob(o, step);
        case DoCreate(o, e, title, schedule) => var _ := CreateDraftEvent(o, e, title, schedule);
        case DoEdit(o, e, edit) => var _ := ServeEdit(o, e, edit);
        case DoMove(who, e, move) => var _ := ServeMove(who, e, move, now);
      }
    }

    method WriteTables(op: Op, now: int, ghost goal: World)
      requires SlugRows() && goal.market == Do(View(), op, now) && goal.held == Held(History(), goal.market, op)
      modifies this`desks, this`events, slugs
      ensures View() == goal.market && slugs.held == goal.held
    {
      Dispatch(op, now);
    }

    /** The clock of one step, and its log of first publications and unclean accounts. */
    method Record(now: int, ghost goal: World)
      requires View() == goal.market && slugs.held == goal.held && goal.clock == now
      modifies this`clock, this`firsts, this`unclean
      ensures History() == goal
    {
      clock := now;
      firsts, unclean := goal.firsts, goal.unclean;
    }

    method Perform(elapsed: nat, op: Op)
      requires SlugRows()
      modifies this, slugs
      ensures History() == Step(old(History()), Timed(elapsed, op))
    {
      ghost var goal := Step(History(), Timed(elapsed, op));
      var now := clock + elapsed;
      StepIs(History(), Timed(elapsed, op));
      WriteTables(op, now, goal);
      Record(now, goal);
    }

    /** Any request or job step at any later instant is one step of the marketplace, and keeps its invariant: every theorem
        about runs speaks of a store that has served any sequence of them. */
    method Serve(elapsed: nat, op: Op)
      requires Valid()
      modifies this, slugs
      ensures Valid() && History() == Step(old(History()), Timed(elapsed, op))
    {
      StepKeepsInv(History(), Timed(elapsed, op));
      SlugRowsOf(History());
      Perform(elapsed, op);
    }
  }

  lemma StepIs(w: World, t: Timed)
    ensures var w' := Step(w, t);
      w'.market == Do(w.market, t.op, w.clock + t.elapsed) && w'.clock == w.clock + t.elapsed && w'.held == Held(w, w'.market, t.op)
  {
  }

  lemma SlugRowsOf(w: World)
    requires Marketplace.Inv(w)
    ensures SlugHistory.Inv(SlugWorld(w)) && w.market.slugs.active.Keys == w.market.events.Keys
  {
  }
}
