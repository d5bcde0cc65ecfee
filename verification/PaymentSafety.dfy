/** When a live event can lose its organizer's payment account: the exact condition, over every continuation. */
module PaymentSafety {
  import opened Options
  import LinkedAccount
  import opened EventLifecycle
  import opened Marketplace
  import opened MarketplaceLaws
  import Organizers = OrganizerReview
  import Pricing
  import Registration
  import SlugTables
  import SlugHistory

  /** Every applied database write is acknowledged. */
  predicate Acked(t: Timed) {
    !(t.op.DoJob? && t.op.step.LoseReply?)
  }

  ghost predicate AllAcked(steps: seq<Timed>) {
    forall i :: 0 <= i < |steps| ==> Acked(steps[i])
  }

  ghost predicate AccountKept(w: World, o: OrganizerId) {
    forall e :: e in w.market.events && w.market.events[e].organizerId == o && Live(w.market.events[e]) ==>
      o in w.market.desks && w.market.desks[o].organizer.accountStatus == Organizers.Active
  }

  /** In every continuation, every live event of the organizer stands on an active account. */
  ghost predicate AccountSafe(w: World, o: OrganizerId) {
    forall steps :: AllAcked(steps) ==> AccountKept(After(w, steps), o)
  }

  // ---------- No open job: safe ----------

  /** The same but for who counts as unclean. */
  ghost predicate SameTables(w: World, w': World) {
    w'.market == w.market && w'.clock == w.clock && w'.firsts == w.firsts && w'.held == w.held
  }

  lemma RecordKeepsSame(w: World, w': World, m: Market, now: int, op: Op)
    requires SameTables(w, w')
    ensures SameTables(Recorded(w, m, now, op), Recorded(w', m, now, op))
  {
  }

  lemma {:induction false} UncleanIsOnlyNoted(w: World, w': World, steps: seq<Timed>)
    requires SameTables(w, w')
    ensures SameTables(After(w, steps), After(w', steps))
    decreases |steps|
  {
    if steps != [] {
      var now := w.clock + steps[0].elapsed;
      RecordKeepsSame(w, w', Do(w.market, steps[0].op, now), now, steps[0].op);
      UncleanIsOnlyNoted(Step(w, steps[0]), Step(w', steps[0]), steps[1..]);
    }
  }

  ghost predicate CleanlyApproved(w: World, o: OrganizerId) {
    o in w.market.desks && w.market.desks[o].organizer.verificationStatus == Organizers.Approved && o !in w.unclean
  }

  lemma StepKeepsClean(w: World, t: Timed, o: OrganizerId)
    requires CleanlyApproved(w, o) && Acked(t)
    ensures CleanlyApproved(Step(w, t), o)
  {
  }

  lemma {:induction false} RunKeepsClean(w: World, steps: seq<Timed>, o: OrganizerId)
    requires CleanlyApproved(w, o) && AllAcked(steps)
    ensures CleanlyApproved(After(w, steps), o)
    decreases |steps|
  {
    if steps != [] {
      StepKeepsClean(w, steps[0], o);
      RunKeepsClean(Step(w, steps[0]), steps[1..], o);
    }
  }

  ghost predicate NoLiveEvent(w: World, o: OrganizerId) {
    forall e :: e in w.market.events && w.market.events[e].organizerId == o ==> !Live(w.market.events[e])
  }

  /** An organizer with no open job and no live event counts as clean from here on. */
  lemma CleanSlate(w: World, o: OrganizerId)
    requires Marketplace.Inv(w) && o in w.market.desks && LinkedAccount.NoneOpen(w.market.desks[o]) && NoLiveEvent(w, o)
    ensures Marketplace.Inv(w.(unclean := w.unclean - {o}))
  {
    var w' := w.(unclean := w.unclean - {o});
    forall e | e in w'.market.events ensures Backed(w', w'.market.events[e]) {
      assert Backed(w, w.market.events[e]);
    }
    forall x ensures LogOk(w', x) {
      assert LogOk(w, x);
    }
    SameSlugs(w, w');
  }

  lemma SafeWithoutOpenJob(w: World, o: OrganizerId)
    requires Marketplace.Inv(w) && o in w.market.desks && w.market.desks[o].organizer.verificationStatus == Organizers.Approved
    requires LinkedAccount.NoneOpen(w.market.desks[o]) && NoLiveEvent(w, o)
    ensures AccountSafe(w, o)
  {
    var w' := w.(unclean := w.unclean - {o});
    CleanSlate(w, o);
    forall steps | AllAcked(steps) ensures AccountKept(After(w, steps), o) {
      RunKeepsInv(w', steps);
      RunKeepsClean(w', steps, o);
      UncleanIsOnlyNoted(w, w', steps);
      var end := After(w', steps);
      forall e | e in end.market.events && end.market.events[e].organizerId == o && Live(end.market.events[e])
        ensures end.market.desks[o].organizer.accountStatus == Organizers.Active
      {
        assert Backed(end, end.market.events[e]);
      }
    }
  }

  // ---------- An open job: a run that loses the account under a live event ----------

  lemma {:induction false} AfterJoined(w: World, a: seq<Timed>, b: seq<Timed>)
    ensures After(w, a + b) == After(After(w, a), b)
    decreases |a|
  {
    if a == [] {
      assert a + b == b;
    } else {
      assert (a + b)[1..] == a[1..] + b;
      AfterJoined(Step(w, a[0]), a[1..], b);
    }
  }

  lemma AfterOne(w: World, t: Timed)
    ensures After(w, [t]) == Step(w, t)
  {
    assert [t][1..] == [];
    assert After(Step(w, t), []) == Step(w, t);
  }

  function Jobs(o: OrganizerId, steps: seq<LinkedAccount.JobStep>): seq<Timed> {
    seq(|steps|, i requires 0 <= i < |steps| => Timed(0, DoJob(o, steps[i])))
  }

  lemma JobStepIs(w: World, o: OrganizerId, step: LinkedAccount.JobStep)
    requires o in w.market.desks && !step.LoseReply?
    ensures Step(w, Timed(0, DoJob(o, step))) == w.(market := w.market.(desks := w.market.desks[o := LinkedAccount.Work(w.market.desks[o], step)]))
  {
  }

  lemma {:induction false} JobsRun(w: World, o: OrganizerId, steps: seq<LinkedAccount.JobStep>)
    requires o in w.market.desks && forall i :: 0 <= i < |steps| ==> !steps[i].LoseReply?
    ensures After(w, Jobs(o, steps)) == w.(market := w.market.(desks := w.market.desks[o := LinkedAccount.WorkAll(w.market.desks[o], steps)]))
    decreases |steps|
  {
    if steps == [] {
      assert w.market.desks[o := w.market.desks[o]] == w.market.desks;
    } else {
      JobStepIs(w, o, steps[0]);
      var w1 := Step(w, Timed(0, DoJob(o, steps[0])));
      assert Jobs(o, steps)[1..] == Jobs(o, steps[1..]);
      JobsRun(w1, o, steps[1..]);
      assert w1.market.desks[o := LinkedAccount.WorkAll(w.market.desks[o], steps)] == w.market.desks[o := LinkedAccount.WorkAll(w.market.desks[o], steps)];
    }
  }

  // Configuring the new event

  function Edits(o: OrganizerId, e: EventId, edits: seq<Edit>): seq<Timed> {
    seq(|edits|, i requires 0 <= i < |edits| => Timed(0, DoEdit(o, e, edits[i])))
  }

  function ApplyAll(row: Event, edits: seq<Edit>): Event
    decreases |edits|
  {
    if edits == [] then row else ApplyAll(Apply(row, edits[0]).0, edits[1..])
  }

  predicate PlainEdit(edit: Edit) {
    WellFormed(edit) && !edit.UpdateDraft?
  }

  lemma PlainEditKeepsTitle(row: Event, edit: Edit)
    requires !edit.UpdateDraft?
    ensures Apply(row, edit).0.title == row.title && Apply(row, edit).0.organizerId == row.organizerId
  {
  }

  lemma EditStepIs(w: World, o: OrganizerId, e: EventId, edit: Edit)
    requires Access(w.market, o, e) == Ok && PlainEdit(edit)
    ensures Step(w, Timed(0, DoEdit(o, e, edit)))
      == w.(market := w.market.(events := w.market.events[e := Apply(w.market.events[e], edit).0]))
  {
    PlainEditKeepsTitle(w.market.events[e], edit);
  }

  lemma {:induction false} EditsRun(w: World, o: OrganizerId, e: EventId, edits: seq<Edit>)
    requires Access(w.market, o, e) == Ok && forall i :: 0 <= i < |edits| ==> PlainEdit(edits[i])
    ensures After(w, Edits(o, e, edits))
      == w.(market := w.market.(events := w.market.events[e := ApplyAll(w.market.events[e], edits)]))
    decreases |edits|
  {
    var row := w.market.events[e];
    if edits == [] {
      assert w.market.events[e := row] == w.market.events;
    } else {
      EditStepIs(w, o, e, edits[0]);
      PlainEditKeepsTitle(row, edits[0]);
      var w1 := Step(w, Timed(0, DoEdit(o, e, edits[0])));
      assert Edits(o, e, edits)[1..] == Edits(o, e, edits[1..]);
      EditsRun(w1, o, e, edits[1..]);
      assert w1.market.events[e := ApplyAll(row, edits)] == w.market.events[e := ApplyAll(row, edits)];
    }
  }

  /** One category, one price, both texts and a hero. */
  function Setup(category: CategoryConfig, tier: Pricing.Tier, text: string, image: ImageId): seq<Edit> {
    [ReplaceCategories([category]), ReplacePricing([tier]), UpdatePolicies(text, text), RequestImage(image, Hero), ConfirmImage(image, GoodUpload)]
  }

  predicate SetupOk(category: CategoryConfig, tier: Pricing.Tier, text: string) {
    tier.category == category.id && ParsesTier(tier) && text != ""
  }

  lemma SetupIsPlain(category: CategoryConfig, tier: Pricing.Tier, text: string, image: ImageId)
    requires SetupOk(category, tier, text)
    ensures forall i :: 0 <= i < |Setup(category, tier, text, image)| ==> PlainEdit(Setup(category, tier, text, image)[i])
  {
    assert forall t :: t in [tier] ==> t == tier;
  }

  lemma ApplyFive(row: Event, a: Edit, b: Edit, c: Edit, d: Edit, f: Edit)
    ensures ApplyAll(row, [a, b, c, d, f]) == Apply(Apply(Apply(Apply(Apply(row, a).0, b).0, c).0, d).0, f).0
  {
    var r1 := Apply(row, a).0;
    var r2 := Apply(r1, b).0;
    var r3 := Apply(r2, c).0;
    var r4 := Apply(r3, d).0;
    assert [a, b, c, d, f][1..] == [b, c, d, f] && [b, c, d, f][1..] == [c, d, f] && [c, d, f][1..] == [d, f] && [d, f][1..] == [f] && [f][1..] == [];
    assert ApplyAll(r1, [b, c, d, f]) == ApplyAll(r2, [c, d, f]);
    assert ApplyAll(r2, [c, d, f]) == ApplyAll(r3, [d, f]);
    assert ApplyAll(r3, [d, f]) == ApplyAll(r4, [f]);
    assert ApplyAll(r4, [f]) == ApplyAll(Apply(r4, f).0, []);
  }

  lemma PriceOneCategory(row: Event, category: CategoryConfig, tier: Pricing.Tier)
    requires row.status == Draft && row.categories == [] && row.tiers == [] && tier.category == category.id && ParsesTier(tier)
    ensures var r1 := Apply(row, ReplaceCategories([category])).0; var r2 := Apply(r1, ReplacePricing([tier])).0;
      r2 == row.(categories := r2.categories, tiers := [tier])
  {
    var r1 := Apply(row, ReplaceCategories([category])).0;
    assert r1 == row.(categories := NewCategories([category]));
    assert NewCategories([category])[0].id == category.id;
    assert forall c :: c in r1.categories ==> c.id == category.id;
    assert r1.categories[0] in r1.categories;
    assert forall t :: t in [tier] ==> t == tier;
    assert tier in [tier];
  }

  lemma AddHero(row: Event, text: string, image: ImageId)
    requires row.status == Draft && row.images == map[] && text != ""
    ensures var r1 := Apply(row, UpdatePolicies(text, text)).0; var r2 := Apply(r1, RequestImage(image, Hero)).0;
      var r3 := Apply(r2, ConfirmImage(image, GoodUpload)).0;
      r3 == row.(refundPolicy := Some(text), cancellationPolicy := Some(text), images := r3.images) && HasHero(r3)
  {
  }

  lemma SetupMakesReady(row: Event, category: CategoryConfig, tier: Pricing.Tier, text: string, image: ImageId)
    requires row.status == Draft && row.categories == [] && row.tiers == [] && row.images == map[] && SetupOk(category, tier, text)
    ensures var r := ApplyAll(row, Setup(category, tier, text, image));
      && r.status == Draft && r.schedule == row.schedule && r.organizerId == row.organizerId && r.tiers != [] && HasHero(r)
      && NonBlank(r.refundPolicy) && NonBlank(r.cancellationPolicy)
  {
    ApplyFive(row, ReplaceCategories([category]), ReplacePricing([tier]), UpdatePolicies(text, text), RequestImage(image, Hero),
              ConfirmImage(image, GoodUpload));
    PriceOneCategory(row, category, tier);
    var priced := Apply(Apply(row, ReplaceCategories([category])).0, ReplacePricing([tier])).0;
    AddHero(priced, text, image);
  }

  // The run

  /** An accepted schedule one day or more ahead: the first millisecond of a UTC day and the next one. */
  function FutureSchedule(now: int): Registration.Schedule {
    var startAt := (now / 86400000 + 2) * 86400000;
    Registration.Schedule(startAt, startAt + 1, None, None)
  }

  lemma FutureScheduleAccepted(now: int)
    ensures Registration.AcceptedSchedule(FutureSchedule(now)) && FutureSchedule(now).startAt > now
  {
  }

  /** A title that is itself a slug nobody holds or held. */
  predicate UnusedSlug(m: Market, title: string) {
    SlugTables.Parses(SlugTables.EventKind, title) && SlugTables.IsFree(m.slugs, SlugTables.EventKind, title, None)
  }

  lemma CreateStepIs(w: World, o: OrganizerId, e: EventId, title: string)
    requires o in w.market.desks && e !in w.market.events && UnusedSlug(w.market, title)
    ensures var w' := Step(w, Timed(0, DoCreate(o, e, title, FutureSchedule(w.clock))));
      && w'.clock == w.clock && w'.market.desks == w.market.desks
      && w'.market.events == w.market.events[e := NewDraft(o, title, FutureSchedule(w.clock))]
  {
    FutureScheduleAccepted(w.clock);
    SlugHistory.FirstCandidateFree(w.market.slugs, title, None, DEFAULT_EVENT_SLUG_MAX_ATTEMPTS);
  }

  /** A draft that is ready, under an approved organizer with an active account. */
  ghost predicate ReadyToPublish(w: World, o: OrganizerId, e: EventId) {
    && o in w.market.desks && e in w.market.events && w.market.events[e].organizerId == o
    && w.market.desks[o].organizer.verificationStatus == Organizers.Approved
    && w.market.desks[o].organizer.accountStatus == Organizers.Active
    && var row := w.market.events[e];
       row.status == Draft && row.schedule.startAt > w.clock && row.tiers != [] && HasHero(row)
       && NonBlank(row.refundPolicy) && NonBlank(row.cancellationPolicy)
  }

  lemma PublishGoesLive(w: World, o: OrganizerId, e: EventId)
    requires Marketplace.Inv(w) && ReadyToPublish(w, o, e)
    ensures var w' := Step(w, Timed(0, DoMove(Owner(o), e, Publish)));
      w'.market.desks == w.market.desks && e in w'.market.events && w'.market.events[e].organizerId == o && Live(w'.market.events[e])
  {
    var row, c := w.market.events[e], ContextFor(w.market, e);
    OwnSlugIsFree(w, e);
    OwnChecks(row, c, w.clock);
    DenialsAre(row, c, w.clock);
  }

  /** The steps up to the publication, each an ordinary route or job step. */
  function UpToPublication(w: World, o: OrganizerId, j: LinkedAccount.JobId, e: EventId, title: string): seq<Timed> {
    Jobs(o, LinkedAccount.Activation(j, title)) + [Timed(0, DoCreate(o, e, title, FutureSchedule(w.clock)))]
    + Edits(o, e, Setup(CategoryConfig(e, title, 0), Pricing.Tier(EVENT_PRICING_MIN_PRICE_PAISE, None, Pricing.Absent, e), title, e))
    + [Timed(0, DoMove(Owner(o), e, Publish))]
  }

  lemma UpToPublicationAcked(w: World, o: OrganizerId, j: LinkedAccount.JobId, e: EventId, title: string)
    ensures AllAcked(UpToPublication(w, o, j, e, title))
  {
  }

  lemma ReachesReadiness(w: World, o: OrganizerId, e: EventId, title: string)
    requires Marketplace.Inv(w) && o in w.market.desks && e !in w.market.events && UnusedSlug(w.market, title)
    requires w.market.desks[o].organizer.verificationStatus == Organizers.Approved
    requires w.market.desks[o].organizer.accountStatus == Organizers.Active
    ensures var edits := Setup(CategoryConfig(e, title, 0), Pricing.Tier(EVENT_PRICING_MIN_PRICE_PAISE, None, Pricing.Absent, e), title, e);
      var w' := After(Step(w, Timed(0, DoCreate(o, e, title, FutureSchedule(w.clock)))), Edits(o, e, edits));
      ReadyToPublish(w', o, e) && w'.market.desks == w.market.desks
  {
    var category, tier := CategoryConfig(e, title, 0), Pricing.Tier(EVENT_PRICING_MIN_PRICE_PAISE, None, Pricing.Absent, e);
    var w1 := Step(w, Timed(0, DoCreate(o, e, title, FutureSchedule(w.clock))));
    CreateStepIs(w, o, e, title);
    FutureScheduleAccepted(w.clock);
    SetupIsPlain(category, tier, title, e);
    EditsRun(w1, o, e, Setup(category, tier, title, e));
    SetupMakesReady(w1.market.events[e], category, tier, title, e);
  }

  lemma ReachesLiveEvent(w: World, o: OrganizerId, j: LinkedAccount.JobId, e: EventId, title: string)
    requires Marketplace.Inv(w) && o in w.market.desks && e !in w.market.events && UnusedSlug(w.market, title)
    requires w.market.desks[o].organizer.verificationStatus == Organizers.Approved
    requires w.market.desks[o].organizer.accountStatus == Organizers.NotStarted && j !in w.market.desks[o].jobs
    ensures var w' := After(w, UpToPublication(w, o, j, e, title));
      && o in w'.market.desks && w'.market.desks[o].jobs == w.market.desks[o].jobs
      && e in w'.market.events && w'.market.events[e].organizerId == o && Live(w'.market.events[e])
  {
    var activation := LinkedAccount.Activation(j, title);
    var create := Timed(0, DoCreate(o, e, title, FutureSchedule(w.clock)));
    var edits := Edits(o, e, Setup(CategoryConfig(e, title, 0), Pricing.Tier(EVENT_PRICING_MIN_PRICE_PAISE, None, Pricing.Absent, e), title, e));
    var publish := Timed(0, DoMove(Owner(o), e, Publish));
    JobsRun(w, o, activation);
    LinkedAccount.ActivationActivates(w.market.desks[o], j, title);
    var w1 := After(w, Jobs(o, activation));
    RunKeepsInv(w, Jobs(o, activation));
    ReachesReadiness(w1, o, e, title);
    StepKeepsInv(w1, create);
    var w3 := After(Step(w1, create), edits);
    RunKeepsInv(Step(w1, create), edits);
    PublishGoesLive(w3, o, e);
    AfterJoined(w, Jobs(o, activation) + [create] + edits, [publish]);
    AfterJoined(w, Jobs(o, activation) + [create], edits);
    AfterJoined(w, Jobs(o, activation), [create]);
    AfterOne(w1, create);
    AfterOne(w3, publish);
  }

  lemma FailureStrands(w: World, o: OrganizerId, e: EventId, open: LinkedAccount.JobId)
    requires o in w.market.desks && open in w.market.desks[o].jobs && !w.market.desks[o].jobs[open].Fetched?
    requires e in w.market.events && w.market.events[e].organizerId == o && Live(w.market.events[e])
    ensures !AccountKept(Step(w, Timed(0, DoJob(o, LinkedAccount.Finish(open, LinkedAccount.Failure)))), o)
  {
    JobStepIs(w, o, LinkedAccount.Finish(open, LinkedAccount.Failure));
  }

  lemma UnsafeWithOpenJob(w: World, o: OrganizerId, open: LinkedAccount.JobId, j: LinkedAccount.JobId, e: EventId, title: string)
    requires Marketplace.Inv(w) && o in w.market.desks && e !in w.market.events && UnusedSlug(w.market, title)
    requires w.market.desks[o].organizer.verificationStatus == Organizers.Approved
    requires w.market.desks[o].organizer.accountStatus == Organizers.NotStarted && j !in w.market.desks[o].jobs
    requires open in w.market.desks[o].jobs && !w.market.desks[o].jobs[open].Fetched?
    ensures !AccountSafe(w, o)
  {
    var steps, last := UpToPublication(w, o, j, e, title), Timed(0, DoJob(o, LinkedAccount.Finish(open, LinkedAccount.Failure)));
    ReachesLiveEvent(w, o, j, e, title);
    var w1 := After(w, steps);
    FailureStrands(w1, o, e, open);
    AfterJoined(w, steps, [last]);
    AfterOne(w1, last);
    UpToPublicationAcked(w, o, j, e, title);
    assert AllAcked(steps + [last]);
    assert !AccountKept(After(w, steps + [last]), o);
  }

  /** Take any sound state with an approved organizer whose account is not yet started and who has no live event, an unused
      job and event identifier and an unused slug. In every continuation with acknowledged writes every live event of the
      organizer stands on an active account, exactly when no account job is open now. */
  lemma LiveAccountsSafeIff(w: World, o: OrganizerId, j: LinkedAccount.JobId, e: EventId, title: string)
    requires Marketplace.Inv(w) && o in w.market.desks && NoLiveEvent(w, o)
    requires w.market.desks[o].organizer.verificationStatus == Organizers.Approved
    requires w.market.desks[o].organizer.accountStatus == Organizers.NotStarted
    requires j !in w.market.desks[o].jobs && e !in w.market.events && UnusedSlug(w.market, title)
    ensures AccountSafe(w, o) <==> LinkedAccount.NoneOpen(w.market.desks[o])
  {
    if LinkedAccount.NoneOpen(w.market.desks[o]) {
      SafeWithoutOpenJob(w, o);
    } else {
      var open :| open in w.market.desks[o].jobs && !w.market.desks[o].jobs[open].Fetched?;
      UnsafeWithOpenJob(w, o, open, j, e, title);
    }
  }

  lemma ApprovalShape(w: World, o: OrganizerId, elapsed: nat)
    requires Marketplace.Inv(w) && o in w.market.desks && w.market.desks[o].organizer.verificationStatus == Organizers.PendingReview
    ensures var w' := Step(w, Timed(elapsed, DoAtDesk(o, Organizers.Approve)));
      && NoLiveEvent(w', o) && o in w'.market.desks && w'.market.desks[o].jobs == w.market.desks[o].jobs
      && w'.market.desks[o].organizer.verificationStatus == Organizers.Approved
      && w'.market.desks[o].organizer.accountStatus == Organizers.NotStarted
      && w'.market.events == w.market.events && w'.market.slugs == w.market.slugs
  {
    forall e | e in w.market.events && w.market.events[e].organizerId == o ensures !Live(w.market.events[e]) {
      assert Backed(w, w.market.events[e]);
    }
  }

  /** So it is the approval that decides: in every reachable state, approving an organizer under review keeps every live
      event it will ever have on an active account, in every continuation with acknowledged writes, exactly when no account
      job is open at that moment. */
  lemma ApprovalSafeIff(steps: seq<Timed>, o: OrganizerId, elapsed: nat, j: LinkedAccount.JobId, e: EventId, title: string)
    requires var w := After(EMPTY, steps);
      && o in w.market.desks && w.market.desks[o].organizer.verificationStatus == Organizers.PendingReview
      && j !in w.market.desks[o].jobs && e !in w.market.events && UnusedSlug(w.market, title)
    ensures var w := After(EMPTY, steps);
      AccountSafe(Step(w, Timed(elapsed, DoAtDesk(o, Organizers.Approve))), o) <==> LinkedAccount.NoneOpen(w.market.desks[o])
  {
    EmptyInv();
    RunKeepsInv(EMPTY, steps);
    var w := After(EMPTY, steps);
    ApprovalShape(w, o, elapsed);
    StepKeepsInv(w, Timed(elapsed, DoAtDesk(o, Organizers.Approve)));
    LiveAccountsSafeIff(Step(w, Timed(elapsed, DoAtDesk(o, Organizers.Approve))), o, j, e, title);
  }
}
