/** Organizers, their payment accounts and their events together: every route as one step on shared tables, with
    linked-account jobs interleaved at each of their database accesses. */
module Marketplace {
  import opened Options
  import opened LinkedAccount
  import opened EventLifecycle
  import Organizers = OrganizerReview
  import Registration
  import SlugTables
  import SlugHistory

  type EventId = int

  /** The organizers with their account jobs, the events, and the events' slug tables. */
  datatype Market = Market(desks: map<OrganizerId, Desk>, events: map<EventId, Event>, slugs: SlugTables.Tables)

  /** A first publication, and whether an administrator's approval made it. */
  datatype First = First(event: EventId, byAdmin: bool)

  /** The tables, a clock, and what the theorems speak about: each organizer's first publications in order, every slug each
      event has held, and the organizers whose payment account is unclean: approved while an account job was open, or with a
      job whose success write was applied but not acknowledged. */
  datatype World = World(market: Market, clock: int, firsts: map<OrganizerId, seq<First>>, held: map<EventId, set<string>>,
                         unclean: set<OrganizerId>)

  const EMPTY := World(Market(map[], map[], SlugTables.Tables(map[], map[])), 0, map[], map[], {})
  const DEFAULT_EVENT_SLUG_MAX_ATTEMPTS: nat := 50

  // ---------- Queries ----------

  /** getPublishedPaidEventCount counts these. */
  function PublishedPaid(m: Market, o: OrganizerId): set<EventId> {
    set e | e in m.events && m.events[e].organizerId == o && m.events[e].firstPublishedAt.Some? && m.events[e].isPaid
  }

  /** The slug probe of readiness: whether another event holds or held this event's slug. */
  predicate SlugFree(m: Market, e: EventId) {
    e in m.slugs.active && !SlugTables.TakenByOthers(m.slugs, m.slugs.active[e], Some(e))
  }

  function ContextFor(m: Market, e: EventId): Context
    requires e in m.events && m.events[e].organizerId in m.desks
  {
    var o := m.events[e].organizerId;
    Context(m.desks[o].organizer.isVerified, m.desks[o].organizer.accountStatus, |PublishedPaid(m, o)|, SlugFree(m, e))
  }

  // ---------- Routes ----------

  predicate WellFormed(edit: Edit) {
    match edit
    case UpdateDraft(payload) => ParsesDraft(payload)
    case ReplaceCategories(config) => ParsesCategories(config)
    case ReplacePricing(tiers) => ParsesPricing(tiers)
    case UpdatePolicies(refund, cancellation) => refund != "" && cancellation != ""
    case UpdateCapacity(_, total, remaining) => ParsesCapacity(total, remaining)
    case _ => true
  }

  function AtDesk(m: Market, o: OrganizerId, op: Organizers.Op, now: int): (Market, Organizers.Outcome) {
    if o !in m.desks then (m, Organizers.NotFound)
    else
      var (row, outcome) := Organizers.Act(m.desks[o].organizer, op, now);
      (m.(desks := m.desks[o := m.desks[o].(organizer := row)]), outcome)
  }

  function RunJob(m: Market, o: OrganizerId, step: JobStep): Market {
    if o !in m.desks then m else m.(desks := m.desks[o := Work(m.desks[o], step)])
  }

  function Register(m: Market, o: OrganizerId): (Market, Organizers.Outcome) {
    if o in m.desks then (m, Organizers.Conflict) else (m.(desks := m.desks[o := Desk(Organizers.NEW_ORGANIZER, map[])]), Organizers.Done)
  }

  /** New rows come with identifiers no row uses. */
  function CreateEvent(m: Market, actor: OrganizerId, e: EventId, title: string, schedule: Registration.Schedule): (Market, Answer) {
    if !Registration.AcceptedSchedule(schedule) then (m, BadRequest)
    else if actor !in m.desks then (m, Missing)
    else if e in m.events then (m, StateConflict)
    else
      var (slugs, r) := SlugHistory.Create(m.slugs, SlugTables.EventKind, e, title, DEFAULT_EVENT_SLUG_MAX_ATTEMPTS);
      if !r.Created? then (m, StateConflict)
      else (m.(events := m.events[e := NewDraft(actor, title, schedule)], slugs := slugs), Ok)
  }

  /** The checks every owner's route makes before it looks at the status. */
  function Access(m: Market, actor: OrganizerId, e: EventId): Answer {
    if actor !in m.desks || e !in m.events then Missing
    else if m.events[e].organizerId != actor then Forbidden
    else Ok
  }

  /** A draft edit that changes the title also renames; without a free slug nothing is written. */
  function EditEvent(m: Market, actor: OrganizerId, e: EventId, edit: Edit): (Market, Answer) {
    if !WellFormed(edit) then (m, BadRequest)
    else if Access(m, actor, e) != Ok then (m, Access(m, actor, e))
    else
      var (row, answer) := Apply(m.events[e], edit);
      if row.title == m.events[e].title then (m.(events := m.events[e := row]), answer)
      else
        var (slugs, r) := SlugHistory.Rename(m.slugs, SlugTables.EventKind, e, row.title, DEFAULT_EVENT_SLUG_MAX_ATTEMPTS);
        if !r.Renamed? then (m, StateConflict) else (m.(events := m.events[e := row], slugs := slugs), answer)
  }

  datatype Actor = Owner(organizer: OrganizerId) | Admin

  predicate Allowed(who: Actor, move: Move) {
    who.Admin? <==> move.AdminApprove? || move.AdminReject?
  }

  function MoveEvent(m: Market, who: Actor, e: EventId, move: Move, now: int): (Market, Answer) {
    if !Allowed(who, move) then (m, Forbidden)
    else if who.Owner? && Access(m, who.organizer, e) != Ok then (m, Access(m, who.organizer, e))
    else if e !in m.events then (m, Missing)
    else if who.Admin? && m.events[e].status != UnderReview then (m, StateConflict)
    else if m.events[e].organizerId !in m.desks then (m, Missing)
    else
      var (row, answer) := MoveTo(m.events[e], move, ContextFor(m, e), now);
      (m.(events := m.events[e := row]), answer)
  }

  datatype Op = DoRegister(organizer: OrganizerId) | DoAtDesk(organizer: OrganizerId, op: Organizers.Op) | DoJob(organizer: OrganizerId, step: JobStep)
    | DoCreate(organizer: OrganizerId, event: EventId, title: string, schedule: Registration.Schedule) | DoEdit(organizer: OrganizerId, event: EventId, edit: Edit)
    | DoMove(who: Actor, event: EventId, move: Move)
  datatype Timed = Timed(elapsed: nat, op: Op)

  function Do(m: Market, op: Op, now: int): Market {
    match op
    case DoRegister(o) => Register(m, o).0
    case DoAtDesk(o, dop) => AtDesk(m, o, dop, now).0
    case DoJob(o, step) => RunJob(m, o, step)
    case DoCreate(o, e, title, schedule) => CreateEvent(m, o, e, title, schedule).0
    case DoEdit(o, e, edit) => EditEvent(m, o, e, edit).0
    case DoMove(who, e, move) => MoveEvent(m, who, e, move, now).0
  }

  function FirstsOf(w: World, o: OrganizerId): seq<First> {
    if o in w.firsts then w.firsts[o] else []
  }

  function Noted(w: World, m: Market, op: Op): map<OrganizerId, seq<First>> {
    if op.DoMove? && op.event in w.market.events && op.event in m.events
      && w.market.events[op.event].firstPublishedAt.None? && m.events[op.event].firstPublishedAt.Some?
    then
      var o := m.events[op.event].organizerId;
      w.firsts[o := FirstsOf(w, o) + [First(op.event, op.move.AdminApprove?)]]
    else w.firsts
  }

  /** The two ways an account becomes unclean. */
  predicate Soils(m: Market, op: Op, o: OrganizerId) {
    o in m.desks &&
    match op
    case DoAtDesk(x, dop) =>
      x == o && dop.Approve? && m.desks[o].organizer.verificationStatus == Organizers.PendingReview
      && exists j | j in m.desks[o].jobs :: !m.desks[o].jobs[j].Fetched?
    case DoJob(x, step) => x == o && step.LoseReply?
    case _ => false
  }

  function Unclean(w: World, op: Op): set<OrganizerId> {
    if (op.DoAtDesk? || op.DoJob?) && Soils(w.market, op, op.organizer) then w.unclean + {op.organizer} else w.unclean
  }

  function SlugWorld(w: World): SlugHistory.World {
    SlugHistory.World(w.market.slugs, w.held)
  }

  /** Slugs are held from the step that writes them on. */
  ghost function Held(w: World, m: Market, op: Op): map<EventId, set<string>> {
    if m.slugs != w.market.slugs && (op.DoCreate? || op.DoEdit?) then SlugHistory.Noting(SlugWorld(w), m.slugs, op.event).held else w.held
  }

  ghost function Recorded(w: World, m: Market, now: int, op: Op): World {
    World(m, now, Noted(w, m, op), Held(w, m, op), Unclean(w, op))
  }

  ghost function Step(w: World, t: Timed): World {
    var now := w.clock + t.elapsed;
    Recorded(w, Do(w.market, t.op, now), now, t.op)
  }

  ghost function After(w: World, steps: seq<Timed>): World
    decreases |steps|
  {
    if steps == [] then w else After(Step(w, steps[0]), steps[1..])
  }

  // ---------- Invariant ----------

  ghost predicate DesksOk(w: World) {
    forall o :: o in w.market.desks ==> Organizers.Inv(w.market.desks[o].organizer) && (o !in w.unclean ==> Exclusive(w.market.desks[o]))
  }

  /** A live event's organizer is verified, and has an active account unless a claim was open at its approval. */
  ghost predicate Backed(w: World, event: Event) {
    && event.organizerId in w.market.desks
    && (Live(event) ==>
          var row := w.market.desks[event.organizerId].organizer;
          row.isVerified && (event.organizerId !in w.unclean ==> row.accountStatus == Organizers.Active))
  }

  ghost predicate EventsOk(w: World) {
    forall e :: e in w.market.events ==> EventLifecycle.Inv(w.market.events[e], w.clock) && Backed(w, w.market.events[e])
  }

  ghost predicate Names(log: seq<First>, events: set<EventId>) {
    forall e :: e in events <==> exists i :: 0 <= i < |log| && log[i].event == e
  }

  /** The log names exactly the events first published, each once, and its first four entries are approvals. */
  ghost predicate LogFits(log: seq<First>, events: set<EventId>) {
    && Names(log, events) && |events| == |log|
    && (forall i :: 0 <= i < |log| && i < 4 ==> log[i].byAdmin)
  }

  ghost predicate LogOk(w: World, o: OrganizerId) {
    LogFits(FirstsOf(w, o), PublishedPaid(w.market, o))
  }

  ghost predicate Core(w: World) {
    DesksOk(w) && EventsOk(w) && forall o :: LogOk(w, o)
  }

  /** The events' slug tables are sound, remember every slug held, and have a row for each event. */
  ghost predicate SlugsOk(w: World) {
    && SlugHistory.Inv(SlugWorld(w)) && SlugHistory.AllParse(SlugWorld(w), SlugTables.EventKind)
    && w.market.slugs.active.Keys == w.market.events.Keys
  }

  ghost predicate Inv(w: World) {
    Core(w) && SlugsOk(w)
  }

  // ---------- Steps on an organizer ----------

  lemma InvLater(e: Event, now: int, later: int)
    requires EventLifecycle.Inv(e, now) && now <= later
    ensures EventLifecycle.Inv(e, later)
  {
  }

  /** What an organizer's row keeps through any step: its approval, and an active account unless unclean. */
  ghost predicate Retains(d: Desk, d': Desk, unclean: bool) {
    d.organizer.isVerified ==>
      d'.organizer.isVerified && (!unclean && d.organizer.accountStatus == Organizers.Active ==> d'.organizer.accountStatus == Organizers.Active)
  }

  lemma DeskStepKeepsInv(w: World, w': World, o: OrganizerId)
    requires Core(w) && w.clock <= w'.clock && w.unclean <= w'.unclean <= w.unclean + {o} && w'.firsts == w.firsts
    requires o in w'.market.desks && w'.market == w.market.(desks := w.market.desks[o := w'.market.desks[o]])
    requires Organizers.Inv(w'.market.desks[o].organizer) && (o !in w'.unclean ==> Exclusive(w'.market.desks[o]))
    requires o in w.market.desks ==> Retains(w.market.desks[o], w'.market.desks[o], o in w'.unclean)
    ensures Core(w')
  {
    forall e | e in w'.market.events ensures EventLifecycle.Inv(w'.market.events[e], w'.clock) && Backed(w', w'.market.events[e]) {
      assert Backed(w, w.market.events[e]);
      InvLater(w.market.events[e], w.clock, w'.clock);
    }
    forall o' ensures LogOk(w', o') {
      assert LogOk(w, o') && PublishedPaid(w'.market, o') == PublishedPaid(w.market, o');
    }
  }

  lemma RegisterKeepsInv(w: World, t: Timed)
    requires Core(w) && t.op.DoRegister?
    ensures Core(Step(w, t))
  {
    var o := t.op.organizer;
    if o in w.market.desks {
      TimePasses(w, Step(w, t));
    } else {
      Organizers.NewOrganizerInv();
      DeskStepKeepsInv(w, Step(w, t), o);
    }
  }

  lemma TimePasses(w: World, w': World)
    requires Core(w) && w.clock <= w'.clock && w' == w.(clock := w'.clock)
    ensures Core(w')
  {
    forall e | e in w'.market.events ensures EventLifecycle.Inv(w'.market.events[e], w'.clock) && Backed(w', w'.market.events[e]) {
      assert Backed(w, w.market.events[e]);
      InvLater(w.market.events[e], w.clock, w'.clock);
    }
    forall o ensures LogOk(w', o) {
      assert LogOk(w, o);
    }
  }

  lemma RouteKeepsDesk(d: Desk, op: Organizers.Op, now: int, unclean: bool)
    requires Organizers.Inv(d.organizer) && (!unclean ==> Exclusive(d))
    requires op.Approve? && d.organizer.verificationStatus == Organizers.PendingReview && !unclean ==> NoneOpen(d)
    ensures var d' := d.(organizer := Organizers.Act(d.organizer, op, now).0);
      Organizers.Inv(d'.organizer) && (!unclean ==> Exclusive(d')) && Retains(d, d', unclean)
  {
    Organizers.ActKeepsInv(d.organizer, op, now);
    assert Advance(d, Route(op, now)) == d.(organizer := Organizers.Act(d.organizer, op, now).0);
    if !unclean && (!op.Approve? || d.organizer.verificationStatus == Organizers.PendingReview) {
      AdvanceKeepsExclusive(d, Route(op, now));
    }
  }

  lemma AtDeskShape(w: World, t: Timed)
    requires t.op.DoAtDesk? && t.op.organizer in w.market.desks
    ensures var o, w' := t.op.organizer, Step(w, t); var d := w.market.desks[o];
      && w'.market == w.market.(desks := w.market.desks[o := d.(organizer := Organizers.Act(d.organizer, t.op.op, w'.clock).0)])
      && w.clock <= w'.clock && w'.firsts == w.firsts && w.unclean <= w'.unclean <= w.unclean + {o}
      && (t.op.op.Approve? && d.organizer.verificationStatus == Organizers.PendingReview && o !in w'.unclean ==> NoneOpen(d))
  {
  }

  lemma AtDeskKeepsInv(w: World, t: Timed)
    requires Core(w) && t.op.DoAtDesk?
    ensures Core(Step(w, t))
  {
    var o, w' := t.op.organizer, Step(w, t);
    if o in w.market.desks {
      AtDeskShape(w, t);
      RouteKeepsDesk(w.market.desks[o], t.op.op, w'.clock, o in w'.unclean);
      DeskStepKeepsInv(w, w', o);
    } else {
      TimePasses(w, w');
    }
  }

  /** A job touches only the two account columns, so the review invariant cannot notice it. */
  lemma WorkKeepsReview(d: Desk, step: JobStep)
    requires Organizers.Inv(d.organizer)
    ensures Organizers.Inv(Work(d, step).organizer) && Work(d, step).organizer.isVerified == d.organizer.isVerified
  {
    var o, o' := d.organizer, Work(d, step).organizer;
    assert o' == o.(accountStatus := o'.accountStatus, accountId := o'.accountId);
    Organizers.SameTypes(o, o');
  }

  lemma JobKeepsInv(w: World, t: Timed)
    requires Core(w) && t.op.DoJob?
    ensures Core(Step(w, t))
  {
    var o, w' := t.op.organizer, Step(w, t);
    if o in w.market.desks {
      WorkKeepsReview(w.market.desks[o], t.op.step);
      if o !in w'.unclean { WorkKeepsExclusive(w.market.desks[o], t.op.step); }
      DeskStepKeepsInv(w, w', o);
    } else {
      TimePasses(w, w');
    }
  }

  // ---------- Steps on an event ----------

  /** The rest of the world when one event row is written. */
  ghost predicate OnlyEvent(w: World, w': World, e: EventId) {
    && e in w'.market.events && w'.market.events == w.market.events[e := w'.market.events[e]] && w'.market.desks == w.market.desks
    && w.clock <= w'.clock && w'.unclean == w.unclean
  }

  lemma EventStepKeepsRows(w: World, w': World, e: EventId)
    requires DesksOk(w) && EventsOk(w) && OnlyEvent(w, w', e)
    requires EventLifecycle.Inv(w'.market.events[e], w'.clock) && Backed(w, w'.market.events[e])
    ensures DesksOk(w') && EventsOk(w')
  {
    forall x | x in w'.market.events ensures EventLifecycle.Inv(w'.market.events[x], w'.clock) && Backed(w', w'.market.events[x]) {
      if x != e {
        assert Backed(w, w.market.events[x]);
        InvLater(w.market.events[x], w.clock, w'.clock);
      }
    }
  }

  /** An event row that keeps its owner and its first publication leaves every log as it was. */
  lemma QuietStepKeepsLog(w: World, w': World, e: EventId)
    requires (forall o :: LogOk(w, o)) && OnlyEvent(w, w', e) && w'.firsts == w.firsts
    requires w'.market.events[e].isPaid
    requires if e in w.market.events
      then w.market.events[e].isPaid && w'.market.events[e].organizerId == w.market.events[e].organizerId
           && w'.market.events[e].firstPublishedAt.Some? == w.market.events[e].firstPublishedAt.Some?
      else w'.market.events[e].firstPublishedAt.None?
    ensures forall o :: LogOk(w', o)
  {
    forall o ensures LogOk(w', o) {
      assert LogOk(w, o) && PublishedPaid(w'.market, o) == PublishedPaid(w.market, o);
    }
  }

  lemma CreateShape(w: World, t: Timed)
    requires t.op.DoCreate? && Step(w, t).market != w.market
    ensures var w', e := Step(w, t), t.op.event;
      && e !in w.market.events && t.op.organizer in w.market.desks && Registration.AcceptedSchedule(t.op.schedule)
      && OnlyEvent(w, w', e) && w'.firsts == w.firsts && w'.market.events[e] == NewDraft(t.op.organizer, t.op.title, t.op.schedule)
  {
  }

  lemma CreateKeepsInv(w: World, t: Timed)
    requires Core(w) && t.op.DoCreate?
    ensures Core(Step(w, t))
  {
    var w' := Step(w, t);
    if w'.market == w.market {
      TimePasses(w, w');
    } else {
      CreateShape(w, t);
      NewDraftInv(t.op.organizer, t.op.title, t.op.schedule, w'.clock);
      EventStepKeepsRows(w, w', t.op.event);
      QuietStepKeepsLog(w, w', t.op.event);
    }
  }

  lemma EditKeepsOwner(e: Event, edit: Edit)
    ensures var e' := Apply(e, edit).0;
      && e'.organizerId == e.organizerId && e'.status == e.status && e'.isPaid == e.isPaid
      && e'.firstPublishedAt == e.firstPublishedAt && e'.publishedAt == e.publishedAt
  {
  }

  lemma EditShape(w: World, t: Timed)
    requires t.op.DoEdit? && Step(w, t).market != w.market
    ensures var w', e := Step(w, t), t.op.event;
      && Access(w.market, t.op.organizer, e) == Ok && OnlyEvent(w, w', e) && w'.firsts == w.firsts
      && w'.market.events[e] == Apply(w.market.events[e], t.op.edit).0
  {
  }

  lemma EditStepKeepsInv(w: World, t: Timed)
    requires Core(w) && t.op.DoEdit?
    ensures Core(Step(w, t))
  {
    var w', e := Step(w, t), t.op.event;
    if w'.market == w.market {
      TimePasses(w, w');
    } else {
      EditShape(w, t);
      var row := w.market.events[e];
      InvLater(row, w.clock, w'.clock);
      EventLifecycle.EditKeepsInv(row, t.op.edit, w'.clock);
      EditKeepsOwner(row, t.op.edit);
      assert Backed(w, row);
      EventStepKeepsRows(w, w', e);
      QuietStepKeepsLog(w, w', e);
    }
  }

  /** The one step that lengthens a log. */
  lemma FirstStepKeepsLog(w: World, w': World, e: EventId, byAdmin: bool, o: OrganizerId)
    requires LogOk(w, o) && OnlyEvent(w, w', e) && e in w.market.events
    requires var row, row' := w.market.events[e], w'.market.events[e];
      && row.organizerId == row'.organizerId && row'.isPaid && row.firstPublishedAt.None? && row'.firstPublishedAt.Some?
      && w'.firsts == w.firsts[row.organizerId := FirstsOf(w, row.organizerId) + [First(e, byAdmin)]]
      && (byAdmin || |PublishedPaid(w.market, row.organizerId)| >= 4)
    ensures LogOk(w', o)
  {
    var before := PublishedPaid(w.market, o);
    CountAfter(w, w', e, o);
    if o == w.market.events[e].organizerId {
      LongerLog(FirstsOf(w, o), First(e, byAdmin), before);
    }
  }

  lemma CountAfter(w: World, w': World, e: EventId, o: OrganizerId)
    requires OnlyEvent(w, w', e) && e in w.market.events
    requires var row, row' := w.market.events[e], w'.market.events[e];
      row.organizerId == row'.organizerId && row'.isPaid && row.firstPublishedAt.None? && row'.firstPublishedAt.Some?
    ensures var before := PublishedPaid(w.market, o);
      if o == w.market.events[e].organizerId
      then e !in before && PublishedPaid(w'.market, o) == before + {e} else PublishedPaid(w'.market, o) == before
  {
  }

  lemma LongerLog(log: seq<First>, x: First, events: set<EventId>)
    requires LogFits(log, events) && x.event !in events && (x.byAdmin || |events| >= 4)
    ensures LogFits(log + [x], events + {x.event})
  {
    var log' := log + [x];
    assert log'[|log|] == x;
    forall e | e in events ensures exists i :: 0 <= i < |log'| && log'[i].event == e {
      var i :| 0 <= i < |log| && log[i].event == e;
      assert log'[i].event == e;
    }
  }

  lemma MoveShape(w: World, t: Timed)
    requires t.op.DoMove? && Step(w, t).market != w.market
    ensures var w', e := Step(w, t), t.op.event;
      && e in w.market.events && w.market.events[e].organizerId in w.market.desks
      && OnlyEvent(w, w', e)
      && var row := w.market.events[e];
         w'.market.events[e] == MoveTo(row, t.op.move, ContextFor(w.market, e), w'.clock).0
  {
  }

  lemma MoveStepKeepsInv(w: World, t: Timed)
    requires Core(w) && t.op.DoMove?
    ensures Core(Step(w, t))
  {
    var w', e := Step(w, t), t.op.event;
    if w'.market == w.market {
      TimePasses(w, w');
    } else {
      MoveShape(w, t);
      MoveStepKeepsRows(w, t);
      MoveKeepsLog(w, t);
    }
  }

  lemma MoveStepKeepsRows(w: World, t: Timed)
    requires Core(w) && t.op.DoMove? && Step(w, t).market != w.market
    ensures DesksOk(Step(w, t)) && EventsOk(Step(w, t))
  {
    MoveShape(w, t);
    var w', e := Step(w, t), t.op.event;
    var row := w.market.events[e];
    var c := ContextFor(w.market, e);
    InvLater(row, w.clock, w'.clock);
    EventLifecycle.MoveKeepsInv(row, t.op.move, c, w'.clock);
    MoveKeepsBacked(w, e, t.op.move, c, w'.clock);
    EventStepKeepsRows(w, w', e);
  }

  lemma MoveKeepsBacked(w: World, e: EventId, move: Move, c: Context, now: int)
    requires Core(w) && e in w.market.events && w.market.events[e].organizerId in w.market.desks
    requires c.isVerified == w.market.desks[w.market.events[e].organizerId].organizer.isVerified
    requires c.accountStatus == w.market.desks[w.market.events[e].organizerId].organizer.accountStatus
    ensures Backed(w, MoveTo(w.market.events[e], move, c, now).0)
  {
    var row := w.market.events[e];
    assert Backed(w, row);
    if !Live(row) && Live(MoveTo(row, move, c, now).0) {
      GoingLiveNeedsOrganizer(row, move, c, now);
    }
  }

  lemma MoveKeepsLog(w: World, t: Timed)
    requires Core(w) && t.op.DoMove? && Step(w, t).market != w.market
    ensures forall o :: LogOk(Step(w, t), o)
  {
    MoveShape(w, t);
    var w', e := Step(w, t), t.op.event;
    var row, row' := w.market.events[e], w'.market.events[e];
    FirstPublicationRule(row, t.op.move, ContextFor(w.market, e), w'.clock);
    MoveKeepsOwner(row, t.op.move, ContextFor(w.market, e), w'.clock);
    if row.firstPublishedAt.None? && row'.firstPublishedAt.Some? {
      forall o ensures LogOk(w', o) {
        FirstStepKeepsLog(w, w', e, t.op.move.AdminApprove?, o);
      }
    } else {
      QuietStepKeepsLog(w, w', e);
    }
  }

  lemma MoveKeepsOwner(e: Event, move: Move, c: Context, now: int)
    ensures var e' := MoveTo(e, move, c, now).0; e'.organizerId == e.organizerId && e'.isPaid == e.isPaid && e'.title == e.title
  {
  }

  // ---------- Slugs ----------

  lemma SameSlugs(w: World, w': World)
    requires SlugsOk(w) && w'.market.slugs == w.market.slugs && w'.held == w.held && w'.market.events.Keys == w.market.events.Keys
    ensures SlugsOk(w')
  {
  }

  lemma CreateSlugs(m: Market, actor: OrganizerId, e: EventId, title: string, schedule: Registration.Schedule)
    requires CreateEvent(m, actor, e, title, schedule).0 != m
    ensures var m' := CreateEvent(m, actor, e, title, schedule).0;
      var (slugs, r) := SlugHistory.Create(m.slugs, SlugTables.EventKind, e, title, DEFAULT_EVENT_SLUG_MAX_ATTEMPTS);
      e !in m.events && m'.events.Keys == m.events.Keys + {e} && r.Created? && m'.slugs == slugs
  {
  }

  lemma CreateAddsRow(t: SlugTables.Tables, e: EventId, title: string)
    requires e !in t.active
    ensures var (slugs, r) := SlugHistory.Create(t, SlugTables.EventKind, e, title, DEFAULT_EVENT_SLUG_MAX_ATTEMPTS);
      r.Created? ==> slugs.active.Keys == t.active.Keys + {e} && slugs != t
  {
  }

  lemma CreateSlugShape(w: World, t: Timed)
    requires SlugsOk(w) && t.op.DoCreate? && Step(w, t).market != w.market
    ensures var w' := Step(w, t); var op := SlugHistory.DoCreate(t.op.event, t.op.title, DEFAULT_EVENT_SLUG_MAX_ATTEMPTS);
      && SlugWorld(w') == SlugHistory.Step(SlugWorld(w), SlugTables.EventKind, op)
      && w'.market.slugs.active.Keys == w'.market.events.Keys
  {
    CreateSlugs(w.market, t.op.organizer, t.op.event, t.op.title, t.op.schedule);
    CreateAddsRow(w.market.slugs, t.op.event, t.op.title);
  }

  lemma EditSlugs(m: Market, actor: OrganizerId, e: EventId, edit: Edit)
    requires EditEvent(m, actor, e, edit).0.slugs != m.slugs
    ensures var m' := EditEvent(m, actor, e, edit).0;
      && e in m.events && m'.events.Keys == m.events.Keys
      && m'.slugs == SlugHistory.Rename(m.slugs, SlugTables.EventKind, e, Apply(m.events[e], edit).0.title, DEFAULT_EVENT_SLUG_MAX_ATTEMPTS).0
  {
  }

  lemma RenameKeepsRows(t: SlugTables.Tables, e: EventId, title: string)
    requires e in t.active
    ensures SlugHistory.Rename(t, SlugTables.EventKind, e, title, DEFAULT_EVENT_SLUG_MAX_ATTEMPTS).0.active.Keys == t.active.Keys
  {
  }

  lemma EditSlugShape(w: World, t: Timed)
    requires SlugsOk(w) && t.op.DoEdit? && Step(w, t).market.slugs != w.market.slugs
    ensures var w' := Step(w, t);
      var op := SlugHistory.DoRename(t.op.event, Apply(w.market.events[t.op.event], t.op.edit).0.title, DEFAULT_EVENT_SLUG_MAX_ATTEMPTS);
      && t.op.event in w.market.events
      && SlugWorld(w') == SlugHistory.Step(SlugWorld(w), SlugTables.EventKind, op)
      && w'.market.slugs.active.Keys == w'.market.events.Keys
  {
    EditSlugs(w.market, t.op.organizer, t.op.event, t.op.edit);
    RenameKeepsRows(w.market.slugs, t.op.event, Apply(w.market.events[t.op.event], t.op.edit).0.title);
  }

  lemma SlugStepKeepsOk(w: World, w': World, op: SlugHistory.Op)
    requires SlugsOk(w) && SlugWorld(w') == SlugHistory.Step(SlugWorld(w), SlugTables.EventKind, op)
    requires w'.market.slugs.active.Keys == w'.market.events.Keys
    ensures SlugsOk(w')
  {
    SlugHistory.StepKeepsInv(SlugWorld(w), SlugTables.EventKind, op);
    SlugHistory.StepParses(SlugWorld(w), SlugTables.EventKind, op);
  }

  lemma StepKeepsSlugs(w: World, t: Timed)
    requires SlugsOk(w)
    ensures SlugsOk(Step(w, t))
  {
    var w' := Step(w, t);
    if t.op.DoCreate? && w'.market != w.market {
      CreateSlugShape(w, t);
      SlugStepKeepsOk(w, w', SlugHistory.DoCreate(t.op.event, t.op.title, DEFAULT_EVENT_SLUG_MAX_ATTEMPTS));
    } else if t.op.DoEdit? && w'.market.slugs != w.market.slugs {
      EditSlugShape(w, t);
      var title := Apply(w.market.events[t.op.event], t.op.edit).0.title;
      SlugStepKeepsOk(w, w', SlugHistory.DoRename(t.op.event, title, DEFAULT_EVENT_SLUG_MAX_ATTEMPTS));
    } else {
      QuietSlugs(w, t);
      SameSlugs(w, w');
    }
  }

  lemma QuietSlugs(w: World, t: Timed)
    requires t.op.DoCreate? ==> Step(w, t).market == w.market
    requires t.op.DoEdit? ==> Step(w, t).market.slugs == w.market.slugs
    ensures var w' := Step(w, t);
      w'.market.slugs == w.market.slugs && w'.held == w.held && w'.market.events.Keys == w.market.events.Keys
  {
  }

  // ---------- Every run ----------

  lemma StepKeepsCore(w: World, t: Timed)
    requires Core(w)
    ensures Core(Step(w, t))
  {
    match t.op
    case DoRegister(_) => RegisterKeepsInv(w, t);
    case DoAtDesk(_, _) => AtDeskKeepsInv(w, t);
    case DoJob(_, _) => JobKeepsInv(w, t);
    case DoCreate(_, _, _, _) => CreateKeepsInv(w, t);
    case DoEdit(_, _, _) => EditStepKeepsInv(w, t);
    case DoMove(_, _, _) => MoveStepKeepsInv(w, t);
  }

  lemma StepKeepsInv(w: World, t: Timed)
    requires Inv(w)
    ensures Inv(Step(w, t))
  {
    StepKeepsCore(w, t);
    StepKeepsSlugs(w, t);
  }

  lemma {:induction false} RunKeepsInv(w: World, steps: seq<Timed>)
    requires Inv(w)
    ensures Inv(After(w, steps))
    decreases |steps|
  {
    if steps != [] {
      StepKeepsInv(w, steps[0]);
      RunKeepsInv(Step(w, steps[0]), steps[1..]);
    }
  }

  lemma EmptyInv()
    ensures Inv(EMPTY)
  {
    forall o ensures LogOk(EMPTY, o) {
      assert PublishedPaid(EMPTY.market, o) == {};
    }
  }
}
