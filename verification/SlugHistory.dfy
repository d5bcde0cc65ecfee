/** Renames, redirect rows and public lookups over whole histories of one kind of resource. */
module SlugHistory {
  import opened Options
  import opened Slugs
  import opened SlugTables

  // ---------- Recording a redirect ----------

  /** The redirect rows after delete, repoint and upsert, each row given in one go. */
  function RecordRedirect(t: Tables, id: Id, oldSlug: string, newSlug: string): Tables {
    if oldSlug == newSlug then t
    else
      var kept := map s | s in t.redirects && !(s == newSlug && t.redirects[s].resourceId == id)
        :: if t.redirects[s] == Redirect(oldSlug, id) then Redirect(newSlug, id) else t.redirects[s];
      t.(redirects := kept[oldSlug := Redirect(newSlug, id)])
  }

  // ---------- Operations ----------

  datatype RenameResult = Renamed(changed: bool, previousSlug: string, slug: string)
    | NotFound | InvalidSlug | NoSlug(why: Reservation)

  /** updateEventSlug: `claimed` is the optional currentSlug of the request, "" when absent. */
  function RenameFrom(t: Tables, kind: Kind, id: Id, claimed: string, title: string, maxAttempts: int): (Tables, RenameResult) {
    if claimed != "" && !Parses(kind, claimed) then (t, InvalidSlug)
    else if claimed == "" && id !in t.active then (t, NotFound)
    else
      var current := if claimed != "" then claimed else t.active[id];
      var r := Reserve(t, kind, title, Some(id), maxAttempts);
      if !r.Reserved? then (t, NoSlug(r))
      else if current == r.slug then (t, Renamed(false, current, current))
      else if id !in t.active then (t, NotFound)
      else (RecordRedirect(t.(active := t.active[id := r.slug]), id, current, r.slug), Renamed(true, current, r.slug))
  }

  /** A rename from the slug the row holds, as the draft edit and the organizer profile perform it. */
  function Rename(t: Tables, kind: Kind, id: Id, title: string, maxAttempts: int): (Tables, RenameResult) {
    RenameFrom(t, kind, id, "", title, maxAttempts)
  }

  datatype CreateResult = Created(slug: string) | Refused(why: Reservation)

  function Create(t: Tables, kind: Kind, id: Id, title: string, maxAttempts: int): (Tables, CreateResult) {
    var r := Reserve(t, kind, title, None, maxAttempts);
    if !r.Reserved? then (t, CreateResult.Refused(r))
    else (t.(active := t.active[id := r.slug]), Created(r.slug))
  }

  // ---------- Histories ----------

  datatype World = World(tables: Tables, held: map<Id, set<string>>)
  datatype Op = DoCreate(id: Id, title: string, maxAttempts: int) | DoRename(id: Id, title: string, maxAttempts: int)

  const EMPTY := World(Tables(map[], map[]), map[])

  ghost function Noting(w: World, t: Tables, id: Id): World {
    if id in t.active then World(t, w.held[id := HeldBy(w, id) + {t.active[id]}]) else World(t, w.held)
  }

  ghost function HeldBy(w: World, id: Id): set<string> {
    if id in w.held then w.held[id] else {}
  }

  /** New rows come with identifiers no row uses. */
  ghost function Step(w: World, kind: Kind, op: Op): World {
    match op
    case DoCreate(id, title, n) =>
      if id in w.tables.active then w else Noting(w, Create(w.tables, kind, id, title, n).0, id)
    case DoRename(id, title, n) => Noting(w, Rename(w.tables, kind, id, title, n).0, id)
  }

  ghost function Run(w: World, kind: Kind, ops: seq<Op>): World
    decreases |ops|
  {
    if ops == [] then w else Run(Step(w, kind, ops[0]), kind, ops[1..])
  }

  // ---------- The invariant ----------

  ghost predicate OneOwner(t: Tables) {
    forall a, b :: a in t.active && b in t.active && t.active[a] == t.active[b] ==> a == b
  }

  ghost predicate Disjoint(t: Tables) {
    forall id :: id in t.active ==> t.active[id] !in t.redirects
  }

  ghost predicate PointsHome(t: Tables) {
    forall s :: s in t.redirects ==>
      (var r := t.redirects[s]; r.resourceId in t.active && r.newSlug == t.active[r.resourceId])
  }

  ghost predicate Sound(t: Tables) {
    OneOwner(t) && Disjoint(t) && PointsHome(t)
  }

  ghost function OldSlugs(t: Tables, id: Id): set<string> {
    set s | s in t.redirects && t.redirects[s].resourceId == id
  }

  ghost predicate Remembers(w: World) {
    && w.held.Keys == w.tables.active.Keys
    && forall id :: id in w.held ==> w.held[id] == OldSlugs(w.tables, id) + {w.tables.active[id]}
  }

  ghost predicate Inv(w: World) {
    Sound(w.tables) && Remembers(w)
  }

  // ---------- Preservation ----------

  lemma FreeMeans(t: Tables, kind: Kind, slug: string, self: Option<Id>)
    requires IsFree(t, kind, slug, self)
    ensures forall id :: id in t.active && t.active[id] == slug ==> self == Some(id)
    ensures slug in t.redirects ==> self == Some(t.redirects[slug].resourceId)
  {
  }

  lemma MoveKeepsSound(t: Tables, id: Id, newSlug: string)
    requires Sound(t) && id in t.active && newSlug != t.active[id]
    requires forall other :: other in t.active && t.active[other] == newSlug ==> other == id
    requires newSlug in t.redirects ==> t.redirects[newSlug].resourceId == id
    ensures Sound(RecordRedirect(t.(active := t.active[id := newSlug]), id, t.active[id], newSlug))
  {
    var t' := RecordRedirect(t.(active := t.active[id := newSlug]), id, t.active[id], newSlug);
    forall s | s in t'.redirects
      ensures t'.redirects[s].resourceId in t'.active && t'.redirects[s].newSlug == t'.active[t'.redirects[s].resourceId]
    {
      if s != t.active[id] { assert s in t.redirects; }
    }
  }

  lemma MoveHistory(t: Tables, id: Id, newSlug: string, other: Id)
    requires Sound(t) && id in t.active && newSlug != t.active[id]
    requires newSlug in t.redirects ==> t.redirects[newSlug].resourceId == id
    ensures var t' := RecordRedirect(t.(active := t.active[id := newSlug]), id, t.active[id], newSlug);
      && (other != id ==> OldSlugs(t', other) == OldSlugs(t, other))
      && OldSlugs(t', id) + {newSlug} == OldSlugs(t, id) + {t.active[id]} + {newSlug}
  {
  }

  lemma RenameKeepsInv(w: World, kind: Kind, id: Id, title: string, n: int)
    requires Inv(w)
    ensures Inv(Noting(w, Rename(w.tables, kind, id, title, n).0, id))
  {
    var t := w.tables;
    var (t', r) := Rename(t, kind, id, title, n);
    var w' := Noting(w, t', id);
    ReserveIsFree(t, kind, title, Some(id), n);
    if r.Renamed? && r.changed {
      FreeMeans(t, kind, r.slug, Some(id));
      MoveKeepsSound(t, id, r.slug);
      forall other | other in w'.held ensures w'.held[other] == OldSlugs(t', other) + {t'.active[other]} {
        MoveHistory(t, id, r.slug, other);
      }
    } else if id in t.active {
      assert w'.held[id] == w.held[id];
    }
  }

  lemma CreateKeepsInv(w: World, kind: Kind, id: Id, title: string, n: int)
    requires Inv(w) && id !in w.tables.active
    ensures Inv(Noting(w, Create(w.tables, kind, id, title, n).0, id))
  {
    var t := w.tables;
    var (t', r) := Create(t, kind, id, title, n);
    ReserveIsFree(t, kind, title, None, n);
    if r.Created? {
      FreeMeans(t, kind, r.slug, None);
      assert OldSlugs(t, id) == {};
      assert forall other :: OldSlugs(t', other) == OldSlugs(t, other);
    }
  }

  lemma StepKeepsInv(w: World, kind: Kind, op: Op)
    requires Inv(w)
    ensures Inv(Step(w, kind, op))
  {
    match op
    case DoCreate(id, title, n) => if id !in w.tables.active { CreateKeepsInv(w, kind, id, title, n); }
    case DoRename(id, title, n) => RenameKeepsInv(w, kind, id, title, n);
  }

  /** Every history of creates and renames keeps the tables sound and remembers every slug ever held. */
  lemma {:induction false} HistorySound(w: World, kind: Kind, ops: seq<Op>)
    requires Inv(w)
    ensures Inv(Run(w, kind, ops))
    decreases |ops|
  {
    if ops != [] {
      StepKeepsInv(w, kind, ops[0]);
      HistorySound(Step(w, kind, ops[0]), kind, ops[1..]);
    }
  }

  lemma StepKeepsHeld(w: World, kind: Kind, op: Op, id: Id)
    ensures HeldBy(w, id) <= HeldBy(Step(w, kind, op), id)
  {
  }

  lemma {:induction false} RunKeepsHeld(w: World, kind: Kind, ops: seq<Op>, id: Id)
    ensures HeldBy(w, id) <= HeldBy(Run(w, kind, ops), id)
    decreases |ops|
  {
    if ops != [] {
      StepKeepsHeld(w, kind, ops[0], id);
      RunKeepsHeld(Step(w, kind, ops[0]), kind, ops[1..], id);
    }
  }

  // ---------- Public lookup ----------

  datatype Lookup = Found(id: Id) | MovedTo(slug: string) | Missing | Malformed

  ghost predicate OwnerIs(t: Tables, slug: string, id: Id) {
    id in t.active && t.active[id] == slug
  }

  /** Lookup without the cache. `readable` holds the resources whose status is public;
      organizers are always readable. */
  ghost function LookupSlug(t: Tables, kind: Kind, readable: set<Id>, slug: string): Lookup {
    if !Parses(kind, slug) then Malformed
    else if exists id :: OwnerIs(t, slug, id) then
      var id :| OwnerIs(t, slug, id);
      if id in readable then Found(id) else Missing
    else if slug !in t.redirects || t.redirects[slug].newSlug == slug then Missing
    else
      var target := t.redirects[slug].resourceId;
      if target !in t.active || target !in readable || t.active[target] != t.redirects[slug].newSlug then Missing
      else MovedTo(t.redirects[slug].newSlug)
  }

  /** In a sound table neither the self-loop guard nor the stale-target guard can fire. */
  lemma GuardsNeverFire(t: Tables, slug: string)
    requires Sound(t) && slug in t.redirects
    ensures t.redirects[slug].newSlug != slug
    ensures t.redirects[slug].resourceId in t.active
    ensures t.active[t.redirects[slug].resourceId] == t.redirects[slug].newSlug
  {
  }

  lemma OneHop(w: World, kind: Kind, readable: set<Id>, id: Id, slug: string)
    requires Inv(w) && id in w.held && slug in w.held[id]
    requires Parses(kind, slug) && Parses(kind, w.tables.active[id])
    ensures var t := w.tables; var current := t.active[id];
      && LookupSlug(t, kind, readable, slug) ==
          (if id !in readable then Missing else if slug == current then Found(id) else MovedTo(current))
      && LookupSlug(t, kind, readable, current) == if id in readable then Found(id) else Missing
  {
    var t := w.tables;
    assert OwnerIs(t, t.active[id], id);
    if slug != t.active[id] {
      assert slug in OldSlugs(t, id);
      GuardsNeverFire(t, slug);
      assert !exists other :: OwnerIs(t, slug, other);
    }
  }

  lemma NoOtherHolder(w: World, a: Id, b: Id, slug: string)
    requires Inv(w) && slug in HeldBy(w, a) && slug in HeldBy(w, b)
    ensures a == b
  {
  }

  ghost predicate AllParse(w: World, kind: Kind) {
    && (forall id :: id in w.tables.active ==> Parses(kind, w.tables.active[id]))
    && (forall id, s :: id in w.held && s in w.held[id] ==> Parses(kind, s))
  }

  lemma NotingParses(w: World, kind: Kind, t: Tables, id: Id)
    requires AllParse(w, kind)
    requires t.active == w.tables.active || (id in t.active && Parses(kind, t.active[id]) && t.active == w.tables.active[id := t.active[id]])
    ensures AllParse(Noting(w, t, id), kind)
  {
  }

  lemma StepParses(w: World, kind: Kind, op: Op)
    requires AllParse(w, kind)
    ensures AllParse(Step(w, kind, op), kind)
  {
    match op
    case DoCreate(id, title, n) =>
      ReserveIsFree(w.tables, kind, title, None, n);
      NotingParses(w, kind, Create(w.tables, kind, id, title, n).0, id);
    case DoRename(id, title, n) =>
      ReserveIsFree(w.tables, kind, title, Some(id), n);
      NotingParses(w, kind, Rename(w.tables, kind, id, title, n).0, id);
  }

  lemma {:induction false} RunParses(w: World, kind: Kind, ops: seq<Op>)
    requires AllParse(w, kind)
    ensures AllParse(Run(w, kind, ops), kind)
    decreases |ops|
  {
    if ops != [] {
      StepParses(w, kind, ops[0]);
      RunParses(Step(w, kind, ops[0]), kind, ops[1..]);
    }
  }

  /** The law the redirect table exists for. Take any history, and any slug some resource held at any
      point of it: no other resource holds or ever held it, and looking it up leads to that resource,
      directly or through one redirect to a slug that answers directly. */
  lemma EverySlugLeadsHome(kind: Kind, before: seq<Op>, after: seq<Op>, readable: set<Id>, id: Id, slug: string)
    requires slug in HeldBy(Run(EMPTY, kind, before), id)
    ensures var w := Run(Run(EMPTY, kind, before), kind, after);
      && id in w.tables.active
      && (forall other :: slug in HeldBy(w, other) ==> other == id)
      && (id in readable ==>
            var current := w.tables.active[id];
            && LookupSlug(w.tables, kind, readable, current) == Found(id)
            && LookupSlug(w.tables, kind, readable, slug) == if slug == current then Found(id) else MovedTo(current))
  {
    var mid := Run(EMPTY, kind, before);
    var w := Run(mid, kind, after);
    HistorySound(EMPTY, kind, before);
    HistorySound(mid, kind, after);
    RunKeepsHeld(mid, kind, after, id);
    RunParses(EMPTY, kind, before);
    RunParses(mid, kind, after);
    forall other | slug in HeldBy(w, other) ensures other == id {
      NoOtherHolder(w, id, other, slug);
    }
    OneHop(w, kind, readable, id, slug);
  }

  /** A slug nobody ever held leads nowhere, and one that is not a slug is turned away. */
  lemma NeverHeldIsMissing(kind: Kind, ops: seq<Op>, readable: set<Id>, slug: string)
    requires forall id :: slug !in HeldBy(Run(EMPTY, kind, ops), id)
    ensures LookupSlug(Run(EMPTY, kind, ops).tables, kind, readable, slug) == if Parses(kind, slug) then Missing else Malformed
  {
    var w := Run(EMPTY, kind, ops);
    HistorySound(EMPTY, kind, ops);
    forall id ensures !OwnerIs(w.tables, slug, id) {
      assert id in w.tables.active ==> w.tables.active[id] in HeldBy(w, id);
    }
    forall s | s in w.tables.redirects ensures s in HeldBy(w, w.tables.redirects[s].resourceId) {
      assert s in OldSlugs(w.tables, w.tables.redirects[s].resourceId);
    }
  }

  // ---------- What one operation does ----------

  /** A creation gives its row the reserved slug and touches nothing else; without a reservation it does nothing. */
  lemma CreateTakesEffect(t: Tables, kind: Kind, id: Id, title: string, n: int, readable: set<Id>)
    requires Sound(t) && id !in t.active && id in readable
    ensures var (t', r) := Create(t, kind, id, title, n);
      match Reserve(t, kind, title, None, n)
      case Reserved(slug) => r == Created(slug) && t' == Tables(t.active[id := slug], t.redirects) && LookupSlug(t', kind, readable, slug) == Found(id)
      case _ => t' == t && !r.Created?
  {
    var (t', r) := Create(t, kind, id, title, n);
    ReserveIsFree(t, kind, title, None, n);
    if r.Created? {
      assert OwnerIs(t', r.slug, id);
      FreeMeans(t, kind, r.slug, None);
    }
  }

  /** A rename gives the row the reserved slug, sends the previous one there, and leaves every other row's slugs alone; without
      a reservation it does nothing. */
  lemma RenameTakesEffect(t: Tables, kind: Kind, id: Id, title: string, n: int, readable: set<Id>)
    requires Sound(t) && id in t.active && id in readable && Parses(kind, t.active[id])
    ensures var (t', r) := Rename(t, kind, id, title, n); var previous := t.active[id];
      match Reserve(t, kind, title, Some(id), n)
      case Reserved(slug) =>
        && r == Renamed(slug != previous, previous, slug) && t'.active == t.active[id := slug]
        && LookupSlug(t', kind, readable, slug) == Found(id)
        && (slug != previous ==> LookupSlug(t', kind, readable, previous) == MovedTo(slug))
        && forall other :: other != id ==> OldSlugs(t', other) == OldSlugs(t, other)
      case _ => t' == t && !r.Renamed?
  {
    var (t', r) := Rename(t, kind, id, title, n);
    ReserveIsFree(t, kind, title, Some(id), n);
    if r.Renamed? {
      FreeMeans(t, kind, r.slug, Some(id));
      assert OwnerIs(t', r.slug, id);
      if r.changed {
        MoveKeepsSound(t, id, r.slug);
        assert !exists other :: OwnerIs(t', t.active[id], other);
        forall other | other != id ensures OldSlugs(t', other) == OldSlugs(t, other) { MoveHistory(t, id, r.slug, other); }
      }
    }
  }

  /** The upsert never meets an existing row, so its conflict branch is dead for every rename from the row's own slug. */
  lemma UpsertNeverConflicts(t: Tables, kind: Kind, id: Id, title: string, n: int)
    requires Sound(t)
    ensures var (_, r) := Rename(t, kind, id, title, n);
      r.Renamed? && r.changed ==> r.previousSlug !in t.redirects
  {
  }

  /** So the readiness item slug_available, which probes a row's own slug excluding the row, never fails. */
  lemma OwnSlugStaysAvailable(t: Tables, id: Id)
    requires Sound(t) && id in t.active
    ensures !TakenByOthers(t, t.active[id], Some(id))
  {
  }

  // ---------- A stale currentSlug ----------

  /** What a caller of updateEventSlug can check before the call: the claimed slug is the row's own, or the slug the
      reservation would answer, or one of the row's old slugs while the reservation answers its present one. */
  predicate ClaimIsSafe(t: Tables, kind: Kind, id: Id, claimed: string, title: string, n: int)
    requires id in t.active
  {
    || claimed == t.active[id]
    || Reserve(t, kind, title, Some(id), n) == Reserved(claimed)
    || (Reserve(t, kind, title, Some(id), n) == Reserved(t.active[id]) && claimed in t.redirects && t.redirects[claimed].resourceId == id)
  }

  /** updateEventSlug also accepts a caller-supplied current slug. The history survives exactly when the claim is safe
      or the call is refused. */
  lemma ClaimedSlugSafeIff(w: World, kind: Kind, id: Id, claimed: string, title: string, n: int)
    requires Inv(w) && id in w.tables.active && claimed != ""
    ensures var t := w.tables;
      Inv(Noting(w, RenameFrom(t, kind, id, claimed, title, n).0, id)) <==>
        (!Parses(kind, claimed) || !Reserve(t, kind, title, Some(id), n).Reserved? || ClaimIsSafe(t, kind, id, claimed, title, n))
  {
    var t := w.tables;
    assert Noting(w, t, id).held == w.held;
    var (t', r) := RenameFrom(t, kind, id, claimed, title, n);
    if r.Renamed? {
      if claimed == t.active[id] {
        assert RenameFrom(t, kind, id, claimed, title, n) == Rename(t, kind, id, title, n);
        RenameKeepsInv(w, kind, id, title, n);
      } else if claimed == r.slug {
        assert t' == t && Noting(w, t, id).held == w.held;
      } else {
        ReserveIsFree(t, kind, title, Some(id), n);
        ClaimedElsewhere(w, id, claimed, r.slug);
      }
    }
  }

  lemma ClaimedElsewhere(w: World, id: Id, claimed: string, newSlug: string)
    requires Inv(w) && id in w.tables.active && claimed != w.tables.active[id] && claimed != newSlug
    ensures var t := w.tables; var t' := RecordRedirect(t.(active := t.active[id := newSlug]), id, claimed, newSlug);
      Inv(Noting(w, t', id)) <==>
        newSlug == t.active[id] && claimed in t.redirects && t.redirects[claimed].resourceId == id
  {
    var t := w.tables;
    var t' := RecordRedirect(t.(active := t.active[id := newSlug]), id, claimed, newSlug);
    var w' := Noting(w, t', id);
    if newSlug != t.active[id] {
      assert t.active[id] in w'.held[id] && t.active[id] !in OldSlugs(t', id);
    } else if claimed in OldSlugs(t, id) {
      assert t'.redirects == t.redirects;
      assert t'.active == t.active;
      assert w'.held == w.held;
    } else {
      assert claimed in OldSlugs(t', id) && claimed !in w'.held[id];
    }
  }

  lemma FirstCandidateFree(t: Tables, title: string, self: Option<Id>, n: int)
    requires Parses(EventKind, title) && IsFree(t, EventKind, title, self) && 1 <= n <= MAX_SAFE_INTEGER
    ensures Reserve(t, EventKind, title, self, n) == Reserved(title)
  {
    NormalizeIdentity(title, Fallback(EventKind), MaxLength(EventKind));
  }

  lemma CreateLone(t: Tables, id: Id, a: string, n: int)
    requires t.active == map[] && t.redirects == map[] && Parses(EventKind, a) && 1 <= n <= MAX_SAFE_INTEGER
    ensures Create(t, EventKind, id, a, n) == (t.(active := t.active[id := a]), Created(a))
  {
    assert IsFree(t, EventKind, a, None);
    FirstCandidateFree(t, a, None, n);
  }

  lemma CreateFirst(w: World, id: Id, a: string, n: int)
    requires w.tables.active == map[] && w.tables.redirects == map[] && w.held == map[]
    requires Parses(EventKind, a) && 1 <= n <= MAX_SAFE_INTEGER
    ensures var w' := Step(w, EventKind, DoCreate(id, a, n));
      w'.tables.active == map[id := a] && w'.tables.redirects == map[] && HeldBy(w', id) == {a}
  {
    CreateLone(w.tables, id, a, n);
    assert Step(w, EventKind, DoCreate(id, a, n)) == Noting(w, w.tables.(active := w.tables.active[id := a]), id);
  }

  /** A rename to a free slug that needs no suffix, in a table with one row. */
  lemma RenameLone(t: Tables, id: Id, claimed: string, c: string, n: int)
    requires t.active.Keys == {id} && (forall s :: s in t.redirects ==> t.redirects[s].resourceId == id)
    requires Parses(EventKind, c) && c != t.active[id] && c != claimed && 1 <= n <= MAX_SAFE_INTEGER
    requires claimed == "" || Parses(EventKind, claimed)
    ensures var previous := if claimed == "" then t.active[id] else claimed;
      RenameFrom(t, EventKind, id, claimed, c, n)
      == (RecordRedirect(t.(active := t.active[id := c]), id, previous, c), Renamed(true, previous, c))
  {
    assert IsFree(t, EventKind, c, Some(id));
    FirstCandidateFree(t, c, Some(id), n);
  }

  lemma RecordLone(t: Tables, id: Id, oldSlug: string, newSlug: string)
    requires oldSlug != newSlug && t.redirects.Keys <= {oldSlug}
    ensures RecordRedirect(t, id, oldSlug, newSlug).redirects == map[oldSlug := Redirect(newSlug, id)]
  {
  }

  /** Row `id` has been created as a and renamed to b. */
  ghost predicate CreatedThenRenamed(w: World, id: Id, a: string, b: string) {
    w.tables.active == map[id := b] && w.tables.redirects == map[a := Redirect(b, id)] && HeldBy(w, id) == {a, b}
  }

  lemma RenameSecond(w: World, id: Id, a: string, b: string, n: int)
    requires w.tables.active == map[id := a] && w.tables.redirects == map[] && HeldBy(w, id) == {a}
    requires Parses(EventKind, b) && a != b && 1 <= n <= MAX_SAFE_INTEGER
    ensures CreatedThenRenamed(Step(w, EventKind, DoRename(id, b, n)), id, a, b)
  {
    var t := w.tables;
    RenameLone(t, id, "", b, n);
    var moved := t.(active := t.active[id := b]);
    RecordLone(moved, id, a, b);
    assert Step(w, EventKind, DoRename(id, b, n)) == Noting(w, RecordRedirect(moved, id, a, b), id);
  }

  lemma RunOfTwo(w: World, kind: Kind, first: Op, second: Op)
    ensures Run(w, kind, [first, second]) == Step(Step(w, kind, first), kind, second)
  {
    var w1 := Step(w, kind, first);
    assert [first, second][1..] == [second] && [second][1..] == [];
    assert Run(w1, kind, [second]) == Run(Step(w1, kind, second), kind, []);
  }

  lemma StaleRename(t: Tables, id: Id, a: string, b: string, c: string, n: int)
    requires t.active == map[id := b] && t.redirects == map[a := Redirect(b, id)]
    requires Parses(EventKind, a) && Parses(EventKind, c) && b != c && a != c && 1 <= n <= MAX_SAFE_INTEGER
    ensures var (t', r) := RenameFrom(t, EventKind, id, a, c, n);
      r == Renamed(true, a, c) && t'.active == map[id := c] && t'.redirects == map[a := Redirect(c, id)]
  {
    RenameLone(t, id, a, c, n);
    RecordLone(t.(active := t.active[id := c]), id, a, c);
  }

  /** A stale claim loses a slug. Take any three slugs and the empty tables: a row created as a has moved on to b; a request
      that asks for c and still says a is carried out, and from then on b, which the row held, leads nowhere, whatever is public. */
  lemma StaleClaimLosesSlug(w0: World, id: Id, a: string, b: string, c: string, n: int, readable: set<Id>)
    requires w0 == EMPTY
    requires Parses(EventKind, a) && Parses(EventKind, b) && Parses(EventKind, c)
    requires a != b && b != c && a != c && 1 <= n <= MAX_SAFE_INTEGER
    ensures var w := Run(w0, EventKind, [DoCreate(id, a, n), DoRename(id, b, n)]);
      var (t', r) := RenameFrom(w.tables, EventKind, id, a, c, n);
      b in HeldBy(w, id) && r == Renamed(true, a, c) && LookupSlug(t', EventKind, readable, b) == Missing
  {
    var create, rename := DoCreate(id, a, n), DoRename(id, b, n);
    CreateFirst(w0, id, a, n);
    RenameSecond(Step(w0, EventKind, create), id, a, b, n);
    RunOfTwo(w0, EventKind, create, rename);
    StaleRename(Run(w0, EventKind, [create, rename]).tables, id, a, b, c, n);
  }
}
