/** The slug tables as the services update them, statement by statement. */
module SlugStore {
  import opened Options
  import opened Slugs
  import opened SlugTables
  import opened SlugHistory

  /** Delete and repoint, one after the other, are the rows kept and rewritten in one go. */
  lemma RecordInSteps(t: Tables, id: Id, oldSlug: string, newSlug: string, kept: map<string, Redirect>, repointed: map<string, Redirect>)
    requires oldSlug != newSlug
    requires kept == map s | s in t.redirects && !(t.redirects[s].resourceId == id && s == newSlug) :: t.redirects[s]
    requires repointed == map s | s in kept :: if kept[s] == Redirect(oldSlug, id) then kept[s].(newSlug := newSlug) else kept[s]
    ensures RecordRedirect(t, id, oldSlug, newSlug) == t.(redirects := repointed[oldSlug := Redirect(newSlug, id)])
  {
    assert repointed == map s | s in t.redirects && !(s == newSlug && t.redirects[s].resourceId == id)
      :: if t.redirects[s] == Redirect(oldSlug, id) then Redirect(newSlug, id) else t.redirects[s];
  }

  class Store {
    const kind: Kind
    var active: map<Id, string>
    var redirects: map<string, Redirect>
    /** Every slug each row has ever held. */
    ghost var held: map<Id, set<string>>

    function View(): Tables
      reads this
    {
      Tables(active, redirects)
    }

    ghost function History(): World
      reads this
    {
      World(View(), held)
    }

    ghost predicate Valid()
      reads this
    {
      Inv(History())
    }

    constructor (kind: Kind)
      ensures Valid() && History() == EMPTY && this.kind == kind
    {
      this.kind := kind;
      active, redirects, held := map[], map[], map[];
    }

    method SlugExists(slug: string, self: Option<Id>) returns (taken: bool)
      ensures taken <==> TakenByOthers(View(), slug, self)
    {
      if exists id | id in active :: active[id] == slug && self != Some(id) {
        return true;
      }
      taken := slug in redirects && self != Some(redirects[slug].resourceId);
    }

    method ReserveUnique(title: string, self: Option<Id>, maxAttempts: int) returns (r: Reservation)
      ensures r == Reserve(View(), kind, title, self, maxAttempts)
    {
      if !(1 <= maxAttempts <= MAX_SAFE_INTEGER) {
        return BadMaxAttempts;
      }
      var base := BaseSlug(kind, title);
      var attempt := 1;
      while attempt <= maxAttempts
        invariant 1 <= attempt <= maxAttempts + 1
        invariant FirstAttempt(View(), kind, base, self, 1, maxAttempts) == FirstAttempt(View(), kind, base, self, attempt, maxAttempts)
      {
        var slug := Candidate(kind, base, attempt);
        if !IsReserved(kind, slug) {
          var taken := SlugExists(slug, self);
          if !taken {
            return Reserved(slug);
          }
        }
        attempt := attempt + 1;
      }
      r := Conflict;
    }

    method Record(id: Id, oldSlug: string, newSlug: string) returns (recorded: bool)
      modifies this`redirects
      ensures recorded <==> oldSlug != newSlug
      ensures View() == RecordRedirect(old(View()), id, oldSlug, newSlug)
    {
      if oldSlug == newSlug {
        return false;
      }
      redirects := map s | s in redirects && !(redirects[s].resourceId == id && s == newSlug) :: redirects[s];
      ghost var kept := redirects;
      redirects := map s | s in redirects
        :: if redirects[s] == Redirect(oldSlug, id) then redirects[s].(newSlug := newSlug) else redirects[s];
      RecordInSteps(old(View()), id, oldSlug, newSlug, kept, redirects);
      // insert, or on a conflict of old slugs overwrite both columns
      redirects := redirects[oldSlug := Redirect(newSlug, id)];
      recorded := true;
    }

    method Insert(id: Id, title: string, maxAttempts: int) returns (r: CreateResult)
      requires Valid() && id !in active
      modifies this
      ensures Valid()
      ensures (View(), r) == Create(old(View()), kind, id, title, maxAttempts)
      ensures History() == Step(old(History()), kind, DoCreate(id, title, maxAttempts))
    {
      CreateKeepsInv(History(), kind, id, title, maxAttempts);
      var reservation := ReserveUnique(title, None, maxAttempts);
      if !reservation.Reserved? {
        return CreateResult.Refused(reservation);
      }
      active := active[id := reservation.slug];
      held := Noting(old(History()), View(), id).held;
      r := Created(reservation.slug);
    }

    /** One rename transaction. `claimed` is updateEventSlug's optional currentSlug, "" when absent. */
    method UpdateSlug(id: Id, claimed: string, title: string, maxAttempts: int) returns (r: RenameResult)
      modifies this
      ensures (View(), r) == RenameFrom(old(View()), kind, id, claimed, title, maxAttempts)
      ensures History() == Noting(old(History()), View(), id)
      ensures old(Valid()) && claimed == "" ==> Valid()
    {
      if Inv(History()) {
        RenameKeepsInv(History(), kind, id, title, maxAttempts);
      }
      held := Noting(History(), View(), id).held;
      var current := claimed;
      if claimed != "" {
        if !Parses(kind, claimed) {
          return InvalidSlug;
        }
      } else {
        if id !in active {
          return NotFound;
        }
        current := active[id];
      }
      var reservation := ReserveUnique(title, Some(id), maxAttempts);
      if !reservation.Reserved? {
        return NoSlug(reservation);
      }
      if current == reservation.slug {
        return Renamed(false, current, current);
      }
      if id !in active {
        return NotFound;
      }
      active := active[id := reservation.slug];
      held := Noting(old(History()), View(), id).held;
      var _ := Record(id, current, reservation.slug);
      r := Renamed(true, current, reservation.slug);
    }
  }
}
