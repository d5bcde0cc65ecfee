/** Slug reservation, renames and redirects over the two slug tables
    (the slug half of apps/api/src/modules/events/service.ts and
    apps/api/src/modules/organizer/slug-service.ts), with the two public lookups.

    Every query on slug_redirects carries the resource type and the unique index is on
    (type, old slug), so each kind of resource owns its own partition: one store per kind.
 */
module SlugTables {
  import opened Options
  import opened Sets
  import opened Slugs

  datatype Kind = EventKind | OrganizerKind
  type Id = int
  datatype Redirect = Redirect(newSlug: string, resourceId: Id)

  /** The resource table's slug column and the redirect rows keyed by old slug. */
  datatype Tables = Tables(active: map<Id, string>, redirects: map<string, Redirect>)

  const ORGANIZER_SLUG_MAX_LENGTH: nat := 80
  const ORGANIZER_SLUG_FALLBACK := "organizer"
  const RESERVED_ORGANIZER_SLUGS: set<string> := {
    "admin", "api", "auth", "www", "app", "help", "health", "support", "ready", "org", "organizer", "organizers",
    "event", "events", "search", "explore", "dashboard", "settings", "profile", "my", "book", "login", "logout",
    "lookup-booking", "register", "signup" }

  function MaxLength(kind: Kind): nat {
    if kind.EventKind? then EVENT_SLUG_MAX_LENGTH else ORGANIZER_SLUG_MAX_LENGTH
  }

  function Fallback(kind: Kind): string {
    if kind.EventKind? then EVENT_SLUG_FALLBACK else ORGANIZER_SLUG_FALLBACK
  }

  predicate IsReserved(kind: Kind, slug: string) {
    kind.OrganizerKind? && FlatMap(LowerCase, slug) in RESERVED_ORGANIZER_SLUGS
  }

  predicate Parses(kind: Kind, slug: string) {
    IsSlug(slug) && |slug| <= MaxLength(kind)
  }

  // ---------- Reservation ----------

  function BaseSlug(kind: Kind, title: string): string {
    Normalize(title, Fallback(kind), MaxLength(kind))
  }

  function Candidate(kind: Kind, base: string, attempt: nat): string
    requires 1 <= attempt <= MAX_SAFE_INTEGER
  {
    if attempt == 1 then base
    else
      CandidateFits(kind, base, attempt);
      AppendSuffix(base, attempt, Fallback(kind), MaxLength(kind)).slug
  }

  lemma CandidateFits(kind: Kind, base: string, attempt: nat)
    requires 1 <= attempt <= MAX_SAFE_INTEGER
    ensures AppendSuffix(base, attempt, Fallback(kind), MaxLength(kind)).Slug?
  {
    SuffixTextShort(attempt);
  }

  /** Some other resource holds the slug, as its current one or as an old one. */
  predicate TakenByOthers(t: Tables, slug: string, self: Option<Id>) {
    || (exists id | id in t.active :: t.active[id] == slug && self != Some(id))
    || (slug in t.redirects && self != Some(t.redirects[slug].resourceId))
  }

  predicate IsFree(t: Tables, kind: Kind, slug: string, self: Option<Id>) {
    !IsReserved(kind, slug) && !TakenByOthers(t, slug, self)
  }

  datatype Reservation = Reserved(slug: string) | Conflict | BadMaxAttempts

  /** The attempt the retry loop stops at, or maxAttempts + 1 when it runs out. */
  function FirstAttempt(t: Tables, kind: Kind, base: string, self: Option<Id>, from: nat, maxAttempts: nat): (n: nat)
    requires 1 <= from <= maxAttempts + 1 <= MAX_SAFE_INTEGER + 1
    ensures from <= n <= maxAttempts + 1
    ensures forall k :: from <= k < n ==> !IsFree(t, kind, Candidate(kind, base, k), self)
    ensures n <= maxAttempts ==> IsFree(t, kind, Candidate(kind, base, n), self)
    decreases maxAttempts + 1 - from
  {
    if from > maxAttempts || IsFree(t, kind, Candidate(kind, base, from), self) then from
    else FirstAttempt(t, kind, base, self, from + 1, maxAttempts)
  }

  function Reserve(t: Tables, kind: Kind, title: string, self: Option<Id>, maxAttempts: int): Reservation {
    if !(1 <= maxAttempts <= MAX_SAFE_INTEGER) then BadMaxAttempts
    else
      var n := FirstAttempt(t, kind, BaseSlug(kind, title), self, 1, maxAttempts);
      if n > maxAttempts then Conflict else Reserved(Candidate(kind, BaseSlug(kind, title), n))
  }

  ghost predicate IsFirstFree(t: Tables, kind: Kind, base: string, self: Option<Id>, n: nat) {
    && 1 <= n <= MAX_SAFE_INTEGER
    && IsFree(t, kind, Candidate(kind, base, n), self)
    && forall k :: 1 <= k < n ==> !IsFree(t, kind, Candidate(kind, base, k), self)
  }

  /** Reservation returns the first free candidate, and refuses exactly when every candidate is taken or reserved. */
  lemma ReserveFirstFree(t: Tables, kind: Kind, title: string, self: Option<Id>, maxAttempts: int)
    ensures var r := Reserve(t, kind, title, self, maxAttempts); var base := BaseSlug(kind, title);
      && (r.BadMaxAttempts? <==> !(1 <= maxAttempts <= MAX_SAFE_INTEGER))
      && (r.Reserved? ==> exists n :: 1 <= n <= maxAttempts && IsFirstFree(t, kind, base, self, n) && r.slug == Candidate(kind, base, n))
      && (r.Conflict? ==> forall k :: 1 <= k <= maxAttempts ==> !IsFree(t, kind, Candidate(kind, base, k), self))
  {
    if 1 <= maxAttempts <= MAX_SAFE_INTEGER {
      var n := FirstAttempt(t, kind, BaseSlug(kind, title), self, 1, maxAttempts);
      assert n <= maxAttempts ==> IsFirstFree(t, kind, BaseSlug(kind, title), self, n);
    }
  }

  lemma CandidateParses(kind: Kind, title: string, attempt: nat)
    requires 1 <= attempt <= MAX_SAFE_INTEGER
    ensures Parses(kind, Candidate(kind, BaseSlug(kind, title), attempt))
  {
    NormalizeIsSlug(title, Fallback(kind), MaxLength(kind));
    CandidateFits(kind, BaseSlug(kind, title), attempt);
    AppendIsSlug(BaseSlug(kind, title), attempt, Fallback(kind), MaxLength(kind));
  }

  /** The candidates in order: the title's own slug, then the same cut short and numbered 2, 3 and so on. */
  lemma CandidateIs(kind: Kind, title: string, attempt: nat)
    requires 1 <= attempt <= MAX_SAFE_INTEGER
    ensures var base := BaseSlug(kind, title); var c := Candidate(kind, base, attempt);
      if attempt == 1 then LongestSlugPrefix(Source(title, Fallback(kind)), MaxLength(kind), c)
      else exists cut, digits :: Numbered(base, MaxLength(kind), attempt, c, cut, digits)
  {
    NormalizeIsLongest(title, Fallback(kind), MaxLength(kind));
    if attempt > 1 {
      var cut, digits := NumberedCandidate(kind, BaseSlug(kind, title), attempt);
    }
  }

  lemma NumberedCandidate(kind: Kind, base: string, attempt: nat) returns (cut: string, digits: string)
    requires 2 <= attempt <= MAX_SAFE_INTEGER && IsSlug(base)
    ensures Numbered(base, MaxLength(kind), attempt, Candidate(kind, base, attempt), cut, digits)
  {
    CandidateFits(kind, base, attempt);
    cut, digits := AppendToSlug(base, attempt, Fallback(kind), MaxLength(kind));
  }

  /** A reserved slug always parses, is not a reserved name and is not held by anyone else. */
  lemma ReserveIsFree(t: Tables, kind: Kind, title: string, self: Option<Id>, maxAttempts: int)
    ensures var r := Reserve(t, kind, title, self, maxAttempts);
      r.Reserved? ==> IsFree(t, kind, r.slug, self) && Parses(kind, r.slug)
  {
    var r := Reserve(t, kind, title, self, maxAttempts);
    if r.Reserved? {
      var n := FirstAttempt(t, kind, BaseSlug(kind, title), self, 1, maxAttempts);
      CandidateParses(kind, title, n);
    }
  }

  lemma CandidatesDistinct(kind: Kind, base: string, i: nat, j: nat)
    requires 2 <= i <= MAX_SAFE_INTEGER && 2 <= j <= MAX_SAFE_INTEGER
    ensures Candidate(kind, base, i) == Candidate(kind, base, j) ==> i == j
  {
    CandidateFits(kind, base, i);
    CandidateFits(kind, base, j);
    if Candidate(kind, base, i) == Candidate(kind, base, j) {
      AppendInjective(base, base, i, j, Fallback(kind), MaxLength(kind));
    }
  }

  lemma {:induction false} LowerCaseKeepsLast(s: string)
    requires s != "" && IsWordChar(s[|s| - 1])
    ensures var r := FlatMap(LowerCase, s); r != "" && r[|r| - 1] == s[|s| - 1]
  {
    if |s| > 1 {
      assert s[1..][|s| - 2] == s[|s| - 1];
      LowerCaseKeepsLast(s[1..]);
    } else {
      assert FlatMap(LowerCase, s[1..]) == "";
    }
  }

  lemma DecimalEndsInDigit(n: nat)
    ensures var r := Decimal(n); r != "" && '0' <= r[|r| - 1] <= '9'
  {
  }

  lemma ReservedNamesEndInLetters(s: string)
    requires s in RESERVED_ORGANIZER_SLUGS
    ensures s != "" && !('0' <= s[|s| - 1] <= '9')
  {
  }

  /** Only the first candidate can be a reserved name: a suffixed one ends in a digit. */
  lemma SuffixedNotReserved(kind: Kind, base: string, attempt: nat)
    requires 2 <= attempt <= MAX_SAFE_INTEGER
    ensures !IsReserved(kind, Candidate(kind, base, attempt))
  {
    CandidateFits(kind, base, attempt);
    var s := Candidate(kind, base, attempt);
    DecimalEndsInDigit(attempt);
    assert s[|s| - 1] == Decimal(attempt)[|Decimal(attempt)| - 1];
    LowerCaseKeepsLast(s);
    if FlatMap(LowerCase, s) in RESERVED_ORGANIZER_SLUGS {
      ReservedNamesEndInLetters(FlatMap(LowerCase, s));
    }
  }

  ghost function SlugsOfOthers(t: Tables, self: Option<Id>): set<string> {
    (set id | id in t.active && self != Some(id) :: t.active[id])
    + (set s | s in t.redirects && self != Some(t.redirects[s].resourceId))
  }

  lemma TakenIsMember(t: Tables, slug: string, self: Option<Id>)
    ensures TakenByOthers(t, slug, self) <==> slug in SlugsOfOthers(t, self)
  {
  }

  lemma {:induction false} TakenSuffixes(t: Tables, kind: Kind, base: string, self: Option<Id>, n: nat) returns (seen: set<string>)
    requires 1 <= n <= MAX_SAFE_INTEGER
    requires forall k :: 1 <= k <= n ==> !IsFree(t, kind, Candidate(kind, base, k), self)
    ensures seen <= SlugsOfOthers(t, self) && |seen| == n - 1
    ensures forall s :: s in seen ==> exists k :: 2 <= k <= n && s == Candidate(kind, base, k)
  {
    if n == 1 {
      seen := {};
    } else {
      var fewer := TakenSuffixes(t, kind, base, self, n - 1);
      var s := Candidate(kind, base, n);
      SuffixedNotReserved(kind, base, n);
      TakenIsMember(t, s, self);
      if s in fewer {
        var k :| 2 <= k <= n - 1 && s == Candidate(kind, base, k);
        CandidatesDistinct(kind, base, k, n);
      }
      seen := fewer + {s};
    }
  }

  /** Reservation succeeds whenever others hold at most maxAttempts - 2 slugs. */
  lemma ReserveSucceeds(t: Tables, kind: Kind, title: string, self: Option<Id>, maxAttempts: int)
    requires 1 <= maxAttempts <= MAX_SAFE_INTEGER
    requires |SlugsOfOthers(t, self)| <= maxAttempts - 2
    ensures Reserve(t, kind, title, self, maxAttempts).Reserved?
  {
    ReserveFirstFree(t, kind, title, self, maxAttempts);
    if Reserve(t, kind, title, self, maxAttempts).Conflict? {
      var seen := TakenSuffixes(t, kind, BaseSlug(kind, title), self, maxAttempts);
      SubsetSize(seen, SlugsOfOthers(t, self));
    }
  }
}
