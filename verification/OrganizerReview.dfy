/** An organizer's documents, policy acceptances, review decision and payment-account columns
    (apps/api/src/modules/organizer/document-service.ts, apps/api/src/modules/organizer/policy-service.ts,
    apps/api/src/modules/admin/verification-service.ts). Each operation is one route, taken as one step. */
module OrganizerReview {
  import opened Options
  import opened Sets

  datatype DocType = Aadhaar | Pan | GstCertificate | BankProof
  datatype DocStatus = PendingUpload | Uploaded | Replaced | Deleted
  datatype Doc = Doc(documentType: DocType, status: DocStatus)
  type DocId = int

  datatype Policy = PlatformTerms | RefundPolicy
  datatype Consent = Consent(policy: Policy, version: string, acceptedAt: int)

  datatype VerificationStatus = PendingDocuments | PendingReview | Approved | Rejected
  datatype AccountStatus = NotStarted | AccountPending | Active | NeedsAction | Suspended | Failed

  datatype Organizer = Organizer(
    verificationStatus: VerificationStatus, isVerified: bool, rejectionReason: Option<string>,
    submittedForReviewAt: Option<int>, reviewedAt: Option<int>, docs: map<DocId, Doc>, consents: seq<Consent>,
    accountStatus: AccountStatus, accountId: Option<string>)

  const NEW_ORGANIZER := Organizer(PendingDocuments, false, None, None, None, map[], [], NotStarted, None)
  const REQUIRED_DOCUMENT_COUNT := 4

  /** The server's current version of each policy; a deployment may change it. */
  datatype Versions = Versions(platformTerms: string, refundPolicy: string)

  const CURRENT := Versions("1.0", "1.0")

  function VersionOf(v: Versions, p: Policy): string {
    match p case PlatformTerms => v.platformTerms case RefundPolicy => v.refundPolicy
  }

  // ---------- Policy acceptance ----------

  /** The acceptance row getPolicyStatus keeps: a later row replaces it only with a strictly later instant. */
  function Latest(rows: seq<Consent>, p: Policy): Option<Consent> {
    if rows == [] then None else
    var before := Latest(rows[..|rows| - 1], p);
    var row := rows[|rows| - 1];
    if row.policy == p && (before.None? || row.acceptedAt > before.value.acceptedAt) then Some(row) else before
  }

  predicate IsAccepted(v: Versions, rows: seq<Consent>, p: Policy) {
    Latest(rows, p).Some? && Latest(rows, p).value.version == VersionOf(v, p)
  }

  predicate AllAccepted(v: Versions, rows: seq<Consent>) {
    IsAccepted(v, rows, PlatformTerms) && IsAccepted(v, rows, RefundPolicy)
  }

  predicate HasCurrentRow(v: Versions, rows: seq<Consent>, p: Policy) {
    exists r | r in rows :: r.policy == p && r.version == VersionOf(v, p)
  }

  /** The status map is built in one pass over the rows. */
  method GetPolicyStatus(v: Versions, rows: seq<Consent>) returns (latest: map<Policy, Consent>, allRequiredAccepted: bool)
    ensures forall p :: Latest(rows, p) == if p in latest then Some(latest[p]) else None
    ensures allRequiredAccepted <==> AllAccepted(v, rows)
  {
    latest := map[];
    for i := 0 to |rows|
      invariant forall p :: Latest(rows[..i], p) == if p in latest then Some(latest[p]) else None
    {
      var record := rows[i];
      assert rows[..i + 1][..i] == rows[..i];
      if record.policy !in latest || record.acceptedAt > latest[record.policy].acceptedAt {
        latest := latest[record.policy := record];
      }
    }
    assert rows[..|rows|] == rows;
    allRequiredAccepted := true;
    if PlatformTerms !in latest || latest[PlatformTerms].version != VersionOf(v, PlatformTerms) {
      allRequiredAccepted := false;
    }
    if RefundPolicy !in latest || latest[RefundPolicy].version != VersionOf(v, RefundPolicy) {
      allRequiredAccepted := false;
    }
  }

  predicate Distinct(types: seq<Policy>) {
    forall i, j :: 0 <= i < j < |types| ==> types[i] != types[j]
  }

  /** The rows inserted for the types that have no row at the current version. */
  function NewRows(v: Versions, rows: seq<Consent>, types: seq<Policy>, now: int): seq<Consent> {
    if types == [] then [] else
    (if HasCurrentRow(v, rows, types[0]) then [] else [Consent(types[0], VersionOf(v, types[0]), now)]) + NewRows(v, rows, types[1..], now)
  }

  /** A request repeating a type, or naming none, does not pass its schema. */
  function Accept(v: Versions, rows: seq<Consent>, types: seq<Policy>, now: int): seq<Consent> {
    if types == [] || !Distinct(types) then rows else rows + NewRows(v, rows, types, now)
  }

  lemma {:induction false} LatestOf(rows: seq<Consent>, p: Policy)
    ensures match Latest(rows, p)
      case None => forall r :: r in rows ==> r.policy != p
      case Some(best) =>
        && best in rows && best.policy == p && (forall r :: r in rows && r.policy == p ==> r.acceptedAt <= best.acceptedAt)
        && exists i :: FirstAt(rows, p, best, i)
  {
    if rows != [] {
      var n := |rows| - 1;
      LatestOf(rows[..n], p);
      assert rows == rows[..n] + [rows[n]];
      var before, best := Latest(rows[..n], p), Latest(rows, p);
      if before.Some? && best == before {
        var i :| FirstAt(rows[..n], p, best.value, i);
        assert FirstAt(rows, p, best.value, i);
      } else if best.Some? {
        assert FirstAt(rows, p, best.value, n);
      }
    }
  }

  /** The row at i is the first of its policy with its instant. */
  ghost predicate FirstAt(rows: seq<Consent>, p: Policy, best: Consent, i: int) {
    0 <= i < |rows| && rows[i] == best && forall j :: 0 <= j < i && rows[j].policy == p ==> rows[j].acceptedAt < best.acceptedAt
  }

  lemma {:induction false} NewRowsAre(v: Versions, rows: seq<Consent>, types: seq<Policy>, now: int)
    ensures forall r :: r in NewRows(v, rows, types, now) <==>
      (r.policy in types && !HasCurrentRow(v, rows, r.policy) && r == Consent(r.policy, VersionOf(v, r.policy), now))
  {
    if types != [] {
      NewRowsAre(v, rows, types[1..], now);
    }
  }

  /** No row at the current version lies under a later row of another version. */
  predicate Unburied(v: Versions, rows: seq<Consent>, p: Policy) {
    HasCurrentRow(v, rows, p) ==> IsAccepted(v, rows, p)
  }

  /** Accepting a policy shows it as accepted exactly when no current row is buried: the guard that skips the insert
      looks at any row, the status at the latest one. */
  lemma AcceptTakesEffectIff(v: Versions, rows: seq<Consent>, types: seq<Policy>, now: int, p: Policy)
    requires Distinct(types) && p in types && forall r :: r in rows ==> r.acceptedAt < now
    ensures IsAccepted(v, Accept(v, rows, types, now), p) <==> Unburied(v, rows, p)
  {
    var rows' := Accept(v, rows, types, now);
    NewRowsAre(v, rows, types, now);
    LatestOf(rows', p);
    if HasCurrentRow(v, rows, p) {
      NothingNew(rows, NewRows(v, rows, types, now), p);
    } else {
      assert Consent(p, VersionOf(v, p), now) in rows';
    }
  }

  lemma {:induction false} NothingNew(rows: seq<Consent>, more: seq<Consent>, p: Policy)
    requires forall r :: r in more ==> r.policy != p
    ensures Latest(rows + more, p) == Latest(rows, p)
  {
    if more == [] {
      assert rows + more == rows;
    } else {
      var n := |more| - 1;
      assert (rows + more)[..|rows + more| - 1] == rows + more[..n];
      NothingNew(rows, more[..n], p);
    }
  }

  /** Accepting some policies leaves the others as they were. */
  lemma AcceptLeavesOthers(v: Versions, rows: seq<Consent>, types: seq<Policy>, now: int, p: Policy)
    requires p !in types
    ensures IsAccepted(v, Accept(v, rows, types, now), p) == IsAccepted(v, rows, p)
  {
    NewRowsAre(v, rows, types, now);
    NothingNew(rows, NewRows(v, rows, types, now), p);
  }

  // ---------- Acceptance across deployments ----------

  /** One user's rows while deployments change the versions. Acceptances come at increasing instants. */
  datatype PolicyState = PolicyState(versions: Versions, rows: seq<Consent>, clock: int)
  datatype PolicyStep = Deploy(versions: Versions) | AcceptNow(types: seq<Policy>, elapsed: nat)

  function PolicyNext(s: PolicyState, step: PolicyStep): PolicyState {
    match step
    case Deploy(v) => s.(versions := v)
    case AcceptNow(types, elapsed) =>
      var now := s.clock + elapsed + 1;
      s.(rows := Accept(s.versions, s.rows, types, now), clock := now)
  }

  function PolicyRun(s: PolicyState, steps: seq<PolicyStep>): PolicyState
    decreases |steps|
  {
    if steps == [] then s else PolicyRun(PolicyNext(s, steps[0]), steps[1..])
  }

  ghost predicate PolicyOk(s: PolicyState) {
    && (forall r :: r in s.rows ==> r.acceptedAt <= s.clock)
    && (forall p :: Unburied(s.versions, s.rows, p))
  }

  /** A deployment that takes no policy back to a version someone has accepted before. */
  ghost predicate NoRollback(s: PolicyState, step: PolicyStep) {
    step.Deploy? ==>
      forall p :: VersionOf(step.versions, p) == VersionOf(s.versions, p) || !HasCurrentRow(step.versions, s.rows, p)
  }

  ghost predicate NeverRollsBack(s: PolicyState, steps: seq<PolicyStep>)
    decreases |steps|
  {
    steps == [] || (NoRollback(s, steps[0]) && NeverRollsBack(PolicyNext(s, steps[0]), steps[1..]))
  }

  lemma OthersStayUnburied(v: Versions, rows: seq<Consent>, types: seq<Policy>, now: int, p: Policy)
    requires p !in types && Unburied(v, rows, p)
    ensures Unburied(v, Accept(v, rows, types, now), p)
  {
    AcceptLeavesOthers(v, rows, types, now, p);
    NewRowsAre(v, rows, types, now);
  }

  lemma NamedBecomeUnburied(v: Versions, rows: seq<Consent>, types: seq<Policy>, now: int, p: Policy)
    requires Distinct(types) && p in types && Unburied(v, rows, p) && forall r :: r in rows ==> r.acceptedAt < now
    ensures Unburied(v, Accept(v, rows, types, now), p)
  {
    AcceptTakesEffectIff(v, rows, types, now, p);
  }

  lemma AcceptKeepsOk(s: PolicyState, types: seq<Policy>, elapsed: nat)
    requires PolicyOk(s) && types != [] && Distinct(types)
    ensures PolicyOk(PolicyNext(s, AcceptNow(types, elapsed)))
  {
    var now := s.clock + elapsed + 1;
    var rows' := Accept(s.versions, s.rows, types, now);
    forall r | r in rows' ensures r.acceptedAt <= now {
      NewRowsAre(s.versions, s.rows, types, now);
    }
    forall p | p in types ensures Unburied(s.versions, rows', p) {
      NamedBecomeUnburied(s.versions, s.rows, types, now, p);
    }
    forall p | p !in types ensures Unburied(s.versions, rows', p) {
      OthersStayUnburied(s.versions, s.rows, types, now, p);
    }
    assert PolicyNext(s, AcceptNow(types, elapsed)) == PolicyState(s.versions, rows', now);
  }

  lemma DeployKeepsOk(s: PolicyState, v: Versions)
    requires PolicyOk(s) && NoRollback(s, Deploy(v))
    ensures PolicyOk(PolicyNext(s, Deploy(v)))
  {
    forall p ensures Unburied(v, s.rows, p) {
      assert Unburied(s.versions, s.rows, p);
    }
  }

  lemma PolicyStepKeepsOk(s: PolicyState, step: PolicyStep)
    requires PolicyOk(s) && NoRollback(s, step)
    ensures PolicyOk(PolicyNext(s, step))
  {
    match step
    case Deploy(v) => DeployKeepsOk(s, v);
    case AcceptNow(types, elapsed) => if types != [] && Distinct(types) { AcceptKeepsOk(s, types, elapsed); }
  }

  lemma {:induction false} PolicyRunKeepsOk(s: PolicyState, steps: seq<PolicyStep>)
    requires PolicyOk(s) && NeverRollsBack(s, steps)
    ensures PolicyOk(PolicyRun(s, steps))
    decreases |steps|
  {
    if steps != [] {
      PolicyStepKeepsOk(s, steps[0]);
      PolicyRunKeepsOk(PolicyNext(s, steps[0]), steps[1..]);
    }
  }

  /** Over every history of deployments and acceptances without a rollback, an acceptance always takes effect. */
  lemma AcceptTakesEffectWithoutRollback(s: PolicyState, steps: seq<PolicyStep>, types: seq<Policy>, now: int, p: Policy)
    requires PolicyOk(s) && NeverRollsBack(s, steps) && Distinct(types) && p in types && now > PolicyRun(s, steps).clock
    ensures var s' := PolicyRun(s, steps); IsAccepted(s'.versions, Accept(s'.versions, s'.rows, types, now), p)
  {
    PolicyRunKeepsOk(s, steps);
    var s' := PolicyRun(s, steps);
    AcceptTakesEffectIff(s'.versions, s'.rows, types, now, p);
  }

  function Raise(v: Versions, p: Policy, version: string): Versions {
    match p case PlatformTerms => v.(platformTerms := version) case RefundPolicy => v.(refundPolicy := version)
  }

  lemma AcceptOnce(s: PolicyState, p: Policy, elapsed: nat)
    requires !HasCurrentRow(s.versions, s.rows, p)
    ensures PolicyNext(s, AcceptNow([p], elapsed)) ==
      PolicyState(s.versions, s.rows + [Consent(p, VersionOf(s.versions, p), s.clock + elapsed + 1)], s.clock + elapsed + 1)
  {
    assert [p][1..] == [];
    assert NewRows(s.versions, s.rows, [p], s.clock + elapsed + 1) == [Consent(p, VersionOf(s.versions, p), s.clock + elapsed + 1)];
  }

  lemma AcceptAgain(s: PolicyState, p: Policy, elapsed: nat)
    requires HasCurrentRow(s.versions, s.rows, p)
    ensures PolicyNext(s, AcceptNow([p], elapsed)) == s.(clock := s.clock + elapsed + 1)
  {
    assert [p][1..] == [];
    assert NewRows(s.versions, s.rows, [p], s.clock + elapsed + 1) == [];
  }

  lemma FirstAcceptance(s: PolicyState, p: Policy, elapsed: nat)
    requires s.rows == []
    ensures var s' := PolicyNext(s, AcceptNow([p], elapsed)); var first := Consent(p, VersionOf(s.versions, p), s'.clock);
      s' == PolicyState(s.versions, [first], s.clock + elapsed + 1) && IsAccepted(s.versions, [first], p)
  {
    AcceptOnce(s, p, elapsed);
    LatestOfOne(Consent(p, VersionOf(s.versions, p), s.clock + elapsed + 1));
  }

  lemma SecondAcceptance(s: PolicyState, first: Consent, elapsed: nat)
    requires s.rows == [first] && first.acceptedAt <= s.clock && first.version != VersionOf(s.versions, first.policy)
    ensures var s' := PolicyNext(s, AcceptNow([first.policy], elapsed));
      var second := Consent(first.policy, VersionOf(s.versions, first.policy), s'.clock);
      && s' == PolicyState(s.versions, [first, second], s.clock + elapsed + 1)
      && Latest([first, second], first.policy) == Some(second)
  {
    AcceptOnce(s, first.policy, elapsed);
    LatestOfTwo(first, Consent(first.policy, VersionOf(s.versions, first.policy), s.clock + elapsed + 1));
  }

  /** With a rollback it fails for good: take any policy, accepted, bumped, accepted again and rolled back. However often it
      is accepted after that, nothing is inserted and it shows as not accepted. */
  lemma RollbackBlocksAcceptance(s0: PolicyState, p: Policy, bumped: string, t1: nat, t2: nat, t3: nat)
    requires s0.rows == [] && bumped != VersionOf(s0.versions, p)
    ensures var s1 := PolicyNext(s0, AcceptNow([p], t1));
      var s2 := PolicyNext(PolicyNext(s1, Deploy(Raise(s0.versions, p, bumped))), AcceptNow([p], t2));
      var s3 := PolicyNext(s2, Deploy(s0.versions));
      && IsAccepted(s1.versions, s1.rows, p) && IsAccepted(s2.versions, s2.rows, p)
      && !IsAccepted(s3.versions, s3.rows, p) && PolicyNext(s3, AcceptNow([p], t3)) == s3.(clock := s3.clock + t3 + 1)
  {
    var s1 := PolicyNext(s0, AcceptNow([p], t1));
    FirstAcceptance(s0, p, t1);
    var first := s1.rows[0];
    var raised := PolicyNext(s1, Deploy(Raise(s0.versions, p, bumped)));
    SecondAcceptance(raised, first, t2);
    var s3 := PolicyNext(PolicyNext(raised, AcceptNow([p], t2)), Deploy(s0.versions));
    assert first in s3.rows;
    AcceptAgain(s3, p, t3);
  }

  lemma LatestOfOne(r: Consent)
    ensures Latest([r], r.policy) == Some(r)
  {
    assert [r][..0] == [];
    assert Latest([], r.policy) == None;
  }

  lemma LatestOfTwo(r: Consent, later: Consent)
    requires r.policy == later.policy && r.acceptedAt < later.acceptedAt
    ensures Latest([r, later], r.policy) == Some(later)
  {
    assert [r, later][..1] == [r];
    LatestOfOne(r);
  }

  // ---------- Readiness for review ----------

  function UploadedTypes(o: Organizer): set<DocType> {
    set d | d in o.docs && o.docs[d].status == Uploaded :: o.docs[d].documentType
  }

  predicate Ready(o: Organizer) {
    |UploadedTypes(o)| >= REQUIRED_DOCUMENT_COUNT && AllAccepted(CURRENT, o.consents)
  }

  predicate HasUploaded(o: Organizer, t: DocType) {
    exists d | d in o.docs :: o.docs[d] == Doc(t, Uploaded)
  }

  /** Counting uploaded types is asking for each of the four. */
  lemma FourTypesUploaded(o: Organizer)
    ensures |UploadedTypes(o)| >= REQUIRED_DOCUMENT_COUNT <==> forall t :: HasUploaded(o, t)
  {
    var all := {Aadhaar, Pan, GstCertificate, BankProof};
    var types := UploadedTypes(o);
    forall t: DocType ensures t in all {
      match t case Aadhaar => case Pan => case GstCertificate => case BankProof =>
    }
    SubsetSize(types, all);
    forall t ensures HasUploaded(o, t) <==> t in types {
    }
    if forall t :: HasUploaded(o, t) {
      assert types == all;
    }
  }

  // ---------- Operations ----------

  /** maybeUpdateOrganizerVerificationStatus. */
  function MaybeUpdateStatus(o: Organizer, now: int): Organizer {
    if o.verificationStatus == Approved then o
    else if Ready(o) && (o.verificationStatus == PendingDocuments || o.verificationStatus == Rejected) then
      o.(verificationStatus := PendingReview, submittedForReviewAt := Some(now), reviewedAt := None, rejectionReason := None)
    else if !Ready(o) && o.verificationStatus == PendingReview then
      o.(verificationStatus := PendingDocuments, submittedForReviewAt := None, reviewedAt := None, rejectionReason := None)
    else o
  }

  datatype StoredObject = NoObject | TooLarge | Fits
  datatype Op = RequestDocument(doc: DocId, documentType: DocType) | ConfirmDocument(doc: DocId, stored: StoredObject)
    | DeleteDocument(doc: DocId) | AcceptPolicies(types: seq<Policy>) | Approve | Reject(reason: string)
  datatype Outcome = Done | NotFound | Invalid | Conflict

  function ReplaceUploaded(docs: map<DocId, Doc>, t: DocType): map<DocId, Doc> {
    map d | d in docs :: if docs[d] == Doc(t, Uploaded) then Doc(t, Replaced) else docs[d]
  }

  /** The new row and the answer of one route call. A document identifier in use is never handed out again. */
  function Act(o: Organizer, op: Op, now: int): (Organizer, Outcome) {
    match op
    case RequestDocument(d, t) =>
      if d in o.docs then (o, Conflict) else (o.(docs := o.docs[d := Doc(t, PendingUpload)]), Done)
    case ConfirmDocument(d, stored) =>
      if d !in o.docs || o.docs[d].status != PendingUpload then (o, NotFound)
      else if stored == NoObject then (o, Invalid)
      else if stored == TooLarge then (o.(docs := o.docs[d := o.docs[d].(status := Deleted)]), Invalid)
      else
        var docs := ReplaceUploaded(o.docs, o.docs[d].documentType)[d := o.docs[d].(status := Uploaded)];
        (MaybeUpdateStatus(o.(docs := docs), now), Done)
    case DeleteDocument(d) =>
      if d !in o.docs || o.docs[d].status !in {PendingUpload, Uploaded} then (o, NotFound)
      else (MaybeUpdateStatus(o.(docs := o.docs[d := o.docs[d].(status := Deleted)]), now), Done)
    case AcceptPolicies(types) =>
      if types == [] || !Distinct(types) then (o, Invalid)
      else (MaybeUpdateStatus(o.(consents := Accept(CURRENT, o.consents, types, now)), now), Done)
    case Approve =>
      if o.verificationStatus != PendingReview then (o, Conflict)
      else (o.(verificationStatus := Approved, isVerified := true, reviewedAt := Some(now), accountStatus := NotStarted), Done)
    case Reject(reason) =>
      if o.verificationStatus != PendingReview then (o, Conflict)
      else (o.(verificationStatus := Rejected, isVerified := false, reviewedAt := Some(now), rejectionReason := Some(reason)), Done)
  }

  // ---------- Invariant ----------

  ghost predicate OnePerType(docs: map<DocId, Doc>) {
    forall a, b :: a in docs && b in docs && docs[a].status == Uploaded && docs[a] == docs[b] ==> a == b
  }

  ghost predicate CurrentRows(rows: seq<Consent>) {
    forall r :: r in rows ==> r.version == VersionOf(CURRENT, r.policy)
  }

  ghost predicate Inv(o: Organizer) {
    && (o.isVerified <==> o.verificationStatus == Approved)
    && (o.rejectionReason.Some? <==> o.verificationStatus == Rejected)
    && (o.verificationStatus == PendingReview ==> o.submittedForReviewAt.Some? && Ready(o))
    && (o.verificationStatus == PendingDocuments ==> o.submittedForReviewAt.None? && !Ready(o))
    && OnePerType(o.docs)
    && CurrentRows(o.consents)
  }

  lemma NewOrganizerInv()
    ensures Inv(NEW_ORGANIZER)
  {
    assert UploadedTypes(NEW_ORGANIZER) == {};
  }

  /** Only the request step's own rows count as uploaded types, so a pending or deleted row changes nothing. */
  lemma SameTypes(o: Organizer, o': Organizer)
    requires forall d :: d in o.docs && o.docs[d].status == Uploaded ==> d in o'.docs && o'.docs[d] == o.docs[d]
    requires forall d :: d in o'.docs && o'.docs[d].status == Uploaded ==> d in o.docs && o'.docs[d] == o.docs[d]
    ensures UploadedTypes(o) == UploadedTypes(o')
  {
  }

  /** Whatever changed, re-evaluation restores the link between status and readiness. */
  lemma MaybeUpdateRestores(o: Organizer, now: int)
    requires (o.isVerified <==> o.verificationStatus == Approved) && (o.rejectionReason.Some? <==> o.verificationStatus == Rejected)
    requires o.verificationStatus == PendingReview ==> o.submittedForReviewAt.Some?
    requires o.verificationStatus == PendingDocuments ==> o.submittedForReviewAt.None?
    requires OnePerType(o.docs) && CurrentRows(o.consents)
    ensures Inv(MaybeUpdateStatus(o, now))
  {
    var o' := MaybeUpdateStatus(o, now);
    assert Ready(o') == Ready(o) by { SameTypes(o, o'); }
  }

  lemma ActKeepsInv(o: Organizer, op: Op, now: int)
    requires Inv(o)
    ensures Inv(Act(o, op, now).0)
  {
    var o' := Act(o, op, now).0;
    match op
    case RequestDocument(d, t) => SameTypes(o, o');
    case ConfirmDocument(d, stored) =>
      if Act(o, op, now).1 == Done {
        var docs := ReplaceUploaded(o.docs, o.docs[d].documentType)[d := o.docs[d].(status := Uploaded)];
        MaybeUpdateRestores(o.(docs := docs), now);
      } else {
        SameTypes(o, o');
      }
    case DeleteDocument(d) =>
      if Act(o, op, now).1 == Done {
        MaybeUpdateRestores(o.(docs := o.docs[d := o.docs[d].(status := Deleted)]), now);
      }
    case AcceptPolicies(types) =>
      if Act(o, op, now).1 == Done {
        NewRowsAre(CURRENT, o.consents, types, now);
        MaybeUpdateRestores(o.(consents := Accept(CURRENT, o.consents, types, now)), now);
      }
    case Approve => SameTypes(o, o');
    case Reject(_) => SameTypes(o, o');
  }

  datatype Call = Call(op: Op, now: int)

  function History(o: Organizer, calls: seq<Call>): Organizer
    decreases |calls|
  {
    if calls == [] then o else History(Act(o, calls[0].op, calls[0].now).0, calls[1..])
  }

  /** Every serial history of document, policy and review calls keeps the status and its columns consistent. */
  lemma {:induction false} HistoryKeepsInv(o: Organizer, calls: seq<Call>)
    requires Inv(o)
    ensures Inv(History(o, calls))
    ensures o.verificationStatus == Approved ==> History(o, calls).verificationStatus == Approved
    decreases |calls|
  {
    if calls != [] {
      ActKeepsInv(o, calls[0].op, calls[0].now);
      HistoryKeepsInv(Act(o, calls[0].op, calls[0].now).0, calls[1..]);
    }
  }

  /** With the versions the server ships, an acceptance takes effect after every history. */
  lemma AcceptAlwaysTakesEffect(calls: seq<Call>, types: seq<Policy>, now: int, p: Policy)
    requires Distinct(types) && p in types
    ensures var o := Act(History(NEW_ORGANIZER, calls), AcceptPolicies(types), now).0;
      IsAccepted(CURRENT, o.consents, p)
  {
    NewOrganizerInv();
    HistoryKeepsInv(NEW_ORGANIZER, calls);
    var o := History(NEW_ORGANIZER, calls);
    var rows' := Accept(CURRENT, o.consents, types, now);
    NewRowsAre(CURRENT, o.consents, types, now);
    LatestOf(rows', p);
    if !HasCurrentRow(CURRENT, o.consents, p) {
      assert Consent(p, VersionOf(CURRENT, p), now) in rows';
    }
  }

  // ---------- What a call does ----------

  /** All four documents uploaded and both policies accepted. */
  ghost predicate Complete(o: Organizer) {
    (forall t :: HasUploaded(o, t)) && forall p :: IsAccepted(CURRENT, o.consents, p)
  }

  lemma CompleteIs(o: Organizer)
    ensures Complete(o) <==> Ready(o)
  {
    FourTypesUploaded(o);
    if AllAccepted(CURRENT, o.consents) {
      forall p ensures IsAccepted(CURRENT, o.consents, p) {
        match p case PlatformTerms => case RefundPolicy =>
      }
    }
  }

  /** When a call goes through. */
  ghost predicate Goes(o: Organizer, op: Op) {
    match op
    case RequestDocument(d, _) => d !in o.docs
    case ConfirmDocument(d, stored) => d in o.docs && o.docs[d].status == PendingUpload && stored == Fits
    case DeleteDocument(d) => d in o.docs && o.docs[d].status in {PendingUpload, Uploaded}
    case AcceptPolicies(types) =>
      types in {[PlatformTerms], [RefundPolicy], [PlatformTerms, RefundPolicy], [RefundPolicy, PlatformTerms]}
    case Approve => o.verificationStatus == PendingReview
    case Reject(_) => o.verificationStatus == PendingReview
  }

  lemma DistinctAre(types: seq<Policy>)
    ensures types != [] && Distinct(types) <==>
      types in {[PlatformTerms], [RefundPolicy], [PlatformTerms, RefundPolicy], [RefundPolicy, PlatformTerms]}
  {
    if |types| == 1 {
      assert types == [types[0]] && (types[0] == PlatformTerms || types[0] == RefundPolicy);
    } else if |types| == 2 {
      assert types == [types[0], types[1]];
    } else if |types| > 2 {
      assert types[0] == types[1] || types[1] == types[2] || types[0] == types[2];
    }
  }

  ghost predicate DocsAfter(o: Organizer, op: Op, o': Organizer) {
    match op
    case RequestDocument(d, t) => o'.docs == o.docs[d := Doc(t, PendingUpload)]
    case ConfirmDocument(d, _) =>
      && d in o.docs && o'.docs.Keys == o.docs.Keys && o'.docs[d] == Doc(o.docs[d].documentType, Uploaded)
      && forall x :: x in o.docs && x != d ==>
           o'.docs[x] == if o.docs[x] == Doc(o.docs[d].documentType, Uploaded) then Doc(o.docs[d].documentType, Replaced) else o.docs[x]
    case DeleteDocument(d) => d in o.docs && o'.docs == o.docs[d := Doc(o.docs[d].documentType, Deleted)]
    case _ => o'.docs == o.docs
  }

  ghost predicate ConsentsAfter(o: Organizer, op: Op, now: int, o': Organizer) {
    match op
    case AcceptPolicies(types) =>
      && o.consents <= o'.consents && (forall i :: |o.consents| <= i < |o'.consents| ==> o'.consents[i].acceptedAt == now)
      && forall p :: IsAccepted(CURRENT, o'.consents, p) <==> p in types || IsAccepted(CURRENT, o.consents, p)
    case _ => o'.consents == o.consents
  }

  predicate SameReview(o: Organizer, o': Organizer) {
    && o'.verificationStatus == o.verificationStatus && o'.isVerified == o.isVerified && o'.rejectionReason == o.rejectionReason
    && o'.submittedForReviewAt == o.submittedForReviewAt && o'.reviewedAt == o.reviewedAt
  }

  /** The review columns after a call: an application becomes pending once it is complete, a decision is written down, and
      nothing else moves them. */
  ghost predicate ReviewAfter(o: Organizer, op: Op, now: int, o': Organizer) {
    match op
    case RequestDocument(_, _) => SameReview(o, o')
    case Approve =>
      o'.verificationStatus == Approved && o'.isVerified && o'.reviewedAt == Some(now) && o'.submittedForReviewAt == o.submittedForReviewAt
    case Reject(reason) =>
      && o'.verificationStatus == Rejected && o'.rejectionReason == Some(reason) && o'.reviewedAt == Some(now)
      && o'.submittedForReviewAt == o.submittedForReviewAt
    case _ =>
      if o.verificationStatus == Approved then SameReview(o, o')
      else if Complete(o') then
        o'.verificationStatus == PendingReview
        && (if o.verificationStatus == PendingReview then SameReview(o, o') else o'.submittedForReviewAt == Some(now) && o'.reviewedAt.None?)
      else if o.verificationStatus == PendingReview then o'.verificationStatus == PendingDocuments && o'.reviewedAt.None?
      else SameReview(o, o')
  }

  ghost predicate AccountAfter(o: Organizer, op: Op, o': Organizer) {
    o'.accountId == o.accountId && o'.accountStatus == if op.Approve? then NotStarted else o.accountStatus
  }

  lemma AcceptedAfter(o: Organizer, types: seq<Policy>, now: int, p: Policy)
    requires CurrentRows(o.consents) && Distinct(types)
    ensures IsAccepted(CURRENT, Accept(CURRENT, o.consents, types, now), p) <==> p in types || IsAccepted(CURRENT, o.consents, p)
  {
    var rows' := Accept(CURRENT, o.consents, types, now);
    if p in types {
      NewRowsAre(CURRENT, o.consents, types, now);
      LatestOf(rows', p);
      if !HasCurrentRow(CURRENT, o.consents, p) { assert Consent(p, VersionOf(CURRENT, p), now) in rows'; }
    } else {
      AcceptLeavesOthers(CURRENT, o.consents, types, now, p);
    }
  }

  lemma ConsentsTakeEffect(o: Organizer, op: Op, now: int)
    requires Inv(o) && Goes(o, op)
    ensures ConsentsAfter(o, op, now, Act(o, op, now).0)
  {
    if op.AcceptPolicies? {
      DistinctAre(op.types);
      NewRowsAre(CURRENT, o.consents, op.types, now);
      forall p ensures IsAccepted(CURRENT, Accept(CURRENT, o.consents, op.types, now), p) <==> p in op.types || IsAccepted(CURRENT, o.consents, p) {
        AcceptedAfter(o, op.types, now, p);
      }
    }
  }

  /** A call goes through exactly when its guard says so; then documents, acceptances, review columns and account are as stated.
      A call that does not go through changes nothing, except that an oversized upload ends its own document. */
  lemma ActTakesEffect(o: Organizer, op: Op, now: int)
    requires Inv(o)
    ensures var (o', outcome) := Act(o, op, now);
      && (outcome == Done <==> Goes(o, op))
      && (outcome == Done ==> DocsAfter(o, op, o') && ConsentsAfter(o, op, now, o') && ReviewAfter(o, op, now, o') && AccountAfter(o, op, o'))
      && (outcome != Done ==>
            o' == if op.ConfirmDocument? && op.stored == TooLarge && op.doc in o.docs && o.docs[op.doc].status == PendingUpload
                  then o.(docs := o.docs[op.doc := Doc(o.docs[op.doc].documentType, Deleted)]) else o)
  {
    var o' := Act(o, op, now).0;
    ActKeepsInv(o, op, now);
    CompleteIs(o');
    if op.AcceptPolicies? { DistinctAre(op.types); }
    if Goes(o, op) { ConsentsTakeEffect(o, op, now); }
  }
}
