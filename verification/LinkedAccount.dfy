/** The payment account of one organizer (apps/api/src/modules/payment/razorpay-account-service.ts): background jobs
    read the row, claim it by compare-and-set, call the payment API, and write the outcome unconditionally. */
module LinkedAccount {
  import opened Options
  import opened OrganizerReview

  type JobId = int

  /** A running job: it has read the row; or it has won the claim and the API call is open; or its success write was applied
      but not acknowledged, and the catch block is about to write the failure. */
  datatype Job = Fetched(accountId: Option<string>, status: AccountStatus) | Claimed | Failing
  datatype ApiOutcome = Disabled | Created(accountId: string, rawStatus: string) | Failure | Crash
  datatype JobStep = Fetch(job: JobId) | Claim(job: JobId) | Finish(job: JobId, outcome: ApiOutcome)
    | LoseReply(job: JobId, accountId: string, rawStatus: string)

  /** An organizer row with the jobs running for it. */
  datatype Desk = Desk(organizer: Organizer, jobs: map<JobId, Job>)

  function MapRazorpayStatus(rawStatus: string): AccountStatus {
    if rawStatus == "created" || rawStatus == "under_review" then AccountPending
    else if rawStatus == "activated" then Active
    else if rawStatus == "needs_clarification" then NeedsAction
    else if rawStatus == "suspended" then AccountStatus.Suspended
    else AccountPending
  }

  predicate Claimable(status: AccountStatus) {
    status == NotStarted || status == Failed || status == NeedsAction
  }

  predicate AlreadyLinked(job: Job)
    requires job.Fetched?
  {
    job.accountId.Some? && job.accountId.value != "" && (job.status == Active || job.status == AccountPending)
  }

  function WriteOutcome(o: Organizer, outcome: ApiOutcome): Organizer {
    match outcome
    case Disabled => o.(accountStatus := NotStarted)
    case Created(id, raw) => o.(accountId := Some(id), accountStatus := MapRazorpayStatus(if raw == "" then "created" else raw))
    case Failure => o.(accountStatus := Failed)
    case Crash => o
  }

  function Work(d: Desk, step: JobStep): Desk {
    match step
    case Fetch(j) =>
      if j in d.jobs then d else d.(jobs := d.jobs[j := Fetched(d.organizer.accountId, d.organizer.accountStatus)])
    case Claim(j) =>
      if j !in d.jobs || !d.jobs[j].Fetched? then d
      else if AlreadyLinked(d.jobs[j]) || !Claimable(d.organizer.accountStatus) then d.(jobs := d.jobs - {j})
      else Desk(d.organizer.(accountStatus := AccountPending), d.jobs[j := Claimed])
    case Finish(j, outcome) =>
      if j !in d.jobs || d.jobs[j].Fetched? then d
      else Desk(WriteOutcome(d.organizer, if d.jobs[j].Failing? && outcome != Crash then Failure else outcome), d.jobs - {j})
    case LoseReply(j, id, raw) =>
      if j !in d.jobs || !d.jobs[j].Claimed? then d
      else Desk(WriteOutcome(d.organizer, Created(id, raw)), d.jobs[j := Failing])
  }

  /** One step of either kind: a route on the row, or a job's next database access. */
  datatype DeskStep = Route(op: Op, now: int) | Background(step: JobStep)

  function Advance(d: Desk, step: DeskStep): Desk {
    match step
    case Route(op, now) => d.(organizer := Act(d.organizer, op, now).0)
    case Background(s) => Work(d, s)
  }

  function After(d: Desk, steps: seq<DeskStep>): Desk
    decreases |steps|
  {
    if steps == [] then d else After(Advance(d, steps[0]), steps[1..])
  }

  // ---------- What a job writes ----------

  /** The status each answer of the payment provider stands for. */
  predicate StandsFor(rawStatus: string, status: AccountStatus) {
    && (status == Active <==> rawStatus == "activated")
    && (status == NeedsAction <==> rawStatus == "needs_clarification")
    && (status == AccountStatus.Suspended <==> rawStatus == "suspended")
    && status in {Active, NeedsAction, AccountStatus.Suspended, AccountPending}
  }

  /** The last write of a job that holds the claim: the account's number and status as answered, or the failure; no other column. */
  lemma OutcomeWritten(d: Desk, j: JobId, outcome: ApiOutcome)
    requires j in d.jobs && d.jobs[j].Claimed?
    ensures var d' := Work(d, Finish(j, outcome));
      && d' == Desk(d.organizer.(accountStatus := d'.organizer.accountStatus, accountId := d'.organizer.accountId), d.jobs - {j})
      && match outcome
         case Created(id, raw) => d'.organizer.accountId == Some(id) && StandsFor(raw, d'.organizer.accountStatus)
         case Disabled => d'.organizer.accountId == d.organizer.accountId && d'.organizer.accountStatus == NotStarted
         case Failure => d'.organizer.accountId == d.organizer.accountId && d'.organizer.accountStatus == Failed
         case Crash => d'.organizer == d.organizer
  {
  }

  /** A job that has read the row wins the claim exactly when what it read was not a linked account and the row is free now;
      then the status is pending. A job that does not win it ends and leaves the row alone. */
  lemma ClaimWinsIff(d: Desk, j: JobId)
    requires j in d.jobs && d.jobs[j].Fetched?
    ensures var read, d' := d.jobs[j], Work(d, Claim(j));
      var linked := read.accountId.Some? && |read.accountId.value| > 0 && read.status in {Active, AccountPending};
      if !linked && d.organizer.accountStatus in {NotStarted, Failed, NeedsAction}
      then d' == Desk(d.organizer.(accountStatus := AccountPending), d.jobs[j := Claimed])
      else d' == Desk(d.organizer, d.jobs - {j})
  {
  }

  /** A job's write answers the reply "activated". */
  predicate Activates(d: Desk, step: DeskStep) {
    && step.Background? && (step.step.Finish? || step.step.LoseReply?)
    && step.step.job in d.jobs && d.jobs[step.step.job].Claimed?
    && (step.step.Finish? ==> step.step.outcome.Created? && step.step.outcome.rawStatus == "activated")
    && (step.step.LoseReply? ==> step.step.rawStatus == "activated")
  }

  /** Nothing else makes an account active. */
  lemma BecomesActiveIff(d: Desk, step: DeskStep)
    requires d.organizer.accountStatus != Active
    ensures Advance(d, step).organizer.accountStatus == Active <==> Activates(d, step)
  {
    if step.Background? && step.step.Finish? && step.step.job in d.jobs && d.jobs[step.step.job].Claimed? {
      OutcomeWritten(d, step.step.job, step.step.outcome);
    }
  }

  ghost predicate EverActivated(d: Desk, steps: seq<DeskStep>)
    decreases |steps|
  {
    steps != [] && (Activates(d, steps[0]) || EverActivated(Advance(d, steps[0]), steps[1..]))
  }

  /** Over any interleaving of routes and jobs, an account is active only if it was, or a job has had that reply. */
  lemma {:induction false} ActiveOnlyIfActivated(d: Desk, steps: seq<DeskStep>)
    requires After(d, steps).organizer.accountStatus == Active
    ensures d.organizer.accountStatus == Active || EverActivated(d, steps)
    decreases |steps|
  {
    if steps != [] && d.organizer.accountStatus != Active {
      BecomesActiveIff(d, steps[0]);
      ActiveOnlyIfActivated(Advance(d, steps[0]), steps[1..]);
    }
  }

  // ---------- One claim at a time ----------

  /** No job has a write on the row still to come. */
  ghost predicate NoneOpen(d: Desk) {
    forall j :: j in d.jobs ==> d.jobs[j].Fetched?
  }

  /** While a claim is open the status is pending, no second claim can be open, and no failure is about to be written. */
  ghost predicate Exclusive(d: Desk) {
    && (forall j :: j in d.jobs && !d.jobs[j].Fetched? ==> d.jobs[j].Claimed? && d.organizer.accountStatus == AccountPending)
    && (forall i, j :: i in d.jobs && j in d.jobs && d.jobs[i].Claimed? && d.jobs[j].Claimed? ==> i == j)
  }

  /** Every database write that is applied is also acknowledged. */
  predicate Acknowledged(step: DeskStep) {
    !(step.Background? && step.step.LoseReply?)
  }

  lemma WorkKeepsExclusive(d: Desk, step: JobStep)
    requires Exclusive(d) && !step.LoseReply?
    ensures Exclusive(Work(d, step))
    ensures d.organizer.accountStatus == Active ==> Work(d, step).organizer.accountStatus == Active
  {
  }

  lemma AdvanceKeepsExclusive(d: Desk, step: DeskStep)
    requires Exclusive(d) && Acknowledged(step)
    requires d.organizer.verificationStatus == Approved || NoneOpen(d) || !(step.Route? && step.op.Approve?)
    ensures Exclusive(Advance(d, step))
    ensures d.organizer.verificationStatus == Approved && d.organizer.accountStatus == Active ==>
      Advance(d, step).organizer.accountStatus == Active
    ensures d.organizer.verificationStatus == Approved ==> Advance(d, step).organizer.verificationStatus == Approved
  {
    if step.Background? { WorkKeepsExclusive(d, step.step); }
  }

  ghost predicate AllAcknowledged(steps: seq<DeskStep>) {
    forall i :: 0 <= i < |steps| ==> Acknowledged(steps[i])
  }

  lemma {:induction false} ActiveStays(d: Desk, steps: seq<DeskStep>)
    requires Exclusive(d) && d.organizer.verificationStatus == Approved && AllAcknowledged(steps)
    ensures var d' := After(d, steps); Exclusive(d') && d'.organizer.verificationStatus == Approved
    ensures d.organizer.accountStatus == Active ==> After(d, steps).organizer.accountStatus == Active
    decreases |steps|
  {
    if steps != [] {
      AdvanceKeepsExclusive(d, steps[0]);
      ActiveStays(Advance(d, steps[0]), steps[1..]);
    }
  }

  /** From here on, an active account can no longer be lost. */
  ghost predicate ActiveIsForGood(d: Desk) {
    forall before, after :: AllAcknowledged(before) && AllAcknowledged(after) && After(d, before).organizer.accountStatus == Active ==>
      After(After(d, before), after).organizer.accountStatus == Active
  }

  function WorkAll(d: Desk, steps: seq<JobStep>): Desk
    decreases |steps|
  {
    if steps == [] then d else WorkAll(Work(d, steps[0]), steps[1..])
  }

  lemma WorkThree(d: Desk, a: JobStep, b: JobStep, c: JobStep)
    ensures WorkAll(d, [a, b, c]) == Work(Work(Work(d, a), b), c)
  {
    assert [a, b, c][1..] == [b, c] && [b, c][1..] == [c] && [c][1..] == [];
    var d1 := Work(d, a);
    var d2 := Work(d1, b);
    assert WorkAll(d1, [b, c]) == WorkAll(d2, [c]);
    assert WorkAll(d2, [c]) == WorkAll(Work(d2, c), []);
  }

  function Alone(steps: seq<JobStep>): seq<DeskStep> {
    seq(|steps|, i requires 0 <= i < |steps| => Background(steps[i]))
  }

  lemma {:induction false} AfterAlone(d: Desk, steps: seq<JobStep>)
    ensures After(d, Alone(steps)) == WorkAll(d, steps)
    decreases |steps|
  {
    if steps != [] {
      assert Alone(steps)[1..] == Alone(steps[1..]);
      AfterAlone(Work(d, steps[0]), steps[1..]);
    }
  }

  /** A new job reads, claims and writes the provider's answer. */
  function WholeJob(j: JobId, id: string, rawStatus: string): seq<JobStep> {
    [Fetch(j), Claim(j), Finish(j, Created(id, rawStatus))]
  }

  /** Undisturbed, it links the account from exactly three states, a failure among them; from any other it changes nothing. */
  lemma WholeJobLinksIff(d: Desk, j: JobId, id: string, rawStatus: string)
    requires j !in d.jobs
    ensures var d' := WorkAll(d, WholeJob(j, id, rawStatus));
      if d.organizer.accountStatus in {NotStarted, Failed, NeedsAction}
      then d' == Desk(d.organizer.(accountId := Some(id), accountStatus := d'.organizer.accountStatus), d.jobs)
           && StandsFor(rawStatus, d'.organizer.accountStatus)
      else d' == d
  {
    WorkThree(d, Fetch(j), Claim(j), Finish(j, Created(id, rawStatus)));
    var d1 := Work(d, Fetch(j));
    assert d.jobs[j := Fetched(d.organizer.accountId, d.organizer.accountStatus)] - {j} == d.jobs;
    assert d.jobs[j := Claimed] - {j} == d.jobs;
    var d2 := Work(d1, Claim(j));
    if d.organizer.accountStatus in {NotStarted, Failed, NeedsAction} {
      assert d2 == Desk(d.organizer.(accountStatus := AccountPending), d.jobs[j := Claimed]);
      OutcomeWritten(d2, j, Created(id, rawStatus));
    }
  }

  function Activation(j: JobId, id: string): seq<JobStep> {
    WholeJob(j, id, "activated")
  }

  lemma ActivationActivates(d: Desk, j: JobId, id: string)
    requires d.organizer.accountStatus == NotStarted && j !in d.jobs
    ensures WorkAll(d, Activation(j, id)) == Desk(d.organizer.(accountStatus := Active, accountId := Some(id)), d.jobs)
  {
    WholeJobLinksIff(d, j, id, "activated");
  }

  /** The job that was already open then writes its failure. */
  lemma OpenJobLosesActive(d: Desk, open: JobId, other: JobId, id: string)
    requires d.organizer.accountStatus == NotStarted
    requires open in d.jobs && !d.jobs[open].Fetched? && other !in d.jobs
    ensures !ActiveIsForGood(d)
  {
    var first, last := Alone(Activation(other, id)), Alone([Finish(open, Failure)]);
    ActivationActivates(d, other, id);
    AfterAlone(d, Activation(other, id));
    var d' := After(d, first);
    AfterAlone(d', [Finish(open, Failure)]);
    assert [Finish(open, Failure)][1..] == [];
    assert WorkAll(d', [Finish(open, Failure)]) == Work(d', Finish(open, Failure));
    assert AllAcknowledged(first) && AllAcknowledged(last);
    assert After(After(d, first), last).organizer.accountStatus == Failed;
  }

  /** Right after an approval, the payment account is safe once active exactly when no job was open. */
  lemma ActiveForGoodIff(d: Desk, other: JobId)
    requires d.organizer.verificationStatus == Approved && d.organizer.accountStatus == NotStarted && other !in d.jobs
    ensures ActiveIsForGood(d) <==> NoneOpen(d)
  {
    if NoneOpen(d) {
      forall before, after | AllAcknowledged(before) && AllAcknowledged(after) && After(d, before).organizer.accountStatus == Active
        ensures After(After(d, before), after).organizer.accountStatus == Active
      {
        ActiveStays(d, before);
        ActiveStays(After(d, before), after);
      }
    } else {
      var open :| open in d.jobs && !d.jobs[open].Fetched?;
      OpenJobLosesActive(d, open, other, "");
    }
  }

  /** Without acknowledgements no approval is safe: a job that activates the account and loses the reply to that very write
      takes it back in its catch block. */
  lemma LostReplyTakesActiveBack(d: Desk, j: JobId, id: string)
    requires j in d.jobs && d.jobs[j].Claimed?
    ensures var d1 := Work(d, LoseReply(j, id, "activated"));
      d1.organizer.accountStatus == Active && Work(d1, Finish(j, Failure)).organizer.accountStatus == Failed
  {
    assert MapRazorpayStatus("activated") == Active;
  }
}
