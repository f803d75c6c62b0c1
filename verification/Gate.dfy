/**
  The runtime authorization gate, cut at its awaits. A run is a small state machine: `Begin` up to the
  evidence read, `Resume` from the resolver's answer through the claim, `Settle` after the claim's
  promise. Every other step of the system may happen in between. Also the non-consuming dry run.
 */
module Gate {
  import opened Prelude
  import opened Approvals
  import opened ApprovalStores
  import opened Eligibility

  datatype Kind = Requested | EligibleSeen | ClaimedSeen | Created | RejectedSeen | ReplayedSeen | BlockedSeen

  datatype AuditState = Of(state: State) | EligibleState | AuthorizedNotExecuted

  /** The identifiers an audit event may show; anything that is no non-empty string is redacted. */
  datatype Subject = Subject(
    tenantId: string, workUnitId: string, actionPreviewId: string, approvalId: string, actionType: string)

  datatype Event = Event(kind: Kind, subject: Subject, state: AuditState, issues: seq<Issue>, evaluatedAt: string)

  function SafeId(s: Option<string>): string {
    if Truthy(s) then s.value else "redacted"
  }

  function RequestSubject(r: Request): Subject {
    Subject(SafeId(r.tenantId), SafeId(r.workUnitId), SafeId(r.actionPreviewId), SafeId(r.approvalId),
            SafeId(r.actionType))
  }

  function EvidenceSubject(e: Evidence): Subject {
    Subject(SafeId(Some(e.action.tenantId)), SafeId(Some(e.action.workUnitId)), SafeId(Some(e.action.actionPreviewId)),
            SafeId(Some(e.action.approvalId)), SafeId(Some(e.action.actionType)))
  }

  datatype Result = Authorized(receipt: Evidence) | Failed(state: State, issue: Issue)

  /** What became of the claim; the run learns it only when it settles. */
  datatype ClaimOutcome = Won | Lost | Broken

  datatype Phase =
    | AwaitingEvidence(requestedAt: string)
    | AwaitingClaim(evidence: Evidence, outcome: ClaimOutcome)
    | Done(result: Result)

  /** One run: its request, the audit buffer, every batch flushed so far, and where it waits. */
  datatype Run = Run(request: Request, events: seq<Event>, flushes: seq<seq<Event>>, phase: Phase)

  datatype ResolverAnswer = NoBundle | Resolved(bundle: Bundle) | ResolverThrew

  /** Push the last event, flush the buffer once, return the result. */
  function Finish(r: Run, e: Event, result: Result): Run {
    var buffer := r.events + [e];
    r.(events := buffer, flushes := r.flushes + [buffer], phase := Done(result))
  }

  function Reject(r: Run, kind: Kind, subject: Subject, state: State, issue: Issue, at: string): Run {
    Finish(r, Event(kind, subject, Of(state), [issue], at), Failed(state, issue))
  }

  /** The catch block. */
  function Caught(r: Run, at: string): Run {
    Reject(r, RejectedSeen, RequestSubject(r.request), Invalid, ValidationException, at)
  }

  function Begin(request: Request, session: Session, killSwitchOn: bool, now: string): Run {
    var s := RequestSubject(request);
    var r := Run(request, [Event(Requested, s, Of(NotReady), [], now)], [], AwaitingEvidence(now));
    if !RequestFieldsValid(request) then Reject(r, RejectedSeen, s, Invalid, InvalidInput, now)
    else if !HasExecutePermission(session) then Reject(r, RejectedSeen, s, Forbidden, RbacDenied, now)
    else if !killSwitchOn then Reject(r, BlockedSeen, s, Blocked, KillSwitchOff, now)
    else r
  }

  function ClaimFor(e: Evidence): ClaimInput {
    ClaimInput(e.action.tenantId, e.action.workUnitId, e.action.actionPreviewId, e.action.approvalId,
               e.action.actionType, e.action.targetHash, e.action.payloadHash, e.issuedAt)
  }

  /**
    The store a run was given: the direct store, the adapter of a fixed tenant, or a store whose promise
    rejects, before or after it wrote.
   */
  datatype StoreRef = Direct | Backed(tenant: string) | Failing(writes: bool)

  /** The claim takes the row's use. */
  predicate StoreTakes(t: TimeLib, rows: Rows, store: StoreRef, c: ClaimInput) {
    match store
    case Direct => ClaimWins(t, rows, c.tenantId, c)
    case Backed(tenant) => AdapterClaimWins(t, rows, tenant, c)
    case Failing(writes) => writes && ClaimWins(t, rows, c.tenantId, c)
  }

  function OutcomeOf(store: StoreRef, taken: bool): ClaimOutcome {
    if store.Failing? then Broken else if taken then Won else Lost
  }

  /** The store's own step: what the run will hear, and the rows. */
  function Claim(t: TimeLib, rows: Rows, store: StoreRef, c: ClaimInput): (ClaimOutcome, Rows) {
    var taken := StoreTakes(t, rows, store, c);
    (OutcomeOf(store, taken), if taken then ClaimRow(t, rows, c.tenantId, c) else rows)
  }

  /** The final checks in front of the claim; a run that passes them is about to claim. */
  function FinalChecks(r: Run, e: Evidence, session: Session, killSwitchOn: bool, claimAt: string): Run {
    var r := r.(events := r.events + [Event(EligibleSeen, EvidenceSubject(e), EligibleState, [], e.issuedAt)]);
    if !HasExecutePermission(session) then Reject(r, RejectedSeen, EvidenceSubject(e), Forbidden, RbacDenied, claimAt)
    else if !killSwitchOn then Reject(r, BlockedSeen, EvidenceSubject(e), Blocked, KillSwitchOff, claimAt)
    else r.(phase := AwaitingClaim(e, Lost))
  }

  /** Everything between the resolver's answer and the claim, except the claim itself. */
  function Recheck(p: Platform, r: Run, answer: ResolverAnswer, session: Session, killSwitchOn: bool,
                   claimAt: string, errorAt: string): Run
    requires r.phase.AwaitingEvidence?
  {
    var s := RequestSubject(r.request);
    var requestedAt := r.phase.requestedAt;
    if answer.ResolverThrew? then Caught(r, errorAt)
    else if answer.NoBundle? then Reject(r, RejectedSeen, s, NotReady, StateMissing, requestedAt)
    else if !session.record then Reject(r, RejectedSeen, s, Forbidden, ExecutorInvalid, requestedAt)
    else
      Evaluated(r, EvaluateResolved(p, answer.bundle, session, claimAt, r.request), session, killSwitchOn, claimAt,
                errorAt)
  }

  /** What the finalization's outcome makes of the run. */
  function Evaluated(r: Run, outcome: Outcome, session: Session, killSwitchOn: bool, claimAt: string,
                     errorAt: string): Run
  {
    match outcome
    case Threw => Caught(r, errorAt)
    case Ineligible(state, issue) =>
      var kind := if state == Blocked then BlockedSeen else RejectedSeen;
      Reject(r, kind, RequestSubject(r.request), state, issue, claimAt)
    case Eligible(e) => FinalChecks(r, e, session, killSwitchOn, claimAt)
  }

  predicate ReachesClaim(p: Platform, r: Run, answer: ResolverAnswer, session: Session, killSwitchOn: bool,
                         claimAt: string, errorAt: string)
    requires r.phase.AwaitingEvidence?
  {
    Recheck(p, r, answer, session, killSwitchOn, claimAt, errorAt).phase.AwaitingClaim?
  }

  /** The synchronous stretch ending in the claim: new run and new rows together. */
  function Resume(p: Platform, r: Run, store: StoreRef, rows: Rows, answer: ResolverAnswer, session: Session,
                  killSwitchOn: bool, claimAt: string, errorAt: string): (Run, Rows)
    requires r.phase.AwaitingEvidence?
  {
    var next := Recheck(p, r, answer, session, killSwitchOn, claimAt, errorAt);
    if !next.phase.AwaitingClaim? then (next, rows)
    else
      var e := next.phase.evidence;
      var (outcome, rows') := Claim(p.time, rows, store, ClaimFor(e));
      (next.(phase := AwaitingClaim(e, outcome)), rows')
  }

  /** The claim's promise settles or rejects; constructing the receipt may still throw. */
  function Settle(r: Run, receiptThrows: bool, errorAt: string): Run
    requires r.phase.AwaitingClaim?
  {
    var e := r.phase.evidence;
    match r.phase.outcome
    case Broken => Caught(r, errorAt)
    case Lost => Reject(r, ReplayedSeen, EvidenceSubject(e), UsedState, LinkageUsed, e.issuedAt)
    case Won =>
      var r := r.(events := r.events + [Event(ClaimedSeen, EvidenceSubject(e), EligibleState, [], e.issuedAt)]);
      if receiptThrows then Caught(r, errorAt)
      else Finish(r, Event(Created, EvidenceSubject(e), AuthorizedNotExecuted, [], e.issuedAt), Authorized(e))
  }

  // ---------- audit ----------

  function Kinds(events: seq<Event>): seq<Kind> {
    seq(|events|, i requires 0 <= i < |events| => events[i].kind)
  }

  /** Every event names the request's identifiers, and those before the end report no issue. */
  predicate Tells(e: Event, request: Request) {
    && e.subject == RequestSubject(request)
    && (e.kind == Requested ==> e.state == Of(NotReady) && e.issues == [])
    && (e.kind == EligibleSeen || e.kind == ClaimedSeen ==> e.state == EligibleState && e.issues == [])
    && (e.kind == Created ==> e.state == AuthorizedNotExecuted && e.issues == [])
  }

  /** An identifier is shown as it came if it is a non-empty string, and redacted otherwise. */
  lemma SubjectShows(r: Request)
    ensures var s := RequestSubject(r);
      && (s.tenantId == "redacted" || r.tenantId == Some(s.tenantId))
      && (s.workUnitId == "redacted" || r.workUnitId == Some(s.workUnitId))
      && (s.actionPreviewId == "redacted" || r.actionPreviewId == Some(s.actionPreviewId))
      && (s.approvalId == "redacted" || r.approvalId == Some(s.approvalId))
      && (s.actionType == "redacted" || r.actionType == Some(s.actionType))
      && (RequestFieldsValid(r) ==> r == Request(Some(s.tenantId), Some(s.workUnitId), Some(s.actionPreviewId),
                                                 Some(s.approvalId), Some(s.actionType)))
  {
  }

  /** Where a run stands determines its buffer so far, and a finished run has flushed exactly that, once. */
  predicate AuditInv(r: Run) {
    && (forall e <- r.events :: Tells(e, r.request))
    && match r.phase
       case AwaitingEvidence(_) => Kinds(r.events) == [Requested] && r.flushes == []
       case AwaitingClaim(e, _) =>
         && Kinds(r.events) == [Requested, EligibleSeen] && r.flushes == []
         && EvidenceSubject(e) == RequestSubject(r.request)
       case Done(result) =>
         && r.flushes == [r.events]
         && (if result.Authorized? then Kinds(r.events) == [Requested, EligibleSeen, ClaimedSeen, Created]
             else FailureTrail(Kinds(r.events), result))
  }

  /** The trails of failed runs; an exception cuts a trail short and closes it with a rejection. */
  predicate FailureTrail(ks: seq<Kind>, result: Result)
    requires result.Failed?
  {
    || (ks == [Requested, RejectedSeen] && result.state != Blocked)
    || (ks == [Requested, BlockedSeen] && result.state == Blocked)
    || (ks == [Requested, EligibleSeen, RejectedSeen] && result.state == Forbidden)
    || (ks == [Requested, EligibleSeen, RejectedSeen] && result == Failed(Invalid, ValidationException))
    || (ks == [Requested, EligibleSeen, BlockedSeen] && result.state == Blocked)
    || (ks == [Requested, EligibleSeen, ReplayedSeen] && result.state == UsedState)
    || (ks == [Requested, EligibleSeen, ClaimedSeen, RejectedSeen] && result == Failed(Invalid, ValidationException))
  }

  lemma BeginAudit(request: Request, session: Session, killSwitchOn: bool, now: string)
    ensures AuditInv(Begin(request, session, killSwitchOn, now))
  {
    var s := RequestSubject(request);
    var r := Run(request, [Event(Requested, s, Of(NotReady), [], now)], [], AwaitingEvidence(now));
    assert Kinds(r.events) == [Requested];
    if !RequestFieldsValid(request) {
      RejectAudit(r, RejectedSeen, s, Invalid, InvalidInput, now);
    } else if !HasExecutePermission(session) {
      RejectAudit(r, RejectedSeen, s, Forbidden, RbacDenied, now);
    } else if !killSwitchOn {
      RejectAudit(r, BlockedSeen, s, Blocked, KillSwitchOff, now);
    }
  }

  lemma RejectAudit(r: Run, kind: Kind, subject: Subject, state: State, issue: Issue, at: string)
    requires subject == RequestSubject(r.request) && forall e <- r.events :: Tells(e, r.request)
    requires r.flushes == [] && FailureTrail(Kinds(r.events) + [kind], Failed(state, issue))
    ensures AuditInv(Reject(r, kind, subject, state, issue, at))
  {
    var after := Reject(r, kind, subject, state, issue, at);
    assert Kinds(after.events) == Kinds(r.events) + [kind];
    var trail := Kinds(r.events) + [kind];
    assert kind == trail[|trail| - 1];
    assert kind == RejectedSeen || kind == BlockedSeen || kind == ReplayedSeen;
  }

  lemma FinalChecksAudit(r: Run, e: Evidence, session: Session, killSwitchOn: bool, claimAt: string)
    requires r.phase.AwaitingEvidence? && AuditInv(r) && EvidenceSubject(e) == RequestSubject(r.request)
    ensures AuditInv(FinalChecks(r, e, session, killSwitchOn, claimAt))
  {
    var s := EvidenceSubject(e);
    var r' := r.(events := r.events + [Event(EligibleSeen, s, EligibleState, [], e.issuedAt)]);
    assert Kinds(r'.events) == [Requested, EligibleSeen];
    if !HasExecutePermission(session) {
      RejectAudit(r', RejectedSeen, s, Forbidden, RbacDenied, claimAt);
    } else if !killSwitchOn {
      RejectAudit(r', BlockedSeen, s, Blocked, KillSwitchOff, claimAt);
    }
  }

  lemma RecheckAudit(p: Platform, r: Run, answer: ResolverAnswer, session: Session, killSwitchOn: bool,
                     claimAt: string, errorAt: string)
    requires p.Lawful() && r.phase.AwaitingEvidence? && AuditInv(r)
    ensures AuditInv(Recheck(p, r, answer, session, killSwitchOn, claimAt, errorAt))
  {
    var s := RequestSubject(r.request);
    if answer.ResolverThrew? {
      RejectAudit(r, RejectedSeen, s, Invalid, ValidationException, errorAt);
    } else if answer.NoBundle? {
      RejectAudit(r, RejectedSeen, s, NotReady, StateMissing, r.phase.requestedAt);
    } else if !session.record {
      RejectAudit(r, RejectedSeen, s, Forbidden, ExecutorInvalid, r.phase.requestedAt);
    } else {
      match EvaluateResolved(p, answer.bundle, session, claimAt, r.request)
      case Threw =>
        RejectAudit(r, RejectedSeen, s, Invalid, ValidationException, errorAt);
      case Ineligible(state, issue) =>
        RejectAudit(r, if state == Blocked then BlockedSeen else RejectedSeen, s, state, issue, claimAt);
      case Eligible(e) =>
        EligibleIsSound(p, answer.bundle, session, claimAt, r.request);
        FinalChecksAudit(r, e, session, killSwitchOn, claimAt);
    }
  }

  lemma ResumeAudit(p: Platform, r: Run, store: StoreRef, rows: Rows, answer: ResolverAnswer, session: Session,
                    killSwitchOn: bool, claimAt: string, errorAt: string)
    requires p.Lawful() && r.phase.AwaitingEvidence? && AuditInv(r)
    ensures AuditInv(Resume(p, r, store, rows, answer, session, killSwitchOn, claimAt, errorAt).0)
  {
    RecheckAudit(p, r, answer, session, killSwitchOn, claimAt, errorAt);
  }

  lemma SettleAudit(r: Run, receiptThrows: bool, errorAt: string)
    requires r.phase.AwaitingClaim? && AuditInv(r)
    ensures AuditInv(Settle(r, receiptThrows, errorAt))
  {
    var e, s := r.phase.evidence, RequestSubject(r.request);
    match r.phase.outcome
    case Broken => RejectAudit(r, RejectedSeen, s, Invalid, ValidationException, errorAt);
    case Lost => RejectAudit(r, ReplayedSeen, s, UsedState, LinkageUsed, e.issuedAt);
    case Won =>
      var claimed := r.(events := r.events + [Event(ClaimedSeen, s, EligibleState, [], e.issuedAt)]);
      assert Kinds(claimed.events) == [Requested, EligibleSeen, ClaimedSeen];
      if receiptThrows {
        RejectAudit(claimed, RejectedSeen, s, Invalid, ValidationException, errorAt);
      } else {
        CreatedAudit(claimed, e);
      }
  }

  lemma CreatedAudit(r: Run, e: Evidence)
    requires r.flushes == [] && Kinds(r.events) == [Requested, EligibleSeen, ClaimedSeen]
    requires EvidenceSubject(e) == RequestSubject(r.request)
    requires forall event <- r.events :: Tells(event, r.request)
    ensures var last := Event(Created, EvidenceSubject(e), AuthorizedNotExecuted, [], e.issuedAt);
      AuditInv(Finish(r, last, Authorized(e)))
  {
    var last := Event(Created, EvidenceSubject(e), AuthorizedNotExecuted, [], e.issuedAt);
    assert Kinds(r.events + [last]) == Kinds(r.events) + [Created];
  }

  // ---------- why a run ends as it does ----------

  datatype Cause =
    | InvalidRequest | ForbiddenEarly | SwitchedOffEarly
    | ResolverFailed | NoEvidence | NoSession | EvaluationFailed | NotEligible(state: State, issue: Issue)
    | ForbiddenLate | SwitchedOffLate
    | ClaimFailed | ClaimRefused | ReceiptFailed

  /** The answer that each cause is given. */
  function ResultOf(c: Cause): Result {
    match c
    case InvalidRequest => Failed(Invalid, InvalidInput)
    case NoEvidence => Failed(NotReady, StateMissing)
    case NoSession => Failed(Forbidden, ExecutorInvalid)
    case NotEligible(state, issue) => Failed(state, issue)
    case ClaimRefused => Failed(UsedState, LinkageUsed)
    case ForbiddenEarly | ForbiddenLate => Failed(Forbidden, RbacDenied)
    case SwitchedOffEarly | SwitchedOffLate => Failed(Blocked, KillSwitchOff)
    case ResolverFailed | EvaluationFailed | ClaimFailed | ReceiptFailed => Failed(Invalid, ValidationException)
  }

  /** And the audit trail that it leaves. */
  function TrailOf(c: Cause): seq<Kind> {
    match c
    case SwitchedOffEarly => [Requested, BlockedSeen]
    case NotEligible(state, _) => [Requested, if state == Blocked then BlockedSeen else RejectedSeen]
    case ForbiddenLate | ClaimFailed => [Requested, EligibleSeen, RejectedSeen]
    case SwitchedOffLate => [Requested, EligibleSeen, BlockedSeen]
    case ClaimRefused => [Requested, EligibleSeen, ReplayedSeen]
    case ReceiptFailed => [Requested, EligibleSeen, ClaimedSeen, RejectedSeen]
    case _ => [Requested, RejectedSeen]
  }

  predicate IsOwner(s: Session) {
    s.role == Some("owner")
  }

  /** What stops a call before its await: a missing field, then the permission, then the switch. */
  function CallCause(request: Request, session: Session, switchOn: bool): Option<Cause> {
    if !(&& Truthy(request.tenantId) && Truthy(request.workUnitId) && Truthy(request.actionPreviewId)
         && Truthy(request.approvalId) && Truthy(request.actionType)) then Some(InvalidRequest)
    else if !IsOwner(session) then Some(ForbiddenEarly)
    else if !switchOn then Some(SwitchedOffEarly)
    else None
  }

  /** What stops it between the resolver's answer and the claim, in that order. */
  function AnswerCause(p: Platform, request: Request, answer: ResolverAnswer, session: Session, switchOn: bool,
                       claimAt: string): Option<Cause>
  {
    match answer
    case ResolverThrew => Some(ResolverFailed)
    case NoBundle => Some(NoEvidence)
    case Resolved(bundle) =>
      if !session.record then Some(NoSession)
      else OutcomeCause(EvaluateResolved(p, bundle, session, claimAt, request), session, switchOn)
  }

  function OutcomeCause(outcome: Outcome, session: Session, switchOn: bool): Option<Cause> {
    match outcome
    case Threw => Some(EvaluationFailed)
    case Ineligible(state, issue) => Some(NotEligible(state, issue))
    case Eligible(_) =>
      if !IsOwner(session) then Some(ForbiddenLate) else if !switchOn then Some(SwitchedOffLate) else None
  }

  /** What stops it after the claim. */
  function SettleCause(outcome: ClaimOutcome, receiptThrows: bool): Option<Cause> {
    match outcome
    case Broken => Some(ClaimFailed)
    case Lost => Some(ClaimRefused)
    case Won => if receiptThrows then Some(ReceiptFailed) else None
  }

  /** The run is over for this cause: answer, trail, last event, and one flush of it all. */
  predicate EndedBy(r: Run, c: Cause) {
    && r.phase == Done(ResultOf(c)) && ResultOf(c).Failed?
    && Kinds(r.events) == TrailOf(c) && |r.events| > 0
    && r.events[|r.events| - 1].state == Of(ResultOf(c).state)
    && r.events[|r.events| - 1].issues == [ResultOf(c).issue]
    && r.flushes == [r.events]
  }

  /** The instant on the last event. */
  function LastAt(r: Run): string {
    if r.events == [] then "" else r.events[|r.events| - 1].evaluatedAt
  }

  lemma RejectEnds(r: Run, kind: Kind, subject: Subject, state: State, issue: Issue, at: string, c: Cause)
    requires r.flushes == [] && ResultOf(c) == Failed(state, issue) && TrailOf(c) == Kinds(r.events) + [kind]
    ensures EndedBy(Reject(r, kind, subject, state, issue, at), c)
    ensures LastAt(Reject(r, kind, subject, state, issue, at)) == at
  {
    var after := Reject(r, kind, subject, state, issue, at);
    assert Kinds(after.events) == Kinds(r.events) + [kind];
  }

  /** A call either waits for its evidence or is over for the first thing that stops it. */
  lemma BeginIs(request: Request, session: Session, switchOn: bool, now: string)
    ensures var r, cause := Begin(request, session, switchOn, now), CallCause(request, session, switchOn);
      if cause.None? then r.phase == AwaitingEvidence(now) else EndedBy(r, cause.value) && LastAt(r) == now
  {
    var s := RequestSubject(request);
    var r := Run(request, [Event(Requested, s, Of(NotReady), [], now)], [], AwaitingEvidence(now));
    assert Kinds(r.events) == [Requested];
    match CallCause(request, session, switchOn)
    case None =>
    case Some(InvalidRequest) => RejectEnds(r, RejectedSeen, s, Invalid, InvalidInput, now, InvalidRequest);
    case Some(ForbiddenEarly) => RejectEnds(r, RejectedSeen, s, Forbidden, RbacDenied, now, ForbiddenEarly);
    case Some(SwitchedOffEarly) => RejectEnds(r, BlockedSeen, s, Blocked, KillSwitchOff, now, SwitchedOffEarly);
  }

  lemma FinalChecksAre(r: Run, e: Evidence, session: Session, switchOn: bool, claimAt: string)
    requires r.phase.AwaitingEvidence? && AuditInv(r)
    ensures var next := FinalChecks(r, e, session, switchOn, claimAt);
      if !IsOwner(session) then EndedBy(next, ForbiddenLate) && LastAt(next) == claimAt
      else if !switchOn then EndedBy(next, SwitchedOffLate) && LastAt(next) == claimAt
      else next.phase == AwaitingClaim(e, Lost)
  {
    var s := EvidenceSubject(e);
    var r' := r.(events := r.events + [Event(EligibleSeen, s, EligibleState, [], e.issuedAt)]);
    assert Kinds(r'.events) == [Requested, EligibleSeen];
    if !IsOwner(session) {
      RejectEnds(r', RejectedSeen, s, Forbidden, RbacDenied, claimAt, ForbiddenLate);
    } else if !switchOn {
      RejectEnds(r', BlockedSeen, s, Blocked, KillSwitchOff, claimAt, SwitchedOffLate);
    }
  }

  /** A run that stops between answer and claim reports the instant its guard was evaluated at. */
  function StampOf(c: Cause, requestedAt: string, claimAt: string, errorAt: string): string {
    if c == ResolverFailed || c == EvaluationFailed then errorAt
    else if c == NoEvidence || c == NoSession then requestedAt
    else claimAt
  }

  /** An answered run either asks its store for the claim or is over for the first thing that stops it. */
  lemma RecheckIs(p: Platform, r: Run, answer: ResolverAnswer, session: Session, switchOn: bool,
                  claimAt: string, errorAt: string)
    requires r.phase.AwaitingEvidence? && AuditInv(r)
    ensures var next := Recheck(p, r, answer, session, switchOn, claimAt, errorAt);
      var cause := AnswerCause(p, r.request, answer, session, switchOn, claimAt);
      if cause.None? then
        && next.phase.AwaitingClaim? && answer.Resolved?
        && EvaluateResolved(p, answer.bundle, session, claimAt, r.request) == Eligible(next.phase.evidence)
      else
        EndedBy(next, cause.value) && LastAt(next) == StampOf(cause.value, r.phase.requestedAt, claimAt, errorAt)
  {
    var s := RequestSubject(r.request);
    match answer
    case ResolverThrew => RejectEnds(r, RejectedSeen, s, Invalid, ValidationException, errorAt, ResolverFailed);
    case NoBundle => RejectEnds(r, RejectedSeen, s, NotReady, StateMissing, r.phase.requestedAt, NoEvidence);
    case Resolved(bundle) =>
      if !session.record {
        RejectEnds(r, RejectedSeen, s, Forbidden, ExecutorInvalid, r.phase.requestedAt, NoSession);
      } else {
        EvaluatedIs(r, EvaluateResolved(p, bundle, session, claimAt, r.request), session, switchOn, claimAt, errorAt);
      }
  }

  lemma EvaluatedIs(r: Run, outcome: Outcome, session: Session, switchOn: bool, claimAt: string, errorAt: string)
    requires r.phase.AwaitingEvidence? && AuditInv(r)
    ensures var next := Evaluated(r, outcome, session, switchOn, claimAt, errorAt);
      var cause := OutcomeCause(outcome, session, switchOn);
      if cause.None? then next.phase.AwaitingClaim? && outcome == Eligible(next.phase.evidence)
      else EndedBy(next, cause.value) && LastAt(next) == StampOf(cause.value, r.phase.requestedAt, claimAt, errorAt)
  {
    var s := RequestSubject(r.request);
    match outcome
    case Threw => RejectEnds(r, RejectedSeen, s, Invalid, ValidationException, errorAt, EvaluationFailed);
    case Ineligible(state, issue) =>
      RejectEnds(r, if state == Blocked then BlockedSeen else RejectedSeen, s, state, issue, claimAt,
                 NotEligible(state, issue));
    case Eligible(e) => FinalChecksAre(r, e, session, switchOn, claimAt);
  }

  /** A settled run has its receipt or is over for the first thing that stops it. */
  lemma SettleIs(r: Run, receiptThrows: bool, errorAt: string)
    requires r.phase.AwaitingClaim? && AuditInv(r)
    ensures var next, cause := Settle(r, receiptThrows, errorAt), SettleCause(r.phase.outcome, receiptThrows);
      var issuedAt := r.phase.evidence.issuedAt;
      if cause.None? then next.phase == Done(Authorized(r.phase.evidence)) && LastAt(next) == issuedAt
      else EndedBy(next, cause.value) && LastAt(next) == if cause.value == ClaimRefused then issuedAt else errorAt
  {
    var e, s := r.phase.evidence, RequestSubject(r.request);
    match r.phase.outcome
    case Broken => RejectEnds(r, RejectedSeen, s, Invalid, ValidationException, errorAt, ClaimFailed);
    case Lost => RejectEnds(r, ReplayedSeen, s, UsedState, LinkageUsed, e.issuedAt, ClaimRefused);
    case Won =>
      var claimed := r.(events := r.events + [Event(ClaimedSeen, s, EligibleState, [], e.issuedAt)]);
      assert Kinds(claimed.events) == [Requested, EligibleSeen, ClaimedSeen];
      if receiptThrows {
        RejectEnds(claimed, RejectedSeen, s, Invalid, ValidationException, errorAt, ReceiptFailed);
      }
  }

  // ---------- dry run ----------

  datatype Disposition = DryVerified | DryBlocked | DryNotReady | DryForbidden

  function DryRun(p: Platform, request: Request, early: Session, earlySwitch: bool, answer: ResolverAnswer,
                  late: Session, lateSwitch: bool, claimAt: string): Disposition
  {
    if !RequestFieldsValid(request) then DryNotReady
    else if !HasExecutePermission(early) then DryForbidden
    else if !earlySwitch then DryBlocked
    else if answer.ResolverThrew? then DryNotReady
    else if answer.NoBundle? then DryNotReady
    else if !late.record then DryForbidden
    else
      match EvaluateResolved(p, answer.bundle, late, claimAt, request)
      case Threw => DryNotReady
      case Ineligible(state, _) =>
        if state == Blocked then DryBlocked else if state == Forbidden then DryForbidden else DryNotReady
      case Eligible(_) =>
        if !HasExecutePermission(late) then DryForbidden
        else if !lateSwitch then DryBlocked
        else DryVerified
  }

  function DispositionOf(state: State): Disposition {
    match state
    case Blocked => DryBlocked
    case Forbidden => DryForbidden
    case _ => DryNotReady
  }

  /**
    Parity: on the same inputs the dry run says "verified" exactly when the gate reaches its claim, and
    otherwise reports the gate's own failure. The gate's store plays no part in it.
   */
  lemma DryRunParity(p: Platform, request: Request, early: Session, earlySwitch: bool, answer: ResolverAnswer,
                     late: Session, lateSwitch: bool, requestedAt: string, claimAt: string, errorAt: string,
                     store: StoreRef, rows: Rows)
    ensures var started := Begin(request, early, earlySwitch, requestedAt);
      var dry := DryRun(p, request, early, earlySwitch, answer, late, lateSwitch, claimAt);
      if started.phase.AwaitingEvidence? then
        var r := Resume(p, started, store, rows, answer, late, lateSwitch, claimAt, errorAt).0;
        && (dry == DryVerified <==> r.phase.AwaitingClaim?)
        && (dry == DryVerified <==> ReachesClaim(p, started, answer, late, lateSwitch, claimAt, errorAt))
        && (r.phase.Done? ==> r.phase.result.Failed? && dry == DispositionOf(r.phase.result.state))
      else
        && started.phase.Done? && started.phase.result.Failed?
        && dry == DispositionOf(started.phase.result.state) && dry != DryVerified
  {
  }

  // ---------- the objects ----------

  /** The approval stores a call may be given. */
  datatype Store =
    | DirectStore(direct: InMemoryApprovalStore)
    | BackedStore(backed: RepositoryBackedApprovalStore)
    | FailingStore(repo: InMemoryApprovalRepository, writes: bool)
  {
    function Footprint(): set<object> {
      match this
      case DirectStore(direct) => {direct}
      case BackedStore(backed) => {backed.repo}
      case FailingStore(repo, _) => {repo}
    }

    function Ref(): StoreRef {
      match this
      case DirectStore(_) => Direct
      case BackedStore(backed) => Backed(backed.tenant)
      case FailingStore(_, writes) => Failing(writes)
    }

    function Rows(): Approvals.Rows
      reads Footprint()
    {
      match this
      case DirectStore(direct) => Unmapped(direct.records)
      case BackedStore(backed) => backed.repo.records
      case FailingStore(repo, _) => repo.records
    }

    method ClaimApproval(t: TimeLib, c: ClaimInput) returns (outcome: ClaimOutcome)
      modifies Footprint()
      ensures (outcome, Rows()) == Claim(t, old(Rows()), Ref(), c)
    {
      match this
      case DirectStore(direct) =>
        DirectClaimOnRows(t, direct.records, c);
        var claimed := direct.ClaimApprovalForRuntime(t, c);
        outcome := if claimed then Won else Lost;
      case BackedStore(backed) =>
        var claimed := backed.ClaimApprovalForRuntime(t, c);
        outcome := if claimed then Won else Lost;
      case FailingStore(repo, writes) =>
        if writes {
          var _ := repo.ClaimForRuntime(t, c.tenantId, c);
        }
        outcome := Broken;
    }
  }

  /** One call of `authorizeRuntimeCommand`, suspended at its awaits. */
  class GateCall {
    var run: Run
    var events: seq<Event>

    ghost predicate Valid() reads this {
      events == run.events && AuditInv(run)
    }

    constructor (request: Request, session: Session, killSwitchOn: bool, now: string)
      ensures run == Begin(request, session, killSwitchOn, now) && Valid()
    {
      var s := RequestSubject(request);
      events := [Event(Requested, s, Of(NotReady), [], now)];
      run := Run(request, [Event(Requested, s, Of(NotReady), [], now)], [], AwaitingEvidence(now));
      new;
      BeginAudit(request, session, killSwitchOn, now);
      if !RequestFieldsValid(request) {
        Refuse(RejectedSeen, s, Invalid, InvalidInput, now);
      } else if !HasExecutePermission(session) {
        Refuse(RejectedSeen, s, Forbidden, RbacDenied, now);
      } else if !killSwitchOn {
        Refuse(BlockedSeen, s, Blocked, KillSwitchOff, now);
      }
    }

    method FlushAndReturn(e: Event, result: Result)
      requires events == run.events
      modifies this
      ensures run == Finish(old(run), e, result) && events == run.events
    {
      events := events + [e];
      run := run.(events := events, flushes := run.flushes + [events], phase := Done(result));
    }

    method Refuse(kind: Kind, subject: Subject, state: State, issue: Issue, at: string)
      requires events == run.events
      modifies this
      ensures run == Reject(old(run), kind, subject, state, issue, at) && events == run.events
    {
      FlushAndReturn(Event(kind, subject, Of(state), [issue], at), Failed(state, issue));
    }

    /** The stretch from the resolver's answer to the claim; nothing else runs in between. */
    method Continue(p: Platform, store: Store, answer: ResolverAnswer, session: Session,
                    killSwitchOn: bool, claimAt: string, errorAt: string)
      requires Valid() && p.Lawful() && run.phase.AwaitingEvidence?
      modifies this, store.Footprint()
      ensures (run, store.Rows())
           == Resume(p, old(run), store.Ref(), old(store.Rows()), answer, session, killSwitchOn, claimAt, errorAt)
      ensures Valid()
    {
      ResumeAudit(p, run, store.Ref(), store.Rows(), answer, session, killSwitchOn, claimAt, errorAt);
      var s := RequestSubject(run.request);
      var requestedAt := run.phase.requestedAt;
      match answer
      case ResolverThrew =>
        Refuse(RejectedSeen, s, Invalid, ValidationException, errorAt);
      case NoBundle =>
        Refuse(RejectedSeen, s, NotReady, StateMissing, requestedAt);
      case Resolved(bundle) =>
        if !session.record {
          Refuse(RejectedSeen, s, Forbidden, ExecutorInvalid, requestedAt);
          return;
        }
        match EvaluateResolved(p, bundle, session, claimAt, run.request)
        case Threw =>
          Refuse(RejectedSeen, s, Invalid, ValidationException, errorAt);
        case Ineligible(state, issue) =>
          Refuse(if state == Blocked then BlockedSeen else RejectedSeen, s, state, issue, claimAt);
        case Eligible(evidence) =>
          CheckAndClaim(p, store, evidence, session, killSwitchOn, claimAt);
    }

    /** The final checks and the claim, with nothing in between. */
    method CheckAndClaim(p: Platform, store: Store, evidence: Evidence, session: Session,
                         killSwitchOn: bool, claimAt: string)
      requires events == run.events
      modifies this, store.Footprint()
      ensures var checked := FinalChecks(old(run), evidence, session, killSwitchOn, claimAt);
        var (outcome, rows) := Claim(p.time, old(store.Rows()), store.Ref(), ClaimFor(evidence));
        if HasExecutePermission(session) && killSwitchOn
        then run == checked.(phase := AwaitingClaim(evidence, outcome)) && store.Rows() == rows
        else run == checked && store.Rows() == old(store.Rows())
      ensures events == run.events
    {
      var s := EvidenceSubject(evidence);
      events := events + [Event(EligibleSeen, s, EligibleState, [], evidence.issuedAt)];
      run := run.(events := events);
      if !HasExecutePermission(session) {
        Refuse(RejectedSeen, s, Forbidden, RbacDenied, claimAt);
      } else if !killSwitchOn {
        Refuse(BlockedSeen, s, Blocked, KillSwitchOff, claimAt);
      } else {
        var outcome := store.ClaimApproval(p.time, ClaimFor(evidence));
        run := run.(phase := AwaitingClaim(evidence, outcome));
      }
    }

    method Complete(receiptThrows: bool, errorAt: string)
      requires Valid() && run.phase.AwaitingClaim?
      modifies this
      ensures run == Settle(old(run), receiptThrows, errorAt) && Valid()
    {
      SettleAudit(run, receiptThrows, errorAt);
      var evidence, outcome := run.phase.evidence, run.phase.outcome;
      var s := EvidenceSubject(evidence);
      if outcome == Broken {
        Refuse(RejectedSeen, RequestSubject(run.request), Invalid, ValidationException, errorAt);
        return;
      }
      if outcome == Lost {
        Refuse(ReplayedSeen, s, UsedState, LinkageUsed, evidence.issuedAt);
        return;
      }
      events := events + [Event(ClaimedSeen, s, EligibleState, [], evidence.issuedAt)];
      run := run.(events := events);
      if receiptThrows {
        Refuse(RejectedSeen, RequestSubject(run.request), Invalid, ValidationException, errorAt);
      } else {
        FlushAndReturn(Event(Created, s, AuthorizedNotExecuted, [], evidence.issuedAt), Authorized(evidence));
      }
    }
  }
}
