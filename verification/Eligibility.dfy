/**
  Runtime authorization eligibility: the current executor from a session snapshot, the bounded
  expiry, and the evidence that the gate later claims and receipts.
 */
module Eligibility {
  import opened Prelude
  import opened JsValues
  import opened Approvals

  const MAX_AUTHORIZATION_TTL_MS: int := 30000

  predicate KnownActionType(s: string) {
    s in ["slack_reply", "gmail_reply", "github_issue", "calendar_event"]
  }

  /** The stable issue codes that these paths can report. */
  datatype Issue =
    | InvalidInput | ValidationException | StateMissing | RbacDenied | KillSwitchOff
    | LinkageInvalid | LinkageStale | LinkageExpired | LinkageRevoked | LinkageUsed | LinkageReplayed
    | LinkageNotVerified
    | TenantMismatch | WorkUnitMismatch | ActionPreviewMismatch | ApprovalMismatch | ActionTypeMismatch
    | TargetHashMismatch | PayloadHashMismatch
    | ExecutorInvalid | ExecutorEqualsApprover | AuthorizationExpired
    | DecisionIssue(code: string)

  datatype LinkageVerdict = Verified | LInvalid | LStale | LExpired | LRevoked | LUsed | LReplayed | LOther

  datatype Decision = Acceptable | Unacceptable(issues: seq<Issue>)

  /** The stored linkage record; a field that is no string is `None`, and `rest` is what only the verifier reads. */
  datatype Linkage = Linkage(
    tenantId: Option<string>, workUnitId: Option<string>, actionPreviewId: Option<string>, approvalId: Option<string>,
    actionType: Option<string>, targetHash: Option<string>, payloadHash: Option<string>, approverId: Option<string>,
    approvalLinkageId: Option<string>, linkageExpiresAt: Option<string>, previewExpiresAt: Option<string>,
    approvalExpiresAt: Option<string>, rest: JsValue)

  /** The raw server-owned sources, carrying no evaluation time. */
  datatype Sources = Sources(humanDecision: JsValue, identityInput: JsValue, rest: JsValue)

  /** The sources with the fresh instant stamped on them and on a nested identity input. */
  datatype Context = Context(humanDecision: JsValue, identityInput: JsValue, rest: JsValue, evaluatedAt: string)

  /** The server-derived action envelope. */
  datatype Envelope = Envelope(
    tenantId: Option<string>, workUnitId: Option<string>, actionPreviewId: Option<string>, approvalId: Option<string>,
    actionType: Option<string>, targetHash: Option<string>, payloadHash: Option<string>)

  /** The resolved bundle; `None` where the stored value is missing or no object. */
  datatype Bundle = Bundle(linkage: Option<Linkage>, sources: Option<Sources>, intendedAction: Option<Envelope>)

  /**
    Library and policy code outside this model, as arbitrary total functions: timestamps, the linkage
    verifier, the human decision matrix and the digests behind derived identifiers.
   */
  datatype Platform = Platform(
    time: TimeLib,
    toIso: int -> string,
    verifyLinkage: (Linkage, Context) -> LinkageVerdict,
    decide: JsValue -> Decision,
    idempotencyKey: (Intended, Option<string>, string) -> string,
    authorizationId: string -> string)
  {
    /** ISO timestamps are instants, and formatting an instant gives it back. */
    ghost predicate Lawful() {
      && time.Lawful()
      && (forall s | time.isIso(s) :: time.instant(s).Some?)
      && (forall m :: time.instant(toIso(m)) == Some(m))
    }
  }

  datatype State = Invalid | NotReady | Forbidden | Stale | ExpiredState | Revoked | UsedState | Replayed | Blocked

  /** The request as it arrives: a field that is no string is `None`. */
  datatype Request = Request(
    tenantId: Option<string>, workUnitId: Option<string>, actionPreviewId: Option<string>,
    approvalId: Option<string>, actionType: Option<string>)

  predicate RequestFieldsValid(r: Request) {
    && Truthy(r.tenantId) && Truthy(r.workUnitId) && Truthy(r.actionPreviewId)
    && Truthy(r.approvalId) && Truthy(r.actionType)
  }

  /** The session object as it is at one instant; `record` tells whether it is a plain object at all. */
  datatype Session = Session(
    record: bool, role: Option<string>, userId: Option<string>, tenantId: Option<string>,
    sessionId: Option<string>, expiresAt: Option<string>, isDevSession: Option<bool>,
    delegationOrServiceMarker: bool)

  /** Only owners hold the execute permission; an unknown role throws inside the check and is denied. */
  predicate HasExecutePermission(s: Session) {
    s.role == Some("owner")
  }

  /** The executor's user id, when the session yields a canonical identity at this instant. */
  function ExecutorId(p: Platform, s: Session, expectedTenant: string, now: string): Option<string> {
    if && p.time.isIso(now)
       && expectedTenant != ""
       && !s.delegationOrServiceMarker
       && Truthy(s.userId)
       && Truthy(s.tenantId)
       && Truthy(s.sessionId)
       && s.expiresAt.Some? && p.time.isIso(s.expiresAt.value)
       && !p.time.AtOrAfter(now, s.expiresAt.value)
       && s.isDevSession == Some(false)
       && s.tenantId.value == expectedTenant
    then s.userId else None
  }

  datatype Intended = Intended(
    tenantId: string, workUnitId: string, actionPreviewId: string, approvalId: string,
    actionType: string, targetHash: string, payloadHash: string)

  datatype Evidence = Evidence(
    action: Intended, approvalLinkageId: Option<string>, executorId: string, idempotencyKey: string,
    authorizationId: string, issuedAt: string, expiresAt: string)

  datatype Outcome = Eligible(evidence: Evidence) | Ineligible(state: State, issue: Issue) | Threw

  function LinkageFailure(v: LinkageVerdict): Outcome {
    match v
    case LInvalid => Ineligible(Invalid, LinkageInvalid)
    case LStale => Ineligible(Stale, LinkageStale)
    case LExpired => Ineligible(ExpiredState, LinkageExpired)
    case LRevoked => Ineligible(Revoked, LinkageRevoked)
    case LUsed => Ineligible(UsedState, LinkageUsed)
    case LReplayed => Ineligible(Replayed, LinkageReplayed)
    case _ => Ineligible(NotReady, LinkageNotVerified)
  }

  /** The first of the linkage's binding fields that differs from the intended action, if any. */
  function EnvelopeIssue(l: Linkage, a: Intended): Option<Issue> {
    if l.tenantId != Some(a.tenantId) then Some(TenantMismatch)
    else if l.workUnitId != Some(a.workUnitId) then Some(WorkUnitMismatch)
    else if l.actionPreviewId != Some(a.actionPreviewId) then Some(ActionPreviewMismatch)
    else if l.approvalId != Some(a.approvalId) then Some(ApprovalMismatch)
    else if l.actionType != Some(a.actionType) then Some(ActionTypeMismatch)
    else if l.targetHash != Some(a.targetHash) then Some(TargetHashMismatch)
    else if l.payloadHash != Some(a.payloadHash) then Some(PayloadHashMismatch)
    else None
  }

  /** The earlier of two timestamps by `Date.parse`; an unparsable one compares false. */
  function MinIso(p: Platform, a: string, b: string): string {
    if p.time.AtOrAfter(b, a) then a else b
  }

  function BoundedExpiry(p: Platform, linkage: string, preview: string, approval: string, session: string,
                         ceiling: string): string
  {
    MinIso(p, MinIso(p, MinIso(p, MinIso(p, linkage, preview), approval), session), ceiling)
  }

  predicate IsIso(p: Platform, s: Option<string>) {
    s.Some? && p.time.isIso(s.value)
  }

  function Evaluate(p: Platform, linkage: Option<Linkage>, context: Context, executor: string, a: Intended,
                    sessionExpiresAt: string, issuedAt: string): Outcome
  {
    if !p.time.isIso(issuedAt) then Ineligible(Invalid, InvalidInput)
    else if !p.time.isIso(sessionExpiresAt) then Ineligible(Invalid, InvalidInput)
    else if !KnownActionType(a.actionType) then Ineligible(Invalid, ActionTypeMismatch)
    else if linkage.None? then Ineligible(Invalid, LinkageInvalid)
    else
      var l := linkage.value;
      var verdict := p.verifyLinkage(l, context);
      if verdict != Verified then LinkageFailure(verdict)
      else
        var decision := p.decide(context.humanDecision);
        if decision.Unacceptable? then
          Ineligible(NotReady, if decision.issues == [] then StateMissing else decision.issues[0])
        else if EnvelopeIssue(l, a).Some? then Ineligible(Stale, EnvelopeIssue(l, a).value)
        else if l.approverId == Some(executor) then Ineligible(Forbidden, ExecutorEqualsApprover)
        else Bound(p, l, executor, a, sessionExpiresAt, issuedAt)
  }

  /** The last two steps: the bounded expiry and the derived identifiers. */
  function Bound(p: Platform, l: Linkage, executor: string, a: Intended, sessionExpiresAt: string,
                 issuedAt: string): Outcome
  {
    if !(IsIso(p, l.linkageExpiresAt) && IsIso(p, l.previewExpiresAt) && IsIso(p, l.approvalExpiresAt)) then
      Ineligible(Invalid, LinkageInvalid)
    else if p.time.instant(issuedAt).None? then Ineligible(Invalid, ValidationException)
    else
      var ceiling := p.toIso(p.time.instant(issuedAt).value + MAX_AUTHORIZATION_TTL_MS);
      var expiresAt := BoundedExpiry(p, l.linkageExpiresAt.value, l.previewExpiresAt.value, l.approvalExpiresAt.value,
                                     sessionExpiresAt, ceiling);
      if p.time.AtOrAfter(issuedAt, expiresAt) then Ineligible(ExpiredState, AuthorizationExpired)
      else
        var key := p.idempotencyKey(a, l.approvalLinkageId, executor);
        Eligible(Evidence(a, l.approvalLinkageId, executor, key, p.authorizationId(key), issuedAt, expiresAt))
  }

  function VerificationContext(s: Sources, now: string): Context {
    var identity := if s.identityInput.Obj? then Obj(Assign(s.identityInput.members, "evaluated_at", Str(now)))
                    else s.identityInput;
    Context(s.humanDecision, identity, s.rest, now)
  }

  predicate Names(requested: Option<string>, envelope: Option<string>) {
    Truthy(envelope) && envelope == requested
  }

  predicate EnvelopeMatches(e: Envelope, r: Request) {
    && Names(r.tenantId, e.tenantId)
    && Names(r.workUnitId, e.workUnitId)
    && Names(r.actionPreviewId, e.actionPreviewId)
    && Names(r.approvalId, e.approvalId)
    && Names(r.actionType, e.actionType)
    && Truthy(e.targetHash)
    && Truthy(e.payloadHash)
  }

  /** The synchronous finalization shared by the gate and the dry run. */
  function EvaluateResolved(p: Platform, b: Bundle, session: Session, claimAt: string, r: Request): Outcome {
    if b.intendedAction.None? || !EnvelopeMatches(b.intendedAction.value, r) then Ineligible(Stale, StateMissing)
    else
      var e := b.intendedAction.value;
      var executor := ExecutorId(p, session, r.tenantId.value, claimAt);
      if executor.None? then Ineligible(Forbidden, ExecutorInvalid)
      else if b.sources.None? then Threw
      else
        Evaluate(p, b.linkage, VerificationContext(b.sources.value, claimAt), executor.value,
                 Intended(e.tenantId.value, e.workUnitId.value, e.actionPreviewId.value, e.approvalId.value,
                          e.actionType.value, e.targetHash.value, e.payloadHash.value),
                 OrElse(session.expiresAt, ""), claimAt)
  }

  /** The later use of the evidence cannot outlive any of its sources, nor thirty seconds. */
  ghost predicate ExpiresNoLaterThan(p: Platform, e: Evidence, limit: string) {
    var end, bound := p.time.instant(e.expiresAt), p.time.instant(limit);
    bound.Some? ==> end.Some? && end.value <= bound.value
  }

  lemma MinIsoBounds(p: Platform, a: string, b: string)
    requires p.time.instant(a).Some? && p.time.instant(b).Some?
    ensures var m := p.time.instant(MinIso(p, a, b));
      m.Some? && m.value <= p.time.instant(a).value && m.value <= p.time.instant(b).value
  {
  }

  lemma BoundedExpiryBounds(p: Platform, l: Linkage, executor: string, a: Intended, sessionExpiresAt: string,
                            issuedAt: string)
    requires p.Lawful() && p.time.isIso(issuedAt) && p.time.isIso(sessionExpiresAt)
    requires Bound(p, l, executor, a, sessionExpiresAt, issuedAt).Eligible?
    ensures var e := Bound(p, l, executor, a, sessionExpiresAt, issuedAt).evidence;
      && IsIso(p, l.linkageExpiresAt) && IsIso(p, l.previewExpiresAt) && IsIso(p, l.approvalExpiresAt)
      && p.time.After(e.expiresAt, issuedAt)
      && p.time.instant(e.expiresAt).value <= p.time.instant(issuedAt).value + MAX_AUTHORIZATION_TTL_MS
      && ExpiresNoLaterThan(p, e, sessionExpiresAt)
      && ExpiresNoLaterThan(p, e, l.linkageExpiresAt.value)
      && ExpiresNoLaterThan(p, e, l.previewExpiresAt.value)
      && ExpiresNoLaterThan(p, e, l.approvalExpiresAt.value)
  {
    var ceiling := p.toIso(p.time.instant(issuedAt).value + MAX_AUTHORIZATION_TTL_MS);
    var m1 := MinIso(p, l.linkageExpiresAt.value, l.previewExpiresAt.value);
    var m2 := MinIso(p, m1, l.approvalExpiresAt.value);
    var m3 := MinIso(p, m2, sessionExpiresAt);
    MinIsoBounds(p, l.linkageExpiresAt.value, l.previewExpiresAt.value);
    MinIsoBounds(p, m1, l.approvalExpiresAt.value);
    MinIsoBounds(p, m2, sessionExpiresAt);
    MinIsoBounds(p, m3, ceiling);
  }

  // ---------- exactly when evidence is eligible, and what is said otherwise ----------

  /** The action types that runtime authorization knows. */
  lemma KnownActionTypes(s: string)
    ensures KnownActionType(s)
       <==> s == "slack_reply" || s == "gmail_reply" || s == "github_issue" || s == "calendar_event"
  {
  }

  /** The verification context is the stored sources with one instant stamped on them and on the identity input. */
  lemma {:induction false} ContextIsStamped(s: Sources, now: string, key: string)
    ensures var context := VerificationContext(s, now);
      && context.evaluatedAt == now && context.humanDecision == s.humanDecision && context.rest == s.rest
      && (!s.identityInput.Obj? ==> context.identityInput == s.identityInput)
      && (s.identityInput.Obj? ==>
            && context.identityInput.Obj?
            && Lookup(context.identityInput.members, "evaluated_at") == Str(now)
            && (key != "evaluated_at" ==>
                  Lookup(context.identityInput.members, key) == Lookup(s.identityInput.members, key)))
  {
    if s.identityInput.Obj? {
      AssignLookup(s.identityInput.members, "evaluated_at", Str(now), "evaluated_at");
      AssignLookup(s.identityInput.members, "evaluated_at", Str(now), key);
    }
  }

  /** The first binding field in which the linkage differs from the action decides the issue. */
  lemma FirstDifference(l: Linkage, a: Intended)
    ensures var issue := EnvelopeIssue(l, a);
      var t, w, p := l.tenantId == Some(a.tenantId), l.workUnitId == Some(a.workUnitId),
                     l.actionPreviewId == Some(a.actionPreviewId);
      var i, y, g, h := l.approvalId == Some(a.approvalId), l.actionType == Some(a.actionType),
                        l.targetHash == Some(a.targetHash), l.payloadHash == Some(a.payloadHash);
      && (issue == Some(TenantMismatch) <==> !t)
      && (issue == Some(WorkUnitMismatch) <==> t && !w)
      && (issue == Some(ActionPreviewMismatch) <==> t && w && !p)
      && (issue == Some(ApprovalMismatch) <==> t && w && p && !i)
      && (issue == Some(ActionTypeMismatch) <==> t && w && p && i && !y)
      && (issue == Some(TargetHashMismatch) <==> t && w && p && i && y && !g)
      && (issue == Some(PayloadHashMismatch) <==> t && w && p && i && y && g && !h)
      && (issue == None <==> t && w && p && i && y && g && h)
  {
  }

  /** A linkage that does not verify is refused in its own state. */
  lemma LinkageRefusals(v: LinkageVerdict)
    ensures var outcome := LinkageFailure(v);
      && (outcome == Ineligible(Invalid, LinkageInvalid) <==> v == LInvalid)
      && (outcome == Ineligible(Stale, LinkageStale) <==> v == LStale)
      && (outcome == Ineligible(ExpiredState, LinkageExpired) <==> v == LExpired)
      && (outcome == Ineligible(Revoked, LinkageRevoked) <==> v == LRevoked)
      && (outcome == Ineligible(UsedState, LinkageUsed) <==> v == LUsed)
      && (outcome == Ineligible(Replayed, LinkageReplayed) <==> v == LReplayed)
      && (outcome == Ineligible(NotReady, LinkageNotVerified) <==> v == LOther || v == Verified)
  {
  }

  /** The stored envelope is there, names the request's action in full and carries both hashes. */
  predicate NamesRequest(b: Bundle, r: Request) {
    && b.intendedAction.Some?
    && var e := b.intendedAction.value;
    && r == Request(e.tenantId, e.workUnitId, e.actionPreviewId, e.approvalId, e.actionType)
    && RequestFieldsValid(r) && Truthy(e.targetHash) && Truthy(e.payloadHash)
  }

  /** A signed-in human user of the tenant, neither delegated nor in development, whose session is still open. */
  predicate LiveSession(p: Platform, s: Session, tenant: string, now: string) {
    && p.time.isIso(now) && IsIso(p, s.expiresAt) && p.time.After(s.expiresAt.value, now)
    && s.tenantId == Some(tenant) && Truthy(s.tenantId)
    && Truthy(s.userId) && Truthy(s.sessionId)
    && s.isDevSession == Some(false) && !s.delegationOrServiceMarker
  }

  predicate LinkageDated(p: Platform, l: Linkage) {
    IsIso(p, l.linkageExpiresAt) && IsIso(p, l.previewExpiresAt) && IsIso(p, l.approvalExpiresAt)
  }

  /** Linkage, preview and approval all expire after the instant. */
  predicate StillOpen(p: Platform, l: Linkage, now: string)
    requires LinkageDated(p, l)
  {
    && p.time.After(l.linkageExpiresAt.value, now)
    && p.time.After(l.previewExpiresAt.value, now)
    && p.time.After(l.approvalExpiresAt.value, now)
  }

  function NamedAction(b: Bundle): Intended
    requires b.intendedAction.Some?
  {
    var e := b.intendedAction.value;
    Intended(OrElse(e.tenantId, ""), OrElse(e.workUnitId, ""), OrElse(e.actionPreviewId, ""),
             OrElse(e.approvalId, ""), OrElse(e.actionType, ""), OrElse(e.targetHash, ""), OrElse(e.payloadHash, ""))
  }

  lemma SessionYieldsExecutor(p: Platform, s: Session, tenant: string, now: string)
    requires p.Lawful() && tenant != ""
    ensures ExecutorId(p, s, tenant, now) == if LiveSession(p, s, tenant, now) then s.userId else None
  {
  }

  lemma EnvelopeIsRequest(b: Bundle, r: Request)
    ensures b.intendedAction.Some? && EnvelopeMatches(b.intendedAction.value, r) <==> NamesRequest(b, r)
  {
  }

  /** The bounded expiry is the earliest of its five sources. */
  lemma EarliestExpiry(p: Platform, l: Linkage, sessionExpiresAt: string, ceiling: string)
    requires p.Lawful() && LinkageDated(p, l) && p.time.isIso(sessionExpiresAt) && p.time.instant(ceiling).Some?
    ensures var e := BoundedExpiry(p, l.linkageExpiresAt.value, l.previewExpiresAt.value, l.approvalExpiresAt.value,
                                   sessionExpiresAt, ceiling);
      && e in [l.linkageExpiresAt.value, l.previewExpiresAt.value, l.approvalExpiresAt.value, sessionExpiresAt, ceiling]
      && !p.time.After(e, l.linkageExpiresAt.value) && !p.time.After(e, l.previewExpiresAt.value)
      && !p.time.After(e, l.approvalExpiresAt.value) && !p.time.After(e, sessionExpiresAt)
      && !p.time.After(e, ceiling)
  {
    var m1 := MinIso(p, l.linkageExpiresAt.value, l.previewExpiresAt.value);
    var m2 := MinIso(p, m1, l.approvalExpiresAt.value);
    var m3 := MinIso(p, m2, sessionExpiresAt);
    MinIsoBounds(p, l.linkageExpiresAt.value, l.previewExpiresAt.value);
    MinIsoBounds(p, m1, l.approvalExpiresAt.value);
    MinIsoBounds(p, m2, sessionExpiresAt);
    MinIsoBounds(p, m3, ceiling);
  }

  /** The last two steps in terms of the linkage alone. */
  lemma BoundOutcome(p: Platform, l: Linkage, executor: string, a: Intended, sessionExpiresAt: string, now: string)
    requires p.Lawful() && p.time.isIso(now) && p.time.isIso(sessionExpiresAt) && p.time.After(sessionExpiresAt, now)
    ensures var outcome := Bound(p, l, executor, a, sessionExpiresAt, now);
      if !LinkageDated(p, l) then outcome == Ineligible(Invalid, LinkageInvalid)
      else if !StillOpen(p, l, now) then outcome == Ineligible(ExpiredState, AuthorizationExpired)
      else outcome.Eligible?
  {
    if LinkageDated(p, l) {
      EarliestExpiry(p, l, sessionExpiresAt, p.toIso(p.time.instant(now).value + MAX_AUTHORIZATION_TTL_MS));
    }
  }

  /**
    What the finalization answers, in the order in which its conditions count: the stored envelope names the request,
    the session is live, the sources are there, the action type is known, the linkage is there and verifies at this
    instant, the human decision is acceptable, the linkage names the action, the executor is not the approver, and
    the linkage's expiries are dates that are still ahead.
   */
  lemma OutcomeIs(p: Platform, b: Bundle, session: Session, now: string, r: Request)
    requires p.Lawful()
    ensures var outcome := EvaluateResolved(p, b, session, now, r);
      if !NamesRequest(b, r) then outcome == Ineligible(Stale, StateMissing)
      else if !LiveSession(p, session, OrElse(r.tenantId, ""), now) then
        outcome == Ineligible(Forbidden, ExecutorInvalid)
      else if b.sources.None? then outcome == Threw
      else if !KnownActionType(OrElse(r.actionType, "")) then outcome == Ineligible(Invalid, ActionTypeMismatch)
      else if b.linkage.None? then outcome == Ineligible(Invalid, LinkageInvalid)
      else
        var l, a := b.linkage.value, NamedAction(b);
        var verdict := p.verifyLinkage(l, VerificationContext(b.sources.value, now));
        var decision := p.decide(b.sources.value.humanDecision);
        if verdict != Verified then outcome == LinkageFailure(verdict)
        else if !decision.Acceptable? then
          outcome == Ineligible(NotReady, if decision.issues == [] then StateMissing else decision.issues[0])
        else if EnvelopeIssue(l, a).Some? then outcome == Ineligible(Stale, EnvelopeIssue(l, a).value)
        else if l.approverId == session.userId then outcome == Ineligible(Forbidden, ExecutorEqualsApprover)
        else if !LinkageDated(p, l) then outcome == Ineligible(Invalid, LinkageInvalid)
        else if !StillOpen(p, l, now) then outcome == Ineligible(ExpiredState, AuthorizationExpired)
        else outcome.Eligible?
  {
    EnvelopeIsRequest(b, r);
    if NamesRequest(b, r) {
      SessionYieldsExecutor(p, session, r.tenantId.value, now);
      if LiveSession(p, session, r.tenantId.value, now) && b.linkage.Some? {
        BoundOutcome(p, b.linkage.value, session.userId.value, NamedAction(b), session.expiresAt.value, now);
      }
    }
  }

  /** Everything that has to hold for a request to be eligible. */
  ghost predicate MayProceed(p: Platform, b: Bundle, session: Session, now: string, r: Request) {
    && NamesRequest(b, r)
    && LiveSession(p, session, OrElse(r.tenantId, ""), now)
    && KnownActionType(OrElse(r.actionType, ""))
    && b.sources.Some? && b.linkage.Some?
    && var l := b.linkage.value;
    && p.verifyLinkage(l, VerificationContext(b.sources.value, now)) == Verified
    && p.decide(b.sources.value.humanDecision).Acceptable?
    && Envelope(l.tenantId, l.workUnitId, l.actionPreviewId, l.approvalId, l.actionType, l.targetHash, l.payloadHash)
       == b.intendedAction.value
    && l.approverId != session.userId
    && LinkageDated(p, l) && StillOpen(p, l, now)
  }

  /** Evidence is eligible exactly when all of it holds. */
  lemma EligibleIff(p: Platform, b: Bundle, session: Session, now: string, r: Request)
    requires p.Lawful()
    ensures EvaluateResolved(p, b, session, now, r).Eligible? <==> MayProceed(p, b, session, now, r)
  {
    OutcomeIs(p, b, session, now, r);
    if NamesRequest(b, r) && b.linkage.Some? {
      FirstDifference(b.linkage.value, NamedAction(b));
    }
  }

  /**
    What eligible evidence guarantees: everything that had to hold did, it echoes the request, the envelope's hashes
    and the instant, its executor is the session's user, its identifiers derive from the action, the linkage and the
    executor, and the authorization is open and expires no later than the linkage, preview, approval and session, and
    within thirty seconds.
   */
  ghost predicate Sound(p: Platform, e: Evidence, b: Bundle, session: Session, claimAt: string, r: Request) {
    && MayProceed(p, b, session, claimAt, r)
    && e.issuedAt == claimAt && p.time.isIso(claimAt)
    && r == Request(Some(e.action.tenantId), Some(e.action.workUnitId), Some(e.action.actionPreviewId),
                    Some(e.action.approvalId), Some(e.action.actionType))
    && b.intendedAction.value.targetHash == Some(e.action.targetHash)
    && b.intendedAction.value.payloadHash == Some(e.action.payloadHash)
    && Some(e.executorId) == session.userId && session.tenantId == Some(e.action.tenantId)
    && var l := b.linkage.value;
    && l.approverId != Some(e.executorId)
    && e.approvalLinkageId == l.approvalLinkageId
    && e.idempotencyKey == p.idempotencyKey(e.action, l.approvalLinkageId, e.executorId)
    && e.authorizationId == p.authorizationId(e.idempotencyKey)
    && p.time.After(e.expiresAt, e.issuedAt)
    && p.time.instant(e.expiresAt).value <= p.time.instant(claimAt).value + MAX_AUTHORIZATION_TTL_MS
    && ExpiresNoLaterThan(p, e, OrElse(session.expiresAt, ""))
    && ExpiresNoLaterThan(p, e, l.linkageExpiresAt.value)
    && ExpiresNoLaterThan(p, e, l.previewExpiresAt.value)
    && ExpiresNoLaterThan(p, e, l.approvalExpiresAt.value)
  }

  lemma EligibleIsSound(p: Platform, b: Bundle, session: Session, claimAt: string, r: Request)
    requires p.Lawful() && EvaluateResolved(p, b, session, claimAt, r).Eligible?
    ensures Sound(p, EvaluateResolved(p, b, session, claimAt, r).evidence, b, session, claimAt, r)
  {
    var e := EvaluateResolved(p, b, session, claimAt, r).evidence;
    EligibleIff(p, b, session, claimAt, r);
    BoundedExpiryBounds(p, b.linkage.value, e.executorId, e.action, OrElse(session.expiresAt, ""), claimAt);
  }
}
