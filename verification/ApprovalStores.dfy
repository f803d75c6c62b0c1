/**
  The two implementations of the approval store interface: the direct in-memory store and the
  adapter over the repository, shown to be interchangeable for one tenant; and `verifyApproval`.
 */
module ApprovalStores {
  import opened Prelude
  import opened Approvals

  // ---------- the direct in-memory store ----------

  predicate DirectMarkWins(t: TimeLib, recs: Records, id: string, usedAt: string) {
    && id in recs
    && recs[id].status == Approved
    && !Truthy(recs[id].usedAt)
    && !t.After(usedAt, recs[id].expiresAt)
  }

  function DirectMark(t: TimeLib, recs: Records, id: string, usedAt: string): Records {
    if DirectMarkWins(t, recs, id, usedAt)
    then recs[id := recs[id].(status := Used, usedAt := Some(usedAt))] else recs
  }

  predicate DirectClaimWins(t: TimeLib, recs: Records, c: ClaimInput) {
    && t.isIso(c.claimedAt)
    && c.approvalId in recs
    && var r := recs[c.approvalId];
    && r.tenantId == c.tenantId
    && r.workUnitId == c.workUnitId
    && r.actionPreviewId == c.actionPreviewId
    && r.actionType == c.actionType
    && r.targetHash == c.targetHash
    && r.payloadHash == c.payloadHash
    && r.status == Approved
    && !Truthy(r.usedAt)
    && !t.AtOrAfter(c.claimedAt, r.expiresAt)
  }

  function DirectClaim(t: TimeLib, recs: Records, c: ClaimInput): Records {
    if DirectClaimWins(t, recs, c)
    then recs[c.approvalId := recs[c.approvalId].(status := Used, usedAt := Some(c.claimedAt))] else recs
  }

  // ---------- the repository-backed adapter ----------

  predicate AdapterClaimWins(t: TimeLib, rows: Rows, tenant: string, c: ClaimInput) {
    t.isIso(c.claimedAt) && c.tenantId == tenant && ClaimWins(t, rows, tenant, c)
  }

  function AdapterClaim(t: TimeLib, rows: Rows, tenant: string, c: ClaimInput): Rows {
    if AdapterClaimWins(t, rows, tenant, c) then ClaimRow(t, rows, tenant, c) else rows
  }

  // ---------- bisimilarity ----------

  datatype StoreCall =
    | CallFind(id: string)
    | CallMark(id: string, usedAt: string)
    | CallClaim(claim: ClaimInput)

  datatype Answer = Found(rec: Option<ApprovalRecord>) | Claimed(ok: bool)

  function DirectAnswer(t: TimeLib, recs: Records, call: StoreCall): Answer {
    match call
    case CallFind(id) => Found(if id in recs then Some(recs[id]) else None)
    case CallMark(id, usedAt) => Claimed(DirectMarkWins(t, recs, id, usedAt))
    case CallClaim(c) => Claimed(DirectClaimWins(t, recs, c))
  }

  function DirectNext(t: TimeLib, recs: Records, call: StoreCall): Records {
    match call
    case CallFind(_) => recs
    case CallMark(id, usedAt) => DirectMark(t, recs, id, usedAt)
    case CallClaim(c) => DirectClaim(t, recs, c)
  }

  function AdapterAnswer(t: TimeLib, rows: Rows, tenant: string, call: StoreCall): Answer {
    match call
    case CallFind(id) =>
      var row := FindRow(rows, tenant, id);
      Found(if row.Some? then Some(RowToDomain(row.value)) else None)
    case CallMark(id, usedAt) => Claimed(MarkWins(t, rows, tenant, id, usedAt))
    case CallClaim(c) => Claimed(AdapterClaimWins(t, rows, tenant, c))
  }

  function AdapterNext(t: TimeLib, rows: Rows, tenant: string, call: StoreCall): Rows {
    match call
    case CallFind(_) => rows
    case CallMark(id, usedAt) => MarkUsed(t, rows, tenant, id, usedAt)
    case CallClaim(c) => AdapterClaim(t, rows, tenant, c)
  }

  function DirectTrace(t: TimeLib, recs: Records, calls: seq<StoreCall>): seq<Answer>
    decreases |calls|
  {
    if calls == [] then [] else
      [DirectAnswer(t, recs, calls[0])] + DirectTrace(t, DirectNext(t, recs, calls[0]), calls[1..])
  }

  function DirectFinal(t: TimeLib, recs: Records, calls: seq<StoreCall>): Records
    decreases |calls|
  {
    if calls == [] then recs else DirectFinal(t, DirectNext(t, recs, calls[0]), calls[1..])
  }

  function AdapterTrace(t: TimeLib, rows: Rows, tenant: string, calls: seq<StoreCall>): seq<Answer>
    decreases |calls|
  {
    if calls == [] then [] else
      [AdapterAnswer(t, rows, tenant, calls[0])]
      + AdapterTrace(t, AdapterNext(t, rows, tenant, calls[0]), tenant, calls[1..])
  }

  function AdapterFinal(t: TimeLib, rows: Rows, tenant: string, calls: seq<StoreCall>): Rows
    decreases |calls|
  {
    if calls == [] then rows else AdapterFinal(t, AdapterNext(t, rows, tenant, calls[0]), tenant, calls[1..])
  }

  /** The records a direct store holds when it was loaded with the rows of a repository. */
  function Mapped(rows: Rows): Records {
    map id | id in rows :: RowToDomain(rows[id])
  }

  predicate AllOwnedBy(rows: Rows, tenant: string) {
    forall id | id in rows :: rows[id].tenantId == tenant
  }

  lemma StepBisimilar(t: TimeLib, rows: Rows, tenant: string, call: StoreCall)
    requires AllOwnedBy(rows, tenant)
    ensures DirectAnswer(t, Mapped(rows), call) == AdapterAnswer(t, rows, tenant, call)
    ensures DirectNext(t, Mapped(rows), call) == Mapped(AdapterNext(t, rows, tenant, call))
    ensures AllOwnedBy(AdapterNext(t, rows, tenant, call), tenant)
  {
  }

  /** Every call sequence gets the same answers from both stores and leaves them with equal records. */
  lemma {:induction false} StoresBisimilar(t: TimeLib, rows: Rows, tenant: string, calls: seq<StoreCall>)
    requires AllOwnedBy(rows, tenant)
    ensures DirectTrace(t, Mapped(rows), calls) == AdapterTrace(t, rows, tenant, calls)
    ensures DirectFinal(t, Mapped(rows), calls) == Mapped(AdapterFinal(t, rows, tenant, calls))
    decreases |calls|
  {
    if calls != [] {
      StepBisimilar(t, rows, tenant, calls[0]);
      StoresBisimilar(t, AdapterNext(t, rows, tenant, calls[0]), tenant, calls[1..]);
    }
  }

  /** The stores are interchangeable exactly when the repository holds no other tenant's row. */
  lemma InterchangeableIffSingleTenant(t: TimeLib, rows: Rows, tenant: string)
    ensures (forall calls :: DirectTrace(t, Mapped(rows), calls) == AdapterTrace(t, rows, tenant, calls))
       <==> AllOwnedBy(rows, tenant)
  {
    if AllOwnedBy(rows, tenant) {
      forall calls ensures DirectTrace(t, Mapped(rows), calls) == AdapterTrace(t, rows, tenant, calls) {
        StoresBisimilar(t, rows, tenant, calls);
      }
    } else {
      var id :| id in rows && rows[id].tenantId != tenant;
      var probe := [CallFind(id)];
      assert DirectTrace(t, Mapped(rows), probe)[0] == Found(Some(RowToDomain(rows[id])));
      assert AdapterTrace(t, rows, tenant, probe)[0] == Found(None);
    }
  }

  /** A direct claim is the repository claim made in the name of the claim's own tenant. */
  lemma DirectClaimIsRepositoryClaim(t: TimeLib, rows: Rows, c: ClaimInput)
    ensures DirectClaimWins(t, Mapped(rows), c) == ClaimWins(t, rows, c.tenantId, c)
    ensures DirectClaim(t, Mapped(rows), c) == Mapped(ClaimRow(t, rows, c.tenantId, c))
  {
    assert Mapped(rows).Keys == rows.Keys;
  }

  /** The rows that a direct store's records stand for. */
  function Unmapped(recs: Records): Rows {
    map id | id in recs :: DomainToRow(recs[id])
  }

  lemma MappingsInvert(rows: Rows, recs: Records)
    ensures Unmapped(Mapped(rows)) == rows && Mapped(Unmapped(recs)) == recs
  {
    assert Unmapped(Mapped(rows)).Keys == rows.Keys && Mapped(Unmapped(recs)).Keys == recs.Keys;
  }

  lemma DirectClaimOnRows(t: TimeLib, recs: Records, c: ClaimInput)
    ensures DirectClaimWins(t, recs, c) == ClaimWins(t, Unmapped(recs), c.tenantId, c)
    ensures Unmapped(DirectClaim(t, recs, c)) == ClaimRow(t, Unmapped(recs), c.tenantId, c)
  {
    var rows := Unmapped(recs);
    MappingsInvert(rows, recs);
    DirectClaimIsRepositoryClaim(t, rows, c);
    MappingsInvert(ClaimRow(t, rows, c.tenantId, c), recs);
  }

  // ---------- verification ----------

  datatype Verification = Verified(approvalId: string) | Refused(error: string)

  function VerifyApproval(t: TimeLib, found: Option<ApprovalRecord>, c: ClaimInput): Verification {
    if found.None? then Refused("approval_required") else
    var r := found.value;
    if r.tenantId != c.tenantId then Refused("forbidden")
    else if r.workUnitId != c.workUnitId then Refused("forbidden")
    else if r.actionPreviewId != c.actionPreviewId then Refused("forbidden")
    else if r.actionType != c.actionType then Refused("forbidden")
    else if r.targetHash != c.targetHash then Refused("approval_target_mismatch")
    else if r.payloadHash != c.payloadHash then Refused("approval_payload_mismatch")
    else if r.status == Rejected then Refused("approval_required")
    else if r.status == Pending then Refused("approval_required")
    else if r.status == Expired then Refused("approval_expired")
    else if r.status == Used then Refused("approval_used")
    else if t.AtOrAfter(c.claimedAt, r.expiresAt) then Refused("approval_expired")
    else if r.status != Approved then Refused("approval_required")
    else Verified(r.id)
  }

  /** The record is the request's own by tenant, WorkUnit, preview and action type. */
  predicate SameAction(r: ApprovalRecord, c: ClaimInput) {
    && r.tenantId == c.tenantId && r.workUnitId == c.workUnitId
    && r.actionPreviewId == c.actionPreviewId && r.actionType == c.actionType
  }

  /** And by both hashes. */
  predicate SameBinding(r: ApprovalRecord, c: ClaimInput) {
    SameAction(r, c) && r.targetHash == c.targetHash && r.payloadHash == c.payloadHash
  }

  /**
    Exactly when each answer is given: a foreign action is forbidden before anything else is said of it, an edited
    target is reported before an edited payload, both before the status, and the status before the expiry.
   */
  lemma VerificationAnswers(t: TimeLib, found: Option<ApprovalRecord>, c: ClaimInput)
    ensures var answer := VerifyApproval(t, found, c);
      var missing := found.None?;
      && (answer == Refused("forbidden") <==> !missing && !SameAction(found.value, c))
      && (answer == Refused("approval_target_mismatch")
          <==> !missing && SameAction(found.value, c) && found.value.targetHash != c.targetHash)
      && (answer == Refused("approval_payload_mismatch")
          <==> && !missing && SameAction(found.value, c) && found.value.targetHash == c.targetHash
               && found.value.payloadHash != c.payloadHash)
      && (answer == Refused("approval_required")
          <==> missing || (SameBinding(found.value, c) && found.value.status in {Rejected, Pending}))
      && (answer == Refused("approval_used")
          <==> !missing && SameBinding(found.value, c) && found.value.status == Used)
      && (answer == Refused("approval_expired")
          <==> && !missing && SameBinding(found.value, c)
               && (|| found.value.status == Expired
                   || (found.value.status == Approved && t.AtOrAfter(c.claimedAt, found.value.expiresAt))))
      && (answer.Verified?
          <==> && !missing && SameBinding(found.value, c) && found.value.status == Approved
               && !t.AtOrAfter(c.claimedAt, found.value.expiresAt))
      && (answer.Verified? ==> answer.approvalId == found.value.id)
  {
  }

  /** Rows stored under their own ids. */
  predicate StoredById(rows: Rows) {
    forall id | id in rows :: rows[id].id == id
  }

  lemma {:induction false} AlwaysStoredById(t: TimeLib, rows: Rows, ops: seq<RepoOp>)
    requires StoredById(rows)
    ensures StoredById(RepoRun(t, rows, ops))
    decreases |ops|
  {
    if ops != [] {
      AlwaysStoredById(t, RepoStep(t, rows, ops[0]), ops[1..]);
    }
  }

  /** After any run of the repository the id that verification returns is the one that was asked for. */
  lemma VerifiedIdIsRequested(t: TimeLib, ops: seq<RepoOp>, c: ClaimInput)
    ensures var found := DirectAnswer(t, Mapped(RepoRun(t, map[], ops)), CallFind(c.approvalId)).rec;
      var answer := VerifyApproval(t, found, c);
      answer.Verified? ==> answer.approvalId == c.approvalId
  {
    AlwaysStoredById(t, map[], ops);
  }

  /**
    A claim wins exactly when verification at the same instant would have passed just before, the
    instant is well formed and the record carries no earlier use, which verification does not look at.
   */
  lemma ClaimIffVerified(t: TimeLib, recs: Records, c: ClaimInput)
    ensures var found := DirectAnswer(t, recs, CallFind(c.approvalId)).rec;
      DirectClaimWins(t, recs, c)
      <==> VerifyApproval(t, found, c).Verified? && t.isIso(c.claimedAt) && !Truthy(found.value.usedAt)
    ensures var after := DirectClaim(t, recs, c);
      DirectClaimWins(t, recs, c) ==>
        && !DirectClaimWins(t, after, c)
        && VerifyApproval(t, DirectAnswer(t, after, CallFind(c.approvalId)).rec, c) == Refused("approval_used")
  {
  }

  /**
    Verification does not look at `usedAt`: once a won claim is approved again, verification passes the used
    record, and only the claim itself refuses it.
   */
  lemma ReapprovedPassesVerification(t: TimeLib, rows: Rows, c: ClaimInput)
    requires t.Lawful() && ClaimWins(t, rows, c.tenantId, c)
    ensures var reapproved := SetStatus(ClaimRow(t, rows, c.tenantId, c), c.tenantId, c.approvalId, Approved);
      var found := DirectAnswer(t, Mapped(reapproved), CallFind(c.approvalId)).rec;
      && found.Some? && found.value.usedAt == Some(c.claimedAt)
      && VerifyApproval(t, found, c).Verified?
      && !ClaimWins(t, reapproved, c.tenantId, c) && !DirectClaimWins(t, Mapped(reapproved), c)
  {
  }

  /** Verification of a request against the store's records as they are. */
  predicate Verifies(t: TimeLib, rows: Rows, c: ClaimInput) {
    VerifyApproval(t, DirectAnswer(t, Mapped(rows), CallFind(c.approvalId)).rec, c).Verified?
  }

  /** Some timestamp is not at or after the expiry, as any string that is no date. */
  ghost predicate CanBeOpen(t: TimeLib, expiresAt: string) {
    exists at :: !t.AtOrAfter(at, expiresAt)
  }

  /** Some request verifies for an id exactly when its row is stored, approved and can still be open. */
  lemma VerifiableIff(t: TimeLib, rows: Rows, id: string)
    ensures (exists c: ClaimInput :: c.approvalId == id && Verifies(t, rows, c))
       <==> id in rows && rows[id].status == Approved && CanBeOpen(t, rows[id].expiresAt)
  {
    if id in rows && rows[id].status == Approved && CanBeOpen(t, rows[id].expiresAt) {
      var r := rows[id];
      var at :| !t.AtOrAfter(at, r.expiresAt);
      var c := ClaimInput(r.tenantId, r.workUnitId, r.actionPreviewId, id, r.actionType, r.targetHash,
                          r.payloadHash, at);
      assert Verifies(t, rows, c);
    }
    if c: ClaimInput :| c.approvalId == id && Verifies(t, rows, c) {
      assert !t.AtOrAfter(c.claimedAt, rows[id].expiresAt);
    }
  }

  /** No request verifies for a used id. */
  ghost predicate RefusesUsed(t: TimeLib, rows: Rows) {
    forall c | Verifies(t, rows, c) :: !IsUsed(rows, c.approvalId)
  }

  predicate NoUsedApproved(rows: Rows) {
    forall id | id in rows && Truthy(rows[id].usedAt) :: rows[id].status != Approved
  }

  lemma RefusesUsedIff(t: TimeLib, rows: Rows)
    requires forall expiresAt :: CanBeOpen(t, expiresAt)
    ensures RefusesUsed(t, rows) <==> NoUsedApproved(rows)
  {
    if RefusesUsed(t, rows) {
      forall id | IsUsed(rows, id) ensures rows[id].status != Approved {
        VerifiableIff(t, rows, id);
      }
    }
  }

  /** The step stores approval on a used row: a status write on the tenant's own row, or a create. */
  predicate ApprovesUsed(rows: Rows, op: RepoOp) {
    match op
    case OpSetStatus(tenant, id, status) => status == Approved && FindRow(rows, tenant, id).Some? && IsUsed(rows, id)
    case OpCreate(_, row) => row.status == Approved && Truthy(row.usedAt)
    case _ => false
  }

  lemma StepNoUsedApprovedIff(t: TimeLib, rows: Rows, op: RepoOp)
    requires NoUsedApproved(rows)
    ensures NoUsedApproved(RepoStep(t, rows, op)) <==> !ApprovesUsed(rows, op)
  {
    var next := RepoStep(t, rows, op);
    if ApprovesUsed(rows, op) {
      var id := if op.OpCreate? then op.row.id else op.id;
      assert IsUsed(next, id) && next[id].status == Approved;
    }
  }

  ghost predicate AlwaysRefusesUsed(t: TimeLib, rows: Rows, ops: seq<RepoOp>)
    decreases |ops|
  {
    RefusesUsed(t, rows) && (ops != [] ==> AlwaysRefusesUsed(t, RepoStep(t, rows, ops[0]), ops[1..]))
  }

  predicate NeverApprovesUsed(t: TimeLib, rows: Rows, ops: seq<RepoOp>)
    decreases |ops|
  {
    ops != [] ==> !ApprovesUsed(rows, ops[0]) && NeverApprovesUsed(t, RepoStep(t, rows, ops[0]), ops[1..])
  }

  /**
    Over every run, disciplined or not: at no point does any request verify for a used id, exactly when no step
    stores approval on a used row.
   */
  lemma {:induction false} VerificationRefusesUsedIff(t: TimeLib, rows: Rows, ops: seq<RepoOp>)
    requires NoUsedApproved(rows) && forall expiresAt :: CanBeOpen(t, expiresAt)
    ensures AlwaysRefusesUsed(t, rows, ops) <==> NeverApprovesUsed(t, rows, ops)
    decreases |ops|
  {
    RefusesUsedIff(t, rows);
    if ops != [] {
      var next := RepoStep(t, rows, ops[0]);
      StepNoUsedApprovedIff(t, rows, ops[0]);
      RefusesUsedIff(t, next);
      if NoUsedApproved(next) { VerificationRefusesUsedIff(t, next, ops[1..]); }
    }
  }

  /** Disciplined callers store approval on a used row only by a status write. */
  lemma DisciplinedApprovesUsedIff(rows: Rows, op: RepoOp)
    requires Disciplined(rows, op)
    ensures ApprovesUsed(rows, op)
       <==> op.OpSetStatus? && op.status == Approved && FindRow(rows, op.tenant, op.id).Some? && IsUsed(rows, op.id)
  {
  }

  // ---------- the objects ----------

  class InMemoryApprovalRepository {
    var records: Rows

    constructor ()
      ensures records == map[]
    {
      records := map[];
    }

    method Create(tenant: string, row: ApprovalRow) returns (r: ApprovalRow)
      modifies this
      ensures records == CreateRow(old(records), tenant, row) && r == records[row.id]
    {
      var stored := row.(tenantId := tenant);
      records := records[stored.id := stored];
      r := stored;
    }

    method FindById(tenant: string, id: string) returns (r: Option<ApprovalRow>)
      ensures r == FindRow(records, tenant, id)
    {
      if id in records && records[id].tenantId == tenant {
        r := Some(records[id]);
      } else {
        r := None;
      }
    }

    method UpdateStatus(tenant: string, id: string, status: Status) returns (r: Option<ApprovalRow>)
      modifies this
      ensures records == SetStatus(old(records), tenant, id, status)
      ensures r == FindRow(records, tenant, id)
    {
      if id !in records || records[id].tenantId != tenant { return None; }
      var u := records[id].(status := status);
      records := records[id := u];
      r := Some(u);
    }

    method MarkUsedAt(t: TimeLib, tenant: string, id: string, usedAt: string) returns (r: Option<ApprovalRow>)
      modifies this
      ensures records == MarkUsed(t, old(records), tenant, id, usedAt)
      ensures r.Some? <==> MarkWins(t, old(records), tenant, id, usedAt)
      ensures r.Some? ==> r == FindRow(records, tenant, id)
    {
      if id !in records { return None; }
      var row := records[id];
      if row.tenantId != tenant { return None; }
      if row.status != Approved { return None; }
      if Truthy(row.usedAt) { return None; }
      if t.After(usedAt, row.expiresAt) { return None; }
      var u := row.(status := Used, usedAt := Some(usedAt));
      records := records[id := u];
      r := Some(u);
    }

    method ClaimForRuntime(t: TimeLib, tenant: string, c: ClaimInput) returns (r: Option<ApprovalRow>)
      modifies this
      ensures records == ClaimRow(t, old(records), tenant, c)
      ensures r.Some? <==> ClaimWins(t, old(records), tenant, c)
      ensures r.Some? ==> r == FindRow(records, tenant, c.approvalId)
    {
      if !t.isIso(c.claimedAt) { return None; }
      if c.approvalId !in records { return None; }
      var row := records[c.approvalId];
      if row.tenantId != tenant { return None; }
      if row.workUnitId != c.workUnitId { return None; }
      if row.actionPreviewId != c.actionPreviewId { return None; }
      if row.actionType != c.actionType { return None; }
      if row.targetHash != c.targetHash { return None; }
      if row.payloadHash != c.payloadHash { return None; }
      if row.status != Approved { return None; }
      if Truthy(row.usedAt) { return None; }
      if t.AtOrAfter(c.claimedAt, row.expiresAt) { return None; }
      var u := row.(status := Used, usedAt := Some(c.claimedAt));
      records := records[c.approvalId := u];
      r := Some(u);
    }
  }

  class InMemoryApprovalStore {
    var records: Records

    constructor (initial: Records)
      ensures records == initial
    {
      records := initial;
    }

    method FindApprovalById(t: TimeLib, id: string) returns (r: Option<ApprovalRecord>)
      ensures Found(r) == DirectAnswer(t, records, CallFind(id))
    {
      r := if id in records then Some(records[id]) else None;
    }

    method MarkApprovalUsed(t: TimeLib, id: string, usedAt: string) returns (ok: bool)
      modifies this
      ensures records == DirectNext(t, old(records), CallMark(id, usedAt))
      ensures Claimed(ok) == DirectAnswer(t, old(records), CallMark(id, usedAt))
    {
      if id !in records { return false; }
      var record := records[id];
      if record.status != Approved { return false; }
      if Truthy(record.usedAt) { return false; }
      if t.After(usedAt, record.expiresAt) { return false; }
      records := records[id := record.(status := Used, usedAt := Some(usedAt))];
      ok := true;
    }

    method ClaimApprovalForRuntime(t: TimeLib, c: ClaimInput) returns (ok: bool)
      modifies this
      ensures records == DirectNext(t, old(records), CallClaim(c))
      ensures Claimed(ok) == DirectAnswer(t, old(records), CallClaim(c))
    {
      if !t.isIso(c.claimedAt) { return false; }
      if c.approvalId !in records { return false; }
      var record := records[c.approvalId];
      if record.tenantId != c.tenantId { return false; }
      if record.workUnitId != c.workUnitId { return false; }
      if record.actionPreviewId != c.actionPreviewId { return false; }
      if record.actionType != c.actionType { return false; }
      if record.targetHash != c.targetHash { return false; }
      if record.payloadHash != c.payloadHash { return false; }
      if record.status != Approved { return false; }
      if Truthy(record.usedAt) { return false; }
      if t.AtOrAfter(c.claimedAt, record.expiresAt) { return false; }
      records := records[c.approvalId := record.(status := Used, usedAt := Some(c.claimedAt))];
      ok := true;
    }
  }

  class RepositoryBackedApprovalStore {
    const repo: InMemoryApprovalRepository
    const tenant: string

    constructor (repo: InMemoryApprovalRepository, tenant: string)
      ensures this.repo == repo && this.tenant == tenant
    {
      this.repo := repo;
      this.tenant := tenant;
    }

    method FindApprovalById(t: TimeLib, id: string) returns (r: Option<ApprovalRecord>)
      ensures Found(r) == AdapterAnswer(t, repo.records, tenant, CallFind(id))
    {
      var row := repo.FindById(tenant, id);
      if row.None? { return None; }
      r := Some(RowToDomain(row.value));
    }

    method MarkApprovalUsed(t: TimeLib, id: string, usedAt: string) returns (ok: bool)
      modifies repo
      ensures repo.records == AdapterNext(t, old(repo.records), tenant, CallMark(id, usedAt))
      ensures Claimed(ok) == AdapterAnswer(t, old(repo.records), tenant, CallMark(id, usedAt))
    {
      var claimed := repo.MarkUsedAt(t, tenant, id, usedAt);
      ok := claimed.Some?;
    }

    method ClaimApprovalForRuntime(t: TimeLib, c: ClaimInput) returns (ok: bool)
      modifies repo
      ensures repo.records == AdapterNext(t, old(repo.records), tenant, CallClaim(c))
      ensures Claimed(ok) == AdapterAnswer(t, old(repo.records), tenant, CallClaim(c))
    {
      if !t.isIso(c.claimedAt) { return false; }
      if c.tenantId != tenant { return false; }
      var claimed := repo.ClaimForRuntime(t, tenant, c);
      ok := claimed.Some?;
    }
  }
}
