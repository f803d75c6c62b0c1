/**
  Approval records and the compare-and-set operations of the in-memory repository, as functions on its
  row map, with what holds over every run of them.
 */
module Approvals {
  import opened Prelude

  datatype Status = Pending | Approved | Rejected | Expired | Used

  /** A persistence row. */
  datatype ApprovalRow = ApprovalRow(
    id: string, tenantId: string, workUnitId: string, actionPreviewId: string,
    actionType: string, targetHash: string, payloadHash: string, status: Status,
    approvedByUserId: Option<string>, createdAt: string, approvedAt: Option<string>,
    expiresAt: string, usedAt: Option<string>)

  /** A domain record; same shape as a row, but a type of its own. */
  datatype ApprovalRecord = ApprovalRecord(
    id: string, tenantId: string, workUnitId: string, actionPreviewId: string,
    actionType: string, targetHash: string, payloadHash: string, status: Status,
    approvedByUserId: Option<string>, createdAt: string, approvedAt: Option<string>,
    expiresAt: string, usedAt: Option<string>)

  /**
    The platform's view of timestamps: the ISO-8601 UTC guard, and `new Date(s)` as an optional
    instant. An invalid date compares false with everything.
   */
  datatype TimeLib = TimeLib(isIso: string -> bool, instant: string -> Option<int>) {
    predicate AtOrAfter(a: string, b: string) {
      instant(a).Some? && instant(b).Some? && instant(a).value >= instant(b).value
    }

    predicate After(a: string, b: string) {
      instant(a).Some? && instant(b).Some? && instant(a).value > instant(b).value
    }

    /** All that is assumed of the timestamp guard: it never accepts the empty string. */
    ghost predicate Lawful() {
      !isIso("")
    }
  }

  datatype ClaimInput = ClaimInput(
    tenantId: string, workUnitId: string, actionPreviewId: string, approvalId: string,
    actionType: string, targetHash: string, payloadHash: string, claimedAt: string)

  type Rows = map<string, ApprovalRow>
  type Records = map<string, ApprovalRecord>

  // ---------- mappers ----------

  function RowToDomain(r: ApprovalRow): (d: ApprovalRecord)
    ensures DomainToRow(d) == r
  {
    ApprovalRecord(r.id, r.tenantId, r.workUnitId, r.actionPreviewId, r.actionType, r.targetHash,
                   r.payloadHash, r.status, r.approvedByUserId, r.createdAt, r.approvedAt,
                   r.expiresAt, r.usedAt)
  }

  function DomainToRow(d: ApprovalRecord): ApprovalRow {
    ApprovalRow(d.id, d.tenantId, d.workUnitId, d.actionPreviewId, d.actionType, d.targetHash,
                d.payloadHash, d.status, d.approvedByUserId, d.createdAt, d.approvedAt,
                d.expiresAt, d.usedAt)
  }

  // ---------- the repository ----------

  /** Everything of a row that no repository operation may change. */
  function Binding(r: ApprovalRow): ApprovalRow {
    r.(status := Pending, usedAt := None)
  }

  predicate IsUsed(rows: Rows, id: string) {
    id in rows && Truthy(rows[id].usedAt)
  }

  function CreateRow(rows: Rows, tenant: string, row: ApprovalRow): Rows {
    rows[row.id := row.(tenantId := tenant)]
  }

  function FindRow(rows: Rows, tenant: string, id: string): Option<ApprovalRow> {
    if id in rows && rows[id].tenantId == tenant then Some(rows[id]) else None
  }

  function SetStatus(rows: Rows, tenant: string, id: string, status: Status): Rows {
    if id in rows && rows[id].tenantId == tenant then rows[id := rows[id].(status := status)] else rows
  }

  /** The guard of `markUsed`: note that a use exactly at the expiry still succeeds. */
  predicate MarkWins(t: TimeLib, rows: Rows, tenant: string, id: string, usedAt: string) {
    && id in rows
    && rows[id].tenantId == tenant
    && rows[id].status == Approved
    && !Truthy(rows[id].usedAt)
    && !t.After(usedAt, rows[id].expiresAt)
  }

  function MarkUsed(t: TimeLib, rows: Rows, tenant: string, id: string, usedAt: string): Rows {
    if MarkWins(t, rows, tenant, id, usedAt)
    then rows[id := rows[id].(status := Used, usedAt := Some(usedAt))] else rows
  }

  /** The guard of `claimForRuntime`: every binding field, and expiry inclusive. */
  predicate ClaimWins(t: TimeLib, rows: Rows, tenant: string, c: ClaimInput) {
    && t.isIso(c.claimedAt)
    && c.approvalId in rows
    && var r := rows[c.approvalId];
    && r.tenantId == tenant
    && r.workUnitId == c.workUnitId
    && r.actionPreviewId == c.actionPreviewId
    && r.actionType == c.actionType
    && r.targetHash == c.targetHash
    && r.payloadHash == c.payloadHash
    && r.status == Approved
    && !Truthy(r.usedAt)
    && !t.AtOrAfter(c.claimedAt, r.expiresAt)
  }

  function ClaimRow(t: TimeLib, rows: Rows, tenant: string, c: ClaimInput): Rows {
    if ClaimWins(t, rows, tenant, c)
    then rows[c.approvalId := rows[c.approvalId].(status := Used, usedAt := Some(c.claimedAt))] else rows
  }

  /** The row is the caller's and its binding fields are those of the claim. */
  predicate Bound(rows: Rows, tenant: string, c: ClaimInput) {
    && FindRow(rows, tenant, c.approvalId).Some?
    && var r := rows[c.approvalId];
    && r.workUnitId == c.workUnitId && r.actionPreviewId == c.actionPreviewId && r.actionType == c.actionType
    && r.targetHash == c.targetHash && r.payloadHash == c.payloadHash
  }

  /**
    On a well-formed instant and a matching row a claim that wins could also be marked, and the two differ exactly at
    the instant of expiry: there `markUsed` still succeeds and `claimForRuntime` does not.
   */
  lemma MarkAndClaimDifferIff(t: TimeLib, rows: Rows, tenant: string, c: ClaimInput)
    requires t.isIso(c.claimedAt) && Bound(rows, tenant, c)
    ensures var at, end := t.instant(c.claimedAt), t.instant(rows[c.approvalId].expiresAt);
      var mark, claim := MarkWins(t, rows, tenant, c.approvalId, c.claimedAt), ClaimWins(t, rows, tenant, c);
      && (claim ==> mark)
      && (mark && !claim <==> && rows[c.approvalId].status == Approved && !Truthy(rows[c.approvalId].usedAt)
                              && at.Some? && at == end)
  {
  }

  /** A use records its own instant on its own row, and nothing else changes. */
  lemma UseIsRecorded(t: TimeLib, rows: Rows, tenant: string, id: string, usedAt: string, c: ClaimInput)
    ensures MarkWins(t, rows, tenant, id, usedAt)
        ==> MarkUsed(t, rows, tenant, id, usedAt) == rows[id := rows[id].(status := Used, usedAt := Some(usedAt))]
    ensures ClaimWins(t, rows, tenant, c)
        ==> ClaimRow(t, rows, tenant, c)
            == rows[c.approvalId := rows[c.approvalId].(status := Used, usedAt := Some(c.claimedAt))]
    ensures !MarkWins(t, rows, tenant, id, usedAt) ==> MarkUsed(t, rows, tenant, id, usedAt) == rows
    ensures !ClaimWins(t, rows, tenant, c) ==> ClaimRow(t, rows, tenant, c) == rows
  {
  }

  /** What a status write does: exactly the status of exactly the tenant's own row. */
  lemma StatusWrite(rows: Rows, tenant: string, id: string, status: Status)
    ensures var after := SetStatus(rows, tenant, id, status);
      && after.Keys == rows.Keys
      && (forall other | other in rows && (other != id || rows[other].tenantId != tenant) ::
            after[other] == rows[other])
      && (FindRow(rows, tenant, id).Some?
          ==> FindRow(after, tenant, id) == Some(FindRow(rows, tenant, id).value.(status := status)))
  {
  }

  // ---------- runs of the repository ----------

  datatype RepoOp =
    | OpCreate(tenant: string, row: ApprovalRow)
    | OpSetStatus(tenant: string, id: string, status: Status)
    | OpMarkUsed(tenant: string, id: string, usedAt: string)
    | OpClaim(tenant: string, claim: ClaimInput)

  function RepoStep(t: TimeLib, rows: Rows, op: RepoOp): Rows {
    match op
    case OpCreate(tenant, row) => CreateRow(rows, tenant, row)
    case OpSetStatus(tenant, id, status) => SetStatus(rows, tenant, id, status)
    case OpMarkUsed(tenant, id, usedAt) => MarkUsed(t, rows, tenant, id, usedAt)
    case OpClaim(tenant, c) => ClaimRow(t, rows, tenant, c)
  }

  /** The operation returned a row to its caller, that is, it won the one-time use of `id`. */
  predicate UsesApproval(t: TimeLib, rows: Rows, op: RepoOp, id: string) {
    match op
    case OpMarkUsed(tenant, opId, usedAt) => opId == id && MarkWins(t, rows, tenant, id, usedAt)
    case OpClaim(tenant, c) => c.approvalId == id && ClaimWins(t, rows, tenant, c)
    case _ => false
  }

  /** What callers owe the repository: fresh unused rows, and a timestamp when marking used. */
  predicate Disciplined(rows: Rows, op: RepoOp) {
    match op
    case OpCreate(_, row) => row.id !in rows && !Truthy(row.usedAt)
    case OpMarkUsed(_, _, usedAt) => usedAt != ""
    case _ => true
  }

  function RepoRun(t: TimeLib, rows: Rows, ops: seq<RepoOp>): Rows
    decreases |ops|
  {
    if ops == [] then rows else RepoRun(t, RepoStep(t, rows, ops[0]), ops[1..])
  }

  predicate DisciplinedRun(t: TimeLib, rows: Rows, ops: seq<RepoOp>)
    decreases |ops|
  {
    ops != [] ==> Disciplined(rows, ops[0]) && DisciplinedRun(t, RepoStep(t, rows, ops[0]), ops[1..])
  }

  /** How many operations of the run won the use of `id`. */
  function Uses(t: TimeLib, rows: Rows, ops: seq<RepoOp>, id: string): nat
    decreases |ops|
  {
    if ops == [] then 0 else
      (if UsesApproval(t, rows, ops[0], id) then 1 else 0) + Uses(t, RepoStep(t, rows, ops[0]), ops[1..], id)
  }

  function UsedCount(rows: Rows, id: string): nat {
    if IsUsed(rows, id) then 1 else 0
  }

  /** One disciplined step keeps the balance between uses handed out and rows carrying `usedAt`. */
  lemma StepBalance(t: TimeLib, rows: Rows, op: RepoOp, id: string)
    requires t.Lawful() && Disciplined(rows, op)
    ensures UsedCount(RepoStep(t, rows, op), id)
         == UsedCount(rows, id) + (if UsesApproval(t, rows, op, id) then 1 else 0)
    ensures id in rows ==> id in RepoStep(t, rows, op)
                           && Binding(RepoStep(t, rows, op)[id]) == Binding(rows[id])
  {
  }

  /**
    Conservation over every disciplined run: the uses handed out for an id are exactly the change of
    its `usedAt` mark, whatever statuses were written back in between, and bindings never change.
   */
  lemma {:induction false} UseConservation(t: TimeLib, rows: Rows, ops: seq<RepoOp>, id: string)
    requires t.Lawful() && DisciplinedRun(t, rows, ops)
    ensures UsedCount(rows, id) + Uses(t, rows, ops, id) == UsedCount(RepoRun(t, rows, ops), id)
    ensures id in rows ==> id in RepoRun(t, rows, ops) && Binding(RepoRun(t, rows, ops)[id]) == Binding(rows[id])
    decreases |ops|
  {
    if ops != [] {
      StepBalance(t, rows, ops[0], id);
      UseConservation(t, RepoStep(t, rows, ops[0]), ops[1..], id);
    }
  }

  function OpTenant(op: RepoOp): string {
    match op
    case OpCreate(tenant, _) => tenant
    case OpSetStatus(tenant, _, _) => tenant
    case OpMarkUsed(tenant, _, _) => tenant
    case OpClaim(tenant, _) => tenant
  }

  /** No operation touches another tenant's row, except a create that takes over its id. */
  lemma TenantsAreIsolated(t: TimeLib, rows: Rows, op: RepoOp, id: string)
    requires id in rows && rows[id].tenantId != OpTenant(op)
    ensures id in RepoStep(t, rows, op)
    ensures RepoStep(t, rows, op)[id] == rows[id] || (op.OpCreate? && op.row.id == id)
    ensures !UsesApproval(t, rows, op, id)
  {
  }

  /** A repository started empty hands out each approval at most once, and marks exactly those rows. */
  lemma OneUsePerApproval(t: TimeLib, ops: seq<RepoOp>, id: string)
    requires t.Lawful() && DisciplinedRun(t, map[], ops)
    ensures Uses(t, map[], ops, id) <= 1
    ensures Uses(t, map[], ops, id) == 1 <==> IsUsed(RepoRun(t, map[], ops), id)
  {
    UseConservation(t, map[], ops, id);
  }

  predicate NoCreates(ops: seq<RepoOp>) {
    forall op <- ops :: !op.OpCreate?
  }

  /** Two operations that use a row once more: approve it again, then mark it at its own expiry. */
  function Reuse(tenant: string, id: string, expiresAt: string): (ops: seq<RepoOp>)
    ensures NoCreates(ops)
  {
    [OpSetStatus(tenant, id, Approved), OpMarkUsed(tenant, id, expiresAt)]
  }

  lemma ReuseSucceeds(t: TimeLib, rows: Rows, id: string)
    requires id in rows && !Truthy(rows[id].usedAt)
    ensures Uses(t, rows, Reuse(rows[id].tenantId, id, rows[id].expiresAt), id) == 1
  {
    var ops := Reuse(rows[id].tenantId, id, rows[id].expiresAt);
    var reopened := RepoStep(t, rows, ops[0]);
    assert ops[1..] == [ops[1]] && ops[1..][1..] == [];
    assert UsesApproval(t, reopened, ops[1], id);
    assert Uses(t, reopened, ops[1..], id) == 1;
  }

  /** No later run without creates uses a stored row exactly when it carries `usedAt`, whatever its status. */
  lemma UnusableIff(t: TimeLib, rows: Rows, id: string)
    requires id in rows
    ensures (forall ops | NoCreates(ops) :: Uses(t, rows, ops, id) == 0) <==> Truthy(rows[id].usedAt)
  {
    if Truthy(rows[id].usedAt) {
      forall ops | NoCreates(ops) ensures Uses(t, rows, ops, id) == 0 {
        UsedStaysUsed(t, rows, ops, id);
      }
    } else {
      ReuseSucceeds(t, rows, id);
    }
  }

  /**
    Exactly which `create` calls leave an id unusable, whatever it was before: those whose row carries `usedAt`.
    Creating a used id again with an unused row lets it be used again.
   */
  lemma RecreatedUnusableIff(t: TimeLib, rows: Rows, tenant: string, row: ApprovalRow)
    ensures (forall ops | NoCreates(ops) :: Uses(t, CreateRow(rows, tenant, row), ops, row.id) == 0)
       <==> Truthy(row.usedAt)
  {
    UnusableIff(t, CreateRow(rows, tenant, row), row.id);
  }

  /**
    Exactly when a successful mark is final against every later run without creates. The code tests `usedAt` for
    truthiness, so marking with an empty timestamp leaves a row that a later status write makes usable again.
   */
  lemma MarkIsFinalIffTimestamped(t: TimeLib, rows: Rows, tenant: string, id: string, usedAt: string)
    requires MarkWins(t, rows, tenant, id, usedAt)
    ensures (forall ops | NoCreates(ops) :: Uses(t, MarkUsed(t, rows, tenant, id, usedAt), ops, id) == 0)
       <==> usedAt != ""
  {
    UnusableIff(t, MarkUsed(t, rows, tenant, id, usedAt), id);
  }

  lemma {:induction false} UsedStaysUsed(t: TimeLib, rows: Rows, ops: seq<RepoOp>, id: string)
    requires IsUsed(rows, id) && NoCreates(ops)
    ensures Uses(t, rows, ops, id) == 0 && IsUsed(RepoRun(t, rows, ops), id)
    decreases |ops|
  {
    if ops != [] {
      assert ops[0] in ops && forall op <- ops[1..] :: op in ops;
      UsedStaysUsed(t, RepoStep(t, rows, ops[0]), ops[1..], id);
    }
  }
}
