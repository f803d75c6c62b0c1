/**
  Any number of gate runs interleaved with each other, with kill-switch changes and with every
  disciplined use of the approval repository by anyone else.
 */
module GateSystem {
  import opened Prelude
  import opened Approvals
  import opened Eligibility
  import opened Gate

  datatype Proc = Proc(store: StoreRef, run: Run)

  datatype System = System(rows: Rows, killSwitchOn: bool, procs: map<nat, Proc>)

  /** Clock readings, sessions and resolver answers are whatever the environment supplies at that moment. */
  datatype Action =
    | Call(pid: nat, store: StoreRef, request: Request, session: Session, now: string)
    | Answered(pid: nat, answer: ResolverAnswer, session: Session, claimAt: string, errorAt: string)
    | Settled(pid: nat, receiptThrows: bool, errorAt: string)
    | Switch(on: bool)
    | Repository(op: RepoOp)

  /** An action whose guard fails does not happen. */
  function Step(p: Platform, s: System, a: Action): System {
    match a
    case Call(pid, store, request, session, now) =>
      if pid in s.procs then s
      else s.(procs := s.procs[pid := Proc(store, Begin(request, session, s.killSwitchOn, now))])
    case Answered(pid, answer, session, claimAt, errorAt) =>
      if pid !in s.procs || !s.procs[pid].run.phase.AwaitingEvidence? then s
      else
        var proc := s.procs[pid];
        var (run, rows) := Resume(p, proc.run, proc.store, s.rows, answer, session, s.killSwitchOn, claimAt, errorAt);
        s.(rows := rows, procs := s.procs[pid := proc.(run := run)])
    case Settled(pid, receiptThrows, errorAt) =>
      if pid !in s.procs || !s.procs[pid].run.phase.AwaitingClaim? then s
      else s.(procs := s.procs[pid := s.procs[pid].(run := Settle(s.procs[pid].run, receiptThrows, errorAt))])
    case Switch(on) => s.(killSwitchOn := on)
    case Repository(op) => if Disciplined(s.rows, op) then s.(rows := RepoStep(p.time, s.rows, op)) else s
  }

  function Exec(p: Platform, s: System, acts: seq<Action>): System {
    if acts == [] then s else Step(p, Exec(p, s, acts[..|acts| - 1]), acts[|acts| - 1])
  }

  /** The evidence of a run that won its claim and has not failed since. */
  function Holding(r: Run): Option<Evidence> {
    match r.phase
    case AwaitingClaim(e, Won) => Some(e)
    case Done(Authorized(e)) => Some(e)
    case _ => None
  }

  predicate Holds(s: System, pid: nat, id: string) {
    pid in s.procs && Holding(s.procs[pid].run).Some? && Holding(s.procs[pid].run).value.action.approvalId == id
  }

  ghost predicate Inv(s: System) {
    && (forall pid <- s.procs :: AuditInv(s.procs[pid].run))
    && (forall pid, id :: Holds(s, pid, id) ==> IsUsed(s.rows, id))
    && (forall pid, other, id :: Holds(s, pid, id) && Holds(s, other, id) ==> pid == other)
  }

  lemma ResumeClaims(p: Platform, r: Run, store: StoreRef, rows: Rows, answer: ResolverAnswer, session: Session,
                     killSwitchOn: bool, claimAt: string, errorAt: string)
    requires p.Lawful() && r.phase.AwaitingEvidence?
    ensures var (next, rows') := Resume(p, r, store, rows, answer, session, killSwitchOn, claimAt, errorAt);
      if Holding(next).None? then
        || rows' == rows
        || (&& store == Failing(true) && next.phase.AwaitingClaim? && next.phase.outcome == Broken
            && var e := next.phase.evidence;
            && rows' == ClaimRow(p.time, rows, e.action.tenantId, ClaimFor(e)))
      else
        var e := Holding(next).value;
        && next.phase == AwaitingClaim(e, Won) && next.request == r.request
        && killSwitchOn && HasExecutePermission(session) && answer.Resolved?
        && EvaluateResolved(p, answer.bundle, session, claimAt, r.request) == Eligible(e)
        && ClaimWins(p.time, rows, e.action.tenantId, ClaimFor(e))
        && rows' == ClaimRow(p.time, rows, e.action.tenantId, ClaimFor(e))
        && !IsUsed(rows, e.action.approvalId) && IsUsed(rows', e.action.approvalId)
  {
  }

  /** A row once used stays used in every step. */
  lemma UsedStays(p: Platform, s: System, a: Action, id: string)
    requires p.Lawful() && IsUsed(s.rows, id)
    ensures IsUsed(Step(p, s, a).rows, id)
  {
    if a.Answered? && a.pid in s.procs && s.procs[a.pid].run.phase.AwaitingEvidence? {
      var proc := s.procs[a.pid];
      ResumeClaims(p, proc.run, proc.store, s.rows, a.answer, a.session, s.killSwitchOn, a.claimAt, a.errorAt);
    }
  }

  /** One run moves: the invariant survives when its new holding, if any, is used now and was free before. */
  lemma MoveKeepsInv(s: System, s': System, pid: nat)
    requires Inv(s) && forall id | IsUsed(s.rows, id) :: IsUsed(s'.rows, id)
    requires s'.procs.Keys == s.procs.Keys + {pid} && AuditInv(s'.procs[pid].run)
    requires forall q <- s.procs | q != pid :: s'.procs[q] == s.procs[q]
    requires forall id | Holds(s', pid, id) :: Holds(s, pid, id) || (IsUsed(s'.rows, id) && !IsUsed(s.rows, id))
    ensures Inv(s')
  {
    forall q, id | Holds(s', q, id) ensures IsUsed(s'.rows, id) && (q != pid ==> Holds(s, q, id)) {
      assert q != pid ==> Holds(s, q, id);
      assert Holds(s, q, id) ==> IsUsed(s.rows, id);
    }
  }

  lemma AnsweredKeepsInv(p: Platform, s: System, a: Action)
    requires p.Lawful() && Inv(s) && a.Answered? && a.pid in s.procs && s.procs[a.pid].run.phase.AwaitingEvidence?
    ensures Inv(Step(p, s, a))
  {
    var s', proc := Step(p, s, a), s.procs[a.pid];
    forall id | IsUsed(s.rows, id) ensures IsUsed(s'.rows, id) { UsedStays(p, s, a, id); }
    ResumeAudit(p, proc.run, proc.store, s.rows, a.answer, a.session, s.killSwitchOn, a.claimAt, a.errorAt);
    ResumeClaims(p, proc.run, proc.store, s.rows, a.answer, a.session, s.killSwitchOn, a.claimAt, a.errorAt);
    MoveKeepsInv(s, s', a.pid);
  }

  lemma SettledKeepsInv(p: Platform, s: System, a: Action)
    requires p.Lawful() && Inv(s) && a.Settled? && a.pid in s.procs && s.procs[a.pid].run.phase.AwaitingClaim?
    ensures Inv(Step(p, s, a))
  {
    SettleAudit(s.procs[a.pid].run, a.receiptThrows, a.errorAt);
    MoveKeepsInv(s, Step(p, s, a), a.pid);
  }

  lemma OthersKeepInv(p: Platform, s: System, a: Action)
    requires p.Lawful() && Inv(s) && !a.Answered? && !a.Settled?
    ensures Inv(Step(p, s, a))
  {
    var s' := Step(p, s, a);
    forall id | IsUsed(s.rows, id) ensures IsUsed(s'.rows, id) { UsedStays(p, s, a, id); }
    if a.Call? && a.pid !in s.procs {
      BeginAudit(a.request, a.session, s.killSwitchOn, a.now);
      MoveKeepsInv(s, s', a.pid);
    } else {
      assert forall q, id :: Holds(s', q, id) <==> Holds(s, q, id);
    }
  }

  lemma StepKeepsInv(p: Platform, s: System, a: Action)
    requires p.Lawful() && Inv(s)
    ensures Inv(Step(p, s, a))
  {
    if a.Answered? {
      if a.pid in s.procs && s.procs[a.pid].run.phase.AwaitingEvidence? { AnsweredKeepsInv(p, s, a); }
    } else if a.Settled? {
      if a.pid in s.procs && s.procs[a.pid].run.phase.AwaitingClaim? { SettledKeepsInv(p, s, a); }
    } else {
      OthersKeepInv(p, s, a);
    }
  }

  lemma {:induction false} Reachable(p: Platform, s: System, acts: seq<Action>)
    requires p.Lawful() && s.procs == map[]
    ensures Inv(Exec(p, s, acts))
  {
    if acts != [] {
      Reachable(p, s, acts[..|acts| - 1]);
      StepKeepsInv(p, Exec(p, s, acts[..|acts| - 1]), acts[|acts| - 1]);
    }
  }

  // ---------- main results ----------

  predicate Succeeded(s: System, pid: nat) {
    pid in s.procs && s.procs[pid].run.phase.Done? && s.procs[pid].run.phase.result.Authorized?
  }

  function ReceiptOf(s: System, pid: nat): Evidence
    requires Succeeded(s, pid)
  {
    s.procs[pid].run.phase.result.receipt
  }

  /** In every interleaving at most one run succeeds per approval. */
  lemma SingleWinner(p: Platform, s: System, acts: seq<Action>, pid: nat, other: nat)
    requires p.Lawful() && s.procs == map[] && pid != other
    requires Succeeded(Exec(p, s, acts), pid) && Succeeded(Exec(p, s, acts), other)
    ensures ReceiptOf(Exec(p, s, acts), pid).action.approvalId != ReceiptOf(Exec(p, s, acts), other).action.approvalId
  {
    var end := Exec(p, s, acts);
    Reachable(p, s, acts);
    assert Holds(end, pid, ReceiptOf(end, pid).action.approvalId);
    assert Holds(end, other, ReceiptOf(end, other).action.approvalId);
  }

  /** Every run in every reachable state: the audit buffer is as documented, flushed once when done. */
  lemma AuditOfEveryRun(p: Platform, s: System, acts: seq<Action>, pid: nat)
    requires p.Lawful() && s.procs == map[] && pid in Exec(p, s, acts).procs
    ensures AuditInv(Exec(p, s, acts).procs[pid].run)
  {
    Reachable(p, s, acts);
  }

  /** Step `i` of the run takes the one-time use of `id`. */
  ghost predicate TakesUse(p: Platform, s: System, acts: seq<Action>, i: nat, id: string)
    requires i < |acts|
  {
    !IsUsed(Exec(p, s, acts[..i]).rows, id) && IsUsed(Exec(p, s, acts[..i + 1]).rows, id)
  }

  /**
    The step is the run's own claim: the switch is on, the session snapshot may execute, the evidence is
    sound at that instant, and exactly this approved and unused row, bound to the very action of the
    receipt, becomes used at the evidence's instant.
   */
  ghost predicate ClaimsNow(p: Platform, before: System, a: Action, after: System, pid: nat, request: Request,
                            e: Evidence)
  {
    var id := e.action.approvalId;
    && a.Answered? && a.pid == pid && a.answer.Resolved?
    && before.killSwitchOn && IsOwner(a.session)
    && Sound(p, e, a.answer.bundle, a.session, a.claimAt, request)
    && id in before.rows
    && var row := before.rows[id];
    && row.status == Approved && !Truthy(row.usedAt)
    && row.tenantId == e.action.tenantId && row.workUnitId == e.action.workUnitId
    && row.actionPreviewId == e.action.actionPreviewId && row.actionType == e.action.actionType
    && row.targetHash == e.action.targetHash && row.payloadHash == e.action.payloadHash
    && !p.time.AtOrAfter(e.issuedAt, row.expiresAt)
    && after.rows == before.rows[id := row.(status := Used, usedAt := Some(e.issuedAt))]
  }

  ghost predicate OwnClaim(p: Platform, s: System, acts: seq<Action>, j: nat, pid: nat, request: Request, e: Evidence)
    requires j < |acts|
  {
    ClaimsNow(p, Exec(p, s, acts[..j]), acts[j], Exec(p, s, acts[..j + 1]), pid, request, e)
  }

  lemma UsedStaysAt(p: Platform, s: System, acts: seq<Action>, k: nat, id: string)
    requires p.Lawful() && k < |acts| && IsUsed(Exec(p, s, acts[..k]).rows, id)
    ensures IsUsed(Exec(p, s, acts[..k + 1]).rows, id)
  {
    var before := Exec(p, s, acts[..k]);
    assert acts[..k + 1][..k] == acts[..k];
    assert Exec(p, s, acts[..k + 1]) == Step(p, before, acts[k]);
    UsedStays(p, before, acts[k], id);
  }

  lemma {:induction false} UsedForever(p: Platform, s: System, acts: seq<Action>, i: nat, k: nat, id: string)
    requires p.Lawful() && i <= k <= |acts| && IsUsed(Exec(p, s, acts[..i]).rows, id)
    ensures IsUsed(Exec(p, s, acts[..k]).rows, id)
    decreases k - i
  {
    if i < k {
      UsedStaysAt(p, s, acts, i, id);
      UsedForever(p, s, acts, i + 1, k, id);
    }
  }

  /** Whoever takes it, an approval is taken at most once in a run. */
  lemma TakenOnce(p: Platform, s: System, acts: seq<Action>, i: nat, j: nat, id: string)
    requires p.Lawful() && i < |acts| && j < |acts|
    requires TakesUse(p, s, acts, i, id) && TakesUse(p, s, acts, j, id)
    ensures i == j
  {
    if i < j {
      UsedForever(p, s, acts, i + 1, j, id);
    } else if j < i {
      UsedForever(p, s, acts, j + 1, i, id);
    }
  }

  predicate HeldBefore(before: System, pid: nat, run: Run) {
    && pid in before.procs
    && Holding(before.procs[pid].run) == Holding(run) && before.procs[pid].run.request == run.request
  }

  /** A run that starts to hold evidence does so by claiming in this very step. */
  lemma NewHolderClaims(p: Platform, before: System, a: Action, pid: nat)
    requires p.Lawful() && pid in Step(p, before, a).procs && Holding(Step(p, before, a).procs[pid].run).Some?
    ensures var run := Step(p, before, a).procs[pid].run;
      || HeldBefore(before, pid, run)
      || ClaimsNow(p, before, a, Step(p, before, a), pid, run.request, Holding(run).value)
  {
    if a.Answered? && a.pid == pid && pid in before.procs && before.procs[pid].run.phase.AwaitingEvidence? {
      var proc := before.procs[pid];
      ResumeClaims(p, proc.run, proc.store, before.rows, a.answer, a.session, before.killSwitchOn,
                   a.claimAt, a.errorAt);
      EligibleIsSound(p, a.answer.bundle, a.session, a.claimAt, proc.run.request);
    }
  }

  lemma {:induction false} HolderClaimed(p: Platform, s: System, acts: seq<Action>, pid: nat) returns (j: nat)
    requires p.Lawful() && s.procs == map[] && pid in Exec(p, s, acts).procs
    requires Holding(Exec(p, s, acts).procs[pid].run).Some?
    ensures j < |acts|
    ensures var run := Exec(p, s, acts).procs[pid].run;
      OwnClaim(p, s, acts, j, pid, run.request, Holding(run).value)
  {
    var n := |acts| - 1;
    var before := Exec(p, s, acts[..n]);
    var run := Exec(p, s, acts).procs[pid].run;
    assert acts[..n + 1] == acts;
    NewHolderClaims(p, before, acts[n], pid);
    if HeldBefore(before, pid, run) {
      j := HolderClaimed(p, s, acts[..n], pid);
      assert acts[..n][..j] == acts[..j] && acts[..n][..j + 1] == acts[..j + 1];
    } else {
      j := n;
    }
  }

  /** Each success owns exactly one use of its approval, and that use is its own claim. */
  lemma SuccessOwnsItsUse(p: Platform, s: System, acts: seq<Action>, pid: nat) returns (j: nat)
    requires p.Lawful() && s.procs == map[] && Succeeded(Exec(p, s, acts), pid)
    ensures var end := Exec(p, s, acts);
      var e := ReceiptOf(end, pid);
      && j < |acts|
      && OwnClaim(p, s, acts, j, pid, end.procs[pid].run.request, e)
      && (forall i | 0 <= i < |acts| :: TakesUse(p, s, acts, i, e.action.approvalId) <==> i == j)
  {
    j := HolderClaimed(p, s, acts, pid);
    var e := ReceiptOf(Exec(p, s, acts), pid);
    assert e.issuedAt != "";
    assert TakesUse(p, s, acts, j, e.action.approvalId);
    forall i | 0 <= i < |acts| && TakesUse(p, s, acts, i, e.action.approvalId) ensures i == j {
      TakenOnce(p, s, acts, i, j, e.action.approvalId);
    }
  }

  // ---------- every use taken has one owner ----------

  /** Another user of the repository wins the use. */
  predicate OthersTake(p: Platform, before: System, a: Action, id: string) {
    a.Repository? && Disciplined(before.rows, a.op) && UsesApproval(p.time, before.rows, a.op, id)
  }

  /** A gate run's claim takes the use: it wins, or its store writes and then fails. */
  predicate GateTakes(p: Platform, before: System, a: Action, id: string) {
    && a.Answered? && a.pid in before.procs && before.procs[a.pid].run.phase.AwaitingEvidence?
    && var proc := before.procs[a.pid];
    && var run := Resume(p, proc.run, proc.store, before.rows, a.answer, a.session, before.killSwitchOn,
                         a.claimAt, a.errorAt).0;
    && run.phase.AwaitingClaim? && run.phase.evidence.action.approvalId == id
    && (|| run.phase.outcome == Won
        || (proc.store == Failing(true)
            && ClaimWins(p.time, before.rows, run.phase.evidence.action.tenantId, ClaimFor(run.phase.evidence))))
  }

  /** A step takes the use of an approval exactly when it is a winning repository operation or a taking claim. */
  lemma StepTakesIff(p: Platform, before: System, a: Action, id: string)
    requires p.Lawful()
    ensures !IsUsed(before.rows, id) && IsUsed(Step(p, before, a).rows, id)
       <==> OthersTake(p, before, a, id) || GateTakes(p, before, a, id)
  {
    if a.Answered? && a.pid in before.procs && before.procs[a.pid].run.phase.AwaitingEvidence? {
      var proc := before.procs[a.pid];
      ResumeTakesIff(p, proc.run, proc.store, before.rows, a.answer, a.session, before.killSwitchOn,
                     a.claimAt, a.errorAt, id);
    } else if a.Repository? && Disciplined(before.rows, a.op) {
      StepBalance(p.time, before.rows, a.op, id);
    }
  }

  lemma ResumeTakesIff(p: Platform, r: Run, store: StoreRef, rows: Rows, answer: ResolverAnswer, session: Session,
                       killSwitchOn: bool, claimAt: string, errorAt: string, id: string)
    requires p.Lawful() && r.phase.AwaitingEvidence?
    ensures var (next, rows') := Resume(p, r, store, rows, answer, session, killSwitchOn, claimAt, errorAt);
      !IsUsed(rows, id) && IsUsed(rows', id)
      <==> && next.phase.AwaitingClaim? && next.phase.evidence.action.approvalId == id
           && (|| next.phase.outcome == Won
               || (store == Failing(true)
                   && ClaimWins(p.time, rows, next.phase.evidence.action.tenantId, ClaimFor(next.phase.evidence))))
  {
    var next := Recheck(p, r, answer, session, killSwitchOn, claimAt, errorAt);
    if next.phase.AwaitingClaim? {
      ClaimTakesIff(p.time, rows, store, ClaimFor(next.phase.evidence), id);
    }
  }

  lemma ClaimTakesIff(t: TimeLib, rows: Rows, store: StoreRef, c: ClaimInput, id: string)
    requires t.Lawful()
    ensures var (outcome, rows') := Claim(t, rows, store, c);
      && (outcome == Won ==> ClaimWins(t, rows, c.tenantId, c))
      && (!IsUsed(rows, id) && IsUsed(rows', id)
          <==> c.approvalId == id && (outcome == Won || (store == Failing(true) && ClaimWins(t, rows, c.tenantId, c))))
  {
  }

  /** What one step does to a run that waits for its claim, or is done. */
  lemma WaitingStep(p: Platform, before: System, a: Action, pid: nat)
    requires pid in before.procs && !before.procs[pid].run.phase.AwaitingEvidence?
    ensures var run := before.procs[pid].run;
      pid in Step(p, before, a).procs
      && Step(p, before, a).procs[pid].run
         == if a.Settled? && a.pid == pid && run.phase.AwaitingClaim?
            then Settle(run, a.receiptThrows, a.errorAt) else run
  {
  }

  lemma {:induction false} DoneStays(p: Platform, s: System, acts: seq<Action>, k: nat, pid: nat)
    requires k <= |acts| && pid in Exec(p, s, acts[..k]).procs && Exec(p, s, acts[..k]).procs[pid].run.phase.Done?
    ensures pid in Exec(p, s, acts).procs && Exec(p, s, acts).procs[pid].run == Exec(p, s, acts[..k]).procs[pid].run
    decreases |acts| - k
  {
    if k < |acts| {
      ExecStep(p, s, acts, k);
      WaitingStep(p, Exec(p, s, acts[..k]), acts[k], pid);
      DoneStays(p, s, acts, k + 1, pid);
    } else {
      assert acts[..k] == acts;
    }
  }

  lemma ExecStep(p: Platform, s: System, acts: seq<Action>, k: nat)
    requires k < |acts|
    ensures Exec(p, s, acts[..k + 1]) == Step(p, Exec(p, s, acts[..k]), acts[k])
  {
    assert acts[..k + 1][..k] == acts[..k];
  }

  /** A waiting run that ends up done was settled by one step of its own, and unchanged until then. */
  lemma {:induction false} SettledAt(p: Platform, s: System, acts: seq<Action>, k: nat, pid: nat) returns (j: nat)
    requires k <= |acts| && pid in Exec(p, s, acts[..k]).procs
    requires Exec(p, s, acts[..k]).procs[pid].run.phase.AwaitingClaim?
    requires pid in Exec(p, s, acts).procs && Exec(p, s, acts).procs[pid].run.phase.Done?
    ensures k <= j < |acts| && acts[j].Settled? && acts[j].pid == pid
    ensures Exec(p, s, acts).procs[pid].run
         == Settle(Exec(p, s, acts[..k]).procs[pid].run, acts[j].receiptThrows, acts[j].errorAt)
    decreases |acts| - k
  {
    assert acts[..|acts|] == acts;
    assert k < |acts|;
    ExecStep(p, s, acts, k);
    WaitingStep(p, Exec(p, s, acts[..k]), acts[k], pid);
    if acts[k].Settled? && acts[k].pid == pid {
      j := k;
      DoneStays(p, s, acts, k + 1, pid);
    } else {
      j := SettledAt(p, s, acts, k + 1, pid);
    }
  }

  /** The use taken at step `i` of a run, and by whom. */
  lemma UseHasOneOwner(p: Platform, s: System, acts: seq<Action>, i: nat, id: string)
    requires p.Lawful() && i < |acts|
    ensures TakesUse(p, s, acts, i, id)
       <==> || OthersTake(p, Exec(p, s, acts[..i]), acts[i], id)
            || GateTakes(p, Exec(p, s, acts[..i]), acts[i], id)
  {
    ExecStep(p, s, acts, i);
    StepTakesIff(p, Exec(p, s, acts[..i]), acts[i], id);
  }

  /**
    What becomes of a use that a gate run takes, once that run is done: it has a receipt, for that very approval,
    exactly when the claim was won, so its store did not fail, and building the receipt did not throw.
   */
  lemma TakenUseIsReceiptedIff(p: Platform, s: System, acts: seq<Action>, i: nat, id: string) returns (j: nat)
    requires p.Lawful() && i < |acts| && GateTakes(p, Exec(p, s, acts[..i]), acts[i], id)
    requires var pid := acts[i].pid; pid in Exec(p, s, acts).procs && Exec(p, s, acts).procs[pid].run.phase.Done?
    ensures i < j < |acts| && acts[j].Settled? && acts[j].pid == acts[i].pid
    ensures Succeeded(Exec(p, s, acts), acts[i].pid)
       <==> Exec(p, s, acts[..i]).procs[acts[i].pid].store != Failing(true) && !acts[j].receiptThrows
    ensures Succeeded(Exec(p, s, acts), acts[i].pid)
        ==> ReceiptOf(Exec(p, s, acts), acts[i].pid).action.approvalId == id
  {
    var before, pid := Exec(p, s, acts[..i]), acts[i].pid;
    ExecStep(p, s, acts, i);
    TakerWaits(p, before, acts[i], id);
    j := SettledAt(p, s, acts, i + 1, pid);
  }

  lemma TakerWaits(p: Platform, before: System, a: Action, id: string)
    requires p.Lawful() && GateTakes(p, before, a, id)
    ensures a.pid in Step(p, before, a).procs
    ensures var phase := Step(p, before, a).procs[a.pid].run.phase;
      && phase.AwaitingClaim? && phase.evidence.action.approvalId == id
      && phase.outcome == if before.procs[a.pid].store == Failing(true) then Broken else Won
  {
  }

  // ---------- every failure has its cause ----------

  /** This step of the run's own is where it stops, and why. */
  ghost predicate StopsAt(p: Platform, before: System, a: Action, pid: nat, c: Cause) {
    match a
    case Call(id, _, request, session, _) =>
      id == pid && pid !in before.procs && CallCause(request, session, before.killSwitchOn) == Some(c)
    case Answered(id, answer, session, claimAt, _) =>
      && id == pid && pid in before.procs && before.procs[pid].run.phase.AwaitingEvidence?
      && AnswerCause(p, before.procs[pid].run.request, answer, session, before.killSwitchOn, claimAt) == Some(c)
    case Settled(id, receiptThrows, _) =>
      && id == pid && pid in before.procs && before.procs[pid].run.phase.AwaitingClaim?
      && SettleCause(before.procs[pid].run.phase.outcome, receiptThrows) == Some(c)
    case _ => false
  }

  lemma StopEnds(p: Platform, before: System, a: Action, pid: nat, c: Cause)
    requires Inv(before) && StopsAt(p, before, a, pid, c)
    ensures pid in Step(p, before, a).procs && EndedBy(Step(p, before, a).procs[pid].run, c)
  {
    match a
    case Call(_, _, request, session, now) => BeginIs(request, session, before.killSwitchOn, now);
    case Answered(_, answer, session, claimAt, errorAt) =>
      RecheckIs(p, before.procs[pid].run, answer, session, before.killSwitchOn, claimAt, errorAt);
    case Settled(_, receiptThrows, errorAt) => SettleIs(before.procs[pid].run, receiptThrows, errorAt);
  }

  /** A run that fails in this step stops in it. */
  lemma NewFailureStops(p: Platform, before: System, a: Action, pid: nat) returns (c: Cause)
    requires Inv(before) && pid in Step(p, before, a).procs
    requires Step(p, before, a).procs[pid].run.phase.Done? && !Succeeded(Step(p, before, a), pid)
    requires pid in before.procs ==> !before.procs[pid].run.phase.Done?
    ensures StopsAt(p, before, a, pid, c)
  {
    match a
    case Call(_, _, request, session, now) =>
      BeginIs(request, session, before.killSwitchOn, now);
      c := CallCause(request, session, before.killSwitchOn).value;
    case Answered(_, answer, session, claimAt, errorAt) =>
      var run := before.procs[pid].run;
      RecheckIs(p, run, answer, session, before.killSwitchOn, claimAt, errorAt);
      c := AnswerCause(p, run.request, answer, session, before.killSwitchOn, claimAt).value;
    case Settled(_, receiptThrows, errorAt) =>
      SettleIs(before.procs[pid].run, receiptThrows, errorAt);
      c := SettleCause(before.procs[pid].run.phase.outcome, receiptThrows).value;
  }

  /** Step `j` of the run is where `pid` stops, and why. */
  ghost predicate StoppedBy(p: Platform, s: System, acts: seq<Action>, j: nat, pid: nat, c: Cause) {
    j < |acts| && StopsAt(p, Exec(p, s, acts[..j]), acts[j], pid, c)
  }

  /** What stops a run decides its answer, its trail and its last event, for good. */
  lemma CauseDecides(p: Platform, s: System, acts: seq<Action>, j: nat, pid: nat, c: Cause)
    requires p.Lawful() && s.procs == map[] && StoppedBy(p, s, acts, j, pid, c)
    ensures pid in Exec(p, s, acts).procs && EndedBy(Exec(p, s, acts).procs[pid].run, c)
  {
    Reachable(p, s, acts[..j]);
    ExecStep(p, s, acts, j);
    StopEnds(p, Exec(p, s, acts[..j]), acts[j], pid, c);
    DoneStays(p, s, acts, j + 1, pid);
  }

  /** In every interleaving each failed run was stopped by a step of its own, for a cause that its answer tells. */
  lemma {:induction false} FailureHasCause(p: Platform, s: System, acts: seq<Action>, pid: nat)
      returns (j: nat, c: Cause)
    requires p.Lawful() && s.procs == map[] && pid in Exec(p, s, acts).procs
    requires Exec(p, s, acts).procs[pid].run.phase.Done? && !Succeeded(Exec(p, s, acts), pid)
    ensures StoppedBy(p, s, acts, j, pid, c)
    ensures EndedBy(Exec(p, s, acts).procs[pid].run, c)
  {
    var n := |acts| - 1;
    var before := Exec(p, s, acts[..n]);
    assert acts[..n + 1] == acts;
    ExecStep(p, s, acts, n);
    Reachable(p, s, acts[..n]);
    if pid in before.procs && before.procs[pid].run.phase.Done? {
      WaitingStep(p, before, acts[n], pid);
      j, c := FailureHasCause(p, s, acts[..n], pid);
      assert acts[..n][..j] == acts[..j];
    } else {
      j := n;
      c := NewFailureStops(p, before, acts[n], pid);
    }
    CauseDecides(p, s, acts, j, pid, c);
  }

  /** The run asks its store for the claim in this step, with this outcome. */
  ghost predicate Asks(p: Platform, before: System, a: Action, pid: nat, outcome: ClaimOutcome) {
    && a.Answered? && a.pid == pid && pid in before.procs && before.procs[pid].run.phase.AwaitingEvidence?
    && var run := before.procs[pid].run;
    && AnswerCause(p, run.request, a.answer, a.session, before.killSwitchOn, a.claimAt) == None
    && var claim := ClaimFor(EvaluateResolved(p, a.answer.bundle, a.session, a.claimAt, run.request).evidence);
    && outcome == OutcomeOf(before.procs[pid].store, StoreTakes(p.time, before.rows, before.procs[pid].store, claim))
  }

  lemma AskingWaits(p: Platform, before: System, a: Action, pid: nat)
    requires Inv(before)
    ensures forall outcome | Asks(p, before, a, pid, outcome) ::
      && pid in Step(p, before, a).procs
      && Step(p, before, a).procs[pid].run.phase.AwaitingClaim?
      && Step(p, before, a).procs[pid].run.phase.outcome == outcome
    ensures pid in Step(p, before, a).procs && Step(p, before, a).procs[pid].run.phase.AwaitingClaim?
        ==> || Asks(p, before, a, pid, Step(p, before, a).procs[pid].run.phase.outcome)
            || (pid in before.procs && before.procs[pid].run == Step(p, before, a).procs[pid].run)
  {
    if a.Answered? && a.pid == pid && pid in before.procs && before.procs[pid].run.phase.AwaitingEvidence? {
      RecheckIs(p, before.procs[pid].run, a.answer, a.session, before.killSwitchOn, a.claimAt, a.errorAt);
    } else if a.Call? {
      BeginIs(a.request, a.session, before.killSwitchOn, a.now);
    }
  }

  ghost predicate AskedAt(p: Platform, s: System, acts: seq<Action>, i: nat, pid: nat, outcome: ClaimOutcome) {
    i < |acts| && Asks(p, Exec(p, s, acts[..i]), acts[i], pid, outcome)
  }

  lemma {:induction false} WaitingAsked(p: Platform, s: System, acts: seq<Action>, pid: nat) returns (i: nat)
    requires p.Lawful() && s.procs == map[] && pid in Exec(p, s, acts).procs
    requires Exec(p, s, acts).procs[pid].run.phase.AwaitingClaim?
    ensures AskedAt(p, s, acts, i, pid, Exec(p, s, acts).procs[pid].run.phase.outcome)
  {
    var n := |acts| - 1;
    var before := Exec(p, s, acts[..n]);
    assert acts[..n + 1] == acts;
    ExecStep(p, s, acts, n);
    Reachable(p, s, acts[..n]);
    AskingWaits(p, before, acts[n], pid);
    if Asks(p, before, acts[n], pid, Exec(p, s, acts).procs[pid].run.phase.outcome) {
      i := n;
    } else {
      i := WaitingAsked(p, s, acts[..n], pid);
      assert acts[..n][..i] == acts[..i];
    }
  }

  /** The answer and trail of a claim that a store has refused. */
  predicate ReportedReplayed(r: Run) {
    r.phase == Done(Failed(UsedState, LinkageUsed)) && Kinds(r.events) == [Requested, EligibleSeen, ReplayedSeen]
  }

  lemma RefusedClaimIsReplayed(p: Platform, s: System, acts: seq<Action>, i: nat, pid: nat)
    requires p.Lawful() && s.procs == map[] && AskedAt(p, s, acts, i, pid, Lost)
    requires pid in Exec(p, s, acts).procs && Exec(p, s, acts).procs[pid].run.phase.Done?
    ensures ReportedReplayed(Exec(p, s, acts).procs[pid].run)
  {
    Reachable(p, s, acts[..i]);
    ExecStep(p, s, acts, i);
    AskingWaits(p, Exec(p, s, acts[..i]), acts[i], pid);
    var j := SettledAt(p, s, acts, i + 1, pid);
    AuditOfEveryRun(p, s, acts[..i + 1], pid);
    LostIsReplayed(Exec(p, s, acts[..i + 1]).procs[pid].run, acts[j].receiptThrows, acts[j].errorAt);
  }

  lemma LostIsReplayed(r: Run, receiptThrows: bool, errorAt: string)
    requires r.phase.AwaitingClaim? && r.phase.outcome == Lost && AuditInv(r)
    ensures ReportedReplayed(Settle(r, receiptThrows, errorAt))
  {
    SettleIs(r, receiptThrows, errorAt);
  }

  lemma ReplayedWasRefused(p: Platform, s: System, acts: seq<Action>, pid: nat) returns (i: nat)
    requires p.Lawful() && s.procs == map[]
    requires pid in Exec(p, s, acts).procs && ReportedReplayed(Exec(p, s, acts).procs[pid].run)
    ensures AskedAt(p, s, acts, i, pid, Lost)
  {
    var j, c := FailureHasCause(p, s, acts, pid);
    OnlyRefusalReplays(c);
    assert acts[j].Settled? && Exec(p, s, acts[..j]).procs[pid].run.phase.outcome == Lost;
    i := WaitingAsked(p, s, acts[..j], pid);
    assert acts[..j][..i] == acts[..i];
  }

  /**
    In every interleaving, a finished run reports its approval as used, with the replayed trail, exactly when it asked
    its store for the claim and the store answered and refused.
   */
  lemma ReplayedIffRefused(p: Platform, s: System, acts: seq<Action>, pid: nat)
    requires p.Lawful() && s.procs == map[]
    requires pid in Exec(p, s, acts).procs && Exec(p, s, acts).procs[pid].run.phase.Done?
    ensures ReportedReplayed(Exec(p, s, acts).procs[pid].run) <==> exists i :: AskedAt(p, s, acts, i, pid, Lost)
  {
    if i :| AskedAt(p, s, acts, i, pid, Lost) {
      RefusedClaimIsReplayed(p, s, acts, i, pid);
    }
    if ReportedReplayed(Exec(p, s, acts).procs[pid].run) {
      var i := ReplayedWasRefused(p, s, acts, pid);
    }
  }

  lemma OnlyRefusalReplays(c: Cause)
    ensures TrailOf(c) == [Requested, EligibleSeen, ReplayedSeen] <==> c == ClaimRefused
  {
    assert TrailOf(c) == [Requested, EligibleSeen, ReplayedSeen] ==> |TrailOf(c)| == 3 && TrailOf(c)[2] == ReplayedSeen;
  }
}
