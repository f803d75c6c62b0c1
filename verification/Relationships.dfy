/**
  Parent ownership in one repository bundle. Creating a preview or an approval first reads its parents
  and writes only after further awaits, so any other operation may run between check and write.
 */
module Relationships {
  import opened Prelude
  import opened Approvals

  datatype WorkUnit = WorkUnit(id: string, tenantId: string, status: string)

  datatype Preview = Preview(
    id: string, tenantId: string, workUnitId: string, actionType: string,
    targetHash: Option<string>, payloadHash: Option<string>)

  /** What `findById` hands out: missing hashes read as the empty string. */
  datatype PreviewView = PreviewView(workUnitId: string, actionType: string, targetHash: string, payloadHash: string)

  function View(p: Preview): PreviewView {
    PreviewView(p.workUnitId, p.actionType, OrElse(p.targetHash, ""), OrElse(p.payloadHash, ""))
  }

  /** A hash that was never stored reads as the empty string, which matches only an approval without one. */
  lemma MissingHashesReadEmpty(p: Preview)
    ensures View(p).targetHash == (if p.targetHash.Some? then p.targetHash.value else "")
    ensures View(p).payloadHash == (if p.payloadHash.Some? then p.payloadHash.value else "")
    ensures View(p).workUnitId == p.workUnitId && View(p).actionType == p.actionType
  {
  }

  type WorkUnits = map<string, WorkUnit>
  type Previews = map<string, Preview>

  datatype Stores = Stores(workUnits: WorkUnits, previews: Previews, approvals: Rows)

  // ---------- the atomic segments ----------

  function PutWorkUnit(s: Stores, tenant: string, row: WorkUnit): Stores {
    s.(workUnits := s.workUnits[JoinKey(tenant, row.id) := row.(tenantId := tenant)])
  }

  predicate WorkUnitFound(s: Stores, tenant: string, id: string) {
    JoinKey(tenant, id) in s.workUnits
  }

  function SetWorkUnitStatus(s: Stores, tenant: string, id: string, status: string): Stores {
    var k := JoinKey(tenant, id);
    if k in s.workUnits then s.(workUnits := s.workUnits[k := s.workUnits[k].(status := status)]) else s
  }

  function PutPreview(s: Stores, tenant: string, row: Preview): Stores {
    s.(previews := s.previews[JoinKey(tenant, row.id) := row.(tenantId := tenant)])
  }

  function FindPreview(s: Stores, tenant: string, id: string): Option<PreviewView> {
    var k := JoinKey(tenant, id);
    if k in s.previews then Some(View(s.previews[k])) else None
  }

  /** A status write leaves everything but the status of the tenant's own WorkUnit as it was. */
  lemma StatusOnly(s: Stores, tenant: string, id: string, status: string, k: string)
    ensures var s' := SetWorkUnitStatus(s, tenant, id, status);
      && s'.previews == s.previews && s'.approvals == s.approvals && s'.workUnits.Keys == s.workUnits.Keys
      && (k in s.workUnits && k != JoinKey(tenant, id) ==> s'.workUnits[k] == s.workUnits[k])
      && (k in s.workUnits && k == JoinKey(tenant, id) ==> s'.workUnits[k] == s.workUnits[k].(status := status))
  {
  }

  /** The first check of an approval's parents, on the preview read before the first await. */
  predicate PreviewNamesWorkUnit(view: Option<PreviewView>, row: ApprovalRow) {
    view.Some? && view.value.workUnitId == row.workUnitId
  }

  /** The checks after the last await, just before the write. */
  predicate PreviewNamesAction(view: PreviewView, row: ApprovalRow) {
    view.actionType == row.actionType && view.targetHash == row.targetHash && view.payloadHash == row.payloadHash
  }

  // ---------- runs ----------

  /** A create call suspended at an await, with what it has read so far. */
  datatype Pending =
    | PreviewChecked(tenant: string, preview: Preview, workUnitFound: bool)
    | PreviewRead(tenant: string, row: ApprovalRow, view: Option<PreviewView>)
    | WorkUnitRead(tenant: string, row: ApprovalRow, seen: PreviewView, workUnitFound: bool)
    | Returned(ok: bool)

  datatype World = World(stores: Stores, calls: map<nat, Pending>)

  datatype Act =
    | WriteWorkUnit(tenant: string, workUnit: WorkUnit)
    | WriteWorkUnitStatus(tenant: string, id: string, status: string)
    | CallPreview(call: nat, tenant: string, preview: Preview)
    | CallApproval(call: nat, tenant: string, row: ApprovalRow)
    | Proceed(call: nat)
    | OnApproval(op: RepoOp)

  /** What a suspended call does when it is resumed: its next await, or its return, and its write. */
  function Next(s: Stores, c: Pending): (Pending, Stores) {
    match c
    case PreviewChecked(tenant, preview, found) =>
      if found then (Returned(true), PutPreview(s, tenant, preview)) else (Returned(false), s)
    case PreviewRead(tenant, row, view) =>
      if PreviewNamesWorkUnit(view, row)
      then (WorkUnitRead(tenant, row, view.value, WorkUnitFound(s, tenant, row.workUnitId)), s)
      else (Returned(false), s)
    case WorkUnitRead(tenant, row, view, found) =>
      if found && PreviewNamesAction(view, row)
      then (Returned(true), s.(approvals := CreateRow(s.approvals, tenant, row)))
      else (Returned(false), s)
    case Returned(_) => (c, s)
  }

  function Step(t: TimeLib, w: World, a: Act): World {
    match a
    case WriteWorkUnit(tenant, row) => w.(stores := PutWorkUnit(w.stores, tenant, row))
    case WriteWorkUnitStatus(tenant, id, status) => w.(stores := SetWorkUnitStatus(w.stores, tenant, id, status))
    case CallPreview(call, tenant, preview) =>
      if call in w.calls then w
      else
        var found := WorkUnitFound(w.stores, tenant, preview.workUnitId);
        w.(calls := w.calls[call := PreviewChecked(tenant, preview, found)])
    case CallApproval(call, tenant, row) =>
      if call in w.calls then w
      else w.(calls := w.calls[call := PreviewRead(tenant, row, FindPreview(w.stores, tenant, row.actionPreviewId))])
    case Proceed(call) =>
      if call !in w.calls then w
      else
        var (c, s) := Next(w.stores, w.calls[call]);
        World(s, w.calls[call := c])
    case OnApproval(op) =>
      if op.OpCreate? then w else w.(stores := w.stores.(approvals := RepoStep(t, w.stores.approvals, op)))
  }

  /** Callers' duties: colon-free tenants, and a preview id is never reused for a different action. */
  predicate Careful(w: World, a: Act) {
    match a
    case WriteWorkUnit(tenant, _) => ColonFree(tenant)
    case CallPreview(_, tenant, _) => ColonFree(tenant)
    case CallApproval(_, tenant, _) => ColonFree(tenant)
    case Proceed(call) =>
      call in w.calls && w.calls[call].PreviewChecked? && w.calls[call].workUnitFound ==>
        var c := w.calls[call];
        var k := JoinKey(c.tenant, c.preview.id);
        k in w.stores.previews ==> View(w.stores.previews[k]) == View(c.preview)
    case _ => true
  }

  function Exec(t: TimeLib, w: World, acts: seq<Act>): World
    decreases |acts|
  {
    if acts == [] then w else Exec(t, Step(t, w, acts[0]), acts[1..])
  }

  predicate CarefulRun(t: TimeLib, w: World, acts: seq<Act>)
    decreases |acts|
  {
    acts != [] ==> Careful(w, acts[0]) && CarefulRun(t, Step(t, w, acts[0]), acts[1..])
  }

  // ---------- referential integrity ----------

  /** The stored approval has a same-tenant preview of the same action and an existing same-tenant WorkUnit. */
  predicate HasParents(s: Stores, a: ApprovalRow) {
    var pk, wk := JoinKey(a.tenantId, a.actionPreviewId), JoinKey(a.tenantId, a.workUnitId);
    && pk in s.previews && s.previews[pk].tenantId == a.tenantId && s.previews[pk].id == a.actionPreviewId
    && View(s.previews[pk]) == PreviewView(a.workUnitId, a.actionType, a.targetHash, a.payloadHash)
    && wk in s.workUnits && s.workUnits[wk].tenantId == a.tenantId && s.workUnits[wk].id == a.workUnitId
  }

  predicate Linked(s: Stores) {
    forall id | id in s.approvals :: HasParents(s, s.approvals[id])
  }

  predicate Keyed(s: Stores) {
    && (forall k | k in s.previews ::
          ColonFree(s.previews[k].tenantId) && k == JoinKey(s.previews[k].tenantId, s.previews[k].id))
    && (forall k | k in s.workUnits ::
          ColonFree(s.workUnits[k].tenantId) && k == JoinKey(s.workUnits[k].tenantId, s.workUnits[k].id))
  }

  /** The approval that a suspended call can still write, by everything it has checked so far. */
  function WouldWrite(c: Pending): Option<ApprovalRow> {
    match c
    case PreviewRead(tenant, row, view) =>
      if PreviewNamesWorkUnit(view, row) && PreviewNamesAction(view.value, row)
      then Some(row.(tenantId := tenant)) else None
    case WorkUnitRead(tenant, row, view, found) =>
      if found && PreviewNamesAction(view, row) then Some(row.(tenantId := tenant)) else None
    case _ => None
  }

  /** What a suspended call remembers is still true of the stores, as far as its write depends on it. */
  predicate Current(s: Stores, c: Pending) {
    match c
    case PreviewChecked(tenant, _, _) => ColonFree(tenant)
    case PreviewRead(tenant, row, view) =>
      ColonFree(tenant) && (WouldWrite(c).Some? ==> view == FindPreview(s, tenant, row.actionPreviewId))
    case WorkUnitRead(tenant, row, view, found) =>
      && ColonFree(tenant) && view.workUnitId == row.workUnitId
      && (WouldWrite(c).Some? ==> Some(view) == FindPreview(s, tenant, row.actionPreviewId))
      && (found ==> WorkUnitFound(s, tenant, row.workUnitId))
    case Returned(_) => true
  }

  predicate Inv(w: World) {
    Linked(w.stores) && Keyed(w.stores) && forall c | c in w.calls :: Current(w.stores, w.calls[c])
  }

  /** Stores only grow: keys stay, previews keep their view, rows keep their owner. */
  predicate Grows(s: Stores, s': Stores) {
    && (forall k | k in s.previews :: k in s'.previews && View(s'.previews[k]) == View(s.previews[k]))
    && (forall k | k in s.workUnits :: k in s'.workUnits)
  }

  lemma GrowthKeepsParents(s: Stores, s': Stores, a: ApprovalRow)
    requires Grows(s, s') && Keyed(s) && Keyed(s') && HasParents(s, a)
    ensures HasParents(s', a)
  {
    var pk, wk := JoinKey(a.tenantId, a.actionPreviewId), JoinKey(a.tenantId, a.workUnitId);
    var p, u := s'.previews[pk], s'.workUnits[wk];
    JoinKeyInjective(p.tenantId, p.id, a.tenantId, a.actionPreviewId);
    JoinKeyInjective(u.tenantId, u.id, a.tenantId, a.workUnitId);
  }

  lemma WriteHasParents(s: Stores, tenant: string, row: ApprovalRow, view: PreviewView)
    requires Keyed(s) && Current(s, WorkUnitRead(tenant, row, view, true)) && PreviewNamesAction(view, row)
    ensures HasParents(s, row.(tenantId := tenant))
  {
    var pk, wk := JoinKey(tenant, row.actionPreviewId), JoinKey(tenant, row.workUnitId);
    var p, u := s.previews[pk], s.workUnits[wk];
    JoinKeyInjective(p.tenantId, p.id, tenant, row.actionPreviewId);
    JoinKeyInjective(u.tenantId, u.id, tenant, row.workUnitId);
  }

  lemma StepGrows(t: TimeLib, w: World, a: Act)
    requires Inv(w) && Careful(w, a)
    ensures Grows(w.stores, Step(t, w, a).stores) && Keyed(Step(t, w, a).stores)
  {
  }

  lemma StepCurrent(t: TimeLib, w: World, a: Act)
    requires Inv(w) && Careful(w, a)
    ensures var w' := Step(t, w, a); forall c | c in w'.calls :: Current(w'.stores, w'.calls[c])
  {
    var w' := Step(t, w, a);
    StepGrows(t, w, a);
    forall c | c in w'.calls ensures Current(w'.stores, w'.calls[c]) {
      if a.Proceed? && a.call == c && c in w.calls {
        NextCurrent(w.stores, w.calls[c]);
        CurrentGrows(w.stores, w'.stores, w'.calls[c]);
      } else if c in w.calls {
        CurrentGrows(w.stores, w'.stores, w.calls[c]);
      }
    }
  }

  lemma CurrentGrows(s: Stores, s': Stores, c: Pending)
    requires Current(s, c) && Grows(s, s')
    ensures Current(s', c)
  {
  }

  lemma NextCurrent(s: Stores, c: Pending)
    requires Current(s, c)
    ensures Current(s, Next(s, c).0)
  {
  }

  lemma OpKeepsBindings(t: TimeLib, rows: Rows, op: RepoOp)
    requires !op.OpCreate?
    ensures RepoStep(t, rows, op).Keys == rows.Keys
    ensures forall id | id in rows :: Binding(RepoStep(t, rows, op)[id]) == Binding(rows[id])
  {
  }

  /** The step resumes a call that has passed all its checks and writes this row. */
  predicate WrittenBy(calls: map<nat, Pending>, a: Act, row: ApprovalRow) {
    && a.Proceed? && a.call in calls && calls[a.call].WorkUnitRead?
    && var c := calls[a.call];
    && c.workUnitFound && PreviewNamesAction(c.seen, c.row)
    && row == c.row.(tenantId := c.tenant)
  }

  /** Where a stored approval comes from: it was there with the same binding, or this step wrote it after its checks. */
  lemma ApprovalOrigin(t: TimeLib, w: World, a: Act, id: string)
    requires id in Step(t, w, a).stores.approvals
    ensures var row := Step(t, w, a).stores.approvals[id];
      || (id in w.stores.approvals && Binding(row) == Binding(w.stores.approvals[id]))
      || WrittenBy(w.calls, a, row)
  {
    if a.OnApproval? && !a.op.OpCreate? {
      OpKeepsBindings(t, w.stores.approvals, a.op);
    }
  }

  lemma ParentsOfBinding(s: Stores, a: ApprovalRow, b: ApprovalRow)
    requires HasParents(s, a) && Binding(a) == Binding(b)
    ensures HasParents(s, b)
  {
    assert b == Binding(b).(status := b.status, usedAt := b.usedAt);
  }

  lemma StepLinked(t: TimeLib, w: World, a: Act)
    requires Inv(w) && Careful(w, a)
    ensures Linked(Step(t, w, a).stores)
  {
    var s, s' := w.stores, Step(t, w, a).stores;
    StepGrows(t, w, a);
    forall id | id in s'.approvals ensures HasParents(s', s'.approvals[id]) {
      ApprovalOrigin(t, w, a, id);
      StoredHasParents(s, s', w.calls, a, id);
    }
  }

  lemma StoredHasParents(s: Stores, s': Stores, calls: map<nat, Pending>, a: Act, id: string)
    requires Inv(World(s, calls)) && Grows(s, s') && Keyed(s') && id in s'.approvals
    requires var row := s'.approvals[id];
      || (id in s.approvals && Binding(row) == Binding(s.approvals[id]))
      || WrittenBy(calls, a, row)
    ensures HasParents(s', s'.approvals[id])
  {
    var row := s'.approvals[id];
    if id in s.approvals && Binding(row) == Binding(s.approvals[id]) {
      GrowthKeepsParents(s, s', s.approvals[id]);
      ParentsOfBinding(s', s.approvals[id], row);
    } else {
      var c := calls[a.call];
      WriteHasParents(s, c.tenant, c.row, c.seen);
      GrowthKeepsParents(s, s', row);
    }
  }

  lemma {:induction false} InvAlways(t: TimeLib, w: World, acts: seq<Act>)
    requires Inv(w) && CarefulRun(t, w, acts)
    ensures Inv(Exec(t, w, acts))
    decreases |acts|
  {
    if acts != [] {
      StepGrows(t, w, acts[0]);
      StepCurrent(t, w, acts[0]);
      StepLinked(t, w, acts[0]);
      InvAlways(t, Step(t, w, acts[0]), acts[1..]);
    }
  }

  const EMPTY: World := World(Stores(map[], map[], map[]), map[])

  /** Referential integrity of a bundle started empty, in every interleaving of careful callers. */
  lemma ApprovalsAlwaysHaveParents(t: TimeLib, acts: seq<Act>, id: string)
    requires CarefulRun(t, EMPTY, acts) && id in Exec(t, EMPTY, acts).stores.approvals
    ensures var s := Exec(t, EMPTY, acts).stores; HasParents(s, s.approvals[id])
  {
    InvAlways(t, EMPTY, acts);
  }

  // ---------- exactly which writes are safe, and what an undisturbed call does ----------

  /** An approval bound to this preview names the same WorkUnit, action and hashes. */
  predicate BindingAgrees(a: ApprovalRow, tenant: string, preview: Preview) {
    a.tenantId == tenant && a.actionPreviewId == preview.id ==>
      View(preview) == PreviewView(a.workUnitId, a.actionType, a.targetHash, a.payloadHash)
  }

  /** A preview write keeps the stored approvals linked exactly when every one bound to its key agrees with it. */
  lemma PreviewWriteSafeIff(s: Stores, tenant: string, row: Preview)
    requires Linked(s) && Keyed(s) && ColonFree(tenant)
    ensures Linked(PutPreview(s, tenant, row))
       <==> forall id | id in s.approvals :: BindingAgrees(s.approvals[id], tenant, row)
  {
    var s' := PutPreview(s, tenant, row);
    var k := JoinKey(tenant, row.id);
    forall id | id in s.approvals
      ensures var a := s.approvals[id];
        HasParents(s', a) <==> BindingAgrees(a, tenant, row)
    {
      var a := s.approvals[id];
      if JoinKey(a.tenantId, a.actionPreviewId) == k {
        assert ColonFree(a.tenantId);
        JoinKeyInjective(a.tenantId, a.actionPreviewId, tenant, row.id);
      }
    }
  }

  /** Every approval that is stored or can still be written agrees with the preview. */
  ghost predicate AllAgree(w: World, tenant: string, preview: Preview) {
    && (forall id | id in w.stores.approvals :: BindingAgrees(w.stores.approvals[id], tenant, preview))
    && (forall n | n in w.calls && WouldWrite(w.calls[n]).Some? ::
          BindingAgrees(WouldWrite(w.calls[n]).value, tenant, preview))
  }

  function Overwritten(w: World, tenant: string, preview: Preview): World {
    w.(stores := PutPreview(w.stores, tenant, preview))
  }

  lemma AgreeingCallStaysCurrent(s: Stores, tenant: string, preview: Preview, c: Pending)
    requires Keyed(s) && ColonFree(tenant) && Current(s, c)
    requires WouldWrite(c).Some? ==> BindingAgrees(WouldWrite(c).value, tenant, preview)
    ensures Current(PutPreview(s, tenant, preview), c)
  {
    if WouldWrite(c).Some? && JoinKey(c.tenant, c.row.actionPreviewId) == JoinKey(tenant, preview.id) {
      JoinKeyInjective(c.tenant, c.row.actionPreviewId, tenant, preview.id);
    }
  }

  lemma AgreementKeepsInv(w: World, tenant: string, preview: Preview)
    requires Inv(w) && ColonFree(tenant) && AllAgree(w, tenant, preview)
    ensures Inv(Overwritten(w, tenant, preview))
  {
    PreviewWriteSafeIff(w.stores, tenant, preview);
    forall n | n in w.calls ensures Current(PutPreview(w.stores, tenant, preview), w.calls[n]) {
      AgreeingCallStaysCurrent(w.stores, tenant, preview, w.calls[n]);
    }
  }

  /** A suspended call that disagrees with the preview now stored, brought to its write. */
  function Finishing(n: nat, c: Pending): seq<Act> {
    match c
    case PreviewRead(tenant, row, _) =>
      [WriteWorkUnit(tenant, WorkUnit(row.workUnitId, tenant, ""))] + ([Proceed(n)] + [Proceed(n)])
    case _ => [Proceed(n)]
  }

  lemma RunFirst(t: TimeLib, w: World, a: Act, rest: seq<Act>)
    ensures Exec(t, w, [a] + rest) == Exec(t, Step(t, w, a), rest)
    ensures CarefulRun(t, w, [a] + rest) <==> Careful(w, a) && CarefulRun(t, Step(t, w, a), rest)
    ensures rest == [] ==> [a] + rest == [a]
  {
    assert ([a] + rest)[1..] == rest;
  }

  lemma WriteBreaks(t: TimeLib, w: World, n: nat, tenant: string, preview: Preview)
    requires n in w.calls && w.calls[n].WorkUnitRead? && WouldWrite(w.calls[n]).Some?
    requires JoinKey(tenant, preview.id) in w.stores.previews
    requires View(w.stores.previews[JoinKey(tenant, preview.id)]) == View(preview)
    requires !BindingAgrees(WouldWrite(w.calls[n]).value, tenant, preview)
    ensures Careful(w, Proceed(n)) && !Linked(Step(t, w, Proceed(n)).stores)
  {
    var row, s' := WouldWrite(w.calls[n]).value, Step(t, w, Proceed(n)).stores;
    assert s'.approvals[row.id] == row && s'.previews == w.stores.previews;
    assert !HasParents(s', row);
  }

  lemma FinishingBreaks(t: TimeLib, w: World, n: nat, tenant: string, preview: Preview)
    requires n in w.calls && WouldWrite(w.calls[n]).Some? && ColonFree(w.calls[n].tenant)
    requires JoinKey(tenant, preview.id) in w.stores.previews
    requires View(w.stores.previews[JoinKey(tenant, preview.id)]) == View(preview)
    requires !BindingAgrees(WouldWrite(w.calls[n]).value, tenant, preview)
    ensures var acts := Finishing(n, w.calls[n]);
      CarefulRun(t, w, acts) && !Linked(Exec(t, w, acts).stores)
  {
    var c := w.calls[n];
    var acts := Finishing(n, c);
    if c.WorkUnitRead? {
      WriteBreaks(t, w, n, tenant, preview);
      RunFirst(t, w, Proceed(n), []);
    } else {
      var w1 := Step(t, w, acts[0]);
      var w2 := Step(t, w1, Proceed(n));
      assert w2.calls[n] == WorkUnitRead(c.tenant, c.row, c.view.value, true) && w2.stores == w1.stores;
      WriteBreaks(t, w2, n, tenant, preview);
      RunFirst(t, w, acts[0], [Proceed(n)] + [Proceed(n)]);
      RunFirst(t, w1, Proceed(n), [Proceed(n)]);
      RunFirst(t, w2, Proceed(n), []);
    }
  }

  lemma {:induction false} DisagreementBreaks(t: TimeLib, w: World, tenant: string, preview: Preview)
      returns (acts: seq<Act>)
    requires Inv(w) && ColonFree(tenant) && !AllAgree(w, tenant, preview)
    ensures var w' := Overwritten(w, tenant, preview);
      CarefulRun(t, w', acts) && !Linked(Exec(t, w', acts).stores)
  {
    var w' := Overwritten(w, tenant, preview);
    if id :| id in w.stores.approvals && !BindingAgrees(w.stores.approvals[id], tenant, preview) {
      PreviewWriteSafeIff(w.stores, tenant, preview);
      assert !Linked(w'.stores);
      acts := [];
    } else {
      var n :| n in w.calls && WouldWrite(w.calls[n]).Some?
        && !BindingAgrees(WouldWrite(w.calls[n]).value, tenant, preview);
      acts := Finishing(n, w.calls[n]);
      FinishingBreaks(t, w', n, tenant, preview);
    }
  }

  /**
    Writing a preview, over an older one or not, keeps integrity in every later careful run exactly when every
    approval already stored, and every approval that a suspended call can still write, agrees with it.
   */
  lemma {:induction false} PreviewWriteAlwaysSafeIff(t: TimeLib, w: World, tenant: string, preview: Preview)
    requires Inv(w) && ColonFree(tenant)
    ensures var w' := Overwritten(w, tenant, preview);
      (forall acts | CarefulRun(t, w', acts) :: Linked(Exec(t, w', acts).stores)) <==> AllAgree(w, tenant, preview)
  {
    var w' := Overwritten(w, tenant, preview);
    if AllAgree(w, tenant, preview) {
      AgreementKeepsInv(w, tenant, preview);
      forall acts | CarefulRun(t, w', acts) ensures Linked(Exec(t, w', acts).stores) {
        InvAlways(t, w', acts);
      }
    } else {
      var acts := DisagreementBreaks(t, w, tenant, preview);
    }
  }

  /**
    A preview id reused between the checks of an approval and its write: no approval is stored when the preview is
    overwritten, yet the approval then written has no matching preview.
   */
  lemma ReuseBetweenCheckAndWrite(t: TimeLib, unit: WorkUnit, p: Preview, q: Preview, row: ApprovalRow)
    requires p.workUnitId == q.workUnitId == row.workUnitId == unit.id && p.id == q.id == row.actionPreviewId
    requires View(p) == PreviewView(row.workUnitId, row.actionType, row.targetHash, row.payloadHash) != View(q)
    ensures var before := [WriteWorkUnit(unit.tenantId, unit), CallPreview(0, unit.tenantId, p), Proceed(0),
                           CallApproval(1, unit.tenantId, row), Proceed(1), CallPreview(2, unit.tenantId, q)];
      var w := Exec(t, EMPTY, before);
      && w.stores.approvals == map[]
      && !Linked(Exec(t, w, [Proceed(2), Proceed(1)]).stores)
  {
    var tenant := unit.tenantId;
    var w1 := Step(t, EMPTY, WriteWorkUnit(tenant, unit));
    var w2 := Step(t, w1, CallPreview(0, tenant, p));
    var w3 := Step(t, w2, Proceed(0));
    var w4 := Step(t, w3, CallApproval(1, tenant, row));
    var w5 := Step(t, w4, Proceed(1));
    var w6 := Step(t, w5, CallPreview(2, tenant, q));
    assert w3.stores.previews[JoinKey(tenant, p.id)] == p.(tenantId := tenant);
    assert w4.calls[1] == PreviewRead(tenant, row, Some(View(p)));
    assert w5.calls[1] == WorkUnitRead(tenant, row, View(p), true);
    assert w6.calls[2] == PreviewChecked(tenant, q, true);
    Unroll6(t, EMPTY, WriteWorkUnit(tenant, unit), CallPreview(0, tenant, p), Proceed(0),
            CallApproval(1, tenant, row), Proceed(1), CallPreview(2, tenant, q));
    var w7 := Step(t, w6, Proceed(2));
    var w8 := Step(t, w7, Proceed(1));
    assert w7.stores.previews[JoinKey(tenant, q.id)] == q.(tenantId := tenant);
    assert w8.stores.approvals[row.id] == row.(tenantId := tenant);
    assert !HasParents(w8.stores, row.(tenantId := tenant));
    assert [Proceed(2), Proceed(1)][1..] == [Proceed(1)] && [Proceed(1)][1..] == [];
    assert Exec(t, w7, [Proceed(1)]) == w8;
  }

  lemma Unroll6(t: TimeLib, w: World, a: Act, b: Act, c: Act, d: Act, e: Act, f: Act)
    ensures Exec(t, w, [a, b, c, d, e, f])
         == Step(t, Step(t, Step(t, Step(t, Step(t, Step(t, w, a), b), c), d), e), f)
  {
    var w3 := Step(t, Step(t, Step(t, w, a), b), c);
    assert [a, b, c, d, e, f] == [a] + ([b] + ([c] + [d, e, f])) && [d, e, f] == [d] + ([e] + ([f] + []));
    RunFirst(t, w, a, [b] + ([c] + [d, e, f]));
    RunFirst(t, Step(t, w, a), b, [c] + [d, e, f]);
    RunFirst(t, Step(t, Step(t, w, a), b), c, [d, e, f]);
    RunFirst(t, w3, d, [e] + ([f] + []));
    RunFirst(t, Step(t, w3, d), e, [f] + []);
    RunFirst(t, Step(t, Step(t, w3, d), e), f, []);
  }

  // ---------- previews have parents too ----------

  predicate ColonFreeAct(a: Act) {
    match a
    case WriteWorkUnit(tenant, _) => ColonFree(tenant)
    case CallPreview(_, tenant, _) => ColonFree(tenant)
    case _ => true
  }

  /** Every stored preview has its same-tenant WorkUnit, and so does every preview about to be written. */
  predicate PreviewsLinked(w: World) {
    && Keyed(w.stores)
    && (forall k | k in w.stores.previews ::
          WorkUnitFound(w.stores, w.stores.previews[k].tenantId, w.stores.previews[k].workUnitId))
    && (forall n | n in w.calls && w.calls[n].PreviewChecked? ::
          && ColonFree(w.calls[n].tenant)
          && (w.calls[n].workUnitFound
              ==> WorkUnitFound(w.stores, w.calls[n].tenant, w.calls[n].preview.workUnitId)))
  }

  lemma WorkUnitsStay(t: TimeLib, w: World, a: Act)
    ensures forall k | k in w.stores.workUnits :: k in Step(t, w, a).stores.workUnits
  {
  }

  lemma StepKeepsKeyed(t: TimeLib, w: World, a: Act)
    requires PreviewsLinked(w) && ColonFreeAct(a)
    ensures Keyed(Step(t, w, a).stores)
  {
  }

  lemma PreviewKeepsWorkUnit(t: TimeLib, w: World, a: Act, k: string)
    requires PreviewsLinked(w) && k in Step(t, w, a).stores.previews
    ensures var s := Step(t, w, a).stores; WorkUnitFound(s, s.previews[k].tenantId, s.previews[k].workUnitId)
  {
    WorkUnitsStay(t, w, a);
  }

  lemma CallKeepsWorkUnit(t: TimeLib, w: World, a: Act, n: nat)
    requires PreviewsLinked(w) && ColonFreeAct(a)
    requires n in Step(t, w, a).calls && Step(t, w, a).calls[n].PreviewChecked?
    ensures var w' := Step(t, w, a);
      && ColonFree(w'.calls[n].tenant)
      && (w'.calls[n].workUnitFound
          ==> WorkUnitFound(w'.stores, w'.calls[n].tenant, w'.calls[n].preview.workUnitId))
  {
    WorkUnitsStay(t, w, a);
  }

  lemma StepKeepsPreviewsLinked(t: TimeLib, w: World, a: Act)
    requires PreviewsLinked(w) && ColonFreeAct(a)
    ensures PreviewsLinked(Step(t, w, a))
  {
    var w' := Step(t, w, a);
    StepKeepsKeyed(t, w, a);
    forall k | k in w'.stores.previews
      ensures WorkUnitFound(w'.stores, w'.stores.previews[k].tenantId, w'.stores.previews[k].workUnitId)
    {
      PreviewKeepsWorkUnit(t, w, a, k);
    }
    forall n | n in w'.calls && w'.calls[n].PreviewChecked?
      ensures ColonFree(w'.calls[n].tenant)
      ensures w'.calls[n].workUnitFound
          ==> WorkUnitFound(w'.stores, w'.calls[n].tenant, w'.calls[n].preview.workUnitId)
    {
      CallKeepsWorkUnit(t, w, a, n);
    }
  }

  lemma {:induction false} PreviewsLinkedAlways(t: TimeLib, w: World, acts: seq<Act>)
    requires PreviewsLinked(w) && forall a <- acts :: ColonFreeAct(a)
    ensures PreviewsLinked(Exec(t, w, acts))
    decreases |acts|
  {
    if acts != [] {
      assert acts[0] in acts && forall a <- acts[1..] :: a in acts;
      StepKeepsPreviewsLinked(t, w, acts[0]);
      PreviewsLinkedAlways(t, Step(t, w, acts[0]), acts[1..]);
    }
  }

  /** Every stored preview always has a WorkUnit of its own tenant, even when preview ids are reused. */
  lemma PreviewsAlwaysHaveParents(t: TimeLib, acts: seq<Act>, k: string)
    requires (forall a <- acts :: ColonFreeAct(a)) && k in Exec(t, EMPTY, acts).stores.previews
    ensures var s := Exec(t, EMPTY, acts).stores;
      var p := s.previews[k];
      var wk := JoinKey(p.tenantId, p.workUnitId);
      wk in s.workUnits && s.workUnits[wk].tenantId == p.tenantId && s.workUnits[wk].id == p.workUnitId
  {
    PreviewsLinkedAlways(t, EMPTY, acts);
    var s := Exec(t, EMPTY, acts).stores;
    var u := s.workUnits[JoinKey(s.previews[k].tenantId, s.previews[k].workUnitId)];
    JoinKeyInjective(u.tenantId, u.id, s.previews[k].tenantId, s.previews[k].workUnitId);
  }

  /**
    An approval creation that nothing disturbs succeeds exactly when both parents are there, owned by the
    tenant and naming the same action; it then writes the row under that tenant, and otherwise writes nothing.
   */
  lemma UndisturbedCreate(s: Stores, tenant: string, row: ApprovalRow)
    requires Keyed(s) && ColonFree(tenant)
    ensures var c0 := PreviewRead(tenant, row, FindPreview(s, tenant, row.actionPreviewId));
      var (c1, s1) := Next(s, c0);
      var (c2, s2) := Next(s1, c1);
      && c2.Returned?
      && (c2.ok <==> HasParents(s, row.(tenantId := tenant)))
      && s2 == (if c2.ok then s.(approvals := s.approvals[row.id := row.(tenantId := tenant)]) else s)
  {
    var view := FindPreview(s, tenant, row.actionPreviewId);
    if && PreviewNamesWorkUnit(view, row)
       && WorkUnitFound(s, tenant, row.workUnitId)
       && PreviewNamesAction(view.value, row)
    {
      WriteHasParents(s, tenant, row, view.value);
    }
  }

  /** A foreign parent and a missing parent look the same: the reads see only the tenant's own rows. */
  lemma ForeignParentsAreInvisible(s: Stores, tenant: string, id: string)
    requires Keyed(s) && ColonFree(tenant)
    ensures FindPreview(s, tenant, id).Some?
       <==> exists k <- s.previews :: s.previews[k].tenantId == tenant && s.previews[k].id == id
    ensures WorkUnitFound(s, tenant, id)
       <==> exists k <- s.workUnits :: s.workUnits[k].tenantId == tenant && s.workUnits[k].id == id
  {
    var k := JoinKey(tenant, id);
    if k in s.previews { JoinKeyInjective(s.previews[k].tenantId, s.previews[k].id, tenant, id); }
    if k in s.workUnits { JoinKeyInjective(s.workUnits[k].tenantId, s.workUnits[k].id, tenant, id); }
  }

  // ---------- the objects ----------

  datatype Reply<T> = Ok(value: T) | ParentBoundaryViolation

  /** The three sibling repositories; each method is one segment between two awaits. */
  class RepositoryBundle {
    var workUnits: WorkUnits
    var previews: Previews
    var approvals: Rows

    ghost function State(): Stores reads this {
      Stores(workUnits, previews, approvals)
    }

    constructor ()
      ensures State() == EMPTY.stores
    {
      workUnits, previews, approvals := map[], map[], map[];
    }

    method UpsertWorkUnit(tenant: string, row: WorkUnit) returns (stored: WorkUnit)
      modifies this
      ensures State() == PutWorkUnit(old(State()), tenant, row) && stored == row.(tenantId := tenant)
    {
      stored := row.(tenantId := tenant);
      workUnits := workUnits[JoinKey(tenant, stored.id) := stored];
    }

    method UpdateWorkUnitStatus(tenant: string, id: string, status: string) returns (r: Option<WorkUnit>)
      modifies this
      ensures State() == SetWorkUnitStatus(old(State()), tenant, id, status)
      ensures r.Some? <==> WorkUnitFound(old(State()), tenant, id)
    {
      var k := JoinKey(tenant, id);
      if k !in workUnits { return None; }
      var u := workUnits[k].(status := status);
      workUnits := workUnits[k := u];
      r := Some(u);
    }

    method BeginPreview(tenant: string, row: Preview) returns (c: Pending)
      ensures c == PreviewChecked(tenant, row, WorkUnitFound(State(), tenant, row.workUnitId))
    {
      c := PreviewChecked(tenant, row, JoinKey(tenant, row.workUnitId) in workUnits);
    }

    method FinishPreview(tenant: string, row: Preview, parentFound: bool) returns (r: Reply<Preview>)
      modifies this
      ensures var (c, s) := Next(old(State()), PreviewChecked(tenant, row, parentFound));
        State() == s && c == Returned(r.Ok?)
    {
      if !parentFound { return ParentBoundaryViolation; }
      previews := previews[JoinKey(tenant, row.id) := row.(tenantId := tenant)];
      r := Ok(row.(tenantId := tenant));
    }

    method BeginApproval(tenant: string, row: ApprovalRow) returns (view: Option<PreviewView>)
      ensures view == FindPreview(State(), tenant, row.actionPreviewId)
    {
      var k := JoinKey(tenant, row.actionPreviewId);
      if k !in previews { return None; }
      var p := previews[k];
      view := Some(PreviewView(p.workUnitId, p.actionType, OrElse(p.targetHash, ""), OrElse(p.payloadHash, "")));
    }

    method CheckWorkUnit(tenant: string, row: ApprovalRow, view: Option<PreviewView>) returns (r: Reply<bool>)
      ensures var (c, s) := Next(State(), PreviewRead(tenant, row, view));
        && s == State()
        && (r.Ok? ==> view.Some? && c == WorkUnitRead(tenant, row, view.value, r.value))
        && (!r.Ok? ==> c == Returned(false))
    {
      if view.None? { return ParentBoundaryViolation; }
      if view.value.workUnitId != row.workUnitId { return ParentBoundaryViolation; }
      r := Ok(JoinKey(tenant, row.workUnitId) in workUnits);
    }

    method FinishApproval(tenant: string, row: ApprovalRow, view: PreviewView, parentFound: bool)
        returns (r: Reply<ApprovalRow>)
      modifies this
      ensures var (c, s) := Next(old(State()), WorkUnitRead(tenant, row, view, parentFound));
        State() == s && c == Returned(r.Ok?)
    {
      if !parentFound { return ParentBoundaryViolation; }
      if view.actionType != row.actionType { return ParentBoundaryViolation; }
      if view.targetHash != row.targetHash { return ParentBoundaryViolation; }
      if view.payloadHash != row.payloadHash { return ParentBoundaryViolation; }
      var stored := row.(tenantId := tenant);
      approvals := approvals[stored.id := stored];
      r := Ok(stored);
    }
  }
}
