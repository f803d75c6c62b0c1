/** Usage metering: an event log and, beside it, a daily summary index that must stay its sum. */
module Usage {
  import opened Prelude
  import opened JsMaps

  datatype UsageEvent = UsageEvent(id: string, tenantId: string, eventType: string, quantity: real, createdAt: string)

  datatype DailySummary = DailySummary(
    tenantId: string, date: string, eventType: string, quantity: real, updatedAt: string)

  datatype Ledger = Ledger(events: seq<UsageEvent>, summary: JsMap<DailySummary>)

  /** `createdAt.slice(0, 10)`. */
  function DateOf(createdAt: string): string {
    if |createdAt| <= 10 then createdAt else createdAt[..10]
  }

  function SummaryKey(tenant: string, date: string, eventType: string): string {
    JoinKey(tenant, JoinKey(date, eventType))
  }

  function KeyOf(e: UsageEvent): string {
    SummaryKey(e.tenantId, DateOf(e.createdAt), e.eventType)
  }

  /** The summary row after one more event: the old quantity, if any, plus this one. */
  function NextRow(m: JsMap<DailySummary>, e: UsageEvent, now: string): DailySummary {
    var existing := Find(m, KeyOf(e));
    var before := if existing.Some? then existing.value.quantity else 0.0;
    DailySummary(e.tenantId, DateOf(e.createdAt), e.eventType, before + e.quantity, now)
  }

  function Record(l: Ledger, tenant: string, row: UsageEvent, now: string): Ledger {
    var stored := row.(tenantId := tenant);
    Ledger(l.events + [stored], Put(l.summary, KeyOf(stored), NextRow(l.summary, stored, now)))
  }

  function FilterDay(m: JsMap<DailySummary>, tenant: string, date: string): seq<DailySummary> {
    if m == [] then []
    else (if m[0].1.date == date && m[0].1.tenantId == tenant then [m[0].1] else []) + FilterDay(m[1..], tenant, date)
  }

  /** The redundant tenant argument must equal the context's tenant. */
  function GetDailySummary(l: Ledger, ctxTenant: string, tenant: string, date: string): seq<DailySummary> {
    if tenant != ctxTenant then [] else FilterDay(l.summary, ctxTenant, date)
  }

  function SumEvents(events: seq<UsageEvent>, tenant: string, eventType: string): real {
    if events == [] then 0.0
    else
      var e := events[|events| - 1];
      SumEvents(events[..|events| - 1], tenant, eventType)
      + (if e.tenantId == tenant && e.eventType == eventType then e.quantity else 0.0)
  }

  function GetCurrentUsage(l: Ledger, ctxTenant: string, tenant: string, eventType: string): real {
    if tenant != ctxTenant then 0.0 else SumEvents(l.events, ctxTenant, eventType)
  }

  // ---------- meaning ----------

  /** The event is one of those that a row for this tenant, day and kind stands for. */
  predicate Fills(e: UsageEvent, tenant: string, date: string, eventType: string) {
    e.tenantId == tenant && DateOf(e.createdAt) == date && e.eventType == eventType
  }

  function SumDay(events: seq<UsageEvent>, tenant: string, date: string, eventType: string): real {
    if events == [] then 0.0
    else
      var e := events[|events| - 1];
      SumDay(events[..|events| - 1], tenant, date, eventType)
      + (if Fills(e, tenant, date, eventType) then e.quantity else 0.0)
  }

  predicate Logged(events: seq<UsageEvent>, tenant: string, date: string, eventType: string) {
    exists e <- events :: Fills(e, tenant, date, eventType)
  }

  /** All of a tenant's summaries of one kind, over every date. */
  function SumSummaries(m: JsMap<DailySummary>, tenant: string, eventType: string): real {
    if m == [] then 0.0
    else (if m[0].1.tenantId == tenant && m[0].1.eventType == eventType then m[0].1.quantity else 0.0)
         + SumSummaries(m[1..], tenant, eventType)
  }

  /** A row sits under the key of its own fields. */
  predicate Placed(s: (string, DailySummary)) {
    s.0 == SummaryKey(s.1.tenantId, s.1.date, s.1.eventType)
  }

  /** What holds of every ledger: rows in place and earned by an event, and a row under every event's key. */
  ghost predicate Consistent(l: Ledger) {
    && Unique(l.summary)
    && (forall s <- l.summary :: Placed(s) && Logged(l.events, s.1.tenantId, s.1.date, s.1.eventType))
    && (forall e <- l.events :: Find(l.summary, KeyOf(e)).Some?)
  }

  /** Each row is the sum of its events. */
  ghost predicate Summed(l: Ledger) {
    forall s <- l.summary :: s.1.quantity == SumDay(l.events, s.1.tenantId, s.1.date, s.1.eventType)
  }

  ghost predicate Balanced(l: Ledger) {
    && Consistent(l)
    && Summed(l)
    && (forall tenant, eventType ::
          SumSummaries(l.summary, tenant, eventType) == SumEvents(l.events, tenant, eventType))
  }

  /** No two events share a key without sharing tenant, day and kind. */
  ghost predicate Unambiguous(events: seq<UsageEvent>) {
    forall e, f | e in events && f in events && KeyOf(e) == KeyOf(f) ::
      Fills(f, e.tenantId, DateOf(e.createdAt), e.eventType)
  }

  // ---------- one event ----------

  lemma {:induction false} PutMovesSum(
      m: JsMap<DailySummary>, k: string, v: DailySummary, tenant: string, eventType: string)
    requires Find(m, k).Some? ==> Find(m, k).value.tenantId == v.tenantId && Find(m, k).value.eventType == v.eventType
    ensures var before := if Find(m, k).Some? then Find(m, k).value.quantity else 0.0;
      SumSummaries(Put(m, k, v), tenant, eventType) == SumSummaries(m, tenant, eventType)
        + (if v.tenantId == tenant && v.eventType == eventType then v.quantity - before else 0.0)
  {
    if m != [] && m[0].0 != k {
      PutMovesSum(m[1..], k, v, tenant, eventType);
    }
  }

  lemma AppendDay(events: seq<UsageEvent>, e: UsageEvent, tenant: string, date: string, eventType: string)
    ensures SumDay(events + [e], tenant, date, eventType) == SumDay(events, tenant, date, eventType)
      + (if Fills(e, tenant, date, eventType) then e.quantity else 0.0)
    ensures SumEvents(events + [e], tenant, eventType) == SumEvents(events, tenant, eventType)
      + (if e.tenantId == tenant && e.eventType == eventType then e.quantity else 0.0)
  {
    assert (events + [e])[..|events|] == events;
  }

  lemma {:induction false} UnloggedIsZero(events: seq<UsageEvent>, tenant: string, date: string, eventType: string)
    requires !Logged(events, tenant, date, eventType)
    ensures SumDay(events, tenant, date, eventType) == 0.0
  {
    if events != [] {
      assert events[|events| - 1] in events;
      UnloggedIsZero(events[..|events| - 1], tenant, date, eventType);
    }
  }

  /** The row under a key was earned by an event with that key. */
  lemma RowEarned(l: Ledger, key: string) returns (x: UsageEvent)
    requires Consistent(l) && Find(l.summary, key).Some?
    ensures var row := Find(l.summary, key).value;
      x in l.events && KeyOf(x) == key && Fills(x, row.tenantId, row.date, row.eventType)
  {
    var row := Find(l.summary, key).value;
    var s := (key, row);
    assert s in l.summary;
    assert Placed(s) && Logged(l.events, row.tenantId, row.date, row.eventType);
    x :| x in l.events && Fills(x, row.tenantId, row.date, row.eventType);
  }

  lemma ReplacedRow(l: Ledger, e: UsageEvent)
    requires Consistent(l) && Unambiguous(l.events + [e])
    ensures var row := Find(l.summary, KeyOf(e));
      if row.Some? then Fills(e, row.value.tenantId, row.value.date, row.value.eventType)
      else SumDay(l.events, e.tenantId, DateOf(e.createdAt), e.eventType) == 0.0
  {
    if Find(l.summary, KeyOf(e)).Some? {
      var x := RowEarned(l, KeyOf(e));
      assert x in l.events + [e] && e in l.events + [e];
    } else {
      assert !Logged(l.events, e.tenantId, DateOf(e.createdAt), e.eventType);
      UnloggedIsZero(l.events, e.tenantId, DateOf(e.createdAt), e.eventType);
    }
  }

  lemma StillLogged(events: seq<UsageEvent>, e: UsageEvent, tenant: string, date: string, eventType: string)
    requires Logged(events, tenant, date, eventType) || Fills(e, tenant, date, eventType)
    ensures Logged(events + [e], tenant, date, eventType)
  {
    if Fills(e, tenant, date, eventType) {
      assert e in events + [e];
    } else {
      var x :| x in events && Fills(x, tenant, date, eventType);
      assert x in events + [e];
    }
  }

  lemma RowInPlace(l: Ledger, e: UsageEvent, now: string, s: (string, DailySummary))
    requires Consistent(l)
    requires s == (KeyOf(e), NextRow(l.summary, e, now)) || (s in l.summary && s.0 != KeyOf(e))
    ensures Placed(s) && Logged(l.events + [e], s.1.tenantId, s.1.date, s.1.eventType)
  {
    StillLogged(l.events, e, s.1.tenantId, s.1.date, s.1.eventType);
  }

  lemma StillFound(l: Ledger, e: UsageEvent, v: DailySummary, x: UsageEvent)
    requires Consistent(l) && x in l.events + [e]
    ensures Find(Put(l.summary, KeyOf(e), v), KeyOf(x)).Some?
  {
    FindPut(l.summary, KeyOf(e), v, KeyOf(x));
  }

  /** Recording keeps rows in place and earned, whatever the keys. */
  lemma RecordKeepsConsistent(l: Ledger, e: UsageEvent, now: string)
    requires Consistent(l)
    ensures Consistent(Record(l, e.tenantId, e, now))
  {
    var l', key, v := Record(l, e.tenantId, e, now), KeyOf(e), NextRow(l.summary, e, now);
    PutKeepsUnique(l.summary, key, v);
    PutMembers(l.summary, key, v);
    assert l'.summary == Put(l.summary, key, v) && l'.events == l.events + [e];
    forall s | s in l'.summary ensures Placed(s) && Logged(l'.events, s.1.tenantId, s.1.date, s.1.eventType) {
      RowInPlace(l, e, now, s);
    }
    forall x | x in l'.events ensures Find(l'.summary, KeyOf(x)).Some? {
      StillFound(l, e, v, x);
    }
  }

  lemma RowStaysSum(l: Ledger, e: UsageEvent, now: string, s: (string, DailySummary))
    requires Consistent(l) && Summed(l) && Unambiguous(l.events + [e])
    requires s == (KeyOf(e), NextRow(l.summary, e, now)) || (s in l.summary && s.0 != KeyOf(e))
    ensures s.1.quantity == SumDay(l.events + [e], s.1.tenantId, s.1.date, s.1.eventType)
  {
    ReplacedRow(l, e);
    AppendDay(l.events, e, s.1.tenantId, s.1.date, s.1.eventType);
    if s in l.summary { assert Placed(s); }
    if Find(l.summary, KeyOf(e)).Some? { assert (KeyOf(e), Find(l.summary, KeyOf(e)).value) in l.summary; }
  }

  lemma RecordKeepsSums(l: Ledger, e: UsageEvent, now: string)
    requires Consistent(l) && Summed(l) && Unambiguous(l.events + [e])
    ensures Summed(Record(l, e.tenantId, e, now))
  {
    var l' := Record(l, e.tenantId, e, now);
    PutMembers(l.summary, KeyOf(e), NextRow(l.summary, e, now));
    assert l'.summary == Put(l.summary, KeyOf(e), NextRow(l.summary, e, now)) && l'.events == l.events + [e];
    forall s | s in l'.summary ensures s.1.quantity == SumDay(l'.events, s.1.tenantId, s.1.date, s.1.eventType) {
      RowStaysSum(l, e, now, s);
    }
  }

  lemma RecordKeepsTotals(l: Ledger, e: UsageEvent, now: string, tenant: string, eventType: string)
    requires Consistent(l) && Unambiguous(l.events + [e])
    requires SumSummaries(l.summary, tenant, eventType) == SumEvents(l.events, tenant, eventType)
    ensures var l' := Record(l, e.tenantId, e, now);
      SumSummaries(l'.summary, tenant, eventType) == SumEvents(l'.events, tenant, eventType)
  {
    ReplacedRow(l, e);
    PutMovesSum(l.summary, KeyOf(e), NextRow(l.summary, e, now), tenant, eventType);
    AppendDay(l.events, e, tenant, DateOf(e.createdAt), eventType);
  }

  /** Recording an event whose key is not already taken by another day or kind keeps the index equal to the log. */
  lemma RecordKeepsBalance(l: Ledger, e: UsageEvent, now: string)
    requires Balanced(l) && Unambiguous(l.events + [e])
    ensures Balanced(Record(l, e.tenantId, e, now))
  {
    RecordKeepsConsistent(l, e, now);
    RecordKeepsSums(l, e, now);
    forall tenant, eventType
      ensures var l' := Record(l, e.tenantId, e, now);
        SumSummaries(l'.summary, tenant, eventType) == SumEvents(l'.events, tenant, eventType)
    {
      RecordKeepsTotals(l, e, now, tenant, eventType);
    }
  }

  // ---------- runs ----------

  datatype Entry = Entry(tenant: string, row: UsageEvent, now: string)

  /** The stored event: its tenant is the context's, whatever the row says. */
  function StoredEvent(e: Entry): UsageEvent {
    e.row.(tenantId := e.tenant)
  }

  const EMPTY: Ledger := Ledger([], [])

  function RecordAll(entries: seq<Entry>): Ledger {
    if entries == [] then EMPTY
    else
      var last := entries[|entries| - 1];
      Record(RecordAll(entries[..|entries| - 1]), last.tenant, last.row, last.now)
  }

  function StoredEvents(entries: seq<Entry>): (events: seq<UsageEvent>)
    ensures |events| == |entries| && forall i | 0 <= i < |entries| :: events[i] == StoredEvent(entries[i])
  {
    seq(|entries|, i requires 0 <= i < |entries| => StoredEvent(entries[i]))
  }

  lemma {:induction false} RunLogs(entries: seq<Entry>)
    ensures RecordAll(entries).events == StoredEvents(entries)
  {
    if entries != [] {
      RunLogs(entries[..|entries| - 1]);
    }
  }

  lemma RecordsStoredEvent(l: Ledger, e: Entry)
    ensures Record(l, e.tenant, e.row, e.now) == Record(l, StoredEvent(e).tenantId, StoredEvent(e), e.now)
  {
  }

  lemma {:induction false} AlwaysConsistent(entries: seq<Entry>)
    ensures Consistent(RecordAll(entries))
  {
    if entries != [] {
      var before, last := entries[..|entries| - 1], entries[|entries| - 1];
      AlwaysConsistent(before);
      RecordsStoredEvent(RecordAll(before), last);
      RecordKeepsConsistent(RecordAll(before), StoredEvent(last), last.now);
    }
  }

  lemma PrefixUnambiguous(events: seq<UsageEvent>, e: UsageEvent)
    requires Unambiguous(events + [e])
    ensures Unambiguous(events)
  {
    assert forall x | x in events :: x in events + [e];
  }

  lemma {:induction false} AlwaysBalanced(entries: seq<Entry>)
    requires Unambiguous(StoredEvents(entries))
    ensures Balanced(RecordAll(entries))
  {
    if entries != [] {
      var before, last := entries[..|entries| - 1], entries[|entries| - 1];
      RunLogs(before);
      assert StoredEvents(entries) == StoredEvents(before) + [StoredEvent(last)];
      PrefixUnambiguous(StoredEvents(before), StoredEvent(last));
      AlwaysBalanced(before);
      RecordsStoredEvent(RecordAll(before), last);
      RecordKeepsBalance(RecordAll(before), StoredEvent(last), last.now);
    }
  }

  // ---------- exactly when the index is the log ----------

  lemma {:induction false} DayMembers(m: JsMap<DailySummary>, tenant: string, date: string, row: DailySummary)
    ensures row in FilterDay(m, tenant, date)
       <==> row.date == date && row.tenantId == tenant && exists s <- m :: s.1 == row
  {
    if m != [] {
      assert m == [m[0]] + m[1..];
      DayMembers(m[1..], tenant, date, row);
    }
  }

  /** The day's summary has a row for the event's kind, and it is the sum of the day. */
  predicate HasRow(l: Ledger, e: UsageEvent) {
    exists row <- GetDailySummary(l, e.tenantId, e.tenantId, DateOf(e.createdAt)) ::
      && row.eventType == e.eventType
      && row.quantity == SumDay(l.events, e.tenantId, DateOf(e.createdAt), e.eventType)
  }

  ghost predicate IndexIsLog(l: Ledger) {
    forall e <- l.events :: HasRow(l, e)
  }

  lemma RowUnderKey(l: Ledger, e: UsageEvent)
    requires Consistent(l) && HasRow(l, e)
    ensures var row := Find(l.summary, KeyOf(e));
      row.Some? && Fills(e, row.value.tenantId, row.value.date, row.value.eventType)
  {
    var date := DateOf(e.createdAt);
    var row :| row in GetDailySummary(l, e.tenantId, e.tenantId, date) && row.eventType == e.eventType;
    DayMembers(l.summary, e.tenantId, date, row);
    var s :| s in l.summary && s.1 == row;
    assert Placed(s);
    FindMember(l.summary, s);
  }

  lemma BalancedHasRow(l: Ledger, e: UsageEvent)
    requires Balanced(l) && Unambiguous(l.events) && e in l.events
    ensures HasRow(l, e)
  {
    var row := Find(l.summary, KeyOf(e)).value;
    var x := RowEarned(l, KeyOf(e));
    assert (KeyOf(e), row) in l.summary;
    DayMembers(l.summary, e.tenantId, DateOf(e.createdAt), row);
  }

  /**
    After any run whatsoever, every logged tenant, day and kind has its row, equal to the sum of its events,
    exactly when no two logged events share a key without sharing tenant, day and kind.
   */
  lemma {:induction false} IndexIsLogIff(entries: seq<Entry>)
    ensures IndexIsLog(RecordAll(entries)) <==> Unambiguous(StoredEvents(entries))
  {
    var l := RecordAll(entries);
    RunLogs(entries);
    AlwaysConsistent(entries);
    if Unambiguous(l.events) {
      AlwaysBalanced(entries);
      forall e | e in l.events ensures HasRow(l, e) { BalancedHasRow(l, e); }
    }
    if IndexIsLog(l) {
      forall e, f | e in l.events && f in l.events && KeyOf(e) == KeyOf(f)
        ensures Fills(f, e.tenantId, DateOf(e.createdAt), e.eventType)
      {
        RowUnderKey(l, e);
        RowUnderKey(l, f);
      }
    }
  }

  // ---------- what a caller can see of it ----------

  predicate ColonFreeTenants(entries: seq<Entry>) {
    forall e <- entries :: ColonFree(e.tenant)
  }

  /** One date continues the other after a colon. */
  predicate Clash(d1: string, d2: string) {
    d1 + ":" <= d2 || d2 + ":" <= d1
  }

  /** No two dates of one tenant clash. */
  ghost predicate ClearDates(entries: seq<Entry>) {
    forall i, j | 0 <= i < |entries| && 0 <= j < |entries| && entries[i].tenant == entries[j].tenant ::
      !Clash(DateOf(entries[i].row.createdAt), DateOf(entries[j].row.createdAt))
  }

  /** The same run with other kinds of events. */
  ghost predicate Retyped(entries: seq<Entry>, other: seq<Entry>) {
    && |entries| == |other|
    && forall i | 0 <= i < |entries| ::
         && other[i].tenant == entries[i].tenant
         && other[i].row == entries[i].row.(eventType := other[i].row.eventType)
  }

  lemma SameLeft(l: string, r1: string, r2: string)
    requires JoinKey(l, r1) == JoinKey(l, r2)
    ensures r1 == r2
  {
    var k := JoinKey(l, r1);
    assert k[|l| + 1..] == r1 && JoinKey(l, r2)[|l| + 1..] == r2;
  }

  /** Without clashing dates a shared key means a shared tenant, day and kind. */
  lemma ClearKeys(t1: string, d1: string, k1: string, t2: string, d2: string, k2: string)
    requires ColonFree(t1) && ColonFree(t2) && (t1 == t2 ==> !Clash(d1, d2))
    requires SummaryKey(t1, d1, k1) == SummaryKey(t2, d2, k2)
    ensures t1 == t2 && d1 == d2 && k1 == k2
  {
    JoinKeyInjective(t1, JoinKey(d1, k1), t2, JoinKey(d2, k2));
    if d1 != d2 { JoinKeyCollidesIff(d1, d2); }
    SameLeft(d1, k1, k2);
  }

  lemma {:induction false} ClearIsUnambiguous(entries: seq<Entry>)
    requires ColonFreeTenants(entries) && ClearDates(entries)
    ensures Unambiguous(StoredEvents(entries))
  {
    var events := StoredEvents(entries);
    forall e, f | e in events && f in events && KeyOf(e) == KeyOf(f)
      ensures Fills(f, e.tenantId, DateOf(e.createdAt), e.eventType)
    {
      var i :| 0 <= i < |entries| && events[i] == e;
      var j :| 0 <= j < |entries| && events[j] == f;
      assert entries[i] in entries && entries[j] in entries;
      ClearKeys(e.tenantId, DateOf(e.createdAt), e.eventType, f.tenantId, DateOf(f.createdAt), f.eventType);
    }
  }

  lemma {:induction false} RetypedIsClear(entries: seq<Entry>, other: seq<Entry>)
    requires Retyped(entries, other) && ColonFreeTenants(entries) && ClearDates(entries)
    ensures ColonFreeTenants(other) && ClearDates(other)
  {
    forall e | e in other ensures ColonFree(e.tenant) {
      var i :| 0 <= i < |other| && other[i] == e;
      assert entries[i] in entries;
    }
  }

  /** Two clashing dates of one tenant can be given kinds that share a key. */
  lemma {:induction false} ClashIsAmbiguous(entries: seq<Entry>, i: nat, j: nat) returns (other: seq<Entry>)
    requires i < |entries| && j < |entries| && entries[i].tenant == entries[j].tenant
    requires Clash(DateOf(entries[i].row.createdAt), DateOf(entries[j].row.createdAt))
    ensures Retyped(entries, other) && !Unambiguous(StoredEvents(other))
  {
    var d1, d2 := DateOf(entries[i].row.createdAt), DateOf(entries[j].row.createdAt);
    JoinKeyCollidesIff(d1, d2);
    var k1, k2 :| JoinKey(d1, k1) == JoinKey(d2, k2);
    var a := entries[i].(row := entries[i].row.(eventType := k1));
    var b := entries[j].(row := entries[j].row.(eventType := k2));
    other := entries[i := a][j := b];
    var events := StoredEvents(other);
    assert events[i] == StoredEvent(a) && events[j] == StoredEvent(b);
    assert KeyOf(events[i]) == KeyOf(events[j]) && DateOf(events[i].createdAt) != DateOf(events[j].createdAt);
  }

  /**
    For colon-free tenants, the index is the log whatever kinds the events of a run have, exactly when no date of a
    tenant continues another after a colon.
   */
  lemma {:induction false} IndexIsLogForAllKindsIff(entries: seq<Entry>)
    requires ColonFreeTenants(entries)
    ensures (forall other | Retyped(entries, other) :: IndexIsLog(RecordAll(other))) <==> ClearDates(entries)
  {
    if ClearDates(entries) {
      forall other | Retyped(entries, other) ensures IndexIsLog(RecordAll(other)) {
        RetypedIsClear(entries, other);
        ClearIsUnambiguous(other);
        IndexIsLogIff(other);
      }
    } else {
      var i, j :| 0 <= i < |entries| && 0 <= j < |entries| && entries[i].tenant == entries[j].tenant
        && Clash(DateOf(entries[i].row.createdAt), DateOf(entries[j].row.createdAt));
      var other := ClashIsAmbiguous(entries, i, j);
      IndexIsLogIff(other);
    }
  }

  /** Full dates never clash. */
  lemma {:induction false} FullDatesAreClear(entries: seq<Entry>)
    requires forall e <- entries :: |e.row.createdAt| >= 10
    ensures ClearDates(entries)
  {
    forall i | 0 <= i < |entries| ensures |DateOf(entries[i].row.createdAt)| == 10 {
      assert entries[i] in entries;
    }
  }

  lemma {:induction false} DatedIsUnambiguous(entries: seq<Entry>)
    requires forall e <- entries :: ColonFree(e.tenant) && |e.row.createdAt| >= 10
    ensures Unambiguous(StoredEvents(entries))
  {
    FullDatesAreClear(entries);
    ClearIsUnambiguous(entries);
  }

  /** A lost day: the second event's row replaces the first one's, whose day then has no summary at all. */
  lemma ShortDatesLoseARow(id: string, q1: real, q2: real, now: string)
    ensures var first := Entry("t", UsageEvent(id, "t", "b:c", q1, "a"), now);
      var second := Entry("t", UsageEvent(id, "t", "c", q2, "a:b"), now);
      var l := RecordAll([first, second]);
      Logged(l.events, "t", "a", "b:c") && GetDailySummary(l, "t", "t", "a") == []
  {
    var e, f := UsageEvent(id, "t", "b:c", q1, "a"), UsageEvent(id, "t", "c", q2, "a:b");
    var first, second := Entry("t", e, now), Entry("t", f, now);
    var key := KeyOf(e);
    assert JoinKey("a", "b:c") == "a:b:c" == JoinKey("a:b", "c");
    assert KeyOf(f) == key;
    var l1 := Record(EMPTY, "t", e, now);
    assert [first, second][..1] == [first] && [first][..0] == [];
    assert RecordAll([first]) == l1;
    assert l1.summary == [(key, NextRow([], e, now))];
    var l := Record(l1, "t", f, now);
    var v := NextRow(l1.summary, f, now);
    assert l.summary == [(key, v)] + l1.summary[1..];
    assert l.summary == [(key, v)] && v.date == "a:b";
    assert |v.date| == 3 && FilterDay(l.summary[1..], "t", "a") == [];
    assert e in l.events && Fills(e, "t", "a", "b:c");
  }

  // ---------- what the reads return ----------

  /** In any consistent ledger a day's summary lists no kind twice. */
  lemma {:induction false} KindsOnce(m: JsMap<DailySummary>, tenant: string, date: string)
    requires Unique(m) && forall s <- m :: Placed(s)
    ensures forall i, j | 0 <= i < j < |FilterDay(m, tenant, date)| ::
      FilterDay(m, tenant, date)[i].eventType != FilterDay(m, tenant, date)[j].eventType
  {
    if m != [] {
      var rest := FilterDay(m[1..], tenant, date);
      assert m == [m[0]] + m[1..];
      assert Placed(m[0]);
      KindsOnce(m[1..], tenant, date);
      if m[0].1.date == date && m[0].1.tenantId == tenant {
        forall i | 0 <= i < |rest| ensures rest[i].eventType != m[0].1.eventType {
          assert rest[i] in rest;
          DayMembers(m[1..], tenant, date, rest[i]);
          var s :| s in m[1..] && s.1 == rest[i];
          assert Placed(s);
        }
      }
    }
  }

  lemma ListedIffLogged(l: Ledger, tenant: string, date: string, eventType: string)
    requires Balanced(l) && Unambiguous(l.events)
    ensures (exists row <- GetDailySummary(l, tenant, tenant, date) :: row.eventType == eventType)
       <==> Logged(l.events, tenant, date, eventType)
    ensures forall row <- GetDailySummary(l, tenant, tenant, date) ::
      row.quantity == SumDay(l.events, tenant, date, row.eventType)
  {
    forall row | row in GetDailySummary(l, tenant, tenant, date)
      ensures Logged(l.events, tenant, date, row.eventType)
      ensures row.quantity == SumDay(l.events, tenant, date, row.eventType)
    {
      DayMembers(l.summary, tenant, date, row);
    }
    if Logged(l.events, tenant, date, eventType) {
      var e :| e in l.events && Fills(e, tenant, date, eventType);
      BalancedHasRow(l, e);
    }
  }

  /**
    After any run without ambiguous keys, a tenant's daily summary lists exactly the kinds logged for that day, each
    once and with the sum of its events, and current usage is the sum of the tenant's summaries over all dates.
   */
  lemma {:induction false} SummariesAreTheLog(entries: seq<Entry>, tenant: string, date: string, eventType: string)
    requires Unambiguous(StoredEvents(entries))
    ensures var l := RecordAll(entries);
      var rows := GetDailySummary(l, tenant, tenant, date);
      && (forall row <- rows :: row.quantity == SumDay(l.events, tenant, date, row.eventType))
      && ((exists row <- rows :: row.eventType == eventType) <==> Logged(l.events, tenant, date, eventType))
      && (forall i, j | 0 <= i < j < |rows| :: rows[i].eventType != rows[j].eventType)
      && GetCurrentUsage(l, tenant, tenant, eventType) == SumSummaries(l.summary, tenant, eventType)
  {
    RunLogs(entries);
    AlwaysBalanced(entries);
    ListedIffLogged(RecordAll(entries), tenant, date, eventType);
    KindsOnce(RecordAll(entries).summary, tenant, date);
  }

  // ---------- exactly when the totals agree ----------

  /** What a row holds in any run: the quantities of all events under its key. */
  function SumKey(events: seq<UsageEvent>, key: string): real {
    if events == [] then 0.0
    else
      var e := events[|events| - 1];
      SumKey(events[..|events| - 1], key) + (if KeyOf(e) == key then e.quantity else 0.0)
  }

  function Held(l: Ledger, key: string): real {
    var row := Find(l.summary, key);
    if row.Some? then row.value.quantity else 0.0
  }

  lemma {:induction false} RowsHoldTheirKeys(entries: seq<Entry>, key: string)
    ensures Held(RecordAll(entries), key) == SumKey(StoredEvents(entries), key)
  {
    if entries != [] {
      var before, last := entries[..|entries| - 1], entries[|entries| - 1];
      var l, e := RecordAll(before), StoredEvent(last);
      RowsHoldTheirKeys(before, key);
      RowsHoldTheirKeys(before, KeyOf(e));
      FindPut(l.summary, KeyOf(e), NextRow(l.summary, e, last.now), key);
      assert StoredEvents(entries)[..|entries| - 1] == StoredEvents(before);
    }
  }

  /** The same run with other quantities. */
  ghost predicate Requantified(entries: seq<Entry>, other: seq<Entry>) {
    && |entries| == |other|
    && forall i | 0 <= i < |entries| ::
         && other[i].tenant == entries[i].tenant
         && other[i].row == entries[i].row.(quantity := other[i].row.quantity)
  }

  ghost predicate TotalsAgree(l: Ledger) {
    forall tenant, eventType ::
      SumSummaries(l.summary, tenant, eventType) == GetCurrentUsage(l, tenant, tenant, eventType)
  }

  /** The same run with one unit at one event, two at another and none elsewhere. */
  function Marked(entries: seq<Entry>, i: nat, j: nat): (other: seq<Entry>)
    ensures |other| == |entries|
    ensures forall p | 0 <= p < |entries| :: other[p] == entries[p].(row := entries[p].row.(quantity := Mark(p, i, j)))
  {
    seq(|entries|, p requires 0 <= p < |entries| =>
      entries[p].(row := entries[p].row.(quantity := Mark(p, i, j))))
  }

  function Mark(p: nat, i: nat, j: nat): real {
    if p == i then 1.0 else if p == j then 2.0 else 0.0
  }

  predicate Marks(events: seq<UsageEvent>, i: nat, j: nat) {
    forall p | 0 <= p < |events| :: events[p].quantity == Mark(p, i, j)
  }

  lemma {:induction false} MarkedKey(events: seq<UsageEvent>, i: nat, j: nat, key: string)
    requires i != j && Marks(events, i, j)
    ensures SumKey(events, key) == (if i < |events| && KeyOf(events[i]) == key then 1.0 else 0.0)
                                 + (if j < |events| && KeyOf(events[j]) == key then 2.0 else 0.0)
  {
    if events != [] { MarkedKey(events[..|events| - 1], i, j, key); }
  }

  lemma {:induction false} MarkedUsage(events: seq<UsageEvent>, i: nat, j: nat, tenant: string, kind: string)
    requires i != j && Marks(events, i, j)
    ensures SumEvents(events, tenant, kind)
         == (if i < |events| && events[i].tenantId == tenant && events[i].eventType == kind then 1.0 else 0.0)
          + (if j < |events| && events[j].tenantId == tenant && events[j].eventType == kind then 2.0 else 0.0)
  {
    if events != [] { MarkedUsage(events[..|events| - 1], i, j, tenant, kind); }
  }

  /** When only one row holds anything, every total is that or nothing. */
  lemma {:induction false} OneRowHolds(m: JsMap<DailySummary>, key: string, q: real, tenant: string, kind: string)
    requires Unique(m) && forall s <- m :: s.1.quantity == if s.0 == key then q else 0.0
    ensures SumSummaries(m, tenant, kind) == 0.0 || SumSummaries(m, tenant, kind) == q
    ensures Find(m, key).None? ==> SumSummaries(m, tenant, kind) == 0.0
  {
    if m != [] {
      assert m[0] in m && forall s <- m[1..] :: s in m;
      OneRowHolds(m[1..], key, q, tenant, kind);
    }
  }

  lemma SharedKey(e: UsageEvent, f: UsageEvent)
    requires KeyOf(e) == KeyOf(f) && e.tenantId == f.tenantId && e.eventType == f.eventType
    ensures DateOf(e.createdAt) == DateOf(f.createdAt)
  {
    var d1, d2 := DateOf(e.createdAt), DateOf(f.createdAt);
    SameLeft(e.tenantId, JoinKey(d1, e.eventType), JoinKey(d2, f.eventType));
    var k := JoinKey(d1, e.eventType);
    assert |d1| == |d2| && k[..|d1|] == d1 && JoinKey(d2, f.eventType)[..|d2|] == d2;
  }

  lemma {:induction false} MarkedRows(entries: seq<Entry>, i: nat, j: nat)
    requires i < |entries| && j < |entries| && i != j && Marks(StoredEvents(entries), i, j)
    requires KeyOf(StoredEvents(entries)[i]) == KeyOf(StoredEvents(entries)[j])
    ensures var l := RecordAll(entries);
      Unique(l.summary)
      && forall s <- l.summary :: s.1.quantity == if s.0 == KeyOf(StoredEvents(entries)[i]) then 3.0 else 0.0
  {
    var l, events := RecordAll(entries), StoredEvents(entries);
    AlwaysConsistent(entries);
    forall s | s in l.summary ensures s.1.quantity == if s.0 == KeyOf(events[i]) then 3.0 else 0.0 {
      FindMember(l.summary, s);
      RowsHoldTheirKeys(entries, s.0);
      MarkedKey(events, i, j, s.0);
    }
  }

  lemma {:induction false} MarkedDisagrees(entries: seq<Entry>, i: nat, j: nat)
    requires i < |entries| && j < |entries| && Marks(StoredEvents(entries), i, j)
    requires var e, f := StoredEvents(entries)[i], StoredEvents(entries)[j];
      KeyOf(e) == KeyOf(f) && !Fills(f, e.tenantId, DateOf(e.createdAt), e.eventType)
    ensures !TotalsAgree(RecordAll(entries))
  {
    var l, events := RecordAll(entries), StoredEvents(entries);
    var e, f := events[i], events[j];
    if e.tenantId == f.tenantId && e.eventType == f.eventType { SharedKey(e, f); }
    RunLogs(entries);
    MarkedRows(entries, i, j);
    MarkedUsage(events, i, j, e.tenantId, e.eventType);
    OneRowHolds(l.summary, KeyOf(e), 3.0, e.tenantId, e.eventType);
    assert SumSummaries(l.summary, e.tenantId, e.eventType)
        != GetCurrentUsage(l, e.tenantId, e.tenantId, e.eventType);
  }

  lemma {:induction false} RequantifiedKeys(entries: seq<Entry>, other: seq<Entry>)
    requires Requantified(entries, other)
    ensures Unambiguous(StoredEvents(entries)) ==> Unambiguous(StoredEvents(other))
  {
    var a, b := StoredEvents(entries), StoredEvents(other);
    if Unambiguous(a) {
      forall e, f | e in b && f in b && KeyOf(e) == KeyOf(f)
        ensures Fills(f, e.tenantId, DateOf(e.createdAt), e.eventType)
      {
        var i :| 0 <= i < |b| && b[i] == e;
        var j :| 0 <= j < |b| && b[j] == f;
        assert a[i] in a && a[j] in a && KeyOf(a[i]) == KeyOf(a[j]);
      }
    }
  }

  lemma {:induction false} MarkedKeepsKeys(entries: seq<Entry>, i: nat, j: nat)
    ensures var other := Marked(entries, i, j);
      && Requantified(entries, other)
      && Marks(StoredEvents(other), i, j)
      && forall p | 0 <= p < |entries| ::
           StoredEvents(other)[p] == StoredEvents(entries)[p].(quantity := Mark(p, i, j))
  {
  }

  lemma {:induction false} AmbiguousDisagrees(entries: seq<Entry>) returns (other: seq<Entry>)
    requires !Unambiguous(StoredEvents(entries))
    ensures Requantified(entries, other) && !TotalsAgree(RecordAll(other))
  {
    var events := StoredEvents(entries);
    var e, f :| e in events && f in events && KeyOf(e) == KeyOf(f)
      && !Fills(f, e.tenantId, DateOf(e.createdAt), e.eventType);
    var i :| 0 <= i < |events| && events[i] == e;
    var j :| 0 <= j < |events| && events[j] == f;
    other := Marked(entries, i, j);
    MarkedKeepsKeys(entries, i, j);
    MarkedDisagrees(other, i, j);
  }

  /** Usage equals the sum of a tenant's summaries whatever the quantities, exactly when no key is ambiguous. */
  lemma {:induction false} TotalsAgreeIff(entries: seq<Entry>)
    ensures (forall other | Requantified(entries, other) :: TotalsAgree(RecordAll(other)))
       <==> Unambiguous(StoredEvents(entries))
  {
    if Unambiguous(StoredEvents(entries)) {
      forall other | Requantified(entries, other) ensures TotalsAgree(RecordAll(other)) {
        RequantifiedKeys(entries, other);
        AlwaysBalanced(other);
      }
    } else {
      var other := AmbiguousDisagrees(entries);
    }
  }

  // ---------- tenants ----------

  /** A caller cannot read another tenant's usage by naming it. */
  lemma ForeignArgumentReadsNothing(l: Ledger, ctxTenant: string, tenant: string, date: string, eventType: string)
    requires tenant != ctxTenant
    ensures GetDailySummary(l, ctxTenant, tenant, date) == [] && GetCurrentUsage(l, ctxTenant, tenant, eventType) == 0.0
  {
  }

  lemma {:induction false} PutForeign(m: JsMap<DailySummary>, k: string, v: DailySummary, tenant: string, date: string)
    requires v.tenantId != tenant
    ensures var replaced := Find(m, k);
      if replaced.Some? && replaced.value.tenantId == tenant && replaced.value.date == date
      then |FilterDay(Put(m, k, v), tenant, date)| < |FilterDay(m, tenant, date)|
      else FilterDay(Put(m, k, v), tenant, date) == FilterDay(m, tenant, date)
  {
    if m != [] && m[0].0 != k {
      PutForeign(m[1..], k, v, tenant, date);
    }
  }

  /** The row under the key that another tenant writes is this tenant's. */
  predicate Overwrites(l: Ledger, e: UsageEvent, tenant: string) {
    var replaced := Find(l.summary, KeyOf(e));
    replaced.Some? && replaced.value.tenantId == tenant
  }

  lemma ForeignUsage(l: Ledger, e: UsageEvent, now: string, tenant: string, eventType: string)
    requires e.tenantId != tenant
    ensures GetCurrentUsage(Record(l, e.tenantId, e, now), tenant, tenant, eventType)
         == GetCurrentUsage(l, tenant, tenant, eventType)
  {
    AppendDay(l.events, e, tenant, "", eventType);
  }

  /** Another tenant's write leaves all of a tenant's summaries alone exactly when it overwrites no row of theirs. */
  lemma ForeignSummariesIff(l: Ledger, e: UsageEvent, now: string, tenant: string)
    requires e.tenantId != tenant
    ensures (forall date :: GetDailySummary(Record(l, e.tenantId, e, now), tenant, tenant, date)
                         == GetDailySummary(l, tenant, tenant, date))
       <==> !Overwrites(l, e, tenant)
  {
    var v := NextRow(l.summary, e, now);
    if Overwrites(l, e, tenant) {
      var date := Find(l.summary, KeyOf(e)).value.date;
      PutForeign(l.summary, KeyOf(e), v, tenant, date);
      assert GetDailySummary(Record(l, e.tenantId, e, now), tenant, tenant, date)
          != GetDailySummary(l, tenant, tenant, date);
    } else {
      forall date ensures FilterDay(Put(l.summary, KeyOf(e), v), tenant, date) == FilterDay(l.summary, tenant, date) {
        PutForeign(l.summary, KeyOf(e), v, tenant, date);
      }
    }
  }

  lemma {:induction false} ColonFreeNeverOverwrites(entries: seq<Entry>, e: UsageEvent, tenant: string)
    requires ColonFreeTenants(entries) && ColonFree(e.tenantId) && e.tenantId != tenant
    ensures !Overwrites(RecordAll(entries), e, tenant)
  {
    var l := RecordAll(entries);
    AlwaysConsistent(entries);
    RunLogs(entries);
    if Find(l.summary, KeyOf(e)).Some? {
      var x := RowEarned(l, KeyOf(e));
      LoggedTenant(entries, x);
      JoinKeyInjective(x.tenantId, JoinKey(DateOf(x.createdAt), x.eventType),
                       e.tenantId, JoinKey(DateOf(e.createdAt), e.eventType));
    }
  }

  lemma {:induction false} LoggedTenant(entries: seq<Entry>, x: UsageEvent)
    requires ColonFreeTenants(entries) && x in StoredEvents(entries)
    ensures ColonFree(x.tenantId)
  {
    var i :| 0 <= i < |entries| && StoredEvents(entries)[i] == x;
    assert entries[i] in entries;
  }

  /** With colon-free tenants, whatever the dates, another tenant's writes change neither summaries nor usage. */
  lemma {:induction false} OtherTenantsDoNotCount(
      entries: seq<Entry>, e: UsageEvent, now: string, tenant: string, date: string, eventType: string)
    requires ColonFreeTenants(entries) && ColonFree(e.tenantId) && e.tenantId != tenant
    ensures var l := RecordAll(entries);
      var l' := Record(l, e.tenantId, e, now);
      && GetDailySummary(l', tenant, tenant, date) == GetDailySummary(l, tenant, tenant, date)
      && GetCurrentUsage(l', tenant, tenant, eventType) == GetCurrentUsage(l, tenant, tenant, eventType)
  {
    ColonFreeNeverOverwrites(entries, e, tenant);
    ForeignSummariesIff(RecordAll(entries), e, now, tenant);
    ForeignUsage(RecordAll(entries), e, now, tenant, eventType);
  }

  // ---------- the object ----------

  class InMemoryUsageRepository {
    var events: seq<UsageEvent>
    var summary: JsMap<DailySummary>

    ghost function State(): Ledger reads this {
      Ledger(events, summary)
    }

    constructor ()
      ensures State() == EMPTY
    {
      events, summary := [], [];
    }

    method RecordEvent(tenant: string, row: UsageEvent, now: string) returns (stored: UsageEvent)
      modifies this
      ensures State() == Record(old(State()), tenant, row, now) && stored == row.(tenantId := tenant)
    {
      stored := row.(tenantId := tenant);
      events := events + [stored];
      var date := DateOf(stored.createdAt);
      var key := SummaryKey(tenant, date, stored.eventType);
      var existing := Find(summary, key);
      var quantity := (if existing.Some? then existing.value.quantity else 0.0) + stored.quantity;
      summary := Put(summary, key, DailySummary(tenant, date, stored.eventType, quantity, now));
    }
  }
}
