/** The fixed-window rate limiter with its bounded store. */
module RateLimit {
  import opened Prelude
  import opened JsMaps
  import Sorting

  const MAX_REQUESTS: int := 60
  const WINDOW_MS: int := 60000
  const MAX_STORE_ENTRIES: int := 10000

  datatype Entry = Entry(count: int, windowStart: int)

  type Store = JsMap<Entry>

  predicate Expired(e: Entry, now: int) {
    now - e.windowStart > WINDOW_MS
  }

  // ---------- pruning ----------

  function Without(m: Store, keys: set<string>): Store {
    if m == [] then []
    else if m[0].0 in keys then Without(m[1..], keys)
    else [m[0]] + Without(m[1..], keys)
  }

  function DropExpired(m: Store, now: int): Store {
    if m == [] then []
    else if Expired(m[0].1, now) then DropExpired(m[1..], now)
    else [m[0]] + DropExpired(m[1..], now)
  }

  predicate Older(a: (string, Entry), b: (string, Entry)) {
    a.1.windowStart <= b.1.windowStart
  }

  function CeilTenth(n: nat): nat {
    (n + 9) / 10
  }

  lemma CeilTenthIs(n: nat)
    ensures 10 * CeilTenth(n) >= n > 10 * (CeilTenth(n) - 1)
  {
  }

  function KeySet(m: Store): set<string> {
    set e <- m :: e.0
  }

  /** The oldest tenth, rounded up, in the order of a stable sort by window start. */
  function Oldest(m: Store): Store {
    Sorting.SortPermutes(m, Older);
    Sorting.Sort(m, Older)[..CeilTenth(|m|)]
  }

  function Evict(m: Store): Store {
    Without(m, KeySet(Oldest(m)))
  }

  predicate EvictsLive(m: Store, now: int) {
    |m| >= MAX_STORE_ENTRIES && |DropExpired(m, now)| >= MAX_STORE_ENTRIES
  }

  function Prune(m: Store, now: int): Store {
    if |m| < MAX_STORE_ENTRIES then m
    else if EvictsLive(m, now) then Evict(DropExpired(m, now))
    else DropExpired(m, now)
  }

  // ---------- the limiter ----------

  /** The decision for a key, on the store as it is after pruning. */
  predicate Allows(m: Store, k: string, now: int) {
    var e := Find(m, k);
    e.None? || Expired(e.value, now) || e.value.count < MAX_REQUESTS
  }

  function Count(m: Store, k: string, now: int): Store {
    var e := Find(m, k);
    if e.None? || Expired(e.value, now) then Put(m, k, Entry(1, now))
    else if e.value.count >= MAX_REQUESTS then m
    else Put(m, k, e.value.(count := e.value.count + 1))
  }

  datatype Request = Request(key: string, now: int)

  /** The store after a sequence of requests, with pruning or, for comparison, without. */
  function After(rs: seq<Request>, pruning: bool): Store
    decreases rs, 1
  {
    if rs == [] then []
    else
      var r := rs[|rs| - 1];
      Count(BeforeLast(rs, pruning), r.key, r.now)
  }

  /** The store that the last request looks at. */
  function BeforeLast(rs: seq<Request>, pruning: bool): Store
    requires rs != []
    decreases rs, 0
  {
    var m := After(rs[..|rs| - 1], pruning);
    if pruning then Prune(m, rs[|rs| - 1].now) else m
  }

  predicate Accepted(rs: seq<Request>, pruning: bool)
    requires rs != []
  {
    Allows(BeforeLast(rs, pruning), rs[|rs| - 1].key, rs[|rs| - 1].now)
  }

  /** How many requests of a key were accepted at an instant of the closed interval. */
  function AcceptedIn(rs: seq<Request>, pruning: bool, k: string, lo: int, hi: int): nat {
    if rs == [] then 0
    else
      var r := rs[|rs| - 1];
      AcceptedIn(rs[..|rs| - 1], pruning, k, lo, hi)
      + (if r.key == k && lo <= r.now <= hi && Accepted(rs, pruning) then 1 else 0)
  }

  predicate Ordered(rs: seq<Request>) {
    forall i, j | 0 <= i < j < |rs| :: rs[i].now <= rs[j].now
  }

  /** At no request was a live entry evicted for space. */
  predicate NoLiveEviction(rs: seq<Request>) {
    rs != [] ==> NoLiveEviction(rs[..|rs| - 1]) && !EvictsLive(After(rs[..|rs| - 1], true), rs[|rs| - 1].now)
  }

  // ---------- the store stays bounded ----------

  /** What is left of an entry once expired ones are dropped. */
  function Live(e: Option<Entry>, now: int): Option<Entry> {
    if e.Some? && Expired(e.value, now) then None else e
  }

  lemma {:induction false} WithoutFinds(m: Store, keys: set<string>, q: string)
    requires Unique(m)
    ensures Find(Without(m, keys), q) == if q in keys then None else Find(m, q)
  {
    if m != [] {
      WithoutFinds(m[1..], keys, q);
    }
  }

  lemma {:induction false} WithoutUnique(m: Store, keys: set<string>)
    requires Unique(m)
    ensures Unique(Without(m, keys))
  {
    if m != [] {
      WithoutUnique(m[1..], keys);
      WithoutFinds(m[1..], keys, m[0].0);
      var rest := Without(m[1..], keys);
      assert ([m[0]] + rest)[1..] == rest;
    }
  }

  lemma {:induction false} DropExpiredFinds(m: Store, now: int, q: string)
    requires Unique(m)
    ensures Find(DropExpired(m, now), q) == Live(Find(m, q), now)
  {
    if m != [] {
      DropExpiredFinds(m[1..], now, q);
    }
  }

  lemma {:induction false} DropExpiredUnique(m: Store, now: int)
    requires Unique(m)
    ensures Unique(DropExpired(m, now)) && |DropExpired(m, now)| <= |m|
  {
    if m != [] {
      DropExpiredUnique(m[1..], now);
      DropExpiredFinds(m[1..], now, m[0].0);
      var rest := DropExpired(m[1..], now);
      assert ([m[0]] + rest)[1..] == rest;
    }
  }

  lemma {:induction false} InsertFinds(x: (string, Entry), s: Store, q: string)
    ensures Find(Sorting.Insert(x, s, Older), q).None? <==> q != x.0 && Find(s, q).None?
    ensures Unique(s) && Find(s, x.0).None? ==> Unique(Sorting.Insert(x, s, Older))
  {
    if s != [] && !Older(x, s[0]) {
      InsertFinds(x, s[1..], q);
      InsertFinds(x, s[1..], s[0].0);
    }
  }

  lemma {:induction false} SortFinds(m: Store, q: string)
    ensures Find(Sorting.Sort(m, Older), q).None? <==> Find(m, q).None?
    ensures Unique(m) ==> Unique(Sorting.Sort(m, Older))
  {
    if m != [] {
      SortFinds(m[1..], q);
      SortFinds(m[1..], m[0].0);
      InsertFinds(m[0], Sorting.Sort(m[1..], Older), q);
    }
  }

  lemma {:induction false} WithoutInsert(x: (string, Entry), s: Store, keys: set<string>)
    ensures |Without(Sorting.Insert(x, s, Older), keys)| == |Without(s, keys)| + (if x.0 in keys then 0 else 1)
  {
    if s != [] && !Older(x, s[0]) {
      WithoutInsert(x, s[1..], keys);
    }
  }

  lemma {:induction false} WithoutSort(m: Store, keys: set<string>)
    ensures |Without(Sorting.Sort(m, Older), keys)| == |Without(m, keys)|
  {
    if m != [] {
      WithoutSort(m[1..], keys);
      WithoutInsert(m[0], Sorting.Sort(m[1..], Older), keys);
    }
  }

  lemma {:induction false} WithoutPrefix(s: Store, c: nat)
    requires Unique(s) && c <= |s|
    ensures Without(s, KeySet(s[..c])) == s[c..]
  {
    if c == 0 {
      WithoutNone(s, KeySet(s[..0]));
    } else {
      WithoutPrefix(s[1..], c - 1);
      assert s[..c] == [s[0]] + s[1..][..c - 1];
      assert KeySet(s[..c]) == {s[0].0} + KeySet(s[1..][..c - 1]);
      WithoutAlso(s[1..], KeySet(s[1..][..c - 1]), s[0].0);
    }
  }

  lemma {:induction false} WithoutNone(s: Store, keys: set<string>)
    requires keys == {}
    ensures Without(s, keys) == s
  {
    if s != [] { WithoutNone(s[1..], keys); }
  }

  lemma {:induction false} WithoutAlso(s: Store, keys: set<string>, k: string)
    requires Find(s, k).None?
    ensures Without(s, {k} + keys) == Without(s, keys)
  {
    if s != [] { WithoutAlso(s[1..], keys, k); }
  }

  lemma EvictsTenth(m: Store)
    requires Unique(m)
    ensures Unique(Evict(m)) && |Evict(m)| == |m| - CeilTenth(|m|)
  {
    var s, c := Sorting.Sort(m, Older), CeilTenth(|m|);
    Sorting.SortPermutes(m, Older);
    SortFinds(m, "");
    WithoutPrefix(s, c);
    WithoutSort(m, KeySet(s[..c]));
    WithoutUnique(m, KeySet(s[..c]));
  }

  lemma PrefixNoYounger(s: Store, c: nat, gone: (string, Entry), kept: (string, Entry))
    requires Sorting.Sorted(s, Older) && Unique(s) && c <= |s|
    requires gone in s && kept in s && gone.0 in KeySet(s[..c]) && kept.0 !in KeySet(s[..c])
    ensures gone.1.windowStart <= kept.1.windowStart
  {
    var e :| e in s[..c] && e.0 == gone.0;
    SameKey(s, e, gone);
    assert kept !in s[..c];
    OldestFirst(s, c, gone, kept);
  }

  lemma OldestFirst(s: Store, c: nat, early: (string, Entry), late: (string, Entry))
    requires Sorting.Sorted(s, Older) && c <= |s| && early in s[..c] && late in s && late !in s[..c]
    ensures Older(early, late)
  {
    assert forall k | 0 <= k < c :: s[k] in s[..c];
    var i :| 0 <= i < c && s[..c][i] == early;
    var j :| 0 <= j < |s| && s[j] == late;
    assert s[i] == early && i < j;
  }

  lemma SameKey(s: Store, e: (string, Entry), f: (string, Entry))
    requires Unique(s) && e in s && f in s && e.0 == f.0
    ensures e == f
  {
    FindMember(s, e);
    FindMember(s, f);
  }

  lemma EvictsNoYounger(m: Store, gone: (string, Entry), kept: (string, Entry))
    requires Unique(m) && gone in m && kept in m && gone.0 in KeySet(Oldest(m)) && kept.0 !in KeySet(Oldest(m))
    ensures gone.1.windowStart <= kept.1.windowStart
  {
    Sorting.SortPermutes(m, Older);
    Sorting.SortMembers(m, Older);
    assert Sorting.TotalPreorder(Older);
    Sorting.SortSorts(m, Older);
    SortFinds(m, "");
    PrefixNoYounger(Sorting.Sort(m, Older), CeilTenth(|m|), gone, kept);
  }

  /**
    Eviction removes exactly the oldest tenth, rounded up: what goes is never younger than what stays, and
    what stays is untouched.
   */
  lemma EvictsOldest(m: Store)
    requires Unique(m)
    ensures Unique(Evict(m)) && |Evict(m)| == |m| - CeilTenth(|m|)
    ensures forall q :: Find(Evict(m), q) == if q in KeySet(Oldest(m)) then None else Find(m, q)
    ensures forall gone, kept | gone in m && kept in m && gone.0 in KeySet(Oldest(m)) && kept.0 !in KeySet(Oldest(m)) ::
      gone.1.windowStart <= kept.1.windowStart
  {
    EvictsTenth(m);
    forall q ensures Find(Evict(m), q) == if q in KeySet(Oldest(m)) then None else Find(m, q) {
      WithoutFinds(m, KeySet(Oldest(m)), q);
    }
    forall gone, kept | gone in m && kept in m && gone.0 in KeySet(Oldest(m)) && kept.0 !in KeySet(Oldest(m))
      ensures gone.1.windowStart <= kept.1.windowStart
    {
      EvictsNoYounger(m, gone, kept);
    }
  }

  lemma PruneBounds(m: Store, now: int)
    requires Unique(m) && |m| <= MAX_STORE_ENTRIES
    ensures Unique(Prune(m, now)) && |Prune(m, now)| < MAX_STORE_ENTRIES
  {
    DropExpiredUnique(m, now);
    if EvictsLive(m, now) { EvictsTenth(DropExpired(m, now)); }
  }

  /** Whatever the clock does, the store never holds more than its cap. */
  lemma {:induction false} StoreNeverExceedsCap(rs: seq<Request>)
    ensures Unique(After(rs, true)) && |After(rs, true)| <= MAX_STORE_ENTRIES
  {
    if rs != [] {
      var r := rs[|rs| - 1];
      var m := After(rs[..|rs| - 1], true);
      StoreNeverExceedsCap(rs[..|rs| - 1]);
      PruneBounds(m, r.now);
      var p := Prune(m, r.now);
      CountBounds(p, r.key, r.now);
    }
  }

  lemma CountBounds(m: Store, k: string, now: int)
    requires Unique(m)
    ensures Unique(Count(m, k, now)) && |Count(m, k, now)| <= |m| + 1
  {
    var e := Find(m, k);
    if e.None? || Expired(e.value, now) {
      PutBounds(m, k, Entry(1, now));
    } else if e.value.count < MAX_REQUESTS {
      PutBounds(m, k, e.value.(count := e.value.count + 1));
    }
  }

  lemma PutBounds(m: Store, k: string, e: Entry)
    requires Unique(m)
    ensures Unique(Put(m, k, e)) && |Put(m, k, e)| <= |m| + 1
  {
    PutKeepsUnique(m, k, e);
    PutGrows(m, k, e);
  }

  // ---------- pruning is invisible ----------

  /** The same entry, or an expired one that the pruned side has dropped. */
  predicate Similar(e: Option<Entry>, full: Option<Entry>, now: int) {
    e == full || (e.None? && full.Some? && Expired(full.value, now))
  }

  /** The pruned store differs from the unpruned one only where the latter holds an expired entry. */
  ghost predicate Simulates(m: Store, full: Store, now: int) {
    Unique(m) && forall q :: Similar(Find(m, q), Find(full, q), now)
  }

  lemma PruneSimulates(m: Store, full: Store, earlier: int, now: int)
    requires Simulates(m, full, earlier) && earlier <= now && !EvictsLive(m, now)
    ensures Simulates(Prune(m, now), full, now)
  {
    DropExpiredUnique(m, now);
    forall q ensures Similar(Find(Prune(m, now), q), Find(full, q), now) {
      assert Similar(Find(m, q), Find(full, q), earlier);
      DropExpiredFinds(m, now, q);
    }
  }

  lemma CountSimulates(m: Store, full: Store, k: string, now: int)
    requires Simulates(m, full, now)
    ensures Allows(m, k, now) <==> Allows(full, k, now)
    ensures Simulates(Count(m, k, now), Count(full, k, now), now)
  {
    CountBounds(m, k, now);
    assert Similar(Find(m, k), Find(full, k), now);
    forall q ensures Similar(Find(Count(m, k, now), q), Find(Count(full, k, now), q), now) {
      assert Similar(Find(m, q), Find(full, q), now);
      CountFinds(m, k, now, q);
      CountFinds(full, k, now, q);
    }
  }

  /** The key's entry after it was counted. */
  function Counted(e: Option<Entry>, now: int): Entry {
    if e.None? || Expired(e.value, now) then Entry(1, now)
    else if e.value.count >= MAX_REQUESTS then e.value
    else e.value.(count := e.value.count + 1)
  }

  lemma CountFinds(m: Store, k: string, now: int, q: string)
    ensures Find(Count(m, k, now), q) == if q == k then Some(Counted(Find(m, k), now)) else Find(m, q)
  {
    var e := Find(m, k);
    if e.None? || Expired(e.value, now) {
      FindPut(m, k, Entry(1, now), q);
    } else if e.value.count < MAX_REQUESTS {
      FindPut(m, k, e.value.(count := e.value.count + 1), q);
    }
  }

  lemma {:induction false} RunSimulates(rs: seq<Request>, now: int)
    requires Ordered(rs) && NoLiveEviction(rs) && (rs != [] ==> rs[|rs| - 1].now <= now)
    ensures Simulates(After(rs, true), After(rs, false), now)
  {
    if rs != [] {
      var before, r := rs[..|rs| - 1], rs[|rs| - 1];
      RunSimulates(before, r.now);
      PruneSimulates(After(before, true), After(before, false), r.now, r.now);
      CountSimulates(BeforeLast(rs, true), BeforeLast(rs, false), r.key, r.now);
    }
  }

  /** With a nondecreasing clock and no live eviction, pruning changes no decision. */
  lemma PruningChangesNoDecision(rs: seq<Request>)
    requires rs != [] && Ordered(rs) && NoLiveEviction(rs)
    ensures Accepted(rs, true) <==> Accepted(rs, false)
  {
    var before, r := rs[..|rs| - 1], rs[|rs| - 1];
    RunSimulates(before, r.now);
    PruneSimulates(After(before, true), After(before, false), r.now, r.now);
    CountSimulates(BeforeLast(rs, true), BeforeLast(rs, false), r.key, r.now);
  }

  /** Exactly when one pruning step changes a decision: it evicts the key's exhausted live entry. */
  lemma PruneChangesDecisionIff(m: Store, k: string, now: int)
    requires Unique(m)
    ensures (Allows(Prune(m, now), k, now) != Allows(m, k, now)) <==>
      && EvictsLive(m, now)
      && Find(m, k).Some? && !Expired(Find(m, k).value, now) && Find(m, k).value.count >= MAX_REQUESTS
      && k in KeySet(Oldest(DropExpired(m, now)))
  {
    DropExpiredFinds(m, now, k);
    DropExpiredUnique(m, now);
    if EvictsLive(m, now) { WithoutFinds(DropExpired(m, now), KeySet(Oldest(DropExpired(m, now))), k); }
  }

  // ---------- exactly when one pruning stays invisible ----------

  /** The answers that a store gives to a sequence of requests when nothing is pruned any more. */
  function Answers(m: Store, rs: seq<Request>): seq<bool>
    decreases |rs|
  {
    if rs == [] then []
    else [Allows(m, rs[0].key, rs[0].now)] + Answers(Count(m, rs[0].key, rs[0].now), rs[1..])
  }

  predicate OrderedFrom(rs: seq<Request>, now: int) {
    Ordered(rs) && forall r <- rs :: now <= r.now
  }

  /** What holds of every reachable store: windows are opened with one request and never overfilled. */
  predicate InLimits(m: Store) {
    forall e <- m :: 1 <= e.1.count <= MAX_REQUESTS
  }

  lemma SimulatesLater(m: Store, full: Store, now: int, later: int)
    requires Simulates(m, full, now) && now <= later
    ensures Simulates(m, full, later)
  {
    forall q ensures Similar(Find(m, q), Find(full, q), later) {
      assert Similar(Find(m, q), Find(full, q), now);
    }
  }

  lemma {:induction false} SimilarAnswers(m: Store, full: Store, now: int, rs: seq<Request>)
    requires Simulates(m, full, now) && OrderedFrom(rs, now)
    ensures Answers(m, rs) == Answers(full, rs)
    decreases |rs|
  {
    if rs != [] {
      var r := rs[0];
      assert r in rs;
      SimulatesLater(m, full, now, r.now);
      CountSimulates(m, full, r.key, r.now);
      forall x | x in rs[1..] ensures r.now <= x.now {
        var i :| 0 <= i < |rs| - 1 && rs[1..][i] == x;
        assert rs[i + 1] == x;
      }
      SimilarAnswers(Count(m, r.key, r.now), Count(full, r.key, r.now), r.now, rs[1..]);
    }
  }

  /** Requests that the key's open window takes, and then one. */
  lemma {:induction false} AnswersWhileOpen(m: Store, k: string, e: Entry, now: int, n: nat)
    requires Find(m, k) == Some(e) && !Expired(e, now) && e.count <= MAX_REQUESTS
    ensures |Answers(m, Burst(k, now, n + 1))| == n + 1
    ensures Answers(m, Burst(k, now, n + 1))[n] <==> e.count + n < MAX_REQUESTS
    decreases n
  {
    var rs := Burst(k, now, n + 1);
    assert rs[1..] == Burst(k, now, n);
    CountFinds(m, k, now, k);
    if n == 0 {
      assert Burst(k, now, 0) == [];
    } else {
      AnswersWhileOpen(Count(m, k, now), k, Counted(Some(e), now), now, n - 1);
    }
  }

  /** A key that the store does not hold gets a full window. */
  lemma AnswersWhenAbsent(m: Store, k: string, now: int, n: nat)
    requires Find(m, k).None? && n < MAX_REQUESTS
    ensures |Answers(m, Burst(k, now, n + 1))| == n + 1 && Answers(m, Burst(k, now, n + 1))[n]
  {
    var rs := Burst(k, now, n + 1);
    assert rs[1..] == Burst(k, now, n);
    CountFinds(m, k, now, k);
    if n == 0 {
      assert Burst(k, now, 0) == [];
    } else {
      AnswersWhileOpen(Count(m, k, now), k, Entry(1, now), now, n - 1);
    }
  }

  lemma EvictedKey(m: Store, now: int) returns (k: string)
    requires Unique(m) && EvictsLive(m, now)
    ensures Find(Prune(m, now), k).None?
    ensures Find(m, k).Some? && !Expired(Find(m, k).value, now)
  {
    var live := DropExpired(m, now);
    DropExpiredUnique(m, now);
    Sorting.SortPermutes(live, Older);
    Sorting.SortMembers(live, Older);
    var e := Sorting.Sort(live, Older)[0];
    assert e in Oldest(live) && e in live;
    k := e.0;
    assert k in KeySet(Oldest(live));
    EvictsOldest(live);
    FindMember(live, e);
    DropExpiredFinds(m, now, k);
  }

  lemma EvictionShows(m: Store, now: int) returns (rs: seq<Request>)
    requires Unique(m) && InLimits(m) && EvictsLive(m, now)
    ensures OrderedFrom(rs, now) && Answers(m, rs) != Answers(Prune(m, now), rs)
  {
    var k := EvictedKey(m, now);
    var e := Find(m, k).value;
    assert (k, e) in m;
    var n := MAX_REQUESTS - e.count;
    rs := Burst(k, now, n + 1);
    AnswersWhileOpen(m, k, e, now, n);
    AnswersWhenAbsent(Prune(m, now), k, now, n);
  }

  /**
    From any store within its limits, one pruning is invisible to every later sequence of requests exactly when it
    evicts no live entry.
   */
  lemma {:induction false} PruneInvisibleIff(m: Store, now: int)
    requires Unique(m) && InLimits(m)
    ensures (forall rs | OrderedFrom(rs, now) :: Answers(m, rs) == Answers(Prune(m, now), rs)) <==> !EvictsLive(m, now)
  {
    if EvictsLive(m, now) {
      var rs := EvictionShows(m, now);
    } else {
      SimulatesItself(m, now);
      PruneSimulates(m, m, now, now);
      forall rs | OrderedFrom(rs, now) ensures Answers(m, rs) == Answers(Prune(m, now), rs) {
        SimilarAnswers(Prune(m, now), m, now, rs);
      }
    }
  }

  lemma SimulatesItself(m: Store, now: int)
    requires Unique(m)
    ensures Simulates(m, m, now)
  {
  }

  /** Every store that a run reaches is within its limits. */
  lemma {:induction false} AlwaysInLimits(rs: seq<Request>, pruning: bool)
    ensures Unique(After(rs, pruning)) && InLimits(After(rs, pruning))
  {
    if rs != [] {
      var m, r := After(rs[..|rs| - 1], pruning), rs[|rs| - 1];
      AlwaysInLimits(rs[..|rs| - 1], pruning);
      PruneKeepsEntries(m, r.now);
      CountInLimits(BeforeLast(rs, pruning), r.key, r.now);
    }
  }

  lemma {:induction false} WithoutMembers(m: Store, keys: set<string>)
    ensures forall e | e in Without(m, keys) :: e in m
  {
    if m != [] {
      assert m == [m[0]] + m[1..];
      WithoutMembers(m[1..], keys);
    }
  }

  lemma {:induction false} DropExpiredMembers(m: Store, now: int)
    ensures forall e | e in DropExpired(m, now) :: e in m
  {
    if m != [] {
      assert m == [m[0]] + m[1..];
      DropExpiredMembers(m[1..], now);
    }
  }

  lemma PruneKeepsEntries(m: Store, now: int)
    requires Unique(m)
    ensures Unique(Prune(m, now)) && forall e | e in Prune(m, now) :: e in m
  {
    var live := DropExpired(m, now);
    DropExpiredUnique(m, now);
    DropExpiredMembers(m, now);
    WithoutUnique(live, KeySet(Oldest(live)));
    WithoutMembers(live, KeySet(Oldest(live)));
  }

  lemma CountInLimits(m: Store, k: string, now: int)
    requires Unique(m) && InLimits(m)
    ensures Unique(Count(m, k, now)) && InLimits(Count(m, k, now))
  {
    var e := Find(m, k);
    if e.None? || Expired(e.value, now) {
      PutInLimits(m, k, Entry(1, now));
    } else if e.value.count < MAX_REQUESTS {
      assert (k, e.value) in m;
      PutInLimits(m, k, e.value.(count := e.value.count + 1));
    }
  }

  lemma PutInLimits(m: Store, k: string, e: Entry)
    requires Unique(m) && InLimits(m) && 1 <= e.count <= MAX_REQUESTS
    ensures Unique(Put(m, k, e)) && InLimits(Put(m, k, e))
  {
    PutKeepsUnique(m, k, e);
    PutMembers(m, k, e);
  }

  // ---------- a run in which eviction readmits an exhausted key ----------

  /** Keys that differ from `k` and from each other by their length. */
  function Other(k: string, i: nat): (key: string)
    ensures |key| == |k| + i + 1
  {
    k + seq(i + 1, _ => 'x')
  }

  function Others(k: string, n: nat): (rs: seq<Request>)
    ensures |rs| == n && forall i | 0 <= i < n :: rs[i] == Request(Other(k, i), 0)
  {
    seq(n, i requires 0 <= i < n => Request(Other(k, i), 0))
  }

  /** One exhausted key followed by `n` others, all in windows opened at one instant. */
  function Crowded(k: string, n: nat): (m: Store)
    ensures |m| == n + 1 && m[0] == (k, Entry(MAX_REQUESTS, 0))
    ensures forall i | 1 <= i <= n :: m[i] == (Other(k, i - 1), Entry(1, 0))
  {
    [(k, Entry(MAX_REQUESTS, 0))] + seq(n, i requires 0 <= i < n => (Other(k, i), Entry(1, 0)))
  }

  lemma {:induction false} PutNew(m: Store, k: string, e: Entry)
    requires Find(m, k).None?
    ensures Put(m, k, e) == m + [(k, e)]
  {
    if m != [] { PutNew(m[1..], k, e); }
  }

  /** Below the cap a request is counted on the store as it is. */
  lemma AfterOne(rs: seq<Request>, r: Request, pruning: bool)
    requires |After(rs, pruning)| < MAX_STORE_ENTRIES
    ensures After(rs + [r], pruning) == Count(After(rs, pruning), r.key, r.now)
  {
    var run := rs + [r];
    assert run[..|run| - 1] == rs && run[|run| - 1] == r;
    assert BeforeLast(run, pruning) == After(rs, pruning);
  }

  lemma CountAlone(k: string, n: nat)
    requires n < MAX_REQUESTS
    ensures Count(if n == 0 then [] else [(k, Entry(n, 0))], k, 0) == [(k, Entry(n + 1, 0))]
  {
  }

  lemma BurstGrows(k: string, n: nat)
    ensures Burst(k, 0, n + 1) == Burst(k, 0, n) + [Request(k, 0)] && Burst(k, 0, 0) == []
  {
  }

  lemma {:induction false} ExhaustedStore(k: string, n: nat, pruning: bool)
    requires n <= MAX_REQUESTS
    ensures After(Burst(k, 0, n), pruning) == if n == 0 then [] else [(k, Entry(n, 0))]
  {
    if n == 0 {
      BurstGrows(k, 0);
    } else {
      ExhaustedStore(k, n - 1, pruning);
      BurstGrows(k, n - 1);
      AfterOne(Burst(k, 0, n - 1), Request(k, 0), pruning);
      CountAlone(k, n - 1);
    }
  }

  lemma CrowdedLacks(k: string, n: nat)
    ensures Find(Crowded(k, n), Other(k, n)).None?
  {
    var m, key := Crowded(k, n), Other(k, n);
    forall e | e in m ensures |e.0| < |key| {
      var i :| 0 <= i < |m| && m[i] == e;
    }
  }

  lemma {:induction false} CrowdedStore(k: string, n: nat, pruning: bool)
    requires n < MAX_STORE_ENTRIES
    ensures After(Burst(k, 0, MAX_REQUESTS) + Others(k, n), pruning) == Crowded(k, n)
  {
    var first := Burst(k, 0, MAX_REQUESTS);
    if n == 0 {
      assert first + Others(k, 0) == first;
      ExhaustedStore(k, MAX_REQUESTS, pruning);
    } else {
      var key := Other(k, n - 1);
      CrowdedStore(k, n - 1, pruning);
      assert first + Others(k, n) == first + Others(k, n - 1) + [Request(key, 0)];
      AfterOne(first + Others(k, n - 1), Request(key, 0), pruning);
      CrowdedLacks(k, n - 1);
      PutNew(Crowded(k, n - 1), key, Entry(1, 0));
      assert Crowded(k, n) == Crowded(k, n - 1) + [(key, Entry(1, 0))];
    }
  }

  lemma {:induction false} SortConstant(m: Store)
    requires forall i | 0 <= i < |m| :: m[i].1.windowStart == 0
    ensures Sorting.Sort(m, Older) == m
  {
    if m != [] {
      SortConstant(m[1..]);
      assert m == [m[0]] + m[1..];
    }
  }

  lemma {:induction false} NoneExpired(m: Store)
    requires forall i | 0 <= i < |m| :: m[i].1.windowStart == 0
    ensures DropExpired(m, 0) == m
  {
    if m != [] {
      NoneExpired(m[1..]);
      assert m == [m[0]] + m[1..];
    }
  }

  lemma CrowdedEvicts(k: string)
    ensures var m := Crowded(k, MAX_STORE_ENTRIES - 1);
      Unique(m) ==> EvictsLive(m, 0) && Find(Prune(m, 0), k).None?
  {
    var m := Crowded(k, MAX_STORE_ENTRIES - 1);
    NoneExpired(m);
    SortConstant(m);
    assert m[0] in Oldest(m);
    if Unique(m) { WithoutFinds(m, KeySet(Oldest(m)), k); }
  }

  /**
    A key uses up its window, as many other keys as fit arrive at the same instant, and the key comes back: the
    limiter evicts its entry and accepts it, where one that never prunes refuses.
   */
  lemma EvictionReadmits(k: string)
    ensures var rs := Burst(k, 0, MAX_REQUESTS) + Others(k, MAX_STORE_ENTRIES - 1) + [Request(k, 0)];
      Ordered(rs) && Accepted(rs, true) && !Accepted(rs, false)
  {
    var before := Burst(k, 0, MAX_REQUESTS) + Others(k, MAX_STORE_ENTRIES - 1);
    var rs, m := before + [Request(k, 0)], Crowded(k, MAX_STORE_ENTRIES - 1);
    CrowdedStore(k, MAX_STORE_ENTRIES - 1, true);
    CrowdedStore(k, MAX_STORE_ENTRIES - 1, false);
    assert rs[..|rs| - 1] == before && rs[|rs| - 1] == Request(k, 0);
    AlwaysInLimits(before, true);
    CrowdedEvicts(k);
    assert forall i | 0 <= i < |rs| :: rs[i].now == 0;
    assert Find(m, k) == Some(Entry(MAX_REQUESTS, 0));
  }

  // ---------- less than two windows' worth in one window length ----------

  /** For one interval start: what the current window of the key bounds. */
  ghost predicate WindowBound(rs: seq<Request>, k: string, lo: int) {
    var e, a := Find(After(rs, false), k), AcceptedIn(rs, false, k, lo, lo + WINDOW_MS);
    if e.None? then a == 0
    else
      var ws, c := e.value.windowStart, e.value.count;
      && 1 <= c <= MAX_REQUESTS && (rs != [] ==> ws <= rs[|rs| - 1].now)
      && (lo == ws ==> a <= c)
      && (lo > ws ==> a <= c - 1)
      && (lo < ws <= lo + WINDOW_MS ==> a <= MAX_REQUESTS - 1 + c)
      && (ws > lo + WINDOW_MS ==> a <= 2 * MAX_REQUESTS - 1)
      && (lo > ws + WINDOW_MS ==> a == 0)
  }

  lemma {:induction false} WindowBoundHolds(rs: seq<Request>, k: string, lo: int)
    requires Ordered(rs)
    ensures WindowBound(rs, k, lo)
  {
    if rs != [] {
      var before, r := rs[..|rs| - 1], rs[|rs| - 1];
      WindowBoundHolds(before, k, lo);
      CountFinds(After(before, false), r.key, r.now, k);
    }
  }

  lemma {:induction false} SameAccepted(rs: seq<Request>, k: string, lo: int, hi: int)
    requires Ordered(rs) && NoLiveEviction(rs)
    ensures AcceptedIn(rs, true, k, lo, hi) == AcceptedIn(rs, false, k, lo, hi)
  {
    if rs != [] {
      SameAccepted(rs[..|rs| - 1], k, lo, hi);
      PruningChangesNoDecision(rs);
    }
  }

  /** Any closed interval of one window length accepts at most one request less than twice the limit. */
  lemma FewerThanTwoWindows(rs: seq<Request>, k: string, lo: int)
    requires Ordered(rs) && NoLiveEviction(rs)
    ensures AcceptedIn(rs, true, k, lo, lo + WINDOW_MS) <= 2 * MAX_REQUESTS - 1
  {
    SameAccepted(rs, k, lo, lo + WINDOW_MS);
    WindowBoundHolds(rs, k, lo);
  }

  /** Up to the cap, a run has too few keys to force an eviction. */
  lemma {:induction false} ShortRunsNeverEvict(rs: seq<Request>)
    requires |rs| <= MAX_STORE_ENTRIES
    ensures NoLiveEviction(rs) && |After(rs, true)| <= |rs|
  {
    if rs != [] {
      var before, r := rs[..|rs| - 1], rs[|rs| - 1];
      ShortRunsNeverEvict(before);
      StoreNeverExceedsCap(before);
      CountBounds(After(before, true), r.key, r.now);
    }
  }

  function Burst(k: string, t: int, n: nat): (rs: seq<Request>)
    ensures |rs| == n && forall i | 0 <= i < n :: rs[i] == Request(k, t)
  {
    seq(n, _ => Request(k, t))
  }

  lemma {:induction false} BurstStore(rs: seq<Request>, k: string, e: Entry, t: int, n: nat)
    requires After(rs, true) == [(k, e)] && t - e.windowStart <= WINDOW_MS && e.count + n <= MAX_REQUESTS
    ensures After(rs + Burst(k, t, n), true) == [(k, e.(count := e.count + n))]
    decreases n
  {
    BurstSplits(rs, k, t, n);
    if n > 0 {
      OneMore(rs, k, e, t, t, t);
      BurstStore(rs + [Request(k, t)], k, e.(count := e.count + 1), t, n - 1);
    }
  }

  lemma {:induction false} BurstCounts(rs: seq<Request>, k: string, e: Entry, t: int, n: nat, lo: int, hi: int)
    requires After(rs, true) == [(k, e)] && t - e.windowStart <= WINDOW_MS && e.count + n <= MAX_REQUESTS
    requires lo <= t <= hi
    ensures AcceptedIn(rs + Burst(k, t, n), true, k, lo, hi) == AcceptedIn(rs, true, k, lo, hi) + n
    decreases n
  {
    BurstSplits(rs, k, t, n);
    if n > 0 {
      OneMore(rs, k, e, t, lo, hi);
      BurstCounts(rs + [Request(k, t)], k, e.(count := e.count + 1), t, n - 1, lo, hi);
    }
  }

  /** A burst inside the key's open window is accepted one by one. */
  lemma BurstAccepted(rs: seq<Request>, k: string, e: Entry, t: int, n: nat, lo: int, hi: int)
    requires After(rs, true) == [(k, e)] && t - e.windowStart <= WINDOW_MS && e.count + n <= MAX_REQUESTS
    requires lo <= t <= hi
    ensures After(rs + Burst(k, t, n), true) == [(k, e.(count := e.count + n))]
    ensures AcceptedIn(rs + Burst(k, t, n), true, k, lo, hi) == AcceptedIn(rs, true, k, lo, hi) + n
  {
    BurstStore(rs, k, e, t, n);
    BurstCounts(rs, k, e, t, n, lo, hi);
  }

  lemma BurstSplits(rs: seq<Request>, k: string, t: int, n: nat)
    ensures n == 0 ==> rs + Burst(k, t, n) == rs
    ensures n > 0 ==> rs + Burst(k, t, n) == rs + [Request(k, t)] + Burst(k, t, n - 1)
  {
  }

  lemma OneMore(rs: seq<Request>, k: string, e: Entry, t: int, lo: int, hi: int)
    requires After(rs, true) == [(k, e)] && t - e.windowStart <= WINDOW_MS && e.count < MAX_REQUESTS && lo <= t <= hi
    ensures After(rs + [Request(k, t)], true) == [(k, e.(count := e.count + 1))]
    ensures AcceptedIn(rs + [Request(k, t)], true, k, lo, hi) == AcceptedIn(rs, true, k, lo, hi) + 1
  {
    var run := rs + [Request(k, t)];
    assert run[..|run| - 1] == rs && run[|run| - 1] == Request(k, t);
  }

  /** One request opens a window; the rest of it comes at its end, and all of the next right after. */
  function Filled(k: string): seq<Request> {
    [Request(k, 0)] + Burst(k, WINDOW_MS, MAX_REQUESTS - 1)
  }

  function Extreme(k: string): seq<Request> {
    Filled(k) + [Request(k, WINDOW_MS + 1)] + Burst(k, WINDOW_MS + 1, MAX_REQUESTS - 1)
  }

  lemma FilledWindow(k: string)
    ensures After(Filled(k), true) == [(k, Entry(MAX_REQUESTS, 0))]
    ensures AcceptedIn(Filled(k), true, k, 1, 1 + WINDOW_MS) == MAX_REQUESTS - 1
  {
    OpeningRequest(k);
    BurstAccepted([Request(k, 0)], k, Entry(1, 0), WINDOW_MS, MAX_REQUESTS - 1, 1, 1 + WINDOW_MS);
  }

  lemma ExtremeCount(k: string)
    ensures AcceptedIn(Extreme(k), true, k, 1, 1 + WINDOW_MS) == 2 * MAX_REQUESTS - 1
  {
    FilledWindow(k);
    ReopeningRequest(Filled(k), k, WINDOW_MS + 1);
    BurstAccepted(Filled(k) + [Request(k, WINDOW_MS + 1)], k, Entry(1, WINDOW_MS + 1), WINDOW_MS + 1,
                  MAX_REQUESTS - 1, 1, 1 + WINDOW_MS);
  }

  /** The bound is met by an ordinary run. */
  lemma BoundIsAttained(k: string)
    ensures Ordered(Extreme(k)) && NoLiveEviction(Extreme(k))
    ensures AcceptedIn(Extreme(k), true, k, 1, 1 + WINDOW_MS) == 2 * MAX_REQUESTS - 1
  {
    ExtremeCount(k);
    ShortRunsNeverEvict(Extreme(k));
  }

  lemma OpeningRequest(k: string)
    ensures After([Request(k, 0)], true) == [(k, Entry(1, 0))]
    ensures AcceptedIn([Request(k, 0)], true, k, 1, 1 + WINDOW_MS) == 0
  {
    var first := [Request(k, 0)];
    assert first[..0] == [] && After(first[..0], true) == [] && BeforeLast(first, true) == [];
  }

  lemma ReopeningRequest(rs: seq<Request>, k: string, t: int)
    requires After(rs, true) == [(k, Entry(MAX_REQUESTS, 0))] && t == WINDOW_MS + 1
    ensures After(rs + [Request(k, t)], true) == [(k, Entry(1, t))]
    ensures AcceptedIn(rs + [Request(k, t)], true, k, 1, t) == AcceptedIn(rs, true, k, 1, t) + 1
  {
    assert (rs + [Request(k, t)])[..|rs|] == rs;
  }

  // ---------- the object ----------

  datatype Key = Key(tenantId: string, actorUserId: string, clientIp: string, routeFamily: string)

  function BuildKey(k: Key): string {
    k.routeFamily + ":" + k.tenantId + ":" + k.actorUserId + ":" + k.clientIp
  }

  /** With colon-free routes, tenants and users every caller has a count of its own; an address may hold colons. */
  lemma CallersAreApart(k: Key, l: Key)
    requires ColonFree(k.routeFamily) && ColonFree(k.tenantId) && ColonFree(k.actorUserId)
    requires ColonFree(l.routeFamily) && ColonFree(l.tenantId) && ColonFree(l.actorUserId)
    ensures BuildKey(k) == BuildKey(l) <==> k == l
  {
    NestedKey(k);
    NestedKey(l);
    if BuildKey(k) == BuildKey(l) {
      var k1, l1 := JoinKey(k.actorUserId, k.clientIp), JoinKey(l.actorUserId, l.clientIp);
      JoinKeyInjective(k.routeFamily, JoinKey(k.tenantId, k1), l.routeFamily, JoinKey(l.tenantId, l1));
      JoinKeyInjective(k.tenantId, k1, l.tenantId, l1);
      JoinKeyInjective(k.actorUserId, k.clientIp, l.actorUserId, l.clientIp);
    }
  }

  lemma NestedKey(k: Key)
    ensures BuildKey(k) == JoinKey(k.routeFamily, JoinKey(k.tenantId, JoinKey(k.actorUserId, k.clientIp)))
  {
    var r, t, a, i := k.routeFamily, k.tenantId, k.actorUserId, k.clientIp;
    assert r + ":" + t + ":" + a + ":" + i == r + ":" + (t + ":" + (a + ":" + i));
  }

  class RateLimiter {
    var store: Store

    ghost predicate Valid() reads this {
      Unique(store) && |store| <= MAX_STORE_ENTRIES
    }

    constructor ()
      ensures store == [] && Valid()
    {
      store := [];
    }

    method CheckRateLimit(key: Key, now: int) returns (ok: bool)
      requires Valid()
      modifies this
      ensures Valid()
      ensures store == Count(Prune(old(store), now), BuildKey(key), now)
      ensures ok <==> Allows(Prune(old(store), now), BuildKey(key), now)
    {
      var k := BuildKey(key);
      PruneBounds(store, now);
      PruneExpiredEntries(now);
      CountBounds(store, k, now);
      var entry := Find(store, k);
      if entry.None? || now - entry.value.windowStart > WINDOW_MS {
        store := Put(store, k, Entry(1, now));
        return true;
      }
      if entry.value.count >= MAX_REQUESTS { return false; }
      store := Put(store, k, entry.value.(count := entry.value.count + 1));
      ok := true;
    }

    method PruneExpiredEntries(now: int)
      requires Unique(store)
      modifies this
      ensures store == Prune(old(store), now)
    {
      if |store| < MAX_STORE_ENTRIES { return; }
      DeleteExpired(now);
      if |store| >= MAX_STORE_ENTRIES {
        DeleteOldest();
      }
    }

    method DeleteExpired(now: int)
      requires Unique(store)
      modifies this
      ensures store == DropExpired(old(store), now)
    {
      var entries := store;
      for i := 0 to |entries|
        invariant store == DropExpired(entries[..i], now) + entries[i..]
      {
        DropExpiredStep(entries, i, now);
        if now - entries[i].1.windowStart > WINDOW_MS {
          store := Without(store, {entries[i].0});
        }
      }
      assert entries[..|entries|] == entries;
    }

    method DeleteOldest()
      modifies this
      ensures store == Evict(old(store))
    {
      var live := store;
      Sorting.SortPermutes(live, Older);
      var oldest := Sorting.Sort(live, Older);
      WithoutNone(live, KeySet(oldest[..0]));
      for index := 0 to CeilTenth(|oldest|)
        invariant store == Without(live, KeySet(oldest[..index]))
      {
        DeleteNext(live, oldest, index);
        store := Without(store, {oldest[index].0});
      }
    }
  }

  lemma {:induction false} DropExpiredAppend(a: Store, b: Store, now: int)
    ensures DropExpired(a + b, now) == DropExpired(a, now) + DropExpired(b, now)
  {
    if a == [] {
      assert a + b == b;
    } else {
      assert (a + b)[1..] == a[1..] + b;
      DropExpiredAppend(a[1..], b, now);
    }
  }

  lemma {:induction false} WithoutAppend(a: Store, b: Store, keys: set<string>)
    ensures Without(a + b, keys) == Without(a, keys) + Without(b, keys)
  {
    if a == [] {
      assert a + b == b;
    } else {
      assert (a + b)[1..] == a[1..] + b;
      WithoutAppend(a[1..], b, keys);
    }
  }

  lemma {:induction false} WithoutTwice(m: Store, a: set<string>, b: set<string>)
    ensures Without(Without(m, a), b) == Without(m, a + b)
  {
    if m != [] {
      WithoutTwice(m[1..], a, b);
      var rest := Without(m[1..], a);
      assert ([m[0]] + rest)[1..] == rest;
    }
  }

  lemma DeleteNext(live: Store, oldest: Store, index: nat)
    requires index < |oldest|
    ensures Without(Without(live, KeySet(oldest[..index])), {oldest[index].0})
         == Without(live, KeySet(oldest[..index + 1]))
  {
    assert oldest[..index + 1] == oldest[..index] + [oldest[index]];
    assert KeySet(oldest[..index + 1]) == KeySet(oldest[..index]) + {oldest[index].0};
    WithoutTwice(live, KeySet(oldest[..index]), {oldest[index].0});
  }

  lemma {:induction false} WithoutAbsent(m: Store, k: string)
    requires Find(m, k).None?
    ensures Without(m, {k}) == m
  {
    if m != [] { WithoutAbsent(m[1..], k); }
  }

  lemma {:induction false} UniqueSplit(m: Store, i: nat)
    requires Unique(m) && i < |m|
    ensures Unique(m[..i]) && Find(m[..i], m[i].0).None? && Find(m[i + 1..], m[i].0).None?
  {
    if i > 0 {
      UniqueSplit(m[1..], i - 1);
      assert m[..i][1..] == m[1..][..i - 1] && m[1..][i..] == m[i + 1..];
      assert m[i] in m[1..];
      assert forall e <- m[1..][..i - 1] :: e in m[1..];
    }
  }

  lemma DeleteOne(head: Store, e: (string, Entry), tail: Store)
    requires Find(head, e.0).None? && Find(tail, e.0).None?
    ensures Without(head + ([e] + tail), {e.0}) == head + tail
  {
    WithoutAppend(head, [e] + tail, {e.0});
    WithoutAbsent(head, e.0);
    WithoutAbsent(tail, e.0);
    assert ([e] + tail)[1..] == tail;
  }

  /** One turn of the expiry loop on the live map: deleting the visited key touches nothing else. */
  lemma DropExpiredStep(m: Store, i: nat, now: int)
    requires Unique(m) && i < |m|
    ensures var current := DropExpired(m[..i], now) + m[i..];
      DropExpired(m[..i + 1], now) + m[i + 1..] == if Expired(m[i].1, now) then Without(current, {m[i].0}) else current
  {
    var head, e, tail := DropExpired(m[..i], now), m[i], m[i + 1..];
    assert m[i..] == [e] + tail;
    DropExpiredLast(m, i, now);
    if Expired(e.1, now) {
      KeyElsewhere(m, i, now);
      DeleteOne(head, e, tail);
    } else {
      assert head + [e] + tail == head + ([e] + tail);
    }
  }

  lemma KeyElsewhere(m: Store, i: nat, now: int)
    requires Unique(m) && i < |m|
    ensures Find(DropExpired(m[..i], now), m[i].0).None? && Find(m[i + 1..], m[i].0).None?
  {
    UniqueSplit(m, i);
    DropExpiredFinds(m[..i], now, m[i].0);
  }

  lemma DropExpiredLast(m: Store, i: nat, now: int)
    requires i < |m|
    ensures DropExpired(m[..i + 1], now)
         == if Expired(m[i].1, now) then DropExpired(m[..i], now) else DropExpired(m[..i], now) + [m[i]]
  {
    assert m[..i + 1] == m[..i] + [m[i]];
    DropExpiredAppend(m[..i], [m[i]], now);
    DropExpiredOne(m[i], now);
  }

  lemma DropExpiredOne(e: (string, Entry), now: int)
    ensures DropExpired([e], now) == if Expired(e.1, now) then [] else [e]
  {
  }
}
