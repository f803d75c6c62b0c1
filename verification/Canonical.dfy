/** Canonicalization before hashing: sorted keys, no undefined members. */
module Canonical {
  import opened JsValues
  import Sorting

  /** Code-unit order on keys; a `char` stands for one UTF-16 code unit. */
  predicate KeyLeq(a: string, b: string) {
    a == [] || (b != [] && (a[0] < b[0] || (a[0] == b[0] && KeyLeq(a[1..], b[1..]))))
  }

  predicate KeyLess(a: string, b: string) {
    a != b && KeyLeq(a, b)
  }

  /** The first difference decides, and a beginning comes before what it begins. */
  lemma {:induction false} KeyOrder(a: string, b: string, i: nat)
    requires i <= |a| && i < |b| && a[..i] == b[..i]
    ensures i < |a| && a[i] < b[i] ==> KeyLess(a, b)
    ensures i == |a| ==> KeyLess(a, b)
  {
    if i > 0 {
      assert a[0] == a[..i][0] && b[0] == b[..i][0];
      assert a[1..][..i - 1] == a[..i][1..] && b[1..][..i - 1] == b[..i][1..];
      KeyOrder(a[1..], b[1..], i - 1);
    }
  }

  lemma KeyLeqTotal(a: string, b: string)
    ensures KeyLeq(a, b) || KeyLeq(b, a)
  {
  }

  lemma KeyLeqAntisymmetric(a: string, b: string)
    requires KeyLeq(a, b) && KeyLeq(b, a)
    ensures a == b
  {
    if a != [] {
      KeyLeqAntisymmetric(a[1..], b[1..]);
      assert a == [a[0]] + a[1..] && b == [b[0]] + b[1..];
    }
  }

  lemma KeyLeqTransitive(a: string, b: string, c: string)
    requires KeyLeq(a, b) && KeyLeq(b, c)
    ensures KeyLeq(a, c)
  {
    if a != [] && a[0] == b[0] == c[0] {
      KeyLeqTransitive(a[1..], b[1..], c[1..]);
    }
  }

  lemma KeyLeqOrders()
    ensures Sorting.TotalPreorder(KeyLeq)
  {
    forall a, b ensures KeyLeq(a, b) || KeyLeq(b, a) { KeyLeqTotal(a, b); }
    forall a, b, c | KeyLeq(a, b) && KeyLeq(b, c) ensures KeyLeq(a, c) { KeyLeqTransitive(a, b, c); }
  }

  /**
    The members that survive: assigning `undefined` is skipped, and assigning the key `__proto__`
    on the fresh result object sets its prototype instead of an own member.
   */
  predicate Kept(m: Member) {
    m.value != Undefined && m.key != "__proto__"
  }

  predicate MemberLeq(a: Member, b: Member) {
    KeyLeq(a.key, b.key)
  }

  function InsertMember(m: Member, ms: seq<Member>): seq<Member> {
    Sorting.Insert(m, ms, MemberLeq)
  }

  function Canonicalize(v: JsValue): JsValue {
    match v
    case Arr(items) => Arr(CanonicalItems(items))
    case Obj(ms) => Obj(CanonicalMembers(ms))
    case _ => v
  }

  function CanonicalItems(items: seq<JsValue>): (r: seq<JsValue>)
    ensures |r| == |items| && forall i | 0 <= i < |r| :: r[i] == Canonicalize(items[i])
  {
    if items == [] then [] else [Canonicalize(items[0])] + CanonicalItems(items[1..])
  }

  function CanonicalMembers(ms: seq<Member>): seq<Member> {
    if ms == [] then []
    else
      var rest := CanonicalMembers(ms[1..]);
      if Kept(ms[0]) then InsertMember(Member(ms[0].key, Canonicalize(ms[0].value)), rest) else rest
  }

  /** Independent meaning: equal as recursive maps, members that are not kept left out. */
  ghost predicate SameValue(a: JsValue, b: JsValue) {
    match a
    case Arr(xs) => b.Arr? && |xs| == |b.items| && forall i | 0 <= i < |xs| :: SameValue(xs[i], b.items[i])
    case Obj(ms) =>
      && b.Obj?
      && (forall m <- ms | Kept(m) :: HasKey(b.members, m.key) && Kept(Member(m.key, Lookup(b.members, m.key)))
                                      && SameValue(m.value, Lookup(b.members, m.key)))
      && (forall m <- b.members | Kept(m) :: HasKey(ms, m.key) && Kept(Member(m.key, Lookup(ms, m.key))))
    case _ => a == b
  }

  // ---------- strictly sorted member lists ----------

  predicate StrictlySorted(ms: seq<Member>) {
    forall i, j | 0 <= i < j < |ms| :: KeyLess(ms[i].key, ms[j].key)
  }

  lemma InsertMembers(m: Member, ms: seq<Member>)
    ensures forall x :: x in InsertMember(m, ms) <==> x == m || x in ms
  {
    Sorting.InsertPermutes(m, ms, MemberLeq);
    forall x ensures x in InsertMember(m, ms) <==> x == m || x in ms {
      assert x in multiset(InsertMember(m, ms)) <==> x in multiset(ms) + multiset{m};
    }
  }

  lemma {:induction false} InsertStrict(m: Member, ms: seq<Member>)
    requires StrictlySorted(ms) && !HasKey(ms, m.key)
    ensures StrictlySorted(InsertMember(m, ms))
  {
    if ms == [] {
    } else if KeyLeq(m.key, ms[0].key) {
      forall i | 0 <= i < |ms| ensures KeyLess(m.key, ms[i].key) {
        assert ms[i] in ms;
        if i > 0 { KeyLeqTransitive(m.key, ms[0].key, ms[i].key); }
      }
    } else {
      var rest := InsertMember(m, ms[1..]);
      InsertStrict(m, ms[1..]);
      InsertMembers(m, ms[1..]);
      KeyLeqTotal(m.key, ms[0].key);
      forall i | 0 <= i < |rest| ensures KeyLess(ms[0].key, rest[i].key) {
        assert rest[i] in rest;
        assert ms[0] in ms;
      }
    }
  }

  /** A strictly sorted list is determined by its set of members. */
  lemma {:induction false} StrictUnique(a: seq<Member>, b: seq<Member>)
    requires StrictlySorted(a) && StrictlySorted(b)
    requires forall m :: m in a <==> m in b
    ensures a == b
  {
    if a == [] {
      assert forall i | 0 <= i < |b| :: b[i] in b;
    } else {
      assert a[0] in a && a[0] in b;
      assert b[0] in b && b[0] in a;
      if a[0] != b[0] {
        KeyLeqAntisymmetric(a[0].key, b[0].key);
      }
      assert a == [a[0]] + a[1..] && b == [b[0]] + b[1..];
      assert forall i | 1 <= i < |a| :: a[i] != a[0];
      assert forall i | 1 <= i < |b| :: b[i] != b[0];
      forall m ensures m in a[1..] <==> m in b[1..] {
        assert m in a <==> m == a[0] || m in a[1..];
        assert m in b <==> m == b[0] || m in b[1..];
      }
      StrictUnique(a[1..], b[1..]);
    }
  }

  /** What canonicalizing an object's members yields, without its insertion order. */
  lemma {:induction false} CanonicalMembersAre(ms: seq<Member>)
    requires DistinctKeys(ms)
    ensures StrictlySorted(CanonicalMembers(ms))
    ensures forall x :: x in CanonicalMembers(ms)
                   <==> exists m <- ms :: Kept(m) && x == Member(m.key, Canonicalize(m.value))
  {
    if ms != [] {
      var rest := CanonicalMembers(ms[1..]);
      CanonicalMembersAre(ms[1..]);
      assert ms == [ms[0]] + ms[1..];
      var head := Member(ms[0].key, Canonicalize(ms[0].value));
      InsertMembers(head, rest);
      assert !HasKey(rest, head.key);
      InsertStrict(head, rest);
    }
  }

  lemma DistinctLookup(ms: seq<Member>, m: Member)
    requires DistinctKeys(ms) && m in ms
    ensures HasKey(ms, m.key) && Lookup(ms, m.key) == m.value
  {
    var found := Member(m.key, Lookup(ms, m.key));
    assert found in ms;
  }

  lemma CanonicalDefined(v: JsValue)
    ensures Canonicalize(v) == Undefined <==> v == Undefined
  {
  }

  /** Two values canonicalize alike exactly when they mean the same. */
  lemma {:induction false} CanonicalIffSame(a: JsValue, b: JsValue)
    requires WellFormed(a) && WellFormed(b)
    ensures Canonicalize(a) == Canonicalize(b) <==> SameValue(a, b)
    decreases a
  {
    match a
    case Arr(xs) =>
      if b.Arr? && |xs| == |b.items| {
        forall i | 0 <= i < |xs|
          ensures Canonicalize(xs[i]) == Canonicalize(b.items[i]) <==> SameValue(xs[i], b.items[i])
        {
          CanonicalIffSame(xs[i], b.items[i]);
        }
        var ca, cb := CanonicalItems(xs), CanonicalItems(b.items);
        assert ca == cb <==> forall i | 0 <= i < |xs| :: ca[i] == cb[i];
      }
    case Obj(ms) =>
      if b.Obj? {
        CanonicalMembersAre(ms);
        CanonicalMembersAre(b.members);
        forall m, n | m in ms && n in b.members
          ensures Canonicalize(m.value) == Canonicalize(n.value) <==> SameValue(m.value, n.value)
        {
          CanonicalIffSame(m.value, n.value);
        }
        ObjectsIffSame(ms, b.members);
      }
    case _ =>
  }

  lemma ObjectsIffSame(ms: seq<Member>, ns: seq<Member>)
    requires DistinctKeys(ms) && DistinctKeys(ns)
    requires forall m, n | m in ms && n in ns ::
      Canonicalize(m.value) == Canonicalize(n.value) <==> SameValue(m.value, n.value)
    ensures CanonicalMembers(ms) == CanonicalMembers(ns) <==> SameValue(Obj(ms), Obj(ns))
  {
    var ca, cb := CanonicalMembers(ms), CanonicalMembers(ns);
    CanonicalMembersAre(ms);
    CanonicalMembersAre(ns);
    if ca == cb {
      forall m | m in ms && Kept(m)
        ensures HasKey(ns, m.key) && Kept(Member(m.key, Lookup(ns, m.key))) && SameValue(m.value, Lookup(ns, m.key))
      {
        MatchingMember(ms, ns, m);
      }
      forall n | n in ns && Kept(n) ensures HasKey(ms, n.key) && Kept(Member(n.key, Lookup(ms, n.key))) {
        MatchingMember(ns, ms, n);
      }
    }
    if SameValue(Obj(ms), Obj(ns)) {
      forall x ensures x in ca <==> x in cb {
        if x in ca {
          var m :| m in ms && Kept(m) && x == Member(m.key, Canonicalize(m.value));
          var n := Member(m.key, Lookup(ns, m.key));
          assert n in ns;
        }
        if x in cb {
          var n :| n in ns && Kept(n) && x == Member(n.key, Canonicalize(n.value));
          var m := Member(n.key, Lookup(ms, n.key));
          assert m in ms;
          DistinctLookup(ns, n);
        }
      }
      StrictUnique(ca, cb);
    }
  }

  lemma MatchingMember(ms: seq<Member>, ns: seq<Member>, m: Member)
    requires DistinctKeys(ms) && DistinctKeys(ns)
    requires CanonicalMembers(ms) == CanonicalMembers(ns) && m in ms && Kept(m)
    ensures HasKey(ns, m.key) && Kept(Member(m.key, Lookup(ns, m.key)))
    ensures Canonicalize(m.value) == Canonicalize(Lookup(ns, m.key))
  {
    CanonicalMembersAre(ms);
    CanonicalMembersAre(ns);
    var x := Member(m.key, Canonicalize(m.value));
    assert x in CanonicalMembers(ms);
    var n :| n in ns && Kept(n) && x == Member(n.key, Canonicalize(n.value));
    DistinctLookup(ns, n);
  }

  /** The canonical form is a well-formed value with the meaning of the original. */
  lemma {:induction false} CanonicalKeepsMeaning(v: JsValue)
    requires WellFormed(v)
    ensures WellFormed(Canonicalize(v)) && SameValue(Canonicalize(v), v)
  {
    match v
    case Arr(items) =>
      forall i | 0 <= i < |items|
        ensures WellFormed(Canonicalize(items[i])) && SameValue(Canonicalize(items[i]), items[i])
      {
        CanonicalKeepsMeaning(items[i]);
      }
    case Obj(ms) =>
      var cs := CanonicalMembers(ms);
      CanonicalMembersAre(ms);
      forall m | m in ms ensures WellFormed(Canonicalize(m.value)) && SameValue(Canonicalize(m.value), m.value) {
        CanonicalKeepsMeaning(m.value);
      }
      forall c | c in cs && Kept(c)
        ensures HasKey(ms, c.key) && Kept(Member(c.key, Lookup(ms, c.key))) && SameValue(c.value, Lookup(ms, c.key))
      {
        var m :| m in ms && Kept(m) && c == Member(m.key, Canonicalize(m.value));
        DistinctLookup(ms, m);
      }
      forall m | m in ms && Kept(m) ensures HasKey(cs, m.key) && Kept(Member(m.key, Lookup(cs, m.key))) {
        var c := Member(m.key, Canonicalize(m.value));
        assert c in cs;
        DistinctLookup(cs, c);
        CanonicalDefined(m.value);
      }
    case _ =>
  }

  /** Canonicalizing twice changes nothing. */
  lemma CanonicalizeIdempotent(v: JsValue)
    requires WellFormed(v)
    ensures Canonicalize(Canonicalize(v)) == Canonicalize(v)
  {
    CanonicalKeepsMeaning(v);
    CanonicalIffSame(Canonicalize(v), v);
  }

  lemma {:induction false} NotKeptVanishes(ms: seq<Member>, m: Member)
    requires !Kept(m)
    ensures CanonicalMembers(ms + [m]) == CanonicalMembers(ms)
  {
    if ms == [] {
      assert ms + [m] == [m] && [m][1..] == [];
    } else {
      assert (ms + [m])[1..] == ms[1..] + [m];
      NotKeptVanishes(ms[1..], m);
    }
  }

  /** A member called `__proto__`, whatever its value, and an undefined member leave no trace in the canonical form. */
  lemma ProtoVanishes(ms: seq<Member>, v: JsValue, key: string)
    ensures Canonicalize(Obj(ms + [Member("__proto__", v)])) == Canonicalize(Obj(ms))
    ensures Canonicalize(Obj(ms + [Member(key, Undefined)])) == Canonicalize(Obj(ms))
  {
    NotKeptVanishes(ms, Member("__proto__", v));
    NotKeptVanishes(ms, Member(key, Undefined));
  }

  // ---------- hashing ----------

  /** `digest` is JSON.stringify followed by SHA-256. */
  function HashField(digest: JsValue -> string, v: JsValue): string {
    digest(Canonicalize(v))
  }

  function HashActionTarget(digest: JsValue -> string, v: JsValue): string {
    HashField(digest, Canonicalize(v))
  }

  function HashActionPayload(digest: JsValue -> string, v: JsValue): string {
    HashField(digest, Canonicalize(v))
  }

  /** All three entry points agree, and values that mean the same hash the same. */
  lemma HashesAgree(digest: JsValue -> string, a: JsValue, b: JsValue)
    requires WellFormed(a) && WellFormed(b)
    ensures HashActionTarget(digest, a) == HashActionPayload(digest, a) == HashField(digest, a)
    ensures SameValue(a, b) ==> HashField(digest, a) == HashActionTarget(digest, b)
  {
    CanonicalizeIdempotent(a);
    CanonicalizeIdempotent(b);
    CanonicalIffSame(a, b);
  }

  // ---------- the loop ----------

  function Keys(ms: seq<Member>): (ks: seq<string>)
    ensures |ks| == |ms| && forall i | 0 <= i < |ms| :: ks[i] == ms[i].key
  {
    seq(|ms|, i requires 0 <= i < |ms| => ms[i].key)
  }

  /** The result object after the loop has visited these keys. */
  function Filled(ms: seq<Member>, keys: seq<string>): seq<Member> {
    if keys == [] then []
    else
      var done, key := Filled(ms, keys[..|keys| - 1]), keys[|keys| - 1];
      var m := Member(key, Lookup(ms, key));
      if Kept(m) then done + [Member(key, Canonicalize(m.value))] else done
  }

  /** The code's own form: recursion, with a loop for arrays and a key loop for objects. */
  method CanonicalizeByLoop(v: JsValue) returns (r: JsValue)
    requires WellFormed(v)
    ensures r == Canonicalize(v)
    decreases v, 1
  {
    match v
    case Arr(items) =>
      var out := MapByLoop(items);
      r := Arr(out);
    case Obj(ms) =>
      var sorted := FillByLoop(ms);
      r := Obj(sorted);
    case _ =>
      r := v;
  }

  method MapByLoop(items: seq<JsValue>) returns (out: seq<JsValue>)
    requires forall x <- items :: WellFormed(x)
    ensures out == CanonicalItems(items)
    decreases items, 0
  {
    out := [];
    for i := 0 to |items|
      invariant out == CanonicalItems(items)[..i]
    {
      assert items[i] in items;
      var item := CanonicalizeByLoop(items[i]);
      ItemsStep(items, i);
      out := out + [item];
    }
    assert CanonicalItems(items)[..|items|] == CanonicalItems(items);
  }

  lemma {:induction false} ItemsStep(items: seq<JsValue>, i: nat)
    requires i < |items|
    ensures CanonicalItems(items)[..i + 1] == CanonicalItems(items)[..i] + [Canonicalize(items[i])]
  {
    var cs := CanonicalItems(items);
    assert cs[..i + 1] == cs[..i] + [cs[i]];
  }

  /** Sort the keys, then fill a fresh object in that order. */
  method FillByLoop(ms: seq<Member>) returns (sorted: seq<Member>)
    requires DistinctKeys(ms) && forall m <- ms :: WellFormed(m.value)
    ensures sorted == CanonicalMembers(ms)
    decreases ms, 0
  {
    var keys := Sorting.Sort(Keys(ms), KeyLeq);
    SortedKeys(ms);
    sorted := [];
    for i := 0 to |keys|
      invariant sorted == Filled(ms, keys[..i])
    {
      assert keys[..i + 1][..i] == keys[..i];
      assert keys[i] in keys;
      var val := Lookup(ms, keys[i]);
      ghost var m := Member(keys[i], val);
      assert m in ms && m.value < m;
      if val != Undefined {
        var item := CanonicalizeByLoop(val);
        if keys[i] != "__proto__" {
          sorted := sorted + [Member(keys[i], item)];
        }
      }
    }
    assert keys[..|keys|] == keys;
    FilledIsCanonical(ms, keys);
  }

  lemma SortedKeys(ms: seq<Member>)
    requires DistinctKeys(ms)
    ensures var keys := Sorting.Sort(Keys(ms), KeyLeq);
      && (forall i, j | 0 <= i < j < |keys| :: KeyLess(keys[i], keys[j]))
      && (forall k :: k in keys <==> HasKey(ms, k))
  {
    var ks := Keys(ms);
    var keys := Sorting.Sort(ks, KeyLeq);
    KeyLeqOrders();
    Sorting.SortSorts(ks, KeyLeq);
    Sorting.SortPermutes(ks, KeyLeq);
    Sorting.SortMembers(ks, KeyLeq);
    forall k ensures k in keys <==> HasKey(ms, k) {
      if HasKey(ms, k) {
        var m :| m in ms && m.key == k;
        var i :| 0 <= i < |ms| && ms[i] == m;
        assert ks[i] == k;
      }
    }
    DistinctSorted(ks, keys);
  }

  lemma DistinctSorted(ks: seq<string>, keys: seq<string>)
    requires multiset(ks) == multiset(keys) && Sorting.Sorted(keys, KeyLeq)
    requires forall i, j | 0 <= i < j < |ks| :: ks[i] != ks[j]
    ensures forall i, j | 0 <= i < j < |keys| :: KeyLess(keys[i], keys[j])
  {
    forall i, j | 0 <= i < j < |keys| ensures keys[i] != keys[j] {
      if keys[i] == keys[j] {
        TwiceCounts(keys, i, j);
        DistinctCounts(ks, keys[i]);
      }
    }
  }

  lemma TwiceCounts(s: seq<string>, i: nat, j: nat)
    requires i < j < |s| && s[i] == s[j]
    ensures multiset(s)[s[i]] >= 2
  {
    assert s == s[..i] + [s[i]] + s[i + 1..j] + [s[j]] + s[j + 1..];
  }

  lemma {:induction false} DistinctCounts(s: seq<string>, x: string)
    requires forall i, j | 0 <= i < j < |s| :: s[i] != s[j]
    ensures multiset(s)[x] <= 1
  {
    if s != [] {
      assert s == [s[0]] + s[1..];
      DistinctCounts(s[1..], x);
      assert s[0] !in s[1..];
    }
  }

  lemma {:induction false} FilledAre(ms: seq<Member>, keys: seq<string>)
    requires forall i, j | 0 <= i < j < |keys| :: KeyLess(keys[i], keys[j])
    ensures StrictlySorted(Filled(ms, keys))
    ensures forall x :: x in Filled(ms, keys) <==>
      x.key in keys && Kept(Member(x.key, Lookup(ms, x.key))) && x.value == Canonicalize(Lookup(ms, x.key))
  {
    if keys != [] {
      var before, key := keys[..|keys| - 1], keys[|keys| - 1];
      FilledAre(ms, before);
      assert keys == before + [key];
      var done := Filled(ms, before);
      forall i | 0 <= i < |done| ensures KeyLess(done[i].key, key) {
        assert done[i] in done;
        assert done[i].key in before;
      }
    }
  }

  lemma FilledIsCanonical(ms: seq<Member>, keys: seq<string>)
    requires DistinctKeys(ms) && forall k :: k in keys <==> HasKey(ms, k)
    requires forall i, j | 0 <= i < j < |keys| :: KeyLess(keys[i], keys[j])
    ensures Filled(ms, keys) == CanonicalMembers(ms)
  {
    FilledAre(ms, keys);
    CanonicalMembersAre(ms);
    forall x ensures x in Filled(ms, keys) <==> x in CanonicalMembers(ms) {
      if x in Filled(ms, keys) {
        assert Member(x.key, Lookup(ms, x.key)) in ms;
      }
      if x in CanonicalMembers(ms) {
        var m :| m in ms && Kept(m) && x == Member(m.key, Canonicalize(m.value));
        DistinctLookup(ms, m);
      }
    }
    StrictUnique(Filled(ms, keys), CanonicalMembers(ms));
  }
}
