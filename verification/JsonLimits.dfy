/** The explicit-stack walks that bound a JSON value, against the recursive meaning of their limits. */
module JsonLimits {

  /** A parsed value. Keys do not matter here, so a record is the values of its own entries in order. */
  datatype Json =
    | Scalar
    | Text(text: string)
    | List(items: seq<Json>)
    | Record(plain: bool, fields: seq<Json>)

  datatype Limits = Limits(maxDepth: int, maxNodes: int, maxArrayLength: int, maxStringLength: int, maxObjectKeys: int)

  const DEFAULT_LIMITS: Limits := Limits(20, 2000, 100, 10000, 100)

  const MAX_STRING_LENGTH: int := 10000
  const MAX_ARRAY_LENGTH: int := 500
  const MAX_DEPTH: int := 20
  const MAX_NODES: int := 2000

  function Children(v: Json): (vs: seq<Json>)
    ensures forall x <- vs :: x < v
  {
    match v
    case List(items) => items
    case Record(_, fields) => fields
    case _ => []
  }

  // ---------- recursive meaning ----------

  function NodeCount(v: Json): nat
    decreases v, 1
  {
    match v
    case List(items) => 1 + CountAll(items)
    case Record(_, fields) => 1 + CountAll(fields)
    case _ => 1
  }

  function CountAll(vs: seq<Json>): nat
    decreases vs, 0
  {
    if vs == [] then 0 else NodeCount(vs[0]) + CountAll(vs[1..])
  }

  /** The limits that one node must keep by itself. */
  predicate NodeSafe(v: Json, depth: int, l: Limits) {
    && depth <= l.maxDepth
    && (v.Text? ==> |v.text| <= l.maxStringLength)
    && (v.List? ==> |v.items| <= l.maxArrayLength)
    && (v.Record? ==> v.plain && |v.fields| <= l.maxObjectKeys)
  }

  predicate Safe(v: Json, depth: int, l: Limits)
    decreases v
  {
    NodeSafe(v, depth, l) && forall x <- Children(v) :: Safe(x, depth + 1, l)
  }

  predicate SafeStructure(v: Json, l: Limits) {
    NodeCount(v) <= l.maxNodes && Safe(v, 0, l)
  }

  /** The payload walk knows no limit on keys and does not ask for plain objects. */
  predicate PayloadNodeSafe(v: Json, depth: int) {
    && depth <= MAX_DEPTH
    && (v.Text? ==> |v.text| <= MAX_STRING_LENGTH)
    && (v.List? ==> |v.items| <= MAX_ARRAY_LENGTH)
  }

  predicate PayloadSafe(v: Json, depth: int)
    decreases v
  {
    PayloadNodeSafe(v, depth) && forall x <- Children(v) :: PayloadSafe(x, depth + 1)
  }

  predicate WithinPayloadLimits(v: Json) {
    NodeCount(v) <= MAX_NODES && PayloadSafe(v, 0)
  }

  lemma {:induction false} CountAppend(a: seq<Json>, b: seq<Json>)
    ensures CountAll(a + b) == CountAll(a) + CountAll(b)
  {
    if a == [] {
      assert a + b == b;
    } else {
      assert (a + b)[1..] == a[1..] + b;
      CountAppend(a[1..], b);
    }
  }

  /** Replacing the last pending value by its children removes exactly one node from the count. */
  lemma CountExpand(rest: seq<Json>, v: Json)
    ensures CountAll(rest + [v]) == 1 + CountAll(rest + Children(v))
  {
    CountAppend(rest, [v]);
    CountAppend(rest, Children(v));
    assert [v][1..] == [];
  }

  // ---------- the request body walk ----------

  datatype Entry = Entry(value: Json, depth: nat)

  function Pushed(vs: seq<Json>, depth: nat): (es: seq<Entry>)
    ensures |es| == |vs| && forall i | 0 <= i < |es| :: es[i] == Entry(vs[i], depth)
  {
    seq(|vs|, i requires 0 <= i < |vs| => Entry(vs[i], depth))
  }

  function Values(stack: seq<Entry>): (vs: seq<Json>)
    ensures |vs| == |stack| && forall i | 0 <= i < |vs| :: vs[i] == stack[i].value
  {
    seq(|stack|, i requires 0 <= i < |stack| => stack[i].value)
  }

  predicate AllSafe(stack: seq<Entry>, l: Limits) {
    forall i | 0 <= i < |stack| :: Safe(stack[i].value, stack[i].depth, l)
  }

  lemma CountTurn(rest: seq<Entry>, e: Entry)
    ensures CountAll(Values(rest + [e])) == 1 + CountAll(Values(rest + Pushed(Children(e.value), e.depth + 1)))
  {
    assert Values(rest + [e]) == Values(rest) + [e.value];
    assert Values(rest + Pushed(Children(e.value), e.depth + 1)) == Values(rest) + Children(e.value);
    CountExpand(Values(rest), e.value);
  }

  lemma AllSafeConcat(a: seq<Entry>, b: seq<Entry>, l: Limits)
    ensures AllSafe(a + b, l) <==> AllSafe(a, l) && AllSafe(b, l)
  {
    assert forall i | 0 <= i < |a| :: (a + b)[i] == a[i];
    assert forall i | 0 <= i < |b| :: (a + b)[|a| + i] == b[i];
  }

  lemma SafeByChildren(e: Entry, l: Limits)
    ensures Safe(e.value, e.depth, l)
            <==> NodeSafe(e.value, e.depth, l) && AllSafe(Pushed(Children(e.value), e.depth + 1), l)
  {
    var kids := Children(e.value);
    if Safe(e.value, e.depth, l) {
      forall i | 0 <= i < |kids| ensures Safe(kids[i], e.depth + 1, l) {
        assert kids[i] in kids;
      }
    }
    if AllSafe(Pushed(kids, e.depth + 1), l) {
      forall x | x in kids ensures Safe(x, e.depth + 1, l) {
        var i :| 0 <= i < |kids| && kids[i] == x;
        assert Pushed(kids, e.depth + 1)[i] == Entry(x, e.depth + 1);
      }
    }
  }

  /** One turn of the walk does not lose a violated limit. */
  lemma SafeTurn(rest: seq<Entry>, e: Entry, l: Limits)
    ensures AllSafe(rest + [e], l)
            <==> NodeSafe(e.value, e.depth, l) && AllSafe(rest + Pushed(Children(e.value), e.depth + 1), l)
  {
    AllSafeConcat(rest, [e], l);
    AllSafeConcat(rest, Pushed(Children(e.value), e.depth + 1), l);
    SafeByChildren(e, l);
    assert [e][0] == e;
  }

  /** What the walk keeps true: nodes counted, limits still owed. */
  predicate BodyInv(root: Json, stack: seq<Entry>, nodes: int, l: Limits) {
    && nodes >= 0 && nodes + CountAll(Values(stack)) == NodeCount(root)
    && (Safe(root, 0, l) <==> AllSafe(stack, l))
  }

  lemma BodyStarts(root: Json, l: Limits)
    ensures BodyInv(root, [Entry(root, 0)], 0, l)
  {
    CountExpand([], root);
    assert [] + Children(root) == Children(root) && Values([Entry(root, 0)]) == [] + [root];
    assert [Entry(root, 0)][0] == Entry(root, 0);
  }

  lemma BodyTurns(root: Json, rest: seq<Entry>, e: Entry, nodes: int, l: Limits)
    requires BodyInv(root, rest + [e], nodes, l)
    ensures var next := rest + Pushed(Children(e.value), e.depth + 1);
            && nodes + 1 <= NodeCount(root)
            && CountAll(Values(next)) < CountAll(Values(rest + [e]))
            && if NodeSafe(e.value, e.depth, l) then BodyInv(root, next, nodes + 1, l) else !Safe(root, 0, l)
  {
    CountTurn(rest, e);
    SafeTurn(rest, e, l);
  }

  /** The explicit-stack walk returns true exactly when the whole tree keeps every limit. */
  method HasSafeStructure(root: Json, l: Limits) returns (ok: bool)
    ensures ok <==> SafeStructure(root, l)
  {
    var stack: seq<Entry> := [Entry(root, 0)];
    var nodes := 0;
    BodyStarts(root, l);
    while stack != []
      invariant BodyInv(root, stack, nodes, l)
      invariant nodes > 0 ==> nodes <= l.maxNodes
      invariant nodes == 0 ==> stack != []
      decreases CountAll(Values(stack))
    {
      var current := stack[|stack| - 1];
      assert stack == stack[..|stack| - 1] + [current];
      stack := stack[..|stack| - 1];
      BodyTurns(root, stack, current, nodes, l);
      nodes := nodes + 1;
      if nodes > l.maxNodes || current.depth > l.maxDepth { return false; }
      if current.value.Text? && |current.value.text| > l.maxStringLength { return false; }
      if current.value.List? {
        if |current.value.items| > l.maxArrayLength { return false; }
        stack := stack + Pushed(current.value.items, current.depth + 1);
      } else if current.value.Record? {
        if !current.value.plain { return false; }
        if |current.value.fields| > l.maxObjectKeys { return false; }
        stack := stack + Pushed(current.value.fields, current.depth + 1);
      } else {
        assert stack + Pushed([], current.depth + 1) == stack;
      }
    }
    ok := true;
  }

  // ---------- the payload walk ----------

  /** In a parsed tree every object is reached by exactly one path, which serves as its identity. */
  datatype Visit = Visit(entry: Entry, path: seq<nat>)

  function Visits(vs: seq<Json>, depth: nat, path: seq<nat>): (visits: seq<Visit>)
    ensures |visits| == |vs| && forall i | 0 <= i < |vs| :: visits[i] == Visit(Entry(vs[i], depth), path + [i])
  {
    seq(|vs|, i requires 0 <= i < |vs| => Visit(Entry(vs[i], depth), path + [i]))
  }

  function Entries(stack: seq<Visit>): (es: seq<Entry>)
    ensures |es| == |stack| && forall i | 0 <= i < |es| :: es[i] == stack[i].entry
  {
    seq(|stack|, i requires 0 <= i < |stack| => stack[i].entry)
  }

  /** The stack after a visit: the visited value gives way to its children. */
  function Expanded(rest: seq<Visit>, v: Visit): seq<Visit> {
    rest + Visits(Children(v.entry.value), v.entry.depth + 1, v.path)
  }

  lemma ExpandedEntries(rest: seq<Visit>, v: Visit)
    ensures Entries(rest + [v]) == Entries(rest) + [v.entry]
    ensures Entries(Expanded(rest, v)) == Entries(rest) + Pushed(Children(v.entry.value), v.entry.depth + 1)
  {
  }

  predicate AllPayloadSafe(stack: seq<Entry>) {
    forall i | 0 <= i < |stack| :: PayloadSafe(stack[i].value, stack[i].depth)
  }

  /** No pending path extends another, and none is a prefix of a path already seen. */
  predicate Apart(stack: seq<Visit>, seen: set<seq<nat>>) {
    && (forall i, j | 0 <= i < |stack| && 0 <= j < |stack| && i != j :: !(stack[i].path <= stack[j].path))
    && (forall i, p | 0 <= i < |stack| && p in seen :: !(stack[i].path <= p))
  }

  lemma Siblings(p: seq<nat>, i: nat, j: nat, q: seq<nat>)
    ensures p + [i] <= p + [j] ==> i == j
    ensures p + [i] <= q ==> p <= q
    ensures q <= p + [i] ==> q <= p || p <= q
  {
    assert (p + [i])[|p|] == i && (p + [j])[|p|] == j;
    if p + [i] <= q { assert q[..|p|] == (p + [i])[..|p|] == p; }
    if q <= p + [i] && |q| <= |p| { assert q == (p + [i])[..|q|] == p[..|q|]; }
  }

  lemma ApartAfterPush(rest: seq<Visit>, v: Visit, seen: set<seq<nat>>)
    requires Apart(rest + [v], seen)
    ensures Apart(Expanded(rest, v), seen + {v.path})
    ensures v.path !in seen
  {
    var before, after := rest + [v], Expanded(rest, v);
    assert before[|rest|] == v && forall k | 0 <= k < |rest| :: before[k] == rest[k] == after[k];
    assert forall k | |rest| <= k < |after| :: after[k].path == v.path + [k - |rest|];
    forall i, j | 0 <= i < |after| && 0 <= j < |after| && i != j ensures !(after[i].path <= after[j].path) {
      if i >= |rest| && j >= |rest| {
        Siblings(v.path, i - |rest|, j - |rest|, v.path);
      } else if i >= |rest| {
        Siblings(v.path, i - |rest|, 0, before[j].path);
      } else if j >= |rest| {
        Siblings(v.path, j - |rest|, 0, before[i].path);
      } else {
        assert after[i] == before[i] && after[j] == before[j];
      }
    }
    forall i, q | 0 <= i < |after| && q in seen + {v.path} ensures !(after[i].path <= q) {
      if i >= |rest| {
        Siblings(v.path, i - |rest|, 0, q);
      } else {
        assert after[i] == before[i];
      }
    }
  }

  lemma AllPayloadSafeConcat(a: seq<Entry>, b: seq<Entry>)
    ensures AllPayloadSafe(a + b) <==> AllPayloadSafe(a) && AllPayloadSafe(b)
  {
    assert forall i | 0 <= i < |a| :: (a + b)[i] == a[i];
    assert forall i | 0 <= i < |b| :: (a + b)[|a| + i] == b[i];
  }

  lemma PayloadSafeByChildren(e: Entry)
    ensures PayloadSafe(e.value, e.depth)
            <==> PayloadNodeSafe(e.value, e.depth) && AllPayloadSafe(Pushed(Children(e.value), e.depth + 1))
  {
    var kids := Children(e.value);
    if PayloadSafe(e.value, e.depth) {
      forall i | 0 <= i < |kids| ensures PayloadSafe(kids[i], e.depth + 1) {
        assert kids[i] in kids;
      }
    }
    if AllPayloadSafe(Pushed(kids, e.depth + 1)) {
      forall x | x in kids ensures PayloadSafe(x, e.depth + 1) {
        var i :| 0 <= i < |kids| && kids[i] == x;
        assert Pushed(kids, e.depth + 1)[i] == Entry(x, e.depth + 1);
      }
    }
  }

  lemma PayloadTurn(rest: seq<Entry>, e: Entry)
    ensures AllPayloadSafe(rest + [e])
            <==> && PayloadNodeSafe(e.value, e.depth)
                 && AllPayloadSafe(rest + Pushed(Children(e.value), e.depth + 1))
  {
    AllPayloadSafeConcat(rest, [e]);
    AllPayloadSafeConcat(rest, Pushed(Children(e.value), e.depth + 1));
    PayloadSafeByChildren(e);
    assert [e][0] == e;
  }

  /** What the payload walk keeps true: nodes counted, limits still owed. */
  predicate Owed(root: Json, stack: seq<Entry>, nodes: int) {
    && nodes >= 0 && nodes + CountAll(Values(stack)) == NodeCount(root)
    && (PayloadSafe(root, 0) <==> AllPayloadSafe(stack))
  }

  /** And its paths stay apart. */
  predicate WalkInv(root: Json, stack: seq<Visit>, seen: set<seq<nat>>, nodes: int) {
    Owed(root, Entries(stack), nodes) && Apart(stack, seen)
  }

  lemma WalkStarts(root: Json)
    ensures WalkInv(root, [Visit(Entry(root, 0), [])], {}, 0)
  {
    var stack := [Visit(Entry(root, 0), [])];
    CountExpand([], root);
    assert [] + Children(root) == Children(root) && Values(Entries(stack)) == [] + [root];
    assert Entries(stack)[0] == Entry(root, 0);
  }

  lemma OwedTurns(root: Json, rest: seq<Entry>, e: Entry, nodes: int)
    requires Owed(root, rest + [e], nodes)
    ensures var next := rest + Pushed(Children(e.value), e.depth + 1);
            && nodes + 1 <= NodeCount(root)
            && CountAll(Values(next)) < CountAll(Values(rest + [e]))
            && if PayloadNodeSafe(e.value, e.depth) then Owed(root, next, nodes + 1) else !PayloadSafe(root, 0)
  {
    CountTurn(rest, e);
    PayloadTurn(rest, e);
  }

  lemma WalkForgets(root: Json, stack: seq<Visit>, seen: set<seq<nat>>, path: seq<nat>, nodes: int)
    requires WalkInv(root, stack, seen + {path}, nodes)
    ensures WalkInv(root, stack, seen, nodes)
  {
    assert forall p | p in seen :: p in seen + {path};
  }

  lemma WalkTurns(root: Json, rest: seq<Visit>, v: Visit, seen: set<seq<nat>>, nodes: int)
    requires WalkInv(root, rest + [v], seen, nodes)
    ensures v.path !in seen && nodes + 1 <= NodeCount(root)
    ensures CountAll(Values(Entries(Expanded(rest, v)))) < CountAll(Values(Entries(rest + [v])))
    ensures if PayloadNodeSafe(v.entry.value, v.entry.depth)
            then && WalkInv(root, Expanded(rest, v), seen + {v.path}, nodes + 1)
                 && WalkInv(root, Expanded(rest, v), seen, nodes + 1)
            else !PayloadSafe(root, 0)
  {
    ExpandedEntries(rest, v);
    OwedTurns(root, Entries(rest), v.entry, nodes);
    ApartAfterPush(rest, v, seen);
    if PayloadNodeSafe(v.entry.value, v.entry.depth) {
      WalkForgets(root, Expanded(rest, v), seen, v.path, nodes + 1);
    }
  }

  /** A walk that ends has counted every node and owes nothing. */
  lemma WalkEnds(root: Json, seen: set<seq<nat>>, nodes: int)
    requires WalkInv(root, [], seen, nodes)
    ensures nodes == NodeCount(root) && PayloadSafe(root, 0)
  {
  }

  predicate IsContainer(v: Json) {
    v.List? || v.Record?
  }

  /** What one turn does with a value it has popped: refuse it, or mark it as seen and push its children. */
  method ExpandVisit(rest: seq<Visit>, visit: Visit, seen: set<seq<nat>>)
      returns (ok: bool, stack: seq<Visit>, seen': set<seq<nat>>)
    ensures ok <==> PayloadNodeSafe(visit.entry.value, visit.entry.depth)
                    && (IsContainer(visit.entry.value) ==> visit.path !in seen)
    ensures ok ==> stack == Expanded(rest, visit)
    ensures ok ==> seen' == if IsContainer(visit.entry.value) then seen + {visit.path} else seen
  {
    var current := visit.entry;
    ok, stack, seen' := false, rest, seen;
    if current.depth > MAX_DEPTH { return; }
    if current.value.Text? && |current.value.text| > MAX_STRING_LENGTH { return; }
    if current.value.Scalar? || current.value.Text? {
      assert Expanded(rest, visit) == rest;
      ok := true;
      return;
    }
    if visit.path in seen { return; }
    seen' := seen + {visit.path};
    if current.value.List? {
      if |current.value.items| > MAX_ARRAY_LENGTH { return; }
      stack := rest + Visits(current.value.items, current.depth + 1, visit.path);
    } else {
      stack := rest + Visits(current.value.fields, current.depth + 1, visit.path);
    }
    ok := true;
  }

  /** The payload walk: on a parsed tree its `seen` test never fires, and it decides exactly its limits. */
  method PassesPayloadLimits(root: Json) returns (ok: bool)
    ensures ok <==> WithinPayloadLimits(root)
  {
    var stack: seq<Visit> := [Visit(Entry(root, 0), [])];
    var seen: set<seq<nat>> := {};
    var nodes := 0;
    WalkStarts(root);
    while stack != []
      invariant WalkInv(root, stack, seen, nodes) && nodes <= MAX_NODES
      decreases CountAll(Values(Entries(stack)))
    {
      var visit := stack[|stack| - 1];
      assert stack == stack[..|stack| - 1] + [visit];
      WalkTurns(root, stack[..|stack| - 1], visit, seen, nodes);
      nodes := nodes + 1;
      if nodes > MAX_NODES { return false; }
      var room;
      room, stack, seen := ExpandVisit(stack[..|stack| - 1], visit, seen);
      if !room { return false; }
    }
    WalkEnds(root, seen, nodes);
    ok := true;
  }

  // ---------- one limit implies the other ----------

  predicate Nested(u: Json, v: Json)
    decreases v
  {
    u == v || exists x <- Children(v) :: Nested(u, x)
  }

  lemma {:induction false} CountAllBounds(vs: seq<Json>, x: Json)
    requires x in vs
    ensures NodeCount(x) <= CountAll(vs)
  {
    if vs[0] != x {
      CountAllBounds(vs[1..], x);
    }
  }

  lemma {:induction false} NestedIsSmaller(u: Json, v: Json)
    requires Nested(u, v)
    ensures NodeCount(u) <= NodeCount(v)
    decreases v
  {
    if u != v {
      var x :| x in Children(v) && Nested(u, x);
      NestedIsSmaller(u, x);
      CountAllBounds(Children(v), x);
    }
  }

  lemma {:induction false} NestedIsSafe(u: Json, v: Json, depth: int, l: Limits) returns (d: int)
    requires Nested(u, v) && Safe(v, depth, l)
    ensures d >= depth && Safe(u, d, l)
    decreases v
  {
    d := depth;
    if u != v {
      var x :| x in Children(v) && Nested(u, x);
      d := NestedIsSafe(u, x, depth + 1, l);
    }
  }

  lemma {:induction false} SafeIsPayloadSafe(v: Json, d: int, depth: int)
    requires d <= depth && Safe(v, depth, DEFAULT_LIMITS)
    ensures PayloadSafe(v, d)
    decreases v
  {
    forall x | x in Children(v) ensures PayloadSafe(x, d + 1) {
      SafeIsPayloadSafe(x, d + 1, depth + 1);
    }
  }

  /** A body accepted under the default limits passes the payload limits, and so does every value inside it. */
  lemma BodyLimitsImplyPayloadLimits(u: Json, root: Json)
    requires SafeStructure(root, DEFAULT_LIMITS) && Nested(u, root)
    ensures WithinPayloadLimits(u)
  {
    NestedIsSmaller(u, root);
    var d := NestedIsSafe(u, root, 0, DEFAULT_LIMITS);
    SafeIsPayloadSafe(u, 0, d);
  }
}
