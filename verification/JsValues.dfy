/** Plain JavaScript data: what `unknown` holds once functions and prototypes are set aside. */
module JsValues {

  datatype JsValue =
    | Undefined
    | Null
    | Bool(b: bool)
    | Num(n: real)
    | Str(s: string)
    | Arr(items: seq<JsValue>)
    | Obj(members: seq<Member>)

  datatype Member = Member(key: string, value: JsValue)

  predicate HasKey(ms: seq<Member>, key: string) {
    exists m <- ms :: m.key == key
  }

  /** The value of the first member with this key; objects never hold a key twice. */
  function Lookup(ms: seq<Member>, key: string): (v: JsValue)
    ensures HasKey(ms, key) ==> Member(key, v) in ms
    ensures !HasKey(ms, key) ==> v == Undefined
  {
    if ms == [] then Undefined
    else if ms[0].key == key then assert ms[0] in ms; ms[0].value
    else
      assert forall m | m in ms :: m == ms[0] || m in ms[1..];
      Lookup(ms[1..], key)
  }

  /** Property assignment: replaces in place, or appends a new key. */
  function Assign(ms: seq<Member>, key: string, v: JsValue): seq<Member> {
    if ms == [] then [Member(key, v)]
    else if ms[0].key == key then [Member(key, v)] + ms[1..]
    else [ms[0]] + Assign(ms[1..], key, v)
  }

  predicate DistinctKeys(ms: seq<Member>) {
    forall i, j | 0 <= i < j < |ms| :: ms[i].key != ms[j].key
  }

  /** The type invariant of JavaScript objects: no key twice, at any depth. */
  ghost predicate WellFormed(v: JsValue) {
    match v
    case Arr(items) => forall x <- items :: WellFormed(x)
    case Obj(ms) => DistinctKeys(ms) && forall m <- ms :: WellFormed(m.value)
    case _ => true
  }

  /** An assignment is seen under its own key and nowhere else. */
  lemma {:induction false} AssignLookup(ms: seq<Member>, key: string, v: JsValue, other: string)
    ensures Lookup(Assign(ms, key, v), other) == if other == key then v else Lookup(ms, other)
  {
    if ms != [] && ms[0].key != key { AssignLookup(ms[1..], key, v, other); }
  }
}
