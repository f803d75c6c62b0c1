/** Shared vocabulary: optional values, JavaScript truthiness and composite string keys. */
module Prelude {

  datatype Option<+T> = None | Some(value: T)

  /** JavaScript truthiness of an optional string: present and non-empty. */
  predicate Truthy(s: Option<string>) {
    s.Some? && s.value != ""
  }

  /** The `??` operator. */
  function OrElse<T>(option: Option<T>, fallback: T): T {
    if option.Some? then option.value else fallback
  }

  predicate ColonFree(s: string) {
    ':' !in s
  }

  /** The composite key `${left}:${right}` used by every tenant-scoped map. */
  function JoinKey(left: string, right: string): string {
    left + ":" + right
  }

  /** With a colon-free left part the composite key determines both of its parts. */
  lemma JoinKeyInjective(l1: string, r1: string, l2: string, r2: string)
    requires ColonFree(l1) && ColonFree(l2)
    requires JoinKey(l1, r1) == JoinKey(l2, r2)
    ensures l1 == l2 && r1 == r2
  {
    var k1, k2 := JoinKey(l1, r1), JoinKey(l2, r2);
    assert k1[|l1|] == ':' && k2[|l2|] == ':';
    assert forall i | 0 <= i < |l1| :: k1[i] == l1[i];
    assert forall i | 0 <= i < |l2| :: k2[i] == l2[i];
    assert |l1| == |l2|;
    assert k1[..|l1|] == l1 && k2[..|l2|] == l2;
    assert k1[|l1| + 1..] == r1 && k2[|l2| + 1..] == r2;
  }

  /**
    Exactly when two different left parts can produce one key: when one of them is the other followed by a
    colon and more, as in "a" + ":" + "b:c" and "a:b" + ":" + "c".
   */
  lemma JoinKeyCollidesIff(l1: string, l2: string)
    requires l1 != l2
    ensures (exists r1, r2 :: JoinKey(l1, r1) == JoinKey(l2, r2)) <==> l1 + ":" <= l2 || l2 + ":" <= l1
  {
    if l1 + ":" <= l2 {
      LongerCollides(l1, l2);
    } else if l2 + ":" <= l1 {
      LongerCollides(l2, l1);
    }
    if r1, r2 :| JoinKey(l1, r1) == JoinKey(l2, r2) {
      var k := JoinKey(l1, r1);
      assert k[..|l1| + 1] == l1 + ":" && k[..|l2| + 1] == l2 + ":";
      assert k[..|l1|] == l1 && k[..|l2|] == l2;
      if |l1| < |l2| {
        assert k[..|l2|][..|l1| + 1] == k[..|l1| + 1];
      } else if |l2| < |l1| {
        assert k[..|l1|][..|l2| + 1] == k[..|l2| + 1];
      }
    }
  }

  lemma LongerCollides(short: string, long: string)
    requires short + ":" <= long
    ensures JoinKey(short, long[|short| + 1..] + ":") == JoinKey(long, "")
  {
    assert long == short + ":" + long[|short| + 1..];
  }
}
