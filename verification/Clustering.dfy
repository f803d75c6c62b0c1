/** Greedy clustering: each input joins the first cluster that holds something it merges with. */
module Clustering {

  type Cluster = seq<nat>

  predicate Within(cs: seq<Cluster>, n: nat) {
    forall c, j | 0 <= c < |cs| && 0 <= j < |cs[c]| :: cs[c][j] < n
  }

  // ---------- the algorithm on positions ----------

  predicate Matches<T>(cluster: seq<T>, x: T, merges: (T, T) -> bool) {
    exists j | 0 <= j < |cluster| :: merges(cluster[j], x)
  }

  /** `clusters.find(...)`: the first matching cluster, or the number of clusters. */
  function FirstMatch<T>(clusters: seq<seq<T>>, x: T, merges: (T, T) -> bool): (c: nat)
    ensures c <= |clusters|
    ensures c < |clusters| ==> Matches(clusters[c], x, merges)
    ensures forall d | 0 <= d < c :: !Matches(clusters[d], x, merges)
  {
    if clusters == [] then 0
    else if Matches(clusters[0], x, merges) then 0
    else 1 + FirstMatch(clusters[1..], x, merges)
  }

  function Place<T>(clusters: seq<seq<T>>, c: nat, x: T): seq<seq<T>>
    requires c <= |clusters|
  {
    if c < |clusters| then clusters[c := clusters[c] + [x]] else clusters + [[x]]
  }

  function Pick<T>(inputs: seq<T>, cluster: Cluster): (r: seq<T>)
    requires forall j | 0 <= j < |cluster| :: cluster[j] < |inputs|
    ensures |r| == |cluster| && forall j | 0 <= j < |cluster| :: r[j] == inputs[cluster[j]]
  {
    seq(|cluster|, j requires 0 <= j < |cluster| => inputs[cluster[j]])
  }

  function PickAll<T>(inputs: seq<T>, cs: seq<Cluster>): (r: seq<seq<T>>)
    requires Within(cs, |inputs|)
    ensures |r| == |cs| && forall c | 0 <= c < |cs| :: r[c] == Pick(inputs, cs[c])
  {
    seq(|cs|, c requires 0 <= c < |cs| => Pick(inputs, cs[c]))
  }

  /** The clusters of the first `n` inputs, as positions. */
  function Clusters<T>(inputs: seq<T>, n: nat, merges: (T, T) -> bool): (cs: seq<Cluster>)
    requires n <= |inputs|
    ensures Within(cs, n)
  {
    if n == 0 then []
    else
      var before := Clusters(inputs, n - 1, merges);
      Place(before, FirstMatch(PickAll(inputs, before), inputs[n - 1], merges), n - 1)
  }

  lemma PickPlace<T>(inputs: seq<T>, cs: seq<Cluster>, c: nat, k: nat)
    requires Within(cs, k) && k < |inputs| && c <= |cs|
    ensures Within(Place(cs, c, k), k + 1)
    ensures PickAll(inputs, Place(cs, c, k)) == Place(PickAll(inputs, cs), c, inputs[k])
  {
    var next := Place(cs, c, k);
    forall d | 0 <= d < |next| ensures Pick(inputs, next[d]) == Place(PickAll(inputs, cs), c, inputs[k])[d] {
    }
  }

  /** One turn of the loop: placing the next input is placing its position. */
  lemma ClustersStep<T>(inputs: seq<T>, n: nat, merges: (T, T) -> bool)
    requires n < |inputs|
    ensures var before := PickAll(inputs, Clusters(inputs, n, merges));
            var c := FirstMatch(before, inputs[n], merges);
            && Within(Clusters(inputs, n + 1, merges), |inputs|)
            && PickAll(inputs, Clusters(inputs, n + 1, merges)) == Place(before, c, inputs[n])
  {
    var cs := Clusters(inputs, n, merges);
    PickPlace(inputs, cs, FirstMatch(PickAll(inputs, cs), inputs[n], merges), n);
  }

  /** The loop of the source, on the inputs themselves. */
  method MergeByLoop<T>(inputs: seq<T>, merges: (T, T) -> bool) returns (clusters: seq<seq<T>>)
    ensures clusters == PickAll(inputs, Clusters(inputs, |inputs|, merges))
  {
    clusters := [];
    for n := 0 to |inputs|
      invariant clusters == PickAll(inputs, Clusters(inputs, n, merges))
    {
      ClustersStep(inputs, n, merges);
      clusters := Place(clusters, FirstMatch(clusters, inputs[n], merges), inputs[n]);
    }
  }

  // ---------- what the clusters are ----------

  /** Position `k` has something before it in `cluster` that it merges with. */
  ghost predicate Joins<T>(inputs: seq<T>, cluster: Cluster, k: nat, merges: (T, T) -> bool)
    requires k < |inputs|
  {
    exists i | i in cluster && i < k :: merges(inputs[i], inputs[k])
  }

  ghost predicate Increasing(cluster: Cluster) {
    forall i, j | 0 <= i < j < |cluster| :: cluster[i] < cluster[j]
  }

  /** Input order inside each cluster, and clusters in the order of their heads. */
  ghost predicate Ordered(cs: seq<Cluster>) {
    && (forall c | 0 <= c < |cs| :: cs[c] != [] && Increasing(cs[c]))
    && (forall c, d | 0 <= c < d < |cs| :: cs[c][0] < cs[d][0])
  }

  /** Every member but the head merges with an earlier member of its own cluster. */
  ghost predicate MembersJoin<T>(inputs: seq<T>, cs: seq<Cluster>, merges: (T, T) -> bool)
    requires Within(cs, |inputs|)
  {
    forall c, j | 0 <= c < |cs| && 0 < j < |cs[c]| :: Joins(inputs, cs[c], cs[c][j], merges)
  }

  /** No member merges with anything that precedes it in an earlier cluster. */
  ghost predicate NoEarlierCluster<T>(inputs: seq<T>, cs: seq<Cluster>, merges: (T, T) -> bool)
    requires Within(cs, |inputs|)
  {
    forall c, d, j | 0 <= d < c < |cs| && 0 <= j < |cs[c]| :: !Joins(inputs, cs[d], cs[c][j], merges)
  }

  function Flatten(cs: seq<Cluster>): seq<nat> {
    if cs == [] then [] else Flatten(cs[..|cs| - 1]) + cs[|cs| - 1]
  }

  /** Each of the positions below `n` occurs exactly once. */
  ghost predicate Partition(cs: seq<Cluster>, n: nat) {
    forall i: nat :: multiset(Flatten(cs))[i] == if i < n then 1 else 0
  }

  ghost predicate Greedy<T>(inputs: seq<T>, cs: seq<Cluster>, n: nat, merges: (T, T) -> bool) {
    && n <= |inputs|
    && Within(cs, n)
    && Partition(cs, n)
    && Ordered(cs)
    && MembersJoin(inputs, cs, merges)
    && NoEarlierCluster(inputs, cs, merges)
  }

  lemma {:induction false} FlattenUpdate(cs: seq<Cluster>, c: nat, k: nat)
    requires c < |cs|
    ensures multiset(Flatten(cs[c := cs[c] + [k]])) == multiset(Flatten(cs)) + multiset{k}
  {
    var n := |cs| - 1;
    var next := cs[c := cs[c] + [k]];
    if c == n {
      assert next[..n] == cs[..n];
    } else {
      assert next[..n] == cs[..n][c := cs[..n][c] + [k]];
      FlattenUpdate(cs[..n], c, k);
    }
  }

  lemma FlattenPlace(cs: seq<Cluster>, c: nat, k: nat)
    requires c <= |cs|
    ensures multiset(Flatten(Place(cs, c, k))) == multiset(Flatten(cs)) + multiset{k}
  {
    if c < |cs| {
      FlattenUpdate(cs, c, k);
    } else {
      assert (cs + [[k]])[..|cs|] == cs;
    }
  }

  lemma PartitionPlace(cs: seq<Cluster>, c: nat, k: nat)
    requires c <= |cs|
    ensures Partition(cs, k) <==> Partition(Place(cs, c, k), k + 1)
  {
    FlattenPlace(cs, c, k);
    var f, g := multiset(Flatten(cs)), multiset(Flatten(Place(cs, c, k)));
    assert forall i: nat :: g[i] == f[i] + if i == k then 1 else 0;
  }

  // ---------- greedy clustering is exactly what the loop computes ----------

  lemma JoinsStable<T>(inputs: seq<T>, cluster: Cluster, k: nat, m: nat, merges: (T, T) -> bool)
    requires m <= k && m < |inputs|
    ensures Joins(inputs, cluster + [k], m, merges) <==> Joins(inputs, cluster, m, merges)
  {
    if Joins(inputs, cluster, m, merges) {
      var i :| i in cluster && i < m && merges(inputs[i], inputs[m]);
      assert i in cluster + [k];
    }
  }

  lemma MatchIsJoin<T>(inputs: seq<T>, cluster: Cluster, k: nat, merges: (T, T) -> bool)
    requires k < |inputs| && forall j | 0 <= j < |cluster| :: cluster[j] < k
    ensures Matches(Pick(inputs, cluster), inputs[k], merges) <==> Joins(inputs, cluster, k, merges)
  {
    if Joins(inputs, cluster, k, merges) {
      var i :| i in cluster && i < k && merges(inputs[i], inputs[k]);
      var j :| 0 <= j < |cluster| && cluster[j] == i;
      assert merges(Pick(inputs, cluster)[j], inputs[k]);
    }
  }

  /** The cluster that the loop chooses for position `k`. */
  ghost predicate Chosen<T>(inputs: seq<T>, cs: seq<Cluster>, c: nat, k: nat, merges: (T, T) -> bool)
    requires k < |inputs|
  {
    && c <= |cs|
    && (c < |cs| ==> Joins(inputs, cs[c], k, merges))
    && (forall d | 0 <= d < c :: !Joins(inputs, cs[d], k, merges))
  }

  lemma ChosenIff<T>(inputs: seq<T>, cs: seq<Cluster>, c: nat, k: nat, merges: (T, T) -> bool)
    requires k < |inputs| && Within(cs, k)
    ensures Chosen(inputs, cs, c, k, merges) <==> c == FirstMatch(PickAll(inputs, cs), inputs[k], merges)
  {
    forall d | 0 <= d < |cs|
      ensures Matches(PickAll(inputs, cs)[d], inputs[k], merges) <==> Joins(inputs, cs[d], k, merges)
    {
      MatchIsJoin(inputs, cs[d], k, merges);
    }
  }

  lemma OrderedPlace(cs: seq<Cluster>, c: nat, k: nat)
    requires c <= |cs| && Within(cs, k)
    ensures Ordered(cs) ==> Ordered(Place(cs, c, k))
    ensures (c < |cs| ==> cs[c] != []) && Ordered(Place(cs, c, k)) ==> Ordered(cs)
  {
    var next := Place(cs, c, k);
    if Ordered(next) && (c < |cs| ==> cs[c] != []) {
      forall d | 0 <= d < |cs| ensures cs[d] != [] && Increasing(cs[d]) && cs[d][0] == next[d][0] {
        assert forall i | 0 <= i < |cs[d]| :: cs[d][i] == next[d][i];
      }
    }
  }

  lemma MembersJoinPlace<T>(inputs: seq<T>, cs: seq<Cluster>, c: nat, k: nat, merges: (T, T) -> bool)
    requires c <= |cs| && Within(cs, k) && k < |inputs|
    requires c < |cs| ==> cs[c] != []
    ensures MembersJoin(inputs, Place(cs, c, k), merges)
            <==> MembersJoin(inputs, cs, merges) && (c < |cs| ==> Joins(inputs, cs[c], k, merges))
  {
    var next := Place(cs, c, k);
    assert next[c][|next[c]| - 1] == k;
    assert forall d, j | 0 <= d < |cs| && 0 <= j < |cs[d]| :: cs[d][j] == next[d][j];
    forall d: nat, m: nat | d < |cs| && m <= k
      ensures Joins(inputs, next[d], m, merges) <==> Joins(inputs, cs[d], m, merges)
    {
      if d == c { JoinsStable(inputs, cs[c], k, m, merges); }
    }
  }

  lemma NoEarlierPlace<T>(inputs: seq<T>, cs: seq<Cluster>, c: nat, k: nat, merges: (T, T) -> bool)
    requires c <= |cs| && Within(cs, k) && k < |inputs|
    ensures NoEarlierCluster(inputs, Place(cs, c, k), merges)
            <==> && NoEarlierCluster(inputs, cs, merges)
                 && forall d | 0 <= d < c :: !Joins(inputs, cs[d], k, merges)
  {
    var next := Place(cs, c, k);
    assert next[c][|next[c]| - 1] == k;
    assert forall d, j | 0 <= d < |cs| && 0 <= j < |cs[d]| :: cs[d][j] == next[d][j];
    forall d: nat, m: nat | d < |cs| && m <= k
      ensures Joins(inputs, next[d], m, merges) <==> Joins(inputs, cs[d], m, merges)
    {
      if d == c { JoinsStable(inputs, cs[c], k, m, merges); }
    }
  }

  /** Placing the next position keeps the clustering greedy exactly when it goes where the loop puts it. */
  lemma GreedyPlace<T>(inputs: seq<T>, cs: seq<Cluster>, c: nat, k: nat, merges: (T, T) -> bool)
    requires c <= |cs| && k < |inputs| && (c < |cs| ==> cs[c] != []) && Within(cs, k)
    ensures Greedy(inputs, Place(cs, c, k), k + 1, merges)
            <==> Greedy(inputs, cs, k, merges) && Chosen(inputs, cs, c, k, merges)
  {
    PickPlace(inputs, cs, c, k);
    PartitionPlace(cs, c, k);
    OrderedPlace(cs, c, k);
    MembersJoinPlace(inputs, cs, c, k, merges);
    NoEarlierPlace(inputs, cs, c, k, merges);
  }

  lemma {:induction false} FlattenMember(cs: seq<Cluster>, i: nat)
    ensures i in Flatten(cs) <==> exists c | 0 <= c < |cs| :: i in cs[c]
  {
    if cs != [] {
      var n := |cs| - 1;
      FlattenMember(cs[..n], i);
      assert forall c | 0 <= c < n :: cs[..n][c] == cs[c];
    }
  }

  lemma PartitionWithin(cs: seq<Cluster>, n: nat)
    requires Partition(cs, n)
    ensures Within(cs, n)
  {
    forall c, j | 0 <= c < |cs| && 0 <= j < |cs[c]| ensures cs[c][j] < n {
      FlattenMember(cs, cs[c][j]);
      assert cs[c][j] in multiset(Flatten(cs));
    }
  }

  lemma PartitionMember(cs: seq<Cluster>, n: nat, i: nat) returns (c: nat)
    requires Partition(cs, n) && i < n
    ensures c < |cs| && i in cs[c]
  {
    assert i in multiset(Flatten(cs));
    FlattenMember(cs, i);
    c :| c < |cs| && i in cs[c];
  }

  lemma {:induction false} FlattenTwice(cs: seq<Cluster>, c: nat, d: nat, i: nat)
    requires c < d < |cs| && i in cs[c] && i in cs[d]
    ensures multiset(Flatten(cs))[i] >= 2
  {
    var n := |cs| - 1;
    assert multiset(Flatten(cs)) == multiset(Flatten(cs[..n])) + multiset(cs[n]);
    if d < n {
      FlattenTwice(cs[..n], c, d, i);
    } else {
      assert cs[..n][c] == cs[c];
      FlattenMember(cs[..n], i);
      assert i in multiset(Flatten(cs[..n])) && i in multiset(cs[n]);
    }
  }

  /** No position is in two clusters. */
  lemma PartitionDisjoint(cs: seq<Cluster>, n: nat, c: nat, d: nat, i: nat)
    requires Partition(cs, n) && c < d < |cs| && i in cs[c]
    ensures i !in cs[d]
  {
    if i in cs[d] { FlattenTwice(cs, c, d, i); }
  }

  lemma LastOfIncreasing(cluster: Cluster, k: nat)
    requires Increasing(cluster) && k in cluster && forall j | 0 <= j < |cluster| :: cluster[j] <= k
    ensures cluster == cluster[..|cluster| - 1] + [k]
  {
    assert forall j | 0 <= j < |cluster| - 1 :: cluster[j] < cluster[|cluster| - 1];
    var j :| 0 <= j < |cluster| && cluster[j] == k;
  }

  lemma LastHead(cs: seq<Cluster>, c: nat, k: nat)
    requires Ordered(cs) && Within(cs, k + 1) && c < |cs| && cs[c] == [k]
    ensures cs == cs[..c] + [[k]]
  {
    var last := |cs| - 1;
    assert cs[last] != [] && cs[last][0] < k + 1;
    assert cs[c][0] == k;
  }

  /** The last position of an ordered partition can be taken out again. */
  lemma Unplace(cs: seq<Cluster>, k: nat) returns (before: seq<Cluster>, c: nat)
    requires Partition(cs, k + 1) && Ordered(cs)
    ensures c <= |before| && cs == Place(before, c, k) && (c < |before| ==> before[c] != [])
    ensures Within(before, k)
  {
    c := PartitionMember(cs, k + 1, k);
    PartitionWithin(cs, k + 1);
    LastOfIncreasing(cs[c], k);
    if |cs[c]| == 1 {
      LastHead(cs, c, k);
      before := cs[..c];
    } else {
      before := cs[c := cs[c][..|cs[c]| - 1]];
    }
    assert cs == Place(before, c, k);
    PartitionPlace(before, c, k);
    PartitionWithin(before, k);
  }

  lemma {:induction false} ClustersGreedy<T>(inputs: seq<T>, n: nat, merges: (T, T) -> bool)
    requires n <= |inputs|
    ensures Greedy(inputs, Clusters(inputs, n, merges), n, merges)
  {
    if n == 0 {
      EmptyGreedy(inputs, [], merges);
    } else {
      var k, before := n - 1, Clusters(inputs, n - 1, merges);
      ClustersGreedy(inputs, k, merges);
      var c := FirstMatch(PickAll(inputs, before), inputs[k], merges);
      ChosenIff(inputs, before, c, k, merges);
      GreedyPlace(inputs, before, c, k, merges);
    }
  }

  lemma GreedyBefore<T>(
      inputs: seq<T>, cs: seq<Cluster>, before: seq<Cluster>, c: nat, k: nat, merges: (T, T) -> bool)
    requires c <= |before| && (c < |before| ==> before[c] != []) && Within(before, k)
    requires cs == Place(before, c, k) && Greedy(inputs, cs, k + 1, merges)
    ensures Greedy(inputs, before, k, merges)
    ensures before == Clusters(inputs, k, merges) ==> cs == Clusters(inputs, k + 1, merges)
  {
    GreedyPlace(inputs, before, c, k, merges);
    ChosenIff(inputs, before, c, k, merges);
  }

  /** Undo the last placement, and redo it on the side of the loop. */
  lemma GreedyLast<T>(inputs: seq<T>, cs: seq<Cluster>, n: nat, merges: (T, T) -> bool)
      returns (before: seq<Cluster>)
    requires n > 0 && Greedy(inputs, cs, n, merges)
    ensures Greedy(inputs, before, n - 1, merges)
    ensures before == Clusters(inputs, n - 1, merges) ==> cs == Clusters(inputs, n, merges)
  {
    var k, c := n - 1, 0;
    before, c := Unplace(cs, k);
    GreedyBefore(inputs, cs, before, c, k, merges);
  }

  lemma {:induction false} GreedyUnique<T>(inputs: seq<T>, cs: seq<Cluster>, n: nat, merges: (T, T) -> bool)
    requires Greedy(inputs, cs, n, merges)
    ensures cs == Clusters(inputs, n, merges)
    decreases n
  {
    if n == 0 {
      EmptyGreedy(inputs, cs, merges);
      return;
    }
    var before := GreedyLast(inputs, cs, n, merges);
    GreedyUnique(inputs, before, n - 1, merges);
    assert before == Clusters(inputs, n - 1, merges);
  }

  /** The greedy clustering exists, is unique, and is what the loop computes. */
  lemma GreedyIff<T>(inputs: seq<T>, cs: seq<Cluster>, merges: (T, T) -> bool)
    ensures Greedy(inputs, cs, |inputs|, merges) <==> cs == Clusters(inputs, |inputs|, merges)
  {
    ClustersGreedy(inputs, |inputs|, merges);
    if Greedy(inputs, cs, |inputs|, merges) { GreedyUnique(inputs, cs, |inputs|, merges); }
  }

  lemma EmptyGreedy<T>(inputs: seq<T>, cs: seq<Cluster>, merges: (T, T) -> bool)
    ensures Greedy(inputs, cs, 0, merges) <==> cs == []
  {
    if cs == [] {
      assert Flatten(cs) == [];
    } else if cs[0] == [] {
      assert !Ordered(cs);
    } else {
      assert cs[0][0] >= 0;
      assert !Within(cs, 0);
    }
  }

  /** A cluster's head merges with nothing before it. */
  lemma HeadsMergeWithNothingBefore<T>(inputs: seq<T>, merges: (T, T) -> bool, c: nat, i: nat)
    requires c < |Clusters(inputs, |inputs|, merges)|
    requires Clusters(inputs, |inputs|, merges)[c] != [] && i < Clusters(inputs, |inputs|, merges)[c][0]
    ensures !merges(inputs[i], inputs[Clusters(inputs, |inputs|, merges)[c][0]])
  {
    var cs := Clusters(inputs, |inputs|, merges);
    ClustersGreedy(inputs, |inputs|, merges);
    var d := PartitionMember(cs, |inputs|, i);
    var j :| 0 <= j < |cs[d]| && cs[d][j] == i;
    assert cs[d][0] <= i;
    assert d < c;
    assert !Joins(inputs, cs[d], cs[c][0], merges);
  }
}
