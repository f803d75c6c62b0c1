/** Duplicate merging of the hopper: canonical items, and where every input goes. */
module Hopper {
  import opened Prelude
  import opened Sorting
  import opened Vectors
  import opened Clustering

  datatype Item = Item(
    id: string,
    sourceType: string,
    projectId: Option<string>,
    url: Option<string>,
    repo: Option<string>,
    embedding: Vector,
    createdAt: real,
    sourcePrior: Option<real>,
    summary: seq<string>,
    semanticTopics: seq<string>)

  datatype MergeConfig = MergeConfig(duplicateSimilarityThreshold: real, mergeTimeWindowMs: real)

  function Abs(x: real): real {
    if x < 0.0 then -x else x
  }

  predicate ShouldMerge(sqrt: real -> real, c: MergeConfig, a: Item, b: Item) {
    || (Truthy(a.url) && a.url == b.url)
    || (Truthy(a.repo) && a.repo == b.repo)
    || (&& Abs(a.createdAt - b.createdAt) <= c.mergeTimeWindowMs
        && Cosine(sqrt, a.embedding, b.embedding) >= c.duplicateSimilarityThreshold)
  }

  /** Merging is a symmetric relation, so the pair order of the loop does not matter. */
  lemma ShouldMergeSymmetric(sqrt: real -> real, c: MergeConfig, a: Item, b: Item)
    ensures ShouldMerge(sqrt, c, a, b) == ShouldMerge(sqrt, c, b, a)
  {
    CosineSymmetric(sqrt, a.embedding, b.embedding);
  }

  predicate ShareLink(a: Item, b: Item) {
    || (a.url == b.url && a.url != None && a.url != Some(""))
    || (a.repo == b.repo && a.repo != None && a.repo != Some(""))
  }

  /**
    Inputs with a common address or repository merge whatever else they are; others merge exactly when they are close
    both in time and in direction. Two that point the same way and come together merge under any threshold up to one.
   */
  lemma MergesWhen(sqrt: real -> real, c: MergeConfig, a: Item, b: Item)
    ensures ShareLink(a, b) ==> ShouldMerge(sqrt, c, a, b)
    ensures !ShareLink(a, b) && ShouldMerge(sqrt, c, a, b)
            ==> && b.createdAt - c.mergeTimeWindowMs <= a.createdAt <= b.createdAt + c.mergeTimeWindowMs
                && Cosine(sqrt, a.embedding, b.embedding) >= c.duplicateSimilarityThreshold
    ensures IsSqrt(sqrt) && a.embedding == b.embedding && (exists i | 0 <= i < |a.embedding| :: a.embedding[i] != 0.0)
            && c.duplicateSimilarityThreshold <= 1.0
            && b.createdAt - c.mergeTimeWindowMs <= a.createdAt <= b.createdAt + c.mergeTimeWindowMs
            ==> ShouldMerge(sqrt, c, a, b)
    ensures Cosine(sqrt, a.embedding, b.embedding) >= c.duplicateSimilarityThreshold
            && b.createdAt - c.mergeTimeWindowMs <= a.createdAt <= b.createdAt + c.mergeTimeWindowMs
            ==> ShouldMerge(sqrt, c, a, b)
  {
    if IsSqrt(sqrt) { CosineWithItself(sqrt, a.embedding); }
  }

  // ---------- the canonical member ----------

  predicate Starred(item: Item) {
    item.sourceType == "github_star"
  }

  /** The comparator of the canonical sort is at most zero. */
  function Preferred(): (Item, Item) -> bool {
    (a: Item, b: Item) =>
      if Starred(a) && !Starred(b) then true
      else if !Starred(a) && Starred(b) then false
      else a.createdAt <= b.createdAt
  }

  function CanonicalInput(cluster: seq<Item>): Item
    requires cluster != []
  {
    SortPermutes(cluster, Preferred());
    Sort(cluster, Preferred())[0]
  }

  /** `i` is the first position whose item is preferred to all others. */
  ghost predicate FirstBest(cluster: seq<Item>, i: nat) {
    && i < |cluster|
    && (forall j | 0 <= j < |cluster| :: Preferred()(cluster[i], cluster[j]))
    && (forall j | 0 <= j < i :: !Preferred()(cluster[j], cluster[i]))
  }

  /**
    The canonical member is the first in input order among the best: a starred repository if there is one, and
    the earliest among its kind.
   */
  lemma {:induction false} CanonicalIsFirstBest(cluster: seq<Item>) returns (i: nat)
    requires cluster != []
    ensures FirstBest(cluster, i) && CanonicalInput(cluster) == cluster[i]
  {
    SortPermutes(cluster, Preferred());
    if |cluster| == 1 {
      assert cluster[1..] == [];
      i := 0;
    } else {
      var rest := cluster[1..];
      SortPermutes(rest, Preferred());
      var k := CanonicalIsFirstBest(rest);
      assert forall j | 1 <= j < |cluster| :: cluster[j] == rest[j - 1];
      i := if Preferred()(cluster[0], rest[k]) then 0 else k + 1;
    }
  }

  /** In words of the source: a starred repository stands for its cluster if there is one, else the earliest input. */
  lemma CanonicalIsBest(cluster: seq<Item>)
    requires cluster != []
    ensures var best := CanonicalInput(cluster);
            && best in cluster
            && ((exists x <- cluster :: x.sourceType == "github_star") <==> best.sourceType == "github_star")
            && (forall x <- cluster | (x.sourceType == "github_star" <==> best.sourceType == "github_star") ::
                  best.createdAt <= x.createdAt)
  {
    var i := CanonicalIsFirstBest(cluster);
    forall x | x in cluster ensures Preferred()(cluster[i], x) {
      var j :| 0 <= j < |cluster| && cluster[j] == x;
    }
  }

  // ---------- canonical items ----------

  function Ids(items: seq<Item>): seq<string> {
    if items == [] then [] else Ids(items[..|items| - 1]) + [items[|items| - 1].id]
  }

  /** The ids of the members other than the one named. */
  function OtherIds(items: seq<Item>, id: string): seq<string> {
    if items == [] then []
    else
      var before, last := OtherIds(items[..|items| - 1], id), items[|items| - 1];
      if last.id != id then before + [last.id] else before
  }

  /** `Array.from(new Set(s))`. */
  function Distinct<T(==,!new)>(s: seq<T>): (r: seq<T>)
    ensures forall x :: x in r <==> x in s
    ensures forall i, j | 0 <= i < j < |r| :: r[i] != r[j]
  {
    if s == [] then []
    else
      var before, last := Distinct(s[..|s| - 1]), s[|s| - 1];
      assert s == s[..|s| - 1] + [last];
      if last in before then before else before + [last]
  }

  function DuplicateLinks(cluster: seq<Item>): seq<string>
    requires cluster != []
  {
    OtherIds(cluster, CanonicalInput(cluster).id)
  }

  /** Everything a canonical item names: its own input and its duplicates. */
  function Named(cluster: seq<Item>): seq<string>
    requires cluster != []
  {
    [CanonicalInput(cluster).id] + DuplicateLinks(cluster)
  }

  function Copies(items: seq<Item>, id: string): nat {
    if items == [] then 0
    else Copies(items[..|items| - 1], id) + (if items[|items| - 1].id == id then 1 else 0)
  }

  lemma {:induction false} OthersAndCopies(items: seq<Item>, id: string)
    ensures |OtherIds(items, id)| + Copies(items, id) == |items|
    ensures multiset(Ids(items)) == multiset(OtherIds(items, id))[id := Copies(items, id)]
  {
    if items != [] {
      var n := |items| - 1;
      OthersAndCopies(items[..n], id);
    }
  }

  lemma {:induction false} CopiesOfMember(items: seq<Item>, i: nat)
    requires i < |items|
    ensures Copies(items, items[i].id) > 0
  {
    var n := |items| - 1;
    if i < n {
      assert items[..n][i] == items[i];
      CopiesOfMember(items[..n], i);
    }
  }

  /** A canonical item names its whole cluster exactly when no other member shares the canonical id. */
  lemma NamedIff(cluster: seq<Item>)
    requires cluster != []
    ensures |Named(cluster)| <= |cluster|
    ensures |Named(cluster)| == |cluster| <==> Copies(cluster, CanonicalInput(cluster).id) == 1
    ensures multiset(Named(cluster)) == multiset(Ids(cluster))
            <==> Copies(cluster, CanonicalInput(cluster).id) == 1
  {
    var i := CanonicalIsFirstBest(cluster);
    var id := CanonicalInput(cluster).id;
    OthersAndCopies(cluster, id);
    CopiesOfMember(cluster, i);
    OtherIdsExclude(cluster, id);
    var others, named, ids := OtherIds(cluster, id), Named(cluster), Ids(cluster);
    assert multiset(named) == multiset{id} + multiset(others);
    assert multiset(others)[id] == 0;
    assert multiset(named) == multiset(others)[id := 1];
    assert multiset(named)[id] == 1 && multiset(ids)[id] == Copies(cluster, id);
  }

  lemma {:induction false} OtherIdsExclude(items: seq<Item>, id: string)
    ensures id !in OtherIds(items, id)
  {
    if items != [] { OtherIdsExclude(items[..|items| - 1], id); }
  }

  // ---------- all clusters together ----------

  predicate NonEmpty(clusters: seq<seq<Item>>) {
    forall c | 0 <= c < |clusters| :: clusters[c] != []
  }

  /** Everything the canonical items name, in order. */
  function AllNamed(clusters: seq<seq<Item>>): seq<string>
    requires NonEmpty(clusters)
  {
    if clusters == [] then []
    else AllNamed(clusters[..|clusters| - 1]) + Named(clusters[|clusters| - 1])
  }

  function AllIds(clusters: seq<seq<Item>>): seq<string> {
    if clusters == [] then [] else AllIds(clusters[..|clusters| - 1]) + Ids(clusters[|clusters| - 1])
  }

  /** No canonical id is shared inside its cluster. */
  predicate Clear(clusters: seq<seq<Item>>)
    requires NonEmpty(clusters)
  {
    forall c | 0 <= c < |clusters| :: Copies(clusters[c], CanonicalInput(clusters[c]).id) == 1
  }

  lemma {:induction false} IdsLength(items: seq<Item>)
    ensures |Ids(items)| == |items|
    ensures forall i | 0 <= i < |items| :: Ids(items)[i] == items[i].id
  {
    if items != [] { IdsLength(items[..|items| - 1]); }
  }

  lemma {:induction false} AllNamedIff(clusters: seq<seq<Item>>)
    requires NonEmpty(clusters)
    ensures |AllNamed(clusters)| <= |AllIds(clusters)|
    ensures |AllNamed(clusters)| == |AllIds(clusters)| <==> Clear(clusters)
    ensures Clear(clusters) ==> multiset(AllNamed(clusters)) == multiset(AllIds(clusters))
  {
    if clusters != [] {
      var n := |clusters| - 1;
      AllNamedIff(clusters[..n]);
      NamedIff(clusters[n]);
      IdsLength(clusters[n]);
      ClearSplit(clusters);
    }
  }

  lemma ClearSplit(clusters: seq<seq<Item>>)
    requires NonEmpty(clusters) && clusters != []
    ensures var n := |clusters| - 1;
            Clear(clusters)
            <==> Clear(clusters[..n]) && Copies(clusters[n], CanonicalInput(clusters[n]).id) == 1
  {
    var n := |clusters| - 1;
    assert forall c | 0 <= c < n :: clusters[..n][c] == clusters[c];
  }

  lemma IdsPush(items: seq<Item>, x: Item)
    ensures Ids(items + [x]) == Ids(items) + [x.id]
  {
    assert (items + [x])[..|items|] == items;
  }

  lemma {:induction false} AllIdsUpdate(clusters: seq<seq<Item>>, c: nat, x: Item)
    requires c < |clusters|
    ensures multiset(AllIds(clusters[c := clusters[c] + [x]])) == multiset(AllIds(clusters)) + multiset{x.id}
  {
    var n := |clusters| - 1;
    var next := clusters[c := clusters[c] + [x]];
    if c == n {
      assert next[..n] == clusters[..n];
      IdsPush(clusters[n], x);
    } else {
      assert next[..n] == clusters[..n][c := clusters[..n][c] + [x]];
      AllIdsUpdate(clusters[..n], c, x);
    }
  }

  lemma AllIdsPlace(clusters: seq<seq<Item>>, c: nat, x: Item)
    requires c <= |clusters|
    ensures multiset(AllIds(Place(clusters, c, x))) == multiset(AllIds(clusters)) + multiset{x.id}
  {
    if c < |clusters| {
      AllIdsUpdate(clusters, c, x);
    } else {
      assert (clusters + [[x]])[..|clusters|] == clusters;
      assert Ids([x]) == [x.id];
    }
  }

  function Merged(inputs: seq<Item>, n: nat, merges: (Item, Item) -> bool): seq<seq<Item>>
    requires n <= |inputs|
  {
    PickAll(inputs, Clusters(inputs, n, merges))
  }

  lemma MergedStep(inputs: seq<Item>, n: nat, merges: (Item, Item) -> bool) returns (c: nat)
    requires 0 < n <= |inputs|
    ensures c <= |Merged(inputs, n - 1, merges)|
    ensures Merged(inputs, n, merges) == Place(Merged(inputs, n - 1, merges), c, inputs[n - 1])
  {
    c := FirstMatch(Merged(inputs, n - 1, merges), inputs[n - 1], merges);
    PickPlace(inputs, Clusters(inputs, n - 1, merges), c, n - 1);
  }

  lemma PlacedIds(inputs: seq<Item>, n: nat, before: seq<seq<Item>>, c: nat)
    requires 0 < n <= |inputs| && c <= |before|
    requires multiset(AllIds(before)) == multiset(Ids(inputs[..n - 1]))
    ensures multiset(AllIds(Place(before, c, inputs[n - 1]))) == multiset(Ids(inputs[..n]))
  {
    AllIdsPlace(before, c, inputs[n - 1]);
    IdsPrefix(inputs, n);
  }

  lemma IdsPrefix(inputs: seq<Item>, n: nat)
    requires 0 < n <= |inputs|
    ensures multiset(Ids(inputs[..n])) == multiset(Ids(inputs[..n - 1])) + multiset{inputs[n - 1].id}
  {
    assert inputs[..n] == inputs[..n - 1] + [inputs[n - 1]];
    IdsPush(inputs[..n - 1], inputs[n - 1]);
  }

  lemma {:induction false} MergedIds(inputs: seq<Item>, n: nat, merges: (Item, Item) -> bool)
    requires n <= |inputs|
    ensures multiset(AllIds(Merged(inputs, n, merges))) == multiset(Ids(inputs[..n]))
  {
    if n > 0 {
      MergedIds(inputs, n - 1, merges);
      var c := MergedStep(inputs, n, merges);
      PlacedIds(inputs, n, Merged(inputs, n - 1, merges), c);
    }
  }

  lemma MergedNonEmpty(inputs: seq<Item>, merges: (Item, Item) -> bool)
    ensures NonEmpty(Merged(inputs, |inputs|, merges))
  {
    ClustersGreedy(inputs, |inputs|, merges);
    var cs := Clusters(inputs, |inputs|, merges);
    assert forall c | 0 <= c < |cs| :: cs[c] != [];
  }

  /**
    Whatever the merge relation, the canonical items together name at most as many inputs as there are, and all of
    them exactly when no cluster has a second member under its canonical id.
   */
  lemma NamedCountIff(inputs: seq<Item>, merges: (Item, Item) -> bool)
    requires NonEmpty(Merged(inputs, |inputs|, merges))
    ensures var clusters := Merged(inputs, |inputs|, merges);
            && |AllNamed(clusters)| <= |inputs|
            && (|AllNamed(clusters)| == |inputs| <==> Clear(clusters))
            && (Clear(clusters) ==> multiset(AllNamed(clusters)) == multiset(Ids(inputs)))
  {
    var clusters := Merged(inputs, |inputs|, merges);
    AllNamedIff(clusters);
    MergedIds(inputs, |inputs|, merges);
    assert inputs[..|inputs|] == inputs;
    IdsLength(inputs);
    assert |multiset(AllIds(clusters))| == |multiset(Ids(inputs))|;
  }

  // ---------- distinct ids ----------

  ghost predicate DistinctIds(inputs: seq<Item>) {
    forall i, j | 0 <= i < j < |inputs| :: inputs[i].id != inputs[j].id
  }

  lemma {:induction false} CopiesAtMostOne(items: seq<Item>, id: string)
    requires DistinctIds(items)
    ensures Copies(items, id) <= 1
    ensures Copies(items, id) > 0 ==> exists i | 0 <= i < |items| :: items[i].id == id
  {
    if items != [] {
      var n := |items| - 1;
      CopiesAtMostOne(items[..n], id);
      if Copies(items[..n], id) > 0 {
        var i :| 0 <= i < n && items[..n][i].id == id;
        assert items[i].id == id;
      }
    }
  }

  lemma DistinctPick(inputs: seq<Item>, cluster: Cluster)
    requires DistinctIds(inputs) && Increasing(cluster)
    requires forall j | 0 <= j < |cluster| :: cluster[j] < |inputs|
    ensures DistinctIds(Pick(inputs, cluster))
  {
    forall i, j | 0 <= i < j < |cluster| ensures Pick(inputs, cluster)[i].id != Pick(inputs, cluster)[j].id {
      assert cluster[i] < cluster[j];
    }
  }

  lemma MergedClear(inputs: seq<Item>, merges: (Item, Item) -> bool)
    requires DistinctIds(inputs) && NonEmpty(Merged(inputs, |inputs|, merges))
    ensures Clear(Merged(inputs, |inputs|, merges))
  {
    ClustersGreedy(inputs, |inputs|, merges);
    var cs, clusters := Clusters(inputs, |inputs|, merges), Merged(inputs, |inputs|, merges);
    forall c | 0 <= c < |clusters| ensures Copies(clusters[c], CanonicalInput(clusters[c]).id) == 1 {
      DistinctPick(inputs, cs[c]);
      var i := CanonicalIsFirstBest(clusters[c]);
      CopiesOfMember(clusters[c], i);
      CopiesAtMostOne(clusters[c], CanonicalInput(clusters[c]).id);
    }
  }

  function ClusterId(id: string): string {
    "cluster:" + id
  }

  lemma ClusterIdInjective(x: string, y: string)
    requires ClusterId(x) == ClusterId(y)
    ensures x == y
  {
    assert x == ClusterId(x)[8..] && y == ClusterId(y)[8..];
  }

  /** Two clusters never have canonical items with one id. */
  lemma CanonicalIdsDistinct(inputs: seq<Item>, merges: (Item, Item) -> bool, c: nat, d: nat)
    requires DistinctIds(inputs) && NonEmpty(Merged(inputs, |inputs|, merges))
    requires c < d < |Merged(inputs, |inputs|, merges)|
    ensures var clusters := Merged(inputs, |inputs|, merges);
            ClusterId(CanonicalInput(clusters[c]).id) != ClusterId(CanonicalInput(clusters[d]).id)
  {
    ClustersGreedy(inputs, |inputs|, merges);
    var cs, clusters := Clusters(inputs, |inputs|, merges), Merged(inputs, |inputs|, merges);
    var i := CanonicalIsFirstBest(clusters[c]);
    var j := CanonicalIsFirstBest(clusters[d]);
    PartitionDisjoint(cs, |inputs|, c, d, cs[c][i]);
    assert cs[c][i] != cs[d][j];
    if ClusterId(inputs[cs[c][i]].id) == ClusterId(inputs[cs[d][j]].id) {
      ClusterIdInjective(inputs[cs[c][i]].id, inputs[cs[d][j]].id);
    }
  }
}
