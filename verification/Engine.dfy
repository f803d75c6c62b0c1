/** The hopper engine: merging, ranking through the filter, display, judgments, snapshots. */
module Engine {
  import opened Prelude
  import opened Sorting
  import opened Vectors
  import opened Clustering
  import opened Hopper
  import opened Filter
  import opened FilterRuns
  import opened Memory

  datatype EngineConfig = EngineConfig(
    merge: MergeConfig,
    maxDisplayItems: int,
    shortMemoryHalfLifeMs: real,
    longMemoryHalfLifeMs: real,
    maxRejectMemories: int,
    maxOpenMemories: int)

  /** Everything that stays fixed while an engine runs. */
  datatype Env = Env(sqrt: real -> real, decay: Decay, text: TextLib, filter: Config, engine: EngineConfig)

  /** Summaries and topics of a text, which regular expressions extract. */
  datatype TextLib = TextLib(summarize: string -> seq<string>, topics: string -> seq<string>)

  // ---------- understanding raw inputs ----------

  datatype RawInput = RawInput(
    id: string,
    title: string,
    body: Option<string>,
    sourceType: string,
    projectId: Option<string>,
    url: Option<string>,
    repo: Option<string>,
    tags: Option<seq<string>>,
    embedding: Vector,
    createdAt: real,
    sourcePrior: Option<real>)

  /** The non-empty ones of title and body, joined by a space. */
  function TextOf(raw: RawInput): string {
    if !Truthy(raw.body) then raw.title
    else if raw.title == "" then raw.body.value
    else raw.title + " " + raw.body.value
  }

  function Understood(env: Env, raw: RawInput): Item {
    Item(raw.id, raw.sourceType, raw.projectId, raw.url, raw.repo, NormalizeVector(env.sqrt, raw.embedding),
         raw.createdAt, raw.sourcePrior, env.text.summarize(TextOf(raw)),
         Distinct(OrElse(raw.tags, []) + env.text.topics(TextOf(raw))))
  }

  function AllUnderstood(env: Env, raws: seq<RawInput>): (items: seq<Item>)
    ensures |items| == |raws| && forall i | 0 <= i < |raws| :: items[i] == Understood(env, raws[i])
  {
    seq(|raws|, i requires 0 <= i < |raws| => Understood(env, raws[i]))
  }

  /** Understanding keeps what an input is and where it is from, and knows its tags and extracted topics, each once. */
  lemma UnderstoodTells(env: Env, raw: RawInput, topic: string)
    ensures var item := Understood(env, raw);
            && item.id == raw.id && item.sourceType == raw.sourceType && item.projectId == raw.projectId
            && item.url == raw.url && item.repo == raw.repo && item.createdAt == raw.createdAt
            && item.sourcePrior == raw.sourcePrior
            && (topic in item.semanticTopics
                <==> topic in env.text.topics(TextOf(raw)) || (raw.tags.Some? && topic in raw.tags.value))
            && (forall i, j | 0 <= i < j < |item.semanticTopics| :: item.semanticTopics[i] != item.semanticTopics[j])
            && item.summary == env.text.summarize(TextOf(raw))
  {
    var all := OrElse(raw.tags, []) + env.text.topics(TextOf(raw));
    assert topic in all <==> topic in OrElse(raw.tags, []) || topic in env.text.topics(TextOf(raw));
  }

  /** Understanding keeps ids, so distinct raw ids are all that the merging needs. */
  lemma UnderstoodDistinct(env: Env, raws: seq<RawInput>)
    ensures DistinctIds(AllUnderstood(env, raws))
       <==> forall i, j | 0 <= i < j < |raws| :: raws[i].id != raws[j].id
  {
    var items := AllUnderstood(env, raws);
    assert forall i | 0 <= i < |raws| :: items[i].id == raws[i].id;
  }

  /** Whether two inputs merge does not depend on the normalization that understanding applies. */
  lemma MergesOnRaw(env: Env, a: RawInput, b: RawInput)
    requires IsSqrt(env.sqrt)
    ensures ShouldMerge(env.sqrt, env.engine.merge, Understood(env, a), Understood(env, b))
         == ShouldMerge(env.sqrt, env.engine.merge, Understood(env, a).(embedding := a.embedding),
                        Understood(env, b).(embedding := b.embedding))
  {
    CosineOfNormalized(env.sqrt, a.embedding, NormalizeVector(env.sqrt, b.embedding));
    CosineOfNormalized(env.sqrt, a.embedding, b.embedding);
  }

  // ---------- canonical items ----------

  datatype Canonical = Canonical(
    id: string,
    canonicalInput: Item,
    sourceType: string,
    projectId: Option<string>,
    embedding: Vector,
    summary: seq<string>,
    tags: seq<string>,
    duplicateLinks: seq<string>,
    sourceTypes: seq<string>,
    multimodalConfidence: real,
    createdAt: real)

  function Embeddings(cluster: seq<Item>): seq<Weighted> {
    seq(|cluster|, i requires 0 <= i < |cluster| => Weighted(cluster[i].embedding, 1.0))
  }

  function SourceTypes(cluster: seq<Item>): seq<string> {
    Distinct(seq(|cluster|, i requires 0 <= i < |cluster| => cluster[i].sourceType))
  }

  function Summaries(cluster: seq<Item>): seq<string> {
    if cluster == [] then [] else Summaries(cluster[..|cluster| - 1]) + cluster[|cluster| - 1].summary
  }

  function Topics(cluster: seq<Item>): seq<string> {
    if cluster == [] then [] else Topics(cluster[..|cluster| - 1]) + cluster[|cluster| - 1].semanticTopics
  }

  function Earliest(cluster: seq<Item>): real
    requires cluster != []
  {
    if |cluster| == 1 then cluster[0].createdAt
    else Min(Earliest(cluster[..|cluster| - 1]), cluster[|cluster| - 1].createdAt)
  }

  function MultimodalConfidence(cluster: seq<Item>): real {
    var duplicateBoost := Min(0.4, (|cluster| - 1) as real * 0.12);
    var sourceBoost := Min(0.3, (|SourceTypes(cluster)| - 1) as real * 0.15);
    Clamp01(0.35 + duplicateBoost + sourceBoost)
  }

  function FirstFew<T>(s: seq<T>, n: nat): seq<T> {
    if |s| <= n then s else s[..n]
  }

  function ToCanonical(sqrt: real -> real, cluster: seq<Item>): Canonical
    requires cluster != []
  {
    var input := CanonicalInput(cluster);
    Canonical(
      ClusterId(input.id),
      input,
      input.sourceType,
      input.projectId,
      OrElse(WeightedAverage(sqrt, Embeddings(cluster)), []),
      FirstFew(Distinct(Summaries(cluster)), 3),
      Distinct(Topics(cluster)),
      DuplicateLinks(cluster),
      SourceTypes(cluster),
      MultimodalConfidence(cluster),
      Earliest(cluster))
  }

  function Merges(env: Env): (Item, Item) -> bool {
    (a: Item, b: Item) => ShouldMerge(env.sqrt, env.engine.merge, a, b)
  }

  function CanonicalItems(env: Env, inputs: seq<Item>): (items: seq<Canonical>)
    ensures |items| == |Clusters(inputs, |inputs|, Merges(env))|
  {
    var clusters := Merged(inputs, |inputs|, Merges(env));
    MergedNonEmpty(inputs, Merges(env));
    seq(|clusters|, c requires 0 <= c < |clusters| => ToCanonical(env.sqrt, clusters[c]))
  }

  /** A canonical item's own time is the earliest of its cluster. */
  lemma {:induction false} EarliestIs(cluster: seq<Item>)
    requires cluster != []
    ensures forall x <- cluster :: Earliest(cluster) <= x.createdAt
    ensures exists x <- cluster :: Earliest(cluster) == x.createdAt
  {
    var n := |cluster| - 1;
    assert cluster == cluster[..n] + [cluster[n]];
    if n == 0 {
      assert cluster[0] in cluster;
    } else {
      EarliestIs(cluster[..n]);
      var x :| x in cluster[..n] && Earliest(cluster[..n]) == x.createdAt;
      assert x in cluster && cluster[n] in cluster;
    }
  }

  lemma {:induction false} TopicsAre(cluster: seq<Item>, topic: string)
    ensures topic in Topics(cluster) <==> exists x <- cluster :: topic in x.semanticTopics
    ensures topic in Summaries(cluster) <==> exists x <- cluster :: topic in x.summary
  {
    if cluster != [] {
      var n := |cluster| - 1;
      assert cluster == cluster[..n] + [cluster[n]];
      TopicsAre(cluster[..n], topic);
    }
  }

  lemma SourceTypesAre(cluster: seq<Item>, source: string)
    ensures source in SourceTypes(cluster) <==> exists x <- cluster :: x.sourceType == source
  {
    var types := seq(|cluster|, i requires 0 <= i < |cluster| => cluster[i].sourceType);
    if source in SourceTypes(cluster) {
      var i :| 0 <= i < |types| && types[i] == source;
      assert cluster[i] in cluster;
    }
    if x :| x in cluster && x.sourceType == source {
      var i :| 0 <= i < |cluster| && cluster[i] == x;
      assert types[i] == source;
    }
  }

  /**
    What a canonical item says of its cluster: source and project of its canonical member, every topic and source of
    the cluster once and no other, at most three of its summaries, and its earliest time.
   */
  lemma CanonicalTells(sqrt: real -> real, cluster: seq<Item>, word: string)
    requires cluster != []
    ensures var item := ToCanonical(sqrt, cluster);
            && item.sourceType == CanonicalInput(cluster).sourceType
            && item.projectId == CanonicalInput(cluster).projectId
            && item.id == "cluster:" + CanonicalInput(cluster).id
            && (word in item.tags <==> exists x <- cluster :: word in x.semanticTopics)
            && (word in item.sourceTypes <==> exists x <- cluster :: x.sourceType == word)
            && (word in item.summary ==> exists x <- cluster :: word in x.summary)
            && |item.summary| <= 3
            && (|item.summary| < 3 ==> (word in item.summary <==> exists x <- cluster :: word in x.summary))
            && (forall i, j | 0 <= i < j < |item.tags| :: item.tags[i] != item.tags[j])
            && (forall i, j | 0 <= i < j < |item.sourceTypes| :: item.sourceTypes[i] != item.sourceTypes[j])
            && (forall x <- cluster :: item.createdAt <= x.createdAt)
            && (exists x <- cluster :: item.createdAt == x.createdAt)
  {
    EarliestIs(cluster);
    TopicsAre(cluster, word);
    SourceTypesAre(cluster, word);
  }

  /** The sum of the members' embeddings, component by component. */
  function EmbeddingSum(cluster: seq<Item>, dimensions: nat): (r: Vector)
    requires forall x <- cluster :: |x.embedding| == dimensions
    ensures |r| == dimensions
  {
    if cluster == [] then seq(dimensions, _ => 0.0)
    else
      var n := |cluster| - 1;
      assert cluster[n] in cluster && forall x <- cluster[..n] :: x in cluster;
      var before := EmbeddingSum(cluster[..n], dimensions);
      seq(dimensions, i requires 0 <= i < dimensions => before[i] + cluster[n].embedding[i])
  }

  lemma EmbeddingsPrefix(cluster: seq<Item>)
    requires cluster != []
    ensures var n := |cluster| - 1;
            Embeddings(cluster)[..n] == Embeddings(cluster[..n])
            && Embeddings(cluster)[n] == Weighted(cluster[n].embedding, 1.0)
  {
  }

  lemma UnitAdded(v: Vector, e: Vector)
    requires |v| == |e|
    ensures Added(v, Weighted(e, 1.0)) == seq(|v|, i requires 0 <= i < |v| => v[i] + e[i])
  {
  }

  lemma {:induction false} AllValid(cluster: seq<Item>)
    requires forall x <- cluster :: x.embedding != []
    ensures Valid(Embeddings(cluster)) == Embeddings(cluster)
  {
    if cluster != [] {
      var n := |cluster| - 1;
      assert cluster[n] in cluster && forall x <- cluster[..n] :: x in cluster;
      AllValid(cluster[..n]);
      EmbeddingsPrefix(cluster);
    }
  }

  lemma {:induction false} UnitTotals(cluster: seq<Item>, dimensions: nat)
    requires forall x <- cluster :: |x.embedding| == dimensions
    ensures Totals(Embeddings(cluster), dimensions) == EmbeddingSum(cluster, dimensions)
    ensures TotalWeight(Embeddings(cluster), dimensions) == |cluster| as real
  {
    if cluster != [] {
      var n := |cluster| - 1;
      assert cluster[n] in cluster && forall x <- cluster[..n] :: x in cluster;
      UnitTotals(cluster[..n], dimensions);
      EmbeddingsPrefix(cluster);
      UnitAdded(EmbeddingSum(cluster[..n], dimensions), cluster[n].embedding);
    }
  }

  /** Items of one dimension: the canonical embedding points where the sum of the members' embeddings points. */
  lemma EmbeddingIsMeanDirection(sqrt: real -> real, cluster: seq<Item>, dimensions: nat)
    requires IsSqrt(sqrt) && cluster != [] && dimensions > 0 && forall x <- cluster :: |x.embedding| == dimensions
    requires Norm2(EmbeddingSum(cluster, dimensions)) != 0.0
    ensures ToCanonical(sqrt, cluster).embedding == NormalizeVector(sqrt, EmbeddingSum(cluster, dimensions))
  {
    AllValid(cluster);
    UnitTotals(cluster, dimensions);
    assert cluster[0] in cluster;
    assert |Embeddings(cluster)[0].vector| == dimensions;
    var sum, n := EmbeddingSum(cluster, dimensions), |cluster| as real;
    DividedIsScaled(sum, n);
    NormalizeScaled(sqrt, 1.0 / n, sum);
  }

  lemma DividedIsScaled(v: Vector, n: real)
    requires n > 0.0
    ensures 1.0 / n > 0.0 && Divided(v, n) == Scale(1.0 / n, v)
  {
    assert (1.0 / n) * n == 1.0;
    forall i | 0 <= i < |v| ensures Divided(v, n)[i] == Scale(1.0 / n, v)[i] {
      DivisionIsScaling(v[i], n);
    }
  }

  /** A lone input has confidence 0.35; each duplicate adds 0.12 up to 0.4 and each further source 0.15 up to 0.3. */
  lemma ConfidenceIs(cluster: seq<Item>)
    requires cluster != []
    ensures var extra, sources := |cluster| - 1, |SourceTypes(cluster)| - 1;
            && sources >= 0
            && 0.35 <= MultimodalConfidence(cluster) <= 1.0
            && (extra == 0 && sources == 0 ==> MultimodalConfidence(cluster) == 0.35)
            && (extra <= 3 && sources <= 1
                ==> MultimodalConfidence(cluster) == 0.35 + extra as real * 0.12 + sources as real * 0.15)
            && (extra >= 4 && sources >= 2 ==> MultimodalConfidence(cluster) == 1.0)
  {
    SourceTypesAre(cluster, cluster[0].sourceType);
    assert cluster[0] in cluster;
    assert |SourceTypes(cluster)| > 0;
  }

  // ---------- filter inputs ----------

  datatype EngineMemories = EngineMemories(
    short: Option<Vector>, work: Option<Vector>, long: Option<Vector>,
    reject: Filter.Memory, open: Filter.Memory, logs: seq<Log>)

  function AtLeast(): (real, real) -> bool {
    (x: real, y: real) => y <= x
  }

  function Similarities(sqrt: real -> real, items: seq<Canonical>, item: Canonical): seq<real> {
    if items == [] then []
    else
      var before, last := Similarities(sqrt, items[..|items| - 1], item), items[|items| - 1];
      if last.id != item.id then before + [Cosine(sqrt, item.embedding, last.embedding)] else before
  }

  /** The last item under an id is the one whose neighbours stay in the map. */
  function LastWithId(items: seq<Canonical>, item: Canonical): Canonical {
    if items == [] then item
    else if items[|items| - 1].id == item.id then items[|items| - 1]
    else LastWithId(items[..|items| - 1], item)
  }

  function NearestNeighbors(sqrt: real -> real, items: seq<Canonical>, item: Canonical): seq<real> {
    FirstFew(Sort(Similarities(sqrt, items, LastWithId(items, item)), AtLeast()), 10)
  }

  function ActionWeight(log: Log): real {
    (match log.action case Keep => 0.75 case Open => 0.42 case Discard => -0.35)
    + Min(0.15, OrElse(log.revisitCount, 0.0) * 0.03)
    + (if Downstream(log) then 0.18 else 0.0)
  }

  function Related(sqrt: real -> real, item: Canonical, logs: seq<Log>): seq<Log> {
    if logs == [] then []
    else
      var before, last := Related(sqrt, item, logs[..|logs| - 1]), logs[|logs| - 1];
      if last.projectId == item.projectId && Cosine(sqrt, last.embedding, item.embedding) >= 0.86
      then before + [last] else before
  }

  function ActionTotal(logs: seq<Log>): real {
    if logs == [] then 0.0 else ActionTotal(logs[..|logs| - 1]) + ActionWeight(logs[|logs| - 1])
  }

  function BehaviorPrior(sqrt: real -> real, item: Canonical, logs: seq<Log>): real {
    var related := Related(sqrt, item, logs);
    if related == [] then 0.0 else Clamp01(ActionTotal(related) / |related| as real)
  }

  function FilterInput(sqrt: real -> real, m: EngineMemories, items: seq<Canonical>, item: Canonical): Input {
    Input(item.id, item.embedding, item.sourceType, item.projectId,
          Memories(m.short, m.work, m.long, m.reject, m.open),
          NearestNeighbors(sqrt, items, item),
          Some(item.multimodalConfidence),
          Some(BehaviorPrior(sqrt, item, m.logs)),
          item.canonicalInput.sourcePrior,
          Some(item.createdAt), None, None)
  }

  lemma {:induction false} SimilaritiesAre(sqrt: real -> real, items: seq<Canonical>, item: Canonical, x: real)
    ensures x in Similarities(sqrt, items, item)
       <==> exists other <- items :: other.id != item.id && x == Cosine(sqrt, item.embedding, other.embedding)
  {
    if items != [] {
      var n := |items| - 1;
      assert items == items[..n] + [items[n]];
      SimilaritiesAre(sqrt, items[..n], item, x);
    }
  }

  lemma {:induction false} OneWithId(items: seq<Canonical>, item: Canonical)
    requires item in items && forall other <- items :: other.id == item.id ==> other == item
    ensures LastWithId(items, item) == item
  {
    var n := |items| - 1;
    assert items == items[..n] + [items[n]];
    assert items[n] in items && forall x <- items[..n] :: x in items;
    if items[n].id != item.id { OneWithId(items[..n], item); }
  }

  /** For items with distinct ids, the neighbours are the ten largest similarities to the other items. */
  lemma NeighborsAreTheClosest(sqrt: real -> real, items: seq<Canonical>, item: Canonical) returns (others: seq<real>)
    requires item in items && forall other <- items :: other.id == item.id ==> other == item
    ensures var near, all := NearestNeighbors(sqrt, items, item), Similarities(sqrt, items, item);
            && multiset(near) + multiset(others) == multiset(all)
            && |near| <= 10 && (others != [] ==> |near| == 10)
            && Sorted(near, AtLeast())
            && forall x, y | x in near && y in others :: y <= x
  {
    var all := Similarities(sqrt, items, item);
    var sorted, near := Sort(all, AtLeast()), NearestNeighbors(sqrt, items, item);
    OneWithId(items, item);
    SortPermutes(all, AtLeast());
    SortSorts(all, AtLeast());
    others := sorted[|near|..];
    assert sorted == near + others;
    assert forall i | 0 <= i < |near| :: sorted[i] == near[i];
    forall x, y | x in near && y in others ensures y <= x {
      var i :| 0 <= i < |near| && near[i] == x;
      var j :| 0 <= j < |others| && others[j] == y;
      assert sorted[|near| + j] == y;
      assert AtLeast()(sorted[i], sorted[|near| + j]);
    }
  }

  /** Keeping says more than opening, opening more than discarding; revisits and further work add to each. */
  lemma ActionsRanked(log: Log, more: Log)
    ensures log.action == Discard ==> ActionWeight(log) < 0.0
    ensures log.action == Keep && OrElse(log.revisitCount, 0.0) >= 0.0 ==> ActionWeight(log) >= 0.75
    ensures more == log.(action := Keep) && log.action == Open ==> ActionWeight(log) < ActionWeight(more)
    ensures more == log.(action := Open) && log.action == Discard ==> ActionWeight(log) < ActionWeight(more)
    ensures more == log.(revisitCount := more.revisitCount)
            && OrElse(log.revisitCount, 0.0) <= OrElse(more.revisitCount, 0.0)
            ==> ActionWeight(log) <= ActionWeight(more)
    ensures more == log.(downstreamAction := more.downstreamAction) && Downstream(more) && !Downstream(log)
            ==> ActionWeight(log) < ActionWeight(more)
  {
  }

  /** The log speaks for items like this one, in the same project. */
  predicate SpeaksFor(sqrt: real -> real, log: Log, item: Canonical) {
    log.projectId == item.projectId && Cosine(sqrt, log.embedding, item.embedding) >= 0.86
  }

  function Mean(total: real, n: nat): real
    requires n > 0
  {
    total / n as real
  }

  lemma MeanMoves(total: real, n: nat, w: real)
    requires n > 0
    ensures Mean(total, n) <= w ==> Mean(total, n) <= Mean(total + w, n + 1) <= w
    ensures Mean(total, n) >= w ==> Mean(total, n) >= Mean(total + w, n + 1) >= w
  {
    var m, k, k' := Mean(total, n), n as real, (n + 1) as real;
    var m' := Mean(total + w, n + 1);
    assert m * k == total && m' * k' == total + w && k' == k + 1.0;
    assert (m' - m) * k' == w - m;
    assert (w - m') * k' == (w - m) * k;
    SignOfProduct(m' - m, k', w - m);
    SignOfProduct(w - m', k', (w - m) * k);
    SignOfProduct(w - m, k, (w - m) * k);
  }

  lemma SignOfProduct(x: real, y: real, product: real)
    requires y > 0.0 && x * y == product
    ensures (x >= 0.0 <==> product >= 0.0) && (x <= 0.0 <==> product <= 0.0)
  {
    if x > 0.0 { ProductPositive(x, y); }
    if x < 0.0 { ProductPositive(-x, y); }
  }

  lemma RelatedStep(sqrt: real -> real, item: Canonical, logs: seq<Log>, log: Log)
    ensures Related(sqrt, item, logs + [log])
         == if SpeaksFor(sqrt, log, item) then Related(sqrt, item, logs) + [log] else Related(sqrt, item, logs)
  {
    assert (logs + [log])[..|logs|] == logs;
  }

  lemma TotalStep(logs: seq<Log>, log: Log)
    ensures ActionTotal(logs + [log]) == ActionTotal(logs) + ActionWeight(log)
  {
    assert (logs + [log])[..|logs|] == logs;
  }

  /**
    One more judgment: it says nothing of items it does not speak for; a discard never raises the prior, and a keep
    never lowers one that is at most 0.75.
   */
  lemma PriorAfterJudgment(sqrt: real -> real, item: Canonical, logs: seq<Log>, log: Log)
    ensures var before, after := BehaviorPrior(sqrt, item, logs), BehaviorPrior(sqrt, item, logs + [log]);
            && (!SpeaksFor(sqrt, log, item) ==> after == before)
            && (log.action == Discard ==> after <= before)
            && (log.action == Keep && OrElse(log.revisitCount, 0.0) >= 0.0 && before <= 0.75 ==> after >= before)
  {
    var related := Related(sqrt, item, logs);
    RelatedStep(sqrt, item, logs, log);
    ActionsRanked(log, log);
    if SpeaksFor(sqrt, log, item) {
      PriorStep(related, log);
    }
  }

  function PriorOf(related: seq<Log>): real {
    if related == [] then 0.0 else Clamp01(Mean(ActionTotal(related), |related|))
  }

  lemma PriorStep(related: seq<Log>, log: Log)
    ensures var w, before, after := ActionWeight(log), PriorOf(related), PriorOf(related + [log]);
            && (w < 0.0 ==> after <= before)
            && (w >= 0.75 && before <= 0.75 ==> after >= before)
  {
    var w := ActionWeight(log);
    TotalStep(related, log);
    if related == [] {
      assert ActionTotal(related) == 0.0;
      assert Mean(w, 1) == w;
    } else {
      MeanMoves(ActionTotal(related), |related|, w);
    }
  }

  // ---------- ranking ----------

  datatype Ranked = Ranked(item: Canonical, decision: Decision)

  function HigherScore(): (Ranked, Ranked) -> bool {
    (a: Ranked, b: Ranked) => b.decision.score <= a.decision.score
  }

  function RankInputs(sqrt: real -> real, m: EngineMemories, items: seq<Canonical>): (inputs: seq<Input>)
    ensures |inputs| == |items|
    ensures forall i | 0 <= i < |items| :: inputs[i] == FilterInput(sqrt, m, items, items[i])
  {
    seq(|items|, i requires 0 <= i < |items| => FilterInput(sqrt, m, items, items[i]))
  }

  function Paired(items: seq<Canonical>, decisions: seq<Decision>): (r: seq<Ranked>)
    requires |items| == |decisions|
    ensures |r| == |items| && forall i | 0 <= i < |items| :: r[i] == Ranked(items[i], decisions[i])
  {
    seq(|items|, i requires 0 <= i < |items| => Ranked(items[i], decisions[i]))
  }

  /** Every item with the decision that the filter makes for it, in the order of the items. */
  function Decided(env: Env, m: EngineMemories, scopes: Scopes, items: seq<Canonical>): seq<Ranked> {
    Paired(items, FedDecisions(env.sqrt, env.filter, scopes, RankInputs(env.sqrt, m, items)))
  }

  /** What the decision for an item reads: the item, the engine's memories, its closest neighbours and its judgments. */
  ghost predicate ReadsItem(env: Env, m: EngineMemories, items: seq<Canonical>, r: Ranked) {
    var item, d, s := r.item, r.decision, r.decision.components;
    && d.id == item.id && d.scopeKey == ScopeKey(item.sourceType, item.projectId)
    && s.workSimilarity == Similarity(env.sqrt, item.embedding, m.work)
    && s.shortSimilarity == Similarity(env.sqrt, item.embedding, m.short)
    && s.longSimilarity == Similarity(env.sqrt, item.embedding, m.long)
    && s.openSimilarity == MaxMemorySimilarity(env.sqrt, item.embedding, m.open)
    && s.rejectSimilarity == MaxMemorySimilarity(env.sqrt, item.embedding, m.reject)
    && s.duplicatePenalty == DuplicatePenalty(NearestNeighbors(env.sqrt, items, item), env.filter)
    && s.multimodalConfidence == Clamp01(item.multimodalConfidence)
    && s.behaviorPrior == BehaviorPrior(env.sqrt, item, m.logs)
    && s.sourcePrior == Clamp01(OrElse(item.canonicalInput.sourcePrior, SourcePrior(item.sourceType)))
  }

  lemma VerdictReadsItem(env: Env, m: EngineMemories, scopes: Scopes, items: seq<Canonical>, item: Canonical)
    ensures var input := FilterInput(env.sqrt, m, items, item);
            ReadsItem(env, m, items, Ranked(item, Verdict(env.sqrt, env.filter, scopes, input, 0.0)))
  {
  }

  /** Ranking decides every item, in order, on what the item and the engine say. */
  lemma DecidedReadsItems(env: Env, m: EngineMemories, scopes: Scopes, items: seq<Canonical>, i: nat)
    requires i < |items|
    ensures var r := Decided(env, m, scopes, items);
            |r| == |items| && r[i].item == items[i] && ReadsItem(env, m, items, r[i])
  {
    var inputs := RankInputs(env.sqrt, m, items);
    FedAt(env.sqrt, env.filter, scopes, inputs, i);
    VerdictReadsItem(env, m, Fed(env.sqrt, env.filter, scopes, inputs[..i]), items, items[i]);
  }

  function Accepted(ranked: seq<Ranked>): seq<Ranked> {
    if ranked == [] then []
    else
      var before, last := Accepted(ranked[..|ranked| - 1]), ranked[|ranked| - 1];
      if last.decision.accepted then before + [last] else before
  }

  /** `slice(0, n)`; a negative bound counts from the end. */
  function SliceTo<T>(s: seq<T>, n: int): seq<T> {
    if n >= 0 then FirstFew(s, n) else if -n <= |s| then s[..|s| + n] else []
  }

  /** Rank by score, keep the accepted, show the first few. */
  function Display(decided: seq<Ranked>, limit: int): seq<Ranked> {
    SliceTo(Accepted(Sort(decided, HigherScore())), limit)
  }

  lemma {:induction false} AcceptedSorted(ranked: seq<Ranked>)
    requires Sorted(ranked, HigherScore())
    ensures Sorted(Accepted(ranked), HigherScore())
    ensures forall r | r in Accepted(ranked) :: r in ranked && r.decision.accepted
  {
    if ranked != [] {
      AcceptedSorted(ranked[..|ranked| - 1]);
      var before, last := Accepted(ranked[..|ranked| - 1]), ranked[|ranked| - 1];
      forall i | 0 <= i < |before| ensures HigherScore()(before[i], last) {
        assert before[i] in ranked[..|ranked| - 1];
        var j :| 0 <= j < |ranked| - 1 && ranked[j] == before[i];
      }
    }
  }

  lemma {:induction false} AcceptedBag(ranked: seq<Ranked>, r: Ranked)
    ensures multiset(Accepted(ranked))[r] == if r.decision.accepted then multiset(ranked)[r] else 0
  {
    if ranked != [] {
      var n := |ranked| - 1;
      assert ranked == ranked[..n] + [ranked[n]];
      AcceptedBag(ranked[..n], r);
    }
  }

  lemma SliceSplits<T>(s: seq<T>, limit: int) returns (hidden: seq<T>)
    ensures s == SliceTo(s, limit) + hidden
    ensures limit >= 0 ==> |SliceTo(s, limit)| <= limit && (hidden != [] ==> |SliceTo(s, limit)| == limit)
  {
    hidden := s[|SliceTo(s, limit)|..];
  }

  lemma PrefixBest(shown: seq<Ranked>, hidden: seq<Ranked>)
    requires Sorted(shown + hidden, HigherScore())
    ensures Sorted(shown, HigherScore())
    ensures forall s, h | s in shown && h in hidden :: h.decision.score <= s.decision.score
  {
    var all := shown + hidden;
    assert forall i | 0 <= i < |shown| :: all[i] == shown[i];
    forall s, h | s in shown && h in hidden ensures h.decision.score <= s.decision.score {
      var i :| 0 <= i < |shown| && shown[i] == s;
      var j :| 0 <= j < |hidden| && hidden[j] == h;
      assert HigherScore()(all[i], all[|shown| + j]);
    }
  }

  /** The decisions that are in both: accepted, as often as they were made. */
  ghost predicate ExactlyAccepted(answered: seq<Ranked>, decided: seq<Ranked>) {
    forall r :: multiset(answered)[r] == if r.decision.accepted then multiset(decided)[r] else 0
  }

  /**
    Display: the shown items and the hidden ones together are exactly the accepted decisions of the run, no more
    than the limit are shown, and no hidden one scores higher than a shown one.
   */
  lemma ShownAreTheBest(decided: seq<Ranked>, limit: int) returns (hidden: seq<Ranked>)
    ensures ExactlyAccepted(Display(decided, limit) + hidden, decided)
    ensures Sorted(Display(decided, limit), HigherScore())
    ensures limit >= 0
            ==> |Display(decided, limit)| <= limit && (hidden != [] ==> |Display(decided, limit)| == limit)
    ensures forall s, h | s in Display(decided, limit) && h in hidden :: h.decision.score <= s.decision.score
  {
    var ranked := Sort(decided, HigherScore());
    hidden := SliceSplits(Accepted(ranked), limit);
    SortPermutes(decided, HigherScore());
    SortSorts(decided, HigherScore());
    AcceptedSorted(ranked);
    PrefixBest(Display(decided, limit), hidden);
    forall r ensures multiset(Accepted(ranked))[r] == if r.decision.accepted then multiset(decided)[r] else 0 {
      AcceptedBag(ranked, r);
    }
  }

  // ---------- the engine as a whole ----------

  datatype State = State(memories: EngineMemories, scopes: Scopes)

  datatype EngineCall =
    | Process(inputs: seq<RawInput>)
    | RecordJudgment(log: Log)
    | SetWorkContext(vector: Option<Vector>)
    | Reopen

  function Judged(env: Env, m: EngineMemories, log: Log): EngineMemories {
    var e := NormalizeVector(env.sqrt, log.embedding);
    var logs := m.logs + [log.(embedding := e)];
    var short := ShortWeights(env.decay, logs, env.engine.shortMemoryHalfLifeMs, log.decidedAt);
    var long := LongWeights(env.decay, logs, env.engine.longMemoryHalfLifeMs, log.decidedAt);
    EngineMemories(
      WeightedAverage(env.sqrt, short),
      m.work,
      WeightedAverage(env.sqrt, long),
      if log.action == Discard then PushVector(m.reject, e, env.engine.maxRejectMemories) else m.reject,
      if log.action == Open then PushVector(m.open, e, env.engine.maxOpenMemories) else m.open,
      logs)
  }

  function WithContext(env: Env, m: EngineMemories, vector: Option<Vector>): EngineMemories {
    m.(work := if vector.Some? then Some(NormalizeVector(env.sqrt, vector.value)) else None)
  }

  /** What `snapshot()` writes: memories become lists, scopes are copied. */
  function Saved(s: State): State {
    s.(memories := AsLists(s.memories))
  }

  function AsLists(m: EngineMemories): EngineMemories {
    m.(reject := Many(Listed(m.reject)), open := Many(Listed(m.open)))
  }

  /** The constructor on a snapshot: a missing list becomes an empty one, scopes are normalized. */
  function Opened(env: Env, s: State): State {
    State(s.memories.(reject := Present(s.memories.reject), open := Present(s.memories.open)),
          Restore(env.filter, s.scopes))
  }

  function Present(memory: Filter.Memory): Filter.Memory {
    if memory == Absent then Many([]) else memory
  }

  function Next(env: Env, s: State, call: EngineCall): State {
    match call
    case Process(inputs) =>
      var items := CanonicalItems(env, AllUnderstood(env, inputs));
      s.(scopes := Fed(env.sqrt, env.filter, s.scopes, RankInputs(env.sqrt, s.memories, items)))
    case RecordJudgment(log) => s.(memories := Judged(env, s.memories, log))
    case SetWorkContext(vector) => s.(memories := WithContext(env, s.memories, vector))
    case Reopen => Opened(env, Saved(s))
  }

  function Output(env: Env, s: State, call: EngineCall): seq<seq<Ranked>> {
    match call
    case Process(inputs) =>
      var items := CanonicalItems(env, AllUnderstood(env, inputs));
      [Display(Decided(env, s.memories, s.scopes, items), env.engine.maxDisplayItems)]
    case _ => []
  }

  function Reached(env: Env, s: State, calls: seq<EngineCall>): State {
    if calls == [] then s
    else Next(env, Reached(env, s, calls[..|calls| - 1]), calls[|calls| - 1])
  }

  function Outputs(env: Env, s: State, calls: seq<EngineCall>): seq<seq<Ranked>> {
    if calls == [] then []
    else
      var before := calls[..|calls| - 1];
      Outputs(env, s, before) + Output(env, Reached(env, s, before), calls[|calls| - 1])
  }

  function WithoutReopens(calls: seq<EngineCall>): seq<EngineCall> {
    if calls == [] then []
    else
      var before, last := WithoutReopens(calls[..|calls| - 1]), calls[|calls| - 1];
      if last.Reopen? then before else before + [last]
  }

  // ---------- what an engine remembers of its judgments ----------

  /** The judgments of a call sequence, as they are logged. */
  function Judgments(env: Env, calls: seq<EngineCall>): seq<Log> {
    if calls == [] then []
    else
      var before, last := Judgments(env, calls[..|calls| - 1]), calls[|calls| - 1];
      if last.RecordJudgment? then before + [last.log.(embedding := NormalizeVector(env.sqrt, last.log.embedding))]
      else before
  }

  /** The work context set last. */
  function ContextOf(env: Env, calls: seq<EngineCall>): Option<Vector> {
    if calls == [] then None
    else
      var last := calls[|calls| - 1];
      if last.SetWorkContext? then
        if last.vector.Some? then Some(NormalizeVector(env.sqrt, last.vector.value)) else None
      else ContextOf(env, calls[..|calls| - 1])
  }

  function EmbeddingsOf(logs: seq<Log>, action: Judgment): seq<Vector> {
    if logs == [] then []
    else
      var before, last := EmbeddingsOf(logs[..|logs| - 1], action), logs[|logs| - 1];
      if last.action == action then before + [last.embedding] else before
  }

  lemma EmbeddingsPush(logs: seq<Log>, log: Log, action: Judgment)
    ensures EmbeddingsOf(logs + [log], action)
         == if log.action == action then EmbeddingsOf(logs, action) + [log.embedding] else EmbeddingsOf(logs, action)
  {
    assert (logs + [log])[..|logs|] == logs;
  }

  /**
    Memories as the judgments make them: all of them logged, discards in the reject list and opens in the open list,
    the newest of each up to its bound, and short and long memory built from the whole log at its last judgment.
   */
  ghost predicate MadeOf(env: Env, m: EngineMemories, logs: seq<Log>)
    requires env.engine.maxRejectMemories >= 0 && env.engine.maxOpenMemories >= 0
  {
    && m.logs == logs
    && m.reject.Many? && m.reject.vectors == KeepLast(EmbeddingsOf(logs, Discard), env.engine.maxRejectMemories)
    && m.open.Many? && m.open.vectors == KeepLast(EmbeddingsOf(logs, Open), env.engine.maxOpenMemories)
    && (logs == [] ==> m.short == None && m.long == None)
    && (logs != [] ==>
          var now := logs[|logs| - 1].decidedAt;
          && m.short == WeightedAverage(env.sqrt, ShortWeights(env.decay, logs, env.engine.shortMemoryHalfLifeMs, now))
          && m.long == WeightedAverage(env.sqrt, LongWeights(env.decay, logs, env.engine.longMemoryHalfLifeMs, now)))
  }

  lemma JudgedIsMade(env: Env, m: EngineMemories, logs: seq<Log>, log: Log)
    requires env.engine.maxRejectMemories >= 0 && env.engine.maxOpenMemories >= 0 && MadeOf(env, m, logs)
    ensures var stored := log.(embedding := NormalizeVector(env.sqrt, log.embedding));
            MadeOf(env, Judged(env, m, log), logs + [stored]) && Judged(env, m, log).work == m.work
  {
    var e := NormalizeVector(env.sqrt, log.embedding);
    var stored := log.(embedding := e);
    EmbeddingsPush(logs, stored, Discard);
    EmbeddingsPush(logs, stored, Open);
    if log.action == Discard {
      PushKeepsLast(m.reject, EmbeddingsOf(logs, Discard), e, env.engine.maxRejectMemories);
    }
    if log.action == Open {
      PushKeepsLast(m.open, EmbeddingsOf(logs, Open), e, env.engine.maxOpenMemories);
    }
  }

  const BLANK: State := State(EngineMemories(None, None, None, Absent, Absent, []), map[])

  /** After any calls to a new engine, processing and reopening included, its memories are what was judged. */
  lemma {:induction false} MemoriesAreTheJudgments(env: Env, calls: seq<EngineCall>)
    requires env.engine.maxRejectMemories >= 0 && env.engine.maxOpenMemories >= 0
    ensures var m := Reached(env, Opened(env, BLANK), calls).memories;
            MadeOf(env, m, Judgments(env, calls)) && m.work == ContextOf(env, calls)
  {
    if calls == [] {
      BlankIsMade(env);
    } else {
      var before, call := calls[..|calls| - 1], calls[|calls| - 1];
      MemoriesAreTheJudgments(env, before);
      var s := Reached(env, Opened(env, BLANK), before);
      if call.RecordJudgment? {
        JudgedIsMade(env, s.memories, Judgments(env, before), call.log);
      } else {
        OthersKeepMade(env, s, Judgments(env, before), call);
      }
    }
  }

  lemma BlankIsMade(env: Env)
    requires env.engine.maxRejectMemories >= 0 && env.engine.maxOpenMemories >= 0
    ensures MadeOf(env, Opened(env, BLANK).memories, []) && Opened(env, BLANK).memories.work == None
  {
    assert EmbeddingsOf([], Discard) == [] && EmbeddingsOf([], Open) == [];
  }

  lemma OthersKeepMade(env: Env, s: State, logs: seq<Log>, call: EngineCall)
    requires env.engine.maxRejectMemories >= 0 && env.engine.maxOpenMemories >= 0
    requires MadeOf(env, s.memories, logs) && !call.RecordJudgment?
    ensures MadeOf(env, Next(env, s, call).memories, logs)
    ensures !call.SetWorkContext? ==> Next(env, s, call).memories.work == s.memories.work
  {
  }

  /** A judgment is felt at once: discarding or opening an item counts against or for whatever points its way. */
  lemma JudgmentIsFelt(env: Env, m: EngineMemories, log: Log, x: Vector)
    requires IsSqrt(env.sqrt) && env.engine.maxRejectMemories >= 0 && env.engine.maxOpenMemories >= 0
    ensures var after := Judged(env, m, log);
            var similarity := Cosine(env.sqrt, x, log.embedding);
            && (log.action == Discard
                ==> MaxMemorySimilarity(env.sqrt, x, after.reject) >= similarity && after.open == m.open)
            && (log.action == Open
                ==> MaxMemorySimilarity(env.sqrt, x, after.open) >= similarity && after.reject == m.reject)
            && (log.action == Keep ==> after.reject == m.reject && after.open == m.open)
  {
    var e := NormalizeVector(env.sqrt, log.embedding);
    CosineOfNormalized(env.sqrt, x, log.embedding);
    if log.action == Discard {
      PushedIsHeld(m.reject, e, env.engine.maxRejectMemories);
      HeldBound(env.sqrt, x, Judged(env, m, log).reject, e);
    } else if log.action == Open {
      PushedIsHeld(m.open, e, env.engine.maxOpenMemories);
      HeldBound(env.sqrt, x, Judged(env, m, log).open, e);
    }
  }

  // ---------- an engine may be closed and reopened at any time ----------

  /** Two engine states that no call can tell apart. */
  ghost predicate Alike(env: Env, s: State, t: State) {
    && s.scopes == t.scopes
    && AllOk(env.filter, s.scopes)
    && AsLists(s.memories) == AsLists(t.memories)
    && !s.memories.reject.Absent? && !s.memories.open.Absent?
    && !t.memories.reject.Absent? && !t.memories.open.Absent?
  }

  lemma ComponentsAsLists(env: Env, m: EngineMemories, items: seq<Canonical>, item: Canonical)
    ensures ScoreComponents(env.sqrt, FilterInput(env.sqrt, m, items, item), env.filter)
            == ScoreComponents(env.sqrt, FilterInput(env.sqrt, AsLists(m), items, item), env.filter)
  {
    SimilarityOfListed(env.sqrt, item.embedding, m.reject);
    SimilarityOfListed(env.sqrt, item.embedding, m.open);
  }

  lemma DecideAsLists(env: Env, st: ScopeState, m: EngineMemories, items: seq<Canonical>, item: Canonical)
    ensures Decide(env.sqrt, env.filter, st, FilterInput(env.sqrt, m, items, item))
            == Decide(env.sqrt, env.filter, st, FilterInput(env.sqrt, AsLists(m), items, item))
  {
    ComponentsAsLists(env, m, items, item);
  }

  lemma StepAsLists(env: Env, m: EngineMemories, scopes: Scopes, items: seq<Canonical>, item: Canonical)
    ensures var input := FilterInput(env.sqrt, m, items, item);
            var listed := FilterInput(env.sqrt, AsLists(m), items, item);
            && Verdict(env.sqrt, env.filter, scopes, input, 0.0)
               == Verdict(env.sqrt, env.filter, scopes, listed, 0.0)
            && Step(env.sqrt, env.filter, scopes, Evaluate(input, 0.0))
               == Step(env.sqrt, env.filter, scopes, Evaluate(listed, 0.0))
  {
    var input := FilterInput(env.sqrt, m, items, item);
    DecideAsLists(env, StateOf(env.filter, scopes, KeyOf(input), item.createdAt), m, items, item);
  }

  lemma {:induction false} RankAsLists(env: Env, m: EngineMemories, scopes: Scopes, items: seq<Canonical>, n: nat)
    requires n <= |items|
    ensures var inputs := RankInputs(env.sqrt, m, items)[..n];
            var listed := RankInputs(env.sqrt, AsLists(m), items)[..n];
            && Fed(env.sqrt, env.filter, scopes, inputs) == Fed(env.sqrt, env.filter, scopes, listed)
            && FedDecisions(env.sqrt, env.filter, scopes, inputs)
               == FedDecisions(env.sqrt, env.filter, scopes, listed)
  {
    if n > 0 {
      var inputs, listed := RankInputs(env.sqrt, m, items), RankInputs(env.sqrt, AsLists(m), items);
      RankAsLists(env, m, scopes, items, n - 1);
      StepAsLists(env, m, Fed(env.sqrt, env.filter, scopes, inputs[..n - 1]), items, items[n - 1]);
      FedStep(env.sqrt, env.filter, scopes, inputs, n - 1);
      FedStep(env.sqrt, env.filter, scopes, listed, n - 1);
    }
  }

  lemma ProcessAsLists(env: Env, m: EngineMemories, scopes: Scopes, items: seq<Canonical>)
    ensures Fed(env.sqrt, env.filter, scopes, RankInputs(env.sqrt, m, items))
            == Fed(env.sqrt, env.filter, scopes, RankInputs(env.sqrt, AsLists(m), items))
    ensures Decided(env, m, scopes, items) == Decided(env, AsLists(m), scopes, items)
  {
    var n, inputs, listed := |items|, RankInputs(env.sqrt, m, items), RankInputs(env.sqrt, AsLists(m), items);
    RankAsLists(env, m, scopes, items, n);
    assert inputs[..n] == inputs && listed[..n] == listed;
  }

  lemma JudgedAsLists(env: Env, m: EngineMemories, log: Log)
    requires !m.reject.Absent? && !m.open.Absent?
    ensures AsLists(Judged(env, m, log)) == AsLists(Judged(env, AsLists(m), log))
    ensures !Judged(env, m, log).reject.Absent? && !Judged(env, m, log).open.Absent?
  {
  }

  lemma RankOk(env: Env, scopes: Scopes, inputs: seq<Input>)
    requires Normal(env.filter) && AllOk(env.filter, scopes)
    ensures AllOk(env.filter, Fed(env.sqrt, env.filter, scopes, inputs))
  {
    BatchIsRun(env.sqrt, env.filter, scopes, inputs);
    RunOk(env.sqrt, env.filter, scopes, Batch(inputs));
  }

  lemma NextAlike(env: Env, s: State, t: State, call: EngineCall)
    requires Normal(env.filter) && Alike(env, s, t) && !call.Reopen?
    ensures Alike(env, Next(env, s, call), Next(env, t, call))
    ensures Output(env, s, call) == Output(env, t, call)
  {
    match call
    case Process(inputs) =>
      var items := CanonicalItems(env, AllUnderstood(env, inputs));
      ProcessAsLists(env, s.memories, s.scopes, items);
      ProcessAsLists(env, t.memories, t.scopes, items);
      RankOk(env, s.scopes, RankInputs(env.sqrt, s.memories, items));
    case RecordJudgment(log) =>
      JudgedAsLists(env, s.memories, log);
      JudgedAsLists(env, t.memories, log);
    case SetWorkContext(_) =>
  }

  lemma ReopenAlike(env: Env, s: State, t: State)
    requires Normal(env.filter) && Alike(env, s, t)
    ensures Alike(env, Next(env, s, Reopen), t)
  {
    RestoreOk(env.filter, s.scopes);
  }

  lemma {:induction false} RunsAlike(env: Env, s: State, calls: seq<EngineCall>)
    requires Normal(env.filter) && Alike(env, s, s)
    ensures Alike(env, Reached(env, s, calls), Reached(env, s, WithoutReopens(calls)))
    ensures Outputs(env, s, calls) == Outputs(env, s, WithoutReopens(calls))
  {
    if calls != [] {
      var before, call := calls[..|calls| - 1], calls[|calls| - 1];
      var kept := WithoutReopens(before);
      RunsAlike(env, s, before);
      if call.Reopen? {
        ReopenAlike(env, Reached(env, s, before), Reached(env, s, kept));
      } else {
        NextAlike(env, Reached(env, s, before), Reached(env, s, kept), call);
        assert (kept + [call])[..|kept|] == kept;
      }
    }
  }

  /**
    An engine opened on any snapshot gives the same displays whether or not it is closed and reopened from its own
    snapshots along the way.
   */
  lemma ReopeningChangesNothing(env: Env, snapshot: State, calls: seq<EngineCall>)
    requires Normal(env.filter)
    ensures Outputs(env, Opened(env, snapshot), calls)
            == Outputs(env, Opened(env, snapshot), WithoutReopens(calls))
  {
    RestoredOk(env.filter, snapshot.scopes);
    RunsAlike(env, Opened(env, snapshot), calls);
  }

  // ---------- the engine object ----------

  class HopperEngine {
    const env: Env
    const filter: HopperAdaptiveFilter
    var memories: EngineMemories

    ghost predicate Valid() {
      filter.sqrt == env.sqrt && filter.config == env.filter && Normal(env.filter)
    }

    ghost function Contents(): State
      reads this, filter
    {
      State(memories, filter.scopes)
    }

    constructor (sqrt: real -> real, decay: Decay, text: TextLib, engine: EngineConfig, snapshot: State)
      ensures Valid() && fresh(filter)
      ensures env == Env(sqrt, decay, text, NormalizeConfig(DefaultConfig), engine)
      ensures Contents() == Opened(env, snapshot)
    {
      ConfigNormal(DefaultConfig);
      env := Env(sqrt, decay, text, NormalizeConfig(DefaultConfig), engine);
      filter := new HopperAdaptiveFilter(sqrt, DefaultConfig, snapshot.scopes);
      memories := snapshot.memories.(reject := Present(snapshot.memories.reject),
                                     open := Present(snapshot.memories.open));
    }

    method SetWorkContext(vector: Option<Vector>)
      requires Valid()
      modifies this
      ensures Contents() == Next(env, old(Contents()), EngineCall.SetWorkContext(vector))
    {
      memories := WithContext(env, memories, vector);
    }

    method RecordJudgment(log: Log)
      requires Valid()
      modifies this
      ensures Contents() == Next(env, old(Contents()), EngineCall.RecordJudgment(log))
    {
      var e := NormalizeVector(env.sqrt, log.embedding);
      var logs := memories.logs + [log.(embedding := e)];
      var reject, open := memories.reject, memories.open;
      if log.action == Discard {
        reject := PushVector(reject, e, env.engine.maxRejectMemories);
      }
      if log.action == Open {
        open := PushVector(open, e, env.engine.maxOpenMemories);
      }
      var short := WeightedAverageByLoop(
        env.sqrt, ShortWeights(env.decay, logs, env.engine.shortMemoryHalfLifeMs, log.decidedAt));
      var long := WeightedAverageByLoop(
        env.sqrt, LongWeights(env.decay, logs, env.engine.longMemoryHalfLifeMs, log.decidedAt));
      memories := EngineMemories(short, memories.work, long, reject, open, logs);
    }

    method DecideAll(inputs: seq<Input>) returns (decisions: seq<Decision>)
      requires Valid()
      modifies filter
      ensures filter.scopes == Fed(env.sqrt, env.filter, old(filter.scopes), inputs)
      ensures decisions == FedDecisions(env.sqrt, env.filter, old(filter.scopes), inputs)
    {
      ghost var start := filter.scopes;
      decisions := [];
      for n := 0 to |inputs|
        invariant filter.scopes == Fed(env.sqrt, env.filter, start, inputs[..n])
        invariant decisions == FedDecisions(env.sqrt, env.filter, start, inputs[..n])
      {
        FedStep(env.sqrt, env.filter, start, inputs, n);
        var d := filter.Evaluate(inputs[n], 0.0);
        decisions := decisions + [d];
      }
      assert inputs[..|inputs|] == inputs;
    }

    method Rank(items: seq<Canonical>) returns (ranked: seq<Ranked>)
      requires Valid()
      modifies filter
      ensures filter.scopes
              == Fed(env.sqrt, env.filter, old(filter.scopes), RankInputs(env.sqrt, memories, items))
      ensures ranked == Sort(Decided(env, memories, old(filter.scopes), items), HigherScore())
    {
      var decisions := DecideAll(RankInputs(env.sqrt, memories, items));
      ranked := Sort(Paired(items, decisions), HigherScore());
    }

    method Process(inputs: seq<RawInput>) returns (shown: seq<Ranked>)
      requires Valid()
      modifies filter
      ensures Contents() == Next(env, old(Contents()), EngineCall.Process(inputs))
      ensures [shown] == Output(env, old(Contents()), EngineCall.Process(inputs))
    {
      var items := MergeHopperItems(AllUnderstood(env, inputs));
      var ranked := Rank(items);
      shown := SliceTo(Accepted(ranked), env.engine.maxDisplayItems);
    }

    method MergeHopperItems(inputs: seq<Item>) returns (items: seq<Canonical>)
      ensures items == CanonicalItems(env, inputs)
    {
      var clusters := MergeByLoop(inputs, Merges(env));
      MergedNonEmpty(inputs, Merges(env));
      items := seq(|clusters|, c requires 0 <= c < |clusters| => ToCanonical(env.sqrt, clusters[c]));
    }

    method Snapshot() returns (snapshot: State)
      requires Valid()
      ensures snapshot == Saved(Contents())
    {
      var scopes := filter.Snapshot();
      snapshot := State(AsLists(memories), scopes);
    }
  }
}
