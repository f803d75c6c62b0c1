/** The per-scope adaptive filter: scoring, the threshold controller and its state. */
module Filter {
  import opened Prelude
  import opened Vectors
  import opened Quantile

  // ---------- configuration ----------

  datatype Weights = Weights(
    work: real, short: real, long: real, open: real, multimodal: real, behavior: real, source: real)

  datatype Config = Config(
    targetPassRate: real,
    targetBand: real,
    ewmaAlpha: real,
    thresholdAlpha: real,
    quantileWindowSize: real,
    passRateWindowSize: real,
    minSamplesForAdaptive: real,
    thresholdMin: real,
    thresholdMax: real,
    initialThreshold: real,
    initialK: real,
    minK: real,
    maxK: real,
    kStep: real,
    duplicateSimilarityFloor: real,
    duplicatePenaltyWeight: real,
    duplicatePenaltyCap: real,
    rejectPenaltyWeight: real,
    rejectPenaltyCap: real,
    weights: Weights)

  const DefaultConfig := Config(
    0.03, 0.01, 0.94, 0.88, 300.0, 120.0, 30.0, 0.24, 0.92, 0.46, 1.8, 0.6, 3.2, 0.08, 0.9, 0.35, 0.16, 0.12, 0.12,
    Weights(0.32, 0.22, 0.14, 0.08, 0.09, 0.08, 0.07))

  function Min(x: real, y: real): real {
    if y < x then y else x
  }

  function Max(x: real, y: real): real {
    if x < y then y else x
  }

  /** `Math.floor`. */
  function Floor(x: real): real {
    x.Floor as real
  }

  predicate Whole(x: real) {
    Floor(x) == x
  }

  function NormalizeConfig(c: Config): Config {
    var thresholdMin := Clamp01(Min(c.thresholdMin, c.thresholdMax));
    var thresholdMax := Clamp01(Max(c.thresholdMin, c.thresholdMax));
    var minK := Max(0.0, Min(c.minK, c.maxK));
    var maxK := Max(minK, Max(c.minK, c.maxK));
    c.(targetPassRate := Clamp(c.targetPassRate, 0.01, 0.1),
       targetBand := Max(0.001, c.targetBand),
       ewmaAlpha := Clamp(c.ewmaAlpha, 0.01, 0.99),
       thresholdAlpha := Clamp(c.thresholdAlpha, 0.01, 0.99),
       quantileWindowSize := Max(10.0, Floor(c.quantileWindowSize)),
       passRateWindowSize := Max(10.0, Floor(c.passRateWindowSize)),
       minSamplesForAdaptive := Max(1.0, Floor(c.minSamplesForAdaptive)),
       thresholdMin := thresholdMin,
       thresholdMax := thresholdMax,
       initialThreshold := Clamp(c.initialThreshold, thresholdMin, thresholdMax),
       initialK := Clamp(c.initialK, minK, maxK),
       minK := minK,
       maxK := maxK,
       kStep := Max(0.001, c.kStep),
       duplicateSimilarityFloor := Clamp01(c.duplicateSimilarityFloor),
       duplicatePenaltyWeight := Max(0.0, c.duplicatePenaltyWeight),
       duplicatePenaltyCap := Clamp01(c.duplicatePenaltyCap),
       rejectPenaltyWeight := Max(0.0, c.rejectPenaltyWeight),
       rejectPenaltyCap := Clamp01(c.rejectPenaltyCap))
  }

  /** What the rest of the filter may rely on. */
  predicate Normal(c: Config) {
    && 0.01 <= c.targetPassRate <= 0.1
    && 0.001 <= c.targetBand
    && 0.01 <= c.ewmaAlpha <= 0.99
    && 0.01 <= c.thresholdAlpha <= 0.99
    && 10.0 <= c.quantileWindowSize && Whole(c.quantileWindowSize)
    && 10.0 <= c.passRateWindowSize && Whole(c.passRateWindowSize)
    && 1.0 <= c.minSamplesForAdaptive && Whole(c.minSamplesForAdaptive)
    && 0.0 <= c.thresholdMin <= c.initialThreshold <= c.thresholdMax <= 1.0
    && 0.0 <= c.minK <= c.initialK <= c.maxK
    && 0.001 <= c.kStep
    && 0.0 <= c.duplicateSimilarityFloor <= 1.0
    && 0.0 <= c.duplicatePenaltyWeight
    && 0.0 <= c.duplicatePenaltyCap <= 1.0
    && 0.0 <= c.rejectPenaltyWeight
    && 0.0 <= c.rejectPenaltyCap <= 1.0
  }

  lemma ConfigNormal(c: Config)
    ensures Normal(NormalizeConfig(c))
  {
    assert forall x: real {:trigger Floor(x)} :: Whole(Floor(x));
    assert Whole(10.0) && Whole(1.0);
  }

  /** Normalizing leaves exactly the normal configurations alone, so it is idempotent. */
  lemma NormalIffFixed(c: Config)
    ensures Normal(c) <==> NormalizeConfig(c) == c
  {
    ConfigNormal(c);
  }

  // ---------- inputs and decisions ----------

  datatype Memory = Absent | One(vector: Vector) | Many(vectors: seq<Vector>)

  datatype Memories = Memories(
    short: Option<Vector>, work: Option<Vector>, long: Option<Vector>, reject: Memory, open: Memory)

  datatype Input = Input(
    id: string,
    embedding: Vector,
    sourceType: string,
    projectId: Option<string>,
    memories: Memories,
    neighborSimilarities: seq<real>,
    multimodalConfidence: Option<real>,
    behaviorPrior: Option<real>,
    sourcePrior: Option<real>,
    now: Option<real>,
    decisionMs: Option<real>,
    dwellMs: Option<real>)

  datatype Components = Components(
    workSimilarity: real,
    shortSimilarity: real,
    longSimilarity: real,
    openSimilarity: real,
    rejectSimilarity: real,
    rejectPenalty: real,
    duplicatePenalty: real,
    multimodalConfidence: real,
    behaviorPrior: real,
    sourcePrior: real)

  datatype Reason =
    | AdaptiveThresholdPass
    | AdaptiveThresholdReject
    | ColdStartThreshold
    | EwmaMeanStdThreshold
    | MovingQuantileThreshold
    | PassRateFeedbackIncreasedK
    | PassRateFeedbackDecreasedK
    | DuplicatePenaltyApplied
    | RejectPenaltyCapped
    | SourceProjectScopedStats
    | AuxiliaryBehaviorNotDirectLabel

  datatype Decision = Decision(
    id: string,
    accepted: bool,
    score: real,
    threshold: real,
    scopeKey: string,
    sampleCountBefore: real,
    passRate: real,
    targetPassRate: real,
    k: real,
    components: Components,
    reasonCodes: seq<Reason>)

  function ScopeKey(sourceType: string, projectId: Option<string>): string {
    JoinKey(sourceType, ":" + OrElse(projectId, "global"))
  }

  /** Source types without a colon never share statistics; a missing project is the project "global". */
  lemma ScopeKeysAgreeIff(s: string, p: Option<string>, t: string, q: Option<string>)
    requires ColonFree(s) && ColonFree(t)
    ensures ScopeKey(s, p) == ScopeKey(t, q) <==> s == t && OrElse(p, "global") == OrElse(q, "global")
  {
    var x, y := OrElse(p, "global"), OrElse(q, "global");
    if ScopeKey(s, p) == ScopeKey(t, q) {
      JoinKeyInjective(s, ":" + x, t, ":" + y);
      assert x == (":" + x)[1..] && y == (":" + y)[1..];
    }
  }

  // ---------- scoring ----------

  function SourcePrior(sourceType: string): real {
    match sourceType
    case "github_star" => 0.72
    case "rss" => 0.58
    case "x_bookmark" => 0.5
    case "share_sheet" => 0.62
    case "browser_extension" => 0.6
    case "newsletter" => 0.54
    case "screenshot" => 0.42
    case _ => 0.45
  }

  function Similarity(sqrt: real -> real, a: Vector, b: Option<Vector>): real {
    match b
    case None => 0.0
    case Some(v) => Cosine(sqrt, a, v)
  }

  function Best(sqrt: real -> real, a: Vector, candidates: seq<Vector>): real {
    if candidates == [] then 0.0
    else
      var n := |candidates| - 1;
      Max(Best(sqrt, a, candidates[..n]), Cosine(sqrt, a, candidates[n]))
  }

  function MaxMemorySimilarity(sqrt: real -> real, a: Vector, memory: Memory): real {
    match memory
    case Absent => 0.0
    case One(v) => Cosine(sqrt, a, v)
    case Many(vs) => Best(sqrt, a, vs)
  }

  /** The largest similarity at or above the floor, or zero. */
  function MaxDuplicate(similarities: seq<real>, floor: real): real {
    if similarities == [] then 0.0
    else
      var n := |similarities| - 1;
      var max := MaxDuplicate(similarities[..n], floor);
      if similarities[n] < floor then max else Max(max, similarities[n])
  }

  function DuplicatePenalty(similarities: seq<real>, c: Config): real {
    var max := MaxDuplicate(similarities, c.duplicateSimilarityFloor);
    if max == 0.0 then 0.0
    else Min((max - c.duplicateSimilarityFloor) * c.duplicatePenaltyWeight, c.duplicatePenaltyCap)
  }

  function ScoreComponents(sqrt: real -> real, input: Input, c: Config): Components {
    var rejectSimilarity := MaxMemorySimilarity(sqrt, input.embedding, input.memories.reject);
    Components(
      Similarity(sqrt, input.embedding, input.memories.work),
      Similarity(sqrt, input.embedding, input.memories.short),
      Similarity(sqrt, input.embedding, input.memories.long),
      MaxMemorySimilarity(sqrt, input.embedding, input.memories.open),
      rejectSimilarity,
      Min(rejectSimilarity * c.rejectPenaltyWeight, c.rejectPenaltyCap),
      DuplicatePenalty(input.neighborSimilarities, c),
      Clamp01(OrElse(input.multimodalConfidence, 0.0)),
      Clamp01(OrElse(input.behaviorPrior, 0.0)),
      Clamp01(OrElse(input.sourcePrior, SourcePrior(input.sourceType))))
  }

  function ScoreInput(s: Components, c: Config): (score: real)
    ensures 0.0 <= score <= 1.0
  {
    Clamp01(RawScore(s, c))
  }

  function RawScore(s: Components, c: Config): real {
    c.weights.work * s.workSimilarity
    + c.weights.short * s.shortSimilarity
    + c.weights.long * s.longSimilarity
    + c.weights.open * s.openSimilarity
    + c.weights.multimodal * s.multimodalConfidence
    + c.weights.behavior * s.behaviorPrior
    + c.weights.source * s.sourcePrior
    - s.rejectPenalty
    - s.duplicatePenalty
  }

  lemma {:induction false} BestRange(sqrt: real -> real, a: Vector, candidates: seq<Vector>)
    ensures 0.0 <= Best(sqrt, a, candidates) <= 1.0
    ensures forall i | 0 <= i < |candidates| :: Cosine(sqrt, a, candidates[i]) <= Best(sqrt, a, candidates)
    ensures Best(sqrt, a, candidates) == 0.0
            || exists i | 0 <= i < |candidates| :: Best(sqrt, a, candidates) == Cosine(sqrt, a, candidates[i])
  {
    if candidates != [] {
      var n := |candidates| - 1;
      BestRange(sqrt, a, candidates[..n]);
      assert forall i | 0 <= i < n :: candidates[..n][i] == candidates[i];
      assert 0.0 <= Cosine(sqrt, a, candidates[n]) <= 1.0;
      if Best(sqrt, a, candidates) != 0.0 && Best(sqrt, a, candidates) != Cosine(sqrt, a, candidates[n]) {
        var i :| 0 <= i < n && Best(sqrt, a, candidates[..n]) == Cosine(sqrt, a, candidates[..n][i]);
        assert Best(sqrt, a, candidates) == Cosine(sqrt, a, candidates[i]);
      }
    }
  }

  lemma {:induction false} MaxDuplicateRange(similarities: seq<real>, floor: real)
    requires 0.0 <= floor
    ensures MaxDuplicate(similarities, floor) == 0.0 || MaxDuplicate(similarities, floor) >= floor
    ensures forall x | x in similarities && x >= floor :: x <= MaxDuplicate(similarities, floor)
  {
    if similarities != [] {
      var n := |similarities| - 1;
      MaxDuplicateRange(similarities[..n], floor);
      assert forall x | x in similarities :: x in similarities[..n] || x == similarities[n];
    }
  }

  lemma ScaledRange(x: real, weight: real, cap: real)
    requires 0.0 <= x && 0.0 <= weight && 0.0 <= cap
    ensures 0.0 <= Min(x * weight, cap) <= cap
  {
  }

  /** Every component of a score is in range: similarities and priors in [0, 1], penalties at most their caps. */
  lemma ComponentsInRange(sqrt: real -> real, input: Input, c: Config)
    requires Normal(c)
    ensures var s := ScoreComponents(sqrt, input, c);
            && 0.0 <= s.workSimilarity <= 1.0 && 0.0 <= s.shortSimilarity <= 1.0
            && 0.0 <= s.longSimilarity <= 1.0 && 0.0 <= s.openSimilarity <= 1.0
            && 0.0 <= s.rejectSimilarity <= 1.0
            && 0.0 <= s.rejectPenalty <= c.rejectPenaltyCap
            && 0.0 <= s.duplicatePenalty <= c.duplicatePenaltyCap
            && 0.0 <= s.multimodalConfidence <= 1.0
            && 0.0 <= s.behaviorPrior <= 1.0
            && 0.0 <= s.sourcePrior <= 1.0
  {
    var e, m := input.embedding, input.memories;
    SimilarityRange(sqrt, e, m.work);
    SimilarityRange(sqrt, e, m.short);
    SimilarityRange(sqrt, e, m.long);
    MemoryRange(sqrt, e, m.open);
    RejectPenaltyRange(sqrt, e, m.reject, c);
    DuplicatePenaltyRange(input.neighborSimilarities, c);
  }

  lemma SimilarityRange(sqrt: real -> real, a: Vector, b: Option<Vector>)
    ensures 0.0 <= Similarity(sqrt, a, b) <= 1.0
  {
  }

  lemma RejectPenaltyRange(sqrt: real -> real, a: Vector, memory: Memory, c: Config)
    requires Normal(c)
    ensures var similarity := MaxMemorySimilarity(sqrt, a, memory);
            && 0.0 <= similarity <= 1.0
            && 0.0 <= Min(similarity * c.rejectPenaltyWeight, c.rejectPenaltyCap) <= c.rejectPenaltyCap
  {
    MemoryRange(sqrt, a, memory);
    ScaledRange(MaxMemorySimilarity(sqrt, a, memory), c.rejectPenaltyWeight, c.rejectPenaltyCap);
  }

  lemma DuplicatePenaltyRange(similarities: seq<real>, c: Config)
    requires Normal(c)
    ensures 0.0 <= DuplicatePenalty(similarities, c) <= c.duplicatePenaltyCap
  {
    var floor := c.duplicateSimilarityFloor;
    var max := MaxDuplicate(similarities, floor);
    MaxDuplicateRange(similarities, floor);
    if max != 0.0 { ScaledRange(max - floor, c.duplicatePenaltyWeight, c.duplicatePenaltyCap); }
  }

  lemma MemoryRange(sqrt: real -> real, a: Vector, memory: Memory)
    ensures 0.0 <= MaxMemorySimilarity(sqrt, a, memory) <= 1.0
  {
    if memory.Many? { BestRange(sqrt, a, memory.vectors); }
  }

  // ---------- what the components read ----------

  /** An item that points where a memory points is fully similar to it; a missing memory says nothing. */
  lemma SimilaritiesReadTheirMemories(sqrt: real -> real, input: Input, c: Config)
    requires IsSqrt(sqrt) && exists i | 0 <= i < |input.embedding| :: input.embedding[i] != 0.0
    ensures var s, m, e := ScoreComponents(sqrt, input, c), input.memories, input.embedding;
            && (m.work == Some(e) ==> s.workSimilarity == 1.0) && (m.work == None ==> s.workSimilarity == 0.0)
            && (m.short == Some(e) ==> s.shortSimilarity == 1.0) && (m.short == None ==> s.shortSimilarity == 0.0)
            && (m.long == Some(e) ==> s.longSimilarity == 1.0) && (m.long == None ==> s.longSimilarity == 0.0)
            && (Holds(m.open, e) ==> s.openSimilarity == 1.0) && (Holds(m.reject, e) ==> s.rejectSimilarity == 1.0)
            && (IsEmpty(m.open) ==> s.openSimilarity == 0.0)
            && (IsEmpty(m.reject) ==> s.rejectSimilarity == 0.0)
  {
    var e := input.embedding;
    CosineWithItself(sqrt, e);
    HeldIsSimilar(sqrt, e, input.memories.open);
    HeldIsSimilar(sqrt, e, input.memories.reject);
  }

  predicate Holds(memory: Memory, v: Vector) {
    match memory
    case Absent => false
    case One(u) => u == v
    case Many(us) => v in us
  }

  predicate IsEmpty(memory: Memory) {
    memory == Absent || memory == Many([])
  }

  /** The memory similarity is at least the similarity to anything the memory holds. */
  lemma HeldBound(sqrt: real -> real, a: Vector, memory: Memory, v: Vector)
    requires Holds(memory, v)
    ensures Cosine(sqrt, a, v) <= MaxMemorySimilarity(sqrt, a, memory)
  {
    if memory.Many? {
      BestRange(sqrt, a, memory.vectors);
      var i :| 0 <= i < |memory.vectors| && memory.vectors[i] == v;
    }
  }

  lemma HeldIsSimilar(sqrt: real -> real, a: Vector, memory: Memory)
    requires Cosine(sqrt, a, a) == 1.0
    ensures Holds(memory, a) ==> MaxMemorySimilarity(sqrt, a, memory) == 1.0
    ensures IsEmpty(memory) ==> MaxMemorySimilarity(sqrt, a, memory) == 0.0
  {
    if Holds(memory, a) {
      HeldBound(sqrt, a, memory, a);
      MemoryRange(sqrt, a, memory);
    }
  }

  /** Confidence and priors that lie in range count as given; a missing one counts zero, or as its source's prior. */
  lemma PriorsReadTheirInputs(sqrt: real -> real, input: Input, c: Config, x: real)
    requires 0.0 <= x <= 1.0
    ensures var s := ScoreComponents(sqrt, input, c);
            && (input.multimodalConfidence == Some(x) ==> s.multimodalConfidence == x)
            && (input.behaviorPrior == Some(x) ==> s.behaviorPrior == x)
            && (input.sourcePrior == Some(x) ==> s.sourcePrior == x)
            && (input.multimodalConfidence == None ==> s.multimodalConfidence == 0.0)
            && (input.behaviorPrior == None ==> s.behaviorPrior == 0.0)
            && (input.sourcePrior == None ==> s.sourcePrior == SourcePrior(input.sourceType))
  {
  }

  /** Sources by how much is expected of them; an unknown source ranks between bookmarks and screenshots. */
  lemma SourcesRanked(unknown: string)
    requires unknown !in ["github_star", "rss", "x_bookmark", "share_sheet", "browser_extension", "newsletter",
                          "screenshot"]
    ensures 1.0 > SourcePrior("github_star") > SourcePrior("share_sheet") > SourcePrior("browser_extension")
            > SourcePrior("rss") > SourcePrior("newsletter") > SourcePrior("x_bookmark")
    ensures SourcePrior("x_bookmark") > SourcePrior(unknown) > SourcePrior("screenshot") > 0.0
  {
  }

  /** The duplicate penalty is set by the closest neighbour at or above the floor, and there is none without one. */
  lemma DuplicatePenaltyIs(similarities: seq<real>, c: Config, closest: real)
    requires Normal(c)
    ensures (forall x <- similarities :: x < c.duplicateSimilarityFloor) ==> DuplicatePenalty(similarities, c) == 0.0
    ensures closest in similarities && closest >= c.duplicateSimilarityFloor && closest > 0.0
            && (forall x <- similarities :: x <= closest)
            ==> DuplicatePenalty(similarities, c)
                == Min((closest - c.duplicateSimilarityFloor) * c.duplicatePenaltyWeight, c.duplicatePenaltyCap)
  {
    MaxDuplicateRange(similarities, c.duplicateSimilarityFloor);
    MaxDuplicateAttained(similarities, c.duplicateSimilarityFloor);
  }

  lemma {:induction false} MaxDuplicateAttained(similarities: seq<real>, floor: real)
    ensures var max := MaxDuplicate(similarities, floor); max == 0.0 || (max in similarities && max >= floor)
  {
    if similarities != [] { MaxDuplicateAttained(similarities[..|similarities| - 1], floor); }
  }

  /** The reject penalty grows with the similarity to rejected items, up to its cap. */
  lemma RejectPenaltyIs(sqrt: real -> real, input: Input, c: Config)
    requires Normal(c)
    ensures var s := ScoreComponents(sqrt, input, c);
            && (s.rejectSimilarity == 0.0 ==> s.rejectPenalty == 0.0)
            && (s.rejectPenalty == c.rejectPenaltyCap
                <==> s.rejectSimilarity * c.rejectPenaltyWeight >= c.rejectPenaltyCap)
            && (s.rejectPenalty != c.rejectPenaltyCap
                ==> s.rejectPenalty == s.rejectSimilarity * c.rejectPenaltyWeight)
  {
  }

  predicate NonNegative(w: Weights) {
    && w.work >= 0.0 && w.short >= 0.0 && w.long >= 0.0 && w.open >= 0.0
    && w.multimodal >= 0.0 && w.behavior >= 0.0 && w.source >= 0.0
  }

  /** The weights and the parts they weigh, in one order. */
  function WeightVector(w: Weights): Vector {
    [w.work, w.short, w.long, w.open, w.multimodal, w.behavior, w.source]
  }

  function PartVector(s: Components): Vector {
    [s.workSimilarity, s.shortSimilarity, s.longSimilarity, s.openSimilarity, s.multimodalConfidence, s.behaviorPrior,
     s.sourcePrior]
  }

  /** Clamping keeps order. */
  lemma ClampMonotone(x: real, y: real)
    requires x <= y
    ensures Clamp01(x) <= Clamp01(y)
  {
  }

  lemma ProductMonotone(w: real, x: real, y: real)
    requires w >= 0.0 && x <= y
    ensures Times(w, x) <= Times(w, y)
  {
    NonNegativeProduct(w, y - x);
    assert w * (y - x) == w * y - w * x;
  }

  function Sum7(v: Vector): real
    requires |v| == 7
  {
    v[0] + v[1] + v[2] + v[3] + v[4] + v[5] + v[6]
  }

  /** Each part times its own weight. */
  function Weighed(w: Weights, s: Components): (v: Vector)
    ensures |v| == 7 && forall i | 0 <= i < 7 :: v[i] == Times(WeightVector(w)[i], PartVector(s)[i])
  {
    seq(7, i requires 0 <= i < 7 => Times(WeightVector(w)[i], PartVector(s)[i]))
  }

  lemma RawIsSum(s: Components, c: Config)
    ensures RawScore(s, c) == Sum7(Weighed(c.weights, s)) - s.rejectPenalty - s.duplicatePenalty
  {
    var v := Weighed(c.weights, s);
    assert v[0] == Times(c.weights.work, s.workSimilarity) && v[1] == Times(c.weights.short, s.shortSimilarity);
    assert v[2] == Times(c.weights.long, s.longSimilarity) && v[3] == Times(c.weights.open, s.openSimilarity);
    assert v[4] == Times(c.weights.multimodal, s.multimodalConfidence);
    assert v[5] == Times(c.weights.behavior, s.behaviorPrior) && v[6] == Times(c.weights.source, s.sourcePrior);
  }

  lemma SumMonotone(v: Vector, u: Vector)
    requires |v| == |u| == 7 && forall i | 0 <= i < 7 :: v[i] <= u[i]
    ensures Sum7(v) <= Sum7(u)
  {
  }

  /** The score rises with each similarity and prior and falls with each penalty. */
  lemma ScoreMonotone(s: Components, better: Components, c: Config)
    requires NonNegative(c.weights)
    requires forall i | 0 <= i < 7 :: PartVector(s)[i] <= PartVector(better)[i]
    requires better.rejectPenalty <= s.rejectPenalty && better.duplicatePenalty <= s.duplicatePenalty
    ensures ScoreInput(s, c) <= ScoreInput(better, c)
  {
    var v, u := Weighed(c.weights, s), Weighed(c.weights, better);
    WeightsNonNegative(c.weights);
    forall i | 0 <= i < 7 ensures v[i] <= u[i] {
      ProductMonotone(WeightVector(c.weights)[i], PartVector(s)[i], PartVector(better)[i]);
    }
    SumMonotone(v, u);
    RawIsSum(s, c);
    RawIsSum(better, c);
    ClampMonotone(RawScore(s, c), RawScore(better, c));
  }

  lemma WeightsNonNegative(w: Weights)
    requires NonNegative(w)
    ensures forall i | 0 <= i < 7 :: WeightVector(w)[i] >= 0.0
  {
  }

  /** A part that is alone scores by its own weight, less the penalties. */
  lemma ScoreOfOnePart(s: Components, c: Config, i: nat)
    requires i < 7 && forall j | 0 <= j < 7 && j != i :: PartVector(s)[j] == 0.0
    ensures ScoreInput(s, c)
            == Clamp01(Times(WeightVector(c.weights)[i], PartVector(s)[i]) - s.rejectPenalty - s.duplicatePenalty)
  {
    var v := Weighed(c.weights, s);
    forall j | 0 <= j < 7 && j != i ensures v[j] == 0.0 {
      TimesZero(WeightVector(c.weights)[j], PartVector(s)[j]);
    }
    SumOfOne(v, i);
    RawIsSum(s, c);
  }

  lemma TimesZero(x: real, y: real)
    requires y == 0.0
    ensures Times(x, y) == 0.0
  {
  }

  lemma SumOfOne(v: Vector, i: nat)
    requires |v| == 7 && i < 7 && forall j | 0 <= j < 7 && j != i :: v[j] == 0.0
    ensures Sum7(v) == v[i]
  {
  }

  // ---------- the controller ----------

  datatype ScopeState = ScopeState(
    sampleCount: real,
    ewmaMean: real,
    ewmaVariance: real,
    threshold: real,
    k: real,
    scoreWindow: seq<real>,
    passWindow: seq<bool>,
    updatedAt: real)

  function Initial(c: Config, now: real): ScopeState {
    ScopeState(0.0, c.initialThreshold, 0.0, c.initialThreshold, c.initialK, [], [], now)
  }

  /** `slice(-size)` for a positive size. */
  function LastOf<T>(s: seq<T>, size: int): seq<T> {
    if 0 <= size < |s| then s[|s| - size..] else s
  }

  /** The window is the end of the sequence, as much of it as fits. */
  lemma LastOfIs<T>(s: seq<T>, size: nat)
    ensures var window := LastOf(s, size);
            && |window| == (if |s| <= size then |s| else size)
            && forall i | 0 <= i < |window| :: window[i] == s[|s| - |window| + i]
  {
  }

  function PushWindow<T>(window: seq<T>, value: T, maxSize: int): seq<T> {
    LastOf(window + [value], maxSize)
  }

  function Clamped(s: seq<real>): (r: seq<real>)
    ensures |r| == |s| && forall i | 0 <= i < |s| :: r[i] == Clamp01(s[i])
  {
    seq(|s|, i requires 0 <= i < |s| => Clamp01(s[i]))
  }

  function NormalizeState(st: ScopeState, c: Config): ScopeState {
    ScopeState(
      Max(0.0, Floor(st.sampleCount)),
      Clamp01(st.ewmaMean),
      Max(0.0, st.ewmaVariance),
      Clamp(st.threshold, c.thresholdMin, c.thresholdMax),
      Clamp(st.k, c.minK, c.maxK),
      Clamped(LastOf(st.scoreWindow, c.quantileWindowSize.Floor)),
      LastOf(st.passWindow, c.passRateWindowSize.Floor),
      st.updatedAt)
  }

  function Passes(window: seq<bool>): nat {
    if window == [] then 0
    else Passes(window[..|window| - 1]) + (if window[|window| - 1] then 1 else 0)
  }

  function PassRate(window: seq<bool>): real {
    if window == [] then 0.0 else Passes(window) as real / |window| as real
  }

  function AdjustK(k: real, passRate: real, c: Config): real {
    if passRate > c.targetPassRate + c.targetBand then Clamp(k + c.kStep, c.minK, c.maxK)
    else if passRate < Max(0.0, c.targetPassRate - c.targetBand) then Clamp(k - c.kStep, c.minK, c.maxK)
    else k
  }

  /** Exponential smoothing. */
  function Blend(alpha: real, x: real, y: real): real {
    alpha * x + (1.0 - alpha) * y
  }

  function Square(x: real): real {
    x * x
  }

  function MeanStd(mean: real, k: real, std: real): real {
    mean + k * std
  }

  function DecisionThreshold(sqrt: real -> real, st: ScopeState, k: real, prior: real, c: Config): real {
    if st.sampleCount < c.minSamplesForAdaptive then
      var fallback := if |st.scoreWindow| >= 5 then MovingQuantile(st.scoreWindow, 1.0 - c.targetPassRate)
                      else c.initialThreshold;
      Clamp(fallback - Clamp01(prior) * 0.08, c.thresholdMin, c.thresholdMax)
    else
      var std := sqrt(Max(0.0, st.ewmaVariance));
      var candidate := Max(MeanStd(st.ewmaMean, k, std),
                           MovingQuantile(st.scoreWindow, 1.0 - c.targetPassRate));
      Clamp(Blend(c.thresholdAlpha, st.threshold, candidate), c.thresholdMin, c.thresholdMax)
  }

  function UpdateState(st: ScopeState, score: real, accepted: bool, threshold: real, k: real,
                       updatedAt: real, c: Config): ScopeState
  {
    var delta := score - st.ewmaMean;
    ScopeState(
      st.sampleCount + 1.0,
      if st.sampleCount == 0.0 then score
      else Blend(c.ewmaAlpha, st.ewmaMean, score),
      if st.sampleCount <= 1.0 then 0.0
      else Blend(c.ewmaAlpha, st.ewmaVariance, Square(delta)),
      threshold,
      k,
      PushWindow(st.scoreWindow, score, c.quantileWindowSize.Floor),
      PushWindow(st.passWindow, accepted, c.passRateWindowSize.Floor),
      updatedAt)
  }

  function ScoringReasons(input: Input, s: Components, c: Config): seq<Reason> {
    [SourceProjectScopedStats]
    + (if OrElse(input.decisionMs, 0.0) != 0.0 || OrElse(input.dwellMs, 0.0) != 0.0
       then [AuxiliaryBehaviorNotDirectLabel] else [])
    + (if s.duplicatePenalty > 0.0 then [DuplicatePenaltyApplied] else [])
    + (if s.rejectSimilarity > 0.0 && s.rejectPenalty >= c.rejectPenaltyCap then [RejectPenaltyCapped] else [])
  }

  function Feedback(passRate: real, c: Config): seq<Reason> {
    if passRate > c.targetPassRate + c.targetBand then [PassRateFeedbackIncreasedK]
    else if passRate < Max(0.0, c.targetPassRate - c.targetBand) then [PassRateFeedbackDecreasedK]
    else []
  }

  function ThresholdReasons(coldStart: bool): seq<Reason> {
    if coldStart then [ColdStartThreshold] else [EwmaMeanStdThreshold, MovingQuantileThreshold]
  }

  /** The codes, in the order in which one evaluation pushes them. */
  function Reasons(input: Input, s: Components, passRate: real, coldStart: bool, accepted: bool, c: Config)
    : seq<Reason>
  {
    ScoringReasons(input, s, c) + Feedback(passRate, c) + ThresholdReasons(coldStart)
    + [if accepted then AdaptiveThresholdPass else AdaptiveThresholdReject]
  }

  /** What one evaluation answers, given the state of the input's scope. */
  function Decide(sqrt: real -> real, c: Config, st: ScopeState, input: Input): Decision {
    var s := ScoreComponents(sqrt, input, c);
    var score := ScoreInput(s, c);
    var passRate := PassRate(st.passWindow);
    var k := AdjustK(st.k, passRate, c);
    var threshold := DecisionThreshold(sqrt, st, k, s.sourcePrior, c);
    var accepted := score >= threshold;
    Decision(input.id, accepted, score, threshold, ScopeKey(input.sourceType, input.projectId),
             st.sampleCount, passRate, c.targetPassRate, k, s,
             Reasons(input, s, passRate, st.sampleCount < c.minSamplesForAdaptive, accepted, c))
  }

  /** What the scope remembers of the decision. */
  function Learn(c: Config, st: ScopeState, d: Decision, updatedAt: real): ScopeState {
    UpdateState(st, d.score, d.accepted, d.threshold, d.k, updatedAt, c)
  }

  /** A decision accepts exactly the scores that reach its threshold, and its last code says so. */
  lemma VerdictTells(sqrt: real -> real, c: Config, st: ScopeState, input: Input)
    ensures Honest(Decide(sqrt, c, st, input), c)
    ensures var d := Decide(sqrt, c, st, input); d.id == input.id && d.sampleCountBefore == st.sampleCount
  {
  }

  predicate Honest(d: Decision, c: Config) {
    && (d.accepted <==> d.score >= d.threshold)
    && |d.reasonCodes| > 0
    && d.reasonCodes[|d.reasonCodes| - 1] == (if d.accepted then AdaptiveThresholdPass else AdaptiveThresholdReject)
    && d.targetPassRate == c.targetPassRate
  }

  /** Each code is there exactly for its reason. */
  lemma CodesTell(sqrt: real -> real, c: Config, st: ScopeState, input: Input)
    ensures var d := Decide(sqrt, c, st, input);
            CodesFit(d.reasonCodes, input, d.components, d.passRate, st.sampleCount < c.minSamplesForAdaptive,
                     d.accepted, c)
  {
    var d := Decide(sqrt, c, st, input);
    ReasonsFit(input, d.components, d.passRate, st.sampleCount < c.minSamplesForAdaptive, d.accepted, c);
  }

  predicate CodesFit(codes: seq<Reason>, input: Input, s: Components, passRate: real, coldStart: bool, accepted: bool,
                     c: Config)
  {
    ScoringFits(codes, input, s, c) && ControlFits(codes, passRate, coldStart, accepted, c)
  }

  predicate ScoringFits(codes: seq<Reason>, input: Input, s: Components, c: Config) {
    && SourceProjectScopedStats in codes
    && (AuxiliaryBehaviorNotDirectLabel in codes <==> Given(input.decisionMs) || Given(input.dwellMs))
    && (DuplicatePenaltyApplied in codes <==> s.duplicatePenalty > 0.0)
    && (RejectPenaltyCapped in codes <==> s.rejectSimilarity > 0.0 && s.rejectPenalty >= c.rejectPenaltyCap)
  }

  predicate ControlFits(codes: seq<Reason>, passRate: real, coldStart: bool, accepted: bool, c: Config) {
    && (PassRateFeedbackIncreasedK in codes <==> passRate > c.targetPassRate + c.targetBand)
    && (PassRateFeedbackDecreasedK in codes
        <==> passRate <= c.targetPassRate + c.targetBand && passRate < Max(0.0, c.targetPassRate - c.targetBand))
    && (ColdStartThreshold in codes <==> coldStart)
    && (EwmaMeanStdThreshold in codes <==> !coldStart)
    && (MovingQuantileThreshold in codes <==> !coldStart)
    && (AdaptiveThresholdPass in codes <==> accepted)
    && (AdaptiveThresholdReject in codes <==> !accepted)
  }

  /** A signal that is given and not zero. */
  predicate Given(signal: Option<real>) {
    signal.Some? && signal.value != 0.0
  }

  /** The codes that scoring can push. */
  predicate AboutScore(code: Reason) {
    || code == SourceProjectScopedStats || code == AuxiliaryBehaviorNotDirectLabel
    || code == DuplicatePenaltyApplied || code == RejectPenaltyCapped
  }

  function ControlReasons(passRate: real, coldStart: bool, accepted: bool, c: Config): seq<Reason> {
    Feedback(passRate, c) + ThresholdReasons(coldStart)
    + [if accepted then AdaptiveThresholdPass else AdaptiveThresholdReject]
  }

  lemma ReasonsFit(input: Input, s: Components, passRate: real, coldStart: bool, accepted: bool, c: Config)
    ensures CodesFit(Reasons(input, s, passRate, coldStart, accepted, c), input, s, passRate, coldStart, accepted, c)
  {
    ScoringCodes(input, s, c);
    ControlCodes(passRate, coldStart, accepted, c);
    BothFit(ScoringReasons(input, s, c), ControlReasons(passRate, coldStart, accepted, c), input, s, passRate,
            coldStart, accepted, c);
    ReasonsSplit(input, s, passRate, coldStart, accepted, c);
  }

  lemma ReasonsSplit(input: Input, s: Components, passRate: real, coldStart: bool, accepted: bool, c: Config)
    ensures Reasons(input, s, passRate, coldStart, accepted, c)
            == ScoringReasons(input, s, c) + ControlReasons(passRate, coldStart, accepted, c)
  {
  }

  lemma BothFit(scoring: seq<Reason>, control: seq<Reason>, input: Input, s: Components, passRate: real,
                coldStart: bool, accepted: bool, c: Config)
    requires ScoringFits(scoring, input, s, c) && forall code <- scoring :: AboutScore(code)
    requires ControlFits(control, passRate, coldStart, accepted, c) && forall code <- control :: !AboutScore(code)
    ensures CodesFit(scoring + control, input, s, passRate, coldStart, accepted, c)
  {
  }

  lemma ControlCodes(passRate: real, coldStart: bool, accepted: bool, c: Config)
    ensures var codes := ControlReasons(passRate, coldStart, accepted, c);
            ControlFits(codes, passRate, coldStart, accepted, c) && forall code <- codes :: !AboutScore(code)
  {
  }

  lemma ScoringCodes(input: Input, s: Components, c: Config)
    ensures var codes := ScoringReasons(input, s, c);
            ScoringFits(codes, input, s, c) && forall code <- codes :: AboutScore(code)
  {
  }

  // ---------- what every state keeps ----------

  /** The ranges that hold of every stored state, whatever it was restored from. */
  predicate StateOk(c: Config, st: ScopeState) {
    && 0.0 <= st.sampleCount && Whole(st.sampleCount)
    && 0.0 <= st.ewmaMean <= 1.0
    && 0.0 <= st.ewmaVariance
    && c.thresholdMin <= st.threshold <= c.thresholdMax
    && c.minK <= st.k <= c.maxK
    && |st.scoreWindow| as real <= c.quantileWindowSize
    && |st.passWindow| as real <= c.passRateWindowSize
    && forall i | 0 <= i < |st.scoreWindow| :: 0.0 <= st.scoreWindow[i] <= 1.0
  }

  lemma Mixed(alpha: real, x: real, y: real, lo: real, hi: real)
    requires 0.0 <= alpha <= 1.0 && lo <= x <= hi && lo <= y <= hi
    ensures lo <= Blend(alpha, x, y) <= hi
  {
    MixedAbove(alpha, x, y, lo);
    MixedAbove(alpha, -x, -y, -hi);
    assert Blend(alpha, -x, -y) == -Blend(alpha, x, y);
  }

  lemma MixedAbove(alpha: real, x: real, y: real, lo: real)
    requires 0.0 <= alpha <= 1.0 && lo <= x && lo <= y
    ensures lo <= Blend(alpha, x, y)
  {
    assert alpha * (x - lo) >= 0.0;
    assert (1.0 - alpha) * (y - lo) >= 0.0;
    assert alpha * (x - lo) + (1.0 - alpha) * (y - lo) == alpha * x + (1.0 - alpha) * y - lo;
  }

  lemma SquareBound(x: real, b: real)
    requires -b <= x <= b
    ensures 0.0 <= Square(x) <= Square(b)
  {
    NonNegativeProduct(b - x, b + x);
    assert (b - x) * (b + x) == b * b - x * x;
    if x >= 0.0 { NonNegativeProduct(x, x); } else { NonNegativeProduct(-x, -x); }
  }

  lemma NonNegativeProduct(x: real, y: real)
    requires x >= 0.0 && y >= 0.0
    ensures x * y >= 0.0
  {
  }

  /** Restored states are in range. */
  lemma NormalizedOk(st: ScopeState, c: Config)
    requires Normal(c)
    ensures StateOk(c, NormalizeState(st, c))
  {
    assert Whole(Floor(st.sampleCount)) && Whole(0.0);
  }

  lemma InitialOk(c: Config, now: real)
    requires Normal(c)
    ensures StateOk(c, Initial(c, now))
  {
    assert Whole(0.0);
  }

  lemma WholeSuccessor(x: real)
    requires Whole(x)
    ensures Whole(x + 1.0)
  {
  }

  lemma DecisionInRange(sqrt: real -> real, c: Config, st: ScopeState, input: Input)
    requires Normal(c) && StateOk(c, st)
    ensures var d := Decide(sqrt, c, st, input);
            && 0.0 <= d.score <= 1.0
            && c.thresholdMin <= d.threshold <= c.thresholdMax
            && c.minK <= d.k <= c.maxK
  {
  }

  lemma LearnOk(sqrt: real -> real, c: Config, st: ScopeState, input: Input, now: real)
    requires Normal(c) && StateOk(c, st)
    ensures StateOk(c, Learn(c, st, Decide(sqrt, c, st, input), now))
  {
    var d := Decide(sqrt, c, st, input);
    DecisionInRange(sqrt, c, st, input);
    UpdateOk(c, st, d.score, d.accepted, d.threshold, d.k, now);
  }

  lemma VarianceOk(c: Config, st: ScopeState, score: real)
    requires Normal(c) && StateOk(c, st) && 0.0 <= score <= 1.0
    ensures 0.0 <= Blend(c.ewmaAlpha, st.ewmaVariance, Square(score - st.ewmaMean))
  {
    SquareBound(score - st.ewmaMean, 1.0);
    MixedAbove(c.ewmaAlpha, st.ewmaVariance, Square(score - st.ewmaMean), 0.0);
  }

  lemma UpdateOk(c: Config, st: ScopeState, score: real, accepted: bool, threshold: real, k: real, now: real)
    requires Normal(c) && StateOk(c, st) && 0.0 <= score <= 1.0
    requires c.thresholdMin <= threshold <= c.thresholdMax && c.minK <= k <= c.maxK
    ensures StateOk(c, UpdateState(st, score, accepted, threshold, k, now, c))
  {
    WholeSuccessor(st.sampleCount);
    Mixed(c.ewmaAlpha, st.ewmaMean, score, 0.0, 1.0);
    VarianceOk(c, st, score);
  }

  /** Normalizing a stored state changes nothing exactly when it is in range. */
  lemma OkIffNormalized(st: ScopeState, c: Config)
    requires Normal(c)
    ensures StateOk(c, st) <==> NormalizeState(st, c) == st
  {
    NormalizedOk(st, c);
    if StateOk(c, st) {
      assert Clamped(st.scoreWindow) == st.scoreWindow;
    }
  }
}
