/** Judgment memories: decayed weighted averages and bounded vector lists. */
module Memory {
  import opened Prelude
  import opened Vectors
  import opened Filter

  // ---------- weighted averages ----------

  datatype Weighted = Weighted(vector: Vector, weight: real)

  function Valid(ws: seq<Weighted>): seq<Weighted> {
    if ws == [] then []
    else
      var before, last := Valid(ws[..|ws| - 1]), ws[|ws| - 1];
      if last.weight > 0.0 && last.vector != [] then before + [last] else before
  }

  /** The weighted sum of the vectors of one dimension. */
  function Totals(ws: seq<Weighted>, dimensions: nat): (r: Vector)
    ensures |r| == dimensions
  {
    if ws == [] then seq(dimensions, _ => 0.0)
    else
      var before, last := Totals(ws[..|ws| - 1], dimensions), ws[|ws| - 1];
      if |last.vector| != dimensions then before else Added(before, last)
  }

  function Share(item: Weighted, i: nat): real
    requires i < |item.vector|
  {
    item.vector[i] * item.weight
  }

  function Added(v: Vector, item: Weighted): (r: Vector)
    requires |v| == |item.vector|
    ensures |r| == |v| && forall i | 0 <= i < |v| :: r[i] == v[i] + Share(item, i)
  {
    seq(|v|, i requires 0 <= i < |v| => v[i] + Share(item, i))
  }

  function TotalWeight(ws: seq<Weighted>, dimensions: nat): real {
    if ws == [] then 0.0
    else
      var before, last := TotalWeight(ws[..|ws| - 1], dimensions), ws[|ws| - 1];
      if |last.vector| != dimensions then before else before + last.weight
  }

  function Divided(v: Vector, d: real): (r: Vector)
    requires d != 0.0
    ensures |r| == |v| && forall i | 0 <= i < |v| :: r[i] == v[i] / d
  {
    seq(|v|, i requires 0 <= i < |v| => v[i] / d)
  }

  function WeightedAverage(sqrt: real -> real, ws: seq<Weighted>): Option<Vector> {
    var valid := Valid(ws);
    if valid == [] then None
    else
      var dimensions := |valid[0].vector|;
      var weight := TotalWeight(valid, dimensions);
      if weight == 0.0 then None
      else Some(NormalizeVector(sqrt, Divided(Totals(valid, dimensions), weight)))
  }

  method AddTo(totals: array<real>, item: Weighted)
    requires totals.Length == |item.vector|
    modifies totals
    ensures totals[..] == Added(old(totals[..]), item)
  {
    for i := 0 to totals.Length
      invariant forall j | 0 <= j < totals.Length ::
          totals[j] == if j < i then old(totals[j]) + Share(item, j) else old(totals[j])
    {
      totals[i] := totals[i] + item.vector[i] * item.weight;
    }
  }

  /** The accumulating loops of the source. */
  method WeightedAverageByLoop(sqrt: real -> real, ws: seq<Weighted>) returns (r: Option<Vector>)
    ensures r == WeightedAverage(sqrt, ws)
  {
    var valid := Valid(ws);
    if valid == [] { return None; }
    var dimensions := |valid[0].vector|;
    var totals := new real[dimensions](_ => 0.0);
    var totalWeight := 0.0;
    for n := 0 to |valid|
      invariant totals[..] == Totals(valid[..n], dimensions)
      invariant totalWeight == TotalWeight(valid[..n], dimensions)
    {
      var item := valid[n];
      assert valid[..n + 1][..n] == valid[..n] && valid[..n + 1][n] == item;
      if |item.vector| == dimensions {
        totalWeight := totalWeight + item.weight;
        AddTo(totals, item);
      }
    }
    assert valid[..|valid|] == valid;
    if totalWeight == 0.0 { return None; }
    var scaled := seq(dimensions, i requires 0 <= i < dimensions reads totals => totals[i] / totalWeight);
    assert scaled == Divided(Totals(valid, dimensions), totalWeight);
    r := Some(NormalizeVector(sqrt, scaled));
  }

  function Reweigh(c: real, item: Weighted): Weighted {
    Weighted(item.vector, c * item.weight)
  }

  function Reweighted(c: real, ws: seq<Weighted>): (r: seq<Weighted>)
    ensures |r| == |ws|
    ensures forall i | 0 <= i < |ws| :: r[i] == Reweigh(c, ws[i])
  {
    seq(|ws|, i requires 0 <= i < |ws| => Reweigh(c, ws[i]))
  }

  lemma ReweightedPrefix(c: real, ws: seq<Weighted>)
    requires ws != []
    ensures Reweighted(c, ws)[..|ws| - 1] == Reweighted(c, ws[..|ws| - 1])
  {
  }

  lemma PositiveScaled(c: real, w: real)
    requires c > 0.0
    ensures c * w > 0.0 <==> w > 0.0
  {
    assert c * (-w) == -(c * w);
    if w > 0.0 {
      ProductPositive(c, w);
    } else if w < 0.0 {
      ProductPositive(c, -w);
    }
  }

  lemma {:induction false} ValidReweighted(c: real, ws: seq<Weighted>)
    requires c > 0.0
    ensures Valid(Reweighted(c, ws)) == Reweighted(c, Valid(ws))
  {
    if ws != [] {
      var before, last := ws[..|ws| - 1], ws[|ws| - 1];
      ReweightedPrefix(c, ws);
      ValidReweighted(c, before);
      PositiveScaled(c, last.weight);
      assert Reweighted(c, ws)[|ws| - 1] == Reweigh(c, last);
      assert Reweighted(c, Valid(before) + [last]) == Reweighted(c, Valid(before)) + [Reweigh(c, last)];
    }
  }

  lemma ScaledStep(c: real, total: real, x: real, w: real)
    ensures c * total + x * (c * w) == c * (total + x * w)
  {
  }

  lemma {:induction false} TotalsReweighted(c: real, ws: seq<Weighted>, dimensions: nat)
    ensures Totals(Reweighted(c, ws), dimensions) == Scale(c, Totals(ws, dimensions))
  {
    if ws == [] {
      assert Scale(c, Totals(ws, dimensions)) == Totals(ws, dimensions);
    } else {
      var last := ws[|ws| - 1];
      ReweightedPrefix(c, ws);
      TotalsReweighted(c, ws[..|ws| - 1], dimensions);
      assert Reweighted(c, ws)[|ws| - 1] == Reweigh(c, last);
      if |last.vector| == dimensions {
        AddedScaled(c, Totals(ws[..|ws| - 1], dimensions), last);
      }
    }
  }

  lemma AddedScaled(c: real, v: Vector, item: Weighted)
    requires |v| == |item.vector|
    ensures Added(Scale(c, v), Reweigh(c, item)) == Scale(c, Added(v, item))
  {
    forall i | 0 <= i < |v| ensures Added(Scale(c, v), Reweigh(c, item))[i] == Scale(c, Added(v, item))[i] {
      ScaledStep(c, v[i], item.vector[i], item.weight);
    }
  }

  lemma {:induction false} TotalWeightReweighted(c: real, ws: seq<Weighted>, dimensions: nat)
    ensures TotalWeight(Reweighted(c, ws), dimensions) == c * TotalWeight(ws, dimensions)
  {
    if ws != [] {
      ReweightedPrefix(c, ws);
      TotalWeightReweighted(c, ws[..|ws| - 1], dimensions);
      ScaledStep(c, TotalWeight(ws[..|ws| - 1], dimensions), 1.0, ws[|ws| - 1].weight);
    }
  }

  lemma QuotientScaled(c: real, x: real, w: real)
    requires c > 0.0 && w > 0.0
    ensures c * w != 0.0 && (c * x) / (c * w) == x / w
  {
    ProductPositive(c, w);
    var q, r, cw := x / w, (c * x) / (c * w), c * w;
    assert q * w == x && r * cw == c * x;
    assert q * cw == c * (q * w);
    Cancel(q, r, cw);
  }

  lemma {:induction false} WeightPositive(ws: seq<Weighted>, dimensions: nat)
    requires ws != [] && |ws[0].vector| == dimensions
    requires forall i | 0 <= i < |ws| :: ws[i].weight > 0.0
    ensures TotalWeight(ws, dimensions) > 0.0
  {
    if |ws| > 1 {
      WeightPositive(ws[..|ws| - 1], dimensions);
    } else {
      assert TotalWeight(ws[..0], dimensions) == 0.0;
    }
  }

  lemma {:induction false} ValidPositive(ws: seq<Weighted>)
    ensures forall i | 0 <= i < |Valid(ws)| :: Valid(ws)[i].weight > 0.0 && Valid(ws)[i].vector != []
  {
    if ws != [] { ValidPositive(ws[..|ws| - 1]); }
  }

  /** Only the ratios of the weights matter. */
  lemma AverageReweighted(sqrt: real -> real, c: real, ws: seq<Weighted>)
    requires c > 0.0
    ensures WeightedAverage(sqrt, Reweighted(c, ws)) == WeightedAverage(sqrt, ws)
  {
    ValidReweighted(c, ws);
    var valid := Valid(ws);
    if valid != [] {
      ValidPositive(ws);
      assert Reweighted(c, valid)[0] == Reweigh(c, valid[0]);
      MeanReweighted(c, valid, |valid[0].vector|);
    }
  }

  lemma MeanReweighted(c: real, ws: seq<Weighted>, dimensions: nat)
    requires c > 0.0 && ws != [] && |ws[0].vector| == dimensions
    requires forall i | 0 <= i < |ws| :: ws[i].weight > 0.0
    ensures TotalWeight(ws, dimensions) > 0.0 && TotalWeight(Reweighted(c, ws), dimensions) != 0.0
    ensures Divided(Totals(Reweighted(c, ws), dimensions), TotalWeight(Reweighted(c, ws), dimensions))
            == Divided(Totals(ws, dimensions), TotalWeight(ws, dimensions))
  {
    var again := Reweighted(c, ws);
    WeightPositive(ws, dimensions);
    TotalsReweighted(c, ws, dimensions);
    TotalWeightReweighted(c, ws, dimensions);
    DividedScaled(c, Totals(ws, dimensions), TotalWeight(ws, dimensions),
                  Totals(again, dimensions), TotalWeight(again, dimensions));
  }

  lemma DividedScaled(c: real, v: Vector, w: real, scaled: Vector, cw: real)
    requires c > 0.0 && w > 0.0 && scaled == Scale(c, v) && cw == c * w
    ensures cw != 0.0 && Divided(scaled, cw) == Divided(v, w)
  {
    QuotientScaled(c, 0.0, w);
    forall i | 0 <= i < |v| ensures Divided(scaled, cw)[i] == Divided(v, w)[i] {
      QuotientScaled(c, v[i], w);
    }
  }

  // ---------- judgment logs ----------

  datatype Judgment = Keep | Discard | Open

  datatype Log = Log(
    itemId: string,
    action: Judgment,
    sourceType: string,
    projectId: Option<string>,
    embedding: Vector,
    decidedAt: real,
    revisitCount: Option<real>,
    downstreamAction: Option<string>)

  predicate Downstream(log: Log) {
    Truthy(log.downstreamAction) && log.downstreamAction != Some("none")
  }

  /** `Math.exp(-LN2 * age / halfLife)`, as a function of age and half-life. */
  type Decay = (real, real) -> real

  function TimeDecay(decay: Decay, eventTime: real, now: real, halfLifeMs: real): real {
    decay(Max(0.0, now - eventTime), halfLifeMs)
  }

  function Aged(decay: Decay, log: Log, factor: real, halfLifeMs: real, now: real): Weighted {
    Weighted(log.embedding, factor * TimeDecay(decay, log.decidedAt, now, halfLifeMs))
  }

  function ShortWeights(decay: Decay, logs: seq<Log>, halfLifeMs: real, now: real): seq<Weighted> {
    if logs == [] then []
    else
      var before, last := ShortWeights(decay, logs[..|logs| - 1], halfLifeMs, now), logs[|logs| - 1];
      if last.action == Discard then before
      else before + [Aged(decay, last, ShortFactor(last), halfLifeMs, now)]
  }

  function ShortFactor(log: Log): real {
    if log.action == Keep then 1.0 else 0.45
  }

  function LongWeights(decay: Decay, logs: seq<Log>, halfLifeMs: real, now: real): seq<Weighted> {
    if logs == [] then []
    else
      var before, last := LongWeights(decay, logs[..|logs| - 1], halfLifeMs, now), logs[|logs| - 1];
      if last.action != Keep then before
      else before + [Aged(decay, last, LongFactor(last), halfLifeMs, now)]
  }

  function LongFactor(log: Log): real {
    if Downstream(log) then 1.35 else 1.0
  }

  /** The logs of some actions, in order. */
  function Chosen(logs: seq<Log>, actions: set<Judgment>): seq<Log> {
    if logs == [] then []
    else
      var before, last := Chosen(logs[..|logs| - 1], actions), logs[|logs| - 1];
      if last.action in actions then before + [last] else before
  }

  function Age(eventTime: real, now: real): real {
    if now < eventTime then 0.0 else now - eventTime
  }

  /** Short memory is fed by keeps, at full weight, and by opens at 0.45, each decayed by its age. */
  lemma {:induction false} ShortMemoryFeeds(decay: Decay, logs: seq<Log>, halfLifeMs: real, now: real)
    ensures var fed, ws := Chosen(logs, {Keep, Open}), ShortWeights(decay, logs, halfLifeMs, now);
            && |ws| == |fed|
            && forall i | 0 <= i < |fed| ::
                 && ws[i].vector == fed[i].embedding
                 && ws[i].weight == (if fed[i].action == Keep then 1.0 else 0.45)
                                    * decay(Age(fed[i].decidedAt, now), halfLifeMs)
  {
    if logs != [] { ShortMemoryFeeds(decay, logs[..|logs| - 1], halfLifeMs, now); }
  }

  /** Long memory is fed by keeps alone; one that led to further work weighs 1.35. */
  lemma {:induction false} LongMemoryFeeds(decay: Decay, logs: seq<Log>, halfLifeMs: real, now: real)
    ensures var fed, ws := Chosen(logs, {Keep}), LongWeights(decay, logs, halfLifeMs, now);
            && |ws| == |fed|
            && forall i | 0 <= i < |fed| ::
                 && ws[i].vector == fed[i].embedding
                 && ws[i].weight == (if NoFurtherWork(fed[i]) then 1.0 else 1.35)
                                    * decay(Age(fed[i].decidedAt, now), halfLifeMs)
  {
    if logs != [] {
      LongMemoryFeeds(decay, logs[..|logs| - 1], halfLifeMs, now);
      FurtherWork(logs[|logs| - 1]);
    }
  }

  predicate NoFurtherWork(log: Log) {
    log.downstreamAction == None || log.downstreamAction == Some("") || log.downstreamAction == Some("none")
  }

  lemma FurtherWork(log: Log)
    ensures Downstream(log) <==> !NoFurtherWork(log)
  {
  }

  ghost predicate Splits(decay: Decay, halfLifeMs: real, x: real, y: real) {
    decay(x + y, halfLifeMs) == decay(x, halfLifeMs) * decay(y, halfLifeMs)
  }

  /** What makes `decay` an exponential: positive, and sums of ages become products. */
  ghost predicate Exponential(decay: Decay, halfLifeMs: real) {
    && (forall age | age >= 0.0 :: decay(age, halfLifeMs) > 0.0)
    && (forall x, y | x >= 0.0 && y >= 0.0 :: Splits(decay, halfLifeMs, x, y))
  }

  lemma Rearranged(factor: real, x: real, y: real)
    ensures factor * (x * y) == y * (factor * x)
  {
  }

  lemma DecayLater(decay: Decay, halfLifeMs: real, log: Log, factor: real, now: real, later: real)
    requires Exponential(decay, halfLifeMs) && log.decidedAt <= now <= later
    ensures Aged(decay, log, factor, halfLifeMs, later)
            == Reweigh(decay(later - now, halfLifeMs), Aged(decay, log, factor, halfLifeMs, now))
  {
    var x, y := now - log.decidedAt, later - now;
    assert later - log.decidedAt == x + y;
    assert Splits(decay, halfLifeMs, x, y);
    Rearranged(factor, decay(x, halfLifeMs), decay(y, halfLifeMs));
  }

  lemma ReweightedPush(c: real, ws: seq<Weighted>, item: Weighted)
    ensures Reweighted(c, ws + [item]) == Reweighted(c, ws) + [Reweigh(c, item)]
  {
  }

  lemma {:induction false} WeightsLater(decay: Decay, logs: seq<Log>, halfLifeMs: real, now: real, later: real)
    requires Exponential(decay, halfLifeMs) && now <= later
    requires forall log | log in logs :: log.decidedAt <= now
    ensures ShortWeights(decay, logs, halfLifeMs, later)
            == Reweighted(decay(later - now, halfLifeMs), ShortWeights(decay, logs, halfLifeMs, now))
    ensures LongWeights(decay, logs, halfLifeMs, later)
            == Reweighted(decay(later - now, halfLifeMs), LongWeights(decay, logs, halfLifeMs, now))
  {
    if logs != [] {
      var n, c := |logs| - 1, decay(later - now, halfLifeMs);
      var last := logs[n];
      WeightsLater(decay, logs[..n], halfLifeMs, now, later);
      DecayLater(decay, halfLifeMs, last, ShortFactor(last), now, later);
      DecayLater(decay, halfLifeMs, last, LongFactor(last), now, later);
      ReweightedPush(c, ShortWeights(decay, logs[..n], halfLifeMs, now),
                     Aged(decay, last, ShortFactor(last), halfLifeMs, now));
      ReweightedPush(c, LongWeights(decay, logs[..n], halfLifeMs, now),
                     Aged(decay, last, LongFactor(last), halfLifeMs, now));
    }
  }

  /**
    Time passing alone never moves a memory: all ages grow together, every weight shrinks by one factor, and the
    normalized average stays the same.
   */
  lemma MemoriesDoNotAge(
      sqrt: real -> real, decay: Decay, logs: seq<Log>, halfLifeMs: real, now: real, later: real)
    requires Exponential(decay, halfLifeMs) && now <= later
    requires forall log | log in logs :: log.decidedAt <= now
    ensures WeightedAverage(sqrt, ShortWeights(decay, logs, halfLifeMs, later))
            == WeightedAverage(sqrt, ShortWeights(decay, logs, halfLifeMs, now))
    ensures WeightedAverage(sqrt, LongWeights(decay, logs, halfLifeMs, later))
            == WeightedAverage(sqrt, LongWeights(decay, logs, halfLifeMs, now))
  {
    WeightsLater(decay, logs, halfLifeMs, now, later);
    var c := decay(later - now, halfLifeMs);
    AverageReweighted(sqrt, c, ShortWeights(decay, logs, halfLifeMs, now));
    AverageReweighted(sqrt, c, LongWeights(decay, logs, halfLifeMs, now));
  }

  // ---------- vector lists ----------

  /** A memory as a list of vectors, which is all that is ever read of it. */
  function Listed(memory: Filter.Memory): seq<Vector> {
    match memory
    case Absent => []
    case One(v) => if v == [] then [] else [v]
    case Many(vs) => vs
  }

  /** `slice(-max)`; a bound of zero keeps everything. */
  function SliceLast<T>(s: seq<T>, max: int): seq<T> {
    if max > 0 then LastOf(s, max)
    else if -max <= |s| then s[-max..]
    else []
  }

  function PushVector(memory: Filter.Memory, v: Vector, max: int): Filter.Memory {
    if memory == One([]) || memory == Many([]) then Many([v])
    else Many(SliceLast(Listed(memory) + [v], max))
  }

  lemma {:induction false} BestOfOne(sqrt: real -> real, a: Vector, v: Vector)
    ensures Best(sqrt, a, [v]) == Cosine(sqrt, a, v)
  {
    assert [v][..0] == [];
    assert Best(sqrt, a, [v][..0]) == 0.0;
  }

  /** A single vector and a list of one are the same memory. */
  lemma SimilarityOfListed(sqrt: real -> real, a: Vector, memory: Filter.Memory)
    ensures MaxMemorySimilarity(sqrt, a, memory) == MaxMemorySimilarity(sqrt, a, Many(Listed(memory)))
  {
    if memory.One? && memory.vector != [] { BestOfOne(sqrt, a, memory.vector); }
  }

  /** What a bounded list keeps of everything pushed to it; a bound of zero keeps it all. */
  function KeepLast<T>(s: seq<T>, max: nat): seq<T> {
    if max == 0 then s else LastOf(s, max)
  }

  lemma PushKeepsLast(memory: Filter.Memory, pushed: seq<Vector>, v: Vector, max: nat)
    requires memory.Many? && Listed(memory) == KeepLast(pushed, max)
    ensures PushVector(memory, v, max).Many?
    ensures Listed(PushVector(memory, v, max)) == KeepLast(pushed + [v], max)
  {
    if max > 0 { assert LastOf(LastOf(pushed, max) + [v], max) == LastOf(pushed + [v], max); }
  }

  /** What was pushed last is always held. */
  lemma PushedIsHeld(memory: Filter.Memory, v: Vector, max: nat)
    ensures Holds(PushVector(memory, v, max), v)
  {
    var all := Listed(memory) + [v];
    assert all[|all| - 1] == v;
    if max > 0 {
      var kept := LastOf(all, max);
      assert kept[|kept| - 1] == v;
    }
  }
}
