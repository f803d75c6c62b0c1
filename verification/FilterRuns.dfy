/** Whole runs of the adaptive filter: scope isolation, restarts, and the state as a function of the log. */
module FilterRuns {
  import opened Prelude
  import opened Vectors
  import opened Quantile
  import opened Filter
  import opened Folds

  type Scopes = map<string, ScopeState>

  // ---------- calls ----------

  /** `Restart` replaces the filter by one constructed from its own snapshot. */
  datatype Call =
    | Evaluate(input: Input, clock: real)
    | ReadScope(sourceType: string, projectId: Option<string>, clock: real)
    | Restart

  function KeyOf(input: Input): string {
    ScopeKey(input.sourceType, input.projectId)
  }

  function Restore(c: Config, snapshot: Scopes): (scopes: Scopes)
    ensures scopes.Keys == snapshot.Keys
    ensures forall key | key in snapshot :: scopes[key] == NormalizeState(snapshot[key], c)
  {
    map key | key in snapshot :: NormalizeState(snapshot[key], c)
  }

  function StateOf(c: Config, scopes: Scopes, key: string, now: real): ScopeState {
    if key in scopes then scopes[key] else Initial(c, now)
  }

  function Step(sqrt: real -> real, c: Config, scopes: Scopes, call: Call): Scopes {
    match call
    case Evaluate(input, clock) =>
      var now := OrElse(input.now, clock);
      var st := StateOf(c, scopes, KeyOf(input), now);
      scopes[KeyOf(input) := Learn(c, st, Decide(sqrt, c, st, input), now)]
    case ReadScope(sourceType, projectId, clock) =>
      var key := ScopeKey(sourceType, projectId);
      scopes[key := StateOf(c, scopes, key, clock)]
    case Restart => Restore(c, scopes)
  }

  function Verdict(sqrt: real -> real, c: Config, scopes: Scopes, input: Input, clock: real): Decision {
    Decide(sqrt, c, StateOf(c, scopes, KeyOf(input), OrElse(input.now, clock)), input)
  }

  function Answer(sqrt: real -> real, c: Config, scopes: Scopes, call: Call): seq<Decision> {
    match call
    case Evaluate(input, clock) => [Verdict(sqrt, c, scopes, input, clock)]
    case _ => []
  }

  function After(sqrt: real -> real, c: Config, scopes: Scopes, calls: seq<Call>): Scopes {
    if calls == [] then scopes
    else Step(sqrt, c, After(sqrt, c, scopes, calls[..|calls| - 1]), calls[|calls| - 1])
  }

  function Decisions(sqrt: real -> real, c: Config, scopes: Scopes, calls: seq<Call>): seq<Decision> {
    if calls == [] then []
    else
      var before := calls[..|calls| - 1];
      Decisions(sqrt, c, scopes, before) + Answer(sqrt, c, After(sqrt, c, scopes, before), calls[|calls| - 1])
  }

  function Feeding(sqrt: real -> real, c: Config): (Scopes, Input) -> Scopes {
    (scopes: Scopes, input: Input) => Step(sqrt, c, scopes, Evaluate(input, 0.0))
  }

  function Deciding(sqrt: real -> real, c: Config): (Scopes, Input) -> Decision {
    (scopes: Scopes, input: Input) => Verdict(sqrt, c, scopes, input, 0.0)
  }

  /** A batch of inputs that carry their own time stamps, fed one after the other. */
  function Fed(sqrt: real -> real, c: Config, scopes: Scopes, inputs: seq<Input>): Scopes {
    Folded(Feeding(sqrt, c), scopes, inputs)
  }

  function FedDecisions(sqrt: real -> real, c: Config, scopes: Scopes, inputs: seq<Input>): (ds: seq<Decision>)
    ensures |ds| == |inputs|
  {
    Answered(Feeding(sqrt, c), Deciding(sqrt, c), scopes, inputs)
  }

  lemma FedStep(sqrt: real -> real, c: Config, scopes: Scopes, inputs: seq<Input>, n: nat)
    requires n < |inputs|
    ensures Fed(sqrt, c, scopes, inputs[..n + 1])
            == Step(sqrt, c, Fed(sqrt, c, scopes, inputs[..n]), Evaluate(inputs[n], 0.0))
    ensures FedDecisions(sqrt, c, scopes, inputs[..n + 1])
            == FedDecisions(sqrt, c, scopes, inputs[..n])
               + [Verdict(sqrt, c, Fed(sqrt, c, scopes, inputs[..n]), inputs[n], 0.0)]
  {
    FoldStep(Feeding(sqrt, c), Deciding(sqrt, c), scopes, inputs, n);
  }

  /** Each decision of a batch is made on the scopes that the inputs before it left. */
  lemma FedAt(sqrt: real -> real, c: Config, scopes: Scopes, inputs: seq<Input>, i: nat)
    requires i < |inputs|
    ensures FedDecisions(sqrt, c, scopes, inputs)[i]
         == Verdict(sqrt, c, Fed(sqrt, c, scopes, inputs[..i]), inputs[i], 0.0)
  {
    AnsweredAt(Feeding(sqrt, c), Deciding(sqrt, c), scopes, inputs, i);
  }

  function Batch(inputs: seq<Input>): (calls: seq<Call>)
    ensures |calls| == |inputs| && forall i | 0 <= i < |inputs| :: calls[i] == Evaluate(inputs[i], 0.0)
  {
    seq(|inputs|, i requires 0 <= i < |inputs| => Evaluate(inputs[i], 0.0))
  }

  lemma RunStep(sqrt: real -> real, c: Config, scopes: Scopes, calls: seq<Call>, input: Input)
    ensures var reached := After(sqrt, c, scopes, calls);
            && After(sqrt, c, scopes, calls + [Evaluate(input, 0.0)])
               == Step(sqrt, c, reached, Evaluate(input, 0.0))
            && Decisions(sqrt, c, scopes, calls + [Evaluate(input, 0.0)])
               == Decisions(sqrt, c, scopes, calls) + [Verdict(sqrt, c, reached, input, 0.0)]
  {
    assert (calls + [Evaluate(input, 0.0)])[..|calls|] == calls;
  }

  lemma BatchPush(inputs: seq<Input>)
    requires inputs != []
    ensures Batch(inputs) == Batch(inputs[..|inputs| - 1]) + [Evaluate(inputs[|inputs| - 1], 0.0)]
  {
  }

  lemma FedLast(sqrt: real -> real, c: Config, scopes: Scopes, inputs: seq<Input>)
    requires inputs != []
    ensures var n := |inputs| - 1;
            && Fed(sqrt, c, scopes, inputs)
               == Step(sqrt, c, Fed(sqrt, c, scopes, inputs[..n]), Evaluate(inputs[n], 0.0))
            && FedDecisions(sqrt, c, scopes, inputs)
               == FedDecisions(sqrt, c, scopes, inputs[..n])
                  + [Verdict(sqrt, c, Fed(sqrt, c, scopes, inputs[..n]), inputs[n], 0.0)]
  {
    assert inputs[..|inputs|] == inputs;
    FedStep(sqrt, c, scopes, inputs, |inputs| - 1);
  }

  lemma {:induction false} BatchReaches(sqrt: real -> real, c: Config, scopes: Scopes, inputs: seq<Input>)
    ensures Fed(sqrt, c, scopes, inputs) == After(sqrt, c, scopes, Batch(inputs))
  {
    if inputs != [] {
      var n := |inputs| - 1;
      BatchReaches(sqrt, c, scopes, inputs[..n]);
      BatchPush(inputs);
      FedLast(sqrt, c, scopes, inputs);
      RunStep(sqrt, c, scopes, Batch(inputs[..n]), inputs[n]);
    }
  }

  /** Feeding a batch is a run of the filter, so everything proved of runs holds of batches. */
  lemma {:induction false} BatchIsRun(sqrt: real -> real, c: Config, scopes: Scopes, inputs: seq<Input>)
    ensures Fed(sqrt, c, scopes, inputs) == After(sqrt, c, scopes, Batch(inputs))
    ensures FedDecisions(sqrt, c, scopes, inputs) == Decisions(sqrt, c, scopes, Batch(inputs))
  {
    BatchReaches(sqrt, c, scopes, inputs);
    if inputs != [] {
      var n := |inputs| - 1;
      BatchIsRun(sqrt, c, scopes, inputs[..n]);
      BatchPush(inputs);
      FedLast(sqrt, c, scopes, inputs);
      RunStep(sqrt, c, scopes, Batch(inputs[..n]), inputs[n]);
    }
  }

  /** A state carries the input's own time, or the clock's where the input has none. */
  lemma EvaluationStamps(sqrt: real -> real, c: Config, scopes: Scopes, input: Input, clock: real)
    ensures var after := Step(sqrt, c, scopes, Evaluate(input, clock));
            && KeyOf(input) in after
            && after[KeyOf(input)].updatedAt == (if input.now.Some? then input.now.value else clock)
            && forall key | key in scopes && key != KeyOf(input) :: key in after && after[key] == scopes[key]
  {
  }

  // ---------- restarts ----------

  ghost predicate AllOk(c: Config, scopes: Scopes) {
    forall key | key in scopes :: StateOk(c, scopes[key])
  }

  lemma RestoredOk(c: Config, snapshot: Scopes)
    requires Normal(c)
    ensures AllOk(c, Restore(c, snapshot))
  {
    forall key | key in snapshot ensures StateOk(c, Restore(c, snapshot)[key]) {
      NormalizedOk(snapshot[key], c);
    }
  }

  lemma StepOk(sqrt: real -> real, c: Config, scopes: Scopes, call: Call)
    requires Normal(c) && AllOk(c, scopes)
    ensures AllOk(c, Step(sqrt, c, scopes, call))
  {
    match call
    case Evaluate(input, clock) =>
      var now := OrElse(input.now, clock);
      InitialOk(c, now);
      LearnOk(sqrt, c, StateOf(c, scopes, KeyOf(input), now), input, now);
    case ReadScope(_, _, clock) => InitialOk(c, clock);
    case Restart => RestoredOk(c, scopes);
  }

  lemma {:induction false} RunOk(sqrt: real -> real, c: Config, scopes: Scopes, calls: seq<Call>)
    requires Normal(c) && AllOk(c, scopes)
    ensures AllOk(c, After(sqrt, c, scopes, calls))
  {
    if calls != [] {
      RunOk(sqrt, c, scopes, calls[..|calls| - 1]);
      StepOk(sqrt, c, After(sqrt, c, scopes, calls[..|calls| - 1]), calls[|calls| - 1]);
    }
  }

  /** A filter restored from the snapshot taken at any point of any run holds exactly the same scopes. */
  lemma RestoreIsExact(sqrt: real -> real, config: Config, snapshot: Scopes, calls: seq<Call>)
    ensures var c := NormalizeConfig(config);
            var reached := After(sqrt, c, Restore(c, snapshot), calls);
            Restore(c, reached) == reached
  {
    var c := NormalizeConfig(config);
    ConfigNormal(config);
    RestoredOk(c, snapshot);
    RunOk(sqrt, c, Restore(c, snapshot), calls);
    RestoreOk(c, After(sqrt, c, Restore(c, snapshot), calls));
  }

  lemma RestoreOk(c: Config, scopes: Scopes)
    requires Normal(c) && AllOk(c, scopes)
    ensures Restore(c, scopes) == scopes
  {
    forall key | key in scopes ensures Restore(c, scopes)[key] == scopes[key] {
      OkIffNormalized(scopes[key], c);
    }
  }

  // ---------- one scope alone ----------

  /** A state without its time stamp, which no decision reads. */
  function Timeless(st: ScopeState): ScopeState {
    st.(updatedAt := 0.0)
  }

  /** What a scope amounts to, whether or not it has been stored yet. */
  function Core(c: Config, scopes: Scopes, key: string): ScopeState {
    Timeless(StateOf(c, scopes, key, 0.0))
  }

  /** The controller of one scope on its own: no map, no clock. */
  function Trained(sqrt: real -> real, c: Config, st: ScopeState, inputs: seq<Input>): ScopeState {
    if inputs == [] then st
    else
      var n := |inputs| - 1;
      var before := Trained(sqrt, c, st, inputs[..n]);
      Learn(c, before, Decide(sqrt, c, before, inputs[n]), 0.0)
  }

  function Verdicts(sqrt: real -> real, c: Config, st: ScopeState, inputs: seq<Input>): seq<Decision> {
    if inputs == [] then []
    else
      var n := |inputs| - 1;
      Verdicts(sqrt, c, st, inputs[..n]) + [Decide(sqrt, c, Trained(sqrt, c, st, inputs[..n]), inputs[n])]
  }

  function InputsOf(key: string, calls: seq<Call>): seq<Input> {
    if calls == [] then []
    else
      var before, last := InputsOf(key, calls[..|calls| - 1]), calls[|calls| - 1];
      if last.Evaluate? && KeyOf(last.input) == key then before + [last.input] else before
  }

  function For(key: string, decisions: seq<Decision>): seq<Decision> {
    if decisions == [] then []
    else
      var before, last := For(key, decisions[..|decisions| - 1]), decisions[|decisions| - 1];
      if last.scopeKey == key then before + [last] else before
  }

  lemma ForConcat(key: string, ds: seq<Decision>, d: Decision)
    ensures For(key, ds + [d]) == if d.scopeKey == key then For(key, ds) + [d] else For(key, ds)
  {
    assert (ds + [d])[..|ds|] == ds;
  }

  /** Decisions read a state only through its core. */
  lemma DecideTimeless(sqrt: real -> real, c: Config, s: ScopeState, t: ScopeState, input: Input)
    requires Timeless(s) == Timeless(t)
    ensures Decide(sqrt, c, s, input) == Decide(sqrt, c, t, input)
  {
    assert s == t.(updatedAt := s.updatedAt);
    var prior := ScoreComponents(sqrt, input, c).sourcePrior;
    ThresholdTimeless(sqrt, s, t, AdjustK(s.k, PassRate(s.passWindow), c), prior, c);
  }

  lemma ThresholdTimeless(sqrt: real -> real, s: ScopeState, t: ScopeState, k: real, prior: real, c: Config)
    requires Timeless(s) == Timeless(t)
    ensures DecisionThreshold(sqrt, s, k, prior, c) == DecisionThreshold(sqrt, t, k, prior, c)
  {
    assert s == t.(updatedAt := s.updatedAt);
  }

  lemma LearnTimeless(c: Config, s: ScopeState, t: ScopeState, d: Decision, now: real)
    requires Timeless(s) == Timeless(t)
    ensures Timeless(Learn(c, s, d, now)) == Learn(c, t, d, 0.0)
  {
  }

  /** One call moves the core of its own scope by one lesson and leaves every other core alone. */
  lemma StepCore(sqrt: real -> real, c: Config, scopes: Scopes, call: Call, key: string)
    requires Normal(c) && AllOk(c, scopes)
    ensures var core := Core(c, scopes, key);
            Core(c, Step(sqrt, c, scopes, call), key)
            == if call.Evaluate? && KeyOf(call.input) == key
               then Learn(c, core, Decide(sqrt, c, core, call.input), 0.0) else core
  {
    match call
    case Evaluate(input, clock) =>
      if KeyOf(input) == key {
        var now := OrElse(input.now, clock);
        var st := StateOf(c, scopes, key, now);
        DecideTimeless(sqrt, c, st, Core(c, scopes, key), input);
        LearnTimeless(c, st, Core(c, scopes, key), Decide(sqrt, c, st, input), now);
      }
    case ReadScope(_, _, _) =>
    case Restart => RestoreOk(c, scopes);
  }

  lemma AnswerCore(sqrt: real -> real, c: Config, scopes: Scopes, call: Call)
    ensures Answer(sqrt, c, scopes, call)
            == if call.Evaluate? then [Decide(sqrt, c, Core(c, scopes, KeyOf(call.input)), call.input)] else []
  {
    if call.Evaluate? {
      var key := KeyOf(call.input);
      DecideTimeless(sqrt, c, StateOf(c, scopes, key, OrElse(call.input.now, call.clock)),
                     Core(c, scopes, key), call.input);
    }
  }

  lemma {:induction false} CoreIsTrained(
      sqrt: real -> real, c: Config, scopes: Scopes, calls: seq<Call>, key: string)
    requires Normal(c) && AllOk(c, scopes)
    ensures Core(c, After(sqrt, c, scopes, calls), key)
            == Trained(sqrt, c, Core(c, scopes, key), InputsOf(key, calls))
  {
    if calls != [] {
      var before, call := calls[..|calls| - 1], calls[|calls| - 1];
      CoreIsTrained(sqrt, c, scopes, before, key);
      RunOk(sqrt, c, scopes, before);
      StepCore(sqrt, c, After(sqrt, c, scopes, before), call, key);
      if call.Evaluate? {
        TrainedStep(sqrt, c, Core(c, scopes, key), InputsOf(key, before), call.input);
      }
    }
  }

  lemma TrainedStep(sqrt: real -> real, c: Config, st: ScopeState, inputs: seq<Input>, input: Input)
    ensures var before := Trained(sqrt, c, st, inputs);
            && Trained(sqrt, c, st, inputs + [input]) == Learn(c, before, Decide(sqrt, c, before, input), 0.0)
            && Verdicts(sqrt, c, st, inputs + [input])
               == Verdicts(sqrt, c, st, inputs) + [Decide(sqrt, c, before, input)]
  {
    assert (inputs + [input])[..|inputs|] == inputs;
  }

  /** The scope seen by a whole run is the controller run on that scope's inputs alone. */
  lemma {:induction false} ScopeIsController(
      sqrt: real -> real, c: Config, scopes: Scopes, calls: seq<Call>, key: string)
    requires Normal(c) && AllOk(c, scopes)
    ensures Core(c, After(sqrt, c, scopes, calls), key)
            == Trained(sqrt, c, Core(c, scopes, key), InputsOf(key, calls))
    ensures For(key, Decisions(sqrt, c, scopes, calls))
            == Verdicts(sqrt, c, Core(c, scopes, key), InputsOf(key, calls))
  {
    CoreIsTrained(sqrt, c, scopes, calls, key);
    if calls != [] {
      var before, call := calls[..|calls| - 1], calls[|calls| - 1];
      ScopeIsController(sqrt, c, scopes, before, key);
      AnswerCore(sqrt, c, After(sqrt, c, scopes, before), call);
      var ds := Decisions(sqrt, c, scopes, before);
      if call.Evaluate? {
        var d := Decide(sqrt, c, Core(c, After(sqrt, c, scopes, before), KeyOf(call.input)), call.input);
        assert Decisions(sqrt, c, scopes, calls) == ds + [d];
        ForConcat(key, ds, d);
        TrainedStep(sqrt, c, Core(c, scopes, key), InputsOf(key, before), call.input);
      } else {
        assert Decisions(sqrt, c, scopes, calls) == ds;
      }
    }
  }

  // ---------- the theorems about interleaving ----------

  /** The calls that evaluate an input of one scope. */
  function OnlyScope(key: string, calls: seq<Call>): seq<Call> {
    if calls == [] then []
    else
      var before, last := OnlyScope(key, calls[..|calls| - 1]), calls[|calls| - 1];
      if last.Evaluate? && KeyOf(last.input) == key then before + [last] else before
  }

  lemma {:induction false} OnlyScopeInputs(key: string, calls: seq<Call>)
    ensures InputsOf(key, OnlyScope(key, calls)) == InputsOf(key, calls)
  {
    if calls != [] {
      var before, last := OnlyScope(key, calls[..|calls| - 1]), calls[|calls| - 1];
      OnlyScopeInputs(key, calls[..|calls| - 1]);
      assert (before + [last])[..|before|] == before;
    }
  }

  lemma {:induction false} OnlyScopeDecisions(
      sqrt: real -> real, c: Config, scopes: Scopes, key: string, calls: seq<Call>)
    ensures var ds := Decisions(sqrt, c, scopes, OnlyScope(key, calls)); For(key, ds) == ds
  {
    if calls != [] {
      var before, last := OnlyScope(key, calls[..|calls| - 1]), calls[|calls| - 1];
      OnlyScopeDecisions(sqrt, c, scopes, key, calls[..|calls| - 1]);
      if last.Evaluate? && KeyOf(last.input) == key {
        assert (before + [last])[..|before|] == before;
        ForConcat(key, Decisions(sqrt, c, scopes, before),
                  Answer(sqrt, c, After(sqrt, c, scopes, before), last)[0]);
      }
    }
  }

  /**
    Whatever else a filter is asked, and however often it is read or restarted, its decisions for one scope are
    those of a filter that held only that scope and was fed only that scope's inputs.
   */
  lemma ScopeRunsAlone(sqrt: real -> real, config: Config, snapshot: Scopes, calls: seq<Call>, key: string)
    ensures var c := NormalizeConfig(config);
            var alone := map k | k in snapshot && k == key :: snapshot[k];
            For(key, Decisions(sqrt, c, Restore(c, snapshot), calls))
            == Decisions(sqrt, c, Restore(c, alone), OnlyScope(key, calls))
  {
    var c := NormalizeConfig(config);
    var alone := map k | k in snapshot && k == key :: snapshot[k];
    ConfigNormal(config);
    RestoredOk(c, snapshot);
    RestoredOk(c, alone);
    ScopeIsController(sqrt, c, Restore(c, snapshot), calls, key);
    ScopeIsController(sqrt, c, Restore(c, alone), OnlyScope(key, calls), key);
    OnlyScopeInputs(key, calls);
    OnlyScopeDecisions(sqrt, c, Restore(c, alone), key, calls);
  }

  function Evaluations(calls: seq<Call>): seq<Call> {
    if calls == [] then []
    else
      var before, last := Evaluations(calls[..|calls| - 1]), calls[|calls| - 1];
      if last.Evaluate? then before + [last] else before
  }

  /** Reading scopes and restarting from snapshots, anywhere in a run, changes no decision. */
  lemma ReadsAndRestartsChangeNothing(sqrt: real -> real, config: Config, snapshot: Scopes, calls: seq<Call>)
    ensures var c := NormalizeConfig(config);
            Decisions(sqrt, c, Restore(c, snapshot), calls)
            == Decisions(sqrt, c, Restore(c, snapshot), Evaluations(calls))
  {
    var c := NormalizeConfig(config);
    ConfigNormal(config);
    RestoredOk(c, snapshot);
    SameDecisions(sqrt, c, Restore(c, snapshot), calls);
  }

  lemma {:induction false} SameDecisions(sqrt: real -> real, c: Config, scopes: Scopes, calls: seq<Call>)
    requires Normal(c) && AllOk(c, scopes)
    ensures Decisions(sqrt, c, scopes, calls) == Decisions(sqrt, c, scopes, Evaluations(calls))
  {
    if calls != [] {
      var before, call := calls[..|calls| - 1], calls[|calls| - 1];
      SameDecisions(sqrt, c, scopes, before);
      if call.Evaluate? {
        var kept, key := Evaluations(before), KeyOf(call.input);
        assert (kept + [call])[..|kept|] == kept;
        EvaluationInputs(key, before);
        ScopeIsController(sqrt, c, scopes, before, key);
        ScopeIsController(sqrt, c, scopes, kept, key);
        AnswerCore(sqrt, c, After(sqrt, c, scopes, before), call);
        AnswerCore(sqrt, c, After(sqrt, c, scopes, kept), call);
      }
    }
  }

  lemma {:induction false} EvaluationInputs(key: string, calls: seq<Call>)
    ensures InputsOf(key, Evaluations(calls)) == InputsOf(key, calls)
  {
    if calls != [] {
      var kept, last := Evaluations(calls[..|calls| - 1]), calls[|calls| - 1];
      EvaluationInputs(key, calls[..|calls| - 1]);
      assert (kept + [last])[..|kept|] == kept;
    }
  }

  // ---------- the state is a function of the log ----------

  function Scores(ds: seq<Decision>): (r: seq<real>)
    ensures |r| == |ds| && forall i | 0 <= i < |ds| :: r[i] == ds[i].score
  {
    seq(|ds|, i requires 0 <= i < |ds| => ds[i].score)
  }

  function Accepts(ds: seq<Decision>): (r: seq<bool>)
    ensures |r| == |ds| && forall i | 0 <= i < |ds| :: r[i] == ds[i].accepted
  {
    seq(|ds|, i requires 0 <= i < |ds| => ds[i].accepted)
  }

  lemma LastOfPush<T>(s: seq<T>, x: T, size: int)
    requires size > 0
    ensures PushWindow(LastOf(s, size), x, size) == LastOf(s + [x], size)
  {
  }

  /** What a scope remembers, read off the decisions it has made. */
  ghost predicate Remembers(c: Config, st: ScopeState, ds: seq<Decision>) {
    && st.sampleCount == |ds| as real
    && st.scoreWindow == LastOf(Scores(ds), c.quantileWindowSize.Floor)
    && st.passWindow == LastOf(Accepts(ds), c.passRateWindowSize.Floor)
    && st.threshold == (if ds == [] then c.initialThreshold else ds[|ds| - 1].threshold)
    && st.k == (if ds == [] then c.initialK else ds[|ds| - 1].k)
  }

  lemma LearnRemembers(c: Config, st: ScopeState, ds: seq<Decision>, d: Decision, now: real)
    requires Normal(c) && Remembers(c, st, ds)
    ensures Remembers(c, Learn(c, st, d, now), ds + [d])
  {
    LastOfPush(Scores(ds), d.score, c.quantileWindowSize.Floor);
    LastOfPush(Accepts(ds), d.accepted, c.passRateWindowSize.Floor);
    assert Scores(ds + [d]) == Scores(ds) + [d.score];
    assert Accepts(ds + [d]) == Accepts(ds) + [d.accepted];
  }

  /** The running mean stays among the scores seen, and the variance within the square of their spread. */
  ghost predicate Spread(st: ScopeState, ds: seq<Decision>, lo: real, hi: real) {
    && (ds != [] ==> lo <= st.ewmaMean <= hi)
    && 0.0 <= st.ewmaVariance <= Square(hi - lo)
  }

  lemma LearnSpread(c: Config, st: ScopeState, ds: seq<Decision>, d: Decision, lo: real, hi: real)
    requires Normal(c) && Spread(st, ds, lo, hi) && st.sampleCount == |ds| as real
    requires lo <= d.score <= hi
    ensures Spread(Learn(c, st, d, 0.0), ds + [d], lo, hi)
  {
    var delta, b := d.score - st.ewmaMean, hi - lo;
    if ds != [] {
      Mixed(c.ewmaAlpha, st.ewmaMean, d.score, lo, hi);
      SquareBound(delta, b);
      Mixed(c.ewmaAlpha, st.ewmaVariance, Square(delta), 0.0, Square(b));
    }
  }

  lemma {:induction false} ControllerRemembers(
      sqrt: real -> real, c: Config, inputs: seq<Input>, lo: real, hi: real)
    requires Normal(c) && lo <= hi
    requires forall d | d in Verdicts(sqrt, c, Initial(c, 0.0), inputs) :: lo <= d.score <= hi
    ensures var st := Trained(sqrt, c, Initial(c, 0.0), inputs);
            var ds := Verdicts(sqrt, c, Initial(c, 0.0), inputs);
            |ds| == |inputs| && Remembers(c, st, ds) && Spread(st, ds, lo, hi)
  {
    if inputs == [] {
      SquareBound(0.0, hi - lo);
    } else {
      var n := |inputs| - 1;
      var st := Trained(sqrt, c, Initial(c, 0.0), inputs[..n]);
      var ds := Verdicts(sqrt, c, Initial(c, 0.0), inputs[..n]);
      var d := Decide(sqrt, c, st, inputs[n]);
      var all := Verdicts(sqrt, c, Initial(c, 0.0), inputs);
      assert all == ds + [d];
      assert forall e | e in ds :: e in all;
      assert d in all;
      ControllerRemembers(sqrt, c, inputs[..n], lo, hi);
      LearnRemembers(c, st, ds, d, 0.0);
      LearnSpread(c, st, ds, d, lo, hi);
    }
  }

  // ---------- the averages in closed form ----------

  function Power(a: real, n: nat): real {
    if n == 0 then 1.0 else a * Power(a, n - 1)
  }

  /** How much the running mean of `n` scores weighs the one at position `i`. */
  function MeanWeight(a: real, n: nat, i: nat): real
    requires i < n
  {
    if i == 0 then Power(a, n - 1) else (1.0 - a) * Power(a, n - 1 - i)
  }

  function MeanWeights(a: real, n: nat): (w: Vector)
    ensures |w| == n && forall i | 0 <= i < n :: w[i] == MeanWeight(a, n, i)
  {
    seq(n, i requires 0 <= i < n => MeanWeight(a, n, i))
  }

  /** The exponentially weighted mean of a log. */
  function LogMean(a: real, scores: seq<real>): real {
    Dot(MeanWeights(a, |scores|), scores)
  }

  /** Smoothed squared distances from the mean before; the first two scores count nothing. */
  function LogVariance(a: real, scores: seq<real>): real {
    if |scores| <= 2 then 0.0
    else
      var before, last := scores[..|scores| - 1], scores[|scores| - 1];
      Blend(a, LogVariance(a, before), Square(last - LogMean(a, before)))
  }

  lemma {:induction false} WeightsDecay(a: real, n: nat)
    requires n > 0
    ensures MeanWeights(a, n + 1)[..n] == Scale(a, MeanWeights(a, n))
    ensures MeanWeights(a, n + 1)[n] == 1.0 - a
  {
    var w, v := MeanWeights(a, n + 1), Scale(a, MeanWeights(a, n));
    forall i | 0 <= i < n ensures w[i] == v[i] {
      WeightDecays(a, n, i);
    }
    assert Power(a, 0) == 1.0;
  }

  lemma WeightDecays(a: real, n: nat, i: nat)
    requires i < n
    ensures MeanWeight(a, n + 1, i) == a * MeanWeight(a, n, i)
  {
    var p := Power(a, n - 1 - i);
    assert Power(a, n - i) == a * p;
    assert (1.0 - a) * (a * p) == a * ((1.0 - a) * p);
  }

  lemma {:induction false} MeanStep(a: real, scores: seq<real>, x: real)
    ensures LogMean(a, scores + [x]) == if scores == [] then x else Blend(a, LogMean(a, scores), x)
  {
    var n, all := |scores|, scores + [x];
    var w := MeanWeights(a, n + 1);
    assert all[..n] == scores;
    DotLast(w, all);
    if n == 0 {
      assert Power(a, 0) == 1.0;
      assert Dot(w[..0], all[..0]) == 0.0;
    } else {
      WeightsDecay(a, n);
      DotScale(a, MeanWeights(a, n), scores);
    }
  }

  /** The state's mean and variance are those of its log. */
  ghost predicate Averages(c: Config, st: ScopeState, ds: seq<Decision>) {
    && (ds != [] ==> st.ewmaMean == LogMean(c.ewmaAlpha, Scores(ds)))
    && st.ewmaVariance == LogVariance(c.ewmaAlpha, Scores(ds))
  }

  lemma LearnMean(c: Config, st: ScopeState, ds: seq<Decision>, d: Decision)
    requires ds != [] ==> st.ewmaMean == LogMean(c.ewmaAlpha, Scores(ds))
    requires st.sampleCount == |ds| as real
    ensures Learn(c, st, d, 0.0).ewmaMean == LogMean(c.ewmaAlpha, Scores(ds) + [d.score])
  {
    MeanStep(c.ewmaAlpha, Scores(ds), d.score);
  }

  lemma VarianceStep(a: real, scores: seq<real>, x: real)
    ensures LogVariance(a, scores + [x])
         == if |scores| <= 1 then 0.0 else Blend(a, LogVariance(a, scores), Square(x - LogMean(a, scores)))
  {
    assert (scores + [x])[..|scores|] == scores;
  }

  lemma LearnVariance(c: Config, st: ScopeState, ds: seq<Decision>, d: Decision)
    requires Averages(c, st, ds) && st.sampleCount == |ds| as real
    ensures Learn(c, st, d, 0.0).ewmaVariance == LogVariance(c.ewmaAlpha, Scores(ds) + [d.score])
  {
    VarianceStep(c.ewmaAlpha, Scores(ds), d.score);
  }

  lemma LearnAverages(c: Config, st: ScopeState, ds: seq<Decision>, d: Decision)
    requires Averages(c, st, ds) && st.sampleCount == |ds| as real
    ensures Averages(c, Learn(c, st, d, 0.0), ds + [d])
  {
    assert Scores(ds + [d]) == Scores(ds) + [d.score];
    LearnMean(c, st, ds, d);
    LearnVariance(c, st, ds, d);
  }

  lemma {:induction false} ControllerAverages(sqrt: real -> real, c: Config, inputs: seq<Input>)
    requires Normal(c)
    ensures Averages(c, Trained(sqrt, c, Initial(c, 0.0), inputs), Verdicts(sqrt, c, Initial(c, 0.0), inputs))
  {
    if inputs != [] {
      var n := |inputs| - 1;
      var st := Trained(sqrt, c, Initial(c, 0.0), inputs[..n]);
      var ds := Verdicts(sqrt, c, Initial(c, 0.0), inputs[..n]);
      ControllerAverages(sqrt, c, inputs[..n]);
      ControllerCounts(sqrt, c, inputs[..n]);
      LearnAverages(c, st, ds, Decide(sqrt, c, st, inputs[n]));
    }
  }

  lemma {:induction false} ControllerCounts(sqrt: real -> real, c: Config, inputs: seq<Input>)
    requires Normal(c)
    ensures Remembers(c, Trained(sqrt, c, Initial(c, 0.0), inputs), Verdicts(sqrt, c, Initial(c, 0.0), inputs))
  {
    VerdictsInRange(sqrt, c, Initial(c, 0.0), inputs);
    ControllerRemembers(sqrt, c, inputs, 0.0, 1.0);
  }

  lemma {:induction false} VerdictsInRange(sqrt: real -> real, c: Config, st: ScopeState, inputs: seq<Input>)
    ensures forall d | d in Verdicts(sqrt, c, st, inputs) :: 0.0 <= d.score <= 1.0
  {
    if inputs != [] { VerdictsInRange(sqrt, c, st, inputs[..|inputs| - 1]); }
  }

  /**
    After any run of a fresh filter, every scope's windows are the last scores and verdicts of its own log, its
    threshold and gain are those of its last decision, its mean lies among the logged scores and its variance
    within the square of their spread.
   */
  lemma FreshRunRemembers(
      sqrt: real -> real, config: Config, calls: seq<Call>, key: string, lo: real, hi: real)
    requires lo <= hi
    requires forall d | d in For(key, Decisions(sqrt, NormalizeConfig(config), map[], calls)) :: lo <= d.score <= hi
    ensures var c := NormalizeConfig(config);
            var st := Core(c, After(sqrt, c, map[], calls), key);
            var log := For(key, Decisions(sqrt, c, map[], calls));
            Remembers(c, st, log) && Spread(st, log, lo, hi)
  {
    var c := NormalizeConfig(config);
    ConfigNormal(config);
    ScopeIsController(sqrt, c, map[], calls, key);
    ControllerRemembers(sqrt, c, InputsOf(key, calls), lo, hi);
  }

  /** The ranges of a fresh filter, and the window length that keeps the adaptive branch from an empty window. */
  predicate InBounds(c: Config, st: ScopeState) {
    && StateOk(c, st)
    && st.ewmaVariance <= 1.0
    && |st.scoreWindow| as real == Min(st.sampleCount, c.quantileWindowSize)
    && |st.passWindow| as real == Min(st.sampleCount, c.passRateWindowSize)
    && (st.sampleCount >= c.minSamplesForAdaptive ==> st.scoreWindow != [])
  }

  lemma FreshRunInBounds(sqrt: real -> real, config: Config, calls: seq<Call>, key: string)
    ensures var c := NormalizeConfig(config); InBounds(c, Core(c, After(sqrt, c, map[], calls), key))
  {
    var c := NormalizeConfig(config);
    var st := Core(c, After(sqrt, c, map[], calls), key);
    ConfigNormal(config);
    RunOk(sqrt, c, map[], calls);
    InitialOk(c, 0.0);
    ScopeIsController(sqrt, c, map[], calls, key);
    VerdictsInRange(sqrt, c, Initial(c, 0.0), InputsOf(key, calls));
    FreshRunRemembers(sqrt, config, calls, key, 0.0, 1.0);
    BoundsFromLog(c, st, For(key, Decisions(sqrt, c, map[], calls)));
  }

  lemma BoundsFromLog(c: Config, st: ScopeState, log: seq<Decision>)
    requires Normal(c) && StateOk(c, st) && Remembers(c, st, log) && Spread(st, log, 0.0, 1.0)
    ensures InBounds(c, st)
  {
    WindowLength(Scores(log), c.quantileWindowSize);
    WindowLength(Accepts(log), c.passRateWindowSize);
  }

  lemma WindowLength<T>(s: seq<T>, size: real)
    requires Whole(size) && size >= 1.0
    ensures |LastOf(s, size.Floor)| as real == Min(|s| as real, size)
  {
  }

  // ---------- restored filters, and what the next decision reads ----------

  lemma {:induction false} TrainedWindow(sqrt: real -> real, c: Config, st: ScopeState, inputs: seq<Input>)
    requires Normal(c) && inputs != []
    ensures Trained(sqrt, c, st, inputs).scoreWindow != []
  {
  }

  /**
    The adaptive branch can meet an empty score window only in a scope whose snapshot claimed enough samples
    without scores and that has not been evaluated since.
   */
  lemma EmptyAdaptiveWindowIff(sqrt: real -> real, config: Config, snapshot: Scopes, calls: seq<Call>, key: string)
    ensures var c := NormalizeConfig(config);
            var st := Core(c, After(sqrt, c, Restore(c, snapshot), calls), key);
            st.sampleCount >= c.minSamplesForAdaptive && st.scoreWindow == []
            <==> && InputsOf(key, calls) == []
                 && key in snapshot
                 && snapshot[key].scoreWindow == []
                 && snapshot[key].sampleCount >= c.minSamplesForAdaptive
  {
    var c := NormalizeConfig(config);
    ConfigNormal(config);
    RestoredOk(c, snapshot);
    CoreIsTrained(sqrt, c, Restore(c, snapshot), calls, key);
    if InputsOf(key, calls) != [] {
      TrainedWindow(sqrt, c, Core(c, Restore(c, snapshot), key), InputsOf(key, calls));
    } else if key in snapshot {
      FloorAtLeast(snapshot[key].sampleCount, c.minSamplesForAdaptive);
    }
  }

  lemma FloorAtLeast(x: real, bound: real)
    requires Whole(bound) && bound >= 1.0
    ensures Max(0.0, Floor(x)) >= bound <==> x >= bound
  {
    var f, b := x.Floor, bound.Floor;
    assert f as real <= x < (f + 1) as real && bound == b as real;
    if x >= bound {
      assert f + 1 > b;
    }
  }

  /** In every normal configuration the window quantile leaves at most the target share of scores above it. */
  lemma QuantileKeepsTarget(c: Config, window: seq<real>, share: real)
    requires Normal(c) && window != [] && share == c.targetPassRate * |window| as real
    ensures Leaves(window, share, MovingQuantile(window, 1.0 - c.targetPassRate))
  {
    ShareOfComplement(|window|, c.targetPassRate);
    QuantileLeaves(window, 1.0 - c.targetPassRate, share);
  }

  lemma QuantileLeaves(window: seq<real>, quantile: real, share: real)
    requires window != [] && share == Share(|window|, quantile)
    ensures Leaves(window, share, MovingQuantile(window, quantile))
  {
    QuantileExact(window, quantile);
  }

  lemma ShareOfComplement(n: nat, target: real)
    requires 0.0 <= target <= 1.0
    ensures Share(n, 1.0 - target) == target * n as real
  {
    assert 1.0 - Clamp01(1.0 - target) == target;
  }

  /**
    A decision read off the log of its scope: how many decisions came before, which share of the recent ones passed,
    the gain moved by that share in its direction by one step unless it meets its bound, and the threshold.
   */
  ghost predicate ReadsLog(sqrt: real -> real, c: Config, log: seq<Decision>, d: Decision) {
    var before := if log == [] then c.initialK else log[|log| - 1].k;
    && d.sampleCountBefore == |log| as real
    && d.passRate == PassRate(LastOf(Accepts(log), c.passRateWindowSize.Floor))
    && (d.passRate > c.targetPassRate + c.targetBand ==> d.k == Min(before + c.kStep, c.maxK))
    && (d.passRate < c.targetPassRate - c.targetBand ==> d.k == Max(before - c.kStep, c.minK))
    && (c.targetPassRate - c.targetBand <= d.passRate <= c.targetPassRate + c.targetBand ==> d.k == before)
    && d.threshold == ThresholdFrom(sqrt, c, log, d.k, d.components.sourcePrior)
  }

  /** After any run of a fresh filter, the next decision is made from the log of its scope. */
  lemma NextDecisionReadsLog(sqrt: real -> real, config: Config, calls: seq<Call>, input: Input, clock: real)
      returns (d: Decision)
    ensures var c := NormalizeConfig(config);
            && Decisions(sqrt, c, map[], calls + [Evaluate(input, clock)]) == Decisions(sqrt, c, map[], calls) + [d]
            && ReadsLog(sqrt, c, For(KeyOf(input), Decisions(sqrt, c, map[], calls)), d)
  {
    var c, key := NormalizeConfig(config), KeyOf(input);
    var st := Core(c, After(sqrt, c, map[], calls), key);
    FreshScope(sqrt, config, calls, key);
    DecisionReadsLog(sqrt, c, st, For(key, Decisions(sqrt, c, map[], calls)), input);
    d := Decide(sqrt, c, st, input);
    RunAnswers(sqrt, c, calls, input, clock);
  }

  lemma RunAnswers(sqrt: real -> real, c: Config, calls: seq<Call>, input: Input, clock: real)
    ensures Decisions(sqrt, c, map[], calls + [Evaluate(input, clock)])
         == Decisions(sqrt, c, map[], calls)
            + [Decide(sqrt, c, Core(c, After(sqrt, c, map[], calls), KeyOf(input)), input)]
  {
    assert (calls + [Evaluate(input, clock)])[..|calls|] == calls;
    AnswerCore(sqrt, c, After(sqrt, c, map[], calls), Evaluate(input, clock));
  }

  /** A scope of a fresh filter is in range and is what its log makes it. */
  lemma FreshScope(sqrt: real -> real, config: Config, calls: seq<Call>, key: string)
    ensures var c := NormalizeConfig(config);
            var st := Core(c, After(sqrt, c, map[], calls), key);
            var log := For(key, Decisions(sqrt, c, map[], calls));
            Normal(c) && StateOk(c, st) && Remembers(c, st, log) && Averages(c, st, log)
  {
    var c := NormalizeConfig(config);
    ConfigNormal(config);
    ScopeIsController(sqrt, c, map[], calls, key);
    ControllerCounts(sqrt, c, InputsOf(key, calls));
    ControllerAverages(sqrt, c, InputsOf(key, calls));
    RunOk(sqrt, c, map[], calls);
    InitialOk(c, 0.0);
  }

  lemma DecisionReadsLog(sqrt: real -> real, c: Config, st: ScopeState, log: seq<Decision>, input: Input)
    requires Normal(c) && StateOk(c, st) && Remembers(c, st, log) && Averages(c, st, log)
    ensures ReadsLog(sqrt, c, log, Decide(sqrt, c, st, input))
  {
    var passRate := PassRate(st.passWindow);
    PassRateRange(st.passWindow);
    GainStep(c, st.k, passRate);
    ThresholdReadsLog(sqrt, c, st, log, AdjustK(st.k, passRate, c), ScoreComponents(sqrt, input, c).sourcePrior);
  }

  /**
    The threshold that a log calls for. Before the adaptive count: the initial one, or from five scores on the window
    quantile, less the relief of the source's prior. Afterwards: the last one blended with the larger of the mean plus
    `k` deviations and the quantile. Either way within its bounds.
   */
  function ThresholdFrom(sqrt: real -> real, c: Config, log: seq<Decision>, k: real, prior: real): real {
    var scores := Scores(log);
    var quantile := MovingQuantile(LastOf(scores, c.quantileWindowSize.Floor), 1.0 - c.targetPassRate);
    if log == [] || |log| as real < c.minSamplesForAdaptive then
      var base := if |log| < 5 then c.initialThreshold else quantile;
      Clamp(base - Clamp01(prior) * 0.08, c.thresholdMin, c.thresholdMax)
    else
      var std := sqrt(LogVariance(c.ewmaAlpha, scores));
      var target := Max(MeanStd(LogMean(c.ewmaAlpha, scores), k, std), quantile);
      Clamp(Blend(c.thresholdAlpha, log[|log| - 1].threshold, target), c.thresholdMin, c.thresholdMax)
  }

  lemma ThresholdReadsLog(sqrt: real -> real, c: Config, st: ScopeState, log: seq<Decision>, k: real, prior: real)
    requires Normal(c) && StateOk(c, st) && Remembers(c, st, log) && Averages(c, st, log)
    ensures DecisionThreshold(sqrt, st, k, prior, c) == ThresholdFrom(sqrt, c, log, k, prior)
  {
    WindowLength(Scores(log), c.quantileWindowSize);
  }

  /** Every decision of every run, from any snapshot, accepts exactly the scores that reach its threshold. */
  lemma {:induction false} EveryDecisionIsHonest(
      sqrt: real -> real, c: Config, scopes: Scopes, calls: seq<Call>)
    ensures forall d | d in Decisions(sqrt, c, scopes, calls) :: Honest(d, c)
  {
    if calls != [] {
      var before, call := calls[..|calls| - 1], calls[|calls| - 1];
      EveryDecisionIsHonest(sqrt, c, scopes, before);
      if call.Evaluate? {
        var reached := After(sqrt, c, scopes, before);
        VerdictTells(sqrt, c, StateOf(c, reached, KeyOf(call.input), OrElse(call.input.now, call.clock)), call.input);
      }
    }
  }

  /** The pass rate is the share of accepted decisions. */
  lemma {:induction false} PassesCount(window: seq<bool>)
    ensures Passes(window) == multiset(window)[true]
  {
    if window != [] {
      var n := |window| - 1;
      assert window == window[..n] + [window[n]];
      PassesCount(window[..n]);
    }
  }

  lemma PassRateIsShare(window: seq<bool>)
    requires window != []
    ensures PassRate(window) * |window| as real == multiset(window)[true] as real
  {
    PassesCount(window);
  }

  lemma GainStep(c: Config, k: real, passRate: real)
    requires Normal(c) && c.minK <= k <= c.maxK && passRate >= 0.0
    ensures var next := AdjustK(k, passRate, c);
            && (passRate > c.targetPassRate + c.targetBand ==> next == Min(k + c.kStep, c.maxK))
            && (passRate < c.targetPassRate - c.targetBand ==> next == Max(k - c.kStep, c.minK))
            && (c.targetPassRate - c.targetBand <= passRate <= c.targetPassRate + c.targetBand ==> next == k)
  {
  }

  lemma {:induction false} PassesAtMost(window: seq<bool>)
    ensures Passes(window) <= |window|
  {
    if window != [] { PassesAtMost(window[..|window| - 1]); }
  }

  lemma PassRateRange(window: seq<bool>)
    ensures 0.0 <= PassRate(window) <= 1.0
  {
    PassesAtMost(window);
    if window != [] { QuotientRange(Passes(window) as real, |window| as real); }
  }

  lemma QuotientRange(x: real, y: real)
    requires 0.0 <= x <= y && y > 0.0
    ensures 0.0 <= x / y <= 1.0
  {
    var r := x / y;
    assert r * y == x;
    if r > 1.0 { ProductPositive(r - 1.0, y); }
  }

  // ---------- the filter object ----------

  class HopperAdaptiveFilter {
    const sqrt: real -> real
    const config: Config
    var scopes: Scopes

    constructor (sqrt: real -> real, config: Config, snapshot: Scopes)
      ensures this.sqrt == sqrt && this.config == NormalizeConfig(config)
      ensures scopes == Restore(this.config, snapshot)
    {
      this.sqrt := sqrt;
      this.config := NormalizeConfig(config);
      scopes := map[];
      new;
      var entries := snapshot.Keys;
      while entries != {}
        invariant entries <= snapshot.Keys
        invariant scopes.Keys == snapshot.Keys - entries
        invariant forall key | key in scopes :: scopes[key] == NormalizeState(snapshot[key], this.config)
        decreases |entries|
      {
        var key :| key in entries;
        scopes := scopes[key := NormalizeState(snapshot[key], this.config)];
        entries := entries - {key};
      }
    }

    method GetState(key: string, now: real) returns (st: ScopeState)
      modifies this
      ensures st == StateOf(config, old(scopes), key, now)
      ensures scopes == old(scopes)[key := st]
    {
      if key in scopes {
        st := scopes[key];
      } else {
        st := Initial(config, now);
        scopes := scopes[key := st];
      }
    }

    method AdjustGain(k: real, passRate: real, reasonCodes: seq<Reason>) returns (next: real, codes: seq<Reason>)
      ensures next == AdjustK(k, passRate, config)
      ensures codes == reasonCodes + Feedback(passRate, config)
    {
      codes := reasonCodes;
      if passRate > config.targetPassRate + config.targetBand {
        codes := codes + [PassRateFeedbackIncreasedK];
        next := Clamp(k + config.kStep, config.minK, config.maxK);
      } else if passRate < Max(0.0, config.targetPassRate - config.targetBand) {
        codes := codes + [PassRateFeedbackDecreasedK];
        next := Clamp(k - config.kStep, config.minK, config.maxK);
      } else {
        next := k;
      }
    }

    method ScoringCodes(input: Input, s: Components) returns (codes: seq<Reason>)
      ensures codes == ScoringReasons(input, s, config)
    {
      codes := [SourceProjectScopedStats];
      if OrElse(input.decisionMs, 0.0) != 0.0 || OrElse(input.dwellMs, 0.0) != 0.0 {
        codes := codes + [AuxiliaryBehaviorNotDirectLabel];
      }
      if s.duplicatePenalty > 0.0 {
        codes := codes + [DuplicatePenaltyApplied];
      }
      if s.rejectSimilarity > 0.0 && s.rejectPenalty >= config.rejectPenaltyCap {
        codes := codes + [RejectPenaltyCapped];
      }
    }

    method Evaluate(input: Input, clock: real) returns (d: Decision)
      modifies this
      ensures scopes == Step(sqrt, config, old(scopes), Call.Evaluate(input, clock))
      ensures d == Verdict(sqrt, config, old(scopes), input, clock)
    {
      var now := OrElse(input.now, clock);
      var st := GetState(KeyOf(input), now);
      var s := ScoreComponents(sqrt, input, config);
      var codes := ScoringCodes(input, s);
      var score := ScoreInput(s, config);
      var passRate := PassRate(st.passWindow);
      var k;
      k, codes := AdjustGain(st.k, passRate, codes);
      var threshold := DecisionThreshold(sqrt, st, k, s.sourcePrior, config);
      codes := codes + ThresholdReasons(st.sampleCount < config.minSamplesForAdaptive);
      var accepted := score >= threshold;
      codes := codes + [if accepted then AdaptiveThresholdPass else AdaptiveThresholdReject];
      scopes := scopes[KeyOf(input) := UpdateState(st, score, accepted, threshold, k, now, config)];
      d := Decision(input.id, accepted, score, threshold, KeyOf(input), st.sampleCount, passRate,
                    config.targetPassRate, k, s, codes);
    }

    /** The snapshot; restoring it, now or after more calls, is `RestoreIsExact`. */
    method Snapshot() returns (snapshot: Scopes)
      ensures snapshot == scopes
    {
      snapshot := map key | key in scopes :: scopes[key];
    }

    method GetScopeState(sourceType: string, projectId: Option<string>, clock: real) returns (st: ScopeState)
      modifies this
      ensures scopes == Step(sqrt, config, old(scopes), ReadScope(sourceType, projectId, clock))
      ensures st == StateOf(config, old(scopes), ScopeKey(sourceType, projectId), clock)
    {
      st := GetState(ScopeKey(sourceType, projectId), clock);
    }
  }
}
