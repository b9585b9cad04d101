/**
The online logistic ranker: one coefficient per feature, moved by each feedback
event and clamped.  Arithmetic is over the reals and the sigmoid is any strictly
increasing function into (0, 1).
*/
module OnlineModel {

  const COEF_CLAMP := 6.0
  const DEFAULT_LEARNING_RATE := 0.3

  ghost predicate IsSigmoid(sigmoid: real -> real)
  {
    && (forall z :: 0.0 < sigmoid(z) < 1.0)
    && (forall y, z :: y < z ==> sigmoid(y) < sigmoid(z))
  }

  datatype Model = Model(weights: map<string, real>, bias: real, samples: nat)

  const ZERO := Model(map[], 0.0, 0)

  /** A missing key reads as zero. */
  function Weight(w: map<string, real>, f: string): real { if f in w then w[f] else 0.0 }

  function Clamp(v: real): real
  {
    if v > COEF_CLAMP then COEF_CLAMP else if v < -COEF_CLAMP then -COEF_CLAMP else v
  }

  function Sum(w: map<string, real>, features: seq<string>): real
  {
    if features == [] then 0.0 else Sum(w, features[..|features| - 1]) + Weight(w, features[|features| - 1])
  }

  function Score(m: Model, features: seq<string>): real { m.bias + Sum(m.weights, features) }

  function Rate(lr: real): real { if lr <= 0.0 then DEFAULT_LEARNING_RATE else lr }

  /** How far an update moves each coefficient. */
  function Step(m: Model, features: seq<string>, target: real, lr: real, sigmoid: real -> real): real
  {
    Rate(lr) * (target - sigmoid(Score(m, features)))
  }

  /** The coefficients after moving those of `features`, one occurrence after the other. */
  function Moved(w: map<string, real>, features: seq<string>, step: real): map<string, real>
  {
    if features == [] then w
    else
      var n := |features| - 1;
      var before := Moved(w, features[..n], step);
      if features[n] == "" then before else before[features[n] := Clamp(Weight(before, features[n]) + step)]
  }

  function Updated(m: Model, features: seq<string>, target: real, lr: real, sigmoid: real -> real): Model
  {
    var step := Step(m, features, target, lr, sigmoid);
    Model(Moved(m.weights, features, step), Clamp(m.bias + step), m.samples + 1)
  }

  class LearnedModel {
    var weights: map<string, real>
    var bias: real
    var samples: nat

    function View(): Model
      reads this
    {
      Model(weights, bias, samples)
    }

    constructor ()
      ensures View() == ZERO
    {
      weights, bias, samples := map[], 0.0, 0;
    }

    method Predict(features: seq<string>, sigmoid: real -> real) returns (p: real)
      ensures p == sigmoid(Score(View(), features))
    {
      var z := bias;
      assert features[..0] == [];
      for i := 0 to |features|
        invariant z == bias + Sum(weights, features[..i])
      {
        assert features[..i + 1][..i] == features[..i];
        z := z + Weight(weights, features[i]);
      }
      assert features[..|features|] == features;
      p := sigmoid(z);
    }

    method Update(features: seq<string>, target: real, lr: real, sigmoid: real -> real)
      modifies this
      ensures View() == Updated(old(View()), features, target, lr, sigmoid)
    {
      var rate := lr;
      if lr <= 0.0 { rate := DEFAULT_LEARNING_RATE; }
      var p := Predict(features, sigmoid);
      var step := rate * (target - p);
      assert step == Step(View(), features, target, lr, sigmoid);
      hide Step, Score, Clamp, Moved;
      bias := Clamp(bias + step);
      MoveWeights(features, step);
      samples := samples + 1;
    }

    /** The loop of Update. */
    method MoveWeights(features: seq<string>, step: real)
      modifies this`weights
      ensures weights == Moved(old(weights), features, step)
    {
      hide Clamp;
      assert features[..0] == [];
      for i := 0 to |features|
        invariant weights == Moved(old(weights), features[..i], step)
      {
        assert features[..i + 1][..i] == features[..i];
        if features[i] == "" { continue; }
        weights := weights[features[i] := Clamp(Weight(weights, features[i]) + step)];
      }
      assert features[..|features|] == features;
    }
  }

  // ---------------------------------------------------------------- bounds

  predicate InRange(v: real) { -6.0 <= v <= 6.0 }

  ghost predicate Bounded(m: Model) { InRange(m.bias) && forall f :: f in m.weights ==> InRange(m.weights[f]) }

  lemma {:induction false} MovedInRange(w: map<string, real>, features: seq<string>, step: real)
    requires forall f :: f in w ==> InRange(w[f])
    ensures forall f :: f in Moved(w, features, step) ==> InRange(Moved(w, features, step)[f])
  {
    if features != [] { MovedInRange(w, features[..|features| - 1], step); }
  }

  /** One feedback event. */
  datatype Event = Event(features: seq<string>, target: real, lr: real)

  function Trained(m: Model, events: seq<Event>, sigmoid: real -> real): Model
    decreases |events|
  {
    if events == [] then m else Trained(Updated(m, events[0].features, events[0].target, events[0].lr, sigmoid), events[1..], sigmoid)
  }

  /** Over any events, every coefficient stays within the clamp and every event is counted. */
  lemma {:induction false} TrainedIsBounded(m: Model, events: seq<Event>, sigmoid: real -> real)
    requires Bounded(m)
    ensures Bounded(Trained(m, events, sigmoid)) && Trained(m, events, sigmoid).samples == m.samples + |events|
    decreases |events|
  {
    hide Step, Moved;
    if events != [] {
      var e := events[0];
      MovedInRange(m.weights, e.features, Step(m, e.features, e.target, e.lr, sigmoid));
      TrainedIsBounded(Updated(m, e.features, e.target, e.lr, sigmoid), events[1..], sigmoid);
    }
  }

  lemma {:induction false} FromZero(events: seq<Event>, sigmoid: real -> real)
    ensures Bounded(Trained(ZERO, events, sigmoid)) && Trained(ZERO, events, sigmoid).samples == |events|
  {
    TrainedIsBounded(ZERO, events, sigmoid);
    hide Trained;
  }

  // ---------------------------------------------------------------- where an update moves a coefficient

  function Occurrences(features: seq<string>, f: string): nat
  {
    if features == [] then 0
    else Occurrences(features[..|features| - 1], f) + if features[|features| - 1] == f then 1 else 0
  }

  function Times(n: nat, step: real): real { if n == 0 then 0.0 else Times(n - 1, step) + step }

  lemma {:induction false} TimesSign(n: nat, step: real)
    ensures step >= 0.0 ==> Times(n, step) >= 0.0
    ensures step <= 0.0 ==> Times(n, step) <= 0.0
    ensures n > 0 && step > 0.0 ==> Times(n, step) > 0.0
    ensures n > 0 && step < 0.0 ==> Times(n, step) < 0.0
  {
    if n > 0 { TimesSign(n - 1, step); }
  }

  /** Clamping after every occurrence is clamping once at the end. */
  lemma {:induction false} MovedExactly(w: map<string, real>, features: seq<string>, step: real, f: string)
    requires f != "" && InRange(Weight(w, f))
    ensures Weight(Moved(w, features, step), f) == Clamp(Weight(w, f) + Times(Occurrences(features, f), step))
  {
    if features != [] {
      var n := |features| - 1;
      MovedExactly(w, features[..n], step, f);
      TimesSign(Occurrences(features[..n], f), step);
    }
  }

  lemma {:induction false} TimesIs(n: nat, step: real)
    ensures Times(n, step) == n as real * step
  {
    if n > 0 { TimesIs(n - 1, step); }
  }

  /** `v` brought between -6 and 6. */
  ghost predicate IsClamped(v: real, r: real)
  {
    (v > 6.0 ==> r == 6.0) && (v < -6.0 ==> r == -6.0) && (-6.0 <= v <= 6.0 ==> r == v)
  }

  /**
   * One update, outright: the error times the learning rate, 0.3 unless given,
   * is added to the bias once and to a feature's coefficient once per
   * occurrence, each clamped; no other coefficient moves.
   */
  lemma {:induction false} UpdateExactly(m: Model, features: seq<string>, target: real, lr: real, sigmoid: real -> real, f: string)
    requires f != "" && InRange(Weight(m.weights, f))
    ensures var m' := Updated(m, features, target, lr, sigmoid);
            var step := (if lr <= 0.0 then 0.3 else lr) * (target - sigmoid(m.bias + Sum(m.weights, features)));
            && IsClamped(m.bias + step, m'.bias)
            && IsClamped(Weight(m.weights, f) + Times(Occurrences(features, f), step), Weight(m'.weights, f))
            && m'.samples == m.samples + 1
  {
    var step := Step(m, features, target, lr, sigmoid);
    StepIs(m, features, target, lr, sigmoid);
    MovedExactly(m.weights, features, step, f);
    ClampIs(m.bias + step);
    ClampIs(Weight(m.weights, f) + Times(Occurrences(features, f), step));
    hide Moved, Times, Sum, Occurrences, Step, Clamp, IsClamped;
  }

  lemma {:induction false} StepIs(m: Model, features: seq<string>, target: real, lr: real, sigmoid: real -> real)
    ensures Step(m, features, target, lr, sigmoid) == (if lr <= 0.0 then 0.3 else lr) * (target - sigmoid(m.bias + Sum(m.weights, features)))
  {
    hide Sum;
  }

  lemma {:induction false} ClampIs(v: real) ensures IsClamped(v, Clamp(v)) {}

  /** The score is the bias and the coefficient of each listed feature, zero for one never seen. */
  lemma {:induction false} SumAdds(w: map<string, real>, a: seq<string>, b: seq<string>)
    ensures Sum(w, a + b) == Sum(w, a) + Sum(w, b)
    decreases |b|
  {
    if b == [] {
      assert a + b == a;
    } else {
      var n := |b| - 1;
      assert (a + b)[..|a + b| - 1] == a + b[..n];
      SumAdds(w, a, b[..n]);
    }
  }

  lemma {:induction false} SumOne(w: map<string, real>, f: string)
    ensures Sum(w, [f]) == (if f in w then w[f] else 0.0) && Sum(w, []) == 0.0
  {
    assert [f][..0] == [];
  }

  lemma {:induction false} EmptyKeyStays(w: map<string, real>, features: seq<string>, step: real)
    ensures Weight(Moved(w, features, step), "") == Weight(w, "")
  {
    if features != [] { EmptyKeyStays(w, features[..|features| - 1], step); }
  }

  lemma {:induction false} WeightMoves(w: map<string, real>, features: seq<string>, step: real, f: string)
    requires InRange(Weight(w, f))
    ensures step >= 0.0 ==> Weight(Moved(w, features, step), f) >= Weight(w, f)
    ensures step <= 0.0 ==> Weight(Moved(w, features, step), f) <= Weight(w, f)
  {
    hide Moved, Times;
    if f == "" { EmptyKeyStays(w, features, step); } else {
      MovedExactly(w, features, step, f);
      TimesSign(Occurrences(features, f), step);
    }
  }

  lemma {:induction false} SumMoves(w: map<string, real>, features: seq<string>, step: real, over: seq<string>)
    requires forall f :: f in w ==> InRange(w[f])
    ensures step >= 0.0 ==> Sum(Moved(w, features, step), over) >= Sum(w, over)
    ensures step <= 0.0 ==> Sum(Moved(w, features, step), over) <= Sum(w, over)
    decreases |over|
  {
    hide Moved;
    if over != [] {
      SumMoves(w, features, step, over[..|over| - 1]);
      WeightMoves(w, features, step, over[|over| - 1]);
    }
  }

  /**
   * An update towards a label above the current prediction lowers no prediction
   * for any features at all, and one towards a label below raises none.
   */
  lemma {:induction false} UpdateIsMonotone(m: Model, features: seq<string>, target: real, lr: real, sigmoid: real -> real, over: seq<string>)
    requires IsSigmoid(sigmoid) && Bounded(m)
    ensures var m' := Updated(m, features, target, lr, sigmoid);
            && (target >= sigmoid(Score(m, features)) ==> sigmoid(Score(m', over)) >= sigmoid(Score(m, over)))
            && (target <= sigmoid(Score(m, features)) ==> sigmoid(Score(m', over)) <= sigmoid(Score(m, over)))
  {
    hide *;
    ScoreMoves(m, features, target, lr, sigmoid, over);
    Monotone(sigmoid, Score(m, over), Score(Updated(m, features, target, lr, sigmoid), over));
  }

  lemma {:induction false} Monotone(sigmoid: real -> real, y: real, z: real)
    requires IsSigmoid(sigmoid)
    ensures y <= z ==> sigmoid(y) <= sigmoid(z)
    ensures y >= z ==> sigmoid(y) >= sigmoid(z)
  {
  }

  lemma {:induction false} ScoreMoves(m: Model, features: seq<string>, target: real, lr: real, sigmoid: real -> real, over: seq<string>)
    requires Bounded(m)
    ensures target >= sigmoid(Score(m, features)) ==> Score(Updated(m, features, target, lr, sigmoid), over) >= Score(m, over)
    ensures target <= sigmoid(Score(m, features)) ==> Score(Updated(m, features, target, lr, sigmoid), over) <= Score(m, over)
  {
    var step := Step(m, features, target, lr, sigmoid);
    StepHasSign(m, features, target, lr, sigmoid);
    SumMoves(m.weights, features, step, over);
    hide Step, Moved, Sum;
  }

  lemma {:induction false} StepHasSign(m: Model, features: seq<string>, target: real, lr: real, sigmoid: real -> real)
    ensures target > sigmoid(Score(m, features)) ==> Step(m, features, target, lr, sigmoid) > 0.0
    ensures target == sigmoid(Score(m, features)) ==> Step(m, features, target, lr, sigmoid) == 0.0
    ensures target < sigmoid(Score(m, features)) ==> Step(m, features, target, lr, sigmoid) < 0.0
  {
    var rate, err := Rate(lr), target - sigmoid(Score(m, features));
    if err > 0.0 {
      MulPositive(rate, err);
    } else if err < 0.0 {
      MulPositive(rate, -err);
      assert rate * -err == -(rate * err);
    }
  }

  lemma {:induction false} MulPositive(a: real, b: real)
    requires a > 0.0 && b > 0.0
    ensures a * b > 0.0
  {
  }

  /** A positive interaction never lowers the prediction for its own features, a negative one never raises it. */
  lemma {:induction false} FeedbackHelps(m: Model, features: seq<string>, lr: real, sigmoid: real -> real)
    requires IsSigmoid(sigmoid) && Bounded(m)
    ensures sigmoid(Score(Updated(m, features, 1.0, lr, sigmoid), features)) >= sigmoid(Score(m, features))
    ensures sigmoid(Score(Updated(m, features, 0.0, lr, sigmoid), features)) <= sigmoid(Score(m, features))
  {
    hide Updated, Score, Bounded;
    UpdateIsMonotone(m, features, 1.0, lr, sigmoid, features);
    UpdateIsMonotone(m, features, 0.0, lr, sigmoid, features);
  }

  // ---------------------------------------------------------------- when an update has no effect

  /** The clamp a step of this sign runs into. */
  function Limit(step: real): real { if step > 0.0 then 6.0 else -6.0 }

  /** The bias and every named feature are at the given value. */
  predicate Saturated(m: Model, features: seq<string>, at: real)
  {
    m.bias == at && forall i :: 0 <= i < |features| && features[i] != "" ==> Weight(m.weights, features[i]) == at
  }

  lemma {:induction false} Occurs(features: seq<string>, i: nat)
    requires i < |features|
    ensures Occurrences(features, features[i]) > 0
  {
    var n := |features| - 1;
    if i < n {
      assert features[..n][i] == features[i];
      Occurs(features[..n], i);
    }
  }

  lemma {:induction false} WeightStays(w: map<string, real>, features: seq<string>, step: real, i: nat)
    requires i < |features| && InRange(Weight(w, features[i])) && step != 0.0
    ensures Weight(Moved(w, features, step), features[i]) == Weight(w, features[i])
       <==> features[i] == "" || Weight(w, features[i]) == Limit(step)
  {
    hide Moved, Times;
    if features[i] == "" { EmptyKeyStays(w, features, step); } else {
      Occurs(features, i);
      MovedExactly(w, features, step, features[i]);
      TimesSign(Occurrences(features, features[i]), step);
    }
  }

  lemma {:induction false} SumStays(w: map<string, real>, features: seq<string>, step: real, k: nat)
    requires k <= |features| && (forall f :: f in w ==> InRange(w[f])) && step != 0.0
    ensures Sum(Moved(w, features, step), features[..k]) == Sum(w, features[..k])
       <==> forall i :: 0 <= i < k && features[i] != "" ==> Weight(w, features[i]) == Limit(step)
    decreases k
  {
    hide Moved, Limit;
    if k > 0 {
      assert features[..k][..k - 1] == features[..k - 1] && features[..k][k - 1] == features[k - 1];
      SumStays(w, features, step, k - 1);
      SumMoves(w, features, step, features[..k - 1]);
      WeightStays(w, features, step, k - 1);
      WeightMoves(w, features, step, features[k - 1]);
    }
  }

  /** An update that misses its label moves the score of its own features unless all coefficients are at the clamp. */
  lemma {:induction false} ScoreStays(m: Model, features: seq<string>, target: real, lr: real, sigmoid: real -> real)
    requires Bounded(m) && Step(m, features, target, lr, sigmoid) != 0.0
    ensures Score(Updated(m, features, target, lr, sigmoid), features) == Score(m, features)
       <==> Saturated(m, features, Limit(Step(m, features, target, lr, sigmoid)))
  {
    var step := Step(m, features, target, lr, sigmoid);
    assert features[..|features|] == features;
    SumStays(m.weights, features, step, |features|);
    SumMoves(m.weights, features, step, features);
    hide Step, Moved, Sum;
  }

  lemma {:induction false} Strict(sigmoid: real -> real, y: real, z: real)
    requires IsSigmoid(sigmoid)
    ensures y < z <==> sigmoid(y) < sigmoid(z)
  {
  }

  /** A positive interaction raises the prediction unless the bias and every feature are already at the upper clamp. */
  lemma {:induction false} PositiveFeedbackRises(m: Model, features: seq<string>, lr: real, sigmoid: real -> real)
    requires IsSigmoid(sigmoid) && Bounded(m)
    ensures sigmoid(Score(Updated(m, features, 1.0, lr, sigmoid), features)) > sigmoid(Score(m, features)) <==> !Saturated(m, features, 6.0)
  {
    var s, s' := Score(m, features), Score(Updated(m, features, 1.0, lr, sigmoid), features);
    StepHasSign(m, features, 1.0, lr, sigmoid);
    ScoreStays(m, features, 1.0, lr, sigmoid);
    ScoreMoves(m, features, 1.0, lr, sigmoid, features);
    Strict(sigmoid, s, s');
    hide Step, Score, Updated, Saturated;
  }

  /** A negative one lowers it unless they are all at the lower clamp. */
  lemma {:induction false} NegativeFeedbackLowers(m: Model, features: seq<string>, lr: real, sigmoid: real -> real)
    requires IsSigmoid(sigmoid) && Bounded(m)
    ensures sigmoid(Score(Updated(m, features, 0.0, lr, sigmoid), features)) < sigmoid(Score(m, features)) <==> !Saturated(m, features, -6.0)
  {
    var s, s' := Score(m, features), Score(Updated(m, features, 0.0, lr, sigmoid), features);
    StepHasSign(m, features, 0.0, lr, sigmoid);
    ScoreStays(m, features, 0.0, lr, sigmoid);
    ScoreMoves(m, features, 0.0, lr, sigmoid, features);
    Strict(sigmoid, s', s);
    hide Step, Score, Updated, Saturated;
  }
}
