/** The learning-ability formulas of the adaptive learning system:
    comprehension speed, accuracy, consistency and attempt-trend fatigue,
    each computed from the `exercise_attempts` of one topic record.
    Python floats are modelled as exact reals. */
module Analytics {
  import opened Wrappers
  import opened Seqs
  import opened Reals

  /** One entry of `exercise_attempts`. */
  datatype Attempt = Attempt(timeSpent: real, correct: bool)

  /** The keys of a topic or performance record that the system reads;
      a key absent from the Python dict is `None` here. */
  datatype TopicData = TopicData(
    topicId: Option<string>,
    completionTime: Option<real>,
    correctRate: Option<real>,
    accuracy: Option<real>,
    completionRate: Option<real>,
    attempts: Option<seq<Attempt>>)

  /** The number of correct attempts. */
  function CorrectCount(a: seq<Attempt>): (n: nat)
    ensures n <= |a|
    ensures n == |a| <==> forall i :: 0 <= i < |a| ==> a[i].correct
    ensures n == 0 <==> forall i :: 0 <= i < |a| ==> !a[i].correct
  {
    if a == [] then 0
    else
      assert forall i :: 1 <= i < |a| ==> a[i] == a[1..][i - 1];
      (if a[0].correct then 1 else 0) + CorrectCount(a[1..])
  }

  function Times(a: seq<Attempt>): (t: seq<real>)
    ensures |t| == |a| && forall i :: 0 <= i < |a| ==> t[i] == a[i].timeSpent
  {
    seq(|a|, i requires 0 <= i < |a| => a[i].timeSpent)
  }

  /** The 1/0 trend of correct answers. */
  function CorrectTrend(a: seq<Attempt>): (c: seq<real>)
    ensures |c| == |a|
    ensures forall i :: 0 <= i < |a| ==> c[i] == (if a[i].correct then 1.0 else 0.0)
  {
    seq(|a|, i requires 0 <= i < |a| => if a[i].correct then 1.0 else 0.0)
  }

  /** Differences of consecutive elements. */
  function Deltas(s: seq<real>): (d: seq<real>)
    requires |s| >= 1
    ensures |d| == |s| - 1
    ensures forall i :: 0 <= i < |d| ==> d[i] == s[i + 1] - s[i]
  {
    seq(|s| - 1, i requires 0 <= i < |s| - 1 => s[i + 1] - s[i])
  }

  function Clamp01(x: real): (r: real)
    ensures 0.0 <= r <= 1.0
    ensures 0.0 <= x <= 1.0 ==> r == x
  {
    Min(Max(x, 0.0), 1.0)
  }

  /** `_calculate_comprehension_speed`: correct answers per unit of
      completion time; a missing or non-positive completion time gives 0. */
  function ComprehensionSpeed(completionTime: Option<real>, a: seq<Attempt>): (r: real)
    ensures r >= 0.0
    ensures var t := completionTime.GetOr(0.0);
            && (t > 0.0 ==> r * t == CorrectCount(a) as real && (CorrectCount(a) > 0 ==> r > 0.0))
            && (t <= 0.0 ==> r == 0.0)
  {
    var total := completionTime.GetOr(0.0);
    if total > 0.0 then
      DivFacts(CorrectCount(a) as real, total);
      CorrectCount(a) as real / total
    else 0.0
  }

  /** `_calculate_accuracy`: the fraction of correct attempts, 0 when there
      are none. */
  function Accuracy(a: seq<Attempt>): (r: real)
    ensures 0.0 <= r <= 1.0
    ensures a == [] ==> r == 0.0
    ensures r * |a| as real == CorrectCount(a) as real
    ensures a != [] ==> (r == 1.0 <==> forall i :: 0 <= i < |a| ==> a[i].correct)
    ensures r == 0.0 <==> forall i :: 0 <= i < |a| ==> !a[i].correct
  {
    if a == [] then 0.0
    else
      var c := CorrectCount(a);
      var n := |a|;
      RatioFacts(c as real, n as real);
      assert c as real == n as real <==> c == n;
      c as real / n as real
  }

  /** The squared deviations from `m`. */
  function SquaredDeviations(s: seq<real>, m: real): (d: seq<real>)
    ensures |d| == |s|
    ensures forall i :: 0 <= i < |s| ==> d[i] == (s[i] - m) * (s[i] - m)
    ensures forall i :: 0 <= i < |s| ==> d[i] >= 0.0 && (s[i] != m ==> d[i] > 0.0)
  {
    var d := seq(|s|, i requires 0 <= i < |s| => (s[i] - m) * (s[i] - m));
    assert forall i :: 0 <= i < |s| ==> d[i] >= 0.0 && (s[i] != m ==> d[i] > 0.0) by {
      forall i | 0 <= i < |s|
        ensures d[i] >= 0.0 && (s[i] != m ==> d[i] > 0.0)
      {
        SquareFacts(s[i] - m, d[i]);
      }
    }
    d
  }

  /** Population variance. */
  function Variance(s: seq<real>): (v: real)
    requires |s| > 0
    ensures v >= 0.0
  {
    var d := SquaredDeviations(s, Mean(s));
    SumNonNegative(d);
    Sum(d) / |s| as real
  }

  /** `_analyze_learning_consistency`: 1/(1 + variance of the attempt
      times), 0 when there are no attempts. */
  function Consistency(a: seq<Attempt>): (r: real)
    ensures a == [] ==> r == 0.0
    ensures a != [] ==> 0.0 < r <= 1.0
  {
    if a == [] then 0.0 else 1.0 / (1.0 + Variance(Times(a)))
  }

  /** The variance is zero exactly when all values are equal. */
  lemma VarianceZeroIff(s: seq<real>)
    requires |s| > 0
    ensures Variance(s) == 0.0 <==> forall i :: 0 <= i < |s| ==> s[i] == s[0]
  {
    var m := Mean(s);
    var d := SquaredDeviations(s, m);
    assert Variance(s) == Mean(d);
    MeanZeroIff(d);
    if forall i :: 0 <= i < |s| ==> s[i] == s[0] {
      MeanBounds(s, s[0], s[0]);
    }
  }

  /** Consistency reaches its maximum 1 exactly when every attempt took
      the same time. */
  lemma ConsistencyOneIff(a: seq<Attempt>)
    requires a != []
    ensures Consistency(a) == 1.0 <==> forall i :: 0 <= i < |a| ==> a[i].timeSpent == a[0].timeSpent
  {
    VarianceZeroIff(Times(a));
  }

  /** `_analyze_fatigue_level`: fewer than two attempts give 0; otherwise
      0.6 * (mean time increase) - 0.4 * (mean change of the 1/0 correct
      trend), clamped to [0, 1]. */
  function FatigueLevel(a: seq<Attempt>): (f: real)
    ensures 0.0 <= f <= 1.0
    ensures |a| < 2 ==> f == 0.0
  {
    if |a| < 2 then 0.0
    else
      var increases := Deltas(Times(a));
      var changes := Deltas(CorrectTrend(a));
      var avgIncrease := Sum(increases) / |increases| as real;
      var avgChange := Sum(changes) / |changes| as real;
      Clamp01(avgIncrease * 0.6 + (-avgChange) * 0.4)
  }

  /** The differences of consecutive elements sum to last minus first. */
  lemma {:induction false} DeltasTelescope(s: seq<real>)
    requires |s| >= 1
    ensures Sum(Deltas(s)) == s[|s| - 1] - s[0]
    decreases |s|
  {
    if |s| > 1 {
      assert Deltas(s) == [s[1] - s[0]] + Deltas(s[1..]);
      DeltasTelescope(s[1..]);
    }
  }

  function Indicator(b: bool): real {
    if b then 1.0 else 0.0
  }

  /** The fatigue formula in terms of the number of steps `n`, the total
      time increase `dt` and the total change `dc` of the correct trend. */
  function FatigueFormula(n: real, dt: real, dc: real): real
    requires n > 0.0
  {
    Clamp01(dt / n * 0.6 + (-(dc / n)) * 0.4)
  }

  /** The fatigue level depends only on the number of attempts and on the
      first and last attempt. */
  lemma FatigueClosedForm(a: seq<Attempt>)
    requires |a| >= 2
    ensures FatigueLevel(a) ==
              FatigueFormula((|a| - 1) as real,
                             a[|a| - 1].timeSpent - a[0].timeSpent,
                             Indicator(a[|a| - 1].correct) - Indicator(a[0].correct))
  {
    DeltasTelescope(Times(a));
    DeltasTelescope(CorrectTrend(a));
  }

  /** Attempts in the middle of the sequence do not affect the fatigue level. */
  lemma FatigueIgnoresMiddle(a: seq<Attempt>, b: seq<Attempt>)
    requires |a| == |b| >= 2
    requires a[0] == b[0] && a[|a| - 1] == b[|b| - 1]
    ensures FatigueLevel(a) == FatigueLevel(b)
  {
    FatigueClosedForm(a);
    FatigueClosedForm(b);
  }

  lemma FatigueFormulaMonotone(n: real, dt: real, extra: real, dc: real)
    requires n > 0.0 && extra >= 0.0
    ensures FatigueFormula(n, dt, dc) <= FatigueFormula(n, dt + extra, dc)
  {
    assert (dt + extra) / n == dt / n + extra / n;
    assert extra / n >= 0.0;
    Clamp01Monotone(dt / n * 0.6 + (-(dc / n)) * 0.4, (dt + extra) / n * 0.6 + (-(dc / n)) * 0.4);
  }

  /** Slowing down on the last attempt never lowers the fatigue level. */
  lemma FatigueMonotoneInLastTime(a: seq<Attempt>, extra: real)
    requires |a| >= 2 && extra >= 0.0
    ensures var last := a[|a| - 1];
            FatigueLevel(a) <= FatigueLevel(a[|a| - 1 := last.(timeSpent := last.timeSpent + extra)])
  {
    var last := a[|a| - 1];
    var b := a[|a| - 1 := last.(timeSpent := last.timeSpent + extra)];
    FatigueClosedForm(a);
    FatigueClosedForm(b);
    assert b[0] == a[0] && b[|b| - 1].correct == last.correct;
    var dt := last.timeSpent - a[0].timeSpent;
    assert b[|b| - 1].timeSpent - b[0].timeSpent == dt + extra;
    FatigueFormulaMonotone((|a| - 1) as real, dt, extra,
                           Indicator(last.correct) - Indicator(a[0].correct));
  }

  lemma Clamp01Monotone(x: real, y: real)
    requires x <= y
    ensures Clamp01(x) <= Clamp01(y)
  {
  }

  /** Times 5, 6, 8, 10 answered right, right, wrong, wrong give fatigue 1. */
  lemma FatigueExample()
    ensures FatigueLevel([Attempt(5.0, true), Attempt(6.0, true),
                          Attempt(8.0, false), Attempt(10.0, false)]) == 1.0
  {
    var a := [Attempt(5.0, true), Attempt(6.0, true), Attempt(8.0, false), Attempt(10.0, false)];
    FatigueClosedForm(a);
  }

  /** The attempts of the ability example: times 5, 8, 6, the second one
      answered wrongly. */
  function AbilitySample(): seq<Attempt> {
    [Attempt(5.0, true), Attempt(8.0, false), Attempt(6.0, true)]
  }

  lemma AbilitySampleCounts()
    ensures CorrectCount(AbilitySample()) == 2
    ensures Times(AbilitySample()) == [5.0, 8.0, 6.0]
  {
    var a := AbilitySample();
    assert a[1..][1..][1..] == [];
  }

  /** Accuracy 2/3 and, for completion time 45, comprehension speed 2/45. */
  lemma AccuracyExample()
    ensures Accuracy(AbilitySample()) == 2.0 / 3.0
    ensures ComprehensionSpeed(Some(45.0), AbilitySample()) == 2.0 / 45.0
  {
    AbilitySampleCounts();
  }

  /** The times 5, 8, 6 have mean 19/3 and variance 14/9, so the
      consistency is 9/23. */
  lemma ConsistencyExample()
    ensures Consistency(AbilitySample()) == 9.0 / 23.0
  {
    AbilitySampleCounts();
    var t := [5.0, 8.0, 6.0];
    assert t[1..] == [8.0, 6.0] && t[1..][1..] == [6.0];
    assert Sum([6.0]) == 6.0 + Sum([]);
    assert Mean(t) == 19.0 / 3.0;
    var d := SquaredDeviations(t, 19.0 / 3.0);
    assert d == [16.0 / 9.0, 25.0 / 9.0, 1.0 / 9.0];
    assert d[1..] == [25.0 / 9.0, 1.0 / 9.0] && d[1..][1..] == [1.0 / 9.0];
    assert Sum([1.0 / 9.0]) == 1.0 / 9.0 + Sum([]);
    assert Variance(t) == 14.0 / 9.0;
  }
}
