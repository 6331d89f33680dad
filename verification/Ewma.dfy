/** EWMA baselines and z-scores: one baseline per endpoint, over exact reals. */
module Ewma {
  import opened Prelude

  const ALPHA := 0.1
  const MIN_SAMPLES_BEFORE_SCORING := 20
  const STD_FLOOR := 0.000001
  const BASELINE_TTL_S := 3600.0

  datatype Baseline = Baseline(mean: real, variance: real, samplesSeen: nat, lastSeen: real)

  /** One update: the first sample sets the mean, later ones move mean and variance. */
  function Update(b: Baseline, value: real, now: real): Baseline {
    if b.samplesSeen == 0 then Baseline(value, b.variance, 1, now)
    else
      var dev := value - b.mean;
      Baseline(b.mean + 0.1 * dev, 0.9 * (b.variance + 0.1 * (dev * dev)), b.samplesSeen + 1, now)
  }

  /** The z-score; `root` is the square root of the updated variance. */
  function Score(dev: real, root: real): real {
    dev / (if root > STD_FLOOR then root else STD_FLOOR)
  }

  /** `root` is the non-negative square root of `v`: the value of v**0.5. */
  predicate IsRoot(root: real, v: real) {
    root >= 0.0 && root * root == v
  }

  /** update_and_score's result: None for the first 19 samples. */
  function ScoreOf(b: Baseline, value: real, root: real): Option<real> {
    if b.samplesSeen + 1 < MIN_SAMPLES_BEFORE_SCORING then None else Some(Score(value - b.mean, root))
  }

  class EndpointBaseline {
    var mean: real
    var variance: real
    var samplesSeen: nat
    var lastSeen: real

    ghost function Value(): Baseline
      reads this
    {
      Baseline(mean, variance, samplesSeen, lastSeen)
    }

    constructor (now: real)
      ensures Value() == Baseline(0.0, 0.0, 0, now)
    {
      mean, variance, samplesSeen, lastSeen := 0.0, 0.0, 0, now;
    }

    /** update_and_score; `root` stands for the square root taken of the updated variance. */
    method UpdateAndScore(value: real, now: real, root: real) returns (z: Option<real>)
      requires samplesSeen > 0 ==> IsRoot(root, Update(Value(), value, now).variance)
      modifies this
      ensures Value() == Update(old(Value()), value, now)
      ensures z == ScoreOf(old(Value()), value, root)
      ensures samplesSeen == old(samplesSeen) + 1 && lastSeen == now
      ensures z.None? <==> samplesSeen < 20
      ensures z.Some? ==> z.value * (if root > 0.000001 then root else 0.000001) == value - old(mean)
    {
      samplesSeen := samplesSeen + 1;
      lastSeen := now;
      if samplesSeen == 1 {
        mean := value;
        return None;
      }
      var deviation := value - mean;
      mean := mean + ALPHA * deviation;
      variance := (1.0 - ALPHA) * (variance + ALPHA * (deviation * deviation));
      if samplesSeen < MIN_SAMPLES_BEFORE_SCORING { return None; }
      var stdDev := if root > STD_FLOOR then root else STD_FLOOR;
      z := Some(deviation / stdDev);
      TimesBack(deviation, stdDev);
    }
  }

  lemma {:induction false} TimesBack(a: real, b: real)
    requires b > 0.0
    ensures (a / b) * b == a
  {
  }

  // ----- exact weighted moments

  function Pow9(n: nat): real {
    if n == 0 then 1.0 else 0.9 * Pow9(n - 1)
  }

  /** Weight of sample i among n: the first keeps 0.9^(n-1), sample i gets 0.1 * 0.9^(n-1-i). */
  function Weight(n: nat, i: nat): real
    requires i < n
  {
    if i == 0 then Pow9(n - 1) else 0.1 * Pow9(n - 1 - i)
  }

  /** The weighted sum of f over the first m of n samples. */
  function Partial(xs: seq<real>, f: real -> real, n: nat, m: nat): real
    requires m <= n && m <= |xs|
  {
    if m == 0 then 0.0 else Partial(xs, f, n, m - 1) + Weight(n, m - 1) * f(xs[m - 1])
  }

  /** The weighted average of f over all samples. */
  function Expect(xs: seq<real>, f: real -> real): real {
    Partial(xs, f, |xs|, |xs|)
  }

  function One(): real -> real { (x: real) => 1.0 }
  function Identity(): real -> real { (x: real) => x }
  function SquareAbout(c: real): real -> real { (x: real) => (x - c) * (x - c) }

  function Mean(xs: seq<real>): real { Expect(xs, Identity()) }
  function Variance(xs: seq<real>): real { Expect(xs, SquareAbout(Mean(xs))) }

  /** The baseline after all samples; times play no part in mean and variance. */
  function Fold(xs: seq<real>): Baseline {
    if xs == [] then Baseline(0.0, 0.0, 0, 0.0) else Update(Fold(xs[..|xs| - 1]), xs[|xs| - 1], 0.0)
  }

  lemma {:induction false} PartialStep(xs: seq<real>, x: real, f: real -> real, n: nat, m: nat)
    requires 0 < n <= |xs| && m <= n
    ensures Partial(xs + [x], f, n + 1, m) == 0.9 * Partial(xs, f, n, m)
  {
    if m > 0 {
      PartialStep(xs, x, f, n, m - 1);
      var v := f(xs[m - 1]);
      assert Weight(n + 1, m - 1) == 0.9 * Weight(n, m - 1);
      assert (xs + [x])[m - 1] == xs[m - 1];
      Scale9(Weight(n, m - 1), v);
    }
  }

  lemma {:induction false} Scale9(w: real, v: real)
    ensures (0.9 * w) * v == 0.9 * (w * v)
  {
  }

  /** Recurrence of every weighted average. */
  lemma {:induction false} ExpectSnoc(xs: seq<real>, x: real, f: real -> real)
    requires xs != []
    ensures Expect(xs + [x], f) == 0.9 * Expect(xs, f) + 0.1 * f(x)
  {
    PartialStep(xs, x, f, |xs|, |xs|);
    assert Weight(|xs| + 1, |xs|) == 0.1 * Pow9(0);
  }

  lemma {:induction false} ExpectOne(x: real, f: real -> real)
    ensures Expect([x], f) == f(x)
  {
    assert Partial([x], f, 1, 0) == 0.0;
    assert Weight(1, 0) == 1.0;
  }

  /** The weights of any number of samples sum to one. */
  lemma {:induction false} WeightsSumToOne(xs: seq<real>)
    requires xs != []
    ensures Expect(xs, One()) == 1.0
  {
    var init, x := xs[..|xs| - 1], xs[|xs| - 1];
    assert xs == init + [x];
    if init == [] {
      assert xs == [x];
      ExpectOne(x, One());
    } else {
      WeightsSumToOne(init);
      ExpectSnoc(init, x, One());
    }
  }

  /** Moving the centre of the second moment. */
  lemma {:induction false} Recentre(xs: seq<real>, c: real)
    requires xs != []
    ensures Expect(xs, SquareAbout(c)) == Expect(xs, SquareAbout(0.0)) - 2.0 * c * Mean(xs) + c * c
  {
    hide Expect;
    var init, x := xs[..|xs| - 1], xs[|xs| - 1];
    assert xs == init + [x];
    if init == [] {
      assert xs == [x];
      ExpectOne(x, SquareAbout(c));
      ExpectOne(x, SquareAbout(0.0));
      ExpectOne(x, Identity());
    } else {
      Recentre(init, c);
      ExpectSnoc(init, x, SquareAbout(c));
      ExpectSnoc(init, x, SquareAbout(0.0));
      ExpectSnoc(init, x, Identity());
      Blend(Expect(init, SquareAbout(c)), Expect(init, SquareAbout(0.0)), c, Mean(init), x);
    }
  }

  lemma {:induction false} Blend(s: real, q: real, c: real, m: real, x: real)
    requires s == q - 2.0 * c * m + c * c
    ensures 0.9 * s + 0.1 * ((x - c) * (x - c))
         == (0.9 * q + 0.1 * ((x - 0.0) * (x - 0.0))) - 2.0 * c * (0.9 * m + 0.1 * x) + c * c
  {
  }

  lemma {:induction false} VarianceStep(q: real, m: real, x: real)
    ensures
      var m' := 0.9 * m + 0.1 * x;
      (0.9 * q + 0.1 * ((x - 0.0) * (x - 0.0))) - 2.0 * m' * m' + m' * m'
        == 0.9 * ((q - 2.0 * m * m + m * m) + 0.1 * ((x - m) * (x - m)))
  {
  }

  /** Main result: the incremental mean and variance are the exact weighted ones. */
  lemma {:induction false} FoldIsExact(xs: seq<real>)
    requires xs != []
    ensures Fold(xs).samplesSeen == |xs|
    ensures Fold(xs).mean == Mean(xs) && Fold(xs).variance == Variance(xs)
  {
    hide Expect;
    var init, x := xs[..|xs| - 1], xs[|xs| - 1];
    assert xs == init + [x];
    if init == [] {
      assert xs == [x];
      ExpectOne(x, Identity());
      ExpectOne(x, SquareAbout(Mean(xs)));
    } else {
      FoldIsExact(init);
      ExpectSnoc(init, x, Identity());
      ExpectSnoc(init, x, SquareAbout(0.0));
      Recentre(init, Mean(init));
      Recentre(xs, Mean(xs));
      VarianceStep(Expect(init, SquareAbout(0.0)), Mean(init), x);
    }
  }

  /**
    What a fresh baseline answers to sample number n = |xs| + 1: nothing before the twentieth,
    and from then on the distance of the sample from the weighted mean of all earlier ones, in
    units of the weighted standard deviation of all of them, at least a millionth.
   */
  lemma {:induction false} ScoresByHand(xs: seq<real>, x: real, root: real)
    requires IsRoot(root, Variance(xs + [x]))
    ensures
      var z := ScoreOf(Fold(xs), x, root);
      && (z.None? <==> |xs| + 1 < 20)
      && (z.Some? ==> z.value * (if root > 0.000001 then root else 0.000001) == x - Mean(xs))
    ensures xs != [] ==> IsRoot(root, Update(Fold(xs), x, 0.0).variance)
  {
    hide Variance, Mean, Update;
    if xs != [] { FoldIsExact(xs); }
    FoldIsExact(xs + [x]);
    FoldMore(xs, x);
    TimesBack(x - Fold(xs).mean, if root > 0.000001 then root else 0.000001);
  }

  lemma {:induction false} FoldMore(xs: seq<real>, x: real)
    ensures Fold(xs + [x]) == Update(Fold(xs), x, 0.0)
  {
    hide Update;
    assert (xs + [x])[..|xs|] == xs;
  }

  // ----- bounds on mean and variance

  ghost predicate SamplesWithin(xs: seq<real>, lo: real, hi: real) {
    forall i :: 0 <= i < |xs| ==> lo <= xs[i] <= hi
  }

  lemma {:induction false} SpreadStep(m: real, v: real, x: real, lo: real, hi: real)
    ensures
      var m' := m + 0.1 * (x - m);
      var v' := 0.9 * (v + 0.1 * ((x - m) * (x - m)));
      (hi - m') * (m' - lo) - v' == 0.9 * ((hi - m) * (m - lo) - v) + 0.1 * ((hi - x) * (x - lo))
  {
  }

  lemma {:induction false} ProductNonNegative(a: real, b: real)
    requires a >= 0.0 && b >= 0.0
    ensures a * b >= 0.0
  {
  }

  lemma {:induction false} SquareNonNegative(a: real)
    ensures a * a >= 0.0
  {
  }

  lemma {:induction false} FoldVariance(xs: seq<real>)
    ensures Fold(xs).variance >= 0.0 && Fold(xs).samplesSeen == |xs|
  {
    if xs != [] {
      FoldVariance(xs[..|xs| - 1]);
      var b, x := Fold(xs[..|xs| - 1]), xs[|xs| - 1];
      SquareNonNegative(x - b.mean);
    }
  }

  ghost predicate Confined(b: Baseline, lo: real, hi: real) {
    lo <= b.mean <= hi && 0.0 <= b.variance <= (hi - b.mean) * (b.mean - lo)
  }

  lemma {:induction false} UpdateConfined(b: Baseline, x: real, lo: real, hi: real)
    requires lo <= x <= hi && (if b.samplesSeen == 0 then b.variance == 0.0 else Confined(b, lo, hi))
    ensures Confined(Update(b, x, 0.0), lo, hi)
  {
    ProductNonNegative(hi - x, x - lo);
    SquareNonNegative(x - b.mean);
    SpreadStep(b.mean, b.variance, x, lo, hi);
  }

  /** Samples in [lo, hi] keep the mean there and the variance within (hi - mean)(mean - lo). */
  lemma {:induction false} FoldBounds(xs: seq<real>, lo: real, hi: real)
    requires xs != [] && SamplesWithin(xs, lo, hi)
    ensures lo <= Fold(xs).mean <= hi
    ensures 0.0 <= Fold(xs).variance <= (hi - Fold(xs).mean) * (Fold(xs).mean - lo)
  {
    FoldConfined(xs, lo, hi);
  }

  lemma {:induction false} FoldConfined(xs: seq<real>, lo: real, hi: real)
    requires xs != [] && SamplesWithin(xs, lo, hi)
    ensures Confined(Fold(xs), lo, hi)
  {
    hide Confined, Update;
    var init, x := xs[..|xs| - 1], xs[|xs| - 1];
    FoldVariance(init);
    if init != [] { FoldConfined(init, lo, hi); }
    UpdateConfined(Fold(init), x, lo, hi);
  }

  // ----- scores

  lemma {:induction false} SquareOrder(a: real, b: real)
    requires b >= 0.0
    ensures a * a <= b * b ==> a <= b
    ensures a >= 0.0 && a * a < b * b ==> a < b
    ensures a >= 0.0 && a <= b ==> a * a <= b * b
    ensures a >= 0.0 && a < b ==> a * a < b * b
  {
    assert a * a - b * b == (a - b) * (a + b);
    if a > b {
      ProductPositive(a - b, a + b);
    } else if 0.0 <= a < b {
      ProductPositive(b - a, a + b);
      assert (a - b) * (a + b) == -((b - a) * (a + b));
    }
  }

  lemma {:induction false} ProductPositive(a: real, b: real)
    requires a > 0.0 && b > 0.0
    ensures a * b > 0.0
  {
  }

  function Abs(x: real): real { if x < 0.0 then -x else x }

  /** The updated standard deviation is at least 0.3 of the deviation that caused it. */
  lemma {:induction false} RootAtLeast(dev: real, v: real, root: real)
    requires v >= 0.0 && IsRoot(root, 0.9 * (v + 0.1 * (dev * dev)))
    ensures 0.3 * Abs(dev) <= root
  {
    var a := 0.3 * Abs(dev);
    assert a * a == 0.09 * (dev * dev);
    SquareOrder(a, root);
  }

  lemma {:induction false} QuotientBound(dev: real, std: real, bound: real)
    requires std > 0.0 && bound > 0.0 && Abs(dev) <= bound * std
    ensures Abs(dev / std) <= bound
  {
  }

  /** Every score lies within 10/3 of zero, whatever the sample. */
  lemma {:induction false} ScoreBounded(b: Baseline, value: real, now: real, root: real)
    requires b.variance >= 0.0 && b.samplesSeen > 0 && IsRoot(root, Update(b, value, now).variance)
    ensures Abs(Score(value - b.mean, root)) <= 10.0 / 3.0
  {
    var dev := value - b.mean;
    RootAtLeast(dev, b.variance, root);
    var std := if root > STD_FLOOR then root else STD_FLOOR;
    QuotientBound(dev, std, 10.0 / 3.0);
  }

  /** The bound is attained by any real spike on a flat baseline, however large. */
  lemma {:induction false} FlatBaselineSpike(b: Baseline, value: real, now: real, root: real)
    requires b.variance == 0.0 && b.samplesSeen > 0 && IsRoot(root, Update(b, value, now).variance)
    requires 0.3 * (value - b.mean) > STD_FLOOR
    ensures Score(value - b.mean, root) == 10.0 / 3.0
  {
    var dev := value - b.mean;
    var a := 0.3 * dev;
    assert a * a == root * root;
    SquareOrder(a, root);
    SquareOrder(root, a);
    assert root == 0.3 * dev;
    Ratio(dev, root);
  }

  lemma {:induction false} Ratio(x: real, y: real)
    requires x > 0.0 && y == 0.3 * x
    ensures x / y == 10.0 / 3.0
  {
  }

  lemma {:induction false} AboveThree(dev: real, std: real)
    requires std > 0.0
    ensures dev / std > 3.0 <==> dev > 3.0 * std
  {
  }

  /** The alert condition without division or square root: z > 3 exactly for these deviations. */
  lemma {:induction false} AlertCondition(b: Baseline, value: real, now: real, root: real)
    requires b.variance >= 0.0 && b.samplesSeen > 0 && IsRoot(root, Update(b, value, now).variance)
    ensures Score(value - b.mean, root) > 3.0 <==>
      value - b.mean > 0.000003 && 19.0 * ((value - b.mean) * (value - b.mean)) > 810.0 * b.variance
  {
    var dev := value - b.mean;
    var std := if root > STD_FLOOR then root else STD_FLOOR;
    AboveThree(dev, std);
    var r := 3.0 * root;
    assert r * r == 9.0 * (root * root);
    assert r * r == 8.1 * b.variance + 0.81 * (dev * dev);
    if dev > 0.0 {
      SquareOrder(r, dev);
      SquareOrder(dev, r);
    }
  }

  /** A scored sample that the worker would publish as an anomaly. */
  predicate Alerts(b: Baseline, value: real, root: real) {
    && b.samplesSeen + 1 >= MIN_SAMPLES_BEFORE_SCORING
    && IsRoot(root, Update(b, value, 0.0).variance)
    && ScoreOf(b, value, root).value > 3.0
  }

  function DeviationSquared(b: Baseline, value: real): real {
    (value - b.mean) * (value - b.mean)
  }

  lemma {:induction false} NextAlertGrows(b: Baseline, x: real, root: real, y: real, root': real)
    requires b.variance >= 0.0 && Alerts(b, x, root) && Alerts(Update(b, x, 0.0), y, root')
    ensures DeviationSquared(Update(b, x, 0.0), y) > 729.0 / 190.0 * DeviationSquared(b, x)
  {
    var b' := Update(b, x, 0.0);
    SquareNonNegative(x - b.mean);
    AlertCondition(b', y, 0.0, root');
    assert 19.0 * DeviationSquared(b', y) > 810.0 * b'.variance;
    assert b'.variance >= 0.09 * DeviationSquared(b, x);
  }

  /** Every sample of `xs` alerts, one straight after the other, starting from `b`. */
  predicate AlertRun(b: Baseline, xs: seq<real>, roots: seq<real>)
    requires |xs| == |roots|
    decreases |xs|
  {
    xs == [] || (Alerts(b, xs[0], roots[0]) && AlertRun(Update(b, xs[0], 0.0), xs[1..], roots[1..]))
  }

  function Growth(k: nat): real {
    if k == 0 then 1.0 else 729.0 / 190.0 * Growth(k - 1)
  }

  /** The squared deviation of the last sample of a non-empty run from `b`. */
  function LastDeviationSquared(b: Baseline, xs: seq<real>): real
    requires xs != []
    decreases |xs|
  {
    if |xs| == 1 then DeviationSquared(b, xs[0]) else LastDeviationSquared(Update(b, xs[0], 0.0), xs[1..])
  }

  lemma {:induction false} GrowthPositive(k: nat)
    ensures Growth(k) >= 1.0
  {
    if k > 0 { GrowthPositive(k - 1); }
  }

  /** k consecutive alerts on one endpoint need squared deviations growing by more than 729/190 each time. */
  lemma {:induction false} ConsecutiveAlertsGrow(b: Baseline, xs: seq<real>, roots: seq<real>)
    requires |xs| == |roots| && xs != [] && b.variance >= 0.0 && AlertRun(b, xs, roots)
    ensures LastDeviationSquared(b, xs) >= Growth(|xs| - 1) * DeviationSquared(b, xs[0])
    ensures |xs| > 1 ==> LastDeviationSquared(b, xs) > Growth(|xs| - 1) * DeviationSquared(b, xs[0])
    decreases |xs|
  {
    hide DeviationSquared, Alerts;
    if |xs| > 1 {
      var b' := Update(b, xs[0], 0.0);
      SquareNonNegative(xs[0] - b.mean);
      NextAlertGrows(b, xs[0], roots[0], xs[1], roots[1]);
      ConsecutiveAlertsGrow(b', xs[1..], roots[1..]);
      GrowthPositive(|xs| - 2);
      GrowthStep(Growth(|xs| - 2), DeviationSquared(b, xs[0]), DeviationSquared(b', xs[1]));
    }
  }

  lemma {:induction false} GrowthStep(g: real, d: real, d': real)
    requires g >= 1.0 && d' > 729.0 / 190.0 * d
    ensures g * d' > (729.0 / 190.0 * g) * d
  {
  }

  // ----- the dictionary of baselines

  function Idle(contents: map<string, Baseline>, cutoff: real): set<string> {
    set e | e in contents && contents[e].lastSeen < cutoff
  }

  /** Exactly the endpoints seen within the last hour are left, as they were, and the others are counted. */
  ghost predicate KeepsRecent(before: map<string, Baseline>, after: map<string, Baseline>, now: real, evicted: int) {
    && (forall e :: e in after <==> e in before && before[e].lastSeen >= now - 3600.0)
    && (forall e :: e in after ==> after[e] == before[e])
    && evicted == |before.Keys| - |after.Keys|
  }

  lemma {:induction false} IdleByHand(contents: map<string, Baseline>, now: real)
    ensures
      var idle := Idle(contents, now - BASELINE_TTL_S);
      KeepsRecent(contents, contents - idle, now, |idle|)
  {
    var idle := Idle(contents, now - BASELINE_TTL_S);
    var rest := contents - idle;
    assert contents.Keys == rest.Keys + idle && rest.Keys !! idle;
  }

  class BaselineStore {
    var baselines: map<string, EndpointBaseline>

    /** No two endpoints share a baseline object. */
    ghost predicate Valid()
      reads this
    {
      forall a, b :: a in baselines && b in baselines && a != b ==> baselines[a] != baselines[b]
    }

    ghost function Contents(): map<string, Baseline>
      reads this, baselines.Values
    {
      map e | e in baselines :: baselines[e].Value()
    }

    constructor ()
      ensures Valid() && Contents() == map[]
    {
      baselines := map[];
    }

    /** score_rps: a missing endpoint starts from a fresh baseline; no other endpoint changes. */
    method ScoreRps(endpoint: string, rps: real, now: real, root: real) returns (z: Option<real>)
      requires Valid()
      requires endpoint in baselines && baselines[endpoint].samplesSeen > 0 ==>
        IsRoot(root, Update(baselines[endpoint].Value(), rps, now).variance)
      modifies this, baselines.Values
      ensures Valid()
      ensures
        var b := if endpoint in old(Contents()) then old(Contents())[endpoint] else Baseline(0.0, 0.0, 0, now);
        && Contents() == old(Contents())[endpoint := Update(b, rps, now)] && z == ScoreOf(b, rps, root)
        && (z.None? <==> b.samplesSeen + 1 < 20)
        && (z.Some? ==> z.value * (if root > 0.000001 then root else 0.000001) == rps - b.mean)
    {
      if endpoint !in baselines {
        var cold := new EndpointBaseline(now);
        baselines := baselines[endpoint := cold];
      }
      z := baselines[endpoint].UpdateAndScore(rps, now, root);
    }

    /** evict_idle drops exactly the endpoints untouched for more than an hour and counts them. */
    method EvictIdle(now: real) returns (evicted: nat)
      requires Valid()
      modifies this
      ensures Valid()
      ensures Contents() == old(Contents()) - Idle(old(Contents()), now - BASELINE_TTL_S)
      ensures evicted == |Idle(old(Contents()), now - BASELINE_TTL_S)|
      ensures KeepsRecent(old(Contents()), Contents(), now, evicted)
    {
      hide KeepsRecent;
      ghost var before := Contents();
      var cutoff := now - BASELINE_TTL_S;
      var stale := set e | e in baselines && baselines[e].lastSeen < cutoff;
      assert stale == Idle(before, cutoff);
      hide Idle;
      var todo := stale;
      while todo != {}
        invariant todo <= stale
        invariant baselines == old(baselines) - (stale - todo)
        decreases todo
      {
        var e :| e in todo;
        baselines := baselines - {e};
        todo := todo - {e};
      }
      evicted := |stale|;
      assert Contents() == before - stale;
      IdleByHand(before, now);
    }
  }
}
