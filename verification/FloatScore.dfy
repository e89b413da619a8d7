/** `analyzeUrl` as JavaScript evaluates it: every weight is the binary64
    double nearest to its decimal literal, and every `riskScore += w` rounds
    the sum to the nearest double, ties to even. The exact-hundredths model
    in `Utils` is what the code evidently intends; here the two are
    compared. Non-negative doubles below 2 are written as integer multiples
    of 2^-60, which holds every double the sums reach exactly. */
module FloatScore {
  import opened Schema
  import opened Utils

  /** 1.0, in units of 2^-60. */
  const One: nat := 0x1000_0000_0000_0000

  /** The double 0.5, the phishing threshold. */
  const Half: nat := 0x800_0000_0000_0000

  /** The doubles nearest 0.3 and 0.6, the level bounds. */
  const LowBound: nat := 345876451382054080
  const MediumBound: nat := 691752902764108160

  /** The doubles nearest the twelve weights, in the order of `Rules`. */
  const DoubleWeights: seq<nat> := [
    172938225691027040, 138350580552821632, 115292150460684704, 115292150460684704,
    92233720368547760, 80704505322479296, 80704505322479296, 69175290276410816,
    57646075230342352, 57646075230342352, 46116860184273880, 23058430092136940
  ]

  /** The spacing of the doubles at `x`: 2^-52 times the largest power of two
      not above `x`, and 1 unit below 2^-7, where every unit is a double. */
  function Ulp(x: nat): (u: nat)
    ensures u >= 1
  {
    if x < 0x20_0000_0000_0000 then 1 else 2 * Ulp(x / 2)
  }

  /** From 2^-7 up, the spacing is 2^-52 times a power of two not above
      `x`; below, it is one unit. */
  lemma {:induction false} UlpBound(x: nat)
    ensures x < 0x20_0000_0000_0000 ==> Ulp(x) == 1
    ensures x >= 0x20_0000_0000_0000 ==> Ulp(x) * 0x10_0000_0000_0000 <= x
    decreases x
  {
    if x >= 0x20_0000_0000_0000 {
      UlpBound(x / 2);
    }
  }

  /** `x` rounded to the nearest double, ties to the one with an even last
      significand bit. */
  function Round(x: nat): nat {
    var u := Ulp(x);
    var r := x % u;
    if 2 * r < u then x - r
    else if 2 * r > u then x - r + u
    else if (x / u) % 2 == 0 then x - r
    else x - r + u
  }

  /** Rounding moves a value by at most half the spacing there. */
  lemma RoundError(x: nat)
    ensures x - Ulp(x) / 2 <= Round(x) <= x + Ulp(x) / 2
  {
  }

  /** `a + b` on doubles. */
  function Add(a: nat, b: nat): nat {
    Round(a + b)
  }

  /** Each weight's double is a double (a multiple of the spacing there)
      within half a spacing of the exact hundredths, so it is the nearest
      one. */
  lemma DoubleWeightsAreNearest()
    ensures |DoubleWeights| == |Rules|
    ensures forall j :: 0 <= j < |Rules| ==>
      DoubleWeights[j] % Ulp(DoubleWeights[j]) == 0 &&
      -50 * Ulp(DoubleWeights[j]) <= 100 * DoubleWeights[j] - Rules[j].weight * One <= 50 * Ulp(DoubleWeights[j])
  {
  }

  /** No weight's double is off by more than 8 units. */
  lemma DoubleWeightsNear()
    ensures |DoubleWeights| == |Rules|
    ensures forall j :: 0 <= j < |Rules| ==>
      -800 <= 100 * DoubleWeights[j] - Rules[j].weight * One <= 800
  {
  }

  /** `riskScore` after the first `k` guarded increments, in doubles. */
  function FloatScoreUpTo(obj: map<Feature, Slot>, k: nat): nat
    requires k <= |Rules|
  {
    if k == 0 then 0
    else
      var s := FloatScoreUpTo(obj, k - 1);
      if Fires(obj, Rules[k - 1]) then Add(s, DoubleWeights[k - 1]) else s
  }

  function FloatRiskScore(obj: map<Feature, Slot>): nat {
    FloatScoreUpTo(obj, |Rules|)
  }

  lemma {:induction false} WeightUpToBound(k: nat)
    requires k <= |Rules|
    ensures WeightUpTo(k) <= MaxScore
    decreases |Rules| - k
  {
    if k < |Rules| {
      WeightUpToBound(k + 1);
      assert WeightUpTo(k + 1) == WeightUpTo(k) + Rules[k].weight;
    } else {
      assert WeightUpTo(|Rules|) == MaxScore;
    }
  }

  /** One addition below 1.0: if `s` is within `b` of `e` hundredths and
      `w` within 8 units of `v` hundredths (all scaled by 100), their double
      sum is within `b + 13500` of `e + v` hundredths. */
  lemma AddNear(s: nat, w: nat, e: nat, v: nat, b: int)
    requires 0 <= b && -b <= 100 * s - e * One <= b && b <= 13500 * 12
    requires -800 <= 100 * w - v * One <= 800
    requires e + v <= MaxScore
    ensures -(b + 13500) <= 100 * Add(s, w) - (e + v) * One <= b + 13500
  {
    assert s + w < One;
    UlpBound(s + w);
    RoundError(s + w);
  }

  /** After `k` increments the double sum is within 135 units per
      increment of the exact sum (both scaled by 100): below 1.0 the
      rounding of an addition moves it by at most 127 units, and each
      weight's own rounding by at most 8. */
  lemma {:induction false} FloatScoreNear(obj: map<Feature, Slot>, k: nat)
    requires k <= |Rules|
    ensures -13500 * k <= 100 * FloatScoreUpTo(obj, k) - ScoreUpTo(obj, k) * One <= 13500 * k
  {
    if k > 0 {
      FloatScoreNear(obj, k - 1);
      if Fires(obj, Rules[k - 1]) {
        var e, v := ScoreUpTo(obj, k - 1), Rules[k - 1].weight;
        DoubleWeightsNear();
        WeightUpToBound(k);
        assert e + v <= MaxScore;
        AddNear(FloatScoreUpTo(obj, k - 1), DoubleWeights[k - 1], e, v, 13500 * (k - 1));
      }
    }
  }

  /** The level `analyzeUrl` reports for a double score. */
  function FloatLevel(score: nat): RiskLevel {
    if score < LowBound then Low else if score < MediumBound then Medium else High
  }

  /** Away from an exact total of 0.50, the double sum gives the verdict
      of the exact one; away from 0.30 and 0.60, the level. */
  lemma FloatAgreesAwayFromBounds(obj: map<Feature, Slot>)
    ensures RiskScore(obj) != PhishingThreshold ==>
      (FloatRiskScore(obj) >= Half <==> RiskScore(obj) >= PhishingThreshold)
    ensures RiskScore(obj) != LowBelow && RiskScore(obj) != MediumBelow ==>
      FloatLevel(FloatRiskScore(obj)) == LevelOf(RiskScore(obj))
  {
    FloatScoreNear(obj, |Rules|);
  }

  /** The rules that add 0.12, 0.10, 0.08, 0.06, 0.05, 0.05 and 0.04. */
  predicate FiftyWithoutIp(obj: map<Feature, Slot>) {
    forall j :: 0 <= j < |Rules| ==>
      (Fires(obj, Rules[j]) <==> j == 1 || j == 3 || j == 4 || j == 7 || j == 8 || j == 9 || j == 10)
  }

  /** Those seven weights total exactly 0.50 ... */
  lemma FiftyExact(obj: map<Feature, Slot>)
    requires FiftyWithoutIp(obj)
    ensures RiskScore(obj) == PhishingThreshold
  {
    assert ScoreUpTo(obj, 1) == 0;
    assert ScoreUpTo(obj, 2) == 12;
    assert ScoreUpTo(obj, 3) == 12;
    assert ScoreUpTo(obj, 4) == 22;
    assert ScoreUpTo(obj, 5) == 30;
    assert ScoreUpTo(obj, 6) == 30;
    assert ScoreUpTo(obj, 7) == 30;
    assert ScoreUpTo(obj, 8) == 36;
    assert ScoreUpTo(obj, 9) == 41;
    assert ScoreUpTo(obj, 10) == 46;
    assert ScoreUpTo(obj, 11) == 50;
  }

  /** The seven additions of `FiftyInDoubles`, each rounded. */
  lemma FiftySum0()
    ensures Add(0, 138350580552821632) == 138350580552821632
  {
  }

  lemma FiftySum1()
    ensures Add(138350580552821632, 115292150460684704) == 253642731013506336
  {
  }

  lemma FiftySum2()
    ensures Add(253642731013506336, 92233720368547760) == 345876451382054080
  {
  }

  lemma FiftySum3()
    ensures Add(345876451382054080, 69175290276410816) == 415051741658464896
  {
  }

  lemma FiftySum4()
    ensures Add(415051741658464896, 57646075230342352) == 472697816888807232
  {
  }

  lemma FiftySum5()
    ensures Add(472697816888807232, 57646075230342352) == 530343892119149568
  {
  }

  lemma FiftySum6()
    ensures Add(530343892119149568, 46116860184273880) == 576460752303423424
  {
  }

  /** ... but their double sum is 0.49999999999999994. */
  lemma FiftyInDoubles(obj: map<Feature, Slot>)
    requires FiftyWithoutIp(obj)
    ensures FloatRiskScore(obj) == Half - 64
  {
    FiftySum0();
    FiftySum1();
    FiftySum2();
    FiftySum3();
    FiftySum4();
    FiftySum5();
    FiftySum6();
    assert !Fires(obj, Rules[0]) && Fires(obj, Rules[1]) && !Fires(obj, Rules[2]) && Fires(obj, Rules[3]);
    assert Fires(obj, Rules[4]) && !Fires(obj, Rules[5]) && !Fires(obj, Rules[6]) && Fires(obj, Rules[7]);
    assert Fires(obj, Rules[8]) && Fires(obj, Rules[9]) && Fires(obj, Rules[10]) && !Fires(obj, Rules[11]);
    assert FloatScoreUpTo(obj, 1) == 0;
    assert FloatScoreUpTo(obj, 2) == 138350580552821632;
    assert FloatScoreUpTo(obj, 3) == 138350580552821632;
    assert FloatScoreUpTo(obj, 4) == 253642731013506336;
    assert FloatScoreUpTo(obj, 5) == 345876451382054080;
    assert FloatScoreUpTo(obj, 6) == 345876451382054080;
    assert FloatScoreUpTo(obj, 7) == 345876451382054080;
    assert FloatScoreUpTo(obj, 8) == 415051741658464896;
    assert FloatScoreUpTo(obj, 9) == 472697816888807232;
    assert FloatScoreUpTo(obj, 10) == 530343892119149568;
    assert FloatScoreUpTo(obj, 11) == 576460752303423424;
  }

  /** Those seven weights total exactly 0.50, but their double sum is
      0.49999999999999994, so `riskScore >= 0.5` is false. */
  lemma FiftyHundredthsMissed(obj: map<Feature, Slot>)
    requires FiftyWithoutIp(obj)
    ensures RiskScore(obj) >= PhishingThreshold
    ensures FloatRiskScore(obj) < Half
  {
    FiftyExact(obj);
    FiftyInDoubles(obj);
  }

  /** A vector with a keyword, no IP, no https, no `@`, at most three dots,
      a URL longer than 75, a host longer than 30, a path longer than 50
      with `//` in it and more than four slashes. */
  predicate FiftyVector(v: FeatureVector) {
    v.hasIpAddress == 0 && v.hasSuspiciousWords == 1 && v.domainInPath == 0 &&
    v.hasHttps == 0 && v.urlLength > 75 && v.numDots <= 3 && v.numAt == 0 &&
    v.hasDoubleSlash == 1 && v.hostnameLength > 30 && v.pathLength > 50 &&
    v.numSlash > 4 && v.numEqual <= 2
  }

  /** Such a vector fires exactly the seven rules of `FiftyWithoutIp`. */
  lemma FiftyVectorFires(obj: map<Feature, Slot>, v: FeatureVector)
    requires forall f: Feature :: Lookup(obj, f) == Defined(Value(v, f))
    requires FiftyVector(v)
    ensures FiftyWithoutIp(obj)
  {
    forall j | 0 <= j < |Rules|
      ensures Fires(obj, Rules[j]) <==> j == 1 || j == 3 || j == 4 || j == 7 || j == 8 || j == 9 || j == 10
    {
      assert Lookup(obj, Rules[j].feature) == Defined(Value(v, Rules[j].feature));
    }
  }

  /** The object built from a vector's array holds every value under its
      own key. */
  lemma ObjectOfRow(v: FeatureVector)
    ensures forall f: Feature :: FeatureObject(Row(v, FeatureNames))[f] == Defined(Value(v, f))
  {
    var r := Row(v, FeatureNames);
    NameListsAgree();
    forall f: Feature ensures FeatureObject(r)[f] == Defined(Value(v, f)) {
      assert f in FeatureNames;
      var i :| 0 <= i < |FeatureNames| && FeatureNames[i] == f;
      assert SlotAt(r, i) == Defined(r[i]);
    }
  }

  /** The object `analyzeUrl` returns, its score a double. */
  datatype FloatAnalysis = FloatAnalysis(
    isPhishing: bool, riskScore: nat, features: map<Feature, Slot>, riskLevel: RiskLevel)

  /** The double nearest 0.99, the cap. */
  const DoubleCap: nat := 1141392289560778496

  /** `analyzeUrl(features)` as written, on doubles. Its verdict and level
      are those of the exact sum except at exact totals of 0.30, 0.50 and
      0.60, and its score lies within 2^-60 * 1620 of the exact one. */
  method AnalyzeUrlAsWritten(features: seq<nat>) returns (a: FloatAnalysis)
    ensures a.features == FeatureObject(features)
    ensures a.isPhishing <==> FloatRiskScore(a.features) >= Half
    ensures a.riskLevel == FloatLevel(FloatRiskScore(a.features))
    ensures -162000 <= 100 * a.riskScore - RiskScore(a.features) * One <= 162000
    ensures RiskScore(a.features) != PhishingThreshold ==>
      (a.isPhishing <==> RiskScore(a.features) >= PhishingThreshold)
    ensures RiskScore(a.features) != LowBelow && RiskScore(a.features) != MediumBelow ==>
      a.riskLevel == LevelOf(RiskScore(a.features))
  {
    var featureObj: map<Feature, Slot> := map[];
    var index := 0;
    while index < |FeatureNames|
      invariant 0 <= index <= |FeatureNames|
      invariant featureObj == ObjectUpTo(features, index)
    {
      featureObj := featureObj[FeatureNames[index] := SlotAt(features, index)];
      index := index + 1;
    }

    var riskScore: nat := 0;
    for k := 0 to |Rules|
      invariant riskScore == FloatScoreUpTo(featureObj, k)
    {
      if Fires(featureObj, Rules[k]) {
        riskScore := Add(riskScore, DoubleWeights[k]);
      }
    }

    var isPhishing := riskScore >= Half;
    FloatScoreNear(featureObj, |Rules|);
    RiskScoreBound(featureObj);
    FloatAgreesAwayFromBounds(featureObj);
    a := FloatAnalysis(isPhishing, if riskScore <= DoubleCap then riskScore else DoubleCap, featureObj,
      if riskScore < LowBound then Low else if riskScore < MediumBound then Medium else High);
  }

  /** An array whose exact score is 0.50: the exact model reports phishing,
      the code as written does not. */
  method FiftyHundredthsExample() returns (exact: Analysis, asWritten: FloatAnalysis)
    ensures exact.riskScore == 50 && exact.isPhishing
    ensures !asWritten.isPhishing
  {
    var v := FeatureVector(
      urlLength := 76, hostnameLength := 31, domainInPath := 0, domainAgeDays := 0,
      numDots := 2, numHyphens := 0, numAt := 0, numQuestionMarks := 0,
      numAnd := 0, numEqual := 0, numUnderscore := 0, numTilde := 0,
      numPercent := 0, numSlash := 5, hasIpAddress := 0, hasHttps := 0,
      hasSuspiciousWords := 1, dirCount := 3, pathLength := 51, hasDoubleSlash := 1);
    var features := Row(v, FeatureNames);
    exact := AnalyzeUrl(features);
    asWritten := AnalyzeUrlAsWritten(features);
    ObjectOfRow(v);
    FiftyVectorFires(exact.features, v);
    FiftyHundredthsMissed(exact.features);
  }
}
