/** The browser extension's copy: `extractFeatures`, `getFeatureImportance`,
    `analyzeUrl` and `getFeatureExplanations`. The WHATWG `URL` constructor
    is not part of this model; its outcome is an input, either the three
    components the extractor reads or the message of the error it threw.
    Scores and weights are integer hundredths (15 stands for 0.15). */
module Utils {
  import opened Results
  import opened Text
  import opened Patterns
  import opened Schema

  /** The components of `new URL(url)` that the extractor reads. */
  datatype JsUrl = JsUrl(protocol: string, hostname: string, pathname: string)

  const ErrorPrefix: string := "Error extracting features: "

  /** The object `features` once every property has been assigned. Lengths
      are JavaScript lengths, in UTF-16 code units. */
  function JsFeatures(url: string, u: JsUrl): FeatureVector {
    var domain := u.hostname;
    FeatureVector(
      urlLength := Utf16Length(url),
      hostnameLength := Utf16Length(u.hostname),
      domainInPath := if Contains(Lower(u.pathname), Lower(domain)) then 1 else 0,
      domainAgeDays := 0,
      numDots := Count(url, '.'),
      numHyphens := Count(url, '-'),
      numAt := Count(url, '@'),
      numQuestionMarks := Count(url, '?'),
      numAnd := Count(url, '&'),
      numEqual := Count(url, '='),
      numUnderscore := Count(url, '_'),
      numTilde := Count(url, '~'),
      numPercent := Count(url, '%'),
      numSlash := Count(url, '/'),
      hasIpAddress := if IpPrefix(url) then 1 else 0,
      hasHttps := if u.protocol == "https:" then 1 else 0,
      hasSuspiciousWords := if ContainsSomeIgnoringCase(url, Keywords) then 1 else 0,
      dirCount := SegmentCount(u.pathname),
      pathLength := Utf16Length(u.pathname),
      hasDoubleSlash := if Contains(u.pathname, "//") then 1 else 0
    )
  }

  /** `dir_count` never exceeds `path_length`, even with the slashes
      added (every segment holds a character that is not a slash, and a
      UTF-16 length is at least the character count); it is 0 for a path
      of slashes only; and `has_double_slash` is 1 exactly when `//` occurs
      in the path. */
  lemma PathFeatures(url: string, u: JsUrl)
    ensures var o := JsFeatures(url, u);
      o.dirCount + Count(u.pathname, '/') <= o.pathLength &&
      o.dirCount <= o.pathLength &&
      ((forall i :: 0 <= i < |u.pathname| ==> u.pathname[i] == '/') ==> o.dirCount == 0) &&
      (o.hasDoubleSlash == 1 <==> exists i :: OccursAt(u.pathname, "//", i))
  {
    SegmentCountBound(u.pathname);
    ContainsIff(u.pathname, "//");
  }

  /** `featureOrder` in `extractFeatures`. */
  const FeatureOrder: seq<Feature> := [
    UrlLength, HostnameLength, DomainInPath, DomainAgeDays,
    NumDots, NumHyphens, NumAt, NumQuestionMarks,
    NumAnd, NumEqual, NumUnderscore, NumTilde,
    NumPercent, NumSlash, HasIpAddress, HasHttps,
    HasSuspiciousWords, DirCount, PathLength, HasDoubleSlash
  ]

  /** `featureNames` in `analyzeUrl`. */
  const FeatureNames: seq<Feature> := [
    UrlLength, HostnameLength, DomainInPath, DomainAgeDays,
    NumDots, NumHyphens, NumAt, NumQuestionMarks,
    NumAnd, NumEqual, NumUnderscore, NumTilde,
    NumPercent, NumSlash, HasIpAddress, HasHttps,
    HasSuspiciousWords, DirCount, PathLength, HasDoubleSlash
  ]

  /** Both lists name every feature once, in the same order. */
  lemma NameListsAgree()
    ensures FeatureOrder == FeatureNames
    ensures IsSchema(FeatureNames)
  {
    assert FeatureNames == Canonical;
    CanonicalIsSchema();
  }

  /** `extractFeatures(url)`: twenty values, the i-th being the feature that
      `analyzeUrl` will file under its i-th name; a failure is re-thrown with
      the prefixed message and no array is produced. */
  function ExtractFeatures(url: string, parsed: Result<JsUrl>): (r: Result<seq<nat>>)
    ensures r.Err? <==> parsed.Err?
    ensures r.Err? ==> r.message == ErrorPrefix + parsed.message
    ensures r.Ok? ==> |r.value| == |FeatureNames| == 20
    ensures r.Ok? ==> forall i :: 0 <= i < |FeatureNames| ==>
      r.value[i] == Value(JsFeatures(url, parsed.value), FeatureNames[i])
  {
    match parsed
    case Err(e) => Err(ErrorPrefix + e)
    case Ok(u) =>
      NameListsAgree();
      Ok(Row(JsFeatures(url, u), FeatureOrder))
  }

  // ---------------------------------------------------------------------
  // The weight table

  /** `getFeatureImportance()`, in hundredths: a weight in (0, 1] for every
      feature but `domain_age_days`, `num_question_marks`, `num_percent`
      and `dir_count`. */
  function GetFeatureImportance(): (m: map<Feature, nat>)
    ensures forall f :: f in m ==> 0 < m[f] <= 100
  {
    map[
      HasIpAddress := 15,
      HasSuspiciousWords := 12,
      DomainInPath := 10,
      HasHttps := 10,
      UrlLength := 8,
      NumDots := 7,
      NumAt := 7,
      HasDoubleSlash := 6,
      HostnameLength := 5,
      PathLength := 5,
      NumHyphens := 5,
      NumSlash := 4,
      NumEqual := 2,
      NumAnd := 2,
      NumUnderscore := 1,
      NumTilde := 1
    ]
  }

  /** Exactly four features have no weight. */
  lemma ImportanceKeys()
    ensures forall f :: f in GetFeatureImportance() <==>
      f != DomainAgeDays && f != NumQuestionMarks && f != NumPercent && f != DirCount
  {
    var m := GetFeatureImportance();
    forall f ensures f in m <==>
      f != DomainAgeDays && f != NumQuestionMarks && f != NumPercent && f != DirCount
    {
      match f
      case DomainAgeDays =>
      case NumQuestionMarks =>
      case NumPercent =>
      case DirCount =>
      case _ =>
    }
  }

  // ---------------------------------------------------------------------
  // The feature object

  /** A property of `featureObj`: `features[index]`, or `undefined` when the
      array is too short. */
  datatype Slot = Defined(n: nat) | Undefined

  function SlotAt(features: seq<nat>, i: nat): Slot {
    if i < |features| then Defined(features[i]) else Undefined
  }

  /** `featureObj[name]`: a property never assigned reads as `undefined`. */
  function Lookup(obj: map<Feature, Slot>, f: Feature): Slot {
    if f in obj then obj[f] else Undefined
  }

  /** `featureObj` after the first `k` calls of the `forEach` callback. */
  function ObjectUpTo(features: seq<nat>, k: nat): map<Feature, Slot>
    requires k <= |FeatureNames|
  {
    if k == 0 then map[]
    else ObjectUpTo(features, k - 1)[FeatureNames[k - 1] := SlotAt(features, k - 1)]
  }

  lemma NamesDistinct()
    ensures forall i, j :: 0 <= i < j < |FeatureNames| ==> FeatureNames[i] != FeatureNames[j]
  {
    NameListsAgree();
  }

  /** After `k` calls the object holds exactly the first `k` names. */
  lemma {:induction false} ObjectUpToKeys(features: seq<nat>, k: nat)
    requires k <= |FeatureNames|
    ensures forall f :: f in ObjectUpTo(features, k) <==> f in FeatureNames[..k]
  {
    if k > 0 {
      ObjectUpToKeys(features, k - 1);
      assert FeatureNames[..k] == FeatureNames[..k - 1] + [FeatureNames[k - 1]];
    }
  }

  /** After `k` calls the object holds exactly the first `k` names, each
      bound to the array entry at its own index. */
  lemma {:induction false} ObjectUpToReadsBack(features: seq<nat>, k: nat)
    requires k <= |FeatureNames|
    ensures forall f :: f in ObjectUpTo(features, k) <==> f in FeatureNames[..k]
    ensures forall i :: 0 <= i < k ==> ObjectUpTo(features, k)[FeatureNames[i]] == SlotAt(features, i)
  {
    ObjectUpToKeys(features, k);
    if k > 0 {
      ObjectUpToReadsBack(features, k - 1);
      NamesDistinct();
      forall i | 0 <= i < k ensures ObjectUpTo(features, k)[FeatureNames[i]] == SlotAt(features, i) {
        if i < k - 1 {
          assert FeatureNames[i] != FeatureNames[k - 1];
        }
      }
    }
  }

  /** `featureObj` once the `forEach` is done: every feature has a property,
      and the one named at index `i` holds `features[i]`. */
  function FeatureObject(features: seq<nat>): (obj: map<Feature, Slot>)
    ensures forall f: Feature :: f in obj
    ensures forall i :: 0 <= i < |FeatureNames| ==> obj[FeatureNames[i]] == SlotAt(features, i)
  {
    ObjectUpToReadsBack(features, |FeatureNames|);
    NameListsAgree();
    assert FeatureNames[..|FeatureNames|] == FeatureNames;
    ObjectUpTo(features, |FeatureNames|)
  }

  /** `analyzeUrl(extractFeatures(url))` files each value under the name of
      the feature it was computed for. */
  lemma AnalyzeSeesExtracted(url: string, u: JsUrl)
    ensures var r := ExtractFeatures(url, Ok(u));
      forall f: Feature :: FeatureObject(r.value)[f] == Defined(Value(JsFeatures(url, u), f))
  {
    var r := ExtractFeatures(url, Ok(u));
    NameListsAgree();
    forall f: Feature ensures FeatureObject(r.value)[f] == Defined(Value(JsFeatures(url, u), f)) {
      assert f in FeatureNames;
      var i :| 0 <= i < |FeatureNames| && FeatureNames[i] == f;
      assert SlotAt(r.value, i) == Defined(r.value[i]);
    }
  }

  // ---------------------------------------------------------------------
  // The scoring rule

  /** The three guard forms: `if (x)`, `if (!x)` and `if (x > t)`. */
  datatype Trigger = Truthy | Falsy | Above(threshold: nat)

  /** One guarded `riskScore += weight` statement. */
  datatype Rule = Rule(feature: Feature, trigger: Trigger, weight: nat)

  /** The twelve increments of `analyzeUrl`, in order. */
  const Rules: seq<Rule> := [
    Rule(HasIpAddress, Truthy, 15),
    Rule(HasSuspiciousWords, Truthy, 12),
    Rule(DomainInPath, Truthy, 10),
    Rule(HasHttps, Falsy, 10),
    Rule(UrlLength, Above(75), 8),
    Rule(NumDots, Above(3), 7),
    Rule(NumAt, Above(0), 7),
    Rule(HasDoubleSlash, Truthy, 6),
    Rule(HostnameLength, Above(30), 5),
    Rule(PathLength, Above(50), 5),
    Rule(NumSlash, Above(4), 4),
    Rule(NumEqual, Above(2), 2)
  ]

  /** JavaScript truthiness of a property: `undefined` and 0 are falsy. */
  predicate IsTruthy(s: Slot) {
    s.Defined? && s.n != 0
  }

  /** `x > t`: a comparison with `undefined` is false. */
  predicate Exceeds(s: Slot, t: nat) {
    s.Defined? && s.n > t
  }

  predicate Fires(obj: map<Feature, Slot>, r: Rule) {
    var s := Lookup(obj, r.feature);
    match r.trigger
    case Truthy => IsTruthy(s)
    case Falsy => !IsTruthy(s)
    case Above(t) => Exceeds(s, t)
  }

  function Contribution(obj: map<Feature, Slot>, r: Rule): nat {
    if Fires(obj, r) then r.weight else 0
  }

  /** The sum of the weights of the first `k` rules. */
  function WeightUpTo(k: nat): nat
    requires k <= |Rules|
  {
    if k == 0 then 0 else WeightUpTo(k - 1) + Rules[k - 1].weight
  }

  /** `riskScore` after the first `k` guarded increments: the weights of
      those among them that fire, so never more than all their weights. */
  function ScoreUpTo(obj: map<Feature, Slot>, k: nat): (s: nat)
    requires k <= |Rules|
    ensures s <= WeightUpTo(k)
  {
    if k == 0 then 0 else ScoreUpTo(obj, k - 1) + Contribution(obj, Rules[k - 1])
  }

  /** The score after all twelve increments. */
  function RiskScore(obj: map<Feature, Slot>): nat {
    ScoreUpTo(obj, |Rules|)
  }

  const PhishingThreshold: nat := 50
  const LowBelow: nat := 30
  const MediumBelow: nat := 60
  const ScoreCap: nat := 99
  /** All twelve weights together. */
  const MaxScore: nat := 91

  /** The score never exceeds the sum of the twelve weights, 0.91, so the
      0.99 cap never changes it; the bound is reached when every rule fires. */
  lemma RiskScoreBound(obj: map<Feature, Slot>)
    ensures RiskScore(obj) <= MaxScore < ScoreCap
    ensures (forall j :: 0 <= j < |Rules| ==> Fires(obj, Rules[j])) ==> RiskScore(obj) == MaxScore
  {
    assert WeightUpTo(|Rules|) == MaxScore;
    if forall j :: 0 <= j < |Rules| ==> Fires(obj, Rules[j]) {
      AllFire(obj, |Rules|);
    }
  }

  lemma {:induction false} AllFire(obj: map<Feature, Slot>, k: nat)
    requires k <= |Rules|
    requires forall j :: 0 <= j < k ==> Fires(obj, Rules[j])
    ensures ScoreUpTo(obj, k) == WeightUpTo(k)
  {
    if k > 0 {
      AllFire(obj, k - 1);
    }
  }

  datatype RiskLevel = Low | Medium | High

  /** `riskScore < 0.3 ? 'Low' : riskScore < 0.6 ? 'Medium' : 'High'`. */
  function LevelOf(score: nat): RiskLevel {
    if score < LowBelow then Low else if score < MediumBelow then Medium else High
  }

  function Min(a: nat, b: nat): nat {
    if a <= b then a else b
  }

  /** The object `analyzeUrl` returns. */
  datatype Analysis = Analysis(
    isPhishing: bool, riskScore: nat, features: map<Feature, Slot>, riskLevel: RiskLevel)

  /** `analyzeUrl(features)`. */
  method AnalyzeUrl(features: seq<nat>) returns (a: Analysis)
    ensures a.features == FeatureObject(features)
    ensures a.riskScore == RiskScore(a.features) <= MaxScore
    ensures a.isPhishing <==> a.riskScore >= PhishingThreshold
    ensures a.riskLevel == LevelOf(a.riskScore)
    ensures a.riskLevel == Low ==> !a.isPhishing
    ensures a.riskLevel == High ==> a.isPhishing
    ensures a.isPhishing ==> a.riskLevel != Low
  {
    var featureObj: map<Feature, Slot> := map[];
    var index := 0;
    while index < |FeatureNames|
      invariant 0 <= index <= |FeatureNames|
      invariant featureObj == ObjectUpTo(features, index)
    {
      featureObj := featureObj[FeatureNames[index] := SlotAt(features, index)];
      index := index + 1;
    }

    // The twelve guarded increments, one rule of the table per step.
    var riskScore: nat := 0;
    for k := 0 to |Rules|
      invariant riskScore == ScoreUpTo(featureObj, k)
    {
      if Fires(featureObj, Rules[k]) {
        riskScore := riskScore + Rules[k].weight;
      }
    }

    var isPhishing := riskScore >= PhishingThreshold;
    RiskScoreBound(featureObj);
    a := Analysis(isPhishing, Min(riskScore, ScoreCap), featureObj,
      if riskScore < LowBelow then Low else if riskScore < MediumBelow then Medium else High);
  }

  // ---------------------------------------------------------------------
  // What the score depends on

  /** A rule fires on `obj` only if it fires on `obj2` too. */
  predicate FiresOnlyIf(obj: map<Feature, Slot>, obj2: map<Feature, Slot>, k: nat)
    requires k <= |Rules|
  {
    forall j :: 0 <= j < k ==> Fires(obj, Rules[j]) ==> Fires(obj2, Rules[j])
  }

  /** Each rule's contribution can only grow when the set of rules that fire
      grows. */
  lemma {:induction false} ScoreMonotone(obj: map<Feature, Slot>, obj2: map<Feature, Slot>, k: nat)
    requires k <= |Rules|
    requires FiresOnlyIf(obj, obj2, k)
    ensures ScoreUpTo(obj, k) <= ScoreUpTo(obj2, k)
  {
    if k > 0 {
      ScoreMonotone(obj, obj2, k - 1);
    }
  }

  /** Comparing two scores, the verdict and the level follow the score. */
  function Rank(l: RiskLevel): nat {
    match l
    case Low => 0
    case Medium => 1
    case High => 2
  }

  lemma LevelMonotone(s: nat, s2: nat)
    requires s <= s2
    ensures Rank(LevelOf(s)) <= Rank(LevelOf(s2))
    ensures s >= PhishingThreshold ==> s2 >= PhishingThreshold
  {
  }

  /** Raising a feature's value (setting an indicator, pushing a count past
      its threshold) never lowers the score, the level or the verdict;
      `has_https` is the one feature where the opposite holds. */
  lemma RaisingNeverLowers(obj: map<Feature, Slot>, f: Feature, n: nat)
    requires f != HasHttps
    requires Lookup(obj, f).Defined? ==> Lookup(obj, f).n <= n
    ensures RiskScore(obj) <= RiskScore(obj[f := Defined(n)])
    ensures Rank(LevelOf(RiskScore(obj))) <= Rank(LevelOf(RiskScore(obj[f := Defined(n)])))
    ensures RiskScore(obj) >= PhishingThreshold ==> RiskScore(obj[f := Defined(n)]) >= PhishingThreshold
  {
    var obj2 := obj[f := Defined(n)];
    forall j | 0 <= j < |Rules| ensures Fires(obj, Rules[j]) ==> Fires(obj2, Rules[j]) {
      assert Rules[j].trigger.Falsy? ==> Rules[j].feature == HasHttps;
    }
    ScoreMonotone(obj, obj2, |Rules|);
    LevelMonotone(RiskScore(obj), RiskScore(obj2));
  }

  /** Clearing `has_https` never lowers the score, the level or the verdict. */
  lemma ClearingHttpsNeverLowers(obj: map<Feature, Slot>)
    ensures RiskScore(obj) <= RiskScore(obj[HasHttps := Defined(0)])
    ensures Rank(LevelOf(RiskScore(obj))) <= Rank(LevelOf(RiskScore(obj[HasHttps := Defined(0)])))
    ensures RiskScore(obj) >= PhishingThreshold ==> RiskScore(obj[HasHttps := Defined(0)]) >= PhishingThreshold
  {
    var obj2 := obj[HasHttps := Defined(0)];
    forall j | 0 <= j < |Rules| ensures Fires(obj, Rules[j]) ==> Fires(obj2, Rules[j]) {
      assert Rules[j].feature == HasHttps ==> Rules[j].trigger.Falsy?;
    }
    ScoreMonotone(obj, obj2, |Rules|);
    LevelMonotone(RiskScore(obj), RiskScore(obj2));
  }

  /** The features no rule reads. */
  const Unscored: set<Feature> :=
    {DomainAgeDays, NumHyphens, NumQuestionMarks, NumAnd, NumUnderscore, NumTilde, NumPercent, DirCount}

  /** A feature is unscored exactly when no rule reads it. */
  lemma UnscoredIsUnread()
    ensures forall f :: f in Unscored <==> forall j :: 0 <= j < |Rules| ==> Rules[j].feature != f
  {
    forall f ensures f in Unscored <==> forall j :: 0 <= j < |Rules| ==> Rules[j].feature != f {
      if f !in Unscored {
        match f
        case HasIpAddress => assert Rules[0].feature == f;
        case HasSuspiciousWords => assert Rules[1].feature == f;
        case DomainInPath => assert Rules[2].feature == f;
        case HasHttps => assert Rules[3].feature == f;
        case UrlLength => assert Rules[4].feature == f;
        case NumDots => assert Rules[5].feature == f;
        case NumAt => assert Rules[6].feature == f;
        case HasDoubleSlash => assert Rules[7].feature == f;
        case HostnameLength => assert Rules[8].feature == f;
        case PathLength => assert Rules[9].feature == f;
        case NumSlash => assert Rules[10].feature == f;
        case NumEqual => assert Rules[11].feature == f;
      }
    }
  }

  /** Whatever an unscored feature holds, the score is the same, although
      four of them carry a weight in the importance table. */
  lemma UnscoredFeaturesIgnored(obj: map<Feature, Slot>, f: Feature, s: Slot)
    requires f in Unscored
    ensures RiskScore(obj[f := s]) == RiskScore(obj)
  {
    var obj2 := obj[f := s];
    UnscoredIsUnread();
    assert FiresOnlyIf(obj, obj2, |Rules|) && FiresOnlyIf(obj2, obj, |Rules|) by {
      forall j | 0 <= j < |Rules| ensures Lookup(obj, Rules[j].feature) == Lookup(obj2, Rules[j].feature) {
        assert Rules[j].feature != f;
      }
    }
    ScoreMonotone(obj, obj2, |Rules|);
    ScoreMonotone(obj2, obj, |Rules|);
  }

  /** Each rule adds exactly the importance of the feature it reads. */
  lemma RulesFollowImportance()
    ensures forall j :: 0 <= j < |Rules| ==>
      Rules[j].feature in GetFeatureImportance() &&
      GetFeatureImportance()[Rules[j].feature] == Rules[j].weight
  {
  }

  /** The importance table also weighs four features that no rule reads. */
  lemma WeightedButUnscored()
    ensures forall f :: f in Unscored && f in GetFeatureImportance() <==>
      f == NumHyphens || f == NumAnd || f == NumUnderscore || f == NumTilde
  {
  }

  /** The text `getFeatureExplanations()` stores under a feature's key. */
  function Explanation(f: Feature): string
  {
    match f
    case UrlLength => "Unusually long URLs may indicate hidden malicious content"
    case HostnameLength => "Extremely long hostnames are often suspicious"
    case DomainInPath => "Domain name repeated in URL path may indicate deception"
    case DomainAgeDays => "Newly registered domains are more likely to be malicious"
    case NumDots => "Excessive dots may indicate subdomain abuse"
    case NumHyphens => "Multiple hyphens are common in phishing URLs"
    case NumAt => "The @ symbol in URLs can be used to obscure the actual destination"
    case NumQuestionMarks => "Multiple query parameters may hide malicious code"
    case NumAnd => "Numerous parameters might indicate suspicious data collection"
    case NumEqual => "Many parameters could suggest data harvesting"
    case NumUnderscore => "Uncommon in legitimate URLs"
    case NumTilde => "Rarely used in legitimate URLs"
    case NumPercent => "Encoded characters may hide malicious content"
    case NumSlash => "Deep directory structures might hide malicious content"
    case HasIpAddress => "IP addresses instead of domain names are suspicious"
    case HasHttps => "Lack of HTTPS indicates poor security"
    case HasSuspiciousWords => "Contains terms commonly used in phishing"
    case DirCount => "Excessive directories may hide true purpose"
    case PathLength => "Extremely long paths may hide malicious content"
    case HasDoubleSlash => "Double slashes in path may indicate URL manipulation"
  }

  /** `getFeatureExplanations()`: a text for every feature. */
  function GetFeatureExplanations(): (m: map<Feature, string>)
    ensures forall f: Feature :: f in m && m[f] == Explanation(f)
  {
    NameListsAgree();
    map f | f in FeatureNames :: Explanation(f)
  }
}
