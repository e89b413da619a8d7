/** The Python feature extractor: `extract_features`, `get_feature_names`
    and `get_feature_explanations`. `urllib.parse.urlparse` is not part of
    this model; its outcome is an input, either the three components the
    extractor reads or the message of the exception it raised. */
module UrlFeatures {
  import opened Results
  import opened Text
  import opened Patterns
  import opened Schema

  /** The components of `urlparse(url)` that the extractor reads. */
  datatype ParsedUrl = ParsedUrl(scheme: string, netloc: string, path: string)

  const ErrorPrefix: string := "Error extracting features: "

  /** The order in which `extract_features` writes its dictionary keys;
      `features.values()` yields the values in this order. */
  const InsertionOrder: seq<Feature> := [
    UrlLength, HostnameLength, DomainInPath, DomainAgeDays,
    NumDots, NumHyphens, NumAt, NumQuestionMarks,
    NumAnd, NumEqual, NumUnderscore, NumTilde,
    NumPercent, NumSlash, HasIpAddress, HasHttps,
    HasSuspiciousWords, DirCount, PathLength, HasDoubleSlash
  ]

  /** The dictionary `features` once every key has been written. */
  function FeatureDict(url: string, parsed: ParsedUrl): FeatureVector {
    var domain := parsed.netloc;
    FeatureVector(
      urlLength := |url|,
      hostnameLength := |parsed.netloc|,
      domainInPath := if Contains(Lower(parsed.path), Lower(domain)) then 1 else 0,
      domainAgeDays := 0,
      numDots := Count(url, '.'),
      numHyphens := Count(url, '-'),
      numAt := Count(url, '@'),
      numQuestionMarks := Count(url, '?'),
      numAnd := Count(url, '&'),
      numEqual := Count(url, '='),
      numUnderscore := Count(url, '_'),
      numTilde := Count(url, '~'),
      numPercent := Count(url, '%'),
      numSlash := Count(url, '/'),
      hasIpAddress := if IpPrefix(url) then 1 else 0,
      hasHttps := if parsed.scheme == "https" then 1 else 0,
      hasSuspiciousWords := if MentionsKeyword(url) then 1 else 0,
      dirCount := SegmentCount(parsed.path),
      pathLength := |parsed.path|,
      hasDoubleSlash := if Contains(parsed.path, "//") then 1 else 0
    )
  }

  /** `get_feature_names()`. */
  function GetFeatureNames(): (names: seq<string>)
    ensures |names| == 20
    ensures forall i, j :: 0 <= i < j < |names| ==> names[i] != names[j]
  {
    [
      "url_length", "hostname_length", "domain_in_path", "domain_age_days",
      "num_dots", "num_hyphens", "num_at", "num_question_marks",
      "num_and", "num_equal", "num_underscore", "num_tilde",
      "num_percent", "num_slash", "has_ip_address", "has_https",
      "has_suspicious_words", "dir_count", "path_length", "has_double_slash"
    ]
  }

  /** The dictionary is written once per feature, in the order
      `get_feature_names()` lists them. */
  lemma InsertionOrderIsFeatureNames()
    ensures IsSchema(InsertionOrder)
    ensures Names(InsertionOrder) == GetFeatureNames()
  {
    assert InsertionOrder == Canonical;
    CanonicalIsSchema();
    InsertionOrderNames();
  }

  lemma InsertionOrderNames()
    ensures Names(InsertionOrder) == GetFeatureNames()
  {
  }

  /** `extract_features(url)`: a 1 x 20 array whose columns follow
      `get_feature_names()`; a failure is re-raised as `ValueError` with the
      prefixed message and no vector is produced. */
  function ExtractFeatures(url: string, parsed: Result<ParsedUrl>): (r: Result<seq<seq<nat>>>)
    ensures r.Err? <==> parsed.Err?
    ensures r.Err? ==> r.message == ErrorPrefix + parsed.message
    ensures r.Ok? ==> |r.value| == 1 && |r.value[0]| == |GetFeatureNames()|
    ensures r.Ok? ==> forall i :: 0 <= i < |r.value[0]| ==>
      Name(InsertionOrder[i]) == GetFeatureNames()[i] &&
      r.value[0][i] == Value(FeatureDict(url, parsed.value), InsertionOrder[i])
  {
    match parsed
    case Err(e) => Err(ErrorPrefix + e)
    case Ok(p) =>
      InsertionOrderIsFeatureNames();
      Ok([Row(FeatureDict(url, p), InsertionOrder)])
  }

  // ---------------------------------------------------------------------
  // What each feature means

  /** Each `num_*` feature is the multiplicity of its character in the
      whole URL, query string included. */
  lemma CharCountsAreOccurrences(url: string, parsed: ParsedUrl)
    ensures var d := FeatureDict(url, parsed);
      var m := multiset(url);
      d.numDots == m['.'] && d.numHyphens == m['-'] && d.numAt == m['@'] &&
      d.numQuestionMarks == m['?'] && d.numAnd == m['&'] && d.numEqual == m['='] &&
      d.numUnderscore == m['_'] && d.numTilde == m['~'] && d.numPercent == m['%'] &&
      d.numSlash == m['/']
  {
    CountIsMultiplicity(url, '.');
    CountIsMultiplicity(url, '-');
    CountIsMultiplicity(url, '@');
    CountIsMultiplicity(url, '?');
    CountIsMultiplicity(url, '&');
    CountIsMultiplicity(url, '=');
    CountIsMultiplicity(url, '_');
    CountIsMultiplicity(url, '~');
    CountIsMultiplicity(url, '%');
    CountIsMultiplicity(url, '/');
  }

  /** `domain_in_path` is 1 exactly when the lower-cased netloc occurs in the
      lower-cased path, so always when the netloc is empty. */
  lemma DomainInPathIff(url: string, parsed: ParsedUrl)
    ensures FeatureDict(url, parsed).domainInPath == 1 <==>
      exists i :: OccursAt(Lower(parsed.path), Lower(parsed.netloc), i)
    ensures parsed.netloc == [] ==> FeatureDict(url, parsed).domainInPath == 1
  {
    var path, host := Lower(parsed.path), Lower(parsed.netloc);
    assert FeatureDict(url, parsed).domainInPath == 1 <==> Contains(path, host);
    ContainsIff(path, host);
    ContainsEmpty(path);
  }

  /** `has_suspicious_words` is 1 exactly when some keyword occurs in the
      lower-cased URL. */
  lemma SuspiciousWordsIff(url: string, parsed: ParsedUrl)
    ensures FeatureDict(url, parsed).hasSuspiciousWords == 1 <==>
      exists w, i :: w in Keywords && OccursAt(Lower(url), w, i)
  {
    assert FeatureDict(url, parsed).hasSuspiciousWords == 1 <==> MentionsKeyword(url);
    ContainsSomeIff(Lower(url), Keywords);
    if exists w, i :: w in Keywords && OccursAt(Lower(url), w, i) {
      var w, i :| w in Keywords && OccursAt(Lower(url), w, i);
      var k :| 0 <= k < |Keywords| && Keywords[k] == w;
      assert OccursAt(Lower(url), Keywords[k], i);
    }
  }

  /** `has_ip_address` is 1 exactly when the URL opens with `http://` or
      `https://` and a dotted quad of one-to-three-digit groups. */
  lemma IpAddressIff(url: string, parsed: ParsedUrl)
    ensures FeatureDict(url, parsed).hasIpAddress == 1 <==>
      (StartsWith(url, "http://") && GroupsMatch(url[7..], 3)) ||
      (StartsWith(url, "https://") && GroupsMatch(url[8..], 3))
  {
    IpPrefixIff(url);
  }

  /** The path features: `dir_count` never exceeds `path_length` (each
      segment holds a non-slash character), is 0 for a path of slashes only,
      and `has_double_slash` is 1 exactly when `//` occurs in the path. */
  lemma PathFeatures(url: string, parsed: ParsedUrl)
    ensures var d := FeatureDict(url, parsed);
      d.dirCount + Count(parsed.path, '/') <= d.pathLength &&
      d.dirCount <= d.pathLength &&
      ((forall i :: 0 <= i < |parsed.path| ==> parsed.path[i] == '/') ==> d.dirCount == 0) &&
      (d.hasDoubleSlash == 1 <==> exists i :: OccursAt(parsed.path, "//", i))
  {
    SegmentCountBound(parsed.path);
    ContainsIff(parsed.path, "//");
  }

  /** `has_https` follows the parsed scheme, `domain_age_days` is the
      placeholder 0 and every indicator is 0 or 1. */
  lemma IndicatorFeatures(url: string, parsed: ParsedUrl)
    ensures var d := FeatureDict(url, parsed);
      (d.hasHttps == 1 <==> parsed.scheme == "https") && d.domainAgeDays == 0 &&
      d.hasHttps <= 1 && d.hasIpAddress <= 1 && d.hasSuspiciousWords <= 1 &&
      d.domainInPath <= 1 && d.hasDoubleSlash <= 1
  {
  }

  /** The text `get_feature_explanations()` stores under a feature's key. */
  function Explanation(f: Feature): string
  {
    match f
    case UrlLength => "Unusually long URLs may indicate hidden malicious content"
    case HostnameLength => "Extremely long hostnames are often suspicious"
    case DomainInPath => "Domain name repeated in URL path may indicate deception"
    case DomainAgeDays => "Newly registered domains are more likely to be malicious"
    case NumDots => "Excessive dots may indicate subdomain abuse"
    case NumHyphens => "Multiple hyphens are common in phishing URLs"
    case NumAt => "The @ symbol in URLs can be used to obscure the actual destination"
    case NumQuestionMarks => "Multiple query parameters may hide malicious code"
    case NumAnd => "Numerous parameters might indicate suspicious data collection"
    case NumEqual => "Many parameters could suggest data harvesting"
    case NumUnderscore => "Uncommon in legitimate URLs"
    case NumTilde => "Rarely used in legitimate URLs"
    case NumPercent => "Encoded characters may hide malicious content"
    case NumSlash => "Deep directory structures might hide malicious content"
    case HasIpAddress => "IP addresses instead of domain names are suspicious"
    case HasHttps => "Lack of HTTPS indicates poor security"
    case HasSuspiciousWords => "Contains terms commonly used in phishing"
    case DirCount => "Excessive directories may hide true purpose"
    case PathLength => "Extremely long paths may hide malicious content"
    case HasDoubleSlash => "Double slashes in path may indicate URL manipulation"
  }

  /** `get_feature_explanations()`: a dictionary giving every feature the
      text shown beside it. */
  function GetFeatureExplanations(): (m: map<Feature, string>)
    ensures forall f: Feature :: f in m && m[f] == Explanation(f)
  {
    InsertionOrderIsFeatureNames();
    map f | f in InsertionOrder :: Explanation(f)
  }
}
