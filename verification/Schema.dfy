/** The twenty features both extractors compute, identified by the keys
    the two copies use for them. */
module Schema {

  datatype Feature =
    | UrlLength | HostnameLength | DomainInPath | DomainAgeDays
    | NumDots | NumHyphens | NumAt | NumQuestionMarks
    | NumAnd | NumEqual | NumUnderscore | NumTilde
    | NumPercent | NumSlash | HasIpAddress | HasHttps
    | HasSuspiciousWords | DirCount | PathLength | HasDoubleSlash

  /** The dictionary / object key of a feature. */
  function Name(f: Feature): string {
    match f
    case UrlLength => "url_length"
    case HostnameLength => "hostname_length"
    case DomainInPath => "domain_in_path"
    case DomainAgeDays => "domain_age_days"
    case NumDots => "num_dots"
    case NumHyphens => "num_hyphens"
    case NumAt => "num_at"
    case NumQuestionMarks => "num_question_marks"
    case NumAnd => "num_and"
    case NumEqual => "num_equal"
    case NumUnderscore => "num_underscore"
    case NumTilde => "num_tilde"
    case NumPercent => "num_percent"
    case NumSlash => "num_slash"
    case HasIpAddress => "has_ip_address"
    case HasHttps => "has_https"
    case HasSuspiciousWords => "has_suspicious_words"
    case DirCount => "dir_count"
    case PathLength => "path_length"
    case HasDoubleSlash => "has_double_slash"
  }

  /** The values of the twenty features, one field per key: the dictionary
      `extract_features` fills and the object `extractFeatures` fills. */
  datatype FeatureVector = FeatureVector(
    urlLength: nat, hostnameLength: nat, domainInPath: nat, domainAgeDays: nat,
    numDots: nat, numHyphens: nat, numAt: nat, numQuestionMarks: nat,
    numAnd: nat, numEqual: nat, numUnderscore: nat, numTilde: nat,
    numPercent: nat, numSlash: nat, hasIpAddress: nat, hasHttps: nat,
    hasSuspiciousWords: nat, dirCount: nat, pathLength: nat, hasDoubleSlash: nat)

  /** The value stored under a key (`features[key]`). */
  function Value(v: FeatureVector, f: Feature): nat {
    match f
    case UrlLength => v.urlLength
    case HostnameLength => v.hostnameLength
    case DomainInPath => v.domainInPath
    case DomainAgeDays => v.domainAgeDays
    case NumDots => v.numDots
    case NumHyphens => v.numHyphens
    case NumAt => v.numAt
    case NumQuestionMarks => v.numQuestionMarks
    case NumAnd => v.numAnd
    case NumEqual => v.numEqual
    case NumUnderscore => v.numUnderscore
    case NumTilde => v.numTilde
    case NumPercent => v.numPercent
    case NumSlash => v.numSlash
    case HasIpAddress => v.hasIpAddress
    case HasHttps => v.hasHttps
    case HasSuspiciousWords => v.hasSuspiciousWords
    case DirCount => v.dirCount
    case PathLength => v.pathLength
    case HasDoubleSlash => v.hasDoubleSlash
  }

  /** A vector as the array of its values listed in the order of `keys`
      (`featureOrder.map(key => features[key])`, `features.values()`). */
  function Row(v: FeatureVector, keys: seq<Feature>): (r: seq<nat>)
    ensures |r| == |keys|
  {
    seq(|keys|, i requires 0 <= i < |keys| => Value(v, keys[i]))
  }

  /** The keys of a list of features, in order. */
  function Names(fs: seq<Feature>): seq<string> {
    seq(|fs|, i requires 0 <= i < |fs| => Name(fs[i]))
  }

  /** A list of features that names each of the twenty exactly once. */
  predicate IsSchema(fs: seq<Feature>) {
    |fs| == 20 &&
    (forall i, j :: 0 <= i < j < |fs| ==> fs[i] != fs[j]) &&
    (forall f: Feature :: f in fs)
  }

  /** The order in which every list of the twenty keys in both copies
      names them. */
  const Canonical: seq<Feature> := [
    UrlLength, HostnameLength, DomainInPath, DomainAgeDays,
    NumDots, NumHyphens, NumAt, NumQuestionMarks,
    NumAnd, NumEqual, NumUnderscore, NumTilde,
    NumPercent, NumSlash, HasIpAddress, HasHttps,
    HasSuspiciousWords, DirCount, PathLength, HasDoubleSlash
  ]

  /** Where a feature stands in the canonical order. */
  function Position(f: Feature): (k: nat)
    ensures k < |Canonical| && Canonical[k] == f
  {
    match f
    case UrlLength => 0
    case HostnameLength => 1
    case DomainInPath => 2
    case DomainAgeDays => 3
    case NumDots => 4
    case NumHyphens => 5
    case NumAt => 6
    case NumQuestionMarks => 7
    case NumAnd => 8
    case NumEqual => 9
    case NumUnderscore => 10
    case NumTilde => 11
    case NumPercent => 12
    case NumSlash => 13
    case HasIpAddress => 14
    case HasHttps => 15
    case HasSuspiciousWords => 16
    case DirCount => 17
    case PathLength => 18
    case HasDoubleSlash => 19
  }

  /** The canonical order names each feature exactly once. */
  lemma CanonicalIsSchema()
    ensures IsSchema(Canonical)
  {
    assert forall i :: 0 <= i < |Canonical| ==> Position(Canonical[i]) == i;
    forall f: Feature ensures f in Canonical {
      assert Canonical[Position(f)] == f;
    }
  }
}
