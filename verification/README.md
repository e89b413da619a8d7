# Phishing URL heuristic — a Dafny model

The system is a phishing detector for URLs with two copies of its feature
extractor. The Python copy (`url_features.py`) turns a URL into a 1 x 20 array
of numeric features. The browser-extension copy (`utils.js`) computes the same
twenty features, files them under their names and scores them with twelve
weighted rules. The score gives a verdict (phishing from 0.50) and a level
(Low below 0.30, Medium below 0.60, High otherwise).

The model covers both copies:

- `Results` holds the outcome of an operation that may raise: a value, or
  the exception's message.
- `Text` holds the string operations both extractors use: character counts,
  UTF-16 length, ASCII case mapping, substring search, case-insensitive
  search and splitting. The counts, searches and splitting each have an
  independent reference definition and a lemma connecting the two. The
  UTF-16 length is bounded by one and two code units per character, and it
  equals the character count exactly when no character lies outside the
  Basic Multilingual Plane.
- `Patterns` models the two regular expressions. The IP test
  `^(http|https)://(\d{1,3}\.){3}\d{1,3}` is decided by a deterministic
  matcher, proved equal to the regex's backtracking reading. The keyword
  alternation is also here.
- `Schema` holds the twenty features, their keys and their values in a
  vector. Each copy's explanation table is transcribed in its own module.
- `UrlFeatures` models `extract_features`, `get_feature_names` and
  `get_feature_explanations`.
- `Utils` models `extractFeatures`, `getFeatureImportance`, `analyzeUrl` and
  `getFeatureExplanations`. Weights and scores are integer hundredths:
  15 stands for 0.15. `AnalyzeUrl` is a method. Its first loop is the
  source's `forEach` that builds `featureObj`. The source's twelve
  straight-line guarded increments are rendered as a second loop, over a
  table of the twelve rules.
- `FloatScore` models `analyzeUrl` as JavaScript evaluates it, on binary64
  doubles, and compares that with the exact model.
- `CrossCopy` relates the two copies. They share the key order and the
  explanation texts, and count characters alike on every URL. On ASCII
  URLs they also agree on the IP and keyword tests and on `url_length`,
  and they produce the same vector whenever the two parsers report the
  same ASCII components. Beyond ASCII the source copies part:
  - Python's `url.lower()` maps U+212A KELVIN SIGN to `k`, while
    JavaScript's `/i` without the `u` flag does not. So
    `http://x/?q=ban\u212A` has a suspicious word for Python only.
  - Python's `re` `\d` takes every Unicode decimal digit, JavaScript's only
    ASCII digits. So a dotted quad in Arabic-Indic digits is an IP address
    for Python only.
  - JavaScript lengths count UTF-16 code units, so they differ from
    Python's outside the Basic Multilingual Plane.

  The two parsers also often report different components, and then
  `VectorsAgree` does not apply:
  - For a bare host such as `http://example.com`, `urlparse` gives the
    path `""` and `new URL` the pathname `"/"`. So `path_length` is 0 in
    Python and 1 in JavaScript, while every other feature agrees
    (`CrossCopy.BareHostDiffers`).
  - `netloc` keeps user information and the port (`user@host:8080`),
    while `hostname` drops both. So `hostname_length` and `domain_in_path`
    can differ.
- `Examples` works `http://192.168.1.1/login` through `extractFeatures` and
  `analyzeUrl`.

The URL parsers (`urllib.parse.urlparse`, the WHATWG `URL` constructor) are
inputs of the model. Each is either the components the extractor reads, or
the message of the exception it raised.

Three consequences of the code are worth stating outright:

- A raw IP address with a login keyword over plain http scores
  0.15 + 0.12 + 0.10 = 0.37: `http://192.168.1.1/login` is Medium and is
  not reported as phishing (`Examples.IpLoginExample`).
- The verdict cuts at 0.50, inside the Medium band: a Medium score from
  0.30 up to 0.50 is not phishing, one from 0.50 up to 0.60 is.
- An empty URL is not an error in the Python copy: `urlparse("")` does not
  raise. With an empty netloc, `domain_in_path` is 1
  (`UrlFeatures.DomainInPathIff`).

## Model

| member | source | states |
|---|---|---|
| Text.CountIsMultiplicity | url_features.py:22-31 | `url.count(c)` is the multiplicity of `c` among the URL's characters |
| Text.Utf16LengthIsCharCount | utils.js:8-9 | the JavaScript length equals the character count exactly when every character lies in the Basic Multilingual Plane |
| Text.ContainsIff | url_features.py:18 | the left-to-right scan behind `in` / `includes` finds the needle exactly when it occurs at some position |
| Text.ContainsSomeIff | url_features.py:37-38 | `any(word in text ...)` holds exactly when some word occurs at some position |
| Text.StartsWithIgnoringCaseIsLowerPrefix | utils.js:31 | the `/i` comparison of upper-case forms agrees with comparing the lower-cased strings |
| Text.ContainsIgnoringCaseIsLowerSearch | utils.js:31 | a case-insensitive regex search for a literal is a search of the lower-cased text for the lower-cased literal |
| Text.ContainsSomeIgnoringCaseIsLowerSearch | utils.js:31 | the `/i` alternation of words matches exactly when some lower-cased word is in the lower-cased text |
| Text.Split | url_features.py:41 | `split('/')` gives one more piece than there are separators, none containing the separator |
| Text.JoinSplit | url_features.py:41 | joining the pieces of `split` with the separator gives back the string |
| Text.SplitTotalLength | url_features.py:41 | the pieces hold every character that is not a separator |
| Text.NonEmpty | url_features.py:41 | the filter keeps only non-empty pieces, and every non-empty piece that occurs |
| Text.NonEmptyMultiset | url_features.py:41 | the filter keeps each non-empty piece as many times as it occurs and drops every empty one |
| Text.NonEmptyCount | url_features.py:41 | the number kept is the number of pieces less the number of empty pieces |
| Text.SegmentCountIsNonEmptyPieces | url_features.py:41 | `dir_count` is the number of `/`-separated pieces of the path that are not empty (repeats counted) |
| Text.SegmentCountBound | url_features.py:41-42 | `dir_count` plus the slashes never exceeds the path length, and a path of slashes has no segments |
| Patterns.DottedPrefixIff | url_features.py:34-35 | the deterministic matcher accepts exactly the strings that `(\d{1,3}\.){3}\d{1,3}` matches at the start, in both directions |
| Patterns.IpPrefixIff | utils.js:29 | the IP test holds exactly when the URL opens with `http://` or `https://` and a dotted quad |
| Patterns.KeywordsAreLowerCase | url_features.py:37-38 | every keyword is its own lower-case form |
| Schema.CanonicalIsSchema | url_features.py:50-58 | the key order names each of the twenty features exactly once |
| UrlFeatures.GetFeatureNames | url_features.py:50-58 | twenty distinct names |
| UrlFeatures.InsertionOrderIsFeatureNames | url_features.py:9-45 | the dictionary is written once per feature, in the order `get_feature_names()` lists |
| UrlFeatures.ExtractFeatures | url_features.py:6-48 | a parser failure becomes the prefixed error and nothing else; otherwise a single row of twenty values whose i-th is the feature named i-th by `get_feature_names()` |
| UrlFeatures.CharCountsAreOccurrences | url_features.py:22-31 | each `num_*` is the multiplicity of its character in the whole URL |
| UrlFeatures.DomainInPathIff | url_features.py:17-18 | `domain_in_path` is 1 exactly when the lower-cased netloc occurs in the lower-cased path, so always for an empty netloc |
| UrlFeatures.SuspiciousWordsIff | url_features.py:37-38 | `has_suspicious_words` is 1 exactly when some keyword occurs in the lower-cased URL |
| UrlFeatures.IpAddressIff | url_features.py:34-35 | `has_ip_address` is 1 exactly when the regex matches at the start of the URL |
| UrlFeatures.PathFeatures | url_features.py:41-43 | `dir_count` is bounded by the path length and is 0 for slash-only paths; `has_double_slash` is 1 exactly when `//` occurs in the path |
| UrlFeatures.IndicatorFeatures | url_features.py:19-36 | `has_https` follows the scheme, `domain_age_days` is the placeholder 0, every indicator is 0 or 1 |
| UrlFeatures.GetFeatureExplanations | url_features.py:60-83 | every feature has the explanation text transcribed from the Python table |
| Utils.NameListsAgree | utils.js:39-45 | `featureOrder` and `featureNames` list the same twenty keys in the same order, each once |
| Utils.ExtractFeatures | utils.js:2-51 | a parser failure becomes the prefixed error; otherwise twenty values, the i-th being the feature `analyzeUrl` files under its i-th name |
| Utils.GetFeatureImportance | utils.js:54-73 | every weight lies in (0, 1] |
| Utils.ImportanceKeys | utils.js:54-73 | the table weighs every feature except `domain_age_days`, `num_question_marks`, `num_percent` and `dir_count` |
| Utils.ObjectUpToReadsBack | utils.js:84-87 | after k callbacks the object holds exactly the first k names, each bound to the array entry at its index |
| Utils.FeatureObject | utils.js:84-87 | every feature has a property, holding `features[i]` for the i-th name or `undefined` past the array's end |
| Utils.AnalyzeSeesExtracted | utils.js:84-87 | on the array from `extractFeatures`, every property holds the value computed for that feature |
| Utils.ScoreUpTo | utils.js:93-104 | after k guarded increments the score never exceeds those k weights |
| Utils.AnalyzeUrl | utils.js:75-115 | the returned object, the score of its rules, phishing exactly from 0.50, the level by the 0.30 and 0.60 bounds; Low is never phishing, High always is |
| Utils.RiskScoreBound | utils.js:93-111 | the score never exceeds 0.91, so the 0.99 cap never binds; it reaches 0.91 when every rule fires |
| Utils.AllFire | utils.js:93-104 | when every rule fires the score is the sum of all weights |
| Utils.ScoreMonotone | utils.js:93-104 | when the set of firing rules grows, the score does not fall |
| Utils.LevelMonotone | utils.js:107-113 | a higher score never gives a lower level or withdraws the verdict |
| Utils.RaisingNeverLowers | utils.js:93-104 | raising any feature other than `has_https` never lowers the score, the level or the verdict |
| Utils.ClearingHttpsNeverLowers | utils.js:96 | clearing `has_https` never lowers the score, the level or the verdict |
| Utils.UnscoredIsUnread | utils.js:93-104 | a feature is in the unscored set exactly when no rule reads it |
| Utils.UnscoredFeaturesIgnored | utils.js:93-104 | changing an unscored feature leaves the score unchanged |
| Utils.RulesFollowImportance | utils.js:54-73 | each rule adds exactly the importance of the feature it reads |
| Utils.WeightedButUnscored | utils.js:54-73 | `num_hyphens`, `num_and`, `num_underscore` and `num_tilde` have a weight that no rule applies |
| Utils.PathFeatures | utils.js:34-36 | `dir_count` plus the path's slashes never exceeds the UTF-16 `path_length`; `dir_count` is 0 for slash-only paths; `has_double_slash` is 1 exactly when `//` occurs in the path |
| Utils.GetFeatureExplanations | utils.js:117-140 | every feature has the explanation text transcribed from the JavaScript object |
| CrossCopy.SameSchema | utils.js:39-45 | the JavaScript key order is the Python insertion order and `get_feature_names()` |
| CrossCopy.SomeWordIgnoringCase | utils.js:31 | for lower-case keywords the `/i` test is the search of the ASCII-lower-cased text, which is the Python test on `url.lower()` for ASCII URLs |
| CrossCopy.UrlOnlyFeaturesAgree | utils.js:8-31 | the character counts agree on every URL; the URL lengths agree exactly for BMP-only URLs; the IP and keyword tests agree on ASCII URLs |
| CrossCopy.VectorsAgree | utils.js:2-51 | with the same components and an ASCII URL, host and path, both copies build the same twenty values |
| CrossCopy.SameExplanations | utils.js:117-140 | the JavaScript table and the Python table (url_features.py:62-83) give every feature the same text |
| CrossCopy.BareHostDiffers | url_features.py:42 | for a bare host (Python path `""`, JavaScript pathname `"/"`, utils.js:35) every feature but `path_length` agrees, and `path_length` is 0 against 1, so the vectors differ |
| Examples.QuadMatches | utils.js:29 | four one-to-three-digit groups separated by dots match `(\d{1,3}\.){3}\d{1,3}` whatever follows |
| Examples.DottedQuadIsIp | utils.js:29 | a URL opening with a scheme and a dotted quad passes the IP test |
| Examples.CountQuad | utils.js:17-26 | a dotted quad adds three dots and no other non-digit character to the counts |
| Examples.FiringOfIpKeywordOverHttp | utils.js:93-104 | an IP host with a keyword over plain http, every other scored feature under its threshold, fires exactly the IP, keyword and https rules |
| Examples.ScoreOfFired | utils.js:93-104 | those three rules give 0.37 |
| Examples.QuadOverHttpFeatures | utils.js:2-36 | `http://a.b.c.d` plus a short path with a keyword has those features |
| Examples.QuadOverHttpScore | utils.js:75-104 | the array `extractFeatures` builds for such a URL scores 0.37 |
| Examples.IpLoginExample | utils.js:75-115 | `http://192.168.1.1/login` scores 0.37: Medium, not phishing |
| FloatScore.RoundError | utils.js:93-104 | rounding to the nearest double moves a value by at most half the spacing there |
| FloatScore.DoubleWeightsAreNearest | utils.js:93-104 | each weight's double is a double within half a spacing of the decimal literal |
| FloatScore.FloatScoreNear | utils.js:93-104 | after k increments the double sum lies within 135k units of 2^-60 (scaled by 100) of the exact sum |
| FloatScore.FloatAgreesAwayFromBounds | utils.js:107-113 | the double verdict equals the exact one except at 0.50, the level except at 0.30 and 0.60 |
| FloatScore.FiftyHundredthsMissed | utils.js:93-107 | the seven weights totalling exactly 0.50 sum to 0.49999999999999994 in doubles, below the threshold |
| FloatScore.AnalyzeUrlAsWritten | utils.js:75-115 | the function as written on doubles: its score is within 2^-60 * 1620 of the exact one, and it gives the exact verdict and level away from the bounds |
| FloatScore.FiftyHundredthsExample | utils.js:93-107 | an array scored 0.50 is phishing for the exact model and not for the code as written |

## Left out

- `urllib.parse.urlparse` and the WHATWG `URL` constructor are not part of this model. Their outcome is an input: the components read, or the message raised.
- Text.Lower: maps only ASCII letters, while Python `str.lower()` and JavaScript `toLowerCase()` map all of Unicode; `domain_in_path` and the Python keyword test match the sources only for ASCII host names, paths and URLs.
- Patterns.DottedPrefix: takes `\d` to be an ASCII digit; Python's `re` also counts other Unicode decimal digits (JavaScript's `\d` is ASCII only).
- CrossCopy.SomeWordIgnoringCase: relates the JavaScript test to the Python test as modelled, with ASCII lower-casing; Python's full `str.lower()` differs beyond ASCII (U+212A KELVIN SIGN becomes `k`), so for the source it holds on ASCII URLs only.
- CrossCopy.UrlOnlyFeaturesAgree: promises the IP and keyword tests agree only on ASCII URLs, because the source copies disagree beyond ASCII: `ban\u212A` is a keyword for Python only, and Arabic-Indic digits are `\d` for Python only.
- CrossCopy.VectorsAgree: requires an ASCII URL, host and path, for the same two divergences and because JavaScript lengths are UTF-16 lengths.
- Utils.AnalyzeUrl: takes an array of naturals, as `extractFeatures` returns; other JavaScript values (strings, negative numbers, `NaN`) are not modelled. Missing entries are modelled as `undefined`.
- Utils.AnalyzeUrl: sums exact hundredths. The JavaScript sum of doubles is modelled separately in `FloatScore` (see Findings).
- The unused `importance` local of `analyzeUrl` is not modelled. Its agreement with the weights is stated by `Utils.RulesFollowImportance`.
- The example's parser output is given as `JsUrl("http:", "192.168.1.1", "/login")`, not derived.
- Exception types (`ValueError`, `Error`) are not modelled, only their messages. `str(e)` and `e.message` are taken to be the parser's message.
- `ml_model.py`, `app.py`, `background.js`, `content.js`, `popup.js`, `generate_icons.py`, `package_extension.py`, `serve_extension.py` and `verify_package.py` are not part of this model. They cover training, serving, the browser UI and packaging.

## Findings

| source | as written | input that shows it | evidently intended | confidence | as-written member | corrected member |
|---|---|---|---|---|---|---|
| utils.js:93-107 | `riskScore` sums the weights as binary64 doubles and tests `riskScore >= 0.5` | an array firing the rules for keywords, missing https, `url_length > 75`, `has_double_slash`, `hostname_length > 30`, `path_length > 50` and `num_slash > 4`: 0.12 + 0.10 + 0.08 + 0.06 + 0.05 + 0.05 + 0.04 is 0.50 exactly, but the double sum is 0.49999999999999994, so the URL is not flagged (`FloatScore.FiftyHundredthsMissed`) | a total of 0.50 is reported as phishing, as the comment "threshold of 0.5" says | high, proved in the model; not executed | FloatScore.AnalyzeUrlAsWritten | Utils.AnalyzeUrl |
