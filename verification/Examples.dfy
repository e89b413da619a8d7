/** A worked example of the browser copy, end to end: the parser's
    components go in, `extractFeatures` builds the array and `analyzeUrl`
    scores it. The URL `http://192.168.1.1/login` combines a raw IP host
    with a login keyword over plain http, and still scores only 0.37. */
module Examples {
  import opened Results
  import opened Text
  import opened Patterns
  import opened Schema
  import opened Utils

  // ---------------------------------------------------------------------
  // Dotted quads

  /** One to three decimal digits: a group of `\d{1,3}`. */
  predicate IsOctetText(d: string) {
    1 <= |d| <= 3 && AllDigits(d)
  }

  /** `a.b.c.d` followed by `tail`. */
  function Quad(a: string, b: string, c: string, d: string, tail: string): string {
    a + "." + (b + "." + (c + "." + (d + tail)))
  }

  /** One to three digits open a match of the last `\d{1,3}`. */
  lemma GroupsMatchLast(d: string, rest: string)
    requires IsOctetText(d)
    ensures GroupsMatch(d + rest, 0)
  {
    assert (d + rest)[..|d|] == d;
    assert LastGroupAt(d + rest, |d|);
  }

  /** A group and a dot in front of a match of `groups - 1` groups make a
      match of `groups` groups. */
  lemma GroupsMatchNext(d: string, rest: string, groups: nat)
    requires IsOctetText(d) && groups > 0 && GroupsMatch(rest, groups - 1)
    ensures GroupsMatch(d + "." + rest, groups)
  {
    var s := d + "." + rest;
    assert s[..|d|] == d;
    assert s[|d| + 1..] == rest;
    assert GroupAt(s, |d|);
  }

  /** Four groups separated by dots match `(\d{1,3}\.){3}\d{1,3}`,
      whatever follows them. */
  lemma QuadMatches(a: string, b: string, c: string, d: string, tail: string)
    requires IsOctetText(a) && IsOctetText(b) && IsOctetText(c) && IsOctetText(d)
    ensures GroupsMatch(Quad(a, b, c, d, tail), 3)
  {
    GroupsMatchLast(d, tail);
    GroupsMatchNext(c, d + tail, 1);
    GroupsMatchNext(b, c + "." + (d + tail), 2);
    GroupsMatchNext(a, b + "." + (c + "." + (d + tail)), 3);
  }

  lemma SchemeThenQuad(scheme: string, rest: string)
    requires scheme == "http://" || scheme == "https://"
    requires DottedPrefix(rest, 3)
    ensures IpPrefix(scheme + rest)
  {
    var url := scheme + rest;
    assert url[|scheme|..] == rest;
    assert url[..|scheme|] == scheme;
  }

  /** A URL opening with a scheme and a dotted quad passes the IP test. */
  lemma DottedQuadIsIp(scheme: string, a: string, b: string, c: string, d: string, tail: string)
    requires scheme == "http://" || scheme == "https://"
    requires IsOctetText(a) && IsOctetText(b) && IsOctetText(c) && IsOctetText(d)
    ensures IpPrefix(scheme + Quad(a, b, c, d, tail))
  {
    QuadMatches(a, b, c, d, tail);
    DottedPrefixIff(Quad(a, b, c, d, tail), 3);
    SchemeThenQuad(scheme, Quad(a, b, c, d, tail));
  }

  // ---------------------------------------------------------------------
  // Counting characters in pieces

  /** A character that does not occur is counted zero times. */
  lemma {:induction false} CountAbsent(s: string, ch: char)
    requires forall i :: 0 <= i < |s| ==> s[i] != ch
    ensures Count(s, ch) == 0
  {
    if s != [] {
      CountAbsent(s[1..], ch);
    }
  }

  lemma CountDot(ch: char)
    ensures Count(".", ch) == if ch == '.' then 1 else 0
  {
  }

  /** Outside its digits, a dotted quad holds three dots and nothing else. */
  lemma CountQuad(a: string, b: string, c: string, d: string, tail: string, ch: char)
    requires IsOctetText(a) && IsOctetText(b) && IsOctetText(c) && IsOctetText(d)
    requires !IsDigit(ch)
    ensures Count(Quad(a, b, c, d, tail), ch) == (if ch == '.' then 3 else 0) + Count(tail, ch)
  {
    CountAbsent(a, ch);
    CountAbsent(b, ch);
    CountAbsent(c, ch);
    CountAbsent(d, ch);
    CountDot(ch);
    CountConcat(d, tail, ch);
    CountConcat(c + ".", d + tail, ch);
    CountConcat(c, ".", ch);
    CountConcat(b + ".", c + "." + (d + tail), ch);
    CountConcat(b, ".", ch);
    CountConcat(a + ".", b + "." + (c + "." + (d + tail)), ch);
    CountConcat(a, ".", ch);
  }

  // ---------------------------------------------------------------------
  // Which rules fire

  /** The rules that fire on the object of a vector with an IP host, a
      keyword, no https and every other scored feature at or below its
      threshold: only those reading `has_ip_address`, `has_suspicious_words`
      and `has_https`. */
  predicate IpKeywordOverHttp(v: FeatureVector) {
    v.hasIpAddress == 1 && v.hasSuspiciousWords == 1 && v.domainInPath == 0 &&
    v.hasHttps == 0 && v.urlLength <= 75 && v.numDots <= 3 && v.numAt == 0 &&
    v.hasDoubleSlash == 0 && v.hostnameLength <= 30 && v.pathLength <= 50 &&
    v.numSlash <= 4 && v.numEqual <= 2
  }

  /** On such a vector exactly the first, second and fourth rules fire. */
  lemma FiringOfIpKeywordOverHttp(obj: map<Feature, Slot>, v: FeatureVector)
    requires forall f: Feature :: Lookup(obj, f) == Defined(Value(v, f))
    requires IpKeywordOverHttp(v)
    ensures forall j :: 0 <= j < |Rules| ==> (Fires(obj, Rules[j]) <==> j == 0 || j == 1 || j == 3)
  {
    forall j | 0 <= j < |Rules| ensures Fires(obj, Rules[j]) <==> j == 0 || j == 1 || j == 3 {
      assert Lookup(obj, Rules[j].feature) == Defined(Value(v, Rules[j].feature));
    }
  }

  /** When exactly the rules for an IP host, a keyword and a missing https
      fire, the score is 0.15 + 0.12 + 0.10 = 0.37. */
  lemma ScoreOfFired(obj: map<Feature, Slot>)
    requires forall j :: 0 <= j < |Rules| ==> (Fires(obj, Rules[j]) <==> j == 0 || j == 1 || j == 3)
    ensures RiskScore(obj) == 37
  {
    assert ScoreUpTo(obj, 1) == 15;
    assert ScoreUpTo(obj, 2) == 27;
    assert ScoreUpTo(obj, 3) == 27;
    assert ScoreUpTo(obj, 4) == 37;
    assert ScoreUpTo(obj, 5) == 37;
    assert ScoreUpTo(obj, 6) == 37;
    assert ScoreUpTo(obj, 7) == 37;
    assert ScoreUpTo(obj, 8) == 37;
    assert ScoreUpTo(obj, 9) == 37;
    assert ScoreUpTo(obj, 10) == 37;
    assert ScoreUpTo(obj, 11) == 37;
  }

  // ---------------------------------------------------------------------
  // A dotted-quad host over plain http

  /** `http://a.b.c.d` followed by a short path that holds no dot, `@`,
      `=` or `//` and at most two slashes, with a keyword somewhere in the
      URL: the features of an IP host with a keyword over plain http. */
  lemma QuadOverHttpFeatures(a: string, b: string, c: string, d: string, host: string, path: string)
    requires IsOctetText(a) && IsOctetText(b) && IsOctetText(c) && IsOctetText(d)
    requires |path| < |host| <= 15
    requires Count(path, '.') == 0 && Count(path, '@') == 0
    requires Count(path, '/') <= 2 && Count(path, '=') == 0
    requires !Contains(path, "//")
    requires ContainsSomeIgnoringCase("http://" + Quad(a, b, c, d, path), Keywords)
    ensures IpKeywordOverHttp(JsFeatures("http://" + Quad(a, b, c, d, path), JsUrl("http:", host, path)))
  {
    var url := "http://" + Quad(a, b, c, d, path);
    DottedQuadIsIp("http://", a, b, c, d, path);
    QuadCounts(a, b, c, d, path);
    LongerNotContained(Lower(path), Lower(host));
  }

  /** The array `extractFeatures` builds for such a URL scores 0.37. */
  lemma QuadOverHttpScore(a: string, b: string, c: string, d: string, host: string, path: string)
    requires IsOctetText(a) && IsOctetText(b) && IsOctetText(c) && IsOctetText(d)
    requires |path| < |host| <= 15
    requires Count(path, '.') == 0 && Count(path, '@') == 0
    requires Count(path, '/') <= 2 && Count(path, '=') == 0
    requires !Contains(path, "//")
    requires ContainsSomeIgnoringCase("http://" + Quad(a, b, c, d, path), Keywords)
    ensures var url, u := "http://" + Quad(a, b, c, d, path), JsUrl("http:", host, path);
      RiskScore(FeatureObject(ExtractFeatures(url, Ok(u)).value)) == 37
  {
    var url, u := "http://" + Quad(a, b, c, d, path), JsUrl("http:", host, path);
    QuadOverHttpFeatures(a, b, c, d, host, path);
    AnalyzeSeesExtracted(url, u);
    var obj := FeatureObject(ExtractFeatures(url, Ok(u)).value);
    FiringOfIpKeywordOverHttp(obj, JsFeatures(url, u));
    ScoreOfFired(obj);
  }

  /** A non-digit occurs in `http://a.b.c.d` + path as often as in the
      scheme and the path together, plus the quad's three dots. */
  lemma QuadCount(a: string, b: string, c: string, d: string, path: string, ch: char)
    requires IsOctetText(a) && IsOctetText(b) && IsOctetText(c) && IsOctetText(d)
    requires !IsDigit(ch)
    ensures Count("http://" + Quad(a, b, c, d, path), ch) ==
      Count("http://", ch) + (if ch == '.' then 3 else 0) + Count(path, ch)
  {
    CountConcat("http://", Quad(a, b, c, d, path), ch);
    CountQuad(a, b, c, d, path, ch);
  }

  /** The counts of the URL in `QuadOverHttpFeatures`. */
  lemma QuadCounts(a: string, b: string, c: string, d: string, path: string)
    requires IsOctetText(a) && IsOctetText(b) && IsOctetText(c) && IsOctetText(d)
    ensures var url := "http://" + Quad(a, b, c, d, path);
      Count(url, '.') == 3 + Count(path, '.') && Count(url, '@') == Count(path, '@') &&
      Count(url, '/') == 2 + Count(path, '/') && Count(url, '=') == Count(path, '=')
  {
    QuadCount(a, b, c, d, path, '.');
    QuadCount(a, b, c, d, path, '@');
    QuadCount(a, b, c, d, path, '/');
    QuadCount(a, b, c, d, path, '=');
    assert Count("http://", '/') == 2;
  }

  // ---------------------------------------------------------------------
  // http://192.168.1.1/login

  /** The example URL, as its scheme, its quad and its path. */
  lemma IpLoginUrl()
    ensures "http://" + Quad("192", "168", "1", "1", "/login") == "http://192.168.1.1/login"
  {
  }

  lemma IpLoginMentionsLogin(url: string)
    requires url == "http://192.168.1.1/login"
    ensures ContainsSomeIgnoringCase(url, Keywords)
  {
    assert url == "http://192.168.1.1/" + "login";
    assert url[19..] == "login";
    ContainsIgnoringCaseFrom(url, Keywords[1], 19);
  }

  lemma LoginPath(path: string)
    requires path == "/login"
    ensures Count(path, '.') == 0 && Count(path, '@') == 0
    ensures Count(path, '/') == 1 && Count(path, '=') == 0
    ensures !Contains(path, "//")
  {
    forall i | 0 <= i < |path| ensures path[i] != '.' && path[i] != '@' && path[i] != '=' {
    }
    CountAbsent(path, '.');
    CountAbsent(path, '@');
    CountAbsent(path, '=');
    assert path == "/" + path[1..];
    CountAbsent(path[1..], '/');
    CountConcat("/", path[1..], '/');
    ContainsIff(path, "//");
    assert forall j :: 1 <= j < |path| ==> path[j] != '/';
    forall i ensures !OccursAt(path, "//", i) {
      if 0 <= i && i + 2 <= |path| {
        assert path[i..i + 2][1] == path[i + 1];
      }
    }
  }

  /** The object `analyzeUrl` builds from the example's array scores 0.37. */
  lemma IpLoginScore(url: string, u: JsUrl)
    requires url == "http://" + Quad("192", "168", "1", "1", "/login")
    requires u == JsUrl("http:", "192.168.1.1", "/login")
    ensures RiskScore(FeatureObject(ExtractFeatures(url, Ok(u)).value)) == 37
  {
    IpLoginUrl();
    IpLoginMentionsLogin(url);
    LoginPath(u.pathname);
    QuadOverHttpScore("192", "168", "1", "1", u.hostname, u.pathname);
  }

  /** `analyzeUrl(extractFeatures("http://192.168.1.1/login"))`, the
      components being those `new URL` reports: a raw IP address and a
      login keyword over plain http give 0.37, a medium risk that is not
      reported as phishing. */
  method IpLoginExample() returns (a: Analysis)
    ensures a.riskScore == 37 && a.riskLevel == Medium && !a.isPhishing
  {
    var url := "http://" + Quad("192", "168", "1", "1", "/login");
    var u := JsUrl("http:", "192.168.1.1", "/login");
    var r := ExtractFeatures(url, Ok(u));
    a := AnalyzeUrl(r.value);
    IpLoginScore(url, u);
  }
}
