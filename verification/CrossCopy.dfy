/** How the two copies of the extractor relate: the same schema and order,
    the same character counts over the raw URL, the same keyword and IP
    tests on ASCII URLs, and the same vector whenever the two parsers report
    the same ASCII components. Outside ASCII the copies part: Python's
    `str.lower()` and `re` `\d` are Unicode-aware, JavaScript's `/i` and `\d`
    without the `u` flag are not, and JavaScript measures lengths in UTF-16
    code units. */
module CrossCopy {
  import opened Results
  import opened Text
  import opened Patterns
  import opened Schema
  import P = UrlFeatures
  import J = Utils

  /** `featureOrder`, `featureNames` and `get_feature_names()` list the same
      keys in the same order. */
  lemma SameSchema()
    ensures Names(J.FeatureOrder) == P.GetFeatureNames()
    ensures J.FeatureNames == P.InsertionOrder
  {
    P.InsertionOrderIsFeatureNames();
    assert J.FeatureOrder == P.InsertionOrder;
  }

  /** A case-insensitive search for lower-case words is a search of the
      lower-cased text. Both sides use the ASCII case mapping, which is what
      JavaScript's `/i` without the `u` flag applies to ASCII words; Python's
      `str.lower()` coincides with it on ASCII text only. */
  lemma {:induction false} SomeWordIgnoringCase(hay: string, words: seq<string>)
    requires forall k :: 0 <= k < |words| ==> Lower(words[k]) == words[k]
    ensures ContainsSomeIgnoringCase(hay, words) <==> ContainsSome(Lower(hay), words)
  {
    ContainsSomeIgnoringCaseIsLowerSearch(hay, words);
    if ContainsSomeIgnoringCase(hay, words) {
      var k :| 0 <= k < |words| && Contains(Lower(hay), Lower(words[k]));
      assert Contains(Lower(hay), words[k]);
    }
  }

  /** The features read off the raw URL. The character counts agree on
      every URL. JavaScript measures `url_length` in UTF-16 code units, so
      the two lengths are equal exactly when every character lies in the
      Basic Multilingual Plane. The keyword and IP tests agree on ASCII
      URLs; beyond ASCII the source copies part (U+212A KELVIN SIGN
      lower-cases to `k` in Python only, and Python's `\d` also takes
      non-ASCII decimal digits). */
  lemma UrlOnlyFeaturesAgree(url: string, p: P.ParsedUrl, u: J.JsUrl)
    ensures var d, o := P.FeatureDict(url, p), J.JsFeatures(url, u);
      (d.urlLength == o.urlLength <==> IsBmp(url)) &&
      d.domainAgeDays == o.domainAgeDays &&
      d.numDots == o.numDots && d.numHyphens == o.numHyphens && d.numAt == o.numAt &&
      d.numQuestionMarks == o.numQuestionMarks && d.numAnd == o.numAnd &&
      d.numEqual == o.numEqual && d.numUnderscore == o.numUnderscore &&
      d.numTilde == o.numTilde && d.numPercent == o.numPercent && d.numSlash == o.numSlash &&
      (IsAscii(url) ==>
        d.urlLength == o.urlLength &&
        d.hasIpAddress == o.hasIpAddress && d.hasSuspiciousWords == o.hasSuspiciousWords)
  {
    if IsAscii(url) {
      AsciiIsBmp(url);
    }
    Utf16LengthIsCharCount(url);
    KeywordsAreLowerCase();
    SomeWordIgnoringCase(url, Keywords);
  }

  /** The parsers report the same components: the same host, the same path,
      and the JavaScript protocol is the Python scheme followed by a colon. */
  predicate SameComponents(p: P.ParsedUrl, u: J.JsUrl) {
    u.protocol == p.scheme + ":" && u.hostname == p.netloc && u.pathname == p.path
  }

  /** With the same components and an ASCII URL, host and path, both
      copies compute the same twenty values and emit the same array. */
  lemma VectorsAgree(url: string, p: P.ParsedUrl, u: J.JsUrl)
    requires SameComponents(p, u)
    requires IsAscii(url) && IsAscii(p.netloc) && IsAscii(p.path)
    ensures P.FeatureDict(url, p) == J.JsFeatures(url, u)
    ensures P.ExtractFeatures(url, Ok(p)).value == [J.ExtractFeatures(url, Ok(u)).value]
  {
    UrlOnlyFeaturesAgree(url, p, u);
    AsciiIsBmp(p.netloc);
    AsciiIsBmp(p.path);
    Utf16LengthIsCharCount(p.netloc);
    Utf16LengthIsCharCount(p.path);
    assert u.protocol == "https:" <==> p.scheme == "https" by {
      if u.protocol == "https:" {
        assert p.scheme == u.protocol[..|u.protocol| - 1];
      }
    }
    SameSchema();
    var pr, jr := P.ExtractFeatures(url, Ok(p)).value, J.ExtractFeatures(url, Ok(u)).value;
    assert pr[0] == jr;
  }

  /** The two transcribed tables give every feature the same text, so both
      copies return the same explanations. */
  lemma SameExplanations()
    ensures forall f :: P.Explanation(f) == J.Explanation(f)
    ensures P.GetFeatureExplanations() == J.GetFeatureExplanations()
  {
    forall f ensures P.Explanation(f) == J.Explanation(f) {
      match f
      case UrlLength =>
      case _ =>
    }
    var a, b := P.GetFeatureExplanations(), J.GetFeatureExplanations();
    assert a.Keys == b.Keys;
  }

  /** The parsers differ on a bare host such as `http://example.com`:
      `urlparse` reports the path `""` and `new URL` the pathname `"/"`.
      With an ASCII URL and host (not itself `/`), every feature but
      `path_length` still agrees, and `path_length` is 0 in Python against
      1 in JavaScript, so the two vectors differ. */
  lemma BareHostDiffers(url: string, host: string)
    requires IsAscii(url) && IsAscii(host) && host != "/"
    ensures var d, o := P.FeatureDict(url, P.ParsedUrl("http", host, "")),
                        J.JsFeatures(url, J.JsUrl("http:", host, "/"));
      d.pathLength == 0 && o.pathLength == 1 && d == o.(pathLength := 0) && d != o
  {
    var p, u := P.ParsedUrl("http", host, ""), J.JsUrl("http:", host, "/");
    UrlOnlyFeaturesAgree(url, p, u);
    AsciiIsBmp(host);
    Utf16LengthIsCharCount(host);
    assert Lower("/") == "/";
    if host == [] {
      ContainsEmpty("");
      ContainsEmpty("/");
    } else if |host| == 1 {
      LongerNotContained("", Lower(host));
      assert Lower(host)[0] != '/';
      assert !StartsWith("/", Lower(host));
      assert !Contains("/"[1..], Lower(host));
    } else {
      LongerNotContained("", Lower(host));
      LongerNotContained("/", Lower(host));
    }
    assert Split("", '/') == [""];
    assert Split("/", '/') == ["", ""];
  }
}
