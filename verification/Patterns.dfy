/** The two regular expressions both extractors apply to the raw URL:
    the start-anchored dotted-quad test `^(http|https)://(\d{1,3}\.){3}\d{1,3}`
    and the keyword alternation `(secure|login|signin|bank|account|update|verify)`. */
module Patterns {
  import opened Text

  predicate IsDigit(c: char) {
    '0' <= c <= '9'
  }

  predicate AllDigits(s: string) {
    forall i :: 0 <= i < |s| ==> IsDigit(s[i])
  }

  /** Length of the run of digits that starts `s`. */
  function LeadingDigits(s: string): (n: nat)
    ensures n <= |s|
  {
    if s != [] && IsDigit(s[0]) then LeadingDigits(s[1..]) + 1 else 0
  }

  /** The leading run is all digits and is followed by a non-digit or the
      end. */
  lemma {:induction false} LeadingDigitsRun(s: string)
    ensures AllDigits(s[..LeadingDigits(s)])
    ensures LeadingDigits(s) < |s| ==> !IsDigit(s[LeadingDigits(s)])
  {
    if s != [] && IsDigit(s[0]) {
      var m := LeadingDigits(s[1..]);
      LeadingDigitsRun(s[1..]);
      assert s[..m + 1] == [s[0]] + s[1..][..m];
    }
  }

  /** `(\d{1,3}\.){groups}\d{1,3}` matched at the start of `s`, decided
      without backtracking: a group is the whole leading digit run, which
      must be one to three digits long and be followed by a dot. */
  predicate DottedPrefix(s: string, groups: nat)
    decreases groups
  {
    var n := LeadingDigits(s);
    if groups == 0 then 1 <= n
    else 1 <= n <= 3 && n < |s| && s[n] == '.' && DottedPrefix(s[n + 1..], groups - 1)
  }

  /** `\d{j}\.` at the start of `s`: one group and its dot. */
  predicate GroupAt(s: string, j: nat) {
    1 <= j <= 3 && j < |s| && AllDigits(s[..j]) && s[j] == '.'
  }

  /** `\d{j}` at the start of `s`: the last group, with anything after it. */
  predicate LastGroupAt(s: string, j: nat) {
    1 <= j <= 3 && j <= |s| && AllDigits(s[..j])
  }

  /** The regular expression's own reading of `(\d{1,3}\.){groups}\d{1,3}`
      at the start of `s`: some choice of one to three digits per group. */
  ghost predicate GroupsMatch(s: string, groups: nat)
    decreases groups
  {
    if groups == 0 then
      exists j :: LastGroupAt(s, j)
    else
      exists j :: GroupAt(s, j) && GroupsMatch(s[j + 1..], groups - 1)
  }

  /** A run of `j` digits ending in a non-digit is the whole leading run. */
  lemma {:induction false} LeadingRunIsUnique(s: string, j: nat)
    requires j < |s| && AllDigits(s[..j]) && !IsDigit(s[j])
    ensures LeadingDigits(s) == j
  {
    if j > 0 {
      assert s[1..][..j - 1] == s[..j][1..];
      LeadingRunIsUnique(s[1..], j - 1);
    }
  }

  /** What the deterministic matcher accepts, the regular expression
      matches. */
  lemma {:induction false} DottedPrefixMatches(s: string, groups: nat)
    requires DottedPrefix(s, groups)
    ensures GroupsMatch(s, groups)
    decreases groups
  {
    if groups == 0 {
      DigitRunMatches(s);
    } else {
      var n := LeadingDigits(s);
      DottedPrefixMatches(s[n + 1..], groups - 1);
      GroupsMatchStep(s, groups);
    }
  }

  /** A non-empty leading digit run matches the last group, `\d{1,3}`,
      through its first digit. */
  lemma DigitRunMatches(s: string)
    requires 1 <= LeadingDigits(s)
    ensures GroupsMatch(s, 0)
  {
    LeadingDigitsRun(s);
    assert s[..1] == s[..LeadingDigits(s)][..1];
    assert LastGroupAt(s, 1);
  }

  /** An accepted first group followed by a match of the remaining groups
      is a match. */
  lemma GroupsMatchStep(s: string, groups: nat)
    requires groups > 0 && DottedPrefix(s, groups)
    requires GroupsMatch(s[LeadingDigits(s) + 1..], groups - 1)
    ensures GroupsMatch(s, groups)
  {
    LeadingDigitsRun(s);
    assert GroupAt(s, LeadingDigits(s));
  }

  /** The length of the first group of some match. */
  lemma FirstGroup(s: string, groups: nat) returns (j: nat)
    requires groups > 0 && GroupsMatch(s, groups)
    ensures GroupAt(s, j) && GroupsMatch(s[j + 1..], groups - 1)
  {
    j :| GroupAt(s, j) && GroupsMatch(s[j + 1..], groups - 1);
  }

  /** A group of `j` digits and a dot in front of an accepted rest is
      accepted. */
  lemma DottedPrefixStep(s: string, j: nat, groups: nat)
    requires GroupAt(s, j) && groups > 0 && DottedPrefix(s[j + 1..], groups - 1)
    ensures DottedPrefix(s, groups)
  {
    LeadingRunIsUnique(s, j);
  }

  /** What the regular expression matches, the deterministic matcher
      accepts: a group cannot stop short of the digit run, since a dot or
      the end must follow it. */
  lemma {:induction false} MatchesDottedPrefix(s: string, groups: nat)
    requires GroupsMatch(s, groups)
    ensures DottedPrefix(s, groups)
    decreases groups
  {
    if groups == 0 {
      var j: nat :| LastGroupAt(s, j);
      assert s[..j][0] == s[0];
    } else {
      var j := FirstGroup(s, groups);
      MatchesDottedPrefix(s[j + 1..], groups - 1);
      DottedPrefixStep(s, j, groups);
    }
  }

  /** The deterministic matcher agrees with the regular expression's
      backtracking semantics, in both directions. */
  lemma DottedPrefixIff(s: string, groups: nat)
    ensures DottedPrefix(s, groups) <==> GroupsMatch(s, groups)
  {
    if DottedPrefix(s, groups) {
      DottedPrefixMatches(s, groups);
    }
    if GroupsMatch(s, groups) {
      MatchesDottedPrefix(s, groups);
    }
  }

  /** `^(http|https)://(\d{1,3}\.){3}\d{1,3}` tested against the URL
      (Python `re.match`, JavaScript `RegExp.test`); anything may follow. */
  predicate IpPrefix(url: string) {
    (StartsWith(url, "http://") && DottedPrefix(url[7..], 3)) ||
    (StartsWith(url, "https://") && DottedPrefix(url[8..], 3))
  }

  /** The IP test holds exactly when the URL opens with `http://` or
      `https://` followed by three groups of one to three digits each
      ending in a dot, and then one to three digits. */
  lemma IpPrefixIff(url: string)
    ensures IpPrefix(url) <==>
      (StartsWith(url, "http://") && GroupsMatch(url[7..], 3)) ||
      (StartsWith(url, "https://") && GroupsMatch(url[8..], 3))
  {
    if |url| >= 7 { DottedPrefixIff(url[7..], 3); }
    if |url| >= 8 { DottedPrefixIff(url[8..], 3); }
  }

  /** The words of the keyword alternation, in the order both copies list them. */
  const Keywords: seq<string> := ["secure", "login", "signin", "bank", "account", "update", "verify"]

  /** Every keyword is written in lower case. */
  lemma KeywordsAreLowerCase()
    ensures forall k :: 0 <= k < |Keywords| ==> Lower(Keywords[k]) == Keywords[k]
  {
    forall k | 0 <= k < |Keywords| ensures Lower(Keywords[k]) == Keywords[k] {
      var w := Keywords[k];
      assert forall i :: 0 <= i < |w| ==> LowerChar(w[i]) == w[i];
      assert Lower(w) == w;
    }
  }

  /** Some keyword is found in the lower-cased URL (Python
      `any(word in url.lower() for word in [...])`). */
  predicate MentionsKeyword(url: string) {
    ContainsSome(Lower(url), Keywords)
  }
}
