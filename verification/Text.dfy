/** String analysis shared by both feature extractors: character counts,
    lengths, ASCII case mapping, substring search and splitting on a
    separator. Each operation comes with an independent reference
    definition and a lemma connecting the two. */
module Text {

  // ---------------------------------------------------------------------
  // Character counts

  /** Occurrences of `c` in `s` (Python `s.count(c)`, and the number of
      matches of a one-character global regex in JavaScript). */
  function Count(s: string, c: char): (n: nat)
    ensures n <= |s|
  {
    if s == [] then 0 else (if s[0] == c then 1 else 0) + Count(s[1..], c)
  }

  /** The count is the multiplicity of `c` in the multiset of characters. */
  lemma {:induction false} CountIsMultiplicity(s: string, c: char)
    ensures Count(s, c) == multiset(s)[c]
  {
    if s != [] {
      CountIsMultiplicity(s[1..], c);
      assert s == [s[0]] + s[1..];
      assert multiset(s) == multiset([s[0]]) + multiset(s[1..]);
    }
  }

  /** Counting distributes over concatenation. */
  lemma {:induction false} CountConcat(a: string, b: string, c: char)
    ensures Count(a + b, c) == Count(a, c) + Count(b, c)
  {
    if a == [] {
      assert a + b == b;
    } else {
      CountConcat(a[1..], b, c);
      assert (a + b)[1..] == a[1..] + b;
    }
  }

  /** A string made only of `c` counts every position. */
  lemma {:induction false} CountAll(s: string, c: char)
    requires forall i :: 0 <= i < |s| ==> s[i] == c
    ensures Count(s, c) == |s|
  {
    if s != [] {
      CountAll(s[1..], c);
    }
  }

  // ---------------------------------------------------------------------
  // Lengths

  /** JavaScript's `length`: UTF-16 code units, two for a character outside
      the Basic Multilingual Plane. */
  function Utf16Length(s: string): (n: nat)
    ensures |s| <= n <= 2 * |s|
  {
    if s == [] then 0
    else (if s[0] as int >= 0x1_0000 then 2 else 1) + Utf16Length(s[1..])
  }

  predicate IsBmp(s: string) {
    forall i :: 0 <= i < |s| ==> s[i] as int < 0x1_0000
  }

  /** Every character is ASCII. */
  predicate IsAscii(s: string) {
    forall i :: 0 <= i < |s| ==> s[i] as int < 0x80
  }

  /** ASCII text lies in the Basic Multilingual Plane. */
  lemma AsciiIsBmp(s: string)
    requires IsAscii(s)
    ensures IsBmp(s)
  {
  }

  /** The UTF-16 length equals the number of characters exactly when every
      character lies in the Basic Multilingual Plane. */
  lemma {:induction false} Utf16LengthIsCharCount(s: string)
    ensures Utf16Length(s) == |s| <==> IsBmp(s)
  {
    if s != [] {
      Utf16LengthIsCharCount(s[1..]);
      assert IsBmp(s) <==> s[0] as int < 0x1_0000 && IsBmp(s[1..]) by {
        assert forall i :: 0 < i < |s| ==> s[i] == s[1..][i - 1];
      }
    }
  }

  // ---------------------------------------------------------------------
  // Case mapping (ASCII letters only)

  function LowerChar(c: char): char {
    if 'A' <= c <= 'Z' then (c as int + 32) as char else c
  }

  /** The canonical form JavaScript's case-insensitive regex matching
      compares, restricted to ASCII. Without the `u` flag JavaScript
      upper-cases all of Unicode but never maps a non-ASCII character to an
      ASCII one, so against an ASCII pattern, such as the keyword
      alternation, this restriction decides the same matches. */
  function UpperChar(c: char): char {
    if 'a' <= c <= 'z' then (c as int - 32) as char else c
  }

  /** `toLowerCase()` / `lower()` restricted to ASCII letters. */
  function Lower(s: string): (r: string)
    ensures |r| == |s|
    ensures forall i :: 0 <= i < |s| ==> r[i] == LowerChar(s[i])
  {
    if s == [] then [] else [LowerChar(s[0])] + Lower(s[1..])
  }

  /** Comparing upper-case canonical forms and comparing lower-case forms
      agree on every pair of characters. */
  lemma SameIgnoringCase(a: char, b: char)
    ensures UpperChar(a) == UpperChar(b) <==> LowerChar(a) == LowerChar(b)
  {
  }

  // ---------------------------------------------------------------------
  // Substring search

  predicate StartsWith(s: string, prefix: string) {
    |prefix| <= |s| && s[..|prefix|] == prefix
  }

  /** Python `needle in hay` and JavaScript `hay.includes(needle)`, as a scan
      from the left. */
  predicate Contains(hay: string, needle: string)
    decreases |hay|
  {
    StartsWith(hay, needle) || (hay != [] && Contains(hay[1..], needle))
  }

  /** `needle` occupies positions `i .. i + |needle|` of `hay`. */
  predicate OccursAt(hay: string, needle: string, i: int) {
    0 <= i && i + |needle| <= |hay| && hay[i..i + |needle|] == needle
  }

  /** The scan finds the needle exactly when it occurs at some position. */
  lemma {:induction false} ContainsIff(hay: string, needle: string)
    ensures Contains(hay, needle) <==> exists i :: OccursAt(hay, needle, i)
  {
    if StartsWith(hay, needle) {
      assert OccursAt(hay, needle, 0);
    } else if hay != [] {
      ContainsIff(hay[1..], needle);
      if Contains(hay[1..], needle) {
        var j :| OccursAt(hay[1..], needle, j);
        assert hay[j + 1..j + 1 + |needle|] == hay[1..][j..j + |needle|];
        assert OccursAt(hay, needle, j + 1);
      }
      if exists i :: OccursAt(hay, needle, i) {
        var i :| OccursAt(hay, needle, i);
        assert i != 0;
        assert hay[1..][i - 1..i - 1 + |needle|] == hay[i..i + |needle|];
        assert OccursAt(hay[1..], needle, i - 1);
      }
    }
  }

  /** Some word of `words` is found by the scan. */
  predicate ContainsSome(hay: string, words: seq<string>) {
    exists k :: 0 <= k < |words| && Contains(hay, words[k])
  }

  /** Some word is found by the scan exactly when some word occurs at some
      position. */
  lemma ContainsSomeIff(hay: string, words: seq<string>)
    ensures ContainsSome(hay, words) <==>
      exists k, i :: 0 <= k < |words| && OccursAt(hay, words[k], i)
  {
    if ContainsSome(hay, words) {
      var k :| 0 <= k < |words| && Contains(hay, words[k]);
      ContainsIff(hay, words[k]);
      var i :| OccursAt(hay, words[k], i);
    }
    if exists k, i :: 0 <= k < |words| && OccursAt(hay, words[k], i) {
      var k, i :| 0 <= k < |words| && OccursAt(hay, words[k], i);
      ContainsIff(hay, words[k]);
    }
  }

  /** A needle longer than the haystack is never found. */
  lemma {:induction false} LongerNotContained(hay: string, needle: string)
    requires |hay| < |needle|
    ensures !Contains(hay, needle)
  {
    if hay != [] {
      LongerNotContained(hay[1..], needle);
    }
  }

  /** The empty string is contained in every string. */
  lemma ContainsEmpty(hay: string)
    ensures Contains(hay, [])
  {
    assert StartsWith(hay, []);
  }

  /** A case-insensitive prefix test in the way JavaScript's `/i` flag
      compares characters. */
  predicate StartsWithIgnoringCase(s: string, prefix: string) {
    |prefix| <= |s| &&
    forall i :: 0 <= i < |prefix| ==> UpperChar(s[i]) == UpperChar(prefix[i])
  }

  /** A regex with the `/i` flag whose pattern is the literal `needle`,
      tested anywhere in `hay`. */
  predicate ContainsIgnoringCase(hay: string, needle: string)
    decreases |hay|
  {
    StartsWithIgnoringCase(hay, needle) ||
    (hay != [] && ContainsIgnoringCase(hay[1..], needle))
  }

  lemma StartsWithIgnoringCaseIsLowerPrefix(s: string, prefix: string)
    ensures StartsWithIgnoringCase(s, prefix) <==> StartsWith(Lower(s), Lower(prefix))
  {
    if |prefix| <= |s| {
      if StartsWithIgnoringCase(s, prefix) {
        forall i | 0 <= i < |prefix| ensures Lower(s)[..|prefix|][i] == Lower(prefix)[i] {
          SameIgnoringCase(s[i], prefix[i]);
        }
      }
      if StartsWith(Lower(s), Lower(prefix)) {
        forall i | 0 <= i < |prefix| ensures UpperChar(s[i]) == UpperChar(prefix[i]) {
          assert Lower(s)[..|prefix|][i] == Lower(prefix)[i];
          SameIgnoringCase(s[i], prefix[i]);
        }
      }
    }
  }

  /** Case-insensitive search is search in the lower-cased strings. */
  lemma {:induction false} ContainsIgnoringCaseIsLowerSearch(hay: string, needle: string)
    ensures ContainsIgnoringCase(hay, needle) <==> Contains(Lower(hay), Lower(needle))
  {
    StartsWithIgnoringCaseIsLowerPrefix(hay, needle);
    if hay != [] {
      ContainsIgnoringCaseIsLowerSearch(hay[1..], needle);
      assert Lower(hay)[1..] == Lower(hay[1..]);
    }
  }

  /** A case-insensitive match at position `i` is found by the scan. */
  lemma {:induction false} ContainsIgnoringCaseFrom(hay: string, needle: string, i: nat)
    requires i <= |hay| && StartsWithIgnoringCase(hay[i..], needle)
    ensures ContainsIgnoringCase(hay, needle)
  {
    if i > 0 {
      assert hay[1..][i - 1..] == hay[i..];
      ContainsIgnoringCaseFrom(hay[1..], needle, i - 1);
    }
  }

  /** Some word of `words` is found by the case-insensitive search (a
      regex alternation of literal words with the `/i` flag). */
  predicate ContainsSomeIgnoringCase(hay: string, words: seq<string>) {
    exists k :: 0 <= k < |words| && ContainsIgnoringCase(hay, words[k])
  }

  /** The case-insensitive alternation agrees with searching the lower-cased
      text for the lower-cased words. */
  lemma ContainsSomeIgnoringCaseIsLowerSearch(hay: string, words: seq<string>)
    ensures ContainsSomeIgnoringCase(hay, words) <==>
      exists k :: 0 <= k < |words| && Contains(Lower(hay), Lower(words[k]))
  {
    forall k | 0 <= k < |words| {
      ContainsIgnoringCaseIsLowerSearch(hay, words[k]);
    }
  }

  // ---------------------------------------------------------------------
  // Splitting on a separator

  /** Python `s.split(sep)` and JavaScript `s.split(sep)` for a one-character
      separator: the maximal separator-free pieces, empty ones included. */
  function Split(s: string, sep: char): (pieces: seq<string>)
    ensures |pieces| == Count(s, sep) + 1
    ensures forall k :: 0 <= k < |pieces| ==> sep !in pieces[k]
  {
    if s == [] then [[]]
    else
      var rest := Split(s[1..], sep);
      if s[0] == sep then [[]] + rest else [[s[0]] + rest[0]] + rest[1..]
  }

  /** The inverse of `Split`: the pieces glued back with the separator. */
  function Join(pieces: seq<string>, sep: char): string
    requires |pieces| > 0
  {
    if |pieces| == 1 then pieces[0] else pieces[0] + [sep] + Join(pieces[1..], sep)
  }

  /** Splitting loses nothing: joining the pieces gives back the string. */
  lemma {:induction false} JoinSplit(s: string, sep: char)
    ensures Join(Split(s, sep), sep) == s
  {
    if s != [] {
      var rest := Split(s[1..], sep);
      JoinSplit(s[1..], sep);
      if s[0] == sep {
        assert ([[]] + rest)[1..] == rest;
      } else {
        var pieces := [[s[0]] + rest[0]] + rest[1..];
        if |rest| == 1 {
          assert Join(pieces, sep) == [s[0]] + rest[0];
        } else {
          assert pieces[1..] == rest[1..];
          assert Join(rest, sep) == rest[0] + [sep] + Join(rest[1..], sep);
          assert Join(pieces, sep) == [s[0]] + rest[0] + [sep] + Join(rest[1..], sep);
        }
        assert s == [s[0]] + s[1..];
      }
    }
  }

  /** The sum of the lengths of `pieces`. */
  function TotalLength(pieces: seq<string>): nat {
    if pieces == [] then 0 else |pieces[0]| + TotalLength(pieces[1..])
  }

  /** The pieces hold every character that is not a separator. */
  lemma {:induction false} SplitTotalLength(s: string, sep: char)
    ensures TotalLength(Split(s, sep)) + Count(s, sep) == |s|
  {
    if s != [] {
      var rest := Split(s[1..], sep);
      SplitTotalLength(s[1..], sep);
      if s[0] == sep {
        assert ([[]] + rest)[1..] == rest;
      } else {
        assert ([[s[0]] + rest[0]] + rest[1..])[1..] == rest[1..];
      }
    }
  }

  /** The pieces that are not empty, in order (JavaScript
      `filter(x => x)`, the Python comprehension `[x for x in ... if x]`). */
  function NonEmpty(pieces: seq<string>): (r: seq<string>)
    ensures |r| <= |pieces|
    ensures forall k :: 0 <= k < |r| ==> r[k] != []
    ensures forall x :: x in r <==> x in pieces && x != []
  {
    if pieces == [] then []
    else if pieces[0] == [] then NonEmpty(pieces[1..])
    else [pieces[0]] + NonEmpty(pieces[1..])
  }

  /** The filter keeps every non-empty piece as often as it occurs and
      drops every empty one. */
  lemma {:induction false} NonEmptyMultiset(pieces: seq<string>)
    ensures multiset(NonEmpty(pieces)) == multiset(pieces)[[] := 0]
  {
    if pieces != [] {
      NonEmptyMultiset(pieces[1..]);
      assert pieces == [pieces[0]] + pieces[1..];
    }
  }

  /** The filter drops exactly the empty pieces, so what it keeps is the
      number of pieces less the number of empty ones. */
  lemma {:induction false} NonEmptyCount(pieces: seq<string>)
    ensures |NonEmpty(pieces)| + multiset(pieces)[[]] == |pieces|
  {
    if pieces != [] {
      NonEmptyCount(pieces[1..]);
      assert pieces == [pieces[0]] + pieces[1..];
    }
  }

  /** Each non-empty piece holds at least one character. */
  lemma {:induction false} NonEmptyBound(pieces: seq<string>)
    ensures |NonEmpty(pieces)| <= TotalLength(pieces)
  {
    if pieces != [] {
      NonEmptyBound(pieces[1..]);
    }
  }

  /** Number of non-empty `/`-separated segments of a path. */
  function SegmentCount(path: string): nat {
    |NonEmpty(Split(path, '/'))|
  }

  /** The segment count is the number of `/`-separated pieces that are not
      empty: `/a/a` has two, `//` none. */
  lemma SegmentCountIsNonEmptyPieces(path: string)
    ensures SegmentCount(path) == |Split(path, '/')| - multiset(Split(path, '/'))[[]]
  {
    NonEmptyCount(Split(path, '/'));
  }

  /** Every segment holds a non-slash character, so the count is bounded by
      the characters that are not slashes; a path of slashes only has none. */
  lemma SegmentCountBound(path: string)
    ensures SegmentCount(path) + Count(path, '/') <= |path|
    ensures (forall i :: 0 <= i < |path| ==> path[i] == '/') ==> SegmentCount(path) == 0
  {
    NonEmptyBound(Split(path, '/'));
    SplitTotalLength(path, '/');
    if forall i :: 0 <= i < |path| ==> path[i] == '/' {
      CountAll(path, '/');
    }
  }
}
