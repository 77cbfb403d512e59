/** The string operations the triage rules are built from: ASCII case folding
    (`str.upper()`, `str.lower()` restricted to ASCII letters), substring
    search (Python's `in` on strings), and an independent, case-insensitive
    notion of "the text mentions a marker" that the rules are specified by. */
module Text {

  predicate IsLowerAscii(c: char) {
    'a' <= c <= 'z'
  }

  predicate IsUpperAscii(c: char) {
    'A' <= c <= 'Z'
  }

  /** Two characters are the same letter up to ASCII case, or simply equal.
      Stated by code points, without reference to the folding functions. */
  predicate SameIgnoringCase(x: char, y: char) {
    || x == y
    || (IsLowerAscii(x) && y as int == x as int - 32)
    || (IsUpperAscii(x) && y as int == x as int + 32)
  }

  function UpperChar(c: char): char {
    if IsLowerAscii(c) then (c as int - 32) as char else c
  }

  function LowerChar(c: char): char {
    if IsUpperAscii(c) then (c as int + 32) as char else c
  }

  /** Folding a character to either case identifies exactly the characters
      that are the same up to case. */
  lemma FoldCharIffSame(x: char, y: char)
    ensures SameIgnoringCase(x, y) <==> UpperChar(x) == UpperChar(y)
    ensures SameIgnoringCase(x, y) <==> LowerChar(x) == LowerChar(y)
  {
  }

  /** ASCII `str.upper()`: every character keeps its letter and loses its
      lower case. */
  function Upper(s: string): (u: string)
    ensures |u| == |s|
    ensures forall i :: 0 <= i < |s| ==> SameIgnoringCase(u[i], s[i]) && !IsLowerAscii(u[i])
  {
    seq(|s|, i requires 0 <= i < |s| => UpperChar(s[i]))
  }

  /** ASCII `str.lower()`: every character keeps its letter and loses its
      upper case. */
  function Lower(s: string): (l: string)
    ensures |l| == |s|
    ensures forall i :: 0 <= i < |s| ==> SameIgnoringCase(l[i], s[i]) && !IsUpperAscii(l[i])
  {
    seq(|s|, i requires 0 <= i < |s| => LowerChar(s[i]))
  }

  /** `Upper` is the only string of the same length that matches `s` up to case
      and has no lower-case letter; likewise for `Lower`. */
  lemma UpperUnique(s: string, t: string)
    requires |t| == |s|
    requires forall i :: 0 <= i < |s| ==> SameIgnoringCase(t[i], s[i]) && !IsLowerAscii(t[i])
    ensures t == Upper(s)
  {
    forall i | 0 <= i < |s|
      ensures t[i] == Upper(s)[i]
    {
      FoldCharIffSame(t[i], s[i]);
    }
  }

  lemma LowerUnique(s: string, t: string)
    requires |t| == |s|
    requires forall i :: 0 <= i < |s| ==> SameIgnoringCase(t[i], s[i]) && !IsUpperAscii(t[i])
    ensures t == Lower(s)
  {
    forall i | 0 <= i < |s|
      ensures t[i] == Lower(s)[i]
    {
      FoldCharIffSame(t[i], s[i]);
    }
  }

  /** Whole strings that are equal up to ASCII case. */
  predicate MatchesIgnoringCase(a: string, b: string) {
    |a| == |b| && forall k :: 0 <= k < |a| ==> SameIgnoringCase(a[k], b[k])
  }

  /** Strings fold to the same upper-case (or lower-case) text exactly when
      they match up to case. */
  lemma FoldIffMatches(s: string, t: string)
    ensures MatchesIgnoringCase(s, t) <==> Upper(s) == Upper(t)
    ensures MatchesIgnoringCase(s, t) <==> Lower(s) == Lower(t)
  {
    if MatchesIgnoringCase(s, t) {
      forall k | 0 <= k < |s|
        ensures Upper(s)[k] == Upper(t)[k] && Lower(s)[k] == Lower(t)[k]
      {
        FoldCharIffSame(s[k], t[k]);
      }
    }
    if Upper(s) == Upper(t) {
      forall k | 0 <= k < |s|
        ensures SameIgnoringCase(s[k], t[k])
      {
        assert Upper(s)[k] == Upper(t)[k];
        FoldCharIffSame(s[k], t[k]);
      }
    }
    if Lower(s) == Lower(t) {
      forall k | 0 <= k < |s|
        ensures SameIgnoringCase(s[k], t[k])
      {
        assert Lower(s)[k] == Lower(t)[k];
        FoldCharIffSame(s[k], t[k]);
      }
    }
  }

  /** Folding is idempotent and forgets the previous folding. */
  lemma FoldAbsorbs(s: string)
    ensures Upper(Upper(s)) == Upper(s) && Upper(Lower(s)) == Upper(s)
    ensures Lower(Lower(s)) == Lower(s) && Lower(Upper(s)) == Lower(s)
  {
    FoldIffMatches(Upper(s), s);
    FoldIffMatches(Lower(s), s);
  }

  /** `sub` starts at index `i` of `s`. */
  predicate OccursAt(s: string, sub: string, i: int) {
    0 <= i && i + |sub| <= |s| && s[i..i + |sub|] == sub
  }

  /** Python's `sub in s` for strings. */
  predicate Contains(s: string, sub: string) {
    exists i :: 0 <= i <= |s| && OccursAt(s, sub, i)
  }

  /** A naive left-to-right scan decides `sub in s` exactly as `Contains`
      states it. */
  method Find(s: string, sub: string) returns (found: bool)
    ensures found <==> Contains(s, sub)
  {
    var i := 0;
    while i + |sub| <= |s|
      invariant 0 <= i
      invariant forall j :: 0 <= j < i ==> !OccursAt(s, sub, j)
      decreases |s| - i
    {
      if s[i..i + |sub|] == sub {
        assert OccursAt(s, sub, i);
        return true;
      }
      i := i + 1;
    }
    return false;
  }

  /** `m` starts at index `i` of `s`, up to ASCII case. */
  predicate OccursIgnoringCaseAt(s: string, m: string, i: int) {
    0 <= i && i + |m| <= |s| && MatchesIgnoringCase(s[i..i + |m|], m)
  }

  /** The text mentions the marker `m`, whatever the case of its letters. */
  predicate Mentions(s: string, m: string) {
    exists i :: 0 <= i <= |s| && OccursIgnoringCaseAt(s, m, i)
  }

  lemma OccursFoldedAt(s: string, m: string, i: int)
    ensures Upper(m) == m ==> (OccursAt(Upper(s), m, i) <==> OccursIgnoringCaseAt(s, m, i))
    ensures Lower(m) == m ==> (OccursAt(Lower(s), m, i) <==> OccursIgnoringCaseAt(s, m, i))
  {
    if 0 <= i && i + |m| <= |s| {
      var w := s[i..i + |m|];
      assert Upper(s)[i..i + |m|] == Upper(w);
      assert Lower(s)[i..i + |m|] == Lower(w);
      FoldIffMatches(w, m);
    }
  }

  /** Searching the upper-cased text for an upper-case marker (or the
      lower-cased text for a lower-case marker) is exactly a case-insensitive
      search for that marker. */
  lemma ContainsFoldedIffMentions(s: string, m: string)
    ensures Upper(m) == m ==> (Contains(Upper(s), m) <==> Mentions(s, m))
    ensures Lower(m) == m ==> (Contains(Lower(s), m) <==> Mentions(s, m))
  {
    if Contains(Upper(s), m) {
      var i :| 0 <= i && OccursAt(Upper(s), m, i);
      assert OccursAt(Upper(s), m, i);
      OccursFoldedAt(s, m, i);
    }
    if Contains(Lower(s), m) {
      var i :| 0 <= i && OccursAt(Lower(s), m, i);
      assert OccursAt(Lower(s), m, i);
      OccursFoldedAt(s, m, i);
    }
    if Mentions(s, m) {
      var i :| 0 <= i && OccursIgnoringCaseAt(s, m, i);
      assert OccursIgnoringCaseAt(s, m, i);
      OccursFoldedAt(s, m, i);
    }
  }

  /** A mention survives any text added before or after it. */
  lemma MentionsExtend(a: string, s: string, b: string, m: string)
    requires Mentions(s, m)
    ensures Mentions(a + s + b, m)
  {
    var i :| 0 <= i && OccursIgnoringCaseAt(s, m, i);
    assert OccursIgnoringCaseAt(s, m, i);
    assert (a + s + b)[|a| + i..|a| + i + |m|] == s[i..i + |m|];
    assert OccursIgnoringCaseAt(a + s + b, m, |a| + i);
  }

  /** Whoever mentions `m` also mentions every case variant of every prefix of `m`. */
  lemma MentionsPrefix(s: string, m: string, p: string)
    requires Mentions(s, m)
    requires |p| <= |m| && MatchesIgnoringCase(p, m[..|p|])
    ensures Mentions(s, p)
  {
    var i :| 0 <= i && OccursIgnoringCaseAt(s, m, i);
    assert OccursIgnoringCaseAt(s, m, i);
    var w := s[i..i + |p|];
    FoldIffMatches(w, m[..|p|]);
    FoldIffMatches(p, m[..|p|]);
    assert w == s[i..i + |m|][..|p|];
    FoldIffMatches(s[i..i + |m|], m);
    assert Upper(w) == Upper(s[i..i + |m|])[..|p|];
    assert Upper(m[..|p|]) == Upper(m)[..|p|];
    FoldIffMatches(w, p);
    assert OccursIgnoringCaseAt(s, p, i);
  }

  /** A character of a substring is a character of the whole string. */
  lemma ContainsChar(s: string, sub: string, c: char)
    requires Contains(s, sub) && c in sub
    ensures c in s
  {
    var i :| 0 <= i && OccursAt(s, sub, i);
    assert OccursAt(s, sub, i);
    var k :| 0 <= k < |sub| && sub[k] == c;
    assert s[i + k] == c;
  }

  /** A text lacking every case variant of one of the marker's characters
      cannot mention the marker. */
  lemma MissingCharNotMentioned(s: string, m: string, c: char)
    requires c in m
    requires c !in s && UpperChar(c) !in s && LowerChar(c) !in s
    ensures !Mentions(s, m)
  {
    var k :| 0 <= k < |m| && m[k] == c;
    forall i | 0 <= i <= |s|
      ensures !OccursIgnoringCaseAt(s, m, i)
    {
      if i + |m| <= |s| {
        assert s[i..i + |m|][k] == s[i + k];
        assert s[i + k] in s;
        FoldCharIffSame(s[i + k], c);
      }
    }
  }

  /** No character of `t` is one of `letters`. */
  predicate Avoids(t: string, letters: string) {
    forall k :: 0 <= k < |t| ==> t[k] !in letters
  }

  lemma AvoidsConcat(a: string, b: string, letters: string)
    requires Avoids(a, letters) && Avoids(b, letters)
    ensures Avoids(a + b, letters)
  {
    forall k | 0 <= k < |a + b|
      ensures (a + b)[k] !in letters
    {
      if k < |a| {
        assert (a + b)[k] == a[k];
      } else {
        assert (a + b)[k] == b[k - |a|];
      }
    }
  }

  /** No character of `t` in `first` is directly followed by one in `second`. */
  predicate AvoidsPair(t: string, first: string, second: string) {
    forall k :: 0 <= k < |t| - 1 ==> !(t[k] in first && t[k + 1] in second)
  }

  lemma AvoidsPairConcat(a: string, b: string, first: string, second: string)
    requires AvoidsPair(a, first, second) && AvoidsPair(b, first, second)
    requires |a| == 0 || |b| == 0 || a[|a| - 1] !in first || b[0] !in second
    ensures AvoidsPair(a + b, first, second)
  {
    forall k | 0 <= k < |a + b| - 1
      ensures !((a + b)[k] in first && (a + b)[k + 1] in second)
    {
      if k + 1 < |a| {
        assert (a + b)[k] == a[k] && (a + b)[k + 1] == a[k + 1];
      } else if k + 1 == |a| {
        assert (a + b)[k] == a[|a| - 1] && (a + b)[k + 1] == b[0];
      } else {
        assert (a + b)[k] == b[k - |a|] && (a + b)[k + 1] == b[k + 1 - |a|];
      }
    }
  }

  /** The case variants of a character are the character and its two folds. */
  lemma CaseVariants(x: char, c: char)
    requires SameIgnoringCase(x, c)
    ensures x == c || x == UpperChar(c) || x == LowerChar(c)
  {
  }

  /** A text in which no two adjacent characters match two adjacent
      characters of the marker, up to case, cannot mention the marker. */
  lemma MissingPairNotMentioned(s: string, m: string, k: nat, first: string, second: string)
    requires k + 1 < |m|
    requires m[k] in first && UpperChar(m[k]) in first && LowerChar(m[k]) in first
    requires m[k + 1] in second && UpperChar(m[k + 1]) in second && LowerChar(m[k + 1]) in second
    requires AvoidsPair(s, first, second)
    ensures !Mentions(s, m)
  {
    forall i | 0 <= i <= |s|
      ensures !OccursIgnoringCaseAt(s, m, i)
    {
      if i + |m| <= |s| && MatchesIgnoringCase(s[i..i + |m|], m) {
        assert s[i..i + |m|][k] == s[i + k] && s[i..i + |m|][k + 1] == s[i + k + 1];
        CaseVariants(s[i + k], m[k]);
        CaseVariants(s[i + k + 1], m[k + 1]);
        assert false;
      }
    }
  }

  // ----------------------------------------------------------------- lines

  /** Python's `s.split("\n")`: the pieces between line breaks, never none. */
  function SplitLines(s: string): (lines: seq<string>)
    ensures |lines| >= 1
  {
    if |s| == 0 then [""]
    else
      var rest := SplitLines(s[1..]);
      if s[0] == '\n' then [""] + rest
      else [[s[0]] + rest[0]] + rest[1..]
  }

  /** No line contains a line break. */
  lemma {:induction false} SplitLinesHaveNoBreaks(s: string)
    ensures forall i :: 0 <= i < |SplitLines(s)| ==> '\n' !in SplitLines(s)[i]
    decreases |s|
  {
    if |s| > 0 {
      SplitLinesHaveNoBreaks(s[1..]);
      var rest := SplitLines(s[1..]);
      if s[0] != '\n' {
        assert '\n' !in [s[0]] + rest[0];
      }
    }
  }

  /** `"\n".join(lines)`. */
  function JoinLines(lines: seq<string>): string
    requires |lines| >= 1
  {
    if |lines| == 1 then lines[0] else lines[0] + "\n" + JoinLines(lines[1..])
  }

  /** Splitting loses nothing: joining the pieces gives the text back. */
  lemma {:induction false} JoinSplitLines(s: string)
    ensures JoinLines(SplitLines(s)) == s
    decreases |s|
  {
    if |s| > 0 {
      var rest := SplitLines(s[1..]);
      JoinSplitLines(s[1..]);
      if s[0] == '\n' {
        assert SplitLines(s) == [""] + rest;
        assert ([""] + rest)[1..] == rest;
        assert s == "" + "\n" + s[1..];
      } else {
        var lines := [[s[0]] + rest[0]] + rest[1..];
        assert SplitLines(s) == lines;
        if |rest| == 1 {
          assert s == [s[0]] + s[1..];
        } else {
          assert lines[1..] == rest[1..];
          assert JoinLines(rest) == rest[0] + "\n" + JoinLines(rest[1..]);
          assert s == [s[0]] + s[1..];
        }
      }
    }
  }

  /** A text without a line break is a single line. */
  lemma {:induction false} SplitSingleLine(s: string)
    requires '\n' !in s
    ensures SplitLines(s) == [s]
    decreases |s|
  {
    if |s| > 0 {
      assert s[0] != '\n';
      SplitSingleLine(s[1..]);
      assert [s[0]] + s[1..] == s;
    }
  }

  /** One step of `SplitLines`: a line break starts a new line, any other
      character joins the first line. */
  lemma SplitLinesCons(c: char, s: string)
    ensures SplitLines([c] + s) ==
      if c == '\n' then [""] + SplitLines(s)
      else [[c] + SplitLines(s)[0]] + SplitLines(s)[1..]
  {
    assert ([c] + s)[0] == c && ([c] + s)[1..] == s;
  }

  /** A character put in front of a text whose lines begin with those of `a`
      changes its lines as it changes those of `a`. */
  lemma SplitLinesConsAppend(c: char, a: string, rest: string, more: seq<string>)
    requires SplitLines(rest) == SplitLines(a) + more
    ensures SplitLines([c] + rest) == SplitLines([c] + a) + more
  {
    assert ([c] + rest)[0] == c && ([c] + rest)[1..] == rest;
    assert ([c] + a)[0] == c && ([c] + a)[1..] == a;
    if c != '\n' {
      FirstLineJoined(SplitLines(a), more);
    }
  }

  /** Joining onto the first line commutes with appending further lines. */
  lemma FirstLineJoined(ra: seq<string>, more: seq<string>)
    requires |ra| >= 1
    ensures (ra + more)[0] == ra[0] && (ra + more)[1..] == ra[1..] + more
  {
  }

  /** Splitting at a line break splits the two sides separately. */
  lemma {:induction false} SplitAtBreak(a: string, b: string)
    ensures SplitLines(a + "\n" + b) == SplitLines(a) + SplitLines(b)
    decreases |a|
  {
    if |a| == 0 {
      assert a + "\n" + b == ['\n'] + b;
      SplitLinesCons('\n', b);
    } else {
      SplitAtBreak(a[1..], b);
      SplitLinesConsAppend(a[0], a[1..], a[1..] + "\n" + b, SplitLines(b));
      assert [a[0]] + a[1..] == a;
      assert [a[0]] + (a[1..] + "\n" + b) == a + "\n" + b;
    }
  }
}
