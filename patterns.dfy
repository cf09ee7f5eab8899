/**
 * The six anchored regular expressions of the classifier chain, written out
 * as predicates on the leading segment of a path remainder. Each expression
 * ends in (/|$), so a match covers whole segments and includes the '/' that
 * follows the last of them, when there is one.
 */
module Patterns {
  import opened Text

  /** Length of the leading segment: the index of the first '/', or |s|. */
  function SegmentEnd(s: string): (n: nat)
    ensures n <= |s|
    ensures forall i :: 0 <= i < n ==> s[i] != '/'
    ensures n < |s| ==> s[n] == '/'
  {
    if s == "" || s[0] == '/' then 0 else 1 + SegmentEnd(s[1..])
  }

  /** The leading segment of `s`. */
  function Segment(s: string): string {
    s[..SegmentEnd(s)]
  }

  /** What a whole-segment match consumes: the segment, plus the '/' after it if one follows. */
  function SegmentMatch(s: string): (m: string)
    ensures m <= s && |Segment(s)| <= |m|
    ensures m == Segment(s) || m == Segment(s) + "/"
  {
    var n := SegmentEnd(s);
    if n < |s| then
      assert s[..n + 1] == s[..n] + "/";
      s[..n + 1]
    else s
  }

  /** The class [a-zA-Z0-9\-_. ] */
  predicate IsAlphaNumericChar(c: char) {
    IsAlnum(c) || c == '-' || c == '_' || c == '.' || c == ' '
  }

  /** [a-zA-Z0-9\-_. ]+ */
  predicate AlphaNumericRun(seg: string) {
    seg != "" && forall i :: 0 <= i < |seg| ==> IsAlphaNumericChar(seg[i])
  }

  /** \d+ */
  predicate NumberRun(seg: string) {
    seg != "" && AllDigits(seg)
  }

  /** [a-zA-Z]+ */
  predicate LetterRun(seg: string) {
    seg != "" && forall i :: 0 <= i < |seg| ==> IsLetter(seg[i])
  }

  /**
   * ([a-zA-Z0-9]+-?){1,}: letters, digits and dashes, where every dash follows
   * a letter or digit (so the run starts with one and holds no "--").
   */
  predicate WordsRun(seg: string) {
    && seg != ""
    && IsAlnum(seg[0])
    && (forall i :: 0 <= i < |seg| ==> IsAlnum(seg[i]) || seg[i] == '-')
    && NoDoubleDash(seg)
  }

  /** No two adjacent dashes. */
  predicate NoDoubleDash(s: string) {
    forall i, j :: 0 <= i < |s| && 0 <= j < |s| && j == i + 1 ==> s[i] != '-' || s[j] != '-'
  }

  /** \d{4} */
  predicate YearRun(seg: string) {
    |seg| == 4 && AllDigits(seg)
  }

  /** (0[1-9])|(1[0-2]) */
  predicate Month(m: string) {
    |m| == 2 && ((m[0] == '0' && '1' <= m[1] <= '9') || (m[0] == '1' && '0' <= m[1] <= '2'))
  }

  /** (0[1-9])|([1-2][0-9])|(3[01]) */
  predicate Day(d: string) {
    |d| == 2 && ((d[0] == '0' && '1' <= d[1] <= '9') || ('1' <= d[0] <= '2' && IsDigit(d[1])) || (d[0] == '3' && '0' <= d[1] <= '1'))
  }

  /** The six expressions of classifier.go. */
  datatype Pattern = YearDigits | Words | Date | Numbers | Letters | AlphaNumeric

  /** Whether a single-segment pattern accepts the segment `seg`. */
  predicate SegmentAccepted(p: Pattern, seg: string)
    requires !p.Date?
  {
    match p
    case YearDigits => YearRun(seg)
    case Words => WordsRun(seg)
    case Numbers => NumberRun(seg)
    case Letters => LetterRun(seg)
    case AlphaNumeric => AlphaNumericRun(seg)
  }

  /** \d{4}/((0[1-9])|(1[0-2]))/((0[1-9])|([1-2][0-9])|(3[01]))(/|$), anchored at the start. */
  function DateMatch(s: string): string {
    if |s| >= 10 && AllDigits(s[..4]) && s[4] == '/' && Month(s[5..7]) && s[7] == '/' && Day(s[8..10])
       && (|s| == 10 || s[10] == '/')
    then (if |s| == 10 then s else s[..11])
    else ""
  }

  /** Regexp.FindString for the anchored pattern `p`: the matched prefix, or "" for no match. */
  function Find(p: Pattern, s: string): (m: string)
    ensures m <= s
    ensures m == "" || m == s || m[|m| - 1] == '/'
  {
    match p
    case Date => DateMatch(s)
    case _ => if SegmentAccepted(p, Segment(s)) then SegmentMatch(s) else ""
  }

  /**
   * A single-segment pattern matches exactly when it accepts the leading
   * segment, and then consumes that segment and the '/' after it.
   */
  lemma FindSegment(p: Pattern, s: string)
    requires !p.Date?
    ensures Find(p, s) != "" <==> SegmentAccepted(p, Segment(s))
    ensures Find(p, s) != "" ==> Find(p, s) == SegmentMatch(s)
    ensures Find(p, s) != "" ==> Find(p, s) == Segment(s) || Find(p, s) == Segment(s) + "/"
  {
  }

  /**
   * The date expression spans three segments of exactly 4, 2 and 2 characters,
   * accepts any four digits as a year, any month 01 to 12 and any day 01 to 31
   * whatever the month.
   */
  lemma DateShape(s: string)
    ensures DateMatch(s) != "" <==>
      && |s| >= 10 && YearRun(s[..4]) && s[4] == '/' && s[7] == '/'
      && AllDigits(s[5..7]) && 1 <= DecimalValue(s[5..7]) <= 12
      && AllDigits(s[8..10]) && 1 <= DecimalValue(s[8..10]) <= 31
      && (|s| == 10 || s[10] == '/')
    ensures DateMatch(s) != "" ==> DateMatch(s) == s[..10] || DateMatch(s) == s[..10] + "/"
  {
    if |s| >= 10 {
      MonthRange(s[5..7]);
      DayRange(s[8..10]);
      if |s| > 10 {
        assert s[..11] == s[..10] + "/" <== s[10] == '/';
      }
    }
  }

  /** Month accepts exactly the two-digit numbers 01 to 12. */
  lemma MonthRange(m: string)
    requires |m| == 2
    ensures Month(m) <==> AllDigits(m) && 1 <= DecimalValue(m) <= 12
  {
    TwoDigitValue(m);
  }

  /** Day accepts exactly the two-digit numbers 01 to 31. */
  lemma DayRange(d: string)
    requires |d| == 2
    ensures Day(d) <==> AllDigits(d) && 1 <= DecimalValue(d) <= 31
  {
    TwoDigitValue(d);
  }

  lemma TwoDigitValue(m: string)
    requires |m| == 2
    ensures AllDigits(m) ==> DecimalValue(m) == 10 * (m[0] as int - '0' as int) + (m[1] as int - '0' as int)
  {
    if AllDigits(m) {
      var first := m[..1];
      assert first[..0] == "" && first[0] == m[0];
      assert DecimalValue(first) == m[0] as int - '0' as int;
      assert m[..|m| - 1] == first;
    }
  }

  /** One repetition of ([a-zA-Z0-9]+-?): letters and digits, then at most one '-'. */
  ghost predicate WordGroup(g: string) {
    && |g| > 0
    && (forall i :: 0 <= i < |g| - 1 ==> IsAlnum(g[i]))
    && (IsAlnum(g[|g| - 1]) || (|g| > 1 && g[|g| - 1] == '-'))
  }

  /** The language of ([a-zA-Z0-9]+-?){1,}: one group followed by zero or more groups. */
  ghost predicate WordGroups(s: string)
    decreases |s|
  {
    exists k :: 0 < k <= |s| && WordGroup(s[..k]) && (k == |s| || WordGroups(s[k..]))
  }

  /** The hand-coded Words predicate accepts exactly the language of the regular expression. */
  lemma {:induction false} WordsRunIsRegex(s: string)
    ensures WordsRun(s) <==> WordGroups(s)
    decreases |s|
  {
    if WordsRun(s) {
      WordsRunHasGroups(s);
    }
    if WordGroups(s) {
      GroupsAreWordsRun(s);
    }
  }

  lemma {:induction false} WordsRunHasGroups(s: string)
    requires WordsRun(s)
    ensures WordGroups(s)
    decreases |s|
  {
    var k := if |s| > 1 && s[1] == '-' then 2 else 1;
    assert WordGroup(s[..k]);
    if k < |s| {
      var rest := s[k..];
      assert rest[0] == s[k];
      assert s[k] != '-' by {
        if k == 1 {
        } else {
          assert s[1] == '-';
        }
      }
      forall i | 0 <= i < |rest| ensures IsAlnum(rest[i]) || rest[i] == '-' {
        assert rest[i] == s[k + i];
      }
      forall i, j | 0 <= i < j < |rest| && j == i + 1 ensures rest[i] != '-' || rest[j] != '-' {
        assert rest[i] == s[k + i] && rest[j] == s[k + j];
      }
      WordsRunHasGroups(rest);
    }
  }

  lemma {:induction false} GroupsAreWordsRun(s: string)
    requires WordGroups(s)
    ensures WordsRun(s)
    decreases |s|
  {
    var k :| 0 < k <= |s| && WordGroup(s[..k]) && (k == |s| || WordGroups(s[k..]));
    var g := s[..k];
    var rest := s[k..];
    if k < |s| {
      GroupsAreWordsRun(rest);
    }
    assert s == g + rest;
    GroupThenWords(g, rest);
  }

  /** A group followed by nothing or by a Words segment is a Words segment. */
  lemma GroupThenWords(g: string, rest: string)
    requires WordGroup(g) && (rest == "" || WordsRun(rest))
    ensures WordsRun(g + rest)
  {
    var s := g + rest;
    var k := |g|;
    forall i | 0 <= i < |s| ensures IsAlnum(s[i]) || s[i] == '-' {
      if i < k {
        assert s[i] == g[i];
      } else {
        assert s[i] == rest[i - k];
      }
    }
    forall i, j | 0 <= i < j < |s| && j == i + 1 ensures s[i] != '-' || s[j] != '-' {
      if j < k {
        assert s[i] == g[i];
      } else if i == k - 1 {
        assert s[j] == rest[0];
      } else {
        assert s[i] == rest[i - k] && s[j] == rest[j - k];
      }
    }
  }

  /** Every segment of letters is also a Words segment. */
  lemma LettersAreWords(seg: string)
    requires LetterRun(seg)
    ensures WordsRun(seg) && AlphaNumericRun(seg)
  {
    forall i | 0 <= i < |seg| ensures IsAlnum(seg[i]) && IsAlphaNumericChar(seg[i]) {
      assert IsLetter(seg[i]);
    }
  }

  /** Every segment of digits is also an AlphaNumeric segment, and a Words segment. */
  lemma NumbersAreWords(seg: string)
    requires NumberRun(seg)
    ensures WordsRun(seg) && AlphaNumericRun(seg)
  {
    forall i | 0 <= i < |seg| ensures IsAlnum(seg[i]) && IsAlphaNumericChar(seg[i]) {
      assert IsDigit(seg[i]);
    }
  }

  /** Every Words segment is an AlphaNumeric segment. */
  lemma WordsAreAlphaNumeric(seg: string)
    requires WordsRun(seg)
    ensures AlphaNumericRun(seg)
  {
    forall i | 0 <= i < |seg| ensures IsAlphaNumericChar(seg[i]) {
      assert IsAlnum(seg[i]) || seg[i] == '-';
    }
  }
}
