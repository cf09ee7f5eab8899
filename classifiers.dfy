/**
 * The classifier chain: classifiers that label the leading segment(s) of a
 * path remainder, the default chain, and the tokenizer that cuts a path into
 * labelled tokens.
 */
module Classifiers {
  import opened Text
  import opened Labels
  import opened Patterns

  /**
   * The built-in classifiers: an anchored regular expression with a fixed
   * label, a year within bounds, and a parent classifier whose match is
   * refined by an ordered list of children.
   */
  datatype Classifier =
    | RegexClassifier(pattern: Pattern, regexLabel: Label)
    | YearClassifier(startYear: int, endYear: int)
    | NestedClassifier(parent: Classifier, children: seq<Classifier>)

  const DateFields := LabelFields(false, 0, "YYYY/MM/DD")
  const YearFields := LabelFields(false, 0, "YYYY")
  const AlphaNumericFields := LabelFields(true, 0, "AlphaNumeric")
  const NumberFields := LabelFields(false, 0, "Number")
  const WordsFields := LabelFields(true, 50, "Words")
  const LettersFields := LabelFields(true, 0, "Letters")

  /**
   * Check: the label a classifier gives the start of `s`, and the prefix of
   * `s` it consumes. A zero label means "no match".
   */
  function Check(c: Classifier, s: string): (r: (Label, string))
    ensures r.1 <= s
    ensures !r.0.IsZero() ==> r.1 != ""
    decreases c, if c.NestedClassifier? then |c.children| + 1 else 0
  {
    match c
    case RegexClassifier(p, l) =>
      var m := Find(p, s);
      if m == "" then (NoLabel, "") else (l, m)
    case YearClassifier(startYear, endYear) =>
      var m := Find(YearDigits, s);
      if m == "" then (NoLabel, "")
      else
        FindSegment(YearDigits, s);
        assert m[..4] == Segment(s);
        var num := DecimalValue(m[..4]);
        if startYear <= num <= endYear then (Plain(YearFields), m) else (NoLabel, "")
    case NestedClassifier(parent, children) =>
      var (l, m) := Check(parent, s);
      if l.IsZero() then (NoLabel, "") else (FirstChild(c, 0, l, m), m)
  }

  /**
   * The children of a nested classifier from index `i` on, each run on the
   * parent's match `m`: the first child with a non-zero label gives the
   * fields, under the parent's fields; with none, the parent's label `l`.
   */
  function FirstChild(c: Classifier, i: nat, l: Label, m: string): (r: Label)
    requires c.NestedClassifier? && i <= |c.children|
    requires !l.IsZero()
    ensures !r.IsZero()
    decreases c, |c.children| - i
  {
    if i == |c.children| then l
    else
      var (childLabel, _) := Check(c.children[i], m);
      if !childLabel.IsZero() then Label(childLabel.fields, l.fields)
      else FirstChild(c, i + 1, l, m)
  }

  /** Fields of the first child, from index `i` on, that accepts `m`. */
  lemma {:induction false} FirstChildIsFirstMatch(c: Classifier, i: nat, l: Label, m: string, k: nat)
    requires c.NestedClassifier? && i <= k < |c.children|
    requires !l.IsZero()
    requires !Check(c.children[k], m).0.IsZero()
    requires forall j :: i <= j < k ==> Check(c.children[j], m).0.IsZero()
    ensures FirstChild(c, i, l, m) == Label(Check(c.children[k], m).0.fields, l.fields)
    decreases k - i
  {
    var here := Check(c.children[i], m).0;
    if i < k {
      assert here.IsZero();
      assert FirstChild(c, i, l, m) == FirstChild(c, i + 1, l, m);
      FirstChildIsFirstMatch(c, i + 1, l, m, k);
    } else {
      assert FirstChild(c, i, l, m) == Label(here.fields, l.fields);
    }
  }

  /** With no child accepting `m`, the parent's label is kept. */
  lemma {:induction false} FirstChildNoMatch(c: Classifier, i: nat, l: Label, m: string)
    requires c.NestedClassifier? && i <= |c.children|
    requires !l.IsZero()
    requires forall j :: i <= j < |c.children| ==> Check(c.children[j], m).0.IsZero()
    ensures FirstChild(c, i, l, m) == l
    decreases |c.children| - i
  {
    if i < |c.children| {
      assert Check(c.children[i], m).0.IsZero();
      assert FirstChild(c, i, l, m) == FirstChild(c, i + 1, l, m);
      FirstChildNoMatch(c, i + 1, l, m);
    }
  }

  /**
   * A nested classifier fails when its parent fails; otherwise it consumes
   * exactly the parent's match and labels it with the first child (run on
   * that match) that accepts it, under the parent's fields, or else with
   * the parent's own label.
   */
  lemma NestedCheck(parent: Classifier, children: seq<Classifier>, s: string)
    ensures var (pl, pm) := Check(parent, s);
      var r := Check(NestedClassifier(parent, children), s);
      && (pl.IsZero() ==> r == (NoLabel, ""))
      && (!pl.IsZero() ==> r.1 == pm)
      && (!pl.IsZero() && (forall j :: 0 <= j < |children| ==> Check(children[j], pm).0.IsZero()) ==> r.0 == pl)
      && (forall k :: 0 <= k < |children| && !pl.IsZero() && !Check(children[k], pm).0.IsZero()
            && (forall j :: 0 <= j < k ==> Check(children[j], pm).0.IsZero())
            ==> r.0 == Label(Check(children[k], pm).0.fields, pl.fields))
  {
    var c := NestedClassifier(parent, children);
    var (pl, pm) := Check(parent, s);
    if !pl.IsZero() {
      if forall j :: 0 <= j < |children| ==> Check(children[j], pm).0.IsZero() {
        FirstChildNoMatch(c, 0, pl, pm);
      }
      forall k | 0 <= k < |children| && !Check(children[k], pm).0.IsZero()
                 && (forall j :: 0 <= j < k ==> Check(children[j], pm).0.IsZero())
        ensures Check(c, s).0 == Label(Check(children[k], pm).0.fields, pl.fields)
      {
        FirstChildIsFirstMatch(c, 0, pl, pm, k);
      }
    }
  }

  /**
   * The year classifier matches exactly four leading digits followed by '/'
   * or the end, whose value lies in [startYear, endYear]; it then labels them
   * "YYYY", not important, and consumes the digits and that '/'.
   */
  lemma YearCheck(startYear: int, endYear: int, s: string)
    ensures var r := Check(YearClassifier(startYear, endYear), s);
      if |s| >= 4 && AllDigits(s[..4]) && (|s| == 4 || s[4] == '/') && startYear <= DecimalValue(s[..4]) <= endYear
      then r.0 == Label(LabelFields(false, 0, "YYYY"), NoFields) && r.1 == (if |s| == 4 then s else s[..5])
      else r == (NoLabel, "")
  {
    FindSegment(YearDigits, s);
    LeadingYear(s);
  }

  /** The leading segment is four digits exactly when the first four characters are digits followed by '/' or the end. */
  lemma LeadingYear(s: string)
    ensures YearRun(Segment(s)) <==> |s| >= 4 && AllDigits(s[..4]) && (|s| == 4 || s[4] == '/')
    ensures YearRun(Segment(s)) ==> Segment(s) == s[..4] && SegmentMatch(s) == (if |s| == 4 then s else s[..5])
  {
    if |s| >= 4 && AllDigits(s[..4]) && (|s| == 4 || s[4] == '/') {
      SegmentEndAt(s, 4);
    }
  }

  /** A segment that ends at index n (with '/' or the end of s) has length n. */
  lemma {:induction false} SegmentEndAt(s: string, n: nat)
    requires n <= |s| && (n == |s| || s[n] == '/')
    requires forall i :: 0 <= i < n ==> s[i] != '/'
    ensures SegmentEnd(s) == n
  {
    if n > 0 {
      SegmentEndAt(s[1..], n - 1);
    }
  }

  /** The text a whole-segment match consumed has the same leading segment. */
  lemma SegmentOfMatch(s: string)
    ensures Segment(SegmentMatch(s)) == Segment(s)
    ensures SegmentMatch(SegmentMatch(s)) == SegmentMatch(s)
  {
    var m := SegmentMatch(s);
    SegmentEndAt(m, SegmentEnd(s));
  }

  // The constructors of the built-in classifiers.

  function YYYYMMDDClassifier(): Classifier {
    RegexClassifier(Date, Plain(DateFields))
  }

  function AlphaNumericClassifier(): Classifier {
    RegexClassifier(AlphaNumeric, Plain(AlphaNumericFields))
  }

  function NumberClassifier(): Classifier {
    RegexClassifier(Numbers, Plain(NumberFields))
  }

  function WordsClassifier(): Classifier {
    RegexClassifier(Words, Plain(WordsFields))
  }

  function LettersClassifier(): Classifier {
    RegexClassifier(Letters, Plain(LettersFields))
  }

  /** The first year the default year classifier accepts. */
  const YearStart := 1900

  /**
   * The default chain, in order: dates, years from 1900 to `endYear` (the
   * year the program started: it is read once, at start-up, and every chain
   * built afterwards uses it), and AlphaNumeric refined into Number, Words
   * and Letters.
   */
  function DefaultClassifiers(endYear: int): seq<Classifier> {
    [YYYYMMDDClassifier(), YearClassifier(YearStart, endYear), DefaultNested()]
  }

  /** The AlphaNumeric parent with its Number, Words and Letters children. */
  function DefaultNested(): Classifier {
    NestedClassifier(AlphaNumericClassifier(), [NumberClassifier(), WordsClassifier(), LettersClassifier()])
  }

  /**
   * The date classifier accepts month 01 to 12 and day 01 to 31 with no
   * check of the day against the month: 2013/02/31 is a date.
   */
  lemma DateHasNoCalendarCheck()
    ensures Check(YYYYMMDDClassifier(), "2013/02/31") == (Plain(DateFields), "2013/02/31")
    ensures Check(YYYYMMDDClassifier(), "0000/12/31/x") == (Plain(DateFields), "0000/12/31/")
  {
    var s := "2013/02/31";
    assert AllDigits(s[..4]) && Month(s[5..7]) && Day(s[8..10]);
    var t := "0000/12/31/x";
    assert AllDigits(t[..4]) && Month(t[5..7]) && Day(t[8..10]) && t[10] == '/';
    assert t[..11] == "0000/12/31/";
  }

  /**
   * labelPathToken: the label and match of the first classifier, in list
   * order, whose label is not zero; "Unknown" with the whole remainder when
   * none matches.
   */
  function LabelPathToken(s: string, cs: seq<Classifier>): (r: (Label, string))
    ensures !r.0.IsZero()
    decreases |cs|
  {
    if cs == [] then (Plain(UnknownFields), s)
    else
      var (l, m) := Check(cs[0], s);
      if !l.IsZero() then (l, m) else LabelPathToken(s, cs[1..])
  }

  /** The result is that of the first classifier that matches. */
  lemma {:induction false} LabelPathTokenIsFirstMatch(s: string, cs: seq<Classifier>, k: nat)
    requires k < |cs| && !Check(cs[k], s).0.IsZero()
    requires forall j :: 0 <= j < k ==> Check(cs[j], s).0.IsZero()
    ensures LabelPathToken(s, cs) == Check(cs[k], s)
  {
    if k > 0 {
      LabelPathTokenIsFirstMatch(s, cs[1..], k - 1);
    }
  }

  /** When no classifier matches, the label is Unknown and the match is all of `s`. */
  lemma {:induction false} LabelPathTokenNoMatch(s: string, cs: seq<Classifier>)
    requires forall j :: 0 <= j < |cs| ==> Check(cs[j], s).0.IsZero()
    ensures LabelPathToken(s, cs) == (Label(LabelFields(false, 0, "Unknown"), NoFields), s)
  {
    if cs != [] {
      LabelPathTokenNoMatch(s, cs[1..]);
    }
  }

  /**
   * For every list of built-in classifiers, the match of a non-empty
   * remainder is a non-empty prefix of it: the tokenizer's fallback branch,
   * taken when the match is not a prefix, never runs, and the loop always
   * makes progress.
   */
  lemma {:induction false} MatchIsPrefix(s: string, cs: seq<Classifier>)
    requires s != ""
    ensures LabelPathToken(s, cs).1 <= s
    ensures LabelPathToken(s, cs).1 != ""
    decreases |cs|
  {
    if cs != [] && Check(cs[0], s).0.IsZero() {
      MatchIsPrefix(s, cs[1..]);
    }
  }

  /** The token list of a path, as the tokenizer loop builds it. */
  function Tokens(path: string, cs: seq<Classifier>): seq<PathToken>
    decreases |path|
  {
    if path == "" then []
    else if path[0] == '/' then Tokens(path[1..], cs)
    else
      var (l, m) := LabelPathToken(path, cs);
      if m <= path then
        MatchIsPrefix(path, cs);
        [PathToken(TrimRightSlashes(m), l)] + Tokens(path[|m|..], cs)
      else [PathToken(path, Plain(UnknownFields))]
  }

  /**
   * labelPathTokens: skip separators, label the remainder, emit the match
   * without its trailing '/' and continue after it.
   */
  method LabelPathTokens(path: string, cs: seq<Classifier>) returns (cleaned: seq<PathToken>)
    ensures cleaned == Tokens(path, cs)
  {
    cleaned := [];
    var rest := path;
    while rest != ""
      invariant cleaned + Tokens(rest, cs) == Tokens(path, cs)
      decreases |rest|
    {
      if rest[0] == '/' {
        rest := rest[1..];
        continue;
      }
      var (l, m) := LabelPathToken(rest, cs);
      if m <= rest {
        MatchIsPrefix(rest, cs);
        cleaned := cleaned + [PathToken(TrimRightSlashes(m), l)];
        rest := rest[|m|..];
      } else {
        cleaned := cleaned + [PathToken(rest, Plain(UnknownFields))];
        assert cleaned == Tokens(path, cs);
        break;
      }
    }
  }

  /** Every token is non-empty and neither starts nor ends with '/'. */
  lemma {:induction false} TokensWellFormed(path: string, cs: seq<Classifier>)
    ensures forall t :: t in Tokens(path, cs) ==> t.token != "" && t.token[0] != '/' && t.token[|t.token| - 1] != '/'
    decreases |path|
  {
    if path == "" {
    } else if path[0] == '/' {
      TokensWellFormed(path[1..], cs);
    } else {
      MatchIsPrefix(path, cs);
      var (l, m) := LabelPathToken(path, cs);
      var tok := TrimRightSlashes(m);
      TokensWellFormed(path[|m|..], cs);
      assert m[0] == path[0];
      assert tok != "" && tok[0] == m[0];
      assert Tokens(path, cs) == [PathToken(tok, l)] + Tokens(path[|m|..], cs);
    }
  }

  /** The tokens hold every non-separator character of the path, in order. */
  lemma {:induction false} TokensCoverPath(path: string, cs: seq<Classifier>)
    ensures RemoveSlashes(Concat(Texts(Tokens(path, cs)))) == RemoveSlashes(path)
    decreases |path|
  {
    if path == "" {
    } else if path[0] == '/' {
      TokensCoverPath(path[1..], cs);
    } else {
      MatchIsPrefix(path, cs);
      var (l, m) := LabelPathToken(path, cs);
      var tok := TrimRightSlashes(m);
      var rest := path[|m|..];
      TokensCoverPath(rest, cs);
      var ts := Tokens(path, cs);
      assert ts == [PathToken(tok, l)] + Tokens(rest, cs);
      assert Texts(ts) == [tok] + Texts(Tokens(rest, cs));
      assert Concat(Texts(ts)) == tok + Concat(Texts(Tokens(rest, cs)));
      RemoveSlashesAppend(tok, Concat(Texts(Tokens(rest, cs))));
      RemoveSlashesTrimRight(m);
      assert path == m + rest;
      RemoveSlashesAppend(m, rest);
    }
  }

  /**
   * In the default chain every segment the Letters child accepts is also
   * accepted by the Words child, which is tried first: the label "Letters"
   * is never produced, and only these values are.
   */
  lemma DefaultLabelValues(s: string, endYear: int)
    ensures LabelPathToken(s, DefaultClassifiers(endYear)).0.fields.value
      in {"YYYY/MM/DD", "YYYY", "AlphaNumeric", "Number", "Words", "Unknown"}
  {
    var cs := DefaultClassifiers(endYear);
    if !Check(cs[0], s).0.IsZero() {
      LabelPathTokenIsFirstMatch(s, cs, 0);
    } else if !Check(cs[1], s).0.IsZero() {
      LabelPathTokenIsFirstMatch(s, cs, 1);
    } else if !Check(cs[2], s).0.IsZero() {
      LabelPathTokenIsFirstMatch(s, cs, 2);
      AlphaNumericLabelValues(s);
    } else {
      assert forall j :: 0 <= j < |cs| ==> Check(cs[j], s).0.IsZero();
      LabelPathTokenNoMatch(s, cs);
    }
  }

  /** The labels the AlphaNumeric parent of the default chain gives: never "Letters". */
  lemma AlphaNumericLabelValues(s: string)
    requires !Check(DefaultNested(), s).0.IsZero()
    ensures Check(DefaultNested(), s).0.fields.value in {"AlphaNumeric", "Number", "Words"}
  {
    var children := DefaultNested().children;
    var (pl, pm) := Check(AlphaNumericClassifier(), s);
    NestedCheck(AlphaNumericClassifier(), children, s);
    if !Check(children[2], pm).0.IsZero() {
      FindSegment(Letters, pm);
      FindSegment(Words, pm);
      LettersAreWords(Segment(pm));
      assert !Check(children[1], pm).0.IsZero();
    }
    if !Check(children[0], pm).0.IsZero() {
    } else if !Check(children[1], pm).0.IsZero() {
    } else {
      assert forall j :: 0 <= j < |children| ==> Check(children[j], pm).0.IsZero();
    }
  }

  /**
   * The default label of a leading segment that the AlphaNumeric parent
   * accepts and that is not four digits (so neither a date nor a year).
   */
  lemma DefaultSegmentLabel(s: string, endYear: int)
    requires AlphaNumericRun(Segment(s)) && !YearRun(Segment(s))
    ensures var (l, m) := LabelPathToken(s, DefaultClassifiers(endYear));
      && m == SegmentMatch(s)
      && l.ParentOrSelf() == AlphaNumericFields
      && (NumberRun(Segment(s)) ==> l == Label(NumberFields, AlphaNumericFields))
      && (!NumberRun(Segment(s)) && WordsRun(Segment(s)) ==> l == Label(WordsFields, AlphaNumericFields))
      && (!WordsRun(Segment(s)) ==> l == Plain(AlphaNumericFields))
  {
    var cs := DefaultClassifiers(endYear);
    NotDateNorYear(s, endYear);
    NestedDefault(s);
    LabelPathTokenIsFirstMatch(s, cs, 2);
  }

  /** Neither the date nor the year classifier matches a leading segment that is not four digits. */
  lemma NotDateNorYear(s: string, endYear: int)
    requires !YearRun(Segment(s))
    ensures Check(YYYYMMDDClassifier(), s).0.IsZero()
    ensures Check(YearClassifier(YearStart, endYear), s).0.IsZero()
  {
    LeadingYear(s);
    FindSegment(YearDigits, s);
  }

  /** The default nested classifier on a leading segment the AlphaNumeric parent accepts. */
  lemma NestedDefault(s: string)
    requires AlphaNumericRun(Segment(s))
    ensures var (l, m) := Check(NestedClassifier(AlphaNumericClassifier(), [NumberClassifier(), WordsClassifier(), LettersClassifier()]), s);
      && m == SegmentMatch(s)
      && (NumberRun(Segment(s)) ==> l == Label(NumberFields, AlphaNumericFields))
      && (!NumberRun(Segment(s)) && WordsRun(Segment(s)) ==> l == Label(WordsFields, AlphaNumericFields))
      && (!WordsRun(Segment(s)) ==> l == Plain(AlphaNumericFields))
  {
    var children := [NumberClassifier(), WordsClassifier(), LettersClassifier()];
    FindSegment(AlphaNumeric, s);
    var pm := SegmentMatch(s);
    SegmentOfMatch(s);
    FindSegment(Numbers, pm);
    FindSegment(Words, pm);
    FindSegment(Letters, pm);
    NestedCheck(AlphaNumericClassifier(), children, s);
    if NumberRun(Segment(s)) {
      assert !Check(children[0], pm).0.IsZero();
    } else if WordsRun(Segment(s)) {
      assert Check(children[0], pm).0.IsZero();
      assert !Check(children[1], pm).0.IsZero();
    } else {
      if LetterRun(Segment(s)) {
        LettersAreWords(Segment(s));
      }
      assert forall j :: 0 <= j < |children| ==> Check(children[j], pm).0.IsZero();
    }
  }

  /** An all-letter segment is labelled Words under the AlphaNumeric parent. */
  lemma LetterSegmentIsWords(s: string, endYear: int)
    requires LetterRun(Segment(s))
    ensures LabelPathToken(s, DefaultClassifiers(endYear)) == (Label(WordsFields, AlphaNumericFields), SegmentMatch(s))
  {
    LettersAreWords(Segment(s));
    assert IsLetter(Segment(s)[0]);
    DefaultSegmentLabel(s, endYear);
  }

  /** A segment of digits that is not four digits long is labelled Number under AlphaNumeric. */
  lemma NumberSegmentIsNumber(s: string, endYear: int)
    requires NumberRun(Segment(s)) && |Segment(s)| != 4
    ensures LabelPathToken(s, DefaultClassifiers(endYear)) == (Label(NumberFields, AlphaNumericFields), SegmentMatch(s))
  {
    NumbersAreWords(Segment(s));
    DefaultSegmentLabel(s, endYear);
  }
}
