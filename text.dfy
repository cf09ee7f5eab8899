/**
 * String helpers used by the grouping engine: the character classes of the
 * path patterns, ASCII lower-casing, trimming of '/' separators, counting,
 * joining and decimal values of digit strings.
 */
module Text {

  predicate IsDigit(c: char) { '0' <= c <= '9' }

  predicate IsLetter(c: char) { 'a' <= c <= 'z' || 'A' <= c <= 'Z' }

  predicate IsAlnum(c: char) { IsDigit(c) || IsLetter(c) }

  /** All characters of `s` are decimal digits (the class \d of RE2 is ASCII only). */
  predicate AllDigits(s: string) { forall i :: 0 <= i < |s| ==> IsDigit(s[i]) }

  /** Lower-casing of one character; only ASCII letters change. */
  function LowerChar(c: char): char {
    if 'A' <= c <= 'Z' then (c as int + 32) as char else c
  }

  /** ASCII lower-casing of a string. */
  function Lower(s: string): (r: string)
    ensures |r| == |s|
    ensures forall i :: 0 <= i < |s| ==> r[i] == LowerChar(s[i])
  {
    if s == "" then "" else [LowerChar(s[0])] + Lower(s[1..])
  }

  /** `s` with every leading '/' removed. */
  function TrimLeftSlashes(s: string): (r: string)
    ensures |r| <= |s| && r == s[|s| - |r|..]
    ensures r == "" || r[0] != '/'
    ensures forall i :: 0 <= i < |s| - |r| ==> s[i] == '/'
  {
    if s != "" && s[0] == '/' then TrimLeftSlashes(s[1..]) else s
  }

  /** `s` with every trailing '/' removed. */
  function TrimRightSlashes(s: string): (r: string)
    ensures r <= s
    ensures r == "" || r[|r| - 1] != '/'
    ensures forall i :: |r| <= i < |s| ==> s[i] == '/'
  {
    if s != "" && s[|s| - 1] == '/' then TrimRightSlashes(s[..|s| - 1]) else s
  }

  /** Number of '/' characters in `s`. */
  function CountSlashes(s: string): nat {
    if s == "" then 0 else (if s[0] == '/' then 1 else 0) + CountSlashes(s[1..])
  }

  /** `s` with every '/' removed: the characters of the segments, in order. */
  function RemoveSlashes(s: string): string {
    if s == "" then "" else (if s[0] == '/' then "" else [s[0]]) + RemoveSlashes(s[1..])
  }

  lemma {:induction false} RemoveSlashesAppend(a: string, b: string)
    ensures RemoveSlashes(a + b) == RemoveSlashes(a) + RemoveSlashes(b)
  {
    if a == "" {
      assert a + b == b;
    } else {
      assert (a + b)[1..] == a[1..] + b;
      RemoveSlashesAppend(a[1..], b);
    }
  }

  lemma {:induction false} RemoveSlashesOfSlashes(s: string)
    requires forall i :: 0 <= i < |s| ==> s[i] == '/'
    ensures RemoveSlashes(s) == ""
  {
    if s != "" {
      RemoveSlashesOfSlashes(s[1..]);
    }
  }

  /** Trimming trailing separators loses no segment character. */
  lemma RemoveSlashesTrimRight(s: string)
    ensures RemoveSlashes(TrimRightSlashes(s)) == RemoveSlashes(s)
  {
    var r := TrimRightSlashes(s);
    assert s == r + s[|r|..];
    RemoveSlashesAppend(r, s[|r|..]);
    RemoveSlashesOfSlashes(s[|r|..]);
  }

  /** The parts written one after the other. */
  function Concat(parts: seq<string>): string {
    if parts == [] then "" else parts[0] + Concat(parts[1..])
  }

  /** strings.Join(parts, "/") */
  function Join(parts: seq<string>): string {
    if |parts| == 0 then ""
    else if |parts| == 1 then parts[0]
    else parts[0] + "/" + Join(parts[1..])
  }

  /** Value of a string of decimal digits, most significant first (strconv.ParseInt, base 10). */
  function DecimalValue(s: string): nat
    requires AllDigits(s)
  {
    if s == "" then 0
    else 10 * DecimalValue(s[..|s| - 1]) + (s[|s| - 1] as int - '0' as int)
  }
}
