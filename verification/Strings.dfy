/** What the program asks of Go's strings package: white space, trimming and lower case. */
module Strings {

  /** The characters Unicode calls spaces. */
  predicate IsSpace(c: char) {
    var v := c as int;
    || 9 <= v <= 13 || v == 32 || v == 0x85 || v == 0xA0 || v == 0x1680 || 0x2000 <= v <= 0x200A
    || v == 0x2028 || v == 0x2029 || v == 0x202F || v == 0x205F || v == 0x3000
  }

  function TrimLeft(s: string): string {
    if s != "" && IsSpace(s[0]) then TrimLeft(s[1..]) else s
  }

  function TrimRight(s: string): string {
    if s != "" && IsSpace(s[|s| - 1]) then TrimRight(s[..|s| - 1]) else s
  }

  /** As strings.TrimSpace trims. */
  function Trim(s: string): string { TrimRight(TrimLeft(s)) }

  lemma {:induction false} TrimLeftTrims(s: string)
    ensures TrimLeft(s) != "" ==> !IsSpace(TrimLeft(s)[0])
    ensures forall c :: c in TrimLeft(s) ==> c in s
  {
    if s != "" && IsSpace(s[0]) {
      TrimLeftTrims(s[1..]);
    }
  }

  lemma {:induction false} TrimRightTrims(s: string)
    ensures TrimRight(s) <= s
    ensures TrimRight(s) != "" ==> !IsSpace(TrimRight(s)[|TrimRight(s)| - 1])
    ensures forall c :: c in TrimRight(s) ==> c in s
  {
    if s != "" && IsSpace(s[|s| - 1]) {
      TrimRightTrims(s[..|s| - 1]);
    }
  }

  /** Trimming takes nothing from what is trimmed, and adds nothing to a text. */
  lemma TrimTrims(s: string)
    ensures Trim(Trim(s)) == Trim(s)
    ensures forall c :: c in Trim(s) ==> c in s
  {
    TrimLeftTrims(s);
    TrimRightTrims(TrimLeft(s));
  }

  function LowerAscii(c: char): char {
    if 'A' <= c <= 'Z' then c - 'A' + 'a' else c
  }

  predicate AllSpaces(s: string) { forall i :: 0 <= i < |s| ==> IsSpace(s[i]) }

  lemma {:induction false} LeftIsSpaces(s: string)
    ensures |TrimLeft(s)| <= |s| && s[|s| - |TrimLeft(s)|..] == TrimLeft(s) && AllSpaces(s[..|s| - |TrimLeft(s)|])
  {
    if s != "" && IsSpace(s[0]) {
      LeftIsSpaces(s[1..]);
      var n := |s| - |TrimLeft(s)|;
      assert s[..n] == [s[0]] + s[1..][..n - 1];
    }
  }

  lemma {:induction false} RightIsSpaces(s: string)
    ensures TrimRight(s) <= s && AllSpaces(s[|TrimRight(s)|..])
  {
    if s != "" && IsSpace(s[|s| - 1]) {
      RightIsSpaces(s[..|s| - 1]);
      var n := |TrimRight(s)|;
      assert s[n..] == s[..|s| - 1][n..] + [s[|s| - 1]];
    }
  }

  /** Trimming takes exactly the spaces at the ends. */
  lemma TrimTakesSpaces(s: string) returns (before: string, after: string)
    ensures s == before + Trim(s) + after && AllSpaces(before) && AllSpaces(after)
    ensures Trim(s) != "" ==> !IsSpace(Trim(s)[0]) && !IsSpace(Trim(s)[|Trim(s)| - 1])
  {
    var left := TrimLeft(s);
    LeftIsSpaces(s);
    RightIsSpaces(left);
    TrimLeftTrims(s);
    TrimRightTrims(left);
    before, after := s[..|s| - |left|], left[|Trim(s)|..];
  }

  predicate IsAscii(c: char) { c as int < 128 }

  /** Of ASCII, capitals become small letters and nothing else changes; doing it again changes nothing. */
  ghost predicate MapsCase(f: char -> char) {
    && (forall c :: IsAscii(c) ==> f(c) == LowerAscii(c))
    && (forall c :: f(f(c)) == f(c))
  }

  type CaseMap = f: char -> char | MapsCase(f) witness LowerAscii

  /** Unicode's lower case. Its table is not part of this model: any will do. */
  const LOWER: CaseMap

  /** One character of each class that Unicode's simple case folding takes together. */
  const FOLD: CaseMap

  function Lower(s: string): (lower: string)
    ensures |lower| == |s|
    ensures forall i :: 0 <= i < |s| ==> lower[i] == LOWER(s[i])
  {
    seq(|s|, i requires 0 <= i < |s| => LOWER(s[i]))
  }

  lemma LowerIsLower(s: string)
    ensures Lower(Lower(s)) == Lower(s)
  {
  }

  /** Equal but for case, as strings.EqualFold compares. */
  predicate EqualFold(a: string, b: string) {
    |a| == |b| && forall i :: 0 <= i < |a| ==> FOLD(a[i]) == FOLD(b[i])
  }

  predicate AllAscii(s: string) { forall i :: 0 <= i < |s| ==> IsAscii(s[i]) }

  /** Of texts in ASCII, as project keys are, it tells all apart but those that differ in capitals alone. */
  lemma EqualButForCapitals(a: string, b: string)
    requires AllAscii(a) && AllAscii(b)
    ensures EqualFold(a, b) <==> |a| == |b| && forall i :: 0 <= i < |a| ==> SameLetter(a[i], b[i])
  {
  }

  /** One character, or one letter of ASCII in both cases. */
  predicate SameLetter(a: char, b: char) {
    || a == b
    || ('A' <= a <= 'Z' && b as int == a as int + 32)
    || ('A' <= b <= 'Z' && a as int == b as int + 32)
  }
}
