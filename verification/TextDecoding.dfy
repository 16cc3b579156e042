/** Text in encodings other than UTF-8, read as UTF-8 (internal/fileview/text.go). */
module TextDecoding {
  import opened Bytes
  import opened Options
  import Utf8
  import Utf16

  /** The control characters a text file uses. */
  predicate TextControl(v: int) { 9 <= v <= 13 || v == 0x1A || v == 0x1B }

  predicate IsText(c: char) { c as int >= 0x20 || TextControl(c as int) }

  predicate AllText(s: string) {
    forall i :: 0 <= i < |s| ==> IsText(s[i])
  }

  // ----- UTF-16

  /** Characters as UTF-8, if they could be text. */
  function TextOf(s: string): Option<Text> {
    if AllText(s) then Some(Utf8.Encode(s)) else None
  }

  /** The text after a byte order mark, or nothing for what has none or could not be text. */
  function FromUtf16(content: Text): Option<Text> {
    if Utf16.OrderOf(content).None? || |content| % 2 != 0 then None
    else
      TextOf(Utf16.Decode(Utf16.Units(content[2..], Utf16.OrderOf(content).value)))
  }

  method DecodeUtf16(content: Text) returns (decoded: Option<Text>)
    ensures decoded == FromUtf16(content)
  {
    if |content| < 2 || |content| % 2 != 0 {
      return None;
    }
    var order := Utf16.OrderOf(content);
    if order.None? {
      return None;
    }
    var units := Utf16.ReadUnits(content[2..], order.value);
    var characters := Utf16.Decode(units);
    var index := 0;
    while index < |characters|
      invariant 0 <= index <= |characters|
      invariant forall i :: 0 <= i < index ==> IsText(characters[i])
    {
      if !IsText(characters[index]) {
        return None;
      }
      index := index + 1;
    }
    return Some(Utf8.Encode(characters));
  }

  /** A text written as UTF-16 after its byte order mark is read as the same text, if it is one. */
  lemma Utf16TextIsRead(s: string, order: Order)
    ensures FromUtf16(Utf16.Mark(order) + Utf16.Raw(Utf16.Encode(s), order)) == TextOf(s)
  {
    UnitsAreRead(Utf16.Encode(s), order);
    Utf16.DecodeEncodes(s);
  }

  lemma UnitsAreRead(units: seq<Utf16.Unit>, order: Order)
    ensures FromUtf16(Utf16.Mark(order) + Utf16.Raw(units, order)) == TextOf(Utf16.Decode(units))
  {
    Utf16.AfterMark(Utf16.Raw(units, order), order);
    ReadAfterMark(Utf16.Mark(order) + Utf16.Raw(units, order), units, order);
  }

  lemma ReadAfterMark(content: Text, units: seq<Utf16.Unit>, order: Order)
    requires Utf16.OrderOf(content) == Some(order) && content[2..] == Utf16.Raw(units, order)
    ensures FromUtf16(content) == TextOf(Utf16.Decode(units))
  {
    Utf16.UnitsOfRaw(units, order);
    FromMarked(content, order);
  }

  lemma FromMarked(content: Text, order: Order)
    requires Utf16.OrderOf(content) == Some(order)
    ensures |content| >= 2
    ensures |content| % 2 == 0 ==> FromUtf16(content) == TextOf(Utf16.Decode(Utf16.Units(content[2..], order)))
  {
  }

  // ----- Unicode

  /** Valid UTF-8 without a NUL as it is, and UTF-16 that says so with a byte order mark. */
  function FromUnicode(content: Text): Option<Text> {
    if Utf8.Decode(content).Decoded? && 0 !in content then Some(content) else FromUtf16(content)
  }

  method DecodeUnicode(content: Text) returns (decoded: Option<Text>)
    ensures decoded == FromUnicode(content)
    ensures decoded.Some? ==> Utf8.Valid(decoded.value)
    ensures Utf8.Valid(content) && 0 !in content ==> decoded == Some(content)
  {
    Utf8.DecodesTheValid(content);
    if Utf8.Decode(content).Decoded? && 0 !in content {
      return Some(content);
    }
    decoded := DecodeUtf16(content);
  }

  /** A text is read as itself from UTF-8, unless it holds a NUL, and from UTF-16 after a mark, if it could be one. */
  lemma UnicodeIsRead(s: string, order: Order)
    ensures FromUnicode(Utf16.Mark(order) + Utf16.Raw(Utf16.Encode(s), order)) == TextOf(s)
    ensures FromUnicode(Utf8.Encode(s)) == Some(Utf8.Encode(s)) || 0 as char in s
  {
    MarkedIsNotUtf8(Utf16.Mark(order) + Utf16.Raw(Utf16.Encode(s), order));
    Utf16TextIsRead(s, order);
    Utf8.DecodeEncodes(s);
    NulIsNul(s);
  }

  lemma MarkedIsNotUtf8(content: Text)
    requires content != [] && content[0] >= 0xFE
    ensures Utf8.Decode(content) == Utf8.Invalid
  {
  }

  lemma {:induction false} NulIsNul(s: string)
    ensures 0 in Utf8.Encode(s) <==> 0 as char in s
  {
    if s != "" {
      NulIsNul(s[1..]);
      assert s == [s[0]] + s[1..];
      assert forall i :: 0 < i < |Utf8.EncodeChar(s[0])| ==> Utf8.EncodeChar(s[0])[i] >= 0x80;
    }
  }

  // ----- Windows-1252

  /** Where Windows-1252 differs from Latin-1; 0 for the five bytes it leaves undefined. */
  const PAGE: seq<int> := [
    0x20AC, 0, 0x201A, 0x0192, 0x201E, 0x2026, 0x2020, 0x2021,
    0x02C6, 0x2030, 0x0160, 0x2039, 0x0152, 0, 0x017D, 0,
    0, 0x2018, 0x2019, 0x201C, 0x201D, 0x2022, 0x2013, 0x2014,
    0x02DC, 0x2122, 0x0161, 0x203A, 0x0153, 0, 0x017E, 0x0178]

  /** Characters beyond Latin-1, none of them twice. */
  predicate IsPage(page: seq<int>) {
    && |page| == 32
    && (forall i :: 0 <= i < 32 && page[i] != 0 ==> 0x100 <= page[i] < 0x3000)
    && (forall i, j :: 0 <= i < j < 32 && page[i] == page[j] ==> page[i] == 0)
  }

  lemma PageIsPage()
    ensures IsPage(PAGE)
  {
    PageIsHigh();
    RowDiffers(0);
    RowDiffers(8);
    RowDiffers(16);
    RowDiffers(24);
  }

  lemma PageIsHigh()
    ensures |PAGE| == 32 && forall i :: 0 <= i < 32 && PAGE[i] != 0 ==> 0x100 <= PAGE[i] < 0x3000
  {
  }

  lemma RowDiffers(start: nat)
    requires start in {0, 8, 16, 24}
    ensures |PAGE| == 32
    ensures forall i, j :: start <= i < start + 8 && i < j < 32 && PAGE[i] == PAGE[j] ==> PAGE[i] == 0
  {
  }

  /** The character of a byte in a code page, or none when a text would not hold it. */
  function CharacterIn(page: seq<int>, b: byte): Option<char>
    requires IsPage(page)
  {
    if b < 0x20 then if TextControl(b as int) then Some(b as int as char) else None
    else if b < 0x80 then Some(b as int as char)
    else if b < 0xA0 then
      var v := page[b as nat - 0x80];
      if v == 0 then None else Some(v as char)
    else Some(b as int as char)
  }

  function CharacterOf(b: byte): Option<char> {
    PageIsPage();
    CharacterIn(PAGE, b)
  }

  /** The text, or nothing when a byte of it could not be in one. */
  function Characters(content: Text): Option<string> {
    if content == [] then Some("")
    else
      match (Characters(content[..|content| - 1]), CharacterOf(content[|content| - 1]))
      case (Some(init), Some(last)) => Some(init + [last])
      case _ => None
  }

  method DecodeWindows1252(content: Text) returns (decoded: Option<Text>)
    ensures decoded == match Characters(content) case None => None case Some(s) => Some(Utf8.Encode(s))
  {
    var text: Text := [];
    ghost var s := "";
    var index := 0;
    while index < |content|
      invariant 0 <= index <= |content|
      invariant Characters(content[..index]) == Some(s) && text == Utf8.Encode(s)
    {
      assert content[..index + 1][..index] == content[..index];
      var character := CharacterOf(content[index]);
      if character.None? {
        NoneStays(content, index + 1);
        return None;
      }
      EncodesOneMore(s, character.value);
      text := text + Utf8.EncodeChar(character.value);
      s := s + [character.value];
      index := index + 1;
    }
    assert content[..index] == content;
    return Some(text);
  }

  lemma {:induction false} NoneStays(content: Text, n: nat)
    requires n <= |content| && Characters(content[..n]).None?
    ensures Characters(content).None?
    decreases |content|
  {
    if n < |content| {
      assert content[..|content| - 1][..n] == content[..n];
      NoneStays(content[..|content| - 1], n);
    } else {
      assert content[..n] == content;
    }
  }

  lemma {:induction false} EncodesOneMore(s: string, c: char)
    ensures Utf8.Encode(s + [c]) == Utf8.Encode(s) + Utf8.EncodeChar(c)
    decreases |s|
  {
    if s == "" {
      assert s + [c] == [c] && [c][1..] == "";
    } else {
      EncodesOneMore(s[1..], c);
      assert (s + [c])[1..] == s[1..] + [c];
    }
  }

  /** No two bytes have the same character. */
  lemma CharactersDiffer(page: seq<int>, a: byte, b: byte)
    requires IsPage(page) && CharacterIn(page, a).Some? && CharacterIn(page, a) == CharacterIn(page, b)
    ensures a == b
  {
  }

  lemma LastCharacter(content: Text) returns (last: char)
    requires content != [] && Characters(content).Some?
    ensures Characters(content[..|content| - 1]).Some? && CharacterOf(content[|content| - 1]) == Some(last)
    ensures Characters(content).value == Characters(content[..|content| - 1]).value + [last]
  {
    last := CharacterOf(content[|content| - 1]).value;
  }

  lemma LastOfEach(s: string, x: char, t: string, y: char)
    requires s + [x] == t + [y]
    ensures s == t && x == y
  {
    assert (s + [x])[..|s|] == s && (t + [y])[..|t|] == t;
    assert (s + [x])[|s|] == x && (t + [y])[|t|] == y;
  }

  /** Reading loses nothing: different contents that are read are read as different texts, character for byte. */
  lemma {:induction false} ReadingKeepsBytes(a: Text, b: Text)
    requires Characters(a).Some? && Characters(a) == Characters(b)
    ensures a == b && |Characters(a).value| == |a|
    decreases |a|
  {
    if a != [] && b != [] {
      var x := LastCharacter(a);
      var y := LastCharacter(b);
      LastOfEach(Characters(a[..|a| - 1]).value, x, Characters(b[..|b| - 1]).value, y);
      ReadingKeepsBytes(a[..|a| - 1], b[..|b| - 1]);
      PageIsPage();
      CharactersDiffer(PAGE, a[|a| - 1], b[|b| - 1]);
      assert a == a[..|a| - 1] + [a[|a| - 1]] && b == b[..|b| - 1] + [b[|b| - 1]];
    }
  }

  // ----- Which character a byte is

  /** Outside 0x80 to 0x9F a byte is the character of its number, but for the controls no text uses. */
  lemma MostlyLatin1(b: byte)
    ensures b < 0x20 ==> CharacterOf(b) == if 9 <= b <= 13 || b in {0x1A, 0x1B} then Some(b as int as char) else None
    ensures 0x20 <= b < 0x80 || b >= 0xA0 ==> CharacterOf(b) == Some(b as int as char)
    ensures 0x80 <= b < 0xA0 ==> (CharacterOf(b) == None <==> b in {0x81, 0x8D, 0x8F, 0x90, 0x9D})
  {
    PageIsPage();
    if 0x80 <= b < 0xA0 {
      OnlyFiveUndefined(b);
    }
  }

  lemma OnlyFiveUndefined(b: byte)
    requires 0x80 <= b < 0xA0
    ensures PAGE[b as nat - 0x80] == 0 <==> b in {0x81, 0x8D, 0x8F, 0x90, 0x9D}
  {
  }

  /** The euro sign, the dots, the quotation marks and the dashes are where Windows-1252 has them. */
  lemma WindowsCharacters()
    ensures CharacterOf(0x80) == Some('\U{20AC}') && CharacterOf(0x85) == Some('\U{2026}')
    ensures CharacterOf(0x91) == Some('\U{2018}') && CharacterOf(0x92) == Some('\U{2019}')
    ensures CharacterOf(0x93) == Some('\U{201C}') && CharacterOf(0x94) == Some('\U{201D}')
    ensures CharacterOf(0x96) == Some('\U{2013}') && CharacterOf(0x97) == Some('\U{2014}')
  {
    PageIsPage();
  }

  /** A text in UTF-16 is refused for a control character that no text uses, and for no other. */
  lemma ControlsAreRefused(s: string, order: Order)
    ensures var decoded := FromUtf16(Utf16.Mark(order) + Utf16.Raw(Utf16.Encode(s), order));
      if exists c :: c in s && c as int < 0x20 && c as int !in {9, 10, 11, 12, 13, 0x1A, 0x1B} then decoded == None
      else decoded == Some(Utf8.Encode(s))
  {
    Utf16TextIsRead(s, order);
    assert forall c :: c in s ==> (IsText(c) <==> c as int >= 0x20 || c as int in {9, 10, 11, 12, 13, 0x1A, 0x1B});
    assert forall i :: 0 <= i < |s| ==> s[i] in s;
  }

  /** What has no byte order mark, or an odd number of bytes, is not read as UTF-16. */
  lemma UnmarkedIsRefused(content: Text)
    requires |content| % 2 == 1 || |content| < 2 || content[..2] !in [[0xFF, 0xFE], [0xFE, 0xFF]]
    ensures FromUtf16(content) == None
  {
    Utf16.SurrogatesAreStandard();
    if Utf16.OrderOf(content).Some? {
      assert content[..2] == Utf16.Mark(Utf16.OrderOf(content).value);
    }
  }
}
