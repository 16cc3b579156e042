/** UTF-8 as section 3 of RFC 3629 defines it, over Unicode scalar values. */
module Utf8 {
  import opened Bytes

  function EncodeChar(c: char): (e: Text)
    ensures 1 <= |e| <= 4
    ensures Starts(e[0]) && forall i :: 0 < i < |e| ==> !Starts(e[i])
    ensures |e| == 1 <==> e[0] < 128
  {
    var v := c as int;
    if v < 0x80 then [v as byte]
    else if v < 0x800 then [(0xC0 + v / 0x40) as byte, Tail(v)]
    else if v < 0x1_0000 then [(0xE0 + v / 0x1000) as byte, Tail(v / 0x40), Tail(v)]
    else [(0xF0 + v / 0x4_0000) as byte, Tail(v / 0x1000), Tail(v / 0x40), Tail(v)]
  }

  function Tail(v: nat): byte { (0x80 + v % 0x40) as byte }

  /** The byte begins a character: it is not 10xxxxxx. */
  predicate Starts(b: byte) { !(0x80 <= b < 0xC0) }

  function Encode(s: string): Text {
    if s == "" then [] else EncodeChar(s[0]) + Encode(s[1..])
  }

  ghost predicate Valid(t: Text) {
    exists s :: t == Encode(s)
  }

  /** An encoded text falls apart into encoded texts wherever a character begins. */
  lemma {:induction false} SplitsAtCharacters(s: string, n: nat)
    requires n < |Encode(s)| && Starts(Encode(s)[n])
    ensures exists k :: 0 <= k < |s| && Encode(s)[..n] == Encode(s[..k]) && Encode(s)[n..] == Encode(s[k..])
  {
    var first := EncodeChar(s[0]);
    if n == 0 {
      assert s[..0] == "" && s[0..] == s;
    } else {
      assert n >= |first|;
      SplitsAtCharacters(s[1..], n - |first|);
      var k :| 0 <= k < |s[1..]| && Encode(s[1..])[..n - |first|] == Encode(s[1..][..k])
                                 && Encode(s[1..])[n - |first|..] == Encode(s[1..][k..]);
      SplitsLater(s, n, k);
    }
  }

  lemma SplitsLater(s: string, n: nat, k: nat)
    requires s != "" && k <= |s| - 1
    requires |EncodeChar(s[0])| <= n <= |Encode(s)|
    requires Encode(s[1..])[..n - |EncodeChar(s[0])|] == Encode(s[1..][..k])
    requires Encode(s[1..])[n - |EncodeChar(s[0])|..] == Encode(s[1..][k..])
    ensures Encode(s)[..n] == Encode(s[..k + 1]) && Encode(s)[n..] == Encode(s[k + 1..])
  {
    assert s[..k + 1][1..] == s[1..][..k];
    assert s[1..][k..] == s[k + 1..];
  }

  lemma SplitsValid(t: Text, n: nat)
    requires Valid(t) && n <= |t| && (n < |t| ==> Starts(t[n]))
    ensures Valid(t[..n]) && Valid(t[n..])
  {
    var s :| t == Encode(s);
    if n == |t| {
      assert t[..n] == t && t[n..] == Encode("");
    } else {
      SplitsAtCharacters(s, n);
    }
  }

  /** What follows an ASCII byte begins a character. */
  lemma {:induction false} AfterAscii(s: string, n: nat)
    requires 0 < n < |Encode(s)| && Encode(s)[n - 1] < 128
    ensures Starts(Encode(s)[n])
  {
    var first := EncodeChar(s[0]);
    if n > |first| {
      AfterAscii(s[1..], n - |first|);
    } else if n == |first| {
      assert s[1..] != "";
    }
  }

  /** Of any four bytes in a row one begins a character, and the first byte does. */
  lemma {:induction false} CharacterNear(s: string, n: nat)
    requires n < |Encode(s)|
    ensures exists j :: 0 <= j && n - 3 <= j <= n && Starts(Encode(s)[j])
  {
    var first := EncodeChar(s[0]);
    if n < |first| {
      assert Starts(Encode(s)[0]);
    } else {
      CharacterNear(s[1..], n - |first|);
      var j :| 0 <= j && n - |first| - 3 <= j <= n - |first| && Starts(Encode(s[1..])[j]);
      assert Encode(s)[j + |first|] == Encode(s[1..])[j];
    }
  }

  // ----- Decoding

  datatype Decoded = Invalid | Decoded(text: string)

  function TailBits(b: byte): nat { (b as nat) % 0x40 }

  predicate IsTail(b: byte) { 0x80 <= b < 0xC0 }

  predicate ScalarValue(v: int) { 0 <= v < 0xD800 || 0xE000 <= v < 0x11_0000 }

  /** The width of the character a text begins with, and its value when it is well formed; 0 when it is not. */
  function FirstChar(t: Text): (r: (nat, int))
    requires t != []
    ensures r.0 <= |t| && r.0 <= 4
    ensures r.0 > 0 ==> ScalarValue(r.1)
  {
    var b := t[0] as int;
    if b < 0x80 then (1, b)
    else if 0xC2 <= b < 0xE0 && |t| >= 2 && IsTail(t[1]) then (2, (b - 0xC0) * 0x40 + TailBits(t[1]))
    else if 0xE0 <= b < 0xF0 && |t| >= 3 && IsTail(t[1]) && IsTail(t[2]) then
      var v := (b - 0xE0) * 0x1000 + TailBits(t[1]) * 0x40 + TailBits(t[2]);
      if v >= 0x800 && ScalarValue(v) then (3, v) else (0, 0)
    else if 0xF0 <= b < 0xF8 && |t| >= 4 && IsTail(t[1]) && IsTail(t[2]) && IsTail(t[3]) then
      var v := (b - 0xF0) * 0x4_0000 + TailBits(t[1]) * 0x1000 + TailBits(t[2]) * 0x40 + TailBits(t[3]);
      if v >= 0x1_0000 && ScalarValue(v) then (4, v) else (0, 0)
    else (0, 0)
  }

  function Decode(t: Text): Decoded {
    if t == [] then Decoded("")
    else
      var (width, v) := FirstChar(t);
      if width == 0 then Invalid
      else
        match Decode(t[width..])
        case Invalid => Invalid
        case Decoded(rest) => Decoded([v as char] + rest)
  }

  /** A number in six-bit digits. */
  lemma SixBits(v: nat, high: nat, low: nat)
    requires low < 0x40
    ensures v == high * 0x40 + low <==> high == v / 0x40 && low == v % 0x40
  {
  }

  lemma ThreeDigits(a: nat, b: nat, c: nat)
    requires b < 0x40 && c < 0x40
    ensures var v := a * 0x1000 + b * 0x40 + c;
      v / 0x1000 == a && (v / 0x40) % 0x40 == b && v % 0x40 == c && v / 0x40 == a * 0x40 + b
  {
    var v := a * 0x1000 + b * 0x40 + c;
    SixBits(v, a * 0x40 + b, c);
    SixBits(a * 0x40 + b, a, b);
    ThousandsDigit(v);
  }

  lemma ThousandsDigit(v: nat)
    ensures v / 0x1000 == (v / 0x40) / 0x40
  {
  }

  lemma FourDigits(a: nat, b: nat, c: nat, d: nat)
    requires b < 0x40 && c < 0x40 && d < 0x40
    ensures var v := a * 0x4_0000 + b * 0x1000 + c * 0x40 + d;
      v / 0x4_0000 == a && (v / 0x1000) % 0x40 == b && (v / 0x40) % 0x40 == c && v % 0x40 == d
  {
    var v := a * 0x4_0000 + b * 0x1000 + c * 0x40 + d;
    SixBits(v, a * 0x1000 + b * 0x40 + c, d);
    ThreeDigits(a, b, c);
    ThousandsDigit(v);
    MillionsDigit(v);
  }

  lemma MillionsDigit(v: nat)
    ensures v / 0x4_0000 == (v / 0x40) / 0x1000
  {
  }

  /** A character is read back from its encoding. */
  lemma FirstCharReads(c: char, rest: Text)
    ensures FirstChar(EncodeChar(c) + rest) == (|EncodeChar(c)|, c as int)
  {
    var v := c as int;
    if 0x80 <= v < 0x800 {
      SixBits(v, v / 0x40, v % 0x40);
    } else if 0x800 <= v < 0x1_0000 {
      ThreeDigitsOf(v);
      ReadsThree(v, EncodeChar(c) + rest);
    } else if 0x1_0000 <= v {
      FourDigitsOf(v);
      ReadsFour(v, EncodeChar(c) + rest);
    }
  }

  lemma ThreeDigitsOf(v: nat)
    ensures v == (v / 0x1000) * 0x1000 + ((v / 0x40) % 0x40) * 0x40 + v % 0x40
  {
    ThousandsDigit(v);
  }

  lemma FourDigitsOf(v: nat)
    ensures v == (v / 0x4_0000) * 0x4_0000 + ((v / 0x1000) % 0x40) * 0x1000 + ((v / 0x40) % 0x40) * 0x40 + v % 0x40
  {
    ThreeDigitsOf(v / 0x40);
    ThousandsDigit(v);
    MillionsDigit(v);
  }

  lemma ReadsThree(v: nat, t: Text)
    requires 0x800 <= v < 0x1_0000 && ScalarValue(v)
    requires v == (v / 0x1000) * 0x1000 + ((v / 0x40) % 0x40) * 0x40 + v % 0x40
    requires |t| >= 3 && t[0] == (0xE0 + v / 0x1000) as byte && t[1] == Tail(v / 0x40) && t[2] == Tail(v)
    ensures FirstChar(t) == (3, v)
  {
    assert TailBits(t[1]) == (v / 0x40) % 0x40 && TailBits(t[2]) == v % 0x40;
  }

  lemma ReadsFour(v: nat, t: Text)
    requires 0x1_0000 <= v < 0x11_0000
    requires v == (v / 0x4_0000) * 0x4_0000 + ((v / 0x1000) % 0x40) * 0x1000 + ((v / 0x40) % 0x40) * 0x40 + v % 0x40
    requires |t| >= 4 && t[0] == (0xF0 + v / 0x4_0000) as byte
    requires t[1] == Tail(v / 0x1000) && t[2] == Tail(v / 0x40) && t[3] == Tail(v)
    ensures FirstChar(t) == (4, v)
  {
    assert TailBits(t[1]) == (v / 0x1000) % 0x40 && TailBits(t[2]) == (v / 0x40) % 0x40 && TailBits(t[3]) == v % 0x40;
  }

  lemma {:induction false} DecodeEncodes(s: string)
    ensures Decode(Encode(s)) == Decoded(s)
  {
    if s != "" {
      var t, first := Encode(s), EncodeChar(s[0]);
      FirstCharReads(s[0], Encode(s[1..]));
      DecodeEncodes(s[1..]);
      assert t[|first|..] == Encode(s[1..]);
      assert [s[0]] + s[1..] == s;
    }
  }

  lemma EncodesFirstChar(t: Text)
    requires t != [] && FirstChar(t).0 > 0
    ensures EncodeChar(FirstChar(t).1 as char) == t[..FirstChar(t).0]
  {
    var (width, v) := FirstChar(t);
    if width == 2 {
      EncodesTwo(t, v);
    } else if width == 3 {
      EncodesThree(t, v);
    } else if width == 4 {
      EncodesFour(t, v);
    }
  }

  lemma EncodesTwo(t: Text, v: nat)
    requires |t| >= 2 && 0xC2 <= t[0] < 0xE0 && IsTail(t[1])
    requires v == (t[0] as nat - 0xC0) * 0x40 + TailBits(t[1])
    ensures EncodeChar(v as char) == t[..2]
  {
    SixBits(v, t[0] as nat - 0xC0, TailBits(t[1]));
  }

  lemma EncodesThree(t: Text, v: nat)
    requires |t| >= 3 && 0xE0 <= t[0] < 0xF0 && IsTail(t[1]) && IsTail(t[2]) && v >= 0x800 && ScalarValue(v)
    requires v == (t[0] as nat - 0xE0) * 0x1000 + TailBits(t[1]) * 0x40 + TailBits(t[2])
    ensures EncodeChar(v as char) == t[..3]
  {
    ThreeDigits(t[0] as nat - 0xE0, TailBits(t[1]), TailBits(t[2]));
    assert (0xE0 + v / 0x1000) as byte == t[0] && Tail(v / 0x40) == t[1] && Tail(v) == t[2];
  }

  lemma EncodesFour(t: Text, v: nat)
    requires |t| >= 4 && 0xF0 <= t[0] < 0xF8 && IsTail(t[1]) && IsTail(t[2]) && IsTail(t[3])
    requires v >= 0x1_0000 && ScalarValue(v)
    requires v == (t[0] as nat - 0xF0) * 0x4_0000 + TailBits(t[1]) * 0x1000 + TailBits(t[2]) * 0x40 + TailBits(t[3])
    ensures EncodeChar(v as char) == t[..4]
  {
    FourDigits(t[0] as nat - 0xF0, TailBits(t[1]), TailBits(t[2]), TailBits(t[3]));
    assert (0xF0 + v / 0x4_0000) as byte == t[0] && Tail(v / 0x1000) == t[1];
    assert Tail(v / 0x40) == t[2] && Tail(v) == t[3];
  }

  /** Decoding loses nothing of a text. */
  lemma {:induction false} EncodeDecodes(t: Text)
    ensures Decode(t).Decoded? ==> Encode(Decode(t).text) == t
    decreases |t|
  {
    if t != [] && Decode(t).Decoded? {
      var (width, v) := FirstChar(t);
      var rest := t[width..];
      EncodeDecodes(rest);
      EncodesFirstChar(t);
      var s := Decode(t).text;
      assert s == [v as char] + Decode(rest).text;
      assert Encode(s) == EncodeChar(s[0]) + Encode(s[1..]);
    }
  }

  /** Decoding succeeds on valid UTF-8 alone. */
  lemma DecodesTheValid(t: Text)
    ensures Decode(t).Decoded? <==> Valid(t)
  {
    EncodeDecodes(t);
    if Valid(t) {
      var s :| t == Encode(s);
      DecodeEncodes(s);
    }
  }

  /** A character of each width: an e with an acute accent, the euro sign, and a grinning face. */
  lemma WidthsAreStandard()
    ensures EncodeChar('e') == [0x65] && EncodeChar('\U{E9}') == [0xC3, 0xA9]
    ensures EncodeChar('\U{20AC}') == [0xE2, 0x82, 0xAC] && EncodeChar('\U{1F600}') == [0xF0, 0x9F, 0x98, 0x80]
  {
  }
}
