/**
 UTF-16 as section 2 of RFC 2781 defines it, decoded as Go's unicode/utf16
 does: a surrogate outside a pair becomes the replacement character.
 */
module Utf16 {
  import opened Bytes
  import opened Options
  import opened Sequences

  type Unit = u: int | 0 <= u < 0x1_0000

  predicate High(u: Unit) { 0xD800 <= u < 0xDC00 }

  predicate Low(u: Unit) { 0xDC00 <= u < 0xE000 }

  function EncodeChar(c: char): (e: seq<Unit>)
    ensures 1 <= |e| <= 2
  {
    var v := c as int;
    if v < 0x1_0000 then [v] else [0xD800 + (v - 0x1_0000) / 0x400, 0xDC00 + (v - 0x1_0000) % 0x400]
  }

  function Encode(s: string): seq<Unit> {
    if s == "" then [] else EncodeChar(s[0]) + Encode(s[1..])
  }

  function Combined(high: Unit, low: Unit): (c: char)
    requires High(high) && Low(low)
    ensures EncodeChar(c) == [high, low]
  {
    ((high - 0xD800) * 0x400 + (low - 0xDC00) + 0x1_0000) as char
  }

  function Decode(units: seq<Unit>): string {
    if units == [] then ""
    else if High(units[0]) && |units| > 1 && Low(units[1]) then [Combined(units[0], units[1])] + Decode(units[2..])
    else if High(units[0]) || Low(units[0]) then ['\U{FFFD}'] + Decode(units[1..])
    else [units[0] as char] + Decode(units[1..])
  }

  /** Every surrogate is in a pair. */
  predicate WellFormed(units: seq<Unit>) {
    && (forall i :: 0 <= i < |units| && High(units[i]) ==> i + 1 < |units| && Low(units[i + 1]))
    && (forall i :: 0 <= i < |units| && Low(units[i]) ==> i > 0 && High(units[i - 1]))
  }

  lemma {:induction false} DecodeEncodes(s: string)
    ensures Decode(Encode(s)) == s
  {
    if s != "" {
      var first, rest := EncodeChar(s[0]), Encode(s[1..]);
      DecodeEncodes(s[1..]);
      assert (first + rest)[|first|..] == rest;
      assert [s[0]] + s[1..] == s;
    }
  }

  /** Decoding loses nothing exactly when every surrogate is in a pair. */
  lemma {:induction false} EncodeDecodes(units: seq<Unit>)
    ensures Encode(Decode(units)) == units <==> WellFormed(units)
    decreases |units|
  {
    if units != [] {
      if High(units[0]) && |units| > 1 && Low(units[1]) {
        EncodeDecodes(units[2..]);
        WellFormedRest(units, 2);
        EncodesBack(units, [units[0], units[1]], Combined(units[0], units[1]));
      } else if High(units[0]) || Low(units[0]) {
        assert Encode(Decode(units))[0] == 0xFFFD;
      } else {
        EncodeDecodes(units[1..]);
        WellFormedRest(units, 1);
        EncodesBack(units, [units[0]], units[0] as char);
      }
    }
  }

  lemma EncodesBack(units: seq<Unit>, first: seq<Unit>, c: char)
    requires first <= units && EncodeChar(c) == first
    requires Decode(units) == [c] + Decode(units[|first|..])
    ensures Encode(Decode(units)) == units <==> Encode(Decode(units[|first|..])) == units[|first|..]
  {
    assert Decode(units)[1..] == Decode(units[|first|..]);
    var rest := Encode(Decode(units[|first|..]));
    assert (first + rest)[|first|..] == rest;
    assert units == first + units[|first|..];
  }

  lemma WellFormedRest(units: seq<Unit>, n: nat)
    requires n <= |units| && n > 0 && !High(units[n - 1]) && WellFormed(units[..n])
    ensures WellFormed(units) <==> WellFormed(units[n..])
  {
    var rest := units[n..];
    if WellFormed(units) {
      forall i | 0 <= i < |rest| && High(rest[i]) ensures i + 1 < |rest| && Low(rest[i + 1]) {
        assert units[n + i] == rest[i];
      }
      forall i | 0 <= i < |rest| && Low(rest[i]) ensures i > 0 && High(rest[i - 1]) {
        assert units[n + i] == rest[i];
      }
    }
    if WellFormed(rest) {
      forall i | 0 <= i < |units| && High(units[i]) ensures i + 1 < |units| && Low(units[i + 1]) {
        assert i < n ==> units[..n][i] == units[i];
        assert i >= n ==> rest[i - n] == units[i];
      }
      forall i | 0 <= i < |units| && Low(units[i]) ensures i > 0 && High(units[i - 1]) {
        assert i < n ==> units[..n][i] == units[i];
        assert i >= n ==> rest[i - n] == units[i];
      }
    }
  }

  // ----- The byte order mark

  function Mark(order: Order): Text { if order.Little? then [0xFF, 0xFE] else [0xFE, 0xFF] }

  /** The order a text's mark shows, if it begins with one. */
  function OrderOf(raw: Text): Option<Order> {
    if Mark(Little) <= raw then Some(Little) else if Mark(Big) <= raw then Some(Big) else None
  }

  lemma AfterMark(raw: Text, order: Order)
    ensures OrderOf(Mark(order) + raw) == Some(order) && (Mark(order) + raw)[2..] == raw
  {
    assert (Mark(order) + raw)[0] == Mark(order)[0];
  }

  // ----- Units as bytes

  function UnitAt(first: byte, second: byte, order: Order): Unit { Short(first, second, order) }

  function BytesAt(u: Unit, order: Order): (pair: Text)
    ensures |pair| == 2
  {
    if order.Little? then [(u % 0x100) as byte, (u / 0x100) as byte] else [(u / 0x100) as byte, (u % 0x100) as byte]
  }

  function Units(raw: Text, order: Order): (units: seq<Unit>)
    requires |raw| % 2 == 0
    ensures |units| == |raw| / 2
  {
    if raw == [] then [] else [UnitAt(raw[0], raw[1], order)] + Units(raw[2..], order)
  }

  function Raw(units: seq<Unit>, order: Order): (raw: Text)
    ensures |raw| == 2 * |units|
  {
    if units == [] then [] else BytesAt(units[0], order) + Raw(units[1..], order)
  }

  lemma {:induction false} UnitsOfRaw(units: seq<Unit>, order: Order)
    ensures Units(Raw(units, order), order) == units
  {
    if units != [] {
      var raw := Raw(units, order);
      UnitsOfRaw(units[1..], order);
      assert raw[2..] == Raw(units[1..], order);
      assert UnitAt(raw[0], raw[1], order) == units[0];
    }
  }

  lemma RawOfUnit(a: byte, b: byte, order: Order)
    ensures BytesAt(UnitAt(a, b, order), order) == [a, b]
  {
  }

  lemma RawOfOne(unit: Unit, more: seq<Unit>, order: Order)
    ensures Raw([unit] + more, order) == BytesAt(unit, order) + Raw(more, order)
  {
    assert ([unit] + more)[1..] == more;
  }

  lemma {:induction false} RawOfUnits(raw: Text, order: Order)
    requires |raw| % 2 == 0
    ensures Raw(Units(raw, order), order) == raw
    decreases |raw|
  {
    if raw != [] {
      RawOfUnits(raw[2..], order);
      RawOfUnit(raw[0], raw[1], order);
      RawOfOne(UnitAt(raw[0], raw[1], order), Units(raw[2..], order), order);
      assert raw == [raw[0], raw[1]] + raw[2..];
    }
  }

  lemma {:induction false} EncodeAppends(s: string, more: string)
    ensures Encode(s + more) == Encode(s) + Encode(more)
    decreases |s|
  {
    if s == "" {
      assert s + more == more;
    } else {
      EncodeAppends(s[1..], more);
      RestOfBoth(s, more);
    }
  }

  lemma {:induction false} RawAppends(units: seq<Unit>, more: seq<Unit>, order: Order)
    ensures Raw(units + more, order) == Raw(units, order) + Raw(more, order)
    decreases |units|
  {
    if units == [] {
      assert units + more == more;
    } else {
      RawAppends(units[1..], more, order);
      RestOfBoth(units, more);
    }
  }

  /** The units of an even number of bytes, read one by one. */
  method ReadUnits(raw: Text, order: Order) returns (units: seq<Unit>)
    requires |raw| % 2 == 0
    ensures units == Units(raw, order)
  {
    units := [];
    var index := 0;
    while index < |raw| / 2
      invariant 0 <= index <= |raw| / 2
      invariant Units(raw, order) == units + Units(raw[2 * index..], order)
    {
      var rest := raw[2 * index..];
      assert rest[2..] == raw[2 * (index + 1)..];
      units := units + [UnitAt(raw[2 * index], raw[2 * index + 1], order)];
      index := index + 1;
    }
  }

  lemma RawStep(done: Text, rest: seq<Unit>, order: Order)
    requires rest != []
    ensures done + Raw(rest, order) == done + BytesAt(rest[0], order) + Raw(rest[1..], order)
  {
  }

  /** The bytes of units, put one by one. */
  method WriteUnits(units: seq<Unit>, order: Order) returns (raw: Text)
    ensures raw == Raw(units, order)
  {
    raw := [];
    var index := 0;
    while index < |units|
      invariant 0 <= index <= |units|
      invariant Raw(units, order) == raw + Raw(units[index..], order)
    {
      var rest := units[index..];
      assert rest[1..] == units[index + 1..];
      RawStep(raw, rest, order);
      raw := raw + BytesAt(units[index], order);
      index := index + 1;
    }
  }

  /** A character of one unit, and one of a high and a low surrogate. */
  lemma SurrogatesAreStandard()
    ensures EncodeChar('\U{20AC}') == [0x20AC] && EncodeChar('\U{1F600}') == [0xD83D, 0xDE00]
    ensures Mark(Little) == [0xFF, 0xFE] && Mark(Big) == [0xFE, 0xFF]
  {
  }
}
