/**
 The file the marked block is kept in (internal/completionsetup/files.go): how
 its bytes are read as a text and written back, and what installing and
 removing the block does to the whole file.
 */
module BlockFile {
  import opened Bytes
  import opened BlockEdit
  import opened Strings
  import Utf8
  import Utf16

  // ----- The shells' blocks

  const BEGIN_MARKER := "# >>> bb completion >>>"
  const END_MARKER := "# <<< bb completion <<<"

  // The proofs below look at every character of a line, so the longer lines are put together from parts.

  const NOTE := "# Added by `bb completion install`; " + "`bb completion remove` takes it out."
  const COMPDEF := "# compdef is there once " + "compinit has run, which is what " + "a completion needs."
  const ZSH_TEST := "if (( $+commands[bb] && " + "$+functions[compdef] )); then"
  const ZSH_SOURCE := "    source <(bb completion zsh)"
  const POWERSHELL_TEST := "if (Get-Command bb " + "-CommandType Application " + "-ErrorAction SilentlyContinue) {"
  const POWERSHELL_INVOKE := "    bb completion powershell | " + "Out-String | Invoke-Expression"

  const ZSH := Target(Setup(BEGIN_MARKER, [NOTE, COMPDEF, ZSH_TEST, ZSH_SOURCE, "fi"], END_MARKER), false)
  const POWERSHELL := Target(Setup(BEGIN_MARKER, [NOTE, POWERSHELL_TEST, POWERSHELL_INVOKE, "}"], END_MARKER), true)

  /** A shell's setup, and whether a file that holds nothing else goes with it. */
  datatype Target = Target(setup: Setup, dropsBlank: bool)

  predicate Ascii(text: string) {
    forall i :: 0 <= i < |text| ==> text[i] < 128 as char
  }

  predicate AsciiLines(lines: seq<string>) {
    forall i :: 0 <= i < |lines| ==> Ascii(lines[i])
  }

  predicate Sound(target: Target) {
    WellMarked(target.setup) && Ascii(target.setup.open) && AsciiLines(target.setup.body) && Ascii(target.setup.close)
  }

  /** A line of a block other than its markers. */
  predicate Inner(line: string) {
    Clean(line) && line != END_MARKER
  }

  predicate Clean(line: string) {
    forall i :: 0 <= i < |line| ==> ' ' <= line[i] < 128 as char
  }

  lemma BundledAreSound()
    ensures Sound(ZSH) && Sound(POWERSHELL)
  {
    MarkersAreSound();
    NoteIsInner();
    CompdefIsInner();
    ZshIsInner();
    PowerShellTestIsInner();
    PowerShellIsInner();
    SoundOf(ZSH);
    SoundOf(POWERSHELL);
  }

  predicate Markers(open: string, close: string) {
    open != "" && Clean(open) && close != "" && Clean(close) && open != close
  }

  lemma MarkersAreSound()
    ensures Markers(BEGIN_MARKER, END_MARKER)
  {
    assert BEGIN_MARKER[2] != END_MARKER[2];
  }

  lemma SoundOf(target: Target)
    requires target.setup.close == END_MARKER && Markers(target.setup.open, END_MARKER)
    requires forall i :: 0 <= i < |target.setup.body| ==> Inner(target.setup.body[i])
    ensures Sound(target)
  {
    forall i | 0 <= i < |target.setup.body| ensures Plain(target.setup.body[i]) && Ascii(target.setup.body[i]) {
      assert Inner(target.setup.body[i]);
    }
  }

  lemma NoteIsInner()
    ensures Inner(NOTE)
  {
    assert NOTE[2] != END_MARKER[2];
  }

  lemma CompdefIsInner()
    ensures Inner(COMPDEF)
  {
    assert COMPDEF[2] != END_MARKER[2];
  }

  lemma ZshIsInner()
    ensures Inner(ZSH_TEST) && Inner(ZSH_SOURCE) && Inner("fi")
  {
    assert ZSH_TEST[0] != END_MARKER[0] && ZSH_SOURCE[0] != END_MARKER[0];
  }

  lemma PowerShellTestIsInner()
    ensures Inner(POWERSHELL_TEST)
  {
    assert POWERSHELL_TEST[0] != END_MARKER[0];
  }

  lemma PowerShellIsInner()
    ensures Inner(POWERSHELL_INVOKE) && Inner("}")
  {
    assert POWERSHELL_INVOKE[0] != END_MARKER[0];
  }

  // ----- Bytes and text

  datatype Encoding = Unmarked | MarkedUtf8 | MarkedUtf16(order: Order)

  /** The byte order mark. */
  function Mark(encoding: Encoding): Text {
    match encoding
    case Unmarked => []
    case MarkedUtf8 => [0xEF, 0xBB, 0xBF]
    case MarkedUtf16(order) => Utf16.Mark(order)
  }

  function EncodingOf(raw: Text): (encoding: Encoding)
    ensures Mark(encoding) <= raw
  {
    if Mark(MarkedUtf8) <= raw then MarkedUtf8
    else match Utf16.OrderOf(raw) case Some(order) => MarkedUtf16(order) case None => Unmarked
  }

  /** UTF-8 is edited byte by byte, each as the unit of its number. */
  function Units(raw: Text): (text: string)
    ensures |text| == |raw| && forall i :: 0 <= i < |raw| ==> text[i] == raw[i] as char
  {
    seq(|raw|, i requires 0 <= i < |raw| => raw[i] as char)
  }

  predicate Bytewise(text: string) {
    forall i :: 0 <= i < |text| ==> text[i] < 256 as char
  }

  function Raw(text: string): (raw: Text)
    requires Bytewise(text)
    ensures |raw| == |text| && forall i :: 0 <= i < |raw| ==> raw[i] as char == text[i]
  {
    seq(|text|, i requires 0 <= i < |text| => (text[i] as int) as byte)
  }

  datatype Reading = OddLength | Reading(encoding: Encoding, text: string)

  function Read(raw: Text): (reading: Reading)
    ensures reading.Reading? && !reading.encoding.MarkedUtf16? ==> Bytewise(reading.text)
  {
    var encoding := EncodingOf(raw);
    var rest := raw[|Mark(encoding)|..];
    if !encoding.MarkedUtf16? then Reading(encoding, Units(rest))
    else if |rest| % 2 != 0 then OddLength
    else Reading(encoding, Utf16.Decode(Utf16.Units(rest, encoding.order)))
  }

  predicate Writable(encoding: Encoding, text: string) {
    encoding.MarkedUtf16? || Bytewise(text)
  }

  function Write(encoding: Encoding, text: string): Text
    requires Writable(encoding, text)
  {
    Mark(encoding) + if encoding.MarkedUtf16? then Utf16.Raw(Utf16.Encode(text), encoding.order) else Raw(text)
  }

  /** Reading and writing back changes nothing: the file is not UTF-16 with a surrogate outside a pair. */
  predicate Faithful(raw: Text) {
    var encoding := EncodingOf(raw);
    var rest := raw[|Mark(encoding)|..];
    encoding.MarkedUtf16? ==> |rest| % 2 == 0 && Utf16.WellFormed(Utf16.Units(rest, encoding.order))
  }

  lemma WriteReads(raw: Text)
    requires Read(raw).Reading?
    ensures Write(Read(raw).encoding, Read(raw).text) == raw <==> Faithful(raw)
  {
    var encoding := EncodingOf(raw);
    var rest := raw[|Mark(encoding)|..];
    assert Mark(encoding) + rest == raw;
    if encoding.MarkedUtf16? {
      Utf16WriteReads(rest, encoding.order);
      assert Write(encoding, Read(raw).text)[|Mark(encoding)|..]
        == Utf16.Raw(Utf16.Encode(Read(raw).text), encoding.order);
    } else {
      assert Raw(Units(rest)) == rest;
    }
  }

  lemma Utf16WriteReads(rest: Text, order: Order)
    requires |rest| % 2 == 0
    ensures Utf16.Raw(Utf16.Encode(Utf16.Decode(Utf16.Units(rest, order))), order) == rest
      <==> Utf16.WellFormed(Utf16.Units(rest, order))
  {
    var units := Utf16.Units(rest, order);
    Utf16.RawOfUnits(rest, order);
    Utf16.EncodeDecodes(units);
    Utf16.UnitsOfRaw(Utf16.Encode(Utf16.Decode(units)), order);
  }

  /** A written text is read back, unless without a byte order mark it looks like it has one. */
  lemma ReadWrites(encoding: Encoding, text: string)
    requires Writable(encoding, text)
    ensures Read(Write(encoding, text)) == Reading(encoding, text)
      <==> (encoding.Unmarked? ==> EncodingOf(Raw(text)).Unmarked?)
  {
    if encoding.MarkedUtf16? {
      var units := Utf16.Encode(text);
      MarkedReads(encoding, Utf16.Raw(units, encoding.order));
      Utf16.UnitsOfRaw(units, encoding.order);
      Utf16.DecodeEncodes(text);
    } else {
      var raw := Raw(text);
      assert Units(raw) == text;
      if encoding.MarkedUtf8? {
        MarkedReads(encoding, raw);
      } else {
        assert Write(encoding, text) == raw;
      }
    }
  }

  /** ASCII after a text leaves its encoding as it was. */
  lemma EncodingKept(raw: Text, encoding: Encoding, more: string)
    requires Read(raw).Reading? && encoding == Read(raw).encoding && more != "" && more[0] < 128 as char
    requires Writable(encoding, Read(raw).text + more)
    ensures EncodingOf(Write(encoding, Read(raw).text + more)) == encoding
  {
    if encoding.Unmarked? {
      assert raw[|Mark(Unmarked)|..] == raw;
      UnmarkedGrows(raw, more);
      WrittenUnmarked(Units(raw) + more);
      UnmarkedStays(raw, Raw(Units(raw) + more));
    } else {
      MarkedReads(encoding, Write(encoding, Read(raw).text + more)[|Mark(encoding)|..]);
    }
  }

  lemma MarkedReads(encoding: Encoding, rest: Text)
    requires !encoding.Unmarked?
    ensures EncodingOf(Mark(encoding) + rest) == encoding && (Mark(encoding) + rest)[|Mark(encoding)|..] == rest
  {
    assert (Mark(encoding) + rest)[0] == Mark(encoding)[0];
  }

  lemma UnmarkedStays(raw: Text, all: Text)
    requires EncodingOf(raw).Unmarked? && raw < all && all[|raw|] < 128
    ensures EncodingOf(all).Unmarked?
  {
    StillUnmarked(raw, all, MarkedUtf8);
    StillUnmarked(raw, all, MarkedUtf16(Little));
    StillUnmarked(raw, all, MarkedUtf16(Big));
  }

  lemma UnmarkedGrows(raw: Text, more: string)
    requires more != "" && more[0] < 128 as char && Bytewise(Units(raw) + more)
    ensures raw < Raw(Units(raw) + more) && Raw(Units(raw) + more)[|raw|] < 128
  {
    var all := Raw(Units(raw) + more);
    forall i | 0 <= i < |raw| ensures all[i] == raw[i] {
      assert all[i] as char == (Units(raw) + more)[i] == raw[i] as char;
    }
    assert all[|raw|] as char == more[0];
  }

  lemma WrittenUnmarked(text: string)
    requires Bytewise(text)
    ensures Write(Unmarked, text) == Raw(text)
  {
  }

  lemma StillUnmarked(raw: Text, all: Text, encoding: Encoding)
    requires EncodingOf(raw).Unmarked? && !encoding.Unmarked?
    requires raw < all && all[|raw|] < 128
    ensures !(Mark(encoding) <= all)
  {
    var mark := Mark(encoding);
    assert forall i :: 0 <= i < |mark| ==> mark[i] >= 128;
    if |mark| <= |raw| {
      assert all[..|mark|] == raw[..|mark|];
    }
  }

  // ----- What a text is made of

  lemma {:induction false} AsciiBlock(lines: seq<string>, newline: string)
    requires AsciiLines(lines) && Ascii(newline)
    ensures Ascii(Lines(lines, newline))
    decreases |lines|
  {
    if lines != [] {
      assert Ascii(lines[0]);
      AsciiBlock(lines[1..], newline);
    }
  }

  lemma BlockIsAscii(target: Target, newline: string)
    requires Sound(target) && IsNewline(newline)
    ensures Ascii(Block(target.setup, newline)) && Block(target.setup, newline) != ""
  {
    AsciiBlock(target.setup.body, newline);
  }

  // ----- Blank files

  predicate Spaces(text: string) {
    forall i :: 0 <= i < |text| ==> IsSpace(text[i])
  }

  /** Nothing is left of the text once the spaces around it are cut off. */
  predicate Blank(encoding: Encoding, text: string)
    requires Writable(encoding, text)
  {
    if encoding.MarkedUtf16? then Spaces(text)
    else match Utf8.Decode(Raw(text)) case Invalid => false case Decoded(s) => Spaces(s)
  }

  lemma StaysBlank(encoding: Encoding, text: string, more: string)
    requires Writable(encoding, text) && Ascii(more) && Spaces(more)
    ensures Writable(encoding, text + more)
    ensures Blank(encoding, text + more) <==> Blank(encoding, text)
  {
    if encoding.MarkedUtf16? {
      SpacesFurther(text, more);
    } else {
      assert Raw(text + more) == Raw(text) + Raw(more);
      DecodesFurther(Raw(text), more);
      if Utf8.Decode(Raw(text)).Decoded? {
        SpacesFurther(Utf8.Decode(Raw(text)).text, more);
      }
    }
  }

  lemma SpacesFurther(text: string, more: string)
    requires Spaces(more)
    ensures Spaces(text + more) <==> Spaces(text)
  {
    if Spaces(text + more) {
      assert forall i :: 0 <= i < |text| ==> text[i] == (text + more)[i];
    }
  }

  /** ASCII after a text is decoded on its own. */
  lemma {:induction false} DecodesFurther(t: Text, more: string)
    requires Ascii(more)
    ensures Utf8.Decode(t + Raw(more))
      == match Utf8.Decode(t) case Invalid => Utf8.Invalid case Decoded(s) => Utf8.Decoded(s + more)
    decreases |t|
  {
    if t == [] {
      assert t + Raw(more) == Raw(more);
      DecodesAscii(more);
      assert "" + more == more;
    } else {
      var width := Utf8.FirstChar(t).0;
      FirstCharStays(t, Raw(more));
      if width > 0 {
        assert (t + Raw(more))[width..] == t[width..] + Raw(more);
        DecodesFurther(t[width..], more);
        if Utf8.Decode(t).Decoded? {
          DecodeStep(t, more);
        }
      }
    }
  }

  lemma FirstCharStays(t: Text, more: Text)
    requires t != [] && (more != [] ==> !Utf8.IsTail(more[0]))
    ensures Utf8.FirstChar(t + more) == Utf8.FirstChar(t)
  {
  }

  lemma DecodeStep(t: Text, more: string)
    requires t != [] && Utf8.FirstChar(t).0 > 0 && Utf8.Decode(t).Decoded?
    ensures var width, c := Utf8.FirstChar(t).0, Utf8.FirstChar(t).1 as char;
      && Utf8.Decode(t[width..]).Decoded?
      && Utf8.Decode(t).text + more == [c] + (Utf8.Decode(t[width..]).text + more)
  {
  }

  lemma {:induction false} DecodesAscii(text: string)
    requires Ascii(text)
    ensures Utf8.Decode(Raw(text)) == Utf8.Decoded(text)
    decreases |text|
  {
    if text != "" {
      DecodesAscii(text[1..]);
      assert Raw(text)[1..] == Raw(text[1..]);
      assert [text[0]] + text[1..] == text;
    }
  }
}
