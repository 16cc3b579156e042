/**
 Where the marked block of a file is, and what an edit does by what stands in
 the file (internal/completionsetup/files.go), told by the file's lines.
 */
module BlockLaws {
  import opened Bytes
  import opened BlockEdit
  import opened BlockFile
  import opened SharedFile
  import opened Splitting
  import opened Strings
  import Utf8
  import Utf16

  // ----- Where the block is

  /** The first line from an offset on that is exactly the marker. */
  ghost predicate FirstLine(text: string, marker: string, from: nat, at: nat) {
    from <= at && MarkerLine(text, marker, at) && forall k :: from <= k < at ==> !MarkerLine(text, marker, k)
  }

  ghost predicate NoLine(text: string, marker: string, from: nat) {
    forall k :: from <= k ==> !MarkerLine(text, marker, k)
  }

  /** A place just past the line ending that stands at another. */
  predicate PastEnding(text: string, at: nat, end: nat) {
    end == if at + 1 < |text| && text[at] == '\r' && text[at + 1] == '\n' then at + 2
           else if at < |text| && text[at] == '\n' then at + 1 else at
  }

  /** The text has no line of the begin marker. */
  ghost predicate HasNone(text: string, setup: Setup) { NoLine(text, setup.open, 0) }

  /** A line is the begin marker, and none from the first such on is the end marker. */
  ghost predicate HasLostEnd(text: string, setup: Setup) {
    exists start: nat :: FirstLine(text, setup.open, 0, start) && NoLine(text, setup.close, start)
  }

  /** A block starts at the first line of the begin marker, and ends past the first one of the end marker after it. */
  ghost predicate HasBlock(text: string, setup: Setup, start: nat, end: nat) {
    && start <= end <= |text| && FirstLine(text, setup.open, 0, start)
    && exists last: nat :: FirstLine(text, setup.close, start, last) && PastEnding(text, last + |setup.close|, end)
  }

  /** A block is found exactly where one is. */
  lemma BlockIsHere(text: string, setup: Setup, start: nat, end: nat)
    ensures FindBlock(text, setup) == Found(start, end) <==> HasBlock(text, setup, start, end)
  {
    var first := FirstMarker(text, setup.open, 0);
    if first >= 0 {
      assert FirstLine(text, setup.open, 0, first);
      var last := FirstMarker(text, setup.close, first);
      if last >= 0 {
        assert FirstLine(text, setup.close, first, last);
        OnlyBlock(text, setup, first, last, start, end);
        FoundAt(text, setup, first, last, LineEnd(text, last + |setup.close|));
      } else {
        OnlyFirst(text, setup.open, 0, first);
      }
    }
  }

  lemma OnlyBlock(text: string, setup: Setup, first: nat, last: nat, start: nat, end: nat)
    requires FirstLine(text, setup.open, 0, first) && FirstLine(text, setup.close, first, last)
    ensures HasBlock(text, setup, start, end) <==> start == first && end == LineEnd(text, last + |setup.close|)
  {
    OnlyFirst(text, setup.open, 0, first);
    OnlyFirst(text, setup.close, first, last);
    EndIsPast(text, last + |setup.close|, end);
    if start == first && end == LineEnd(text, last + |setup.close|) {
      assert PastEnding(text, last + |setup.close|, end);
    }
  }

  /** None is found where no line is the begin marker, and a lost end where no line from it on is the end marker. */
  lemma BlockIsNot(text: string, setup: Setup)
    ensures FindBlock(text, setup) == NotFound <==> HasNone(text, setup)
    ensures FindBlock(text, setup) == LostEnd <==> HasLostEnd(text, setup)
  {
    var first := FirstMarker(text, setup.open, 0);
    if first >= 0 {
      assert FirstLine(text, setup.open, 0, first);
      OnlyFirst(text, setup.open, 0, first);
    }
  }

  lemma OnlyFirst(text: string, marker: string, from: nat, at: nat)
    requires FirstLine(text, marker, from, at)
    ensures forall other: nat :: FirstLine(text, marker, from, other) <==> other == at
  {
    forall other: nat | FirstLine(text, marker, from, other) ensures other == at {
      assert !(other < at) && !(at < other);
    }
  }

  lemma EndIsPast(text: string, at: nat, end: nat)
    requires at <= |text|
    ensures PastEnding(text, at, end) <==> end == LineEnd(text, at)
  {
    if at + 1 < |text| {
      assert text[at..at + 2] == [text[at], text[at + 1]];
    }
    if at < |text| {
      assert text[at..at + 1] == [text[at]];
    }
  }

  // ----- What the edits do

  /** Installing where there is no block adds it to the end, behind one blank line unless the text is empty. */
  lemma InstallsBehind(text: string, setup: Setup, default: string)
    requires HasNone(text, setup)
    ensures var newline := Newline(text, default);
      var block := Block(setup, newline);
      Installed(text, setup, default)
      == Edited(if text == "" then block
                else if text[|text| - 1] == '\n' then text + newline + block
                else text + newline + newline + block)
  {
    BlockIsNot(text, setup);
    Ends(text);
  }

  /** Installing where there is a block makes it the shell's, and changes nothing when it is that. */
  lemma InstallsOver(text: string, setup: Setup, default: string, start: nat, end: nat)
    requires HasBlock(text, setup, start, end)
    ensures var block := Block(setup, Newline(text, default));
      Installed(text, setup, default)
      == if text[start..end] == block then Unchanged else Edited(text[..start] + block + text[end..])
  {
    BlockIsHere(text, setup, start, end);
  }

  /** Removing takes out the block, and the line ending of a blank line before it. */
  lemma RemovesBlock(text: string, setup: Setup, default: string, start: nat, end: nat)
    requires HasBlock(text, setup, start, end)
    ensures var before, newline := text[..start], Newline(text, default);
      if EndsWith(before, newline + newline)
      then Removed(text, setup, default) == Edited(before[..|before| - |newline|] + text[end..])
      else Removed(text, setup, default) == Edited(before + text[end..])
  {
    BlockIsHere(text, setup, start, end);
  }

  /** The lines of a block are the begin marker, its own lines, and the end marker, each ended. */
  lemma BlockIsItsLines(setup: Setup)
    requires WellMarked(setup)
    ensures Split(Block(setup, "\n"), '\n') == [setup.open] + setup.body + [setup.close, ""]
  {
    var lines := [setup.open] + setup.body + [setup.close, ""];
    EndedLines(setup.body);
    JoinTwo([setup.open] + setup.body, setup.close);
    EndedLines([setup.open] + setup.body);
    assert Lines([setup.open] + setup.body, "\n") == setup.open + "\n" + Lines(setup.body, "\n") by {
      assert ([setup.open] + setup.body)[1..] == setup.body;
    }
    assert lines == [setup.open] + setup.body + [setup.close] + [""];
    EndedLines([setup.open] + setup.body + [setup.close]);
    forall i | 0 <= i < |lines| ensures '\n' !in lines[i] {
      assert i == 0 || i > |setup.body| || (lines[i] == setup.body[i - 1] && Plain(setup.body[i - 1]));
    }
    SplitJoin(lines, '\n');
  }

  lemma {:induction false} JoinTwo(lines: seq<string>, last: string)
    ensures Lines(lines + [last], "\n") == Lines(lines, "\n") + last + "\n"
    decreases |lines|
  {
    if lines == [] {
      assert [last][1..] == [];
    } else {
      JoinTwo(lines[1..], last);
      assert (lines + [last])[1..] == lines[1..] + [last];
    }
  }

  lemma {:induction false} EndedLines(lines: seq<string>)
    ensures Lines(lines, "\n") == Join(lines + [""], '\n')
    decreases |lines|
  {
    if lines != [] {
      EndedLines(lines[1..]);
      assert (lines + [""])[1..] == lines[1..] + [""];
    }
  }

  // ----- What becomes of a file

  /** What an install says, by what stands in the file. */
  lemma InstallSays(file: File, target: Target, default: string, encoding: Encoding, text: string)
    requires Sound(target) && IsNewline(default) && file.Present? && Read(file.raw) == Reading(encoding, text)
    ensures var (installed, status) := Install(file, target, default);
      && (status == Conflicting <==> HasLostEnd(text, target.setup))
      && (status == Added <==> HasNone(text, target.setup))
      && (status == Same || status == Updated <==> HasSome(text, target.setup))
      && (status == Conflicting || status == Same ==> installed == file)
      && (status == Added || status == Updated ==>
            var edit := Installed(text, target.setup, default);
            && edit.Edited? && Writable(encoding, edit.text) && installed == file.(raw := Write(encoding, edit.text)))
  {
    SaysWhere(text, target.setup);
    InstallsByBlock(file, target, default, encoding, text);
    InstallWrites(file, target, default, encoding, text);
  }

  lemma InstallsByBlock(file: File, target: Target, default: string, encoding: Encoding, text: string)
    requires Sound(target) && IsNewline(default) && file.Present? && Read(file.raw) == Reading(encoding, text)
    ensures var status, found := Install(file, target, default).1, FindBlock(text, target.setup);
      && (status == Conflicting <==> found == LostEnd) && (status == Added <==> found == NotFound)
      && (status == Same || status == Updated <==> found.Found?)
  {
    EditByBlock(text, target.setup, default);
  }

  lemma EditByBlock(text: string, setup: Setup, default: string)
    ensures var edit, found := Installed(text, setup, default), FindBlock(text, setup);
      && (edit == Conflict <==> found == LostEnd) && (edit == Unchanged ==> found.Found?) && edit != Nothing
  {
  }

  lemma InstallWrites(file: File, target: Target, default: string, encoding: Encoding, text: string)
    requires Sound(target) && IsNewline(default) && file.Present? && Read(file.raw) == Reading(encoding, text)
    ensures var (installed, status) := Install(file, target, default);
      var edit := Installed(text, target.setup, default);
      && (status == Conflicting || status == Same ==> installed == file)
      && (status == Added || status == Updated ==>
            && edit.Edited? && Writable(encoding, edit.text) && installed == file.(raw := Write(encoding, edit.text)))
  {
    InstalledIsWritable(encoding, text, target, default);
  }

  lemma SaysWhere(text: string, setup: Setup)
    ensures FindBlock(text, setup) == NotFound <==> HasNone(text, setup)
    ensures FindBlock(text, setup) == LostEnd <==> HasLostEnd(text, setup)
    ensures FindBlock(text, setup).Found? <==> HasSome(text, setup)
  {
    BlockIsNot(text, setup);
    var found := FindBlock(text, setup);
    if found.Found? {
      BlockIsHere(text, setup, found.start, found.end);
    }
    if start: nat, end: nat :| HasBlock(text, setup, start, end) {
      BlockIsHere(text, setup, start, end);
    }
  }

  ghost predicate HasSome(text: string, setup: Setup) {
    exists start: nat, end: nat :: HasBlock(text, setup, start, end)
  }

  /** What a removal says, and when it takes the file away. */
  lemma RemoveSays(file: File, target: Target, default: string, encoding: Encoding, text: string)
    requires file.Present? && Read(file.raw) == Reading(encoding, text)
    ensures var (removed, status) := Remove(file, target, default);
      && (status == Conflicting <==> HasLostEnd(text, target.setup))
      && (status == NotThere <==> HasNone(text, target.setup))
      && (status == TakenOut <==> HasSome(text, target.setup))
      && (status != TakenOut ==> removed == file)
      && (status == TakenOut ==>
            var edit := Removed(text, target.setup, default);
            && edit.Edited? && Writable(encoding, edit.text)
            && removed == if target.dropsBlank && file.regular && Blank(encoding, edit.text) then Absent
                          else file.(raw := Write(encoding, edit.text)))
  {
    SaysWhere(text, target.setup);
    RemovesByBlock(file, target, default, encoding, text);
    RemoveWrites(file, target, default, encoding, text);
  }

  lemma RemovesByBlock(file: File, target: Target, default: string, encoding: Encoding, text: string)
    requires file.Present? && Read(file.raw) == Reading(encoding, text)
    ensures var status, found := Remove(file, target, default).1, FindBlock(text, target.setup);
      && (status == Conflicting <==> found == LostEnd) && (status == NotThere <==> found == NotFound)
      && (status == TakenOut <==> found.Found?)
  {
    RemovalByBlock(text, target.setup, default);
    RemovesText(file, target, default, encoding, text);
  }

  lemma RemovalByBlock(text: string, setup: Setup, default: string)
    ensures var edit, found := Removed(text, setup, default), FindBlock(text, setup);
      (edit == Conflict <==> found == LostEnd) && (edit == Nothing <==> found == NotFound) && edit != Unchanged
  {
  }

  lemma RemovesText(file: File, target: Target, default: string, encoding: Encoding, text: string)
    requires file.Present? && Read(file.raw) == Reading(encoding, text)
    ensures Remove(file, target, default) == RemoveText(file, encoding, text, target, default)
  {
  }

  lemma RemoveWrites(file: File, target: Target, default: string, encoding: Encoding, text: string)
    requires file.Present? && Read(file.raw) == Reading(encoding, text)
    ensures var (removed, status) := Remove(file, target, default);
      var edit := Removed(text, target.setup, default);
      && (status != TakenOut ==> removed == file)
      && (status == TakenOut ==>
            && edit.Edited? && Writable(encoding, edit.text)
            && removed == if target.dropsBlank && file.regular && Blank(encoding, edit.text) then Absent
                          else file.(raw := Write(encoding, edit.text)))
  {
    RemovedIsWritable(encoding, text, target, default);
  }

  /** A block that has lost its end marker is nobody's to guess the extent of: the file stays byte for byte. */
  lemma LostEndIsLeft(file: File, target: Target, default: string, encoding: Encoding, text: string)
    requires Sound(target) && IsNewline(default) && file.Present? && Read(file.raw) == Reading(encoding, text)
    requires HasLostEnd(text, target.setup)
    ensures Install(file, target, default) == (file, Conflicting)
    ensures Remove(file, target, default) == (file, Conflicting)
  {
    InstallSays(file, target, default, encoding, text);
    RemoveSays(file, target, default, encoding, text);
  }

  // ----- How a file is read

  /** Bytes two by two as units of 16 bits, the less significant byte first or last. */
  predicate UnitsOf(units: seq<Utf16.Unit>, raw: Text, little: bool) {
    && |raw| == 2 * |units|
    && forall i :: 0 <= i < |units| ==>
         units[i] as int == if little then raw[2 * i] as int + 0x100 * raw[2 * i + 1] as int
                            else 0x100 * raw[2 * i] as int + raw[2 * i + 1] as int
  }

  lemma {:induction false} UnitsAreNumbers(raw: Text, order: Order)
    requires |raw| % 2 == 0
    ensures UnitsOf(Utf16.Units(raw, order), raw, order.Little?)
    decreases |raw|
  {
    if |raw| > 0 {
      UnitsAreNumbers(raw[2..], order);
    }
  }

  /** The byte order marks of UTF-8 and of UTF-16, the less significant byte first and last. */
  predicate BeginsUtf8(raw: Text) { |raw| >= 3 && raw[0] == 0xEF && raw[1] == 0xBB && raw[2] == 0xBF }

  predicate BeginsLittle(raw: Text) { |raw| >= 2 && raw[0] == 0xFF && raw[1] == 0xFE }

  predicate BeginsBig(raw: Text) { |raw| >= 2 && raw[0] == 0xFE && raw[1] == 0xFF }

  /**
   A file is UTF-16 when it begins with its byte order mark, and otherwise read byte
   by byte, after the mark of UTF-8 if it has one.
   */
  lemma FileIsReadAs(raw: Text)
    ensures !BeginsUtf8(raw) && !BeginsLittle(raw) && !BeginsBig(raw) ==> Read(raw) == Reading(Unmarked, Units(raw))
    ensures BeginsUtf8(raw) ==> Read(raw) == Reading(MarkedUtf8, Units(raw[3..]))
    ensures BeginsLittle(raw) || BeginsBig(raw) ==>
      var order := if BeginsLittle(raw) then Little else Big;
      if |raw| % 2 != 0 then Read(raw) == OddLength
      else
        var units := Utf16.Units(raw[2..], order);
        && UnitsOf(units, raw[2..], BeginsLittle(raw))
        && Read(raw) == Reading(MarkedUtf16(order), Utf16.Decode(units))
  {
    if |raw| >= 2 && |raw| % 2 == 0 {
      UnitsAreNumbers(raw[2..], if BeginsLittle(raw) then Little else Big);
    }
    MarkIs(raw);
    assert raw[0..] == raw;
  }

  lemma MarkIs(raw: Text)
    ensures EncodingOf(raw) == if BeginsUtf8(raw) then MarkedUtf8 else if BeginsLittle(raw) then MarkedUtf16(Little)
                               else if BeginsBig(raw) then MarkedUtf16(Big) else Unmarked
  {
    if |raw| >= 2 {
      assert raw[..2] == [raw[0], raw[1]];
    }
    if |raw| >= 3 {
      assert raw[..3] == [raw[0], raw[1], raw[2]];
    }
  }

  /** A file not in UTF-16 is blank when its bytes are UTF-8 of spaces alone. */
  lemma BlankIs(encoding: Encoding, text: string)
    requires Writable(encoding, text)
    ensures encoding.MarkedUtf16? ==> (Blank(encoding, text) <==> AllSpaces(text))
    ensures !encoding.MarkedUtf16? ==>
      (Blank(encoding, text) <==> exists spaces :: Raw(text) == Utf8.Encode(spaces) && AllSpaces(spaces))
  {
    if !encoding.MarkedUtf16? {
      Utf8.EncodeDecodes(Raw(text));
      forall spaces | Raw(text) == Utf8.Encode(spaces) ensures Utf8.Decode(Raw(text)) == Utf8.Decoded(spaces) {
        Utf8.DecodeEncodes(spaces);
      }
    }
  }
}
