/**
 What installing and removing a block does to a whole file
 (internal/completionsetup/files.go), whether it is there or not.
 */
module SharedFile {
  import opened Bytes
  import opened BlockEdit
  import opened BlockFile

  /** A file: its bytes, and whether it is a regular one rather than a link to one. */
  datatype File = Absent | Present(raw: Text, regular: bool)

  datatype Status = Unreadable | Conflicting | Added | Updated | Same | TakenOut | NotThere

  function Install(file: File, target: Target, default: string): (result: (File, Status))
    requires Sound(target) && IsNewline(default)
  {
    match file
    case Absent => (Present(Created(target, default), true), Added)
    case Present(raw, regular) =>
      match Read(raw)
      case OddLength => (file, Unreadable)
      case Reading(encoding, text) => InstallText(file, encoding, text, target, default)
  }

  /** A new file holds the block alone. */
  function Created(target: Target, default: string): Text
    requires Sound(target) && IsNewline(default)
  {
    BlockIsAscii(target, default);
    Write(Unmarked, Block(target.setup, default))
  }

  function InstallText(file: File, encoding: Encoding, text: string, target: Target, default: string): (File, Status)
    requires file.Present? && Sound(target) && IsNewline(default) && Writable(encoding, text)
  {
    InstalledIsWritable(encoding, text, target, default);
    match Installed(text, target.setup, default)
    case Edited(edited) =>
      (file.(raw := Write(encoding, edited)), if FindBlock(text, target.setup).Found? then Updated else Added)
    case Conflict => (file, Conflicting)
    case _ => (file, Same)
  }

  function Remove(file: File, target: Target, default: string): (result: (File, Status))
  {
    match file
    case Absent => (file, NotThere)
    case Present(raw, regular) =>
      match Read(raw)
      case OddLength => (file, Unreadable)
      case Reading(encoding, text) => RemoveText(file, encoding, text, target, default)
  }

  function RemoveText(file: File, encoding: Encoding, text: string, target: Target, default: string): (File, Status)
    requires file.Present? && Writable(encoding, text)
  {
    RemovedIsWritable(encoding, text, target, default);
    match Removed(text, target.setup, default)
    case Edited(edited) =>
      (if target.dropsBlank && Blank(encoding, edited) && file.regular then Absent
       else file.(raw := Write(encoding, edited)), TakenOut)
    case Conflict => (file, Conflicting)
    case _ => (file, NotThere)
  }

  lemma InstalledIsWritable(encoding: Encoding, text: string, target: Target, default: string)
    requires Sound(target) && IsNewline(default) && Writable(encoding, text)
    ensures Installed(text, target.setup, default).Edited? ==>
      Writable(encoding, Installed(text, target.setup, default).text)
  {
    var newline := Newline(text, default);
    BlockIsAscii(target, newline);
    match FindBlock(text, target.setup) {
      case Found(start, end) => Bytewise3(text[..start], Block(target.setup, newline), text[end..]);
      case NotFound =>
        Appends(text, Block(target.setup, newline), newline);
        Bytewise3(text, Gap(text, newline), Block(target.setup, newline));
      case LostEnd =>
    }
  }

  lemma Bytewise3(a: string, b: string, c: string)
    ensures Bytewise(a + b + c) <==> Bytewise(a) && Bytewise(b) && Bytewise(c)
  {
    var all := a + b + c;
    assert forall i :: 0 <= i < |a| ==> all[i] == a[i];
    assert forall i :: 0 <= i < |b| ==> all[|a| + i] == b[i];
    assert forall i :: 0 <= i < |c| ==> all[|a| + |b| + i] == c[i];
  }

  lemma RemovedIsWritable(encoding: Encoding, text: string, target: Target, default: string)
    requires Writable(encoding, text)
    ensures Removed(text, target.setup, default).Edited? ==>
      Writable(encoding, Removed(text, target.setup, default).text)
  {
  }

  // ----- Installing and then removing

  /** What a file has to be like to come back as it was. */
  predicate ComesBack(file: File, target: Target, default: string) {
    match file
    case Absent => target.dropsBlank
    case Present(raw, regular) =>
      && Read(raw).Reading? && Faithful(raw)
      && var text := Read(raw).text;
      && (text == "" || EndsWith(text, Newline(text, default)))
      && !(target.dropsBlank && regular && Blank(Read(raw).encoding, text))
  }

  /**
   A file without a block comes back exactly as it was when the block is
   installed in it and removed again, if and only if its text is empty or
   ends in its own line ending, it is well-formed in its encoding, and it is
   not taken for a profile that install created: a blank regular one for
   PowerShell. A file that was not there is gone again for PowerShell alone.
   */
  lemma RemoveRestoresFile(file: File, target: Target, default: string)
    requires Sound(target) && IsNewline(default) && Install(file, target, default).1 == Added
    ensures var installed := Install(file, target, default).0;
      && Remove(installed, target, default).1 == TakenOut
      && (Remove(installed, target, default).0 == file <==> ComesBack(file, target, default))
  {
    match file
    case Absent => RemoveUndoesCreation(target, default);
    case Present(raw, regular) => RemoveUndoesEdit(file, Read(raw).encoding, Read(raw).text, target, default);
  }

  lemma RemoveUndoesCreation(target: Target, default: string)
    requires Sound(target) && IsNewline(default)
    ensures Remove(Present(Created(target, default), true), target, default)
      == (if target.dropsBlank then Absent else Present([], true), TakenOut)
  {
    var block := Block(target.setup, default);
    ReadsCreated(target, default);
    RemovesAlone(target, default);
    RemovesAs(Present(Created(target, default), true), Unmarked, block, "", target, default);
    EmptyFile();
  }

  lemma EmptyFile()
    ensures Write(Unmarked, "") == [] && Blank(Unmarked, "")
  {
    assert Raw("") == [];
  }

  lemma RemovesAlone(target: Target, default: string)
    requires Sound(target) && IsNewline(default)
    ensures Removed(Block(target.setup, default), target.setup, default) == Edited("")
  {
    InstallsAlone(target, default);
    RemoveUndoesInstall("", target.setup, default);
  }

  lemma ReadsCreated(target: Target, default: string)
    requires Sound(target) && IsNewline(default)
    ensures Read(Created(target, default)) == Reading(Unmarked, Block(target.setup, default))
  {
    var block := Block(target.setup, default);
    BlockIsAscii(target, default);
    assert Read([]) == Reading(Unmarked, "");
    assert "" + block == block;
    EncodingKept([], Unmarked, block);
    ReadWrites(Unmarked, block);
  }

  lemma InstallsAlone(target: Target, default: string)
    requires Sound(target)
    ensures Installed("", target.setup, default) == Edited(Block(target.setup, default))
    ensures FirstMarker("", target.setup.open, 0) == -1
    ensures Newline("", default) == default
  {
    NoMarkerInNothing(target.setup.open);
    assert !Contains("", "\r\n") && !Contains("", "\n");
  }

  lemma NoMarkerInNothing(marker: string)
    requires marker != ""
    ensures FirstMarker("", marker, 0) == -1
  {
  }

  lemma RemoveUndoesEdit(file: File, encoding: Encoding, text: string, target: Target, default: string)
    requires file.Present? && Sound(target) && IsNewline(default)
    requires Read(file.raw) == Reading(encoding, text) && Install(file, target, default).1 == Added
    ensures var installed := Install(file, target, default).0;
      && Remove(installed, target, default).1 == TakenOut
      && (Remove(installed, target, default).0 == file <==> ComesBack(file, target, default))
  {
    var newline := Newline(text, default);
    var back := RoundTrip(text, newline);
    AddsWhereNone(file, encoding, text, target, default);
    var all := Installed(text, target.setup, default).text;
    ReadsInstalled(file, encoding, text, target, default);
    RemoveUndoesInstall(text, target.setup, default);
    BlankAgain(encoding, text, newline);
    RemovesAs(file.(raw := Write(encoding, all)), encoding, all, back, target, default);
    BackOrNot(file.raw, encoding, text, back);
  }

  lemma AddsWhereNone(file: File, encoding: Encoding, text: string, target: Target, default: string)
    requires file.Present? && Sound(target) && IsNewline(default)
    requires Read(file.raw) == Reading(encoding, text) && Install(file, target, default).1 == Added
    ensures FirstMarker(text, target.setup.open, 0) == -1
    ensures Installed(text, target.setup, default).Edited?
      && Writable(encoding, Installed(text, target.setup, default).text)
    ensures Install(file, target, default).0
      == file.(raw := Write(encoding, Installed(text, target.setup, default).text))
  {
    AddsText(file, encoding, text, target, default);
    AddsOnlyWhereNone(text, target.setup, default);
  }

  lemma AddsText(file: File, encoding: Encoding, text: string, target: Target, default: string)
    requires file.Present? && Sound(target) && IsNewline(default) && Writable(encoding, text)
    requires InstallText(file, encoding, text, target, default).1 == Added
    ensures FindBlock(text, target.setup).NotFound?
    ensures Installed(text, target.setup, default).Edited?
      && Writable(encoding, Installed(text, target.setup, default).text)
    ensures InstallText(file, encoding, text, target, default).0
      == file.(raw := Write(encoding, Installed(text, target.setup, default).text))
  {
    InstalledIsWritable(encoding, text, target, default);
  }

  lemma AddsOnlyWhereNone(text: string, setup: Setup, default: string)
    ensures FindBlock(text, setup).NotFound? <==> FirstMarker(text, setup.open, 0) == -1
  {
  }

  /** The bytes are back when the text is and they hold nothing that reading replaced. */
  lemma BackOrNot(raw: Text, encoding: Encoding, text: string, back: string)
    requires Read(raw) == Reading(encoding, text) && Writable(encoding, back)
    ensures Write(encoding, back) == raw <==> back == text && Faithful(raw)
  {
    WrittenIsRead(raw, back);
    WriteReads(raw);
  }

  lemma RemovesAs(file: File, encoding: Encoding, text: string, back: string, target: Target, default: string)
    requires file.Present? && Read(file.raw) == Reading(encoding, text)
    requires Removed(text, target.setup, default) == Edited(back) && Writable(encoding, back)
    ensures Remove(file, target, default)
      == (if target.dropsBlank && Blank(encoding, back) && file.regular then Absent
          else file.(raw := Write(encoding, back)), TakenOut)
  {
  }

  /** Bytes that a text is written as are read as that text. */
  lemma WrittenIsRead(raw: Text, text: string)
    requires Read(raw).Reading? && Writable(Read(raw).encoding, text)
    ensures Write(Read(raw).encoding, text) == raw ==> text == Read(raw).text
  {
    if Write(Read(raw).encoding, text) == raw {
      ReadWrites(Read(raw).encoding, text);
    }
  }

  /** An installed text is read back from the file. */
  lemma ReadsInstalled(file: File, encoding: Encoding, text: string, target: Target, default: string)
    requires file.Present? && Sound(target) && IsNewline(default)
    requires Read(file.raw) == Reading(encoding, text) && FirstMarker(text, target.setup.open, 0) == -1
    ensures Installed(text, target.setup, default).Edited?
    ensures Writable(encoding, Installed(text, target.setup, default).text)
    ensures Read(Write(encoding, Installed(text, target.setup, default).text))
      == Reading(encoding, Installed(text, target.setup, default).text)
  {
    var newline := Newline(text, default);
    var gap, block := Gap(text, newline), Block(target.setup, newline);
    InstallsIntoNone(text, target.setup, default);
    InstalledIsWritable(encoding, text, target, default);
    BlockIsAscii(target, newline);
    assert text + gap + block == text + (gap + block);
    EncodingKept(file.raw, encoding, gap + block);
    ReadWrites(encoding, text + gap + block);
  }

  /** A text that comes back longer is blank when it was. */
  lemma BlankAgain(encoding: Encoding, text: string, newline: string)
    requires Writable(encoding, text) && IsNewline(newline)
    ensures Writable(encoding, RoundTrip(text, newline))
    ensures Blank(encoding, RoundTrip(text, newline)) <==> Blank(encoding, text)
  {
    if RoundTrip(text, newline) != text {
      var more := if newline == "\n" && EndsWith(text, "\r") then "\n\n" else newline;
      StaysBlank(encoding, text, more);
    }
  }

  // ----- Installing twice

  /** The first install did not change which line ending the text shows. */
  predicate KeepsNewline(file: File, default: string) {
    match file
    case Absent => true
    case Present(raw, _) =>
      match Read(raw)
      case OddLength => true
      case Reading(_, text) => !(Newline(text, default) == "\n" && EndsWith(text, "\r"))
  }

  /**
   A second install changes nothing, unless a lone carriage return at the end of
   the text met the first one's newline.
   */
  lemma SecondInstallLeavesFile(file: File, target: Target, default: string)
    requires Sound(target) && IsNewline(default) && Install(file, target, default).1 == Added
    ensures var installed := Install(file, target, default).0;
      Install(installed, target, default) == (installed, Same) <==> KeepsNewline(file, default)
  {
    match file
    case Absent => SecondInstallLeavesCreated(target, default);
    case Present(raw, regular) =>
      SecondInstallLeavesEdit(file, Read(raw).encoding, Read(raw).text, target, default);
  }

  lemma SecondInstallLeavesCreated(target: Target, default: string)
    requires Sound(target) && IsNewline(default)
    ensures Install(Present(Created(target, default), true), target, default)
      == (Present(Created(target, default), true), Same)
  {
    ReadsCreated(target, default);
    InstallsAlone(target, default);
    SecondInstallChangesNothing("", target.setup, default);
    InstallsAs(Present(Created(target, default), true), Unmarked, Block(target.setup, default), target, default);
  }

  lemma SecondInstallLeavesEdit(file: File, encoding: Encoding, text: string, target: Target, default: string)
    requires file.Present? && Sound(target) && IsNewline(default)
    requires Read(file.raw) == Reading(encoding, text) && Install(file, target, default).1 == Added
    ensures var installed := Install(file, target, default).0;
      Install(installed, target, default) == (installed, Same)
      <==> !(Newline(text, default) == "\n" && EndsWith(text, "\r"))
  {
    AddsWhereNone(file, encoding, text, target, default);
    ReadsInstalled(file, encoding, text, target, default);
    SecondInstallChangesNothing(text, target.setup, default);
    var all := Installed(text, target.setup, default).text;
    InstallsAs(file.(raw := Write(encoding, all)), encoding, all, target, default);
  }

  lemma InstallsAs(file: File, encoding: Encoding, text: string, target: Target, default: string)
    requires file.Present? && Sound(target) && IsNewline(default) && Read(file.raw) == Reading(encoding, text)
    ensures Install(file, target, default) == (file, Same) <==> Installed(text, target.setup, default) == Unchanged
  {
  }

  // ----- A file that does not come back

  /** Two lines, the last of which ends in a carriage return alone. */
  const LONE_RETURN: File := Present([0x61, NEWLINE, 0x62, RETURN], true)

  lemma LoneReturnIsLost(target: Target, default: string)
    requires target in [ZSH, POWERSHELL] && IsNewline(default)
    ensures Sound(target) && Install(LONE_RETURN, target, default).1 == Added
    ensures var installed := Install(LONE_RETURN, target, default).0;
      && Remove(installed, target, default).0 != LONE_RETURN
      && Install(installed, target, default) != (installed, Same)
  {
    BundledAreSound();
    assert target.setup.open == BEGIN_MARKER;
    LoneReturnIsLostTo(target, default);
  }

  lemma LoneReturnIsLostTo(target: Target, default: string)
    requires Sound(target) && |target.setup.open| > 4 && IsNewline(default)
    ensures Install(LONE_RETURN, target, default).1 == Added
    ensures var installed := Install(LONE_RETURN, target, default).0;
      && Remove(installed, target, default).0 != LONE_RETURN
      && Install(installed, target, default) != (installed, Same)
  {
    var text := Units(LONE_RETURN.raw);
    ReadsUnmarked(LONE_RETURN.raw);
    ShowsNewline(text, default);
    AddsToShorter(LONE_RETURN, text, target, default);
    EndsOtherwise(LONE_RETURN, text, target, default);
    RemoveRestoresFile(LONE_RETURN, target, default);
    SecondInstallLeavesFile(LONE_RETURN, target, default);
  }

  lemma EndsOtherwise(file: File, text: string, target: Target, default: string)
    requires file.Present? && Read(file.raw) == Reading(Unmarked, text)
    requires text != "" && text[|text| - 1] == '\r' && Newline(text, default) == "\n"
    ensures !ComesBack(file, target, default) && !KeepsNewline(file, default)
  {
    LastUnit(text, "\r", '\r');
    LastUnit(text, "\n", '\n');
  }

  lemma LastUnit(text: string, part: string, last: char)
    requires text != "" && part == [last]
    ensures EndsWith(text, part) <==> text[|text| - 1] == last
  {
    assert text[|text| - 1..] == [text[|text| - 1]];
  }

  lemma ReadsUnmarked(raw: Text)
    requires raw != [] && raw[0] < 128
    ensures Read(raw) == Reading(Unmarked, Units(raw))
  {
    assert raw[|Mark(Unmarked)|..] == raw;
  }

  lemma AddsToShorter(file: File, text: string, target: Target, default: string)
    requires Sound(target) && IsNewline(default) && |text| < |target.setup.open|
    requires file.Present? && Read(file.raw) == Reading(Unmarked, text)
    ensures Install(file, target, default).1 == Added
  {
    NothingInShorter(text, target.setup);
    AddsWithout(file, text, target, default);
  }

  lemma NothingInShorter(text: string, setup: Setup)
    requires |text| < |setup.open|
    ensures FindBlock(text, setup) == NotFound
  {
    assert FirstMarker(text, setup.open, 0) == -1;
  }

  lemma AddsWithout(file: File, text: string, target: Target, default: string)
    requires Sound(target) && IsNewline(default) && FindBlock(text, target.setup) == NotFound
    requires file.Present? && Read(file.raw) == Reading(Unmarked, text)
    ensures Install(file, target, default).1 == Added
  {
  }

  lemma ShowsNewline(text: string, default: string)
    requires |text| == 4 && text[0] != '\r' && text[1] == '\n' && text[2] != '\r'
    ensures Newline(text, default) == "\n"
  {
    assert Occurs(text, "\n", 1);
    forall k | 0 <= k <= 4 ensures !Occurs(text, "\r\n", k) {
      if k != 3 {
        Differs(text, "\r\n", k, 0);
      }
    }
  }
}
