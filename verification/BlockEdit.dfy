/**
 The marked block the completion setup keeps in a file it shares with its
 owner (internal/completionsetup/files.go): finding it, putting it in and
 taking it out.

 A text is the sequence of its units: the bytes of a UTF-8 file, or the
 characters of a UTF-16 one. Everything looked for in it is ASCII, so the two
 are edited alike.
 */
module BlockEdit {
  import opened Sequences

  /** A block by its lines: the marker lines and what stands between them. */
  datatype Setup = Setup(open: string, body: seq<string>, close: string)

  // ----- Marker lines

  predicate Occurs(text: string, part: string, at: nat) {
    at + |part| <= |text| && text[at..at + |part|] == part
  }

  /** A line that is exactly the marker starts here. */
  predicate MarkerLine(text: string, marker: string, at: nat) {
    && Occurs(text, marker, at)
    && (at == 0 || text[at - 1] == '\n')
    && (at + |marker| == |text| || text[at + |marker|] == '\n' || text[at + |marker|] == '\r')
  }

  /** The first such line from an offset on, or -1. */
  function FirstMarker(text: string, marker: string, offset: nat): (at: int)
    ensures at == -1 || (offset <= at && MarkerLine(text, marker, at))
    ensures forall k :: offset <= k && (at == -1 || k < at) ==> !MarkerLine(text, marker, k)
    decreases |text| - offset
  {
    if offset + |marker| > |text| then -1
    else if MarkerLine(text, marker, offset) then offset
    else if offset == |text| then -1
    else FirstMarker(text, marker, offset + 1)
  }

  /** The first occurrence of a text from an offset on, or -1. */
  function Index(text: string, part: string, offset: nat): (at: int)
    ensures at == -1 || (offset <= at && Occurs(text, part, at))
    ensures forall k :: offset <= k && (at == -1 || k < at) ==> !Occurs(text, part, k)
    decreases |text| - offset
  {
    if offset + |part| > |text| then -1
    else if Occurs(text, part, offset) then offset
    else if offset == |text| then -1
    else Index(text, part, offset + 1)
  }

  /** Two first marker lines are one. */
  lemma FirstMarkerIs(text: string, marker: string, offset: nat, at: int)
    requires at == -1 || (offset <= at && MarkerLine(text, marker, at))
    requires forall k :: offset <= k && (at == -1 || k < at) ==> !MarkerLine(text, marker, k)
    ensures FirstMarker(text, marker, offset) == at
  {
    var first := FirstMarker(text, marker, offset);
    if at >= 0 && first >= 0 {
      assert !(first < at) && !(at < first);
    }
  }

  /**
   Finds the first marker line by jumping from one occurrence of the marker
   to after it. What a jump passes over starts no line, since the marker has
   no newline in it.
   */
  method FindMarkerLine(text: string, marker: string, from: nat) returns (at: int)
    requires marker != "" && '\n' !in marker
    ensures at == FirstMarker(text, marker, from)
  {
    var offset := from;
    while offset <= |text|
      invariant from <= offset
      invariant forall k :: from <= k < offset ==> !MarkerLine(text, marker, k)
      decreases |text| + 1 - offset
    {
      var found := Index(text, marker, offset);
      if found < 0 {
        FirstMarkerIs(text, marker, from, -1);
        return -1;
      }
      var after := found + |marker|;
      var startsLine := found == 0 || text[found - 1] == '\n';
      var endsLine := after == |text| || text[after] == '\n' || text[after] == '\r';
      if startsLine && endsLine {
        FirstMarkerIs(text, marker, from, found);
        return found;
      }
      forall k | found < k < after ensures !MarkerLine(text, marker, k) {
        assert text[k - 1] == marker[k - 1 - found];
      }
      offset := after;
    }
    FirstMarkerIs(text, marker, from, -1);
    return -1;
  }

  // ----- Finding the block

  datatype Found = NotFound | LostEnd | Found(start: nat, end: nat)

  /** The block: from the begin marker's line to the end marker's, its line ending included. */
  function FindBlock(text: string, setup: Setup): (found: Found)
    ensures found.Found? ==> found.start <= found.end <= |text|
  {
    var start := FirstMarker(text, setup.open, 0);
    if start < 0 then NotFound
    else
      var endLine := FirstMarker(text, setup.close, start);
      if endLine < 0 then LostEnd else Found(start, LineEnd(text, endLine + |setup.close|))
  }

  /** Past the line ending that stands here, if one does. */
  function LineEnd(text: string, at: nat): (end: nat)
    requires at <= |text|
    ensures end <= |text|
  {
    if Occurs(text, "\r\n", at) then at + 2 else if Occurs(text, "\n", at) then at + 1 else at
  }

  // ----- Editing

  predicate EndsWith(text: string, part: string) {
    |part| <= |text| && text[|text| - |part|..] == part
  }

  predicate Contains(text: string, part: string) {
    exists k :: 0 <= k <= |text| && Occurs(text, part, k)
  }

  /** The file's line ending, as its text shows it. */
  function Newline(text: string, default: string): string {
    if Contains(text, "\r\n") then "\r\n" else if Contains(text, "\n") then "\n" else default
  }

  predicate IsNewline(newline: string) { newline == "\n" || newline == "\r\n" }

  /** Lines, each with the line ending. */
  function Lines(lines: seq<string>, newline: string): string {
    if lines == [] then "" else lines[0] + newline + Lines(lines[1..], newline)
  }

  function Block(setup: Setup, newline: string): string {
    setup.open + newline + Lines(setup.body, newline) + setup.close + newline
  }

  function AppendBlock(text: string, block: string, newline: string): string {
    if text == "" then block
    else (if EndsWith(text, "\n") then text else text + newline) + newline + block
  }

  datatype Edit = Unchanged | Conflict | Nothing | Edited(text: string)

  function Installed(text: string, setup: Setup, default: string): Edit {
    var newline := Newline(text, default);
    var want := Block(setup, newline);
    match FindBlock(text, setup)
    case LostEnd => Conflict
    case NotFound => Edited(AppendBlock(text, want, newline))
    case Found(start, end) =>
      if text[start..end] == want then Unchanged else Edited(text[..start] + want + text[end..])
  }

  function Removed(text: string, setup: Setup, default: string): Edit {
    match FindBlock(text, setup)
    case LostEnd => Conflict
    case NotFound => Nothing
    case Found(start, end) => Edited(Before(text[..start], Newline(text, default)) + text[end..])
  }

  /** The text before a block, without the blank line that was put in front of it. */
  function Before(text: string, newline: string): string {
    if EndsWith(text, newline + newline) then text[..|text| - |newline|] else text
  }

  // ----- Where marker lines are

  /** One line. */
  predicate Plain(line: string) {
    forall i :: 0 <= i < |line| ==> line[i] != '\n' && line[i] != '\r'
  }

  /** The lines of a block are one line each, and no other line of it is its end marker. */
  predicate WellMarked(setup: Setup) {
    && setup.open != "" && Plain(setup.open)
    && setup.close != "" && Plain(setup.close) && setup.open != setup.close
    && forall i :: 0 <= i < |setup.body| ==> Plain(setup.body[i]) && setup.body[i] != setup.close
  }

  /** The text ends a line, or is empty. */
  predicate AtLineStart(text: string) {
    text == "" || text[|text| - 1] == '\n'
  }

  /** A text does not occur where a unit of it differs. */
  lemma Differs(text: string, part: string, at: nat, i: nat)
    requires i < |part| && (at + i < |text| ==> text[at + i] != part[i])
    ensures !Occurs(text, part, at)
  {
    if at + |part| <= |text| {
      assert text[at..at + |part|][i] == text[at + i];
    }
  }

  lemma NoMarkerInLine(before: string, line: string, newline: string, after: string, marker: string, k: nat)
    requires marker != "" && Plain(marker) && Plain(line) && line != marker && IsNewline(newline)
    requires |before| <= k < |before| + |line| + |newline|
    ensures !MarkerLine(before + (line + newline + after), marker, k)
  {
    var rest := line + newline + after;
    var text := before + rest;
    var i := k - |before|;
    assert i > 0 ==> text[k - 1] == rest[i - 1] != '\n' || i == |line| + 1;
    if i == 0 {
      if |marker| > |line| {
        assert text[k + |line|] == rest[|line|] == newline[0];
        Differs(text, marker, k, |line|);
      } else if |marker| == |line| {
        assert text[k..k + |line|] == line;
      } else {
        assert text[k + |marker|] == rest[|marker|] == line[|marker|];
      }
    } else if i == |line| + 1 {
      assert text[k] == rest[i] == '\n';
      Differs(text, marker, k, 0);
    }
  }

  /** None of the lines is a line of the marker. */
  lemma {:induction false} NoMarkerInLines(
    before: string, lines: seq<string>, newline: string, after: string, marker: string, k: nat)
    requires marker != "" && Plain(marker) && IsNewline(newline)
    requires forall i :: 0 <= i < |lines| ==> Plain(lines[i]) && lines[i] != marker
    requires |before| <= k < |before| + |Lines(lines, newline)|
    ensures !MarkerLine(before + (Lines(lines, newline) + after), marker, k)
    decreases |lines|
  {
    var line, rest := lines[0], Lines(lines[1..], newline);
    assert Lines(lines, newline) + after == line + newline + (rest + after);
    if k < |before| + |line| + |newline| {
      NoMarkerInLine(before, line, newline, rest + after, marker, k);
    } else {
      assert before + (Lines(lines, newline) + after) == (before + (line + newline)) + (rest + after);
      NoMarkerInLines(before + (line + newline), lines[1..], newline, after, marker, k);
    }
  }

  /** A text without a marker line stays without one when what follows it starts a line, or ends its last. */
  lemma NoMarkerBefore(text: string, more: string, marker: string, k: nat)
    requires marker != "" && Plain(marker) && !MarkerLine(text, marker, k) && k < |text|
    requires AtLineStart(text) || more == "" || more[0] == '\n' || more[0] == '\r'
    ensures !MarkerLine(text + more, marker, k)
  {
    var all := text + more;
    if k + |marker| <= |text| {
      assert text[k..k + |marker|] == all[k..k + |marker|];
    } else if AtLineStart(text) {
      Differs(all, marker, k, |text| - 1 - k);
    } else {
      Differs(all, marker, k, |text| - k);
    }
  }

  /** A marker on a line of its own is a marker line. */
  lemma StandsAsALine(before: string, marker: string, newline: string, after: string)
    requires AtLineStart(before) && IsNewline(newline)
    ensures MarkerLine(before + (marker + newline + after), marker, |before|)
  {
    var rest := marker + newline + after;
    var text := before + rest;
    assert text[|before|..|before| + |marker|] == rest[..|marker|] == marker;
    assert text[|before| + |marker|] == rest[|marker|] == newline[0];
  }

  lemma {:induction false} LinesEndALine(lines: seq<string>, newline: string)
    requires IsNewline(newline)
    ensures AtLineStart(Lines(lines, newline))
    decreases |lines|
  {
    if lines != [] {
      LinesEndALine(lines[1..], newline);
    }
  }

  lemma PastTheLineEnding(before: string, newline: string, after: string)
    requires IsNewline(newline)
    ensures LineEnd(before + newline + after, |before|) == |before| + |newline|
  {
    var text := before + newline + after;
    assert text[|before|..|before| + |newline|] == newline;
    if newline == "\n" {
      Differs(text, "\r\n", |before|, 0);
    }
  }

  /** No marker line starts before the end. */
  predicate NoMarker(text: string, marker: string, end: nat) {
    forall k :: 0 <= k < end ==> !MarkerLine(text, marker, k)
  }

  /** A block is found where it stands, if no begin marker stands before it. */
  lemma FindsBlock(before: string, setup: Setup, newline: string, after: string)
    requires AtLineStart(before) && IsNewline(newline) && WellMarked(setup)
    requires NoMarker(before + Block(setup, newline) + after, setup.open, |before|)
    ensures FindBlock(before + Block(setup, newline) + after, setup)
      == Found(|before|, |before| + |Block(setup, newline)|)
  {
    var at := |before| + |setup.open| + |newline| + |Lines(setup.body, newline)|;
    FindsStart(before, setup, newline, after);
    FindsEnd(before, setup, newline, after, at);
    EndsPastIt(before, setup, newline, after, at);
    FoundAt(before + Block(setup, newline) + after, setup, |before|, at, |before| + |Block(setup, newline)|);
  }

  lemma FoundAt(text: string, setup: Setup, start: nat, endLine: nat, end: nat)
    requires FirstMarker(text, setup.open, 0) == start && FirstMarker(text, setup.close, start) == endLine
    requires LineEnd(text, endLine + |setup.close|) == end
    ensures FindBlock(text, setup) == Found(start, end)
  {
  }

  lemma FindsStart(before: string, setup: Setup, newline: string, after: string)
    requires AtLineStart(before) && IsNewline(newline)
    requires NoMarker(before + Block(setup, newline) + after, setup.open, |before|)
    ensures FirstMarker(before + Block(setup, newline) + after, setup.open, 0) == |before|
  {
    StandsAsALine(before, setup.open, newline, Lines(setup.body, newline) + (setup.close + newline + after));
    BlockParts(before, setup, newline, after);
    FirstMarkerIs(before + Block(setup, newline) + after, setup.open, 0, |before|);
  }

  lemma EndsPastIt(before: string, setup: Setup, newline: string, after: string, at: nat)
    requires IsNewline(newline) && at == |before| + |setup.open| + |newline| + |Lines(setup.body, newline)|
    ensures LineEnd(before + Block(setup, newline) + after, at + |setup.close|) == |before| + |Block(setup, newline)|
  {
    BlockParts(before, setup, newline, after);
    PastTheLineEnding(before + (setup.open + newline + Lines(setup.body, newline)) + setup.close, newline, after);
  }

  lemma BlockParts(before: string, setup: Setup, newline: string, after: string)
    ensures var open, close, lines := setup.open, setup.close, Lines(setup.body, newline);
      var text := before + Block(setup, newline) + after;
      && text == before + (open + newline + (lines + (close + newline + after)))
      && text == before + (open + newline + lines) + (close + newline + after)
      && text == (before + (open + newline + lines) + close) + newline + after
  {
  }

  lemma FindsEnd(before: string, setup: Setup, newline: string, after: string, at: nat)
    requires AtLineStart(before) && IsNewline(newline) && WellMarked(setup)
    requires at == |before| + |setup.open| + |newline| + |Lines(setup.body, newline)|
    ensures FirstMarker(before + Block(setup, newline) + after, setup.close, |before|) == at
  {
    var text := before + Block(setup, newline) + after;
    EndStands(before, setup, newline, after, at);
    forall k | |before| <= k < at ensures !MarkerLine(text, setup.close, k) {
      NoEndInside(before, setup, newline, after, k);
    }
    FirstMarkerIs(text, setup.close, |before|, at);
  }

  lemma EndStands(before: string, setup: Setup, newline: string, after: string, at: nat)
    requires AtLineStart(before) && IsNewline(newline) && WellMarked(setup)
    requires at == |before| + |setup.open| + |newline| + |Lines(setup.body, newline)|
    ensures MarkerLine(before + Block(setup, newline) + after, setup.close, at)
  {
    var lead := before + (setup.open + newline + Lines(setup.body, newline));
    LeadEndsALine(before, setup, newline);
    StandsAsALine(lead, setup.close, newline, after);
    BlockParts(before, setup, newline, after);
  }

  lemma LeadEndsALine(before: string, setup: Setup, newline: string)
    requires IsNewline(newline)
    ensures AtLineStart(before + (setup.open + newline + Lines(setup.body, newline)))
  {
    var lines := Lines(setup.body, newline);
    LinesEndALine(setup.body, newline);
    var lead := before + (setup.open + newline + lines);
    assert lead[|lead| - 1] == if |lines| > 0 then lines[|lines| - 1] else newline[|newline| - 1];
  }

  lemma NoEndInside(before: string, setup: Setup, newline: string, after: string, k: nat)
    requires IsNewline(newline) && WellMarked(setup)
    requires |before| <= k < |before| + |setup.open + newline| + |Lines(setup.body, newline)|
    ensures !MarkerLine(before + Block(setup, newline) + after, setup.close, k)
  {
    var text := before + Block(setup, newline) + after;
    var lines := Lines(setup.body, newline);
    var rest := setup.close + newline + after;
    if k < |before| + |setup.open + newline| {
      assert text == before + (setup.open + newline + (lines + rest));
      NoMarkerInLine(before, setup.open, newline, lines + rest, setup.close, k);
    } else {
      assert text == (before + (setup.open + newline)) + (lines + rest);
      NoMarkerInLines(before + (setup.open + newline), setup.body, newline, rest, setup.close, k);
    }
  }

  // ----- Line endings

  /** A carriage return stands here, before a newline. */
  predicate Pair(text: string, k: int) {
    0 <= k && k + 1 < |text| && text[k] == '\r' && text[k + 1] == '\n'
  }

  lemma PairsShow(text: string)
    ensures Contains(text, "\r\n") <==> exists k :: Pair(text, k)
  {
    forall k: nat | k <= |text| ensures Occurs(text, "\r\n", k) <==> Pair(text, k) {
      if k + 2 <= |text| {
        assert text[k..k + 2] == [text[k], text[k + 1]];
      }
    }
    if k :| Pair(text, k) {
      assert Occurs(text, "\r\n", k);
    }
  }

  predicate NoReturn(text: string) {
    forall i :: 0 <= i < |text| ==> text[i] != '\r'
  }

  lemma {:induction false} LinesHaveNoReturn(lines: seq<string>)
    requires forall i :: 0 <= i < |lines| ==> Plain(lines[i])
    ensures NoReturn(Lines(lines, "\n"))
    decreases |lines|
  {
    if lines != [] {
      LinesHaveNoReturn(lines[1..]);
    }
  }

  lemma BlockHasItsNewline(setup: Setup, newline: string, before: string, after: string)
    ensures Contains(before + Block(setup, newline) + after, newline)
  {
    var text := before + Block(setup, newline) + after;
    var k := |before| + |setup.open|;
    assert text[k..k + |newline|] == newline;
    assert Occurs(text, newline, k);
  }

  /**
   Appending keeps the file's line ending, unless a lone carriage return at its
   end comes to stand before a newline.
   */
  lemma NewlineAfterAppend(text: string, setup: Setup, default: string)
    requires IsNewline(default) && WellMarked(setup)
    ensures var newline := Newline(text, default);
      Newline(text + Gap(text, newline) + Block(setup, newline), default)
      == if newline == "\n" && EndsWith(text, "\r") then "\r\n" else newline
  {
    var newline := Newline(text, default);
    var gap, block := Gap(text, newline), Block(setup, newline);
    var all := text + gap + block;
    assert all == text + gap + block + "";
    BlockHasItsNewline(setup, newline, text + gap, "");
    if newline == "\n" {
      BlockHasNoReturn(setup);
      PairsShow(text);
      PairsShow(all);
      PairsAfterGap(text, gap, block);
    }
  }

  lemma BlockHasNoReturn(setup: Setup)
    requires WellMarked(setup)
    ensures NoReturn(Block(setup, "\n"))
  {
    LinesHaveNoReturn(setup.body);
  }

  lemma PairsAfterGap(text: string, gap: string, block: string)
    requires gap == Gap(text, "\n") && NoReturn(block) && block != "" && forall k :: !Pair(text, k)
    ensures (exists k :: Pair(text + gap + block, k)) <==> EndsWith(text, "\r")
  {
    assert text + gap + block == text + (gap + block);
    PairsAfterAppend(text, gap + block);
    assert EndsWith(text, "\r") ==> gap[0] == '\n';
  }

  lemma PairsAfterAppend(text: string, more: string)
    requires NoReturn(more) && more != "" && forall k :: !Pair(text, k)
    ensures (exists k :: Pair(text + more, k)) <==> EndsWith(text, "\r") && more[0] == '\n'
  {
    var all := text + more;
    assert EndsWith(text, "\r") <==> text != "" && text[|text| - 1] == '\r';
    forall k | Pair(all, k) ensures k == |text| - 1 {
      assert k + 1 < |text| ==> Pair(text, k);
    }
    if EndsWith(text, "\r") && more[0] == '\n' {
      assert Pair(all, |text| - 1);
    }
  }

  // ----- Installing, and then removing or installing again

  /** What comes between a text and the block appended to it. */
  function Gap(text: string, newline: string): string {
    if text == "" then "" else if EndsWith(text, "\n") then newline else newline + newline
  }

  lemma Appends(text: string, block: string, newline: string)
    ensures AppendBlock(text, block, newline) == text + Gap(text, newline) + block
  {
  }

  lemma FindsAppended(text: string, setup: Setup, newline: string)
    requires IsNewline(newline) && WellMarked(setup) && FirstMarker(text, setup.open, 0) == -1
    ensures FindBlock(text + Gap(text, newline) + Block(setup, newline), setup)
      == Found(|text + Gap(text, newline)|, |text + Gap(text, newline) + Block(setup, newline)|)
  {
    var before := text + Gap(text, newline);
    forall k | 0 <= k < |before| ensures !MarkerLine(before + Block(setup, newline), setup.open, k) {
      NoMarkerAppended(text, Gap(text, newline), Block(setup, newline), setup.open, k);
    }
    assert before + Block(setup, newline) + "" == before + Block(setup, newline);
    GapEndsALine(text, newline);
    FindsBlock(before, setup, newline, "");
  }

  lemma GapEndsALine(text: string, newline: string)
    requires IsNewline(newline)
    ensures AtLineStart(text + Gap(text, newline))
    ensures text != "" ==> Gap(text, newline) != ""
    ensures forall i :: 0 <= i < |Gap(text, newline)| ==> Gap(text, newline)[i] == '\n' || Gap(text, newline)[i] == '\r'
  {
  }

  lemma NoMarkerAppended(text: string, gap: string, block: string, marker: string, k: nat)
    requires marker != "" && Plain(marker) && FirstMarker(text, marker, 0) == -1
    requires text != "" ==> gap != ""
    requires forall i :: 0 <= i < |gap| ==> gap[i] == '\n' || gap[i] == '\r'
    requires k < |text| + |gap|
    ensures !MarkerLine(text + gap + block, marker, k)
  {
    Associates(text, gap, block);
    if k < |text| {
      NoMarkerBefore(text, gap + block, marker, k);
    } else {
      assert (text + gap + block)[k] == gap[k - |text|];
      Differs(text + gap + block, marker, k, 0);
    }
  }

  /** A text without a block, once one has been installed in it and removed again. */
  function RoundTrip(text: string, newline: string): string {
    if text == "" || EndsWith(text, newline) then text
    else if newline == "\n" && EndsWith(text, "\r") then text + "\n\n"
    else text + newline
  }

  lemma InstallsIntoNone(text: string, setup: Setup, default: string)
    requires FirstMarker(text, setup.open, 0) == -1
    ensures var newline := Newline(text, default);
      Installed(text, setup, default) == Edited(text + Gap(text, newline) + Block(setup, newline))
  {
    Appends(text, Block(setup, Newline(text, default)), Newline(text, default));
  }

  /** What removing and installing again do where a block is found. */
  lemma AtTheBlock(before: string, block: string, after: string, setup: Setup, default: string)
    requires FindBlock(before + block + after, setup) == Found(|before|, |before| + |block|)
    ensures var newline := Newline(before + block + after, default);
      && Removed(before + block + after, setup, default) == Edited(Before(before, newline) + after)
      && (Installed(before + block + after, setup, default) == Unchanged <==> block == Block(setup, newline))
  {
    var all := before + block + after;
    assert all[..|before|] == before;
    assert all[|before|..|before| + |block|] == block;
    assert all[|before| + |block|..] == after;
  }

  lemma AtTheTail(before: string, block: string, setup: Setup, default: string)
    requires FindBlock(before + block, setup) == Found(|before|, |before + block|)
    ensures var newline := Newline(before + block, default);
      && Removed(before + block, setup, default) == Edited(Before(before, newline))
      && (Installed(before + block, setup, default) == Unchanged <==> block == Block(setup, newline))
  {
    Tail(before, block);
    var newline := Newline(before + block, default);
    assert Before(before, newline) + "" == Before(before, newline);
  }

  lemma Tail(before: string, block: string)
    ensures (before + block)[..|before|] == before && (before + block)[|before|..|before + block|] == block
    ensures (before + block)[|before + block|..] == ""
  {
  }

  /**
   Removing what was installed gives the text back exactly when it was empty
   or ended in the file's own line ending.
   */
  lemma RemoveUndoesInstall(text: string, setup: Setup, default: string)
    requires IsNewline(default) && WellMarked(setup) && FirstMarker(text, setup.open, 0) == -1
    ensures Installed(text, setup, default).Edited?
    ensures Removed(Installed(text, setup, default).text, setup, default)
      == Edited(RoundTrip(text, Newline(text, default)))
    ensures RoundTrip(text, Newline(text, default)) == text <==> text == "" || EndsWith(text, Newline(text, default))
  {
    var newline := Newline(text, default);
    InstallsIntoNone(text, setup, default);
    FindsAppended(text, setup, newline);
    NewlineAfterAppend(text, setup, default);
    var before, block := text + Gap(text, newline), Block(setup, newline);
    AtTheTail(before, block, setup, default);
    RemovesGap(text, newline);
  }

  /** The blank line goes with the block when the line endings agree. */
  lemma RemovesGap(text: string, newline: string)
    requires IsNewline(newline)
    ensures Before(text + Gap(text, newline), if newline == "\n" && EndsWith(text, "\r") then "\r\n" else newline)
      == RoundTrip(text, newline)
  {
    Ends(text);
    if text == "" {
      ShortBefore(newline);
    } else if newline == "\n" {
      NewlineGap(text);
    } else {
      ReturnGap(text);
    }
  }

  lemma ShortBefore(newline: string)
    requires IsNewline(newline)
    ensures Before("" + Gap("", newline), newline) == ""
  {
  }

  lemma NewlineGap(text: string)
    requires text != ""
    ensures Before(text + Gap(text, "\n"), if EndsWith(text, "\r") then "\r\n" else "\n") == RoundTrip(text, "\n")
  {
    Ends(text);
    if EndsWith(text, "\n") {
      LosesBlankLine(text, "\n");
    } else if EndsWith(text, "\r") {
      KeepsBlankLines(text + "\n\n");
    } else {
      LosesBlankLine(text + "\n", "\n");
      assert text + "\n" + "\n" == text + ("\n" + "\n");
    }
  }

  lemma ReturnGap(text: string)
    requires text != ""
    ensures Before(text + Gap(text, "\r\n"), "\r\n") == RoundTrip(text, "\r\n")
  {
    Ends(text);
    if EndsWith(text, "\r\n") {
      LosesBlankLine(text, "\r\n");
    } else if EndsWith(text, "\n") {
      KeepsBlankLine(text);
    } else {
      LosesBlankLine(text + "\r\n", "\r\n");
      assert text + "\r\n" + "\r\n" == text + ("\r\n" + "\r\n");
    }
  }

  /** How a text ends, by its last units. */
  lemma Ends(text: string)
    ensures EndsWith(text, "\n") <==> |text| >= 1 && text[|text| - 1] == '\n'
    ensures EndsWith(text, "\r") <==> |text| >= 1 && text[|text| - 1] == '\r'
    ensures EndsWith(text, "\r\n") <==> |text| >= 2 && text[|text| - 2] == '\r' && text[|text| - 1] == '\n'
  {
    if |text| >= 1 { assert text[|text| - 1..] == [text[|text| - 1]]; }
    if |text| >= 2 { assert text[|text| - 2..] == [text[|text| - 2], text[|text| - 1]]; }
  }

  lemma LosesBlankLine(text: string, newline: string)
    requires IsNewline(newline) && EndsWith(text, newline)
    ensures Before(text + newline, newline) == text
  {
    var before := text + newline;
    assert before == text[..|text| - |newline|] + (newline + newline);
    assert before[|before| - |newline + newline|..] == newline + newline;
  }

  lemma KeepsBlankLines(before: string)
    requires |before| >= 2 && before[|before| - 2] == '\n'
    ensures Before(before, "\r\n") == before
  {
    if |before| >= 4 {
      assert before[|before| - 4..][2] == before[|before| - 2];
    }
  }

  lemma KeepsBlankLine(text: string)
    requires EndsWith(text, "\n") && !EndsWith(text, "\r\n")
    ensures Before(text + "\r\n", "\r\n") == text + "\r\n"
  {
    var before := text + "\r\n";
    Ends(text);
    if |text| >= 2 {
      assert before[|before| - 4..][0] == text[|text| - 2];
    }
  }

  /** A second install finds nothing to change, unless the first changed which line ending the file shows. */
  lemma SecondInstallChangesNothing(text: string, setup: Setup, default: string)
    requires IsNewline(default) && WellMarked(setup) && FirstMarker(text, setup.open, 0) == -1
    ensures Installed(text, setup, default).Edited?
    ensures Installed(Installed(text, setup, default).text, setup, default) == Unchanged
      <==> !(Newline(text, default) == "\n" && EndsWith(text, "\r"))
  {
    var newline := Newline(text, default);
    InstallsIntoNone(text, setup, default);
    FindsAppended(text, setup, newline);
    NewlineAfterAppend(text, setup, default);
    var before, block := text + Gap(text, newline), Block(setup, newline);
    AtTheTail(before, block, setup, default);
    NewlinesDiffer(setup);
  }

  lemma NewlinesDiffer(setup: Setup)
    ensures Block(setup, "\n") != Block(setup, "\r\n")
  {
    assert Block(setup, "\n")[|setup.open|] == '\n' && Block(setup, "\r\n")[|setup.open|] == '\r';
  }

  // ----- Replacing an outdated block

  /** A block starts a line, and ends in a later one. */
  lemma BlockSpansLines(text: string, setup: Setup)
    requires WellMarked(setup) && FindBlock(text, setup).Found?
    ensures AtLineStart(text[..FindBlock(text, setup).start]) && Contains(text, "\n")
  {
    var start := FindBlock(text, setup).start;
    var endLine := FirstMarker(text, setup.close, start);
    if endLine == start {
      OneMarkerALine(text, setup.open, setup.close, start);
    }
    assert text[endLine - 1..endLine] == "\n";
    assert Occurs(text, "\n", endLine - 1);
  }

  lemma OneMarkerALine(text: string, open: string, close: string, at: nat)
    requires Plain(open) && Plain(close) && MarkerLine(text, open, at) && MarkerLine(text, close, at)
    ensures open == close
  {
    assert forall i :: 0 <= i < |open| ==> text[at + i] == open[i];
    assert forall i :: 0 <= i < |close| ==> text[at + i] == close[i];
    assert !(|open| < |close|) && !(|close| < |open|);
  }

  lemma NewlineAfterReplace(text: string, setup: Setup, default: string)
    requires IsNewline(default) && WellMarked(setup) && FindBlock(text, setup).Found?
    ensures var found, newline := FindBlock(text, setup), Newline(text, default);
      Newline(text[..found.start] + Block(setup, newline) + text[found.end..], default) == newline
  {
    var found, newline := FindBlock(text, setup), Newline(text, default);
    BlockSpansLines(text, setup);
    BlockHasItsNewline(setup, newline, text[..found.start], text[found.end..]);
    if newline == "\n" {
      BlockHasNoReturn(setup);
      PairsShow(text);
      PairsAfterReplace(text, found.start, found.end, Block(setup, newline));
      PairsShow(text[..found.start] + Block(setup, newline) + text[found.end..]);
    }
  }

  lemma PairsAfterReplace(text: string, start: nat, end: nat, block: string)
    requires start <= end <= |text| && AtLineStart(text[..start]) && NoReturn(block)
    requires forall k :: !Pair(text, k)
    ensures forall k :: !Pair(text[..start] + block + text[end..], k)
  {
    var all := text[..start] + block + text[end..];
    forall k ensures !Pair(all, k) {
      var at := if k < start then k else k - start - |block| + end;
      assert !Pair(text, at);
      assert start > 0 ==> all[start - 1] == text[..start][start - 1];
    }
  }

  /**
   Replacing an outdated block puts the new one in its place: every unit
   before and after it stays, installing again changes nothing, and removing
   takes out what removing the old one would have.
   */
  lemma ReplaceTouchesTheBlockAlone(text: string, setup: Setup, default: string)
    requires IsNewline(default) && WellMarked(setup) && FindBlock(text, setup).Found?
    requires Installed(text, setup, default).Edited?
    ensures var found, edited := FindBlock(text, setup), Installed(text, setup, default).text;
      && edited[..found.start] == text[..found.start]
      && |edited| >= |text| - found.end && edited[|edited| - (|text| - found.end)..] == text[found.end..]
      && FindBlock(edited, setup) == Found(found.start, |edited| - (|text| - found.end))
      && Installed(edited, setup, default) == Unchanged
      && Removed(edited, setup, default) == Removed(text, setup, default)
  {
    var found, block := FindBlock(text, setup), Block(setup, Newline(text, default));
    ReplacedIs(text, setup, default);
    FindsReplaced(text, setup, Newline(text, default));
    NewlineAfterReplace(text, setup, default);
    AfterReplace(text, found.start, found.end, block, Installed(text, setup, default).text, setup, default);
  }

  lemma AfterReplace(
    text: string, start: nat, end: nat, block: string, edited: string, setup: Setup, default: string)
    requires start <= end <= |text| && edited == text[..start] + block + text[end..]
    requires FindBlock(edited, setup) == Found(start, start + |block|)
      && block == Block(setup, Newline(edited, default))
    ensures edited[..start] == text[..start]
    ensures |edited| >= |text| - end && edited[|edited| - (|text| - end)..] == text[end..]
    ensures FindBlock(edited, setup) == Found(start, |edited| - (|text| - end))
    ensures Installed(edited, setup, default) == Unchanged
    ensures Removed(edited, setup, default) == Edited(Before(text[..start], Newline(edited, default)) + text[end..])
  {
    Keeps(text[..start], block, text[end..], edited);
    AtTheBlock(text[..start], block, text[end..], setup, default);
  }

  lemma ReplacedIs(text: string, setup: Setup, default: string)
    requires FindBlock(text, setup).Found? && Installed(text, setup, default).Edited?
    ensures var found, newline := FindBlock(text, setup), Newline(text, default);
      && Installed(text, setup, default).text == text[..found.start] + Block(setup, newline) + text[found.end..]
      && Removed(text, setup, default) == Edited(Before(text[..found.start], newline) + text[found.end..])
  {
  }

  lemma Keeps(before: string, block: string, after: string, edited: string)
    requires edited == before + block + after
    ensures edited[..|before|] == before && edited[|edited| - |after|..] == after
    ensures |edited| - |after| == |before| + |block|
  {
  }

  lemma FindsReplaced(text: string, setup: Setup, newline: string)
    requires IsNewline(newline) && WellMarked(setup) && FindBlock(text, setup).Found?
    ensures var found, block := FindBlock(text, setup), Block(setup, newline);
      FindBlock(text[..found.start] + block + text[found.end..], setup) == Found(found.start, found.start + |block|)
  {
    var found := FindBlock(text, setup);
    var before, block, after := text[..found.start], Block(setup, newline), text[found.end..];
    BlockSpansLines(text, setup);
    NoMarkerReplaced(text, found.start, block, after, setup.open);
    FindsBlock(before, setup, newline, after);
  }

  lemma NoMarkerReplaced(text: string, start: nat, block: string, after: string, marker: string)
    requires start <= |text| && AtLineStart(text[..start]) && marker != "" && Plain(marker)
    requires NoMarker(text, marker, start)
    ensures NoMarker(text[..start] + block + after, marker, start)
  {
    var before := text[..start];
    assert before + block + after == before + (block + after);
    forall k | 0 <= k < start ensures !MarkerLine(before + (block + after), marker, k) {
      NoMarkerCut(text, start, marker, k);
      NoMarkerBefore(before, block + after, marker, k);
    }
  }

  /** Cutting a text at the start of a line makes no marker line. */
  lemma NoMarkerCut(text: string, start: nat, marker: string, k: nat)
    requires start <= |text| && AtLineStart(text[..start]) && marker != "" && Plain(marker)
    requires !MarkerLine(text, marker, k) && k < start
    ensures !MarkerLine(text[..start], marker, k)
  {
    if k + |marker| <= start {
      assert text[..start][k..k + |marker|] == text[k..k + |marker|];
      if k + |marker| == start {
        Differs(text[..start], marker, k, |marker| - 1);
      }
    }
  }
}
