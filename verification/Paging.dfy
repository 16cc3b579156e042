/**
 What a reader who asks for lines of a text is given (internal/fileview/text.go):
 the lines asked for, numbered, and by following `next` all the lines there are.
 */
module Paging {
  import opened Bytes
  import opened Windows
  import Decimal

  /** The line a request starts at, and the most lines it is given. */
  function First(startLine: nat): nat { if startLine == 0 then 1 else startLine }

  function Most(lineCount: nat): nat {
    if lineCount == 0 then 500 else if lineCount > 2000 then 2000 else lineCount
  }

  // ----- Numbered lines

  /** A line's number, in at least six columns, and a tab. */
  ghost predicate Numbers(prefix: Text, number: nat) {
    exists blanks: nat :: NumbersAfter(prefix, blanks, number)
  }

  ghost predicate NumbersAfter(prefix: Text, blanks: nat, number: nat) {
    && blanks + 1 < |prefix| && prefix[|prefix| - 1] == TAB && |prefix| >= 7 && (blanks > 0 ==> |prefix| == 7)
    && (forall i :: 0 <= i < blanks ==> prefix[i] == SPACE)
    && var digits := prefix[blanks..|prefix| - 1];
    && (forall i :: 0 <= i < |digits| ==> Decimal.Digit(digits[i])) && Decimal.Value(digits) == number
  }

  lemma {:induction false} BlanksAreSpaces(n: nat)
    ensures forall i :: 0 <= i < n ==> Blanks(n)[i] == SPACE
  {
    if n > 0 {
      BlanksAreSpaces(n - 1);
    }
  }

  lemma PrefixNumbers(number: nat)
    ensures Numbers(Prefix(number), number)
  {
    var digits, prefix := Decimal.Digits(number), Prefix(number);
    var blanks := if |digits| < 6 then 6 - |digits| else 0;
    Decimal.ValueOfDigits(number);
    BlanksAreSpaces(blanks);
    assert prefix[blanks..|prefix| - 1] == digits;
    assert NumbersAfter(prefix, blanks, number);
  }

  /** What is shown of a line is all of it but its line ending. */
  lemma ShownIsBody(body: Text)
    ensures Shown(body + [RETURN, NEWLINE]) == body
    ensures body == [] || body[|body| - 1] != RETURN ==> Shown(body + [NEWLINE]) == body
    ensures body == [] || body[|body| - 1] !in {RETURN, NEWLINE} ==> Shown(body) == body
  {
    var ended := body + [RETURN, NEWLINE];
    assert ended[..|ended| - 1] == body + [RETURN];
  }

  /** The view of some of the lines: each after its number, and ended by a newline. */
  ghost function Numbered(lines: seq<Text>, from: nat, end: nat): Text
    requires from <= end <= |lines|
  {
    if from == end then [] else Numbered(lines, from, end - 1) + Prefix(end) + Shown(lines[end - 1]) + [NEWLINE]
  }

  /** The line does not fit a window with its number. */
  predicate TooLong(number: nat, line: Text) { |Prefix(number)| + |Shown(line)| + 1 > 32768 }

  lemma WholeRows(lines: seq<Text>, from: nat, end: nat)
    requires from <= end <= |lines| <= Decimal.MAX_INT
    requires forall k :: from <= k < end ==> Rows(lines)[k].Whole?
    ensures Views(Rows(lines), from, end) == Numbered(lines, from, end)
    ensures Contents(Rows(lines), from, end) == Span(lines, from, end)
  {
    if from < end {
      WholeRows(lines, from, end - 1);
      RowAt(lines, end);
    }
  }

  // ----- One request

  /** What a window is when its first line is longer than a window: a beginning of that line. */
  ghost predicate HoldsBeginning(w: Window, lines: seq<Text>, first: nat)
    requires 1 <= first <= |lines|
  {
    && w.end == first && !w.full && w.content < Shown(lines[first - 1])
    && w.view == Prefix(first) + w.content + [NEWLINE]
    && w.shown == |w.content| && w.length == |Shown(lines[first - 1])|
  }

  /** What it is otherwise: whole lines, as many as were asked for unless the text ends or the next one does not fit. */
  ghost predicate HoldsLines(w: Window, lines: seq<Text>, first: nat, most: nat)
    requires 1 <= first <= |lines|
  {
    && first <= w.end <= |lines| && w.end - first + 1 <= most
    && w.content == Span(lines, first - 1, w.end) && w.view == Numbered(lines, first - 1, w.end)
    && w.shown == 0 && w.length == 0
    && (w.full <==> w.end < |lines| && w.end - first + 1 < most)
    && (w.full ==> |w.view| + |Prefix(w.end + 1)| + |Shown(lines[w.end])| + 1 > 32768)
  }

  /**
   What is cut for every text, start and count: an error exactly when the start is
   past the last line, and otherwise a window that starts at the line asked for.
   */
  lemma CutExactly(text: Text, startLine: nat, lineCount: nat)
    requires |text| <= Decimal.MAX_INT
    ensures var lines, first := Lines(text), First(startLine);
      var cut := Cut(text, startLine, lineCount);
      if text == [] && first == 1 then cut == Held(Window(1, 0, 0, 0, [], [], 0, 0, false))
      else if first > |lines| then cut == PastEnd(|lines|)
      else
        && cut.Held? && cut.window.start == first && cut.window.total == |lines| && |cut.window.view| <= 32768
        && cut.window.next == (if cut.window.end < |lines| then cut.window.end + 1 else 0)
        && if TooLong(first, lines[first - 1]) then HoldsBeginning(cut.window, lines, first)
           else HoldsLines(cut.window, lines, first, Most(lineCount))
  {
    var lines, first := Lines(text), First(startLine);
    assert Counted(lineCount) == Most(lineCount);
    if 1 <= first <= |lines| {
      WindowIsBounded(lines, first, Most(lineCount));
      WindowExactly(lines, first, Most(lineCount));
    }
  }

  lemma WindowExactly(lines: seq<Text>, first: nat, most: nat)
    requires 1 <= first <= |lines| <= Decimal.MAX_INT && most > 0
    ensures var w := WindowAt(Rows(lines), first, most);
      if TooLong(first, lines[first - 1]) then HoldsBeginning(w, lines, first) else HoldsLines(w, lines, first, most)
  {
    RowAt(lines, first);
    if TooLong(first, lines[first - 1]) {
      WindowIsBounded(lines, first, most);
    } else {
      WindowIsBounded(lines, first, most);
      WholeWindow(lines, Rows(lines), first, most, WindowAt(Rows(lines), first, most));
    }
  }

  lemma WholeWindow(lines: seq<Text>, rows: seq<Row>, first: nat, most: nat, w: Window)
    requires 1 <= first <= w.end <= |lines| == |rows| && |lines| <= Decimal.MAX_INT && rows == Rows(lines)
    requires w.end - first + 1 <= most && w.shown == 0 && w.length == 0
    requires w.view == Views(rows, first - 1, w.end) && w.content == Contents(rows, first - 1, w.end)
    requires forall k :: first - 1 <= k < w.end ==> rows[k].Whole?
    requires w.full <==> w.end < |lines| && w.end - first + 1 < most
    requires w.full ==> rows[w.end].Part? || |w.view| + |rows[w.end].view| > 32768
    ensures HoldsLines(w, lines, first, most)
  {
    WholeRows(lines, first - 1, w.end);
    if w.full {
      NextDoesNotFit(lines, rows, w);
    }
  }

  lemma NextDoesNotFit(lines: seq<Text>, rows: seq<Row>, w: Window)
    requires |lines| == |rows| && |lines| <= Decimal.MAX_INT && rows == Rows(lines) && 0 <= w.end < |lines|
    requires rows[w.end].Part? || |w.view| + |rows[w.end].view| > 32768
    ensures |w.view| + |Prefix(w.end + 1)| + |Shown(lines[w.end])| + 1 > 32768
  {
    RowAt(lines, w.end + 1);
    NextRow(w.end + 1, lines[w.end], |w.view|);
  }

  /** A row that is longer than a window on its own does not fit behind another. */
  lemma NextRow(number: nat, line: Text, used: nat)
    requires number <= Decimal.MAX_INT
    ensures RowOf(number, line).Part? || used + |RowOf(number, line).view| > 32768 ==>
      used + |Prefix(number)| + |Shown(line)| + 1 > 32768
  {
  }

  // ----- Following `next`

  /** The windows read from a line on by asking for `next` for as long as there is one. */
  function Reading(text: Text, startLine: nat, lineCount: nat): seq<Window>
    requires |text| <= Decimal.MAX_INT
    decreases |text| - startLine
  {
    match Cut(text, startLine, lineCount)
    case PastEnd(_) => []
    case Held(w) =>
      [w] + if startLine < w.next <= |text| then Reading(text, w.next, lineCount) else []
  }

  lemma {:induction false} ReadingIsPages(text: Text, start: nat, lineCount: nat)
    requires 1 <= start <= |Lines(text)| && |text| <= Decimal.MAX_INT
    ensures Reading(text, start, lineCount) == Pages(Rows(Lines(text)), start, Counted(lineCount))
    decreases |Lines(text)| - start
  {
    var w := WindowAt(Rows(Lines(text)), start, Counted(lineCount));
    WindowIsBounded(Lines(text), start, Counted(lineCount));
    if w.next != 0 {
      ReadingIsPages(text, w.next, lineCount);
    }
  }

  /** Every line from one on once and in order, and the text from there on, unless one of its lines is too long. */
  ghost predicate Tells(pages: seq<Window>, lines: seq<Text>, start: nat)
    requires 1 <= start <= |lines|
  {
    && EachOnce(pages, start, |lines|)
    && (Joined(pages) == Span(lines, start - 1, |lines|) <==> NoneTooLong(lines, start - 1))
  }

  /**
   Whoever reads a text from a line on by asking for `next` is given every line from
   there to the last once and in order, and the text from there on exactly,
   unless one of its lines is longer than a window.
   */
  lemma ReadingIsTheText(text: Text, start: nat, lineCount: nat)
    requires 1 <= start <= |Lines(text)| && |text| <= Decimal.MAX_INT
    ensures Tells(Reading(text, start, lineCount), Lines(text), start)
  {
    ReadingIsPages(text, start, lineCount);
    PagesTell(Lines(text), start, Counted(lineCount), Reading(text, start, lineCount));
  }

  lemma PagesTell(lines: seq<Text>, start: nat, count: nat, pages: seq<Window>)
    requires 1 <= start <= |lines| <= Decimal.MAX_INT && count > 0 && pages == Pages(Rows(lines), start, count)
    ensures Tells(pages, lines, start)
  {
    PagesTile(lines, start, count);
    TileHolds(pages, Rows(lines), start - 1);
    RowsAreWhole(lines, start - 1);
  }

  ghost predicate NoneTooLong(lines: seq<Text>, from: nat) {
    forall k :: from <= k < |lines| ==> !TooLong(k + 1, lines[k])
  }

  lemma RowsAreWhole(lines: seq<Text>, from: nat)
    requires from <= |lines| <= Decimal.MAX_INT
    ensures Contents(Rows(lines), from, |lines|) == Span(lines, from, |lines|) <==> NoneTooLong(lines, from)
  {
    RowsGive(lines);
    ContentsAreTheLines(Rows(lines), lines, from, |lines|);
    forall k | from <= k < |lines| ensures Rows(lines)[k].Part? <==> TooLong(k + 1, lines[k]) {
      RowAt(lines, k + 1);
    }
  }
}
