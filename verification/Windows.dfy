/**
 Paging a text in windows of numbered lines (internal/fileview/text.go): the
 windows bound what one read returns, and together give the whole text.
 */
module Windows {
  import opened Bytes
  import Decimal
  import Utf8

  const DEFAULT_LINE_COUNT := 500
  const MAX_LINE_COUNT := 2000
  const WINDOW_BYTES := 0x8000

  // ----- Lines

  /** Where the line ends that a place in the text is in, past its newline. */
  function LineEnd(text: Text, from: nat): (end: nat)
    requires from <= |text|
    ensures from <= end <= |text| && (from < |text| ==> from < end)
    decreases |text| - from
  {
    if from == |text| then from else if text[from] == NEWLINE then from + 1 else LineEnd(text, from + 1)
  }

  lemma {:induction false} LineEnds(text: Text, from: nat)
    requires from <= |text|
    ensures var end := LineEnd(text, from);
      && (forall k :: from <= k < end - 1 ==> text[k] != NEWLINE)
      && (end == |text| || text[end - 1] == NEWLINE)
    decreases |text| - from
  {
    if from < |text| && text[from] != NEWLINE {
      LineEnds(text, from + 1);
    }
  }

  /** The length of the first line, its newline included. */
  function FirstLine(text: Text): (n: nat)
    ensures n <= |text| && (text != [] ==> n > 0)
  {
    LineEnd(text, 0)
  }

  /** The lines of a text: each ends at a newline, and what follows the last newline is a line of its own. */
  function Lines(text: Text): (lines: seq<Text>)
    ensures |lines| <= |text|
    decreases |text|
  {
    if text == [] then [] else [text[..FirstLine(text)]] + Lines(text[FirstLine(text)..])
  }

  /** The parts from one place up to another, one after another. */
  function Span(parts: seq<Text>, from: nat, end: nat): Text
    requires from <= end <= |parts|
  {
    if from == end then [] else Span(parts, from, end - 1) + parts[end - 1]
  }

  lemma {:induction false} SpanShift(first: Text, parts: seq<Text>, end: nat)
    requires end <= |parts|
    ensures Span([first] + parts, 0, end + 1) == first + Span(parts, 0, end)
  {
    var all := [first] + parts;
    if end == 0 {
      assert Span(all, 0, 0) == [];
      assert Span(all, 0, 1) == Span(all, 0, 0) + all[0];
    } else {
      SpanShift(first, parts, end - 1);
      assert all[end] == parts[end - 1];
    }
  }

  /** The lines of a text, one after another, are the text. */
  lemma {:induction false} LinesAreTheText(text: Text)
    ensures Span(Lines(text), 0, |Lines(text)|) == text
    decreases |text|
  {
    if text != [] {
      var n := FirstLine(text);
      LinesAreTheText(text[n..]);
      SpanShift(text[..n], Lines(text[n..]), |Lines(text[n..])|);
    }
  }

  /** A line as the numbered view shows it: without its line ending. */
  function Shown(raw: Text): Text {
    TrimSuffix(TrimSuffix(raw, NEWLINE), RETURN)
  }

  function TrimSuffix(text: Text, end: byte): Text {
    if text != [] && text[|text| - 1] == end then text[..|text| - 1] else text
  }

  function Blanks(n: nat): (blanks: Text)
    ensures |blanks| == n
  {
    if n == 0 then [] else [SPACE] + Blanks(n - 1)
  }

  /** A line's number in six columns, and a tab. */
  function Prefix(number: nat): Text {
    var digits := Decimal.Digits(number);
    (if |digits| < 6 then Blanks(6 - |digits|) else []) + digits + [TAB]
  }

  /** The last place at or before `limit` where a character begins, or the start of the text. */
  function Boundary(text: Text, limit: nat): (n: nat)
    requires limit < |text|
    ensures n <= limit && (n == 0 || Utf8.Starts(text[n]))
    ensures forall j :: n < j <= limit ==> !Utf8.Starts(text[j])
  {
    if limit == 0 || Utf8.Starts(text[limit]) then limit else Boundary(text, limit - 1)
  }

  /** The number of a line of a text that fits in memory is short. */
  lemma PrefixIsShort(number: nat)
    requires number <= Decimal.MAX_INT
    ensures 7 <= |Prefix(number)| <= 20
  {
    assert Decimal.Power(19) == 10_000_000_000_000_000_000 by { PowerNineteen(); }
    Decimal.DigitsFit(number, 19);
  }

  lemma PowerNineteen()
    ensures Decimal.Power(19) == 10_000_000_000_000_000_000
  {
    assert Decimal.Power(7) == 10_000_000;
    assert Decimal.Power(13) == 10_000_000_000_000;
  }

  /**
   What a window gives of a line: its numbered view and its content, and for
   a line longer than a window on its own, as much of both as fits.
   */
  datatype Row =
    | Whole(view: Text, content: Text)
    | Part(view: Text, content: Text, shown: nat, length: nat)

  predicate Overlong(number: nat, raw: Text) {
    |Prefix(number)| + |Shown(raw)| + 1 > WINDOW_BYTES
  }

  /** How much is shown of an over-long line. */
  function Fits(number: nat, raw: Text): (n: nat)
    requires Overlong(number, raw) && |Prefix(number)| < WINDOW_BYTES
    ensures n < |Shown(raw)|
  {
    Boundary(Shown(raw), WINDOW_BYTES - |Prefix(number)| - 1)
  }

  function RowOf(number: nat, raw: Text): (row: Row)
    requires number <= Decimal.MAX_INT
    ensures 0 < |row.view| <= WINDOW_BYTES
    ensures row.Part? ==> |row.content| < |raw|
  {
    PrefixIsShort(number);
    var prefix, shown := Prefix(number), Shown(raw);
    if Overlong(number, raw) then
      var fits := Fits(number, raw);
      Part(prefix + shown[..fits] + [NEWLINE], shown[..fits], fits, |shown|)
    else
      Whole(prefix + shown + [NEWLINE], raw)
  }

  function Rows(lines: seq<Text>): (rows: seq<Row>)
    requires |lines| <= Decimal.MAX_INT
    ensures |rows| == |lines|
  {
    if lines == [] then [] else Rows(lines[..|lines| - 1]) + [RowOf(|lines|, lines[|lines| - 1])]
  }

  lemma {:induction false} RowAt(lines: seq<Text>, number: nat)
    requires 1 <= number <= |lines| <= Decimal.MAX_INT
    ensures Rows(lines)[number - 1] == RowOf(number, lines[number - 1])
    decreases |lines|
  {
    if number < |lines| {
      RowAt(lines[..|lines| - 1], number);
    }
  }

  // ----- Windows

  datatype Window = Window(
    start: nat, end: int, total: nat, next: nat,
    view: Text, content: Text,
    shown: nat, length: nat, full: bool)

  datatype Result = Held(window: Window) | PastEnd(total: nat)

  function Views(rows: seq<Row>, from: nat, end: nat): Text
    requires from <= end <= |rows|
  {
    if from == end then [] else Views(rows, from, end - 1) + rows[end - 1].view
  }

  function Contents(rows: seq<Row>, from: nat, end: nat): Text
    requires from <= end <= |rows|
  {
    if from == end then [] else Contents(rows, from, end - 1) + rows[end - 1].content
  }

  /**
   Where a window ends that starts at row `from` and has taken the rows up to
   `at`, `used` bytes of them: at the last row, at the window's line count,
   or where the next row does not fit.
   */
  function Taking(rows: seq<Row>, from: nat, count: nat, at: nat, used: nat): (stop: nat)
    requires from <= at <= |rows|
    ensures at <= stop <= |rows|
    decreases |rows| - at
  {
    if at == |rows| || at - from >= count || rows[at].Part? || used + |rows[at].view| > WINDOW_BYTES then at
    else Taking(rows, from, count, at + 1, used + |rows[at].view|)
  }

  function Counted(lineCount: nat): (count: nat)
    ensures 1 <= count <= MAX_LINE_COUNT
  {
    if lineCount == 0 then DEFAULT_LINE_COUNT else if lineCount < MAX_LINE_COUNT then lineCount else MAX_LINE_COUNT
  }

  /** The window cut out of a text from a line on. */
  function Cut(text: Text, startLine: nat, lineCount: nat): Result
    requires |text| <= Decimal.MAX_INT
  {
    var rows, start, count := Rows(Lines(text)), if startLine == 0 then 1 else startLine, Counted(lineCount);
    var total := |rows|;
    if start > total && (total > 0 || start > 1) then PastEnd(total)
    else if start > total then Held(Window(start, 0, total, 0, [], [], 0, 0, false))
    else Held(WindowAt(rows, start, count))
  }

  function WindowAt(rows: seq<Row>, start: nat, count: nat): Window
    requires 1 <= start <= |rows| && count > 0
  {
    var total := |rows|;
    match rows[start - 1]
    case Part(view, content, shown, length) =>
      Window(start, start, total, if start < total then start + 1 else 0, view, content, shown, length, false)
    case Whole(_, _) =>
      var end := Taking(rows, start - 1, count, start - 1, 0);
      Window(start, end, total, if end < total then end + 1 else 0,
             Views(rows, start - 1, end), Contents(rows, start - 1, end), 0, 0,
             end < total && end - start + 1 < count)
  }

  // ----- The loops that cut it

  function Newlines(text: Text): nat {
    if text == [] then 0 else (if text[0] == NEWLINE then 1 else 0) + Newlines(text[1..])
  }

  /** Counts lines as wc -l does, and a last line with no newline after it. */
  function CountLines(text: Text): nat {
    if text == [] then 0 else Newlines(text) + (if text[|text| - 1] == NEWLINE then 0 else 1)
  }

  lemma {:induction false} NewlinesConcat(a: Text, b: Text)
    ensures Newlines(a + b) == Newlines(a) + Newlines(b)
  {
    if a == [] {
      assert a + b == b;
    } else {
      NewlinesConcat(a[1..], b);
      assert a + b == [a[0]] + (a[1..] + b);
    }
  }

  lemma {:induction false} NoNewlines(text: Text)
    requires NEWLINE !in text
    ensures Newlines(text) == 0
  {
    if text != [] {
      NoNewlines(text[1..]);
    }
  }

  /** The first line holds the only newline in it at its end; with no newline, it is all there is. */
  lemma FirstLineEnds(text: Text)
    requires text != []
    ensures var n := FirstLine(text);
      && (NEWLINE in text <==> text[n - 1] == NEWLINE)
      && (NEWLINE !in text ==> n == |text|)
      && Newlines(text[..n]) == if NEWLINE in text then 1 else 0
  {
    var n := FirstLine(text);
    LineEnds(text, 0);
    var init, last := text[..n - 1], [text[n - 1]];
    NoNewlines(init);
    NewlinesConcat(init, last);
    assert init + last == text[..n] && last[1..] == [];
    assert Newlines(last) == if text[n - 1] == NEWLINE then 1 else 0;
  }

  lemma {:induction false} CountLinesCounts(text: Text)
    ensures CountLines(text) == |Lines(text)|
    decreases |text|
  {
    if text != [] {
      var first, rest := text[..FirstLine(text)], text[FirstLine(text)..];
      FirstLineCounts(text, first, rest);
      CountLinesCounts(rest);
      CountsOneMore(first, rest);
    }
  }

  lemma FirstLineCounts(text: Text, first: Text, rest: Text)
    requires text != [] && first == text[..FirstLine(text)] && rest == text[FirstLine(text)..]
    ensures text == first + rest && first != []
    ensures Newlines(first) == if first[|first| - 1] == NEWLINE then 1 else 0
    ensures rest == [] || first[|first| - 1] == NEWLINE
  {
    FirstLineEnds(text);
  }

  lemma CountsOneMore(first: Text, rest: Text)
    requires first != [] && Newlines(first) == if first[|first| - 1] == NEWLINE then 1 else 0
    requires rest == [] || first[|first| - 1] == NEWLINE
    ensures CountLines(first + rest) == 1 + CountLines(rest)
  {
    NewlinesConcat(first, rest);
    var last := (first + rest)[|first + rest| - 1];
    assert last == if rest == [] then first[|first| - 1] else rest[|rest| - 1];
  }

  /** One line: nothing after a newline in it, and one at its end when more lines follow. */
  predicate IsLine(raw: Text, ended: bool) {
    raw != [] && FirstLine(raw) == |raw| && (ended ==> raw[|raw| - 1] == NEWLINE)
  }

  predicate AreLines(lines: seq<Text>) {
    forall k :: 0 <= k < |lines| ==> IsLine(lines[k], k + 1 < |lines|)
  }

  lemma {:induction false} LinesAreLines(text: Text)
    ensures AreLines(Lines(text))
    decreases |text|
  {
    if text != [] {
      var first, rest := text[..FirstLine(text)], text[FirstLine(text)..];
      LinesAreLines(rest);
      FirstLineCounts(text, first, rest);
      FirstOfFirst(text);
      forall k | 0 <= k < |Lines(text)| ensures IsLine(Lines(text)[k], k + 1 < |Lines(text)|) {
        assert k > 0 ==> Lines(text)[k] == Lines(rest)[k - 1] && IsLine(Lines(rest)[k - 1], k < |Lines(rest)|);
      }
    }
  }

  lemma FirstOfFirst(text: Text)
    requires text != []
    ensures FirstLine(text[..FirstLine(text)]) == FirstLine(text)
  {
    LineEnds(text, 0);
    LineEnds(text[..FirstLine(text)], 0);
  }

  /** A line and what follows it have it for their first line. */
  lemma FirstOfMore(raw: Text, more: Text)
    requires raw != [] && FirstLine(raw) == |raw| && (more == [] || raw[|raw| - 1] == NEWLINE)
    ensures FirstLine(raw + more) == |raw|
  {
    LineEnds(raw, 0);
    LineEnds(raw + more, 0);
    assert (raw + more)[|raw| - 1] == raw[|raw| - 1];
  }

  /** What is left of a text from one of its lines on. */
  predicate Left(rest: Text, lines: seq<Text>, line: nat) {
    line <= |lines| && rest == Span(lines, line, |lines|)
  }

  lemma {:induction false} SpanFirst(parts: seq<Text>, from: nat, end: nat)
    requires from < end <= |parts|
    ensures Span(parts, from, end) == parts[from] + Span(parts, from + 1, end)
    decreases end
  {
    if from + 1 < end {
      SpanFirst(parts, from, end - 1);
    } else {
      assert Span(parts, from, from) == [] && Span(parts, from + 1, end) == [];
    }
  }

  lemma NextLine(rest: Text, lines: seq<Text>, line: nat)
    requires AreLines(lines) && Left(rest, lines, line) && line < |lines|
    ensures rest != [] && rest[..FirstLine(rest)] == lines[line]
    ensures Left(rest[FirstLine(rest)..], lines, line + 1)
  {
    var raw, more := lines[line], Span(lines, line + 1, |lines|);
    SpanFirst(lines, line, |lines|);
    assert IsLine(raw, line + 1 < |lines|);
    FirstOfMore(raw, more);
    assert (raw + more)[..|raw|] == raw && (raw + more)[|raw|..] == more;
  }

  /** What has no newline in it is at most one line. */
  lemma LastLine(rest: Text, lines: seq<Text>, line: nat)
    requires AreLines(lines) && Left(rest, lines, line) && NEWLINE !in rest
    ensures |lines| <= line + 1
  {
    if line < |lines| {
      var raw := lines[line];
      SpanFirst(lines, line, |lines|);
      assert IsLine(raw, line + 1 < |lines|);
      assert raw[|raw| - 1] in rest;
    }
  }

  function Min(a: int, b: int): int { if a < b then a else b }

  /** Where a line starts in a text, counting from 1; past the last line it is the text's end. */
  method LineOffset(text: Text, line: nat) returns (offset: nat)
    requires line > 0
    ensures offset <= |text|
    ensures Left(text[offset..], Lines(text), Min(line - 1, |Lines(text)|))
  {
    offset := 0;
    ghost var lines := Lines(text);
    LinesAreLines(text);
    LinesAreTheText(text);
    assert text[0..] == text;
    for passed := 0 to line - 1
      invariant offset <= |text| && Left(text[offset..], lines, passed)
    {
      var rest := text[offset..];
      if NEWLINE !in rest {
        LastLine(rest, lines, passed);
        assert text[|text|..] == [];
        return |text|;
      }
      NextLine(rest, lines, passed);
      var next := offset + FirstLine(rest);
      assert rest[FirstLine(rest)..] == text[next..];
      offset := next;
    }
  }

  /** As much of an over-long line as fits, cut where a character begins. */
  method CutLine(shown: Text, limit: nat) returns (fits: nat)
    requires limit < |shown|
    ensures fits == Boundary(shown, limit)
  {
    fits := limit;
    while fits > 0 && !Utf8.Starts(shown[fits])
      invariant fits < |shown| && Boundary(shown, fits) == Boundary(shown, limit)
    {
      fits := fits - 1;
    }
  }

  /** A window started at row `from` may take the rows up to `at`, which give this view and content. */
  predicate Taken(rows: seq<Row>, from: nat, count: nat, at: nat, view: Text, content: Text)
    decreases at
  {
    && from <= at <= |rows| && at - from <= count && |view| <= WINDOW_BYTES
    && if at == from then view == [] && content == []
       else
         var row := rows[at - 1];
         && row.Whole? && |row.view| <= |view| && |row.content| <= |content|
         && var before, kept := view[..|view| - |row.view|], content[..|content| - |row.content|];
         && view == before + row.view && content == kept + row.content
         && Taken(rows, from, count, at - 1, before, kept)
  }

  lemma TakesOneMore(rows: seq<Row>, from: nat, count: nat, at: nat, view: Text, content: Text)
    requires Taken(rows, from, count, at, view, content) && at < |rows| && at - from < count
    requires rows[at].Whole? && |view| + |rows[at].view| <= WINDOW_BYTES
    ensures Taken(rows, from, count, at + 1, view + rows[at].view, content + rows[at].content)
  {
    var moreView, moreContent := view + rows[at].view, content + rows[at].content;
    assert moreView[..|view|] == view && moreContent[..|content|] == content;
  }

  /** Rows that may be taken are, and give what they give one after another. */
  lemma {:induction false} TakingReaches(rows: seq<Row>, from: nat, count: nat, at: nat, view: Text, content: Text)
    requires Taken(rows, from, count, at, view, content)
    ensures view == Views(rows, from, at) && content == Contents(rows, from, at)
    ensures at > from ==> rows[from].Whole?
    ensures Taking(rows, from, count, from, 0) == Taking(rows, from, count, at, |view|)
    decreases at
  {
    if at > from {
      var row := rows[at - 1];
      TakingReaches(rows, from, count, at - 1, view[..|view| - |row.view|], content[..|content| - |row.content|]);
    }
  }

  lemma TakesNoMore(rows: seq<Row>, start: nat, count: nat, number: nat, view: Text, content: Text)
    requires 1 <= start <= |rows| && count > 0 && number > start
    requires Taken(rows, start - 1, count, number - 1, view, content)
    requires number > |rows| || number - start >= count
      || rows[number - 1].Part? || |view| + |rows[number - 1].view| > WINDOW_BYTES
    ensures WindowAt(rows, start, count)
         == Window(start, number - 1, |rows|, if number <= |rows| then number else 0, view, content, 0, 0,
                   number <= |rows| && number - start < count)
  {
    TakingReaches(rows, start - 1, count, number - 1, view, content);
  }

  /** The row of a line, as the window meets it. */
  lemma RowCost(lines: seq<Text>, number: nat, raw: Text)
    requires 1 <= number <= |lines| <= Decimal.MAX_INT && raw == lines[number - 1]
    ensures |Prefix(number)| < WINDOW_BYTES
    ensures Rows(lines)[number - 1]
      == if Overlong(number, raw)
         then var fits := Fits(number, raw);
              Part(Prefix(number) + Shown(raw)[..fits] + [NEWLINE], Shown(raw)[..fits], fits, |Shown(raw)|)
         else Whole(Prefix(number) + Shown(raw) + [NEWLINE], raw)
    ensures !Overlong(number, raw) ==> |Rows(lines)[number - 1].view| == |Prefix(number)| + |Shown(raw)| + 1
  {
    PrefixIsShort(number);
    RowAt(lines, number);
  }

  /** The window of one line longer than a window: as much of it as fits. */
  method CutFirst(raw: Text, number: nat, total: nat, ghost lines: seq<Text>, ghost count: nat) returns (window: Window)
    requires 1 <= number <= total == |lines| <= Decimal.MAX_INT && count > 0
    requires raw == lines[number - 1] && Rows(lines)[number - 1].Part?
    ensures window == WindowAt(Rows(lines), number, count)
  {
    RowCost(lines, number, raw);
    var shown, prefix := Shown(raw), Prefix(number);
    var fits := CutLine(shown, WINDOW_BYTES - |prefix| - 1);
    return Window(number, number, total, if number < total then number + 1 else 0,
                  prefix + shown[..fits] + [NEWLINE], shown[..fits], fits, |shown|, false);
  }

  /** A line as the numbered view has it, whether it fits or not. */
  method NumberLine(number: nat, raw: Text, ghost lines: seq<Text>) returns (line: Text)
    requires 1 <= number <= |lines| <= Decimal.MAX_INT && raw == lines[number - 1]
    ensures Rows(lines)[number - 1].Part? <==> |line| > WINDOW_BYTES
    ensures |line| <= WINDOW_BYTES ==> Rows(lines)[number - 1] == Whole(line, raw)
  {
    RowCost(lines, number, raw);
    var prefix := Prefix(number);
    line := prefix + Shown(raw) + [NEWLINE];
    assert |line| == |prefix| + |Shown(raw)| + 1;
  }

  /** Takes the first line off what is left. */
  method TakeLine(left: Text, ghost lines: seq<Text>, ghost line: nat) returns (raw: Text, more: Text)
    requires AreLines(lines) && Left(left, lines, line) && line < |lines|
    ensures raw == lines[line] && left == raw + more && Left(more, lines, line + 1)
  {
    NextLine(left, lines, line);
    raw, more := left[..FirstLine(left)], left[FirstLine(left)..];
  }

  /**
   Takes lines from a line of the text on for as long as they fit in a window:
   `number` is the first line not taken, and `raw` that line when the size
   stopped it there.
   */
  method TakeLines(rest: Text, start: nat, count: nat, total: nat, ghost lines: seq<Text>)
    returns (number: nat, view: Text, content: Text, full: bool, raw: Text)
    requires 1 <= start <= total == |lines| <= Decimal.MAX_INT && count > 0
    requires AreLines(lines) && Left(rest, lines, start - 1)
    ensures start <= number && Taken(Rows(lines), start - 1, count, number - 1, view, content)
    ensures full <==> number <= total && number - start < count
    ensures full ==> raw == lines[number - 1] && (number == start ==> Rows(lines)[number - 1].Part?)
    ensures full ==> Rows(lines)[number - 1].Part? || |view| + |Rows(lines)[number - 1].view| > WINDOW_BYTES
  {
    ghost var rows := Rows(lines);
    var left := rest;
    number, view, content, raw := start, [], [], [];
    while number <= total && number - start < count
      invariant start <= number <= total + 1
      invariant Left(left, lines, number - 1)
      invariant Taken(rows, start - 1, count, number - 1, view, content)
    {
      var more: Text;
      raw, more := TakeLine(left, lines, number - 1);
      var line := NumberLine(number, raw, lines);
      if |view| + |line| > WINDOW_BYTES {
        return number, view, content, true, raw;
      }
      TakesOneMore(rows, start - 1, count, number - 1, view, content);
      view, content, left := view + line, content + raw, more;
      number := number + 1;
    }
    full := false;
  }

  /** Fills a window that starts at a line of the text. */
  method FillWindow(text: Text, start: nat, count: nat, total: nat) returns (window: Window)
    requires |text| <= Decimal.MAX_INT && total == |Lines(text)|
    requires 1 <= start <= total && count > 0
    ensures window == WindowAt(Rows(Lines(text)), start, count)
  {
    ghost var lines := Lines(text);
    var offset := LineOffset(text, start);
    LinesAreLines(text);
    var number, view, content, full, raw := TakeLines(text[offset..], start, count, total, lines);
    if number == start {
      window := CutFirst(raw, number, total, lines, count);
      return window;
    }
    TakesNoMore(Rows(lines), start, count, number, view, content);
    return Window(start, number - 1, total, if number <= total then number else 0, view, content, 0, 0, full);
  }

  /** Cuts the window of `lineCount` lines from `startLine` out of a text. */
  method CutWindow(text: Text, startLine: nat, lineCount: nat) returns (result: Result)
    requires |text| <= Decimal.MAX_INT
    ensures result == Cut(text, startLine, lineCount)
  {
    var start, count := startLine, lineCount;
    if start == 0 {
      start := 1;
    }
    if count == 0 {
      count := DEFAULT_LINE_COUNT;
    }
    count := Min(count, MAX_LINE_COUNT);

    CountLinesCounts(text);
    var total := CountLines(text);
    if start > total && (total > 0 || start > 1) {
      return PastEnd(total);
    }
    if start > total {
      // A text with no lines: there is nothing to fill the window with.
      return Held(Window(start, start - 1, 0, 0, [], [], 0, 0, false));
    }
    var window := FillWindow(text, start, count, total);
    return Held(window);
  }

  // ----- What one window holds

  /** Rows are taken while they fit, and none that fits is left out. */
  lemma {:induction false} TakingIsGreedy(rows: seq<Row>, from: nat, count: nat, at: nat)
    requires from <= at <= |rows| && at - from <= count
    requires |Views(rows, from, at)| <= WINDOW_BYTES
    ensures var stop := Taking(rows, from, count, at, |Views(rows, from, at)|);
      && |Views(rows, from, stop)| <= WINDOW_BYTES && stop - from <= count
      && (forall k :: at <= k < stop ==> rows[k].Whole?)
      && (stop == |rows| || stop - from == count || rows[stop].Part?
          || |Views(rows, from, stop)| + |rows[stop].view| > WINDOW_BYTES)
    decreases |rows| - at
  {
    if at < |rows| && at - from < count && rows[at].Whole?
      && |Views(rows, from, at)| + |rows[at].view| <= WINDOW_BYTES {
      TakingIsGreedy(rows, from, count, at + 1);
    }
  }

  /**
   A window holds at least one line, no more than it may, and no more bytes
   than a window has; the next one starts right after it. A line is cut only
   where it is longer than a window, and a window stops short of its line
   count only where the next line would not fit.
   */
  lemma WindowIsBounded(lines: seq<Text>, start: nat, count: nat)
    requires 1 <= start <= |lines| <= Decimal.MAX_INT && 0 < count
    ensures var rows := Rows(lines);
      var w := WindowAt(rows, start, count);
      && w.start == start && w.total == |lines|
      && start <= w.end <= |lines| && w.end - start + 1 <= count
      && w.next == (if w.end < |lines| then w.end + 1 else 0)
      && |w.view| <= WINDOW_BYTES
      && (rows[start - 1].Part? ==> w.end == start && !w.full && w.content == rows[start - 1].content)
      && (rows[start - 1].Whole? ==>
            && w.view == Views(rows, start - 1, w.end) && w.content == Contents(rows, start - 1, w.end)
            && (forall k :: start - 1 <= k < w.end ==> rows[k].Whole?)
            && (w.full <==> w.end < |lines| && w.end - start + 1 < count)
            && (w.full ==> rows[w.end].Part? || |w.view| + |rows[w.end].view| > WINDOW_BYTES))
  {
    var rows := Rows(lines);
    RowAt(lines, start);
    TakingIsGreedy(rows, start - 1, count, start - 1);
  }

  // ----- What the windows of a text hold together

  /** The windows read by following `next` from a line on. */
  function Pages(rows: seq<Row>, start: nat, count: nat): (pages: seq<Window>)
    requires 1 <= start <= |rows| && 0 < count
    ensures pages != []
    decreases |rows| - start
  {
    var w := WindowAt(rows, start, count);
    [w] + if w.next <= start || w.next > |rows| then [] else Pages(rows, w.next, count)
  }

  /** Windows that hold, from row `from` on, the rows one after another until there is no next window. */
  ghost predicate Tile(pages: seq<Window>, rows: seq<Row>, from: nat)
    decreases |pages|
  {
    && pages != [] && Holds(pages[0], rows, from)
    && if pages[0].next == 0 then |pages| == 1 else Tile(pages[1..], rows, pages[0].end)
  }

  /** The window holds rows from `from` on, and the next one starts after them. */
  ghost predicate Holds(w: Window, rows: seq<Row>, from: nat) {
    && w.start == from + 1 && from < w.end <= |rows|
    && w.content == Contents(rows, from, w.end)
    && w.next == if w.end < |rows| then w.end + 1 else 0
  }

  lemma WindowHolds(lines: seq<Text>, start: nat, count: nat)
    requires 1 <= start <= |lines| <= Decimal.MAX_INT && 0 < count
    ensures Holds(WindowAt(Rows(lines), start, count), Rows(lines), start - 1)
  {
    WindowIsBounded(lines, start, count);
    var rows := Rows(lines);
    assert Contents(rows, start - 1, start - 1) == [];
    assert Contents(rows, start - 1, start) == rows[start - 1].content;
  }

  /** Windows whose lines, from one to the last there is, come one after another and once each. */
  predicate EachOnce(pages: seq<Window>, first: nat, total: nat) {
    && pages != [] && pages[0].start == first && pages[|pages| - 1].end == total
    && (forall i :: 0 <= i < |pages| ==> pages[i].start <= pages[i].end)
    && (forall i :: 0 < i < |pages| ==> pages[i].start == pages[i - 1].end + 1)
  }

  /** The windows read one after another hold every line from the first one's on, each once and in order. */
  lemma PagesTile(lines: seq<Text>, start: nat, count: nat)
    requires 1 <= start <= |lines| <= Decimal.MAX_INT && 0 < count
    ensures var pages := Pages(Rows(lines), start, count);
      Tile(pages, Rows(lines), start - 1) && EachOnce(pages, start, |lines|)
  {
    PagesTileRows(lines, Rows(lines), start, count);
    TileOnce(Pages(Rows(lines), start, count), Rows(lines), start, |lines|);
  }

  lemma {:induction false} PagesTileRows(lines: seq<Text>, rows: seq<Row>, start: nat, count: nat)
    requires 1 <= start <= |lines| <= Decimal.MAX_INT && 0 < count && rows == Rows(lines)
    ensures Tile(Pages(rows, start, count), rows, start - 1)
    decreases |lines| - start
  {
    var w := WindowAt(rows, start, count);
    WindowHolds(lines, start, count);
    if w.next == 0 {
      TileMore(w, [], rows, start - 1);
    } else {
      PagesTileRows(lines, rows, w.next, count);
      TileMore(w, Pages(rows, w.next, count), rows, start - 1);
    }
    PagesFrom(rows, start, count, w);
  }

  lemma PagesFrom(rows: seq<Row>, start: nat, count: nat, w: Window)
    requires 1 <= start <= |rows| && 0 < count && w == WindowAt(rows, start, count)
    requires w.next == 0 || start < w.next <= |rows|
    ensures Pages(rows, start, count) == [w] + if w.next == 0 then [] else Pages(rows, w.next, count)
  {
  }

  lemma TileMore(w: Window, pages: seq<Window>, rows: seq<Row>, from: nat)
    requires Holds(w, rows, from) && if w.next == 0 then pages == [] else Tile(pages, rows, w.end)
    ensures Tile([w] + pages, rows, from)
  {
    assert ([w] + pages)[1..] == pages;
  }

  lemma {:induction false} TileOnce(pages: seq<Window>, rows: seq<Row>, start: nat, total: nat)
    requires start >= 1 && Tile(pages, rows, start - 1) && total == |rows|
    ensures EachOnce(pages, start, total)
    decreases |pages|
  {
    if pages[0].next != 0 {
      TileOnce(pages[1..], rows, pages[0].end + 1, total);
    }
  }

  function Joined(pages: seq<Window>): Text {
    if pages == [] then [] else pages[0].content + Joined(pages[1..])
  }

  lemma {:induction false} ContentsConcat(rows: seq<Row>, from: nat, mid: nat, end: nat)
    requires from <= mid <= end <= |rows|
    ensures Contents(rows, from, end) == Contents(rows, from, mid) + Contents(rows, mid, end)
    decreases end
  {
    if mid == end {
      assert Contents(rows, from, mid) + [] == Contents(rows, from, mid);
    } else {
      ContentsConcat(rows, from, mid, end - 1);
      assert Contents(rows, from, mid) + (Contents(rows, mid, end - 1) + rows[end - 1].content)
          == Contents(rows, from, mid) + Contents(rows, mid, end - 1) + rows[end - 1].content;
    }
  }

  lemma {:induction false} TileHolds(pages: seq<Window>, rows: seq<Row>, from: nat)
    requires Tile(pages, rows, from)
    ensures from < |rows| && Joined(pages) == Contents(rows, from, |rows|)
    decreases |pages|
  {
    var w := pages[0];
    if w.next == 0 {
      assert Joined(pages) == w.content + Joined([]);
    } else {
      TileHolds(pages[1..], rows, w.end);
      ContentsConcat(rows, from, w.end, |rows|);
    }
  }

  /** The row gives the line, or less than it. */
  predicate Gives(row: Row, raw: Text) {
    if row.Whole? then row.content == raw else |row.content| < |raw|
  }

  lemma RowsGive(lines: seq<Text>)
    requires |lines| <= Decimal.MAX_INT
    ensures forall k :: 0 <= k < |lines| ==> Gives(Rows(lines)[k], lines[k])
  {
    forall k | 0 <= k < |lines| ensures Gives(Rows(lines)[k], lines[k]) {
      RowAt(lines, k + 1);
      RowGives(k + 1, lines[k]);
    }
  }

  lemma RowGives(number: nat, raw: Text)
    requires number <= Decimal.MAX_INT
    ensures Gives(RowOf(number, raw), raw)
  {
  }

  /** Rows give their lines exactly when none of the lines is over-long. */
  lemma {:induction false} ContentsAreTheLines(rows: seq<Row>, lines: seq<Text>, from: nat, end: nat)
    requires from <= end <= |lines| == |rows|
    requires forall k :: from <= k < end ==> Gives(rows[k], lines[k])
    ensures |Contents(rows, from, end)| <= |Span(lines, from, end)|
    ensures (forall k :: from <= k < end ==> rows[k].Whole?) ==> Contents(rows, from, end) == Span(lines, from, end)
    ensures (exists k :: from <= k < end && rows[k].Part?) ==>
      |Contents(rows, from, end)| < |Span(lines, from, end)|
    decreases end
  {
    if from < end {
      ContentsAreTheLines(rows, lines, from, end - 1);
    }
  }

  /**
   Reading a text window by window, from its first line until there is no
   next one, gives back exactly the text, unless a line of it is longer than
   a window on its own.
   */
  lemma PagesAreTheText(text: Text, lineCount: nat)
    requires text != [] && |text| <= Decimal.MAX_INT
    ensures var lines := Lines(text);
      var pages := Pages(Rows(lines), 1, Counted(lineCount));
      && Cut(text, 1, lineCount) == Held(pages[0])
      && (Joined(pages) == text <==> forall k :: 0 <= k < |lines| ==> Rows(lines)[k].Whole?)
  {
    var lines := Lines(text);
    var pages := Pages(Rows(lines), 1, Counted(lineCount));
    PagesTile(lines, 1, Counted(lineCount));
    TileHolds(pages, Rows(lines), 0);
    LinesAreTheText(text);
    RowsAreTheLines(lines, Rows(lines));
  }

  lemma RowsAreTheLines(lines: seq<Text>, rows: seq<Row>)
    requires |lines| <= Decimal.MAX_INT && rows == Rows(lines)
    ensures Contents(rows, 0, |rows|) == Span(lines, 0, |lines|) <==> forall k :: 0 <= k < |lines| ==> rows[k].Whole?
  {
    RowsGive(lines);
    ContentsAreTheLines(rows, lines, 0, |lines|);
  }

  // ----- Where an over-long line is cut

  /**
   The text shown of an over-long line of valid UTF-8 is valid UTF-8 too, and
   gives up at most three bytes of the window for it.
   */
  lemma CutKeepsCharacters(number: nat, raw: Text)
    requires number <= Decimal.MAX_INT && Overlong(number, raw) && Utf8.Valid(raw)
    ensures |Prefix(number)| < WINDOW_BYTES
    ensures var fits := Fits(number, raw);
      && Utf8.Valid(Shown(raw)[..fits])
      && 0 < fits && WINDOW_BYTES - 3 <= |Prefix(number)| + fits + 1 <= WINDOW_BYTES
  {
    PrefixIsShort(number);
    ShownIsValid(raw);
    var shown, limit := Shown(raw), WINDOW_BYTES - |Prefix(number)| - 1;
    var s :| shown == Utf8.Encode(s);
    Utf8.CharacterNear(s, limit);
    Utf8.SplitsValid(shown, Fits(number, raw));
  }

  lemma ShownIsValid(raw: Text)
    requires Utf8.Valid(raw)
    ensures Utf8.Valid(Shown(raw))
  {
    var trimmed := TrimSuffix(raw, NEWLINE);
    if trimmed != raw { Utf8.SplitsValid(raw, |raw| - 1); }
    if Shown(raw) != trimmed { Utf8.SplitsValid(trimmed, |trimmed| - 1); }
  }

  /** The lines of valid UTF-8 are valid UTF-8. */
  lemma {:induction false} LinesAreValid(text: Text)
    requires Utf8.Valid(text)
    ensures forall k :: 0 <= k < |Lines(text)| ==> Utf8.Valid(Lines(text)[k])
    decreases |text|
  {
    if text != [] {
      var n := FirstLine(text);
      FirstLineEnds(text);
      var s :| text == Utf8.Encode(s);
      if n < |text| { Utf8.AfterAscii(s, n); }
      Utf8.SplitsValid(text, n);
      LinesAreValid(text[n..]);
    }
  }
}
