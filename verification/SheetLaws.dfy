/**
 What the lines of a worksheet hold (internal/fileview/sheets.go): which column
 and row a cell's value is in, and what its text becomes.
 */
module SheetLaws {
  import opened Bytes
  import opened Decimal
  import opened Splitting
  import opened Sequences
  import opened Sheets
  import opened SheetWalk
  import opened Xml

  // ----- Cells

  predicate EndsIn(text: Text, b: byte) { |text| > 0 && text[|text| - 1] == b }

  lemma FlatLast(init: Text, last: byte)
    requires last == NEWLINE ==> !EndsIn(init, RETURN)
    ensures Flatten(init + [last])
      == Flatten(init) + [if last == TAB || last == NEWLINE || last == RETURN then SPACE else last]
  {
    assert (init + [last])[..|init|] == init;
  }

  lemma FlatPair(init: Text)
    ensures Flatten(init + [RETURN, NEWLINE]) == Flatten(init) + [SPACE]
  {
    assert (init + [RETURN, NEWLINE])[..|init|] == init;
  }

  lemma FlatEnding(before: Text, ending: Text)
    requires ending in [[TAB], [NEWLINE], [RETURN], [RETURN, NEWLINE]]
    requires ending == [NEWLINE] ==> !EndsIn(before, RETURN)
    ensures Flatten(before + ending) == Flatten(before) + [SPACE]
  {
    if ending == [RETURN, NEWLINE] {
      FlatPair(before);
    } else {
      assert ending == [ending[0]];
      FlatLast(before, ending[0]);
    }
  }

  /** Two texts are flattened as each is alone. */
  predicate Apart(text: Text, after: Text) { Flatten(text + after) == Flatten(text) + Flatten(after) }

  lemma ApartPair(text: Text, init: Text)
    requires Apart(text, init)
    ensures Apart(text, init + [RETURN, NEWLINE])
  {
    FlatPair(init);
    FlatPair(text + init);
    Associates(text, init, [RETURN, NEWLINE]);
    Associates(Flatten(text), Flatten(init), [SPACE]);
  }

  lemma ApartLast(text: Text, init: Text, last: byte)
    requires Apart(text, init) && (last == NEWLINE ==> !EndsIn(text + init, RETURN))
    ensures Apart(text, init + [last])
  {
    assert last == NEWLINE ==> !EndsIn(init, RETURN) by {
      assert |init| > 0 ==> (text + init)[|text + init| - 1] == init[|init| - 1];
    }
    var shown := [if last == TAB || last == NEWLINE || last == RETURN then SPACE else last];
    FlatLast(init, last);
    FlatLast(text + init, last);
    Associates(text, init, [last]);
    Associates(Flatten(text), Flatten(init), shown);
  }

  /** No tabs and no line endings. */
  predicate Plain(text: Text) {
    forall i :: 0 <= i < |text| ==> text[i] != TAB && text[i] != NEWLINE && text[i] != RETURN
  }

  /** A text without tabs and line endings stays as it is. */
  lemma {:induction false} PlainStays(text: Text)
    requires Plain(text)
    ensures Flatten(text) == text
    decreases |text|
  {
    if |text| > 0 {
      InitAndLast(text);
      PlainStays(text[..|text| - 1]);
      PlainStep(text, text[..|text| - 1], text[|text| - 1]);
    }
  }

  lemma PlainStep(text: Text, init: Text, last: byte)
    requires text == init + [last] && Flatten(init) == init && last != TAB && last != NEWLINE && last != RETURN
    ensures Flatten(text) == text
  {
    PlainMore(init, last);
  }

  lemma PlainMore(init: Text, last: byte)
    requires Flatten(init) == init && last != TAB && last != NEWLINE && last != RETURN
    ensures Flatten(init + [last]) == init + [last]
  {
    FlatLast(init, last);
  }

  /** A line ending or a tab is one space, and what is around it stays as it would alone. */
  lemma EndingIsASpace(before: Text, ending: Text, after: Text)
    requires ending in [[TAB], [NEWLINE], [RETURN], [RETURN, NEWLINE]]
    requires ending == [NEWLINE] ==> !EndsIn(before, RETURN)
    requires ending == [RETURN] && |after| > 0 ==> after[0] != NEWLINE
    ensures Flatten(before + ending + after) == Flatten(before) + [SPACE] + Flatten(after)
  {
    FlatEnding(before, ending);
    assert EndsIn(before + ending, RETURN) ==> ending == [RETURN];
    FlattensApart(before + ending, after);
  }

  lemma ApartNothing(text: Text)
    ensures Apart(text, [])
  {
    assert text + [] == text && Flatten(text) + [] == Flatten(text);
  }

  /** Two texts are flattened apart, unless a carriage return and a newline meet. */
  lemma {:induction false} FlattensApart(text: Text, after: Text)
    requires EndsIn(text, RETURN) && |after| > 0 ==> after[0] != NEWLINE
    ensures Apart(text, after)
    decreases |after|
  {
    if |after| == 0 {
      ApartNothing(text);
    } else if |after| >= 2 && after[|after| - 2] == RETURN && after[|after| - 1] == NEWLINE {
      FlattensPair(text, after, after[..|after| - 2]);
    } else {
      FlattensLast(text, after, after[..|after| - 1], after[|after| - 1]);
    }
  }

  lemma {:induction false} FlattensPair(text: Text, after: Text, init: Text)
    requires EndsIn(text, RETURN) && |after| > 0 ==> after[0] != NEWLINE
    requires after == init + [RETURN, NEWLINE]
    ensures Apart(text, after)
    decreases |after|, 0
  {
    FlattensApart(text, init);
    ApartPair(text, init);
  }

  lemma {:induction false} FlattensLast(text: Text, after: Text, init: Text, last: byte)
    requires EndsIn(text, RETURN) && |after| > 0 ==> after[0] != NEWLINE
    requires after == init + [last] && !(EndsIn(init, RETURN) && last == NEWLINE)
    ensures Apart(text, after)
    decreases |after|, 0
  {
    FlattensApart(text, init);
    NoPairMeets(text, init, last);
    ApartLast(text, init, last);
  }

  lemma NoPairMeets(text: Text, init: Text, last: byte)
    requires EndsIn(text, RETURN) && |init| == 0 ==> last != NEWLINE
    requires !(EndsIn(init, RETURN) && last == NEWLINE)
    ensures last == NEWLINE ==> !EndsIn(text + init, RETURN)
  {
    if |init| > 0 {
      assert (text + init)[|text + init| - 1] == init[|init| - 1];
    } else {
      assert text + init == text;
    }
  }

  /** A cell is in the column its reference names, and otherwise right of the cell before, or in the first one. */
  lemma {:induction false} ColumnsAre(cells: seq<Cell>, i: nat)
    requires i < |cells|
    ensures Columns(cells)[i]
      == if ColumnOf(cells[i].reference) >= 0 then ColumnOf(cells[i].reference)
         else if i == 0 then 0 else Columns(cells)[i - 1] + 1
    decreases |cells|
  {
    var init := cells[..|cells| - 1];
    assert Columns(cells)[..|init|] == Columns(init);
    if i < |init| {
      ColumnsAre(init, i);
    }
  }

  /** A reference that begins with no letter names no column, and small letters name what capitals do. */
  lemma LettersNameColumns(reference: Text, b: byte)
    ensures reference == [] || !Letter(reference[0]) ==> ColumnOf(reference) == -1
    ensures 0x41 <= b <= 0x5A ==> LetterValue(b) == b as nat - 0x40 && LetterValue(b + 0x20) == b as nat - 0x40
  {
    assert reference[..0] == [];
  }

  // ----- Rows

  /** A row has the number it carries when that is one from 1 on, and otherwise the one after the row before. */
  lemma RowNumber(number: Int, given: Text)
    ensures var after := if number == MAX_INT then -MAX_INT - 1 else number + 1;
      NumberFrom(number, given)
      == if Atoi(given).Number? && Atoi(given).value >= 1 then Atoi(given).value else after
  {
  }

  /** The rows that some lines give values of, in order. */
  function Given(lines: seq<Line>): seq<Numbered>
    requires forall i :: 0 <= i < |lines| && lines[i].Values? ==> -MAX_INT - 1 <= lines[i].number <= MAX_INT
    decreases |lines|
  {
    if |lines| == 0 then []
    else (match lines[0] case Values(number, values) => [Numbered(number, values)] case Empty(_, _) => [])
         + Given(lines[1..])
  }

  /** The lines give every row that shows something, with its number and values, and no other. */
  lemma {:induction false} LinesGiveRows(written: Int, rows: seq<Numbered>)
    ensures var lines := Lines(written, rows);
      && (forall i :: 0 <= i < |lines| && lines[i].Values? ==> -MAX_INT - 1 <= lines[i].number <= MAX_INT)
      && Given(lines) == rows
    decreases |rows|
  {
    if |rows| > 0 {
      var own, rest := RowLines(written, rows[0]), Lines(rows[0].number, rows[1..]);
      LinesGiveRows(rows[0].number, rows[1..]);
      assert Lines(written, rows) == own + rest;
      if |own| == 1 {
        assert (own + rest)[1..] == rest;
      } else {
        assert (own + rest)[1..] == [own[1]] + rest && ([own[1]] + rest)[1..] == rest;
        assert Given([own[1]] + rest) == [rows[0]] + Given(rest);
      }
      assert rows == [rows[0]] + rows[1..];
    }
  }

  /** A row is shown with its number exactly when one of its columns is filled. */
  lemma RowIsShown(row: RowElement, rest: seq<RowElement>, number: Int)
    ensures var own := NumberFrom(number, row.number);
      Shown([row] + rest, number)
      == (if Row(row.cells) == [] then [] else [Numbered(own, Row(row.cells))]) + Shown(rest, own)
  {
    assert ([row] + rest)[1..] == rest;
  }

  // ----- What is written

  /** A line between two rows says which one or which ones are empty. */
  lemma EmptyIsSaid(first: int, last: int)
    ensures Written(Empty(first, first)) == Word("(row ") + Itoa(first) + Word(" is empty)")
    ensures first != last ==>
      Written(Empty(first, last)) == Word("(rows ") + Itoa(first) + Word("-") + Itoa(last) + Word(" are empty)")
  {
    assert ROW_OPEN == Word("(row ") && IS_EMPTY == Word(" is empty)");
    assert ROWS_OPEN == Word("(rows ") && ARE_EMPTY == Word(" are empty)") && [HYPHEN] == Word("-");
  }

  /** A row is written with a tab between its values, and reads back as them. */
  lemma ValuesAreWritten(cells: seq<Cell>, number: int)
    requires Row(cells) != []
    ensures Split(Written(Values(number, Row(cells))), TAB) == Row(cells)
  {
    LineSplits(cells);
  }

  // ----- What a sheet is made of

  /** Inline strings are texts, runs around them, and phonetic readings, which say nothing. */
  lemma InlineShape(text: Text, next: Content)
    ensures IsInline(Nothing) && InlineText(Nothing) == []
    ensures var t := Element(T, Characters(text, Nothing), next);
      (IsInline(t) <==> IsInline(next)) && InlineText(t) == text + InlineText(next)
  {
    LeafIs(text);
  }

  lemma PhoneticShape(inner: Content, next: Content)
    ensures var phonetic := Element(Sheet(PhoneticPart), inner, next);
      (IsInline(phonetic) <==> IsInline(next)) && InlineText(phonetic) == InlineText(next)
  {
    WithNothing(InlineText(next));
  }

  lemma RunShape(inner: Content, next: Content)
    ensures var r := Element(R, inner, next);
      (IsInline(r) <==> IsInline(inner) && IsInline(next)) && InlineText(r) == InlineText(inner) + InlineText(next)
  {
    assert StringItemText(R, inner) == InlineText(inner);
  }

  lemma LeafIs(text: Text)
    ensures Leaf(Characters(text, Nothing)) && LeafText(Characters(text, Nothing)) == text
  {
    WithNothing(text);
  }

  /** Cells are values, inline strings, and formulas, which say nothing. */
  lemma CellShape(text: Text, inner: Content, next: Content)
    ensures IsCell(Nothing) && ValueOf(Nothing) == [] && InlineOf(Nothing) == []
    ensures var value := Element(Sheet(ValuePart), Characters(text, Nothing), next);
      (IsCell(value) <==> IsCell(next)) && ValueOf(value) == text + ValueOf(next) && InlineOf(value) == InlineOf(next)
    ensures var inline := Element(Sheet(InlinePart), inner, next);
      && (IsCell(inline) <==> IsInline(inner) && IsCell(next))
      && ValueOf(inline) == ValueOf(next) && InlineOf(inline) == InlineText(inner) + InlineOf(next)
    ensures var formula := Element(Sheet(FormulaPart), inner, next);
      (IsCell(formula) <==> IsCell(next)) && ValueOf(formula) == ValueOf(next) && InlineOf(formula) == InlineOf(next)
  {
    LeafIs(text);
    WithNothing(ValueOf(next));
    WithNothing(InlineOf(next));
  }

  /** Rows are cells, each with its reference and what is displayed of it. */
  lemma RowShape(display: Display, reference: Text, kind: Text, style: Text, inner: Content, next: Content)
    ensures IsRow(Nothing) && CellsOf(display, Nothing) == []
    ensures var cell := Element(Sheet(CellPart(reference, kind, style)), inner, next);
      && (IsRow(cell) <==> IsCell(inner) && IsRow(next))
      && CellsOf(display, cell)
         == [Cell(reference, display(kind, style, ValueOf(inner), InlineOf(inner)))] + CellsOf(display, next)
  {
  }

  /** A sheet is rows, each with the number it carries, and elements around them. */
  lemma SheetShape(display: Display, number: Text, inner: Content, next: Content)
    ensures IsSheet(Nothing) && RowsOf(display, Nothing) == []
    ensures var row := Element(Sheet(RowPart(number)), inner, next);
      && (IsSheet(row) <==> IsRow(inner) && IsSheet(next))
      && RowsOf(display, row) == [RowElement(number, CellsOf(display, inner))] + RowsOf(display, next)
    ensures var around := Element(Other, inner, next);
      && (IsSheet(around) <==> IsSheet(inner) && IsSheet(next))
      && RowsOf(display, around) == RowsOf(display, inner) + RowsOf(display, next)
  {
  }

  // ----- How a reading ends

  /** A full document ends the reading without an error; otherwise it is nesting too deep, or how the tokens end. */
  lemma EndIsTold(end: State, fault: Fault)
    ensures end.sink.done ==> Verdict(end, fault) == NoError
    ensures !end.sink.done && end.tooDeep ==> Verdict(end, fault) == Error(TooDeep)
    ensures !end.sink.done && !end.tooDeep ==>
      Verdict(end, fault) == if end.skipping > 0 || fault != EndOfFile then Error(fault) else NoError
  {
  }
}
