/**
 How the lines of a document are laid out (internal/fileview/office.go): what a
 table's cells and rows look like, and in which order text is read.
 */
module TextLayout {
  import opened Bytes
  import opened Sequences
  import opened Splitting
  import opened Xml
  import opened TextWalk

  // ----- Cells and rows

  predicate Flat(text: Text) { TAB !in text && NEWLINE !in text }

  /** A line with its tabs and newlines as spaces, and every other byte where it was. */
  ghost predicate OnOneLine(piece: Text, line: Text) {
    && |piece| == |line|
    && forall i :: 0 <= i < |line| ==>
         piece[i] == if line[i] == TAB || line[i] == NEWLINE then SPACE else line[i]
  }

  ghost predicate AllOnOneLine(pieces: seq<Text>, lines: seq<Text>) {
    |pieces| == |lines| && forall i :: 0 <= i < |lines| ==> OnOneLine(pieces[i], lines[i])
  }

  predicate AllEmpty(lines: seq<Text>) { forall i :: 0 <= i < |lines| ==> |lines[i]| == 0 }

  /**
   A cell of these lines: each on one line, in order, with one space between two.
   Empty lines before any other leave nothing.
   */
  ghost predicate HoldsLines(cell: Text, lines: seq<Text>) {
    exists first: nat, pieces: seq<Text> ::
      && first <= |lines| && AllEmpty(lines[..first]) && (first < |lines| ==> |lines[first]| > 0)
      && AllOnOneLine(pieces, lines[first..]) && cell == Join(pieces, SPACE)
  }

  function AllSpaced(lines: seq<Text>): (pieces: seq<Text>)
    ensures |pieces| == |lines|
    ensures forall i :: 0 <= i < |pieces| ==> pieces[i] == Spaced(lines[i])
  {
    seq(|lines|, i requires 0 <= i < |lines| => Spaced(lines[i]))
  }

  lemma JoinMerges(a: Text, b: Text, more: seq<Text>)
    ensures Join([a + [SPACE] + b] + more, SPACE) == Join([a] + ([b] + more), SPACE)
  {
    assert ([a] + ([b] + more))[1..] == [b] + more;
    assert ([a + [SPACE] + b] + more)[1..] == more;
    assert ([b] + more)[1..] == more;
  }

  lemma {:induction false} BegunCell(cell: Text, lines: seq<Text>)
    requires |cell| > 0
    ensures AllInCell(cell, lines) == Join([cell] + AllSpaced(lines), SPACE)
    decreases |lines|
  {
    if |lines| > 0 {
      BegunCell(InCell(cell, lines[0]), lines[1..]);
      JoinMerges(cell, Spaced(lines[0]), AllSpaced(lines[1..]));
      assert AllSpaced(lines) == [Spaced(lines[0])] + AllSpaced(lines[1..]);
    } else {
      assert [cell] + AllSpaced(lines) == [cell];
    }
  }

  lemma SpacedIsOnOneLine(lines: seq<Text>)
    ensures AllOnOneLine(AllSpaced(lines), lines)
  {
  }

  lemma {:induction false} CellHoldsLines(lines: seq<Text>)
    ensures HoldsLines(AllInCell([], lines), lines)
    decreases |lines|
  {
    if |lines| == 0 {
      assert AllOnOneLine([], lines[0..]) && Join([], SPACE) == AllInCell([], lines);
    } else if |lines[0]| == 0 {
      assert InCell([], lines[0]) == [];
      CellHoldsLines(lines[1..]);
      EmptyFirst(AllInCell([], lines), lines);
    } else {
      BegunCell(Spaced(lines[0]), lines[1..]);
      assert AllSpaced(lines) == [Spaced(lines[0])] + AllSpaced(lines[1..]);
      SpacedIsOnOneLine(lines);
      assert lines[0..] == lines && AllEmpty(lines[..0]);
      assert InCell([], lines[0]) == Spaced(lines[0]);
    }
  }

  lemma EmptyFurther(lines: seq<Text>, n: nat)
    requires |lines| > n && |lines[0]| == 0 && AllEmpty(lines[1..][..n])
    ensures AllEmpty(lines[..n + 1])
  {
    assert lines[..n + 1] == [lines[0]] + lines[1..][..n];
  }

  lemma EmptyFirst(cell: Text, lines: seq<Text>)
    requires |lines| > 0 && |lines[0]| == 0 && HoldsLines(cell, lines[1..])
    ensures HoldsLines(cell, lines)
  {
    var rest := lines[1..];
    var first: nat, pieces :| first <= |rest| && AllEmpty(rest[..first]) && (first < |rest| ==> |rest[first]| > 0)
      && AllOnOneLine(pieces, rest[first..]) && cell == Join(pieces, SPACE);
    assert lines[first + 1..] == rest[first..];
    EmptyFurther(lines, first);
  }

  lemma {:induction false} CellIsFlat(cell: Text, lines: seq<Text>)
    requires Flat(cell)
    ensures Flat(AllInCell(cell, lines))
    decreases |lines|
  {
    if |lines| > 0 {
      CellIsFlat(InCell(cell, lines[0]), lines[1..]);
    }
  }

  ghost predicate AllFlat(cells: seq<Text>) { forall i :: 0 <= i < |cells| ==> Flat(cells[i]) }

  /** Whatever content leaves in the row around it holds no tab and no newline. */
  lemma {:induction false} CellsAreFlat(c: Content, row: bool, runs: int, on: bool)
    ensures AllFlat(Meaning(c, row, runs, on).cells)
    decreases c
  {
    match c
    case Nothing =>
    case Characters(text, next) => CellsAreFlat(next, row, runs, on);
    case Element(tag, inner, next) =>
      CellsAreFlat(next, row, runs, if Skipped(tag) then on else if tag.T? then false else TextAfter(inner, on));
      if !Skipped(tag) {
        var e := Meaning(inner, row || tag.Tr?, if tag.R? then runs + 1 else runs, on || tag.T?);
        CellsAreFlat(inner, row || tag.Tr?, if tag.R? then runs + 1 else runs, on || tag.T?);
        CellIsFlat([], e.delivered);
      }
  }

  /**
   A cell is what is delivered into it, each line in order on one line, with
   a space between two; it goes to the row around it, or is a line itself.
   */
  lemma CellIsItsLines(inner: Content, row: bool, runs: int, on: bool) returns (cell: Text)
    ensures var e := Meaning(inner, row, runs, on);
      && HoldsLines(cell, e.delivered) && Flat(cell)
      && ElementMeaning(Tc, inner, row, runs, on)
         == if row then Effect(e.written, [], e.cells + [cell]) else Effect(e.written, [cell], e.cells)
  {
    var e := Meaning(inner, row, runs, on);
    cell := AllInCell([], e.delivered);
    CellHoldsLines(e.delivered);
    CellIsFlat([], e.delivered);
  }

  lemma {:induction false} JoinIsOneLine(cells: seq<Text>)
    requires AllFlat(cells)
    ensures NEWLINE !in Join(cells, TAB)
    decreases |cells|
  {
    if |cells| > 1 {
      JoinIsOneLine(cells[1..]);
    }
  }

  /**
   A row is one line behind what else is delivered in it, and splits at its
   tabs into exactly the cells it holds.
   */
  lemma RowIsItsCells(inner: Content, row: bool, runs: int, on: bool) returns (line: Text)
    ensures var e := Meaning(inner, true, runs, on);
      && ElementMeaning(Tr, inner, row, runs, on) == Effect(e.written, e.delivered + [line], [])
      && NEWLINE !in line && Split(line, TAB) == if e.cells == [] then [[]] else e.cells
  {
    var e := Meaning(inner, true, runs, on);
    line := Join(e.cells, TAB);
    CellsAreFlat(inner, true, runs, on);
    JoinIsOneLine(e.cells);
    if e.cells == [] {
      SplitWhole([], TAB);
    } else {
      assert forall i :: 0 <= i < |e.cells| ==> Flat(e.cells[i]);
      SplitJoin(e.cells, TAB);
    }
  }

  // ----- Reading order

  /** What the innermost frame around content is. */
  datatype Place = Outside | InParagraph | InRow

  /** Paragraphs, and tables of rows of cells of these, with nothing anchored in a paragraph. */
  predicate Ordinary(c: Content, place: Place) {
    match c
    case Nothing => true
    case Characters(_, next) => Ordinary(next, place)
    case Element(tag, inner, next) =>
      && Ordinary(next, place)
      && (Skipped(tag) ||
          if tag.P? then place.Outside? && Ordinary(inner, InParagraph)
          else if tag.Tr? then place.Outside? && Ordinary(inner, InRow)
          else if tag.Tc? then place.InRow? && Ordinary(inner, Outside)
          else Ordinary(inner, place))
  }

  /** A text without the bytes that lay it out. */
  function Unlaid(text: Text): Text {
    if |text| == 0 then []
    else (if Layout(text[0]) then [] else [text[0]]) + Unlaid(text[1..])
  }

  function AllUnlaid(lines: seq<Text>): Text
    decreases |lines|
  {
    if |lines| == 0 then [] else Unlaid(lines[0]) + AllUnlaid(lines[1..])
  }

  lemma {:induction false} UnlaidConcat(a: Text, b: Text)
    ensures Unlaid(a + b) == Unlaid(a) + Unlaid(b)
  {
    if |a| == 0 {
      WithNothing(b);
      WithNothing(Unlaid(b));
    } else {
      UnlaidConcat(a[1..], b);
      RestOfBoth(a, b);
      Associates(if Layout(a[0]) then [] else [a[0]], Unlaid(a[1..]), Unlaid(b));
    }
  }

  lemma {:induction false} AllUnlaidConcat(a: seq<Text>, b: seq<Text>)
    ensures AllUnlaid(a + b) == AllUnlaid(a) + AllUnlaid(b)
    decreases |a|
  {
    if |a| == 0 {
      WithNothing(b);
      WithNothing(AllUnlaid(b));
    } else {
      AllUnlaidConcat(a[1..], b);
      RestOfBoth(a, b);
      Associates(Unlaid(a[0]), AllUnlaid(a[1..]), AllUnlaid(b));
    }
  }

  lemma UnlaidOne(line: Text)
    ensures AllUnlaid([line]) == Unlaid(line)
  {
    assert [line][1..] == [];
  }

  lemma {:induction false} UnlaidSpaced(text: Text)
    ensures Unlaid(Spaced(text)) == Unlaid(text)
    decreases |text|
  {
    if |text| > 0 {
      UnlaidSpaced(text[1..]);
      assert Spaced(text)[1..] == Spaced(text[1..]);
    }
  }

  lemma {:induction false} UnlaidCell(cell: Text, lines: seq<Text>)
    ensures Unlaid(AllInCell(cell, lines)) == Unlaid(cell) + AllUnlaid(lines)
    decreases |lines|
  {
    if |lines| > 0 {
      var begun := if |cell| > 0 then cell + [SPACE] else cell;
      UnlaidCell(InCell(cell, lines[0]), lines[1..]);
      UnlaidConcat(begun, Spaced(lines[0]));
      UnlaidConcat(cell, [SPACE]);
      UnlaidSpaced(lines[0]);
      assert Unlaid([SPACE]) == [];
    }
  }

  lemma {:induction false} UnlaidJoin(cells: seq<Text>)
    ensures Unlaid(Join(cells, TAB)) == AllUnlaid(cells)
    decreases |cells|
  {
    if |cells| == 1 {
      UnlaidOne(cells[0]);
      assert cells == [cells[0]];
    } else if |cells| > 1 {
      UnlaidJoin(cells[1..]);
      UnlaidConcat(cells[0] + [TAB], Join(cells[1..], TAB));
      UnlaidConcat(cells[0], [TAB]);
      assert Unlaid([TAB]) == [];
    }
  }

  /** The text of an effect in reading order, where only one of its parts has any. */
  function Said(e: Effect, place: Place): Text {
    match place
    case Outside => AllUnlaid(e.delivered)
    case InParagraph => Unlaid(e.written)
    case InRow => AllUnlaid(e.cells)
  }

  /** Nothing goes to another place than the one the content is in. */
  predicate Stays(e: Effect, place: Place) {
    (!place.Outside? ==> e.delivered == []) && (!place.InRow? ==> e.cells == [])
  }

  predicate Says(e: Effect, place: Place, text: Text) { Stays(e, place) && Said(e, place) == Unlaid(text) }

  lemma SaidPlus(a: Effect, b: Effect, place: Place)
    ensures Said(Plus(a, b), place) == Said(a, place) + Said(b, place)
  {
    UnlaidConcat(a.written, b.written);
    AllUnlaidConcat(a.delivered, b.delivered);
    AllUnlaidConcat(a.cells, b.cells);
  }

  lemma {:induction false} MeaningInOrder(c: Content, place: Place, row: bool, runs: int, on: bool)
    requires Ordinary(c, place) && (place.InRow? ==> row)
    ensures var e := Meaning(c, row, runs, on);
      Says(e, place, Kept(c, place.InParagraph?, runs, on))
    decreases c, 0
  {
    match c
    case Nothing =>
    case Characters(text, next) =>
      MeaningInOrder(next, place, row, runs, on);
      SaidPlus(Written(if on then text else []), Meaning(next, row, runs, on), place);
      UnlaidConcat(if place.InParagraph? && on then text else [], Kept(next, place.InParagraph?, runs, on));
    case Element(tag, inner, next) =>
      var after := if Skipped(tag) then on else if tag.T? then false else TextAfter(inner, on);
      MeaningInOrder(next, place, row, runs, after);
      ElementInOrder(tag, inner, place, row, runs, on, next);
      SaidPlus(ElementMeaning(tag, inner, row, runs, on), Meaning(next, row, runs, after), place);
      UnlaidConcat(KeptElement(tag, inner, place.InParagraph?, runs, on), Kept(next, place.InParagraph?, runs, after));
  }

  function PlaceIn(tag: Tag, place: Place): Place {
    if tag.P? then InParagraph else if tag.Tr? then InRow else if tag.Tc? then Outside else place
  }

  lemma {:induction false} ElementInOrder(
    tag: Tag, inner: Content, place: Place, row: bool, runs: int, on: bool, next: Content)
    requires Ordinary(Element(tag, inner, next), place) && (place.InRow? ==> row)
    ensures var e := ElementMeaning(tag, inner, row, runs, on);
      Says(e, place, KeptElement(tag, inner, place.InParagraph?, runs, on))
    decreases inner, 1
  {
    if !Skipped(tag) {
      var row', runs' := row || tag.Tr?, if tag.R? then runs + 1 else runs;
      MeaningInOrder(inner, PlaceIn(tag, place), row', runs', on || tag.T?);
      var e := Meaning(inner, row', runs', on || tag.T?);
      var text := Kept(inner, place.InParagraph? || tag.P?, runs', on || tag.T?);
      if Frames(tag) {
        assert [] + text == text;
        FrameInOrder(tag, e, place, row);
      } else {
        MarkInOrder(tag, e, place, runs, text);
      }
    }
  }

  lemma MarkInOrder(tag: Tag, e: Effect, place: Place, runs: int, text: Text)
    requires !Skipped(tag) && !Frames(tag) && Says(e, place, text)
    ensures Says(Plus(Written(Mark(tag, runs)), e), place,
                 (if place.InParagraph? then KeptMark(tag, runs > 0) else []) + text)
  {
    WritesOnly(Mark(tag, runs), e);
    MarkIsKept(tag, runs);
    if place.InParagraph? {
      UnlaidConcat(Mark(tag, runs), e.written);
      UnlaidConcat(Mark(tag, runs), text);
    } else {
      WithNothing(text);
    }
  }

  lemma WritesOnly(text: Text, e: Effect)
    ensures Plus(Written(text), e) == Effect(text + e.written, e.delivered, e.cells)
  {
    WithNothing(e.delivered);
    WithNothing(e.cells);
  }

  lemma FrameInOrder(tag: Tag, e: Effect, place: Place, row: bool)
    requires Frames(tag) && Stays(e, PlaceIn(tag, place)) && (place.InRow? ==> row)
    requires if tag.Tc? then place.InRow? else place.Outside?
    ensures Stays(Framed(tag, e, row), place) && Said(Framed(tag, e, row), place) == Said(e, PlaceIn(tag, place))
  {
    if tag.P? {
      UnlaidOne(e.written);
      assert [e.written] + [] == [e.written];
    } else if tag.Tr? {
      UnlaidJoin(e.cells);
      UnlaidOne(Join(e.cells, TAB));
      assert [] + [Join(e.cells, TAB)] == [Join(e.cells, TAB)];
    } else {
      var text := AllInCell([], e.delivered);
      UnlaidCell([], e.delivered);
      UnlaidOne(text);
      assert [] + [text] == [text];
    }
  }

  /**
   In a document of paragraphs and tables, with nothing anchored in a
   paragraph, the lines give its kept text in the document's order: leaving out
   tabs, newlines and spaces, they are that text byte for byte.
   */
  lemma LinesAreInOrder(c: Content)
    requires Ordinary(c, Outside)
    ensures AllUnlaid(Lines(c)) == Unlaid(Kept(c, false, 0, false))
  {
    MeaningInOrder(c, Outside, false, 0, false);
  }

  /** The text of a paragraph itself: not of the paragraphs in it, with its runs' tabs, breaks and hyphens. */
  function Own(c: Content, runs: int, on: bool): Text
    decreases c
  {
    match c
    case Nothing => []
    case Characters(text, next) => (if on then text else []) + Own(next, runs, on)
    case Element(tag, inner, next) =>
      if Skipped(tag) then Own(next, runs, on)
      else
        KeptMark(tag, runs > 0)
        + (if tag.P? then [] else Own(inner, if tag.R? then runs + 1 else runs, on || tag.T?))
        + Own(next, runs, if tag.T? then false else TextAfter(inner, on))
  }

  lemma ElementWrites(tag: Tag, inner: Content, row: bool, runs: int, on: bool)
    requires !Skipped(tag)
    ensures var e := Meaning(inner, row || tag.Tr?, if tag.R? then runs + 1 else runs, on || tag.T?);
      ElementMeaning(tag, inner, row, runs, on).written
      == KeptMark(tag, runs > 0) + if tag.P? then [] else e.written
  {
    var e := Meaning(inner, row || tag.Tr?, if tag.R? then runs + 1 else runs, on || tag.T?);
    MarkIsKept(tag, runs);
    WithNothing(e.written);
    WithNothing(KeptMark(tag, runs > 0));
    if Frames(tag) {
      FrameWrites(tag, e, row);
    }
  }

  lemma MarkIsKept(tag: Tag, runs: int)
    ensures Mark(tag, runs) == KeptMark(tag, runs > 0)
    ensures Frames(tag) ==> KeptMark(tag, runs > 0) == []
  {
  }

  lemma FrameWrites(tag: Tag, e: Effect, row: bool)
    requires Frames(tag)
    ensures Framed(tag, e, row).written == if tag.P? then [] else e.written
  {
  }

  lemma {:induction false} WrittenIsOwn(c: Content, row: bool, runs: int, on: bool)
    ensures Meaning(c, row, runs, on).written == Own(c, runs, on)
    decreases c
  {
    match c
    case Nothing =>
    case Characters(text, next) => WrittenIsOwn(next, row, runs, on);
    case Element(tag, inner, next) =>
      WrittenIsOwn(next, row, runs, if Skipped(tag) then on else if tag.T? then false else TextAfter(inner, on));
      if !Skipped(tag) {
        WrittenIsOwn(inner, row || tag.Tr?, if tag.R? then runs + 1 else runs, on || tag.T?);
        ElementWrites(tag, inner, row, runs, on);
      }
  }

  /** A paragraph is a line of its own text, followed by the lines of what is anchored in it. */
  lemma ParagraphIsItsText(inner: Content, row: bool, runs: int, on: bool)
    ensures var e := Meaning(inner, row, runs, on);
      ElementMeaning(P, inner, row, runs, on) == Effect([], [Own(inner, runs, on)] + e.delivered, e.cells)
  {
    WrittenIsOwn(inner, row, runs, on);
  }

  // ----- What is not read, and what is

  /** The same content again for another application, a field's code and deleted text leave no trace. */
  lemma SkippedLeavesNothing(tag: Tag, inner: Content, next: Content, row: bool, runs: int, on: bool)
    requires tag in {Fallback, InstrText, DelText, DelInstrText}
    ensures Meaning(Element(tag, inner, next), row, runs, on) == Meaning(next, row, runs, on)
  {
    var e := Meaning(next, row, runs, on);
    assert [] + e.written == e.written && [] + e.delivered == e.delivered && [] + e.cells == e.cells;
  }

  /** The text of a run in a paragraph is a line. */
  lemma RunIsALine(text: Text)
    ensures Lines(Element(P, Element(R, Element(T, Characters(text, Nothing), Nothing), Nothing), Nothing)) == [text]
  {
    var t := Element(T, Characters(text, Nothing), Nothing);
    ParagraphIsItsText(Element(R, t, Nothing), false, 0, false);
    assert Own(Characters(text, Nothing), 1, true) == text;
    assert Own(t, 1, false) == text;
    assert Own(Element(R, t, Nothing), 0, false) == text;
    MeaningInOrder(Element(R, t, Nothing), InParagraph, false, 0, false);
    var p := Element(P, Element(R, t, Nothing), Nothing);
    assert Meaning(p, false, 0, false).delivered == [text] + [] + [];
  }

  // ----- How a walk ends

  /**
   A whole part that is read is an error when it is nested deeper than 1000 elements, or when the
   reader failed at its end; a document that is full ends the walk before either, without one.
   */
  lemma EndIsTold(c: Content, fault: Fault)
    ensures var end := Run(START, Tokens(c));
      && (end.sink.done ==> Verdict(end, fault) == NoError)
      && (!end.sink.done && Height(c) > 1000 ==> Verdict(end, fault) == Error(TooDeep))
      && (!end.sink.done && Height(c) <= 1000 ==>
            Verdict(end, fault) == if fault == EndOfFile then NoError else Error(fault))
      && (Height(c) <= 1000 ==> (end.sink.done <==> Fitting(Lines(c), 0x80_0000) < |Lines(c)|))
  {
    TooDeepIsRefused(START, c);
    if Height(c) <= 1000 {
      WalkReadsTheLines(c);
    }
  }

  /** A part that ends inside an element that is skipped is an error, however it ends. */
  lemma EndInSkipIsTold(end: State, fault: Fault)
    requires !end.sink.done && !end.tooDeep && end.skipping > 0
    ensures Verdict(end, fault) == Error(fault)
  {
  }
}
