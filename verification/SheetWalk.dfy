/**
 The loop that puts a worksheet's rows together from its tokens
 (internal/fileview/sheets.go): a machine over the token stream, what it reads
 of a sheet, and the reader that runs it.

 What a cell shows, out of its kind, its style, its value and its inline text,
 is any function of these: the shared strings, the styles and the date system
 go into it.
 */
module SheetWalk {
  import opened Bytes
  import opened Decimal
  import opened Documents
  import opened Splitting
  import opened Xml
  import opened Sequences
  import opened Sheets

  type Display = (Text, Text, Text, Text) -> Text

  /** A cell as it is read. */
  datatype OpenCell = OpenCell(
    column: nat, kind: Text, style: Text, value: Text, inline: Text, inValue: bool, inInline: bool, inText: bool)

  const NO_CELL := OpenCell(0, [], [], [], [], false, false, false)

  /** Where the reading stands: the rows, the row and the cell it is in, and what it is past. */
  datatype State = State(
    written: Int, number: Int, next: nat, row: seq<Text>, cell: OpenCell, sink: Sink,
    skipping: nat, depth: int, tooDeep: bool)

  function Begin(s: State, tag: Tag): State {
    match tag
    case Sheet(RowPart(given)) => s.(number := NumberFrom(s.number, given), row := [], next := 0)
    case Sheet(CellPart(reference, kind, style)) =>
      s.(cell := OpenCell(ColumnFrom(reference, s.next), kind, style, [], [], false, false, false))
    case Sheet(ValuePart) => s.(cell := s.cell.(inValue := true))
    case Sheet(InlinePart) => s.(cell := s.cell.(inInline := true))
    case T => s.(cell := s.cell.(inText := s.cell.inInline))
    case Sheet(FormulaPart) | Sheet(PhoneticPart) => s.(skipping := 1)
    case _ => s
  }

  function Finish(display: Display, s: State, tag: Tag): State {
    match tag
    case Sheet(ValuePart) => s.(cell := s.cell.(inValue := false))
    case T => s.(cell := s.cell.(inText := false))
    case Sheet(InlinePart) => s.(cell := s.cell.(inInline := false))
    case Sheet(CellPart(_, _, _)) =>
      s.(row := WithCell(s.row, s.cell.column, ShownBy(display, s.cell)), next := s.cell.column + 1)
    case Sheet(RowPart(_)) => if |s.row| == 0 then s else PutOut(s)
    case _ => s
  }

  function ShownBy(display: Display, cell: OpenCell): Text {
    display(cell.kind, cell.style, cell.value, cell.inline)
  }

  /** The row written out, after the rows that are empty before it. */
  function PutOut(s: State): State {
    var sink := EmitAll(s.sink, WrittenAll(RowLines(s.written, Numbered(s.number, s.row))));
    if sink.done then s.(sink := sink) else s.(sink := sink, written := s.number)
  }

  function Take(s: State, text: Text): State {
    if s.cell.inValue then s.(cell := s.cell.(value := s.cell.value + text))
    else if s.cell.inText then s.(cell := s.cell.(inline := s.cell.inline + text))
    else s
  }

  function Step(display: Display, s: State, token: Token): State {
    if s.tooDeep then s
    else
      match token
      case CharData(text) => if s.skipping > 0 then s else Take(s, text)
      case StartElement(tag) =>
        var d := s.(depth := s.depth + 1);
        if d.depth > MAX_XML_DEPTH then d.(tooDeep := true)
        else if s.skipping > 0 then d.(skipping := s.skipping + 1)
        else Begin(d, tag)
      case EndElement(tag) =>
        var d := s.(depth := s.depth - 1);
        if s.skipping > 0 then d.(skipping := s.skipping - 1) else Finish(display, d, tag)
  }

  function Run(display: Display, s: State, tokens: seq<Token>): State {
    if tokens == [] then s else Step(display, Run(display, s, tokens[..|tokens| - 1]), tokens[|tokens| - 1])
  }

  lemma {:induction false} RunConcat(display: Display, s: State, a: seq<Token>, b: seq<Token>)
    ensures Run(display, s, a + b) == Run(display, Run(display, s, a), b)
    decreases |b|
  {
    if b == [] {
      assert a + b == a;
    } else {
      var init, last := b[..|b| - 1], b[|b| - 1];
      RunConcat(display, s, a, init);
      assert (a + b)[..|a + b| - 1] == a + init;
    }
  }

  lemma RunOne(display: Display, s: State, token: Token)
    ensures Run(display, s, [token]) == Step(display, s, token)
  {
    assert [token][..0] == [];
  }

  /** What an element does, and then what follows it. */
  function RunElement(display: Display, s: State, tag: Tag, inner: Content): State {
    Step(display, Run(display, Step(display, s, StartElement(tag)), Tokens(inner)), EndElement(tag))
  }

  lemma RunsElement(display: Display, s: State, tag: Tag, inner: Content, next: Content)
    ensures Run(display, s, Tokens(Element(tag, inner, next)))
      == Run(display, RunElement(display, s, tag, inner), Tokens(next))
  {
    var first, last := [StartElement(tag)], [EndElement(tag)];
    RunConcat(display, s, first + Tokens(inner) + last, Tokens(next));
    RunConcat(display, s, first + Tokens(inner), last);
    RunConcat(display, s, first, Tokens(inner));
    RunOne(display, s, StartElement(tag));
    RunOne(display, Run(display, Step(display, s, StartElement(tag)), Tokens(inner)), EndElement(tag));
  }

  lemma RunsCharacters(display: Display, s: State, text: Text, next: Content)
    ensures Run(display, s, Tokens(Characters(text, next)))
      == Run(display, Step(display, s, CharData(text)), Tokens(next))
  {
    RunConcat(display, s, [CharData(text)], Tokens(next));
    RunOne(display, s, CharData(text));
  }

  // ----- What is skipped and what says nothing

  lemma {:induction false} RunSkipped(display: Display, s: State, c: Content)
    requires !s.tooDeep && s.skipping > 0 && s.depth + Height(c) <= MAX_XML_DEPTH
    ensures Run(display, s, Tokens(c)) == s
    decreases c
  {
    match c
    case Nothing =>
    case Characters(text, next) =>
      RunsCharacters(display, s, text, next);
      RunSkipped(display, s, next);
    case Element(tag, inner, next) =>
      RunsElement(display, s, tag, inner, next);
      RunSkipped(display, s.(depth := s.depth + 1, skipping := s.skipping + 1), inner);
      SkipsElement(display, s, tag, inner);
      RunSkipped(display, s, next);
  }

  lemma SkipsElement(display: Display, s: State, tag: Tag, inner: Content)
    requires !s.tooDeep && s.skipping > 0 && s.depth < MAX_XML_DEPTH
    requires var within := s.(depth := s.depth + 1, skipping := s.skipping + 1);
      Run(display, within, Tokens(inner)) == within
    ensures RunElement(display, s, tag, inner) == s
  {
    assert Step(display, s, StartElement(tag)) == s.(depth := s.depth + 1, skipping := s.skipping + 1);
  }

  /** Nothing of a cell is open, nothing is skipped, and there is room for content of a height. */
  predicate Ready(s: State, height: nat) {
    && !s.tooDeep && s.skipping == 0 && s.depth + height <= MAX_XML_DEPTH
    && !s.cell.inValue && !s.cell.inInline && !s.cell.inText
  }

  /** Content without an element of a sheet's own. */
  predicate Quiet(c: Content) {
    match c
    case Nothing => true
    case Characters(_, next) => Quiet(next)
    case Element(tag, inner, next) => !tag.Sheet? && Quiet(inner) && Quiet(next)
  }

  lemma {:induction false} RunQuiet(display: Display, s: State, c: Content)
    requires Quiet(c) && Ready(s, Height(c))
    ensures Run(display, s, Tokens(c)) == s
    decreases c
  {
    match c
    case Nothing =>
    case Characters(text, next) =>
      RunsCharacters(display, s, text, next);
      RunQuiet(display, s, next);
    case Element(tag, inner, next) =>
      RunsElement(display, s, tag, inner, next);
      RunQuiet(display, s.(depth := s.depth + 1), inner);
      QuietElement(display, s, tag, inner);
      RunQuiet(display, s, next);
  }

  lemma QuietElement(display: Display, s: State, tag: Tag, inner: Content)
    requires !tag.Sheet? && Ready(s, 1 + Height(inner))
    requires var within := s.(depth := s.depth + 1); Run(display, within, Tokens(inner)) == within
    ensures RunElement(display, s, tag, inner) == s
  {
    assert Step(display, s, StartElement(tag)) == s.(depth := s.depth + 1);
  }

  // ----- A cell

  /** Content that is characters alone. */
  predicate Leaf(c: Content) {
    match c case Nothing => true case Characters(_, next) => Leaf(next) case Element(_, _, _) => false
  }

  function LeafText(c: Content): Text {
    match c case Characters(text, next) => text + LeafText(next) case _ => []
  }

  /** An element of an inline string: a text, a run around texts, or a phonetic reading. */
  predicate IsStringItem(tag: Tag, inner: Content)
    decreases inner, 1
  {
    match tag
    case T => Leaf(inner)
    case Sheet(part) => part.FormulaPart? || part.PhoneticPart?
    case _ => IsInline(inner)
  }

  predicate IsInline(c: Content)
    decreases c, 0
  {
    match c
    case Nothing => true
    case Characters(_, next) => IsInline(next)
    case Element(tag, inner, next) => IsStringItem(tag, inner) && IsInline(next)
  }

  function StringItemText(tag: Tag, inner: Content): Text
    decreases inner, 1
  {
    match tag case T => LeafText(inner) case Sheet(_) => [] case _ => InlineText(inner)
  }

  /** An inline string: its texts, without phonetic readings. */
  function InlineText(c: Content): Text
    decreases c, 0
  {
    match c
    case Nothing => []
    case Characters(_, next) => InlineText(next)
    case Element(tag, inner, next) => StringItemText(tag, inner) + InlineText(next)
  }

  /** An element of a cell: a value, an inline string, a formula, or one that says nothing. */
  predicate IsItem(tag: Tag, inner: Content) {
    match tag
    case Sheet(ValuePart) => Leaf(inner)
    case Sheet(InlinePart) => IsInline(inner)
    case Sheet(part) => part.FormulaPart? || part.PhoneticPart?
    case _ => Quiet(inner)
  }

  function ItemValue(tag: Tag, inner: Content): Text {
    if tag == Sheet(ValuePart) then LeafText(inner) else []
  }

  function ItemInline(tag: Tag, inner: Content): Text {
    if tag == Sheet(InlinePart) then InlineText(inner) else []
  }

  predicate IsCell(c: Content) {
    match c
    case Nothing => true
    case Characters(_, next) => IsCell(next)
    case Element(tag, inner, next) => IsItem(tag, inner) && IsCell(next)
  }

  /** The text of a cell's values. */
  function ValueOf(c: Content): Text {
    match c
    case Nothing => []
    case Characters(_, next) => ValueOf(next)
    case Element(tag, inner, next) => ItemValue(tag, inner) + ValueOf(next)
  }

  /** The text of its inline strings. */
  function InlineOf(c: Content): Text {
    match c
    case Nothing => []
    case Characters(_, next) => InlineOf(next)
    case Element(tag, inner, next) => ItemInline(tag, inner) + InlineOf(next)
  }

  /** More of a cell's value and inline text read. */
  function Gathered(s: State, value: Text, inline: Text): State {
    s.(cell := s.cell.(value := s.cell.value + value, inline := s.cell.inline + inline))
  }

  lemma GatheredNothing(s: State)
    ensures Gathered(s, [], []) == s
  {
  }

  lemma GatheredMore(s: State, value: Text, inline: Text, more: Text, moreInline: Text)
    ensures Gathered(Gathered(s, value, inline), more, moreInline) == Gathered(s, value + more, inline + moreInline)
  {
  }

  /** Characters in a value, or in a text of an inline string. */
  lemma {:induction false} RunLeaf(display: Display, s: State, c: Content)
    requires Leaf(c) && !s.tooDeep && s.skipping == 0 && (s.cell.inValue || s.cell.inText)
    ensures Run(display, s, Tokens(c))
      == if s.cell.inValue then Gathered(s, LeafText(c), []) else Gathered(s, [], LeafText(c))
    decreases c
  {
    match c
    case Nothing => GatheredNothing(s);
    case Characters(text, next) =>
      var taken := Step(display, s, CharData(text));
      RunsCharacters(display, s, text, next);
      RunLeaf(display, taken, next);
      if s.cell.inValue {
        assert taken == Gathered(s, text, []);
        GatheredMore(s, text, [], LeafText(next), []);
      } else {
        assert taken == Gathered(s, [], text);
        GatheredMore(s, [], text, [], LeafText(next));
      }
  }

  /** A skipped element leaves everything as it was. */
  lemma SkippedElement(display: Display, s: State, part: SheetPart, inner: Content)
    requires part.FormulaPart? || part.PhoneticPart?
    requires !s.tooDeep && s.skipping == 0 && s.depth + 1 + Height(inner) <= MAX_XML_DEPTH
    ensures RunElement(display, s, Sheet(part), inner) == s
  {
    var within := s.(depth := s.depth + 1, skipping := 1);
    assert Step(display, s, StartElement(Sheet(part))) == within;
    RunSkipped(display, within, inner);
  }

  /** Inside an inline string, with none of its texts open. */
  predicate InString(s: State, height: nat) {
    && !s.tooDeep && s.skipping == 0 && s.depth + height <= MAX_XML_DEPTH
    && !s.cell.inValue && s.cell.inInline && !s.cell.inText
  }

  lemma TextElement(display: Display, s: State, inner: Content)
    requires Leaf(inner) && InString(s, 1)
    ensures RunElement(display, s, T, inner) == Gathered(s, [], LeafText(inner))
  {
    var within := s.(depth := s.depth + 1, cell := s.cell.(inText := true));
    assert Step(display, s, StartElement(T)) == within;
    RunLeaf(display, within, inner);
  }

  lemma RunElementInString(display: Display, s: State, tag: Tag, inner: Content)
    requires !tag.T? && !tag.Sheet? && InString(s, 1 + Height(inner))
    requires var within := s.(depth := s.depth + 1);
      Run(display, within, Tokens(inner)) == Gathered(within, [], InlineText(inner))
    ensures RunElement(display, s, tag, inner) == Gathered(s, [], InlineText(inner))
  {
    assert Step(display, s, StartElement(tag)) == s.(depth := s.depth + 1);
  }

  lemma {:induction false} RunInline(display: Display, s: State, c: Content)
    requires IsInline(c) && InString(s, Height(c))
    ensures Run(display, s, Tokens(c)) == Gathered(s, [], InlineText(c))
    decreases c, 0
  {
    match c
    case Nothing => GatheredNothing(s);
    case Characters(text, next) =>
      RunsCharacters(display, s, text, next);
      RunInline(display, s, next);
    case Element(tag, inner, next) =>
      RunsElement(display, s, tag, inner, next);
      RunStringItem(display, s, tag, inner);
      RunInline(display, Gathered(s, [], StringItemText(tag, inner)), next);
      GatheredMore(s, [], StringItemText(tag, inner), [], InlineText(next));
  }

  lemma {:induction false} RunStringItem(display: Display, s: State, tag: Tag, inner: Content)
    requires IsStringItem(tag, inner) && InString(s, 1 + Height(inner))
    ensures RunElement(display, s, tag, inner) == Gathered(s, [], StringItemText(tag, inner))
    decreases inner, 1
  {
    match tag
    case T => TextElement(display, s, inner);
    case Sheet(part) =>
      SkippedElement(display, s, part, inner);
      GatheredNothing(s);
    case _ =>
      RunInline(display, s.(depth := s.depth + 1), inner);
      RunElementInString(display, s, tag, inner);
  }

  lemma ValueElement(display: Display, s: State, inner: Content)
    requires Leaf(inner) && Ready(s, 1)
    ensures RunElement(display, s, Sheet(ValuePart), inner) == Gathered(s, LeafText(inner), [])
  {
    var within := s.(depth := s.depth + 1, cell := s.cell.(inValue := true));
    assert Step(display, s, StartElement(Sheet(ValuePart))) == within;
    RunLeaf(display, within, inner);
  }

  lemma InlineElement(display: Display, s: State, inner: Content)
    requires IsInline(inner) && Ready(s, 1 + Height(inner))
    ensures RunElement(display, s, Sheet(InlinePart), inner) == Gathered(s, [], InlineText(inner))
  {
    var within := s.(depth := s.depth + 1, cell := s.cell.(inInline := true));
    assert Step(display, s, StartElement(Sheet(InlinePart))) == within;
    RunInline(display, within, inner);
  }

  lemma RunItem(display: Display, s: State, tag: Tag, inner: Content)
    requires IsItem(tag, inner) && Ready(s, 1 + Height(inner))
    ensures RunElement(display, s, tag, inner) == Gathered(s, ItemValue(tag, inner), ItemInline(tag, inner))
  {
    match tag
    case Sheet(ValuePart) => ValueElement(display, s, inner);
    case Sheet(InlinePart) => InlineElement(display, s, inner);
    case Sheet(part) =>
      SkippedElement(display, s, part, inner);
      GatheredNothing(s);
    case _ =>
      RunQuiet(display, s.(depth := s.depth + 1), inner);
      QuietElement(display, s, tag, inner);
      GatheredNothing(s);
  }

  /** What is gathered of a cell's content is its value and its inline string. */
  lemma {:induction false} RunCell(display: Display, s: State, c: Content)
    requires IsCell(c) && Ready(s, Height(c))
    ensures Run(display, s, Tokens(c)) == Gathered(s, ValueOf(c), InlineOf(c))
    decreases c
  {
    match c
    case Nothing => GatheredNothing(s);
    case Characters(text, next) =>
      RunsCharacters(display, s, text, next);
      RunCell(display, s, next);
    case Element(tag, inner, next) =>
      var value, inline := ItemValue(tag, inner), ItemInline(tag, inner);
      RunsElement(display, s, tag, inner, next);
      RunItem(display, s, tag, inner);
      RunCell(display, Gathered(s, value, inline), next);
      GatheredMore(s, value, inline, ValueOf(next), InlineOf(next));
  }

  // ----- A row

  /** An element of a row: a cell, or one that says nothing. */
  predicate IsRowItem(tag: Tag, inner: Content) {
    match tag case Sheet(part) => part.CellPart? && IsCell(inner) case _ => Quiet(inner)
  }

  predicate IsRow(c: Content) {
    match c
    case Nothing => true
    case Characters(_, next) => IsRow(next)
    case Element(tag, inner, next) => IsRowItem(tag, inner) && IsRow(next)
  }

  function CellOf(display: Display, part: SheetPart, inner: Content): Cell
    requires part.CellPart?
  {
    Cell(part.reference, display(part.kind, part.style, ValueOf(inner), InlineOf(inner)))
  }

  function ItemCells(display: Display, tag: Tag, inner: Content): seq<Cell> {
    if tag.Sheet? && tag.part.CellPart? then [CellOf(display, tag.part, inner)] else []
  }

  function CellsOf(display: Display, c: Content): seq<Cell> {
    match c
    case Nothing => []
    case Characters(_, next) => CellsOf(display, next)
    case Element(tag, inner, next) => ItemCells(display, tag, inner) + CellsOf(display, next)
  }

  /** The row so far is that of the cells so far. */
  predicate InRow(s: State, cells: seq<Cell>) {
    s.row == Row(cells) && s.next == NextColumn(Columns(cells))
  }

  /** From one state to another a row was read further, to that of the cells, and nothing else changed. */
  predicate RowGoes(s: State, t: State, cells: seq<Cell>) {
    && InRow(t, cells) && Ready(t, 0)
    && t == s.(row := t.row, next := t.next, cell := t.cell)
  }

  lemma RowGoesOn(s: State, mid: State, t: State, before: seq<Cell>, cells: seq<Cell>)
    requires RowGoes(s, mid, before) && RowGoes(mid, t, cells)
    ensures RowGoes(s, t, cells)
  {
  }

  lemma CellElement(display: Display, s: State, part: SheetPart, inner: Content, cells: seq<Cell>)
    requires part.CellPart? && IsCell(inner) && Ready(s, 1 + Height(inner)) && InRow(s, cells)
    ensures RowGoes(s, RunElement(display, s, Sheet(part), inner), cells + [CellOf(display, part, inner)])
  {
    var column := ColumnFrom(part.reference, s.next);
    var open := OpenCell(column, part.kind, part.style, [], [], false, false, false);
    var within := s.(depth := s.depth + 1, cell := open);
    assert Step(display, s, StartElement(Sheet(part))) == within;
    RunCell(display, within, inner);
    assert [] + ValueOf(inner) == ValueOf(inner) && [] + InlineOf(inner) == InlineOf(inner);
    OneMore(cells, CellOf(display, part, inner));
  }

  lemma OneMore(cells: seq<Cell>, cell: Cell)
    ensures Row(cells + [cell]) == WithCell(Row(cells), ColumnAfter(Columns(cells), cell), cell.shown)
    ensures NextColumn(Columns(cells + [cell])) == ColumnAfter(Columns(cells), cell) + 1
  {
    var all := cells + [cell];
    assert all[..|all| - 1] == cells && all[|all| - 1] == cell;
  }

  lemma RunRowItem(display: Display, s: State, tag: Tag, inner: Content, cells: seq<Cell>)
    requires IsRowItem(tag, inner) && Ready(s, 1 + Height(inner)) && InRow(s, cells)
    ensures RowGoes(s, RunElement(display, s, tag, inner), cells + ItemCells(display, tag, inner))
  {
    match tag
    case Sheet(part) => CellElement(display, s, part, inner, cells);
    case _ =>
      RunQuiet(display, s.(depth := s.depth + 1), inner);
      QuietElement(display, s, tag, inner);
      assert cells + [] == cells;
  }

  /** A row's content adds its cells to the row. */
  lemma {:induction false} RunRow(display: Display, s: State, c: Content, cells: seq<Cell>)
    requires IsRow(c) && Ready(s, Height(c)) && InRow(s, cells)
    ensures RowGoes(s, Run(display, s, Tokens(c)), cells + CellsOf(display, c))
    decreases c
  {
    match c
    case Nothing =>
      assert cells + [] == cells;
    case Characters(text, next) =>
      RunsCharacters(display, s, text, next);
      RunRow(display, s, next, cells);
    case Element(tag, inner, next) =>
      var items, mid := ItemCells(display, tag, inner), RunElement(display, s, tag, inner);
      RunsElement(display, s, tag, inner, next);
      RunRowItem(display, s, tag, inner, cells);
      RunRow(display, mid, next, cells + items);
      RowGoesOn(s, mid, Run(display, mid, Tokens(next)), cells + items, cells + items + CellsOf(display, next));
      Associates(cells, items, CellsOf(display, next));
  }

  // ----- A sheet

  /** An element of a sheet: a row, or one around rows. */
  predicate IsSheetItem(tag: Tag, inner: Content)
    decreases inner, 1
  {
    match tag case Sheet(part) => part.RowPart? && IsRow(inner) case _ => IsSheet(inner)
  }

  predicate IsSheet(c: Content)
    decreases c, 0
  {
    match c
    case Nothing => true
    case Characters(_, next) => IsSheet(next)
    case Element(tag, inner, next) => IsSheetItem(tag, inner) && IsSheet(next)
  }

  function ItemRows(display: Display, tag: Tag, inner: Content): seq<RowElement>
    decreases inner, 1
  {
    match tag
    case Sheet(RowPart(number)) => [RowElement(number, CellsOf(display, inner))]
    case _ => RowsOf(display, inner)
  }

  function RowsOf(display: Display, c: Content): seq<RowElement>
    decreases c, 0
  {
    match c
    case Nothing => []
    case Characters(_, next) => RowsOf(display, next)
    case Element(tag, inner, next) => ItemRows(display, tag, inner) + RowsOf(display, next)
  }

  /** The number of the last of some rows. */
  function NumberOver(number: Int, rows: seq<RowElement>): Int
    decreases |rows|
  {
    if rows == [] then number else NumberOver(NumberAfter(number, rows[0]), rows[1..])
  }

  /** From one state to another some rows were read: their lines are written, as far as the document takes them. */
  predicate Reads(s: State, t: State, rows: seq<RowElement>) {
    var shown := Shown(rows, s.number);
    && t.sink == EmitAll(s.sink, WrittenAll(Lines(s.written, shown)))
    && t.number == NumberOver(s.number, rows)
    && (!t.sink.done ==> t.written == LastNumber(s.written, shown))
    && (t.sink.done ==> t.sink.full) && t.depth == s.depth && Ready(t, 0)
  }

  lemma ReadsNothing(s: State)
    requires Ready(s, 0) && (s.sink.done ==> s.sink.full)
    ensures Reads(s, s, [])
  {
  }

  lemma {:induction false} ShownConcat(a: seq<RowElement>, b: seq<RowElement>, number: Int)
    ensures Shown(a + b, number) == Shown(a, number) + Shown(b, NumberOver(number, a))
    ensures NumberOver(number, a + b) == NumberOver(NumberOver(number, a), b)
    decreases |a|
  {
    if a == [] {
      assert a + b == b;
    } else {
      ShownConcat(a[1..], b, NumberAfter(number, a[0]));
      ShownOneMore(a[0], a[1..], b, number);
      assert [a[0]] + a[1..] == a;
    }
  }

  lemma ShownOneMore(first: RowElement, rest: seq<RowElement>, b: seq<RowElement>, number: Int)
    requires var own := NumberAfter(number, first);
      && Shown(rest + b, own) == Shown(rest, own) + Shown(b, NumberOver(own, rest))
      && NumberOver(own, rest + b) == NumberOver(NumberOver(own, rest), b)
    ensures Shown([first] + rest + b, number)
      == Shown([first] + rest, number) + Shown(b, NumberOver(number, [first] + rest))
    ensures NumberOver(number, [first] + rest + b) == NumberOver(NumberOver(number, [first] + rest), b)
  {
    var own := NumberAfter(number, first);
    ShownFirst(first, rest, number);
    ShownFirst(first, rest + b, number);
    Associates([first], rest, b);
    Associates(ShownRow(own, first.cells), Shown(rest, own), Shown(b, NumberOver(own, rest)));
  }

  lemma ShownFirst(row: RowElement, rest: seq<RowElement>, number: Int)
    ensures var own := NumberAfter(number, row);
      && Shown([row] + rest, number) == ShownRow(own, row.cells) + Shown(rest, own)
      && NumberOver(number, [row] + rest) == NumberOver(own, rest)
  {
    assert ([row] + rest)[1..] == rest;
  }

  lemma {:induction false} LinesConcat(written: Int, a: seq<Numbered>, b: seq<Numbered>)
    ensures Lines(written, a + b) == Lines(written, a) + Lines(LastNumber(written, a), b)
    ensures LastNumber(written, a + b) == LastNumber(LastNumber(written, a), b)
    decreases |a|
  {
    if a == [] {
      assert a + b == b;
    } else {
      LinesConcat(a[0].number, a[1..], b);
      LinesOneMore(written, a[0], a[1..], b);
      assert [a[0]] + a[1..] == a;
    }
  }

  lemma LinesOneMore(written: Int, first: Numbered, rest: seq<Numbered>, b: seq<Numbered>)
    requires Lines(first.number, rest + b) == Lines(first.number, rest) + Lines(LastNumber(first.number, rest), b)
    requires LastNumber(first.number, rest + b) == LastNumber(LastNumber(first.number, rest), b)
    ensures Lines(written, [first] + rest + b)
      == Lines(written, [first] + rest) + Lines(LastNumber(written, [first] + rest), b)
    ensures LastNumber(written, [first] + rest + b) == LastNumber(LastNumber(written, [first] + rest), b)
  {
    LinesFirst(written, first, rest);
    LinesFirst(written, first, rest + b);
    Associates([first], rest, b);
    Associates(RowLines(written, first), Lines(first.number, rest), Lines(LastNumber(first.number, rest), b));
  }

  lemma LinesFirst(written: Int, row: Numbered, rest: seq<Numbered>)
    ensures Lines(written, [row] + rest) == RowLines(written, row) + Lines(row.number, rest)
    ensures LastNumber(written, [row] + rest) == LastNumber(row.number, rest)
  {
    assert ([row] + rest)[1..] == rest;
  }

  lemma {:induction false} WrittenConcat(a: seq<Line>, b: seq<Line>)
    ensures WrittenAll(a + b) == WrittenAll(a) + WrittenAll(b)
    decreases |a|
  {
    if a == [] {
      assert a + b == b;
    } else {
      WrittenConcat(a[1..], b);
      assert (a + b)[1..] == a[1..] + b;
    }
  }

  /** Rows read after rows. */
  lemma ReadsThen(s: State, mid: State, t: State, a: seq<RowElement>, b: seq<RowElement>)
    requires Reads(s, mid, a) && Reads(mid, t, b)
    ensures Reads(s, t, a + b)
  {
    var x, y := Shown(a, s.number), Shown(b, mid.number);
    var before, after := Lines(s.written, x), Lines(LastNumber(s.written, x), y);
    ShownConcat(a, b, s.number);
    LinesConcat(s.written, x, y);
    WrittenConcat(before, after);
    EmitAllConcat(s.sink, WrittenAll(before), WrittenAll(after));
    if mid.sink.done {
      EmitAllSink(mid.sink, WrittenAll(after));
      EmitAllSink(mid.sink, WrittenAll(Lines(mid.written, y)));
    }
  }

  /** A row's element reads the row. */
  lemma RowElementReads(display: Display, s: State, given: Text, inner: Content)
    requires IsRow(inner) && Ready(s, 1 + Height(inner)) && (s.sink.done ==> s.sink.full)
    ensures Reads(s, RunElement(display, s, Sheet(RowPart(given)), inner), [RowElement(given, CellsOf(display, inner))])
  {
    var tag, cells := Sheet(RowPart(given)), CellsOf(display, inner);
    var within := s.(depth := s.depth + 1, number := NumberFrom(s.number, given), row := [], next := 0);
    assert Step(display, s, StartElement(tag)) == within;
    RunRow(display, within, inner, []);
    assert [] + cells == cells;
    var ran := Run(display, within, Tokens(inner));
    RowIsRead(s, ran.(depth := s.depth), given, cells);
  }

  lemma RowIsRead(s: State, ran: State, given: Text, cells: seq<Cell>)
    requires ran.row == Row(cells) && Ready(ran, 0) && ran.depth == s.depth && ran.sink == s.sink
    requires ran.number == NumberFrom(s.number, given) && ran.written == s.written && (s.sink.done ==> s.sink.full)
    ensures Reads(s, if |ran.row| == 0 then ran else PutOut(ran), [RowElement(given, cells)])
  {
    var row := RowElement(given, cells);
    assert [row][1..] == [];
    assert NumberOver(s.number, [row]) == ran.number;
    if |ran.row| == 0 {
      assert Shown([row], s.number) == [];
    } else {
      var numbered := Numbered(ran.number, ran.row);
      assert Shown([row], s.number) == [numbered] && [numbered][1..] == [];
      assert Lines(s.written, [numbered]) == RowLines(s.written, numbered) + [] == RowLines(s.written, numbered);
      EmitAllSink(s.sink, WrittenAll(RowLines(s.written, numbered)));
    }
  }

  /** An element around rows reads what is in it. */
  lemma AroundReads(display: Display, s: State, tag: Tag, inner: Content)
    requires !tag.Sheet? && Ready(s, 1 + Height(inner))
    requires var within := s.(depth := s.depth + 1);
      Reads(within, Run(display, within, Tokens(inner)), RowsOf(display, inner))
    ensures Reads(s, RunElement(display, s, tag, inner), RowsOf(display, inner))
  {
    assert Step(display, s, StartElement(tag)) == s.(depth := s.depth + 1);
  }

  /** Reading a sheet's tokens reads its rows. */
  lemma {:induction false} RunReadsRows(display: Display, s: State, c: Content)
    requires IsSheet(c) && Ready(s, Height(c)) && (s.sink.done ==> s.sink.full)
    ensures Reads(s, Run(display, s, Tokens(c)), RowsOf(display, c))
    decreases c, 0
  {
    match c
    case Nothing => ReadsNothing(s);
    case Characters(text, next) =>
      RunsCharacters(display, s, text, next);
      RunReadsRows(display, s, next);
    case Element(tag, inner, next) =>
      var mid := RunElement(display, s, tag, inner);
      RunsElement(display, s, tag, inner, next);
      RunReadsItem(display, s, tag, inner);
      RunReadsRows(display, mid, next);
      ReadsThen(s, mid, Run(display, mid, Tokens(next)), ItemRows(display, tag, inner), RowsOf(display, next));
  }

  lemma {:induction false} RunReadsItem(display: Display, s: State, tag: Tag, inner: Content)
    requires IsSheetItem(tag, inner) && Ready(s, 1 + Height(inner)) && (s.sink.done ==> s.sink.full)
    ensures Reads(s, RunElement(display, s, tag, inner), ItemRows(display, tag, inner))
    decreases inner, 1
  {
    match tag
    case Sheet(part) => RowElementReads(display, s, part.number, inner);
    case _ =>
      RunReadsRows(display, s.(depth := s.depth + 1), inner);
      AroundReads(display, s, tag, inner);
  }

  /** Where a reading of a sheet starts. */
  function Fresh(sink: Sink): State {
    State(0, 0, 0, [], NO_CELL, sink, 0, 0, false)
  }

  /**
   Reading a sheet gives its document the lines of its rows, as far as it
   takes them, and no error.
   */
  lemma SheetIsRead(display: Display, sink: Sink, c: Content)
    requires IsSheet(c) && Height(c) <= MAX_XML_DEPTH && !sink.done
    ensures var end := Run(display, Fresh(sink), Tokens(c));
      && end.sink == EmitAll(sink, WrittenAll(Lines(0, Shown(RowsOf(display, c), 0))))
      && Verdict(end, EndOfFile) == NoError
  {
    RunReadsRows(display, Fresh(sink), c);
  }

  // ----- The reader

  /** The error of a reading that has gone over every token. */
  function Verdict(end: State, fault: Fault): Error {
    if end.sink.done then NoError else EndsWith(end.tooDeep, end.skipping, fault)
  }

  /** A reading that skips goes on skipping inside the element. */
  lemma {:induction false} RunInside(display: Display, s: State, tokens: seq<Token>)
    requires !s.tooDeep && s.skipping == 1 && Inside(tokens, s.depth)
    ensures Run(display, s, tokens) == s.(skipping := 1 + Level(tokens), depth := s.depth + Level(tokens))
    decreases |tokens|
  {
    if tokens != [] {
      RunInside(display, s, tokens[..|tokens| - 1]);
    }
  }

  /** What a reading that skips has come to when the stream has read past the element, or failed to. */
  lemma RunPast(display: Display, s: State, tokens: seq<Token>, atEnd: bool, fault: Fault, err: Error)
    requires !s.tooDeep && s.skipping == 1 && Past(tokens, s.depth, atEnd, fault, err)
    ensures var ran := Run(display, s, tokens);
      match err
      case NoError => ran == s.(skipping := 0, depth := s.depth + Level(tokens))
      case Error(_) => ran.sink == s.sink && StopsAt(ran.tooDeep, ran.skipping, atEnd, fault, err)
  {
    if Inside(tokens, s.depth) {
      RunInside(display, s, tokens);
    } else {
      RunInside(display, s, tokens[..|tokens| - 1]);
    }
  }

  lemma RunOn(display: Display, s: State, tokens: seq<Token>, from: nat, at: nat, next: nat)
    requires from <= at <= next <= |tokens|
    ensures Run(display, s, tokens[from..next])
      == Run(display, Run(display, s, tokens[from..at]), tokens[at..next])
  {
    RunConcat(display, s, tokens[from..at], tokens[at..next]);
    assert tokens[from..at] + tokens[at..next] == tokens[from..next];
  }

  lemma RunFrom(display: Display, s: State, tokens: seq<Token>, from: nat, next: nat)
    requires from < next <= |tokens|
    ensures Run(display, s, tokens[from..next])
      == Run(display, Step(display, s, tokens[from]), tokens[from + 1..next])
  {
    RunOn(display, s, tokens, from, from + 1, next);
    RunOne(display, s, tokens[from]);
    assert tokens[from..from + 1] == [tokens[from]];
  }

  lemma {:induction false} RunSink(display: Display, s: State, tokens: seq<Token>)
    ensures Later(s.sink, Run(display, s, tokens).sink)
    ensures s.tooDeep ==> Run(display, s, tokens) == s
    decreases |tokens|
  {
    if tokens != [] {
      RunSink(display, s, tokens[..|tokens| - 1]);
      StepSink(display, Run(display, s, tokens[..|tokens| - 1]), tokens[|tokens| - 1]);
    }
  }

  lemma StepSink(display: Display, s: State, token: Token)
    ensures Later(s.sink, Step(display, s, token).sink)
  {
    EmitAllSink(s.sink, WrittenAll(RowLines(s.written, Numbered(s.number, s.row))));
  }

  /** A run that has been stopped, or has failed, says where the whole run ends. */
  lemma ReadStops(display: Display, s: State, tokens: seq<Token>, from: nat, next: nat)
    requires from <= next <= |tokens|
    ensures var ran, end := Run(display, s, tokens[from..next]), Run(display, s, tokens[from..]);
      && (next == |tokens| || ran.tooDeep ==> end == ran)
      && ((s.sink.done ==> s.sink.full) && ran.sink.done ==> end.sink == ran.sink)
  {
    RunOn(display, s, tokens, from, next, |tokens|);
    assert tokens[from..|tokens|] == tokens[from..];
    RunSink(display, s, tokens[from..next]);
    RunSink(display, Run(display, s, tokens[from..next]), tokens[next..|tokens|]);
  }

  /** The reading of one sheet: what the loop keeps from token to token. */
  class SheetReader {
    const document: OfficeDocument
    const display: Display
    var written: Int
    var number: Int
    var next: nat
    var row: seq<Text>
    var cell: OpenCell
    var done: bool

    constructor (document: OfficeDocument, display: Display)
      ensures this.document == document && this.display == display && !done
      ensures (written, number, next, row, cell) == (0, 0, 0, [], NO_CELL)
    {
      this.document, this.display := document, display;
      written, number, next, row, cell, done := 0, 0, 0, [], NO_CELL, false;
    }

    ghost function Out(): Sink
      reads this`done, document
    {
      Sink(document.text, document.full, done)
    }

    ghost function Value(stream: XmlStream): State
      reads this, document, stream
    {
      State(written, number, next, row, cell, Out(), 0, stream.depth, false)
    }

    method StartOf(stream: XmlStream, tag: Tag) returns (err: Error)
      requires stream.next <= |stream.tokens| && stream.depth <= MAX_XML_DEPTH
      modifies this, stream
      ensures document.text == old(document.text) && document.full == old(document.full) && done == old(done)
      ensures old(stream.next) <= stream.next <= |stream.tokens|
      ensures var ran := Run(display, Begin(old(Value(stream)), tag), stream.tokens[old(stream.next)..stream.next]);
        match err
        case NoError => ran == Value(stream)
        case Error(_) =>
          && ran.sink == old(Out())
          && StopsAt(ran.tooDeep, ran.skipping, stream.next == |stream.tokens|, stream.fault, err)
    {
      ghost var from := stream.next;
      assert stream.tokens[from..from] == [];
      match tag {
        case Sheet(RowPart(given)) => StartRow(given);
        case Sheet(CellPart(reference, kind, style)) => StartCell(reference, kind, style);
        case Sheet(ValuePart) => cell := cell.(inValue := true);
        case Sheet(InlinePart) => cell := cell.(inInline := true);
        case T => cell := cell.(inText := cell.inInline);
        case Sheet(FormulaPart) | Sheet(PhoneticPart) =>
          err := SkipOver(stream, tag);
          return err;
        case _ =>
      }
      return NoError;
    }

    method SkipOver(stream: XmlStream, tag: Tag) returns (err: Error)
      requires stream.next <= |stream.tokens| && stream.depth <= MAX_XML_DEPTH
      requires tag == Sheet(FormulaPart) || tag == Sheet(PhoneticPart)
      modifies stream
      ensures old(stream.next) <= stream.next <= |stream.tokens|
      ensures var ran := Run(display, Begin(old(Value(stream)), tag), stream.tokens[old(stream.next)..stream.next]);
        match err
        case NoError => ran == Value(stream)
        case Error(_) =>
          && ran.sink == Out()
          && StopsAt(ran.tooDeep, ran.skipping, stream.next == |stream.tokens|, stream.fault, err)
    {
      ghost var s, from := Begin(Value(stream), tag), stream.next;
      err := stream.Skip();
      RunPast(display, s, stream.tokens[from..stream.next], stream.next == |stream.tokens|, stream.fault, err);
    }

    method StartRow(given: Text)
      modifies this`number, this`row, this`next
      ensures number == NumberFrom(old(number), given) && row == [] && next == 0
    {
      number := Increment(number);
      var named := Atoi(given);
      if named.Number? && named.value > 0 {
        number := named.value;
      }
      row, next := [], 0;
    }

    method StartCell(reference: Text, kind: Text, style: Text)
      modifies this`cell
      ensures cell == OpenCell(ColumnFrom(reference, next), kind, style, [], [], false, false, false)
    {
      cell := OpenCell(next, kind, style, [], [], false, false, false);
      var column := ColumnIndex(reference);
      if column >= 0 {
        cell := cell.(column := column);
      }
    }

    method EndOf(tag: Tag, ghost stream: XmlStream)
      requires !done
      modifies this, document
      ensures Value(stream) == Finish(display, old(Value(stream)), tag)
    {
      match tag {
        case Sheet(ValuePart) => cell := cell.(inValue := false);
        case T => cell := cell.(inText := false);
        case Sheet(InlinePart) => cell := cell.(inInline := false);
        case Sheet(CellPart(_, _, _)) =>
          var value := Flatten(display(cell.kind, cell.style, cell.value, cell.inline));
          if |value| > 0 {
            row := PutIn(row, cell.column, value);
          }
          next := cell.column + 1;
        case Sheet(RowPart(_)) =>
          if |row| > 0 {
            WriteRow(Value(stream));
          }
        case _ =>
      }
    }

    /** Writes the row, after a line that says which were empty before it, until the document is full. */
    method WriteRow(ghost s: State)
      requires s.sink == Out() && (s.written, s.number, s.row) == (written, number, row) && !done
      modifies this`written, this`done, document
      ensures var put := PutOut(s); (put.sink, put.written) == (Out(), written)
    {
      WritesRow(s.sink, s.written, Numbered(s.number, s.row));
      var skipped := SkippedRows(written, number);
      if |skipped| > 0 {
        var ok := PutLine(skipped);
        if !ok {
          return;
        }
      }
      var ok := PutLine(Join(row, TAB));
      if ok {
        written := number;
      }
    }

    method TakeText(text: Text, ghost stream: XmlStream, ghost s: State)
      requires Value(stream) == s
      modifies this`cell
      ensures Value(stream) == Step(display, s, CharData(text))
    {
      if cell.inValue {
        cell := cell.(value := cell.value + text);
      } else if cell.inText {
        cell := cell.(inline := cell.inline + text);
      }
    }

    method PutLine(line: Text) returns (ok: bool)
      modifies this`done, document
      ensures Out() == Emit(old(Out()), line) && ok == !done
    {
      var put := document.Line(line);
      done := done || !put;
      return !done;
    }

    /** Reads one token and acts on it. */
    method ReadToken(stream: XmlStream) returns (turn: Turn)
      requires stream.next <= |stream.tokens| && !done
      modifies this, stream, document
      ensures old(stream.next) <= stream.next <= |stream.tokens|
      ensures var ran := Run(display, old(Value(stream)), stream.tokens[old(stream.next)..stream.next]);
        match turn
        case Go => ran == Value(stream) && old(stream.next) < stream.next
        case Stop(err) =>
          && ran.sink == Out() == old(Out())
          && StopsAt(ran.tooDeep, ran.skipping, stream.next == |stream.tokens|, stream.fault, err)
    {
      ghost var start, from := Value(stream), stream.next;
      assert stream.tokens[from..from] == [];
      var read := stream.Token();
      if stream.next > from {
        RunFrom(display, start, stream.tokens, from, from + 1);
        assert stream.tokens[from + 1..from + 1] == [];
      }
      match read {
        case Failed(EndOfFile) => return Stop(NoError);
        case Failed(why) => return Stop(Error(why));
        case Got(StartElement(tag)) =>
          turn := TakeStart(stream, tag, start);
        case Got(EndElement(tag)) =>
          TakeEnd(tag, stream, start);
          return Go;
        case Got(CharData(text)) =>
          TakeText(text, stream, start);
          return Go;
      }
    }

    method TakeEnd(tag: Tag, ghost stream: XmlStream, ghost s: State)
      requires Value(stream) == s.(depth := s.depth - 1) && !done
      modifies this, document
      ensures Value(stream) == Step(display, s, EndElement(tag))
    {
      EndOf(tag, stream);
    }

    method TakeStart(stream: XmlStream, tag: Tag, ghost s: State) returns (turn: Turn)
      requires 0 < stream.next <= |stream.tokens| && stream.tokens[stream.next - 1] == StartElement(tag)
      requires Value(stream) == s.(depth := s.depth + 1) && stream.depth <= MAX_XML_DEPTH
      modifies this, stream
      ensures document.text == old(document.text) && document.full == old(document.full) && done == old(done)
      ensures old(stream.next) <= stream.next <= |stream.tokens|
      ensures var ran := Run(display, s, stream.tokens[old(stream.next) - 1..stream.next]);
        match turn
        case Go => ran == Value(stream)
        case Stop(err) =>
          && ran.sink == Out()
          && StopsAt(ran.tooDeep, ran.skipping, stream.next == |stream.tokens|, stream.fault, err)
    {
      ghost var from := stream.next;
      var err := StartOf(stream, tag);
      RunFrom(display, s, stream.tokens, from - 1, stream.next);
      return if err.Error? then Stop(err) else Go;
    }

    /**
     Reads the stream to its end, or until the document is full: what it
     leaves, and the error it returns, are those of the run over every token.
     */
    method Read(stream: XmlStream) returns (err: Error)
      requires stream.next <= |stream.tokens| && !done
      modifies this, stream, document
      ensures Out() == Run(display, old(Value(stream)), stream.tokens[old(stream.next)..]).sink
      ensures err == Verdict(Run(display, old(Value(stream)), stream.tokens[old(stream.next)..]), stream.fault)
    {
      ghost var start, from := Value(stream), stream.next;
      assert stream.tokens[from..from] == [];
      while !done
        invariant from <= stream.next <= |stream.tokens|
        invariant Value(stream) == Run(display, start, stream.tokens[from..stream.next])
        decreases |stream.tokens| - stream.next
      {
        ghost var at := stream.next;
        var turn := ReadToken(stream);
        RunOn(display, start, stream.tokens, from, at, stream.next);
        if turn.Stop? {
          ReadStops(display, start, stream.tokens, from, stream.next);
          return turn.err;
        }
      }
      ReadStops(display, start, stream.tokens, from, stream.next);
      return NoError;
    }
  }

  /** Reads a worksheet: its document gets the lines of its rows, as far as it takes them. */
  method ReadSheet(document: OfficeDocument, stream: XmlStream, display: Display, ghost c: Content)
    returns (err: Error)
    requires stream.tokens == Tokens(c) && stream.next == 0 && stream.depth == 0 && stream.fault == EndOfFile
    requires IsSheet(c) && Height(c) <= MAX_XML_DEPTH
    modifies stream, document
    ensures err == NoError
    ensures var end := EmitAll(Sink(old(document.text), old(document.full), false),
                               WrittenAll(Lines(0, Shown(RowsOf(display, c), 0))));
      document.text == end.text && document.full == end.full
  {
    var reader := new SheetReader(document, display);
    SheetIsRead(display, reader.Out(), c);
    assert stream.tokens[0..] == Tokens(c) && reader.Value(stream) == Fresh(reader.Out());
    err := reader.Read(stream);
  }

  /** The lines of a row are put out one after the other. */
  lemma WritesRow(sink: Sink, written: Int, row: Numbered)
    ensures var skipped, values := SkippedRows(written, row.number), Join(row.values, TAB);
      EmitAll(sink, WrittenAll(RowLines(written, row)))
      == if |skipped| == 0 then Emit(sink, values) else Emit(Emit(sink, skipped), values)
  {
    var values := Values(row.number, row.values);
    assert WrittenAll([values]) == [Written(values)] + WrittenAll([]);
    EmitAllOne(sink, Written(values));
    if row.number > Increment(written) {
      var gap := Empty(Increment(written), row.number - 1);
      assert RowLines(written, row) == [gap, values] && [gap, values][1..] == [values];
      EmitAllOne(Emit(sink, Written(gap)), Written(values));
      assert [Written(gap), Written(values)][1..] == [Written(values)];
    }
  }
}
