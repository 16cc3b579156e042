/**
 Reading a worksheet's rows as lines of text (internal/fileview/sheets.go):
 a cell goes in the column its reference names, and a line in brackets says
 which rows between two were empty.
 */
module Sheets {
  import opened Bytes
  import opened Decimal
  import opened Splitting

  // ----- Column names

  const MAX_COLUMNS := 16384

  predicate Letter(b: byte) { 0x41 <= b <= 0x5A || 0x61 <= b <= 0x7A }

  /** The byte with its sixth bit set: a letter in lower case. */
  function WithBit(b: byte): (letter: byte)
    ensures 0x61 <= letter <= 0x7A <==> Letter(b)
  {
    if (b as int / 0x20) % 2 == 1 then b else b + 0x20
  }

  function LetterValue(b: byte): (v: nat)
    requires Letter(b)
    ensures 1 <= v <= 26
  {
    WithBit(b) as nat - 0x60
  }

  predicate AllLetters(letters: Text) {
    forall i :: 0 <= i < |letters| ==> Letter(letters[i])
  }

  /** A numeral without a zero, in base 26. */
  function Value26(letters: Text): nat
    requires AllLetters(letters)
  {
    if letters == [] then 0
    else Value26(letters[..|letters| - 1]) * 26 + LetterValue(letters[|letters| - 1])
  }

  /** The numeral of a number from 1 on, in capitals. */
  function Name26(n: nat): (name: Text)
    ensures AllLetters(name) && (name == [] <==> n == 0)
  {
    if n == 0 then [] else Name26((n - 1) / 26) + [(0x41 + (n - 1) % 26) as byte]
  }

  lemma {:induction false} ValueOfName(n: nat)
    ensures Value26(Name26(n)) == n
  {
    if n > 0 {
      ValueOfName((n - 1) / 26);
      assert Name26(n)[..|Name26(n)| - 1] == Name26((n - 1) / 26);
    }
  }

  /** How many letters a text begins with. */
  function LetterCount(text: Text): (n: nat)
    ensures n <= |text| && AllLetters(text[..n]) && (n < |text| ==> !Letter(text[n]))
  {
    if text == [] || !Letter(text[0]) then 0
    else
      var rest := LetterCount(text[1..]);
      assert text[..rest + 1] == [text[0]] + text[1..][..rest];
      rest + 1
  }

  /** A longer numeral is worth more. */
  lemma {:induction false} ValueGrows(letters: Text, n: nat)
    requires AllLetters(letters) && n <= |letters|
    ensures Value26(letters[..n]) <= Value26(letters)
    decreases |letters|
  {
    if n < |letters| {
      var init := letters[..|letters| - 1];
      assert init[..n] == letters[..n];
      ValueGrows(init, n);
    } else {
      assert letters[..n] == letters;
    }
  }

  /** The column a reference's letters name, or -1 when a sheet has none of that name. */
  function ColumnOf(reference: Text): (column: int)
    ensures -1 <= column < MAX_COLUMNS
  {
    var value := Value26(reference[..LetterCount(reference)]);
    if value > MAX_COLUMNS then -1 else value - 1
  }

  method ColumnIndex(reference: Text) returns (index: int)
    ensures index == ColumnOf(reference)
  {
    var column, at := 0, 0;
    ghost var letters := reference[..LetterCount(reference)];
    while at < |reference|
      invariant 0 <= at <= |letters|
      invariant column == Value26(letters[..at]) <= MAX_COLUMNS
    {
      var letter := WithBit(reference[at]);
      if letter < 0x61 || letter > 0x7A {
        break;
      }
      assert at < |letters|;
      assert letters[..at + 1][..at] == letters[..at] && letters[at] == reference[at];
      column := column * 26 + (letter as int - 0x61) + 1;
      if column > MAX_COLUMNS {
        ValueGrows(letters, at + 1);
        return -1;
      }
      at := at + 1;
    }
    assert letters[..at] == letters;
    return column - 1;
  }

  /**
   The name of every column a sheet can have is read back as that column,
   whatever follows its letters, and every other name as none.
   */
  lemma ColumnOfName(column: nat, after: Text)
    requires after == [] || !Letter(after[0])
    ensures ColumnOf(Name26(column + 1) + after) == if column < 16384 then column else -1
  {
    var name := Name26(column + 1);
    LettersOf(name, after);
    ValueOfName(column + 1);
    assert (name + after)[..|name|] == name;
  }

  lemma {:induction false} LettersOf(letters: Text, after: Text)
    requires AllLetters(letters) && (after == [] || !Letter(after[0]))
    ensures LetterCount(letters + after) == |letters|
    decreases |letters|
  {
    if letters == [] {
      assert letters + after == after;
    } else {
      assert (letters + after)[1..] == letters[1..] + after;
      LettersOf(letters[1..], after);
    }
  }

  // ----- A row

  /** A cell: the reference it carries, and what it shows. */
  datatype Cell = Cell(reference: Text, shown: Text)

  /** Line endings and tabs become spaces, a carriage return and newline one. */
  function Flatten(text: Text): Text {
    var n := |text|;
    if n == 0 then []
    else if n >= 2 && text[n - 2] == RETURN && text[n - 1] == NEWLINE then Flatten(text[..n - 2]) + [SPACE]
    else
      var last := text[n - 1];
      Flatten(text[..n - 1]) + [if last == TAB || last == NEWLINE || last == RETURN then SPACE else last]
  }

  lemma {:induction false} FlatIsOneLine(text: Text)
    ensures forall i :: 0 <= i < |Flatten(text)| ==> Flatten(text)[i] !in {TAB, NEWLINE, RETURN}
    decreases |text|
  {
    var n := |text|;
    if n >= 2 && text[n - 2] == RETURN && text[n - 1] == NEWLINE {
      FlatIsOneLine(text[..n - 2]);
    } else if n > 0 {
      FlatIsOneLine(text[..n - 1]);
    }
  }

  /** The column of each cell: the one its reference names, or the one after the cell before. */
  function Columns(cells: seq<Cell>): (columns: seq<nat>)
    ensures |columns| == |cells|
  {
    if |cells| == 0 then []
    else
      var init := Columns(cells[..|cells| - 1]);
      init + [ColumnAfter(init, cells[|cells| - 1])]
  }

  function ColumnAfter(columns: seq<nat>, cell: Cell): nat {
    ColumnFrom(cell.reference, NextColumn(columns))
  }

  /** The column a reference names, or else the next one. */
  function ColumnFrom(reference: Text, next: nat): nat {
    if ColumnOf(reference) >= 0 then ColumnOf(reference) else next
  }

  function NextColumn(columns: seq<nat>): nat {
    if |columns| == 0 then 0 else columns[|columns| - 1] + 1
  }

  /** The row with a value in a column, and nothing in the columns before that it did not have. */
  function Put(row: seq<Text>, column: nat, value: Text): (put: seq<Text>)
    ensures |put| == if column < |row| then |row| else column + 1
  {
    var padded := if column < |row| then row else row + seq(column + 1 - |row|, i => []);
    padded[column := value]
  }

  lemma PutHas(row: seq<Text>, column: nat, value: Text, k: nat)
    requires k < |Put(row, column, value)|
    ensures Put(row, column, value)[k] == if k == column then value else if k < |row| then row[k] else []
  {
  }

  /** The row with one more cell in it, unless it shows nothing. */
  function WithCell(row: seq<Text>, column: nat, shown: Text): seq<Text> {
    if |Flatten(shown)| == 0 then row else Put(row, column, Flatten(shown))
  }

  /** A row's values: each cell's in its column, unless it shows nothing. */
  function Row(cells: seq<Cell>): seq<Text> {
    if |cells| == 0 then []
    else WithCell(Row(cells[..|cells| - 1]), Columns(cells)[|cells| - 1], cells[|cells| - 1].shown)
  }

  method PutIn(row: seq<Text>, column: nat, value: Text) returns (put: seq<Text>)
    ensures put == Put(row, column, value)
  {
    put := row;
    while |put| <= column
      invariant |put| == |row| || (|row| < |put| <= column + 1)
      invariant put == row + seq(|put| - |row|, i => [])
      decreases column + 1 - |put|
    {
      put := put + [[]];
    }
    put := put[column := value];
  }

  /** The cell whose value a column has: the last one there that shows something, or -1. */
  function Showing(cells: seq<Cell>, column: nat): (i: int)
    ensures -1 <= i < |cells|
  {
    if |cells| == 0 then -1
    else if Columns(cells)[|cells| - 1] == column && |Flatten(cells[|cells| - 1].shown)| > 0 then |cells| - 1
    else Showing(cells[..|cells| - 1], column)
  }

  /** Each column of a row has the value of the cell that shows there, and the row ends in the last such column. */
  lemma {:induction false} RowHasValues(cells: seq<Cell>, column: nat)
    ensures column < |Row(cells)| ==>
      Row(cells)[column] == if Showing(cells, column) < 0 then [] else Flatten(cells[Showing(cells, column)].shown)
    ensures column >= |Row(cells)| ==> Showing(cells, column) < 0
    decreases |cells|
  {
    if |cells| > 0 {
      var init, value := cells[..|cells| - 1], Flatten(cells[|cells| - 1].shown);
      RowHasValues(init, column);
      if |value| > 0 && column < |Row(cells)| {
        PutHas(Row(init), Columns(cells)[|cells| - 1], value, column);
      }
    }
  }

  /**
   How far a row reaches that reached so far before its last cell: as far, or to
   that cell when it shows something.
   */
  function Reach(cells: seq<Cell>, before: nat): nat
    requires |cells| > 0
  {
    var column := Columns(cells)[|cells| - 1];
    if |Flatten(cells[|cells| - 1].shown)| == 0 || column < before then before else column + 1
  }

  function RowLength(cells: seq<Cell>): nat {
    if |cells| == 0 then 0 else Reach(cells, RowLength(cells[..|cells| - 1]))
  }

  lemma {:induction false} RowReaches(cells: seq<Cell>)
    ensures |Row(cells)| == RowLength(cells)
    decreases |cells|
  {
    if |cells| > 0 {
      RowReaches(cells[..|cells| - 1]);
    }
  }

  lemma RowEndsInValue(cells: seq<Cell>)
    ensures |Row(cells)| > 0 ==> Showing(cells, |Row(cells)| - 1) >= 0
  {
    RowReaches(cells);
    LengthEndsInValue(cells);
  }

  lemma {:induction false} LengthEndsInValue(cells: seq<Cell>)
    ensures RowLength(cells) > 0 ==> Showing(cells, RowLength(cells) - 1) >= 0
    decreases |cells|
  {
    if RowLength(cells) > 0 {
      LengthEndsInValue(cells[..|cells| - 1]);
      ShowsOrShowed(cells, RowLength(cells) - 1);
    }
  }

  lemma ShowsOrShowed(cells: seq<Cell>, column: int)
    requires |cells| > 0 && column >= 0
    ensures Showing(cells, column) >= 0
      <==>
      || (Columns(cells)[|cells| - 1] == column && |Flatten(cells[|cells| - 1].shown)| > 0)
      || Showing(cells[..|cells| - 1], column) >= 0
  {
  }

  /** The line of a row, split on its tabs, is the row. */
  lemma {:induction false} LineSplits(cells: seq<Cell>)
    requires Row(cells) != []
    ensures Split(Join(Row(cells), TAB), TAB) == Row(cells)
  {
    var row := Row(cells);
    forall k | 0 <= k < |row| ensures TAB !in row[k] {
      RowHasValues(cells, k);
      if Showing(cells, k) >= 0 {
        FlatIsOneLine(cells[Showing(cells, k)].shown);
      }
    }
    SplitJoin(row, TAB);
  }

  // ----- The rows of a sheet

  /** A row: the number it carries, if it does, and its cells. */
  datatype RowElement = RowElement(number: Text, cells: seq<Cell>)

  /** A row's number: the one it carries, or the one after the row before. */
  function NumberAfter(number: Int, row: RowElement): Int { NumberFrom(number, row.number) }

  function NumberFrom(number: Int, given: Text): Int {
    match Atoi(given)
    case NotANumber => Increment(number)
    case Number(given) => if given > 0 then given else Increment(number)
  }

  /** A row that shows something. */
  datatype Numbered = Numbered(number: Int, values: seq<Text>)

  /** A row of a number, if it shows something. */
  function ShownRow(number: Int, cells: seq<Cell>): seq<Numbered> {
    if |Row(cells)| == 0 then [] else [Numbered(number, Row(cells))]
  }

  /** The rows that show something, with their numbers, after a row of a number. */
  function Shown(rows: seq<RowElement>, number: Int): seq<Numbered>
    decreases |rows|
  {
    if rows == [] then []
    else
      var own := NumberAfter(number, rows[0]);
      ShownRow(own, rows[0].cells) + Shown(rows[1..], own)
  }

  /** A line of the sheet: a row's values, or the rows between two that are empty. */
  datatype Line = Values(number: int, values: seq<Text>) | Empty(first: int, last: int)

  const ROW_OPEN: Text := [40, 114, 111, 119, 32]
  const IS_EMPTY: Text := [32, 105, 115, 32, 101, 109, 112, 116, 121, 41]
  const ROWS_OPEN: Text := [40, 114, 111, 119, 115, 32]
  const ARE_EMPTY: Text := [32, 97, 114, 101, 32, 101, 109, 112, 116, 121, 41]

  /** "(row 2 is empty)", "(rows 2-5 are empty)", or the values between tabs. */
  function Written(line: Line): Text {
    match line
    case Values(_, values) => Join(values, TAB)
    case Empty(first, last) =>
      if first == last then ROW_OPEN + Itoa(first) + IS_EMPTY
      else ROWS_OPEN + Itoa(first) + [HYPHEN] + Itoa(last) + ARE_EMPTY
  }

  function WrittenAll(lines: seq<Line>): seq<Text> {
    if lines == [] then [] else [Written(lines[0])] + WrittenAll(lines[1..])
  }

  /** The lines for a row, after the row last written. */
  function RowLines(written: Int, row: Numbered): seq<Line> {
    (if row.number <= Increment(written) then [] else [Empty(Increment(written), row.number - 1)])
    + [Values(row.number, row.values)]
  }

  function Lines(written: Int, rows: seq<Numbered>): seq<Line>
    decreases |rows|
  {
    if rows == [] then [] else RowLines(written, rows[0]) + Lines(rows[0].number, rows[1..])
  }

  /** As the source says it. */
  function SkippedRows(written: Int, number: Int): Text {
    var first := Increment(written);
    if number <= first then []
    else if number == Increment(first) then ROW_OPEN + Itoa(first) + IS_EMPTY
    else ROWS_OPEN + Itoa(first) + [HYPHEN] + Itoa(number - 1) + ARE_EMPTY
  }

  // ----- Every row is accounted for

  /** The numbers from one up to another. */
  function Range(first: int, last: int): (numbers: seq<int>)
    ensures last >= first ==> |numbers| == last - first + 1
    ensures forall i :: 0 <= i < |numbers| ==> numbers[i] == first + i
  {
    if last < first then [] else seq(last - first + 1, i => first + i)
  }

  /** The rows a line accounts for. */
  function Accounts(line: Line): seq<int> {
    match line case Values(number, _) => [number] case Empty(first, last) => Range(first, last)
  }

  function AccountsAll(lines: seq<Line>): seq<int> {
    if lines == [] then [] else Accounts(lines[0]) + AccountsAll(lines[1..])
  }

  /** Each row after the one before, from the row last written on. */
  predicate Increasing(written: Int, rows: seq<Numbered>)
    decreases |rows|
  {
    rows == [] || (rows[0].number > written && Increasing(rows[0].number, rows[1..]))
  }

  function LastNumber(written: Int, rows: seq<Numbered>): Int {
    if rows == [] then written else rows[|rows| - 1].number
  }

  lemma {:induction false} AccountsConcat(a: seq<Line>, b: seq<Line>)
    ensures AccountsAll(a + b) == AccountsAll(a) + AccountsAll(b)
    decreases |a|
  {
    if a == [] {
      assert a + b == b;
    } else {
      assert (a + b)[1..] == a[1..] + b;
      AccountsConcat(a[1..], b);
    }
  }

  lemma RowAccounts(written: Int, row: Numbered)
    ensures row.number > written ==> AccountsAll(RowLines(written, row)) == Range(written + 1, row.number)
    ensures row.number <= written ==>
      AccountsAll(RowLines(written, row)) != [] && AccountsAll(RowLines(written, row))[0] != written + 1
  {
    var values := Values(row.number, row.values);
    assert AccountsAll([values]) == [row.number];
    if row.number > Increment(written) {
      assert RowLines(written, row)[1..] == [values];
      if row.number > written {
        assert Range(written + 1, row.number - 1) + [row.number] == Range(written + 1, row.number);
      }
    }
  }

  /**
   The lines of a sheet account for each row from the first to the last one
   shown exactly once, in order, if and only if the rows' numbers increase.
   */
  lemma {:induction false} LinesAccountForRows(written: Int, rows: seq<Numbered>)
    ensures AccountsAll(Lines(written, rows)) == Range(written + 1, LastNumber(written, rows))
      <==> Increasing(written, rows)
    decreases |rows|
  {
    if rows != [] {
      var number, rest := rows[0].number, Lines(rows[0].number, rows[1..]);
      LinesAccountForRows(number, rows[1..]);
      AccountsConcat(RowLines(written, rows[0]), rest);
      RowAccounts(written, rows[0]);
      assert LastNumber(number, rows[1..]) == LastNumber(written, rows);
      if number > written {
        RangeSplits(written, number, LastNumber(written, rows), AccountsAll(rest));
      } else {
        assert AccountsAll(Lines(written, rows))[0] == AccountsAll(RowLines(written, rows[0]))[0];
      }
    }
  }

  lemma RangeSplits(written: int, number: int, last: int, rest: seq<int>)
    requires number > written
    ensures Range(written + 1, number) + rest == Range(written + 1, last)
      <==> last >= number && rest == Range(number + 1, last)
  {
    var all := Range(written + 1, number) + rest;
    if last >= number && rest == Range(number + 1, last) {
      assert all == Range(written + 1, last);
    }
    if all == Range(written + 1, last) {
      assert |Range(written + 1, number)| == number - written;
      assert forall i :: 0 <= i < |rest| ==> all[number - written + i] == rest[i];
    }
  }
}
