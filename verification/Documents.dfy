/** The text read out of an Office document, line by line and up to a budget (internal/fileview/office.go). */
module Documents {
  import opened Bytes

  const DOCUMENT_TEXT_BYTES := 0x80_0000

  /** Where finished lines go: the document's text, whether it is full, and whether the walk has been told to stop. */
  datatype Sink = Sink(text: Text, full: bool, done: bool)

  function Emit(sink: Sink, line: Text): Sink {
    if sink.full then sink.(done := true)
    else if |sink.text| + |line| + 1 > DOCUMENT_TEXT_BYTES then sink.(full := true, done := true)
    else sink.(text := sink.text + line + [NEWLINE])
  }

  function EmitAll(sink: Sink, lines: seq<Text>): Sink
    decreases |lines|
  {
    if lines == [] then sink else EmitAll(Emit(sink, lines[0]), lines[1..])
  }

  lemma {:induction false} EmitAllConcat(sink: Sink, a: seq<Text>, b: seq<Text>)
    ensures EmitAll(sink, a + b) == EmitAll(EmitAll(sink, a), b)
    decreases |a|
  {
    if a == [] {
      assert a + b == b;
    } else {
      EmitAllConcat(Emit(sink, a[0]), a[1..], b);
      assert (a + b)[1..] == a[1..] + b;
    }
  }

  lemma EmitAllOne(sink: Sink, line: Text)
    ensures EmitAll(sink, [line]) == Emit(sink, line)
  {
    assert [line][1..] == [];
  }

  /** What becomes of a sink: nothing once it has been stopped, and it is stopped only when full. */
  predicate Later(a: Sink, b: Sink) {
    && (a.full && a.done ==> b == a)
    && ((a.done ==> a.full) ==> (b.done ==> b.full))
  }

  lemma {:induction false} EmitAllSink(sink: Sink, lines: seq<Text>)
    ensures Later(sink, EmitAll(sink, lines))
    decreases |lines|
  {
    if lines != [] {
      EmitAllSink(Emit(sink, lines[0]), lines[1..]);
    }
  }

  class OfficeDocument {
    var text: Text
    var full: bool

    constructor ()
      ensures text == [] && !full
    {
      text, full := [], false;
    }

    method Line(line: Text) returns (ok: bool)
      modifies this
      ensures Sink(text, full, !ok) == Emit(Sink(old(text), old(full), false), line)
    {
      if full {
        return false;
      }
      if |text| + |line| + 1 > DOCUMENT_TEXT_BYTES {
        full := true;
        return false;
      }
      text := text + line;
      text := text + [NEWLINE];
      return true;
    }
  }
}
