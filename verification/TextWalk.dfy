/**
 The walker that turns WordprocessingML or DrawingML into lines
 (internal/fileview/office.go): a stack machine over the token stream of a
 part, and the recursive definition over the document tree it computes.
 */
module TextWalk {
  import opened Bytes
  import opened Splitting
  import opened Xml
  import opened Documents

  predicate Skipped(tag: Tag) {
    tag.Fallback? || tag.InstrText? || tag.DelText? || tag.DelInstrText?
  }

  // ----- Frames

  datatype Frame =
    | ParagraphFrame(text: Text, after: seq<Text>)
    | RowFrame(cells: seq<Text>)
    | CellFrame(text: Text)

  /** Tabs and newlines as spaces. */
  function Spaced(text: Text): Text {
    seq(|text|, i requires 0 <= i < |text| => if text[i] == TAB || text[i] == NEWLINE then SPACE else text[i])
  }

  /** A cell's text with one more paragraph or nested row in it. */
  function InCell(cell: Text, line: Text): Text {
    (if |cell| > 0 then cell + [SPACE] else cell) + Spaced(line)
  }

  function AllInCell(cell: Text, lines: seq<Text>): Text
    decreases |lines|
  {
    if lines == [] then cell else AllInCell(InCell(cell, lines[0]), lines[1..])
  }

  lemma {:induction false} AllInCellConcat(cell: Text, a: seq<Text>, b: seq<Text>)
    ensures AllInCell(cell, a + b) == AllInCell(AllInCell(cell, a), b)
    decreases |a|
  {
    if a == [] {
      assert a + b == b;
    } else {
      AllInCellConcat(InCell(cell, a[0]), a[1..], b);
      assert (a + b)[1..] == a[1..] + b;
    }
  }

  lemma AllInCellOne(cell: Text, line: Text)
    ensures AllInCell(cell, [line]) == InCell(cell, line)
  {
    assert [line][1..] == [];
  }

  /**
   What a stretch of content does to what is around it: the text it adds to
   the paragraph around it, the finished lines it hands on, and the cells it
   adds to the row around it.
   */
  datatype Effect = Effect(written: Text, delivered: seq<Text>, cells: seq<Text>)

  const NONE := Effect([], [], [])

  function Plus(a: Effect, b: Effect): Effect {
    Effect(a.written + b.written, a.delivered + b.delivered, a.cells + b.cells)
  }

  /** Whether a row is open. */
  predicate HasRow(frames: seq<Frame>) {
    frames != [] && (frames[|frames| - 1].RowFrame? || HasRow(frames[..|frames| - 1]))
  }

  /** A frame once it has taken its part of an effect, and the part it passes on to the frames around it. */
  function Taken(frame: Frame, e: Effect): Frame {
    match frame
    case ParagraphFrame(text, after) => ParagraphFrame(text + e.written, after + e.delivered)
    case RowFrame(cells) => RowFrame(cells + e.cells)
    case CellFrame(text) => CellFrame(AllInCell(text, e.delivered))
  }

  function Passed(frame: Frame, e: Effect): Effect {
    match frame
    case ParagraphFrame(_, _) => Effect([], [], e.cells)
    case RowFrame(_) => Effect(e.written, e.delivered, [])
    case CellFrame(_) => Effect(e.written, [], e.cells)
  }

  /**
   An effect on the open frames, innermost last: each part goes to the
   innermost frame that takes it, and lines no frame takes are emitted.
   */
  function Put(frames: seq<Frame>, sink: Sink, e: Effect): (r: (seq<Frame>, Sink))
    ensures |r.0| == |frames|
  {
    if frames == [] then ([], EmitAll(sink, e.delivered))
    else
      var below, top := frames[..|frames| - 1], frames[|frames| - 1];
      var (rest, out) := Put(below, sink, Passed(top, e));
      (rest + [Taken(top, e)], out)
  }

  lemma {:induction false} HasRowPut(frames: seq<Frame>, sink: Sink, e: Effect)
    ensures HasRow(Put(frames, sink, e).0) == HasRow(frames)
  {
    if frames != [] {
      var top := frames[|frames| - 1];
      var put := Put(frames, sink, e).0;
      HasRowPut(frames[..|frames| - 1], sink, Passed(top, e));
      assert put[..|put| - 1] == Put(frames[..|frames| - 1], sink, Passed(top, e)).0;
    }
  }

  lemma {:induction false} PutNone(frames: seq<Frame>, sink: Sink)
    ensures Put(frames, sink, NONE) == (frames, sink)
  {
    if frames != [] {
      var top := frames[|frames| - 1];
      PutNone(frames[..|frames| - 1], sink);
      assert Taken(top, NONE) == top && Passed(top, NONE) == NONE;
      assert frames == frames[..|frames| - 1] + [top];
    }
  }

  lemma {:induction false} PutPlus(frames: seq<Frame>, sink: Sink, a: Effect, b: Effect)
    ensures Put(Put(frames, sink, a).0, Put(frames, sink, a).1, b) == Put(frames, sink, Plus(a, b))
  {
    if frames == [] {
      EmitAllConcat(sink, a.delivered, b.delivered);
    } else {
      var below, top := frames[..|frames| - 1], frames[|frames| - 1];
      var mid := Put(frames, sink, a).0;
      assert mid[..|mid| - 1] == Put(below, sink, Passed(top, a)).0;
      PutPlus(below, sink, Passed(top, a), Passed(top, b));
      assert Plus(Passed(top, a), Passed(top, b)) == Passed(top, Plus(a, b));
      assert Taken(Taken(top, a), b) == Taken(top, Plus(a, b)) by {
        if top.CellFrame? { AllInCellConcat(top.text, a.delivered, b.delivered); }
      }
    }
  }

  // ----- The walk, token by token

  /** Everything the walk keeps: the walker's fields, the stream's depth, and the Skip it is inside, if any. */
  datatype State = State(
    frames: seq<Frame>, sink: Sink, runs: int, inText: bool,
    depth: int, skipping: nat, tooDeep: bool)

  const START := State([], Sink([], false, false), 0, false, 0, 0, false)

  function Apply(s: State, e: Effect): State {
    var (frames, sink) := Put(s.frames, s.sink, e);
    s.(frames := frames, sink := sink)
  }

  lemma ApplyPlus(s: State, a: Effect, b: Effect)
    ensures Apply(Apply(s, a), b) == Apply(s, Plus(a, b))
  {
    PutPlus(s.frames, s.sink, a, b);
  }

  lemma ApplyNone(s: State)
    ensures Apply(s, NONE) == s
  {
    PutNone(s.frames, s.sink);
  }

  function Written(text: Text): Effect { Effect(text, [], []) }

  function Delivered(lines: seq<Text>): Effect { Effect([], lines, []) }

  function Start(s: State, tag: Tag): State {
    match tag
    case Fallback | InstrText | DelText | DelInstrText => s.(skipping := 1)
    case P => s.(frames := s.frames + [ParagraphFrame([], [])])
    case Tr => s.(frames := s.frames + [RowFrame([])])
    case Tc => s.(frames := s.frames + [CellFrame([])])
    case R => s.(runs := s.runs + 1)
    case T => s.(inText := true)
    case Tab | PTab => if s.runs > 0 then Apply(s, Written([TAB])) else s
    case Br | Cr => Apply(s, Written([NEWLINE]))
    case NoBreakHyphen => Apply(s, Written([HYPHEN]))
    case Other | Sheet(_) => s
  }

  function Close(s: State): State {
    if s.frames == [] then s
    else
      var rest := s.(frames := s.frames[..|s.frames| - 1]);
      match s.frames[|s.frames| - 1]
      case ParagraphFrame(text, after) => Apply(rest, Delivered([text] + after))
      case RowFrame(cells) => Apply(rest, Delivered([Join(cells, TAB)]))
      case CellFrame(text) =>
        if HasRow(rest.frames) then Apply(rest, Effect([], [], [text]))
        else Apply(rest, Delivered([text]))
  }

  function End(s: State, tag: Tag): State {
    match tag
    case T => s.(inText := false)
    case R => s.(runs := s.runs - 1)
    case P | Tr | Tc => Close(s)
    case _ => s
  }

  function Step(s: State, token: Token): State {
    if s.tooDeep then s
    else
      match token
      case CharData(text) =>
        if s.skipping == 0 && s.inText then Apply(s, Written(text)) else s
      case StartElement(tag) =>
        var d := s.(depth := s.depth + 1);
        if d.depth > MAX_XML_DEPTH then d.(tooDeep := true)
        else if s.skipping > 0 then d.(skipping := s.skipping + 1)
        else Start(d, tag)
      case EndElement(tag) =>
        var d := s.(depth := s.depth - 1);
        if s.skipping > 0 then d.(skipping := s.skipping - 1)
        else End(d, tag)
  }

  function Run(s: State, tokens: seq<Token>): State {
    if tokens == [] then s else Step(Run(s, tokens[..|tokens| - 1]), tokens[|tokens| - 1])
  }

  lemma {:induction false} RunConcat(s: State, a: seq<Token>, b: seq<Token>)
    ensures Run(s, a + b) == Run(Run(s, a), b)
    decreases |b|
  {
    if b == [] {
      assert a + b == a;
    } else {
      RunConcat(s, a, b[..|b| - 1]);
      assert (a + b)[..|a + b| - 1] == a + b[..|b| - 1];
    }
  }

  lemma RunOne(s: State, token: Token)
    ensures Run(s, [token]) == Step(s, token)
  {
    assert [token][..0] == [];
    assert Run(s, [token][..0]) == s;
  }

  // ----- The recursive definition

  /** Whether characters after the content are still text: a `t` that ended means they are not. */
  function TextAfter(c: Content, on: bool): bool {
    match c
    case Nothing => on
    case Characters(_, next) => TextAfter(next, on)
    case Element(tag, inner, next) =>
      TextAfter(next, if Skipped(tag) then on else if tag.T? then false else TextAfter(inner, on))
  }

  /**
   What content says, by recursion over the tree. `row` is whether a row is
   around it, `runs` how many runs are, and `on` whether its characters are
   text.
   */
  function Meaning(c: Content, row: bool, runs: int, on: bool): Effect
    decreases c, 0
  {
    match c
    case Nothing => NONE
    case Characters(text, next) =>
      Plus(Written(if on then text else []), Meaning(next, row, runs, on))
    case Element(tag, inner, next) =>
      Plus(ElementMeaning(tag, inner, row, runs, on),
           Meaning(next, row, runs, if Skipped(tag) then on else if tag.T? then false else TextAfter(inner, on)))
  }

  /**
   What a paragraph, row or cell makes of what is in it. A paragraph is a
   line, followed by the lines anchored in it. A row is a line too, its cells
   separated by tabs. A cell is the lines in it, on one line, and belongs to
   the row around it if there is one.
   */
  function Framed(tag: Tag, e: Effect, row: bool): Effect
    requires Frames(tag)
  {
    if tag.P? then Effect([], [e.written] + e.delivered, e.cells)
    else if tag.Tr? then Effect(e.written, e.delivered + [Join(e.cells, TAB)], [])
    else if row then Effect(e.written, [], e.cells + [AllInCell([], e.delivered)])
    else Effect(e.written, [AllInCell([], e.delivered)], e.cells)
  }

  /** What an element writes of itself. */
  function Mark(tag: Tag, runs: int): Text {
    match tag
    case Tab | PTab => if runs > 0 then [TAB] else []
    case Br | Cr => [NEWLINE]
    case NoBreakHyphen => [HYPHEN]
    case _ => []
  }

  predicate Frames(tag: Tag) { tag.P? || tag.Tr? || tag.Tc? }

  function ElementMeaning(tag: Tag, inner: Content, row: bool, runs: int, on: bool): Effect
    decreases inner, 1
  {
    if Skipped(tag) then NONE
    else
      var e := Meaning(inner, row || tag.Tr?, if tag.R? then runs + 1 else runs, on || tag.T?);
      if Frames(tag) then Framed(tag, e, row) else Plus(Written(Mark(tag, runs)), e)
  }

  /** Where the walk stands after content, by the recursive definition. */
  ghost function After(s: State, c: Content): State {
    Apply(s, Meaning(c, HasRow(s.frames), s.runs, s.inText)).(inText := TextAfter(c, s.inText))
  }

  /** An effect on a pushed frame and those below it. */
  lemma ApplyPush(s: State, frame: Frame, e: Effect)
    ensures Apply(s.(frames := s.frames + [frame]), e)
         == var below := Apply(s, Passed(frame, e)); below.(frames := below.frames + [Taken(frame, e)])
  {
    var pushed := s.frames + [frame];
    assert pushed[..|pushed| - 1] == s.frames;
  }

  /** A skipped element's content moves only the skip's level, which comes back. */
  lemma {:induction false} RunSkipped(s: State, c: Content)
    requires !s.tooDeep && s.skipping > 0
    requires s.depth + Height(c) <= MAX_XML_DEPTH
    ensures Run(s, Tokens(c)) == s
    decreases c
  {
    match c
    case Nothing =>
    case Characters(text, next) =>
      RunConcat(s, [CharData(text)], Tokens(next));
      RunOne(s, CharData(text));
      RunSkipped(s, next);
    case Element(tag, inner, next) =>
      var within := Step(s, StartElement(tag));
      RunElement(s, tag, inner, next);
      assert within == s.(depth := s.depth + 1, skipping := s.skipping + 1);
      RunSkipped(within, inner);
      assert Step(within, EndElement(tag)) == s;
      RunSkipped(s, next);
  }

  /** The run over an element is the run over its parts. */
  lemma RunElement(s: State, tag: Tag, inner: Content, next: Content)
    ensures Run(s, Tokens(Element(tag, inner, next)))
         == Run(Step(Run(Step(s, StartElement(tag)), Tokens(inner)), EndElement(tag)), Tokens(next))
  {
    var start, end := [StartElement(tag)], [EndElement(tag)];
    RunConcat(s, start + Tokens(inner) + end, Tokens(next));
    RunConcat(s, start + Tokens(inner), end);
    RunConcat(s, start, Tokens(inner));
    RunOne(s, StartElement(tag));
    RunOne(Run(Step(s, StartElement(tag)), Tokens(inner)), EndElement(tag));
  }

  /**
   The stack machine computes the recursive definition: over the tokens of
   any tree no deeper than the stream reads, in any state.
   */
  lemma {:induction false} RunIsMeaning(s: State, c: Content)
    requires !s.tooDeep && s.skipping == 0
    requires s.depth + Height(c) <= MAX_XML_DEPTH
    ensures Run(s, Tokens(c)) == After(s, c)
    decreases c, 0
  {
    match c
    case Nothing =>
      PutNone(s.frames, s.sink);
    case Characters(text, next) =>
      var head := Written(if s.inText then text else []);
      RunConcat(s, [CharData(text)], Tokens(next));
      RunOne(s, CharData(text));
      PutNone(s.frames, s.sink);
      assert Step(s, CharData(text)) == Apply(s, head);
      RunIsMeaning(Apply(s, head), next);
      AfterApply(s, head, s.inText, next);
    case Element(tag, inner, next) =>
      var head := ElementMeaning(tag, inner, HasRow(s.frames), s.runs, s.inText);
      var on := if Skipped(tag) then s.inText else if tag.T? then false else TextAfter(inner, s.inText);
      RunElement(s, tag, inner, next);
      RunOneElement(s, tag, inner);
      RunIsMeaning(Apply(s, head).(inText := on), next);
      AfterApply(s, head, on, next);
  }

  lemma AfterApply(s: State, head: Effect, on: bool, next: Content)
    ensures After(Apply(s, head).(inText := on), next)
         == Apply(s, Plus(head, Meaning(next, HasRow(s.frames), s.runs, on))).(inText := TextAfter(next, on))
  {
    var mid := Apply(s, head);
    var e := Meaning(next, HasRow(s.frames), s.runs, on);
    HasRowPut(s.frames, s.sink, head);
    assert Apply(mid.(inText := on), e) == Apply(mid, e).(inText := on);
    ApplyPlus(s, head, e);
  }

  lemma RunParagraph(s: State, e: Effect)
    ensures HasRow(s.frames + [ParagraphFrame([], [])]) == HasRow(s.frames)
    ensures Close(Apply(s.(frames := s.frames + [ParagraphFrame([], [])]), e))
         == Apply(s, Effect([], [e.written] + e.delivered, e.cells))
  {
    var frame := ParagraphFrame([], []);
    assert (s.frames + [frame])[..|s.frames|] == s.frames;
    ApplyPush(s, frame, e);
    var below := Apply(s, Passed(frame, e));
    assert (below.frames + [Taken(frame, e)])[..|below.frames|] == below.frames;
    ApplyPlus(s, Passed(frame, e), Delivered([e.written] + e.delivered));
    assert Plus(Passed(frame, e), Delivered([e.written] + e.delivered))
      == Effect([], [e.written] + e.delivered, e.cells);
    assert Taken(frame, e) == ParagraphFrame(e.written, e.delivered);
  }

  lemma RunRow(s: State, e: Effect)
    ensures HasRow(s.frames + [RowFrame([])])
    ensures Close(Apply(s.(frames := s.frames + [RowFrame([])]), e))
         == Apply(s, Effect(e.written, e.delivered + [Join(e.cells, TAB)], []))
  {
    var frame := RowFrame([]);
    assert (s.frames + [frame])[..|s.frames|] == s.frames;
    ApplyPush(s, frame, e);
    var below := Apply(s, Passed(frame, e));
    assert (below.frames + [Taken(frame, e)])[..|below.frames|] == below.frames;
    ApplyPlus(s, Passed(frame, e), Delivered([Join(e.cells, TAB)]));
    assert Plus(Passed(frame, e), Delivered([Join(e.cells, TAB)]))
      == Effect(e.written, e.delivered + [Join(e.cells, TAB)], []);
    assert Taken(frame, e) == RowFrame(e.cells);
  }

  lemma RunCell(s: State, e: Effect)
    ensures HasRow(s.frames + [CellFrame([])]) == HasRow(s.frames)
    ensures Close(Apply(s.(frames := s.frames + [CellFrame([])]), e))
         == Apply(s, var text := AllInCell([], e.delivered);
                     if HasRow(s.frames) then Effect(e.written, [], e.cells + [text])
                     else Effect(e.written, [text], e.cells))
  {
    var frame := CellFrame([]);
    var text := AllInCell([], e.delivered);
    assert (s.frames + [frame])[..|s.frames|] == s.frames;
    ApplyPush(s, frame, e);
    var below := Apply(s, Passed(frame, e));
    HasRowPut(s.frames, s.sink, Passed(frame, e));
    assert (below.frames + [Taken(frame, e)])[..|below.frames|] == below.frames;
    var last := if HasRow(s.frames) then Effect([], [], [text]) else Delivered([text]);
    ApplyPlus(s, Passed(frame, e), last);
    assert Plus(Passed(frame, e), last)
        == if HasRow(s.frames) then Effect(e.written, [], e.cells + [text]) else Effect(e.written, [text], e.cells);
    assert Taken(frame, e) == CellFrame(text);
  }

  lemma {:induction false} RunOneElement(s: State, tag: Tag, inner: Content)
    requires !s.tooDeep && s.skipping == 0
    requires s.depth + 1 + Height(inner) <= MAX_XML_DEPTH
    ensures Step(Run(Step(s, StartElement(tag)), Tokens(inner)), EndElement(tag))
         == Apply(s, ElementMeaning(tag, inner, HasRow(s.frames), s.runs, s.inText))
            .(inText := if Skipped(tag) then s.inText else if tag.T? then false else TextAfter(inner, s.inText))
    decreases inner, 1
  {
    var within := Step(s, StartElement(tag));
    assert within == Start(s.(depth := s.depth + 1), tag);
    if Skipped(tag) {
      assert within == s.(depth := s.depth + 1, skipping := 1);
      RunSkipped(within, inner);
      assert Step(within, EndElement(tag)) == s;
      ApplyNone(s);
    } else {
      RunIsMeaning(within, inner);
      StepEnd(s, tag, inner);
      if Frames(tag) {
        CloseFrame(s, tag, inner);
      } else {
        EndPlain(s, tag, inner);
      }
    }
  }

  lemma StepEnd(s: State, tag: Tag, inner: Content)
    requires !Skipped(tag) && !s.tooDeep && s.skipping == 0
    ensures var ran := After(Start(s.(depth := s.depth + 1), tag), inner);
            Step(ran, EndElement(tag)) == End(ran.(depth := s.depth), tag)
  {
    var within := Start(s.(depth := s.depth + 1), tag);
    assert within.depth == s.depth + 1 && within.skipping == 0 && !within.tooDeep;
    AfterKeepsDepth(within, inner);
  }

  lemma AfterKeepsDepth(s: State, c: Content)
    ensures var ran := After(s, c); ran.depth == s.depth && ran.skipping == s.skipping && ran.tooDeep == s.tooDeep
  {
  }

  lemma CloseFrame(s: State, tag: Tag, inner: Content)
    requires Frames(tag)
    ensures End(After(Start(s.(depth := s.depth + 1), tag), inner).(depth := s.depth), tag)
         == Apply(s, ElementMeaning(tag, inner, HasRow(s.frames), s.runs, s.inText))
            .(inText := TextAfter(inner, s.inText))
  {
    var e := Meaning(inner, HasRow(s.frames) || tag.Tr?, s.runs, s.inText);
    var t := s.(inText := TextAfter(inner, s.inText));
    FramedMeaning(tag, inner, HasRow(s.frames), s.runs, s.inText);
    CloseFramed(s, tag, e);
    CloseFramed(t, tag, e);
    FrameEnds(s, tag, inner, e);
    Apart(s, Framed(tag, e, HasRow(s.frames)), s.depth, s.runs, TextAfter(inner, s.inText));
  }

  lemma FramedMeaning(tag: Tag, inner: Content, row: bool, runs: int, on: bool)
    requires Frames(tag)
    ensures ElementMeaning(tag, inner, row, runs, on) == Framed(tag, Meaning(inner, row || tag.Tr?, runs, on), row)
  {
  }

  lemma FrameEnds(s: State, tag: Tag, inner: Content, e: Effect)
    requires Frames(tag) && e == Meaning(inner, HasRow(Start(s, tag).frames), s.runs, s.inText)
    ensures End(After(Start(s.(depth := s.depth + 1), tag), inner).(depth := s.depth), tag)
         == Close(Apply(Start(s.(inText := TextAfter(inner, s.inText)), tag), e))
  {
  }

  lemma CloseFramed(s: State, tag: Tag, e: Effect)
    requires Frames(tag)
    ensures HasRow(Start(s, tag).frames) == (HasRow(s.frames) || tag.Tr?)
    ensures Close(Apply(Start(s, tag), e)) == Apply(s, Framed(tag, e, HasRow(s.frames)))
  {
    match tag
    case P => RunParagraph(s, e);
    case Tr => RunRow(s, e);
    case Tc => RunCell(s, e);
  }

  lemma EndPlain(s: State, tag: Tag, inner: Content)
    requires !Skipped(tag) && !Frames(tag)
    ensures End(After(Start(s.(depth := s.depth + 1), tag), inner).(depth := s.depth), tag)
         == Apply(s, ElementMeaning(tag, inner, HasRow(s.frames), s.runs, s.inText))
            .(inText := if tag.T? then false else TextAfter(inner, s.inText))
  {
    match tag
    case R => EndRun(s, inner);
    case T => EndText(s, inner);
    case _ => EndMark(s, tag, inner);
  }

  lemma EndRun(s: State, inner: Content)
    ensures End(After(Start(s.(depth := s.depth + 1), R), inner).(depth := s.depth), R)
         == Apply(s, ElementMeaning(R, inner, HasRow(s.frames), s.runs, s.inText))
            .(inText := TextAfter(inner, s.inText))
  {
    var e := Meaning(inner, HasRow(s.frames), s.runs + 1, s.inText);
    PlusNothing(e);
    Apart(s, e, s.depth + 1, s.runs + 1, s.inText);
  }

  lemma EndText(s: State, inner: Content)
    ensures End(After(Start(s.(depth := s.depth + 1), T), inner).(depth := s.depth), T)
         == Apply(s, ElementMeaning(T, inner, HasRow(s.frames), s.runs, s.inText)).(inText := false)
  {
    var e := Meaning(inner, HasRow(s.frames), s.runs, true);
    PlusNothing(e);
    Apart(s, e, s.depth + 1, s.runs, true);
  }

  lemma PlusNothing(e: Effect)
    ensures Plus(Written([]), e) == e
  {
  }

  /** Depth, open runs and whether text is read make no difference to an effect. */
  lemma Apart(s: State, e: Effect, depth: int, runs: int, on: bool)
    ensures Apply(s.(depth := depth, runs := runs, inText := on), e)
         == Apply(s, e).(depth := depth, runs := runs, inText := on)
  {
  }

  lemma EndMark(s: State, tag: Tag, inner: Content)
    requires !Skipped(tag) && !Frames(tag) && !tag.R? && !tag.T?
    ensures End(After(Start(s.(depth := s.depth + 1), tag), inner).(depth := s.depth), tag)
         == Apply(s, ElementMeaning(tag, inner, HasRow(s.frames), s.runs, s.inText))
            .(inText := TextAfter(inner, s.inText))
  {
    StartMarks(s.(depth := s.depth + 1), tag);
    EndWritten(s, Mark(tag, s.runs), inner);
  }

  lemma StartMarks(s: State, tag: Tag)
    requires !Skipped(tag) && !Frames(tag) && !tag.R? && !tag.T?
    ensures Start(s, tag) == Apply(s, Written(Mark(tag, s.runs)))
  {
    ApplyNone(s);
  }

  lemma EndWritten(s: State, text: Text, inner: Content)
    ensures After(Apply(s.(depth := s.depth + 1), Written(text)), inner).(depth := s.depth)
         == Apply(s, Plus(Written(text), Meaning(inner, HasRow(s.frames), s.runs, s.inText)))
            .(inText := TextAfter(inner, s.inText))
  {
    AfterApply(s, Written(text), s.inText, inner);
    assert Apply(s.(depth := s.depth + 1), Written(text)).(depth := s.depth) == Apply(s, Written(text));
  }

  // ----- Whole documents

  /** The lines of a document. */
  function Lines(c: Content): seq<Text> {
    Meaning(c, false, 0, false).delivered
  }

  /** How many of the lines, from the first on, fit in the room there is, each with its newline. */
  function Fitting(lines: seq<Text>, room: int): (n: nat)
    ensures n <= |lines|
  {
    if lines == [] || |lines[0]| + 1 > room then 0 else 1 + Fitting(lines[1..], room - |lines[0]| - 1)
  }

  /** A text with lines after it, each ended by a newline. */
  function Ended(text: Text, lines: seq<Text>): Text
    decreases |lines|
  {
    if lines == [] then text else Ended(text + lines[0] + [NEWLINE], lines[1..])
  }

  lemma {:induction false} EmitAllFits(sink: Sink, lines: seq<Text>)
    requires !sink.full && !sink.done
    ensures var n := Fitting(lines, DOCUMENT_TEXT_BYTES - |sink.text|);
            EmitAll(sink, lines) == Sink(Ended(sink.text, lines[..n]), n < |lines|, n < |lines|)
    decreases |lines|
  {
    if lines != [] {
      var out := Emit(sink, lines[0]);
      if out.full {
        EmitAllSink(out, lines[1..]);
      } else {
        EmitAllFits(out, lines[1..]);
        var n := Fitting(lines[1..], DOCUMENT_TEXT_BYTES - |out.text|);
        assert lines[..n + 1][1..] == lines[1..][..n];
      }
    }
  }

  /**
   What is read out of a document: its lines, each ended by a newline, as many
   as fit, and no error; the document says it is full when some did not fit.
   */
  lemma WalkReadsTheLines(c: Content)
    requires Height(c) <= 1000
    ensures var end, lines := Run(START, Tokens(c)), Lines(c);
      var n := Fitting(lines, 0x80_0000);
      && end.sink == Sink(Ended([], lines[..n]), n < |lines|, n < |lines|)
      && Verdict(end, EndOfFile) == NoError
      && end.frames == [] && end.runs == 0 && end.depth == 0
  {
    RunFromStart(c);
    EmitAllFits(START.sink, Lines(c));
  }

  lemma RunFromStart(c: Content)
    requires Height(c) <= MAX_XML_DEPTH
    ensures Run(START, Tokens(c)) == START.(sink := EmitAll(START.sink, Lines(c)), inText := TextAfter(c, false))
  {
    RunIsMeaning(START, c);
  }

  /** A tree is refused exactly when it is nested deeper than the stream reads; otherwise the walk ends at its depth. */
  lemma TooDeepIsRefused(s: State, c: Content)
    requires !s.tooDeep && s.depth <= 1000
    ensures Run(s, Tokens(c)).tooDeep <==> s.depth + Height(c) > 1000
    ensures !Run(s, Tokens(c)).tooDeep ==> Run(s, Tokens(c)).depth == s.depth
  {
    if s.depth + Height(c) > MAX_XML_DEPTH {
      DeeperIsRefused(s, c);
    } else {
      RunKeepsDepth(s, c);
    }
  }

  lemma {:induction false} DeeperIsRefused(s: State, c: Content)
    requires !s.tooDeep && s.depth <= MAX_XML_DEPTH < s.depth + Height(c)
    ensures Run(s, Tokens(c)).tooDeep
    decreases c
  {
    match c
    case Nothing =>
    case Characters(text, next) =>
      RunConcat(s, [CharData(text)], Tokens(next));
      RunOne(s, CharData(text));
      StepDepth(s, CharData(text));
      DeeperIsRefused(Step(s, CharData(text)), next);
    case Element(tag, inner, next) =>
      RunElement(s, tag, inner, next);
      StepDepth(s, StartElement(tag));
      var within := Step(s, StartElement(tag));
      var ran := Run(within, Tokens(inner));
      if s.depth == MAX_XML_DEPTH {
        RunSink(within, Tokens(inner));
        StaysTooDeep(ran, tag, next);
      } else if within.depth + Height(inner) > MAX_XML_DEPTH {
        DeeperIsRefused(within, inner);
        StaysTooDeep(ran, tag, next);
      } else {
        RunKeepsDepth(within, inner);
        StepDepth(ran, EndElement(tag));
        DeeperIsRefused(Step(ran, EndElement(tag)), next);
      }
  }

  lemma StepDepth(s: State, token: Token)
    requires !s.tooDeep
    ensures Step(s, token).depth
      == s.depth + (match token case StartElement(_) => 1 case EndElement(_) => -1 case CharData(_) => 0)
    ensures Step(s, token).tooDeep == (token.StartElement? && s.depth >= MAX_XML_DEPTH)
  {
  }

  lemma StaysTooDeep(s: State, tag: Tag, next: Content)
    requires s.tooDeep
    ensures Run(Step(s, EndElement(tag)), Tokens(next)).tooDeep
  {
    RunSink(s, Tokens(next));
  }

  lemma RunKeepsDepth(s: State, c: Content)
    requires !s.tooDeep && s.depth + Height(c) <= MAX_XML_DEPTH
    ensures !Run(s, Tokens(c)).tooDeep && Run(s, Tokens(c)).depth == s.depth
  {
    if s.skipping > 0 {
      RunSkipped(s, c);
    } else {
      RunIsMeaning(s, c);
    }
  }

  // ----- Nothing is lost and nothing repeated

  /** How often a byte occurs in a text, and in some texts. */
  function Count(b: byte, text: Text): nat {
    if text == [] then 0 else (if text[0] == b then 1 else 0) + Count(b, text[1..])
  }

  lemma {:induction false} CountConcat(b: byte, x: Text, y: Text)
    ensures Count(b, x + y) == Count(b, x) + Count(b, y)
  {
    if x == [] {
      assert x + y == y;
    } else {
      CountConcat(b, x[1..], y);
      assert (x + y)[1..] == x[1..] + y;
    }
  }

  lemma CountOne(b: byte, a: byte)
    ensures Count(b, [a]) == if a == b then 1 else 0
  {
    assert [a][1..] == [];
  }

  lemma CountAllOne(b: byte, text: Text)
    ensures CountAll(b, [text]) == Count(b, text)
  {
    assert [text][1..] == [];
  }

  function CountAll(b: byte, texts: seq<Text>): nat {
    if texts == [] then 0 else Count(b, texts[0]) + CountAll(b, texts[1..])
  }

  /** The bytes that lay text out rather than being it. */
  predicate Layout(b: byte) { b == TAB || b == NEWLINE || b == SPACE }

  /**
   The text of a document in the document's order: what stands in a `t` of some
   paragraph, outside skipped elements, with a run's tabs, breaks and hyphens.
   */
  function Kept(c: Content, paragraph: bool, runs: int, on: bool): Text
    decreases c, 0
  {
    match c
    case Nothing => []
    case Characters(text, next) => (if paragraph && on then text else []) + Kept(next, paragraph, runs, on)
    case Element(tag, inner, next) =>
      KeptElement(tag, inner, paragraph, runs, on)
      + Kept(next, paragraph, runs, if Skipped(tag) then on else if tag.T? then false else TextAfter(inner, on))
  }

  function KeptElement(tag: Tag, inner: Content, paragraph: bool, runs: int, on: bool): Text
    decreases inner, 1
  {
    if Skipped(tag) then []
    else
      (if paragraph then KeptMark(tag, runs > 0) else [])
      + Kept(inner, paragraph || tag.P?, if tag.R? then runs + 1 else runs, on || tag.T?)
  }

  function KeptMark(tag: Tag, inRun: bool): Text {
    if tag == Br || tag == Cr then [NEWLINE]
    else if inRun && (tag == Tab || tag == PTab) then [TAB]
    else if tag == NoBreakHyphen then [HYPHEN]
    else []
  }

  lemma {:induction false} CountAllConcat(b: byte, x: seq<Text>, y: seq<Text>)
    ensures CountAll(b, x + y) == CountAll(b, x) + CountAll(b, y)
  {
    if x == [] {
      assert x + y == y;
    } else {
      CountAllConcat(b, x[1..], y);
      assert (x + y)[1..] == x[1..] + y;
    }
  }

  lemma {:induction false} CountSpaced(b: byte, text: Text)
    requires !Layout(b)
    ensures Count(b, Spaced(text)) == Count(b, text)
    decreases |text|
  {
    if text == [] {
      assert Spaced(text) == [];
    } else {
      CountSpaced(b, text[1..]);
      assert Spaced(text)[1..] == Spaced(text[1..]);
    }
  }

  lemma {:induction false} CountInCell(b: byte, cell: Text, lines: seq<Text>)
    requires !Layout(b)
    ensures Count(b, AllInCell(cell, lines)) == Count(b, cell) + CountAll(b, lines)
    decreases |lines|
  {
    if lines != [] {
      CountSpaced(b, lines[0]);
      CountConcat(b, cell, [SPACE]);
      CountOne(b, SPACE);
      CountConcat(b, if |cell| > 0 then cell + [SPACE] else cell, Spaced(lines[0]));
      CountInCell(b, InCell(cell, lines[0]), lines[1..]);
    }
  }

  lemma {:induction false} CountJoin(b: byte, cells: seq<Text>)
    requires !Layout(b)
    ensures Count(b, Join(cells, TAB)) == CountAll(b, cells)
    decreases |cells|
  {
    if |cells| == 1 {
      CountAllOne(b, cells[0]);
      assert cells == [cells[0]];
    } else if cells != [] {
      CountJoin(b, cells[1..]);
      CountOne(b, TAB);
      CountConcat(b, cells[0], [TAB]);
      CountConcat(b, cells[0] + [TAB], Join(cells[1..], TAB));
    }
  }

  /** How often a byte occurs in what content does, its text counted only where a paragraph takes it. */
  function CountEffect(b: byte, e: Effect, paragraph: bool): nat {
    (if paragraph then Count(b, e.written) else 0) + CountAll(b, e.delivered) + CountAll(b, e.cells)
  }

  lemma CountPlus(b: byte, x: Effect, y: Effect, paragraph: bool)
    ensures CountEffect(b, Plus(x, y), paragraph) == CountEffect(b, x, paragraph) + CountEffect(b, y, paragraph)
  {
    CountConcat(b, x.written, y.written);
    CountAllConcat(b, x.delivered, y.delivered);
    CountAllConcat(b, x.cells, y.cells);
  }

  lemma {:induction false} MeaningKeeps(b: byte, c: Content, paragraph: bool, row: bool, runs: int, on: bool)
    requires !Layout(b)
    ensures CountEffect(b, Meaning(c, row, runs, on), paragraph) == Count(b, Kept(c, paragraph, runs, on))
    decreases c, 0
  {
    match c
    case Nothing =>
    case Characters(text, next) =>
      MeaningKeeps(b, next, paragraph, row, runs, on);
      CountPlus(b, Written(if on then text else []), Meaning(next, row, runs, on), paragraph);
      CountConcat(b, if paragraph && on then text else [], Kept(next, paragraph, runs, on));
    case Element(tag, inner, next) =>
      var after := if Skipped(tag) then on else if tag.T? then false else TextAfter(inner, on);
      MeaningKeeps(b, next, paragraph, row, runs, after);
      ElementKeeps(b, tag, inner, paragraph, row, runs, on);
      CountPlus(b, ElementMeaning(tag, inner, row, runs, on), Meaning(next, row, runs, after), paragraph);
      CountConcat(b, KeptElement(tag, inner, paragraph, runs, on), Kept(next, paragraph, runs, after));
  }

  lemma {:induction false} ElementKeeps(
    b: byte, tag: Tag, inner: Content, paragraph: bool, row: bool, runs: int, on: bool)
    requires !Layout(b)
    ensures CountEffect(b, ElementMeaning(tag, inner, row, runs, on), paragraph)
      == Count(b, KeptElement(tag, inner, paragraph, runs, on))
    decreases inner, 1
  {
    if !Skipped(tag) {
      var row', runs' := row || tag.Tr?, if tag.R? then runs + 1 else runs;
      var e := Meaning(inner, row', runs', on || tag.T?);
      MeaningKeeps(b, inner, paragraph || tag.P?, row', runs', on || tag.T?);
      var mark := if paragraph then KeptMark(tag, runs > 0) else [];
      CountConcat(b, mark, Kept(inner, paragraph || tag.P?, runs', on || tag.T?));
      if Frames(tag) {
        NoMark(tag, runs > 0);
        FrameKeeps(b, tag, e, paragraph, row);
      } else {
        WriteKeeps(b, tag, runs, e, paragraph);
      }
    }
  }

  lemma NoMark(tag: Tag, inRun: bool)
    requires Frames(tag)
    ensures KeptMark(tag, inRun) == []
  {
  }

  lemma WriteKeeps(b: byte, tag: Tag, runs: int, e: Effect, paragraph: bool)
    requires !Layout(b)
    ensures CountEffect(b, Plus(Written(Mark(tag, runs)), e), paragraph)
         == Count(b, if paragraph then KeptMark(tag, runs > 0) else []) + CountEffect(b, e, paragraph)
  {
    CountPlus(b, Written(Mark(tag, runs)), e, paragraph);
    CountOne(b, TAB);
    CountOne(b, NEWLINE);
  }

  lemma FrameKeeps(b: byte, tag: Tag, e: Effect, paragraph: bool, row: bool)
    requires !Layout(b)
    requires Frames(tag)
    ensures CountEffect(b, Framed(tag, e, row), paragraph) == CountEffect(b, e, paragraph || tag.P?)
  {
    if tag.P? {
      assert ([e.written] + e.delivered)[1..] == e.delivered;
    } else if tag.Tr? {
      CountJoin(b, e.cells);
      CountAllConcat(b, e.delivered, [Join(e.cells, TAB)]);
      CountAllOne(b, Join(e.cells, TAB));
    } else {
      var text := AllInCell([], e.delivered);
      CountInCell(b, [], e.delivered);
      CountAllConcat(b, e.cells, [text]);
      CountAllOne(b, text);
    }
  }

  /** Content with no row around it leaves no cell for one. */
  lemma {:induction false} NoRowNoCells(c: Content, runs: int, on: bool)
    ensures Meaning(c, false, runs, on).cells == []
    decreases c
  {
    match c
    case Nothing =>
    case Characters(text, next) => NoRowNoCells(next, runs, on);
    case Element(tag, inner, next) =>
      NoRowNoCells(next, runs, if Skipped(tag) then on else if tag.T? then false else TextAfter(inner, on));
      if !Skipped(tag) && !tag.Tr? {
        NoRowNoCells(inner, if tag.R? then runs + 1 else runs, on || tag.T?);
      }
  }

  /**
   Every byte of a document's kept text is in its lines as often as it is in
   the document: nothing is lost, and a text box or a nested table is not
   given twice.
   */
  lemma LinesKeepTheText(b: byte, c: Content)
    requires !Layout(b)
    ensures CountAll(b, Lines(c)) == Count(b, Kept(c, false, 0, false))
  {
    MeaningKeeps(b, c, false, false, 0, false);
    NoRowNoCells(c, 0, false);
  }

  // ----- The frames are the open elements

  /** The elements open after tokens read with some open already, innermost last. */
  function Opened(open: seq<Tag>, tokens: seq<Token>): seq<Tag> {
    if tokens == [] then open else Opens(Opened(open, tokens[..|tokens| - 1]), tokens[|tokens| - 1])
  }

  function Opens(open: seq<Tag>, token: Token): seq<Tag> {
    match token
    case StartElement(tag) => open + [tag]
    case EndElement(_) => if open == [] then [] else open[..|open| - 1]
    case CharData(_) => open
  }

  /** Each element that ends is the innermost one open. */
  predicate Nested(open: seq<Tag>, tokens: seq<Token>) {
    tokens == [] ||
    var before, last := tokens[..|tokens| - 1], tokens[|tokens| - 1];
    && Nested(open, before)
    && (last.EndElement? ==> Closes(Opened(open, before), last.tag))
  }

  predicate Closes(open: seq<Tag>, tag: Tag) {
    open != [] && open[|open| - 1] == tag
  }

  lemma {:induction false} NestedConcat(open: seq<Tag>, a: seq<Token>, b: seq<Token>)
    requires Nested(open, a) && Nested(Opened(open, a), b)
    ensures Nested(open, a + b) && Opened(open, a + b) == Opened(Opened(open, a), b)
    decreases |b|
  {
    if b == [] {
      assert a + b == a;
    } else {
      NestedConcat(open, a, b[..|b| - 1]);
      assert (a + b)[..|a + b| - 1] == a + b[..|b| - 1];
    }
  }

  lemma NestedOne(open: seq<Tag>, token: Token)
    requires token.EndElement? ==> Closes(open, token.tag)
    ensures Nested(open, [token]) && Opened(open, [token]) == Opens(open, token)
  {
    assert [token][..0] == [];
    assert Opened(open, [token][..0]) == open;
  }

  /** The tokens of a tree are well nested, and leave open what was. */
  lemma {:induction false} TokensAreNested(open: seq<Tag>, c: Content)
    ensures Nested(open, Tokens(c)) && Opened(open, Tokens(c)) == open
    decreases c
  {
    match c
    case Nothing =>
    case Characters(text, next) =>
      NestedOne(open, CharData(text));
      TokensAreNested(open, next);
      NestedConcat(open, [CharData(text)], Tokens(next));
    case Element(tag, inner, next) =>
      var start, end := [StartElement(tag)], [EndElement(tag)];
      NestedOne(open, StartElement(tag));
      TokensAreNested(open + [tag], inner);
      NestedConcat(open, start, Tokens(inner));
      NestedOne(open + [tag], EndElement(tag));
      NestedConcat(open, start + Tokens(inner), end);
      TokensAreNested(open, next);
      NestedConcat(open, start + Tokens(inner) + end, Tokens(next));
  }

  function Kind(frame: Frame): Tag {
    match frame case ParagraphFrame(_, _) => P case RowFrame(_) => Tr case CellFrame(_) => Tc
  }

  /** The frames are the paragraphs, rows and cells among the open elements, in order. */
  ghost predicate FramesOf(frames: seq<Frame>, open: seq<Tag>) {
    if open == [] then frames == []
    else
      var below, top := open[..|open| - 1], open[|open| - 1];
      if Frames(top) then frames != [] && Kind(frames[|frames| - 1]) == top && FramesOf(frames[..|frames| - 1], below)
      else FramesOf(frames, below)
  }

  /** The walk stands where the open elements say: in its frames, or skipping from the first element it skips. */
  ghost predicate Stands(s: State, open: seq<Tag>) {
    && s.skipping <= |open|
    && var read := |open| - s.skipping;
    && FramesOf(s.frames, open[..read])
    && (s.skipping > 0 ==> Skipped(open[read]))
  }

  lemma {:induction false} FramesOfPut(frames: seq<Frame>, sink: Sink, e: Effect, open: seq<Tag>)
    requires FramesOf(frames, open)
    ensures FramesOf(Put(frames, sink, e).0, open)
    decreases |open|
  {
    if open != [] {
      var below, put := open[..|open| - 1], Put(frames, sink, e).0;
      if Frames(open[|open| - 1]) {
        var top := frames[|frames| - 1];
        FramesOfPut(frames[..|frames| - 1], sink, Passed(top, e), below);
        assert put[..|put| - 1] == Put(frames[..|frames| - 1], sink, Passed(top, e)).0;
      } else {
        FramesOfPut(frames, sink, e, below);
      }
    }
  }

  lemma StandsStep(s: State, open: seq<Tag>, token: Token)
    requires Stands(s, open) && !s.tooDeep
    requires token.EndElement? ==> Closes(open, token.tag)
    ensures !Step(s, token).tooDeep ==> Stands(Step(s, token), Opens(open, token))
  {
    if s.skipping > 0 {
      StandsSkipping(s, open, token);
    } else {
      StandsOpen(s, open);
      match token
      case CharData(text) => StandsText(s, open, text);
      case StartElement(tag) => StandsStarted(s, open, tag);
      case EndElement(tag) => StandsEnded(s, open, tag);
    }
  }

  lemma StandsStarted(s: State, open: seq<Tag>, tag: Tag)
    requires FramesOf(s.frames, open) && !s.tooDeep && s.skipping == 0
    ensures !Step(s, StartElement(tag)).tooDeep ==> Stands(Step(s, StartElement(tag)), open + [tag])
  {
    StandsStart(s.(depth := s.depth + 1), open, tag);
  }

  lemma StandsEnded(s: State, open: seq<Tag>, tag: Tag)
    requires FramesOf(s.frames, open) && !s.tooDeep && s.skipping == 0 && Closes(open, tag)
    ensures Stands(Step(s, EndElement(tag)), open[..|open| - 1])
  {
    StandsEnd(s.(depth := s.depth - 1), open, tag);
  }

  lemma StandsOpen(s: State, open: seq<Tag>)
    requires Stands(s, open) && s.skipping == 0
    ensures FramesOf(s.frames, open)
  {
    assert open[..|open|] == open;
  }

  lemma StandsText(s: State, open: seq<Tag>, text: Text)
    requires FramesOf(s.frames, open) && !s.tooDeep && s.skipping == 0
    ensures Stands(Step(s, CharData(text)), open)
  {
    FramesOfPut(s.frames, s.sink, Written(text), open);
    StandsReading(Step(s, CharData(text)), open);
  }

  lemma StandsSkipping(s: State, open: seq<Tag>, token: Token)
    requires Stands(s, open) && !s.tooDeep && s.skipping > 0
    ensures !Step(s, token).tooDeep ==> Stands(Step(s, token), Opens(open, token))
  {
    var read := |open| - s.skipping;
    assert Opens(open, token)[..read] == open[..read];
  }

  lemma StandsReading(s: State, open: seq<Tag>)
    requires FramesOf(s.frames, open) && s.skipping == 0
    ensures Stands(s, open)
  {
    assert open[..|open|] == open;
  }

  lemma FramesOfMore(frames: seq<Frame>, open: seq<Tag>, tag: Tag)
    requires FramesOf(frames, open)
    ensures !Frames(tag) ==> FramesOf(frames, open + [tag])
    ensures forall frame :: Frames(tag) && Kind(frame) == tag ==> FramesOf(frames + [frame], open + [tag])
  {
    assert (open + [tag])[..|open|] == open;
    forall frame | Frames(tag) && Kind(frame) == tag ensures FramesOf(frames + [frame], open + [tag]) {
      assert (frames + [frame])[..|frames|] == frames;
    }
  }

  /** The frames that starting an element leaves. */
  lemma StartedFrames(s: State, open: seq<Tag>, tag: Tag)
    requires FramesOf(s.frames, open) && !Skipped(tag)
    ensures FramesOf(Start(s, tag).frames, open + [tag])
  {
    if Frames(tag) || tag.R? || tag.T? {
      FramesOfMore(s.frames, open, tag);
    } else {
      StartMarks(s, tag);
      FramesOfPut(s.frames, s.sink, Written(Mark(tag, s.runs)), open);
      FramesOfMore(Start(s, tag).frames, open, tag);
    }
  }

  lemma StandsStart(s: State, open: seq<Tag>, tag: Tag)
    requires FramesOf(s.frames, open) && s.skipping == 0
    ensures Stands(Start(s, tag), open + [tag])
  {
    if Skipped(tag) {
      assert (open + [tag])[..|open|] == open;
    } else {
      StartedFrames(s, open, tag);
      StandsReading(Start(s, tag), open + [tag]);
    }
  }

  /** The frames that closing one leaves. */
  lemma ClosedFrames(s: State, below: seq<Tag>)
    requires s.frames != [] && FramesOf(s.frames[..|s.frames| - 1], below)
    ensures FramesOf(Close(s).frames, below) && Close(s).skipping == s.skipping
  {
    var rest := s.frames[..|s.frames| - 1];
    match s.frames[|s.frames| - 1]
    case ParagraphFrame(text, after) => FramesOfPut(rest, s.sink, Delivered([text] + after), below);
    case RowFrame(cells) => FramesOfPut(rest, s.sink, Delivered([Join(cells, TAB)]), below);
    case CellFrame(text) =>
      FramesOfPut(rest, s.sink, Effect([], [], [text]), below);
      FramesOfPut(rest, s.sink, Delivered([text]), below);
  }

  lemma StandsEnd(s: State, open: seq<Tag>, tag: Tag)
    requires FramesOf(s.frames, open) && s.skipping == 0 && Closes(open, tag)
    ensures Stands(End(s, tag), open[..|open| - 1])
  {
    var below := open[..|open| - 1];
    if Frames(tag) {
      ClosedFrames(s, below);
    }
    StandsReading(End(s, tag), below);
  }

  /**
   At every moment of a walk over a tree, the walker's frames are the
   paragraphs, rows and cells open in what it reads.
   */
  lemma {:induction false} FramesAreTheOpenElements(c: Content, n: nat)
    requires n <= |Tokens(c)|
    ensures var s := Run(START, Tokens(c)[..n]); !s.tooDeep ==> Stands(s, Opened([], Tokens(c)[..n]))
  {
    TokensAreNested([], c);
    var tokens := Tokens(c);
    if n > 0 {
      FramesAreTheOpenElements(c, n - 1);
      NestedPrefix([], tokens, n);
      assert tokens[..n][..n - 1] == tokens[..n - 1];
      var s := Run(START, tokens[..n - 1]);
      if !s.tooDeep {
        StandsStep(s, Opened([], tokens[..n - 1]), tokens[n - 1]);
      }
    }
  }

  lemma {:induction false} NestedPrefix(open: seq<Tag>, tokens: seq<Token>, n: nat)
    requires Nested(open, tokens) && n <= |tokens|
    ensures Nested(open, tokens[..n])
    decreases |tokens|
  {
    if n == |tokens| {
      assert tokens[..n] == tokens;
    } else {
      NestedPrefix(open, tokens[..|tokens| - 1], n);
      assert tokens[..|tokens| - 1][..n] == tokens[..n];
    }
  }

  // ----- The walker itself

  /** A walk that skips goes on skipping inside the element. */
  lemma {:induction false} RunInside(s: State, tokens: seq<Token>)
    requires !s.tooDeep && s.skipping == 1 && Inside(tokens, s.depth)
    ensures Run(s, tokens) == s.(skipping := 1 + Level(tokens), depth := s.depth + Level(tokens))
    decreases |tokens|
  {
    if tokens != [] {
      RunInside(s, tokens[..|tokens| - 1]);
    }
  }

  /** What a walk that skips has come to when the stream has read past the element, or failed to. */
  lemma RunPast(s: State, tokens: seq<Token>, atEnd: bool, fault: Fault, err: Error)
    requires !s.tooDeep && s.skipping == 1 && Past(tokens, s.depth, atEnd, fault, err)
    ensures var ran := Run(s, tokens);
      match err
      case NoError => ran == s.(skipping := 0, depth := s.depth + Level(tokens))
      case Error(_) => ran.sink == s.sink && Stops(ran, atEnd, fault, err)
  {
    if Inside(tokens, s.depth) {
      RunInside(s, tokens);
    } else {
      RunInside(s, tokens[..|tokens| - 1]);
    }
  }

  /** The frame leaves the effect to the frames around it. */
  ghost predicate Passes(frame: Frame, e: Effect) {
    Taken(frame, e) == frame && Passed(frame, e) == e
  }

  /** The effect goes to the innermost frame that does not pass it on. */
  lemma {:induction false} PutFinds(frames: seq<Frame>, index: nat, sink: Sink, e: Effect)
    requires index < |frames| && Passed(frames[index], e) == NONE
    requires forall i :: index < i < |frames| ==> Passes(frames[i], e)
    ensures Put(frames, sink, e) == (frames[index := Taken(frames[index], e)], sink)
    decreases |frames|
  {
    var below := frames[..|frames| - 1];
    if index == |frames| - 1 {
      PutNone(below, sink);
      assert below + [Taken(frames[index], e)] == frames[index := Taken(frames[index], e)];
    } else {
      PutFinds(below, index, sink, e);
      assert below[index := Taken(frames[index], e)] + [frames[|frames| - 1]]
        == frames[index := Taken(frames[index], e)];
    }
  }

  /** An effect every frame passes on is left with its lines, which are emitted. */
  lemma {:induction false} PutMisses(frames: seq<Frame>, sink: Sink, e: Effect)
    requires forall i :: 0 <= i < |frames| ==> Passes(frames[i], e)
    ensures Put(frames, sink, e) == (frames, EmitAll(sink, e.delivered))
    decreases |frames|
  {
    if frames != [] {
      PutMisses(frames[..|frames| - 1], sink, e);
      assert frames == frames[..|frames| - 1] + [frames[|frames| - 1]];
    }
  }

  lemma WriteFinds(frames: seq<Frame>, index: nat, sink: Sink, text: Text)
    requires index < |frames| && frames[index].ParagraphFrame?
    requires forall i :: index < i < |frames| ==> !frames[i].ParagraphFrame?
    ensures Put(frames, sink, Written(text))
         == (frames[index := ParagraphFrame(frames[index].text + text, frames[index].after)], sink)
  {
    PutFinds(frames, index, sink, Written(text));
    assert frames[index].after + [] == frames[index].after;
  }

  lemma WriteMisses(frames: seq<Frame>, sink: Sink, text: Text)
    requires forall i :: 0 <= i < |frames| ==> !frames[i].ParagraphFrame?
    ensures Put(frames, sink, Written(text)) == (frames, sink)
  {
    PutMisses(frames, sink, Written(text));
  }

  lemma DeliverFinds(frames: seq<Frame>, index: nat, sink: Sink, line: Text)
    requires index < |frames| && !frames[index].RowFrame?
    requires forall i :: index < i < |frames| ==> frames[i].RowFrame?
    ensures Put(frames, sink, Delivered([line]))
         == (frames[index := if frames[index].CellFrame? then CellFrame(InCell(frames[index].text, line))
                             else ParagraphFrame(frames[index].text, frames[index].after + [line])], sink)
  {
    PutFinds(frames, index, sink, Delivered([line]));
    AllInCellOne(frames[index].text, line);
    assert frames[index].text + [] == frames[index].text;
  }

  lemma DeliverMisses(frames: seq<Frame>, sink: Sink, line: Text)
    requires forall i :: 0 <= i < |frames| ==> frames[i].RowFrame?
    ensures Put(frames, sink, Delivered([line])) == (frames, Emit(sink, line))
  {
    PutMisses(frames, sink, Delivered([line]));
    EmitAllOne(sink, line);
  }

  lemma RowFinds(frames: seq<Frame>, index: nat, sink: Sink, cell: Text)
    requires index < |frames| && frames[index].RowFrame?
    requires forall i :: index < i < |frames| ==> !frames[i].RowFrame?
    ensures HasRow(frames)
    ensures Put(frames, sink, Effect([], [], [cell])) == (frames[index := RowFrame(frames[index].cells + [cell])], sink)
  {
    PutFinds(frames, index, sink, Effect([], [], [cell]));
    RowIsOpen(frames, index);
  }

  lemma {:induction false} RowIsOpen(frames: seq<Frame>, index: nat)
    requires index < |frames| && frames[index].RowFrame?
    ensures HasRow(frames)
    decreases |frames|
  {
    if index < |frames| - 1 {
      RowIsOpen(frames[..|frames| - 1], index);
    }
  }

  lemma {:induction false} NoRowIsOpen(frames: seq<Frame>)
    requires forall i :: 0 <= i < |frames| ==> !frames[i].RowFrame?
    ensures !HasRow(frames)
    decreases |frames|
  {
    if frames != [] {
      NoRowIsOpen(frames[..|frames| - 1]);
    }
  }

  /** A walk stopped where its run has got to: by the depth, or by the end of the stream. */
  ghost predicate Stops(ran: State, atEnd: bool, fault: Fault, err: Error) {
    StopsAt(ran.tooDeep, ran.skipping, atEnd, fault, err)
  }

  class TextWalker {
    const document: OfficeDocument
    var frames: seq<Frame>
    var runs: int
    var inText: bool
    var done: bool

    constructor (document: OfficeDocument)
      ensures this.document == document && frames == [] && runs == 0 && !inText && !done
    {
      this.document := document;
      frames, runs, inText, done := [], 0, false, false;
    }

    ghost function Out(): Sink
      reads this`done, document
    {
      Sink(document.text, document.full, done)
    }

    ghost function Value(stream: XmlStream): State
      reads this, document, stream
    {
      State(frames, Out(), runs, inText, stream.depth, 0, false)
    }

    method EmitLine(text: Text)
      modifies this`done, document
      ensures Out() == Emit(old(Out()), text)
    {
      var ok := document.Line(text);
      if !ok {
        done := true;
      }
    }

    /** Adds text to the paragraph it is in. */
    method Write(text: Text)
      modifies this`frames
      ensures (frames, Out()) == Put(old(frames), old(Out()), Written(text))
    {
      var index := |frames| - 1;
      while index >= 0
        invariant -1 <= index < |frames| && frames == old(frames)
        invariant forall i :: index < i < |frames| ==> !frames[i].ParagraphFrame?
      {
        if frames[index].ParagraphFrame? {
          WriteFinds(frames, index, Out(), text);
          frames := frames[index := ParagraphFrame(frames[index].text + text, frames[index].after)];
          return;
        }
        index := index - 1;
      }
      WriteMisses(frames, Out(), text);
    }

    /** Hands on a finished paragraph or row: into the cell, after the paragraph, or out as a line. */
    method Deliver(text: Text)
      modifies this`frames, this`done, document
      ensures (frames, Out()) == Put(old(frames), old(Out()), Delivered([text]))
    {
      var index := |frames| - 1;
      while index >= 0
        invariant -1 <= index < |frames| && frames == old(frames) && Out() == old(Out())
        invariant forall i :: index < i < |frames| ==> frames[i].RowFrame?
      {
        match frames[index] {
          case ParagraphFrame(held, after) =>
            DeliverFinds(frames, index, Out(), text);
            frames := frames[index := ParagraphFrame(held, after + [text])];
            return;
          case CellFrame(cell) =>
            DeliverFinds(frames, index, Out(), text);
            var held := cell;
            if |held| > 0 {
              held := held + [SPACE];
            }
            frames := frames[index := CellFrame(held + Spaced(text))];
            return;
          case RowFrame(_) =>
            index := index - 1;
        }
      }
      DeliverMisses(frames, Out(), text);
      EmitLine(text);
    }

    /** Hands on a paragraph that ended, and then the lines anchored in it. */
    method DeliverParagraph(text: Text, after: seq<Text>)
      modifies this`frames, this`done, document
      ensures (frames, Out()) == Put(old(frames), old(Out()), Delivered([text] + after))
    {
      Deliver(text);
      assert [text] + after[..0] == [text];
      var index := 0;
      while index < |after|
        invariant 0 <= index <= |after|
        invariant (frames, Out()) == Put(old(frames), old(Out()), Delivered([text] + after[..index]))
      {
        Deliver(after[index]);
        PutPlus(old(frames), old(Out()), Delivered([text] + after[..index]), Delivered([after[index]]));
        assert Plus(Delivered([text] + after[..index]), Delivered([after[index]]))
          == Delivered([text] + after[..index + 1]);
        index := index + 1;
      }
      assert after[..index] == after;
    }

    /** Puts a cell that ended into the row around it, or hands it on when there is none. */
    method DeliverCell(text: Text)
      modifies this`frames, this`done, document
      ensures (frames, Out()) == Put(old(frames), old(Out()),
                                     if HasRow(old(frames)) then Effect([], [], [text]) else Delivered([text]))
    {
      var index := |frames| - 1;
      while index >= 0
        invariant -1 <= index < |frames| && frames == old(frames) && Out() == old(Out())
        invariant forall i :: index < i < |frames| ==> !frames[i].RowFrame?
      {
        if frames[index].RowFrame? {
          RowFinds(frames, index, Out(), text);
          frames := frames[index := RowFrame(frames[index].cells + [text])];
          return;
        }
        index := index - 1;
      }
      NoRowIsOpen(frames);
      Deliver(text);
    }

    /** Ends the innermost paragraph, cell or row, and hands on what it held. */
    method CloseFrame(ghost s: State)
      requires s.frames == frames && s.sink == Out()
      modifies this`frames, this`done, document
      ensures s.(frames := frames, sink := Out()) == Close(s)
    {
      if |frames| == 0 {
        return;
      }
      var frame := frames[|frames| - 1];
      frames := frames[..|frames| - 1];
      match frame {
        case ParagraphFrame(text, after) => DeliverParagraph(text, after);
        case RowFrame(cells) => Deliver(Join(cells, TAB));
        case CellFrame(text) => DeliverCell(text);
      }
    }

    method StartOf(stream: XmlStream, tag: Tag) returns (err: Error)
      requires stream.next <= |stream.tokens| && stream.depth <= MAX_XML_DEPTH
      modifies this, stream
      ensures document.text == old(document.text) && document.full == old(document.full) && done == old(done)
      ensures old(stream.next) <= stream.next <= |stream.tokens|
      ensures var ran := Run(Start(old(Value(stream)), tag), stream.tokens[old(stream.next)..stream.next]);
        match err
        case NoError => ran == Value(stream)
        case Error(_) => ran.sink == old(Out()) && Stops(ran, stream.next == |stream.tokens|, stream.fault, err)
    {
      ghost var from := stream.next;
      assert stream.tokens[from..from] == [];
      match tag {
        case Fallback | InstrText | DelText | DelInstrText =>
          err := SkipOver(stream, tag);
          return err;
        case P => frames := frames + [ParagraphFrame([], [])];
        case Tr => frames := frames + [RowFrame([])];
        case Tc => frames := frames + [CellFrame([])];
        case R => runs := runs + 1;
        case T => inText := true;
        case Tab | PTab =>
          if runs > 0 {
            Write([TAB]);
          }
        case Br | Cr => Write([NEWLINE]);
        case NoBreakHyphen => Write([HYPHEN]);
        case Other | Sheet(_) =>
      }
      return NoError;
    }

    method SkipOver(stream: XmlStream, tag: Tag) returns (err: Error)
      requires stream.next <= |stream.tokens| && stream.depth <= MAX_XML_DEPTH && Skipped(tag)
      modifies stream
      ensures old(stream.next) <= stream.next <= |stream.tokens|
      ensures var ran := Run(Start(old(Value(stream)), tag), stream.tokens[old(stream.next)..stream.next]);
        match err
        case NoError => ran == Value(stream)
        case Error(_) => ran.sink == Out() && Stops(ran, stream.next == |stream.tokens|, stream.fault, err)
    {
      ghost var s, from := Start(Value(stream), tag), stream.next;
      err := stream.Skip();
      RunPast(s, stream.tokens[from..stream.next], stream.next == |stream.tokens|, stream.fault, err);
    }

    method EndOf(tag: Tag, ghost stream: XmlStream)
      modifies this`frames, this`runs, this`inText, this`done, document
      ensures Value(stream) == End(old(Value(stream)), tag)
    {
      match tag {
        case T => inText := false;
        case R => runs := runs - 1;
        case P | Tr | Tc => CloseFrame(Value(stream));
        case _ =>
      }
    }

    /** Reads one token and acts on it. */
    method Take(stream: XmlStream) returns (turn: Turn)
      requires stream.next <= |stream.tokens|
      modifies this, stream, document
      ensures old(stream.next) <= stream.next <= |stream.tokens|
      ensures var ran := Run(old(Value(stream)), stream.tokens[old(stream.next)..stream.next]);
        match turn
        case Go => ran == Value(stream) && old(stream.next) < stream.next
        case Stop(err) =>
          ran.sink == Out() == old(Out()) && Stops(ran, stream.next == |stream.tokens|, stream.fault, err)
    {
      ghost var start, from := Value(stream), stream.next;
      assert stream.tokens[from..from] == [];
      var read := stream.Token();
      if stream.next > from {
        RunFrom(start, stream.tokens, from, from + 1);
        assert stream.tokens[from + 1..from + 1] == [];
      }
      match read {
        case Failed(EndOfFile) => return Stop(NoError);
        case Failed(why) => return Stop(Error(why));
        case Got(StartElement(tag)) =>
          turn := TakeStart(stream, tag, start);
        case Got(EndElement(tag)) =>
          TakeEnd(tag, stream, start);
          return Go;
        case Got(CharData(text)) =>
          TakeText(text, stream, start);
          return Go;
      }
    }

    method TakeText(text: Text, ghost stream: XmlStream, ghost s: State)
      requires Value(stream) == s
      modifies this`frames
      ensures Value(stream) == Step(s, CharData(text))
    {
      if inText {
        Write(text);
      }
    }

    method TakeEnd(tag: Tag, ghost stream: XmlStream, ghost s: State)
      requires Value(stream) == s.(depth := s.depth - 1)
      modifies this`frames, this`runs, this`inText, this`done, document
      ensures Value(stream) == Step(s, EndElement(tag))
    {
      EndOf(tag, stream);
    }

    method TakeStart(stream: XmlStream, tag: Tag, ghost s: State) returns (turn: Turn)
      requires 0 < stream.next <= |stream.tokens| && stream.tokens[stream.next - 1] == StartElement(tag)
      requires Value(stream) == s.(depth := s.depth + 1) && stream.depth <= MAX_XML_DEPTH
      modifies this, stream
      ensures document.text == old(document.text) && document.full == old(document.full) && done == old(done)
      ensures old(stream.next) <= stream.next <= |stream.tokens|
      ensures var ran := Run(s, stream.tokens[old(stream.next) - 1..stream.next]);
        match turn
        case Go => ran == Value(stream)
        case Stop(err) => ran.sink == Out() && Stops(ran, stream.next == |stream.tokens|, stream.fault, err)
    {
      ghost var from := stream.next;
      var err := StartOf(stream, tag);
      RunFrom(s, stream.tokens, from - 1, stream.next);
      return if err.Error? then Stop(err) else Go;
    }

    /**
     Reads the stream to its end, or until the document is full: what it
     leaves, and the error it returns, are those of the run over every token.
     */
    method Walk(stream: XmlStream) returns (err: Error)
      requires stream.next <= |stream.tokens|
      requires done ==> document.full
      modifies this, stream, document
      ensures Out() == Run(old(Value(stream)), stream.tokens[old(stream.next)..]).sink
      ensures err == Verdict(Run(old(Value(stream)), stream.tokens[old(stream.next)..]), stream.fault)
    {
      ghost var start, from := Value(stream), stream.next;
      assert stream.tokens[from..from] == [];
      while !done
        invariant from <= stream.next <= |stream.tokens|
        invariant Value(stream) == Run(start, stream.tokens[from..stream.next])
        decreases |stream.tokens| - stream.next
      {
        ghost var at := stream.next;
        var turn := Take(stream);
        RunOn(start, stream.tokens, from, at, stream.next);
        if turn.Stop? {
          WalkStops(start, stream.tokens, from, stream.next);
          return turn.err;
        }
      }
      WalkStops(start, stream.tokens, from, stream.next);
      return NoError;
    }
  }

  /** The error of a walk whose run over every token ends in the state. */
  function Verdict(end: State, fault: Fault): Error {
    if end.sink.done then NoError else EndsWith(end.tooDeep, end.skipping, fault)
  }

  /** A run that has been stopped, or has failed, says where the whole run ends. */
  lemma WalkStops(s: State, tokens: seq<Token>, from: nat, next: nat)
    requires from <= next <= |tokens|
    ensures var ran, end := Run(s, tokens[from..next]), Run(s, tokens[from..]);
      && (next == |tokens| || ran.tooDeep ==> end == ran)
      && ((s.sink.done ==> s.sink.full) && ran.sink.done ==> end.sink == ran.sink)
  {
    RunOn(s, tokens, from, next, |tokens|);
    assert tokens[from..|tokens|] == tokens[from..];
    RunSink(s, tokens[from..next]);
    RunSink(Run(s, tokens[from..next]), tokens[next..|tokens|]);
  }

  lemma RunOn(s: State, tokens: seq<Token>, from: nat, at: nat, next: nat)
    requires from <= at <= next <= |tokens|
    ensures Run(s, tokens[from..next]) == Run(Run(s, tokens[from..at]), tokens[at..next])
  {
    RunConcat(s, tokens[from..at], tokens[at..next]);
    assert tokens[from..at] + tokens[at..next] == tokens[from..next];
  }

  lemma RunFrom(s: State, tokens: seq<Token>, from: nat, next: nat)
    requires from < next <= |tokens|
    ensures Run(s, tokens[from..next]) == Run(Step(s, tokens[from]), tokens[from + 1..next])
  {
    RunOn(s, tokens, from, from + 1, next);
    RunOne(s, tokens[from]);
    assert tokens[from..from + 1] == [tokens[from]];
  }

  lemma {:induction false} RunSink(s: State, tokens: seq<Token>)
    ensures Later(s.sink, Run(s, tokens).sink)
    ensures s.tooDeep ==> Run(s, tokens) == s
    decreases |tokens|
  {
    if tokens != [] {
      var prefix := tokens[..|tokens| - 1];
      RunSink(s, prefix);
      StepSink(Run(s, prefix), tokens[|tokens| - 1]);
    }
  }

  lemma StepSink(s: State, token: Token)
    ensures Later(s.sink, Step(s, token).sink)
  {
    forall frames, e ensures Later(s.sink, Put(frames, s.sink, e).1) {
      PutSink(frames, s.sink, e);
    }
  }

  lemma {:induction false} PutSink(frames: seq<Frame>, sink: Sink, e: Effect)
    ensures Later(sink, Put(frames, sink, e).1)
  {
    if frames == [] {
      EmitAllSink(sink, e.delivered);
    } else {
      PutSink(frames[..|frames| - 1], sink, Passed(frames[|frames| - 1], e));
    }
  }
}
