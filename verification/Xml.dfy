/**
 The XML of a part of an Office document, as it is read (internal/fileview/office.go):
 token by token, and no deeper than a bound.
 */
module Xml {
  import opened Bytes

  /** The element names that are acted on; any other name is Other. */
  datatype Tag =
    | Fallback | InstrText | DelText | DelInstrText
    | P | Tr | Tc | R | T
    | Tab | PTab | Br | Cr | NoBreakHyphen
    | Sheet(part: SheetPart)
    | Other

  /** A worksheet's own elements, with the attributes that are read of them. */
  datatype SheetPart =
    | RowPart(number: Text)
    | CellPart(reference: Text, kind: Text, style: Text)
    | ValuePart | InlinePart | FormulaPart | PhoneticPart

  datatype Token = StartElement(tag: Tag) | EndElement(tag: Tag) | CharData(text: Text)

  /** A document tree: what an element holds, and what follows it beside it. */
  datatype Content =
    | Nothing
    | Characters(text: Text, next: Content)
    | Element(tag: Tag, inner: Content, next: Content)

  /** The token stream of a tree. */
  function Tokens(c: Content): seq<Token> {
    match c
    case Nothing => []
    case Characters(text, next) => [CharData(text)] + Tokens(next)
    case Element(tag, inner, next) => [StartElement(tag)] + Tokens(inner) + [EndElement(tag)] + Tokens(next)
  }

  /** How deep the elements of a tree are nested. */
  function Height(c: Content): nat {
    match c
    case Nothing => 0
    case Characters(_, next) => Height(next)
    case Element(_, inner, next) => var a, b := 1 + Height(inner), Height(next); if a > b then a else b
  }

  const MAX_XML_DEPTH := 1000

  // ----- Reading past an element

  function Change(token: Token): int {
    match token case StartElement(_) => 1 case EndElement(_) => -1 case CharData(_) => 0
  }

  /** How many more elements the tokens start than they end. */
  function Level(tokens: seq<Token>): int {
    if tokens == [] then 0 else Level(tokens[..|tokens| - 1]) + Change(tokens[|tokens| - 1])
  }

  /** The tokens never end the element they follow the start of, and never go too deep. */
  predicate Inside(tokens: seq<Token>, depth: int) {
    && 1 + Level(tokens) > 0 && depth + Level(tokens) <= MAX_XML_DEPTH
    && (tokens == [] || Inside(tokens[..|tokens| - 1], depth))
  }

  /** A read past an element: to its end, or to where it fails, too deep or at the end of the tokens. */
  predicate Past(tokens: seq<Token>, depth: int, atEnd: bool, fault: Fault, err: Error) {
    match err
    case NoError => tokens != [] && Inside(tokens[..|tokens| - 1], depth) && 1 + Level(tokens) == 0
    case Error(why) =>
      || (Inside(tokens, depth) && atEnd && why == fault)
      || (tokens != [] && Inside(tokens[..|tokens| - 1], depth)
          && depth + Level(tokens) > MAX_XML_DEPTH && why == TooDeep)
  }

  lemma LevelNext(tokens: seq<Token>, from: nat, at: nat)
    requires from <= at < |tokens|
    ensures var read := tokens[from..at + 1];
      && read[..|read| - 1] == tokens[from..at] && read[|read| - 1] == tokens[at]
      && Level(read) == Level(tokens[from..at]) + Change(tokens[at])
  {
    var read := tokens[from..at + 1];
    assert read[..|read| - 1] == tokens[from..at];
  }

  // ----- The stream

  /** Why a read of the stream ends: at its end, past the depth it is read to, or at an error of the reader's. */
  datatype Fault = EndOfFile | TooDeep | Broken

  datatype Read = Got(token: Token) | Failed(fault: Fault)

  datatype Error = NoError | Error(fault: Fault)

  /** Whether a read of the stream's tokens goes on after one. */
  datatype Turn = Go | Stop(err: Error)

  /** The error of a read that has come to the end of the tokens, or too deep. */
  function EndsWith(tooDeep: bool, skipping: nat, fault: Fault): Error {
    if tooDeep then Error(TooDeep)
    else if skipping > 0 || fault != EndOfFile then Error(fault)
    else NoError
  }

  /** A read stopped where it has got to: by the depth, or by the end of the stream. */
  predicate StopsAt(tooDeep: bool, skipping: nat, atEnd: bool, fault: Fault, err: Error) {
    (tooDeep || atEnd) && err == EndsWith(tooDeep, skipping, fault)
  }

  /** A part's tokens, read one by one; `fault` is what a read past the last one meets. */
  class XmlStream {
    const tokens: seq<Token>
    const fault: Fault
    var next: nat
    var depth: int

    constructor (tokens: seq<Token>, fault: Fault)
      ensures this.tokens == tokens && this.fault == fault && next == 0 && depth == 0
    {
      this.tokens, this.fault, next, depth := tokens, fault, 0, 0;
    }

    method Token() returns (read: Read)
      requires next <= |tokens|
      modifies this
      ensures old(next) == |tokens| ==> read == Failed(fault) && next == old(next) && depth == old(depth)
      ensures old(next) < |tokens| ==> next == old(next) + 1
      ensures old(next) < |tokens| ==>
        var token := tokens[old(next)];
        && depth == old(depth) + Change(token)
        && read == if token.StartElement? && depth > MAX_XML_DEPTH then Failed(TooDeep) else Got(token)
    {
      if next == |tokens| {
        return Failed(fault);
      }
      var token := tokens[next];
      next := next + 1;
      match token {
        case StartElement(_) =>
          depth := depth + 1;
          if depth > MAX_XML_DEPTH {
            return Failed(TooDeep);
          }
        case EndElement(_) =>
          depth := depth - 1;
        case CharData(_) =>
      }
      return Got(token);
    }

    /** Reads past the rest of the element just started. */
    method Skip() returns (err: Error)
      requires next <= |tokens| && depth <= MAX_XML_DEPTH
      modifies this
      ensures old(next) <= next <= |tokens| && depth == old(depth) + Level(tokens[old(next)..next])
      ensures Past(tokens[old(next)..next], old(depth), next == |tokens|, fault, err)
    {
      var level := 1;
      ghost var from, start := next, depth;
      assert tokens[next..next] == [];
      while level > 0
        invariant from <= next <= |tokens|
        invariant level == 1 + Level(tokens[from..next]) && depth == start + Level(tokens[from..next])
        invariant level > 0 ==> Inside(tokens[from..next], start)
        invariant level == 0 ==> Past(tokens[from..next], start, next == |tokens|, fault, NoError)
        decreases |tokens| - next
      {
        ghost var at := next;
        var read := Token();
        if next > at {
          LevelNext(tokens, from, at);
        }
        match read {
          case Failed(why) =>
            return Error(why);
          case Got(token) =>
            match token {
              case StartElement(_) => level := level + 1;
              case EndElement(_) => level := level - 1;
              case CharData(_) =>
            }
        }
      }
      return NoError;
    }
  }
}
