/**
 What any URI names (internal/mcp/resources.go), told by its segments: not only
 the URIs the server builds, but those a client may send.
 */
module UriLaws {
  import opened Bytes
  import opened Options
  import opened Splitting
  import opened ResourceUri
  import Utf8

  // ----- Spelling

  lemma WordsAreWords()
    ensures PREFIX == Word("bitbucket://projects/") && REPOS == Word("repos") && COMMITS == Word("commits")
    ensures PULL_REQUESTS == Word("pull-requests") && DIFF == Word("diff") && THREADS == Word("threads")
    ensures FILES == Word("files") && AT == Word("at")
  {
  }

  /** Letters, digits, and four marks stay as they are; any other byte is escaped, in capitals. */
  lemma EscapesExactly(b: byte)
    ensures var c := b as int as char;
      EscapedByte(b) ==
        if 'a' <= c <= 'z' || 'A' <= c <= 'Z' || '0' <= c <= '9' || c in {'-', '.', '_', '~'} then [b]
        else [37, Word("0123456789ABCDEF")[b as nat / 16], Word("0123456789ABCDEF")[b as nat % 16]]
  {
    CapitalDigit(b as nat / 16);
    CapitalDigit(b as nat % 16);
  }

  lemma CapitalDigit(n: nat)
    requires n < 16
    ensures HexDigit(n) == Word("0123456789ABCDEF")[n]
  {
    var digits := "0123456789ABCDEF";
    assert digits[n] as int == if n < 10 then 48 + n else 55 + n;
  }

  /** A hexadecimal digit, in small letters or in capitals. */
  predicate HexIs(digit: byte, n: int) {
    || (0 <= n < 10 && digit as int == 48 + n)
    || (10 <= n < 16 && (digit as int == 97 + n - 10 || digit as int == 65 + n - 10))
  }

  /** The text spells the bytes: each as itself or by a percent sign and two digits; in a query a plus is a space. */
  predicate Spells(text: Text, value: Text, query: bool)
    decreases |text|
  {
    if |value| == 0 then |text| == 0
    else if |text| == 0 then false
    else if text[0] == PERCENT then
      && |text| >= 3 && HexIs(text[1], value[0] as int / 16) && HexIs(text[2], value[0] as int % 16)
      && Spells(text[3..], value[1..], query)
    else value[0] == (if query && text[0] == PLUS then SPACE else text[0]) && Spells(text[1..], value[1..], query)
  }

  lemma HexReads(digit: byte, n: int)
    ensures HexIs(digit, n) <==> HexValue(digit) == n && 0 <= n < 16
  {
  }

  /** Unescaping gives exactly what a text spells; whether digits are small or capital makes no difference. */
  lemma {:induction false} UnescapedExactly(text: Text, value: Text, query: bool)
    ensures Unescaped(text, query) == Some(value) <==> Spells(text, value, query)
    decreases |text|
  {
    if |text| > 0 && text[0] == PERCENT {
      if |text| >= 3 {
        EscapeReads(text, value, query);
      }
    } else if |text| > 0 {
      var first := if query && text[0] == PLUS then SPACE else text[0];
      if |value| > 0 {
        UnescapedExactly(text[1..], value[1..], query);
        assert [value[0]] + value[1..] == value;
      }
      if Unescaped(text, query) == Some(value) {
        assert value == [first] + Unescaped(text[1..], query).value;
        assert value[1..] == Unescaped(text[1..], query).value;
      }
    }
  }

  lemma {:induction false} EscapeReads(text: Text, value: Text, query: bool)
    requires |text| >= 3 && text[0] == PERCENT
    ensures Unescaped(text, query) == Some(value) <==> Spells(text, value, query)
    decreases |text|, 0
  {
    if |value| > 0 {
      UnescapedExactly(text[3..], value[1..], query);
      HexReads(text[1], value[0] as int / 16);
      HexReads(text[2], value[0] as int % 16);
      assert [value[0]] + value[1..] == value;
    }
    if Unescaped(text, query) == Some(value) {
      var byte := (16 * HexValue(text[1]) + HexValue(text[2])) as byte;
      assert value == [byte] + Unescaped(text[3..], query).value;
      assert value[1..] == Unescaped(text[3..], query).value;
    }
  }

  /** A component spells a text's UTF-8. */
  predicate Spelt(component: Text, value: string) { Spells(component, Utf8.Encode(value), false) }

  lemma ReadsUtf8(bytes: Text, value: string)
    ensures Utf8Text(bytes) == Some(value) <==> bytes == Utf8.Encode(value)
  {
    Utf8.EncodeDecodes(bytes);
    Utf8.DecodeEncodes(value);
  }

  lemma ComponentExactly(component: Text, value: string)
    ensures Component(component) == Some(value) <==> Spelt(component, value)
  {
    UnescapedExactly(component, Utf8.Encode(value), false);
    ReadsUtf8(Utf8.Encode(value), value);
    if Unescaped(component, false).Some? {
      ReadsUtf8(Unescaped(component, false).value, value);
    }
  }

  // ----- Segments

  /** Segments that spell the parts of a path, none empty and none with a slash in it. */
  ghost predicate SpellParts(segments: seq<Text>, parts: seq<string>) {
    && |parts| == |segments|
    && forall i :: 0 <= i < |parts| ==> Spelt(segments[i], parts[i]) && parts[i] != "" && '/' !in parts[i]
  }

  ghost predicate SpellPath(segments: seq<Text>, path: string) {
    exists parts :: SpellParts(segments, parts) && Join(parts, '/') == path
  }

  lemma {:induction false} ComponentsExactly(segments: seq<Text>, parts: seq<string>)
    ensures Components(segments) == Some(parts) <==> SpellParts(segments, parts)
    decreases |segments|
  {
    if |segments| > 0 {
      if |parts| > 0 {
        ComponentExactly(segments[0], parts[0]);
        ComponentsExactly(segments[1..], parts[1..]);
        assert [parts[0]] + parts[1..] == parts;
        SpellPartsFirst(segments, parts);
      }
      if Components(segments) == Some(parts) {
        assert parts == [Component(segments[0]).value] + Components(segments[1..]).value;
        assert parts[1..] == Components(segments[1..]).value;
      }
    }
  }

  lemma SpellPartsFirst(segments: seq<Text>, parts: seq<string>)
    requires |segments| > 0 && |parts| > 0
    ensures SpellParts(segments, parts)
      <==> && Spelt(segments[0], parts[0]) && parts[0] != "" && '/' !in parts[0]
           && SpellParts(segments[1..], parts[1..])
  {
    if SpellParts(segments[1..], parts[1..]) {
      assert forall i :: 1 <= i < |parts| ==> segments[i] == segments[1..][i - 1] && parts[i] == parts[1..][i - 1];
    }
  }

  /** What the segments of a path name, after the prefix and before any query. */
  ghost predicate SegmentsName(segments: seq<Text>, ref: Ref) {
    && |segments| >= 5 && segments[1] == REPOS && Spelt(segments[0], ref.project) && Spelt(segments[2], ref.repo)
    && (ref.kind != File ==> ref.path == "" && Spelt(segments[4], ref.id))
    && match ref.kind
       case PullRequest => |segments| == 5 && segments[3] == PULL_REQUESTS
       case PullRequestDiff => |segments| == 6 && segments[3] == PULL_REQUESTS && segments[5] == DIFF
       case PullRequestThreads => |segments| == 6 && segments[3] == PULL_REQUESTS && segments[5] == THREADS
       case Commit => |segments| == 5 && segments[3] == COMMITS
       case File => segments[3] == FILES && ref.id == "" && SpellPath(segments[4..], ref.path)
       case OtherKind => false
  }

  lemma NamedExactly(segments: seq<Text>, ref: Ref)
    ensures Named(segments) == Some(ref) <==> SegmentsName(segments, ref) && ref.at == ""
  {
    WordsDiffer();
    if |segments| >= 5 {
      ComponentExactly(segments[0], ref.project);
      ComponentExactly(segments[2], ref.repo);
      ComponentExactly(segments[4], ref.id);
      PathExactly(segments[4..], ref.path);
    }
  }

  lemma PathExactly(segments: seq<Text>, path: string)
    ensures SpellPath(segments, path) <==> Components(segments).Some? && Join(Components(segments).value, '/') == path
  {
    if Components(segments).Some? {
      ComponentsExactly(segments, Components(segments).value);
    }
    if parts :| SpellParts(segments, parts) && Join(parts, '/') == path {
      ComponentsExactly(segments, parts);
    }
  }

  lemma WordsDiffer()
    ensures PULL_REQUESTS != COMMITS && PULL_REQUESTS != FILES && COMMITS != FILES && DIFF != THREADS
  {
    assert PULL_REQUESTS[0] != COMMITS[0] && PULL_REQUESTS[0] != FILES[0] && COMMITS[0] != FILES[0];
    assert DIFF[0] != THREADS[0];
  }

  // ----- The query

  /** A piece of a query gives a key a value, nothing when there is no equals sign. */
  ghost predicate PieceGives(piece: Text, key: Text, value: Text) {
    exists rawKey: Text, rawValue: Text :: Halves(piece, rawKey, rawValue)
      && Spells(rawKey, key, true) && Spells(rawValue, value, true)
  }

  predicate Halves(piece: Text, rawKey: Text, rawValue: Text) {
    && EQUALS !in rawKey
    && (piece == rawKey + [EQUALS] + rawValue || (piece == rawKey && rawValue == []))
  }

  lemma HalvesExactly(piece: Text, rawKey: Text, rawValue: Text)
    requires Halves(piece, rawKey, rawValue)
    ensures CutAt(piece, EQUALS).0 == rawKey
    ensures rawValue == match CutAt(piece, EQUALS).1 case None => [] case Some(rest) => rest
  {
    CutsAt(rawKey, rawValue, EQUALS);
  }

  lemma {:induction false} CutHalves(piece: Text)
    ensures var (before, after) := CutAt(piece, EQUALS);
      EQUALS !in before && piece == before + match after case None => [] case Some(rest) => [EQUALS] + rest
    decreases |piece|
  {
    if |piece| > 0 && piece[0] != EQUALS {
      CutHalves(piece[1..]);
      assert [piece[0]] + piece[1..] == piece;
    } else if |piece| > 0 {
      assert [piece[0]] + piece[1..] == piece;
    }
  }

  lemma PieceExactly(piece: Text, key: Text, value: Text)
    ensures var (rawKey, rawValue) := CutAt(piece, EQUALS);
      PieceGives(piece, key, value)
      <==> && Unescaped(rawKey, true) == Some(key)
           && Unescaped(if rawValue.Some? then rawValue.value else [], true) == Some(value)
  {
    var (rawKey, after) := CutAt(piece, EQUALS);
    var rawValue := if after.Some? then after.value else [];
    CutHalves(piece);
    assert after.None? ==> rawKey + [] == rawKey;
    assert after.Some? ==> rawKey + ([EQUALS] + rawValue) == rawKey + [EQUALS] + rawValue;
    assert Halves(piece, rawKey, rawValue);
    UnescapedExactly(rawKey, key, true);
    UnescapedExactly(rawValue, value, true);
    forall k, v | Halves(piece, k, v) ensures k == rawKey && v == rawValue {
      HalvesExactly(piece, k, v);
    }
  }

  /** All but one of the pieces are empty, that one gives the key the value, and none has a semicolon. */
  ghost predicate OnePiece(pieces: seq<Text>, key: Text, value: Text) {
    exists i :: 0 <= i < |pieces| && pieces[i] != [] && SEMICOLON !in pieces[i] && PieceGives(pieces[i], key, value)
      && forall j :: 0 <= j < |pieces| && j != i ==> pieces[j] == []
  }

  lemma {:induction false} NoPairs(pieces: seq<Text>)
    ensures Pairs(pieces) == Some([]) <==> forall i :: 0 <= i < |pieces| ==> pieces[i] == []
    decreases |pieces|
  {
    if |pieces| > 0 {
      NoPairs(pieces[1..]);
      assert forall i :: 1 <= i < |pieces| ==> pieces[i] == pieces[1..][i - 1];
      assert (forall i :: 0 <= i < |pieces| ==> pieces[i] == []) <==>
        pieces[0] == [] && forall i :: 0 <= i < |pieces[1..]| ==> pieces[1..][i] == [];
    }
  }

  lemma {:induction false} OnePairExactly(pieces: seq<Text>, key: Text, value: Text)
    ensures Pairs(pieces) == Some([(key, value)]) <==> OnePiece(pieces, key, value)
    decreases |pieces|
  {
    if |pieces| > 0 {
      var rest := pieces[1..];
      OnePairExactly(rest, key, value);
      NoPairs(rest);
      PieceExactly(pieces[0], key, value);
      FirstPiece(pieces, key, value);
      PairsFirst(pieces, key, value);
    }
  }

  lemma PairsFirst(pieces: seq<Text>, key: Text, value: Text)
    requires |pieces| > 0
    ensures var (rawKey, rawValue) := CutAt(pieces[0], EQUALS);
      Pairs(pieces) == Some([(key, value)])
      <==> && SEMICOLON !in pieces[0]
           && if pieces[0] == [] then Pairs(pieces[1..]) == Some([(key, value)])
              else
                && Pairs(pieces[1..]) == Some([]) && Unescaped(rawKey, true) == Some(key)
                && Unescaped(if rawValue.Some? then rawValue.value else [], true) == Some(value)
  {
    if Pairs(pieces[1..]).Some? {
      var rest := Pairs(pieces[1..]).value;
      forall k, v ensures [(k, v)] + rest == [(key, value)] <==> k == key && v == value && rest == [] {
        assert |[(k, v)] + rest| == 1 + |rest| && ([(k, v)] + rest)[0] == (k, v);
      }
    }
  }

  lemma FirstPiece(pieces: seq<Text>, key: Text, value: Text)
    requires |pieces| > 0
    ensures OnePiece(pieces, key, value)
      <==> if pieces[0] == [] then OnePiece(pieces[1..], key, value)
           else SEMICOLON !in pieces[0] && PieceGives(pieces[0], key, value)
                && forall i :: 0 <= i < |pieces[1..]| ==> pieces[1..][i] == []
  {
    var rest := pieces[1..];
    assert forall i :: 1 <= i < |pieces| ==> pieces[i] == rest[i - 1];
    if pieces[0] == [] && OnePiece(rest, key, value) {
      var i :| 0 <= i < |rest| && rest[i] != [] && SEMICOLON !in rest[i] && PieceGives(rest[i], key, value)
        && forall j :: 0 <= j < |rest| && j != i ==> rest[j] == [];
      assert pieces[i + 1] == rest[i];
    }
    if OnePiece(pieces, key, value) {
      var i :| 0 <= i < |pieces| && pieces[i] != [] && SEMICOLON !in pieces[i] && PieceGives(pieces[i], key, value)
        && forall j :: 0 <= j < |pieces| && j != i ==> pieces[j] == [];
      assert i > 0 ==> rest[i - 1] == pieces[i];
    }
  }

  /** The query gives `at` the value, and nothing else anything. */
  ghost predicate QueryNames(query: Text, at: string) {
    OnePiece(Split(query, AMPERSAND), AT, Utf8.Encode(at))
  }

  lemma QueryExactly(query: Text, at: string)
    ensures QueryAt(query) == Some(at) <==> QueryNames(query, at)
  {
    OnePairExactly(Split(query, AMPERSAND), AT, Utf8.Encode(at));
    ReadsUtf8(Utf8.Encode(at), at);
    var pairs := Pairs(Split(query, AMPERSAND));
    if pairs.Some? && |pairs.value| == 1 {
      ReadsUtf8(pairs.value[0].1, at);
      assert pairs.value == [(pairs.value[0].0, pairs.value[0].1)];
    }
  }

  // ----- URIs

  /** A URI that is read begins with the prefix and has no fragment. */
  lemma OnlyResources(uri: Text)
    ensures Parsed(uri).Some? ==> PREFIX <= uri && HASH !in uri[|PREFIX|..]
  {
  }

  /** One without a query reads as what its segments name, and one with a query as a file at what that names. */
  lemma ReadsExactly(path: Text, query: Text, ref: Ref)
    requires Clean(path) && HASH !in query
    ensures Parsed(PREFIX + path) == Some(ref) <==> SegmentsName(Split(path, SLASH), ref) && ref.at == ""
    ensures Parsed(PREFIX + path + ([QUESTION] + query)) == Some(ref)
      <==> ref.kind == File && SegmentsName(Split(path, SLASH), ref) && QueryNames(query, ref.at)
  {
    var segments := Split(path, SLASH);
    ParsedWithout(path);
    ParsedWith(path, query);
    NamedExactly(segments, ref);
    NamedExactly(segments, ref.(at := ""));
    QueryExactly(query, ref.at);
  }
}
