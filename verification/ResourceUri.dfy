/**
 The URIs of the resources the server serves (internal/mcp/resources.go):
 building one from what it names and reading one back.
 */
module ResourceUri {
  import opened Bytes
  import opened Options
  import opened Splitting
  import opened Strings
  import Utf8

  datatype Kind = PullRequest | PullRequestDiff | PullRequestThreads | File | Commit | OtherKind

  /** What a URI names. A Go string of valid UTF-8 is the sequence of its characters. */
  datatype Ref = Ref(kind: Kind, project: string, repo: string, id: string, path: string, at: string)

  const PERCENT: byte := 37
  const AMPERSAND: byte := 38
  const PLUS: byte := 43
  const SLASH: byte := 47
  const SEMICOLON: byte := 59
  const EQUALS: byte := 61
  const QUESTION: byte := 63
  const HASH: byte := 35

  // bitbucket://projects/
  const PREFIX: Text := [98, 105, 116, 98, 117, 99, 107, 101, 116, 58, 47, 47,
                         112, 114, 111, 106, 101, 99, 116, 115, 47]
  const REPOS: Text := [114, 101, 112, 111, 115]
  const PULL_REQUESTS: Text := [112, 117, 108, 108, 45, 114, 101, 113, 117, 101, 115, 116, 115]
  const DIFF: Text := [100, 105, 102, 102]
  const THREADS: Text := [116, 104, 114, 101, 97, 100, 115]
  const COMMITS: Text := [99, 111, 109, 109, 105, 116, 115]
  const FILES: Text := [102, 105, 108, 101, 115]
  const AT: Text := [97, 116]

  // ----- Escaping one component

  /** The unreserved characters of section 2.3 of RFC 3986. */
  predicate Unreserved(b: byte) {
    || 97 <= b <= 122 || 65 <= b <= 90 || 48 <= b <= 57
    || b == 45 || b == 46 || b == 95 || b == 126
  }

  function HexDigit(n: nat): byte
    requires n < 16
  {
    if n < 10 then (48 + n) as byte else (55 + n) as byte
  }

  function EscapedByte(b: byte): Text {
    if Unreserved(b) then [b] else [PERCENT, HexDigit(b as nat / 16), HexDigit(b as nat % 16)]
  }

  /** Section 2.1 of RFC 3986, of every byte that is not unreserved. */
  function Escaped(value: Text): Text {
    if value == [] then [] else EscapedByte(value[0]) + Escaped(value[1..])
  }

  method EscapeComponent(value: Text) returns (escaped: Text)
    ensures escaped == Escaped(value)
  {
    escaped := [];
    assert value[0..] == value;
    for index := 0 to |value|
      invariant escaped + Escaped(value[index..]) == Escaped(value)
    {
      var c := value[index];
      EscapesNext(escaped, value, index);
      if Unreserved(c) {
        escaped := escaped + [c];
      } else {
        escaped := escaped + [PERCENT, HexDigit(c as nat / 16), HexDigit(c as nat % 16)];
      }
    }
  }

  lemma EscapesNext(escaped: Text, value: Text, index: nat)
    requires index < |value|
    ensures escaped + EscapedByte(value[index]) + Escaped(value[index + 1..]) == escaped + Escaped(value[index..])
  {
    assert value[index..][1..] == value[index + 1..];
  }

  /** The value of a hexadecimal digit, or 16 for anything else. */
  function HexValue(b: byte): (n: nat)
    ensures n <= 16
  {
    if 48 <= b <= 57 then b as nat - 48
    else if 97 <= b <= 102 then b as nat - 87
    else if 65 <= b <= 70 then b as nat - 55
    else 16
  }

  /** Percent-decodes a text; in a query a plus sign is a space. */
  function Unescaped(value: Text, query: bool): Option<Text> {
    if value == [] then Some([])
    else if value[0] == PERCENT then
      if |value| < 3 || HexValue(value[1]) == 16 || HexValue(value[2]) == 16 then None
      else
        match Unescaped(value[3..], query)
        case None => None
        case Some(rest) => Some([(16 * HexValue(value[1]) + HexValue(value[2])) as byte] + rest)
    else
      match Unescaped(value[1..], query)
      case None => None
      case Some(rest) => Some([if query && value[0] == PLUS then SPACE else value[0]] + rest)
  }

  lemma {:induction false} UnescapeEscaped(value: Text, query: bool)
    ensures Unescaped(Escaped(value), query) == Some(value)
  {
    if value != [] {
      var head, rest := EscapedByte(value[0]), Escaped(value[1..]);
      UnescapeEscaped(value[1..], query);
      assert (head + rest)[|head|..] == rest;
      assert [value[0]] + value[1..] == value;
    }
  }

  /** An escaped text holds nothing a URI gives a meaning to but the percent sign. */
  lemma {:induction false} EscapedOmits(value: Text, b: byte)
    requires !Unreserved(b) && b != PERCENT
    ensures b !in Escaped(value)
  {
    if value != [] {
      EscapedOmits(value[1..], b);
    }
  }

  function Escape(value: string): Text {
    Escaped(Utf8.Encode(value))
  }

  /** Decodes one escaped component, refusing one that does not decode to UTF-8. */
  function Component(value: Text): Option<string> {
    match Unescaped(value, false)
    case None => None
    case Some(decoded) => Utf8Text(decoded)
  }

  function Utf8Text(value: Text): Option<string> {
    match Utf8.Decode(value)
    case Invalid => None
    case Decoded(text) => Some(text)
  }

  lemma ComponentOfEscape(value: string)
    ensures Component(Escape(value)) == Some(value)
    ensures Plain(Escape(value))
  {
    UnescapeEscaped(Utf8.Encode(value), false);
    Utf8.DecodeEncodes(value);
    EscapeIsPlain(Utf8.Encode(value));
  }

  lemma EscapeIsPlain(value: Text)
    ensures Plain(Escaped(value))
  {
    EscapedOmits(value, SLASH);
    EscapedOmits(value, QUESTION);
    EscapedOmits(value, HASH);
    EscapedOmits(value, AMPERSAND);
    EscapedOmits(value, SEMICOLON);
    EscapedOmits(value, EQUALS);
  }

  /** Nothing in the text separates the parts of a URI. */
  predicate Plain(value: Text) {
    && SLASH !in value && QUESTION !in value && HASH !in value
    && AMPERSAND !in value && SEMICOLON !in value && EQUALS !in value
  }

  // ----- Building a URI

  /** The segments that name something: trimmed, and neither empty nor ".". */
  function Segments(parts: seq<string>): seq<string> {
    if parts == [] then []
    else
      var trimmed := Trim(parts[0]);
      (if trimmed != "" && trimmed != "." then [trimmed] else []) + Segments(parts[1..])
  }

  function PathSegments(path: string): seq<string> {
    Segments(Split(path, '/'))
  }

  function Escapes(segments: seq<string>): seq<Text> {
    if segments == [] then [] else [Escape(segments[0])] + Escapes(segments[1..])
  }

  /** The URI of a resource; a kind there is no template for has none. */
  function Uri(ref: Ref): Text {
    if ref.kind == OtherKind then []
    else
      var at := Trim(ref.at);
      PREFIX + PathOf(ref) + (if ref.kind == File && at != "" then [QUESTION] + (AT + [EQUALS] + Escape(at)) else [])
  }

  function PathOf(ref: Ref): Text
    requires ref.kind != OtherKind
  {
    Escape(ref.project) + [SLASH] + (REPOS + [SLASH] + (Escape(ref.repo) + [SLASH] + Tail(ref)))
  }

  function Tail(ref: Ref): Text
    requires ref.kind != OtherKind
  {
    match ref.kind
    case PullRequest => PULL_REQUESTS + [SLASH] + Escape(ref.id)
    case PullRequestDiff => PULL_REQUESTS + [SLASH] + (Escape(ref.id) + [SLASH] + DIFF)
    case PullRequestThreads => PULL_REQUESTS + [SLASH] + (Escape(ref.id) + [SLASH] + THREADS)
    case Commit => COMMITS + [SLASH] + Escape(ref.id)
    case File => FILES + [SLASH] + Join(Escapes(PathSegments(ref.path)), SLASH)
  }

  // ----- Reading a URI

  /** What stands before the first occurrence of a byte, and what after it. */
  function CutAt(text: Text, b: byte): (Text, Option<Text>) {
    if text == [] then ([], None)
    else if text[0] == b then ([], Some(text[1..]))
    else
      var (before, after) := CutAt(text[1..], b);
      ([text[0]] + before, after)
  }

  function Parsed(uri: Text): Option<Ref> {
    if !(PREFIX <= uri) || HASH in uri[|PREFIX|..] then None
    else
      var (path, query) := CutAt(uri[|PREFIX|..], QUESTION);
      match Named(Split(path, SLASH))
      case None => None
      case Some(ref) =>
        match query
        case None => Some(ref)
        case Some(raw) =>
          if ref.kind != File then None
          else
            match QueryAt(raw)
            case None => None
            case Some(at) => Some(ref.(at := at))
  }

  /** What the segments of a path name. */
  function Named(segments: seq<Text>): Option<Ref> {
    if |segments| < 5 || segments[1] != REPOS then None
    else
      match (Component(segments[0]), Component(segments[2]))
      case (Some(project), Some(repo)) =>
        if segments[3] == PULL_REQUESTS then
          var kind := if |segments| == 5 then PullRequest
                      else if |segments| == 6 && segments[5] == DIFF then PullRequestDiff
                      else if |segments| == 6 && segments[5] == THREADS then PullRequestThreads
                      else OtherKind;
          match Component(segments[4])
          case Some(id) => if kind == OtherKind then None else Some(Ref(kind, project, repo, id, "", ""))
          case None => None
        else if segments[3] == COMMITS then
          match Component(segments[4])
          case Some(id) => if |segments| != 5 then None else Some(Ref(Commit, project, repo, id, "", ""))
          case None => None
        else if segments[3] == FILES then
          match Components(segments[4..])
          case Some(decoded) => Some(Ref(File, project, repo, "", Join(decoded, '/'), ""))
          case None => None
        else None
      case _ => None
  }

  /** The segments of a file's path, none of them empty or holding a slash. */
  function Components(segments: seq<Text>): Option<seq<string>> {
    if segments == [] then Some([])
    else
      match (Component(segments[0]), Components(segments[1..]))
      case (Some(value), Some(rest)) => if value == "" || '/' in value then None else Some([value] + rest)
      case _ => None
  }

  /** The keys and values of a query, when all of it can be read. */
  function Pairs(pieces: seq<Text>): Option<seq<(Text, Text)>> {
    if pieces == [] then Some([])
    else
      match Pairs(pieces[1..])
      case None => None
      case Some(rest) =>
        if SEMICOLON in pieces[0] then None
        else if pieces[0] == [] then Some(rest)
        else
          var (rawKey, rawValue) := CutAt(pieces[0], EQUALS);
          match (Unescaped(rawKey, true), Unescaped(if rawValue.Some? then rawValue.value else [], true))
          case (Some(key), Some(value)) => Some([(key, value)] + rest)
          case _ => None
  }

  /** The query's one value, which is for `at`. */
  function QueryAt(query: Text): Option<string> {
    match Pairs(Split(query, AMPERSAND))
    case None => None
    case Some(pairs) => if |pairs| == 1 && pairs[0].0 == AT then Utf8Text(pairs[0].1) else None
  }

  method DecodePath(segments: seq<Text>) returns (decoded: Option<seq<string>>)
    ensures decoded == Components(segments)
  {
    var values: seq<string> := [];
    assert segments[0..] == segments;
    OntoNothing(Components(segments));
    for index := 0 to |segments|
      invariant Components(segments) == Onto(values, Components(segments[index..]))
    {
      assert segments[index..][1..] == segments[index + 1..];
      var value := Component(segments[index]);
      if value.None? || value.value == "" || '/' in value.value {
        return None;
      }
      OntoMore(values, value.value, Components(segments[index + 1..]));
      values := values + [value.value];
    }
    OntoMore(values, "", None);
    return Some(values);
  }

  function Onto(values: seq<string>, rest: Option<seq<string>>): Option<seq<string>> {
    match rest case None => None case Some(more) => Some(values + more)
  }

  lemma OntoNothing(rest: Option<seq<string>>)
    ensures Onto([], rest) == rest
  {
    if rest.Some? {
      assert [] + rest.value == rest.value;
    }
  }

  lemma OntoMore(values: seq<string>, value: string, rest: Option<seq<string>>)
    ensures Onto(values + [value], rest) == Onto(values, Onto([value], rest))
    ensures Onto(values, Some([])) == Some(values)
  {
    assert values + [] == values;
    if rest.Some? {
      assert values + [value] + rest.value == values + ([value] + rest.value);
    }
  }

  method ParseResource(uri: Text) returns (result: Option<Ref>)
    ensures result == Parsed(uri)
  {
    if !(PREFIX <= uri) || HASH in uri[|PREFIX|..] {
      return None;
    }
    var (path, query) := CutAt(uri[|PREFIX|..], QUESTION);
    var segments := Split(path, SLASH);
    if |segments| < 5 || segments[1] != REPOS {
      return None;
    }
    var project, repo := Component(segments[0]), Component(segments[2]);
    if project.None? || repo.None? {
      return None;
    }
    var ref := Ref(OtherKind, project.value, repo.value, "", "", "");

    if segments[3] == PULL_REQUESTS {
      if |segments| == 5 {
        ref := ref.(kind := PullRequest);
      } else if |segments| == 6 && segments[5] == DIFF {
        ref := ref.(kind := PullRequestDiff);
      } else if |segments| == 6 && segments[5] == THREADS {
        ref := ref.(kind := PullRequestThreads);
      } else {
        return None;
      }
      var id := Component(segments[4]);
      if id.None? {
        return None;
      }
      ref := ref.(id := id.value);
    } else if segments[3] == COMMITS {
      var id := Component(segments[4]);
      if |segments| != 5 || id.None? {
        return None;
      }
      ref := ref.(kind := Commit, id := id.value);
    } else if segments[3] == FILES {
      var decoded := DecodePath(segments[4..]);
      if decoded.None? {
        return None;
      }
      ref := ref.(kind := File, path := Join(decoded.value, '/'));
    } else {
      return None;
    }

    if query.Some? {
      if ref.kind != File {
        return None;
      }
      var at := QueryAt(query.value);
      if at.None? {
        return None;
      }
      ref := ref.(at := at.value);
    }
    return Some(ref);
  }

  // ----- Reading back what was built

  lemma {:induction false} CutsAt(before: Text, after: Text, b: byte)
    requires b !in before
    ensures CutAt(before + [b] + after, b) == (before, Some(after))
    ensures CutAt(before, b) == (before, None)
  {
    if before == [] {
      assert (before + [b] + after)[1..] == after;
    } else {
      CutsAt(before[1..], after, b);
      assert (before + [b] + after)[1..] == before[1..] + [b] + after;
      assert [before[0]] + before[1..] == before;
    }
  }

  /** A path is its segments: trimmed, none empty, none ".", none holding a slash. */
  predicate AreSegments(segments: seq<string>) {
    forall i :: 0 <= i < |segments| ==> IsSegment(segments[i])
  }

  predicate IsSegment(s: string) { s != "" && s != "." && Trim(s) == s && '/' !in s }

  lemma {:induction false} SegmentsAreSegments(parts: seq<string>)
    requires forall i :: 0 <= i < |parts| ==> '/' !in parts[i]
    ensures AreSegments(Segments(parts))
  {
    if parts != [] {
      SegmentsAreSegments(parts[1..]);
      TrimTrims(parts[0]);
    }
  }

  lemma {:induction false} SegmentsOfSegments(segments: seq<string>)
    requires AreSegments(segments)
    ensures Segments(segments) == segments
  {
    if segments != [] {
      SegmentsOfSegments(segments[1..]);
      assert IsSegment(segments[0]);
      assert [segments[0]] + segments[1..] == segments;
    }
  }

  lemma {:induction false} ComponentsOfEscapes(segments: seq<string>)
    requires AreSegments(segments)
    ensures |Escapes(segments)| == |segments|
    ensures Components(Escapes(segments)) == Some(segments)
  {
    if segments != [] {
      ComponentOfEscape(segments[0]);
      ComponentsOfEscapes(segments[1..]);
      assert IsSegment(segments[0]);
      ComponentsFirst(Escape(segments[0]), Escapes(segments[1..]), segments[0], segments[1..]);
      assert [segments[0]] + segments[1..] == segments;
    }
  }

  lemma {:induction false} EscapesArePlain(segments: seq<string>)
    ensures |Escapes(segments)| == |segments|
    ensures forall i :: 0 <= i < |segments| ==> Plain(Escapes(segments)[i])
  {
    if segments != [] {
      EscapeIsPlain(Utf8.Encode(segments[0]));
      EscapesArePlain(segments[1..]);
    }
  }

  lemma ComponentsFirst(first: Text, rest: seq<Text>, value: string, decoded: seq<string>)
    requires Component(first) == Some(value) && value != "" && '/' !in value && Components(rest) == Some(decoded)
    ensures Components([first] + rest) == Some([value] + decoded)
  {
    assert ([first] + rest)[1..] == rest;
  }

  /** What reading the URI of a resource gives: the resource, with a path and `at` in normal form; or nothing. */
  function Normal(ref: Ref): Option<Ref> {
    match ref.kind
    case OtherKind => None
    case File =>
      var segments := PathSegments(ref.path);
      if segments == [] then None else Some(Ref(File, ref.project, ref.repo, "", Join(segments, '/'), Trim(ref.at)))
    case kind => Some(Ref(kind, ref.project, ref.repo, ref.id, "", ""))
  }

  /** The segments of a resource's path. */
  lemma SegmentsOfPath(ref: Ref)
    requires ref.kind != OtherKind
    ensures Split(PathOf(ref), SLASH) == [Escape(ref.project), REPOS, Escape(ref.repo)] + Split(Tail(ref), SLASH)
  {
    ComponentOfEscape(ref.project);
    ComponentOfEscape(ref.repo);
    SplitThree(Escape(ref.project), REPOS, Escape(ref.repo), Tail(ref));
  }

  lemma SplitThree(a: Text, b: Text, c: Text, rest: Text)
    requires SLASH !in a && SLASH !in b && SLASH !in c
    ensures Split(a + [SLASH] + (b + [SLASH] + (c + [SLASH] + rest)), SLASH) == [a, b, c] + Split(rest, SLASH)
  {
    SplitFirst(a, b + [SLASH] + (c + [SLASH] + rest), SLASH);
    SplitFirst(b, c + [SLASH] + rest, SLASH);
    SplitFirst(c, rest, SLASH);
    assert [a] + ([b] + ([c] + Split(rest, SLASH))) == [a, b, c] + Split(rest, SLASH);
  }

  lemma SegmentsOfTail(ref: Ref)
    requires ref.kind != OtherKind
    ensures Split(Tail(ref), SLASH) ==
      match ref.kind
      case PullRequest => [PULL_REQUESTS, Escape(ref.id)]
      case PullRequestDiff => [PULL_REQUESTS, Escape(ref.id), DIFF]
      case PullRequestThreads => [PULL_REQUESTS, Escape(ref.id), THREADS]
      case Commit => [COMMITS, Escape(ref.id)]
      case File => [FILES] + (if PathSegments(ref.path) == [] then [[]] else Escapes(PathSegments(ref.path)))
  {
    ComponentOfEscape(ref.id);
    match ref.kind
    case PullRequest => TwoSegments(PULL_REQUESTS, Escape(ref.id));
    case PullRequestDiff => ThreeSegments(PULL_REQUESTS, Escape(ref.id), DIFF);
    case PullRequestThreads => ThreeSegments(PULL_REQUESTS, Escape(ref.id), THREADS);
    case Commit => TwoSegments(COMMITS, Escape(ref.id));
    case File => FileSegments(ref.path);
  }

  lemma TwoSegments(a: Text, b: Text)
    requires SLASH !in a && SLASH !in b
    ensures Split(a + [SLASH] + b, SLASH) == [a, b]
  {
    SplitFirst(a, b, SLASH);
    SplitWhole(b, SLASH);
  }

  lemma ThreeSegments(a: Text, b: Text, c: Text)
    requires SLASH !in a && SLASH !in b && SLASH !in c
    ensures Split(a + [SLASH] + (b + [SLASH] + c), SLASH) == [a, b, c]
  {
    SplitFirst(a, b + [SLASH] + c, SLASH);
    TwoSegments(b, c);
    assert [a] + [b, c] == [a, b, c];
  }

  lemma FileSegments(path: string)
    ensures var segments := PathSegments(path);
      Split(FILES + [SLASH] + Join(Escapes(segments), SLASH), SLASH)
      == [FILES] + if segments == [] then [[]] else Escapes(segments)
  {
    var escapes := Escapes(PathSegments(path));
    SegmentsAreSegments(Split(path, '/'));
    EscapesArePlain(PathSegments(path));
    SplitFirst(FILES, Join(escapes, SLASH), SLASH);
    if escapes != [] {
      assert forall i :: 0 <= i < |escapes| ==> SLASH !in escapes[i] by {
        forall i | 0 <= i < |escapes| ensures SLASH !in escapes[i] { assert Plain(escapes[i]); }
      }
      SplitJoin(escapes, SLASH);
    }
  }

  /** The path of a URI names the resource it was built from. */
  lemma PathNames(ref: Ref)
    requires ref.kind != OtherKind
    ensures Named(Split(PathOf(ref), SLASH))
      == match Normal(ref) case None => None case Some(normal) => Some(normal.(at := ""))
  {
    var tail := Split(Tail(ref), SLASH);
    SegmentsOfPath(ref);
    if ref.kind == File {
      NamesFileAt(ref, Split(PathOf(ref), SLASH), tail);
    } else {
      NamesItem(ref, Split(PathOf(ref), SLASH), tail);
    }
  }

  lemma NamesFileAt(ref: Ref, segments: seq<Text>, tail: seq<Text>)
    requires ref.kind == File && tail == Split(Tail(ref), SLASH)
    requires segments == [Escape(ref.project), REPOS, Escape(ref.repo)] + tail
    ensures Named(segments) == match Normal(ref) case None => None case Some(normal) => Some(normal.(at := ""))
  {
    ComponentOfEscape(ref.project);
    ComponentOfEscape(ref.repo);
    FileTailNames(ref);
    assert segments[3] == tail[0] && segments[4..] == tail[1..];
    NamesFile(segments, ref.project, ref.repo, tail[1..]);
  }

  lemma NamesItem(ref: Ref, segments: seq<Text>, tail: seq<Text>)
    requires ref.kind != OtherKind && ref.kind != File && tail == Split(Tail(ref), SLASH)
    requires segments == [Escape(ref.project), REPOS, Escape(ref.repo)] + tail
    ensures Named(segments) == Normal(ref)
  {
    SegmentsOfTail(ref);
    ComponentOfEscape(ref.project);
    ComponentOfEscape(ref.repo);
    ComponentOfEscape(ref.id);
    assert segments[3] == tail[0] && segments[4] == tail[1] && (|tail| == 3 ==> segments[5] == tail[2]);
  }

  lemma FileTailNames(ref: Ref)
    requires ref.kind == File
    ensures var tail, named := Split(Tail(ref), SLASH), PathSegments(ref.path);
      && |tail| >= 2 && tail[0] == FILES
      && Components(tail[1..]) == if named == [] then None else Some(named)
  {
    var named := PathSegments(ref.path);
    SegmentsOfTail(ref);
    SegmentsAreSegments(Split(ref.path, '/'));
    ComponentsOfEscapes(named);
    NothingIsNoComponent();
    assert Split(Tail(ref), SLASH)[1..] == if named == [] then [[]] else Escapes(named);
  }

  lemma NamesFile(segments: seq<Text>, project: string, repo: string, rest: seq<Text>)
    requires |segments| >= 5 && segments[1] == REPOS && segments[3] == FILES && segments[4..] == rest
    requires Component(segments[0]) == Some(project) && Component(segments[2]) == Some(repo)
    ensures Named(segments)
      == match Components(rest)
         case Some(decoded) => Some(Ref(File, project, repo, "", Join(decoded, '/'), ""))
         case None => None
  {
    assert FILES[0] != PULL_REQUESTS[0] && FILES[0] != COMMITS[0];
  }

  lemma NothingIsNoComponent()
    ensures Components([[]]) == None
  {
    assert Component([]) == Some("");
  }

  /** The text has no query or fragment in it. */
  predicate Clean(text: Text) { QUESTION !in text && HASH !in text }

  lemma CleanConcat(a: Text, b: Text)
    requires Clean(a) && Clean(b)
    ensures Clean(a + [SLASH] + b)
  {
  }

  lemma PathIsClean(ref: Ref)
    requires ref.kind != OtherKind
    ensures Clean(PathOf(ref))
  {
    ComponentOfEscape(ref.project);
    ComponentOfEscape(ref.repo);
    TailIsClean(ref);
    CleanConcat(Escape(ref.repo), Tail(ref));
    CleanConcat(REPOS, Escape(ref.repo) + [SLASH] + Tail(ref));
    CleanConcat(Escape(ref.project), REPOS + [SLASH] + (Escape(ref.repo) + [SLASH] + Tail(ref)));
  }

  lemma TailIsClean(ref: Ref)
    requires ref.kind != OtherKind
    ensures Clean(Tail(ref))
  {
    ComponentOfEscape(ref.id);
    match ref.kind
    case PullRequest => CleanConcat(PULL_REQUESTS, Escape(ref.id));
    case PullRequestDiff =>
      CleanConcat(Escape(ref.id), DIFF);
      CleanConcat(PULL_REQUESTS, Escape(ref.id) + [SLASH] + DIFF);
    case PullRequestThreads =>
      CleanConcat(Escape(ref.id), THREADS);
      CleanConcat(PULL_REQUESTS, Escape(ref.id) + [SLASH] + THREADS);
    case Commit => CleanConcat(COMMITS, Escape(ref.id));
    case File =>
      var escapes := Escapes(PathSegments(ref.path));
      SegmentsAreSegments(Split(ref.path, '/'));
      EscapesArePlain(PathSegments(ref.path));
      JoinIsClean(escapes);
      CleanConcat(FILES, Join(escapes, SLASH));
  }

  lemma {:induction false} JoinIsClean(parts: seq<Text>)
    requires forall i :: 0 <= i < |parts| ==> Plain(parts[i])
    ensures Clean(Join(parts, SLASH))
  {
    if |parts| == 1 {
      assert Plain(parts[0]);
    } else if |parts| > 1 {
      JoinIsClean(parts[1..]);
      assert Plain(parts[0]);
      CleanConcat(parts[0], Join(parts[1..], SLASH));
    }
  }

  lemma QueryReads(at: string)
    ensures QueryAt(AT + [EQUALS] + Escape(at)) == Some(at)
  {
    var query := AT + [EQUALS] + Escape(at);
    ComponentOfEscape(at);
    UnescapeEscaped(Utf8.Encode(at), true);
    Utf8.DecodeEncodes(at);
    QueryIsOnePiece(Escape(at));
    CutsAt(AT, Escape(at), EQUALS);
    UnescapesAt();
    OnePair(query, Escape(at), Utf8.Encode(at));
  }

  lemma QueryIsOnePiece(value: Text)
    requires Plain(value)
    ensures Split(AT + [EQUALS] + value, AMPERSAND) == [AT + [EQUALS] + value] && SEMICOLON !in AT + [EQUALS] + value
  {
    SplitWhole(AT + [EQUALS] + value, AMPERSAND);
  }

  lemma UnescapesAt()
    ensures Unescaped(AT, true) == Some(AT)
  {
    var t: Text := [116];
    assert t[1..] == [] && AT[1..] == t;
    assert Unescaped([], true) == Some([]);
    assert t + [] == t;
    assert Unescaped(t, true) == Some(t);
    assert [AT[0]] + t == AT;
  }

  lemma OnePair(piece: Text, raw: Text, value: Text)
    requires SEMICOLON !in piece && piece != [] && CutAt(piece, EQUALS) == (AT, Some(raw))
    requires Unescaped(AT, true) == Some(AT) && Unescaped(raw, true) == Some(value)
    ensures Pairs([piece]) == Some([(AT, value)])
  {
    assert [piece][1..] == [];
    assert Pairs([]) == Some([]);
    assert [(AT, value)] + [] == [(AT, value)];
  }

  /**
   A resource's URI names it: reading back the URI built for a resource gives
   the resource, its path and `at` in normal form; and a URI that cannot be
   read is built only for a kind with no template or a file with no path.
   */
  lemma ParseReadsUri(ref: Ref)
    ensures Parsed(Uri(ref)) == Normal(ref)
  {
    if ref.kind != OtherKind {
      var path, at := PathOf(ref), Trim(ref.at);
      PathNames(ref);
      PathIsClean(ref);
      if ref.kind == File && at != "" {
        QueryReads(at);
        QueryIsClean(at);
        ParsedWith(path, AT + [EQUALS] + Escape(at));
      } else {
        ParsedWithout(path);
        assert Uri(ref) == PREFIX + path;
      }
    }
  }

  lemma QueryIsClean(at: string)
    ensures HASH !in AT + [EQUALS] + Escape(at)
  {
    ComponentOfEscape(at);
  }

  lemma ParsedWithout(path: Text)
    requires Clean(path)
    ensures Parsed(PREFIX + path) == Named(Split(path, SLASH))
  {
    CutsAt(path, [], QUESTION);
    assert (PREFIX + path)[|PREFIX|..] == path;
  }

  lemma ParsedWith(path: Text, query: Text)
    requires Clean(path) && HASH !in query
    ensures Parsed(PREFIX + path + ([QUESTION] + query)) ==
      match (Named(Split(path, SLASH)), QueryAt(query))
      case (Some(ref), Some(at)) => if ref.kind == File then Some(ref.(at := at)) else None
      case _ => None
  {
    var uri, rest := PREFIX + path + ([QUESTION] + query), path + [QUESTION] + query;
    assert uri[|PREFIX|..] == rest && PREFIX <= uri;
    assert HASH !in rest;
    CutsAt(path, query, QUESTION);
  }

  /** A normal form is its own normal form. */
  lemma NormalIsNormal(ref: Ref)
    requires Normal(ref).Some?
    ensures Normal(Normal(ref).value) == Normal(ref)
  {
    if ref.kind == File {
      var segments := PathSegments(ref.path);
      SegmentsAreSegments(Split(ref.path, '/'));
      SplitJoin(segments, '/');
      SegmentsOfSegments(segments);
      TrimTrims(ref.at);
    }
  }

  /** Two resources have one URI only when they are one resource. */
  lemma UrisAreDistinct(a: Ref, b: Ref)
    requires Normal(a).Some? && Uri(a) == Uri(b)
    ensures Normal(a) == Normal(b)
  {
    ParseReadsUri(a);
    ParseReadsUri(b);
  }
}
