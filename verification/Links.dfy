/**
 The resource link beside a tool's result (internal/mcp/resources.go), and
 which resources a scope lets through (internal/mcp/middleware_resources.go).
 */
module Links {
  import opened Bytes
  import opened Options
  import opened ResourceUri
  import opened Scoping
  import opened Sequences
  import opened Strings
  import opened Tools

  // ----- What a resource may name

  predicate IsControl(c: char) {
    var v := c as int;
    v < 0x20 || 0x7F <= v < 0xA0
  }

  predicate Unsafe(c: char) {
    c == '/' || c == '\\' || c == '?' || c == '#' || c == '%' || IsSpace(c) || IsControl(c)
  }

  /** A value that stays one segment of a request's path. */
  predicate StaysSegment(value: string) {
    var trimmed := Trim(value);
    trimmed != "." && trimmed != ".." && forall i :: 0 <= i < |trimmed| ==> !Unsafe(trimmed[i])
  }

  predicate NamesRepository(project: string, repo: string) {
    Trim(project) != "" && Trim(repo) != "" && StaysSegment(project) && StaysSegment(repo)
  }

  predicate IsDigit(c: char) { '0' <= c <= '9' }

  predicate IsHex(c: char) { IsDigit(c) || 'a' <= c <= 'f' || 'A' <= c <= 'F' }

  /** One to eighteen digits, which 64 bits always hold. */
  predicate IsPullRequestId(id: string) {
    1 <= |id| <= 18 && forall i :: 0 <= i < |id| ==> IsDigit(id[i])
  }

  predicate IsCommitId(id: string) {
    4 <= |id| <= 64 && forall i :: 0 <= i < |id| ==> IsHex(id[i])
  }

  predicate NoControl(text: string) {
    forall i :: 0 <= i < |text| ==> !IsControl(text[i])
  }

  /** A resource whose parts could name what its template says. */
  predicate Validates(ref: Ref) {
    && NamesRepository(ref.project, ref.repo)
    && match ref.kind
       case Commit => IsCommitId(ref.id)
       case File => Trim(ref.path) != "" && NoControl(ref.path + ref.at)
       case OtherKind => false
       case _ => IsPullRequestId(ref.id)
  }

  /** The tool a kind of resource answers like, whose exposure serves its template. */
  function ToolOf(kind: Kind): Tool
    requires kind != OtherKind
  {
    match kind
    case PullRequest => GetPullRequest
    case PullRequestDiff => GetPrDiff
    case PullRequestThreads => ListPrComments
    case File => GetFileContent
    case Commit => GetCommit
  }

  predicate InScope(project: string, repo: string, scope: Scope) {
    && (scope.project != "" ==> EqualFold(Trim(project), scope.project))
    && (scope.repo != "" ==> EqualFold(Trim(repo), scope.repo))
  }

  // ----- The link

  /** The kind of resource a tool's result is, if it is one. */
  function LinkOf(tool: Tool): Option<Kind> {
    match tool
    case GetPullRequest => Some(PullRequest)
    case GetPrDiff => Some(PullRequestDiff)
    case GetFileContent => Some(File)
    case GetCommit => Some(Commit)
    case _ => None
  }

  /** An argument as the link reads it; a pull request's ID may be a number. */
  function Argument(entries: map<Key, Json>, key: Key): string {
    if key !in entries then ""
    else match entries[key] case Str(text) => Trim(text) case Num(shown) => shown case OtherJson(_) => ""
  }

  /** What a call's result came from, by its arguments. */
  function RefOf(kind: Kind, entries: map<Key, Json>): Ref {
    var id := match kind
      case Commit => Argument(entries, COMMIT_ID)
      case File => ""
      case PullRequest => if Argument(entries, ID) != "" then Argument(entries, ID) else Argument(entries, FORMER_ID)
      case _ => Argument(entries, ID);
    Ref(kind, Argument(entries, PROJECT), Argument(entries, REPO), id,
        if kind == File then Argument(entries, PATH) else "", if kind == File then Argument(entries, AT) else "")
  }

  datatype ToolResult = ToolResult(isError: bool, asksInput: bool, links: seq<Text>)

  /** The arguments, where they are an object or null. */
  function Decoded(arguments: Arguments): Option<map<Key, Json>> {
    match arguments case Object(entries) => Some(entries) case Null => Some(map[]) case _ => None
  }

  /** Appends the link a result names, when its tool has a resource, the call succeeded, and the link could be read. */
  method LinkResource(tool: Tool, arguments: Arguments, result: ToolResult) returns (linked: ToolResult)
    ensures linked.isError == result.isError && linked.asksInput == result.asksInput
    ensures linked.links == result.links + Link(tool, arguments, result)
  {
    if LinkOf(tool).None? || result.isError || result.asksInput { return result; }
    var decoded := Decoded(arguments);
    if decoded.None? { return result; }
    var uri := Uri(RefOf(LinkOf(tool).value, decoded.value));
    var ref := ParseResource(uri);
    if ref.None? || !Validates(ref.value) { return result; }
    return result.(links := result.links + [uri]);
  }

  /** The link of a result, or none. */
  function Link(tool: Tool, arguments: Arguments, result: ToolResult): seq<Text> {
    if LinkOf(tool).None? || result.isError || result.asksInput || Decoded(arguments).None? then []
    else LinkFor(RefOf(LinkOf(tool).value, Decoded(arguments).value))
  }

  /** The resource's URI, if reading it gives a resource that validates. */
  function LinkFor(ref: Ref): seq<Text> {
    var uri := Uri(ref);
    if Parsed(uri).None? || !Validates(Parsed(uri).value) then [] else [uri]
  }

  /** One link, which is read as the resource, or none where there is none that validates. */
  predicate AreLinksTo(links: seq<Text>, normal: Option<Ref>) {
    if normal.Some? && Validates(normal.value) then |links| == 1 && Parsed(links[0]) == normal else links == []
  }

  /**
   A resource is linked exactly when it has a normal form that validates; the
   link reads as that form.
   */
  lemma LinkForReads(ref: Ref)
    ensures AreLinksTo(LinkFor(ref), Normal(ref))
  {
    ParseReadsUri(ref);
  }

  /** What a link reads as. */
  lemma LinkForNames(ref: Ref)
    ensures forall uri :: uri in LinkFor(ref) ==>
      && Parsed(uri).Some? && Validates(Parsed(uri).value)
      && Parsed(uri).value.kind == ref.kind && Parsed(uri).value.project == ref.project
      && Parsed(uri).value.repo == ref.repo
  {
    LinkForReads(ref);
  }

  /** The parts of what a call's result came from that a scope bounds. */
  lemma RefNames(tool: Tool, entries: map<Key, Json>)
    requires LinkOf(tool).Some?
    ensures var ref := RefOf(LinkOf(tool).value, entries);
      && ref.kind != OtherKind && ToolOf(ref.kind) == tool
      && ref.project == Argument(entries, PROJECT) && ref.repo == Argument(entries, REPO)
  {
  }

  lemma ConfinedIsInScope(entries: map<Key, Json>, scope: Scope)
    requires Sound(scope)
    requires scope.project != "" ==> PROJECT in entries && entries[PROJECT] == Str(scope.project)
    requires scope.repo != "" ==> REPO in entries && entries[REPO] == Str(scope.repo)
    ensures InScope(Argument(entries, PROJECT), Argument(entries, REPO), scope)
  {
  }

  /** What a dispatched call's arguments name is inside the scope. */
  lemma DispatchedNames(tool: Tool, arguments: Arguments, scope: Scope)
    requires Sound(scope) && Applied(tool, arguments, scope).Passed?
    requires Decoded(Applied(tool, arguments, scope).value).Some?
    ensures var entries := Decoded(Applied(tool, arguments, scope).value).value;
      InScope(Argument(entries, PROJECT), Argument(entries, REPO), scope)
  {
    if IsSet(scope) {
      DispatchedIsConfined(tool, arguments, scope);
    }
    ConfinedIsInScope(Decoded(Applied(tool, arguments, scope).value).value, scope);
  }

  /**
   Every link beside a result of a call that a scope let through is read as a
   resource, which validates, is inside the scope, and is of a kind whose
   template the called tool serves.
   */
  lemma LinksAreGood(tool: Tool, arguments: Arguments, scope: Scope, result: ToolResult)
    requires Sound(scope) && Applied(tool, arguments, scope).Passed?
    ensures forall uri :: uri in Link(tool, Applied(tool, arguments, scope).value, result) ==>
      && Parsed(uri).Some? && Validates(Parsed(uri).value)
      && Parsed(uri).value.kind != OtherKind && ToolOf(Parsed(uri).value.kind) == tool
      && InScope(Parsed(uri).value.project, Parsed(uri).value.repo, scope)
  {
    var passed := Applied(tool, arguments, scope).value;
    if Link(tool, passed, result) != [] {
      var entries := Decoded(passed).value;
      LinkForNames(RefOf(LinkOf(tool).value, entries));
      RefNames(tool, entries);
      DispatchedNames(tool, arguments, scope);
    }
  }

  // ----- The resource list

  /** Under a scope, the listed resources that are read as one inside it. */
  function KeptResources(uris: seq<Text>, scope: Scope): seq<Text> {
    if uris == [] then []
    else
      var init, last := KeptResources(uris[..|uris| - 1], scope), uris[|uris| - 1];
      if Listable(last, scope) then init + [last] else init
  }

  predicate Listable(uri: Text, scope: Scope) {
    && Parsed(uri).Some? && Parsed(uri).value.kind != OtherKind
    && InScope(Parsed(uri).value.project, Parsed(uri).value.repo, scope)
  }

  method KeepResources(uris: seq<Text>, scope: Scope) returns (kept: seq<Text>)
    ensures kept == if IsSet(scope) then KeptResources(uris, scope) else uris
  {
    if !IsSet(scope) { return uris; }
    kept := [];
    var index := 0;
    while index < |uris|
      invariant 0 <= index <= |uris|
      invariant kept == KeptResources(uris[..index], scope)
    {
      assert uris[..index + 1][..index] == uris[..index];
      var ref := ParseResource(uris[index]);
      if ref.Some? && ref.value.kind != OtherKind && InScope(ref.value.project, ref.value.repo, scope) {
        kept := kept + [uris[index]];
      }
      index := index + 1;
    }
    assert uris[..index] == uris;
  }

  /** What is listed under a scope is inside it, and nothing inside it is left out. */
  lemma {:induction false} ListIsInScope(uris: seq<Text>, scope: Scope)
    ensures forall uri :: uri in KeptResources(uris, scope) <==> uri in uris && Listable(uri, scope)
  {
    if uris != [] {
      ListIsInScope(uris[..|uris| - 1], scope);
      assert uris == uris[..|uris| - 1] + [uris[|uris| - 1]];
    }
  }

  // ----- What a link names

  /** What the arguments of a call name, by the tool that was called. */
  predicate CallNames(tool: Tool, entries: map<Key, Json>, ref: Ref) {
    && ref.project == Argument(entries, PROJECT) && ref.repo == Argument(entries, REPO)
    && match tool
       case GetPullRequest =>
         var id := Argument(entries, ID);
         ref.kind == PullRequest && ref.id == if id != "" then id else Argument(entries, FORMER_ID)
       case GetPrDiff => ref.kind == PullRequestDiff && ref.id == Argument(entries, ID)
       case GetCommit => ref.kind == Commit && ref.id == Argument(entries, COMMIT_ID)
       case GetFileContent =>
         ref.kind == File && ref.path == Argument(entries, PATH) && ref.at == Argument(entries, AT)
       case _ => false
  }

  /**
   A call that succeeded is linked to what its arguments name, in normal form, exactly
   when that could be a resource; no other tool's result is linked.
   */
  lemma LinkNamesTheCall(tool: Tool, entries: map<Key, Json>, result: ToolResult, ref: Ref)
    requires !result.isError && !result.asksInput
    ensures !HasResource(tool) ==> Link(tool, Object(entries), result) == []
    ensures CallNames(tool, entries, ref) ==> AreLinksTo(Link(tool, Object(entries), result), Normal(ref))
  {
    if CallNames(tool, entries, ref) {
      NamesAsRead(tool, entries, ref);
      LinkIs(tool, entries, result);
      LinkForReads(RefOf(LinkOf(tool).value, entries));
    }
  }

  lemma LinkIs(tool: Tool, entries: map<Key, Json>, result: ToolResult)
    requires !result.isError && !result.asksInput && LinkOf(tool).Some?
    ensures Link(tool, Object(entries), result) == LinkFor(RefOf(LinkOf(tool).value, entries))
  {
  }

  predicate HasResource(tool: Tool) { tool in {GetPullRequest, GetPrDiff, GetCommit, GetFileContent} }

  lemma NamesAsRead(tool: Tool, entries: map<Key, Json>, ref: Ref)
    requires CallNames(tool, entries, ref)
    ensures LinkOf(tool).Some? && Normal(RefOf(LinkOf(tool).value, entries)) == Normal(ref)
  {
  }

  /** A text that could not lead a request's path elsewhere. */
  predicate Harmless(text: string) {
    && text !in {"", ".", ".."}
    && forall i :: 0 <= i < |text| ==> text[i] !in {'/', '\\', '?', '#', '%', ' '} && text[i] as int >= 0x20
  }

  /** A value stays one segment of a path exactly when, trimmed, it is no dot segment and has nothing that ends one. */
  lemma StaysExactly(value: string)
    ensures StaysSegment(value)
      <==> && Trim(value) != "." && Trim(value) != ".."
           && forall i :: 0 <= i < |Trim(value)| ==>
                var c := Trim(value)[i];
                && c !in {'/', '\\', '?', '#', '%'} && !IsSpace(c)
                && (0x20 <= c as int < 0x7F || c as int >= 0xA0)
  {
  }

  /** A resource is one that may be linked exactly by its repository and by an identifier of its kind. */
  lemma ValidatesExactly(ref: Ref)
    requires NamesRepository(ref.project, ref.repo)
    ensures ref.kind in {PullRequest, PullRequestDiff, PullRequestThreads} ==>
      (Validates(ref) <==> 1 <= |ref.id| <= 18 && forall i :: 0 <= i < |ref.id| ==> '0' <= ref.id[i] <= '9')
    ensures ref.kind == Commit ==>
      (Validates(ref) <==> 4 <= |ref.id| <= 64 && forall i :: 0 <= i < |ref.id| ==>
        '0' <= ref.id[i] <= '9' || 'a' <= ref.id[i] <= 'f' || 'A' <= ref.id[i] <= 'F')
    ensures ref.kind == File ==>
      (Validates(ref) <==> Trim(ref.path) != "" && forall i :: 0 <= i < |ref.path + ref.at| ==>
        var v := (ref.path + ref.at)[i] as int; 0x20 <= v < 0x7F || v >= 0xA0)
  {
  }

  /** What a link may name: a project and a repository that stay segments of a path, and an identifier of its kind. */
  lemma ValidatedIsHarmless(ref: Ref)
    requires Validates(ref)
    ensures Harmless(Trim(ref.project)) && Harmless(Trim(ref.repo)) && ref.kind != OtherKind
    ensures ref.kind in {PullRequest, PullRequestDiff, PullRequestThreads} ==>
      1 <= |ref.id| <= 18 && forall i :: 0 <= i < |ref.id| ==> '0' <= ref.id[i] <= '9'
    ensures ref.kind == Commit ==>
      4 <= |ref.id| <= 64 && forall i :: 0 <= i < |ref.id| ==>
        '0' <= ref.id[i] <= '9' || 'a' <= ref.id[i] <= 'f' || 'A' <= ref.id[i] <= 'F'
    ensures ref.kind == File ==> Trim(ref.path) != "" && forall i :: 0 <= i < |ref.path| ==> ref.path[i] as int >= 0x20
  {
    assert IsSpace(' ');
    if ref.kind == File {
      assert forall i :: 0 <= i < |ref.path| ==> (ref.path + ref.at)[i] == ref.path[i];
    }
  }

  /** A resource is listed under a scope exactly when its URI reads as one of the scope's project and repository. */
  lemma ListsInScope(ref: Ref, scope: Scope)
    ensures Listable(Uri(ref), scope)
      <==> && Normal(ref).Some?
           && (scope.project != "" ==> EqualFold(Trim(ref.project), scope.project))
           && (scope.repo != "" ==> EqualFold(Trim(ref.repo), scope.repo))
  {
    ParseReadsUri(ref);
  }

  /** What is left of a list under a scope stays in its order. */
  lemma {:induction false} ListKeepsOrder(a: seq<Text>, b: seq<Text>, scope: Scope)
    ensures KeptResources(a + b, scope) == KeptResources(a, scope) + KeptResources(b, scope)
    decreases |b|
  {
    if |b| == 0 {
      WithNothing(a);
      WithNothing(KeptResources(a, scope));
    } else {
      var init, last := b[..|b| - 1], b[|b| - 1];
      ListKeepsOrder(a, init, scope);
      assert (a + b)[..|a + b| - 1] == a + init;
      Associates(KeptResources(a, scope), KeptResources(init, scope), if Listable(last, scope) then [last] else []);
      WithNothing(KeptResources(init, scope));
      WithNothing(KeptResources(a, scope) + KeptResources(init, scope));
    }
  }
}
