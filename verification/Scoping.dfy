/**
 Confining an MCP server to a project or a repository (internal/mcp/scope.go):
 reading the scope, what it withholds, and pinning a call's arguments to it.
 */
module Scoping {
  import opened Options
  import opened Strings
  import opened Tools

  // ----- Tools

  datatype Rule = ProjectRepo | OptionalProjectRepo | ProjectFilter | Unbounded

  /** How a tool can be bounded; a tool bb does not have, not at all. */
  function RuleOf(tool: Tool): Option<Rule> {
    match tool
    case ListPullRequests => Some(OptionalProjectRepo)
    case Show => Some(OptionalProjectRepo)
    case RefreshView => Some(OptionalProjectRepo)
    case SearchRepositories => Some(ProjectFilter)
    case GetBuildStatus => Some(Unbounded)
    case SetBuildStatus => Some(Unbounded)
    case OtherTool(_) => None
    case _ => Some(ProjectRepo)
  }

  // ----- Reading the scope

  /** A project and a repository in it; each "" when it is not named. */
  datatype Scope = Scope(project: string, repo: string)

  predicate IsSet(scope: Scope) { Trim(scope.project) != "" || Trim(scope.repo) != "" }

  /** What stands before and after the first slash. */
  function Cut(text: string): Option<(string, string)> {
    if text == "" then None
    else if text[0] == '/' then Some(("", text[1..]))
    else match Cut(text[1..]) case None => None case Some((before, after)) => Some(([text[0]] + before, after))
  }

  function ParseScope(projectFlag: string, repoFlag: string): Option<Scope> {
    var project, repo := Trim(projectFlag), Trim(repoFlag);
    if repo == "" then Some(Scope(project, ""))
    else
      match Cut(repo)
      case Some((before, after)) =>
        var named, slug := Trim(before), Trim(after);
        if named == "" || slug == "" then None
        else if project != "" && !EqualFold(project, named) then None
        else Some(Scope(named, slug))
      case None => if project == "" then None else Some(Scope(project, repo))
  }

  /** A scope that was read names a project whenever it is set, and is trimmed. */
  predicate Sound(scope: Scope) {
    && Trim(scope.project) == scope.project && Trim(scope.repo) == scope.repo
    && (scope.repo != "" ==> scope.project != "")
  }

  lemma ParsedScopeIsSound(projectFlag: string, repoFlag: string)
    requires ParseScope(projectFlag, repoFlag).Some?
    ensures var scope := ParseScope(projectFlag, repoFlag).value;
      && Sound(scope) && (scope.repo == "" <==> Trim(repoFlag) == "")
      && (Trim(projectFlag) != "" ==> EqualFold(scope.project, Trim(projectFlag)))
  {
    TrimTrims(projectFlag);
    TrimTrims(repoFlag);
    match Cut(Trim(repoFlag))
    case None =>
    case Some((before, after)) =>
      TrimTrims(before);
      TrimTrims(after);
  }

  predicate Withheld(tool: Tool, scope: Scope) {
    IsSet(scope) && match RuleOf(tool)
                    case Some(Unbounded) => true
                    case Some(ProjectFilter) => scope.repo != ""
                    case _ => false
  }

  // ----- A call's arguments

  /** A JSON value: a string, a number as it is written out, or another. */
  datatype Json = Str(text: string) | Num(shown: string) | OtherJson(id: int)

  /** An argument's name. */
  datatype Key = PROJECT | REPO | ID | FORMER_ID | PATH | AT | COMMIT_ID | OtherKey(name: string)

  /** What a call sends: nothing, JSON null, an object, or something else. */
  datatype Arguments = Absent | Null | Object(entries: map<Key, Json>) | Unreadable

  datatype Refusal = NoRule | WithheldTool | CannotRead | NotAString(key: Key) | OutsideScope(key: Key)

  /** How applying a scope ends. A write into a map that is not there stops the program. */
  datatype Outcome<T> = Passed(value: T) | Refused(refusal: Refusal) | Panicked

  /** The argument's value when it may be pinned: missing, blank, or the scope's but for case. */
  function CannotPin(entries: map<Key, Json>, key: Key, want: string): Option<Refusal> {
    if key !in entries then None
    else match entries[key]
         case Str(got) => if Trim(got) == "" || EqualFold(Trim(got), want) then None else Some(OutsideScope(key))
         case _ => Some(NotAString(key))
  }

  function Pinned(entries: map<Key, Json>, key: Key, want: string): map<Key, Json> {
    if want == "" then entries else entries[key := Str(want)]
  }

  /** Whether the tool's calls have a repository of their own to pin. */
  function RepoFor(tool: Tool, scope: Scope): string {
    if RuleOf(tool) == Some(ProjectFilter) then "" else scope.repo
  }

  /** What becomes of a call under a scope. */
  function Applied(tool: Tool, arguments: Arguments, scope: Scope): Outcome<Arguments> {
    if !IsSet(scope) then Passed(arguments)
    else if RuleOf(tool).None? then Refused(NoRule)
    else if Withheld(tool, scope) then Refused(WithheldTool)
    else
      match arguments
      case Unreadable => Refused(CannotRead)
      case Null => if scope.project != "" || RepoFor(tool, scope) != "" then Panicked else Passed(Null)
      case Absent => Confined(map[], scope.project, RepoFor(tool, scope))
      case Object(entries) => Confined(entries, scope.project, RepoFor(tool, scope))
  }

  /** The arguments with project and repository pinned, where they can be. */
  function Confined(entries: map<Key, Json>, project: string, repo: string): Outcome<Arguments> {
    if project != "" && CannotPin(entries, PROJECT, project).Some?
    then Refused(CannotPin(entries, PROJECT, project).value)
    else if repo != "" && CannotPin(entries, REPO, repo).Some? then Refused(CannotPin(entries, REPO, repo).value)
    else Passed(Object(Pinned(Pinned(entries, PROJECT, project), REPO, repo)))
  }

  /** The decoded arguments of one call. */
  class ArgumentMap {
    var entries: map<Key, Json>
    /** JSON null leaves no map to write into. */
    var missing: bool

    constructor (entries: map<Key, Json>, missing: bool)
      ensures this.entries == entries && this.missing == missing
    {
      this.entries, this.missing := entries, missing;
    }

    /** Pins one argument to the scope, or says why it cannot be. */
    method Bind(key: Key, want: string) returns (outcome: Outcome<bool>)
      requires missing ==> entries == map[]
      modifies this
      ensures missing == old(missing)
      ensures outcome == if want == "" then Passed(true)
                         else if CannotPin(old(entries), key, want).Some?
                         then Refused(CannotPin(old(entries), key, want).value)
                         else if missing then Panicked else Passed(true)
      ensures entries == if outcome.Passed? then Pinned(old(entries), key, want) else old(entries)
    {
      if want == "" { return Passed(true); }
      if key !in entries {
        if missing { return Panicked; }
        entries := entries[key := Str(want)];
        return Passed(true);
      }
      if !entries[key].Str? { return Refused(NotAString(key)); }
      var got := entries[key].text;
      if Trim(got) != "" && !EqualFold(Trim(got), want) { return Refused(OutsideScope(key)); }
      entries := entries[key := Str(want)];
      return Passed(true);
    }

    /** Pins the project and the repository. */
    method Confine(project: string, repo: string) returns (outcome: Outcome<Arguments>)
      requires missing ==> entries == map[]
      modifies this
      ensures outcome == if old(missing) then (if project != "" || repo != "" then Panicked else Passed(Null))
                         else Confined(old(entries), project, repo)
    {
      var bound := Bind(PROJECT, project);
      if bound.Refused? { return Refused(bound.refusal); }
      if bound.Panicked? { return Panicked; }
      bound := Bind(REPO, repo);
      if bound.Refused? { return Refused(bound.refusal); }
      if bound.Panicked? { return Panicked; }
      return Passed(if missing then Null else Object(entries));
    }
  }

  /** Pins a call's arguments, refuses them, or stops. */
  method ApplyScope(tool: Tool, arguments: Arguments, scope: Scope) returns (outcome: Outcome<Arguments>)
    ensures outcome == Applied(tool, arguments, scope)
  {
    if !IsSet(scope) { return Passed(arguments); }
    var rule := RuleOf(tool);
    if rule.None? { return Refused(NoRule); }
    if Withheld(tool, scope) { return Refused(WithheldTool); }
    if arguments.Unreadable? { return Refused(CannotRead); }
    var decoded := new ArgumentMap(if arguments.Object? then arguments.entries else map[], arguments.Null?);
    outcome := decoded.Confine(scope.project, if rule.value != ProjectFilter then scope.repo else "");
  }

  // ----- What is dispatched

  lemma ConfinedPins(entries: map<Key, Json>, project: string, repo: string)
    requires project != "" && Confined(entries, project, repo).Passed?
    ensures var passed := Confined(entries, project, repo).value;
      && passed.Object?
      && PROJECT in passed.entries && passed.entries[PROJECT] == Str(project)
      && (repo != "" ==> REPO in passed.entries && passed.entries[REPO] == Str(repo))
      && passed.entries - {PROJECT, REPO} == entries - {PROJECT, REPO}
      && (repo == "" ==> passed.entries - {PROJECT} == entries - {PROJECT})
  {
  }

  /**
   Under a scope that was read and is set, a call that is dispatched has the
   scope's project, and its repository when the scope names one, and every
   other argument as it was sent.
   */
  lemma DispatchedIsConfined(tool: Tool, arguments: Arguments, scope: Scope)
    requires Sound(scope) && IsSet(scope) && Applied(tool, arguments, scope).Passed?
    ensures var passed := Applied(tool, arguments, scope).value;
      var sent := if arguments.Object? then arguments.entries else map[];
      && passed.Object?
      && PROJECT in passed.entries && passed.entries[PROJECT] == Str(scope.project)
      && (scope.repo != "" ==> REPO in passed.entries && passed.entries[REPO] == Str(scope.repo))
      && passed.entries - {PROJECT, REPO} == sent - {PROJECT, REPO}
      && (scope.repo == "" ==> passed.entries - {PROJECT} == sent - {PROJECT})
  {
    ConfinedPins(if arguments.Object? then arguments.entries else map[], scope.project, RepoFor(tool, scope));
  }

  /** Whether an argument is one the scope has room for. */
  predicate Compatible(entries: map<Key, Json>, key: Key, want: string) {
    key in entries && want != "" ==>
      entries[key].Str? && (Trim(entries[key].text) == "" || EqualFold(Trim(entries[key].text), want))
  }

  /**
   A call of absent arguments, or of an object, is dispatched exactly when the
   tool is not withheld and nothing it names is outside the scope.
   */
  lemma DispatchedExactly(tool: Tool, arguments: Arguments, scope: Scope)
    requires IsSet(scope) && (arguments.Absent? || arguments.Object?)
    ensures var sent := if arguments.Object? then arguments.entries else map[];
      Applied(tool, arguments, scope).Passed?
      <==> && RuleOf(tool).Some? && !Withheld(tool, scope)
           && Compatible(sent, PROJECT, scope.project) && Compatible(sent, REPO, scope.repo)
  {
  }

  /** Applying the scope again changes nothing. */
  lemma ApplyingAgainChangesNothing(tool: Tool, arguments: Arguments, scope: Scope)
    requires Sound(scope) && Applied(tool, arguments, scope).Passed?
    ensures Applied(tool, Applied(tool, arguments, scope).value, scope) == Applied(tool, arguments, scope)
  {
    if IsSet(scope) {
      ConfinedAgain(if arguments.Object? then arguments.entries else map[], scope.project, RepoFor(tool, scope));
    }
  }

  lemma ConfinedAgain(entries: map<Key, Json>, project: string, repo: string)
    requires Trim(project) == project && Trim(repo) == repo && Confined(entries, project, repo).Passed?
    ensures Confined(Confined(entries, project, repo).value.entries, project, repo) == Confined(entries, project, repo)
  {
    var passed := Confined(entries, project, repo).value.entries;
    assert Pinned(passed, PROJECT, project) == passed && Pinned(passed, REPO, repo) == passed;
  }

  /**
   Applying a scope stops the program for one kind of call alone: JSON null for a
   tool that is served under a set scope.
   */
  lemma OnlyNullPanics(tool: Tool, arguments: Arguments, scope: Scope)
    requires Sound(scope)
    ensures Applied(tool, arguments, scope).Panicked?
      <==> IsSet(scope) && arguments.Null? && RuleOf(tool).Some? && !Withheld(tool, scope)
  {
  }

  /** A call of get_commit with JSON null for its arguments, under a project. */
  lemma NullPanics()
    ensures Sound(Scope("P", "")) && Applied(GetCommit, Null, Scope("P", "")).Panicked?
  {
    assert Trim("P") == "P" && Trim("") == "";
  }

  // ----- Which tools a scope serves, and how it is read

  /** Without a scope every call is handed on as it was sent. */
  lemma WithoutScope(tool: Tool, arguments: Arguments, scope: Scope)
    requires Trim(scope.project) == "" && Trim(scope.repo) == ""
    ensures Applied(tool, arguments, scope) == Passed(arguments)
  {
  }

  /** A scope withholds what it cannot bound: the build statuses of commits, and in one repository the search. */
  lemma ServedExactly(tool: Tool, scope: Scope)
    requires Trim(scope.project) != "" || Trim(scope.repo) != ""
    ensures RuleOf(tool).Some? && !Withheld(tool, scope)
      <==> && !tool.OtherTool? && tool !in {GetBuildStatus, SetBuildStatus}
           && (scope.repo != "" ==> tool != SearchRepositories)
  {
  }

  /** Everything a scope serves is pinned to its repository too, but for the search, which has none. */
  lemma PinsRepository(tool: Tool, scope: Scope)
    ensures RepoFor(tool, scope) == if tool.SearchRepositories? then "" else scope.repo
  {
  }

  /** What the flags name: a project, a repository of it, or both in one with a slash between, which have to agree. */
  lemma ScopeIsRead(projectFlag: string, repoFlag: string, before: string, after: string)
    requires '/' !in before
    ensures var project, repo := Trim(projectFlag), Trim(repoFlag);
      && (repo == "" ==> ParseScope(projectFlag, repoFlag) == Some(Scope(project, "")))
      && (repo != "" && '/' !in repo ==>
            ParseScope(projectFlag, repoFlag) == if project == "" then None else Some(Scope(project, repo)))
      && (repo == before + ['/'] + after ==>
            ParseScope(projectFlag, repoFlag)
            == if Trim(before) == "" || Trim(after) == "" then None
               else if project != "" && !EqualFold(project, Trim(before)) then None
               else Some(Scope(Trim(before), Trim(after))))
  {
    CutsFirst(before, after);
    CutsNone(Trim(repoFlag));
  }

  lemma {:induction false} CutsFirst(before: string, after: string)
    requires '/' !in before
    ensures Cut(before + ['/'] + after) == Some((before, after))
  {
    var text := before + ['/'] + after;
    if before == "" {
      assert text[1..] == after;
    } else {
      CutsFirst(before[1..], after);
      assert text[1..] == before[1..] + ['/'] + after;
      assert [before[0]] + before[1..] == before;
    }
  }

  lemma {:induction false} CutsNone(text: string)
    ensures '/' !in text ==> Cut(text) == None
  {
    if text != "" {
      CutsNone(text[1..]);
    }
  }
}
