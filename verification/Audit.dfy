/**
 The audit trail (internal/mcp/audit.go) and the middleware that keeps it
 (internal/mcp/middleware.go, internal/mcp/middleware_resources.go): every
 request is recorded once, and under the deny mode none is answered before its
 whole record is in the log.
 */
module Audit {
  import opened Bytes
  import opened Options
  import opened ResourceUri
  import opened Scoping
  import opened Strings
  import opened Tools
  import Confirm
  import Decimal
  import Links

  // ----- Records

  datatype Event = ToolInvocation(tool: Tool) | ResourceRead(uri: Text) | ResourceList | PromptGet(name: string)

  datatype Status = Success | Failure | Denied | Asked

  datatype Record = Record(
    event: Event, project: string, repo: string, status: Status, confirmation: Option<Confirm.Confirmation>)

  /** What became of a request the middleware let through: how it was handled, if by a tool, and its result. */
  datatype Handled =
    | WithoutTool
    | Undecoded
    | Direct(input: Confirm.Input)
    | Asking(outcome: Confirm.Outcome)

  /** What the middleware made of a request: refused by the scope, or handed on and answered. */
  datatype Decision =
    | Refusal(event: Event, project: string, repo: string)
    | Dispatch(event: Event, project: string, repo: string, result: Result, handled: Handled)

  function NotedOf(handled: Handled): Confirm.Noted {
    if handled.Asking? then Confirm.NotedAfter(Confirm.NOTHING_NOTED, handled.outcome) else Confirm.NOTHING_NOTED
  }

  /** The input the tool's own handler runs with, if it does. */
  function RunOf(handled: Handled): Option<Confirm.Input> {
    match handled
    case Direct(input) => Some(input)
    case Asking(Ran(held, _)) => Some(held)
    case _ => None
  }

  /** A call of a tool ends with its confirmation and its result. */
  function StatusOf(result: Result, noted: Confirm.Noted): Status {
    if result == Asks then Asked
    else if Confirm.Denies(noted) then Denied
    else if result == Fine then Success else Failure
  }

  /** Any other request ends with a failure or without one. */
  function Settled(result: Result): Status { if result == Failed then Failure else Success }

  /** A question that was put is recorded without an outcome. */
  function RecordOf(decision: Decision): Record {
    match decision
    case Refusal(event, project, repo) => Record(event, project, repo, Denied, None)
    case Dispatch(event, project, repo, result, WithoutTool) =>
      Record(event, project, repo, Settled(result), None)
    case Dispatch(event, project, repo, result, handled) =>
      var noted := NotedOf(handled);
      Record(event, project, repo, StatusOf(result, noted), if result == Asks then None else noted.outcome)
  }

  /** The calls of the tool's own handler that a call of a tool makes. */
  function CallsOf(tool: Tool, handled: Handled): seq<(Tool, Confirm.Input)> {
    match RunOf(handled) case None => [] case Some(input) => [(tool, input)]
  }

  function CallsBy(decision: Decision): seq<(Tool, Confirm.Input)> {
    if decision.Dispatch? && decision.event.ToolInvocation? then CallsOf(decision.event.tool, decision.handled) else []
  }

  /** A request that is recorded as denied has not run a tool. */
  lemma DeniedDidNotRun(decision: Decision)
    ensures RecordOf(decision).status == Denied ==> CallsBy(decision) == []
  {
  }

  // ----- The log

  /** One attempt to log: the record, the bytes that reached the sink, and whether they were all. */
  datatype Attempt = Attempt(record: Record, put: Text, whole: bool)

  function LogBytes(attempts: seq<Attempt>): Text {
    if attempts == [] then [] else LogBytes(attempts[..|attempts| - 1]) + attempts[|attempts| - 1].put
  }

  /** What an attempt puts in the log when the sink takes this many bytes. */
  function AttemptOf(encode: Record -> Option<Text>, record: Record, room: nat): Attempt {
    match encode(record)
    case None => Attempt(record, [], false)
    case Some(text) =>
      if |text| < room then Attempt(record, text + [NEWLINE], true)
      else Attempt(record, (text + [NEWLINE])[..room], false)
  }

  class AuditLogger {
    /** How a record is written as JSON, on one line; nothing when it cannot be. */
    const encode: Record -> Option<Text>
    var written: Text
    ghost var attempts: seq<Attempt>

    constructor (encode: Record -> Option<Text>)
      ensures this.encode == encode && Valid() && attempts == []
    {
      this.encode, written, attempts := encode, [], [];
    }

    ghost predicate Valid()
      reads this
    {
      written == LogBytes(attempts)
    }

    /** Appends one record, as far as the sink takes it: its whole line, or at most a beginning of it. */
    method Log(record: Record, room: nat) returns (ok: bool)
      requires Valid()
      modifies this
      ensures Valid()
      ensures attempts == old(attempts) + [AttemptOf(encode, record, room)]
      ensures ok == AttemptOf(encode, record, room).whole
      ensures ok ==> encode(record).Some? && written == old(written) + encode(record).value + [NEWLINE]
      ensures !ok ==> written == old(written)
                      || (encode(record).Some? && written < old(written) + encode(record).value + [NEWLINE])
    {
      var encoded := encode(record);
      if encoded.None? {
        attempts := attempts + [AttemptOf(encode, record, room)];
        assert attempts[..|attempts| - 1] == old(attempts);
        assert written + [] == written;
        return false;
      }
      var line := encoded.value + [NEWLINE];
      var put := if |line| <= room then line else line[..room];
      written := written + put;
      ok := |line| <= room;
      attempts := attempts + [AttemptOf(encode, record, room)];
      assert attempts[..|attempts| - 1] == old(attempts);
      assert old(written) + line == old(written) + encoded.value + [NEWLINE];
    }
  }

  // ----- What the middleware hands requests on to

  /** A request that was handed on. */
  datatype Request =
    | CallRequest(tool: Tool, arguments: Arguments)
    | ReadRequest(uri: Text)
    | ListRequest
    | PromptRequest(name: string, bound: map<Key, string>)

  /**
   One time a confirming tool's handler is called. A client of an older
   revision is asked inside the one request, and the handler called again with
   the answer.
   */
  datatype Round = Round(
    canConfirm: bool, state: Confirm.RequestState, answer: Confirm.Answer,
    opens: int, others: map<nat, int>, consumes: int, shown: Decimal.Int, nonce: nat)

  /**
   Everything below the middleware. Decoding, what tools answer, and what reads
   and prompts answer are arbitrary; it is seen what was handed on.
   */
  class Server {
    const seal: Confirm.ConfirmationSeal
    const handler: Confirm.ToolHandler
    const decode: (Tool, Arguments) -> Option<Confirm.Input>
    const asks: (Tool, Confirm.Input) -> bool
    const readings: Text -> Result
    const listing: (Result, seq<Text>)
    const prompts: (string, map<Key, string>) -> Result
    ghost var dispatched: seq<Request>

    constructor (seal: Confirm.ConfirmationSeal, handler: Confirm.ToolHandler,
                 decode: (Tool, Arguments) -> Option<Confirm.Input>, asks: (Tool, Confirm.Input) -> bool,
                 readings: Text -> Result, listing: (Result, seq<Text>), prompts: (string, map<Key, string>) -> Result)
      ensures this.seal == seal && this.handler == handler && dispatched == []
    {
      this.seal, this.handler, this.decode, this.asks := seal, handler, decode, asks;
      this.readings, this.listing, this.prompts, dispatched := readings, listing, prompts, [];
    }

    /** A call of a tool: the tool's own handler runs once or not at all, as the confirmation lets it. */
    method Call(tool: Tool, arguments: Arguments, rounds: seq<Round>, recorder: Confirm.ConfirmationRecorder)
      returns (result: Result, ghost handled: Handled)
      requires rounds != [] && recorder.noted == Confirm.NOTHING_NOTED
      modifies this, seal`answered, handler`calls, recorder
      ensures dispatched == old(dispatched) + [CallRequest(tool, arguments)]
      ensures handler.calls == old(handler.calls) + CallsOf(tool, handled)
      ensures recorder.noted == NotedOf(handled) && !handled.WithoutTool?
      ensures handled.Undecoded? <==> decode(tool, arguments).None?
      ensures decode(tool, arguments).Some? ==> (handled.Asking? <==> asks(tool, decode(tool, arguments).value))
      ensures handled.Direct? ==> handled.input == decode(tool, arguments).value
    {
      dispatched := dispatched + [CallRequest(tool, arguments)];
      var input := decode(tool, arguments);
      if input.None? {
        return Failed, Undecoded;
      }
      if !asks(tool, input.value) {
        result := handler.Call(tool, input.value);
        return result, Direct(input.value);
      }
      var outcome := Ask(tool, input.value, rounds[0], recorder);
      var next := 1;
      while outcome.Asked? && next < |rounds|
        invariant recorder.noted == NotedOf(Asking(outcome))
        invariant handler.calls == old(handler.calls) + CallsOf(tool, Asking(outcome))
        invariant dispatched == old(dispatched) + [CallRequest(tool, arguments)]
        decreases |rounds| - next
      {
        outcome := Ask(tool, input.value, rounds[next], recorder);
        next := next + 1;
      }
      result := match outcome case Asked(_) => Asks case Ran(_, answer) => answer case _ => Failed;
      return result, Asking(outcome);
    }

    /** One round of a confirming tool's handler. */
    method Ask(tool: Tool, input: Confirm.Input, round: Round, recorder: Confirm.ConfirmationRecorder)
      returns (outcome: Confirm.Outcome)
      modifies seal`answered, handler`calls, recorder
      ensures recorder.noted == Confirm.NotedAfter(old(recorder.noted), outcome)
      ensures handler.calls == old(handler.calls) + CallsOf(tool, Asking(outcome))
    {
      outcome := seal.Confirmed(tool, input, round.canConfirm, round.state, round.answer, round.opens, round.others,
                                round.consumes, round.shown, round.nonce, recorder, handler);
    }

    method Read(uri: Text) returns (result: Result)
      modifies this
      ensures dispatched == old(dispatched) + [ReadRequest(uri)] && result == readings(uri)
    {
      dispatched := dispatched + [ReadRequest(uri)];
      result := readings(uri);
    }

    method List() returns (result: Result, uris: seq<Text>)
      modifies this
      ensures dispatched == old(dispatched) + [ListRequest] && (result, uris) == listing
    {
      dispatched := dispatched + [ListRequest];
      result, uris := listing.0, listing.1;
    }

    method Prompt(name: string, arguments: map<Key, string>) returns (result: Result)
      modifies this
      ensures dispatched == old(dispatched) + [PromptRequest(name, arguments)] && result == prompts(name, arguments)
    {
      dispatched := dispatched + [PromptRequest(name, arguments)];
      result := prompts(name, arguments);
    }
  }

  // ----- What may be handed on

  /** A URI that is read as a resource outside the scope. */
  predicate ReadsOutside(uri: Text, scope: Scope) {
    Parsed(uri).Some? && Parsed(uri).value.kind != OtherKind
    && !Links.InScope(Parsed(uri).value.project, Parsed(uri).value.repo, scope)
  }

  /** A tool and a prompt name the scope's project and repository, and a URI no resource outside it. */
  predicate Inside(request: Request, scope: Scope) {
    match request
    case CallRequest(_, arguments) => Names(arguments, PROJECT, scope.project) && Names(arguments, REPO, scope.repo)
    case ReadRequest(uri) => !ReadsOutside(uri, scope)
    case ListRequest => true
    case PromptRequest(_, bound) =>
      && (scope.project != "" ==> Written(bound, PROJECT) == scope.project)
      && (scope.repo != "" ==> Written(bound, REPO) == scope.repo)
  }

  predicate Names(arguments: Arguments, key: Key, want: string) {
    want != "" ==> arguments.Object? && key in arguments.entries && arguments.entries[key] == Str(want)
  }

  ghost predicate AllInside(requests: seq<Request>, scope: Scope) {
    forall i :: 0 <= i < |requests| ==> Inside(requests[i], scope)
  }

  lemma CallIsInside(tool: Tool, arguments: Arguments, scope: Scope)
    requires Sound(scope) && Applied(tool, arguments, scope).Passed?
    ensures Inside(CallRequest(tool, Applied(tool, arguments, scope).value), scope)
  {
    if IsSet(scope) {
      DispatchedIsConfined(tool, arguments, scope);
    }
  }

  /** The read of a resource that has a URI is refused exactly when the resource is outside the scope. */
  lemma ReadIsConfined(ref: Ref, scope: Scope)
    ensures ReadsOutside(Uri(ref), scope)
      <==> && Normal(ref).Some?
           && !(&& (scope.project != "" ==> EqualFold(Trim(ref.project), scope.project))
                && (scope.repo != "" ==> EqualFold(Trim(ref.repo), scope.repo)))
  {
    ParseReadsUri(ref);
  }

  // ----- The middleware

  datatype Mode = Deny | Warn

  /** What a request is answered with; a program that stopped answers nothing. */
  datatype Reply = OutOfScope | Served(result: Result) | CannotAudit | Stopped

  /**
   A request is answered after its one attempt to record it: under the deny
   mode with nothing but that it cannot be audited unless its whole line was
   appended, and otherwise as the scope refused it or the server answered.
   */
  function ReplyOf(mode: Mode, decision: Decision, recorded: bool): Reply {
    if mode.Deny? && !recorded then CannotAudit
    else if decision.Refusal? then OutOfScope else Served(decision.result)
  }

  /** A string argument, for the record. */
  function Target(arguments: Arguments, key: Key): string {
    if !arguments.Object? || key !in arguments.entries then ""
    else match arguments.entries[key] case Str(text) => text case _ => ""
  }

  class Governor {
    const scope: Scope
    const audit: AuditLogger
    const mode: Mode

    constructor (scope: Scope, audit: AuditLogger, mode: Mode)
      ensures this.scope == scope && this.audit == audit && this.mode == mode
    {
      this.scope, this.audit, this.mode := scope, audit, mode;
    }

    /** Records one event; a record that cannot be written stops the answer, unless only a warning is asked for. */
    method WriteAudit(record: Record, room: nat) returns (ok: bool)
      requires audit.Valid()
      modifies audit
      ensures audit.Valid() && audit.attempts == old(audit.attempts) + [AttemptOf(audit.encode, record, room)]
      ensures ok <==> mode.Warn? || AttemptOf(audit.encode, record, room).whole
    {
      ok := audit.Log(record, room);
      if !ok && mode.Warn? {
        return true;
      }
    }

    /** The request was recorded by one attempt and answered accordingly. */
    ghost predicate Governed(before: seq<Attempt>, decision: Decision, room: nat, reply: Reply)
      reads audit
    {
      var attempt := AttemptOf(audit.encode, RecordOf(decision), room);
      audit.attempts == before + [attempt] && reply == ReplyOf(mode, decision, attempt.whole)
    }

    /**
     A call of a tool. Out of scope it is not handed on; otherwise the
     arguments that were pinned are. A call recorded as denied has not run the
     tool. JSON null under a scope stops the program with nothing recorded.
     */
    method CallTool(server: Server, tool: Tool, arguments: Arguments, rounds: seq<Round>, room: nat)
      returns (reply: Reply, ghost decision: Decision)
      requires audit.Valid() && rounds != []
      modifies audit, server, server.seal`answered, server.handler`calls
      ensures audit.Valid()
      ensures var outcome, event := Applied(tool, arguments, scope), ToolInvocation(tool);
        match outcome
        case Panicked =>
          && reply == Stopped && audit.attempts == old(audit.attempts)
          && server.dispatched == old(server.dispatched) && server.handler.calls == old(server.handler.calls)
        case Refused(_) =>
          && reply != Stopped && decision == Refusal(event, Target(arguments, PROJECT), Target(arguments, REPO))
          && server.dispatched == old(server.dispatched)
        case Passed(passed) =>
          && reply != Stopped && decision.Dispatch? && decision.event == event
          && (decision.project, decision.repo) == (Target(passed, PROJECT), Target(passed, REPO))
          && server.dispatched == old(server.dispatched) + [CallRequest(tool, passed)]
      ensures reply != Stopped ==>
        && Governed(old(audit.attempts), decision, room, reply)
        && server.handler.calls == old(server.handler.calls) + CallsBy(decision)
      ensures reply != Stopped && RecordOf(decision).status == Denied ==>
        server.handler.calls == old(server.handler.calls)
      ensures Sound(scope) && AllInside(old(server.dispatched), scope) ==> AllInside(server.dispatched, scope)
    {
      var outcome := ApplyScope(tool, arguments, scope);
      decision := Refusal(ToolInvocation(tool), Target(arguments, PROJECT), Target(arguments, REPO));
      if outcome.Panicked? {
        return Stopped, decision;
      }
      if outcome.Refused? {
        var denied := Record(ToolInvocation(tool), Target(arguments, PROJECT), Target(arguments, REPO), Denied, None);
        var ok := WriteAudit(denied, room);
        return if ok then OutOfScope else CannotAudit, decision;
      }
      if Sound(scope) {
        CallIsInside(tool, arguments, scope);
      }
      reply, decision := HandOn(server, tool, outcome.value, rounds, room);
      DeniedDidNotRun(decision);
    }

    /** A call within the scope: it is handed on with a recorder, and recorded with what that noted. */
    method HandOn(server: Server, tool: Tool, passed: Arguments, rounds: seq<Round>, room: nat)
      returns (reply: Reply, ghost decision: Decision)
      requires audit.Valid() && rounds != []
      modifies audit, server, server.seal`answered, server.handler`calls
      ensures audit.Valid() && reply != Stopped && Governed(old(audit.attempts), decision, room, reply)
      ensures decision.Dispatch? && decision.event == ToolInvocation(tool)
      ensures (decision.project, decision.repo) == (Target(passed, PROJECT), Target(passed, REPO))
      ensures server.dispatched == old(server.dispatched) + [CallRequest(tool, passed)]
      ensures server.handler.calls == old(server.handler.calls) + CallsBy(decision)
    {
      var recorder := new Confirm.ConfirmationRecorder();
      var result, handled := server.Call(tool, passed, rounds, recorder);
      decision := Dispatch(ToolInvocation(tool), Target(passed, PROJECT), Target(passed, REPO), result, handled);
      var confirmation := if result == Asks then None else recorder.noted.outcome;
      var record := Record(ToolInvocation(tool), Target(passed, PROJECT), Target(passed, REPO),
                           StatusOf(result, recorder.noted), confirmation);
      var ok := WriteAudit(record, room);
      return if ok then Served(result) else CannotAudit, decision;
    }

    /** A resource read: not handed on outside the scope, and recorded once either way. */
    method ReadResource(server: Server, uri: Text, room: nat) returns (reply: Reply, ghost decision: Decision)
      requires audit.Valid()
      modifies audit, server
      ensures audit.Valid() && Governed(old(audit.attempts), decision, room, reply)
      ensures var (project, repo) := NamedIn(uri);
        if ReadsOutside(uri, scope) then
          && decision == Refusal(ResourceRead(uri), project, repo) && server.dispatched == old(server.dispatched)
        else
          && decision == Dispatch(ResourceRead(uri), project, repo, server.readings(uri), WithoutTool)
          && server.dispatched == old(server.dispatched) + [ReadRequest(uri)]
      ensures Sound(scope) && AllInside(old(server.dispatched), scope) ==> AllInside(server.dispatched, scope)
    {
      var ref := ParseResource(uri);
      var project, repo := "", "";
      if ref.Some? {
        project, repo := ref.value.project, ref.value.repo;
        if ref.value.kind != OtherKind && !Links.InScope(project, repo, scope) {
          var ok := WriteAudit(Record(ResourceRead(uri), project, repo, Denied, None), room);
          return if ok then OutOfScope else CannotAudit, Refusal(ResourceRead(uri), project, repo);
        }
      }
      var result := server.Read(uri);
      var ok := WriteAudit(Record(ResourceRead(uri), project, repo, Settled(result), None), room);
      decision := Dispatch(ResourceRead(uri), project, repo, result, WithoutTool);
      return if ok then Served(result) else CannotAudit, decision;
    }

    /** The resource list: handed on, narrowed to the scope, and recorded once. */
    method ListResources(server: Server, room: nat) returns (reply: Reply, kept: seq<Text>, ghost decision: Decision)
      requires audit.Valid()
      modifies audit, server
      ensures audit.Valid() && Governed(old(audit.attempts), decision, room, reply)
      ensures server.dispatched == old(server.dispatched) + [ListRequest]
      ensures Sound(scope) && AllInside(old(server.dispatched), scope) ==> AllInside(server.dispatched, scope)
      ensures decision == Dispatch(ResourceList, "", "", server.listing.0, WithoutTool)
      ensures kept == if reply.CannotAudit? then []
                      else if IsSet(scope) then Links.KeptResources(server.listing.1, scope) else server.listing.1
    {
      var result, listed := server.List();
      decision := Dispatch(ResourceList, "", "", result, WithoutTool);
      kept := Links.KeepResources(listed, scope);
      var ok := WriteAudit(Record(ResourceList, "", "", Settled(result), None), room);
      if !ok {
        return CannotAudit, [], decision;
      }
      return Served(result), kept, decision;
    }

    /** A prompt: its project and repository pinned or refused, and recorded once either way. */
    method GetPrompt(server: Server, name: string, arguments: map<Key, string>, room: nat)
      returns (reply: Reply, ghost decision: Decision)
      requires audit.Valid()
      modifies audit, server
      ensures audit.Valid() && Governed(old(audit.attempts), decision, room, reply)
      ensures var (bound, refused) := PromptBound(arguments, scope);
        var project, repo := Written(bound, PROJECT), Written(bound, REPO);
        if refused then
          && decision == Refusal(PromptGet(name), project, repo) && server.dispatched == old(server.dispatched)
        else
          && decision == Dispatch(PromptGet(name), project, repo, server.prompts(name, bound), WithoutTool)
          && server.dispatched == old(server.dispatched) + [PromptRequest(name, bound)]
      ensures Sound(scope) && AllInside(old(server.dispatched), scope) ==> AllInside(server.dispatched, scope)
    {
      PromptIsConfined(name, arguments, scope);
      var bound, refused := BindPromptScope(arguments, scope);
      var project, repo := Written(bound, PROJECT), Written(bound, REPO);
      if refused {
        var ok := WriteAudit(Record(PromptGet(name), project, repo, Denied, None), room);
        return if ok then OutOfScope else CannotAudit, Refusal(PromptGet(name), project, repo);
      }
      var result := server.Prompt(name, bound);
      var ok := WriteAudit(Record(PromptGet(name), project, repo, Settled(result), None), room);
      return if ok then Served(result) else CannotAudit, Dispatch(PromptGet(name), project, repo, result, WithoutTool);
    }
  }

  /** The project and repository a URI names, for the record. */
  function NamedIn(uri: Text): (string, string) {
    match Parsed(uri) case None => ("", "") case Some(ref) => (ref.project, ref.repo)
  }

  // ----- Prompts

  function Written(arguments: map<Key, string>, key: Key): string {
    if key in arguments then arguments[key] else ""
  }

  /** The prompt's arguments pinned in turn, up to the one that names something else. */
  function PromptBound(arguments: map<Key, string>, scope: Scope): (map<Key, string>, bool) {
    var project := Trim(Written(arguments, PROJECT));
    if scope.project != "" && project != "" && !EqualFold(project, scope.project) then (arguments, true)
    else
      var pinned := if scope.project == "" then arguments else arguments[PROJECT := scope.project];
      var repo := Trim(Written(arguments, REPO));
      if scope.repo != "" && repo != "" && !EqualFold(repo, scope.repo) then (pinned, true)
      else (if scope.repo == "" then pinned else pinned[REPO := scope.repo], false)
  }

  /** The arguments a scope pins. */
  function PinnedBy(scope: Scope): set<Key> {
    (if scope.project == "" then {} else {PROJECT}) + (if scope.repo == "" then {} else {REPO})
  }

  /** A prompt leaves the argument out, or names what the scope does but for case. */
  predicate Allows(arguments: map<Key, string>, key: Key, want: string) {
    var got := Trim(Written(arguments, key));
    want == "" || got == "" || EqualFold(got, want)
  }

  /**
   A prompt is handed on exactly when it names nothing outside the scope, with
   the scope's project and repository, and all its other arguments as sent.
   */
  lemma PromptIsConfined(name: string, arguments: map<Key, string>, scope: Scope)
    ensures var (bound, refused) := PromptBound(arguments, scope);
      && (!refused <==> Allows(arguments, PROJECT, scope.project) && Allows(arguments, REPO, scope.repo))
      && (!refused ==> Inside(PromptRequest(name, bound), scope))
      && (!refused && scope.project != "" ==> PROJECT in bound && bound[PROJECT] == scope.project)
      && (!refused && scope.repo != "" ==> REPO in bound && bound[REPO] == scope.repo)
      && (!refused ==> bound - PinnedBy(scope) == arguments - PinnedBy(scope))
  {
  }

  method BindPromptScope(arguments: map<Key, string>, scope: Scope) returns (bound: map<Key, string>, refused: bool)
    ensures (bound, refused) == PromptBound(arguments, scope)
  {
    bound := arguments;
    var bindings := [(PROJECT, scope.project), (REPO, scope.repo)];
    var index := 0;
    while index < 2
      invariant 0 <= index <= 2
      invariant index == 0 ==> bound == arguments
      invariant index >= 1 ==>
        || scope.project == "" || Trim(Written(arguments, PROJECT)) == ""
        || EqualFold(Trim(Written(arguments, PROJECT)), scope.project)
      invariant index == 1 ==> bound == if scope.project == "" then arguments else arguments[PROJECT := scope.project]
      invariant index == 2 ==> (bound, false) == PromptBound(arguments, scope)
    {
      var (key, want) := bindings[index];
      index := index + 1;
      if want == "" {
        continue;
      }
      var got := Trim(Written(bound, key));
      if got != "" && !EqualFold(got, want) {
        return bound, true;
      }
      bound := bound[key := want];
    }
    return bound, false;
  }

  // ----- What a record and an answer say

  /** What is recorded of how a call of a tool ended. */
  predicate EndedAs(result: Result, handled: Handled, status: Status, confirmation: Option<Confirm.Confirmation>) {
    if result == Asks then status == Asked && confirmation == None
    else
      match handled
      case Asking(Unavailable) => status == Denied && confirmation == Some(Confirm.ConfirmationUnavailable)
      case Asking(Answered(WasCancelled)) => status == Denied && confirmation == Some(Confirm.ConfirmationCancelled)
      case Asking(Answered(WasDeclined)) => status == Denied && confirmation == Some(Confirm.ConfirmationDeclined)
      case Asking(Invalid) => status == Denied && confirmation == None
      case Asking(Ran(_, _)) =>
        status == (if result == Fine then Success else Failure) && confirmation == Some(Confirm.ConfirmationAccepted)
      case Asking(Unanswerable) =>
        status == (if result == Fine then Success else Failure) && confirmation == Some(Confirm.ConfirmationAccepted)
      case _ => status == (if result == Fine then Success else Failure) && confirmation == None
  }

  /**
   A record names the request with its project and repository as they were handed on; it is
   denied when the scope refused it or the person or the protocol did, and what else ended it otherwise.
   */
  lemma RecordSays(decision: Decision)
    ensures var record := RecordOf(decision);
      && record.event == decision.event && record.project == decision.project && record.repo == decision.repo
      && (decision.Refusal? ==> record.status == Denied && record.confirmation == None)
      && (decision.Dispatch? && decision.handled.WithoutTool? ==>
            && record.status == (if decision.result == Failed then Failure else Success)
            && record.confirmation == None)
      && (decision.Dispatch? && !decision.handled.WithoutTool? ==>
            EndedAs(decision.result, decision.handled, record.status, record.confirmation))
  {
  }

  /** The project a dispatched call is recorded with is the scope's, and its repository too when the scope names one. */
  lemma RecordNamesScope(tool: Tool, arguments: Arguments, scope: Scope)
    requires Sound(scope) && Applied(tool, arguments, scope).Passed?
    ensures var passed := Applied(tool, arguments, scope).value;
      && (scope.project != "" ==> Target(passed, PROJECT) == scope.project)
      && (scope.repo != "" ==> Target(passed, REPO) == scope.repo)
    ensures !IsSet(scope) && arguments.Object? ==> forall key, text ::
      key in arguments.entries && arguments.entries[key] == Str(text) ==> Target(arguments, key) == text
  {
    CallIsInside(tool, arguments, scope);
  }

  /** The answer is the scope's refusal or the server's, unless a record that must be written was not. */
  lemma ReplySays(mode: Mode, decision: Decision, recorded: bool)
    ensures mode.Warn? || recorded ==>
      ReplyOf(mode, decision, recorded) == if decision.Refusal? then OutOfScope else Served(decision.result)
    ensures mode.Deny? && !recorded ==> ReplyOf(mode, decision, recorded) == CannotAudit
  {
  }

  /** A record that can be written and fits with its newline is written whole, and otherwise as far as it fits. */
  lemma AttemptSays(encode: Record -> Option<Text>, record: Record, room: nat)
    ensures var attempt := AttemptOf(encode, record, room);
      && attempt.record == record
      && (attempt.whole <==> encode(record).Some? && |encode(record).value| + 1 <= room)
      && (encode(record).None? ==> attempt.put == [])
      && (encode(record).Some? ==>
            && attempt.put <= encode(record).value + [NEWLINE]
            && |attempt.put| == if attempt.whole then |encode(record).value| + 1 else room)
  {
  }
}
