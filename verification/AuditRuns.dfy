/**
 Requests that are served at the same time (internal/mcp/middleware.go) and
 log through one mutex (internal/mcp/audit.go): what holds of the log and of
 the answers at every moment, and what the log's lines are.
 */
module AuditRuns {
  import opened Bytes
  import opened Options
  import opened Splitting
  import opened Audit
  import opened Tools
  import Confirm
  import Scoping

  // ----- Interleaved requests

  /** How far a request has come: decided, recorded by one attempt, and answered. */
  datatype Phase =
    | Waiting
    | Decided(decision: Decision)
    | Attempted(decision: Decision, room: nat)
    | Replied(decision: Decision, room: nat, reply: Reply)

  /** An attempt to log, and the request it is for. */
  datatype Entry = Entry(id: nat, attempt: Attempt)

  /** A call of a tool's own handler, and the request it is for. */
  datatype Calling = Calling(id: nat, call: (Tool, Confirm.Input))

  datatype Trail = Trail(phases: map<nat, Phase>, log: seq<Entry>, calls: seq<Calling>)

  const EMPTY_TRAIL := Trail(map[], [], [])

  /** Writing is one step, since the logger holds its mutex. */
  datatype Step = Decide(id: nat, decision: Decision) | Write(id: nat, room: nat) | Answer(id: nat)

  function PhaseOf(trail: Trail, id: nat): Phase {
    if id in trail.phases then trail.phases[id] else Waiting
  }

  function CallingsOf(id: nat, calls: seq<(Tool, Confirm.Input)>): seq<Calling> {
    seq(|calls|, i requires 0 <= i < |calls| => Calling(id, calls[i]))
  }

  /** One request takes its next step, if it has come that far. */
  function Next(encode: Record -> Option<Text>, mode: Mode, trail: Trail, step: Step): Option<Trail> {
    match (step, PhaseOf(trail, step.id))
    case (Decide(id, decision), Waiting) =>
      Some(trail.(phases := trail.phases[id := Decided(decision)],
                  calls := trail.calls + CallingsOf(id, CallsBy(decision))))
    case (Write(id, room), Decided(decision)) =>
      Some(trail.(phases := trail.phases[id := Attempted(decision, room)],
                  log := trail.log + [Entry(id, AttemptOf(encode, RecordOf(decision), room))]))
    case (Answer(id), Attempted(decision, room)) =>
      var recorded := AttemptOf(encode, RecordOf(decision), room).whole;
      Some(trail.(phases := trail.phases[id := Replied(decision, room, ReplyOf(mode, decision, recorded))]))
    case _ => None
  }

  ghost predicate Run(encode: Record -> Option<Text>, mode: Mode, trails: seq<Trail>, steps: seq<Step>) {
    && |trails| == |steps| + 1 && trails[0] == EMPTY_TRAIL
    && forall i :: 0 <= i < |steps| ==> Next(encode, mode, trails[i], steps[i]) == Some(trails[i + 1])
  }

  /** The attempts to log a request. */
  function OwnAttempts(log: seq<Entry>, id: nat): seq<Attempt> {
    if log == [] then []
    else
      var entry := log[|log| - 1];
      OwnAttempts(log[..|log| - 1], id) + if entry.id == id then [entry.attempt] else []
  }

  /** The calls made for a request. */
  function OwnCalls(calls: seq<Calling>, id: nat): seq<(Tool, Confirm.Input)> {
    if calls == [] then []
    else
      var calling := calls[|calls| - 1];
      OwnCalls(calls[..|calls| - 1], id) + if calling.id == id then [calling.call] else []
  }

  /** The log, the calls and the answer are what the request's decision and the sink's room make them. */
  ghost predicate Agrees(encode: Record -> Option<Text>, mode: Mode, trail: Trail, id: nat) {
    var phase := PhaseOf(trail, id);
    && OwnCalls(trail.calls, id) == (if phase.Waiting? then [] else CallsBy(phase.decision))
    && OwnAttempts(trail.log, id) == (
      if phase.Waiting? || phase.Decided? then [] else [AttemptOf(encode, RecordOf(phase.decision), phase.room)])
    && (phase.Replied? ==>
          phase.reply == ReplyOf(mode, phase.decision, AttemptOf(encode, RecordOf(phase.decision), phase.room).whole))
  }

  lemma OneMore(log: seq<Entry>, entry: Entry, id: nat)
    ensures OwnAttempts(log + [entry], id) == OwnAttempts(log, id) + if entry.id == id then [entry.attempt] else []
  {
    assert (log + [entry])[..|log|] == log;
  }

  /** A decision makes at most one call. */
  lemma CallsMore(calls: seq<Calling>, maker: nat, made: seq<(Tool, Confirm.Input)>, id: nat)
    requires |made| <= 1
    ensures OwnCalls(calls + CallingsOf(maker, made), id) == OwnCalls(calls, id) + if maker == id then made else []
  {
    var more := calls + CallingsOf(maker, made);
    if made == [] {
      assert more == calls;
    } else {
      assert more[..|calls|] == calls;
      assert more[|calls|] == Calling(maker, made[0]);
      assert made == [made[0]];
    }
  }

  lemma DecideAgrees(encode: Record -> Option<Text>, mode: Mode, before: Trail, step: Step, after: Trail, id: nat)
    requires step.Decide? && Next(encode, mode, before, step) == Some(after) && Agrees(encode, mode, before, id)
    ensures Agrees(encode, mode, after, id)
  {
    var made := CallsBy(step.decision);
    assert |made| <= 1;
    CallsMore(before.calls, step.id, made, id);
    assert after.log == before.log && after.calls == before.calls + CallingsOf(step.id, made);
    assert PhaseOf(after, id) == if step.id == id then Decided(step.decision) else PhaseOf(before, id);
  }

  lemma WriteAgrees(encode: Record -> Option<Text>, mode: Mode, before: Trail, step: Step, after: Trail, id: nat)
    requires step.Write? && Next(encode, mode, before, step) == Some(after) && Agrees(encode, mode, before, id)
    ensures Agrees(encode, mode, after, id)
  {
    var decision := PhaseOf(before, step.id).decision;
    var entry := Entry(step.id, AttemptOf(encode, RecordOf(decision), step.room));
    OneMore(before.log, entry, id);
    assert after.calls == before.calls && after.log == before.log + [entry];
    assert PhaseOf(after, id) == if step.id == id then Attempted(decision, step.room) else PhaseOf(before, id);
  }

  lemma StepAgrees(encode: Record -> Option<Text>, mode: Mode, before: Trail, step: Step, after: Trail, id: nat)
    requires Next(encode, mode, before, step) == Some(after) && Agrees(encode, mode, before, id)
    ensures Agrees(encode, mode, after, id)
  {
    match step
    case Decide(_, _) => DecideAgrees(encode, mode, before, step, after, id);
    case Write(_, _) => WriteAgrees(encode, mode, before, step, after, id);
    case Answer(_) =>
      assert after.log == before.log && after.calls == before.calls;
  }

  /**
   However requests are interleaved, at every moment each has attempted its
   own record at most once and made the calls of its decision, and it is
   answered after that attempt and as it allows.
   */
  lemma {:induction false} RunsAreRecorded(
    encode: Record -> Option<Text>, mode: Mode, trails: seq<Trail>, steps: seq<Step>, i: nat, id: nat)
    requires Run(encode, mode, trails, steps) && i < |trails|
    ensures Agrees(encode, mode, trails[i], id)
  {
    if i > 0 {
      RunsAreRecorded(encode, mode, trails, steps, i - 1, id);
      StepAgrees(encode, mode, trails[i - 1], steps[i - 1], trails[i], id);
    }
  }

  lemma {:induction false} OwnAttempt(log: seq<Entry>, k: nat)
    requires k < |log|
    ensures log[k].attempt in OwnAttempts(log, log[k].id)
    decreases |log|
  {
    if k < |log| - 1 {
      OwnAttempt(log[..|log| - 1], k);
    }
  }

  lemma {:induction false} OwnCall(calls: seq<Calling>, k: nat)
    requires k < |calls|
    ensures calls[k].call in OwnCalls(calls, calls[k].id)
    decreases |calls|
  {
    if k < |calls| - 1 {
      OwnCall(calls[..|calls| - 1], k);
    }
  }

  lemma {:induction false} AttemptInLog(log: seq<Entry>, id: nat, attempt: Attempt)
    requires attempt in OwnAttempts(log, id)
    ensures Entry(id, attempt) in log
    decreases |log|
  {
    var init := log[..|log| - 1];
    if attempt in OwnAttempts(init, id) {
      AttemptInLog(init, id, attempt);
    } else {
      assert log[|log| - 1] == Entry(id, attempt);
    }
  }

  lemma CallMeansNotDenied(
    encode: Record -> Option<Text>, mode: Mode, trail: Trail, id: nat, attempt: Attempt, call: (Tool, Confirm.Input))
    requires Agrees(encode, mode, trail, id)
    requires attempt in OwnAttempts(trail.log, id) && call in OwnCalls(trail.calls, id)
    ensures attempt.record.status != Denied
  {
    DeniedDidNotRun(PhaseOf(trail, id).decision);
  }

  /** At no moment of a run is there a denied record in the log and a call made for its request. */
  lemma DeniedNeverRuns(
    encode: Record -> Option<Text>, mode: Mode, trails: seq<Trail>, steps: seq<Step>, i: nat, k: nat, n: nat)
    requires Run(encode, mode, trails, steps) && i < |trails|
    requires k < |trails[i].log| && n < |trails[i].calls|
    ensures trails[i].log[k].attempt.record.status == Denied ==> trails[i].calls[n].id != trails[i].log[k].id
  {
    var id := trails[i].log[k].id;
    RunsAreRecorded(encode, mode, trails, steps, i, id);
    OwnAttempt(trails[i].log, k);
    OwnCall(trails[i].calls, n);
    if trails[i].calls[n].id == id {
      CallMeansNotDenied(encode, mode, trails[i], id, trails[i].log[k].attempt, trails[i].calls[n].call);
    }
  }

  /** Under the deny mode whatever was answered but that it cannot be audited has its whole line in the log. */
  lemma AnsweredIsLogged(
    encode: Record -> Option<Text>, trails: seq<Trail>, steps: seq<Step>, i: nat, id: nat)
    requires Run(encode, Deny, trails, steps) && i < |trails|
    ensures var phase := PhaseOf(trails[i], id);
      phase.Replied? && phase.reply != CannotAudit ==>
        var record := RecordOf(phase.decision);
        && encode(record).Some?
        && Entry(id, Attempt(record, encode(record).value + [NEWLINE], true)) in trails[i].log
  {
    RunsAreRecorded(encode, Deny, trails, steps, i, id);
    var phase := PhaseOf(trails[i], id);
    if phase.Replied? && phase.reply != CannotAudit {
      AttemptInLog(trails[i].log, id, AttemptOf(encode, RecordOf(phase.decision), phase.room));
    }
  }

  /** The log only grows. */
  lemma {:induction false} LogGrows(
    encode: Record -> Option<Text>, mode: Mode, trails: seq<Trail>, steps: seq<Step>, i: nat, j: nat)
    requires Run(encode, mode, trails, steps) && i <= j < |trails|
    ensures trails[i].log <= trails[j].log
  {
    if i < j {
      LogGrows(encode, mode, trails, steps, i, j - 1);
      assert Next(encode, mode, trails[j - 1], steps[j - 1]) == Some(trails[j]);
    }
  }

  // ----- A call of the middleware as steps of a run

  function AttemptsIn(log: seq<Entry>): seq<Attempt> {
    seq(|log|, i requires 0 <= i < |log| => log[i].attempt)
  }

  function CallsIn(calls: seq<Calling>): seq<(Tool, Confirm.Input)> {
    seq(|calls|, i requires 0 <= i < |calls| => calls[i].call)
  }

  /** A run that continues with one request alone. */
  lemma RequestIsSteps(
    encode: Record -> Option<Text>, mode: Mode, trails: seq<Trail>, steps: seq<Step>,
    id: nat, decision: Decision, room: nat)
    returns (after: seq<Trail>)
    requires Run(encode, mode, trails, steps) && PhaseOf(trails[|steps|], id) == Waiting
    ensures trails <= after && Run(encode, mode, after, steps + [Decide(id, decision), Write(id, room), Answer(id)])
    ensures var attempt := AttemptOf(encode, RecordOf(decision), room);
      var before, last := trails[|steps|], after[|after| - 1];
      && AttemptsIn(last.log) == AttemptsIn(before.log) + [attempt]
      && CallsIn(last.calls) == CallsIn(before.calls) + CallsBy(decision)
      && last.phases == before.phases[id := Replied(decision, room, ReplyOf(mode, decision, attempt.whole))]
  {
    var decided := Next(encode, mode, trails[|steps|], Decide(id, decision)).value;
    var written := Next(encode, mode, decided, Write(id, room)).value;
    var answered := Next(encode, mode, written, Answer(id)).value;
    after := trails + [decided, written, answered];
    assert after[..|trails|] == trails;
  }

  /** A run that continues with one request, with a log and calls that were the run's. */
  lemma RequestGoesOn(
    encode: Record -> Option<Text>, mode: Mode, trails: seq<Trail>, steps: seq<Step>,
    id: nat, decision: Decision, room: nat, attempts: seq<Attempt>, calls: seq<(Tool, Confirm.Input)>)
    returns (after: seq<Trail>)
    requires Run(encode, mode, trails, steps) && PhaseOf(trails[|steps|], id) == Waiting
    requires AttemptsIn(trails[|steps|].log) == attempts && CallsIn(trails[|steps|].calls) == calls
    ensures var taken := steps + [Decide(id, decision), Write(id, room), Answer(id)];
      var attempt := AttemptOf(encode, RecordOf(decision), room);
      && trails <= after && steps <= taken && Run(encode, mode, after, taken)
      && AttemptsIn(after[|taken|].log) == attempts + [attempt]
      && CallsIn(after[|taken|].calls) == calls + CallsBy(decision)
      && PhaseOf(after[|taken|], id) == Replied(decision, room, ReplyOf(mode, decision, attempt.whole))
  {
    after := RequestIsSteps(encode, mode, trails, steps, id, decision, room);
  }

  /**
   Every call of a tool through the middleware continues a run by the steps of
   one request, with the audit log and the handler's calls those of the run; a
   call that stops the program takes no step.
   */
  method CallToolInRun(
    governor: Governor, server: Server, tool: Tool, arguments: Scoping.Arguments, rounds: seq<Round>, room: nat,
    ghost trails: seq<Trail>, ghost steps: seq<Step>, ghost id: nat)
    returns (reply: Reply, ghost after: seq<Trail>, ghost taken: seq<Step>)
    requires governor.audit.Valid() && rounds != []
    requires Run(governor.audit.encode, governor.mode, trails, steps) && PhaseOf(trails[|steps|], id) == Waiting
    requires AttemptsIn(trails[|steps|].log) == governor.audit.attempts
    requires CallsIn(trails[|steps|].calls) == server.handler.calls
    modifies governor.audit, server, server.seal`answered, server.handler`calls
    ensures governor.audit.Valid() && trails <= after && steps <= taken
    ensures Run(governor.audit.encode, governor.mode, after, taken)
    ensures AttemptsIn(after[|taken|].log) == governor.audit.attempts
    ensures CallsIn(after[|taken|].calls) == server.handler.calls
    ensures if reply == Stopped then after == trails
            else PhaseOf(after[|taken|], id).Replied? && PhaseOf(after[|taken|], id).reply == reply
  {
    ghost var decision;
    reply, decision := governor.CallTool(server, tool, arguments, rounds, room);
    after, taken := trails, steps;
    if reply != Stopped {
      after := RequestGoesOn(governor.audit.encode, governor.mode, trails, steps, id, decision, room,
                             old(governor.audit.attempts), old(server.handler.calls));
      taken := steps + [Decide(id, decision), Write(id, room), Answer(id)];
    }
  }

  // ----- The lines of the log

  /** Attempts as a logger makes them: a whole line, or a fragment that holds no newline. */
  predicate Written(attempt: Attempt) {
    var put := attempt.put;
    if attempt.whole then put != [] && put[|put| - 1] == NEWLINE && NEWLINE !in put[..|put| - 1]
    else NEWLINE !in put
  }

  ghost predicate AllWritten(attempts: seq<Attempt>) {
    forall i :: 0 <= i < |attempts| ==> Written(attempts[i])
  }

  /** A record is written on one line. */
  predicate OneLine(encode: Record -> Option<Text>, record: Record) {
    encode(record).Some? ==> NEWLINE !in encode(record).value
  }

  /** Every record is. */
  ghost predicate WritesLines(encode: Record -> Option<Text>) { forall record :: OneLine(encode, record) }

  lemma AttemptIsWritten(encode: Record -> Option<Text>, record: Record, room: nat)
    requires OneLine(encode, record)
    ensures Written(AttemptOf(encode, record, room))
  {
    if encode(record).Some? {
      var text := encode(record).value;
      if |text| < room {
        assert (text + [NEWLINE])[..|text|] == text;
      } else {
        assert (text + [NEWLINE])[..room] == text[..room];
      }
    }
  }

  /** The finished lines of a log, and the unfinished one at its end. */
  function Lines(attempts: seq<Attempt>): (seq<Text>, Text)
    requires AllWritten(attempts)
  {
    if attempts == [] then ([], [])
    else
      var (lines, partial) := Lines(attempts[..|attempts| - 1]);
      var last := attempts[|attempts| - 1];
      assert Written(last);
      if last.whole then (lines + [partial + last.put[..|last.put| - 1]], []) else (lines, partial + last.put)
  }

  /** Splitting the log at its newlines gives those lines. */
  lemma {:induction false} LogSplits(attempts: seq<Attempt>)
    requires AllWritten(attempts)
    ensures var (lines, partial) := Lines(attempts);
      && Split(LogBytes(attempts), NEWLINE) == lines + [partial]
      && NEWLINE !in partial && NoNewlines(lines)
    decreases |attempts|
  {
    if attempts == [] {
      SplitWhole([], NEWLINE);
    } else {
      var init, last := attempts[..|attempts| - 1], attempts[|attempts| - 1];
      var (lines, partial) := Lines(init);
      LogSplits(init);
      assert Written(last);
      if last.whole {
        var text := last.put[..|last.put| - 1];
        assert last.put == text + [NEWLINE];
        WholeSplits(LogBytes(init), lines, partial, text);
      } else {
        FragmentSplits(LogBytes(init), lines, partial, last.put);
      }
    }
  }

  predicate NoNewlines(lines: seq<Text>) {
    forall i :: 0 <= i < |lines| ==> NEWLINE !in lines[i]
  }

  lemma FragmentSplits(log: Text, lines: seq<Text>, partial: Text, text: Text)
    requires Split(log, NEWLINE) == lines + [partial] && NoNewlines(lines) && NEWLINE !in partial && NEWLINE !in text
    ensures Split(log + text, NEWLINE) == lines + [partial + text]
  {
    JoinSplit(log, NEWLINE);
    JoinGrows(lines, partial, text);
    SplitJoin(lines + [partial + text], NEWLINE);
  }

  lemma WholeSplits(log: Text, lines: seq<Text>, partial: Text, text: Text)
    requires Split(log, NEWLINE) == lines + [partial] && NoNewlines(lines) && NEWLINE !in partial && NEWLINE !in text
    ensures Split(log + (text + [NEWLINE]), NEWLINE) == lines + [partial + text] + [[]]
  {
    FragmentSplits(log, lines, partial, text);
    JoinSplit(log + text, NEWLINE);
    JoinEnds(lines + [partial + text]);
    SplitJoin(lines + [partial + text] + [[]], NEWLINE);
    assert log + (text + [NEWLINE]) == log + text + [NEWLINE];
  }

  /** More text after the last part of a joined text. */
  lemma {:induction false} JoinGrows(lines: seq<Text>, partial: Text, more: Text)
    ensures Join(lines + [partial], NEWLINE) + more == Join(lines + [partial + more], NEWLINE)
    decreases |lines|
  {
    if lines == [] {
      assert lines + [partial] == [partial] && lines + [partial + more] == [partial + more];
    } else {
      JoinGrows(lines[1..], partial, more);
      assert (lines + [partial])[1..] == lines[1..] + [partial];
      assert (lines + [partial + more])[1..] == lines[1..] + [partial + more];
    }
  }

  lemma {:induction false} JoinEnds(lines: seq<Text>)
    requires lines != []
    ensures Join(lines, NEWLINE) + [NEWLINE] == Join(lines + [[]], NEWLINE)
    decreases |lines|
  {
    if |lines| == 1 {
      assert (lines + [[]])[1..] == [[]];
    } else {
      JoinEnds(lines[1..]);
      assert (lines + [[]])[1..] == lines[1..] + [[]];
    }
  }

  /** Nothing but whole records and attempts that wrote nothing since the last whole record. */
  predicate Clean(attempts: seq<Attempt>) {
    attempts == [] || attempts[|attempts| - 1].whole
    || (attempts[|attempts| - 1].put == [] && Clean(attempts[..|attempts| - 1]))
  }

  /**
   A record that was written whole is a line of its own exactly when no
   attempt before it left a fragment since the last whole one; otherwise its
   line begins with the fragments.
   */
  lemma {:induction false} RecordStandsAlone(attempts: seq<Attempt>, last: Attempt)
    requires AllWritten(attempts)
    requires last.whole && Written(last)
    ensures var lines := Lines(attempts + [last]).0;
      && lines != []
      && (lines[|lines| - 1] == last.put[..|last.put| - 1] <==> Clean(attempts))
  {
    assert (attempts + [last])[..|attempts|] == attempts;
    PartialWhenUnclean(attempts);
    var partial := Lines(attempts).1;
    var text := last.put[..|last.put| - 1];
    assert partial != [] ==> |partial + text| > |text|;
    assert partial == [] ==> partial + text == text;
  }

  lemma {:induction false} PartialWhenUnclean(attempts: seq<Attempt>)
    requires AllWritten(attempts)
    ensures Lines(attempts).1 == [] <==> Clean(attempts)
    decreases |attempts|
  {
    if attempts != [] {
      PartialWhenUnclean(attempts[..|attempts| - 1]);
      assert Written(attempts[|attempts| - 1]);
    }
  }

  // ----- The lines of a run's log

  lemma {:induction false} RunIsWritten(
    encode: Record -> Option<Text>, mode: Mode, trails: seq<Trail>, steps: seq<Step>, i: nat)
    requires Run(encode, mode, trails, steps) && i < |trails| && WritesLines(encode)
    ensures AllWritten(AttemptsIn(trails[i].log))
  {
    if i > 0 {
      RunIsWritten(encode, mode, trails, steps, i - 1);
      var before, step := trails[i - 1], steps[i - 1];
      assert Next(encode, mode, before, step) == Some(trails[i]);
      if step.Write? {
        var record := RecordOf(PhaseOf(before, step.id).decision);
        assert OneLine(encode, record);
        AttemptIsWritten(encode, record, step.room);
        assert AttemptsIn(trails[i].log) == AttemptsIn(before.log) + [AttemptOf(encode, record, step.room)];
      }
    }
  }

  /** At every moment of a run the log splits at its newlines into its finished lines and the unfinished one. */
  lemma RunLogSplits(encode: Record -> Option<Text>, mode: Mode, trails: seq<Trail>, steps: seq<Step>, i: nat)
    requires Run(encode, mode, trails, steps) && i < |trails| && WritesLines(encode)
    ensures var attempts := AttemptsIn(trails[i].log);
      && AllWritten(attempts)
      && Split(LogBytes(attempts), NEWLINE) == Lines(attempts).0 + [Lines(attempts).1]
  {
    RunIsWritten(encode, mode, trails, steps, i);
    LogSplits(AttemptsIn(trails[i].log));
  }

  lemma LastLineStandsAlone(attempts: seq<Attempt>, last: Attempt)
    requires AllWritten(attempts) && last.whole && Written(last)
    ensures var parts := Split(LogBytes(attempts + [last]), NEWLINE);
      && |parts| >= 2 && parts[|parts| - 1] == []
      && (parts[|parts| - 2] == last.put[..|last.put| - 1] <==> Clean(attempts))
  {
    LogSplits(attempts + [last]);
    RecordStandsAlone(attempts, last);
  }

  /**
   In every run a record written whole becomes the line just finished exactly
   when no attempt before it left a fragment since the last whole one.
   */
  lemma RunRecordStandsAlone(
    encode: Record -> Option<Text>, mode: Mode, trails: seq<Trail>, steps: seq<Step>, i: nat)
    requires Run(encode, mode, trails, steps) && i < |steps| && WritesLines(encode) && steps[i].Write?
    ensures var attempt := trails[i + 1].log[|trails[i].log|].attempt;
      attempt.whole ==>
        var parts := Split(LogBytes(AttemptsIn(trails[i + 1].log)), NEWLINE);
        && |parts| >= 2 && parts[|parts| - 1] == []
        && (parts[|parts| - 2] == encode(attempt.record).value <==> Clean(AttemptsIn(trails[i].log)))
  {
    assert Next(encode, mode, trails[i], steps[i]) == Some(trails[i + 1]);
    var record := RecordOf(PhaseOf(trails[i], steps[i].id).decision);
    var attempt := AttemptOf(encode, record, steps[i].room);
    assert trails[i + 1].log[|trails[i].log|].attempt == attempt;
    if attempt.whole {
      var attempts := AttemptsIn(trails[i].log);
      RunIsWritten(encode, mode, trails, steps, i);
      assert AttemptsIn(trails[i + 1].log) == attempts + [attempt];
      assert OneLine(encode, record);
      AttemptIsWritten(encode, record, steps[i].room);
      assert attempt.put[..|attempt.put| - 1] == encode(record).value;
      LastLineStandsAlone(attempts, attempt);
    }
  }

  function Braces(record: Record): (r: Option<Text>) { Some([0x7B, 0x7D]) }

  /** A record that did not fit leaves its beginning in the log, and the next one's line begins with it. */
  lemma FragmentSpoilsNextLine(record: Record)
    ensures var attempts := [AttemptOf(Braces, record, 1), AttemptOf(Braces, record, 3)];
      && !attempts[0].whole && attempts[1].whole && !Clean(attempts[..1])
      && Split(LogBytes(attempts), NEWLINE) == [[0x7B, 0x7B, 0x7D], []]
  {
    var attempts := [AttemptOf(Braces, record, 1), AttemptOf(Braces, record, 3)];
    var text := Braces(record).value;
    AttemptIsWritten(Braces, record, 1);
    AttemptIsWritten(Braces, record, 3);
    LogSplits(attempts);
    assert !attempts[0].whole && attempts[0].put == [0x7B];
    assert attempts[1].whole && attempts[1].put == text + [NEWLINE];
    assert attempts[1].put[..2] == text;
    assert attempts[..|attempts| - 1] == [attempts[0]] && [attempts[0]][..0] == [];
    assert Lines([attempts[0]]) == ([], [] + [0x7B]);
    assert Lines(attempts).0 == [[] + [0x7B] + text];
    assert [] + [0x7B] + text == [0x7B, 0x7B, 0x7D];
  }
}
