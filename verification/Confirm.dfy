/**
 The confirmation a tool that asks waits for before it runs
 (internal/mcp/confirm.go) and the version a merge is held to by it
 (internal/mcp/asks.go).

 Fingerprints and signatures are symbolic: an input is its own fingerprint,
 and a signature is the key and what was signed, so nothing but the key makes
 one.
 */
module Confirm {
  import opened Bytes
  import opened Options
  import opened Tools
  import Decimal

  /** What a call asks for: a pull request version, when it names one, and the rest of its arguments. */
  datatype Input = Input(arguments: Text, version: Option<Decimal.Int>)

  /** What a request state holds. */
  datatype Sealed = Sealed(tool: Tool, digest: Input, pin: Text, nonce: nat, expires: int)

  datatype Signature = Signature(key: nat, payload: Sealed)

  /** A request state as a call carries it. */
  datatype RequestState = NoState | Malformed | Presented(payload: Sealed, signature: Signature)

  /** The client's answer to the form: the action, and whether the box was ticked. */
  datatype Answer = NoAnswer | NotAnElicitation | Cancelled | Declined | Accepted(ticked: bool)

  const TTL := 600

  // ----- Versions

  /** The tools held to the version the person was shown. */
  predicate Pins(tool: Tool) { tool.MergePullRequest? || tool.EnableAutoMerge? }

  /** Whether the version a call names is the pull request's. */
  predicate VersionMatches(shown: Decimal.Int, version: Option<Decimal.Int>) {
    version.None? || version.value == shown
  }

  /** Holds a call to the confirmed version, unless it names one itself. */
  method HoldVersion(version: Option<Decimal.Int>, pin: Text) returns (held: Option<Decimal.Int>, ok: bool)
    ensures ok == Held(MergePullRequest, Input([], version), pin).Some?
    ensures ok ==> Held(MergePullRequest, Input([], version), pin).value.version == held
  {
    if version != None {
      return version, true;
    }
    match Decimal.Atoi(pin) {
      case NotANumber => return None, false;
      case Number(value) => return Some(value), true;
    }
  }

  /** The input a confirmed call runs with, or nothing when its pin cannot be read. */
  function Held(tool: Tool, input: Input, pin: Text): Option<Input> {
    if !Pins(tool) || input.version.Some? then Some(input)
    else
      match Decimal.Atoi(pin)
      case NotANumber => None
      case Number(value) => Some(input.(version := Some(value)))
  }

  // ----- The seal

  predicate Expired(now: int, expires: int) { now > expires }

  function Verified(key: nat, state: RequestState): Option<Sealed> {
    if state.Presented? && state.signature == Signature(key, state.payload) then Some(state.payload) else None
  }

  datatype Opening = Refused | Opened(pin: Text, expired: bool)

  /** What opening a state for a call finds, given the nonces answered. */
  function OpeningOf(
    key: nat, answered: map<nat, int>, state: RequestState, tool: Tool, input: Input, now: int): Opening {
    match Verified(key, state)
    case None => Refused
    case Some(sealed) =>
      if sealed.tool != tool || sealed.digest != input || sealed.nonce in answered then Refused
      else Opened(sealed.pin, Expired(now, sealed.expires))
  }

  /** The nonces still kept at a time: those whose states have not expired. */
  function Kept(answered: map<nat, int>, now: int): map<nat, int> {
    map nonce | nonce in answered && !Expired(now, answered[nonce]) :: answered[nonce]
  }

  // ----- What a call leaves behind

  /** What a confirmation is recorded as. */
  datatype Confirmation =
    | ConfirmationAccepted | ConfirmationDeclined | ConfirmationCancelled | ConfirmationUnavailable

  /** What is noted of a call: its confirmation's outcome, and whether its answer could not be used. */
  datatype Noted = Noted(outcome: Option<Confirmation>, refused: bool)

  const NOTHING_NOTED := Noted(None, false)

  /** The confirmation stopped the call before it reached Bitbucket. */
  predicate Denies(noted: Noted) {
    || noted.outcome == Some(ConfirmationDeclined) || noted.outcome == Some(ConfirmationCancelled)
    || noted.outcome == Some(ConfirmationUnavailable) || noted.refused
  }

  /** Carries a call's confirmation from the handler to the audit record. */
  class ConfirmationRecorder {
    var noted: Noted

    constructor ()
      ensures noted == NOTHING_NOTED
    {
      noted := NOTHING_NOTED;
    }

    method Record(outcome: Confirmation)
      modifies this
      ensures noted == old(noted).(outcome := Some(outcome))
    {
      noted := noted.(outcome := Some(outcome));
    }

    method Refuse()
      modifies this
      ensures noted == old(noted).(refused := true)
    {
      noted := noted.(refused := true);
    }
  }

  /** The tools' own handlers: whatever they answer, it is seen what they were called with. */
  class ToolHandler {
    const answer: (Tool, Input) -> Result
    ghost var calls: seq<(Tool, Input)>

    constructor (answer: (Tool, Input) -> Result)
      ensures this.answer == answer && calls == []
    {
      this.answer, calls := answer, [];
    }

    method Call(tool: Tool, input: Input) returns (result: Result)
      modifies this`calls
      ensures calls == old(calls) + [(tool, input)] && result == answer(tool, input)
    {
      calls := calls + [(tool, input)];
      result := answer(tool, input);
    }
  }

  class ConfirmationSeal {
    const key: nat
    var answered: map<nat, int>

    constructor (key: nat)
      ensures this.key == key && answered == map[]
    {
      this.key := key;
      answered := map[];
    }

    /** Issues the request state for a confirmation; the nonce is drawn at random. */
    method Seal(tool: Tool, digest: Input, pin: Text, nonce: nat, now: int) returns (state: RequestState)
      ensures Verified(key, state) == Some(Sealed(tool, digest, pin, nonce, now + TTL))
    {
      var payload := Sealed(tool, digest, pin, nonce, now + TTL);
      return Presented(payload, Signature(key, payload));
    }

    method Open(state: RequestState, tool: Tool, input: Input, now: int) returns (opening: Opening)
      ensures opening == OpeningOf(key, answered, state, tool, input, now)
    {
      var sealed := Verified(key, state);
      if sealed.None? {
        return Refused;
      }
      if sealed.value.tool != tool {
        return Refused;
      }
      if sealed.value.digest != input {
        return Refused;
      }
      if sealed.value.nonce in answered {
        return Refused;
      }
      return Opened(sealed.value.pin, Expired(now, sealed.value.expires));
    }

    /** Marks a state answered, and forgets the answered states that have expired. */
    method Consume(state: RequestState, now: int) returns (ok: bool)
      modifies this`answered
      ensures Verified(key, state).None? ==> !ok && answered == old(answered)
      ensures Verified(key, state).Some? ==>
        var sealed := Verified(key, state).value;
        && ok == (sealed.nonce !in Kept(old(answered), now))
        && answered == if ok then Kept(old(answered), now)[sealed.nonce := sealed.expires] else Kept(old(answered), now)
    {
      var sealed := Verified(key, state);
      if sealed.None? {
        return false;
      }
      var left := answered.Keys;
      while left != {}
        invariant left <= answered.Keys <= old(answered).Keys
        invariant forall n :: n in answered ==> answered[n] == old(answered)[n]
        invariant forall n :: n in old(answered) && n !in left ==> (n in answered <==> !Expired(now, old(answered)[n]))
        invariant forall n :: n in left ==> n in answered
        decreases |left|
      {
        var nonce :| nonce in left;
        if Expired(now, answered[nonce]) {
          answered := answered - {nonce};
        }
        left := left - {nonce};
      }
      assert answered == Kept(old(answered), now);
      if sealed.value.nonce in answered {
        return false;
      }
      answered := answered[sealed.value.nonce := sealed.value.expires];
      return true;
    }

    /**
     One call of a tool that asks, from its arguments to what becomes of it.
     `opens` and `consumes` are the times it opens its state and consumes it;
     in between other calls may consume theirs, which leaves `others` answered.
     `shown` is the version a question would show, and `nonce` what a question
     would be sealed with.
     */
    method Confirmed(tool: Tool, input: Input, canConfirm: bool, state: RequestState, answer: Answer,
                     opens: int, others: map<nat, int>, consumes: int, shown: Decimal.Int, nonce: nat,
                     recorder: ConfirmationRecorder, handler: ToolHandler)
      returns (outcome: Outcome)
      modifies this`answered, recorder, handler`calls
      ensures outcome.Ran? || outcome.Unanswerable? <==>
        && canConfirm && answer == Accepted(true) && state.Presented?
        && OpeningOf(key, old(answered), state, tool, input, opens) == Opened(state.payload.pin, false)
        && state.payload.nonce !in Kept(others, consumes)
      ensures outcome.Ran? || outcome.Unanswerable? ==>
        Held(tool, input, state.payload.pin) == (if outcome.Ran? then Some(outcome.held) else None)
      ensures outcome.Answered? <==>
        && canConfirm && answer != NoAnswer && answer != NotAnElicitation && state.Presented?
        && OpeningOf(key, old(answered), state, tool, input, opens).Opened?
        && state.payload.nonce !in Kept(others, consumes)
        && (answer == Accepted(true) ==> OpeningOf(key, old(answered), state, tool, input, opens).expired)
      ensures outcome.Answered? ==> outcome.how == Recorded(answer)
      ensures outcome.Asked? || outcome.Moved? <==>
        && canConfirm && answer == NoAnswer
        && (state == NoState || OpeningOf(key, old(answered), state, tool, input, opens).Opened?)
      ensures outcome.Asked? ==>
        && (Pins(tool) ==> VersionMatches(shown, input.version))
        && Verified(key, outcome.question) == Some(Sealed(tool, input, PinOf(tool, shown), nonce, opens + TTL))
      ensures outcome.Moved? ==> Pins(tool) && !VersionMatches(shown, input.version)
      ensures outcome.Unavailable? <==> !canConfirm
      ensures answered ==
        if !Reaches(key, old(answered), tool, input, canConfirm, state, answer, opens) then old(answered)
        else if outcome.Invalid? then Kept(others, consumes)
        else Kept(others, consumes)[state.payload.nonce := state.payload.expires]
      ensures recorder.noted == NotedAfter(old(recorder.noted), outcome)
      ensures handler.calls == old(handler.calls) + if outcome.Ran? then [(tool, outcome.held)] else []
      ensures outcome.Ran? ==> outcome.result == handler.answer(tool, outcome.held)
    {
      if !canConfirm {
        recorder.Record(ConfirmationUnavailable);
        return Unavailable;
      }
      if state == NoState && answer != NoAnswer {
        recorder.Refuse();
        return Invalid;
      }
      if state == NoState {
        outcome := Ask(tool, input, shown, nonce, opens);
        return;
      }
      var opening := Open(state, tool, input, opens);
      if opening.Refused? {
        recorder.Refuse();
        return Invalid;
      }
      if answer == NoAnswer {
        outcome := Ask(tool, input, shown, nonce, opens);
        return;
      }
      if answer == NotAnElicitation {
        recorder.Refuse();
        return Invalid;
      }
      outcome := Conclude(tool, input, state, answer, opening.expired, others, consumes, recorder, handler);
    }

    /** Consumes the state an answer came with, and does as the answer says. */
    method Conclude(tool: Tool, input: Input, state: RequestState, answer: Answer, expired: bool,
                    others: map<nat, int>, consumes: int, recorder: ConfirmationRecorder, handler: ToolHandler)
      returns (outcome: Outcome)
      requires Verified(key, state).Some? && answer != NoAnswer && answer != NotAnElicitation
      modifies this`answered, recorder, handler`calls
      ensures outcome.Invalid? || outcome.Answered? || outcome.Ran? || outcome.Unanswerable?
      ensures outcome.Invalid? <==> state.payload.nonce in Kept(others, consumes)
      ensures outcome.Answered? ==> (answer == Accepted(true) ==> expired) && outcome.how == Recorded(answer)
      ensures outcome.Ran? || outcome.Unanswerable? ==>
        && answer == Accepted(true) && !expired
        && Held(tool, input, state.payload.pin) == (if outcome.Ran? then Some(outcome.held) else None)
      ensures answered ==
        if outcome.Invalid? then Kept(others, consumes)
        else Kept(others, consumes)[state.payload.nonce := state.payload.expires]
      ensures recorder.noted == NotedAfter(old(recorder.noted), outcome)
      ensures handler.calls == old(handler.calls) + if outcome.Ran? then [(tool, outcome.held)] else []
      ensures outcome.Ran? ==> outcome.result == handler.answer(tool, outcome.held)
    {
      answered := others;
      var consumed := Consume(state, consumes);
      if !consumed {
        recorder.Refuse();
        return Invalid;
      }
      outcome := Heed(tool, input, state.payload.pin, answer, expired, recorder, handler);
    }

    /** Does as an answer says whose state has been consumed. A refusal stands however late it comes. */
    method Heed(tool: Tool, input: Input, pin: Text, answer: Answer, expired: bool,
                recorder: ConfirmationRecorder, handler: ToolHandler)
      returns (outcome: Outcome)
      requires answer != NoAnswer && answer != NotAnElicitation
      modifies recorder, handler`calls
      ensures outcome.Ran? || outcome.Unanswerable? <==> answer == Accepted(true) && !expired
      ensures outcome.Ran? || outcome.Unanswerable? ==>
        Held(tool, input, pin) == (if outcome.Ran? then Some(outcome.held) else None)
      ensures !outcome.Ran? && !outcome.Unanswerable? ==> outcome == Answered(Recorded(answer))
      ensures recorder.noted == NotedAfter(old(recorder.noted), outcome)
      ensures handler.calls == old(handler.calls) + if outcome.Ran? then [(tool, outcome.held)] else []
      ensures outcome.Ran? ==> outcome.result == handler.answer(tool, outcome.held)
    {
      if answer == Cancelled {
        recorder.Record(ConfirmationCancelled);
        return Answered(WasCancelled);
      }
      if answer != Accepted(true) {
        recorder.Record(ConfirmationDeclined);
        return Answered(WasDeclined);
      }
      if expired {
        return Answered(AcceptedLate);
      }
      recorder.Record(ConfirmationAccepted);
      var held := Held(tool, input, pin);
      if held.None? {
        return Unanswerable;
      }
      var result := handler.Call(tool, held.value);
      return Ran(held.value, result);
    }

    /** Puts the question, unless the pull request has moved past the version the call names. */
    method Ask(tool: Tool, input: Input, shown: Decimal.Int, nonce: nat, now: int) returns (outcome: Outcome)
      ensures outcome.Moved? || outcome.Asked?
      ensures outcome.Moved? <==> Pins(tool) && !VersionMatches(shown, input.version)
      ensures outcome.Asked? ==>
        Verified(key, outcome.question) == Some(Sealed(tool, input, PinOf(tool, shown), nonce, now + TTL))
    {
      if Pins(tool) && !VersionMatches(shown, input.version) {
        return Moved;
      }
      var question := Seal(tool, input, PinOf(tool, shown), nonce, now);
      return Asked(question);
    }
  }

  /** The call gets as far as consuming its state. */
  predicate Reaches(key: nat, answered: map<nat, int>, tool: Tool, input: Input, canConfirm: bool,
                    state: RequestState, answer: Answer, opens: int)
  {
    && canConfirm && answer != NoAnswer && answer != NotAnElicitation && state.Presented?
    && OpeningOf(key, answered, state, tool, input, opens).Opened?
  }

  /** What is noted of a call once it has ended so. */
  function NotedAfter(noted: Noted, outcome: Outcome): Noted {
    match outcome
    case Unavailable => noted.(outcome := Some(ConfirmationUnavailable))
    case Invalid => noted.(refused := true)
    case Answered(WasCancelled) => noted.(outcome := Some(ConfirmationCancelled))
    case Answered(WasDeclined) => noted.(outcome := Some(ConfirmationDeclined))
    case Ran(_, _) => noted.(outcome := Some(ConfirmationAccepted))
    case Unanswerable => noted.(outcome := Some(ConfirmationAccepted))
    case _ => noted
  }

  /** What a confirmation holds the accepted call to. */
  function PinOf(tool: Tool, shown: Decimal.Int): Text {
    if Pins(tool) then Decimal.Itoa(shown) else []
  }

  datatype How = WasCancelled | WasDeclined | AcceptedLate

  /** What becomes of a call: its handler runs, or it ends another way. */
  datatype Outcome =
    | Unavailable
    | Asked(question: RequestState)
    | Moved
    | Invalid
    | Answered(how: How)
    | Unanswerable
    | Ran(held: Input, result: Result)

  function Recorded(answer: Answer): How {
    match answer case Cancelled => WasCancelled case Accepted(true) => AcceptedLate case _ => WasDeclined
  }

  // ----- The protocol: calls that interleave

  /** A call that has opened its state and not consumed it yet. */
  datatype Call = Call(sealed: Sealed, tool: Tool, input: Input, answer: Answer, openedAt: int, expired: bool)

  /** A state that was consumed: by which call, when, and what the handler ran with, if it ran. */
  datatype Consumption = Consumption(call: Call, at: int, ran: Option<Input>)

  /**
   The server's process: its clock, the states it has issued with the version
   each question showed, the nonces it remembers, the calls under way, and
   the states consumed so far, in order.
   */
  datatype Process = Process(
    clock: int, issued: map<Sealed, Decimal.Int>, answered: map<nat, int>,
    calls: map<nat, Call>, consumed: seq<Consumption>)

  /**
   What happens next: time passes; a question is put; a call opens the state
   it carries; or a call that has opened one consumes it.
   */
  datatype Step =
    | Tick(now: int)
    | Question(tool: Tool, input: Input, shown: Decimal.Int, nonce: nat)
    | Opens(call: nat, state: RequestState, tool: Tool, input: Input, answer: Answer)
    | Consumes(call: nat)

  const KEY: nat := 0

  const BEGIN := Process(0, map[], map[], map[], [])

  predicate Fresh(p: Process, nonce: nat) {
    forall sealed :: sealed in p.issued ==> sealed.nonce != nonce
  }

  function Next(p: Process, step: Step): Process {
    match step
    case Tick(now) => if now >= p.clock then p.(clock := now) else p
    case Question(tool, input, shown, nonce) =>
      if !Fresh(p, nonce) || (Pins(tool) && !VersionMatches(shown, input.version)) then p
      else p.(issued := p.issued[Sealed(tool, input, PinOf(tool, shown), nonce, p.clock + TTL) := shown])
    case Opens(call, state, tool, input, answer) =>
      var begun := OpenedCall(p, state, tool, input, answer);
      if call in p.calls || begun.None? then p else p.(calls := p.calls[call := begun.value])
    case Consumes(call) => if call in p.calls then Consumed(p, call) else p
  }

  /** A client has no signatures under the key but those of the states it was given, whatever it puts beside them. */
  predicate Obtainable(p: Process, state: RequestState) {
    state.Presented? && state.signature.key == KEY ==> state.signature.payload in p.issued
  }

  /** An answer that a state is opened for. */
  predicate Usable(answer: Answer) { answer != NoAnswer && answer != NotAnElicitation }

  /** A call that carries an answer, once it has opened the state it came with. */
  function OpenedCall(p: Process, state: RequestState, tool: Tool, input: Input, answer: Answer): Option<Call> {
    if !Usable(answer) || !Obtainable(p, state) || Verified(KEY, state).None? then None
    else
      match OpeningOf(KEY, p.answered, state, tool, input, p.clock)
      case Refused => None
      case Opened(_, expired) => Some(Call(state.payload, tool, input, answer, p.clock, expired))
  }

  function Consumed(p: Process, id: nat): Process
    requires id in p.calls
  {
    var call := p.calls[id];
    var kept := Kept(p.answered, p.clock);
    var q := p.(calls := p.calls - {id}, answered := kept);
    if call.sealed.nonce in kept then q
    else
      var runs := call.answer == Accepted(true) && !call.expired;
      var ran := if runs then Held(call.tool, call.input, call.sealed.pin) else None;
      q.(answered := kept[call.sealed.nonce := call.sealed.expires],
         consumed := p.consumed + [Consumption(call, p.clock, ran)])
  }

  function Run(steps: seq<Step>): Process {
    if steps == [] then BEGIN else Next(Run(steps[..|steps| - 1]), steps[|steps| - 1])
  }

  /** What every run keeps. */
  ghost predicate Sound(p: Process) {
    IssuedSound(p.issued) && CallsSound(p) && ConsumedSound(p) && LaterExpired(p) && Remembered(p)
  }

  /** States differ in their nonces, and each is pinned to the version its question showed. */
  ghost predicate IssuedSound(issued: map<Sealed, Decimal.Int>) {
    && (forall a, b :: a in issued && b in issued && a.nonce == b.nonce ==> a == b)
    && (forall a :: a in issued ==>
          && a.pin == PinOf(a.tool, issued[a])
          && (Pins(a.tool) ==> VersionMatches(issued[a], a.digest.version)))
  }

  ghost predicate CallsSound(p: Process) {
    forall id :: id in p.calls ==> SoundCall(p, p.calls[id])
  }

  ghost predicate ConsumedSound(p: Process) {
    forall i :: 0 <= i < |p.consumed| ==> SoundConsumption(p, p.consumed[i])
  }

  /** A state is consumed again only once it has expired. */
  ghost predicate LaterExpired(p: Process) {
    forall i, j :: 0 <= i < j < |p.consumed| && p.consumed[i].call.sealed == p.consumed[j].call.sealed ==>
      Expired(p.consumed[j].at, p.consumed[j].call.sealed.expires)
  }

  /** Only answered nonces are remembered. */
  ghost predicate Remembered(p: Process) {
    forall nonce :: nonce in p.answered ==>
      exists i :: 0 <= i < |p.consumed| && p.consumed[i].call.sealed.nonce == nonce
  }

  /** The call opened a state issued for it, unanswered then or expired since. */
  ghost predicate SoundCall(p: Process, call: Call) {
    && call.sealed in p.issued && call.sealed.tool == call.tool && call.sealed.digest == call.input
    && call.openedAt <= p.clock && call.expired == Expired(call.openedAt, call.sealed.expires)
  }

  /** The handler ran only for an accepted state opened in time, and the nonce is remembered until the state expires. */
  ghost predicate SoundConsumption(p: Process, c: Consumption) {
    && SoundCall(p, c.call) && c.call.openedAt <= c.at <= p.clock
    && (c.ran.Some? ==>
          && c.call.answer == Accepted(true) && !c.call.expired
          && c.ran == Held(c.call.tool, c.call.input, c.call.sealed.pin))
    && (c.call.sealed.nonce in p.answered ==> p.answered[c.call.sealed.nonce] == c.call.sealed.expires)
    && (c.call.sealed.nonce !in p.answered ==> Expired(p.clock, c.call.sealed.expires))
  }

  lemma NextIsSound(p: Process, step: Step)
    requires Sound(p)
    ensures Sound(Next(p, step))
  {
    match step
    case Tick(_) =>
    case Question(_, _, _, _) => QuestionIsSound(p, step);
    case Opens(_, _, _, _, _) => OpensIsSound(p, step);
    case Consumes(call) => if call in p.calls { ConsumedIsSound(p, call); }
  }

  lemma QuestionIsSound(p: Process, step: Step)
    requires Sound(p) && step.Question?
    ensures Sound(Next(p, step))
  {
    IssuedStaySound(p, step);
    var q := Next(p, step);
    assert forall call :: SoundCall(p, call) ==> SoundCall(q, call);
  }

  lemma IssuedStaySound(p: Process, step: Step)
    requires Sound(p) && step.Question?
    ensures IssuedSound(Next(p, step).issued)
  {
  }

  lemma OpensIsSound(p: Process, step: Step)
    requires Sound(p) && step.Opens?
    ensures Sound(Next(p, step))
  {
  }

  lemma ConsumedIsSound(p: Process, id: nat)
    requires Sound(p) && id in p.calls
    ensures Sound(Consumed(p, id))
  {
    CallsStaySound(p, id);
    ConsumptionsAreSound(p, id);
    LaterIsExpired(p, id);
    StillRemembered(p, id);
  }

  lemma CallsStaySound(p: Process, id: nat)
    requires Sound(p) && id in p.calls
    ensures Consumed(p, id).issued == p.issued && CallsSound(Consumed(p, id))
  {
    var q := Consumed(p, id);
    forall other | other in q.calls ensures SoundCall(q, q.calls[other]) {
      assert SoundCall(p, p.calls[other]);
    }
  }

  lemma ConsumptionsAreSound(p: Process, id: nat)
    requires Sound(p) && id in p.calls
    ensures ConsumedSound(Consumed(p, id))
  {
    var q := Consumed(p, id);
    assert SoundCall(p, p.calls[id]);
    forall i | 0 <= i < |q.consumed| ensures SoundConsumption(q, q.consumed[i]) {
      if i < |p.consumed| {
        EarlierStaysSound(p, id, p.consumed[i]);
      }
    }
  }

  lemma EarlierStaysSound(p: Process, id: nat, c: Consumption)
    requires Sound(p) && id in p.calls && SoundConsumption(p, c)
    ensures SoundConsumption(Consumed(p, id), c)
  {
    assert SoundCall(p, p.calls[id]);
  }

  lemma LaterIsExpired(p: Process, id: nat)
    requires Sound(p) && id in p.calls
    ensures LaterExpired(Consumed(p, id))
  {
    var q, n := Consumed(p, id), |p.consumed|;
    forall i, j | 0 <= i < j < |q.consumed| && q.consumed[i].call.sealed == q.consumed[j].call.sealed
      ensures Expired(q.consumed[j].at, q.consumed[j].call.sealed.expires)
    {
      if j == n {
        assert SoundConsumption(p, p.consumed[i]);
      }
    }
  }

  lemma StillRemembered(p: Process, id: nat)
    requires Sound(p) && id in p.calls
    ensures Remembered(Consumed(p, id))
  {
    var q := Consumed(p, id);
    forall nonce | nonce in q.answered
      ensures exists i :: 0 <= i < |q.consumed| && q.consumed[i].call.sealed.nonce == nonce
    {
      if nonce in p.answered {
        var i :| 0 <= i < |p.consumed| && p.consumed[i].call.sealed.nonce == nonce;
        assert q.consumed[i].call.sealed.nonce == nonce;
      } else {
        assert q.consumed[|p.consumed|].call.sealed.nonce == nonce;
      }
    }
  }

  lemma {:induction false} RunIsSound(steps: seq<Step>)
    ensures Sound(Run(steps))
  {
    if steps != [] {
      RunIsSound(steps[..|steps| - 1]);
      NextIsSound(Run(steps[..|steps| - 1]), steps[|steps| - 1]);
    }
  }

  // ----- What the confirmation promises

  /** The call opened its state in time and consumed it too late. */
  predicate Crossed(c: Consumption) {
    !Expired(c.call.openedAt, c.call.sealed.expires) && Expired(c.at, c.call.sealed.expires)
  }

  /**
   In every run, only the first consumption of a state can have run the
   handler, unless a later call opened the state before it expired and
   consumed it after: an answered state, accepted or refused, runs nothing
   again, although its nonce is forgotten.
   */
  lemma OnlyTheFirstRuns(steps: seq<Step>, i: nat, j: nat)
    requires i < j < |Run(steps).consumed|
    requires Run(steps).consumed[i].call.sealed == Run(steps).consumed[j].call.sealed
    ensures Run(steps).consumed[j].ran.Some? ==> Crossed(Run(steps).consumed[j])
  {
    RunIsSound(steps);
    assert SoundConsumption(Run(steps), Run(steps).consumed[j]);
  }

  /**
   The handler runs only for an accepted state that was opened in time, for the
   tool and the input it was issued for.
   */
  lemma RunsOnlyWhatWasAccepted(steps: seq<Step>, i: nat)
    requires i < |Run(steps).consumed| && Run(steps).consumed[i].ran.Some?
    ensures var c := Run(steps).consumed[i];
      && c.call.sealed in Run(steps).issued && c.call.answer == Accepted(true)
      && !Expired(c.call.openedAt, c.call.sealed.expires)
      && c.call.tool == c.call.sealed.tool && c.call.input == c.call.sealed.digest
      && c.ran.value.arguments == c.call.sealed.digest.arguments
  {
    RunIsSound(steps);
    assert SoundConsumption(Run(steps), Run(steps).consumed[i]);
  }

  /**
   A call that consumes its state runs exactly when it was accepted in time, and
   the state was not consumed before or has expired.
   */
  lemma ConsumingRunsExactly(steps: seq<Step>, id: nat)
    requires id in Run(steps).calls
    ensures var p := Run(steps);
      var call, q := p.calls[id], Consumed(p, id);
      && (|q.consumed| > |p.consumed| <==> !WasConsumed(p, call.sealed) || Expired(p.clock, call.sealed.expires))
      && (|q.consumed| > |p.consumed| ==>
            q.consumed[|p.consumed|].ran ==
              if call.answer == Accepted(true) && !Expired(call.openedAt, call.sealed.expires)
              then Held(call.tool, call.input, call.sealed.pin) else None)
  {
    var p := Run(steps);
    var call := p.calls[id];
    RunIsSound(steps);
    assert SoundCall(p, call);
    if WasConsumed(p, call.sealed) {
      var i :| 0 <= i < |p.consumed| && p.consumed[i].call.sealed == call.sealed;
      assert SoundConsumption(p, p.consumed[i]);
    }
    if call.sealed.nonce in p.answered {
      var i :| 0 <= i < |p.consumed| && p.consumed[i].call.sealed.nonce == call.sealed.nonce;
      assert SoundConsumption(p, p.consumed[i]);
    }
  }

  predicate WasConsumed(p: Process, sealed: Sealed) {
    exists i :: 0 <= i < |p.consumed| && p.consumed[i].call.sealed == sealed
  }

  // ----- What is asked, what opens, and what then runs

  /**
   A question is put whenever the version the call names, if any, is the pull
   request's, or the tool is not held to a version; it expires in ten minutes.
   */
  lemma QuestionIsPut(p: Process, tool: Tool, input: Input, shown: Decimal.Int, nonce: nat)
    requires Fresh(p, nonce)
    ensures var holds := tool in {MergePullRequest, EnableAutoMerge};
      var sealed := Sealed(tool, input, if holds then Decimal.Itoa(shown) else [], nonce, p.clock + 600);
      Next(p, Question(tool, input, shown, nonce))
      == if holds && input.version.Some? && input.version.value != shown then p
         else p.(issued := p.issued[sealed := shown])
  {
  }

  /** What an answer that does not run the tool is told as: a cancellation, a refusal, or an acceptance too late. */
  lemma RefusalsAre()
    ensures Recorded(Cancelled) == WasCancelled && Recorded(Declined) == WasDeclined
    ensures Recorded(Accepted(false)) == WasDeclined && Recorded(Accepted(true)) == AcceptedLate
  {
  }

  /** The state of a question, as the process gives it out. */
  function StateOf(sealed: Sealed): RequestState { Presented(sealed, Signature(KEY, sealed)) }

  /** Whatever a client makes up or changes of a state, it opens for no call. */
  lemma ForgedIsRefused(
    key: nat, answered: map<nat, int>, payload: Sealed, signature: Signature, tool: Tool, input: Input, now: int)
    requires signature.key != key || signature.payload != payload
    ensures OpeningOf(key, answered, Presented(payload, signature), tool, input, now) == Refused
  {
  }

  /**
   A state's nonce has been forgotten: some call consumed a state when this one
   had expired, and this one has not been consumed then or since.
   */
  ghost predicate Forgotten(steps: seq<Step>, sealed: Sealed) {
    exists k :: 0 <= k < |steps| && Sweeps(steps, k, sealed)
  }

  ghost predicate Sweeps(steps: seq<Step>, k: nat, sealed: Sealed)
    requires k < |steps|
  {
    var before := Run(steps[..k]);
    && steps[k].Consumes? && steps[k].call in before.calls && before.clock > sealed.expires
    && forall i :: |before.consumed| <= i < |Run(steps).consumed| ==> Run(steps).consumed[i].call.sealed != sealed
  }

  lemma NonceOfConsumed(p: Process, sealed: Sealed)
    requires Sound(p) && sealed in p.issued
    ensures sealed.nonce in p.answered ==> WasConsumed(p, sealed) && p.answered[sealed.nonce] == sealed.expires
  {
    if sealed.nonce in p.answered {
      var i :| 0 <= i < |p.consumed| && p.consumed[i].call.sealed.nonce == sealed.nonce;
      assert SoundConsumption(p, p.consumed[i]);
    }
  }

  /** The nonces remembered are exactly those of the states that were consumed and not forgotten since. */
  lemma {:induction false} AnsweredExactly(steps: seq<Step>, sealed: Sealed)
    requires sealed in Run(steps).issued
    ensures sealed.nonce in Run(steps).answered <==> WasConsumed(Run(steps), sealed) && !Forgotten(steps, sealed)
    decreases |steps|
  {
    if |steps| > 0 {
      var init, step := steps[..|steps| - 1], steps[|steps| - 1];
      if sealed !in Run(init).issued {
        JustIssued(init, step, sealed);
      } else {
        AnsweredExactly(init, sealed);
        if step.Consumes? && step.call in Run(init).calls {
          SweptByLast(steps, sealed);
          RunRemembers(init, step.call, sealed);
        } else {
          SweptBefore(steps, sealed);
        }
      }
    }
  }

  lemma RunRemembers(steps: seq<Step>, id: nat, sealed: Sealed)
    requires sealed in Run(steps).issued && id in Run(steps).calls
    ensures var p, q := Run(steps), Consumed(Run(steps), id);
      var again := |q.consumed| > |p.consumed| && q.consumed[|p.consumed|].call.sealed == sealed;
      sealed.nonce in q.answered <==> again || (sealed.nonce in p.answered && p.clock <= sealed.expires)
  {
    RunIsSound(steps);
    ConsumeRemembers(Run(steps), id, sealed);
  }

  /** What is remembered of a state once a call has consumed its own. */
  lemma ConsumeRemembers(p: Process, id: nat, sealed: Sealed)
    requires Sound(p) && sealed in p.issued && id in p.calls
    ensures var q := Consumed(p, id);
      var again := |q.consumed| > |p.consumed| && q.consumed[|p.consumed|].call.sealed == sealed;
      sealed.nonce in q.answered <==> again || (sealed.nonce in p.answered && p.clock <= sealed.expires)
  {
    NonceOfConsumed(p, sealed);
    assert SoundCall(p, p.calls[id]);
  }

  /** A state that is issued now was not consumed or answered before. */
  lemma JustIssued(steps: seq<Step>, step: Step, sealed: Sealed)
    requires sealed !in Run(steps).issued && sealed in Next(Run(steps), step).issued
    ensures var q := Next(Run(steps), step); !WasConsumed(q, sealed) && sealed.nonce !in q.answered
  {
    var p := Run(steps);
    RunIsSound(steps);
    assert step.Question? && Next(p, step).consumed == p.consumed && Next(p, step).answered == p.answered;
    assert forall c :: SoundConsumption(p, c) ==> c.call.sealed in p.issued;
  }

  lemma SweptBefore(steps: seq<Step>, sealed: Sealed)
    requires steps != []
    requires var init, step := steps[..|steps| - 1], steps[|steps| - 1];
      !(step.Consumes? && step.call in Run(init).calls)
    ensures Forgotten(steps, sealed) <==> Forgotten(steps[..|steps| - 1], sealed)
  {
    var init := steps[..|steps| - 1];
    assert Run(steps).consumed == Run(init).consumed;
    forall k | 0 <= k < |init| ensures Sweeps(steps, k, sealed) <==> Sweeps(init, k, sealed) {
      assert steps[..k] == init[..k];
    }
  }

  /** A step that consumes sweeps out what has expired, all but the state it consumes. */
  lemma SweptByLast(steps: seq<Step>, sealed: Sealed)
    requires steps != []
    requires var init, step := steps[..|steps| - 1], steps[|steps| - 1];
      step.Consumes? && step.call in Run(init).calls
    ensures var init, p, q := steps[..|steps| - 1], Run(steps[..|steps| - 1]), Run(steps);
      var again := |q.consumed| > |p.consumed| && q.consumed[|p.consumed|].call.sealed == sealed;
      && (WasConsumed(q, sealed) <==> WasConsumed(p, sealed) || again)
      && (Forgotten(steps, sealed) <==> !again && (Forgotten(init, sealed) || p.clock > sealed.expires))
  {
    var init, p, q := steps[..|steps| - 1], Run(steps[..|steps| - 1]), Run(steps);
    var again := |q.consumed| > |p.consumed| && q.consumed[|p.consumed|].call.sealed == sealed;
    assert p.consumed <= q.consumed && |q.consumed| <= |p.consumed| + 1;
    forall k | 0 <= k < |init| ensures Sweeps(steps, k, sealed) <==> !again && Sweeps(init, k, sealed) {
      assert steps[..k] == init[..k];
      ConsumedGrows(init, k);
    }
    assert Sweeps(steps, |init|, sealed) <==> !again && p.clock > sealed.expires;
  }

  lemma {:induction false} ConsumedGrows(steps: seq<Step>, k: nat)
    requires k <= |steps|
    ensures |Run(steps[..k]).consumed| <= |Run(steps).consumed|
    decreases |steps|
  {
    if k < |steps| {
      var init := steps[..|steps| - 1];
      assert init[..k] == steps[..k];
      ConsumedGrows(init, k);
    } else {
      assert steps[..k] == steps;
    }
  }

  /**
   A state the process gave out is opened by a call of its tool and input with
   an answer exactly when the call is new and the state was never consumed,
   or has been forgotten.
   */
  lemma OpensExactly(steps: seq<Step>, sealed: Sealed, id: nat, answer: Answer)
    requires sealed in Run(steps).issued
    ensures var p := Run(steps);
      var q := Next(p, Opens(id, StateOf(sealed), sealed.tool, sealed.digest, answer));
      if id !in p.calls && answer != NoAnswer && answer != NotAnElicitation
        && (!WasConsumed(p, sealed) || Forgotten(steps, sealed))
      then q == p.(calls := p.calls[id :=
             Call(sealed, sealed.tool, sealed.digest, answer, p.clock, p.clock > sealed.expires)])
      else q == p
  {
    AnsweredExactly(steps, sealed);
  }

  /** A call that has opened its state stays as it is until it consumes it. */
  lemma {:induction false} CallStays(p: Process, between: seq<Step>, id: nat)
    requires id in p.calls && Consumes(id) !in between
    ensures id in RunOn(p, between).calls && RunOn(p, between).calls[id] == p.calls[id]
    decreases |between|
  {
    if between != [] {
      CallStays(p, between[..|between| - 1], id);
    }
  }

  function RunOn(p: Process, steps: seq<Step>): Process {
    if steps == [] then p else Next(RunOn(p, steps[..|steps| - 1]), steps[|steps| - 1])
  }

  lemma {:induction false} RunGoesOn(steps: seq<Step>, more: seq<Step>)
    ensures Run(steps + more) == RunOn(Run(steps), more)
    decreases |more|
  {
    if more == [] {
      assert steps + more == steps;
    } else {
      RunGoesOn(steps, more[..|more| - 1]);
      assert (steps + more)[..|steps + more| - 1] == steps + more[..|more| - 1];
    }
  }

  /**
   Whoever accepts a question before it expires, for a state that was not
   consumed, has the tool run: with the input asked about, held to the version
   shown. Whatever other calls do meanwhile, unless they consume the same state.
   */
  lemma AcceptedInTimeRuns(steps: seq<Step>, sealed: Sealed, id: nat, between: seq<Step>)
    requires var p := Run(steps);
      && sealed in p.issued && !WasConsumed(p, sealed) && p.clock <= sealed.expires && id !in p.calls
    requires Consumes(id) !in between
    ensures var p := Run(steps);
      var opens := Opens(id, StateOf(sealed), sealed.tool, sealed.digest, Accepted(true));
      var before := Run(steps + [opens] + between);
      !WasConsumed(before, sealed) ==>
        && |Next(before, Consumes(id)).consumed| == |before.consumed| + 1
        && var ran := Next(before, Consumes(id)).consumed[|before.consumed|].ran;
        && ran.Some? && ran.value.arguments == sealed.digest.arguments
        && ran.value.version ==
             if sealed.tool in {MergePullRequest, EnableAutoMerge} then Some(p.issued[sealed])
             else sealed.digest.version
  {
    var p := Run(steps);
    var opens := Opens(id, StateOf(sealed), sealed.tool, sealed.digest, Accepted(true));
    OpensExactly(steps, sealed, id, Accepted(true));
    assert (steps + [opens])[..|steps|] == steps;
    var begun := Run(steps + [opens]);
    assert id in begun.calls;
    RunGoesOn(steps + [opens], between);
    CallStays(begun, between, id);
    ConsumingRunsExactly(steps + [opens] + between, id);
    RunIsSound(steps);
    PinIsRead(p, sealed);
  }

  /** The pin of a state that was given out can be read, and holds a call to the version shown. */
  lemma PinIsRead(p: Process, sealed: Sealed)
    requires Sound(p) && sealed in p.issued
    ensures var held := Held(sealed.tool, sealed.digest, sealed.pin);
      && held.Some? && held.value.arguments == sealed.digest.arguments
      && held.value.version == if Pins(sealed.tool) then Some(p.issued[sealed]) else sealed.digest.version
  {
    Decimal.AtoiReadsItoa(p.issued[sealed]);
  }

  /**
   Two calls that open one state in time run the handler twice when the
   second consumes it after it expired: the first's nonce is forgotten then.
   */
  lemma CrossingRunsTwice()
    ensures var steps := TwoAcceptances();
      var consumed := Run(steps).consumed;
      && |consumed| == 2 && consumed[0].call.sealed == consumed[1].call.sealed
      && consumed[0].ran.Some? && consumed[1].ran.Some?
  {
    var steps := TwoAcceptances();
    var sealed := Sealed(CreateTag, Input([], None), [], 7, TTL);
    var call := Call(sealed, sealed.tool, sealed.digest, Accepted(true), 0, false);
    var open := BEGIN.(issued := map[sealed := 1], calls := map[1 := call, 2 := call]);
    BothOpen(sealed, call);
    FirstConsumes(open, call);
    SecondConsumes(Next(open, Consumes(1)), call);
    RunThreeMore(steps);
  }

  lemma RunThreeMore(steps: seq<Step>)
    requires |steps| == 6
    ensures Run(steps) == Next(Next(Next(Run(steps[..3]), steps[3]), steps[4]), steps[5])
  {
    RunNext(steps, 3);
    RunNext(steps, 4);
    RunNext(steps, 5);
    assert steps[..6] == steps;
  }

  lemma FirstConsumes(p: Process, call: Call)
    requires call.sealed == Sealed(CreateTag, Input([], None), [], 7, TTL) && call.tool == CreateTag
    requires call.answer == Accepted(true) && !call.expired && call.input == call.sealed.digest
    requires p.clock == 0 && p.answered == map[] && p.calls == map[1 := call, 2 := call] && p.consumed == []
    ensures var q := Next(p, Consumes(1));
      && q.clock == 0 && q.answered == map[7 := TTL] && q.calls == map[2 := call]
      && q.consumed == [Consumption(call, 0, Some(call.input))]
  {
    assert p.calls - {1} == map[2 := call];
  }

  lemma SecondConsumes(p: Process, call: Call)
    requires call.sealed == Sealed(CreateTag, Input([], None), [], 7, TTL) && call.tool == CreateTag
    requires call.answer == Accepted(true) && !call.expired && call.input == call.sealed.digest
    requires p.clock == 0 && p.answered == map[7 := TTL] && p.calls == map[2 := call] && |p.consumed| == 1
    ensures var q := Next(Next(p, Tick(TTL + 1)), Consumes(2));
      q.consumed == p.consumed + [Consumption(call, TTL + 1, Some(call.input))]
  {
    assert Kept(p.answered, TTL + 1) == map[];
  }

  lemma BothOpen(sealed: Sealed, call: Call)
    requires sealed == Sealed(CreateTag, Input([], None), [], 7, TTL)
    requires call == Call(sealed, sealed.tool, sealed.digest, Accepted(true), 0, false)
    ensures Run(TwoAcceptances()[..3]) == BEGIN.(issued := map[sealed := 1], calls := map[1 := call, 2 := call])
  {
    var steps := TwoAcceptances();
    var asked := BEGIN.(issued := map[sealed := 1]);
    RunNext(steps, 0);
    assert Run(steps[..1]) == asked;
    RunNext(steps, 1);
    OpensInTime(asked, 1, call);
    assert Run(steps[..2]) == asked.(calls := map[1 := call]);
    RunNext(steps, 2);
    OpensInTime(asked.(calls := map[1 := call]), 2, call);
  }

  lemma OpensInTime(p: Process, id: nat, call: Call)
    requires call.sealed in p.issued && p.answered == map[] && p.clock == 0 == call.openedAt && id !in p.calls
    requires call == Call(call.sealed, call.sealed.tool, call.sealed.digest, Accepted(true), 0, false)
    requires call.sealed.expires >= 0
    ensures Next(p, Opens(id, StateOf(call.sealed), call.tool, call.input, call.answer))
      == p.(calls := p.calls[id := call])
  {
  }

  function TwoAcceptances(): seq<Step> {
    var tool, input := CreateTag, Input([], None);
    var sealed := Sealed(tool, input, [], 7, TTL);
    var opens := (call: nat) => Opens(call, StateOf(sealed), tool, input, Accepted(true));
    [Question(tool, input, 1, 7), opens(1), opens(2), Consumes(1), Tick(TTL + 1), Consumes(2)]
  }

  lemma RunNext(steps: seq<Step>, n: nat)
    requires n < |steps|
    ensures Run(steps[..n + 1]) == Next(Run(steps[..n]), steps[n])
    ensures Run(steps[..0]) == BEGIN
  {
    assert steps[..n + 1][..n] == steps[..n];
  }

  // ----- The methods are the protocol's steps

  /** A process that the seal remembers the answered nonces of. */
  ghost predicate Keeps(seal: ConfirmationSeal, p: Process)
    reads seal
  {
    seal.key == KEY && seal.answered == p.answered
  }

  /**
   A call that carries an answer is, in the process, a call that opens its
   state, and after whatever other calls do in between consumes it: it is
   answered, or runs its tool, exactly when the process's call does, with the
   same input, and both then remember the same nonces.
   */
  method ConfirmedInProcess(seal: ConfirmationSeal, tool: Tool, input: Input, state: RequestState, answer: Answer,
                            shown: Decimal.Int, nonce: nat, recorder: ConfirmationRecorder, handler: ToolHandler,
                            id: nat, p: Process, between: Process)
    returns (outcome: Outcome, after: Process)
    requires Keeps(seal, p) && id !in p.calls && answer != NoAnswer
    requires Obtainable(p, state)
    requires var begun := OpenedCall(p, state, tool, input, answer);
      begun.Some? ==> id in between.calls && between.calls[id] == begun.value
    modifies seal`answered, recorder, handler`calls
    ensures OpenedCall(p, state, tool, input, answer).None? ==> after == p && outcome.Invalid?
    ensures OpenedCall(p, state, tool, input, answer).Some? ==>
      && after == Next(between, Consumes(id))
      && (outcome.Invalid? <==> |after.consumed| == |between.consumed|)
      && (!outcome.Invalid? ==>
            && |after.consumed| == |between.consumed| + 1
            && after.consumed[|between.consumed|].ran == if outcome.Ran? then Some(outcome.held) else None)
    ensures Keeps(seal, after)
    ensures handler.calls == old(handler.calls) + if outcome.Ran? then [(tool, outcome.held)] else []
  {
    outcome := seal.Confirmed(tool, input, true, state, answer, p.clock, between.answered, between.clock, shown, nonce,
                              recorder, handler);
    after := if OpenedCall(p, state, tool, input, answer).Some? then Next(between, Consumes(id)) else p;
  }

  /**
   A call that carries no answer, with no state or one that opens, is the
   process putting its question: the state it is answered with is the one the
   process issues, under a nonce no state had. A pull request that has moved,
   or a state that does not open, issues nothing.
   */
  method AskedInProcess(seal: ConfirmationSeal, tool: Tool, input: Input, state: RequestState,
                        shown: Decimal.Int, nonce: nat, recorder: ConfirmationRecorder, handler: ToolHandler,
                        p: Process)
    returns (outcome: Outcome, after: Process)
    requires Keeps(seal, p) && Fresh(p, nonce)
    modifies seal`answered, recorder, handler`calls
    ensures outcome.Invalid? <==> state != NoState && OpeningOf(KEY, p.answered, state, tool, input, p.clock).Refused?
    ensures outcome.Invalid? || outcome.Moved? || outcome.Asked?
    ensures after == if outcome.Invalid? then p else Next(p, Question(tool, input, shown, nonce))
    ensures !outcome.Asked? ==> after == p
    ensures outcome.Asked? ==>
      && Verified(KEY, outcome.question).Some?
      && var sealed := Verified(KEY, outcome.question).value;
      && outcome.question == StateOf(sealed) && sealed.tool == tool && sealed.digest == input
      && sealed.nonce == nonce && sealed.expires == p.clock + 600
      && sealed !in p.issued && after.issued == p.issued[sealed := shown]
    ensures Keeps(seal, after) && handler.calls == old(handler.calls)
  {
    outcome := seal.Confirmed(tool, input, true, state, NoAnswer, p.clock, p.answered, p.clock, shown, nonce,
                              recorder, handler);
    after := if outcome.Invalid? then p else Next(p, Question(tool, input, shown, nonce));
  }

  /**
   A merge or auto-merge that runs is held to the version its confirmation
   showed, whether or not the call named one.
   */
  lemma MergesTheVersionShown(steps: seq<Step>, i: nat)
    requires i < |Run(steps).consumed|
    requires Run(steps).consumed[i].ran.Some?
    requires Run(steps).consumed[i].call.tool in {MergePullRequest, EnableAutoMerge}
    ensures var c := Run(steps).consumed[i];
      c.call.sealed in Run(steps).issued && c.ran.value.version == Some(Run(steps).issued[c.call.sealed])
  {
    RunIsSound(steps);
    var c := Run(steps).consumed[i];
    assert SoundConsumption(Run(steps), c);
    Decimal.AtoiReadsItoa(Run(steps).issued[c.call.sealed]);
  }
}
