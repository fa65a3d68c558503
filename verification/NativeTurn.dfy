/** A streamed native tool turn of the worker: parsing, batch validation and one recovery (agents/node/src/worker.rs). */
module NativeTurns {
  import opened Wrappers
  import opened Text
  import opened NativeStreams

  /** What a JSON parser makes of the text of a call's arguments. */
  datatype Shape = Unparsable | NotObject | Object

  /** One line of the provider's event stream. */
  datatype Event =
    | Skipped                                                  // not a data line, or an empty one
    | Done                                                     // data: [DONE]
    | ReadFailed
    | BadJson
    | ProviderError
    | Chunk(finish: Option<string>, delta: Option<Delta>)

  datatype TurnError =
    | StreamReadFailed | StreamBadJson | StreamReportedError | StreamDelta(cause: StreamError)
    | EndedBeforeTerminal
    | ExceededGenerationLimit | MissingIdOrName | IncompleteArguments | ArgumentsNotObject | PatchTooLarge
    | NoRecoveryCall | FinishedWithoutCall
    | RequestFailed
    | RecoveryFailed(retry: TurnError)

  datatype Envelope = Envelope(message: AssistantMessage, finish: string)

  const PATCH_LIMIT: nat := 16384

  // --------------------------------------------------------------- validation

  predicate EditsFiles(name: string) {
    var lower := Lower(name);
    Contains(lower, "edit") || Contains(lower, "replace") || Contains(lower, "patch")
  }

  function CallError(json: string -> Shape, call: Call): Option<TurnError> {
    if call.id == "" || call.name == "" then Some(MissingIdOrName)
    else if json(call.arguments) == Unparsable then Some(IncompleteArguments)
    else if json(call.arguments) == NotObject then Some(ArgumentsNotObject)
    else if |call.arguments| > PATCH_LIMIT && EditsFiles(call.name) then Some(PatchTooLarge)
    else None
  }

  function FirstCallError(json: string -> Shape, calls: seq<Call>): Option<TurnError> {
    if calls == [] then None
    else if CallError(json, calls[0]).Some? then CallError(json, calls[0])
    else FirstCallError(json, calls[1..])
  }

  function Validate(json: string -> Shape, calls: seq<Call>, reason: Option<string>): Option<TurnError> {
    if calls == [] then None
    else if reason == Some("length") then Some(ExceededGenerationLimit)
    else FirstCallError(json, calls)
  }

  predicate Executable(json: string -> Shape, call: Call) {
    && call.id != "" && call.name != ""
    && json(call.arguments) == Object
    && (|call.arguments| <= PATCH_LIMIT || !EditsFiles(call.name))
  }

  /** A batch passes exactly when each of its calls can be executed and the model was not cut off. */
  lemma {:induction false} ValidateAcceptsExactly(json: string -> Shape, calls: seq<Call>, reason: Option<string>)
    ensures Validate(json, calls, reason).None?
       <==> calls == [] || (reason != Some("length") && forall i | 0 <= i < |calls| :: Executable(json, calls[i]))
  {
    FirstErrorExactly(json, calls);
  }

  lemma {:induction false} FirstErrorExactly(json: string -> Shape, calls: seq<Call>)
    ensures FirstCallError(json, calls).None? <==> forall i | 0 <= i < |calls| :: Executable(json, calls[i])
  {
    if calls != [] {
      FirstErrorExactly(json, calls[1..]);
      assert CallError(json, calls[0]).None? <==> Executable(json, calls[0]);
      assert forall i | 1 <= i < |calls| :: calls[i] == calls[1..][i - 1];
    }
  }

  // ------------------------------------------------------------------ parsing

  datatype Stop = SawDone | Failed(error: TurnError)

  datatype Parse = Parse(assembly: Assembly, pending: seq<Delta>, reason: Option<string>, output: string,
                         sent: seq<Delta>, stop: Option<Stop>)

  /** What a turn leaves behind: the prose so far, the deltas sent so far and its answer. */
  datatype Turn = Turn(output: string, sent: seq<Delta>, result: Result<Envelope, TurnError>)

  /** Only `content` and `tool_calls` pass; a delta that is not an object has neither. */
  function Public(raw: Delta): Delta {
    if raw.NotDelta? then EMPTY_DELTA else raw
  }

  function ToolDelta(d: Delta): seq<Delta> {
    if d.Delta? && !d.toolCalls.NoCalls? then [Delta(Absent, d.toolCalls)] else []
  }

  function ProseDelta(d: Delta): seq<Delta> {
    if d.Delta? && d.content.Text? then [Delta(d.content, NoCalls)] else []
  }

  function ParseDelta(p: Parse, raw: Delta, retry: bool): Parse {
    var d := Public(raw);
    var pushed := Pushed(p.assembly, d);
    if pushed.failure.Some? then p.(assembly := pushed.to, stop := Some(Failed(StreamDelta(pushed.failure.value))))
    else
      var q := p.(assembly := pushed.to, pending := p.pending + ToolDelta(d));
      if retry then q else q.(output := q.output + d.content.Added(), sent := q.sent + ProseDelta(d))
  }

  function ParseEvent(p: Parse, e: Event, retry: bool): Parse {
    match e
    case Skipped => p
    case Done => p.(stop := Some(SawDone))
    case ReadFailed => p.(stop := Some(Failed(StreamReadFailed)))
    case BadJson => p.(stop := Some(Failed(StreamBadJson)))
    case ProviderError => p.(stop := Some(Failed(StreamReportedError)))
    case Chunk(finish, delta) =>
      var q := p.(reason := if finish.Some? then finish else p.reason);
      if delta.None? then q else ParseDelta(q, delta.value, retry)
  }

  function ParseEvents(p: Parse, events: seq<Event>, retry: bool): Parse {
    if events == [] then p
    else
      var before := ParseEvents(p, events[..|events| - 1], retry);
      if before.stop.Some? then before else ParseEvent(before, events[|events| - 1], retry)
  }

  function StartParse(output: string, sent: seq<Delta>): Parse {
    Parse(EMPTY_ASSEMBLY, [], None, output, sent, None)
  }

  /** After the last event: validate the whole batch, then release its fragments, then answer. */
  function FinishParse(json: string -> Shape, p: Parse, retry: bool): Turn {
    if p.stop.Some? && p.stop.value.Failed? then Turn(p.output, p.sent, Err(p.stop.value.error))
    else if p.stop.None? || p.reason.None? then Turn(p.output, p.sent, Err(EndedBeforeTerminal))
    else
      var calls := MessageOf(p.assembly).calls;
      var invalid := Validate(json, calls, p.reason);
      if invalid.Some? then Turn(p.output, p.sent, Err(invalid.value))
      else if retry && calls == [] then Turn(p.output, p.sent, Err(NoRecoveryCall))
      else Turn(p.output, p.sent + p.pending,
                if p.reason.value == "tool_calls" && calls == [] then Err(FinishedWithoutCall)
                else Ok(Envelope(AssistantMessage(p.output, calls), p.reason.value)))
  }

  function ParsedTurn(json: string -> Shape, output: string, sent: seq<Delta>, events: seq<Event>, retry: bool): Turn {
    FinishParse(json, ParseEvents(StartParse(output, sent), events, retry), retry)
  }

  lemma {:induction false} ParseStops(p: Parse, events: seq<Event>, retry: bool, k: nat)
    requires k <= |events| && ParseEvents(p, events[..k], retry).stop.Some?
    ensures ParseEvents(p, events, retry) == ParseEvents(p, events[..k], retry)
    decreases |events|
  {
    if k == |events| {
      assert events[..k] == events;
    } else {
      assert events[..|events| - 1][..k] == events[..k];
      ParseStops(p, events[..|events| - 1], retry, k);
    }
  }

  // ----------------------------------------------------------------- attempts

  /** What one request to the runtime comes back with. */
  datatype Reply = Unreachable | Streamed(events: seq<Event>)

  predicate Recoverable(e: TurnError) {
    e.IncompleteArguments? || e.ExceededGenerationLimit? || e.PatchTooLarge?
  }

  function AttemptTurn(json: string -> Shape, output: string, sent: seq<Delta>, reply: Reply, retry: bool): Turn {
    if reply.Unreachable? then Turn(output, sent, Err(RequestFailed))
    else ParsedTurn(json, output, sent, reply.events, retry)
  }

  function FirstTurn(json: string -> Shape, first: Reply): Turn {
    AttemptTurn(json, "", [], first, false)
  }

  predicate Retries(json: string -> Shape, messages: Option<seq<string>>, first: Reply) {
    var t := FirstTurn(json, first);
    t.result.Err? && Recoverable(t.result.error) && messages.Some?
  }

  function WholeTurn(json: string -> Shape, messages: Option<seq<string>>, first: Reply, second: Reply): Turn {
    var t := FirstTurn(json, first);
    if !Retries(json, messages, first) then t
    else
      var u := AttemptTurn(json, t.output, t.sent, second, true);
      if u.result.Err? then u.(result := Err(RecoveryFailed(u.result.error))) else u
  }

  /** The worker's side of one native tool turn: the relay channel, the prose buffer and the requests made. */
  class NativeTurn {
    const json: string -> Shape
    var output: string
    var sent: seq<Delta>
    var requests: seq<Option<seq<string>>>

    constructor (json: string -> Shape)
      ensures this.json == json && output == "" && sent == [] && requests == []
    {
      this.json := json;
      output, sent, requests := "", [], [];
    }

    method ParseStream(events: seq<Event>, retry: bool) returns (r: Result<Envelope, TurnError>)
      modifies this`output, this`sent
      ensures Turn(output, sent, r) == ParsedTurn(json, old(output), old(sent), events, retry)
    {
      hide Pushed, Validate, CallsFrom;
      var assembled := new NativeStream();
      var pending: seq<Delta>, reason: Option<string>, done := [], None, false;
      ghost var start := StartParse(output, sent);
      var k := 0;
      while k < |events| && !done
        invariant 0 <= k <= |events| && fresh(assembled)
        invariant Parse(assembled.State(), pending, reason, output, sent, if done then Some(SawDone) else None)
               == ParseEvents(start, events[..k], retry)
        decreases |events| - k
      {
        assert events[..k + 1][..k] == events[..k];
        if ParseEvents(start, events[..k + 1], retry).stop.Some? {
          ParseStops(start, events, retry, k + 1);
        }
        match events[k] {
          case Skipped =>
          case Done => done := true;
          case ReadFailed => return Err(StreamReadFailed);
          case BadJson => return Err(StreamBadJson);
          case ProviderError => return Err(StreamReportedError);
          case Chunk(finish, raw) =>
            if finish.Some? {
              reason := finish;
            }
            if raw.Some? {
              var delta := Public(raw.value);
              var failure := assembled.Push(delta);
              if failure.Some? {
                return Err(StreamDelta(failure.value));
              }
              if !delta.toolCalls.NoCalls? {
                pending := pending + [Delta(Absent, delta.toolCalls)];
              }
              if !retry && delta.content.Text? {
                output := output + delta.content.text;
                sent := sent + [Delta(delta.content, NoCalls)];
              }
            }
        }
        k := k + 1;
      }
      if done {
        ParseStops(start, events, retry, k);
      } else {
        assert events[..k] == events;
      }
      if !done || reason.None? {
        return Err(EndedBeforeTerminal);
      }
      var message := assembled.Message();
      var invalid := Validate(json, message.calls, reason);
      if invalid.Some? {
        return Err(invalid.value);
      }
      if retry && message.calls == [] {
        return Err(NoRecoveryCall);
      }
      sent := sent + pending;
      if reason.value == "tool_calls" && message.calls == [] {
        return Err(FinishedWithoutCall);
      }
      return Ok(Envelope(message.(content := output), reason.value));
    }

    /** At most one retry, only of a rejected batch, and only by adding one message to the conversation. */
    method RunAttempts(messages: Option<seq<string>>, note: string, first: Reply, second: Reply)
      returns (r: Result<Envelope, TurnError>)
      requires output == "" && sent == [] && requests == []
      modifies this
      ensures Turn(output, sent, r) == WholeTurn(json, messages, first, second)
      ensures requests == if Retries(json, messages, first) then [messages, Some(messages.value + [note])] else [messages]
    {
      hide AttemptTurn;
      r := Attempt(messages, first, false);
      if r.Err? && Recoverable(r.error) {
        if messages.None? {
          return;
        }
        r := Attempt(Some(messages.value + [note]), second, true);
        if r.Err? {
          r := Err(RecoveryFailed(r.error));
        }
      }
    }

    method Attempt(messages: Option<seq<string>>, reply: Reply, retry: bool) returns (r: Result<Envelope, TurnError>)
      modifies this
      ensures Turn(output, sent, r) == AttemptTurn(json, old(output), old(sent), reply, retry)
      ensures requests == old(requests) + [messages]
    {
      hide ParsedTurn;
      requests := requests + [messages];
      match reply {
        case Unreachable => r := Err(RequestFailed);
        case Streamed(events) => r := ParseStream(events, retry);
      }
    }
  }
}
