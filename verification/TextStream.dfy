/** Live relay of ordinary text with a held-back tail (`parse_openai_stream`, agents/node/src/worker.rs). */
module TextStreams {
  import opened Wrappers
  import opened Text

  const TAIL_HOLD: nat := 32
  const BURST: nat := 128
  const TRUNCATED := "[truncated: hit the generation limit] "

  /** One line of the event stream; `due` says that 30 ms have passed since the last emission when it is read. */
  datatype Event =
    | Skipped
    | Done
    | ReadFailed
    | BadJson
    | RuntimeError
    | Chunk(finish: Option<string>, content: Option<string>, due: bool)

  datatype TextError = StreamReadFailed | StreamBadJson | StreamReportedError | NoContent | EndedBeforeTerminal

  datatype Stop = SawDone | Failed(error: TextError)

  datatype Stream = Stream(raw: string, emitted: nat, finish: string, sent: seq<string>, stop: Option<Stop>)

  const FRESH := Stream("", 0, "", [], None)

  function SafeChars(raw: string): nat {
    var n := |TrimStart(raw)|;
    if n > TAIL_HOLD then n - TAIL_HOLD else 0
  }

  function AddContent(s: Stream, delta: string, due: bool): Stream {
    var raw := s.raw + delta;
    var text, safe := TrimStart(raw), SafeChars(raw);
    if s.emitted < safe && (due || safe - s.emitted >= BURST)
    then s.(raw := raw, emitted := safe, sent := s.sent + [text[s.emitted..safe]])
    else s.(raw := raw)
  }

  function ReadEvent(s: Stream, e: Event): Stream {
    match e
    case Skipped => s
    case Done => s.(stop := Some(SawDone))
    case ReadFailed => s.(stop := Some(Failed(StreamReadFailed)))
    case BadJson => s.(stop := Some(Failed(StreamBadJson)))
    case RuntimeError => s.(stop := Some(Failed(StreamReportedError)))
    case Chunk(finish, content, due) =>
      var t := s.(finish := finish.GetOr(s.finish));
      if content.None? then t else AddContent(t, content.value, due)
  }

  function ReadEvents(s: Stream, events: seq<Event>): Stream {
    if events == [] then s
    else
      var before := ReadEvents(s, events[..|events| - 1]);
      if before.stop.Some? then before else ReadEvent(before, events[|events| - 1])
  }

  datatype Reply = Reply(sent: seq<string>, result: Result<string, TextError>)

  function Finish(s: Stream): Reply {
    if s.stop.Some? && s.stop.value.Failed? then Reply(s.sent, Err(s.stop.value.error))
    else
      var content := Trim(s.raw);
      if content == "" then Reply(s.sent, Err(NoContent))
      else if s.stop.None? && s.finish == "" then Reply(s.sent, Err(EndedBeforeTerminal))
      else Reply(if |content| > s.emitted then s.sent + [content[s.emitted..]] else s.sent,
                 Ok(if s.finish == "length" then TRUNCATED + content else content))
  }

  function Parsed(events: seq<Event>): Reply {
    Finish(ReadEvents(FRESH, events))
  }

  lemma {:induction false} ReadingStops(s: Stream, events: seq<Event>, k: nat)
    requires k <= |events| && ReadEvents(s, events[..k]).stop.Some?
    ensures ReadEvents(s, events) == ReadEvents(s, events[..k])
    decreases |events|
  {
    if k == |events| {
      assert events[..k] == events;
    } else {
      assert events[..|events| - 1][..k] == events[..k];
      ReadingStops(s, events[..|events| - 1], k);
    }
  }

  class TextRelay {
    var sent: seq<string>

    constructor ()
      ensures sent == []
    {
      sent := [];
    }

    method ParseStream(events: seq<Event>) returns (r: Result<string, TextError>)
      requires sent == []
      modifies this
      ensures Reply(sent, r) == Parsed(events)
    {
      var raw, emitted: nat, finish, done := "", 0, "", false;
      var k := 0;
      while k < |events| && !done
        invariant 0 <= k <= |events|
        invariant Stream(raw, emitted, finish, sent, if done then Some(SawDone) else None) == ReadEvents(FRESH, events[..k])
        decreases |events| - k
      {
        assert events[..k + 1][..k] == events[..k];
        if ReadEvents(FRESH, events[..k + 1]).stop.Some? {
          ReadingStops(FRESH, events, k + 1);
        }
        match events[k] {
          case Skipped =>
          case Done => done := true;
          case ReadFailed => return Err(StreamReadFailed);
          case BadJson => return Err(StreamBadJson);
          case RuntimeError => return Err(StreamReportedError);
          case Chunk(reason, delta, due) =>
            if reason.Some? {
              finish := reason.value;
            }
            if delta.Some? {
              raw := raw + delta.value;
              var normalized := TrimStart(raw);
              var safe := if |normalized| > TAIL_HOLD then |normalized| - TAIL_HOLD else 0;
              var pending := if safe > emitted then safe - emitted else 0;
              if pending > 0 && (due || pending >= BURST) {
                sent := sent + [normalized[emitted..safe]];
                emitted := safe;
              }
            }
        }
        k := k + 1;
      }
      if done {
        ReadingStops(FRESH, events, k);
      } else {
        assert events[..k] == events;
      }
      var content := Trim(raw);
      if content == "" {
        return Err(NoContent);
      }
      if !done && finish == "" {
        return Err(EndedBeforeTerminal);
      }
      if |content| > emitted {
        sent := sent + [content[emitted..]];
      }
      return Ok(if finish == "length" then TRUNCATED + content else content);
    }
  }

  // ------------------------------------------------------------------------- what clients see

  /** What has gone out is a prefix of the left-trimmed input, and the tail of 32 characters has not. */
  ghost predicate HoldsTail(s: Stream) {
    && s.emitted <= |TrimStart(s.raw)|
    && Concat(s.sent) == TrimStart(s.raw)[..s.emitted]
    && (s.emitted > 0 ==> s.emitted + TAIL_HOLD <= |TrimStart(s.raw)|)
  }

  lemma AddContentHoldsTail(s: Stream, delta: string, due: bool)
    requires HoldsTail(s)
    ensures HoldsTail(AddContent(s, delta, due))
  {
    var raw := s.raw + delta;
    var was, text, safe := TrimStart(s.raw), TrimStart(raw), SafeChars(raw);
    TrimStartAppend(s.raw, delta);
    assert text[..s.emitted] == was[..s.emitted];
    if AddContent(s, delta, due).sent != s.sent {
      ConcatMore(s.sent, text[s.emitted..safe]);
      assert text[..s.emitted] + text[s.emitted..safe] == text[..safe];
    }
  }

  /** Whatever the chunks and whatever the timing, and also when the stream fails. */
  lemma {:induction false} EveryStreamHoldsTail(events: seq<Event>)
    ensures HoldsTail(ReadEvents(FRESH, events))
  {
    if events != [] {
      var before := ReadEvents(FRESH, events[..|events| - 1]);
      EveryStreamHoldsTail(events[..|events| - 1]);
      var last := events[|events| - 1];
      if before.stop.None? && last.Chunk? && last.content.Some? {
        AddContentHoldsTail(before.(finish := last.finish.GetOr(before.finish)), last.content.value, last.due);
      }
    }
  }

  /** The whitespace at the end of the input, which the answer does not have. */
  function Trailing(raw: string): nat {
    |TrimStart(raw)| - |Trim(raw)|
  }

  /** A failed stream has shown no more than a prefix, and never its last 32 characters. */
  lemma FailureShowsPrefix(events: seq<Event>)
    requires Parsed(events).result.Err?
    ensures Concat(Parsed(events).sent) <= TrimStart(ReadEvents(FRESH, events).raw)
    ensures Parsed(events).sent != [] && Concat(Parsed(events).sent) != "" ==>
              |Concat(Parsed(events).sent)| + TAIL_HOLD <= |TrimStart(ReadEvents(FRESH, events).raw)|
  {
    EveryStreamHoldsTail(events);
  }

  /** At the end the client has the larger of what had gone out and the answer. */
  function Shown(s: Stream): string
    requires s.emitted <= |TrimStart(s.raw)|
  {
    if |Trim(s.raw)| > s.emitted then Trim(s.raw) else TrimStart(s.raw)[..s.emitted]
  }

  lemma FinishShows(s: Stream)
    requires HoldsTail(s) && Finish(s).result.Ok?
    ensures Concat(Finish(s).sent) == Shown(s)
  {
    var content := Trim(s.raw);
    if |content| > s.emitted {
      ConcatMore(s.sent, content[s.emitted..]);
      assert TrimStart(s.raw)[..s.emitted] == content[..s.emitted];
      assert content[..s.emitted] + content[s.emitted..] == content;
    }
  }

  lemma ShownIsAnswerAndSpace(s: Stream)
    requires HoldsTail(s)
    ensures Trim(s.raw) <= Shown(s) <= TrimStart(s.raw) && AllWhitespace(Shown(s)[|Trim(s.raw)|..])
    ensures Shown(s) == Trim(s.raw) <==> s.emitted <= |Trim(s.raw)|
  {
    TrimEndDrops(TrimStart(s.raw));
  }

  /** On success the client has the whole answer; anything more is whitespace, and there is none behind a short tail. */
  lemma SuccessShowsAnswer(events: seq<Event>)
    requires Parsed(events).result.Ok?
    ensures Trim(ReadEvents(FRESH, events).raw) <= Concat(Parsed(events).sent) <= TrimStart(ReadEvents(FRESH, events).raw)
    ensures AllWhitespace(Concat(Parsed(events).sent)[|Trim(ReadEvents(FRESH, events).raw)|..])
    ensures Concat(Parsed(events).sent) == Trim(ReadEvents(FRESH, events).raw)
       <==> ReadEvents(FRESH, events).emitted <= |Trim(ReadEvents(FRESH, events).raw)|
    ensures Trailing(ReadEvents(FRESH, events).raw) <= TAIL_HOLD ==>
              Concat(Parsed(events).sent) == Trim(ReadEvents(FRESH, events).raw)
  {
    EveryStreamHoldsTail(events);
    FinishShows(ReadEvents(FRESH, events));
    ShownIsAnswerAndSpace(ReadEvents(FRESH, events));
  }

  // ------------------------------------------------------------- the answer, told from the events alone

  predicate Ends(e: Event) {
    e.Done? || e.ReadFailed? || e.BadJson? || e.RuntimeError?
  }

  /** The position of the first event that ends the stream, or the number of events. */
  function EndAt(events: seq<Event>): (k: nat)
    ensures k <= |events| && (k < |events| ==> Ends(events[k])) && forall i | 0 <= i < k :: !Ends(events[i])
  {
    if events == [] || Ends(events[0]) then 0 else 1 + EndAt(events[1..])
  }

  /** All chunk contents, one after the other. */
  function TextOf(events: seq<Event>): string {
    if events == [] then ""
    else
      var last := events[|events| - 1];
      TextOf(events[..|events| - 1]) + if last.Chunk? then last.content.GetOr("") else ""
  }

  /** The finish reason given last, or nothing. */
  function FinishOf(events: seq<Event>): string {
    if events == [] then ""
    else
      var last := events[|events| - 1];
      if last.Chunk? && last.finish.Some? then last.finish.value else FinishOf(events[..|events| - 1])
  }

  /** What was read: everything before the end. */
  function InputOf(events: seq<Event>): string {
    TextOf(events[..EndAt(events)])
  }

  lemma {:induction false} UnendedReads(events: seq<Event>)
    requires forall i | 0 <= i < |events| :: !Ends(events[i])
    ensures var s := ReadEvents(FRESH, events);
            s.raw == TextOf(events) && s.finish == FinishOf(events) && s.stop.None?
  {
    if events != [] {
      var n := |events| - 1;
      UnendedReads(events[..n]);
      var before := ReadEvents(FRESH, events[..n]);
      assert !Ends(events[n]) && before.raw + "" == before.raw;
      hide ReadEvents, TextOf, FinishOf, TrimStart, SafeChars;
      ReadsLast(events);
    }
  }

  lemma ReadsLast(events: seq<Event>)
    requires events != []
    ensures var n := |events| - 1;
            var before := ReadEvents(FRESH, events[..n]);
            && ReadEvents(FRESH, events) == (if before.stop.Some? then before else ReadEvent(before, events[n]))
            && TextOf(events) == TextOf(events[..n]) + (if events[n].Chunk? then events[n].content.GetOr("") else "")
            && FinishOf(events) == if events[n].Chunk? && events[n].finish.Some? then events[n].finish.value else FinishOf(events[..n])
  {
  }

  /** The stream has read the contents of all chunks before its end, and stops for the reason that ended it. */
  lemma {:induction false} ReadsInput(events: seq<Event>)
    ensures var s, k := ReadEvents(FRESH, events), EndAt(events);
            && s.raw == InputOf(events) && s.finish == FinishOf(events[..k])
            && s.stop == if k == |events| then None
                         else if events[k].Done? then Some(SawDone)
                         else Some(Failed(if events[k].ReadFailed? then StreamReadFailed
                                          else if events[k].BadJson? then StreamBadJson else StreamReportedError))
  {
    var k := EndAt(events);
    UnendedReads(events[..k]);
    if k == |events| {
      assert events[..k] == events;
    } else {
      assert events[..k + 1][..k] == events[..k];
      ReadsLast(events[..k + 1]);
      hide ReadEvents, TextOf, FinishOf;
      ReadingStops(FRESH, events, k + 1);
    }
  }

  /**
   * What a stream answers: the error that ended it, or that nothing but whitespace came, or that neither a terminal event
   * nor a finish reason did; otherwise its trimmed text, marked when the last reason is that the limit was hit.
   */
  lemma {:induction false} AnswersExactly(events: seq<Event>)
    ensures var k, text, finish := EndAt(events), Trim(InputOf(events)), FinishOf(events[..EndAt(events)]);
            Parsed(events).result
            == if k < |events| && events[k].ReadFailed? then Err(StreamReadFailed)
               else if k < |events| && events[k].BadJson? then Err(StreamBadJson)
               else if k < |events| && events[k].RuntimeError? then Err(StreamReportedError)
               else if text == "" then Err(NoContent)
               else if k == |events| && finish == "" then Err(EndedBeforeTerminal)
               else if finish == "length" then Ok("[truncated: hit the generation limit] " + text)
               else Ok(text)
  {
    ReadsInput(events);
    hide ReadEvents, InputOf, FinishOf, Trim;
  }

  // ------------------------------------------------------------------------------ how far it lags

  lemma AddContentLags(s: Stream, delta: string, due: bool)
    requires HoldsTail(s)
    ensures |TrimStart(s.raw + delta)| - AddContent(s, delta, due).emitted < 32 + 128
    ensures due ==> |TrimStart(s.raw + delta)| - AddContent(s, delta, due).emitted <= 32
    ensures !due && AddContent(s, delta, due).sent != s.sent ==>
              |AddContent(s, delta, due).sent| == |s.sent| + 1 && |AddContent(s, delta, due).sent[|s.sent|]| >= 128
  {
    TrimStartAppend(s.raw, delta);
    hide TrimStart, Concat;
  }

  /** After every event fewer than 160 characters are left unsent, whatever the timing. */
  lemma {:induction false} LagIsBounded(events: seq<Event>)
    ensures |TrimStart(ReadEvents(FRESH, events).raw)| - ReadEvents(FRESH, events).emitted < 32 + 128
  {
    if events != [] {
      var n := |events| - 1;
      LagIsBounded(events[..n]);
      EveryStreamHoldsTail(events[..n]);
      var before := ReadEvents(FRESH, events[..n]);
      if before.stop.None? && events[n].Chunk? && events[n].content.Some? {
        AddContentLags(before.(finish := events[n].finish.GetOr(before.finish)), events[n].content.value, events[n].due);
      }
      hide TrimStart, HoldsTail, AddContent;
    }
  }

  /** When the timer is never due, nothing goes out before the end in pieces of less than 128 characters. */
  lemma {:induction false} UndueSendsBursts(events: seq<Event>)
    requires forall i | 0 <= i < |events| :: events[i].Chunk? ==> !events[i].due
    ensures forall i | 0 <= i < |ReadEvents(FRESH, events).sent| :: |ReadEvents(FRESH, events).sent[i]| >= 128
  {
    if events != [] {
      var n := |events| - 1;
      UndueSendsBursts(events[..n]);
      EveryStreamHoldsTail(events[..n]);
      var before := ReadEvents(FRESH, events[..n]);
      if before.stop.None? && events[n].Chunk? && events[n].content.Some? {
        var s := before.(finish := events[n].finish.GetOr(before.finish));
        AddContentLags(s, events[n].content.value, events[n].due);
        assert s.sent <= AddContent(s, events[n].content.value, events[n].due).sent;
      }
      hide TrimStart, HoldsTail, AddContent;
    }
  }

  // --------------------------------------------------------------------------------- timing

  /** The same chunks at other times. */
  function Retimed(events: seq<Event>, due: seq<bool>): seq<Event>
    requires |due| == |events|
  {
    seq(|events|, i requires 0 <= i < |events| => if events[i].Chunk? then events[i].(due := due[i]) else events[i])
  }

  lemma RetimedLast(events: seq<Event>, due: seq<bool>)
    requires |due| == |events| > 0
    ensures Retimed(events, due)[..|events| - 1] == Retimed(events[..|events| - 1], due[..|events| - 1])
  {
  }

  /** Timing moves text between emissions; it does not change the answer. */
  lemma {:induction false} TimingKeepsAnswer(events: seq<Event>, due: seq<bool>)
    requires |due| == |events|
    ensures ReadEvents(FRESH, Retimed(events, due)).raw == ReadEvents(FRESH, events).raw
    ensures ReadEvents(FRESH, Retimed(events, due)).finish == ReadEvents(FRESH, events).finish
    ensures ReadEvents(FRESH, Retimed(events, due)).stop == ReadEvents(FRESH, events).stop
  {
    if events != [] {
      RetimedLast(events, due);
      TimingKeepsAnswer(events[..|events| - 1], due[..|events| - 1]);
    }
  }

  lemma DueSendsAllButTail(s: Stream, delta: string)
    requires s.emitted == SafeChars(s.raw)
    ensures AddContent(s, delta, true).emitted == SafeChars(s.raw + delta)
  {
    TrimStartAppend(s.raw, delta);
  }

  /** When every check finds the timer due, all but the tail has gone out after each chunk. */
  lemma {:induction false} AlwaysDueSendsAllButTail(events: seq<Event>, due: seq<bool>)
    requires |due| == |events| && forall i | 0 <= i < |due| :: due[i]
    ensures ReadEvents(FRESH, Retimed(events, due)).emitted == SafeChars(ReadEvents(FRESH, Retimed(events, due)).raw)
  {
    if events != [] {
      var n := |events| - 1;
      RetimedLast(events, due);
      AlwaysDueSendsAllButTail(events[..n], due[..n]);
      var before := ReadEvents(FRESH, Retimed(events[..n], due[..n]));
      if events[n].Chunk? && events[n].content.Some? {
        DueSendsAllButTail(before.(finish := events[n].finish.GetOr(before.finish)), events[n].content.value);
      }
    }
  }

  /**
   * The relayed text equals the answer under every timing exactly when the input ends in at most 32 whitespace
   * characters.
   */
  lemma {:induction false} TailHoldExactly(events: seq<Event>)
    requires Parsed(events).result.Ok?
    ensures (forall due: seq<bool> | |due| == |events| ::
               Concat(Parsed(Retimed(events, due)).sent) == Trim(ReadEvents(FRESH, events).raw))
       <==> Trailing(ReadEvents(FRESH, events).raw) <= TAIL_HOLD
  {
    var raw := ReadEvents(FRESH, events).raw;
    forall due: seq<bool> | |due| == |events|
      ensures Parsed(Retimed(events, due)).result.Ok? && ReadEvents(FRESH, Retimed(events, due)).raw == raw
      ensures Trailing(raw) <= TAIL_HOLD ==> Concat(Parsed(Retimed(events, due)).sent) == Trim(raw)
    {
      TimingKeepsAnswer(events, due);
      SuccessShowsAnswer(Retimed(events, due));
    }
    if Trailing(raw) > TAIL_HOLD {
      var due := seq(|events|, _ => true);
      AlwaysDueSendsAllButTail(events, due);
      SuccessShowsAnswer(Retimed(events, due));
      assert Concat(Parsed(Retimed(events, due)).sent) != Trim(raw);
    }
  }

  /** One chunk, `x` and 33 spaces, when the timer is due: a space has been relayed that the answer does not have. */
  lemma LongTailShowsSpace(raw: string, events: seq<Event>)
    requires raw == "x" + seq(TAIL_HOLD + 1, _ => ' ') && events == [Chunk(None, Some(raw), true), Done]
    ensures Parsed(events).result == Ok("x") && Concat(Parsed(events).sent) == "x "
  {
    TailedText(raw);
    hide TrimStart, TrimEnd, Trim;
    var first, none := events[..1], events[..0];
    assert first[..0] == none && first[0] == events[0];
    assert ReadEvents(FRESH, none) == FRESH && "" + raw == raw && FRESH.sent + ["x "] == ["x "];
    var read := Stream(raw, 2, "", ["x "], None);
    assert ReadEvents(FRESH, first) == read;
    assert ReadEvents(FRESH, events) == read.(stop := Some(SawDone));
    ConcatMore(FRESH.sent, "x ");
    assert Concat(FRESH.sent) == "";
  }

  lemma TailedText(raw: string)
    requires raw == "x" + seq(TAIL_HOLD + 1, _ => ' ')
    ensures TrimStart(raw) == raw && Trim(raw) == "x" && raw[0..2] == "x " && |raw| == TAIL_HOLD + 2
  {
    assert raw[0] == 'x' && forall i | 0 < i < |raw| :: raw[i] == ' ';
    TrimEndDrops(raw);
    var t := TrimEnd(raw);
    assert forall i | 0 <= i < |raw| - |t| :: raw[|t|..][i] == raw[|t| + i];
    assert !IsWhitespace(raw[0]);
    assert |t| == 1;
  }
}
