/** When a native tool turn answers, when it is retried and when it fails, told from the provider's events alone. */
module TurnAnswers {
  import opened Wrappers
  import opened Text
  import opened NativeStreams
  import opened RemainderAlgebra
  import opened NativeTurns
  import opened TurnDelivery

  // ---------------------------------------------------------------------------- what deltas assemble to

  /** A delta that assembles: text or nothing for content, and well-formed fragments below index 128. */
  ghost predicate IsSound(d: Delta) {
    && d.Delta? && !d.content.NotText? && !d.toolCalls.NotCalls?
    && (d.toolCalls.Calls? ==> forall k | 0 <= k < |d.toolCalls.fragments| :: IsWhole(d.toolCalls.fragments[k]))
  }

  predicate IsWhole(f: Fragment) {
    f.index.Some? && f.index.value < 128 && !f.id.NotText? && !f.name.NotText? && !f.arguments.NotText?
  }

  ghost predicate AllSound(ds: seq<Delta>) {
    forall k | 0 <= k < |ds| :: IsSound(ds[k])
  }

  function ContentOf(ds: seq<Delta>): string {
    if ds == [] then ""
    else
      var last := ds[|ds| - 1];
      ContentOf(ds[..|ds| - 1]) + if last.Delta? then last.content.Added() else ""
  }

  function FragmentsOf(ds: seq<Delta>): seq<Fragment> {
    if ds == [] then []
    else
      var last := ds[|ds| - 1];
      FragmentsOf(ds[..|ds| - 1]) + if last.Delta? && last.toolCalls.Calls? then last.toolCalls.fragments else []
  }

  /** Deltas assemble exactly when each is sound, to their texts and to what their fragments, taken together, push. */
  lemma {:induction false} PushAllIs(s: Assembly, ds: seq<Delta>)
    ensures PushAll(s, ds).failure.None? <==> AllSound(ds)
    ensures PushAll(s, ds).failure.None? ==>
              && PushAll(s, ds).to.content == s.content + ContentOf(ds)
              && PushFragments(s.calls, FragmentsOf(ds)) == Step(PushAll(s, ds).to.calls, None)
  {
    hide PushFragments, Pushed, PushAll, IsSound, AllSound, ContentOf, FragmentsOf;
    if |ds| == 0 {
      NothingPushed(s, ds);
    } else {
      var most, last := ds[..|ds| - 1], ds[|ds| - 1];
      PushAllIs(s, most);
      SoundLast(ds);
      PushAllUnfolds(s, ds);
      if PushAll(s, most).failure.None? {
        PushedIs(PushAll(s, most).to, last);
        if IsSound(last) {
          OneMore(s.content, ds);
          if last.toolCalls.Calls? {
            PushFragmentsAppend(s.calls, FragmentsOf(most), last.toolCalls.fragments);
          }
        }
      }
    }
  }

  lemma SoundLast(ds: seq<Delta>)
    requires ds != []
    ensures AllSound(ds) <==> AllSound(ds[..|ds| - 1]) && IsSound(ds[|ds| - 1])
    ensures IsSound(ds[|ds| - 1]) ==> ds[|ds| - 1].Delta?
  {
    var most := ds[..|ds| - 1];
    assert forall k | 0 <= k < |most| :: most[k] == ds[k];
  }

  lemma PushAllUnfolds(s: Assembly, ds: seq<Delta>)
    requires ds != []
    ensures var before := PushAll(s, ds[..|ds| - 1]);
            PushAll(s, ds) == if before.failure.Some? then before else Pushed(before.to, ds[|ds| - 1])
  {
  }

  lemma NothingPushed(s: Assembly, ds: seq<Delta>)
    requires |ds| == 0
    ensures PushAll(s, ds) == Step(s, None) && ContentOf(ds) == "" && FragmentsOf(ds) == []
    ensures PushFragments(s.calls, FragmentsOf(ds)) == Step(s.calls, None) && s.content + "" == s.content && AllSound(ds)
  {
  }

  lemma OneMore(before: string, ds: seq<Delta>)
    requires ds != []
    ensures var most, last := ds[..|ds| - 1], ds[|ds| - 1];
            && (last.Delta? ==> before + ContentOf(ds) == (before + ContentOf(most)) + last.content.Added())
            && (last.Delta? && !last.toolCalls.Calls? ==> FragmentsOf(ds) == FragmentsOf(most))
            && (last.Delta? && last.toolCalls.Calls? ==> FragmentsOf(ds) == FragmentsOf(most) + last.toolCalls.fragments)
  {
  }

  lemma PushedIs(s: Assembly, d: Delta)
    ensures Pushed(s, d).failure.None? <==> IsSound(d)
    ensures IsSound(d) ==> Pushed(s, d).to.content == s.content + d.content.Added()
    ensures IsSound(d) && d.toolCalls.Calls? ==> PushFragments(s.calls, d.toolCalls.fragments) == Step(Pushed(s, d).to.calls, None)
    ensures IsSound(d) && !d.toolCalls.Calls? ==> Pushed(s, d).to.calls == s.calls
  {
    if d.Delta? && d.toolCalls.Calls? {
      PushSucceedsExactly(s.calls, d.toolCalls.fragments);
    }
    hide PushFragments;
  }

  /** The held indices from `i` on, in order. */
  function HeldIndices(calls: map<nat, Call>, i: nat): (indices: seq<nat>)
    ensures forall k | 0 <= k < |indices| :: i <= indices[k] < 128 && indices[k] in calls
    decreases |calls|, 128 - i
  {
    if i >= 128 then [] else (if i in calls then [i] else []) + HeldIndices(calls, i + 1)
  }

  lemma {:induction false} HeldIncrease(calls: map<nat, Call>, i: nat)
    ensures forall k, l | 0 <= k < l < |HeldIndices(calls, i)| :: HeldIndices(calls, i)[k] < HeldIndices(calls, i)[l]
    decreases 128 - i
  {
    if i < 128 {
      HeldIncrease(calls, i + 1);
    }
  }

  lemma {:induction false} HeldComplete(calls: map<nat, Call>, i: nat, j: nat) returns (k: nat)
    requires i <= j < 128 && j in calls
    ensures k < |HeldIndices(calls, i)| && HeldIndices(calls, i)[k] == j
    decreases 128 - i
  {
    if i == j {
      k := 0;
    } else {
      k := HeldComplete(calls, i + 1, j);
      if i in calls {
        k := k + 1;
      }
    }
  }

  lemma {:induction false} HeldListed(calls: map<nat, Call>, i: nat)
    ensures |HeldIndices(calls, i)| == |CallsFrom(calls, i)|
    ensures forall k | 0 <= k < |HeldIndices(calls, i)| :: CallsFrom(calls, i)[k] == calls[HeldIndices(calls, i)[k]]
    decreases 128 - i
  {
    if i < 128 {
      HeldListed(calls, i + 1);
    }
  }

  /**
   * The calls that sound deltas assemble to: one for each index that any fragment names, in index order, each the
   * concatenation of what the fragments of that index carry.
   */
  lemma {:induction false} CallsAreGathered(ds: seq<Delta>) returns (indices: seq<nat>)
    requires AllSound(ds)
    ensures var calls := MessageOf(PushAll(EMPTY_ASSEMBLY, ds).to).calls;
            && |indices| == |calls|
            && (forall k | 0 <= k < |indices| :: calls[k] == Gathered(FragmentsOf(ds), indices[k]))
            && (forall k, l | 0 <= k < l < |indices| :: indices[k] < indices[l])
            && (forall j: nat :: j in indices <==> Mentions(FragmentsOf(ds), j))
    ensures MessageOf(PushAll(EMPTY_ASSEMBLY, ds).to).content == ContentOf(ds)
  {
    hide PushAll, CallsFrom, HeldIndices, PushFragments, FragmentsOf, ContentOf, AllSound, Gathered, Mentions;
    PushAllIs(EMPTY_ASSEMBLY, ds);
    var calls, fs := PushAll(EMPTY_ASSEMBLY, ds).to.calls, FragmentsOf(ds);
    PushKeepsBounded(EMPTY_ASSEMBLY.calls, fs);
    var first := 0;
    indices := HeldIndices(calls, first);
    HeldIncrease(calls, first);
    HeldListed(calls, first);
    assert "" + ContentOf(ds) == ContentOf(ds);
    forall j: nat
      ensures j in indices <==> Mentions(fs, j)
      ensures Held(calls, j) == Gathered(fs, j)
    {
      PushGathers(EMPTY_ASSEMBLY.calls, fs, j);
      FromNothing(Gathered(fs, j));
      if j in calls {
        var k := HeldComplete(calls, first, j);
      }
    }
  }

  lemma FromNothing(call: Call)
    ensures Joined(EMPTY_CALL, call) == call
  {
  }

  // -------------------------------------------------------------------------------- reading the events

  /** The finish reason given last. */
  function LastReason(events: seq<Event>): Option<string> {
    if events == [] then None
    else
      var last := events[|events| - 1];
      if last.Chunk? && last.finish.Some? then last.finish else LastReason(events[..|events| - 1])
  }

  predicate IsFault(e: Event) {
    e.ReadFailed? || e.BadJson? || e.ProviderError?
  }

  /** Nothing up to the terminal event fails, and every delta of it assembles. */
  ghost predicate IsReadable(events: seq<Event>) {
    && (forall k | 0 <= k < |Heard(events)| :: !IsFault(Heard(events)[k]))
    && AllSound(Deltas(Heard(events)))
  }

  /** The events bring a whole message: readable, with a terminal event and some finish reason. */
  ghost predicate IsWholeMessage(events: seq<Event>) {
    IsReadable(events) && DoneAt(events) < |events| && LastReason(Heard(events)).Some?
  }

  /** The calls that the events before the terminal one assemble to. */
  function CallsOf(events: seq<Event>): seq<Call> {
    MessageOf(PushAll(EMPTY_ASSEMBLY, Deltas(Heard(events))).to).calls
  }

  lemma HeardMore(events: seq<Event>)
    requires events != []
    ensures var most, last := events[..|events| - 1], events[|events| - 1];
            && Heard(events) == (if DoneAt(most) < |most| || last.Done? then Heard(most) else events)
            && (DoneAt(events) < |events| <==> DoneAt(most) < |most| || last.Done?)
            && (DoneAt(most) == |most| ==> Heard(most) == most)
  {
  }

  lemma ReadableMore(events: seq<Event>)
    requires events != [] && DoneAt(events[..|events| - 1]) == |events| - 1 && !events[|events| - 1].Done?
    ensures var most, last := events[..|events| - 1], events[|events| - 1];
            && (IsReadable(events) <==> IsReadable(most) && !IsFault(last) && IsSound(DeltaOf(last)))
            && LastReason(Heard(events)) == if last.Chunk? && last.finish.Some? then last.finish else LastReason(Heard(most))
  {
    var most, last := events[..|events| - 1], events[|events| - 1];
    HeardMore(events);
    DeltasLast(events);
    SoundLast(Deltas(events));
    hide Heard, AllSound, IsSound, Deltas, DeltaOf;
    assert forall k | 0 <= k < |most| :: events[k] == most[k];
  }

  predicate IsStreamError(e: TurnError) {
    e.StreamReadFailed? || e.StreamBadJson? || e.StreamReportedError? || e.StreamDelta?
  }

  lemma EventParses(p: Parse, e: Event, retry: bool)
    requires p.stop.None? && !e.Done?
    ensures var q := ParseEvent(p, e, retry);
            && (q.stop.None? <==> !IsFault(e) && IsSound(DeltaOf(e)))
            && (q.stop.Some? ==> q.stop.value.Failed? && IsStreamError(q.stop.value.error))
            && q.reason == if e.Chunk? && e.finish.Some? then e.finish else p.reason
  {
    PushedIs(p.assembly, DeltaOf(e));
    hide Pushed, IsSound;
    assert IsSound(EMPTY_DELTA) by {
      EmptyIsSound(EMPTY_DELTA);
    }
  }

  lemma EmptyIsSound(d: Delta)
    requires d == EMPTY_DELTA
    ensures IsSound(d)
  {
  }

  lemma ParsesUnfolds(p: Parse, events: seq<Event>, retry: bool)
    requires events != []
    ensures var before := ParseEvents(p, events[..|events| - 1], retry);
            ParseEvents(p, events, retry) == if before.stop.Some? then before else ParseEvent(before, events[|events| - 1], retry)
  {
  }

  ghost predicate ReadsAs(p: Parse, events: seq<Event>) {
    && (!IsReadable(events) <==> p.stop.Some? && p.stop.value.Failed?)
    && (p.stop.Some? && p.stop.value.Failed? ==> IsStreamError(p.stop.value.error))
    && (IsReadable(events) ==> (p.stop.Some? <==> DoneAt(events) < |events|) && p.reason == LastReason(Heard(events)))
  }

  lemma ReadsMore(before: Parse, p: Parse, events: seq<Event>, retry: bool)
    requires events != [] && ReadsAs(before, events[..|events| - 1])
    requires p == if before.stop.Some? then before else ParseEvent(before, events[|events| - 1], retry)
    ensures ReadsAs(p, events)
  {
    var most, last := events[..|events| - 1], events[|events| - 1];
    HeardMore(events);
    if DoneAt(most) == |most| && !last.Done? {
      ReadableMore(events);
      hide Heard, DoneAt, IsReadable, IsSound, ParseEvent;
      if before.stop.None? {
        EventParses(before, last, retry);
      }
    } else {
      hide Heard, DoneAt, IsFault, AllSound;
    }
  }

  /** The parser fails exactly on what is not readable, never in a way to be retried, and otherwise knows the last reason. */
  lemma {:induction false} ParsesTo(p: Parse, events: seq<Event>, retry: bool)
    requires p.stop.None? && p.reason.None?
    ensures ReadsAs(ParseEvents(p, events, retry), events)
  {
    if |events| == 0 {
      NothingRead(events);
      assert ParseEvents(p, events, retry) == p;
    } else {
      ParsesTo(p, events[..|events| - 1], retry);
      ParsesUnfolds(p, events, retry);
      hide ParseEvents, ReadsAs;
      ReadsMore(ParseEvents(p, events[..|events| - 1], retry), ParseEvents(p, events, retry), events, retry);
    }
  }

  lemma NothingRead(events: seq<Event>)
    requires |events| == 0
    ensures IsReadable(events) && DoneAt(events) == |events| && LastReason(Heard(events)).None?
  {
  }

  // --------------------------------------------------------------------------------- when it answers

  /** A call that may be executed: an id, a name, a JSON object, and no oversized arguments for an editing tool. */
  ghost predicate MayExecute(json: string -> Shape, call: Call) {
    call.id != "" && call.name != "" && json(call.arguments) == Object && !IsOversized(call)
  }

  ghost predicate IsOversized(call: Call) {
    && |call.arguments| > 16384
    && (Contains(Lower(call.name), "edit") || Contains(Lower(call.name), "replace") || Contains(Lower(call.name), "patch"))
  }

  /** The first call that may not be executed is one that a fresh attempt may mend. */
  ghost predicate IsMendable(json: string -> Shape, calls: seq<Call>) {
    exists i | 0 <= i < |calls| ::
      && (forall j | 0 <= j < i :: MayExecute(json, calls[j]))
      && calls[i].id != "" && calls[i].name != ""
      && (json(calls[i].arguments) == Unparsable || (json(calls[i].arguments) == Object && IsOversized(calls[i])))
  }

  ghost predicate MayAnswer(json: string -> Shape, events: seq<Event>, retry: bool) {
    && IsWholeMessage(events)
    && var calls, reason := CallsOf(events), LastReason(Heard(events)).value;
    && (calls == [] || (reason != "length" && forall i | 0 <= i < |calls| :: MayExecute(json, calls[i])))
    && (calls == [] ==> !retry && reason != "tool_calls")
  }

  /** A whole message with calls that was cut off, or whose batch is mendable. */
  ghost predicate IsSpoiled(json: string -> Shape, events: seq<Event>) {
    && IsWholeMessage(events) && CallsOf(events) != []
    && (LastReason(Heard(events)).value == "length" || IsMendable(json, CallsOf(events)))
  }

  lemma MayExecuteIs(json: string -> Shape, call: Call)
    ensures MayExecute(json, call) <==> Executable(json, call)
    ensures CallError(json, call).None? <==> MayExecute(json, call)
    ensures CallError(json, call).Some? && Recoverable(CallError(json, call).value) <==>
              && call.id != "" && call.name != ""
              && (json(call.arguments) == Unparsable || (json(call.arguments) == Object && IsOversized(call)))
  {
    hide Contains, Lower;
  }

  predicate IsCallError(e: TurnError) {
    e.MissingIdOrName? || e.IncompleteArguments? || e.ArgumentsNotObject? || e.PatchTooLarge?
  }

  lemma {:induction false} MendableIs(json: string -> Shape, calls: seq<Call>)
    ensures FirstCallError(json, calls).Some? && Recoverable(FirstCallError(json, calls).value) <==> IsMendable(json, calls)
    ensures FirstCallError(json, calls).None? <==> forall i | 0 <= i < |calls| :: MayExecute(json, calls[i])
    ensures FirstCallError(json, calls).Some? ==> IsCallError(FirstCallError(json, calls).value)
  {
    hide MayExecute, IsOversized, CallError;
    if calls != [] {
      MayExecuteIs(json, calls[0]);
      CallErrorKind(json, calls[0]);
      MendableIs(json, calls[1..]);
      assert forall i | 1 <= i < |calls| :: calls[i] == calls[1..][i - 1];
      if MayExecute(json, calls[0]) {
        MendableLater(json, calls);
      } else if IsMendable(json, calls) {
        var i :| 0 <= i < |calls| && (forall j | 0 <= j < i :: MayExecute(json, calls[j]))
                 && calls[i].id != "" && calls[i].name != ""
                 && (json(calls[i].arguments) == Unparsable || (json(calls[i].arguments) == Object && IsOversized(calls[i])));
        assert i == 0;
      }
    }
  }

  lemma CallErrorKind(json: string -> Shape, call: Call)
    ensures CallError(json, call).Some? ==> IsCallError(CallError(json, call).value)
  {
  }

  lemma MendableLater(json: string -> Shape, calls: seq<Call>)
    requires calls != [] && MayExecute(json, calls[0])
    ensures IsMendable(json, calls) <==> IsMendable(json, calls[1..])
  {
    MayExecuteIs(json, calls[0]);
    hide IsOversized;
    if IsMendable(json, calls) {
      var i :| 0 <= i < |calls| && (forall j | 0 <= j < i :: MayExecute(json, calls[j]))
               && calls[i].id != "" && calls[i].name != ""
               && (json(calls[i].arguments) == Unparsable || (json(calls[i].arguments) == Object && IsOversized(calls[i])));
      assert i > 0 && calls[1..][i - 1] == calls[i];
      assert forall j | 0 <= j < i - 1 :: calls[1..][j] == calls[j + 1];
    }
    if IsMendable(json, calls[1..]) {
      var i :| 0 <= i < |calls[1..]| && (forall j | 0 <= j < i :: MayExecute(json, calls[1..][j]))
               && calls[1..][i].id != "" && calls[1..][i].name != ""
               && (json(calls[1..][i].arguments) == Unparsable || (json(calls[1..][i].arguments) == Object && IsOversized(calls[1..][i])));
      forall j | 0 <= j < i + 1
        ensures MayExecute(json, calls[j])
      {
        assert j > 0 ==> calls[j] == calls[1..][j - 1];
      }
      assert calls[i + 1] == calls[1..][i];
    }
  }

  /** What the end of an attempt makes of a readable stream. */
  lemma FinishAnswers(json: string -> Shape, p: Parse, calls: seq<Call>, retry: bool)
    requires !(p.stop.Some? && p.stop.value.Failed?) && calls == MessageOf(p.assembly).calls
    ensures var t := FinishParse(json, p, retry);
            var ended := p.stop.Some? && p.reason.Some?;
            var passes := calls == [] || (p.reason != Some("length") && forall i | 0 <= i < |calls| :: MayExecute(json, calls[i]));
            && (t.result.Ok? <==> ended && passes && (calls == [] ==> !retry && p.reason != Some("tool_calls")))
            && (t.result.Ok? ==>
                  t.result.value.finish == p.reason.value && t.result.value.message == AssistantMessage(p.output, calls))
            && (t.result.Err? && Recoverable(t.result.error) <==>
                  ended && calls != [] && (p.reason == Some("length") || IsMendable(json, calls)))
            && (t.result.Err? ==> !IsStreamError(t.result.error))
            && (t.result == Err(EndedBeforeTerminal) <==> !ended)
            && (t.result == Err(NoRecoveryCall) <==> ended && calls == [] && retry)
            && (t.result == Err(FinishedWithoutCall) <==> ended && calls == [] && !retry && p.reason == Some("tool_calls"))
  {
    MendableIs(json, calls);
    hide MayExecute, IsMendable, FirstCallError, CallsFrom;
  }

  /**
   * When one attempt answers, and with what: the events bring a whole message whose batch is empty or may be executed and
   * was not cut off, and there is a call where one is owed. The finish is the last reason given.
   */
  lemma {:induction false} AttemptAnswersExactly(json: string -> Shape, output: string, sent: seq<Delta>, events: seq<Event>, retry: bool)
    ensures var t := ParsedTurn(json, output, sent, events, retry);
            && (t.result.Ok? <==> MayAnswer(json, events, retry))
            && (t.result.Ok? ==>
                  && t.result.value.finish == LastReason(Heard(events)).value
                  && t.result.value.message
                  == AssistantMessage(if retry then output else output + ProseText(Heard(events)), CallsOf(events)))
            && (t.result.Err? && Recoverable(t.result.error) <==> IsSpoiled(json, events))
            && (t.result.Err? && IsStreamError(t.result.error) <==> !IsReadable(events))
            && (t.result == Err(EndedBeforeTerminal) <==> IsReadable(events) && !IsWholeMessage(events))
            && (t.result == Err(NoRecoveryCall) <==> IsWholeMessage(events) && CallsOf(events) == [] && retry)
            && (t.result == Err(FinishedWithoutCall) <==>
                  && IsWholeMessage(events) && CallsOf(events) == [] && !retry
                  && LastReason(Heard(events)).value == "tool_calls")
  {
    var p := ParseEvents(StartParse(output, sent), events, retry);
    ParsesTo(StartParse(output, sent), events, retry);
    hide ParseEvents, DoneAt, Heard, IsReadable, CallsFrom, MayExecute, IsMendable, PushAll, Deltas, ProseText, Tools, Prose;
    if IsReadable(events) {
      ParsesHeard(output, sent, events, retry);
      FinishAnswers(json, p, CallsOf(events), retry);
      hide FinishParse;
    }
  }

  /**
   * When a whole turn answers: the first attempt does, or it was spoiled, there is a conversation to add to, and the
   * second attempt does.
   */
  lemma {:induction false} TurnAnswersExactly(json: string -> Shape, messages: Option<seq<string>>, first: Reply, second: Reply)
    ensures var t := WholeTurn(json, messages, first, second);
            && (Retries(json, messages, first) <==> messages.Some? && first.Streamed? && IsSpoiled(json, first.events))
            && (t.result.Ok? <==>
                  && first.Streamed?
                  && (|| MayAnswer(json, first.events, false)
                      || (messages.Some? && IsSpoiled(json, first.events) && second.Streamed? && MayAnswer(json, second.events, true))))
            && (t.result.Ok? ==>
                  t.result.value.finish == LastReason(Heard(AcceptedEvents(json, messages, first, second))).value)
  {
    hide ParsedTurn, MayAnswer, IsSpoiled, Heard, CallsOf, LastReason;
    if first.Streamed? {
      AttemptAnswersExactly(json, "", [], first.events, false);
      SpoiledDoesNotAnswer(json, first.events);
      if second.Streamed? {
        var t := FirstTurn(json, first);
        AttemptAnswersExactly(json, t.output, t.sent, second.events, true);
      }
    }
  }

  lemma SpoiledDoesNotAnswer(json: string -> Shape, events: seq<Event>)
    ensures !(IsSpoiled(json, events) && MayAnswer(json, events, false))
  {
    if IsSpoiled(json, events) && LastReason(Heard(events)).value != "length" {
      var calls := CallsOf(events);
      MendableIs(json, calls);
    }
  }
}
