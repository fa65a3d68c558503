/** What a native tool turn delivers live, compared with what it answers. */
module TurnDelivery {
  import opened Wrappers
  import opened NativeStreams
  import opened RemainderAlgebra
  import opened NativeTurns

  // ------------------------------------------------- the provider's stream, read without the parser

  /** The position of the first terminal event, or the number of events. */
  function DoneAt(events: seq<Event>): (k: nat)
    ensures k <= |events|
  {
    if events == [] then 0
    else
      var n := |events| - 1;
      var k := DoneAt(events[..n]);
      if k < n || events[n].Done? then k else n + 1
  }

  function Heard(events: seq<Event>): seq<Event> {
    events[..DoneAt(events)]
  }

  function DeltaOf(e: Event): Delta {
    if e.Chunk? && e.delta.Some? then Public(e.delta.value) else EMPTY_DELTA
  }

  function Deltas(events: seq<Event>): seq<Delta> {
    seq(|events|, i requires 0 <= i < |events| => DeltaOf(events[i]))
  }

  /** The text parts of a stream, one delta each. */
  function Prose(events: seq<Event>): seq<Delta> {
    if events == [] then [] else Prose(events[..|events| - 1]) + ProseDelta(DeltaOf(events[|events| - 1]))
  }

  function ProseText(events: seq<Event>): string {
    if events == [] then "" else ProseText(events[..|events| - 1]) + DeltaOf(events[|events| - 1]).content.Added()
  }

  /** The tool parts of a stream, in the provider's own fragment sizes. */
  function Tools(events: seq<Event>): seq<Delta> {
    if events == [] then [] else Tools(events[..|events| - 1]) + ToolDelta(DeltaOf(events[|events| - 1]))
  }

  lemma DeltaOfIsDelta(e: Event)
    ensures DeltaOf(e).Delta?
  {
  }

  // ------------------------------------------------------------------ the parser against it

  ghost predicate ParsedAs(p: Parse, output: string, sent: seq<Delta>, heard: seq<Event>, retry: bool) {
    && PushAll(EMPTY_ASSEMBLY, Deltas(heard)) == Step(p.assembly, None)
    && p.pending == Tools(heard)
    && p.output == (if retry then output else output + ProseText(heard))
    && p.sent == (if retry then sent else sent + Prose(heard))
  }

  lemma {:induction false} ParsesHeard(output: string, sent: seq<Delta>, events: seq<Event>, retry: bool)
    requires !(ParseEvents(StartParse(output, sent), events, retry).stop.Some?
               && ParseEvents(StartParse(output, sent), events, retry).stop.value.Failed?)
    ensures ParseEvents(StartParse(output, sent), events, retry).stop.Some? <==> DoneAt(events) < |events|
    ensures ParsedAs(ParseEvents(StartParse(output, sent), events, retry), output, sent, Heard(events), retry)
  {
    var start := StartParse(output, sent);
    if events != [] {
      var n := |events| - 1;
      var before := ParseEvents(start, events[..n], retry);
      ParsesHeard(output, sent, events[..n], retry);
      if before.stop.Some? || events[n].Done? {
        assert Heard(events) == Heard(events[..n]);
      } else {
        assert Heard(events[..n]) == events[..n] && Heard(events) == events;
        ParsesOneMore(before, output, sent, events, retry);
      }
    } else {
      assert Deltas(Heard(events)) == [];
    }
  }

  lemma ParsesOneMore(p: Parse, output: string, sent: seq<Delta>, events: seq<Event>, retry: bool)
    requires events != [] && p.stop.None? && ParsedAs(p, output, sent, events[..|events| - 1], retry)
    requires ParseEvent(p, events[|events| - 1], retry).stop.None?
    ensures ParsedAs(ParseEvent(p, events[|events| - 1], retry), output, sent, events, retry)
  {
    hide ParseEvent, Pushed, PushAll, ProseDelta, ToolDelta, DeltaOf, Deltas, Prose, ProseText, Tools;
    var e, q := events[|events| - 1], ParseEvent(p, events[|events| - 1], retry);
    assert PushAll(EMPTY_ASSEMBLY, Deltas(events)) == Step(q.assembly, None) by {
      ParseEventReads(p, e, retry);
      DeltasLast(events);
      PushAllLast(EMPTY_ASSEMBLY, Deltas(events));
    }
    assert q.pending == Tools(events) by {
      ParseEventReads(p, e, retry);
      PartsLast(events);
    }
    if retry {
      ParseEventReads(p, e, retry);
    } else {
      LetThrough(p, output, sent, events);
    }
  }

  lemma LetThrough(p: Parse, output: string, sent: seq<Delta>, events: seq<Event>)
    requires events != [] && p.stop.None? && ParseEvent(p, events[|events| - 1], false).stop.None?
    requires p.output == output + ProseText(events[..|events| - 1]) && p.sent == sent + Prose(events[..|events| - 1])
    ensures ParseEvent(p, events[|events| - 1], false).output == output + ProseText(events)
    ensures ParseEvent(p, events[|events| - 1], false).sent == sent + Prose(events)
  {
    hide ParseEvent, ProseDelta, ToolDelta, DeltaOf, Prose, ProseText, Tools;
    var most, e := events[..|events| - 1], events[|events| - 1];
    ParseEventReads(p, e, false);
    PartsLast(events);
    DeltaOfIsDelta(e);
    AppendAssociates(output, ProseText(most), DeltaOf(e).content.Added());
    AppendAssociates(sent, Prose(most), ProseDelta(DeltaOf(e)));
  }

  lemma PushAllLast(s: Assembly, ds: seq<Delta>)
    requires ds != [] && PushAll(s, ds[..|ds| - 1]).failure.None?
    ensures PushAll(s, ds) == Pushed(PushAll(s, ds[..|ds| - 1]).to, ds[|ds| - 1])
  {
  }

  lemma AppendAssociates<T>(a: seq<T>, b: seq<T>, c: seq<T>)
    ensures (a + b) + c == a + (b + c)
  {
  }

  lemma PartsLast(events: seq<Event>)
    requires events != []
    ensures var most, last := events[..|events| - 1], DeltaOf(events[|events| - 1]);
            && ProseText(events) == ProseText(most) + last.content.Added()
            && Prose(events) == Prose(most) + ProseDelta(last)
            && Tools(events) == Tools(most) + ToolDelta(last)
  {
  }

  /** One event pushes its delta, keeps its tool part back and lets its text through unless this is a retry. */
  lemma ParseEventReads(p: Parse, e: Event, retry: bool)
    requires p.stop.None? && ParseEvent(p, e, retry).stop.None?
    ensures Pushed(p.assembly, DeltaOf(e)) == Step(ParseEvent(p, e, retry).assembly, None)
    ensures ParseEvent(p, e, retry).pending == p.pending + ToolDelta(DeltaOf(e))
    ensures ParseEvent(p, e, retry).output == if retry then p.output else p.output + DeltaOf(e).content.Added()
    ensures ParseEvent(p, e, retry).sent == if retry then p.sent else p.sent + ProseDelta(DeltaOf(e))
  {
    assert p.assembly.content + "" == p.assembly.content && p.output + "" == p.output;
    assert p.pending + [] == p.pending && p.sent + [] == p.sent;
  }

  lemma DeltasLast(events: seq<Event>)
    requires events != []
    ensures Deltas(events) != []
    ensures Deltas(events)[..|Deltas(events)| - 1] == Deltas(events[..|events| - 1])
    ensures Deltas(events)[|Deltas(events)| - 1] == DeltaOf(events[|events| - 1])
  {
  }

  // --------------------------------------------------- prose and tools are independent

  lemma {:induction false} PushProse(events: seq<Event>)
    ensures PushAll(EMPTY_ASSEMBLY, Prose(events)) == Step(Assembly(ProseText(events), map[]), None)
  {
    if |events| == 0 {
      PushNothing(EMPTY_ASSEMBLY, Prose(events));
    } else {
      var most, last := events[..|events| - 1], DeltaOf(events[|events| - 1]);
      PushProse(most);
      PartsLast(events);
      PushProseDelta(Assembly(ProseText(most), map[]), last);
      hide Prose, ProseText, DeltaOf, PushAll, Pushed;
      if ProseDelta(last) == [] {
        assert Prose(events) == Prose(most);
      } else {
        assert Prose(events)[..|Prose(events)| - 1] == Prose(most);
        PushAllLast(EMPTY_ASSEMBLY, Prose(events));
      }
    }
  }

  lemma PushNothing(s: Assembly, ds: seq<Delta>)
    requires |ds| == 0
    ensures PushAll(s, ds) == Step(s, None)
  {
  }

  lemma PushProseDelta(s: Assembly, d: Delta)
    ensures ProseDelta(d) == [] ==> d.Delta? ==> s.content + d.content.Added() == s.content
    ensures ProseDelta(d) != [] ==> Pushed(s, ProseDelta(d)[0]) == Step(s.(content := s.content + d.content.Added()), None)
  {
  }

  lemma PushToolPart(s: Assembly, d: Delta, content: string)
    requires d.Delta? && Pushed(s, d).failure.None?
    ensures ToolDelta(d) == [] ==> Pushed(s, d).to.calls == s.calls
    ensures ToolDelta(d) != [] ==>
              && |ToolDelta(d)| == 1
              && Pushed(Assembly(content, s.calls), ToolDelta(d)[0]) == Step(Assembly(content, Pushed(s, d).to.calls), None)
  {
    assert content + "" == content;
  }

  /** Tool deltas rebuild the calls on top of any text. */
  lemma {:induction false} PushTools(content: string, events: seq<Event>)
    requires PushAll(EMPTY_ASSEMBLY, Deltas(events)).failure.None?
    ensures PushAll(Assembly(content, map[]), Tools(events))
         == Step(Assembly(content, PushAll(EMPTY_ASSEMBLY, Deltas(events)).to.calls), None)
  {
    if events != [] {
      var n := |events| - 1;
      DeltasLast(events);
      PushTools(content, events[..n]);
      PushToolPart(PushAll(EMPTY_ASSEMBLY, Deltas(events[..n])).to, DeltaOf(events[n]), content);
      var last := ToolDelta(DeltaOf(events[n]));
      if last == [] {
        assert Tools(events) == Tools(events[..n]);
      } else {
        assert Tools(events)[..|Tools(events)| - 1] == Tools(events[..n]);
        assert Tools(events)[|Tools(events)| - 1] == last[0];
      }
    }
  }

  // ----------------------------------------------------------------- the first theorem

  /** The events of the attempt whose calls the turn may release. */
  function AcceptedEvents(json: string -> Shape, messages: Option<seq<string>>, first: Reply, second: Reply): seq<Event> {
    var reply := if Retries(json, messages, first) then second else first;
    if reply.Streamed? then reply.events else []
  }

  lemma AnswersHeard(json: string -> Shape, output: string, sent: seq<Delta>, events: seq<Event>, retry: bool)
    requires ParsedTurn(json, output, sent, events, retry).result.Ok?
    ensures PushAll(EMPTY_ASSEMBLY, Deltas(Heard(events))).failure.None?
    ensures ParsedTurn(json, output, sent, events, retry).sent
         == (if retry then sent else sent + Prose(Heard(events))) + Tools(Heard(events))
    ensures ParsedTurn(json, output, sent, events, retry).result.value.message
         == AssistantMessage(if retry then output else output + ProseText(Heard(events)),
                             MessageOf(PushAll(EMPTY_ASSEMBLY, Deltas(Heard(events))).to).calls)
    ensures forall i | 0 <= i < |ParsedTurn(json, output, sent, events, retry).result.value.message.calls| ::
              Executable(json, ParsedTurn(json, output, sent, events, retry).result.value.message.calls[i])
  {
    ParsesHeard(output, sent, events, retry);
    var p := ParseEvents(StartParse(output, sent), events, retry);
    ValidateAcceptsExactly(json, MessageOf(p.assembly).calls, p.reason);
  }

  /** No recovery answers a failure of the stream itself. */
  lemma {:induction false} StreamFailuresAreFinal(p: Parse, events: seq<Event>, retry: bool)
    requires p.stop.None?
    ensures var q := ParseEvents(p, events, retry).stop; q.Some? && q.value.Failed? ==> !Recoverable(q.value.error)
  {
    if events != [] {
      StreamFailuresAreFinal(p, events[..|events| - 1], retry);
    }
  }

  /** A rejected batch leaves its prose behind, and nothing else. */
  lemma RejectionKeepsProse(json: string -> Shape, events: seq<Event>)
    requires ParsedTurn(json, "", [], events, false).result.Err? && Recoverable(ParsedTurn(json, "", [], events, false).result.error)
    ensures ParsedTurn(json, "", [], events, false).sent == Prose(Heard(events))
    ensures ParsedTurn(json, "", [], events, false).output == ProseText(Heard(events))
  {
    StreamFailuresAreFinal(StartParse("", []), events, false);
    ParsesHeard("", [], events, false);
  }

  /**
   * A turn that answers has delivered its answer: a client that assembles the deltas reads back the returned message.
   * The first attempt's prose is there once, retry prose is not, and the only calls are the accepted attempt's.
   */
  lemma {:induction false} DeliveredIsAnswer(json: string -> Shape, messages: Option<seq<string>>, first: Reply, second: Reply)
    requires WholeTurn(json, messages, first, second).result.Ok?
    ensures first.Streamed?
    ensures WholeTurn(json, messages, first, second).sent
         == Prose(Heard(first.events)) + Tools(Heard(AcceptedEvents(json, messages, first, second)))
    ensures PushAll(EMPTY_ASSEMBLY, WholeTurn(json, messages, first, second).sent).failure.None?
    ensures MessageOf(PushAll(EMPTY_ASSEMBLY, WholeTurn(json, messages, first, second).sent).to)
         == WholeTurn(json, messages, first, second).result.value.message
    ensures forall i | 0 <= i < |WholeTurn(json, messages, first, second).result.value.message.calls| ::
              Executable(json, WholeTurn(json, messages, first, second).result.value.message.calls[i])
  {
    AnswerSplits(json, messages, first, second);
    var heard := Heard(AcceptedEvents(json, messages, first, second));
    PushProse(Heard(first.events));
    PushTools(ProseText(Heard(first.events)), heard);
    PushAllAppend(EMPTY_ASSEMBLY, Prose(Heard(first.events)), Tools(heard));
  }

  lemma AnswerSplits(json: string -> Shape, messages: Option<seq<string>>, first: Reply, second: Reply)
    requires WholeTurn(json, messages, first, second).result.Ok?
    ensures first.Streamed?
    ensures PushAll(EMPTY_ASSEMBLY, Deltas(Heard(AcceptedEvents(json, messages, first, second)))).failure.None?
    ensures WholeTurn(json, messages, first, second).sent
         == Prose(Heard(first.events)) + Tools(Heard(AcceptedEvents(json, messages, first, second)))
    ensures WholeTurn(json, messages, first, second).result.value.message
         == AssistantMessage(ProseText(Heard(first.events)),
                             MessageOf(PushAll(EMPTY_ASSEMBLY, Deltas(Heard(AcceptedEvents(json, messages, first, second)))).to).calls)
    ensures forall i | 0 <= i < |WholeTurn(json, messages, first, second).result.value.message.calls| ::
              Executable(json, WholeTurn(json, messages, first, second).result.value.message.calls[i])
  {
    hide ParsedTurn;
    var t := FirstTurn(json, first);
    if Retries(json, messages, first) {
      RejectionKeepsProse(json, first.events);
      AnswersHeard(json, t.output, t.sent, second.events, true);
    } else {
      AnswersHeard(json, "", [], first.events, false);
      assert [] + Prose(Heard(first.events)) == Prose(Heard(first.events));
      assert "" + ProseText(Heard(first.events)) == ProseText(Heard(first.events));
    }
  }

  // ----------------------------------------------------------------- the second theorem

  ghost predicate ToolFree(d: Delta) {
    d.Delta? && (d.toolCalls.NoCalls? || d.toolCalls == Calls([]))
  }

  ghost predicate AllToolFree(ds: seq<Delta>) {
    forall i | 0 <= i < |ds| :: ToolFree(ds[i])
  }

  lemma {:induction false} ParsingSendsNoTools(p: Parse, events: seq<Event>, retry: bool)
    requires AllToolFree(p.sent)
    ensures AllToolFree(ParseEvents(p, events, retry).sent)
  {
    if events != [] {
      ParsingSendsNoTools(p, events[..|events| - 1], retry);
    }
  }

  lemma PushMentions(calls: map<nat, Call>, fs: seq<Fragment>)
    requires PushFragments(calls, fs).failure.None? && fs != []
    ensures PushFragments(calls, fs).to != map[]
  {
    PushSucceedsExactly(calls, fs);
    assert WellFormed(fs[0]);
    PushGathers(calls, fs, fs[0].index.value);
    assert Mentions(fs, fs[0].index.value);
  }

  lemma {:induction false} NoCallsNoFragments(s: Assembly, ds: seq<Delta>, k: nat)
    requires PushAll(s, ds).failure.None? && PushAll(s, ds).to.calls == map[] && k < |ds|
    ensures ToolFree(ds[k])
    decreases |ds|
  {
    var n := |ds| - 1;
    var before, last := PushAll(s, ds[..n]), ds[n];
    if last.toolCalls.Calls? {
      var fs := last.toolCalls.fragments;
      if fs != [] {
        PushMentions(before.to.calls, fs);
        assert false;
      }
    }
    if k < n {
      assert ds[..n][k] == ds[k];
      NoCallsNoFragments(s, ds[..n], k);
    }
  }

  lemma {:induction false} ListsSomething(calls: map<nat, Call>, i: nat)
    requires Bounded(calls) && CallsFrom(calls, i) == []
    ensures forall k | k in calls :: k < i
    decreases INDEX_LIMIT - i
  {
    if i < INDEX_LIMIT {
      ListsSomething(calls, i + 1);
    }
  }

  lemma {:induction false} PushAllKeepsBounded(s: Assembly, ds: seq<Delta>)
    requires Bounded(s.calls)
    ensures Bounded(PushAll(s, ds).to.calls)
  {
    if ds != [] {
      var n := |ds| - 1;
      PushAllKeepsBounded(s, ds[..n]);
      if ds[n].Delta? && ds[n].toolCalls.Calls? {
        PushKeepsBounded(PushAll(s, ds[..n]).to.calls, ds[n].toolCalls.fragments);
      }
    }
  }

  lemma FailureReleasesNothing(json: string -> Shape, output: string, sent: seq<Delta>, events: seq<Event>, retry: bool)
    requires AllToolFree(sent) && ParsedTurn(json, output, sent, events, retry).result.Err?
    ensures AllToolFree(ParsedTurn(json, output, sent, events, retry).sent)
  {
    var p := ParseEvents(StartParse(output, sent), events, retry);
    ParsingSendsNoTools(StartParse(output, sent), events, retry);
    var t := ParsedTurn(json, output, sent, events, retry);
    if t.result.error.FinishedWithoutCall? && t.sent != p.sent {
      ParsesHeard(output, sent, events, retry);
      PushAllKeepsBounded(EMPTY_ASSEMBLY, Deltas(Heard(events)));
      ListsSomething(p.assembly.calls, 0);
      assert p.assembly.calls == map[];
      PushTools("", Heard(events));
      forall k | 0 <= k < |p.pending|
        ensures ToolFree(p.pending[k])
      {
        NoCallsNoFragments(EMPTY_ASSEMBLY, p.pending, k);
      }
    }
  }

  /** A turn that ends in an error, on the first attempt or the second, has delivered no tool call entry. */
  lemma FailedTurnReleasesNothing(json: string -> Shape, messages: Option<seq<string>>, first: Reply, second: Reply)
    requires WholeTurn(json, messages, first, second).result.Err?
    ensures AllToolFree(WholeTurn(json, messages, first, second).sent)
  {
    var t := FirstTurn(json, first);
    if t.result.Err? {
      if first.Streamed? {
        FailureReleasesNothing(json, "", [], first.events, false);
      }
      if Retries(json, messages, first) && second.Streamed? {
        FailureReleasesNothing(json, t.output, t.sent, second.events, true);
      }
    }
  }

  // ----------------------------------------------------------------- the third theorem

  lemma {:induction false} FragmentsGrow(calls: map<nat, Call>, fs: seq<Fragment>)
    requires PushFragments(calls, fs).failure.None?
    ensures forall i | i in calls :: i in PushFragments(calls, fs).to && CallPrefix(calls[i], PushFragments(calls, fs).to[i])
  {
    forall i | i in calls
      ensures i in PushFragments(calls, fs).to && CallPrefix(calls[i], PushFragments(calls, fs).to[i])
    {
      PushGathers(calls, fs, i);
    }
  }

  ghost predicate Grows(a: Assembly, b: Assembly) {
    a.content <= b.content && forall i | i in a.calls :: i in b.calls && CallPrefix(a.calls[i], b.calls[i])
  }

  /** What a cut-off client holds is a field-by-field prefix of what the whole stream assembles. */
  lemma {:induction false} CutIsPrefix(s: Assembly, ds: seq<Delta>, k: nat)
    requires PushAll(s, ds).failure.None? && k <= |ds|
    ensures PushAll(s, ds[..k]).failure.None? && Grows(PushAll(s, ds[..k]).to, PushAll(s, ds).to)
    decreases |ds|
  {
    if k == |ds| {
      assert ds[..k] == ds;
    } else {
      var n := |ds| - 1;
      assert ds[..n][..k] == ds[..k];
      CutIsPrefix(s, ds[..n], k);
      var before, last := PushAll(s, ds[..n]).to, ds[n];
      if last.toolCalls.Calls? {
        FragmentsGrow(before.calls, last.toolCalls.fragments);
      }
      assert Grows(before, PushAll(s, ds).to);
    }
  }

  /** The client recovers from a cut: the remainder exists, is accepted, and leaves exactly the final state and message. */
  ghost predicate Recovers(delivered: seq<Delta>, all: seq<Delta>, final: AssistantMessage) {
    var held := PushAll(EMPTY_ASSEMBLY, delivered);
    && held.failure.None?
    && Covers(final, held.to)
    && Pushed(held.to, Missing(held.to, final)) == PushAll(EMPTY_ASSEMBLY, all)
    && MessageOf(Pushed(held.to, Missing(held.to, final)).to) == final
  }

  lemma CutRecovers(s: Assembly, whole: Assembly, final: AssistantMessage)
    requires Bounded(s.calls) && Bounded(whole.calls) && Grows(s, whole) && MessageOf(whole) == final
    requires Contiguous(whole.calls, |final.calls|)
    requires forall i | 0 <= i < |final.calls| :: final.calls[i] != EMPTY_CALL
    ensures Covers(final, s) && Pushed(s, Missing(s, final)) == Step(whole, None)
  {
    hide CallsFrom, Missing, Completed, Pushed, Grows, Covers, MessageOf;
    var n := |final.calls|;
    assert n > INDEX_LIMIT ==> INDEX_LIMIT in whole.calls;
    MessageLists(whole, n);
    assert forall i | 0 <= i < n :: final.calls[i] == whole.calls[i];
    GrowsCovers(s, whole, final);
    RemainderCompletes(s, final);
    CompletedIsWhole(s, whole, final);
  }

  lemma MessageLists(whole: Assembly, n: nat)
    requires Contiguous(whole.calls, n) && n <= INDEX_LIMIT
    ensures MessageOf(whole).content == whole.content && |MessageOf(whole).calls| == n
    ensures forall i | 0 <= i < n :: MessageOf(whole).calls[i] == whole.calls[i]
  {
    ListsContiguous(whole.calls, n, 0);
  }

  lemma GrowsCovers(s: Assembly, whole: Assembly, final: AssistantMessage)
    requires Grows(s, whole) && Contiguous(whole.calls, |final.calls|) && whole.content == final.content
    requires forall i | 0 <= i < |final.calls| :: final.calls[i] == whole.calls[i]
    ensures Covers(final, s)
  {
  }

  lemma CompletedIsWhole(s: Assembly, whole: Assembly, final: AssistantMessage)
    requires Contiguous(whole.calls, |final.calls|) && whole.content == final.content
    requires forall i | 0 <= i < |final.calls| :: final.calls[i] == whole.calls[i] && final.calls[i] != EMPTY_CALL
    ensures Completed(s, final) == whole
  {
  }

  lemma CoveredIndicesFit(whole: Assembly, final: AssistantMessage)
    requires Bounded(whole.calls) && MessageOf(whole) == final && Covers(final, whole)
    ensures Contiguous(whole.calls, |final.calls|)
  {
    IndicesFitExactly(whole.calls);
  }

  /**
   * A cut of the relay after any number of deltas can be repaired from the final message exactly when the accepted
   * call indices are 0, 1, 2 and so on.
   */
  lemma {:induction false} CutRecoveryExactly(json: string -> Shape, messages: Option<seq<string>>, first: Reply, second: Reply)
    requires WholeTurn(json, messages, first, second).result.Ok?
    ensures
      (forall k | 0 <= k <= |WholeTurn(json, messages, first, second).sent| ::
         Recovers(WholeTurn(json, messages, first, second).sent[..k], WholeTurn(json, messages, first, second).sent,
                  WholeTurn(json, messages, first, second).result.value.message))
      <==> Contiguous(PushAll(EMPTY_ASSEMBLY, WholeTurn(json, messages, first, second).sent).to.calls,
                      |WholeTurn(json, messages, first, second).result.value.message.calls|)
  {
    hide WholeTurn, Covers, Missing, Pushed, CallsFrom;
    var t := WholeTurn(json, messages, first, second);
    DeliveredIsAnswer(json, messages, first, second);
    var whole, final := PushAll(EMPTY_ASSEMBLY, t.sent).to, t.result.value.message;
    PushAllKeepsBounded(EMPTY_ASSEMBLY, t.sent);
    if Contiguous(whole.calls, |final.calls|) {
      forall k | 0 <= k <= |t.sent|
        ensures Recovers(t.sent[..k], t.sent, final)
      {
        CutIsPrefix(EMPTY_ASSEMBLY, t.sent, k);
        PushAllKeepsBounded(EMPTY_ASSEMBLY, t.sent[..k]);
        CutRecovers(PushAll(EMPTY_ASSEMBLY, t.sent[..k]).to, whole, final);
      }
    }
    if forall k | 0 <= k <= |t.sent| :: Recovers(t.sent[..k], t.sent, final) {
      assert t.sent[..|t.sent|] == t.sent;
      assert Recovers(t.sent[..|t.sent|], t.sent, final);
      CoveredIndicesFit(whole, final);
    }
  }

  const GAP_DELTA :=
    Delta(Absent, Calls([Fragment(Some(1), NativeStreams.Text("a"), NativeStreams.Text("f"), NativeStreams.Text("{}"))]))
  const GAP_CALLS := map[1 := Call("a", "f", "{}")]

  lemma GapParses()
    ensures Pushed(EMPTY_ASSEMBLY, GAP_DELTA) == Step(Assembly("", GAP_CALLS), None)
    ensures ParseEvents(StartParse("", []), [Chunk(Some("tool_calls"), Some(GAP_DELTA)), Done], false)
         == Parse(Assembly("", GAP_CALLS), [GAP_DELTA], Some("tool_calls"), "", [], Some(SawDone))
  {
    var call, events := GAP_DELTA.toolCalls.fragments[0], [Chunk(Some("tool_calls"), Some(GAP_DELTA)), Done];
    PushLast(map[], [], call);
    assert [] + [call] == GAP_DELTA.toolCalls.fragments;
    assert PushFragment(map[], call) == Step(GAP_CALLS, None) by {
      assert "" + "a" == "a" && "" + "f" == "f" && "" + "{}" == "{}";
    }
    assert "" + "" == "" && [] + [GAP_DELTA] == [GAP_DELTA];
    assert events[..1] == [events[0]] && events[..1][..0] == [];
    assert ParseEvents(StartParse("", []), events[..1][..0], false) == StartParse("", []);
    assert ParseEvents(StartParse("", []), events[..1], false) == ParseEvent(StartParse("", []), events[0], false);
  }

  lemma GapListed()
    ensures CallsFrom(GAP_CALLS, 0) == [Call("a", "f", "{}")]
  {
    assert CallsFrom(GAP_CALLS, 1) == [GAP_CALLS[1]] + CallsFrom(GAP_CALLS, 2);
    ListsNothing(GAP_CALLS, 2);
  }

  /** The failing family is not empty: one valid call at index 1 is answered at place 0, and the client cannot recover it. */
  lemma GapLosesCall()
    ensures var t := WholeTurn(_ => Object, Some([]), Streamed([Chunk(Some("tool_calls"), Some(GAP_DELTA)), Done]), Unreachable);
            && t.result.Ok? && t.result.value.message.calls == [Call("a", "f", "{}")]
            && !Recovers(t.sent, t.sent, t.result.value.message)
  {
    GapParses();
    GapListed();
    hide CallsFrom, ParseEvents, Pushed;
    var t := WholeTurn(_ => Object, Some([]), Streamed([Chunk(Some("tool_calls"), Some(GAP_DELTA)), Done]), Unreachable);
    assert [] + [GAP_DELTA] == [GAP_DELTA];
    assert t.sent == [GAP_DELTA] && t.sent[..0] == [];
    assert PushAll(EMPTY_ASSEMBLY, []) == Step(EMPTY_ASSEMBLY, None);
    assert PushAll(EMPTY_ASSEMBLY, t.sent) == Step(Assembly("", GAP_CALLS), None);
    assert 1 in GAP_CALLS;
  }
}
