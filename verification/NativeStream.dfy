/** OpenAI message deltas and their assembly (agents/node/src/native_stream.rs). */
module NativeStreams {
  import opened Wrappers

  /** A JSON value read where a string is expected: null or missing, a string, or anything else. */
  datatype Field = Absent | Text(text: string) | NotText {
    function Added(): string {
      if Text? then text else ""
    }
  }

  /** One element of `tool_calls`; the index is `None` when it is not an unsigned integer. */
  datatype Fragment = Fragment(index: Option<nat>, id: Field, name: Field, arguments: Field)

  datatype ToolCalls = NoCalls | NotCalls | Calls(fragments: seq<Fragment>)

  datatype Delta = NotDelta | Delta(content: Field, toolCalls: ToolCalls)

  datatype Call = Call(id: string, name: string, arguments: string)

  /** An assistant message; a missing or malformed `tool_calls` reads as no calls. */
  datatype AssistantMessage = AssistantMessage(content: string, calls: seq<Call>)

  datatype StreamError =
    | DeltaNotObject | ContentNotText | CallsNotArray | InvalidIndex | FieldNotText
    | Differs | LostCall

  /** The two fields of `NativeStream` as a value. */
  datatype Assembly = Assembly(content: string, calls: map<nat, Call>)

  datatype Step<T> = Step(to: T, failure: Option<StreamError>)

  const INDEX_LIMIT: nat := 128
  const EMPTY_CALL := Call("", "", "")
  const EMPTY_ASSEMBLY := Assembly("", map[])
  const EMPTY_DELTA := Delta(Absent, NoCalls)

  predicate Bounded(calls: map<nat, Call>) {
    forall i | i in calls :: i < INDEX_LIMIT
  }

  function Held(calls: map<nat, Call>, i: nat): Call {
    if i in calls then calls[i] else EMPTY_CALL
  }

  // ------------------------------------------------------------------ pushing

  function PushFragment(calls: map<nat, Call>, f: Fragment): Step<map<nat, Call>> {
    if f.index.None? || f.index.value >= INDEX_LIMIT then Step(calls, Some(InvalidIndex))
    else
      var i, held := f.index.value, Held(calls, f.index.value);
      if f.id.NotText? then Step(calls[i := held], Some(FieldNotText))
      else
        var named := held.(id := held.id + f.id.Added());
        if f.name.NotText? then Step(calls[i := named], Some(FieldNotText))
        else
          var argued := named.(name := held.name + f.name.Added());
          if f.arguments.NotText? then Step(calls[i := argued], Some(FieldNotText))
          else Step(calls[i := argued.(arguments := held.arguments + f.arguments.Added())], None)
  }

  function PushFragments(calls: map<nat, Call>, fs: seq<Fragment>): Step<map<nat, Call>> {
    if fs == [] then Step(calls, None)
    else
      var before := PushFragments(calls, fs[..|fs| - 1]);
      if before.failure.Some? then before else PushFragment(before.to, fs[|fs| - 1])
  }

  function Pushed(s: Assembly, d: Delta): Step<Assembly> {
    if d.NotDelta? then Step(s, Some(DeltaNotObject))
    else if d.content.NotText? then Step(s, Some(ContentNotText))
    else
      var t := s.(content := s.content + d.content.Added());
      match d.toolCalls
      case NoCalls => Step(t, None)
      case NotCalls => Step(t, Some(CallsNotArray))
      case Calls(fs) =>
        var p := PushFragments(t.calls, fs);
        Step(t.(calls := p.to), p.failure)
  }

  function PushAll(s: Assembly, ds: seq<Delta>): Step<Assembly> {
    if ds == [] then Step(s, None)
    else
      var before := PushAll(s, ds[..|ds| - 1]);
      if before.failure.Some? then before else Pushed(before.to, ds[|ds| - 1])
  }

  /**
   * The calls in index order; index gaps close up. The map is part of the measure so that a fixed start index is not
   * unrolled to the limit whenever this is read.
   */
  function CallsFrom(calls: map<nat, Call>, i: nat): seq<Call>
    decreases |calls|, INDEX_LIMIT - i
  {
    if i >= INDEX_LIMIT then []
    else (if i in calls then [calls[i]] else []) + CallsFrom(calls, i + 1)
  }

  lemma ListsNext(calls: map<nat, Call>, i: nat)
    ensures CallsFrom(calls, i)
         == if i >= INDEX_LIMIT then [] else (if i in calls then [calls[i]] else []) + CallsFrom(calls, i + 1)
  {
  }

  function MessageOf(s: Assembly): AssistantMessage {
    AssistantMessage(s.content, CallsFrom(s.calls, 0))
  }

  /** The first failing fragment ends the push. */
  lemma {:induction false} PushFragmentsStops(calls: map<nat, Call>, fs: seq<Fragment>, k: nat)
    requires k <= |fs| && PushFragments(calls, fs[..k]).failure.Some?
    ensures PushFragments(calls, fs) == PushFragments(calls, fs[..k])
    decreases |fs|
  {
    if k == |fs| {
      assert fs[..k] == fs;
    } else {
      assert fs[..|fs| - 1][..k] == fs[..k];
      PushFragmentsStops(calls, fs[..|fs| - 1], k);
    }
  }

  // ---------------------------------------------------------------- remainder

  predicate CallPrefix(held: Call, full: Call) {
    held.id <= full.id && held.name <= full.name && held.arguments <= full.arguments
  }

  /** The assembled state is a field-by-field prefix of the final message, with no index beyond it. */
  predicate Covers(final: AssistantMessage, s: Assembly) {
    && s.content <= final.content
    && forall i | i in s.calls :: i < |final.calls| && CallPrefix(s.calls[i], final.calls[i])
  }

  function Suffix(full: string, held: string): string
    requires held <= full
  {
    full[|held|..]
  }

  lemma CoversExactly(s: Assembly, final: AssistantMessage)
    ensures Covers(final, s)
       <==> s.content <= final.content && (forall i | i in s.calls :: i < |final.calls|)
            && PrefixesBelow(s.calls, final.calls, |final.calls|)
  {
  }

  lemma SuffixOfWhole(held: Call, full: Call)
    ensures CallPrefix(held, full) ==>
              (held == full <==> Suffix(full.id, held.id) == "" && Suffix(full.name, held.name) == ""
                                 && Suffix(full.arguments, held.arguments) == "")
  {
  }

  function TextOrAbsent(s: string): Field {
    if s == "" then Absent else Text(s)
  }

  /** The fragment that takes `held` to `full`: none when nothing is missing. */
  function MissingCall(i: nat, held: Call, full: Call): seq<Fragment>
    requires CallPrefix(held, full)
  {
    if held == full then []
    else [Fragment(Some(i), TextOrAbsent(Suffix(full.id, held.id)), TextOrAbsent(Suffix(full.name, held.name)),
                   Text(Suffix(full.arguments, held.arguments)))]
  }

  predicate PrefixesBelow(calls: map<nat, Call>, finals: seq<Call>, n: nat) {
    n <= |finals| && forall i | 0 <= i < n :: CallPrefix(Held(calls, i), finals[i])
  }

  function MissingCalls(calls: map<nat, Call>, finals: seq<Call>, n: nat): seq<Fragment>
    requires PrefixesBelow(calls, finals, n)
  {
    if n == 0 then []
    else MissingCalls(calls, finals, n - 1) + MissingCall(n - 1, Held(calls, n - 1), finals[n - 1])
  }

  function Missing(s: Assembly, final: AssistantMessage): Delta
    requires Covers(final, s)
  {
    var fs := MissingCalls(s.calls, final.calls, |final.calls|);
    Delta(TextOrAbsent(Suffix(final.content, s.content)), if fs == [] then NoCalls else Calls(fs))
  }

  function RemainderError(s: Assembly, final: AssistantMessage): StreamError
    requires !Covers(final, s)
  {
    if s.content <= final.content && exists i | i in s.calls :: i >= |final.calls| then LostCall else Differs
  }

  /** Once a client has pushed the remainder: everything it held or lacked, as the final message has it. */
  function Completed(s: Assembly, final: AssistantMessage): Assembly {
    Assembly(final.content,
             map i: nat | i < |final.calls| && (i in s.calls || final.calls[i] != EMPTY_CALL) :: final.calls[i])
  }

  // ---------------------------------------------------------------- the class

  class NativeStream {
    var content: string
    var calls: map<nat, Call>

    ghost function State(): Assembly
      reads this
    {
      Assembly(content, calls)
    }

    constructor ()
      ensures State() == EMPTY_ASSEMBLY
    {
      content, calls := "", map[];
    }

    /** One fragment: its entry is created on demand and each field appended, up to the first malformed one. */
    method PushCall(f: Fragment) returns (failure: Option<StreamError>)
      modifies this`calls
      ensures Step(calls, failure) == PushFragment(old(calls), f)
    {
      if f.index.None? || f.index.value >= INDEX_LIMIT {
        return Some(InvalidIndex);
      }
      var i := f.index.value;
      if i !in calls {
        calls := calls[i := EMPTY_CALL];
      }
      ghost var held := Held(old(calls), i);
      assert calls == old(calls)[i := held];
      if f.id.NotText? {
        return Some(FieldNotText);
      }
      calls := calls[i := calls[i].(id := calls[i].id + f.id.Added())];
      assert calls == old(calls)[i := held.(id := held.id + f.id.Added())];
      if f.name.NotText? {
        return Some(FieldNotText);
      }
      calls := calls[i := calls[i].(name := calls[i].name + f.name.Added())];
      assert calls == old(calls)[i := held.(id := held.id + f.id.Added(), name := held.name + f.name.Added())];
      if f.arguments.NotText? {
        return Some(FieldNotText);
      }
      calls := calls[i := calls[i].(arguments := calls[i].arguments + f.arguments.Added())];
      assert calls == old(calls)[i := held.(id := held.id + f.id.Added(), name := held.name + f.name.Added(), arguments := held.arguments + f.arguments.Added())];
      return None;
    }

    method Push(delta: Delta) returns (failure: Option<StreamError>)
      modifies this
      ensures Step(State(), failure) == Pushed(old(State()), delta)
    {
      hide PushFragment;
      if delta.NotDelta? {
        return Some(DeltaNotObject);
      }
      if delta.content.NotText? {
        return Some(ContentNotText);
      }
      content := content + delta.content.Added();
      if delta.toolCalls.NotCalls? {
        return Some(CallsNotArray);
      }
      if delta.toolCalls.Calls? {
        ghost var was := calls;
        var fs := delta.toolCalls.fragments;
        for k := 0 to |fs|
          invariant content == old(content) + delta.content.Added()
          invariant Step(calls, None) == PushFragments(was, fs[..k])
        {
          if PushFragments(was, fs[..k + 1]).failure.Some? {
            PushFragmentsStops(was, fs, k + 1);
          }
          assert fs[..k + 1][..k] == fs[..k];
          failure := PushCall(fs[k]);
          if failure.Some? {
            return;
          }
        }
        assert fs[..|fs|] == fs;
      }
      return None;
    }

    method Message() returns (m: AssistantMessage)
      ensures m == MessageOf(State())
    {
      hide CallsFrom;
      var listed: seq<Call> := [];
      for i := 0 to INDEX_LIMIT
        invariant CallsFrom(calls, 0) == listed + CallsFrom(calls, i)
      {
        ListsNext(calls, i);
        if i in calls {
          listed := listed + [calls[i]];
        }
      }
      ListsNext(calls, INDEX_LIMIT);
      return AssistantMessage(content, listed);
    }

    /** Succeeds exactly on a field-by-field prefix, and then names exactly the missing suffixes. */
    method Remainder(final: AssistantMessage) returns (r: Result<Delta, StreamError>)
      ensures r.Ok? <==> Covers(final, State())
      ensures r.Ok? ==> r.value == Missing(State(), final)
      ensures r.Err? ==> r.error == RemainderError(State(), final)
    {
      hide Covers;
      CoversExactly(State(), final);
      if !(content <= final.content) {
        return Err(Differs);
      }
      if exists i | i in calls :: i >= |final.calls| {
        return Err(LostCall);
      }
      var missing: seq<Fragment> := [];
      for n := 0 to |final.calls|
        invariant PrefixesBelow(calls, final.calls, n)
        invariant missing == MissingCalls(calls, final.calls, n)
      {
        var held, full := Held(calls, n), final.calls[n];
        SuffixOfWhole(held, full);
        assert PrefixesBelow(calls, final.calls, n + 1) <==> CallPrefix(held, full);
        if !(held.id <= full.id) || !(held.name <= full.name) || !(held.arguments <= full.arguments) {
          return Err(Differs);
        }
        var id, name, arguments := Suffix(full.id, held.id), Suffix(full.name, held.name), Suffix(full.arguments, held.arguments);
        if id != "" || name != "" || arguments != "" {
          missing := missing + [Fragment(Some(n), TextOrAbsent(id), TextOrAbsent(name), Text(arguments))];
        }
      }
      return Ok(Delta(TextOrAbsent(Suffix(final.content, content)), if missing == [] then NoCalls else Calls(missing)));
    }
  }
}
