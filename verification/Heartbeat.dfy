/** The heartbeat log: a text file that stands for a list of records (agents/node/src/storage.rs). */
module HeartbeatLogs {
  import opened Wrappers
  import opened Text

  const TTL_SECONDS: int := 30 * 60
  const NEWLINE: char := '\n'
  const RETURN: char := '\r'

  type i64 = x: int | -0x8000_0000_0000_0000 <= x < 0x8000_0000_0000_0000

  /** How a heartbeat `H` is written on one line, read back, and dated. */
  datatype Codec<!H> = Codec(encode: H -> string, decode: string -> Option<H>, stamp: H -> Option<i64>)

  /** JSON on one line: it reads back, is never blank, escapes line ends, and a carriage return after it does not matter. */
  ghost predicate IsJsonLines<H(!new)>(codec: Codec<H>) {
    && (forall h :: codec.decode(codec.encode(h)) == Some(h))
    && (forall h :: !IsBlank(codec.encode(h)) && NEWLINE !in codec.encode(h) && RETURN !in codec.encode(h))
    && (forall s :: codec.decode(s + [RETURN]) == codec.decode(s))
  }

  // ---------------------------------------------------------------------------------------- lines

  function StripReturn(line: string): string {
    if line != "" && line[|line| - 1] == RETURN then line[..|line| - 1] else line
  }

  /** Where the first line ends: at its newline, or at the end of the text. */
  function LineEnd(text: string): (n: nat)
    ensures n <= |text| && NEWLINE !in text[..n] && (n < |text| ==> text[n] == NEWLINE)
  {
    if text == "" || text[0] == NEWLINE then 0
    else
      assert text[..LineEnd(text[1..]) + 1] == [text[0]] + text[1..][..LineEnd(text[1..])];
      LineEnd(text[1..]) + 1
  }

  /** `str::lines`. */
  function Lines(text: string): seq<string>
    decreases |text|
  {
    if text == "" then []
    else if LineEnd(text) == |text| then [text]
    else [StripReturn(text[..LineEnd(text)])] + Lines(text[LineEnd(text) + 1..])
  }

  /** The lines joined by newlines, and a newline. */
  function Render(lines: seq<string>): string
    requires lines != []
  {
    lines[0] + [NEWLINE] + if |lines| == 1 then "" else Render(lines[1..])
  }

  // ------------------------------------------------------------------------------------- the code

  function SaturatingSub(a: i64, b: i64): i64 {
    if a - b > 0x7FFF_FFFF_FFFF_FFFF then 0x7FFF_FFFF_FFFF_FFFF
    else if a - b < -0x8000_0000_0000_0000 then -0x8000_0000_0000_0000
    else a - b
  }

  function LineStamp<H>(codec: Codec<H>, line: string): Option<i64> {
    match codec.decode(line)
    case None => None
    case Some(h) => codec.stamp(h)
  }

  /** The lines that carry a timestamp. */
  function Stamped<H>(codec: Codec<H>, lines: seq<string>): (kept: seq<string>)
    ensures forall line | line in kept :: line in lines && LineStamp(codec, line).Some?
  {
    if lines == [] then []
    else (if LineStamp(codec, lines[0]).Some? then [lines[0]] else []) + Stamped(codec, lines[1..])
  }

  function ResetExpiredHeartbeatLog<H>(codec: Codec<H>, existing: string, line: string): string {
    var current := LineStamp(codec, line);
    if current.None? then Render([line])
    else
      var kept := Stamped(codec, Lines(existing));
      if kept == [] then Render([line])
      else if SaturatingSub(current.value, LineStamp(codec, kept[0]).value) >= TTL_SECONDS then Render([line])
      else Render(kept + [line])
  }

  function LastLine(lines: seq<string>): Option<string> {
    if lines == [] then None
    else if !IsBlank(lines[|lines| - 1]) then Some(lines[|lines| - 1])
    else LastLine(lines[..|lines| - 1])
  }

  class HeartbeatLog<!H(!new)> {
    const codec: Codec<H>
    var log: Option<string>                  // the text of `heartbeat.jsonl`, once it exists
    var agentState: Option<string>           // the text of the agent state file, likewise

    constructor (codec: Codec<H>, log: Option<string>, agentState: Option<string>)
      ensures this.codec == codec && this.log == log && this.agentState == agentState
    {
      this.codec, this.log, this.agentState := codec, log, agentState;
    }

    /** On the records the text stands for, a save keeps all earlier ones or none, and it is what is loaded next. */
    method SaveHeartbeat(h: H)
      modifies this`log
      ensures log == Some(ResetExpiredHeartbeatLog(codec, old(log).GetOr(""), codec.encode(h)))
      ensures IsJsonLines(codec) ==>
                && Records(codec, log.value) == Saved(codec, Records(codec, old(log).GetOr("")), h)
                && Loaded(codec, log, agentState) == Ok(Some(h))
    {
      hide ResetExpiredHeartbeatLog, IsJsonLines, Records, Saved, Loaded;
      var line := codec.encode(h);
      var existing := if log.Some? then log.value else "";
      log := Some(ResetExpiredHeartbeatLog(codec, existing, line));
      if IsJsonLines(codec) {
        SaveRefines(codec, existing, h);
        LatestIsLoaded(codec, existing, h, agentState);
      }
    }

    method LoadLastHeartbeat() returns (r: Result<Option<H>, string>)
      ensures r == Loaded(codec, log, agentState)
    {
      if log.Some? {
        var lines := Lines(log.value);
        var left := |lines|;
        assert lines[..left] == lines;
        while left > 0
          invariant left <= |lines| && LastLine(lines) == LastLine(lines[..left])
        {
          if !IsBlank(lines[left - 1]) {
            var h := codec.decode(lines[left - 1]);
            return if h.None? then Err("invalid data") else Ok(h);
          }
          assert lines[..left][..left - 1] == lines[..left - 1];
          left := left - 1;
        }
      }
      if agentState.None? {
        return Ok(None);
      }
      var h := codec.decode(agentState.value);
      return if h.None? then Err("invalid data") else Ok(h);
    }
  }

  function Read<H>(codec: Codec<H>, text: string): Result<Option<H>, string> {
    var h := codec.decode(text);
    if h.None? then Err("invalid data") else Ok(h)
  }

  function Loaded<H>(codec: Codec<H>, log: Option<string>, agentState: Option<string>): Result<Option<H>, string> {
    var last := if log.Some? then LastLine(Lines(log.value)) else None;
    if last.Some? then Read(codec, last.value)
    else if agentState.Some? then Read(codec, agentState.value)
    else Ok(None)
  }

  // ------------------------------------------------------------------------------ what is loaded

  /** Line `i` is the last of a text that is not blank; at -1 there is none. */
  ghost predicate IsLast(lines: seq<string>, i: int) {
    && -1 <= i < |lines|
    && (i >= 0 ==> !IsBlank(lines[i]))
    && forall k | i < k < |lines| :: IsBlank(lines[k])
  }

  lemma {:induction false} LastLineIs(lines: seq<string>) returns (i: int)
    ensures IsLast(lines, i) && LastLine(lines) == if i < 0 then None else Some(lines[i])
  {
    var n := |lines| - 1;
    if n < 0 || !IsBlank(lines[n]) {
      i := n;
    } else {
      i := LastLineIs(lines[..n]);
    }
    hide IsBlank;
  }

  /**
   * The log is read by its last line that is not blank, and the agent state only when there is no such line; text that
   * cannot be read is an error, and only where both are missing there is nothing.
   */
  lemma LoadedExactly<H>(codec: Codec<H>, log: Option<string>, agentState: Option<string>) returns (i: int)
    ensures IsLast(if log.Some? then Lines(log.value) else [], i)
    ensures var r := Loaded(codec, log, agentState);
            && (forall h :: r == Ok(Some(h)) <==>
                  || (i >= 0 && codec.decode(Lines(log.value)[i]) == Some(h))
                  || (i < 0 && agentState.Some? && codec.decode(agentState.value) == Some(h)))
            && (r == Ok(None) <==> i < 0 && agentState.None?)
  {
    var lines := if log.Some? then Lines(log.value) else [];
    i := LastLineIs(lines);
    hide Lines, LastLine, IsBlank;
  }

  // ---------------------------------------------------------------------------- text and its lines

  lemma {:induction false} LineEndAt(line: string, rest: string)
    requires NEWLINE !in line
    ensures LineEnd(line + [NEWLINE] + rest) == |line|
  {
    var text := line + [NEWLINE] + rest;
    if line != "" {
      assert text[1..] == line[1..] + [NEWLINE] + rest;
      LineEndAt(line[1..], rest);
    }
  }

  function Stripped(lines: seq<string>): (s: seq<string>)
    ensures |s| == |lines| && forall i | 0 <= i < |s| :: s[i] == StripReturn(lines[i])
  {
    seq(|lines|, i requires 0 <= i < |lines| => StripReturn(lines[i]))
  }

  lemma FirstLine(line: string, rest: string)
    requires NEWLINE !in line
    ensures Lines(line + [NEWLINE] + rest) == [StripReturn(line)] + Lines(rest)
    ensures Lines("") == []
  {
    LineEndAt(line, rest);
    hide LineEnd, StripReturn;
    var text := line + [NEWLINE] + rest;
    assert text[..|line|] == line && text[|line| + 1..] == rest;
  }

  /** Writing lines and reading them back gives them again, but for a carriage return at the end of one. */
  lemma {:induction false} LinesOfRender(lines: seq<string>)
    requires lines != [] && forall i | 0 <= i < |lines| :: NEWLINE !in lines[i]
    ensures Lines(Render(lines)) == Stripped(lines)
  {
    hide Lines, StripReturn;
    var rest := if |lines| == 1 then "" else Render(lines[1..]);
    FirstLine(lines[0], rest);
    if |lines| > 1 {
      LinesOfRender(lines[1..]);
      assert Stripped(lines) == [StripReturn(lines[0])] + Stripped(lines[1..]);
    }
  }

  lemma {:induction false} LinesHaveNoNewline(text: string)
    ensures forall i | 0 <= i < |Lines(text)| :: NEWLINE !in Lines(text)[i]
    decreases |text|
  {
    if text != "" && LineEnd(text) == |text| {
      assert text[..|text|] == text;
    } else if text != "" {
      LinesHaveNoNewline(text[LineEnd(text) + 1..]);
    }
  }

  // ------------------------------------------------------------------------------- text and records

  /** The dated heartbeats among the lines. */
  function Dated<H>(codec: Codec<H>, lines: seq<string>): (records: seq<H>)
    ensures forall h | h in records :: codec.stamp(h).Some?
  {
    if lines == [] then []
    else (if LineStamp(codec, lines[0]).Some? then [codec.decode(lines[0]).value] else []) + Dated(codec, lines[1..])
  }

  /** The record list that a log text stands for. */
  function Records<H>(codec: Codec<H>, text: string): (records: seq<H>)
    ensures forall h | h in records :: codec.stamp(h).Some?
  {
    Dated(codec, Lines(text))
  }

  /** Saving, on records: an undated heartbeat, or one that comes too late, takes all earlier ones with it. */
  function Saved<H>(codec: Codec<H>, records: seq<H>, h: H): seq<H>
    requires forall r | r in records :: codec.stamp(r).Some?
  {
    if codec.stamp(h).None? then []
    else if records == [] || codec.stamp(h).value - codec.stamp(records[0]).value >= TTL_SECONDS then [h]
    else records + [h]
  }

  lemma {:induction false} DatedAppend<H>(codec: Codec<H>, a: seq<string>, b: seq<string>)
    ensures Dated(codec, a + b) == Dated(codec, a) + Dated(codec, b)
  {
    hide Dated, LineStamp;
    if |a| == 0 {
      NoneDated(codec, a);
      assert a + b == b;
    } else {
      DatedAppend(codec, a[1..], b);
      assert (a + b)[1..] == a[1..] + b;
      DatedOne(codec, a);
      DatedOne(codec, a + b);
    }
  }

  lemma DatedOne<H>(codec: Codec<H>, lines: seq<string>)
    requires lines != []
    ensures Dated(codec, lines)
         == (if LineStamp(codec, lines[0]).Some? then [codec.decode(lines[0]).value] else []) + Dated(codec, lines[1..])
  {
  }

  lemma {:induction false} DatedStamped<H>(codec: Codec<H>, lines: seq<string>)
    ensures Dated(codec, Stamped(codec, lines)) == Dated(codec, lines)
    ensures Stamped(codec, lines) == [] <==> Dated(codec, lines) == []
    ensures Dated(codec, lines) != [] ==> Some(Dated(codec, lines)[0]) == codec.decode(Stamped(codec, lines)[0])
  {
    if lines != [] {
      var kept, rest := Stamped(codec, lines), Stamped(codec, lines[1..]);
      DatedStamped(codec, lines[1..]);
      if LineStamp(codec, lines[0]).Some? {
        assert kept == [lines[0]] + rest && kept[1..] == rest;
      } else {
        assert kept == rest && Dated(codec, lines) == Dated(codec, lines[1..]);
      }
    }
  }

  lemma {:induction false} DatedStripped<H(!new)>(codec: Codec<H>, lines: seq<string>)
    requires IsJsonLines(codec)
    ensures Dated(codec, Stripped(lines)) == Dated(codec, lines)
  {
    if lines != [] {
      DatedStripped(codec, lines[1..]);
      assert Stripped(lines)[1..] == Stripped(lines[1..]);
      var line := lines[0];
      if line != "" && line[|line| - 1] == RETURN {
        assert line == line[..|line| - 1] + [RETURN];
      }
    }
  }

  lemma RecordsOfRender<H(!new)>(codec: Codec<H>, kept: seq<string>, h: H)
    requires IsJsonLines(codec) && forall i | 0 <= i < |kept| :: NEWLINE !in kept[i]
    ensures Records(codec, Render(kept + [codec.encode(h)])) == Dated(codec, kept) + if codec.stamp(h).Some? then [h] else []
  {
    var lines := kept + [codec.encode(h)];
    LinesOfRender(lines);
    DatedStripped(codec, lines);
    DatedAppend(codec, kept, [codec.encode(h)]);
    OneRecord(codec, h);
    hide Dated, Lines, Render, IsJsonLines;
  }

  lemma OneRecord<H(!new)>(codec: Codec<H>, h: H)
    requires IsJsonLines(codec)
    ensures LineStamp(codec, codec.encode(h)) == codec.stamp(h)
    ensures Dated(codec, [codec.encode(h)]) == if codec.stamp(h).Some? then [h] else []
  {
    var one := [codec.encode(h)];
    var none := one[1..];
    assert Dated(codec, none) == [];
    assert codec.decode(one[0]) == Some(h);
  }

  /** The lines that a save may keep stand for the records so far. */
  lemma KeptRecords<H(!new)>(codec: Codec<H>, existing: string)
    ensures var kept, records := Stamped(codec, Lines(existing)), Records(codec, existing);
            && Dated(codec, kept) == records && (kept == [] <==> records == [])
            && (kept != [] ==> LineStamp(codec, kept[0]) == codec.stamp(records[0]))
            && forall i | 0 <= i < |kept| :: NEWLINE !in kept[i]
  {
    DatedStamped(codec, Lines(existing));
    LinesHaveNoNewline(existing);
    var kept := Stamped(codec, Lines(existing));
    assert forall i | 0 <= i < |kept| :: kept[i] in kept;
  }

  /** Whatever text the log holds, saving acts on the records it stands for: all earlier ones stay, or none does. */
  lemma {:induction false} SaveRefines<H(!new)>(codec: Codec<H>, existing: string, h: H)
    requires IsJsonLines(codec)
    ensures Records(codec, ResetExpiredHeartbeatLog(codec, existing, codec.encode(h))) == Saved(codec, Records(codec, existing), h)
  {
    KeptRecords(codec, existing);
    OneRecord(codec, h);
    hide Records, Lines, Render, IsJsonLines, Stamped, LineStamp;
    var kept := Stamped(codec, Lines(existing));
    var none := kept[..0];
    NoneDated(codec, none);
    RecordsOfRender(codec, none, h);
    RecordsOfRender(codec, kept, h);
    assert none + [codec.encode(h)] == [codec.encode(h)];
    hide Dated;
  }

  lemma NoneDated<H>(codec: Codec<H>, lines: seq<string>)
    requires |lines| == 0
    ensures Dated(codec, lines) == []
  {
  }

  // ----------------------------------------------------------------------------------- a life of saves

  function TextAfter<H>(codec: Codec<H>, text: string, saves: seq<H>): string {
    if saves == [] then text
    else ResetExpiredHeartbeatLog(codec, TextAfter(codec, text, saves[..|saves| - 1]), codec.encode(saves[|saves| - 1]))
  }

  ghost predicate WithinTtl<H>(codec: Codec<H>, records: seq<H>) {
    forall i | 0 <= i < |records| ::
      codec.stamp(records[i]).Some? && codec.stamp(records[0]).Some?
      && codec.stamp(records[i]).value - codec.stamp(records[0]).value < TTL_SECONDS
  }

  /**
   * Why nothing before save `k` is left: it is the first, or follows an undated one, or came too late after a run that
   * had begun with save `m`.
   */
  ghost predicate BeganAnew<H>(codec: Codec<H>, saves: seq<H>, k: nat) {
    || k == 0 || k >= |saves| || codec.stamp(saves[k - 1]).None?
    || exists m: nat | m < k :: Expires(codec, saves, m, k)
  }

  ghost predicate Expires<H>(codec: Codec<H>, saves: seq<H>, m: nat, k: nat) {
    && m < k < |saves| && WithinTtl(codec, saves[m..k]) && codec.stamp(saves[m]).Some? && codec.stamp(saves[k]).Some?
    && codec.stamp(saves[k]).value - codec.stamp(saves[m]).value >= TTL_SECONDS
  }

  /**
   * From no file, after any saves, the text stands for exactly the saves since the last reset: a run of the latest
   * ones, all dated and each within the time to live of the first. It is empty only when the last one is undated.
   */
  lemma {:induction false} LogHoldsLatestRun<H(!new)>(codec: Codec<H>, saves: seq<H>) returns (k: nat)
    requires IsJsonLines(codec)
    ensures k <= |saves| && Records(codec, TextAfter(codec, "", saves)) == saves[k..]
    ensures WithinTtl(codec, saves[k..]) && BeganAnew(codec, saves, k)
    ensures k == |saves| <==> saves == [] || codec.stamp(saves[|saves| - 1]).None?
  {
    if saves == [] {
      k := 0;
    } else {
      var n := |saves| - 1;
      var before := LogHoldsLatestRun(codec, saves[..n]);
      SaveRefines(codec, TextAfter(codec, "", saves[..n]), saves[n]);
      assert saves[..n][before..] == saves[before..n];
      k := SavedIsRun(codec, saves, before);
      assert TextAfter(codec, "", saves)
          == ResetExpiredHeartbeatLog(codec, TextAfter(codec, "", saves[..n]), codec.encode(saves[n]));
      hide *;
    }
  }

  lemma SavedIsRun<H>(codec: Codec<H>, saves: seq<H>, before: nat) returns (k: nat)
    requires saves != [] && before < |saves| && WithinTtl(codec, saves[before..|saves| - 1])
    requires BeganAnew(codec, saves[..|saves| - 1], before)
    requires before == |saves| - 1 ==> before == 0 || codec.stamp(saves[before - 1]).None?
    ensures k <= |saves| && WithinTtl(codec, saves[k..]) && BeganAnew(codec, saves, k)
    ensures k == |saves| <==> codec.stamp(saves[|saves| - 1]).None?
    ensures (forall r | r in saves[before..|saves| - 1] :: codec.stamp(r).Some?)
         && Saved(codec, saves[before..|saves| - 1], saves[|saves| - 1]) == saves[k..]
  {
    var n := |saves| - 1;
    var records := saves[before..n];
    if codec.stamp(saves[n]).None? {
      k := n + 1;
    } else if records == [] {
      k := n;
    } else if codec.stamp(saves[n]).value - codec.stamp(records[0]).value >= TTL_SECONDS {
      k := n;
      assert Expires(codec, saves, before, n);
    } else {
      k := before;
      assert saves[k..] == records + [saves[n]];
      if k > 0 && codec.stamp(saves[k - 1]).Some? {
        var m: nat :| m < k && Expires(codec, saves[..n], m, k);
        assert saves[..n][m..k] == saves[m..k];
        assert Expires(codec, saves, m, k);
      }
    }
  }

  lemma LastOfRender(kept: seq<string>, line: string)
    requires !IsBlank(line) && RETURN !in line && NEWLINE !in line
    requires forall i | 0 <= i < |kept| :: NEWLINE !in kept[i]
    ensures LastLine(Lines(Render(kept + [line]))) == Some(line)
  {
    hide IsBlank, Lines, Render;
    LinesOfRender(kept + [line]);
    var lines := Stripped(kept + [line]);
    assert (kept + [line])[|kept|] == line;
    EndsAsIs(line);
    hide StripReturn;
    assert lines[|lines| - 1] == line;
  }

  lemma EndsAsIs(line: string)
    requires RETURN !in line
    ensures StripReturn(line) == line
  {
  }

  /** Whatever the log held, and dated or not, the heartbeat saved last is the one that is loaded. */
  lemma LatestIsLoaded<H(!new)>(codec: Codec<H>, existing: string, h: H, agentState: Option<string>)
    requires IsJsonLines(codec)
    ensures Loaded(codec, Some(ResetExpiredHeartbeatLog(codec, existing, codec.encode(h))), agentState) == Ok(Some(h))
  {
    var kept, line := Stamped(codec, Lines(existing)), codec.encode(h);
    var none := kept[..0];
    KeptRecords(codec, existing);
    LastOfRender(none, line);
    LastOfRender(kept, line);
    assert none + [line] == [line];
    hide Lines, Render, LastLine, Stamped;
  }

  /** An undated save between two dated ones: it wipes the first out, and is wiped out by the second. */
  lemma UndatedSaveIsLost<H(!new)>(codec: Codec<H>, a: H, b: H, c: H)
    requires IsJsonLines(codec) && codec.stamp(a) == codec.stamp(c) == Some(0) && codec.stamp(b).None?
    ensures Records(codec, TextAfter(codec, "", [a])) == [a]
    ensures Records(codec, TextAfter(codec, "", [a, b])) == []
    ensures Records(codec, TextAfter(codec, "", [a, b, c])) == [c]
  {
    hide Records, ResetExpiredHeartbeatLog, IsJsonLines;
    var none := [a][..0];
    assert [a, b][..1] == [a] && [a, b, c][..2] == [a, b];
    assert TextAfter(codec, "", none) == "";
    NothingRecorded(codec, "");
    SaveRefines(codec, "", a);
    assert TextAfter(codec, "", [a]) == ResetExpiredHeartbeatLog(codec, "", codec.encode(a));
    SaveRefines(codec, TextAfter(codec, "", [a]), b);
    assert TextAfter(codec, "", [a, b]) == ResetExpiredHeartbeatLog(codec, TextAfter(codec, "", [a]), codec.encode(b));
    SaveRefines(codec, TextAfter(codec, "", [a, b]), c);
  }

  lemma NothingRecorded<H>(codec: Codec<H>, text: string)
    requires text == ""
    ensures Records(codec, text) == []
  {
  }
}
