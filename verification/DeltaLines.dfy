/** Deltas as hexadecimal lines among a worker's diagnostics (`worker_main` and its reader, agents/node/src/worker.rs). */
module DeltaLines {
  import opened Wrappers
  import opened Text
  import opened Encoding

  const PREFIX := "MUNDUSX_STREAM_DELTA:"
  const NEWLINE: byte := 10

  // ------------------------------------------------------------- Base 16 (section 8 of RFC 4648)

  function HexDigit(n: int): char
    requires 0 <= n < 16
  {
    if n < 10 then '0' + n as char else 'a' + (n - 10) as char
  }

  function DigitValue(c: char): (n: Option<int>)
    ensures n.Some? ==> 0 <= n.value < 16
  {
    if '0' <= c <= '9' then Some(c as int - '0' as int)
    else if 'a' <= c <= 'f' then Some(c as int - 'a' as int + 10)
    else if 'A' <= c <= 'F' then Some(c as int - 'A' as int + 10)
    else None
  }

  function HexEncode(bytes: seq<byte>): string {
    if bytes == [] then "" else [HexDigit(bytes[0] / 16), HexDigit(bytes[0] % 16)] + HexEncode(bytes[1..])
  }

  /** Digits of either case, in pairs. */
  function HexDecode(s: string): Option<seq<byte>> {
    if s == "" then Some([])
    else if |s| == 1 || DigitValue(s[0]).None? || DigitValue(s[1]).None? then None
    else
      var rest := HexDecode(s[2..]);
      if rest.None? then None else Some([DigitValue(s[0]).value * 16 + DigitValue(s[1]).value] + rest.value)
  }

  predicate IsLowerHex(c: char) {
    '0' <= c <= '9' || 'a' <= c <= 'f'
  }

  lemma DigitRoundTrip(n: int)
    requires 0 <= n < 16
    ensures DigitValue(HexDigit(n)) == Some(n) && IsLowerHex(HexDigit(n))
  {
  }

  lemma {:induction false} HexRoundTrip(bytes: seq<byte>)
    ensures HexDecode(HexEncode(bytes)) == Some(bytes)
    ensures forall i | 0 <= i < |HexEncode(bytes)| :: IsLowerHex(HexEncode(bytes)[i])
  {
    if bytes != [] {
      HexRoundTrip(bytes[1..]);
      DigitRoundTrip(bytes[0] / 16);
      DigitRoundTrip(bytes[0] % 16);
      hide DigitValue, HexDigit, IsLowerHex;
      var text := HexEncode(bytes);
      assert text[0] == HexDigit(bytes[0] / 16) && text[1] == HexDigit(bytes[0] % 16);
      assert text[2..] == HexEncode(bytes[1..]);
      assert forall i | 2 <= i < |text| :: text[i] == HexEncode(bytes[1..])[i - 2];
      assert HexDecode(text) == Some([bytes[0] / 16 * 16 + bytes[0] % 16] + bytes[1..]);
      assert [bytes[0]] + bytes[1..] == bytes;
    }
  }

  // --------------------------------------------------------------------------------- writer, reader

  /** One line of the writer. */
  function DeltaLine(delta: string): seq<byte> {
    Utf8(PREFIX + HexEncode(Utf8(delta)) + "\n")
  }

  /** The delta that a line carries, if it is a delta line; `lossy` is the reading of bytes as text. */
  function Classify(lossy: seq<byte> -> string, line: seq<byte>): Option<string> {
    var text := Trim(lossy(line));
    if !(PREFIX <= text) then None
    else
      match HexDecode(text[|PREFIX|..])
      case None => None
      case Some(bytes) => FromUtf8(bytes)
  }

  /** The first line with its newline, or all of an unfinished one. */
  function FirstLineEnd(input: seq<byte>): (n: nat)
    ensures n <= |input| && (input != [] ==> n > 0)
    ensures NEWLINE !in input[..n] || (n > 0 && input[n - 1] == NEWLINE && NEWLINE !in input[..n - 1])
    ensures n < |input| ==> n > 0 && input[n - 1] == NEWLINE
  {
    if input == [] then 0
    else if input[0] == NEWLINE then 1
    else
      var n := FirstLineEnd(input[1..]);
      assert input[..n + 1] == [input[0]] + input[1..][..n];
      assert n > 0 ==> input[..n] == [input[0]] + input[1..][..n - 1];
      n + 1
  }

  datatype Heard = Heard(deltas: seq<string>, diagnostics: seq<byte>)

  function Scan(lossy: seq<byte> -> string, input: seq<byte>): Heard
    decreases |input|
  {
    if input == [] then Heard([], [])
    else
      var n := FirstLineEnd(input);
      var delta, rest := Classify(lossy, input[..n]), Scan(lossy, input[n..]);
      if delta.Some? then Heard([delta.value] + rest.deltas, rest.diagnostics)
      else Heard(rest.deltas, input[..n] + rest.diagnostics)
  }

  class StderrReader {
    const lossy: seq<byte> -> string
    var sent: seq<string>

    constructor (lossy: seq<byte> -> string)
      ensures this.lossy == lossy && sent == []
    {
      this.lossy, sent := lossy, [];
    }

    /** Reads to the end: deltas are sent on in order, every other line is kept as it came. */
    method Run(input: seq<byte>) returns (diagnostics: seq<byte>)
      modifies this
      ensures sent == old(sent) + Scan(lossy, input).deltas && diagnostics == Scan(lossy, input).diagnostics
    {
      hide Scan, HexDecode, FromUtf8, Trim, FirstLineEnd;
      diagnostics := [];
      var left := input;
      while left != []
        invariant sent + Scan(lossy, left).deltas == old(sent) + Scan(lossy, input).deltas
        invariant diagnostics + Scan(lossy, left).diagnostics == Scan(lossy, input).diagnostics
        decreases |left|
      {
        ScanLine(lossy, left);
        ghost var found, rest := Classify(lossy, left[..FirstLineEnd(left)]), Scan(lossy, left[FirstLineEnd(left)..]);
        assert found.Some? ==> sent + ([found.value] + rest.deltas) == sent + [found.value] + rest.deltas;
        assert found.None? ==>
            diagnostics + (left[..FirstLineEnd(left)] + rest.diagnostics) == diagnostics + left[..FirstLineEnd(left)] + rest.diagnostics;
        var n := FirstLineEnd(left);
        var line := left[..n];
        left := left[n..];
        var text := Trim(lossy(line));
        if PREFIX <= text {
          var bytes := HexDecode(text[|PREFIX|..]);
          if bytes.Some? {
            var delta := FromUtf8(bytes.value);
            if delta.Some? {
              sent := sent + [delta.value];
              continue;
            }
          }
        }
        diagnostics := diagnostics + line;
      }
      ScanNothing(lossy, left);
    }
  }

  lemma ScanNothing(lossy: seq<byte> -> string, input: seq<byte>)
    requires |input| == 0
    ensures Scan(lossy, input) == Heard([], [])
  {
  }

  lemma ScanLine(lossy: seq<byte> -> string, input: seq<byte>)
    requires input != []
    ensures var n := FirstLineEnd(input);
            var delta, rest := Classify(lossy, input[..n]), Scan(lossy, input[n..]);
            && 0 < n <= |input|
            && Scan(lossy, input) == if delta.Some? then Heard([delta.value] + rest.deltas, rest.diagnostics)
                                     else Heard(rest.deltas, input[..n] + rest.diagnostics)
  {
  }

  // ------------------------------------------------------------------------------------- round trip

  /** Text that is UTF-8 reads as itself. */
  ghost predicate IsLossy(lossy: seq<byte> -> string) {
    forall s :: lossy(Utf8(s)) == s
  }

  /** A delta's line is one line, and carries that delta. */
  lemma DeltaLineCarries(lossy: seq<byte> -> string, delta: string)
    requires IsLossy(lossy)
    ensures Classify(lossy, DeltaLine(delta)) == Some(delta)
    ensures IsLine(DeltaLine(delta))
  {
    var hex := HexEncode(Utf8(delta));
    HexRoundTrip(Utf8(delta));
    DecodeEncoded(delta);
    LineText(hex);
    hide HexEncode, HexDecode, Utf8, FromUtf8, Trim;
    assert (PREFIX + hex)[|PREFIX|..] == hex;
  }

  /** A whole line: a newline at its end and nowhere else. */
  ghost predicate IsLine(line: seq<byte>) {
    line != [] && line[|line| - 1] == NEWLINE && NEWLINE !in line[..|line| - 1]
  }

  lemma PrefixText()
    ensures forall i | 0 <= i < |PREFIX| :: '0' <= PREFIX[i] < '\U{0080}'
  {
  }

  lemma LineText(hex: string)
    requires forall i | 0 <= i < |hex| :: IsLowerHex(hex[i])
    ensures Trim(PREFIX + hex + "\n") == PREFIX + hex && IsLine(Utf8(PREFIX + hex + "\n"))
  {
    PrefixText();
    BodyText(PREFIX + hex);
  }

  lemma BodyText(body: string)
    requires body != "" && forall i | 0 <= i < |body| :: '0' <= body[i] < '\U{0080}'
    ensures Trim(body + "\n") == body && IsLine(Utf8(body + "\n"))
  {
    hide Utf8, Trim, ByteLength;
    var end := "\n";
    TrimStripsOneTail(body, end[0]);
    Utf8Append(body, end);
    AsciiText(body);
    AsciiText(end);
    assert Utf8(body + end)[..|body|] == Utf8(body);
  }

  // ---------------------------------------------------------------- deltas and diagnostics, interleaved

  /** What is written to the one stream: delta lines by the printer, whole diagnostic lines by anything else. */
  datatype Item = Delta(text: string) | Diagnostic(line: seq<byte>)

  function Written(items: seq<Item>): seq<byte> {
    if items == [] then []
    else (match items[0] case Delta(text) => DeltaLine(text) case Diagnostic(line) => line) + Written(items[1..])
  }

  function DeltasOf(items: seq<Item>): seq<string> {
    if items == [] then []
    else (match items[0] case Delta(text) => [text] case Diagnostic(_) => []) + DeltasOf(items[1..])
  }

  function DiagnosticsOf(items: seq<Item>): seq<byte> {
    if items == [] then []
    else (match items[0] case Delta(_) => [] case Diagnostic(line) => line) + DiagnosticsOf(items[1..])
  }

  ghost predicate HasWholeLines(items: seq<Item>) {
    forall i | 0 <= i < |items| :: items[i].Diagnostic? ==> IsLine(items[i].line)
  }

  predicate IsPlain(lossy: seq<byte> -> string, item: Item) {
    item.Diagnostic? ==> Classify(lossy, item.line).None?
  }

  lemma {:induction false} FirstLineOf(line: seq<byte>, rest: seq<byte>)
    requires IsLine(line)
    ensures FirstLineEnd(line + rest) == |line|
  {
    if |line| > 1 {
      assert line[0] in line[..|line| - 1];
      assert (line + rest)[1..] == line[1..] + rest;
      assert line[1..][..|line| - 2] == line[..|line| - 1][1..];
      FirstLineOf(line[1..], rest);
    }
  }

  lemma ScanItem(lossy: seq<byte> -> string, line: seq<byte>, rest: seq<byte>)
    requires IsLine(line)
    ensures var delta, after := Classify(lossy, line), Scan(lossy, rest);
            Scan(lossy, line + rest) == if delta.Some? then Heard([delta.value] + after.deltas, after.diagnostics)
                                        else Heard(after.deltas, line + after.diagnostics)
  {
    FirstLineOf(line, rest);
    assert (line + rest)[..|line|] == line && (line + rest)[|line|..] == rest;
  }

  /** The reader hears the written deltas, each diagnostic that looks like one besides, and the other diagnostics. */
  lemma {:induction false} ScanFinds(lossy: seq<byte> -> string, items: seq<Item>)
    requires IsLossy(lossy) && HasWholeLines(items)
    ensures |Scan(lossy, Written(items)).deltas| >= |DeltasOf(items)|
    ensures (forall i | 0 <= i < |items| :: IsPlain(lossy, items[i])) ==>
              Scan(lossy, Written(items)) == Heard(DeltasOf(items), DiagnosticsOf(items))
    ensures !(forall i | 0 <= i < |items| :: IsPlain(lossy, items[i])) ==>
              |Scan(lossy, Written(items)).deltas| > |DeltasOf(items)|
  {
    if |items| == 0 {
      ScanNothing(lossy, Written(items));
    } else {
      var rest := items[1..];
      ScanFinds(lossy, rest);
      assert forall i | 0 <= i < |rest| :: rest[i] == items[i + 1];
      hide Scan, Classify, DeltaLine, IsLossy, IsLine;
      match items[0] {
        case Delta(text) =>
          DeltaLineCarries(lossy, text);
          ScanItem(lossy, DeltaLine(text), Written(rest));
        case Diagnostic(line) =>
          ScanItem(lossy, line, Written(rest));
      }
    }
  }

  /**
   * The reader recovers the same deltas in order and the diagnostic bytes unchanged, however the lines interleave and
   * whatever the deltas hold, exactly when no diagnostic line reads as a delta line.
   */
  lemma {:induction false} RecoversExactly(lossy: seq<byte> -> string, items: seq<Item>)
    requires IsLossy(lossy) && HasWholeLines(items)
    ensures Scan(lossy, Written(items)) == Heard(DeltasOf(items), DiagnosticsOf(items))
       <==> forall i | 0 <= i < |items| :: IsPlain(lossy, items[i])
  {
    ScanFinds(lossy, items);
    hide Scan, Written, DeltasOf, DiagnosticsOf, IsPlain;
  }

  ghost predicate IsMarked(lossy: seq<byte> -> string, line: seq<byte>) {
    PREFIX <= Trim(lossy(line))
  }

  /** So diagnostics that do not begin with the marker leave every delta and every byte in place. */
  lemma {:induction false} UnmarkedDiagnosticsKeepDeltas(lossy: seq<byte> -> string, items: seq<Item>)
    requires IsLossy(lossy) && HasWholeLines(items)
    requires forall i | 0 <= i < |items| :: items[i].Diagnostic? ==> !IsMarked(lossy, items[i].line)
    ensures Scan(lossy, Written(items)) == Heard(DeltasOf(items), DiagnosticsOf(items))
  {
    assert forall i | 0 <= i < |items| :: IsPlain(lossy, items[i]);
    hide Scan, Written, DeltasOf, DiagnosticsOf, IsPlain;
    RecoversExactly(lossy, items);
  }

  // ------------------------------------------------------------------------- streams that break off

  lemma {:induction false} HexCut(bytes: seq<byte>, m: nat)
    requires m <= |HexEncode(bytes)|
    ensures HexDecode(HexEncode(bytes)[..m]) == if m % 2 == 0 && m / 2 <= |bytes| then Some(bytes[..m / 2]) else None
    ensures |HexEncode(bytes)| == 2 * |bytes|
  {
    if |bytes| > 0 {
      var text, rest := HexEncode(bytes), HexEncode(bytes[1..]);
      assert text[2..] == rest;
      HexCut(bytes[1..], if m < 2 then 0 else m - 2);
      if m >= 2 {
        DigitRoundTrip(bytes[0] / 16);
        DigitRoundTrip(bytes[0] % 16);
        hide DigitValue, HexDigit;
        var cut := text[..m];
        assert cut[0] == text[0] && cut[1] == text[1] && cut[2..] == rest[..m - 2];
        if m % 2 == 0 {
          assert bytes[1..][..(m - 2) / 2] == bytes[1..m / 2];
          assert [bytes[0]] + bytes[1..m / 2] == bytes[..m / 2];
        }
      }
    }
  }

  /** Where a delta's line is broken off, what is left still reads as the text of its own first bytes. */
  lemma CutLineText(lossy: seq<byte> -> string, delta: string, m: nat)
    requires IsLossy(lossy) && m < |DeltaLine(delta)|
    ensures var body := PREFIX + HexEncode(Utf8(delta));
            m <= |body| && Trim(lossy(DeltaLine(delta)[..m])) == body[..m] && NEWLINE !in DeltaLine(delta)[..m]
  {
    var hex := HexEncode(Utf8(delta));
    HexRoundTrip(Utf8(delta));
    PrefixText();
    BodyCut(lossy, PREFIX + hex, m);
    hide Utf8, HexEncode;
  }

  lemma BodyCut(lossy: seq<byte> -> string, body: string, m: nat)
    requires IsLossy(lossy) && forall i | 0 <= i < |body| :: '0' <= body[i] < '\U{0080}'
    requires m < |Utf8(body + "\n")|
    ensures m <= |body| && Trim(lossy(Utf8(body + "\n")[..m])) == body[..m] && NEWLINE !in Utf8(body + "\n")[..m]
  {
    hide Utf8, ByteLength, Trim;
    var end := "\n";
    Utf8Append(body, end);
    AsciiText(body);
    AsciiText(end);
    assert body == body[..m] + body[m..];
    Utf8Append(body[..m], body[m..]);
    AsciiText(body[..m]);
    assert Utf8(body + end)[..m] == Utf8(body[..m]);
    NothingToTrim(body[..m]);
  }

  lemma NothingToTrim(s: string)
    requires forall i | 0 <= i < |s| :: '0' <= s[i] < '\U{0080}'
    ensures Trim(s) == s
  {
    assert s != [] ==> !IsWhitespace(s[0]) && !IsWhitespace(s[|s| - 1]);
  }

  /** It reads as whatever the whole bytes among its digits read as. */
  lemma ClassifyCut(lossy: seq<byte> -> string, delta: string, m: nat)
    requires IsLossy(lossy) && m < |DeltaLine(delta)|
    ensures var r, bytes := m - |PREFIX|, Utf8(delta);
            && r <= 2 * |bytes|
            && Classify(lossy, DeltaLine(delta)[..m]) == if r < 0 || r % 2 != 0 then None else FromUtf8(bytes[..r / 2])
  {
    hide HexDecode, HexEncode, Utf8, FromUtf8, Trim, DeltaLine, IsLossy, ByteLength;
    var bytes := Utf8(delta);
    CutLineText(lossy, delta, m);
    CutDigits(PREFIX, HexEncode(bytes), m);
    HexCut(bytes, if m < |PREFIX| then 0 else m - |PREFIX|);
  }

  lemma CutDigits(prefix: string, hex: string, m: nat)
    requires m <= |prefix + hex|
    ensures prefix <= (prefix + hex)[..m] <==> |prefix| <= m
    ensures |prefix| <= m ==> (prefix + hex)[..m][|prefix|..] == hex[..m - |prefix|]
  {
    if |prefix| <= m {
      assert (prefix + hex)[..m] == prefix + hex[..m - |prefix|];
    }
  }

  /**
   * A delta's line that breaks off, as when the worker is killed, still reads as a delta exactly when it does so after the
   * marker and at the end of a character, and then as the beginning of the delta up to there.
   */
  lemma {:induction false} CutLineReadsExactly(lossy: seq<byte> -> string, delta: string, m: nat, read: string)
    requires IsLossy(lossy) && m < |DeltaLine(delta)|
    ensures Classify(lossy, DeltaLine(delta)[..m]) == Some(read) <==> read <= delta && m == |PREFIX| + 2 * |Utf8(read)|
  {
    hide Classify, Utf8, ByteLength, FromUtf8, DeltaLine;
    ClassifyCut(lossy, delta, m);
    var r := m - |PREFIX|;
    if r >= 0 && r % 2 == 0 {
      CutReadsExactly(delta, r / 2, read);
    }
  }

  function LineOf(item: Item): seq<byte> {
    match item case Delta(text) => DeltaLine(text) case Diagnostic(line) => line
  }

  /** What the reader makes of a last line without its newline. */
  function HeardLast(lossy: seq<byte> -> string, whole: Heard, last: seq<byte>): Heard {
    if last == [] then whole
    else
      match Classify(lossy, last)
      case Some(delta) => whole.(deltas := whole.deltas + [delta])
      case None => whole.(diagnostics := whole.diagnostics + last)
  }

  lemma {:induction false} LoneLine(line: seq<byte>)
    requires NEWLINE !in line
    ensures FirstLineEnd(line) == |line|
  {
    if line != [] {
      assert line[0] in line && forall b | b in line[1..] :: b in line;
      LoneLine(line[1..]);
    }
  }

  lemma ScanLone(lossy: seq<byte> -> string, line: seq<byte>, whole: Heard)
    requires NEWLINE !in line && whole == Heard([], [])
    ensures Scan(lossy, line) == HeardLast(lossy, whole, line)
  {
    hide Classify;
    LoneLine(line);
    if line == [] {
      ScanNothing(lossy, line);
    } else {
      ScanLine(lossy, line);
      assert line[..|line|] == line;
      ScanNothing(lossy, line[|line|..]);
    }
  }

  lemma LineCut(line: seq<byte>, n: nat)
    requires IsLine(line) && n < |line|
    ensures NEWLINE !in line[..n]
  {
    assert forall b | b in line[..n] :: b in line[..|line| - 1];
  }

  /** Where a stream breaks off: after `k` whole lines and the beginning of another. */
  ghost predicate BreaksAt(items: seq<Item>, n: nat, k: nat, last: seq<byte>) {
    && n <= |Written(items)| && k <= |items|
    && Written(items)[..n] == Written(items[..k]) + last
    && (if k == |items| then last == [] else |last| < |LineOf(items[k])| && last <= LineOf(items[k]))
  }

  /**
   * The reader of a stream that breaks off anywhere hears the whole lines before that point as in the full stream, and
   * then what it makes of the broken one.
   */
  lemma {:induction false} CutStreamIsHeard(lossy: seq<byte> -> string, items: seq<Item>, n: nat) returns (k: nat, last: seq<byte>)
    requires IsLossy(lossy) && HasWholeLines(items) && n <= |Written(items)|
    requires forall i | 0 <= i < |items| :: IsPlain(lossy, items[i])
    ensures BreaksAt(items, n, k, last)
    ensures Scan(lossy, Written(items)[..n]) == HeardLast(lossy, Heard(DeltasOf(items[..k]), DiagnosticsOf(items[..k])), last)
  {
    hide Scan, Classify, DeltaLine, IsLossy, IsLine, DeltasOf, DiagnosticsOf, HeardFirst;
    if |items| == 0 {
      k, last := 0, Written(items)[..n];
      NothingWritten(items[..0]);
      NothingWritten(items);
      ScanNothing(lossy, last);
      assert items[..0] == items;
    } else {
      var line, rest := LineOf(items[0]), items[1..];
      assert forall i | 0 <= i < |rest| :: rest[i] == items[i + 1];
      if items[0].Delta? {
        DeltaLineCarries(lossy, items[0].text);
      }
      assert IsLine(line);
      if n < |line| {
        k, last := 0, line[..n];
        assert Written(items)[..n] == last;
        LineCut(line, n);
        NothingWritten(items[..0]);
        ScanLone(lossy, last, Heard([], []));
      } else {
        k, last := CutStreamIsHeard(lossy, rest, n - |line|);
        BreaksLater(items, n, k, last);
        HeardTake(items, k);
        ScanFirst(lossy, items[0], Written(rest)[..n - |line|]);
        FirstBeforeLast(lossy, items[0], Heard(DeltasOf(rest[..k]), DiagnosticsOf(rest[..k])), last);
        k := k + 1;
      }
    }
  }

  lemma NothingWritten(items: seq<Item>)
    requires |items| == 0
    ensures Written(items) == [] && DeltasOf(items) == [] && DiagnosticsOf(items) == []
  {
  }

  lemma WrittenFirst(items: seq<Item>)
    requires items != []
    ensures Written(items) == LineOf(items[0]) + Written(items[1..])
    ensures DeltasOf(items) == (if items[0].Delta? then [items[0].text] else []) + DeltasOf(items[1..])
    ensures DiagnosticsOf(items) == (if items[0].Delta? then [] else items[0].line) + DiagnosticsOf(items[1..])
  {
  }

  lemma WrittenTake(items: seq<Item>, k: nat)
    requires k < |items|
    ensures Written(items[..k + 1]) == LineOf(items[0]) + Written(items[1..][..k])
  {
    WrittenFirst(items[..k + 1]);
    hide LineOf, Written;
    assert items[..k + 1][1..] == items[1..][..k];
  }

  lemma TakeOfSum(a: seq<byte>, b: seq<byte>, c: seq<byte>, n: nat)
    requires |a| <= n <= |a + b + c|
    ensures (a + (b + c))[..n] == a + (b + c)[..n - |a|] && a + (b + c) == (a + b) + c
  {
  }

  lemma BreaksLater(items: seq<Item>, n: nat, k: nat, last: seq<byte>)
    requires items != [] && |LineOf(items[0])| <= n && BreaksAt(items[1..], n - |LineOf(items[0])|, k, last)
    ensures BreaksAt(items, n, k + 1, last)
    ensures Written(items)[..n] == LineOf(items[0]) + Written(items[1..])[..n - |LineOf(items[0])|]
    ensures k < |items| && n - |LineOf(items[0])| <= |Written(items[1..])|
  {
    hide LineOf, Written;
    var line, rest := LineOf(items[0]), items[1..];
    WrittenFirst(items);
    WrittenTake(items, k);
    TakeOfSum(line, Written(rest), [], n);
    TakeOfSum(line, Written(rest[..k]), last, |line|);
    assert Written(rest) + [] == Written(rest);
  }

  /** What one item adds before what follows it. */
  function HeardFirst(item: Item, rest: Heard): Heard {
    match item
    case Delta(text) => Heard([text] + rest.deltas, rest.diagnostics)
    case Diagnostic(line) => Heard(rest.deltas, line + rest.diagnostics)
  }

  lemma FirstBeforeLast(lossy: seq<byte> -> string, item: Item, whole: Heard, last: seq<byte>)
    ensures HeardLast(lossy, HeardFirst(item, whole), last) == HeardFirst(item, HeardLast(lossy, whole, last))
  {
    hide Classify;
  }

  lemma ScanFirst(lossy: seq<byte> -> string, item: Item, rest: seq<byte>)
    requires IsLossy(lossy) && IsLine(LineOf(item)) && IsPlain(lossy, item)
    ensures Scan(lossy, LineOf(item) + rest) == HeardFirst(item, Scan(lossy, rest))
  {
    hide Scan, Classify, DeltaLine, IsLossy, IsLine;
    if item.Delta? {
      DeltaLineCarries(lossy, item.text);
    }
    ScanItem(lossy, LineOf(item), rest);
  }

  lemma HeardTake(items: seq<Item>, k: nat)
    requires k < |items|
    ensures Heard(DeltasOf(items[..k + 1]), DiagnosticsOf(items[..k + 1]))
         == HeardFirst(items[0], Heard(DeltasOf(items[1..][..k]), DiagnosticsOf(items[1..][..k])))
  {
    WrittenFirst(items[..k + 1]);
    hide DeltasOf, DiagnosticsOf;
    assert items[..k + 1][1..] == items[1..][..k] && items[..k + 1][0] == items[0];
  }

  /** The first `c` deltas whole, and perhaps the beginning of the next. */
  ghost predicate BeginsWith(heard: seq<string>, deltas: seq<string>, c: nat) {
    && c <= |heard| <= c + 1 && |heard| <= |deltas| && heard[..c] == deltas[..c]
    && (|heard| > c ==> heard[c] <= deltas[c])
  }

  /** No diagnostic line nor the beginning of one reads as a delta. */
  ghost predicate KeepsApart(lossy: seq<byte> -> string, items: seq<Item>) {
    forall i, m: nat | 0 <= i < |items| && items[i].Diagnostic? && m <= |items[i].line| :: Classify(lossy, items[i].line[..m]).None?
  }

  lemma {:induction false} DeltasTake(items: seq<Item>, k: nat)
    requires k <= |items|
    ensures DeltasOf(items[..k]) <= DeltasOf(items)
    ensures k < |items| && items[k].Delta? ==>
              |DeltasOf(items[..k])| < |DeltasOf(items)| && DeltasOf(items)[|DeltasOf(items[..k])|] == items[k].text
  {
    if k == 0 {
      NothingWritten(items[..0]);
    } else {
      DeltasTake(items[1..], k - 1);
      WrittenFirst(items);
      WrittenFirst(items[..k]);
      assert items[..k][1..] == items[1..][..k - 1];
    }
  }

  /** Wherever the stream breaks off, what is heard begins what was written: deltas in order, the last perhaps in part. */
  lemma {:induction false} CutStreamBegins(lossy: seq<byte> -> string, items: seq<Item>, n: nat) returns (c: nat)
    requires IsLossy(lossy) && HasWholeLines(items) && KeepsApart(lossy, items) && n <= |Written(items)|
    ensures BeginsWith(Scan(lossy, Written(items)[..n]).deltas, DeltasOf(items), c)
    ensures n == |Written(items)| ==> Scan(lossy, Written(items)[..n]).deltas == DeltasOf(items)
  {
    hide Scan, LineOf, DeltaLine, IsLossy, Written, DeltasOf, DiagnosticsOf, HasWholeLines, Classify, KeepsApart, BreaksAt, IsPlain;
    PlainWhenApart(lossy, items);
    var k, last := CutStreamIsHeard(lossy, items, n);
    BreaksInBounds(items, n, k, last);
    DeltasTake(items, k);
    RecoversExactly(lossy, items);
    assert Written(items)[..|Written(items)|] == Written(items);
    c := |DeltasOf(items[..k])|;
    if last != [] && Classify(lossy, last).Some? {
      LastBegins(lossy, items, n, k, last);
    }
  }

  lemma BreaksInBounds(items: seq<Item>, n: nat, k: nat, last: seq<byte>)
    requires BreaksAt(items, n, k, last)
    ensures k <= |items| && (k == |items| ==> last == [])
  {
  }

  lemma LastBegins(lossy: seq<byte> -> string, items: seq<Item>, n: nat, k: nat, last: seq<byte>)
    requires IsLossy(lossy) && KeepsApart(lossy, items) && BreaksAt(items, n, k, last)
    requires last != [] && Classify(lossy, last).Some?
    ensures k < |items| && items[k].Delta? && Classify(lossy, last).value <= items[k].text
  {
    hide Classify, DeltaLine, IsLossy, Written;
    var line := LineOf(items[k]);
    assert last == line[..|last|];
    assert items[k].Delta?;
    CutLineReadsExactly(lossy, items[k].text, |last|, Classify(lossy, last).value);
  }

  lemma PlainWhenApart(lossy: seq<byte> -> string, items: seq<Item>)
    requires KeepsApart(lossy, items)
    ensures forall i | 0 <= i < |items| :: IsPlain(lossy, items[i])
  {
    hide Classify;
    forall i | 0 <= i < |items| && items[i].Diagnostic?
      ensures Classify(lossy, items[i].line).None?
    {
      assert items[i].line[..|items[i].line|] == items[i].line;
    }
  }
}
