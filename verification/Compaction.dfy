/** Transcript compaction: a byte bound over UTF-8 text (packages/agent-core/src/context.rs). */
module Compactions {
  import opened Wrappers
  import opened Text
  import opened Encoding

  const MARKER := "[Earlier conversation compacted]\n\n"
  const MARKER_BYTES: nat := 34
  const MIN_LIMIT: nat := 1024

  /** `is_char_boundary`. */
  predicate IsBoundary(bytes: seq<byte>, i: nat) {
    i == 0 || i == |bytes| || (i < |bytes| && !IsContinuation(bytes[i]))
  }

  // ------------------------------------------------------------------------------------- the code

  datatype ContextWindow = ContextWindow(text: seq<byte>, originalBytes: nat, compacted: bool)

  function Limit(maxChars: nat): nat {
    if maxChars > MIN_LIMIT then maxChars else MIN_LIMIT
  }

  function NextBoundary(bytes: seq<byte>, i: nat): (j: nat)
    requires i <= |bytes|
    ensures i <= j <= |bytes| && IsBoundary(bytes, j)
    ensures forall k | i <= k < j :: !IsBoundary(bytes, k)
    decreases |bytes| - i
  {
    if IsBoundary(bytes, i) then i else NextBoundary(bytes, i + 1)
  }

  function Compacted(bytes: seq<byte>, maxChars: nat): ContextWindow {
    var limit := Limit(maxChars);
    if |bytes| <= limit then ContextWindow(bytes, |bytes|, false)
    else
      ContextWindow(Utf8(MARKER) + bytes[NextBoundary(bytes, Less(|bytes|, Less(limit, |Utf8(MARKER)|)))..], |bytes|, true)
  }

  /** The scan for a boundary takes at most three steps. */
  method CompactTranscript(transcript: seq<byte>, maxChars: nat, ghost s: string) returns (window: ContextWindow, ghost steps: nat)
    requires transcript == Utf8(s)
    ensures window == Compacted(transcript, maxChars) && steps <= 3
  {
    hide Utf8, ByteLength;
    steps := 0;
    var limit := if maxChars > MIN_LIMIT then maxChars else MIN_LIMIT;
    if |transcript| <= limit {
      return ContextWindow(transcript, |transcript|, false), 0;
    }
    var marker := Utf8(MARKER);
    var keep := Less(limit, |marker|);
    var start := Less(|transcript|, keep);
    ghost var from := start;
    var near := BoundaryNear(s, from);
    while !IsBoundary(transcript, start)
      invariant from <= start <= near <= |transcript| && steps == start - from
      invariant NextBoundary(transcript, start) == NextBoundary(transcript, from)
      decreases |transcript| - start
    {
      start, steps := start + 1, steps + 1;
    }
    window := ContextWindow(marker + transcript[start..], |transcript|, true);
  }

  // ----------------------------------------------------------------------- boundaries and characters

  /** Where character `k` of a text begins. */
  function Offset(s: string, k: nat): nat
    requires k <= |s|
  {
    |Utf8(s[..k])|
  }

  lemma OffsetShifts(s: string, k: nat)
    requires s != "" && k <= |s|
    ensures Offset(s, k) == if k == 0 then 0 else |EncodeChar(s[0])| + Offset(s[1..], k - 1)
  {
    hide EncodeChar, ByteLength;
    if k > 0 {
      assert s[..k][1..] == s[1..][..k - 1];
    }
  }

  ghost predicate IsOffset(s: string, i: nat) {
    exists k | 0 <= k <= |s| :: Offset(s, k) == i
  }

  lemma OffsetsShift(s: string, i: nat)
    requires s != ""
    ensures IsOffset(s, i) <==> i == 0 || (i >= |EncodeChar(s[0])| && IsOffset(s[1..], i - |EncodeChar(s[0])|))
  {
    hide Offset, EncodeChar;
    OffsetShifts(s, 0);
    if IsOffset(s, i) && i > 0 {
      var k :| 0 <= k <= |s| && Offset(s, k) == i;
      OffsetShifts(s, k);
      assert Offset(s[1..], k - 1) == i - |EncodeChar(s[0])|;
    }
    if i >= |EncodeChar(s[0])| && IsOffset(s[1..], i - |EncodeChar(s[0])|) {
      var k :| 0 <= k <= |s[1..]| && Offset(s[1..], k) == i - |EncodeChar(s[0])|;
      OffsetShifts(s, k + 1);
      assert Offset(s, k + 1) == i;
    }
  }

  /** The boundaries of a text in UTF-8 are exactly the places where a character begins, and the end. */
  lemma {:induction false} BoundariesExactly(s: string, i: nat)
    requires i <= |Utf8(s)|
    ensures IsBoundary(Utf8(s), i) <==> IsOffset(s, i)
  {
    if s == "" {
      assert Offset(s, 0) == 0;
    } else {
      var first, rest := EncodeChar(s[0]), s[1..];
      OffsetsShift(s, i);
      StartsAtBoundary(rest);
      hide EncodeChar, ByteLength, IsContinuation, IsOffset;
      if i >= |first| {
        BoundariesExactly(rest, i - |first|);
        assert i < |Utf8(s)| ==> Utf8(s)[i] == Utf8(rest)[i - |first|];
      }
    }
  }

  /** A boundary is never more than three bytes away. */
  lemma {:induction false} BoundaryNear(s: string, i: nat) returns (j: nat)
    requires i <= |Utf8(s)|
    ensures i <= j <= i + 3 && j <= |Utf8(s)| && IsBoundary(Utf8(s), j)
  {
    if s == "" || i == 0 {
      j := i;
    } else {
      var first := EncodeChar(s[0]);
      if i < |first| {
        j := |first|;
        StartsAtBoundary(s[1..]);
      } else {
        var k := BoundaryNear(s[1..], i - |first|);
        j := k + |first|;
        StartsAtBoundary(s[1..]);
      }
    }
  }

  lemma StartsAtBoundary(s: string)
    ensures s != "" ==> |Utf8(s)| > 0 && !IsContinuation(Utf8(s)[0])
  {
  }

  // --------------------------------------------------------------------------------- what is kept

  lemma MarkerBytes(s: string)
    requires s == MARKER
    ensures |Utf8(s)| == MARKER_BYTES
  {
    hide Utf8;
    AsciiText(s);
  }

  lemma OffsetSplits(s: string, k: nat)
    requires k <= |s|
    ensures Offset(s, k) <= |Utf8(s)| && Utf8(s)[Offset(s, k)..] == Utf8(s[k..])
  {
    hide Utf8, ByteLength;
    assert s[..k] + s[k..] == s;
    Utf8Append(s[..k], s[k..]);
  }

  lemma OffsetsGrow(s: string, k: nat)
    requires 0 < k <= |s|
    ensures Offset(s, k - 1) < Offset(s, k)
  {
    hide Utf8, ByteLength;
    assert s[..k - 1] + [s[k - 1]] == s[..k];
    Utf8Append(s[..k - 1], [s[k - 1]]);
    OneCharacter([s[k - 1]]);
  }

  lemma OneCharacter(s: string)
    requires |s| == 1
    ensures |Utf8(s)| >= 1
  {
  }

  /** From the next boundary on there are whole characters, and one more would begin before `from`. */
  lemma SuffixFrom(s: string, from: nat) returns (k: nat)
    requires 0 < from <= |Utf8(s)|
    ensures 0 < k <= |s|
    ensures var j := NextBoundary(Utf8(s), from);
            Utf8(s)[j..] == Utf8(s[k..]) && j <= from + 3
    ensures |Utf8(s[k - 1..])| > |Utf8(s)| - from
  {
    hide Utf8, ByteLength, Offset, IsBoundary, NextBoundary;
    var j := NextBoundary(Utf8(s), from);
    var near := BoundaryNear(s, from);
    BoundariesExactly(s, j);
    k :| 0 <= k <= |s| && Offset(s, k) == j;
    OffsetSplits(s, k);
    StartsAtZero(s);
    OffsetSplits(s, k - 1);
    OffsetsGrow(s, k);
    BoundariesExactly(s, Offset(s, k - 1));
  }

  /**
   * A transcript over the limit becomes the marker and its longest whole-character suffix that fits beside it, at most
   * three bytes short of the limit.
   */
  lemma {:induction false} KeepsLongestSuffix(s: string, maxChars: nat) returns (k: nat)
    requires |Utf8(s)| > Limit(maxChars)
    ensures 0 < k <= |s|
    ensures var w := Compacted(Utf8(s), maxChars);
            && w.compacted && w.text == Utf8(MARKER + s[k..])
            && Limit(maxChars) - 3 <= |w.text| <= Limit(maxChars) < |Utf8(MARKER + s[k - 1..])|
  {
    hide Utf8, ByteLength, NextBoundary;
    MarkerBytes(MARKER);
    k := SuffixFrom(s, |Utf8(s)| - (Limit(maxChars) - MARKER_BYTES));
    Utf8Append(MARKER, s[k..]);
    Utf8Append(MARKER, s[k - 1..]);
  }

  lemma StartsAtZero(s: string)
    ensures Offset(s, 0) == 0
  {
  }

  /**
   * The bound, which is never below 1024 bytes, holds in every case; exactly what exceeds it is compacted, and compacting
   * again changes nothing.
   */
  lemma {:induction false} CompactingTwiceIsOnce(s: string, maxChars: nat)
    ensures var w, limit := Compacted(Utf8(s), maxChars), (if maxChars < 1024 then 1024 else maxChars);
            && |w.text| <= limit && w.originalBytes == |Utf8(s)|
            && (w.compacted <==> |Utf8(s)| > limit)
            && (!w.compacted <==> w.text == Utf8(s))
            && (w.compacted ==> Utf8("[Earlier conversation compacted]\n\n") <= w.text)
            && Compacted(w.text, maxChars) == ContextWindow(w.text, |w.text|, false)
  {
    if |Utf8(s)| > Limit(maxChars) {
      var k := KeepsLongestSuffix(s, maxChars);
    }
  }
}
