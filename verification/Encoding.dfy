/** Text as bytes: UTF-8 (section 3 of RFC 3629). */
module Encoding {
  import opened Wrappers
  import opened Text

  type byte = x: int | 0 <= x < 256

  /** One scalar value in UTF-8 (section 3 of RFC 3629). */
  function EncodeChar(c: char): (bytes: seq<byte>)
    ensures |bytes| == CharBytes(c)
    ensures !IsContinuation(bytes[0])
    ensures forall i | 1 <= i < |bytes| :: IsContinuation(bytes[i])
  {
    var n := c as int;
    if n < 0x80 then [n]
    else if n < 0x800 then [0xC0 + n / 64, 0x80 + n % 64]
    else if n < 0x10000 then [0xE0 + n / 4096, 0x80 + n / 64 % 64, 0x80 + n % 64]
    else [0xF0 + n / 262144, 0x80 + n / 4096 % 64, 0x80 + n / 64 % 64, 0x80 + n % 64]
  }

  predicate IsContinuation(b: byte) {
    0x80 <= b < 0xC0
  }

  function Utf8(s: string): (bytes: seq<byte>)
    ensures |bytes| == ByteLength(s)
  {
    if s == "" then [] else EncodeChar(s[0]) + Utf8(s[1..])
  }

  lemma Utf8First(s: string)
    requires s != ""
    ensures Utf8(s) == EncodeChar(s[0]) + Utf8(s[1..])
  {
  }

  lemma NoBytes(s: string)
    requires |s| == 0
    ensures Utf8(s) == []
  {
  }

  lemma {:induction false} Utf8Append(a: string, b: string)
    ensures Utf8(a + b) == Utf8(a) + Utf8(b)
  {
    hide Utf8, EncodeChar, ByteLength;
    if |a| == 0 {
      NoBytes(a);
      assert a + b == b;
    } else {
      Utf8First(a);
      Utf8First(a + b);
      Utf8Append(a[1..], b);
      assert (a + b)[1..] == a[1..] + b;
      assert EncodeChar(a[0]) + (Utf8(a[1..]) + Utf8(b)) == Utf8(a) + Utf8(b);
    }
  }

  /** Below 128 every character is its own byte. */
  lemma {:induction false} AsciiText(s: string)
    requires forall i | 0 <= i < |s| :: s[i] < '\U{0080}'
    ensures |Utf8(s)| == |s| && forall i | 0 <= i < |s| :: Utf8(s)[i] == s[i] as int
  {
    if s != "" {
      AsciiText(s[1..]);
    }
  }

  // -------------------------------------------------------------------------------------- decoding

  predicate IsScalar(n: int) {
    0 <= n < 0xD800 || 0xE000 <= n < 0x11_0000
  }

  function Six(b: byte): int {
    b - 0x80
  }

  /** The character that begins the bytes: no stray or missing continuation, overlong form, surrogate or excess. */
  function FirstChar(bytes: seq<byte>): (c: Option<char>)
    requires bytes != []
    ensures c.Some? ==> CharBytes(c.value) <= |bytes|
  {
    var b: int := bytes[0];
    if b < 0x80 then Some(b as char)
    else if 0xC2 <= b < 0xE0 && |bytes| >= 2 && IsContinuation(bytes[1]) then
      Some(((b - 0xC0) * 64 + Six(bytes[1])) as char)
    else if 0xE0 <= b < 0xF0 && |bytes| >= 3 && IsContinuation(bytes[1]) && IsContinuation(bytes[2]) then
      var n := (b - 0xE0) * 4096 + Six(bytes[1]) * 64 + Six(bytes[2]);
      if n < 0x800 || !IsScalar(n) then None else Some(n as char)
    else if 0xF0 <= b < 0xF5 && |bytes| >= 4 && IsContinuation(bytes[1]) && IsContinuation(bytes[2]) && IsContinuation(bytes[3]) then
      var n := (b - 0xF0) * 262144 + Six(bytes[1]) * 4096 + Six(bytes[2]) * 64 + Six(bytes[3]);
      if n < 0x10000 || !IsScalar(n) then None else Some(n as char)
    else None
  }

  /** `String::from_utf8`. */
  function FromUtf8(bytes: seq<byte>): Option<string> {
    if bytes == [] then Some("")
    else
      var c := FirstChar(bytes);
      if c.None? then None
      else
        var rest := FromUtf8(bytes[CharBytes(c.value)..]);
        if rest.None? then None else Some([c.value] + rest.value)
  }

  lemma Digits(n: int)
    requires 0 <= n < 0x11_0000
    ensures n == n / 64 * 64 + n % 64
    ensures n == n / 4096 * 4096 + n / 64 % 64 * 64 + n % 64
    ensures n == n / 262144 * 262144 + n / 4096 % 64 * 4096 + n / 64 % 64 * 64 + n % 64
  {
    assert n / 64 / 64 == n / 4096 && n / 4096 / 64 == n / 262144;
  }

  lemma FirstCharOfEncoded(c: char, bytes: seq<byte>)
    requires EncodeChar(c) <= bytes
    ensures FirstChar(bytes) == Some(c)
  {
    var n := c as int;
    Digits(n);
    assert IsScalar(n) && bytes[0] == EncodeChar(c)[0];
    assert n >= 0x80 ==> bytes[1] == EncodeChar(c)[1];
    assert n >= 0x800 ==> bytes[2] == EncodeChar(c)[2];
    assert n >= 0x10000 ==> bytes[3] == EncodeChar(c)[3];
    assert n < 0x800 ==> n / 64 < 32;
    assert n < 0x10000 ==> n / 4096 < 16;
    assert n / 262144 < 5;
  }

  /** Encoding loses nothing. */
  lemma {:induction false} DecodeEncoded(s: string)
    ensures FromUtf8(Utf8(s)) == Some(s)
  {
    if s != "" {
      FirstCharOfEncoded(s[0], Utf8(s));
      hide EncodeChar, FirstChar;
      DecodeEncoded(s[1..]);
      assert Utf8(s)[CharBytes(s[0])..] == Utf8(s[1..]);
      assert [s[0]] + s[1..] == s;
    }
  }

  lemma TwoBytes(c: char, a: byte, b: byte)
    requires 0xC2 <= a < 0xE0 && IsContinuation(b) && c as int == (a - 0xC0) as int * 64 + Six(b)
    ensures EncodeChar(c) == [a, b]
  {
    Places(a - 0xC0, Six(b));
  }

  lemma ThreeBytes(c: char, a: byte, b: byte, d: byte)
    requires 0xE0 <= a < 0xF0 && IsContinuation(b) && IsContinuation(d)
    requires 0x800 <= c as int == (a - 0xE0) as int * 4096 + Six(b) * 64 + Six(d)
    ensures EncodeChar(c) == [a, b, d]
  {
    Places((a - 0xE0) as int * 64 + Six(b), Six(d));
    Places(a - 0xE0, Six(b));
    Digits(c as int);
  }

  lemma FourBytes(c: char, a: byte, b: byte, d: byte, f: byte)
    requires 0xF0 <= a < 0xF5 && IsContinuation(b) && IsContinuation(d) && IsContinuation(f)
    requires 0x10000 <= c as int == (a - 0xF0) as int * 262144 + Six(b) * 4096 + Six(d) * 64 + Six(f)
    ensures EncodeChar(c) == [a, b, d, f]
  {
    Places(((a - 0xF0) as int * 64 + Six(b)) * 64 + Six(d), Six(f));
    Places((a - 0xF0) as int * 64 + Six(b), Six(d));
    Places(a - 0xF0, Six(b));
    Digits(c as int);
  }

  lemma CharOfFirst(bytes: seq<byte>)
    requires bytes != [] && FirstChar(bytes).Some?
    ensures EncodeChar(FirstChar(bytes).value) == bytes[..CharBytes(FirstChar(bytes).value)]
  {
    var c := FirstChar(bytes).value;
    if bytes[0] >= 0xF0 {
      FourBytes(c, bytes[0], bytes[1], bytes[2], bytes[3]);
    } else if bytes[0] >= 0xE0 {
      ThreeBytes(c, bytes[0], bytes[1], bytes[2]);
    } else if bytes[0] >= 0x80 {
      TwoBytes(c, bytes[0], bytes[1]);
    }
    hide EncodeChar;
  }

  lemma Places(high: int, low: int)
    requires 0 <= high && 0 <= low < 64
    ensures (high * 64 + low) / 64 == high && (high * 64 + low) % 64 == low
  {
  }

  lemma FromUtf8First(bytes: seq<byte>)
    requires FromUtf8(bytes).Some?
    ensures bytes == [] ==> FromUtf8(bytes).value == ""
    ensures bytes != [] ==>
              && FirstChar(bytes).Some?
              && FromUtf8(bytes[CharBytes(FirstChar(bytes).value)..]).Some?
              && FromUtf8(bytes).value == [FirstChar(bytes).value] + FromUtf8(bytes[CharBytes(FirstChar(bytes).value)..]).value
  {
    hide FirstChar;
  }

  /** Decoding loses nothing either: only the encoding of a text reads as that text. */
  lemma {:induction false} EncodeDecoded(bytes: seq<byte>)
    requires FromUtf8(bytes).Some?
    ensures Utf8(FromUtf8(bytes).value) == bytes
  {
    hide EncodeChar, FirstChar, FromUtf8, Utf8, ByteLength, CharBytes;
    FromUtf8First(bytes);
    if bytes == [] {
      NoBytes(FromUtf8(bytes).value);
    } else {
      var k, s := CharBytes(FirstChar(bytes).value), FromUtf8(bytes).value;
      CharOfFirst(bytes);
      EncodeDecoded(bytes[k..]);
      Utf8First(s);
      assert s[1..] == FromUtf8(bytes[k..]).value;
      assert bytes == bytes[..k] + bytes[k..];
    }
  }

  /** No text's encoding begins with that of another that it does not begin with. */
  lemma {:induction false} PrefixesAgree(s: string, t: string)
    requires Utf8(s) <= Utf8(t)
    ensures s <= t
  {
    if s != "" {
      Utf8First(s);
      hide EncodeChar, FirstChar;
      assert EncodeChar(s[0]) <= Utf8(t);
      assert t != "";
      Utf8First(t);
      FirstCharOfEncoded(s[0], Utf8(t));
      FirstCharOfEncoded(t[0], Utf8(t));
      assert Utf8(s[1..]) == Utf8(s)[CharBytes(s[0])..] && Utf8(t[1..]) == Utf8(t)[CharBytes(s[0])..];
      PrefixesAgree(s[1..], t[1..]);
    }
  }

  /** The first bytes of a text read as text exactly when they end where a character does, and then as those characters. */
  lemma {:induction false} CutReadsExactly(s: string, j: nat, t: string)
    requires j <= |Utf8(s)|
    ensures FromUtf8(Utf8(s)[..j]) == Some(t) <==> t <= s && j == |Utf8(t)|
  {
    hide FromUtf8, Utf8, ByteLength;
    if FromUtf8(Utf8(s)[..j]) == Some(t) {
      EncodeDecoded(Utf8(s)[..j]);
      PrefixesAgree(t, s);
    }
    if t <= s && j == |Utf8(t)| {
      assert t + s[|t|..] == s;
      Utf8Append(t, s[|t|..]);
      assert Utf8(s)[..j] == Utf8(t);
      DecodeEncoded(t);
    }
  }
}
