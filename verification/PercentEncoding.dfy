/** `encodeURIComponent` and `decodeURIComponent`: percent-encoding (section 2.1 of RFC 3986) of UTF-8. */
module PercentEncoding {
  import opened Strings

  /** The characters `encodeURIComponent` leaves alone. */
  predicate Unescaped(c: char) {
    'A' <= c <= 'Z' || 'a' <= c <= 'z' || '0' <= c <= '9' || c in {'-', '_', '.', '!', '~', '*', '\'', '(', ')'}
  }

  function HexDigit(n: int): (c: char)
    requires 0 <= n < 16
    ensures Unescaped(c)
  {
    if n < 10 then '0' + n as char else 'A' + (n - 10) as char
  }

  function HexValue(c: char): Option<int> {
    if '0' <= c <= '9' then Some(c as int - '0' as int)
    else if 'A' <= c <= 'F' then Some(c as int - 'A' as int + 10)
    else if 'a' <= c <= 'f' then Some(c as int - 'a' as int + 10)
    else None
  }

  function Percent(b: nat): string
    requires b < 256
  { ['%', HexDigit(b / 16), HexDigit(b % 16)] }

  /** The UTF-8 bytes of a character, six bits at a time. */
  function Utf8(c: char): (bytes: seq<nat>)
    ensures 1 <= |bytes| <= 4 && AreBytes(bytes)
  {
    var u := c as int;
    var u1 := u / 64;
    var u2 := u1 / 64;
    if u < 0x80 then [u]
    else if u < 0x800 then [0xC0 + u1, 0x80 + u % 64]
    else if u < 0x10000 then [0xE0 + u2, 0x80 + u1 % 64, 0x80 + u % 64]
    else [0xF0 + u2 / 64, 0x80 + u2 % 64, 0x80 + u1 % 64, 0x80 + u % 64]
  }

  predicate AreBytes(bytes: seq<nat>) {
    forall i :: 0 <= i < |bytes| ==> bytes[i] < 256
  }

  function PercentAll(bytes: seq<nat>): (s: string)
    requires AreBytes(bytes)
    ensures |s| == 3 * |bytes|
    ensures forall i :: 0 <= i < |s| ==> Unescaped(s[i]) || s[i] == '%'
  {
    if bytes == [] then "" else Percent(bytes[0]) + PercentAll(bytes[1..])
  }

  function EncodeChar(c: char): (s: string)
    ensures |s| > 0 && forall i :: 0 <= i < |s| ==> Unescaped(s[i]) || s[i] == '%'
  {
    if Unescaped(c) then [c] else PercentAll(Utf8(c))
  }

  function Encode(s: string): string {
    if s == "" then "" else EncodeChar(s[0]) + Encode(s[1..])
  }

  /** The byte written as `%XX` at position `i`. */
  function ByteAt(s: string, i: nat): (b: Option<nat>)
    ensures b.Some? ==> b.value < 256 && i + 3 <= |s|
  {
    if i + 3 > |s| || s[i] != '%' || HexValue(s[i + 1]).None? || HexValue(s[i + 2]).None? then None
    else Some(16 * HexValue(s[i + 1]).value + HexValue(s[i + 2]).value)
  }

  /** The six payload bits of a continuation byte. */
  function Continuation(s: string, i: nat): (bits: Option<int>)
    ensures bits.Some? ==> 0 <= bits.value < 64 && i + 3 <= |s|
  {
    match ByteAt(s, i)
    case Some(b) => if 0x80 <= b < 0xC0 then Some(b - 0x80) else None
    case None => None
  }

  /** A code point, unless it is overlong, a surrogate or out of range. */
  function CodePoint(u: nat, least: nat): Option<char> {
    if u < least || 0xD800 <= u < 0xE000 || u >= 0x110000 then None else Some(u as char)
  }

  /** The character announced by a lead byte and as many continuations as it asks for, with its length. */
  function Assemble(lead: nat, second: Option<int>, third: Option<int>, fourth: Option<int>): Option<(char, nat)>
    requires forall bits :: bits in {second, third, fourth} && bits.Some? ==> 0 <= bits.value < 64
  {
    if lead < 0x80 then Some((lead as char, 3))
    else if 0xC0 <= lead < 0xE0 && second.Some? then
      Head(CodePoint((lead - 0xC0) * 64 + second.value, 0x80), 6)
    else if 0xE0 <= lead < 0xF0 && second.Some? && third.Some? then
      Head(CodePoint((lead - 0xE0) * 4096 + second.value * 64 + third.value, 0x800), 9)
    else if 0xF0 <= lead < 0xF8 && second.Some? && third.Some? && fourth.Some? then
      Head(CodePoint((lead - 0xF0) * 262144 + second.value * 4096 + third.value * 64 + fourth.value, 0x10000), 12)
    else None
  }

  /** The first character of an encoded text and the length of its encoding; None where decoding throws. */
  function DecodeHead(s: string): (head: Option<(char, nat)>)
    requires s != ""
    ensures head.Some? ==> 0 < head.value.1 <= |s|
  {
    if s[0] != '%' then Some((s[0], 1))
    else if ByteAt(s, 0).None? then None
    else Assemble(ByteAt(s, 0).value, Continuation(s, 3), Continuation(s, 6), Continuation(s, 9))
  }

  function Head(c: Option<char>, n: nat): Option<(char, nat)> {
    if c.Some? then Some((c.value, n)) else None
  }

  function Decode(s: string): Option<string>
    decreases |s|
  {
    if s == "" then Some("")
    else
      var head := DecodeHead(s);
      if head.None? then None
      else
        var rest := Decode(s[head.value.1..]);
        if rest.None? then None else Some([head.value.0] + rest.value)
  }

  // ---- round trip ----

  lemma HexRoundTrip(n: int)
    requires 0 <= n < 16
    ensures HexValue(HexDigit(n)) == Some(n)
  {
  }

  lemma PercentRoundTrip(b: nat, rest: string)
    requires b < 256
    ensures ByteAt(Percent(b) + rest, 0) == Some(b)
  {
    var s := Percent(b) + rest;
    HexRoundTrip(b / 16);
    HexRoundTrip(b % 16);
    assert s[0] == Percent(b)[0] && s[1] == Percent(b)[1] && s[2] == Percent(b)[2];
  }

  lemma ByteAfterEscape(head: string, tail: string, i: nat)
    requires |head| == 3
    ensures ByteAt(head + tail, i + 3) == ByteAt(tail, i)
  {
    assert forall j :: 0 <= j < |tail| ==> (head + tail)[j + 3] == tail[j];
  }

  lemma PercentAllSplits(bytes: seq<nat>, rest: string)
    requires AreBytes(bytes) && bytes != []
    ensures PercentAll(bytes) + rest == Percent(bytes[0]) + (PercentAll(bytes[1..]) + rest)
  {
    var tail := PercentAll(bytes[1..]);
    assert Percent(bytes[0]) + tail + rest == Percent(bytes[0]) + (tail + rest);
  }

  lemma {:induction false} PercentAllAt(bytes: seq<nat>, rest: string, k: nat)
    requires AreBytes(bytes) && k < |bytes|
    ensures ByteAt(PercentAll(bytes) + rest, 3 * k) == Some(bytes[k])
  {
    PercentAllSplits(bytes, rest);
    var tail := PercentAll(bytes[1..]) + rest;
    if k == 0 {
      PercentRoundTrip(bytes[0], tail);
    } else {
      PercentAllAt(bytes[1..], rest, k - 1);
      ByteAfterEscape(Percent(bytes[0]), tail, 3 * (k - 1));
    }
  }

  /** The code point held by the payload bits of 1 to 4 bytes. */
  function Payload(bytes: seq<int>): int
    requires 1 <= |bytes| <= 4
  {
    if |bytes| == 1 then bytes[0]
    else if |bytes| == 2 then (bytes[0] - 0xC0) * 64 + (bytes[1] - 0x80)
    else if |bytes| == 3 then (bytes[0] - 0xE0) * 4096 + (bytes[1] - 0x80) * 64 + (bytes[2] - 0x80)
    else (bytes[0] - 0xF0) * 262144 + (bytes[1] - 0x80) * 4096 + (bytes[2] - 0x80) * 64 + (bytes[3] - 0x80)
  }

  lemma Utf8Values(c: char)
    ensures Payload(Utf8(c)) == c as int
    ensures forall k :: 1 <= k < |Utf8(c)| ==> 0x80 <= Utf8(c)[k] < 0xC0
  {
  }

  lemma Utf8Lead(c: char)
    ensures
      var u, n, lead := c as int, |Utf8(c)|, Utf8(c)[0];
      match n
      case 1 => lead < 0x80
      case 2 => 0xC0 <= lead < 0xE0 && u >= 0x80
      case 3 => 0xE0 <= lead < 0xF0 && u >= 0x800
      case _ => 0xF0 <= lead < 0xF8 && u >= 0x10000
  {
  }

  lemma ContinuationAt(bytes: seq<nat>, rest: string, k: nat)
    requires AreBytes(bytes) && k < |bytes| && 0x80 <= bytes[k] < 0xC0
    ensures Continuation(PercentAll(bytes) + rest, 3 * k) == Some(bytes[k] - 0x80)
  {
    PercentAllAt(bytes, rest, k);
  }

  lemma AssembleUtf8(c: char, second: Option<int>, third: Option<int>, fourth: Option<int>)
    requires forall bits :: bits in {second, third, fourth} && bits.Some? ==> 0 <= bits.value < 64
    requires |Utf8(c)| > 1 ==> second == Some(Utf8(c)[1] - 0x80)
    requires |Utf8(c)| > 2 ==> third == Some(Utf8(c)[2] - 0x80)
    requires |Utf8(c)| > 3 ==> fourth == Some(Utf8(c)[3] - 0x80)
    ensures Assemble(Utf8(c)[0], second, third, fourth) == Some((c, 3 * |Utf8(c)|))
  {
    Utf8Values(c);
    Utf8Lead(c);
  }

  lemma EscapeDecodes(c: char, rest: string)
    ensures DecodeHead(PercentAll(Utf8(c)) + rest) == Some((c, 3 * |Utf8(c)|))
  {
    var bytes := Utf8(c);
    var s := PercentAll(bytes) + rest;
    Utf8Values(c);
    LeadAt(bytes, rest);
    assert |bytes| > 1 ==> Continuation(s, 3) == Some(bytes[1] - 0x80) by {
      if |bytes| > 1 { ContinuationAt(bytes, rest, 1); }
    }
    assert |bytes| > 2 ==> Continuation(s, 6) == Some(bytes[2] - 0x80) by {
      if |bytes| > 2 { ContinuationAt(bytes, rest, 2); }
    }
    assert |bytes| > 3 ==> Continuation(s, 9) == Some(bytes[3] - 0x80) by {
      if |bytes| > 3 { ContinuationAt(bytes, rest, 3); }
    }
    AssembleUtf8(c, Continuation(s, 3), Continuation(s, 6), Continuation(s, 9));
  }

  lemma LeadAt(bytes: seq<nat>, rest: string)
    requires AreBytes(bytes) && bytes != []
    ensures (PercentAll(bytes) + rest)[0] == '%' && ByteAt(PercentAll(bytes) + rest, 0) == Some(bytes[0])
  {
    PercentAllAt(bytes, rest, 0);
  }

  lemma TwoBytes(lead: nat, second: nat, c: char)
    requires 0xC0 <= lead < 0xE0 && second < 64
    requires CodePoint((lead - 0xC0) * 64 + second, 0x80) == Some(c)
    ensures Utf8(c) == [lead, 0x80 + second]
  {
  }

  lemma ThreeBytes(lead: nat, second: nat, third: nat, c: char)
    requires 0xE0 <= lead < 0xF0 && second < 64 && third < 64
    requires CodePoint((lead - 0xE0) * 4096 + second * 64 + third, 0x800) == Some(c)
    ensures Utf8(c) == [lead, 0x80 + second, 0x80 + third]
  {
  }

  lemma FourBytes(lead: nat, second: nat, third: nat, fourth: nat, c: char)
    requires 0xF0 <= lead < 0xF8 && second < 64 && third < 64 && fourth < 64
    requires CodePoint((lead - 0xF0) * 262144 + second * 4096 + third * 64 + fourth, 0x10000) == Some(c)
    ensures Utf8(c) == [lead, 0x80 + second, 0x80 + third, 0x80 + fourth]
  {
  }

  /** What is assembled is the character with exactly these UTF-8 bytes. */
  lemma AssembledIsUtf8(lead: nat, second: Option<int>, third: Option<int>, fourth: Option<int>, c: char, n: nat)
    requires forall bits :: bits in {second, third, fourth} && bits.Some? ==> 0 <= bits.value < 64
    requires Assemble(lead, second, third, fourth) == Some((c, n))
    ensures n == 3 * |Utf8(c)| && Utf8(c)[0] == lead
    ensures |Utf8(c)| > 1 ==> second == Some(Utf8(c)[1] - 0x80)
    ensures |Utf8(c)| > 2 ==> third == Some(Utf8(c)[2] - 0x80)
    ensures |Utf8(c)| > 3 ==> fourth == Some(Utf8(c)[3] - 0x80)
  {
    if 0xC0 <= lead < 0xE0 {
      TwoBytes(lead, second.value, c);
    } else if 0xE0 <= lead < 0xF0 {
      ThreeBytes(lead, second.value, third.value, c);
    } else if 0xF0 <= lead {
      FourBytes(lead, second.value, third.value, fourth.value, c);
    }
  }

  lemma ContinuationByte(s: string, i: nat, b: int)
    requires Continuation(s, i) == Some(b - 0x80)
    ensures b >= 0 && ByteAt(s, i) == Some(b)
  {
  }

  /** The text starts with the escapes of these bytes. */
  predicate StartsWithBytes(s: string, bytes: seq<nat>) {
    forall k :: 0 <= k < |bytes| ==> ByteAt(s, 3 * k) == Some(bytes[k])
  }

  /** Only the proper UTF-8 of a character is decoded: no overlong form, no surrogate, nothing out of range. */
  lemma EscapesAreProperUtf8(s: string, c: char, n: nat)
    requires s != "" && s[0] == '%' && DecodeHead(s) == Some((c, n))
    ensures n == 3 * |Utf8(c)| && StartsWithBytes(s, Utf8(c))
  {
    var bytes := Utf8(c);
    AssembledIsUtf8(ByteAt(s, 0).value, Continuation(s, 3), Continuation(s, 6), Continuation(s, 9), c, n);
    forall k | 0 <= k < |bytes| ensures ByteAt(s, 3 * k) == Some(bytes[k]) {
      if k > 0 { ContinuationByte(s, 3 * k, bytes[k]); }
    }
  }

  /** Decoding undoes encoding on every well-formed text. */
  lemma {:induction false} DecodeUndoesEncode(s: string)
    ensures Decode(Encode(s)) == Some(s)
  {
    if s != "" {
      var head, rest := EncodeChar(s[0]), Encode(s[1..]);
      if !Unescaped(s[0]) { EscapeDecodes(s[0], rest); }
      assert (head + rest)[|head|..] == rest;
      DecodeUndoesEncode(s[1..]);
      assert [s[0]] + s[1..] == s;
    }
  }

  /** Encoded text is made of unescaped characters and percent signs only. */
  lemma {:induction false} EncodedAlphabet(s: string)
    ensures forall i :: 0 <= i < |Encode(s)| ==> Unescaped(Encode(s)[i]) || Encode(s)[i] == '%'
    ensures s != "" ==> Encode(s) != ""
  {
    if s != "" { EncodedAlphabet(s[1..]); }
  }
}
