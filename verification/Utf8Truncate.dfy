/** Cutting a text to a number of UTF-8 bytes (section 3 of RFC 3629), whole characters only. */
module Utf8Truncate {
  import opened Folds

  type Byte = b: int | 0 <= b < 0x100

  /** The bytes of one character. */
  function EncodeChar(c: char): (bytes: seq<Byte>)
    ensures 1 <= |bytes| <= 4
  {
    var n := c as int;
    if n < 0x80 then [n]
    else if n < 0x800 then [0xC0 + n / 0x40, 0x80 + n % 0x40]
    else if n < 0x10000 then [0xE0 + n / 0x1000, 0x80 + n / 0x40 % 0x40, 0x80 + n % 0x40]
    else [0xF0 + n / 0x40000, 0x80 + n / 0x1000 % 0x40, 0x80 + n / 0x40 % 0x40, 0x80 + n % 0x40]
  }

  /** `text.encode("utf-8")`. */
  function Encode(text: string): seq<Byte> {
    Flat(EncodeChar, text)
  }

  /** A byte that only continues a character. */
  predicate IsTail(b: Byte) {
    0x80 <= b < 0xC0
  }

  /** The number of bytes a first byte announces; 0 if no character starts with it. */
  function Announced(b: Byte): nat {
    if b < 0x80 then 1 else if b < 0xC0 then 0 else if b < 0xE0 then 2 else if b < 0xF0 then 3
    else if b < 0xF8 then 4 else 0
  }

  /** A code point that has an encoding of this length and no shorter one. */
  predicate Wellformed(n: int, length: nat) {
    && 0 <= n < 0x110000 && !(0xD800 <= n < 0xE000)
    && (length == 1 ==> n < 0x80) && (length == 2 ==> 0x80 <= n < 0x800)
    && (length == 3 ==> 0x800 <= n < 0x10000) && (length == 4 ==> 0x10000 <= n)
  }

  function Bits(b: Byte, mark: int): int {
    b as int - mark
  }

  function Point(bytes: seq<Byte>): int
    requires 1 <= |bytes| <= 4
  {
    if |bytes| == 1 then Bits(bytes[0], 0)
    else if |bytes| == 2 then Bits(bytes[0], 0xC0) * 0x40 + Bits(bytes[1], 0x80)
    else if |bytes| == 3 then Bits(bytes[0], 0xE0) * 0x1000 + Bits(bytes[1], 0x80) * 0x40 + Bits(bytes[2], 0x80)
    else
      Bits(bytes[0], 0xF0) * 0x40000 + Bits(bytes[1], 0x80) * 0x1000 + Bits(bytes[2], 0x80) * 0x40
      + Bits(bytes[3], 0x80)
  }

  predicate AllTails(bytes: seq<Byte>) {
    forall i :: 0 <= i < |bytes| ==> IsTail(bytes[i])
  }

  /** Whether a whole character stands at the front. */
  predicate StartsChar(bytes: seq<Byte>) {
    bytes != [] &&
    var k := Announced(bytes[0]);
    k > 0 && k <= |bytes| && AllTails(bytes[1..k]) && Wellformed(Point(bytes[..k]), k)
  }

  /** `decode("utf-8", errors="ignore")`: whole characters are decoded, any other byte is dropped. */
  function DecodeIgnore(bytes: seq<Byte>): string
    decreases |bytes|
  {
    if bytes == [] then []
    else if StartsChar(bytes) then
      var k := Announced(bytes[0]);
      [Point(bytes[..k]) as char] + DecodeIgnore(bytes[k..])
    else DecodeIgnore(bytes[1..])
  }

  /** `_truncate_text`. */
  function Truncate(text: string, limit: nat): (string, bool) {
    var encoded := Encode(text);
    if |encoded| <= limit then (text, false) else (DecodeIgnore(encoded[..limit]), true)
  }

  // ---------------------------------------------------------------- decoding undoes encoding

  lemma Digits(n: nat)
    ensures n == n / 0x40 * 0x40 + n % 0x40
    ensures n / 0x40 == n / 0x1000 * 0x40 + n / 0x40 % 0x40
    ensures n / 0x1000 == n / 0x40000 * 0x40 + n / 0x1000 % 0x40
  {
  }

  lemma EncodeCharExact(c: char)
    ensures var b := EncodeChar(c);
      Announced(b[0]) == |b| && AllTails(b[1..]) && Point(b) == c as int && Wellformed(c as int, |b|)
  {
    var b, n := EncodeChar(c), c as int;
    Digits(n);
    assert Point(b) == n;
    assert Wellformed(n, |b|);
    assert Announced(b[0]) == |b|;
    assert forall i :: 1 <= i < |b| ==> IsTail(b[i]);
  }

  lemma CharInFront(c: char, rest: seq<Byte>)
    ensures StartsChar(EncodeChar(c) + rest)
    ensures DecodeIgnore(EncodeChar(c) + rest) == [c] + DecodeIgnore(rest)
  {
    var b := EncodeChar(c);
    EncodeCharExact(c);
    assert (b + rest)[..|b|] == b && (b + rest)[|b|..] == rest && (b + rest)[1..|b|] == b[1..];
  }

  lemma {:induction false} TailsDropped(bytes: seq<Byte>)
    requires AllTails(bytes)
    ensures DecodeIgnore(bytes) == []
  {
    if bytes != [] {
      assert Announced(bytes[0]) == 0;
      TailsDropped(bytes[1..]);
    }
  }

  /** The start of a character without its end decodes to nothing. */
  lemma PartDropped(c: char, k: nat)
    requires k < |EncodeChar(c)|
    ensures DecodeIgnore(EncodeChar(c)[..k]) == []
  {
    var b := EncodeChar(c);
    EncodeCharExact(c);
    if k > 0 {
      assert b[..k][0] == b[0] && !StartsChar(b[..k]);
      assert AllTails(b[..k][1..]) by {
        assert forall i :: 0 <= i < k - 1 ==> b[..k][1..][i] == b[1..][i];
      }
      TailsDropped(b[..k][1..]);
    }
  }

  lemma {:induction false} DecodeEncode(text: string, rest: seq<Byte>)
    ensures DecodeIgnore(Encode(text) + rest) == text + DecodeIgnore(rest)
  {
    if text == [] {
      assert [] + rest == rest;
    } else {
      var b, more := EncodeChar(text[0]), Encode(text[1..]);
      assert Encode(text) == b + more;
      ConcatAssociates(b, more, rest);
      CharInFront(text[0], more + rest);
      DecodeEncode(text[1..], rest);
      ConcatAssociates([text[0]], text[1..], DecodeIgnore(rest));
      assert text == [text[0]] + text[1..];
    }
  }

  /** A longer prefix has a longer encoding. */
  lemma EncodePrefix(text: string, m: nat, n: nat)
    requires m < n <= |text|
    ensures |Encode(text[..m])| < |Encode(text[..n])|
  {
    assert text[..n] == text[..m] + text[m..n];
    FlatConcat(EncodeChar, text[..m], text[m..n]);
    assert Encode(text[m..n]) == EncodeChar(text[m..n][0]) + Encode(text[m..n][1..]);
  }

  /** How many whole characters fit. */
  function Fitting(text: string, limit: nat): (n: nat)
    ensures n <= |text|
  {
    if text == [] || |EncodeChar(text[0])| > limit then 0
    else 1 + Fitting(text[1..], limit - |EncodeChar(text[0])|)
  }

  /** The cut encoding is that of the fitting characters and the start of the next one. */
  lemma {:induction false} CutExact(text: string, limit: nat) returns (k: nat)
    requires |Encode(text)| > limit
    ensures Fitting(text, limit) < |text| && k < |EncodeChar(text[Fitting(text, limit)])|
    ensures Encode(text)[..limit] == Encode(text[..Fitting(text, limit)]) + EncodeChar(text[Fitting(text, limit)])[..k]
  {
    var b := EncodeChar(text[0]);
    if |b| > limit {
      k := limit;
      assert Encode(text)[..limit] == b[..limit] && Encode(text[..0]) == [] && [] + b[..k] == b[..k];
    } else {
      var rest, n := text[1..], Fitting(text[1..], limit - |b|);
      k := CutExact(rest, limit - |b|);
      assert Encode(text)[..limit] == b + Encode(rest)[..limit - |b|];
      assert text[..n + 1][1..] == rest[..n] && text[n + 1] == rest[n];
      assert Encode(text[..n + 1]) == b + Encode(rest[..n]);
      ConcatAssociates(b, Encode(rest[..n]), EncodeChar(rest[n])[..k]);
    }
  }

  lemma {:induction false} NextDoesNotFit(text: string, limit: nat)
    requires Fitting(text, limit) < |text|
    ensures |Encode(text[..Fitting(text, limit) + 1])| > limit
  {
    var b := EncodeChar(text[0]);
    if |b| > limit {
      assert text[..1][1..] == [];
      assert Encode(text[..1]) == b + Encode([]);
    } else {
      var n := Fitting(text[1..], limit - |b|);
      NextDoesNotFit(text[1..], limit - |b|);
      assert text[..n + 2][1..] == text[1..][..n + 1];
    }
  }

  /** What is kept is the longest prefix of whole characters whose encoding fits, and the flag says that something
      is missing, which it is exactly when the whole does not fit. */
  lemma TruncateExact(text: string, limit: nat)
    ensures var (kept, cut) := Truncate(text, limit);
      && kept <= text && |Encode(kept)| <= limit
      && (forall n :: |kept| < n <= |text| ==> |Encode(text[..n])| > limit)
      && (cut <==> |Encode(text)| > limit) && (cut <==> kept != text)
  {
    if |Encode(text)| > limit {
      var n := Fitting(text, limit);
      var k := CutExact(text, limit);
      DecodeEncode(text[..n], EncodeChar(text[n])[..k]);
      PartDropped(text[n], k);
      assert text[..n] + [] == text[..n];
      EncodePrefix(text, n, n + 1);
      FlatConcat(EncodeChar, text[..n], [text[n]]);
      assert text[..n] + [text[n]] == text[..n + 1] && Encode([text[n]]) == EncodeChar(text[n]) + [];
      assert |Encode(text[..n + 1])| > limit by { NextDoesNotFit(text, limit); }
      forall m | n < m <= |text| ensures |Encode(text[..m])| > limit {
        if m > n + 1 {
          EncodePrefix(text, n + 1, m);
        }
      }
    }
  }

  /** Characters of each length of encoding, the first and the last of it: section 3 of RFC 3629. */
  lemma EncodingsByLength()
    ensures EncodeChar('\U{0}') == [0x00] && EncodeChar('\U{7F}') == [0x7F]
    ensures EncodeChar('\U{80}') == [0xC2, 0x80] && EncodeChar('\U{7FF}') == [0xDF, 0xBF]
    ensures EncodeChar('\U{800}') == [0xE0, 0xA0, 0x80] && EncodeChar('\U{FFFF}') == [0xEF, 0xBF, 0xBF]
    ensures EncodeChar('\U{10000}') == [0xF0, 0x90, 0x80, 0x80]
    ensures EncodeChar('\U{10FFFF}') == [0xF4, 0x8F, 0xBF, 0xBF]
  {
  }
}
