/** The checks on text that the Result API makes. Strings are sequences of Unicode scalar values; lengths are those of
    their UTF-8 encoding. */
module Texts {

  /** White space as Go's unicode package defines it. */
  predicate IsSpace(c: char) {
    var n := c as int;
    || 0x09 <= n <= 0x0D || n == 0x20 || n == 0x85 || n == 0xA0 || n == 0x1680
    || 0x2000 <= n <= 0x200A || n == 0x2028 || n == 0x2029 || n == 0x202F || n == 0x205F || n == 0x3000
  }

  /** Nothing is left after trimming. */
  predicate Blank(text: string) { forall i | 0 <= i < |text| :: IsSpace(text[i]) }

  function Utf8Width(c: char): (n: nat)
    ensures 1 <= n <= 4
  {
    var code := c as int;
    if code < 0x80 then 1 else if code < 0x800 then 2 else if code < 0x1_0000 then 3 else 4
  }

  function Utf8Length(text: string): nat {
    if text == "" then 0 else Utf8Length(text[..|text| - 1]) + Utf8Width(text[|text| - 1])
  }

  /** Not longer than the limit, and without a NUL. */
  predicate Within(text: string, maxBytes: nat) {
    Utf8Length(text) <= maxBytes && forall i | 0 <= i < |text| :: text[i] as int != 0
  }

  predicate Lowercase(c: char) { 'a' <= c <= 'z' }

  predicate Digit(c: char) { '0' <= c <= '9' }

  /** `^[a-z][a-z0-9_]{0,63}$` */
  predicate ReasonCode(text: string) {
    && 1 <= |text| <= 64 && Lowercase(text[0])
    && forall i | 0 <= i < |text| :: Lowercase(text[i]) || Digit(text[i]) || text[i] == '_'
  }

  predicate IdCharacter(c: char) { Lowercase(c) || Digit(c) || 'A' <= c <= 'Z' }

  /** `^[A-Za-z0-9][A-Za-z0-9._-]{0,199}$` */
  predicate RunName(text: string) {
    && 1 <= |text| <= 200 && IdCharacter(text[0])
    && forall i | 0 <= i < |text| :: IdCharacter(text[i]) || text[i] == '.' || text[i] == '_' || text[i] == '-'
  }

  predicate Plain(text: string) { forall i | 0 <= i < |text| :: 0x20 < text[i] as int < 0x80 }

  lemma {:induction false} PlainLength(text: string)
    requires Plain(text)
    ensures Utf8Length(text) == |text|
  {
    if text != "" { PlainLength(text[..|text| - 1]); }
  }

  /** Printable ASCII is as long as it looks, has no NUL, and is not blank unless it is empty. */
  lemma PlainText(text: string, maxBytes: nat)
    requires Plain(text) && 0 < |text| <= maxBytes
    ensures Within(text, maxBytes) && !Blank(text)
  {
    PlainLength(text);
    assert !IsSpace(text[0]);
  }

  // ---- The encoding whose length is counted ----

  /** Section 3 of RFC 3629. */
  function Utf8Bytes(c: char): (bytes: seq<int>)
    ensures forall i | 0 <= i < |bytes| :: 0 <= bytes[i] < 256
  {
    var n := c as int;
    var high := n / 0x40;
    var higher := high / 0x40;
    if n < 0x80 then [n]
    else if n < 0x800 then [0xC0 + high, 0x80 + n % 0x40]
    else if n < 0x1_0000 then [0xE0 + higher, 0x80 + high % 0x40, 0x80 + n % 0x40]
    else [0xF0 + higher / 0x40, 0x80 + higher % 0x40, 0x80 + high % 0x40, 0x80 + n % 0x40]
  }

  function Utf8Encoded(text: string): seq<int> {
    if text == "" then [] else Utf8Encoded(text[..|text| - 1]) + Utf8Bytes(text[|text| - 1])
  }

  /** The code point and the number of bytes read, from the first byte's range. */
  function Utf8First(bytes: seq<int>): (int, int) {
    if |bytes| >= 1 && 0 <= bytes[0] <= 0x7F then (bytes[0], 1)
    else if |bytes| >= 2 && 0xC0 <= bytes[0] <= 0xDF then ((bytes[0] - 0xC0) * 0x40 + bytes[1] - 0x80, 2)
    else if |bytes| >= 3 && 0xE0 <= bytes[0] <= 0xEF then
      (((bytes[0] - 0xE0) * 0x40 + bytes[1] - 0x80) * 0x40 + bytes[2] - 0x80, 3)
    else if |bytes| >= 4 && 0xF0 <= bytes[0] <= 0xF7 then
      ((((bytes[0] - 0xF0) * 0x40 + bytes[1] - 0x80) * 0x40 + bytes[2] - 0x80) * 0x40 + bytes[3] - 0x80, 4)
    else (0, 0)
  }

  /** Every character is read back from its bytes, and they are as many as its width. */
  lemma Utf8RoundTrip(c: char)
    ensures Utf8First(Utf8Bytes(c)) == (c as int, Utf8Width(c)) && |Utf8Bytes(c)| == Utf8Width(c)
  {
  }

  /** The length the checks compare is that of the encoded text. */
  lemma {:induction false} Utf8LengthIsEncoded(text: string)
    ensures |Utf8Encoded(text)| == Utf8Length(text)
  {
    if text != "" {
      Utf8RoundTrip(text[|text| - 1]);
      Utf8LengthIsEncoded(text[..|text| - 1]);
    }
  }
}
