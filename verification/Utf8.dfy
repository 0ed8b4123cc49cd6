/** UTF-8 validity, section 4 of RFC 3629: what `String::from_utf8` accepts. */
module Utf8 {
  import opened Bytes

  predicate Continuation(b: byte) {
    0x80 <= b <= 0xBF
  }

  /** Length in bytes of the well-formed character at the head of `s`, or 0 when there is none. */
  function CharLength(s: seq<byte>): (n: nat)
    ensures n <= |s| && n <= 4
  {
    if s == [] then 0
    else if s[0] <= 0x7F then 1
    else if 0xC2 <= s[0] <= 0xDF && |s| >= 2 && Continuation(s[1]) then 2
    else if 0xE0 <= s[0] <= 0xEF && |s| >= 3 && Continuation(s[1]) && Continuation(s[2])
      && (s[0] == 0xE0 ==> 0xA0 <= s[1]) && (s[0] == 0xED ==> s[1] <= 0x9F) then 3
    else if 0xF0 <= s[0] <= 0xF4 && |s| >= 4 && Continuation(s[1]) && Continuation(s[2]) && Continuation(s[3])
      && (s[0] == 0xF0 ==> 0x90 <= s[1]) && (s[0] == 0xF4 ==> s[1] <= 0x8F) then 4
    else 0
  }

  predicate ValidUtf8(s: seq<byte>) {
    s == [] || (CharLength(s) > 0 && ValidUtf8(s[CharLength(s)..]))
  }

  /** A Rust `String`: a byte string that is valid UTF-8. */
  type Utf8String = s: seq<byte> | ValidUtf8(s) witness []

  /** Valid strings may be joined. */
  lemma {:induction false} ConcatValid(a: seq<byte>, b: seq<byte>)
    requires ValidUtf8(a) && ValidUtf8(b)
    ensures ValidUtf8(a + b)
  {
    if a == [] {
      assert a + b == b;
    } else {
      var n := CharLength(a);
      assert CharLength(a + b) == n;
      assert (a + b)[n..] == a[n..] + b;
      ConcatValid(a[n..], b);
    }
  }

  /** ASCII text, NUL padding included, is valid. */
  lemma {:induction false} AsciiValid(s: seq<byte>)
    requires forall i :: 0 <= i < |s| ==> s[i] <= 0x7F
    ensures ValidUtf8(s)
  {
    if s != [] {
      assert CharLength(s) == 1;
      AsciiValid(s[1..]);
    }
  }

  /** The bytes of an ASCII literal. */
  function Ascii(text: string): (s: Utf8String)
    requires forall i :: 0 <= i < |text| ==> text[i] as int <= 0x7F
    ensures |s| == |text| && forall i :: 0 <= i < |s| ==> s[i] == text[i] as int
  {
    var s := seq(|text|, i requires 0 <= i < |text| => text[i] as int as byte);
    AsciiValid(s);
    s
  }

  // ---------------------------------------------------------------- what validity means

  /** A Unicode scalar value: a code point that is no surrogate. */
  type Scalar = c: int | 0 <= c < 0xD800 || 0xE000 <= c < 0x11_0000

  /** The encoding of one character, section 3 of RFC 3629. */
  function EncodeScalar(c: Scalar): (s: seq<byte>)
    ensures 1 <= |s| <= 4
  {
    if c < 0x80 then [c]
    else if c < 0x800 then [0xC0 + c / 64, 0x80 + c % 64]
    else if c < 0x1_0000 then [0xE0 + c / 4096, 0x80 + c / 64 % 64, 0x80 + c % 64]
    else [0xF0 + c / 262144, 0x80 + c / 4096 % 64, 0x80 + c / 64 % 64, 0x80 + c % 64]
  }

  function EncodeText(text: seq<Scalar>): seq<byte> {
    if text == [] then [] else EncodeScalar(text[0]) + EncodeText(text[1..])
  }

  lemma EncodedLength(c: Scalar, rest: seq<byte>)
    ensures CharLength(EncodeScalar(c) + rest) == |EncodeScalar(c)|
  {
    var s := EncodeScalar(c) + rest;
    if c < 0x80 {
      assert s[0] == c;
    } else if c < 0x800 {
      assert s[0] == 0xC0 + c / 64 && s[1] == 0x80 + c % 64;
    } else if c < 0x1_0000 {
      assert s[0] == 0xE0 + c / 4096 && s[1] == 0x80 + c / 64 % 64 && s[2] == 0x80 + c % 64;
    } else {
      assert s[0] == 0xF0 + c / 262144 && s[1] == 0x80 + c / 4096 % 64 && s[2] == 0x80 + c / 64 % 64 && s[3] == 0x80 + c % 64;
    }
  }

  lemma SixBits(c: int, high: int, low: int)
    requires 0 <= high && 0 <= low < 64 && c == 64 * high + low
    ensures c / 64 == high && c % 64 == low
  {
  }

  lemma TwoBytes(a: int, b: int) returns (c: Scalar)
    requires 0xC2 <= a <= 0xDF && 0x80 <= b <= 0xBF
    ensures EncodeScalar(c) == [a, b]
  {
    c := 64 * (a - 0xC0) + b - 0x80;
    SixBits(c, a - 0xC0, b - 0x80);
  }

  lemma ThreeBytes(a: int, b: int, d: int) returns (c: Scalar)
    requires 0xE0 <= a <= 0xEF && 0x80 <= b <= 0xBF && 0x80 <= d <= 0xBF
    requires (a == 0xE0 ==> 0xA0 <= b) && (a == 0xED ==> b <= 0x9F)
    ensures EncodeScalar(c) == [a, b, d]
  {
    var high := 64 * (a - 0xE0) + b - 0x80;
    c := 64 * high + d - 0x80;
    SixBits(c, high, d - 0x80);
    SixBits(high, a - 0xE0, b - 0x80);
    assert c / 4096 == a - 0xE0;
  }

  lemma FourBytes(a: int, b: int, d: int, f: int) returns (c: Scalar)
    requires 0xF0 <= a <= 0xF4 && 0x80 <= b <= 0xBF && 0x80 <= d <= 0xBF && 0x80 <= f <= 0xBF
    requires (a == 0xF0 ==> 0x90 <= b) && (a == 0xF4 ==> b <= 0x8F)
    ensures EncodeScalar(c) == [a, b, d, f]
  {
    var top := 64 * (a - 0xF0) + b - 0x80;
    var high := 64 * top + d - 0x80;
    c := 64 * high + f - 0x80;
    SixBits(c, high, f - 0x80);
    SixBits(high, top, d - 0x80);
    SixBits(top, a - 0xF0, b - 0x80);
    assert c / 4096 == top && c / 262144 == a - 0xF0;
  }

  /** The character whose encoding begins the string. */
  lemma FirstScalar(s: seq<byte>) returns (c: Scalar)
    requires CharLength(s) > 0
    ensures EncodeScalar(c) == s[..CharLength(s)]
  {
    var n := CharLength(s);
    if n == 1 {
      c := s[0];
      assert s[..1] == [c];
    } else if n == 2 {
      c := TwoBytes(s[0], s[1]);
      assert s[..2] == [s[0], s[1]];
    } else if n == 3 {
      c := ThreeBytes(s[0], s[1], s[2]);
      assert s[..3] == [s[0], s[1], s[2]];
    } else {
      c := FourBytes(s[0], s[1], s[2], s[3]);
      assert s[..4] == [s[0], s[1], s[2], s[3]];
    }
  }

  lemma {:induction false} EncodedIsValid(text: seq<Scalar>)
    ensures ValidUtf8(EncodeText(text))
  {
    if text != [] {
      var rest := EncodeText(text[1..]);
      EncodedLength(text[0], rest);
      EncodedIsValid(text[1..]);
      assert EncodeText(text)[|EncodeScalar(text[0])|..] == rest;
    }
  }

  lemma {:induction false} ValidIsEncoded(s: seq<byte>) returns (text: seq<Scalar>)
    requires ValidUtf8(s)
    ensures EncodeText(text) == s
    decreases |s|
  {
    text := [];
    if s != [] {
      var n := CharLength(s);
      var c := FirstScalar(s);
      var more := ValidIsEncoded(s[n..]);
      text := [c] + more;
      assert text[1..] == more;
      assert s == s[..n] + s[n..];
    }
  }

  /** A byte string is valid if and only if it is the encoding of a text. */
  lemma ValidIff(s: seq<byte>)
    ensures ValidUtf8(s) <==> exists text :: EncodeText(text) == s
  {
    if ValidUtf8(s) {
      var text := ValidIsEncoded(s);
    }
    if text :| EncodeText(text) == s {
      EncodedIsValid(text);
    }
  }
}
