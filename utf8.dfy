/** UTF-8 as Rust's standard library applies it: `str::as_bytes` (encoding),
    `String::from_utf8` (strict decoding) and `String::from_utf8_lossy`
    (each ill-formed subsequence replaced by U+FFFD). */
module Utf8 {
  import opened Base

  type byte = x: int | 0 <= x < 256

  type Bytes = seq<byte>

  /** The replacement character U+FFFD. */
  const Replacement: char := '\U{FFFD}'

  function EncodeChar(c: char): (r: Bytes)
    ensures 1 <= |r| <= 4
  {
    var n := c as int;
    if n < 0x80 then [n]
    else if n < 0x800 then [0xC0 + n / 64, 0x80 + n % 64]
    else if n < 0x10000 then [0xE0 + n / 4096, 0x80 + (n / 64) % 64, 0x80 + n % 64]
    else [0xF0 + n / 262144, 0x80 + (n / 4096) % 64, 0x80 + (n / 64) % 64, 0x80 + n % 64]
  }

  /** `s.as_bytes()`. */
  function Encode(s: string): Bytes
    decreases |s|
  {
    if |s| == 0 then [] else EncodeChar(s[0]) + Encode(s[1..])
  }

  /** Encoding distributes over concatenation. */
  lemma {:induction false} EncodeAppend(a: string, b: string)
    ensures Encode(a + b) == Encode(a) + Encode(b)
    decreases |a|
  {
    if |a| > 0 {
      EncodeAppend(a[1..], b);
      assert (a + b)[0] == a[0] && (a + b)[1..] == a[1..] + b;
      assert Encode(a + b) == EncodeChar(a[0]) + Encode(a[1..] + b);
      assert Encode(a) == EncodeChar(a[0]) + Encode(a[1..]);
    } else {
      assert a + b == b;
    }
  }

  /** `str::len`, the UTF-8 length, is between one and four bytes per
      character, and equals the character count exactly for ASCII text. */
  lemma {:induction false} EncodeLength(s: string)
    ensures |s| <= |Encode(s)| <= 4 * |s|
    ensures (forall i :: 0 <= i < |s| ==> s[i] < '\U{0080}') ==> |Encode(s)| == |s|
    decreases |s|
  {
    if |s| > 0 { EncodeLength(s[1..]); }
  }

  predicate IsCont(b: byte) { 0x80 <= b <= 0xBF }

  /** One decoding step at the start of `b`: a character and the number of
      bytes it takes, or an ill-formed subsequence of 1 to 3 bytes (the
      longest prefix of a well-formed sequence, at least one byte). */
  datatype Step = Char(c: char, len: nat) | Invalid(len: nat)

  function DecodeStep(b: Bytes): (r: Step)
    requires |b| > 0
    ensures 1 <= r.len <= |b| && r.len <= 4
  {
    var b0: int := b[0];
    var b1: int := if |b| > 1 then b[1] else 0;
    var b2: int := if |b| > 2 then b[2] else 0;
    var b3: int := if |b| > 3 then b[3] else 0;
    if b0 < 0x80 then Char(b0 as char, 1)
    else if 0xC2 <= b0 <= 0xDF then
      if |b| > 1 && IsCont(b[1]) then Char(((b0 - 0xC0) * 64 + (b1 - 0x80)) as char, 2)
      else Invalid(1)
    else if 0xE0 <= b0 <= 0xEF then
      var lo := if b0 == 0xE0 then 0xA0 else 0x80;
      var hi := if b0 == 0xED then 0x9F else 0xBF;
      if !(|b| > 1 && lo <= b[1] <= hi) then Invalid(1)
      else if !(|b| > 2 && IsCont(b[2])) then Invalid(2)
      else Char(((b0 - 0xE0) * 4096 + (b1 - 0x80) * 64 + (b2 - 0x80)) as char, 3)
    else if 0xF0 <= b0 <= 0xF4 then
      var lo := if b0 == 0xF0 then 0x90 else 0x80;
      var hi := if b0 == 0xF4 then 0x8F else 0xBF;
      if !(|b| > 1 && lo <= b[1] <= hi) then Invalid(1)
      else if !(|b| > 2 && IsCont(b[2])) then Invalid(2)
      else if !(|b| > 3 && IsCont(b[3])) then Invalid(3)
      else Char(((b0 - 0xF0) * 262144 + (b1 - 0x80) * 4096 + (b2 - 0x80) * 64 + (b3 - 0x80)) as char, 4)
    else Invalid(1)
  }

  /** `String::from_utf8`: `None` exactly when some step is ill-formed. */
  function Decode(b: Bytes): Option<string>
    decreases |b|
  {
    if |b| == 0 then Some([])
    else match DecodeStep(b)
      case Invalid(_) => None
      case Char(c, n) =>
        match Decode(b[n..])
        case None => None
        case Some(rest) => Some([c] + rest)
  }

  /** `String::from_utf8_lossy`. */
  function DecodeLossy(b: Bytes): string
    decreases |b|
  {
    if |b| == 0 then []
    else match DecodeStep(b)
      case Invalid(n) => [Replacement] + DecodeLossy(b[n..])
      case Char(c, n) => [c] + DecodeLossy(b[n..])
  }

  // ---------------------------------------------------------------------------
  // Round trips

  lemma DecodeStepEncodeTwo(c: char, rest: Bytes)
    requires 0x80 <= c as int < 0x800
    ensures DecodeStep(EncodeChar(c) + rest) == Char(c, 2)
  {
    var n := c as int;
    var b := EncodeChar(c) + rest;
    assert b[0] == 0xC0 + n / 64 && b[1] == 0x80 + n % 64;
    assert (n / 64) * 64 + n % 64 == n;
  }

  lemma DecodeStepEncodeThree(c: char, rest: Bytes)
    requires 0x800 <= c as int < 0x10000
    ensures DecodeStep(EncodeChar(c) + rest) == Char(c, 3)
  {
    var n := c as int;
    var b := EncodeChar(c) + rest;
    var q := n / 64;
    assert n == q * 64 + n % 64;
    assert q == (q / 64) * 64 + q % 64;
    assert q / 64 == n / 4096;
    assert b[0] == 0xE0 + n / 4096 && b[1] == 0x80 + q % 64 && b[2] == 0x80 + n % 64;
    assert n == (n / 4096) * 4096 + (q % 64) * 64 + n % 64;
  }

  lemma DecodeStepEncodeFour(c: char, rest: Bytes)
    requires 0x10000 <= c as int
    ensures DecodeStep(EncodeChar(c) + rest) == Char(c, 4)
  {
    var n := c as int;
    var b := EncodeChar(c) + rest;
    var q := n / 64;
    var q2 := q / 64;
    assert n == q * 64 + n % 64;
    assert q == q2 * 64 + q % 64;
    assert q2 == (q2 / 64) * 64 + q2 % 64;
    assert q2 == n / 4096;
    assert q2 / 64 == n / 262144;
    assert b[0] == 0xF0 + n / 262144 && b[1] == 0x80 + q2 % 64 && b[2] == 0x80 + q % 64 && b[3] == 0x80 + n % 64;
    assert n == (n / 262144) * 262144 + (q2 % 64) * 4096 + (q % 64) * 64 + n % 64;
  }

  /** The first step of decoding an encoded character reads that character
      back, whatever follows it. */
  lemma DecodeStepEncodeChar(c: char, rest: Bytes)
    ensures DecodeStep(EncodeChar(c) + rest) == Char(c, |EncodeChar(c)|)
  {
    var n := c as int;
    if n < 0x80 {
    } else if n < 0x800 {
      DecodeStepEncodeTwo(c, rest);
    } else if n < 0x10000 {
      DecodeStepEncodeThree(c, rest);
    } else {
      DecodeStepEncodeFour(c, rest);
    }
  }

  lemma DropPrefix(a: Bytes, b: Bytes)
    ensures (a + b)[|a|..] == b
  {
  }

  /** Strict decoding of an encoding gives back the string. */
  lemma {:induction false} DecodeEncode(s: string)
    ensures Decode(Encode(s)) == Some(s)
    decreases |s|
  {
    if |s| > 0 {
      var e, rest := EncodeChar(s[0]), Encode(s[1..]);
      assert Encode(s) == e + rest;
      DecodeStepEncodeChar(s[0], rest);
      DropPrefix(e, rest);
      DecodeEncode(s[1..]);
      assert s == [s[0]] + s[1..];
    }
  }

  /** On well-formed input lossy decoding agrees with strict decoding. */
  lemma {:induction false} DecodeLossyOfValid(b: Bytes)
    requires Decode(b).Some?
    ensures DecodeLossy(b) == Decode(b).value
    decreases |b|
  {
    if |b| > 0 {
      DecodeLossyOfValid(b[DecodeStep(b).len..]);
    }
  }

  /** `from_utf8_lossy(s.as_bytes()) == s`. */
  lemma DecodeLossyEncode(s: string)
    ensures DecodeLossy(Encode(s)) == s
  {
    DecodeEncode(s);
    DecodeLossyOfValid(Encode(s));
  }

  lemma DivMod64(n: int, q: int, r: int)
    requires 0 <= r < 64 && n == q * 64 + r
    ensures n / 64 == q && n % 64 == r
  {
  }

  lemma DivMod4096(n: int, q: int, r: int)
    requires 0 <= r < 4096 && n == q * 4096 + r
    ensures n / 4096 == q && n % 4096 == r
  {
  }

  lemma DivMod262144(n: int, q: int, r: int)
    requires 0 <= r < 262144 && n == q * 262144 + r
    ensures n / 262144 == q && n % 262144 == r
  {
  }

  lemma EncodeTwo(x: int, y: int)
    requires 2 <= x < 32 && 0 <= y < 64
    ensures var n := x * 64 + y; 0x80 <= n < 0x800 && n / 64 == x && n % 64 == y
  {
    DivMod64(x * 64 + y, x, y);
  }

  lemma EncodeThree(x: int, y: int, z: int)
    requires 0 <= x < 16 && 0 <= y < 64 && 0 <= z < 64
    ensures var n := x * 4096 + y * 64 + z;
      n < 0x10000 && n / 4096 == x && (n / 64) % 64 == y && n % 64 == z
  {
    var n := x * 4096 + y * 64 + z;
    DivMod64(n, x * 64 + y, z);
    DivMod64(x * 64 + y, x, y);
    DivMod4096(n, x, y * 64 + z);
  }

  lemma EncodeFour(w: int, x: int, y: int, z: int)
    requires 0 <= w < 5 && 0 <= x < 64 && 0 <= y < 64 && 0 <= z < 64
    ensures var n := w * 262144 + x * 4096 + y * 64 + z;
      n / 262144 == w && (n / 4096) % 64 == x && (n / 64) % 64 == y && n % 64 == z
  {
    var n := w * 262144 + x * 4096 + y * 64 + z;
    DivMod64(n, w * 4096 + x * 64 + y, z);
    DivMod64(w * 4096 + x * 64 + y, w * 64 + x, y);
    DivMod4096(n, w * 64 + x, y * 64 + z);
    DivMod64(w * 64 + x, w, x);
    DivMod262144(n, w, x * 4096 + y * 64 + z);
  }

  lemma EncodeCharOfStepTwo(b: Bytes)
    requires |b| > 0 && DecodeStep(b).Char? && 0x80 <= b[0] <= 0xDF
    ensures EncodeChar(DecodeStep(b).c) == b[..2]
  {
    EncodeTwo(b[0] as int - 0xC0, b[1] as int - 0x80);
  }

  lemma EncodeCharOfStepThree(b: Bytes)
    requires |b| > 0 && DecodeStep(b).Char? && 0xE0 <= b[0] <= 0xEF
    ensures EncodeChar(DecodeStep(b).c) == b[..3]
  {
    EncodeThree(b[0] as int - 0xE0, b[1] as int - 0x80, b[2] as int - 0x80);
  }

  lemma EncodeCharOfStepFour(b: Bytes)
    requires |b| > 0 && DecodeStep(b).Char? && 0xF0 <= b[0]
    ensures EncodeChar(DecodeStep(b).c) == b[..4]
  {
    EncodeFour(b[0] as int - 0xF0, b[1] as int - 0x80, b[2] as int - 0x80, b[3] as int - 0x80);
  }

  /** A decoded character encodes to exactly the bytes it was read from. */
  lemma EncodeCharOfStep(b: Bytes)
    requires |b| > 0 && DecodeStep(b).Char?
    ensures EncodeChar(DecodeStep(b).c) == b[..DecodeStep(b).len]
  {
    if b[0] < 0x80 {
    } else if b[0] <= 0xDF {
      EncodeCharOfStepTwo(b);
    } else if b[0] <= 0xEF {
      EncodeCharOfStepThree(b);
    } else {
      EncodeCharOfStepFour(b);
    }
  }

  lemma EncodeCons(c: char, s: string)
    ensures Encode([c] + s) == EncodeChar(c) + Encode(s)
  {
    assert ([c] + s)[0] == c && ([c] + s)[1..] == s;
  }

  lemma SplitAt(b: Bytes, n: nat)
    requires n <= |b|
    ensures b[..n] + b[n..] == b
  {
  }

  /** A successful decoding is its first character followed by the
      decoding of the bytes after it. */
  lemma DecodeUnfold(b: Bytes)
    requires |b| > 0 && Decode(b).Some?
    ensures DecodeStep(b).Char?
    ensures Decode(b[DecodeStep(b).len..]).Some?
    ensures Decode(b).value == [DecodeStep(b).c] + Decode(b[DecodeStep(b).len..]).value
  {
  }

  /** Strict decoding is injective: a decoded string re-encodes to the very
      bytes it came from. */
  lemma {:induction false} EncodeDecode(b: Bytes)
    requires Decode(b).Some?
    ensures Encode(Decode(b).value) == b
    decreases |b|
  {
    if |b| > 0 {
      DecodeUnfold(b);
      var st := DecodeStep(b);
      var tail := b[st.len..];
      EncodeCharOfStep(b);
      EncodeDecode(tail);
      EncodeCons(st.c, Decode(tail).value);
      SplitAt(b, st.len);
    }
  }
}
