/** UTF-8 as section 3 of RFC 3629 defines it. */
module Utf8 {
  import opened Wrappers
  import opened Octets

  type CodePoint = n: int | 0 <= n < 0x11_0000 && !(0xD800 <= n < 0xE000)

  function EncodeOne(c: CodePoint): Bytes {
    if c < 0x80 then [c]
    else if c < 0x800 then [0xC0 + c / 64, 0x80 + c % 64]
    else if c < 0x1_0000 then [0xE0 + c / 4096, 0x80 + c / 64 % 64, 0x80 + c % 64]
    else [0xF0 + c / 26_2144, 0x80 + c / 4096 % 64, 0x80 + c / 64 % 64, 0x80 + c % 64]
  }

  function Encode(text: seq<CodePoint>): Bytes {
    if text == [] then [] else EncodeOne(text[0]) + Encode(text[1..])
  }

  predicate Tail(b: Byte) {
    0x80 <= b < 0xC0
  }

  /** Length of the sequence that a first byte announces; 0 if it cannot be a first byte. */
  function Announced(b: Byte): nat {
    if b < 0x80 then 1 else if b < 0xC0 then 0 else if b < 0xE0 then 2 else if b < 0xF0 then 3
    else if b < 0xF8 then 4 else 0
  }

  /** The six bits of a continuation byte. */
  function Rest(s: Bytes, i: nat): int
    requires i < |s|
  {
    var b: int := s[i];
    b - 0x80
  }

  /** The number that the first `n` bytes of `s` stand for. */
  function Combined(s: Bytes, n: nat): int
    requires 1 <= n <= 4 && n <= |s| && n == Announced(s[0])
  {
    var first: int := s[0];
    if n == 1 then first
    else if n == 2 then (first - 0xC0) * 64 + Rest(s, 1)
    else if n == 3 then (first - 0xE0) * 4096 + Rest(s, 1) * 64 + Rest(s, 2)
    else (first - 0xF0) * 26_2144 + Rest(s, 1) * 4096 + Rest(s, 2) * 64 + Rest(s, 3)
  }

  /** The shortest encoding is the only valid one, and surrogates are not encoded. */
  predicate Allowed(c: int, n: nat) {
    && 0 <= c < 0x11_0000 && !(0xD800 <= c < 0xE000)
    && (n == 2 ==> c >= 0x80) && (n == 3 ==> c >= 0x800) && (n == 4 ==> c >= 0x1_0000)
  }

  predicate TailsFollow(s: Bytes, n: nat) {
    n <= |s| && (n > 1 ==> Tail(s[1])) && (n > 2 ==> Tail(s[2])) && (n > 3 ==> Tail(s[3]))
  }

  /** The first character and what follows it. */
  function DecodeOne(s: Bytes): (r: Option<(CodePoint, Bytes)>)
    requires s != []
    ensures r.Some? ==> |r.value.1| < |s|
  {
    var n := Announced(s[0]);
    if n == 0 || !TailsFollow(s, n) then None
    else if !Allowed(Combined(s, n), n) then None
    else Some((Combined(s, n), s[n..]))
  }

  function Decode(s: Bytes): Option<seq<CodePoint>>
    decreases |s|
  {
    if s == [] then Some([])
    else
      var first := DecodeOne(s);
      if first.None? then None
      else
        var rest := Decode(first.value.1);
        if rest.None? then None else Some([first.value.0] + rest.value)
  }

  lemma DecodeOneBack(c: CodePoint, rest: Bytes)
    ensures DecodeOne(EncodeOne(c) + rest) == Some((c, rest))
  {
    var one, s := EncodeOne(c), EncodeOne(c) + rest;
    assert s[|one|..] == rest;
    assert forall i | 0 <= i < |one| :: s[i] == one[i];
    if c >= 0x1_0000 {
      Digits4(c);
    } else if c >= 0x800 {
      Digits3(c);
    }
  }

  lemma Digits3(c: int)
    requires 0 <= c < 0x1_0000
    ensures c == c / 4096 * 4096 + c / 64 % 64 * 64 + c % 64 && 0 <= c / 4096 < 16
  {
  }

  lemma Digits4(c: int)
    requires 0 <= c < 0x11_0000
    ensures c == c / 26_2144 * 26_2144 + c / 4096 % 64 * 4096 + c / 64 % 64 * 64 + c % 64 && 0 <= c / 26_2144 < 5
  {
    var q := c / 64;
    var r := q / 64;
    assert c / 4096 == r && c / 26_2144 == r / 64;
    assert c == q * 64 + c % 64 && q == r * 64 + q % 64 && r == r / 64 * 64 + r % 64;
  }

  /** Characters of one to four bytes, among them examples of section 7 of RFC 3629. */
  lemma Examples()
    ensures EncodeOne(0x41) == [0x41] && EncodeOne(0x391) == [0xCE, 0x91]
    ensures EncodeOne(0x2262) == [0xE2, 0x89, 0xA2] && EncodeOne(0x233B4) == [0xF0, 0xA3, 0x8E, 0xB4]
  {
  }

  /** Decoding undoes encoding. */
  lemma {:induction false} DecodeBack(text: seq<CodePoint>)
    ensures Decode(Encode(text)) == Some(text)
  {
    if text != [] {
      DecodeOneBack(text[0], Encode(text[1..]));
      DecodeBack(text[1..]);
      assert text == [text[0]] + text[1..];
    }
  }

  lemma SixBits(high: int, low: int)
    requires 0 <= low < 64
    ensures (high * 64 + low) / 64 == high && (high * 64 + low) % 64 == low
  {
  }

  lemma TwoBack(a: int, b: int)
    requires 0 <= a < 32 && 0 <= b < 64 && a * 64 + b >= 0x80
    ensures EncodeOne(a * 64 + b) == [0xC0 + a, 0x80 + b]
  {
    SixBits(a, b);
  }

  lemma ThreeBack(a: int, b: int, c: int)
    requires 0 <= a < 16 && 0 <= b < 64 && 0 <= c < 64
    requires var n := a * 4096 + b * 64 + c; n >= 0x800 && !(0xD800 <= n < 0xE000)
    ensures EncodeOne(a * 4096 + b * 64 + c) == [0xE0 + a, 0x80 + b, 0x80 + c]
  {
    SixBits(a * 64 + b, c);
    SixBits(a, b);
    assert (a * 4096 + b * 64 + c) / 4096 == a;
  }

  lemma FourBack(a: int, b: int, c: int, d: int)
    requires 0 <= a < 8 && 0 <= b < 64 && 0 <= c < 64 && 0 <= d < 64
    requires var n := a * 26_2144 + b * 4096 + c * 64 + d; 0x1_0000 <= n < 0x11_0000
    ensures EncodeOne(a * 26_2144 + b * 4096 + c * 64 + d) == [0xF0 + a, 0x80 + b, 0x80 + c, 0x80 + d]
  {
    var n := a * 26_2144 + b * 4096 + c * 64 + d;
    SixBits(a * 4096 + b * 64 + c, d);
    SixBits(a * 64 + b, c);
    SixBits(a, b);
    assert n / 4096 == a * 64 + b && n / 26_2144 == a;
  }

  lemma OneDecoded(s: Bytes)
    requires s != [] && DecodeOne(s).Some?
    ensures s == EncodeOne(DecodeOne(s).value.0) + DecodeOne(s).value.1
  {
    var n, first := Announced(s[0]), s[0] as int;
    assert s == s[..n] + s[n..];
    if n == 2 {
      TwoBack(first - 0xC0, Rest(s, 1));
      assert s[..n] == [s[0], s[1]];
    } else if n == 3 {
      ThreeBack(first - 0xE0, Rest(s, 1), Rest(s, 2));
      assert s[..n] == [s[0], s[1], s[2]];
    } else if n == 4 {
      FourBack(first - 0xF0, Rest(s, 1), Rest(s, 2), Rest(s, 3));
      assert s[..n] == [s[0], s[1], s[2], s[3]];
    }
  }

  /** What decodes at all is the encoding of what it decodes to: no other bytes are accepted. */
  lemma {:induction false} OnlyEncodingsDecode(s: Bytes)
    requires Decode(s).Some?
    ensures Encode(Decode(s).value) == s
    decreases |s|
  {
    if s != [] {
      OneDecoded(s);
      OnlyEncodingsDecode(DecodeOne(s).value.1);
    }
  }
}
