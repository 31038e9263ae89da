/** The decoders of the SiYuan plugin: base64 with UTF-8 inside, and escaped tag text. */
module SiyuanDecoding {
  import opened Wrappers
  import opened Octets
  import Utf8

  // ---- base64 --------------------------------------------------------------------------------

  type Sextet = n: int | 0 <= n < 64

  /** Position in the alphabet of the decoder; the padding character comes last, -1 is no member. */
  function IndexOf(c: char): (e: int)
    ensures -1 <= e <= 64
  {
    if 'A' <= c <= 'Z' then c as int - 'A' as int
    else if 'a' <= c <= 'z' then c as int - 'a' as int + 26
    else if '0' <= c <= '9' then c as int - '0' as int + 52
    else if c == '+' then 62
    else if c == '/' then 63
    else if c == '=' then 64
    else -1
  }

  predicate InAlphabet(c: char) {
    IndexOf(c) >= 0
  }

  /** The input without the characters that the decoder ignores. */
  function Significant(input: string): (s: string)
    ensures forall c :: c in s ==> InAlphabet(c)
  {
    if input == "" then "" else (if InAlphabet(input[0]) then [input[0]] else "") + Significant(input[1..])
  }

  /** The index of the character at `i`; past the end `indexOf` gets the empty string and finds it at 0. */
  function IndexAt(s: string, i: nat): int {
    if i < |s| then IndexOf(s[i]) else 0
  }

  /** The bitwise combination of four indices from 0 to 64; bit 6 of the second one meets bit 0 of the first. */
  function Combine(e1: int, e2: int, e3: int, e4: int): int {
    var high := if e2 == 64 && e1 % 2 == 0 then e1 + 1 else e1;
    high * 26_2144 + e2 % 64 * 4096 + e3 % 64 * 64 + e4 % 64
  }

  /** The bytes that one round of the loop pushes. */
  function Round(e1: int, e2: int, e3: int, e4: int): Bytes {
    var n := Combine(e1, e2, e3, e4);
    [n / 6_5536 % 256] + (if e3 != 64 then [n / 256 % 256] else []) + (if e4 != 64 then [n % 256] else [])
  }

  /** All bytes from position `i` on. */
  function BytesFrom(s: string, i: nat): Bytes {
    Rounds(s, i, RoundAt)
  }

  function Rounds(s: string, i: nat, round: (string, nat) -> Bytes): Bytes
    decreases |s| - i
  {
    if i >= |s| then [] else round(s, i) + Rounds(s, i + 4, round)
  }

  function RoundAt(s: string, i: nat): Bytes {
    Round(IndexAt(s, i), IndexAt(s, i + 1), IndexAt(s, i + 2), IndexAt(s, i + 3))
  }

  /** Text as code points; bytes that are no UTF-8 are read one character each. */
  function ReadText(bytes: Bytes): seq<Utf8.CodePoint> {
    var text := Utf8.Decode(bytes);
    if text.Some? then text.value else seq(|bytes|, i requires 0 <= i < |bytes| => bytes[i])
  }

  /** `b64decode` */
  method DecodeBase64(input: string) returns (text: seq<Utf8.CodePoint>)
    ensures text == ReadText(BytesFrom(Significant(input), 0))
  {
    var s := Significant(input);
    if s == "" {
      return [];
    }
    var out := DecodeBytes(s);
    text := ReadText(out);
  }

  /** The loop over groups of four characters. */
  method DecodeBytes(s: string) returns (out: Bytes)
    requires forall c :: c in s ==> InAlphabet(c)
    ensures out == BytesFrom(s, 0)
  {
    out := [];
    var i: nat := 0;
    while i < |s|
      invariant out + BytesFrom(s, i) == BytesFrom(s, 0)
      decreases |s| - i
    {
      Regroup(out, RoundAt(s, i), BytesFrom(s, i + 4));
      var ok;
      out, ok := PushRound(out, s, i);
      if !ok {
        break;
      }
      i := i + 4;
    }
    assert BytesFrom(s, i) == [];
  }

  /** One round; it would end the loop if one of the first two characters were unknown. */
  method PushRound(out: Bytes, s: string, i: nat) returns (grown: Bytes, ok: bool)
    requires forall c :: c in s ==> InAlphabet(c)
    ensures ok && grown == out + RoundAt(s, i)
  {
    AllInAlphabet(s, i);
    AllInAlphabet(s, i + 1);
    var e1, e2, e3, e4 := IndexAt(s, i), IndexAt(s, i + 1), IndexAt(s, i + 2), IndexAt(s, i + 3);
    if e1 < 0 || e2 < 0 {
      return out, false;
    }
    grown := Push(out, e1, e2, e3, e4);
    ok := true;
  }

  lemma AllInAlphabet(s: string, i: nat)
    requires forall c :: c in s ==> InAlphabet(c)
    ensures IndexAt(s, i) >= 0
  {
    if i < |s| {
      assert s[i] in s;
    }
  }

  method Push(out: Bytes, e1: int, e2: int, e3: int, e4: int) returns (grown: Bytes)
    ensures grown == out + Round(e1, e2, e3, e4)
  {
    var n := Combine(e1, e2, e3, e4);
    grown := out + [n / 6_5536 % 256];
    if e3 != 64 {
      grown := grown + [n / 256 % 256];
    }
    if e4 != 64 {
      grown := grown + [n % 256];
    }
  }

  // ---- the encoding that it decodes ------------------------------------------------------------

  function Letter(e: Sextet): (c: char)
    ensures IndexOf(c) == e
  {
    if e < 26 then 'A' + e as char
    else if e < 52 then 'a' + (e - 26) as char
    else if e < 62 then '0' + (e - 52) as char
    else if e == 62 then '+'
    else '/'
  }

  /** Table 1 of RFC 4648: the upper-case letters, the lower-case ones, the digits, `+` and `/`. */
  lemma AlphabetIsStandard(e: Sextet)
    ensures Letter(0) == 'A' && Letter(25) == 'Z' && Letter(26) == 'a' && Letter(51) == 'z'
    ensures Letter(52) == '0' && Letter(61) == '9' && Letter(62) == '+' && Letter(63) == '/'
    ensures e < 61 && e != 25 && e != 51 ==> Letter(e + 1) as int == Letter(e) as int + 1
    ensures IndexOf(Letter(e)) == e && IndexOf('=') == 64
  {
  }

  function Four(a: Byte, b: Byte, c: Byte): string {
    [Letter(a / 4), Letter(a % 4 * 16 + b / 16), Letter(b % 16 * 4 + c / 64), Letter(c % 64)]
  }

  function Three(a: Byte, b: Byte): string {
    Four(a, b, 0)[..3]
  }

  function Two(a: Byte): string {
    Four(a, 0, 0)[..2]
  }

  /** The base64 encoding of section 4 of RFC 4648. */
  function EncodeBase64(bytes: Bytes): string {
    if bytes == [] then ""
    else if |bytes| == 1 then Two(bytes[0]) + "=="
    else if |bytes| == 2 then Three(bytes[0], bytes[1]) + "="
    else Four(bytes[0], bytes[1], bytes[2]) + EncodeBase64(bytes[3..])
  }

  lemma Digits(a: Byte, b: Byte, c: Byte)
    ensures a == a / 4 * 4 + a % 4 && b == b / 16 * 16 + b % 16 && c == c / 64 * 64 + c % 64
    ensures 0 <= a % 4 * 16 + b / 16 < 64 && 0 <= b % 16 * 4 + c / 64 < 64
  {
  }

  lemma Extract(a: Byte, low: int)
    requires 0 <= low < 6_5536
    ensures (a * 6_5536 + low) / 6_5536 % 256 == a
  {
  }

  lemma ExtractMiddle(a: Byte, b: Byte, c: Byte)
    ensures (a * 6_5536 + b * 256 + c) / 256 % 256 == b && (a * 6_5536 + b * 256 + c) % 256 == c
  {
  }

  lemma CombineBack(a: Byte, b: Byte, c: Byte)
    ensures Combine(a / 4, a % 4 * 16 + b / 16, b % 16 * 4 + c / 64, c % 64) == a * 6_5536 + b * 256 + c
  {
    Digits(a, b, c);
    var e2, e3 := a % 4 * 16 + b / 16, b % 16 * 4 + c / 64;
    assert e2 % 64 == e2 && e3 % 64 == e3;
  }

  /** Padding in place of the last one or two letters adds nothing to the number. */
  lemma RoundBack(a: Byte, b: Byte, c: Byte)
    ensures Round(a / 4, a % 4 * 16 + b / 16, b % 16 * 4 + c / 64, c % 64) == [a, b, c]
    ensures c == 0 ==> Round(a / 4, a % 4 * 16 + b / 16, b % 16 * 4, 64) == [a, b]
    ensures b == 0 ==> Round(a / 4, a % 4 * 16, 64, 64) == [a]
  {
    Digits(a, b, c);
    CombineBack(a, b, c);
    CombineBack(a, b, 0);
    CombineBack(a, 0, 0);
    Extract(a, b * 256 + c);
    Extract(a, b * 256);
    Extract(a, 0);
    ExtractMiddle(a, b, c);
    ExtractMiddle(a, b, 0);
  }

  /** The encoding without its padding. */
  function Unpadded(bytes: Bytes): string {
    if bytes == [] then ""
    else if |bytes| == 1 then Two(bytes[0])
    else if |bytes| == 2 then Three(bytes[0], bytes[1])
    else Four(bytes[0], bytes[1], bytes[2]) + Unpadded(bytes[3..])
  }

  lemma RoundShift(s: string, i: nat, j: nat)
    requires i <= |s|
    ensures RoundAt(s[i..], j) == RoundAt(s, i + j)
  {
  }

  /** What a round does depends only on the characters from its position on. */
  ghost predicate Shifts(s: string, i: nat, round: (string, nat) -> Bytes)
    requires i <= |s|
  {
    forall j: nat :: round(s[i..], j) == round(s, i + j)
  }

  lemma {:induction false} RoundsShift(s: string, i: nat, j: nat, round: (string, nat) -> Bytes)
    requires i <= |s| && Shifts(s, i, round)
    ensures Rounds(s[i..], j, round) == Rounds(s, i + j, round)
    decreases |s| - i - j
  {
    if i + j < |s| {
      RoundsShift(s, i, j + 4, round);
    }
  }

  lemma BytesShift(s: string, i: nat)
    requires i <= |s|
    ensures BytesFrom(s[i..], 0) == BytesFrom(s, i)
  {
    forall j: nat ensures RoundAt(s[i..], j) == RoundAt(s, i + j) {
      RoundShift(s, i, j);
    }
    RoundsShift(s, i, 0, RoundAt);
  }

  lemma FourBack(a: Byte, b: Byte, c: Byte, rest: string)
    ensures BytesFrom(Four(a, b, c) + rest, 0) == [a, b, c] + BytesFrom(rest, 0)
  {
    var s := Four(a, b, c) + rest;
    RoundBack(a, b, c);
    assert RoundAt(s, 0) == [a, b, c];
    BytesShift(s, 4);
    assert s[4..] == rest;
  }

  /** The last one or two bytes, padded and unpadded. */
  lemma LastBack(a: Byte, b: Byte)
    ensures BytesFrom(Three(a, b) + "=", 0) == [a, b] && BytesFrom(Three(a, b), 0) == [a, b, 0]
    ensures BytesFrom(Two(a) + "==", 0) == [a] && BytesFrom(Two(a), 0) == [a, 0, 0]
  {
    RoundBack(a, b, 0);
    RoundBack(a, 0, 0);
    assert BytesFrom(Three(a, b), 4) == [] && BytesFrom(Two(a), 4) == [];
    assert BytesFrom(Three(a, b) + "=", 4) == [] && BytesFrom(Two(a) + "==", 4) == [];
  }

  function Zeros(n: nat): Bytes {
    seq(n, _ => 0)
  }

  /** Bytes that the padding would have held back. */
  function Missing(bytes: Bytes): nat {
    if |bytes| % 3 == 0 then 0 else 3 - |bytes| % 3
  }

  /** What a reader of base64 does with a full group, and with a last one, padded or not. */
  ghost predicate ReadsFour(read: string -> Bytes) {
    forall a: Byte, b: Byte, c: Byte, rest {:trigger read(Four(a, b, c) + rest)} ::
      read(Four(a, b, c) + rest) == [a, b, c] + read(rest)
  }

  ghost predicate ReadsThree(read: string -> Bytes) {
    forall a: Byte, b: Byte {:trigger Three(a, b)} :: read(Three(a, b) + "=") == [a, b]
      && read(Three(a, b)) == [a, b, 0]
  }

  ghost predicate ReadsTwo(read: string -> Bytes) {
    forall a: Byte {:trigger Two(a)} :: read(Two(a) + "==") == [a] && read(Two(a)) == [a, 0, 0]
  }

  ghost predicate ReadsGroups(read: string -> Bytes) {
    read("") == [] && ReadsFour(read) && ReadsThree(read) && ReadsTwo(read)
  }

  function Reader(): string -> Bytes {
    (s: string) => BytesFrom(s, 0)
  }

  lemma ReaderReadsFour()
    ensures ReadsFour(Reader())
  {
    forall a: Byte, b: Byte, c: Byte, rest
      ensures Reader()(Four(a, b, c) + rest) == [a, b, c] + Reader()(rest)
    {
      FourBack(a, b, c, rest);
    }
  }

  lemma ReaderReadsThree()
    ensures ReadsThree(Reader())
  {
    forall a: Byte, b: Byte
      ensures Reader()(Three(a, b) + "=") == [a, b] && Reader()(Three(a, b)) == [a, b, 0]
    {
      LastBack(a, b);
    }
  }

  lemma ReaderReadsTwo()
    ensures ReadsTwo(Reader())
  {
    forall a: Byte
      ensures Reader()(Two(a) + "==") == [a] && Reader()(Two(a)) == [a, 0, 0]
    {
      LastBack(a, 0);
    }
  }

  lemma ReaderReadsGroups()
    ensures ReadsGroups(Reader())
  {
    ReaderReadsFour();
    ReaderReadsThree();
    ReaderReadsTwo();
  }

  lemma OneBack(bytes: Bytes, read: string -> Bytes)
    requires ReadsTwo(read) && |bytes| == 1
    ensures read(EncodeBase64(bytes)) == bytes && read(Unpadded(bytes)) == bytes + Zeros(2)
  {
  }

  lemma TwoBack(bytes: Bytes, read: string -> Bytes)
    requires ReadsThree(read) && |bytes| == 2
    ensures read(EncodeBase64(bytes)) == bytes && read(Unpadded(bytes)) == bytes + Zeros(1)
  {
  }

  lemma FullGroupBack(a: Byte, b: Byte, c: Byte, rest: Bytes, text: string, plain: string, zeros: Bytes,
      read: string -> Bytes)
    requires ReadsGroups(read) && read(text) == rest && read(plain) == rest + zeros
    ensures read(Four(a, b, c) + text) == [a, b, c] + rest && read(Four(a, b, c) + plain) == ([a, b, c] + rest) + zeros
  {
  }

  lemma {:induction false} GroupsBack(bytes: Bytes, read: string -> Bytes)
    requires ReadsGroups(read)
    ensures read(EncodeBase64(bytes)) == bytes && read(Unpadded(bytes)) == bytes + Zeros(Missing(bytes))
    decreases |bytes|
  {
    if |bytes| > 2 {
      var a, b, c, rest := bytes[0], bytes[1], bytes[2], bytes[3..];
      GroupsBack(rest, read);
      FullGroupBack(a, b, c, rest, EncodeBase64(rest), Unpadded(rest), Zeros(Missing(rest)), read);
      assert bytes == [a, b, c] + rest;
      MissingTail(bytes);
    } else if |bytes| == 2 {
      TwoBack(bytes, read);
    } else if |bytes| == 1 {
      OneBack(bytes, read);
    }
  }

  /** Padded base64 decodes to the bytes; unpadded base64 decodes to the bytes and zeros up to a full group. */
  lemma Base64Back(bytes: Bytes)
    ensures BytesFrom(EncodeBase64(bytes), 0) == bytes
    ensures BytesFrom(Unpadded(bytes), 0) == bytes + Zeros(Missing(bytes))
  {
    ReaderReadsGroups();
    GroupsBack(bytes, Reader());
    assert Reader()(EncodeBase64(bytes)) == BytesFrom(EncodeBase64(bytes), 0);
  }

  lemma MissingTail(bytes: Bytes)
    requires |bytes| >= 3
    ensures Missing(bytes[3..]) == Missing(bytes)
  {
  }

  /** Characters outside the alphabet do not matter, wherever they are. */
  lemma {:induction false} NoiseIsIgnored(before: string, noise: string, after: string)
    requires forall c :: c in noise ==> !InAlphabet(c)
    ensures Significant(before + noise + after) == Significant(before + after)
  {
    if before != "" {
      assert (before + noise + after)[1..] == before[1..] + noise + after
        && (before + after)[1..] == before[1..] + after;
      NoiseIsIgnored(before[1..], noise, after);
    } else if noise != "" {
      assert (noise + after)[1..] == "" + noise[1..] + after && before + noise + after == noise + after;
      NoiseIsIgnored(before, noise[1..], after);
    } else {
      assert before + noise + after == before + after;
    }
  }

  lemma {:induction false} AlphabetIsSignificant(s: string)
    requires forall c :: c in s ==> InAlphabet(c)
    ensures Significant(s) == s
  {
    if s != "" {
      AlphabetIsSignificant(s[1..]);
    }
  }

  lemma {:induction false} EncodingIsInAlphabet(bytes: Bytes)
    ensures forall c :: c in EncodeBase64(bytes) ==> InAlphabet(c)
    ensures forall c :: c in Unpadded(bytes) ==> InAlphabet(c)
    decreases |bytes|
  {
    if |bytes| > 2 {
      EncodingIsInAlphabet(bytes[3..]);
    }
  }

  /**
   Decoding any input whose characters of the alphabet are the padded base64 of the UTF-8 of a text
   returns that text; the encoding itself is such an input.
   */
  lemma TextIsReadBack(text: seq<Utf8.CodePoint>, input: string)
    ensures Significant(EncodeBase64(Utf8.Encode(text))) == EncodeBase64(Utf8.Encode(text))
    ensures Significant(input) == EncodeBase64(Utf8.Encode(text)) ==> ReadText(BytesFrom(Significant(input), 0)) == text
  {
    EncodingIsInAlphabet(Utf8.Encode(text));
    AlphabetIsSignificant(EncodeBase64(Utf8.Encode(text)));
    Base64Back(Utf8.Encode(text));
    Utf8.DecodeBack(text);
  }

  /** Without padding the bytes come back exactly when their number is divisible by three. */
  lemma UnpaddedExactlyWhenFull(bytes: Bytes)
    ensures BytesFrom(Significant(Unpadded(bytes)), 0) == bytes <==> |bytes| % 3 == 0
  {
    EncodingIsInAlphabet(bytes);
    AlphabetIsSignificant(Unpadded(bytes));
    Base64Back(bytes);
  }

  // ---- escaped tag text --------------------------------------------------------------------------

  datatype Entity = Entity(ch: char, name: string)

  /** Replace every occurrence of `name`, from left to right. */
  function Replace(s: string, name: string, ch: char): string
    decreases |s|
  {
    if s == "" then ""
    else if name != "" && name <= s then [ch] + Replace(s[|name|..], name, ch)
    else [s[0]] + Replace(s[1..], name, ch)
  }

  /** The replacements one after another. */
  function Unescape(table: seq<Entity>, s: string): string
    decreases |table|
  {
    if table == [] then s else Unescape(table[1..], Replace(s, table[0].name, table[0].ch))
  }

  function EscapeChar(table: seq<Entity>, c: char): string {
    if table == [] then [c] else if table[0].ch == c then table[0].name else EscapeChar(table[1..], c)
  }

  /** The escaping that tag texts are stored with. */
  function Escape(table: seq<Entity>, s: string): string {
    if s == "" then "" else EscapeChar(table, s[0]) + Escape(table, s[1..])
  }

  const ENTITIES: seq<Entity> := [
    Entity('<', "&lt;"), Entity('>', "&gt;"), Entity('\"', "&quot;"), Entity('\'', "&#39;"), Entity('&', "&amp;")]

  /** An ampersand, no ampersand or semicolon, and a semicolon. */
  predicate IsName(name: string) {
    |name| >= 2 && name[0] == '&' && name[|name| - 1] == ';'
    && forall i | 1 <= i < |name| - 1 :: name[i] != '&' && name[i] != ';'
  }

  /** Names of different characters differ, and the ampersand is the last one. */
  predicate TableOk(table: seq<Entity>) {
    && table != [] && table[|table| - 1].ch == '&'
    && (forall i | 0 <= i < |table| :: IsName(table[i].name))
    && (forall i, j | 0 <= i < j < |table| :: table[i].ch != table[j].ch && table[i].name != table[j].name)
  }

  /** A name is no prefix of a text that starts with another name, or with a character that is no ampersand. */
  lemma NoOtherMatch(name: string, other: string, rest: string)
    requires IsName(name) && IsName(other) && name != other
    ensures !(name <= other + rest)
  {
    if name <= other + rest {
      var s := other + rest;
      assert forall i | 0 <= i < |name| :: name[i] == s[i];
      assert forall i | 0 <= i < |other| :: other[i] == s[i];
    }
  }

  lemma SkipChar(name: string, c: char, rest: string, ch: char)
    requires IsName(name) && c != '&'
    ensures Replace([c] + rest, name, ch) == [c] + Replace(rest, name, ch)
  {
  }

  /** The characters of another name after its ampersand are skipped. */
  lemma {:induction false} SkipTail(name: string, tail: string, rest: string, ch: char)
    requires IsName(name) && '&' !in tail
    ensures Replace(tail + rest, name, ch) == tail + Replace(rest, name, ch)
  {
    if tail == "" {
      assert tail + rest == rest;
    } else {
      SkipTail(name, tail[1..], rest, ch);
      SkipChar(name, tail[0], tail[1..] + rest, ch);
      assert [tail[0]] + (tail[1..] + rest) == tail + rest;
      assert [tail[0]] + (tail[1..] + Replace(rest, name, ch)) == tail + Replace(rest, name, ch);
    }
  }

  lemma SkipName(name: string, other: string, rest: string, ch: char)
    requires IsName(name) && IsName(other) && name != other
    ensures Replace(other + rest, name, ch) == other + Replace(rest, name, ch)
  {
    NoOtherMatch(name, other, rest);
    var s := other + rest;
    assert s[1..] == other[1..] + rest;
    SkipTail(name, other[1..], rest, ch);
    assert [other[0]] + (other[1..] + Replace(rest, name, ch)) == other + Replace(rest, name, ch);
  }

  lemma HitName(name: string, rest: string, ch: char)
    requires IsName(name)
    ensures Replace(name + rest, name, ch) == [ch] + Replace(rest, name, ch)
  {
  }

  /** An escaped character is itself, and no ampersand, or a name of the table. */
  lemma {:induction false} EscapedChar(table: seq<Entity>, c: char)
    ensures (EscapeChar(table, c) == [c] && forall e :: e in table ==> e.ch != c)
         || exists e :: e in table && e.ch == c && EscapeChar(table, c) == e.name
  {
    if table != [] && table[0].ch != c {
      EscapedChar(table[1..], c);
      assert forall e :: e in table <==> e == table[0] || e in table[1..];
    }
  }

  lemma ReplaceOne(table: seq<Entity>, c: char, rest: string)
    requires TableOk(table)
    ensures Replace(EscapeChar(table, c) + rest, table[0].name, table[0].ch)
         == EscapeChar(table[1..], c) + Replace(rest, table[0].name, table[0].ch)
  {
    var name, ch := table[0].name, table[0].ch;
    if c == ch {
      HitName(name, rest, ch);
      EscapedChar(table[1..], c);
    } else {
      EscapedChar(table[1..], c);
      if e :| e in table[1..] && e.ch == c && EscapeChar(table[1..], c) == e.name {
        SkipName(name, e.name, rest, ch);
      } else {
        assert table[|table| - 1] in table && (|table| > 1 ==> table[|table| - 1] in table[1..]);
        SkipChar(name, c, rest, ch);
      }
    }
  }

  /** One replacement takes the escaping of one character back and leaves that of the others. */
  lemma {:induction false} ReplaceStep(table: seq<Entity>, s: string)
    requires TableOk(table)
    ensures Replace(Escape(table, s), table[0].name, table[0].ch) == Escape(table[1..], s)
  {
    if s != "" {
      ReplaceOne(table, s[0], Escape(table, s[1..]));
      ReplaceStep(table, s[1..]);
    }
  }

  lemma {:induction false} EscapeNothing(s: string)
    ensures Escape([], s) == s
  {
    if s != "" {
      EscapeNothing(s[1..]);
    }
  }

  /** For any such table, replacing in its order undoes the escaping: nothing is decoded twice. */
  lemma {:induction false} UnescapeUndoesEscape(table: seq<Entity>, s: string)
    requires TableOk(table)
    ensures Unescape(table, Escape(table, s)) == s
    decreases |table|
  {
    ReplaceStep(table, s);
    if |table| == 1 {
      assert table[1..] == [];
      EscapeNothing(s);
    } else {
      UnescapeUndoesEscape(table[1..], s);
    }
  }

  /** The five entities, spelled out; every other character stands for itself. */
  lemma EntitiesSpelledOut(c: char)
    ensures EscapeChar(ENTITIES, '<') == "&lt;" && EscapeChar(ENTITIES, '>') == "&gt;"
    ensures EscapeChar(ENTITIES, '\"') == "&quot;" && EscapeChar(ENTITIES, '\'') == "&#39;"
    ensures EscapeChar(ENTITIES, '&') == "&amp;"
    ensures c !in {'<', '>', '\"', '\'', '&'} ==> EscapeChar(ENTITIES, c) == [c]
  {
    var four, three, two, one := ENTITIES[1..], ENTITIES[2..], ENTITIES[3..], ENTITIES[4..];
    assert four[1..] == three && three[1..] == two && two[1..] == one && one[1..] == [];
    forall d: char
      ensures EscapeChar(one, d) == if d == '&' then "&amp;" else [d]
      ensures EscapeChar(two, d) == if d == '\'' then "&#39;" else EscapeChar(one, d)
      ensures EscapeChar(three, d) == if d == '\"' then "&quot;" else EscapeChar(two, d)
      ensures EscapeChar(four, d) == if d == '>' then "&gt;" else EscapeChar(three, d)
    {
    }
  }

  lemma EntitiesOk()
    ensures TableOk(ENTITIES)
  {
    assert "&lt;"[1] != "&gt;"[1];
  }

  /** `unescapeTagText` undoes the escaping of the five entities on every text. */
  lemma TagTextIsReadBack(s: string)
    ensures Unescape(ENTITIES, Escape(ENTITIES, s)) == s
  {
    EntitiesOk();
    UnescapeUndoesEscape(ENTITIES, s);
  }
}
