/**
 The query string that an Aliyun RPC call signs and sends. Text is the sequence of its UTF-8
 bytes. A decoder that follows sections 2.1 and 2.3 of RFC 3986 reads everything back.
 */
module CanonicalQuery {
  import opened Wrappers
  import opened Octets

  const PERCENT: Byte := 37
  const AMPERSAND: Byte := 38
  const EQUALS: Byte := 61

  /** Letters, digits and `-`, `_`, `.`, `~`. */
  predicate Unreserved(b: Byte) {
    65 <= b <= 90 || 97 <= b <= 122 || 48 <= b <= 57 || b == 45 || b == 95 || b == 46 || b == 126
  }

  type Nibble = n: int | 0 <= n < 16

  function HexDigit(n: Nibble): Byte {
    if n < 10 then 48 + n else 55 + n
  }

  function EncodeByte(b: Byte): Bytes {
    if Unreserved(b) then [b] else [PERCENT, HexDigit(b / 16), HexDigit(b % 16)]
  }

  function Encode(s: Bytes): Bytes {
    if s == [] then [] else EncodeByte(s[0]) + Encode(s[1..])
  }

  /** `aliyun_percent_encode` */
  method PercentEncode(s: Bytes) returns (out: Bytes)
    ensures out == Encode(s)
  {
    out := [];
    for i := 0 to |s|
      invariant out + Encode(s[i..]) == Encode(s)
    {
      assert s[i..][0] == s[i] && s[i..][1..] == s[i + 1..];
      Regroup(out, EncodeByte(s[i]), Encode(s[i + 1..]));
      out := PushEncoded(out, s[i]);
    }
  }

  method PushEncoded(out: Bytes, b: Byte) returns (grown: Bytes)
    ensures grown == out + EncodeByte(b)
  {
    if Unreserved(b) {
      grown := out + [b];
    } else {
      grown := out + [PERCENT];
      var digits := [HexDigit(b / 16), HexDigit(b % 16)];
      Regroup(out, [PERCENT], digits);
      grown := grown + digits;
    }
  }

  lemma {:induction false} EncodeAppend(a: Bytes, b: Bytes)
    ensures Encode(a + b) == Encode(a) + Encode(b)
  {
    if a == [] {
      assert a + b == b;
    } else {
      assert (a + b)[1..] == a[1..] + b;
      EncodeAppend(a[1..], b);
      Regroup(EncodeByte(a[0]), Encode(a[1..]), Encode(b));
    }
  }

  /**
   Section 2.3 of RFC 3986: exactly the letters, digits, `-`, `.`, `_` and `~` stand for themselves; any
   other byte becomes a percent sign and two upper-case hexadecimal digits.
   */
  lemma EncodedByte(b: Byte)
    ensures if 'A' as int <= b <= 'Z' as int || 'a' as int <= b <= 'z' as int || '0' as int <= b <= '9' as int
               || b in {'-' as int, '.' as int, '_' as int, '~' as int}
            then Encode([b]) == [b]
            else
              var high, low := Ascii("0123456789ABCDEF")[b / 16], Ascii("0123456789ABCDEF")[b % 16];
              Encode([b]) == ['%' as int, high, low]
  {
    assert [b][1..] == [];
    assert Encode([b]) == EncodeByte(b);
  }

  /** Text of unreserved bytes is left alone. */
  lemma {:induction false} PlainStays(s: Bytes)
    requires forall i | 0 <= i < |s| ::
               48 <= s[i] <= 57 || 65 <= s[i] <= 90 || 97 <= s[i] <= 122 || s[i] in {45, 46, 95, 126}
    ensures Encode(s) == s
  {
    if s != [] {
      PlainStays(s[1..]);
    }
  }

  // ---- decoding ---------------------------------------------------------------------------------

  function HexValue(b: Byte): Option<Nibble> {
    if 48 <= b <= 57 then Some(b - 48)
    else if 65 <= b <= 70 then Some(b - 55)
    else if 97 <= b <= 102 then Some(b - 87)
    else None
  }

  function Cons(b: Byte, rest: Option<Bytes>): Option<Bytes> {
    if rest.Some? then Some([b] + rest.value) else None
  }

  /** Percent decoding; `None` if a percent sign is not followed by two hexadecimal digits. */
  function Decode(s: Bytes): Option<Bytes> {
    if s == [] then Some([])
    else if s[0] != PERCENT then Cons(s[0], Decode(s[1..]))
    else if |s| < 3 || HexValue(s[1]).None? || HexValue(s[2]).None? then None
    else Cons(16 * HexValue(s[1]).value + HexValue(s[2]).value, Decode(s[3..]))
  }

  lemma DecodeOne(b: Byte, rest: Bytes)
    ensures Decode(EncodeByte(b) + rest) == Cons(b, Decode(rest))
  {
  }

  /** Percent decoding undoes percent encoding. */
  lemma {:induction false} DecodeEncode(s: Bytes)
    ensures Decode(Encode(s)) == Some(s)
  {
    if s != [] {
      DecodeOne(s[0], Encode(s[1..]));
      DecodeEncode(s[1..]);
      assert s == [s[0]] + s[1..];
    }
  }

  predicate Clean(s: Bytes) {
    AMPERSAND !in s && EQUALS !in s
  }

  /** Encoded text has neither `&` nor `=`. */
  lemma {:induction false} EncodedIsClean(s: Bytes)
    ensures Clean(Encode(s))
  {
    if s != [] {
      EncodedIsClean(s[1..]);
      assert Clean(EncodeByte(s[0]));
    }
  }

  // ---- the parameters ------------------------------------------------------------------------------

  datatype Param = Param(key: Bytes, value: Bytes)

  /** The order of byte strings, as a `BTreeMap` of strings uses it. */
  predicate Less(a: Bytes, b: Bytes) {
    if b == [] then false
    else if a == [] then true
    else a[0] < b[0] || (a[0] == b[0] && Less(a[1..], b[1..]))
  }

  /** A `BTreeMap` is the list of its entries with keys strictly ascending. */
  predicate Sorted(params: seq<Param>) {
    forall i, j | 0 <= i < j < |params| :: Less(params[i].key, params[j].key)
  }

  function Lookup(params: seq<Param>, key: Bytes): Option<Bytes> {
    if params == [] then None
    else if params[0].key == key then Some(params[0].value)
    else Lookup(params[1..], key)
  }

  function Insert(params: seq<Param>, key: Bytes, value: Bytes): seq<Param> {
    if params == [] then [Param(key, value)]
    else if Less(key, params[0].key) then [Param(key, value)] + params
    else if params[0].key == key then [Param(key, value)] + params[1..]
    else [params[0]] + Insert(params[1..], key, value)
  }

  /** The parameters that a caller adds overwrite those of the same name. */
  function InsertAll(params: seq<Param>, extra: seq<Param>): seq<Param>
    decreases |extra|
  {
    if extra == [] then params else InsertAll(Insert(params, extra[0].key, extra[0].value), extra[1..])
  }

  lemma {:induction false} LessIsStrict(a: Bytes, b: Bytes)
    ensures !Less(a, a)
    ensures !(Less(a, b) && Less(b, a))
    ensures a == b || Less(a, b) || Less(b, a)
  {
    if a != [] {
      if b != [] {
        LessIsStrict(a[1..], b[1..]);
        assert a == [a[0]] + a[1..] && b == [b[0]] + b[1..];
      } else {
        LessIsStrict(a[1..], []);
      }
    }
  }

  lemma {:induction false} LessTransitive(a: Bytes, b: Bytes, c: Bytes)
    requires Less(a, b) && Less(b, c)
    ensures Less(a, c)
  {
    if a != [] && a[0] == b[0] && b[0] == c[0] {
      LessTransitive(a[1..], b[1..], c[1..]);
    }
  }

  /** The first byte that differs decides the order, and a proper beginning comes first. */
  lemma {:induction false} FirstDifferenceOrders(same: Bytes, x: Byte, a: Bytes, y: Byte, b: Bytes)
    ensures x != y ==> (Less(same + ([x] + a), same + ([y] + b)) <==> x < y)
    ensures Less(same, same + ([y] + b))
  {
    if same == [] {
      assert same + ([x] + a) == [x] + a && same + ([y] + b) == [y] + b;
    } else {
      assert (same + ([x] + a))[1..] == same[1..] + ([x] + a);
      assert (same + ([y] + b))[1..] == same[1..] + ([y] + b);
      FirstDifferenceOrders(same[1..], x, a, y, b);
    }
  }

  lemma {:induction false} InsertKeys(params: seq<Param>, key: Bytes, value: Bytes)
    ensures forall p :: p in Insert(params, key, value) ==> p.key == key || p in params
  {
    if params != [] {
      InsertKeys(params[1..], key, value);
    }
  }

  lemma SortedCons(p: Param, rest: seq<Param>)
    requires Sorted(rest) && forall q :: q in rest ==> Less(p.key, q.key)
    ensures Sorted([p] + rest)
  {
  }

  lemma SortedTail(params: seq<Param>)
    requires params != [] && Sorted(params)
    ensures Sorted(params[1..]) && forall q :: q in params[1..] ==> Less(params[0].key, q.key)
  {
  }

  /** Inserting keeps the entries sorted and changes the value of one key. */
  lemma {:induction false} InsertIsUpdate(params: seq<Param>, key: Bytes, value: Bytes, other: Bytes)
    requires Sorted(params)
    ensures Sorted(Insert(params, key, value))
    ensures Lookup(Insert(params, key, value), other) == if other == key then Some(value) else Lookup(params, other)
  {
    LessIsStrict(key, key);
    if params != [] {
      var p, rest := params[0], params[1..];
      SortedTail(params);
      LessIsStrict(key, p.key);
      if Less(key, p.key) {
        forall q | q in params ensures Less(key, q.key) {
          if q != p {
            assert q in rest;
            LessTransitive(key, p.key, q.key);
          }
        }
        SortedCons(Param(key, value), params);
        NotBefore(params, key);
      } else if p.key == key {
        SortedCons(Param(key, value), rest);
      } else {
        InsertIsUpdate(rest, key, value, other);
        InsertKeys(rest, key, value);
        SortedCons(p, Insert(rest, key, value));
      }
    }
  }

  /** A key that is less than all keys is not present. */
  lemma {:induction false} NotBefore(params: seq<Param>, key: Bytes)
    requires forall q :: q in params ==> Less(key, q.key)
    ensures Lookup(params, key) == None
  {
    if params != [] {
      LessIsStrict(key, key);
      assert params[0] in params;
      NotBefore(params[1..], key);
    }
  }

  ghost predicate SameMap(a: seq<Param>, b: seq<Param>) {
    forall key :: Lookup(a, key) == Lookup(b, key)
  }

  /** Two sorted lists with the same value for every key are the same list. */
  lemma {:induction false} SortedIsCanonical(a: seq<Param>, b: seq<Param>)
    requires Sorted(a) && Sorted(b) && SameMap(a, b)
    ensures a == b
  {
    assert a != [] ==> Lookup(a, a[0].key).Some?;
    assert b != [] ==> Lookup(b, b[0].key).Some?;
    if a != [] && b != [] {
      SameHead(a, b);
      SortedTail(a);
      SortedTail(b);
      NotBefore(a[1..], a[0].key);
      NotBefore(b[1..], b[0].key);
      forall key ensures Lookup(a[1..], key) == Lookup(b[1..], key) {
        assert Lookup(a, key) == Lookup(b, key);
      }
      SortedIsCanonical(a[1..], b[1..]);
      assert a == [a[0]] + a[1..] && b == [b[0]] + b[1..];
    }
  }

  lemma SameHead(a: seq<Param>, b: seq<Param>)
    requires a != [] && b != [] && Sorted(a) && Sorted(b) && SameMap(a, b)
    ensures a[0] == b[0]
  {
    LessIsStrict(a[0].key, b[0].key);
    assert Lookup(a, a[0].key) == Lookup(b, a[0].key) && Lookup(a, b[0].key) == Lookup(b, b[0].key);
    if Less(a[0].key, b[0].key) {
      HeadIsLeast(b, a[0].key);
    } else if Less(b[0].key, a[0].key) {
      HeadIsLeast(a, b[0].key);
    }
  }

  lemma HeadIsLeast(params: seq<Param>, key: Bytes)
    requires params != [] && Sorted(params) && Less(key, params[0].key)
    ensures Lookup(params, key) == None
  {
    SortedTail(params);
    forall q | q in params ensures Less(key, q.key) {
      if q != params[0] {
        assert q in params[1..];
        LessTransitive(key, params[0].key, q.key);
      }
    }
    NotBefore(params, key);
  }

  // ---- the strings that are sent and signed ---------------------------------------------------------

  function Pair(p: Param): Bytes {
    Encode(p.key) + [EQUALS] + Encode(p.value)
  }

  function Canonical(params: seq<Param>): Bytes {
    if params == [] then []
    else if |params| == 1 then Pair(params[0])
    else Pair(params[0]) + [AMPERSAND] + Canonical(params[1..])
  }

  const GET: Bytes := [71, 69, 84]
  const SLASH: Bytes := [47]
  const SIGNATURE: Bytes := [83, 105, 103, 110, 97, 116, 117, 114, 101]

  function StringToSign(params: seq<Param>): Bytes {
    GET + [AMPERSAND] + Encode(SLASH) + [AMPERSAND] + Encode(Canonical(params))
  }

  /** The query of the request: the canonical string and the signature. */
  function SignedQuery(params: seq<Param>, signature: Bytes): Bytes {
    Canonical(params) + [AMPERSAND] + (SIGNATURE + [EQUALS] + Encode(signature))
  }

  /** The text up to the first `mark`, and the text after it, if there is one. */
  function Cut(s: Bytes, mark: Byte): (Bytes, Option<Bytes>) {
    if s == [] then ([], None)
    else if s[0] == mark then ([], Some(s[1..]))
    else
      var rest := Cut(s[1..], mark);
      ([s[0]] + rest.0, rest.1)
  }

  function Pieces(s: Bytes, mark: Byte): (pieces: seq<Bytes>)
    decreases |s|
  {
    var cut := Cut(s, mark);
    CutShrinks(s, mark);
    if cut.1.None? then [cut.0] else [cut.0] + Pieces(cut.1.value, mark)
  }

  lemma {:induction false} CutShrinks(s: Bytes, mark: Byte)
    ensures Cut(s, mark).1.Some? ==> |Cut(s, mark).1.value| < |s|
  {
    if s != [] && s[0] != mark {
      CutShrinks(s[1..], mark);
    }
  }

  function ReadPair(piece: Bytes): Option<Param> {
    var cut := Cut(piece, EQUALS);
    var key := Decode(cut.0);
    var value := if cut.1.Some? then Decode(cut.1.value) else None;
    if key.Some? && value.Some? then Some(Param(key.value, value.value)) else None
  }

  function ReadPairs(pieces: seq<Bytes>): Option<seq<Param>> {
    if pieces == [] then Some([])
    else
      var first := ReadPair(pieces[0]);
      var rest := ReadPairs(pieces[1..]);
      if first.Some? && rest.Some? then Some([first.value] + rest.value) else None
  }

  /** How a server reads a query. */
  function ReadQuery(query: Bytes): Option<seq<Param>> {
    if query == [] then Some([]) else ReadPairs(Pieces(query, AMPERSAND))
  }

  /** How a server reads back what was signed: method, path and query. */
  function ReadStringToSign(s: Bytes): Option<(Bytes, Bytes, seq<Param>)> {
    var pieces := Pieces(s, AMPERSAND);
    if |pieces| != 3 || Decode(pieces[1]).None? || Decode(pieces[2]).None? then None
    else
      var params := ReadQuery(Decode(pieces[2]).value);
      if params.None? then None else Some((pieces[0], Decode(pieces[1]).value, params.value))
  }

  lemma {:induction false} CutAt(before: Bytes, mark: Byte, after: Bytes)
    requires mark !in before
    ensures Cut(before + [mark] + after, mark) == (before, Some(after))
    ensures Cut(before, mark) == (before, None)
  {
    var s := before + [mark] + after;
    if before == [] {
      assert s[1..] == after;
    } else {
      assert s[1..] == before[1..] + [mark] + after;
      CutAt(before[1..], mark, after);
      assert before == [before[0]] + before[1..];
    }
  }

  lemma PairReadsBack(p: Param)
    ensures ReadPair(Pair(p)) == Some(p) && AMPERSAND !in Pair(p) && Pair(p) != []
  {
    EncodedIsClean(p.key);
    EncodedIsClean(p.value);
    CutAt(Encode(p.key), EQUALS, Encode(p.value));
    DecodeEncode(p.key);
    DecodeEncode(p.value);
  }

  lemma {:induction false} CanonicalPieces(params: seq<Param>)
    requires params != []
    ensures Canonical(params) != [] && ReadPairs(Pieces(Canonical(params), AMPERSAND)) == Some(params)
    decreases |params|
  {
    var first, rest := Pair(params[0]), params[1..];
    PairReadsBack(params[0]);
    if |params| == 1 {
      CutAt(first, AMPERSAND, []);
      assert Pieces(first, AMPERSAND) == [first] && Pieces(first, AMPERSAND)[1..] == [];
      assert ReadPairs([first]) == Some([params[0]] + []);
      assert params == [params[0]] + [];
    } else {
      CutAt(first, AMPERSAND, Canonical(rest));
      CanonicalPieces(rest);
      assert Pieces(Canonical(params), AMPERSAND)[1..] == Pieces(Canonical(rest), AMPERSAND);
      assert params == [params[0]] + rest;
    }
  }

  /** A server reads the parameters back from the canonical query. */
  lemma QueryReadsBack(params: seq<Param>)
    ensures ReadQuery(Canonical(params)) == Some(params)
  {
    if params != [] {
      CanonicalPieces(params);
    }
  }

  lemma {:induction false} CanonicalAppend(params: seq<Param>, p: Param)
    requires params != []
    ensures Canonical(params + [p]) == Canonical(params) + [AMPERSAND] + Pair(p)
    decreases |params|
  {
    assert (params + [p])[1..] == params[1..] + [p];
    if |params| > 1 {
      CanonicalAppend(params[1..], p);
    } else {
      assert Canonical([p]) == Pair(p) && params[1..] + [p] == [p];
    }
  }

  /** The request carries exactly the parameters that were signed, and the signature. */
  lemma RequestReadsBack(params: seq<Param>, signature: Bytes)
    requires params != []
    ensures ReadQuery(SignedQuery(params, signature)) == Some(params + [Param(SIGNATURE, signature)])
  {
    SignatureIsPlain();
    OneMoreReadsBack(params, Param(SIGNATURE, signature));
  }

  lemma SignatureIsPlain()
    ensures Encode(SIGNATURE) == SIGNATURE
  {
    PlainStays(SIGNATURE);
  }

  lemma OneMoreReadsBack(params: seq<Param>, p: Param)
    requires params != []
    ensures ReadQuery(Canonical(params) + [AMPERSAND] + Pair(p)) == Some(params + [p])
  {
    CanonicalAppend(params, p);
    QueryReadsBack(params + [p]);
  }

  /** What is signed can be read back in full. */
  lemma StringToSignReadsBack(params: seq<Param>)
    ensures ReadStringToSign(StringToSign(params)) == Some((GET, SLASH, params))
  {
    var path, query := Encode(SLASH), Encode(Canonical(params));
    EncodedIsClean(SLASH);
    EncodedIsClean(Canonical(params));
    var tail := path + [AMPERSAND] + query;
    assert StringToSign(params) == GET + [AMPERSAND] + tail;
    CutAt(GET, AMPERSAND, tail);
    CutAt(path, AMPERSAND, query);
    CutAt(query, AMPERSAND, []);
    assert Pieces(query, AMPERSAND) == [query];
    assert Pieces(tail, AMPERSAND) == [path] + [query];
    assert Pieces(StringToSign(params), AMPERSAND) == [GET] + ([path] + [query]);
    DecodeEncode(SLASH);
    DecodeEncode(Canonical(params));
    QueryReadsBack(params);
  }

  /** A pair as it stands in the string to sign: encoded twice, `%3D` between key and value. */
  function SignedPair(p: Param): Bytes {
    Encode(Encode(p.key)) + [37, 51, 68] + Encode(Encode(p.value))
  }

  lemma EncodedPair(p: Param)
    ensures Encode(Pair(p)) == SignedPair(p)
  {
    EncodeAppend(Encode(p.key) + [EQUALS], Encode(p.value));
    EncodeAppend(Encode(p.key), [EQUALS]);
    assert [EQUALS][1..] == [];
    assert Encode([EQUALS]) == EncodeByte(EQUALS) == [37, 51, 68];
  }

  lemma EncodedSeparators()
    ensures Encode(SLASH) == [37, 50, 70] && Encode([AMPERSAND]) == [37, 50, 54]
  {
    assert SLASH[1..] == [] && [AMPERSAND][1..] == [];
    assert EncodeByte(47) == [37, 50, 70] && EncodeByte(AMPERSAND) == [37, 50, 54];
  }

  lemma OneMoreSigned(start: Bytes, query: Bytes, p: Param)
    ensures start + Encode(query + [AMPERSAND] + Pair(p)) == start + Encode(query) + ([37, 50, 54] + SignedPair(p))
  {
    EncodedSeparators();
    EncodedPair(p);
    EncodeAppend(query + [AMPERSAND], Pair(p));
    EncodeAppend(query, [AMPERSAND]);
  }

  /** The string to sign, spelled out: `GET&%2F&`, and the pairs with `%26` between them. */
  lemma StringToSignSpelledOut(params: seq<Param>, p: Param)
    ensures StringToSign([]) == [71, 69, 84, 38, 37, 50, 70, 38]
    ensures StringToSign([p]) == StringToSign([]) + SignedPair(p)
    ensures params != [] ==> StringToSign(params + [p]) == StringToSign(params) + ([37, 50, 54] + SignedPair(p))
  {
    EncodedSeparators();
    EncodedPair(p);
    if params != [] {
      CanonicalAppend(params, p);
      OneMoreSigned(GET + [AMPERSAND] + Encode(SLASH) + [AMPERSAND], Canonical(params), p);
    }
  }

  /** Different parameter maps are never signed by the same string. */
  lemma StringToSignIsInjective(a: seq<Param>, b: seq<Param>)
    requires Sorted(a) && Sorted(b)
    ensures StringToSign(a) == StringToSign(b) <==> SameMap(a, b)
  {
    if StringToSign(a) == StringToSign(b) {
      StringToSignReadsBack(a);
      StringToSignReadsBack(b);
      assert a == b;
    }
    if SameMap(a, b) {
      SortedIsCanonical(a, b);
    }
  }

  /** After all insertions the entries are sorted, and a caller's parameter has the caller's last value. */
  lemma {:induction false} InsertedAll(params: seq<Param>, extra: seq<Param>, key: Bytes)
    requires Sorted(params) && Sorted(extra)
    ensures Sorted(InsertAll(params, extra))
    ensures Lookup(InsertAll(params, extra), key) ==
            if Lookup(extra, key).Some? then Lookup(extra, key) else Lookup(params, key)
    decreases |extra|
  {
    if extra != [] {
      InsertIsUpdate(params, extra[0].key, extra[0].value, key);
      SortedTail(extra);
      NotBefore(extra[1..], extra[0].key);
      InsertedAll(Insert(params, extra[0].key, extra[0].value), extra[1..], key);
    }
  }
}
