/** Masking of secrets in tool results, before they go back to the model. */
module SecretMasking {
  import opened JsonValue
  import opened Octets
  import Utf8

  const REDACTED: Bytes := [42, 42, 42]

  predicate WordByte(b: Byte) {
    48 <= b <= 57 || 65 <= b <= 90 || 97 <= b <= 122 || b == 45 || b == 95 || b == 46
  }

  predicate StartsWith(s: Bytes, prefix: Bytes) {
    |prefix| <= |s| && s[..|prefix|] == prefix
  }

  function Dots(s: Bytes): nat {
    if s == [] then 0 else (if s[0] == 46 then 1 else 0) + Dots(s[1..])
  }

  predicate LooksLikeToken(word: Bytes) {
    || (StartsWith(word, Ascii("sk-")) && |word| > 12)
    || (StartsWith(word, Ascii("AKIA")) && |word| > 16)
    || (StartsWith(word, Ascii("ghp_")) && |word| > 20)
    || (StartsWith(word, Ascii("glpat-")) && |word| > 20)
    || (StartsWith(word, Ascii("eyJ")) && Dots(word) >= 2 && |word| > 40)
  }

  // ---- the simple specification -------------------------------------------------------------

  /** Length of the run of word bytes that `s` starts with. */
  function Run(s: Bytes): (n: nat)
    ensures n <= |s|
  {
    if s == [] || !WordByte(s[0]) then 0 else 1 + Run(s[1..])
  }

  function MaskWord(word: Bytes, token: Bytes -> bool): Bytes {
    if token(word) then REDACTED else word
  }

  /** Replace exactly the maximal runs of word bytes that look like tokens. */
  function Masked(s: Bytes, token: Bytes -> bool): Bytes
    decreases |s|
  {
    if s == [] then []
    else if Run(s) == 0 then [s[0]] + Masked(s[1..], token)
    else MaskWord(s[..Run(s)], token) + Masked(s[Run(s)..], token)
  }

  /** The run has word bytes only and ends at the end or before another byte. */
  lemma {:induction false} RunIsMaximal(s: Bytes)
    ensures forall i | 0 <= i < Run(s) :: WordByte(s[i])
    ensures Run(s) < |s| ==> !WordByte(s[Run(s)])
  {
    if s != [] && WordByte(s[0]) {
      RunIsMaximal(s[1..]);
      assert forall i | 1 <= i < Run(s) :: s[i] == s[1..][i - 1];
    }
  }

  lemma {:induction false} RunOf(word: Bytes, rest: Bytes)
    requires forall i | 0 <= i < |word| :: WordByte(word[i])
    requires rest != [] ==> !WordByte(rest[0])
    ensures Run(word + rest) == |word|
  {
    if word != [] {
      assert (word + rest)[1..] == word[1..] + rest;
      RunOf(word[1..], rest);
    } else {
      assert word + rest == rest;
    }
  }

  /** Words are made of letters, digits, `-`, `_` and `.`. */
  lemma WordBytes(b: Byte)
    ensures WordByte(b) <==>
              'A' as int <= b <= 'Z' as int || 'a' as int <= b <= 'z' as int || '0' as int <= b <= '9' as int
              || b == '-' as int || b == '_' as int || b == '.' as int
  {
  }

  /** Masking does not turn the first byte from no word byte into one. */
  lemma MaskedStart(s: Bytes, token: Bytes -> bool)
    ensures s != [] && !WordByte(s[0]) ==> Masked(s, token) != [] && Masked(s, token)[0] == s[0]
    ensures s == [] <==> Masked(s, token) == []
  {
  }

  lemma MaskStep(b: Byte, rest: Bytes, token: Bytes -> bool)
    requires !WordByte(b)
    ensures Masked([b] + rest, token) == [b] + Masked(rest, token)
  {
  }

  lemma MaskStars(rest: Bytes, token: Bytes -> bool)
    ensures Masked(REDACTED + rest, token) == REDACTED + Masked(rest, token)
  {
    MaskStep(42, rest, token);
    MaskStep(42, [42] + rest, token);
    MaskStep(42, [42] + ([42] + rest), token);
    assert REDACTED + rest == [42] + ([42] + ([42] + rest));
    assert REDACTED + Masked(rest, token) == [42] + ([42] + ([42] + Masked(rest, token)));
  }

  /** Masking twice is masking once. */
  lemma {:induction false} MaskedIsIdempotent(s: Bytes, token: Bytes -> bool)
    ensures Masked(Masked(s, token), token) == Masked(s, token)
    decreases |s|
  {
    if s != [] {
      var n := Run(s);
      if n == 0 {
        MaskedIsIdempotent(s[1..], token);
        assert ([s[0]] + Masked(s[1..], token))[1..] == Masked(s[1..], token);
      } else {
        var word, rest := s[..n], Masked(s[n..], token);
        RunIsMaximal(s);
        MaskedIsIdempotent(s[n..], token);
        MaskedStart(s[n..], token);
        if token(word) {
          MaskStars(rest, token);
        } else {
          RunOf(word, rest);
          assert (word + rest)[..n] == word && (word + rest)[n..] == rest;
        }
      }
    }
  }

  /** The bytes of one word. */
  predicate IsWord(word: Bytes) {
    word != [] && forall i | 0 <= i < |word| :: WordByte(word[i])
  }

  /** `word` stands between `before` and `after` as a whole. */
  predicate Framed(before: Bytes, word: Bytes, after: Bytes) {
    IsWord(word) && (before != [] ==> !WordByte(before[|before| - 1])) && (after != [] ==> !WordByte(after[0]))
  }

  /** A run that ends inside `before` is the same with anything behind. */
  lemma BeforeRun(before: Bytes, tail: Bytes)
    requires Run(before) < |before|
    ensures var n := Run(before);
            Run(before + tail) == n && (before + tail)[..n] == before[..n] && (before + tail)[n..] == before[n..] + tail
  {
    var n := Run(before);
    RunIsMaximal(before);
    RunOf(before[..n], before[n..] + tail);
    assert before + tail == before[..n] + (before[n..] + tail);
  }

  lemma MaskedFirstByte(b: Byte, rest: Bytes, tail: Bytes, token: Bytes -> bool)
    requires !WordByte(b) && Masked(rest + tail, token) == Masked(rest, token) + Masked(tail, token)
    ensures Masked(([b] + rest) + tail, token) == Masked([b] + rest, token) + Masked(tail, token)
  {
    MaskStep(b, rest + tail, token);
    MaskStep(b, rest, token);
    Regroup([b], rest, tail);
    Regroup([b], Masked(rest, token), Masked(tail, token));
  }

  lemma MaskedFirstRun(before: Bytes, tail: Bytes, token: Bytes -> bool)
    requires 0 < Run(before) < |before|
    requires Masked(before[Run(before)..] + tail, token) == Masked(before[Run(before)..], token) + Masked(tail, token)
    ensures Masked(before + tail, token) == Masked(before, token) + Masked(tail, token)
  {
    var n := Run(before);
    BeforeRun(before, tail);
    MaskedUnfolds(before + tail, token);
    MaskedUnfolds(before, token);
    Regroup(MaskWord(before[..n], token), Masked(before[n..], token), Masked(tail, token));
  }

  /** A text cut behind a byte that is part of no word is masked part by part. */
  lemma {:induction false} MaskedInParts(before: Bytes, tail: Bytes, token: Bytes -> bool)
    requires before != [] ==> !WordByte(before[|before| - 1])
    ensures Masked(before + tail, token) == Masked(before, token) + Masked(tail, token)
    decreases |before|
  {
    if before == [] {
      assert before + tail == tail;
    } else {
      var n := Run(before);
      RunIsMaximal(before);
      if n == 0 {
        MaskedInParts(before[1..], tail, token);
        MaskedFirstByte(before[0], before[1..], tail, token);
        assert before == [before[0]] + before[1..];
      } else {
        MaskedInParts(before[n..], tail, token);
        MaskedFirstRun(before, tail, token);
      }
    }
  }

  /** Wherever a whole word stands in a text, it is masked if it looks like a token and kept if it does not. */
  lemma WordIsMasked(before: Bytes, word: Bytes, after: Bytes, token: Bytes -> bool)
    requires Framed(before, word, after)
    ensures Masked(before + (word + after), token) ==
              Masked(before, token) + ((if token(word) then [42, 42, 42] else word) + Masked(after, token))
  {
    var tail := word + after;
    MaskedInParts(before, tail, token);
    RunOf(word, after);
    assert tail[..|word|] == word && tail[|word|..] == after;
    MaskedUnfolds(tail, token);
  }

  /** After masking, no whole word of the text looks like a token. */
  lemma NoTokenIsLeft(s: Bytes, token: Bytes -> bool, before: Bytes, word: Bytes, after: Bytes)
    requires Masked(s, token) == before + (word + after) && Framed(before, word, after)
    ensures !token(word)
  {
    MaskedIsFree(s, token);
    WordOfFree(before, word, after, token);
  }

  predicate Free(s: Bytes, token: Bytes -> bool)
    decreases |s|
  {
    if s == [] then true
    else if Run(s) == 0 then Free(s[1..], token)
    else !token(s[..Run(s)]) && Free(s[Run(s)..], token)
  }

  lemma FreeStars(rest: Bytes, token: Bytes -> bool)
    requires Free(rest, token)
    ensures Free([42, 42, 42] + rest, token)
  {
    var one, two := [42] + rest, [42, 42] + rest;
    assert one[1..] == rest && two[1..] == one && ([42, 42, 42] + rest)[1..] == two;
    assert Run(one) == 0 && Free(one, token) && Run(two) == 0 && Free(two, token);
  }

  lemma {:induction false} MaskedIsFree(s: Bytes, token: Bytes -> bool)
    ensures Free(Masked(s, token), token)
    decreases |s|
  {
    if s != [] {
      var n := Run(s);
      if n == 0 {
        MaskedIsFree(s[1..], token);
        assert ([s[0]] + Masked(s[1..], token))[1..] == Masked(s[1..], token);
      } else {
        var word, rest := s[..n], Masked(s[n..], token);
        RunIsMaximal(s);
        MaskedIsFree(s[n..], token);
        MaskedStart(s[n..], token);
        if token(word) {
          FreeStars(rest, token);
        } else {
          RunOf(word, rest);
          assert (word + rest)[..n] == word && (word + rest)[n..] == rest;
        }
      }
    }
  }

  lemma {:induction false} WordOfFree(before: Bytes, word: Bytes, after: Bytes, token: Bytes -> bool)
    requires Framed(before, word, after) && Free(before + (word + after), token)
    ensures !token(word)
    decreases |before|
  {
    var s, tail := before + (word + after), word + after;
    RunOf(word, after);
    if before == [] {
      assert s == tail && tail[..|word|] == word;
    } else {
      var n := Run(before);
      RunIsMaximal(before);
      if n == 0 {
        assert s[0] == before[0] && s[1..] == before[1..] + tail;
        WordOfFree(before[1..], word, after, token);
      } else {
        BeforeRun(before, tail);
        WordOfFree(before[n..], word, after, token);
      }
    }
  }

  lemma {:induction false} DotsAppend(a: Bytes, b: Bytes)
    ensures Dots(a + b) == Dots(a) + Dots(b)
  {
    if a == [] {
      assert a + b == b;
    } else {
      assert (a + b)[1..] == a[1..] + b;
      DotsAppend(a[1..], b);
    }
  }

  lemma TwoBytesDecide(word: Bytes)
    requires |word| >= 2
    ensures StartsWith(word, Ascii("sk-")) ==> word[0] == 115 && word[1] == 107
    ensures StartsWith(word, Ascii("AKIA")) ==> word[0] == 65
    ensures StartsWith(word, Ascii("ghp_")) ==> word[0] == 103 && word[1] == 104
    ensures StartsWith(word, Ascii("glpat-")) ==> word[0] == 103 && word[1] == 108
    ensures StartsWith(word, Ascii("eyJ")) ==> word[0] == 101
  {
  }

  /** What looks like a token by the known prefixes: that many bytes behind the prefix are enough, and needed. */
  lemma PrefixedTokens(rest: Bytes)
    ensures LooksLikeToken(Ascii("sk-") + rest) <==> |rest| >= 10
    ensures LooksLikeToken(Ascii("AKIA") + rest) <==> |rest| >= 13
    ensures LooksLikeToken(Ascii("ghp_") + rest) <==> |rest| >= 17
    ensures LooksLikeToken(Ascii("glpat-") + rest) <==> |rest| >= 15
  {
    StartOf(Ascii("sk-"), rest);
    StartOf(Ascii("AKIA"), rest);
    StartOf(Ascii("ghp_"), rest);
    StartOf(Ascii("glpat-"), rest);
    TwoBytesDecide(Ascii("sk-") + rest);
    TwoBytesDecide(Ascii("AKIA") + rest);
    TwoBytesDecide(Ascii("ghp_") + rest);
    TwoBytesDecide(Ascii("glpat-") + rest);
  }

  lemma StartOf(prefix: Bytes, rest: Bytes)
    ensures (prefix + rest)[..|prefix|] == prefix
  {
  }

  /** Three parts with dots between them that start like a JSON Web Token and are longer than 40 bytes. */
  lemma WebTokens(header: Bytes, payload: Bytes, signature: Bytes)
    requires |header| + |payload| + |signature| >= 36
    ensures LooksLikeToken(Ascii("eyJ") + (header + ([46] + (payload + ([46] + signature)))))
  {
    var rest := [46] + (payload + ([46] + signature));
    DotsAppend(Ascii("eyJ"), header + rest);
    DotsAppend(header, rest);
    DotsAppend([46], payload + ([46] + signature));
    DotsAppend(payload, [46] + signature);
    DotsAppend([46], signature);
    assert Dots([46]) == 1;
    StartOf(Ascii("eyJ"), header + rest);
  }

  // ---- the scan ---------------------------------------------------------------------------------

  /** The byte at this position continues a character. */
  predicate Continues(text: Bytes, i: int) {
    0 <= i < |text| && 128 <= text[i] < 192
  }

  predicate IsPosition(text: Bytes, i: int) {
    0 <= i < |text|
  }

  /** In UTF-8 a continuation byte follows a byte that is not ASCII. */
  ghost predicate WellPlaced(text: Bytes) {
    forall i {:trigger IsPosition(text, i)} :: IsPosition(text, i) && Continues(text, i) ==> i > 0 && text[i - 1] >= 128
  }

  lemma FirstByteLeads(c: Utf8.CodePoint)
    ensures Utf8.EncodeOne(c) != [] && !Continues(Utf8.EncodeOne(c), 0)
    ensures |Utf8.EncodeOne(c)| > 1 ==> forall i | 0 <= i < |Utf8.EncodeOne(c)| :: Utf8.EncodeOne(c)[i] >= 128
  {
  }

  /** The bytes of every text are well placed. */
  lemma {:induction false} TextIsWellPlaced(text: seq<Utf8.CodePoint>)
    ensures WellPlaced(Utf8.Encode(text))
    ensures !Continues(Utf8.Encode(text), 0)
  {
    if text != [] {
      var one, rest := Utf8.EncodeOne(text[0]), Utf8.Encode(text[1..]);
      FirstByteLeads(text[0]);
      TextIsWellPlaced(text[1..]);
      var all := one + rest;
      forall i | IsPosition(all, i) && Continues(all, i)
        ensures i > 0 && all[i - 1] >= 128
      {
        if i < |one| {
          assert all[i] == one[i];
        } else {
          assert all[i] == rest[i - |one|] && IsPosition(rest, i - |one|);
        }
      }
      assert all[0] == one[0];
    }
  }

  /** A position at which Rust lets a text be cut. */
  predicate Boundary(text: Bytes, i: nat) {
    i <= |text| && !Continues(text, i)
  }

  method Slice(text: Bytes, from: nat, to: nat) returns (piece: Bytes)
    requires from <= to <= |text| && Boundary(text, from) && Boundary(text, to)
    ensures piece == text[from..to]
  {
    piece := text[from..to];
  }

  /** `out`, the text from `last` to `i`, and what masking makes of the rest are the whole result. */
  predicate Progress(out: Bytes, text: Bytes, last: nat, i: nat, token: Bytes -> bool) {
    last <= i <= |text| && Accounts(out, text[last..i], Masked(text[i..], token), Masked(text, token))
  }

  predicate Accounts(out: Bytes, piece: Bytes, rest: Bytes, goal: Bytes) {
    out + (piece + rest) == goal
  }

  lemma AccountsKept(out: Bytes, before: Bytes, word: Bytes, rest: Bytes, goal: Bytes)
    requires Accounts(out, before, word + rest, goal)
    ensures Accounts(out, before + word, rest, goal)
  {
  }

  lemma MaskedRun(text: Bytes, start: nat, i: nat, token: Bytes -> bool)
    requires start < i <= |text| && i == start + Run(text[start..])
    ensures Masked(text[start..], token) == MaskWord(text[start..i], token) + Masked(text[i..], token)
  {
    MaskedUnfolds(text[start..], token);
    assert text[start..][i - start..] == text[i..] && text[start..][..i - start] == text[start..i];
  }

  lemma MaskedUnfolds(s: Bytes, token: Bytes -> bool)
    requires Run(s) > 0
    ensures Masked(s, token) == MaskWord(s[..Run(s)], token) + Masked(s[Run(s)..], token)
  {
  }

  lemma WordKept(out: Bytes, text: Bytes, last: nat, start: nat, i: nat, token: Bytes -> bool)
    requires Progress(out, text, last, start, token) && start < i <= |text|
    requires Masked(text[start..], token) == text[start..i] + Masked(text[i..], token)
    ensures Progress(out, text, last, i, token)
  {
    assert text[last..i] == text[last..start] + text[start..i];
    AccountsKept(out, text[last..start], text[start..i], Masked(text[i..], token), Masked(text, token));
  }

  lemma WordMasked(out: Bytes, text: Bytes, last: nat, start: nat, i: nat, token: Bytes -> bool)
    requires Progress(out, text, last, start, token) && start < i <= |text|
    requires Masked(text[start..], token) == REDACTED + Masked(text[i..], token)
    ensures Progress((out + text[last..start]) + REDACTED, text, i, i, token)
  {
  }

  lemma ByteSkipped(out: Bytes, text: Bytes, last: nat, i: nat, token: Bytes -> bool)
    requires Progress(out, text, last, i, token) && i < |text| && Run(text[i..]) == 0
    ensures Progress(out, text, last, i + 1, token)
  {
    assert text[i..][1..] == text[i + 1..] && text[last..i + 1] == text[last..i] + [text[i]];
    AccountsKept(out, text[last..i], [text[i]], Masked(text[i + 1..], token), Masked(text, token));
  }

  /** The inner loop: the end of the run of word bytes. */
  method EndOfRun(text: Bytes, start: nat) returns (i: nat)
    requires start <= |text|
    ensures start <= i <= |text| && i == start + Run(text[start..])
    ensures Run(text[i..]) == 0
  {
    i := start;
    while i < |text| && WordByte(text[i])
      invariant start <= i <= |text| && i + Run(text[i..]) == start + Run(text[start..])
    {
      assert text[i..][1..] == text[i + 1..];
      i := i + 1;
    }
  }

  /** The run from `start` is cut off at two boundaries, and all its bytes are ASCII. */
  lemma RunHasBoundaries(text: Bytes, start: nat, i: nat)
    requires WellPlaced(text) && start < i <= |text| && i == start + Run(text[start..])
    ensures Boundary(text, start) && Boundary(text, i)
  {
    RunIsMaximal(text[start..]);
    assert IsPosition(text, start) && (i < |text| ==> IsPosition(text, i));
    assert text[start..][0] == text[start] && text[start..][i - 1 - start] == text[i - 1];
  }

  lemma AtStart(text: Bytes, token: Bytes -> bool)
    ensures Progress([], text, 0, 0, token)
  {
  }

  lemma AtEnd(out: Bytes, text: Bytes, last: nat, token: Bytes -> bool)
    requires Progress(out, text, last, |text|, token)
    ensures out + text[last..|text|] == Masked(text, token)
  {
  }

  /** The part of the loop body that deals with a run. */
  method MaskRun(out: Bytes, text: Bytes, last: nat, start: nat, i: nat, token: Bytes -> bool)
      returns (grown: Bytes, end: nat)
    requires Progress(out, text, last, start, token) && Boundary(text, last) && WellPlaced(text)
    requires start < i <= |text| && i == start + Run(text[start..])
    ensures Progress(grown, text, end, i, token) && Boundary(text, end)
  {
    MaskedRun(text, start, i, token);
    RunHasBoundaries(text, start, i);
    var word := Slice(text, start, i);
    if token(word) {
      var kept := Slice(text, last, start);
      WordMasked(out, text, last, start, i, token);
      grown := out + kept;
      grown := grown + REDACTED;
      end := i;
    } else {
      WordKept(out, text, last, start, i, token);
      grown, end := out, last;
    }
  }

  /** The body of the outer loop: a run, if there is one, and the byte after it. */
  method ScanStep(out: Bytes, text: Bytes, last: nat, i: nat, token: Bytes -> bool)
      returns (grown: Bytes, end: nat, next: nat)
    requires WellPlaced(text) && i < |text| && Boundary(text, last) && Progress(out, text, last, i, token)
    ensures i < next <= |text| && Boundary(text, end) && Progress(grown, text, end, next, token)
  {
    next := EndOfRun(text, i);
    if next == i {
      grown, end := out, last;
    } else {
      grown, end := MaskRun(out, text, last, i, next, token);
    }
    next := SkipByte(grown, text, end, next, token);
  }

  method SkipByte(out: Bytes, text: Bytes, last: nat, i: nat, token: Bytes -> bool) returns (next: nat)
    requires Progress(out, text, last, i, token) && Run(text[i..]) == 0
    ensures if i < |text| then next == i + 1 else next == i
    ensures next <= |text| && Progress(out, text, last, next, token)
  {
    next := i;
    if i < |text| {
      ByteSkipped(out, text, last, i, token);
      next := i + 1;
    }
  }

  /**
   `redact_value_patterns`: the loop over byte positions computes the simple specification, and it
   never cuts the text inside a character.
   */
  method RedactValuePatterns(text: Bytes, token: Bytes -> bool) returns (out: Bytes)
    requires WellPlaced(text)
    ensures out == Masked(text, token)
  {
    var last: nat, i: nat;
    out, last, i := [], 0, 0;
    AtStart(text, token);
    assert IsPosition(text, 0) || text == [];
    while i < |text|
      invariant i <= |text| && Boundary(text, last) && Progress(out, text, last, i, token)
    {
      out, last, i := ScanStep(out, text, last, i, token);
    }
    out := PushRest(out, text, last, token);
  }

  /** What follows the loop. */
  method PushRest(out: Bytes, text: Bytes, last: nat, token: Bytes -> bool) returns (grown: Bytes)
    requires Progress(out, text, last, |text|, token) && Boundary(text, last)
    ensures grown == Masked(text, token)
  {
    AtEnd(out, text, last, token);
    var kept := Slice(text, last, |text|);
    grown := out + kept;
  }

  // ---- keys, environment lines and JSON -----------------------------------------------------------

  function Lower(s: Bytes): Bytes {
    seq(|s|, i requires 0 <= i < |s| => if 65 <= s[i] <= 90 then s[i] + 32 else s[i])
  }

  predicate Contains(s: Bytes, part: Bytes) {
    exists i | 0 <= i <= |s| :: StartsWith(s[i..], part)
  }

  predicate EndsWith(s: Bytes, suffix: Bytes) {
    |suffix| <= |s| && s[|s| - |suffix|..] == suffix
  }

  const SECRET_KEYS: set<string> := {
    "password", "passwd", "secret", "token", "accesskey", "access_key", "accesskeyid", "accesskeysecret",
    "access_key_secret", "securitytoken", "security_token", "privatekey", "private_key", "privatekeypath",
    "passphrase", "pem", "credential", "credential_ref", "credentialref", "auth_value", "authvalue",
    "api_key", "apikey", "authorization", "key"}

  predicate IsSecretKey(key: Bytes) {
    var lower := Lower(key);
    || (exists name :: name in SECRET_KEYS && lower == Ascii(name))
    || Contains(lower, Ascii("password")) || Contains(lower, Ascii("secret")) || Contains(lower, Ascii("passphrase"))
    || (EndsWith(lower, Ascii("token")) && lower != Ascii("continuationtoken") && lower != Ascii("continuation_token"))
  }

  predicate IsSecretEnvKey(key: Bytes) {
    IsSecretKey(key) || Contains(Lower(key), Ascii("apikey")) || Contains(Lower(key), Ascii("api_key"))
  }

  predicate IsEnvKey(key: Bytes) {
    Lower(key) == Ascii("env")
  }

  /** The tests that the masking is built from. */
  datatype Tests = Tests(token: Bytes -> bool, secret: Bytes -> bool, secretEnv: Bytes -> bool, env: Bytes -> bool)

  const TESTS := Tests(LooksLikeToken, IsSecretKey, IsSecretEnvKey, IsEnvKey)

  /** Position of the first `=`, or the length of the line. */
  function EqualsAt(line: Bytes): (n: nat)
    ensures n <= |line| && (n < |line| ==> line[n] == 61) && forall i | 0 <= i < n :: line[i] != 61
  {
    if line == [] || line[0] == 61 then 0 else 1 + EqualsAt(line[1..])
  }

  function RedactEnvLine(line: Bytes, t: Tests): Bytes {
    var n := EqualsAt(line);
    if n == |line| then Masked(line, t.token)
    else
      var key, value := line[..n], line[n + 1..];
      key + [61] + (if t.secretEnv(key) && value != [] then REDACTED else Masked(value, t.token))
  }

  type Json = Value<Bytes>

  function RedactItem(item: Json, t: Tests, lines: bool): Json
    decreases item, 1
  {
    if item.Str? && (lines || 61 in item.s) then Str(RedactEnvLine(item.s, t)) else RedactJson(item, t)
  }

  function RedactItems(items: seq<Json>, t: Tests, lines: bool): (r: seq<Json>)
    ensures |r| == |items|
    ensures forall i | 0 <= i < |items| :: r[i] == RedactItem(items[i], t, lines)
    decreases items
  {
    if items == [] then [] else [RedactItem(items[0], t, lines)] + RedactItems(items[1..], t, lines)
  }

  function RedactField(key: Bytes, v: Json, t: Tests): Json
    decreases v, 2
  {
    if t.secret(key) then Str(if v == Str([]) then [] else REDACTED)
    else if t.env(key) && v.Arr? then Arr(RedactItems(v.items, t, true))
    else RedactJson(v, t)
  }

  /** `redact_json` */
  function RedactJson(v: Json, t: Tests): Json
    decreases v, 0
  {
    match v
    case Obj(fields) => Obj(map key | key in fields :: RedactField(key, fields[key], t))
    case Arr(items) => Arr(RedactItems(items, t, false))
    case Str(s) => Str(Masked(s, t.token))
    case _ => v
  }

  // ---- masking twice, and what is masked -----------------------------------------------------------

  lemma EqualsAtUnique(line: Bytes, n: nat)
    requires n <= |line| && (n < |line| ==> line[n] == 61) && forall i | 0 <= i < n :: line[i] != 61
    ensures EqualsAt(line) == n
  {
  }

  /** Masking neither adds nor removes equals signs. */
  lemma {:induction false} MaskedKeepsEquals(s: Bytes, token: Bytes -> bool)
    ensures 61 in Masked(s, token) <==> 61 in s
    decreases |s|
  {
    if s != [] {
      var n := Run(s);
      if n == 0 {
        MaskedKeepsEquals(s[1..], token);
        assert s == [s[0]] + s[1..];
      } else {
        RunIsMaximal(s);
        MaskedKeepsEquals(s[n..], token);
        assert s == s[..n] + s[n..];
        assert 61 !in s[..n] && 61 !in REDACTED;
      }
    }
  }

  lemma NoEquals(line: Bytes)
    ensures EqualsAt(line) == |line| <==> 61 !in line
  {
  }

  lemma {:induction false} EnvLineIsIdempotent(line: Bytes, t: Tests)
    ensures RedactEnvLine(RedactEnvLine(line, t), t) == RedactEnvLine(line, t)
    ensures 61 in RedactEnvLine(line, t) <==> 61 in line
  {
    var n, once := EqualsAt(line), RedactEnvLine(line, t);
    NoEquals(line);
    if n == |line| {
      MaskedIsIdempotent(line, t.token);
      MaskedKeepsEquals(line, t.token);
      NoEquals(once);
    } else {
      var key, value := line[..n], line[n + 1..];
      var masked := if t.secretEnv(key) && value != [] then REDACTED else Masked(value, t.token);
      assert once == key + [61] + masked && once[n] == 61;
      EqualsAtUnique(once, n);
      assert once[..n] == key && once[n + 1..] == masked;
      MaskedIsIdempotent(value, t.token);
      MaskedStart(value, t.token);
    }
  }

  /** Redacting a JSON value twice is redacting it once. */
  lemma {:induction false} JsonIsIdempotent(v: Json, t: Tests)
    ensures RedactJson(RedactJson(v, t), t) == RedactJson(v, t)
    decreases v, 0
  {
    match v
    case Obj(fields) => {
      forall key | key in fields
        ensures RedactField(key, RedactField(key, fields[key], t), t) == RedactField(key, fields[key], t)
      {
        FieldIsIdempotent(key, fields[key], t);
      }
    }
    case Arr(items) => ItemsAreIdempotent(items, t, false);
    case Str(s) => MaskedIsIdempotent(s, t.token);
    case _ =>
  }

  lemma {:induction false} FieldIsIdempotent(key: Bytes, v: Json, t: Tests)
    ensures RedactField(key, RedactField(key, v, t), t) == RedactField(key, v, t)
    decreases v, 2
  {
    if !t.secret(key) {
      if t.env(key) && v.Arr? {
        ItemsAreIdempotent(v.items, t, true);
      } else {
        JsonIsIdempotent(v, t);
      }
    }
  }

  lemma {:induction false} ItemIsIdempotent(item: Json, t: Tests, lines: bool)
    ensures RedactItem(RedactItem(item, t, lines), t, lines) == RedactItem(item, t, lines)
    decreases item, 1
  {
    if item.Str? {
      EnvLineIsIdempotent(item.s, t);
      MaskedIsIdempotent(item.s, t.token);
      MaskedKeepsEquals(item.s, t.token);
    } else {
      JsonIsIdempotent(item, t);
    }
  }

  lemma {:induction false} ItemsAreIdempotent(items: seq<Json>, t: Tests, lines: bool)
    ensures RedactItems(RedactItems(items, t, lines), t, lines) == RedactItems(items, t, lines)
    decreases items
  {
    if items != [] {
      ItemIsIdempotent(items[0], t, lines);
      ItemsAreIdempotent(items[1..], t, lines);
    }
  }

  /** In every object inside `v`, each secret key has the mask or the empty string. */
  predicate SecretsMasked(v: Json, t: Tests)
    decreases v
  {
    match v
    case Obj(fields) =>
      forall key | key in fields ::
        (t.secret(key) ==> fields[key] == Str(REDACTED) || fields[key] == Str([])) && SecretsMasked(fields[key], t)
    case Arr(items) => forall i | 0 <= i < |items| :: SecretsMasked(items[i], t)
    case _ => true
  }

  /** After redaction, no object at any depth shows the value of a secret key. */
  lemma {:induction false} RedactedJsonIsMasked(v: Json, t: Tests)
    ensures SecretsMasked(RedactJson(v, t), t)
    decreases v, 0
  {
    match v
    case Obj(fields) => {
      forall key | key in fields
        ensures SecretsMasked(RedactField(key, fields[key], t), t)
      {
        RedactedFieldIsMasked(key, fields[key], t);
      }
    }
    case Arr(items) => RedactedItemsAreMasked(items, t, false);
    case _ =>
  }

  lemma {:induction false} RedactedFieldIsMasked(key: Bytes, v: Json, t: Tests)
    ensures SecretsMasked(RedactField(key, v, t), t)
    decreases v, 2
  {
    if !t.secret(key) {
      if t.env(key) && v.Arr? {
        RedactedItemsAreMasked(v.items, t, true);
      } else {
        RedactedJsonIsMasked(v, t);
      }
    }
  }

  lemma {:induction false} RedactedItemsAreMasked(items: seq<Json>, t: Tests, lines: bool)
    ensures forall i | 0 <= i < |items| :: SecretsMasked(RedactItems(items, t, lines)[i], t)
    decreases items, 1
  {
    forall i | 0 <= i < |items|
      ensures SecretsMasked(RedactItem(items[i], t, lines), t)
    {
      if !items[i].Str? {
        RedactedJsonIsMasked(items[i], t);
      }
    }
  }

  /** The masked value of a secret environment variable is gone whole. */
  lemma EnvSecretIsGone(key: Bytes, value: Bytes, t: Tests)
    requires 61 !in key && t.secretEnv(key) && value != []
    ensures RedactEnvLine(key + [61] + value, t) == key + [61] + REDACTED
  {
    var line := key + [61] + value;
    EqualsAtUnique(line, |key|);
    assert line[..|key|] == key && line[|key| + 1..] == value;
  }

  /** Anywhere in a list, a line that sets a secret variable loses its value. */
  lemma EnvLineInList(items: seq<Json>, i: nat, key: Bytes, value: Bytes, t: Tests)
    requires i < |items| && items[i] == Str(key + [61] + value)
    requires 61 !in key && t.secretEnv(key) && value != []
    ensures RedactJson(Arr(items), t).Arr? && |RedactJson(Arr(items), t).items| == |items|
    ensures RedactJson(Arr(items), t).items[i] == Str(key + [61] + [42, 42, 42])
  {
    EnvSecretIsGone(key, value, t);
    assert (key + [61] + value)[|key|] == 61;
  }

  /** Any other line of a list, and any line under an `env` key, is masked word by word behind its first `=`. */
  lemma OtherLineInList(items: seq<Json>, i: nat, key: Bytes, value: Bytes, t: Tests, under: Bytes)
    requires i < |items| && items[i] == Str(key + [61] + value)
    requires 61 !in key && !t.secretEnv(key)
    requires t.env(under) && !t.secret(under)
    ensures RedactItems(items, t, false)[i] == Str(key + [61] + Masked(value, t.token))
    ensures RedactField(under, Arr(items), t).Arr? && |RedactField(under, Arr(items), t).items| == |items|
    ensures RedactField(under, Arr(items), t).items[i] == Str(key + [61] + Masked(value, t.token))
  {
    var line := key + [61] + value;
    assert line[|key|] == 61;
    EqualsAtUnique(line, |key|);
    assert line[..|key|] == key && line[|key| + 1..] == value;
  }

  /**
   `r` is `v` with nothing but texts changed: the same keys and lengths, the same numbers, truth values
   and nulls; only what a secret key has may be of any form.
   */
  predicate SameShape(v: Json, r: Json, t: Tests)
    decreases v
  {
    match v
    case Obj(fields) =>
      && r.Obj? && r.fields.Keys == fields.Keys
      && forall key | key in fields :: t.secret(key) || SameShape(fields[key], r.fields[key], t)
    case Arr(items) =>
      r.Arr? && |r.items| == |items| && forall i | 0 <= i < |items| :: SameShape(items[i], r.items[i], t)
    case Str(_) => r.Str?
    case _ => r == v
  }

  lemma {:induction false} ShapeStays(v: Json, t: Tests)
    ensures SameShape(v, RedactJson(v, t), t)
    decreases v, 0
  {
    match v
    case Obj(fields) => {
      forall key | key in fields && !t.secret(key)
        ensures SameShape(fields[key], RedactField(key, fields[key], t), t)
      {
        if t.env(key) && fields[key].Arr? {
          ItemShapesStay(fields[key].items, t, true);
        } else {
          ShapeStays(fields[key], t);
        }
      }
      assert RedactJson(v, t).fields.Keys == fields.Keys;
    }
    case Arr(items) => ItemShapesStay(items, t, false);
    case _ =>
  }

  lemma {:induction false} ItemShapesStay(items: seq<Json>, t: Tests, lines: bool)
    ensures forall i | 0 <= i < |items| :: SameShape(items[i], RedactItems(items, t, lines)[i], t)
    decreases items, 1
  {
    forall i | 0 <= i < |items|
      ensures SameShape(items[i], RedactItem(items[i], t, lines), t)
    {
      if !items[i].Str? {
        ShapeStays(items[i], t);
      }
    }
  }

  /** Case does not matter to what counts as a secret. */
  lemma CaseDoesNotMatter(key: Bytes, other: Bytes)
    requires |key| == |other|
    requires forall i | 0 <= i < |key| :: key[i] == other[i] || (65 <= key[i] <= 90 && other[i] == key[i] + 32)
    ensures IsSecretKey(key) == IsSecretKey(other) && IsSecretEnvKey(key) == IsSecretEnvKey(other)
    ensures IsEnvKey(key) == IsEnvKey(other)
  {
    assert Lower(key) == Lower(other);
  }

  lemma LowerStays(name: string)
    requires forall i | 0 <= i < |name| :: !('A' <= name[i] <= 'Z')
    ensures Lower(Ascii(name)) == Ascii(name)
  {
  }

  /** The keys that are secret by name. */
  lemma NamedKeys(name: string)
    requires name in {"password", "passwd", "secret", "token", "accesskey", "access_key", "accesskeyid",
                      "accesskeysecret", "access_key_secret", "securitytoken", "security_token", "privatekey",
                      "private_key", "privatekeypath", "passphrase", "pem", "credential", "credential_ref",
                      "credentialref", "auth_value", "authvalue", "api_key", "apikey", "authorization", "key"}
    requires forall i | 0 <= i < |name| :: !('A' <= name[i] <= 'Z')
    ensures IsSecretKey(Ascii(name))
  {
    LowerStays(name);
  }

  /** A key with one of these words in it, or one that ends in `token`, is secret. */
  lemma TellingKeys(before: Bytes, after: Bytes)
    ensures IsSecretKey(before + Ascii("password") + after)
    ensures IsSecretKey(before + Ascii("secret") + after)
    ensures IsSecretKey(before + Ascii("passphrase") + after)
    ensures IsSecretEnvKey(before + Ascii("apikey") + after) && IsSecretEnvKey(before + Ascii("api_key") + after)
  {
    LowerContains(before, Ascii("password"), after);
    LowerContains(before, Ascii("secret"), after);
    LowerContains(before, Ascii("passphrase"), after);
    LowerContains(before, Ascii("apikey"), after);
    LowerContains(before, Ascii("api_key"), after);
  }

  lemma LowerContains(before: Bytes, part: Bytes, after: Bytes)
    requires Lower(part) == part
    ensures Contains(Lower(before + part + after), part)
  {
    var lower := Lower(before + part + after);
    assert lower[|before|..][..|part|] == part;
    assert StartsWith(lower[|before|..], part);
  }

  /** A key that ends in `token` is secret, except for the token that continues a listing. */
  lemma TokenKeys(stem: Bytes)
    requires Lower(stem) != Ascii("continuation") && Lower(stem) != Ascii("continuation_")
    ensures IsSecretKey(stem + Ascii("token"))
  {
    var lower := Lower(stem + Ascii("token"));
    assert lower == Lower(stem) + Ascii("token");
    assert lower[|lower| - 5..] == Ascii("token");
    assert lower[..|stem|] == Lower(stem);
    assert Ascii("continuationtoken")[..12] == Ascii("continuation");
    assert Ascii("continuation_token")[..13] == Ascii("continuation_");
  }

  /** With the program's own tests: redaction is final, and every secret key it visits is masked. */
  lemma RedactionIsFinal(v: Json)
    ensures RedactJson(RedactJson(v, TESTS), TESTS) == RedactJson(v, TESTS)
    ensures SecretsMasked(RedactJson(v, TESTS), TESTS)
  {
    JsonIsIdempotent(v, TESTS);
    RedactedJsonIsMasked(v, TESTS);
  }
}
