/**
 The version list of the download page: the order of versions, and the list that is shown. The
 engine's sort is only known to be stable and to follow the comparator, which decides its result.
 */
module VersionList {
  import opened Wrappers
  import Text

  datatype Entry = Entry(tag: string, version: string, notes: string, platforms: Option<string>)

  datatype Manifest = Manifest(version: string, notes: string, platforms: Option<string>)

  // ---- components of a version -----------------------------------------------------------------

  function StripV(version: string): string {
    if version != "" && version[0] == 'v' then version[1..] else version
  }

  function SplitDots(s: string): (parts: seq<string>)
    ensures parts != []
  {
    if s == "" then [""]
    else
      var rest := SplitDots(s[1..]);
      if s[0] == '.' then [""] + rest else [[s[0]] + rest[0]] + rest[1..]
  }

  /** The value of the digits that `s` starts with, after those that make `n`. */
  function Digits(s: string, n: nat): nat {
    if s != "" && '0' <= s[0] <= '9' then Digits(s[1..], 10 * n + (s[0] as int - '0' as int)) else n
  }

  /** `Number.parseInt(s, 10) || 0`; `ws` is the white space it skips. */
  function ParseInt(s: string, ws: set<char>): int {
    var t := Text.TrimStart(ws, s);
    if t != "" && t[0] == '-' then 0 - Digits(t[1..], 0) as int
    else if t != "" && t[0] == '+' then Digits(t[1..], 0)
    else Digits(t, 0)
  }

  function Components(version: string, ws: set<char>): (c: seq<int>)
    ensures c != []
  {
    var parts := SplitDots(StripV(version));
    seq(|parts|, i requires 0 <= i < |parts| => ParseInt(parts[i], ws))
  }

  // ---- printing versions -------------------------------------------------------------------------

  predicate IsDigit(c: char) {
    '0' <= c <= '9'
  }

  function Digit(n: nat): (c: char)
    requires n < 10
    ensures IsDigit(c) && c as int - '0' as int == n
  {
    '0' + n as char
  }

  /** A number in decimal notation. */
  function Decimal(n: nat): (s: string)
    ensures s != "" && forall i | 0 <= i < |s| :: IsDigit(s[i])
  {
    if n < 10 then [Digit(n)] else Decimal(n / 10) + [Digit(n % 10)]
  }

  lemma {:induction false} DigitsAppend(s: string, c: char, n: nat)
    requires IsDigit(c) && forall i | 0 <= i < |s| :: IsDigit(s[i])
    ensures Digits(s + [c], n) == 10 * Digits(s, n) + (c as int - '0' as int)
  {
    if s == "" {
      assert s + [c] == [c] && [c][1..] == "";
    } else {
      assert (s + [c])[1..] == s[1..] + [c];
      DigitsAppend(s[1..], c, 10 * n + (s[0] as int - '0' as int));
    }
  }

  /** Decimal notation is read back. */
  lemma {:induction false} DecimalReadsBack(n: nat)
    ensures Digits(Decimal(n), 0) == n
  {
    if n < 10 {
      assert Decimal(n)[1..] == "";
    } else {
      DecimalReadsBack(n / 10);
      DigitsAppend(Decimal(n / 10), Digit(n % 10), 0);
    }
  }

  /** Numbers with dots between them. */
  function Dotted(ns: seq<nat>): (s: string)
    requires ns != []
    ensures s != "" && IsDigit(s[0])
  {
    if |ns| == 1 then Decimal(ns[0]) else Decimal(ns[0]) + ("." + Dotted(ns[1..]))
  }

  lemma {:induction false} SplitAtDot(part: string, rest: string)
    requires '.' !in part
    ensures SplitDots(part) == [part]
    ensures SplitDots(part + ("." + rest)) == [part] + SplitDots(rest)
  {
    if part == "" {
      assert part + ("." + rest) == "." + rest && ("." + rest)[1..] == rest;
    } else {
      assert (part + ("." + rest))[1..] == part[1..] + ("." + rest);
      SplitAtDot(part[1..], rest);
      assert part == [part[0]] + part[1..];
    }
  }

  function Decimals(ns: seq<nat>): seq<string> {
    seq(|ns|, i requires 0 <= i < |ns| => Decimal(ns[i]))
  }

  lemma {:induction false} DottedSplits(ns: seq<nat>)
    requires ns != []
    ensures SplitDots(Dotted(ns)) == Decimals(ns)
  {
    var first := Decimal(ns[0]);
    assert '.' !in first;
    if |ns| == 1 {
      SplitAtDot(first, "");
    } else {
      SplitAtDot(first, Dotted(ns[1..]));
      DottedSplits(ns[1..]);
      assert Decimals(ns) == [first] + Decimals(ns[1..]);
    }
  }

  /** The components of a printed version are its numbers, with or without a `v` in front. */
  lemma ComponentsReadBack(ns: seq<nat>, ws: set<char>)
    requires ns != [] && forall c | c in ws :: !IsDigit(c)
    ensures Components(Dotted(ns), ws) == ns && Components("v" + Dotted(ns), ws) == ns
  {
    DottedSplits(ns);
    assert ("v" + Dotted(ns))[1..] == Dotted(ns);
    forall i | 0 <= i < |ns|
      ensures ParseInt(Decimals(ns)[i], ws) == ns[i]
    {
      DecimalReadsBack(ns[i]);
      assert Text.TrimStart(ws, Decimal(ns[i])) == Decimal(ns[i]);
    }
  }

  /** What follows the digits of a component does not matter. */
  lemma {:induction false} DigitsEnd(s: string, rest: string, n: nat)
    requires (forall i | 0 <= i < |s| :: IsDigit(s[i])) && (rest != "" ==> !IsDigit(rest[0]))
    ensures Digits(s + rest, n) == Digits(s, n)
  {
    if s == "" {
      assert s + rest == rest;
    } else {
      assert (s + rest)[1..] == s[1..] + rest;
      DigitsEnd(s[1..], rest, 10 * n + (s[0] as int - '0' as int));
    }
  }

  // ---- the order ---------------------------------------------------------------------------------

  /** Component `i`, padded with zeros. */
  function At(c: seq<int>, i: nat): int {
    if i < |c| then c[i] else 0
  }

  function Longer(a: seq<int>, b: seq<int>): nat {
    if |a| < |b| then |b| else |a|
  }

  /** By how much `b` is ahead of `a` at the first position from `i` on where they differ. */
  function Difference(a: seq<int>, b: seq<int>, i: nat): int
    decreases Longer(a, b) - i
  {
    if i >= Longer(a, b) then 0
    else if At(a, i) != At(b, i) then At(b, i) - At(a, i)
    else Difference(a, b, i + 1)
  }

  /** `compareVersionDesc` */
  method CompareVersionDesc(a: string, b: string, ws: set<char>) returns (order: int)
    ensures order == Difference(Components(a, ws), Components(b, ws), 0)
  {
    var pa, pb := Components(a, ws), Components(b, ws);
    for i := 0 to Longer(pa, pb)
      invariant Difference(pa, pb, i) == Difference(pa, pb, 0)
    {
      var da := if i < |pa| then pa[i] else 0;
      var db := if i < |pb| then pb[i] else 0;
      if da != db {
        return db - da;
      }
    }
    return 0;
  }

  /** The first position at which the padded components differ decides. */
  lemma {:induction false} FirstDifferenceDecides(a: seq<int>, b: seq<int>, i: nat, k: nat)
    requires i <= k && At(a, k) != At(b, k) && forall j | i <= j < k :: At(a, j) == At(b, j)
    ensures Difference(a, b, i) == At(b, k) - At(a, k)
    decreases k - i
  {
    if i < k {
      FirstDifferenceDecides(a, b, i + 1, k);
    }
  }

  /** Numbers are compared, not texts: with the same numbers before it, the greater number comes first. */
  lemma GreaterNumberComesFirst(same: seq<nat>, x: nat, a: seq<nat>, y: nat, b: seq<nat>, ws: set<char>)
    requires x > y && forall c | c in ws :: !IsDigit(c)
    ensures Difference(Components(Dotted(same + ([x] + a)), ws), Components("v" + Dotted(same + ([y] + b)), ws), 0) < 0
  {
    var newer, older := same + ([x] + a), same + ([y] + b);
    ComponentsReadBack(newer, ws);
    ComponentsReadBack(older, ws);
    FirstDifferenceDecides(newer, older, 0, |same|);
  }

  lemma TenComesBeforeNine(ws: set<char>)
    requires forall c | c in ws :: !IsDigit(c)
    ensures Difference(Components("1.10", ws), Components("v1.9", ws), 0) < 0
  {
    assert Decimal(10) == "10" && Dotted([1, 10]) == "1.10" && Dotted([1, 9]) == "1.9";
    GreaterNumberComesFirst([1], 10, [], 9, [], ws);
    assert [1] + ([10] + []) == [1, 10] && [1] + ([9] + []) == [1, 9];
  }

  /** Two versions compare equal exactly when their padded components agree. */
  lemma {:induction false} EqualMeansSameComponents(a: seq<int>, b: seq<int>, i: nat)
    ensures Difference(a, b, i) == 0 <==> forall k | i <= k < Longer(a, b) :: At(a, k) == At(b, k)
    decreases Longer(a, b) - i
  {
    if i < Longer(a, b) && At(a, i) == At(b, i) {
      EqualMeansSameComponents(a, b, i + 1);
    }
  }

  lemma {:induction false} SignFlips(a: seq<int>, b: seq<int>, i: nat)
    ensures Difference(b, a, i) == -Difference(a, b, i)
    decreases Longer(a, b) - i
  {
    if i < Longer(a, b) && At(a, i) == At(b, i) {
      SignFlips(a, b, i + 1);
    }
  }

  /** Not later than, in the order of the list, is transitive, and equal versions are interchangeable. */
  lemma {:induction false} NotLaterIsTransitive(a: seq<int>, b: seq<int>, c: seq<int>, i: nat)
    requires Difference(a, b, i) <= 0 && Difference(b, c, i) <= 0
    ensures Difference(a, c, i) <= 0
    ensures Difference(a, c, i) == 0 ==> Difference(a, b, i) == 0 && Difference(b, c, i) == 0
    decreases Longer(a, b) + Longer(b, c) - i
  {
    if i < Longer(a, b) || i < Longer(b, c) {
      if At(a, i) == At(b, i) && At(b, i) == At(c, i) {
        DifferenceNext(a, b, i);
        DifferenceNext(b, c, i);
        DifferenceNext(a, c, i);
        NotLaterIsTransitive(a, b, c, i + 1);
      }
    }
  }

  /** Where both agree, the next position decides, beyond the ends as well. */
  lemma DifferenceNext(a: seq<int>, b: seq<int>, i: nat)
    requires At(a, i) == At(b, i)
    ensures Difference(a, b, i) == Difference(a, b, i + 1)
  {
  }

  // ---- the list ------------------------------------------------------------------------------------

  function Order(x: Entry, y: Entry, ws: set<char>): int {
    Difference(Components(x.version, ws), Components(y.version, ws), 0)
  }

  predicate NewestFirst(list: seq<Entry>, ws: set<char>) {
    forall i, j | 0 <= i < j < |list| :: Order(list[i], list[j], ws) <= 0
  }

  function SameAs(e: Entry, ws: set<char>): Entry -> bool {
    x => Order(x, e, ws) == 0
  }

  function Filter(list: seq<Entry>, keep: Entry -> bool): seq<Entry> {
    if list == [] then []
    else if keep(list[0]) then [list[0]] + Filter(list[1..], keep)
    else Filter(list[1..], keep)
  }

  /** The entries of each version are the same, in the same order. */
  ghost predicate SameVersions(list: seq<Entry>, other: seq<Entry>, ws: set<char>) {
    forall e: Entry :: Filter(other, SameAs(e, ws)) == Filter(list, SameAs(e, ws))
  }

  /** What a stable sort by the comparator may return. */
  ghost predicate StablySorted(list: seq<Entry>, sorted: seq<Entry>, ws: set<char>) {
    NewestFirst(sorted, ws) && SameVersions(list, sorted, ws)
  }

  lemma OrderFacts(x: Entry, y: Entry, z: Entry, ws: set<char>)
    ensures Order(x, x, ws) == 0 && Order(y, x, ws) == -Order(x, y, ws)
    ensures Order(x, y, ws) <= 0 && Order(y, z, ws) <= 0 ==>
              Order(x, z, ws) <= 0 && (Order(x, z, ws) == 0 ==> Order(x, y, ws) == 0 && Order(y, z, ws) == 0)
  {
    var a, b, c := Components(x.version, ws), Components(y.version, ws), Components(z.version, ws);
    EqualMeansSameComponents(a, a, 0);
    SignFlips(a, b, 0);
    if Order(x, y, ws) <= 0 && Order(y, z, ws) <= 0 {
      NotLaterIsTransitive(a, b, c, 0);
    }
  }

  lemma {:induction false} FilterMember(list: seq<Entry>, e: Entry, keep: Entry -> bool)
    ensures e in Filter(list, keep) <==> e in list && keep(e)
  {
    if list != [] {
      FilterMember(list[1..], e, keep);
    }
  }

  lemma {:induction false} FilterAppend(a: seq<Entry>, b: seq<Entry>, keep: Entry -> bool)
    ensures Filter(a + b, keep) == Filter(a, keep) + Filter(b, keep)
  {
    if a == [] {
      assert a + b == b;
    } else {
      assert (a + b)[1..] == a[1..] + b;
      FilterAppend(a[1..], b, keep);
    }
  }

  lemma TailsAgree(x: seq<Entry>, y: seq<Entry>, keep: Entry -> bool)
    requires x != [] && y != [] && x[0] == y[0] && Filter(x, keep) == Filter(y, keep)
    ensures Filter(x[1..], keep) == Filter(y[1..], keep)
  {
    FilterTail(x, keep);
    FilterTail(y, keep);
  }

  lemma FilterTail(list: seq<Entry>, keep: Entry -> bool)
    requires list != []
    ensures keep(list[0]) ==> Filter(list, keep) != [] && Filter(list, keep)[0] == list[0]
    ensures Filter(list[1..], keep) == if keep(list[0]) then Filter(list, keep)[1..] else Filter(list, keep)
  {
    var rest := Filter(list[1..], keep);
    assert ([list[0]] + rest)[1..] == rest;
    assert [] + rest == rest;
  }

  lemma HeadsAgree(x: seq<Entry>, y: seq<Entry>, ws: set<char>)
    requires NewestFirst(x, ws) && StablySorted(x, y, ws) && x != [] && y != []
    ensures x[0] == y[0]
  {
    var first := SameAs(x[0], ws);
    OrderFacts(x[0], y[0], x[0], ws);
    OrderFacts(y[0], x[0], y[0], ws);
    FilterMember(x, x[0], first);
    FilterMember(y, x[0], first);
    FilterMember(x, y[0], SameAs(y[0], ws));
    FilterMember(y, y[0], SameAs(y[0], ws));
    assert x[0] in y && y[0] in x;
    assert Filter(x, first)[0] == x[0] && Filter(y, first)[0] == y[0];
  }

  /** A stable sort has only one possible result. */
  lemma {:induction false} StableSortIsUnique(x: seq<Entry>, y: seq<Entry>, ws: set<char>)
    requires NewestFirst(x, ws) && StablySorted(x, y, ws)
    ensures x == y
  {
    if x != [] && y != [] {
      HeadsAgree(x, y, ws);
      forall e: Entry
        ensures Filter(x[1..], SameAs(e, ws)) == Filter(y[1..], SameAs(e, ws))
      {
        TailsAgree(x, y, SameAs(e, ws));
      }
      StableSortIsUnique(x[1..], y[1..], ws);
    } else if x != [] {
      OrderFacts(x[0], x[0], x[0], ws);
      FilterMember(x, x[0], SameAs(x[0], ws));
    } else if y != [] {
      OrderFacts(y[0], y[0], y[0], ws);
      FilterMember(y, y[0], SameAs(y[0], ws));
    }
  }

  /** `e` goes behind every entry that is not older. */
  function Insert(sorted: seq<Entry>, e: Entry, ws: set<char>): seq<Entry> {
    if sorted == [] then [e]
    else if Order(sorted[0], e, ws) <= 0 then [sorted[0]] + Insert(sorted[1..], e, ws)
    else [e] + sorted
  }

  function Sorted(list: seq<Entry>, ws: set<char>): seq<Entry> {
    if list == [] then [] else Insert(Sorted(list[..|list| - 1], ws), list[|list| - 1], ws)
  }

  /** `e` may stand before all of `list`. */
  predicate Leads(e: Entry, list: seq<Entry>, ws: set<char>) {
    forall x | x in list :: Order(e, x, ws) <= 0
  }

  lemma FirstLeads(list: seq<Entry>, ws: set<char>)
    requires list != []
    ensures NewestFirst(list, ws) <==> Leads(list[0], list[1..], ws) && NewestFirst(list[1..], ws)
  {
    if Leads(list[0], list[1..], ws) && NewestFirst(list[1..], ws) {
      forall i, j | 0 <= i < j < |list|
        ensures Order(list[i], list[j], ws) <= 0
      {
        assert list[j] == list[1..][j - 1];
        assert i > 0 ==> list[i] == list[1..][i - 1];
      }
    }
  }

  lemma {:induction false} InsertMembers(sorted: seq<Entry>, e: Entry, ws: set<char>)
    ensures multiset(Insert(sorted, e, ws)) == multiset(sorted) + multiset{e}
    ensures forall x :: x in Insert(sorted, e, ws) <==> x == e || x in sorted
  {
    if sorted != [] {
      InsertMembers(sorted[1..], e, ws);
      assert sorted == [sorted[0]] + sorted[1..];
    }
  }

  lemma OlderFollow(first: Entry, e: Entry, sorted: seq<Entry>, ws: set<char>)
    requires Order(first, e, ws) > 0 && Leads(first, sorted, ws)
    ensures Order(e, first, ws) < 0 && Leads(e, sorted, ws)
    ensures forall x | x in sorted :: Order(e, x, ws) < 0
  {
    OrderFacts(first, e, first, ws);
    forall x | x in sorted ensures Order(e, x, ws) < 0 {
      OrderFacts(e, first, x, ws);
    }
  }

  lemma {:induction false} InsertKeepsOrder(sorted: seq<Entry>, e: Entry, ws: set<char>)
    requires NewestFirst(sorted, ws)
    ensures NewestFirst(Insert(sorted, e, ws), ws)
  {
    if sorted != [] {
      var first, rest := sorted[0], sorted[1..];
      FirstLeads(sorted, ws);
      FirstLeads(Insert(sorted, e, ws), ws);
      if Order(first, e, ws) <= 0 {
        InsertKeepsOrder(rest, e, ws);
        InsertMembers(rest, e, ws);
      } else {
        OlderFollow(first, e, rest, ws);
        assert ([e] + sorted)[1..] == sorted;
      }
    }
  }

  /** If `e` is newer than all entries, none has the version of an entry equal to `e`. */
  lemma {:induction false} NoneEqual(sorted: seq<Entry>, e: Entry, x: Entry, ws: set<char>)
    requires Order(e, x, ws) == 0 && forall y | y in sorted :: Order(e, y, ws) < 0
    ensures Filter(sorted, SameAs(x, ws)) == []
  {
    if sorted != [] {
      OrderFacts(e, x, e, ws);
      OrderFacts(sorted[0], x, e, ws);
      OrderFacts(sorted[0], e, x, ws);
      NoneEqual(sorted[1..], e, x, ws);
    }
  }

  lemma {:induction false} InsertIsStable(sorted: seq<Entry>, e: Entry, x: Entry, ws: set<char>)
    requires NewestFirst(sorted, ws)
    ensures Filter(Insert(sorted, e, ws), SameAs(x, ws)) == Filter(sorted + [e], SameAs(x, ws))
  {
    if sorted == [] {
      assert sorted + [e] == [e];
    } else {
      var first, rest := sorted[0], sorted[1..];
      assert (sorted + [e])[1..] == rest + [e];
      FirstLeads(sorted, ws);
      if Order(first, e, ws) <= 0 {
        InsertIsStable(rest, e, x, ws);
      } else {
        FilterAppend([e], sorted, SameAs(x, ws));
        FilterAppend(sorted, [e], SameAs(x, ws));
        if Order(e, x, ws) == 0 {
          OlderFollow(first, e, rest, ws);
          NoneEqual(sorted, e, x, ws);
        }
      }
    }
  }

  /** Sorting gives a permutation, newest first, that keeps entries of equal versions in their order. */
  lemma {:induction false} SortedIsStable(list: seq<Entry>, ws: set<char>)
    ensures multiset(Sorted(list, ws)) == multiset(list) && StablySorted(list, Sorted(list, ws), ws)
  {
    if list != [] {
      var front, last := list[..|list| - 1], list[|list| - 1];
      assert list == front + [last];
      SortedIsStable(front, ws);
      InsertMembers(Sorted(front, ws), last, ws);
      InsertKeepsOrder(Sorted(front, ws), last, ws);
      forall x: Entry
        ensures Filter(Sorted(list, ws), SameAs(x, ws)) == Filter(list, SameAs(x, ws))
      {
        InsertIsStable(Sorted(front, ws), last, x, ws);
        FilterAppend(Sorted(front, ws), [last], SameAs(x, ws));
        FilterAppend(front, [last], SameAs(x, ws));
      }
    }
  }

  /** Any stable sort by the comparator returns the same newest-first permutation. */
  lemma AnyStableSort(list: seq<Entry>, sorted: seq<Entry>, ws: set<char>)
    requires StablySorted(list, sorted, ws)
    ensures sorted == Sorted(list, ws) && NewestFirst(sorted, ws) && multiset(sorted) == multiset(list)
  {
    SortedIsStable(list, ws);
    StableSortIsUnique(Sorted(list, ws), sorted, ws);
  }

  // ---- the program -----------------------------------------------------------------------------------

  predicate IsValid(e: Entry) {
    e.version != "" && e.platforms.Some?
  }

  function Valid(index: seq<Entry>): seq<Entry> {
    if index == [] then [] else (if IsValid(index[0]) then [index[0]] else []) + Valid(index[1..])
  }

  function TagFromVersion(version: string, ws: set<char>): string {
    var v := Text.Trim(ws, version);
    if v != "" && v[0] == 'v' then v else "v" + v
  }

  function ManifestToVersionEntry(m: Manifest, ws: set<char>): Entry {
    var platforms := if m.platforms.Some? then m.platforms else Some("");
    Entry(TagFromVersion(m.version, ws), StripV(m.version), m.notes, platforms)
  }

  /** An entry counts exactly if it has a version and platforms, and those that do stay in their order. */
  lemma {:induction false} ValidInOrder(a: seq<Entry>, e: Entry, b: seq<Entry>)
    ensures Valid(a + ([e] + b)) ==
              Valid(a) + ((if e.version == "" || e.platforms.None? then [] else [e]) + Valid(b))
  {
    if a == [] {
      assert a + ([e] + b) == [e] + b && ([e] + b)[1..] == b;
    } else {
      assert (a + ([e] + b))[1..] == a[1..] + ([e] + b);
      ValidInOrder(a[1..], e, b);
    }
  }

  /** The latest manifest as an entry: its tag has a `v` in front and its version has none. */
  lemma LatestEntry(m: Manifest, ns: seq<nat>, ws: set<char>)
    requires ns != [] && 'v' !in ws && forall c | c in ws :: !IsDigit(c)
    requires m.version == Dotted(ns) || m.version == "v" + Dotted(ns)
    ensures var e := ManifestToVersionEntry(m, ws);
            && e.tag == "v" + Dotted(ns) && e.version == Dotted(ns)
            && e.notes == m.notes && e.platforms == (if m.platforms.Some? then m.platforms else Some(""))
  {
    DottedEnds(ns);
    var v := m.version;
    assert v[|v| - 1] == Dotted(ns)[|Dotted(ns)| - 1];
    Text.PlainTrim(ws, v);
    assert ("v" + Dotted(ns))[1..] == Dotted(ns);
  }

  lemma {:induction false} DottedEnds(ns: seq<nat>)
    requires ns != []
    ensures IsDigit(Dotted(ns)[|Dotted(ns)| - 1])
  {
    if |ns| > 1 {
      DottedEnds(ns[1..]);
    }
  }

  /** The entries with a version and platforms. */
  method KeepValid(index: seq<Entry>) returns (valid: seq<Entry>)
    ensures valid == Valid(index)
  {
    valid := [];
    for i := 0 to |index|
      invariant valid + Valid(index[i..]) == Valid(index)
    {
      assert index[i..][0] == index[i] && index[i..][1..] == index[i + 1..];
      if index[i].version != "" && index[i].platforms.Some? {
        valid := valid + [index[i]];
      }
    }
    assert index[|index|..] == [];
  }

  /**
   `resolveVersionList`, with `sorted` as what the engine's stable sort makes of the valid entries: the
   list is the newest-first permutation of them, or else the latest manifest alone, or nothing.
   */
  method ResolveVersionList(latest: Option<Manifest>, index: seq<Entry>, sorted: seq<Entry>, ws: set<char>)
      returns (list: seq<Entry>)
    requires StablySorted(Valid(index), sorted, ws)
    ensures Valid(index) != [] ==>
              list == Sorted(Valid(index), ws) && NewestFirst(list, ws) && multiset(list) == multiset(Valid(index))
    ensures Valid(index) == [] ==> list == if latest.Some? then [ManifestToVersionEntry(latest.value, ws)] else []
  {
    var fromIndex := KeepValid(index);
    if |fromIndex| > 0 {
      AnyStableSort(fromIndex, sorted, ws);
      return sorted;
    }
    if latest.Some? {
      return [ManifestToVersionEntry(latest.value, ws)];
    }
    return [];
  }
}
