/** Listings of the Aliyun client: which regions are shown, and how pages are collected. */
module AliyunListing {
  import opened Wrappers
  import Text

  // ---- regions --------------------------------------------------------------------------------

  datatype Region = Region(id: string, name: string, hasEcs: bool, hasSwas: bool)

  /** What is known about occupied regions. */
  datatype Probes = Probes(ecs: set<string>, swas: set<string>, ok: nat)

  function Flagged(r: Region, p: Probes): Region {
    r.(hasEcs := r.id in p.ecs, hasSwas := r.id in p.swas)
  }

  predicate ShowAll(p: Probes) {
    p.ok == 0 || (p.ecs == {} && p.swas == {})
  }

  predicate Shown(r: Region, p: Probes, configured: set<string>) {
    ShowAll(p) || r.id in p.ecs || r.id in p.swas || r.id in configured
  }

  /** The described regions that are shown, in their order, with flags. */
  function Kept(described: seq<Region>, p: Probes, configured: set<string>): seq<Region> {
    if described == [] then []
    else
      (if Shown(described[0], p, configured) then [Flagged(described[0], p)] else [])
      + Kept(described[1..], p, configured)
  }

  function IdsOf(regions: seq<Region>): set<string> {
    set r | r in regions :: r.id
  }

  /** The configured ids without blanks around them, and without blank ones. */
  function Wanted(configured: seq<string>, ws: set<char>): set<string> {
    set raw | raw in configured && Text.Trim(ws, raw) != "" :: Text.Trim(ws, raw)
  }

  function Configured(id: string, p: Probes): Region {
    Region(id, "", id in p.ecs, id in p.swas)
  }

  /** Configured ids that are not known yet are added one after another. */
  function Added(out: seq<Region>, configured: seq<string>, known: set<string>, p: Probes, ws: set<char>): seq<Region>
    decreases |configured|
  {
    if configured == [] then out
    else
      var id := Text.Trim(ws, configured[0]);
      if id == "" || id in known || id in IdsOf(out) then Added(out, configured[1..], known, p, ws)
      else Added(out + [Configured(id, p)], configured[1..], known, p, ws)
  }

  function Visible(described: seq<Region>, configured: seq<string>, p: Probes, ws: set<char>): seq<Region> {
    Added(Kept(described, p, Wanted(configured, ws)), configured, IdsOf(described), p, ws)
  }

  predicate DistinctIds(regions: seq<Region>) {
    forall i, j | 0 <= i < j < |regions| :: regions[i].id != regions[j].id
  }

  lemma {:induction false} KeptRegions(described: seq<Region>, p: Probes, configured: set<string>)
    ensures forall r :: r in Kept(described, p, configured) <==>
                          exists d :: d in described && Shown(d, p, configured) && r == Flagged(d, p)
    ensures IdsOf(Kept(described, p, configured)) <= IdsOf(described)
    ensures DistinctIds(described) ==> DistinctIds(Kept(described, p, configured))
  {
    if described != [] {
      var first, rest := described[0], described[1..];
      KeptRegions(rest, p, configured);
      if DistinctIds(described) {
        FirstIdIsAlone(described);
      }
      assert forall d :: d in described <==> d == first || d in rest;
      assert forall r :: r in Kept(rest, p, configured) ==> r.id in IdsOf(rest);
    }
  }

  /** Wherever the described regions are cut, what is kept of the first part comes first. */
  lemma {:induction false} KeptInOrder(a: seq<Region>, b: seq<Region>, p: Probes, configured: set<string>)
    ensures Kept(a + b, p, configured) == Kept(a, p, configured) + Kept(b, p, configured)
  {
    if a == [] {
      assert a + b == b;
    } else {
      assert (a + b)[1..] == a[1..] + b;
      KeptInOrder(a[1..], b, p, configured);
    }
  }

  /** Wherever the configured ids are cut, those of the first part are added first. */
  lemma {:induction false} AddedInOrder(out: seq<Region>, a: seq<string>, b: seq<string>, known: set<string>,
      p: Probes, ws: set<char>)
    ensures Added(out, a + b, known, p, ws) == Added(Added(out, a, known, p, ws), b, known, p, ws)
    decreases |a|
  {
    if a == [] {
      assert a + b == b;
    } else {
      var id := Text.Trim(ws, a[0]);
      assert (a + b)[1..] == a[1..] + b;
      if id == "" || id in known || id in IdsOf(out) {
        AddedInOrder(out, a[1..], b, known, p, ws);
      } else {
        AddedInOrder(out + [Configured(id, p)], a[1..], b, known, p, ws);
      }
    }
  }

  lemma FirstIdIsAlone(described: seq<Region>)
    requires described != [] && DistinctIds(described)
    ensures DistinctIds(described[1..]) && described[0].id !in IdsOf(described[1..])
  {
  }

  lemma WantedSplit(configured: seq<string>, ws: set<char>, id: string)
    requires configured != []
    ensures id in Wanted(configured, ws) <==>
            id in Wanted(configured[1..], ws) || (id == Text.Trim(ws, configured[0]) && id != "")
  {
  }

  /** Adding keeps what is there and never adds an id twice. */
  lemma {:induction false} AddedDistinct(out: seq<Region>, configured: seq<string>, known: set<string>, p: Probes,
      ws: set<char>)
    ensures DistinctIds(out) ==> DistinctIds(Added(out, configured, known, p, ws))
    ensures out <= Added(out, configured, known, p, ws)
    decreases |configured|
  {
    if configured != [] {
      var id := Text.Trim(ws, configured[0]);
      if id == "" || id in known || id in IdsOf(out) {
        AddedDistinct(out, configured[1..], known, p, ws);
      } else {
        AppendedId(out, Configured(id, p));
        AddedDistinct(out + [Configured(id, p)], configured[1..], known, p, ws);
      }
    }
  }

  /** An id is present or known afterwards exactly if it was before or is a configured one. */
  lemma {:induction false} AddedIds(out: seq<Region>, configured: seq<string>, known: set<string>, p: Probes,
      ws: set<char>, id: string)
    ensures id in IdsOf(Added(out, configured, known, p, ws)) || id in known <==>
            id in IdsOf(out) || id in Wanted(configured, ws) || id in known
    decreases |configured|
  {
    if configured != [] {
      var first := Text.Trim(ws, configured[0]);
      WantedSplit(configured, ws, id);
      if first == "" || first in known || first in IdsOf(out) {
        AddedIds(out, configured[1..], known, p, ws, id);
      } else {
        AppendedId(out, Configured(first, p));
        AddedIds(out + [Configured(first, p)], configured[1..], known, p, ws, id);
      }
    }
  }

  /** Whatever is added is a configured id that was not known, with the flags of the probes. */
  lemma {:induction false} AddedAreConfigured(out: seq<Region>, configured: seq<string>, known: set<string>, p: Probes,
      ws: set<char>, r: Region)
    requires r in Added(out, configured, known, p, ws)
    ensures r in out || (r.id in Wanted(configured, ws) && r.id !in known && r == Configured(r.id, p))
    decreases |configured|
  {
    if configured != [] {
      var first := Text.Trim(ws, configured[0]);
      WantedSplit(configured, ws, r.id);
      if first == "" || first in known || first in IdsOf(out) {
        AddedAreConfigured(out, configured[1..], known, p, ws, r);
      } else {
        AddedAreConfigured(out + [Configured(first, p)], configured[1..], known, p, ws, r);
      }
    }
  }

  lemma AppendedId(out: seq<Region>, r: Region)
    ensures IdsOf(out + [r]) == IdsOf(out) + {r.id}
    ensures DistinctIds(out) && r.id !in IdsOf(out) ==> DistinctIds(out + [r])
  {
  }

  /**
   The described regions that are shown come first and in their order; every configured id is there, and
   every described region with instances, and every described region at all if no probe succeeded or
   none found anything; otherwise nothing else is. All flags are those of the probes, the last fallback
   has nothing to add, and the ids are distinct if the described ones are.
   */
  lemma VisibleRegions(described: seq<Region>, configured: seq<string>, p: Probes, ws: set<char>)
    ensures var kept, all := Kept(described, p, Wanted(configured, ws)), Visible(described, configured, p, ws);
            var nothingKnown := p.ok == 0 || (p.ecs == {} && p.swas == {});
            && (DistinctIds(described) ==> DistinctIds(all)) && kept <= all
            && Wanted(configured, ws) <= IdsOf(all)
            && (forall d | d in described && (nothingKnown || d.id in p.ecs || d.id in p.swas) ::
                  Region(d.id, d.name, d.id in p.ecs, d.id in p.swas) in all)
            && (forall r | r in all :: (r.hasEcs <==> r.id in p.ecs) && (r.hasSwas <==> r.id in p.swas))
            && (forall r | r in all :: r.id in IdsOf(described) || r.id in Wanted(configured, ws))
            && (forall r | r in all ::
                  nothingKnown || r.id in p.ecs || r.id in p.swas || r.id in Wanted(configured, ws))
            && (all == [] ==> Wanted(configured, ws) == {})
  {
    var wanted := Wanted(configured, ws);
    var kept, all := Kept(described, p, wanted), Visible(described, configured, p, ws);
    KeptRegions(described, p, wanted);
    AddedDistinct(kept, configured, IdsOf(described), p, ws);
    forall id | id in wanted ensures id in IdsOf(all) {
      AddedIds(kept, configured, IdsOf(described), p, ws, id);
      if id in IdsOf(described) {
        var d :| d in described && d.id == id;
        assert Shown(d, p, wanted) && Flagged(d, p) in kept;
        assert Flagged(d, p) in all;
      }
    }
    forall r | r in all
      ensures (r.hasEcs <==> r.id in p.ecs) && (r.hasSwas <==> r.id in p.swas)
      ensures r.id in IdsOf(described) || r.id in wanted
      ensures p.ok == 0 || (p.ecs == {} && p.swas == {}) || r.id in p.ecs || r.id in p.swas || r.id in wanted
    {
      AddedAreConfigured(kept, configured, IdsOf(described), p, ws, r);
      assert r in kept ==> r.id in IdsOf(kept);
    }
    forall d | d in described && Shown(d, p, wanted)
      ensures Region(d.id, d.name, d.id in p.ecs, d.id in p.swas) in all
    {
      assert Flagged(d, p) in kept;
    }
  }

  /** `select_visible_cloud_regions`; `ws` are the characters that `trim` removes. */
  method SelectVisibleCloudRegions(described: seq<Region>, configured: seq<string>, p: Probes, ws: set<char>)
      returns (out: seq<Region>)
    ensures out == Visible(described, configured, p, ws)
  {
    var wanted := Wanted(configured, ws);
    out := KeepShown(described, p, wanted);
    var known := IdsOf(described);
    for i := 0 to |configured|
      invariant Added(out, configured[i..], known, p, ws) == Visible(described, configured, p, ws)
    {
      assert configured[i..][0] == configured[i] && configured[i..][1..] == configured[i + 1..];
      var id := Text.Trim(ws, configured[i]);
      if id == "" || id in known {
        continue;
      }
      if exists r :: r in out && r.id == id {
        continue;
      }
      out := out + [Configured(id, p)];
    }
    if out == [] {
      VisibleRegions(described, configured, p, ws);
      for i := 0 to |configured|
        invariant out == []
      {
        var id := Text.Trim(ws, configured[i]);
        assert id != "" ==> id in Wanted(configured, ws);
        if id != "" {
          out := out + [Region(id, "", false, false)];
        }
      }
    }
  }

  lemma KeptNext(out: seq<Region>, described: seq<Region>, p: Probes, configured: set<string>)
    requires described != []
    ensures out + Kept(described, p, configured) ==
            (if Shown(described[0], p, configured) then out + [Flagged(described[0], p)] else out)
            + Kept(described[1..], p, configured)
  {
  }

  /** Flags for all described regions, and the filter unless all are shown. */
  method KeepShown(described: seq<Region>, p: Probes, configured: set<string>) returns (out: seq<Region>)
    ensures out == Kept(described, p, configured)
  {
    out := [];
    var foundAny := p.ecs != {} || p.swas != {};
    var showAll := p.ok == 0 || !foundAny;
    for i := 0 to |described|
      invariant out + Kept(described[i..], p, configured) == Kept(described, p, configured)
    {
      KeptNext(out, described[i..], p, configured);
      assert described[i..][0] == described[i] && described[i..][1..] == described[i + 1..];
      var r := described[i].(hasEcs := described[i].id in p.ecs, hasSwas := described[i].id in p.swas);
      if showAll || r.hasEcs || r.hasSwas || r.id in configured {
        out := out + [r];
      }
    }
  }

  // ---- pages ------------------------------------------------------------------------------------

  const MAX_PAGES: nat := 20

  function Min(a: nat, b: nat): nat {
    if a < b then a else b
  }

  /** What the server returns as page `k`, counted from one. */
  function Page<T>(items: seq<T>, size: nat, k: nat): seq<T>
    requires k >= 1
  {
    items[Min((k - 1) * size, |items|)..Min(k * size, |items|)]
  }

  /** How many pages it takes to cover a reported total; one page is always asked for. */
  function PagesFor(total: nat, size: nat): nat
    requires size >= 1
  {
    if total <= size then 1 else 1 + PagesFor(total - size, size)
  }

  /** How many items the loop collects that trusts the reported total. */
  function Collected(n: nat, size: nat, total: nat): nat
    requires size >= 1
  {
    Min(n, Min(MAX_PAGES, PagesFor(total, size)) * size)
  }

  lemma {:induction false} PagesCover(total: nat, size: nat, k: nat)
    requires size >= 1 && k >= 1
    ensures k * size >= total <==> k >= PagesFor(total, size)
    decreases total
  {
    if total <= size {
      assert k * size >= size;
    } else if k == 1 {
    } else {
      PagesCover(total - size, size, k - 1);
      assert (k - 1) * size == k * size - size;
    }
  }

  lemma NextPage<T>(items: seq<T>, size: nat, k: nat)
    requires k >= 1
    ensures items[..Min((k - 1) * size, |items|)] + Page(items, size, k) == items[..Min(k * size, |items|)]
  {
  }

  lemma Monotone(a: nat, b: nat, size: nat)
    ensures a <= b ==> a * size <= b * size
    ensures (a + 1) * size == a * size + size
  {
  }

  /** Before page `page`, the total is not covered yet, or everything there is has been fetched. */
  predicate Continues(n: nat, size: nat, total: nat, page: nat)
    requires size >= 1
  {
    page <= PagesFor(total, size) || (n <= PagesFor(total, size) * size && n <= (page - 1) * size)
  }

  /** The loop stops after page `page`. */
  predicate Stops(n: nat, size: nat, total: nat, page: nat)
    requires page >= 1
  {
    Min((page - 1) * size, n) == Min(page * size, n) || Min(page * size, n) >= total || page >= MAX_PAGES
  }

  lemma GoesOn(n: nat, size: nat, total: nat, page: nat)
    requires size >= 1 && page >= 1 && Continues(n, size, total, page) && !Stops(n, size, total, page)
    ensures Continues(n, size, total, page + 1)
  {
    PagesCover(total, size, page);
    Monotone(PagesFor(total, size), page, size);
    Monotone(page - 1, page, size);
  }

  /** Where the loop stops, the first `page` pages are what it should collect. */
  lemma StopsRight(n: nat, size: nat, total: nat, page: nat)
    requires size >= 1 && 1 <= page <= MAX_PAGES && Continues(n, size, total, page) && Stops(n, size, total, page)
    ensures Min(page * size, n) == Collected(n, size, total)
  {
    var enough := PagesFor(total, size);
    PagesCover(total, size, page);
    Monotone(page, MAX_PAGES, size);
    Monotone(page, enough, size);
    Monotone(enough, page, size);
    Monotone(page - 1, page, size);
  }

  /** The total to stop at; without a report the items of the page itself are counted, which stops at once. */
  function Trusted(reported: Option<nat>): nat {
    if reported.Some? then reported.value else 0
  }

  /** `list_ecs_instances` and `list_swas_instances`: stop at an empty page, at the total, or after 20 pages. */
  method ListByTotal<T>(items: seq<T>, size: nat, reported: Option<nat>) returns (out: seq<T>, calls: nat)
    requires size >= 1
    ensures out == items[..Collected(|items|, size, Trusted(reported))]
    ensures 1 <= calls <= MAX_PAGES
  {
    out, calls := [], 0;
    var page: nat := 1;
    while true
      invariant 1 <= page <= MAX_PAGES && calls == page - 1
      invariant out == items[..Min((page - 1) * size, |items|)]
      invariant Continues(|items|, size, Trusted(reported), page)
      decreases MAX_PAGES - page
    {
      var stop;
      out, stop := FetchPage(items, size, reported, page, out);
      calls := calls + 1;
      if stop {
        StopsRight(|items|, size, Trusted(reported), page);
        break;
      }
      GoesOn(|items|, size, Trusted(reported), page);
      page := page + 1;
    }
  }

  /** One round of the loop, and whether it is the last one. */
  method FetchPage<T>(items: seq<T>, size: nat, reported: Option<nat>, page: nat, out: seq<T>)
      returns (grown: seq<T>, stop: bool)
    requires page >= 1 && out == items[..Min((page - 1) * size, |items|)]
    ensures grown == items[..Min(page * size, |items|)] && (stop <==> Stops(|items|, size, Trusted(reported), page))
  {
    var instances := Page(items, size, page);
    NextPage(items, size, page);
    grown := out + instances;
    var total := if reported.Some? then reported.value else |instances|;
    stop := |instances| == 0 || |grown| >= total || page >= MAX_PAGES;
    Monotone(page - 1, page, size);
  }

  /** A server that reports what it has is listed up to 20 pages; one that reports nothing is listed up to one page. */
  lemma ReportedTotals(n: nat, size: nat)
    requires size >= 1
    ensures Collected(n, size, Trusted(Some(n))) == if n < 20 * size then n else 20 * size
    ensures Collected(n, size, Trusted(None)) == if n < size then n else size
  {
    var enough := PagesFor(n, size);
    PagesCover(n, size, enough);
    PagesCover(n, size, MAX_PAGES);
    Monotone(MAX_PAGES, enough, size);
    Monotone(enough, MAX_PAGES, size);
    assert 1 * size == size;
  }

  /**
   Whatever a server reports: at most 20 pages are listed, less than the total only where the server has
   no more or the pages run out, and never a page more than it takes.
   */
  lemma ListsUpToTotal(n: nat, size: nat, total: nat)
    requires size >= 1
    ensures var c := Collected(n, size, total);
            && c <= n && c <= 20 * size
            && (c < total ==> c == n || c == 20 * size)
            && (c <= size || c < total + size)
  {
    var enough := PagesFor(total, size);
    PagesCover(total, size, enough);
    if enough > 1 {
      PagesCover(total, size, enough - 1);
      Monotone(enough - 1, enough, size);
    } else {
      assert enough * size == size;
    }
    Monotone(MAX_PAGES, enough, size);
    Monotone(enough, MAX_PAGES, size);
  }
}
