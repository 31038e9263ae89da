/**
 What the flattening of a SiYuan document keeps. A prose document consists of paragraphs,
 containers, list items, breaks and images; blank text aside, the books of its text balance.
 */
module SiyuanConservation {
  import opened Text
  import opened SiyuanUnits

  // ---- ink: the text that is not white space ------------------------------------------------

  function Without(strip: set<char>, s: string): string {
    if s == "" then "" else (if s[0] in strip then "" else [s[0]]) + Without(strip, s[1..])
  }

  function Ink(s: string): string {
    Without(SPACES, s)
  }

  lemma {:induction false} WithoutAppend(strip: set<char>, a: string, b: string)
    ensures Without(strip, a + b) == Without(strip, a) + Without(strip, b)
  {
    if a == "" {
      assert a + b == b;
    } else {
      assert (a + b)[1..] == a[1..] + b;
      WithoutAppend(strip, a[1..], b);
    }
  }

  lemma InkAppend(a: string, b: string)
    ensures Ink(a + b) == Ink(a) + Ink(b)
  {
    WithoutAppend(SPACES, a, b);
  }

  lemma {:induction false} TrimStartKeeps(strip: set<char>, s: string)
    ensures Without(strip, TrimStart(strip, s)) == Without(strip, s)
  {
    if s != "" && s[0] in strip {
      TrimStartKeeps(strip, s[1..]);
    }
  }

  lemma {:induction false} TrimEndKeeps(strip: set<char>, s: string)
    ensures Without(strip, TrimEnd(strip, s)) == Without(strip, s)
  {
    if s != "" && s[|s| - 1] in strip {
      var front, last := s[..|s| - 1], [s[|s| - 1]];
      TrimEndKeeps(strip, front);
      WithoutAppend(strip, front, last);
      assert last[1..] == "" && s == front + last;
    }
  }

  lemma TrimKeepsInk(s: string)
    ensures Ink(Trim(SPACES, s)) == Ink(s)
    ensures Trim(SPACES, s) == "" <==> Ink(s) == ""
  {
    TrimStartKeeps(SPACES, s);
    TrimEndKeeps(SPACES, TrimStart(SPACES, s));
    var t := Trim(SPACES, s);
    assert t != "" ==> Ink(t) == [t[0]] + Ink(t[1..]);
  }

  function InkOf(parts: seq<string>): string {
    Ink(Join(parts))
  }

  lemma InkOfAppend(a: seq<string>, b: seq<string>)
    ensures InkOf(a + b) == InkOf(a) + InkOf(b)
  {
    JoinAppend(a, b);
    InkAppend(Join(a), Join(b));
  }

  /** All pieces that go into a group, markers included. */
  function PiecesOf(group: Group): seq<Piece> {
    if group.Prose? then group.pieces else [Piece(group.text, false)]
  }

  function GroupPieces(groups: seq<Group>): seq<Piece> {
    if groups == [] then [] else PiecesOf(groups[0]) + GroupPieces(groups[1..])
  }

  lemma RenderOneKeepsInk(group: Group)
    ensures InkOf(RenderOne(group)) == Ink(TextOf(PiecesOf(group)))
  {
    if group.Whole? {
      assert Texts(PiecesOf(group)) == [group.text];
    } else {
      var text := TextOf(group.pieces);
      TrimKeepsInk(text);
      var trimmed := [Trim(SPACES, text)];
      assert trimmed[1..] == [] && Join(trimmed) == trimmed[0];
    }
  }

  /** No rendered unit is empty, and trimming costs no ink: the units hold the ink of the groups, in order. */
  lemma {:induction false} RenderKeepsInk(groups: seq<Group>)
    requires forall g :: g in groups && g.Whole? ==> g.text != ""
    ensures forall u :: u in Render(groups) ==> u != ""
    ensures InkOf(Render(groups)) == Ink(TextOf(GroupPieces(groups)))
  {
    if groups != [] {
      RenderKeepsInk(groups[1..]);
      RenderOneKeepsInk(groups[0]);
      InkOfAppend(RenderOne(groups[0]), Render(groups[1..]));
      TextOfAppend(PiecesOf(groups[0]), GroupPieces(groups[1..]));
      InkAppend(TextOf(PiecesOf(groups[0])), TextOf(GroupPieces(groups[1..])));
    }
  }

  lemma {:induction false} CollectedWholesAreFull(node: Node, pending: seq<Piece>)
    ensures forall g :: g in Collect(node, pending).0 && g.Whole? ==> g.text != ""
    decreases node, 1
  {
    if node.kind.Heading? || node.kind.TableRow? {
      NestedWholesAreFull(node.kids);
    } else if !node.kind.CodeBlock? {
      GatheredWholesAreFull(node.kids, pending + Marker(node) + Inline(node));
    }
  }

  lemma {:induction false} NestedWholesAreFull(kids: seq<Node>)
    ensures forall g :: g in Nested(kids) && g.Whole? ==> g.text != ""
    decreases kids, 0
  {
    if kids != [] {
      CollectedWholesAreFull(kids[0], []);
      NestedWholesAreFull(kids[1..]);
    }
  }

  lemma {:induction false} GatheredWholesAreFull(kids: seq<Node>, unit: seq<Piece>)
    ensures forall g :: g in Gather(kids, unit) && g.Whole? ==> g.text != ""
    decreases kids, 0
  {
    if kids != [] {
      CollectedWholesAreFull(kids[0], []);
      GatheredWholesAreFull(kids[1..], unit);
      GatheredWholesAreFull(kids[1..], unit + Inline(kids[0]));
      GatheredWholesAreFull(kids[1..], []);
    }
  }

  /** For every document, no unit is empty and the units hold the ink of their groups, in order. */
  lemma {:induction false} UnitsHoldTheGroups(kids: seq<Node>, pending: seq<Piece>)
    ensures forall g :: g in Document(kids, pending) && g.Whole? ==> g.text != ""
    ensures forall u :: u in Render(Document(kids, pending)) ==> u != ""
    ensures InkOf(Render(Document(kids, pending))) == Ink(TextOf(GroupPieces(Document(kids, pending))))
    decreases |kids|
  {
    if kids != [] {
      if kids[0].hasId {
        CollectedWholesAreFull(kids[0], pending);
        UnitsHoldTheGroups(kids[1..], Collect(kids[0], pending).1);
      } else {
        UnitsHoldTheGroups(kids[1..], pending + Inline(kids[0]));
      }
    }
    RenderKeepsInk(Document(kids, pending));
  }

  // ---- where the text of the document goes -----------------------------------------------------

  predicate IsLeaf(kind: Kind) {
    kind.SoftBreak? || kind.HardBreak? || kind.Image?
  }

  /** Prose: no heading, code block or table row, and nothing structural inside a break or an image. */
  predicate IsProse(node: Node)
    decreases node
  {
    && !node.kind.Heading? && !node.kind.CodeBlock? && !node.kind.TableRow?
    && (IsLeaf(node.kind) ==> InlineOnly(node))
    && AreProse(node.kids)
  }

  predicate AreProse(kids: seq<Node>)
    decreases kids
  {
    kids == [] || (IsProse(kids[0]) && AreProse(kids[1..]))
  }

  /** The text that a break or an image stands for. */
  function LeafText(node: Node): string {
    if node.kind.SoftBreak? then "\n" else if node.kind.HardBreak? then "  \n" else node.rendered
  }

  /** All text of the subtree, in document order: each own text that is not empty, each break, each image. */
  function Preorder(node: Node): seq<Piece>
    decreases node
  {
    if IsLeaf(node.kind) then [Piece(LeafText(node), false)]
    else (if node.own == "" then [] else [Piece(node.own, false)]) + PreorderKids(node.kids)
  }

  function PreorderKids(kids: seq<Node>): seq<Piece>
    decreases kids
  {
    if kids == [] then [] else Preorder(kids[0]) + PreorderKids(kids[1..])
  }

  /** The text of the blocks with ids that hang below nodes without id: nothing ever collects it. */
  function HiddenInline(node: Node): seq<Piece>
    decreases node
  {
    if IsLeaf(node.kind) then [] else HiddenInlineKids(node.kids)
  }

  function HiddenInlineKids(kids: seq<Node>): seq<Piece>
    decreases kids
  {
    if kids == [] then []
    else (if kids[0].hasId then Preorder(kids[0]) else HiddenInline(kids[0])) + HiddenInlineKids(kids[1..])
  }

  /** The hidden text of a block that is collected. */
  function Hidden(node: Node): seq<Piece>
    decreases node
  {
    if IsLeaf(node.kind) then [] else HiddenKids(node.kids)
  }

  function HiddenKids(kids: seq<Node>): seq<Piece>
    decreases kids
  {
    if kids == [] then []
    else (if kids[0].hasId then Hidden(kids[0]) else HiddenInline(kids[0])) + HiddenKids(kids[1..])
  }

  /** The text of the children with ids. */
  function BlockText(kids: seq<Node>): seq<Piece> {
    if kids == [] then [] else (if kids[0].hasId then Preorder(kids[0]) else []) + BlockText(kids[1..])
  }

  function HiddenBlocks(kids: seq<Node>): seq<Piece> {
    if kids == [] then [] else (if kids[0].hasId then Hidden(kids[0]) else []) + HiddenBlocks(kids[1..])
  }

  function HiddenLoose(kids: seq<Node>): seq<Piece> {
    if kids == [] then [] else (if kids[0].hasId then [] else HiddenInline(kids[0])) + HiddenLoose(kids[1..])
  }

  /** The pending text that is copied into a unit and stays pending all the same. */
  function Reused(kids: seq<Node>, pending: seq<Piece>): seq<Piece> {
    if kids == [] then []
    else if !kids[0].hasId then Reused(kids[1..], pending + Inline(kids[0]))
    else pending + Reused(kids[1..], pending)
  }

  /** The marker of a collected block and those of the blocks collected below it. */
  function Markers(node: Node): seq<Piece>
    decreases node
  {
    (if node.kind.ListItem? then [Piece(node.prefix, true)] else []) + MarkersBelow(node.kids)
  }

  /** An inline block joins a unit without its marker. */
  function MarkersBelow(kids: seq<Node>): seq<Piece>
    decreases kids
  {
    if kids == [] then []
    else (if kids[0].hasId && !InlineOnly(kids[0]) then Markers(kids[0]) else []) + MarkersBelow(kids[1..])
  }

  function DocumentMarkers(kids: seq<Node>): seq<Piece> {
    if kids == [] then [] else (if kids[0].hasId then Markers(kids[0]) else []) + DocumentMarkers(kids[1..])
  }

  /** The sum of what `f` gives each piece. */
  function Weigh(f: Piece -> nat, pieces: seq<Piece>): nat {
    if pieces == [] then 0 else f(pieces[0]) + Weigh(f, pieces[1..])
  }

  function WeighGroups(f: Piece -> nat, groups: seq<Group>): nat {
    Weigh(f, GroupPieces(groups))
  }

  lemma {:induction false} WeighAppend(f: Piece -> nat, a: seq<Piece>, b: seq<Piece>)
    ensures Weigh(f, a + b) == Weigh(f, a) + Weigh(f, b)
  {
    if a == [] {
      assert a + b == b;
    } else {
      assert (a + b)[1..] == a[1..] + b;
      WeighAppend(f, a[1..], b);
    }
  }

  lemma {:induction false} GroupPiecesAppend(a: seq<Group>, b: seq<Group>)
    ensures GroupPieces(a + b) == GroupPieces(a) + GroupPieces(b)
  {
    if a == [] {
      assert a + b == b;
    } else {
      assert (a + b)[1..] == a[1..] + b;
      GroupPiecesAppend(a[1..], b);
    }
  }

  lemma WeighGroupsAppend(f: Piece -> nat, a: seq<Group>, b: seq<Group>)
    ensures WeighGroups(f, a + b) == WeighGroups(f, a) + WeighGroups(f, b)
  {
    GroupPiecesAppend(a, b);
    WeighAppend(f, GroupPieces(a), GroupPieces(b));
  }

  lemma ProsePieces(pieces: seq<Piece>)
    ensures GroupPieces([Prose(pieces)]) == pieces
  {
  }

  // ---- the balance ---------------------------------------------------------------------------

  /** Inlining a subtree takes all its text but the hidden one. */
  lemma {:induction false} InlineBalance(f: Piece -> nat, node: Node)
    ensures Weigh(f, Preorder(node)) == Weigh(f, Inline(node)) + Weigh(f, HiddenInline(node))
    decreases node
  {
    if !IsLeaf(node.kind) {
      InlineKidsBalance(f, node.kids);
      WeighAppend(f, Own(node), PreorderKids(node.kids));
      WeighAppend(f, Own(node), InlineKids(node.kids));
    }
  }

  lemma {:induction false} InlineKidsBalance(f: Piece -> nat, kids: seq<Node>)
    ensures Weigh(f, PreorderKids(kids)) == Weigh(f, InlineKids(kids)) + Weigh(f, HiddenInlineKids(kids))
    decreases kids
  {
    if kids != [] {
      var kid, rest := kids[0], kids[1..];
      InlineKidsBalance(f, rest);
      WeighAppend(f, Preorder(kid), PreorderKids(rest));
      WeighAppend(f, if kid.hasId then [] else Inline(kid), InlineKids(rest));
      WeighAppend(f, if kid.hasId then Preorder(kid) else HiddenInline(kid), HiddenInlineKids(rest));
      if !kid.hasId {
        InlineBalance(f, kid);
      }
    }
  }

  lemma {:induction false} NothingHiddenInline(node: Node)
    requires InlineOnly(node)
    ensures HiddenInline(node) == [] && Hidden(node) == []
    decreases node
  {
    NothingHiddenInlineKids(node.kids);
  }

  lemma {:induction false} NothingHiddenInlineKids(kids: seq<Node>)
    requires InlineOnlyKids(kids)
    ensures HiddenInlineKids(kids) == [] && HiddenKids(kids) == []
    decreases kids
  {
    if kids != [] {
      NothingHiddenInline(kids[0]);
      NothingHiddenInlineKids(kids[1..]);
    }
  }

  /** The text of the children is that of the blocks, what the loose children give, and what hides in them. */
  lemma {:induction false} KidsBalance(f: Piece -> nat, kids: seq<Node>)
    ensures Weigh(f, PreorderKids(kids)) ==
              Weigh(f, BlockText(kids)) + Weigh(f, InlineKids(kids)) + Weigh(f, HiddenLoose(kids))
    ensures Weigh(f, HiddenKids(kids)) == Weigh(f, HiddenBlocks(kids)) + Weigh(f, HiddenLoose(kids))
  {
    if kids != [] {
      var kid, rest := kids[0], kids[1..];
      KidsBalance(f, rest);
      FirstEmpty(kids);
      WeighAppend(f, Preorder(kid), PreorderKids(rest));
      if kid.hasId {
        WeighAppend(f, Preorder(kid), BlockText(rest));
        WeighAppend(f, Hidden(kid), HiddenKids(rest));
        WeighAppend(f, Hidden(kid), HiddenBlocks(rest));
      } else {
        InlineBalance(f, kid);
        WeighAppend(f, Inline(kid), InlineKids(rest));
        WeighAppend(f, HiddenInline(kid), HiddenKids(rest));
        WeighAppend(f, HiddenInline(kid), HiddenLoose(rest));
      }
    }
  }

  lemma FirstEmpty(kids: seq<Node>)
    requires kids != []
    ensures kids[0].hasId ==> InlineKids(kids) == InlineKids(kids[1..]) && HiddenLoose(kids) == HiddenLoose(kids[1..])
    ensures !kids[0].hasId ==> BlockText(kids) == BlockText(kids[1..]) && HiddenBlocks(kids) == HiddenBlocks(kids[1..])
    ensures !kids[0].hasId ==> MarkersBelow(kids) == MarkersBelow(kids[1..])
    ensures !kids[0].hasId ==> DocumentMarkers(kids) == DocumentMarkers(kids[1..])
    ensures InlineOnly(kids[0]) ==> MarkersBelow(kids) == MarkersBelow(kids[1..])
  {
  }

  lemma {:induction false} GatherLoose(kids: seq<Node>, unit: seq<Piece>)
    requires InlineOnlyKids(kids)
    ensures Gather(kids, unit) == [Prose(unit)] && MarkersBelow(kids) == []
  {
    if kids != [] {
      GatherLoose(kids[1..], unit);
    }
  }

  lemma UnitWeight(f: Piece -> nat, node: Node, pending: seq<Piece>)
    ensures Weigh(f, pending + Marker(node) + Inline(node)) ==
              Weigh(f, pending) + Weigh(f, Marker(node)) + Weigh(f, Inline(node))
  {
    WeighAppend(f, pending + Marker(node), Inline(node));
    WeighAppend(f, pending, Marker(node));
  }

  lemma {:induction false} CollectBalance(f: Piece -> nat, node: Node, pending: seq<Piece>)
    requires IsProse(node)
    ensures WeighGroups(f, Collect(node, pending).0) + Weigh(f, Hidden(node)) ==
              Weigh(f, pending) + Weigh(f, Preorder(node)) + Weigh(f, Markers(node))
    decreases node, 1
  {
    var unit := pending + Marker(node) + Inline(node);
    UnitWeight(f, node, pending);
    WeighAppend(f, Marker(node), MarkersBelow(node.kids));
    if IsLeaf(node.kind) {
      GatherLoose(node.kids, unit);
      ProsePieces(unit);
    } else {
      GatherBalance(f, node.kids, unit);
      KidsBalance(f, node.kids);
      WeighAppend(f, Own(node), PreorderKids(node.kids));
      WeighAppend(f, Own(node), InlineKids(node.kids));
    }
  }

  lemma {:induction false} GatherBalance(f: Piece -> nat, kids: seq<Node>, unit: seq<Piece>)
    requires AreProse(kids)
    ensures WeighGroups(f, Gather(kids, unit)) + Weigh(f, HiddenBlocks(kids)) ==
              Weigh(f, unit) + Weigh(f, BlockText(kids)) + Weigh(f, MarkersBelow(kids))
    decreases kids, 0
  {
    if kids == [] {
      ProsePieces(unit);
    } else {
      var kid, rest := kids[0], kids[1..];
      FirstEmpty(kids);
      if !kid.hasId {
        GatherBalance(f, rest, unit);
      } else {
        WeighAppend(f, Preorder(kid), BlockText(rest));
        WeighAppend(f, Hidden(kid), HiddenBlocks(rest));
        if InlineOnly(kid) {
          GatherBalance(f, rest, unit + Inline(kid));
          WeighAppend(f, unit, Inline(kid));
          InlineBalance(f, kid);
          NothingHiddenInline(kid);
        } else {
          CollectBalance(f, kid, []);
          GatherBalance(f, rest, []);
          WeighAppend(f, Markers(kid), MarkersBelow(rest));
          WeighThree(f, unit, Collect(kid, []).0, Gather(rest, []));
        }
      }
    }
  }

  lemma WeighThree(f: Piece -> nat, unit: seq<Piece>, block: seq<Group>, rest: seq<Group>)
    ensures WeighGroups(f, [Prose(unit)] + block + rest) ==
              Weigh(f, unit) + WeighGroups(f, block) + WeighGroups(f, rest)
  {
    WeighGroupsAppend(f, [Prose(unit)] + block, rest);
    WeighGroupsAppend(f, [Prose(unit)], block);
    ProsePieces(unit);
  }

  /**
   The balance of every prose document, whatever is counted: what the units hold and what is hidden
   is the text of the document, the markers, and the pending text that is used again.
   */
  lemma {:induction false} Balance(f: Piece -> nat, kids: seq<Node>, pending: seq<Piece>)
    requires AreProse(kids)
    ensures WeighGroups(f, Document(kids, pending)) + Weigh(f, HiddenKids(kids)) ==
              Weigh(f, pending) + Weigh(f, PreorderKids(kids)) + Weigh(f, DocumentMarkers(kids))
              + Weigh(f, Reused(kids, pending))
    decreases |kids|
  {
    if kids == [] {
      ProsePieces(pending);
    } else {
      var kid, rest := kids[0], kids[1..];
      FirstEmpty(kids);
      WeighAppend(f, Preorder(kid), PreorderKids(rest));
      if kid.hasId {
        CollectBalance(f, kid, pending);
        Balance(f, rest, pending);
        WeighGroupsAppend(f, Collect(kid, pending).0, Document(rest, pending));
        WeighAppend(f, Hidden(kid), HiddenKids(rest));
        WeighAppend(f, Markers(kid), DocumentMarkers(rest));
        WeighAppend(f, pending, Reused(rest, pending));
      } else {
        Balance(f, rest, pending + Inline(kid));
        WeighAppend(f, pending, Inline(kid));
        InlineBalance(f, kid);
        WeighAppend(f, HiddenInline(kid), HiddenKids(rest));
      }
    }
  }

  function Is(p: Piece): Piece -> nat {
    q => if q == p then 1 else 0
  }

  lemma {:induction false} WeighIsOccurrences(p: Piece, pieces: seq<Piece>)
    ensures Weigh(Is(p), pieces) == multiset(pieces)[p]
  {
    if pieces != [] {
      assert pieces == [pieces[0]] + pieces[1..];
      WeighIsOccurrences(p, pieces[1..]);
    }
  }

  /**
   Piece by piece: in every prose document each text occurs, whole, in the units and in what is
   hidden as often as in the document, the markers, and the pending text that is used again.
   */
  lemma PiecesBalance(kids: seq<Node>)
    requires AreProse(kids)
    ensures multiset(GroupPieces(Document(kids, []))) + multiset(HiddenKids(kids)) ==
              multiset(PreorderKids(kids)) + multiset(DocumentMarkers(kids)) + multiset(Reused(kids, []))
  {
    forall p: Piece
      ensures multiset(GroupPieces(Document(kids, [])))[p] + multiset(HiddenKids(kids))[p] ==
                multiset(PreorderKids(kids))[p] + multiset(DocumentMarkers(kids))[p] + multiset(Reused(kids, []))[p]
    {
      Balance(Is(p), kids, []);
      WeighIsOccurrences(p, GroupPieces(Document(kids, [])));
      WeighIsOccurrences(p, HiddenKids(kids));
      WeighIsOccurrences(p, PreorderKids(kids));
      WeighIsOccurrences(p, DocumentMarkers(kids));
      WeighIsOccurrences(p, Reused(kids, []));
    }
  }

  // ---- characters of the rendered units ------------------------------------------------------------

  function CountIn(s: string, c: char): nat {
    if s == "" then 0 else (if s[0] == c then 1 else 0) + CountIn(s[1..], c)
  }

  lemma {:induction false} CountAppend(a: string, b: string, c: char)
    ensures CountIn(a + b, c) == CountIn(a, c) + CountIn(b, c)
  {
    if a == "" {
      assert a + b == b;
    } else {
      assert (a + b)[1..] == a[1..] + b;
      CountAppend(a[1..], b, c);
    }
  }

  function Has(c: char): Piece -> nat {
    (p: Piece) => CountIn(p.text, c)
  }

  lemma {:induction false} WeighIsCount(c: char, pieces: seq<Piece>)
    ensures Weigh(Has(c), pieces) == CountIn(TextOf(pieces), c)
  {
    if pieces != [] {
      WeighIsCount(c, pieces[1..]);
      assert Texts(pieces)[1..] == Texts(pieces[1..]);
      CountAppend(pieces[0].text, TextOf(pieces[1..]), c);
    }
  }

  lemma {:induction false} InkKeepsCount(strip: set<char>, s: string, c: char)
    requires c !in strip
    ensures CountIn(Without(strip, s), c) == CountIn(s, c)
  {
    if s != "" {
      InkKeepsCount(strip, s[1..], c);
      CountAppend(if s[0] in strip then "" else [s[0]], Without(strip, s[1..]), c);
      assert [s[0]][1..] == "";
    }
  }

  /** The same balance for the characters of the rendered units, white space aside. */
  lemma UnitsBalance(kids: seq<Node>, c: char)
    requires AreProse(kids) && c !in SPACES
    ensures CountIn(Join(Render(Document(kids, []))), c) + CountIn(TextOf(HiddenKids(kids)), c) ==
              CountIn(TextOf(PreorderKids(kids)), c) + CountIn(TextOf(DocumentMarkers(kids)), c)
              + CountIn(TextOf(Reused(kids, [])), c)
  {
    var groups := Document(kids, []);
    UnitsHoldTheGroups(kids, []);
    InkKeepsCount(SPACES, Join(Render(groups)), c);
    InkKeepsCount(SPACES, TextOf(GroupPieces(groups)), c);
    Balance(Has(c), kids, []);
    WeighIsCount(c, GroupPieces(groups));
    WeighIsCount(c, HiddenKids(kids));
    WeighIsCount(c, PreorderKids(kids));
    WeighIsCount(c, DocumentMarkers(kids));
    WeighIsCount(c, Reused(kids, []));
  }

  // ---- a piece stays whole in its unit ---------------------------------------------------------------

  /** The piece is more than white space. */
  predicate Solid(p: Piece) {
    Trim(SPACES, p.text) != ""
  }

  lemma {:induction false} TrimStartKeepsCore(strip: set<char>, a: string, core: string, b: string)
      returns (rest: string)
    requires core != "" && core[0] !in strip
    ensures TrimStart(strip, a + core + b) == rest + core + b
  {
    if a != "" && a[0] in strip {
      rest := TrimStartKeepsCore(strip, a[1..], core, b);
      assert (a + core + b)[1..] == a[1..] + core + b;
    } else {
      rest := a;
      assert a == "" ==> (a + core + b)[0] == core[0];
    }
  }

  lemma {:induction false} TrimEndKeepsCore(strip: set<char>, a: string, core: string, b: string)
      returns (rest: string)
    requires core != "" && core[|core| - 1] !in strip
    ensures TrimEnd(strip, a + core + b) == a + core + rest
    decreases |b|
  {
    var s := a + core + b;
    if b != "" && b[|b| - 1] in strip {
      rest := TrimEndKeepsCore(strip, a, core, b[..|b| - 1]);
      assert s[..|s| - 1] == a + core + b[..|b| - 1];
    } else {
      rest := b;
      assert b == "" ==> s[|s| - 1] == core[|core| - 1];
    }
  }

  lemma TrimKeepsCore(strip: set<char>, a: string, core: string, b: string) returns (before: string, after: string)
    requires core != "" && core[0] !in strip && core[|core| - 1] !in strip
    ensures Trim(strip, a + core + b) == before + core + after
  {
    before := TrimStartKeepsCore(strip, a, core, b);
    after := TrimEndKeepsCore(strip, before, core, b);
  }

  lemma {:induction false} TrimStartCuts(strip: set<char>, s: string) returns (a: string)
    ensures s == a + TrimStart(strip, s)
  {
    if s != "" && s[0] in strip {
      a := TrimStartCuts(strip, s[1..]);
      a := [s[0]] + a;
    } else {
      a := "";
    }
  }

  lemma TrimCuts(strip: set<char>, s: string) returns (a: string, b: string)
    ensures s == a + Trim(strip, s) + b
  {
    a := TrimStartCuts(strip, s);
    b := TrimStart(strip, s)[|Trim(strip, s)|..];
  }

  lemma PieceInText(pieces: seq<Piece>, k: nat) returns (a: string, b: string)
    requires k < |pieces|
    ensures TextOf(pieces) == a + pieces[k].text + b
  {
    TextOfAppend(pieces[..k], pieces[k..]);
    assert pieces == pieces[..k] + pieces[k..];
    assert Texts(pieces[k..])[1..] == Texts(pieces[k + 1..]);
    a, b := TextOf(pieces[..k]), TextOf(pieces[k + 1..]);
  }

  lemma PieceInGroup(pieces: seq<Piece>, k: nat) returns (before: string, after: string)
    requires k < |pieces| && Solid(pieces[k])
    ensures RenderOne(Prose(pieces)) == [before + Trim(SPACES, pieces[k].text) + after]
  {
    var a, b := PieceInText(pieces, k);
    var c, d := TrimCuts(SPACES, pieces[k].text);
    var core := Trim(SPACES, pieces[k].text);
    assert a + (c + core + d) + b == (a + c) + core + (d + b);
    before, after := TrimKeepsCore(SPACES, a + c, core, d + b);
  }

  /**
   A group with a solid piece is rendered to one unit, in its place among the units, and the text of
   the piece stands in that unit whole, save for white space at its edges.
   */
  lemma PieceInUnit(groups: seq<Group>, i: nat, k: nat) returns (before: string, after: string)
    requires i < |groups| && groups[i].Prose? && k < |groups[i].pieces| && Solid(groups[i].pieces[k])
    ensures Render(groups) ==
              Render(groups[..i]) + [before + Trim(SPACES, groups[i].pieces[k].text) + after] + Render(groups[i + 1..])
  {
    before, after := PieceInGroup(groups[i].pieces, k);
    RenderAppend(groups[..i], groups[i..]);
    assert groups == groups[..i] + groups[i..];
    assert groups[i..][1..] == groups[i + 1..];
  }

  // ---- when the text is conserved ----------------------------------------------------------------

  /** At every child with an id, the text pending so far is blank. */
  predicate Settled(kids: seq<Node>, pending: seq<Piece>) {
    kids == []
    || (if kids[0].hasId then Blank(pending) && Settled(kids[1..], pending)
        else Settled(kids[1..], pending + Inline(kids[0])))
  }

  predicate Inkless(pieces: seq<Piece>) {
    forall p: Piece | p in pieces :: !Solid(p)
  }

  /** Every piece that is more than white space is in both equally often. */
  ghost predicate SameSolid(a: seq<Piece>, b: seq<Piece>) {
    forall p: Piece | Solid(p) :: multiset(a)[p] == multiset(b)[p]
  }

  /** Every piece that is more than white space is in the groups as often as in `pieces`. */
  ghost predicate Conserved(groups: seq<Group>, pieces: seq<Piece>) {
    SameSolid(GroupPieces(groups), pieces)
  }

  /** Pieces are blank when joined exactly when each of them is blank. */
  lemma {:induction false} BlankMeansInkless(pieces: seq<Piece>)
    ensures Blank(pieces) <==> Inkless(pieces)
  {
    TrimKeepsInk(TextOf(pieces));
    if pieces != [] {
      var first, rest := pieces[0], pieces[1..];
      assert Texts(pieces)[1..] == Texts(rest);
      assert TextOf(pieces) == first.text + TextOf(rest);
      InkAppend(first.text, TextOf(rest));
      TrimKeepsInk(first.text);
      TrimKeepsInk(TextOf(rest));
      BlankMeansInkless(rest);
      InklessTail(pieces);
    }
  }

  lemma InklessTail(pieces: seq<Piece>)
    requires pieces != []
    ensures Inkless(pieces) <==> !Solid(pieces[0]) && Inkless(pieces[1..])
  {
  }

  lemma {:induction false} SettledMeansNoReuse(kids: seq<Node>, pending: seq<Piece>)
    ensures Settled(kids, pending) <==> Inkless(Reused(kids, pending))
  {
    if kids != [] {
      if kids[0].hasId {
        BlankMeansInkless(pending);
        SettledMeansNoReuse(kids[1..], pending);
        assert forall p: Piece :: p in Reused(kids, pending) <==> p in pending || p in Reused(kids[1..], pending);
      } else {
        SettledMeansNoReuse(kids[1..], pending + Inline(kids[0]));
      }
    }
  }

  /** The text of the document and the markers of its collected list items. */
  function Expected(kids: seq<Node>): seq<Piece> {
    PreorderKids(kids) + DocumentMarkers(kids)
  }

  /**
   Every prose document, whatever hides or is pending: its pieces are in the units exactly as often as
   in the document if and only if each piece that hides is used again equally often.
   */
  lemma ConservedExactly(doc: Node)
    requires AreProse(doc.kids)
    ensures Conserved(Document(doc.kids, []), Expected(doc.kids))
            <==> SameSolid(HiddenKids(doc.kids), Reused(doc.kids, []))
  {
    PiecesBalance(doc.kids);
    ExcessDecides(GroupPieces(Document(doc.kids, [])), HiddenKids(doc.kids), Expected(doc.kids), Reused(doc.kids, []));
  }

  lemma ExcessDecides(held: seq<Piece>, hidden: seq<Piece>, text: seq<Piece>, again: seq<Piece>)
    requires multiset(held) + multiset(hidden) == multiset(text) + multiset(again)
    ensures SameSolid(held, text) <==> SameSolid(hidden, again)
  {
    forall p: Piece
      ensures multiset(held)[p] + multiset(hidden)[p] == multiset(text)[p] + multiset(again)[p]
    {
      assert (multiset(held) + multiset(hidden))[p] == (multiset(text) + multiset(again))[p];
    }
  }

  lemma SameAsNothing(a: seq<Piece>, b: seq<Piece>)
    ensures Inkless(a) ==> (SameSolid(a, b) <==> Inkless(b))
    ensures Inkless(b) ==> (SameSolid(a, b) <==> Inkless(a))
  {
    forall p: Piece
      ensures p in a <==> multiset(a)[p] > 0
      ensures p in b <==> multiset(b)[p] > 0
    {
    }
  }

  /** If no text hides, pieces are conserved if and only if no text is pending when a child with an id comes. */
  lemma ConservedExactlyWhenSettled(doc: Node)
    requires AreProse(doc.kids) && Inkless(HiddenKids(doc.kids))
    ensures Conserved(Document(doc.kids, []), Expected(doc.kids)) <==> Settled(doc.kids, [])
  {
    ConservedExactly(doc);
    SettledMeansNoReuse(doc.kids, []);
    SameAsNothing(HiddenKids(doc.kids), Reused(doc.kids, []));
  }

  /** In a settled document, text is lost exactly when hidden text is more than white space. */
  lemma ConservedExactlyWhenNothingHides(doc: Node)
    requires AreProse(doc.kids) && Settled(doc.kids, [])
    ensures Conserved(Document(doc.kids, []), Expected(doc.kids)) <==> Inkless(HiddenKids(doc.kids))
  {
    ConservedExactly(doc);
    SettledMeansNoReuse(doc.kids, []);
    SameAsNothing(HiddenKids(doc.kids), Reused(doc.kids, []));
  }

  predicate AllBlocks(kids: seq<Node>) {
    forall i | 0 <= i < |kids| :: kids[i].hasId
  }

  lemma {:induction false} AllIdsAreSettled(kids: seq<Node>)
    requires AllBlocks(kids)
    ensures Settled(kids, [])
  {
    if kids != [] {
      AllIdsAreSettled(kids[1..]);
    }
  }

  /** In every collected block, no block hangs below a child without id. */
  predicate HidesNothing(kids: seq<Node>)
    decreases kids
  {
    kids == []
    || ((if kids[0].hasId then IsLeaf(kids[0].kind) || HidesNothing(kids[0].kids) else InlineOnly(kids[0]))
        && HidesNothing(kids[1..]))
  }

  lemma {:induction false} NothingIsHidden(kids: seq<Node>)
    requires HidesNothing(kids)
    ensures HiddenKids(kids) == []
    decreases kids
  {
    if kids != [] {
      NothingIsHidden(kids[1..]);
      if !kids[0].hasId {
        NothingHiddenInline(kids[0]);
      } else if !IsLeaf(kids[0].kind) {
        NothingIsHidden(kids[0].kids);
      }
    }
  }

  /**
   Prose whose top-level children all have ids: every text lands whole in the units exactly as often
   as the document has it, if and only if no text hides below a node without id.
   */
  lemma BlocksAreConserved(doc: Node)
    requires AreProse(doc.kids) && AllBlocks(doc.kids)
    ensures Conserved(Document(doc.kids, []), Expected(doc.kids)) <==> Inkless(HiddenKids(doc.kids))
  {
    AllIdsAreSettled(doc.kids);
    ConservedExactlyWhenNothingHides(doc);
  }

  /** If moreover no block hangs below a node without id, every single text lands in exactly one unit. */
  lemma EachTextOnce(doc: Node)
    requires AreProse(doc.kids) && AllBlocks(doc.kids) && HidesNothing(doc.kids)
    ensures multiset(GroupPieces(Document(doc.kids, []))) == multiset(Expected(doc.kids))
  {
    NothingIsHidden(doc.kids);
    NothingReused(doc.kids);
    PiecesBalance(doc.kids);
    NothingElse(GroupPieces(Document(doc.kids, [])), PreorderKids(doc.kids), DocumentMarkers(doc.kids), []);
  }

  lemma NothingElse(held: seq<Piece>, text: seq<Piece>, markers: seq<Piece>, none: seq<Piece>)
    requires none == [] && multiset(held) + multiset(none) == multiset(text) + multiset(markers) + multiset(none)
    ensures multiset(held) == multiset(text + markers)
  {
    forall p: Piece ensures multiset(held)[p] == (multiset(text) + multiset(markers))[p] {
      assert (multiset(held) + multiset(none))[p] == (multiset(text) + multiset(markers) + multiset(none))[p];
    }
    assert multiset(text + markers) == multiset(text) + multiset(markers);
  }

  lemma {:induction false} NothingReused(kids: seq<Node>)
    requires AllBlocks(kids)
    ensures Reused(kids, []) == []
  {
    if kids != [] {
      NothingReused(kids[1..]);
    }
  }

  const LOOSE: Node := Node(Block, false, "a", "", "", [])
  const PARAGRAPH: Node := Node(Block, true, "b", "", "", [])

  lemma SolidLetter()
    ensures Solid(Piece("a", false)) && !Blank([Piece("a", false)])
  {
  }

  /** Text that precedes the first block outside any block: it ends up in two units. */
  lemma PendingTwice()
    ensures Document([LOOSE, PARAGRAPH], []) ==
              [Prose([Piece("a", false), Piece("b", false)]), Prose([Piece("a", false)])]
    ensures !Settled([LOOSE, PARAGRAPH], [])
    ensures !Conserved(Document([LOOSE, PARAGRAPH], []), Expected([LOOSE, PARAGRAPH]))
  {
    var a, b := Piece("a", false), Piece("b", false);
    var kids := [LOOSE, PARAGRAPH];
    assert kids[1..] == [PARAGRAPH] && [PARAGRAPH][1..] == [];
    assert [] + Inline(LOOSE) == [a];
    assert [a] + Marker(PARAGRAPH) + Inline(PARAGRAPH) == [a, b];
    assert Document([PARAGRAPH], [a]) == [Prose([a, b])] + Document([], [a]);
    SolidLetter();
    NothingIsHidden(kids);
    ConservedExactlyWhenSettled(Node(Block, true, "", "", "", kids));
  }

  const BURIED: Node := Node(Block, true, "a", "", "", [])
  const WRAPPER: Node := Node(Block, false, "", "", "", [BURIED])
  const CONTAINER: Node := Node(Block, true, "", "", "", [WRAPPER])

  lemma BuriedIsHidden()
    ensures AreProse([CONTAINER]) && HiddenKids([CONTAINER]) == [Piece("a", false)]
  {
    OnlyChild(BURIED);
    OnlyChild(WRAPPER);
    OnlyChild(CONTAINER);
    assert Preorder(BURIED) == [Piece("a", false)];
  }

  lemma ContainerIsSilent()
    ensures AreProse([CONTAINER]) && AllBlocks([CONTAINER]) && DocumentInOrder([CONTAINER]) == []
  {
    OnlyChild(BURIED);
    OnlyChild(WRAPPER);
    OnlyChild(CONTAINER);
  }

  /** A block below a node without id: its text ends up in no unit. */
  lemma HiddenIsLost()
    ensures AreProse([CONTAINER]) && AllBlocks([CONTAINER])
    ensures GroupPieces(Document([CONTAINER], [])) == []
    ensures !Conserved(Document([CONTAINER], []), Expected([CONTAINER]))
  {
    ContainerIsSilent();
    TextIsCutIntoUnits([CONTAINER]);
    BuriedIsHidden();
    SolidLetter();
    HidingLoses([CONTAINER], Piece("a", false));
  }

  lemma HidingLoses(kids: seq<Node>, p: Piece)
    requires AreProse(kids) && AllBlocks(kids) && p in HiddenKids(kids) && Solid(p)
    ensures !Conserved(Document(kids, []), Expected(kids))
  {
    AllIdsAreSettled(kids);
    ConservedExactlyWhenNothingHides(Node(Block, true, "", "", "", kids));
  }

  lemma OnlyChild(node: Node)
    ensures HiddenKids([node]) == if node.hasId then Hidden(node) else HiddenInline(node)
    ensures HiddenInlineKids([node]) == if node.hasId then Preorder(node) else HiddenInline(node)
    ensures InlineKids([node]) == if node.hasId then [] else Inline(node)
    ensures BlocksInOrder([node]) == if node.hasId then BlockInOrder(node) else []
    ensures DocumentInOrder([node]) == LooseFirst(node)
    ensures AreProse([node]) <==> IsProse(node)
  {
    assert [node][1..] == [];
  }

  // ---- order -------------------------------------------------------------------------------------

  /** The order of the units: the marker and the loose text of a block, then its blocks one by one. */
  function LooseFirst(node: Node): seq<Piece>
    decreases node, 0
  {
    (if node.kind.ListItem? then [Piece(node.prefix, true)] else []) + Inline(node) + BlocksInOrder(node.kids)
  }

  function BlocksInOrder(kids: seq<Node>): seq<Piece>
    decreases kids, 2
  {
    if kids == [] then []
    else if !kids[0].hasId then BlocksInOrder(kids[1..])
    else BlockInOrder(kids[0]) + BlocksInOrder(kids[1..])
  }

  /** A block below another one. */
  function BlockInOrder(node: Node): seq<Piece>
    decreases node, 1
  {
    if InlineOnly(node) then Inline(node) else LooseFirst(node)
  }

  function DocumentInOrder(kids: seq<Node>): seq<Piece> {
    if kids == [] then [] else LooseFirst(kids[0]) + DocumentInOrder(kids[1..])
  }

  lemma AssociatePieces(a: seq<Piece>, b: seq<Piece>, c: seq<Piece>)
    ensures (a + b) + c == a + (b + c)
  {
  }

  lemma NoUnit(pieces: seq<Piece>)
    ensures [] + pieces == pieces
  {
  }

  lemma PiecesOfThree(unit: seq<Piece>, block: seq<Group>, rest: seq<Group>)
    ensures GroupPieces([Prose(unit)] + block + rest) == unit + (GroupPieces(block) + GroupPieces(rest))
  {
    GroupPiecesAppend([Prose(unit)] + block, rest);
    GroupPiecesAppend([Prose(unit)], block);
    ProsePieces(unit);
    AssociatePieces(unit, GroupPieces(block), GroupPieces(rest));
  }

  lemma {:induction false} NoBlocksInOrder(kids: seq<Node>)
    requires InlineOnlyKids(kids)
    ensures BlocksInOrder(kids) == []
  {
    if kids != [] {
      NoBlocksInOrder(kids[1..]);
    }
  }

  lemma {:induction false} CollectInOrder(node: Node)
    requires IsProse(node)
    ensures GroupPieces(Collect(node, []).0) == LooseFirst(node)
    decreases node, 1
  {
    var unit := [] + Marker(node) + Inline(node);
    assert unit == Marker(node) + Inline(node);
    if IsLeaf(node.kind) {
      GatherLoose(node.kids, unit);
      NoBlocksInOrder(node.kids);
      ProsePieces(unit);
    } else {
      GatherInOrder(node.kids, unit);
    }
  }

  lemma {:induction false} GatherInOrder(kids: seq<Node>, unit: seq<Piece>)
    requires AreProse(kids)
    ensures GroupPieces(Gather(kids, unit)) == unit + BlocksInOrder(kids)
    decreases kids, 0
  {
    if kids == [] {
      ProsePieces(unit);
    } else {
      var kid, rest := kids[0], kids[1..];
      if !kid.hasId {
        GatherInOrder(rest, unit);
      } else if InlineOnly(kid) {
        GatherInOrder(rest, unit + Inline(kid));
        AssociatePieces(unit, Inline(kid), BlocksInOrder(rest));
      } else {
        CollectInOrder(kid);
        GatherInOrder(rest, []);
        NoUnit(BlocksInOrder(rest));
        PiecesOfThree(unit, Collect(kid, []).0, Gather(rest, []));
      }
    }
  }

  /**
   Prose whose top-level children all have ids, in order: the units cut the text into consecutive
   pieces, where in each block the loose text comes before the blocks below it.
   */
  lemma {:induction false} TextIsCutIntoUnits(kids: seq<Node>)
    requires AreProse(kids) && AllBlocks(kids)
    ensures GroupPieces(Document(kids, [])) == DocumentInOrder(kids)
  {
    if kids == [] {
      ProsePieces([]);
    } else {
      CollectInOrder(kids[0]);
      TextIsCutIntoUnits(kids[1..]);
      GroupPiecesAppend(Collect(kids[0], []).0, Document(kids[1..], []));
    }
  }

  /** Some child without id comes after a block, in this block or in one below it. */
  predicate Reorders(node: Node)
    decreases node
  {
    !IsLeaf(node.kind) && KidsReorder(node.kids)
  }

  /** A child without id follows a block, or hides one, or a block below reorders. */
  predicate KidsReorder(kids: seq<Node>)
    decreases kids
  {
    kids != []
    && (KidsReorder(kids[1..])
        || (if kids[0].hasId then Reorders(kids[0]) || !AllBlocks(kids[1..]) else !InlineOnly(kids[0])))
  }

  lemma {:induction false} InlineIsPreorder(node: Node)
    requires InlineOnly(node)
    ensures Inline(node) == Preorder(node)
    decreases node
  {
    if !IsLeaf(node.kind) {
      InlineKidsArePreorder(node.kids);
    }
  }

  lemma {:induction false} InlineKidsArePreorder(kids: seq<Node>)
    requires InlineOnlyKids(kids)
    ensures InlineKids(kids) == PreorderKids(kids)
    decreases kids
  {
    if kids != [] {
      InlineIsPreorder(kids[0]);
      InlineKidsArePreorder(kids[1..]);
    }
  }

  lemma {:induction false} BlocksGiveNoLoose(kids: seq<Node>)
    requires AllBlocks(kids)
    ensures InlineKids(kids) == []
  {
    if kids != [] {
      BlocksGiveNoLoose(kids[1..]);
    }
  }

  /** The pieces without list markers. */
  function Words(pieces: seq<Piece>): seq<Piece> {
    if pieces == [] then [] else (if pieces[0].added then [] else [pieces[0]]) + Words(pieces[1..])
  }

  lemma {:induction false} WordsAppend(a: seq<Piece>, b: seq<Piece>)
    ensures Words(a + b) == Words(a) + Words(b)
  {
    if a == [] {
      assert a + b == b;
    } else {
      assert (a + b)[1..] == a[1..] + b;
      WordsAppend(a[1..], b);
    }
  }

  lemma {:induction false} NoMarkers(node: Node)
    ensures Words(Inline(node)) == Inline(node)
    decreases node
  {
    if !IsLeaf(node.kind) {
      NoMarkersKids(node.kids);
      WordsAppend(Own(node), InlineKids(node.kids));
    }
  }

  lemma {:induction false} NoMarkersKids(kids: seq<Node>)
    ensures Words(InlineKids(kids)) == InlineKids(kids)
    decreases kids
  {
    if kids != [] {
      NoMarkers(kids[0]);
      NoMarkersKids(kids[1..]);
      WordsAppend(if kids[0].hasId then [] else Inline(kids[0]), InlineKids(kids[1..]));
    }
  }

  lemma UnitWords(node: Node, below: seq<Piece>)
    ensures Words(Marker(node) + Inline(node) + below) == Inline(node) + Words(below)
  {
    WordsAppend(Marker(node) + Inline(node), below);
    WordsAppend(Marker(node), Inline(node));
    NoMarkers(node);
    assert Marker(node) != [] ==> Marker(node)[1..] == [];
  }

  lemma {:induction false} LooseFirstIsPreorder(node: Node)
    requires IsProse(node) && !Reorders(node)
    ensures Words(LooseFirst(node)) == Preorder(node)
    decreases node, 0
  {
    UnitWords(node, BlocksInOrder(node.kids));
    if IsLeaf(node.kind) {
      NoBlocksInOrder(node.kids);
    } else {
      KidsInOrder(node.kids);
      AssociatePieces(Own(node), InlineKids(node.kids), Words(BlocksInOrder(node.kids)));
    }
  }

  lemma {:induction false} KidsInOrder(kids: seq<Node>)
    requires AreProse(kids) && !KidsReorder(kids)
    ensures InlineKids(kids) + Words(BlocksInOrder(kids)) == PreorderKids(kids)
    decreases kids, 2
  {
    if kids != [] {
      var kid, rest := kids[0], kids[1..];
      KidsInOrder(rest);
      if kid.hasId {
        BlocksGiveNoLoose(rest);
        NoUnit(Words(BlocksInOrder(rest)));
        NoUnit(Words(BlocksInOrder(kids)));
        BlockIsPreorder(kid);
        WordsAppend(BlockInOrder(kid), BlocksInOrder(rest));
      } else {
        InlineIsPreorder(kid);
        AssociatePieces(Inline(kid), InlineKids(rest), Words(BlocksInOrder(rest)));
      }
    }
  }

  lemma {:induction false} BlockIsPreorder(node: Node)
    requires IsProse(node) && !Reorders(node)
    ensures Words(BlockInOrder(node)) == Preorder(node)
    decreases node, 1
  {
    if InlineOnly(node) {
      InlineIsPreorder(node);
      NoMarkers(node);
    } else {
      LooseFirstIsPreorder(node);
    }
  }

  /** Where loose children come first, the units cut the text of the document into consecutive pieces. */
  lemma {:induction false} OrderlyTextIsCutIntoUnits(kids: seq<Node>)
    requires AreProse(kids) && AllBlocks(kids) && !KidsReorder(kids)
    ensures Words(GroupPieces(Document(kids, []))) == PreorderKids(kids)
    decreases |kids|
  {
    TextIsCutIntoUnits(kids);
    if kids != [] {
      LooseFirstIsPreorder(kids[0]);
      OrderlyTextIsCutIntoUnits(kids[1..]);
      TextIsCutIntoUnits(kids[1..]);
      WordsAppend(LooseFirst(kids[0]), DocumentInOrder(kids[1..]));
    }
  }

  // ---- headings, code blocks and table rows ----------------------------------------------------

  function Wholes(groups: seq<Group>): seq<string> {
    if groups == [] then []
    else (if groups[0].Whole? then [groups[0].text] else []) + Wholes(groups[1..])
  }

  lemma {:induction false} WholesAppend(a: seq<Group>, b: seq<Group>)
    ensures Wholes(a + b) == Wholes(a) + Wholes(b)
  {
    if a == [] {
      assert a + b == b;
    } else {
      assert (a + b)[1..] == a[1..] + b;
      WholesAppend(a[1..], b);
    }
  }

  predicate IsRendered(kind: Kind) {
    kind.Heading? || kind.CodeBlock? || kind.TableRow?
  }

  /** What headings, code blocks and table rows render to, from a collected block downwards. */
  function RenderedIn(node: Node): seq<string>
    decreases node
  {
    (if IsRendered(node.kind) && node.rendered != "" then [node.rendered] else [])
    + (if node.kind.CodeBlock? then [] else RenderedBelow(node.kids))
  }

  function RenderedBelow(kids: seq<Node>): seq<string>
    decreases kids
  {
    if kids == [] then []
    else (if kids[0].hasId && !InlineOnly(kids[0]) then RenderedIn(kids[0]) else []) + RenderedBelow(kids[1..])
  }

  function RenderedBlocks(kids: seq<Node>): seq<string> {
    if kids == [] then [] else (if kids[0].hasId then RenderedIn(kids[0]) else []) + RenderedBlocks(kids[1..])
  }

  lemma WholesOfRendered(text: string, pending: seq<Piece>, nested: seq<Group>)
    ensures Wholes(Rendered(text, pending, nested).0) == (if text != "" then [text] else []) + Wholes(nested)
  {
    if text != "" {
      WholesAppend([Whole(text)], nested);
      WholesAppend([Prose(pending), Whole(text)], nested);
      assert [Prose(pending), Whole(text)][1..] == [Whole(text)] && [Whole(text)][1..] == [];
    }
  }

  lemma WholesOfThree(unit: seq<Piece>, block: seq<Group>, rest: seq<Group>)
    ensures Wholes([Prose(unit)] + block + rest) == Wholes(block) + Wholes(rest)
  {
    WholesAppend([Prose(unit)] + block, rest);
    WholesAppend([Prose(unit)], block);
  }

  lemma {:induction false} CollectedWholes(node: Node, pending: seq<Piece>)
    ensures Wholes(Collect(node, pending).0) == RenderedIn(node)
    decreases node, 1
  {
    if node.kind.CodeBlock? {
      WholesOfRendered(node.rendered, pending, []);
    } else if IsRendered(node.kind) {
      WholesOfRendered(node.rendered, pending, Nested(node.kids));
      NestedWholes(node.kids);
    } else {
      GatheredWholes(node.kids, pending + Marker(node) + Inline(node));
    }
  }

  lemma {:induction false} NestedWholes(kids: seq<Node>)
    ensures Wholes(Nested(kids)) == RenderedBelow(kids)
    decreases kids, 0
  {
    if kids != [] {
      NestedWholes(kids[1..]);
      if kids[0].hasId && !InlineOnly(kids[0]) {
        CollectedWholes(kids[0], []);
        WholesAppend(Collect(kids[0], []).0, Nested(kids[1..]));
      }
    }
  }

  lemma {:induction false} GatheredWholes(kids: seq<Node>, unit: seq<Piece>)
    ensures Wholes(Gather(kids, unit)) == RenderedBelow(kids)
    decreases kids, 0
  {
    if kids != [] {
      var kid, rest := kids[0], kids[1..];
      if !kid.hasId {
        GatheredWholes(rest, unit);
      } else if InlineOnly(kid) {
        GatheredWholes(rest, unit + Inline(kid));
      } else {
        GatheredWholes(rest, []);
        CollectedWholes(kid, []);
        WholesOfThree(unit, Collect(kid, []).0, Gather(rest, []));
      }
    }
  }

  /** In every document, each collected heading, code block and table row is a unit of its own, in order. */
  lemma {:induction false} RenderedBlocksInOrder(kids: seq<Node>, pending: seq<Piece>)
    ensures Wholes(Document(kids, pending)) == RenderedBlocks(kids)
    decreases |kids|
  {
    if kids != [] {
      if kids[0].hasId {
        CollectedWholes(kids[0], pending);
        RenderedBlocksInOrder(kids[1..], Collect(kids[0], pending).1);
        WholesAppend(Collect(kids[0], pending).0, Document(kids[1..], Collect(kids[0], pending).1));
      } else {
        RenderedBlocksInOrder(kids[1..], pending + Inline(kids[0]));
      }
    }
  }

  lemma {:induction false} LooseGoesPending(loose: seq<Node>, rest: seq<Node>, pending: seq<Piece>)
    requires forall i | 0 <= i < |loose| :: !loose[i].hasId
    ensures Document(loose + rest, pending) == Document(rest, pending + InlineKids(loose))
    decreases |loose|
  {
    if loose == [] {
      assert loose + rest == rest && pending + InlineKids(loose) == pending;
    } else {
      assert (loose + rest)[1..] == loose[1..] + rest;
      LooseGoesPending(loose[1..], rest, pending + Inline(loose[0]));
      assert pending + Inline(loose[0]) + InlineKids(loose[1..]) == pending + InlineKids(loose);
    }
  }

  /**
   Text before a rendered block at the top comes before it and is used up; blank text stays pending,
   and so does all text before a block that renders to nothing.
   */
  lemma LooseTextBeforeRendered(loose: seq<Node>, block: Node, rest: seq<Node>)
    requires forall i | 0 <= i < |loose| :: !loose[i].hasId
    requires block.hasId && IsRendered(block.kind)
    ensures var text, nested := InlineKids(loose), if block.kind.CodeBlock? then [] else Nested(block.kids);
            Document(loose + ([block] + rest), []) ==
              if block.rendered == "" then nested + Document(rest, text)
              else if Ink(TextOf(text)) == "" then [Whole(block.rendered)] + nested + Document(rest, text)
              else [Prose(text), Whole(block.rendered)] + nested + Document(rest, [])
  {
    var text := InlineKids(loose);
    LooseGoesPending(loose, [block] + rest, []);
    NoUnit(text);
    TrimKeepsInk(TextOf(text));
    assert ([block] + rest)[0] == block && ([block] + rest)[1..] == rest;
  }

  /** Units are set apart by one blank line, wherever the list is cut. */
  lemma {:induction false} SeparatedByBlankLines(a: seq<string>, b: seq<string>)
    requires a != [] && b != []
    ensures Separated(a + b) == Separated(a) + "\n\n" + Separated(b)
    decreases |b|
  {
    var n := |b| - 1;
    var front, last := b[..n], b[n];
    assert b == front + [last];
    SeparatedAppend(a + front, last);
    assert a + b == (a + front) + [last];
    if front == [] {
      assert a + front == a && b == [last];
    } else {
      SeparatedByBlankLines(a, front);
      SeparatedAppend(front, last);
      ThreeParts(Separated(a), "\n\n", Separated(front), last);
    }
  }

  lemma ThreeParts(a: string, gap: string, b: string, c: string)
    ensures a + gap + b + gap + c == a + gap + (b + gap + c)
  {
  }
}
