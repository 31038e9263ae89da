/**
 How a SiYuan document is flattened into text units. The loops over the syntax tree push
 text into buffers; `Collect` says which pieces of text end up in which unit.
 */
module SiyuanUnits {
  import opened Text

  datatype Kind = SoftBreak | HardBreak | Image | Heading | CodeBlock | TableRow | ListItem | Block

  /**
   `own` is the node's own text, `rendered` what an image, heading, code block or table row is
   rendered to, `prefix` the marker of a list item. A node with an id is a structural block.
   */
  datatype Node = Node(kind: Kind, hasId: bool, own: string, rendered: string, prefix: string, kids: seq<Node>)

  /** The characters that JavaScript's `trim` removes. */
  const SPACES: set<char> := {' ', '\t', '\n', '\r', '\U{B}', '\U{C}', '\U{A0}', '\U{1680}', '\U{2000}', '\U{2001}',
                              '\U{2002}', '\U{2003}', '\U{2004}', '\U{2005}', '\U{2006}', '\U{2007}', '\U{2008}',
                              '\U{2009}', '\U{200A}', '\U{2028}', '\U{2029}', '\U{202F}', '\U{205F}', '\U{3000}',
                               '\U{FEFF}'}

  /** A piece of text; `added` tells a list marker from text of the document. */
  datatype Piece = Piece(text: string, added: bool)

  /** A unit before it is rendered: pieces to be joined and trimmed, or a rendered block. */
  datatype Group = Prose(pieces: seq<Piece>) | Whole(text: string)

  function Join(parts: seq<string>): string {
    if parts == [] then "" else parts[0] + Join(parts[1..])
  }

  function Texts(pieces: seq<Piece>): seq<string> {
    seq(|pieces|, i requires 0 <= i < |pieces| => pieces[i].text)
  }

  function TextOf(pieces: seq<Piece>): string {
    Join(Texts(pieces))
  }

  // ---- which pieces go where ---------------------------------------------------------------

  /** `inlineInto`: the node's own text and that of its descendants through nodes without id. */
  function Inline(node: Node): seq<Piece>
    decreases node
  {
    match node.kind
    case SoftBreak => [Piece("\n", false)]
    case HardBreak => [Piece("  \n", false)]
    case Image => [Piece(node.rendered, false)]
    case _ => Own(node) + InlineKids(node.kids)
  }

  function Own(node: Node): seq<Piece> {
    if node.own != "" then [Piece(node.own, false)] else []
  }

  function InlineKids(kids: seq<Node>): seq<Piece>
    decreases kids
  {
    if kids == [] then [] else (if kids[0].hasId then [] else Inline(kids[0])) + InlineKids(kids[1..])
  }

  /** `subtreeInline`: no descendant has an id. */
  predicate InlineOnly(node: Node)
    decreases node
  {
    InlineOnlyKids(node.kids)
  }

  predicate InlineOnlyKids(kids: seq<Node>)
    decreases kids
  {
    kids == [] || (!kids[0].hasId && InlineOnly(kids[0]) && InlineOnlyKids(kids[1..]))
  }

  predicate Blank(pieces: seq<Piece>) {
    Trim(SPACES, TextOf(pieces)) == ""
  }

  /** The groups of a block, and what remains pending. */
  function Collect(node: Node, pending: seq<Piece>): (seq<Group>, seq<Piece>)
    decreases node
  {
    if node.kind.CodeBlock? then Rendered(node.rendered, pending, [])
    else if node.kind.Heading? || node.kind.TableRow? then Rendered(node.rendered, pending, Nested(node.kids))
    else (Gather(node.kids, pending + Marker(node) + Inline(node)), pending)
  }

  function Marker(node: Node): seq<Piece> {
    if node.kind.ListItem? then [Piece(node.prefix, true)] else []
  }

  /** A rendered block: text that is pending goes out before it, unless nothing is rendered. */
  function Rendered(text: string, pending: seq<Piece>, nested: seq<Group>): (seq<Group>, seq<Piece>) {
    if text == "" then (nested, pending)
    else if Blank(pending) then ([Whole(text)] + nested, pending)
    else ([Prose(pending), Whole(text)] + nested, [])
  }

  /** The children with ids that are more than inline text, each on its own. */
  function Nested(kids: seq<Node>): seq<Group>
    decreases kids
  {
    if kids == [] then []
    else if kids[0].hasId && !InlineOnly(kids[0]) then Collect(kids[0], []).0 + Nested(kids[1..])
    else Nested(kids[1..])
  }

  /** Inline blocks join the unit at hand; any other block ends it and starts a new one after itself. */
  function Gather(kids: seq<Node>, unit: seq<Piece>): seq<Group>
    decreases kids
  {
    if kids == [] then [Prose(unit)]
    else if !kids[0].hasId then Gather(kids[1..], unit)
    else if InlineOnly(kids[0]) then Gather(kids[1..], unit + Inline(kids[0]))
    else [Prose(unit)] + Collect(kids[0], []).0 + Gather(kids[1..], [])
  }

  /** The groups of a whole document, given its remaining children. */
  function Document(kids: seq<Node>, pending: seq<Piece>): seq<Group>
    decreases kids
  {
    if kids == [] then [Prose(pending)]
    else if !kids[0].hasId then Document(kids[1..], pending + Inline(kids[0]))
    else Collect(kids[0], pending).0 + Document(kids[1..], Collect(kids[0], pending).1)
  }

  function Render(groups: seq<Group>): seq<string> {
    if groups == [] then [] else RenderOne(groups[0]) + Render(groups[1..])
  }

  function RenderOne(group: Group): seq<string> {
    match group
    case Whole(text) => [text]
    case Prose(pieces) => if Blank(pieces) then [] else [Trim(SPACES, TextOf(pieces))]
  }

  function Separated(units: seq<string>): string {
    if units == [] then ""
    else if |units| == 1 then units[0]
    else units[0] + "\n\n" + Separated(units[1..])
  }

  // ---- the loops of the program --------------------------------------------------------------

  /** A JavaScript array of strings. */
  class Buffer {
    var parts: seq<string>

    constructor (parts: seq<string>)
      ensures this.parts == parts
    {
      this.parts := parts;
    }

    method Push(text: string)
      modifies this
      ensures parts == old(parts) + [text]
    {
      parts := parts + [text];
    }
  }

  lemma TextsAppend(a: seq<Piece>, b: seq<Piece>)
    ensures Texts(a + b) == Texts(a) + Texts(b)
  {
  }

  method InlineInto(node: Node, buf: Buffer)
    modifies buf
    ensures buf.parts == old(buf.parts) + Texts(Inline(node))
    decreases node
  {
    if node.kind.SoftBreak? {
      buf.Push("\n");
      return;
    }
    if node.kind.HardBreak? {
      buf.Push("  \n");
      return;
    }
    if node.kind.Image? {
      buf.Push(node.rendered);
      return;
    }
    if node.own != "" {
      buf.Push(node.own);
    }
    assert buf.parts == old(buf.parts) + Texts(Own(node));
    InlineKidsInto(node.kids, buf);
    TextsAppend(Own(node), InlineKids(node.kids));
  }

  /** The loop over the children that have no id. */
  method InlineKidsInto(kids: seq<Node>, buf: Buffer)
    modifies buf
    ensures buf.parts == old(buf.parts) + Texts(InlineKids(kids))
    decreases kids
  {
    for i := 0 to |kids|
      invariant buf.parts + Texts(InlineKids(kids[i..])) == old(buf.parts) + Texts(InlineKids(kids))
    {
      assert kids[i..][0] == kids[i] && kids[i..][1..] == kids[i + 1..];
      if !kids[i].hasId {
        TextsAppend(Inline(kids[i]), InlineKids(kids[i + 1..]));
        InlineInto(kids[i], buf);
      }
    }
  }

  method SubtreeInline(node: Node) returns (inlineOnly: bool)
    ensures inlineOnly <==> InlineOnly(node)
    decreases node
  {
    for i := 0 to |node.kids|
      invariant InlineOnlyKids(node.kids[i..]) <==> InlineOnly(node)
    {
      assert node.kids[i..][1..] == node.kids[i + 1..];
      if node.kids[i].hasId {
        return false;
      }
      var below := SubtreeInline(node.kids[i]);
      if !below {
        return false;
      }
    }
    return true;
  }

  lemma {:induction false} JoinAppend(a: seq<string>, b: seq<string>)
    ensures Join(a + b) == Join(a) + Join(b)
  {
    if a == [] {
      assert a + b == b;
    } else {
      assert (a + b)[1..] == a[1..] + b;
      JoinAppend(a[1..], b);
    }
  }

  lemma TextOfAppend(a: seq<Piece>, b: seq<Piece>)
    ensures TextOf(a + b) == TextOf(a) + TextOf(b)
  {
    TextsAppend(a, b);
    JoinAppend(Texts(a), Texts(b));
  }

  lemma {:induction false} RenderAppend(a: seq<Group>, b: seq<Group>)
    ensures Render(a + b) == Render(a) + Render(b)
  {
    if a == [] {
      assert a + b == b;
    } else {
      assert (a + b)[1..] == a[1..] + b;
      RenderAppend(a[1..], b);
    }
  }

  lemma Associate(a: seq<string>, b: seq<string>, c: seq<string>)
    ensures (a + b) + c == a + (b + c)
  {
  }

  lemma RenderSingle(group: Group)
    ensures Render([group]) == RenderOne(group)
  {
  }

  /** `join`, `trim`, and push if something is left. */
  method EmitProse(buf: Buffer, out: Buffer, ghost pieces: seq<Piece>) returns (emitted: bool)
    requires buf != out && Join(buf.parts) == TextOf(pieces)
    modifies out
    ensures out.parts == old(out.parts) + RenderOne(Prose(pieces)) && (emitted <==> !Blank(pieces))
  {
    var text := Trim(SPACES, Join(buf.parts));
    emitted := text != "";
    if emitted {
      out.Push(text);
    }
  }

  /** The first part of the branches for headings, code blocks and table rows. */
  method EmitRendered(text: string, pending: Buffer, out: Buffer, ghost held: seq<Piece>)
    requires pending != out && pending.parts == Texts(held)
    modifies pending, out
    ensures pending.parts == Texts(Rendered(text, held, []).1)
    ensures out.parts == old(out.parts) + Render(Rendered(text, held, []).0)
  {
    RenderSingle(Whole(text));
    if text != "" {
      RenderAppend([Prose(held)], [Whole(text)]);
      RenderSingle(Prose(held));
      assert [Prose(held), Whole(text)] == [Prose(held)] + [Whole(text)];
      var emitted := EmitProse(pending, out, held);
      if emitted {
        pending.parts := [];
      }
      out.Push(text);
    }
  }

  lemma RenderedThenNested(text: string, held: seq<Piece>, nested: seq<Group>)
    ensures Render(Rendered(text, held, nested).0) == Render(Rendered(text, held, []).0) + Render(nested)
    ensures Rendered(text, held, nested).1 == Rendered(text, held, []).1
  {
    RenderAppend(Rendered(text, held, []).0, nested);
  }

  /** `collectUnits`; `held` are the pieces that `pending` holds. */
  method CollectUnits(node: Node, out: Buffer, pending: Buffer, ghost held: seq<Piece>)
    requires pending != out && pending.parts == Texts(held)
    modifies out, pending
    ensures out.parts == old(out.parts) + Render(Collect(node, held).0)
    ensures pending.parts == Texts(Collect(node, held).1)
    decreases node, 1
  {
    if node.kind.CodeBlock? {
      EmitRendered(node.rendered, pending, out, held);
    } else if node.kind.Heading? || node.kind.TableRow? {
      CollectRendered(node, out, pending, held);
    } else {
      CollectProse(node, out, pending, held);
    }
  }

  /** The branches for headings and table rows. */
  method CollectRendered(node: Node, out: Buffer, pending: Buffer, ghost held: seq<Piece>)
    requires pending != out && pending.parts == Texts(held)
    modifies out, pending
    ensures out.parts == old(out.parts) + Render(Rendered(node.rendered, held, Nested(node.kids)).0)
    ensures pending.parts == Texts(Rendered(node.rendered, held, Nested(node.kids)).1)
    decreases node, 0
  {
    ghost var before, first, nested := out.parts, Render(Rendered(node.rendered, held, []).0), Nested(node.kids);
    EmitRendered(node.rendered, pending, out, held);
    CollectNested(node.kids, out);
    RenderedThenNested(node.rendered, held, nested);
    Associate(before, first, Render(nested));
  }

  /** The branch for all other blocks. */
  method CollectProse(node: Node, out: Buffer, pending: Buffer, ghost held: seq<Piece>)
    requires pending != out && pending.parts == Texts(held)
    modifies out
    ensures out.parts == old(out.parts) + Render(Gather(node.kids, held + Marker(node) + Inline(node)))
    decreases node, 0
  {
    var buf := StartUnit(node, pending, held);
    GatherUnits(node.kids, buf, out, held + Marker(node) + Inline(node));
  }

  /** The pending text, the list marker and the inline text of the block. */
  method StartUnit(node: Node, pending: Buffer, ghost held: seq<Piece>) returns (buf: Buffer)
    requires pending.parts == Texts(held)
    ensures fresh(buf) && Join(buf.parts) == TextOf(held + Marker(node) + Inline(node))
  {
    buf := new Buffer([Join(pending.parts)]);
    assert buf.parts[1..] == [];
    PartsGrow(buf.parts, held, Marker(node));
    if node.kind.ListItem? {
      buf.Push(node.prefix);
    }
    assert buf.parts == [Join(pending.parts)] + Texts(Marker(node));
    PartsGrow(buf.parts, held + Marker(node), Inline(node));
    InlineInto(node, buf);
  }

  lemma PartsGrow(parts: seq<string>, unit: seq<Piece>, more: seq<Piece>)
    requires Join(parts) == TextOf(unit)
    ensures Join(parts + Texts(more)) == TextOf(unit + more)
    ensures Join(parts + [TextOf(more)]) == TextOf(unit + more)
  {
    TextOfAppend(unit, more);
    JoinAppend(parts, Texts(more));
    JoinAppend(parts, [TextOf(more)]);
    assert [TextOf(more)][1..] == [];
  }

  lemma RenderGather(first: Group, block: seq<Group>, rest: seq<Group>)
    ensures Render([first] + block + rest) == RenderOne(first) + Render(block) + Render(rest)
  {
    RenderAppend([first] + block, rest);
    RenderAppend([first], block);
    RenderSingle(first);
  }

  /** Collect a block with nothing pending. */
  method CollectAlone(node: Node, out: Buffer)
    modifies out
    ensures out.parts == old(out.parts) + Render(Collect(node, []).0)
    decreases node, 2
  {
    var none := new Buffer([]);
    CollectUnits(node, out, none, []);
  }

  /** A block that is more than inline text ends the unit before it. */
  method EmitAndCollect(node: Node, buf: Buffer, out: Buffer, ghost unit: seq<Piece>)
    requires buf != out && Join(buf.parts) == TextOf(unit)
    modifies out
    ensures out.parts == old(out.parts) + (RenderOne(Prose(unit)) + Render(Collect(node, []).0))
    decreases node, 3
  {
    ghost var before, prose, block := out.parts, RenderOne(Prose(unit)), Render(Collect(node, []).0);
    var emitted := EmitProse(buf, out, unit);
    CollectAlone(node, out);
    Associate(before, prose, block);
  }

  method PushInline(node: Node, buf: Buffer, ghost unit: seq<Piece>)
    requires Join(buf.parts) == TextOf(unit)
    modifies buf
    ensures Join(buf.parts) == TextOf(unit + Inline(node))
  {
    var piece := new Buffer([]);
    InlineInto(node, piece);
    PartsGrow(buf.parts, unit, Inline(node));
    assert piece.parts == Texts(Inline(node));
    buf.Push(Join(piece.parts));
  }

  /** The loop over the structural children; `unit` are the pieces that `start` holds. */
  method GatherUnits(kids: seq<Node>, start: Buffer, out: Buffer, ghost unit: seq<Piece>)
    requires start != out && Join(start.parts) == TextOf(unit)
    modifies start, out
    ensures out.parts == old(out.parts) + Render(Gather(kids, unit))
    decreases kids, 0
  {
    var buf := start;
    ghost var pieces, before := unit, out.parts;
    for j := 0 to |kids|
      invariant buf != out && (buf == start || fresh(buf))
      invariant Join(buf.parts) == TextOf(pieces)
      invariant out.parts + Render(Gather(kids[j..], pieces)) == before + Render(Gather(kids, unit))
    {
      ghost var rest := kids[j + 1..];
      assert kids[j..][0] == kids[j] && kids[j..][1..] == rest;
      if kids[j].hasId {
        var inlineOnly := SubtreeInline(kids[j]);
        if inlineOnly {
          PushInline(kids[j], buf, pieces);
          pieces := pieces + Inline(kids[j]);
        } else {
          RenderGather(Prose(pieces), Collect(kids[j], []).0, Gather(rest, []));
          EmitAndCollect(kids[j], buf, out, pieces);
          buf := new Buffer([]);
          pieces := [];
        }
      }
    }
    assert kids[|kids|..] == [];
    RenderSingle(Prose(pieces));
    var emitted := EmitProse(buf, out, pieces);
  }

  /** The loop over the structural children of a heading or a table row. */
  method CollectNested(kids: seq<Node>, out: Buffer)
    modifies out
    ensures out.parts == old(out.parts) + Render(Nested(kids))
    decreases kids, 0
  {
    for i := 0 to |kids|
      invariant out.parts + Render(Nested(kids[i..])) == old(out.parts) + Render(Nested(kids))
    {
      assert kids[i..][0] == kids[i] && kids[i..][1..] == kids[i + 1..];
      if kids[i].hasId {
        var inlineOnly := SubtreeInline(kids[i]);
        if !inlineOnly {
          RenderAppend(Collect(kids[i], []).0, Nested(kids[i + 1..]));
          CollectAlone(kids[i], out);
        }
      }
    }
  }

  /** The loop of `docMarkdown`: the units of the document. */
  method DocumentUnits(doc: Node) returns (units: seq<string>)
    ensures units == Render(Document(doc.kids, []))
  {
    var out := new Buffer([]);
    var pending := new Buffer([]);
    ghost var held: seq<Piece> := [];
    for i := 0 to |doc.kids|
      invariant pending.parts == Texts(held)
      invariant out.parts + Render(Document(doc.kids[i..], held)) == Render(Document(doc.kids, []))
    {
      var kid := doc.kids[i];
      assert doc.kids[i..][0] == kid && doc.kids[i..][1..] == doc.kids[i + 1..];
      if !kid.hasId {
        InlineInto(kid, pending);
        TextsAppend(held, Inline(kid));
        held := held + Inline(kid);
      } else {
        RenderAppend(Collect(kid, held).0, Document(doc.kids[i + 1..], Collect(kid, held).1));
        CollectUnits(kid, out, pending, held);
        held := Collect(kid, held).1;
      }
    }
    RenderSingle(Prose(held));
    var emitted := EmitProse(pending, out, held);
    units := out.parts;
  }

  /** `docMarkdown` */
  method DocMarkdown(doc: Node) returns (markdown: string)
    ensures markdown == Separated(Render(Document(doc.kids, [])))
  {
    var units := DocumentUnits(doc);
    markdown := "";
    for i := 0 to |units|
      invariant markdown == Separated(units[..i])
    {
      SeparatedAppend(units[..i], units[i]);
      assert units[..i] + [units[i]] == units[..i + 1];
      if i > 0 {
        markdown := markdown + "\n\n";
      }
      markdown := markdown + units[i];
    }
    assert units[..|units|] == units;
  }

  lemma {:induction false} SeparatedAppend(units: seq<string>, unit: string)
    ensures Separated(units + [unit]) == if units == [] then unit else Separated(units) + "\n\n" + unit
  {
    if |units| > 1 {
      var first, rest := units[0] + "\n\n", Separated(units[1..]);
      assert (units + [unit])[1..] == units[1..] + [unit];
      SeparatedAppend(units[1..], unit);
      assert first + (rest + "\n\n" + unit) == first + rest + "\n\n" + unit;
    } else if |units| == 1 {
      assert (units + [unit])[1..] == [unit];
    }
  }
}
