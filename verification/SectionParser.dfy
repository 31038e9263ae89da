/** The sections of an inbound chat message: tags framed by lines of dashes, each with a body. */
module SectionParser {
  import opened Wrappers
  import Text

  const DASHES := "----------------"

  /** The characters that Rust's `trim` removes. */
  const SPACES: set<char> := {' ', '\t', '\n', '\r', '\U{B}', '\U{C}', '\U{85}', '\U{A0}', '\U{1680}', '\U{2000}',
                              '\U{2001}', '\U{2002}', '\U{2003}', '\U{2004}', '\U{2005}', '\U{2006}', '\U{2007}',
                              '\U{2008}', '\U{2009}', '\U{200A}', '\U{2028}', '\U{2029}', '\U{202F}', '\U{205F}',
                              '\U{3000}'}

  function Trim(s: string): string {
    Text.Trim(SPACES, s)
  }

  predicate IsDashes(line: string) {
    Trim(line) == DASHES
  }

  datatype Kind = Message | Suppressed | Other

  function KindOf(tag: string): Kind {
    if tag in {"user_message", "ai___message"} then Message
    else if tag in {"tool_calling", "tool___result", "ai_reasoning", "error______", "plan________", "ask_user____"}
      then Suppressed
    else Other
  }

  datatype Section = Section(tag: string, body: string)

  /** `parse_section_tag` */
  function ParseTag(raw: string): Option<string> {
    var line := Trim(raw);
    if "|[" <= line then
      var rest := line[2..];
      if |rest| >= 2 && rest[|rest| - 2..] == "]|" && |rest| > 2 then Some(rest[..|rest| - 2]) else None
    else None
  }

  /** Texts separated by line breaks. */
  function Joined(texts: seq<string>): string {
    if texts == [] then "" else if |texts| == 1 then texts[0] else texts[0] + "\n" + Joined(texts[1..])
  }

  /** The number of lines before the next line of dashes. */
  function BodyLength(lines: seq<string>): (n: nat)
    ensures n <= |lines|
  {
    if lines == [] || IsDashes(lines[0]) then 0 else 1 + BodyLength(lines[1..])
  }

  function NonEmpty(tag: string, body: string): seq<Section> {
    if body == "" then [] else [Section(tag, body)]
  }

  /** The sections with a body, from the first line on. */
  function Sections(lines: seq<string>): seq<Section>
    decreases |lines|
  {
    if lines == [] then []
    else if !IsDashes(lines[0]) then Sections(lines[1..])
    else if |lines| < 3 then []
    else if !IsDashes(lines[2]) || ParseTag(Trim(lines[1])).None? then Sections(lines[1..])
    else
      var n := BodyLength(lines[3..]);
      NonEmpty(ParseTag(Trim(lines[1])).value, Trim(Joined(lines[3..3 + n]))) + Sections(lines[3 + n..])
  }

  /** The bodies of the sections of one kind. */
  function Bodies(sections: seq<Section>, k: Kind, kind: string -> Kind): seq<string> {
    if sections == [] then []
    else (if kind(sections[0].tag) == k then [sections[0].body] else []) + Bodies(sections[1..], k, kind)
  }

  /** The message sections if there are any, else the other ones that are not suppressed. */
  function Chosen(sections: seq<Section>, kind: string -> Kind): Option<string> {
    var preferred, fallback := Bodies(sections, Message, kind), Bodies(sections, Other, kind);
    if preferred != [] then Some(Joined(preferred))
    else if fallback != [] then Some(Joined(fallback))
    else None
  }

  // ---- the loops ------------------------------------------------------------------------------

  /** What the inner loop collects: a line break only if something has been collected. */
  function Collected(lines: seq<string>): string {
    if lines == [] then ""
    else
      var body := Collected(lines[..|lines| - 1]);
      body + (if body != "" then "\n" else "") + lines[|lines| - 1]
  }

  lemma Regroup(a: string, b: string, c: string)
    ensures (a + b) + c == a + (b + c)
  {
  }

  lemma {:induction false} JoinedAppend(texts: seq<string>, last: string)
    ensures Joined(texts + [last]) == if texts == [] then last else Joined(texts) + "\n" + last
  {
    if |texts| > 1 {
      var front, rest := texts[0] + "\n", Joined(texts[1..]);
      assert (texts + [last])[1..] == texts[1..] + [last];
      JoinedAppend(texts[1..], last);
      Regroup(front, rest, "\n");
      Regroup(front, rest + "\n", last);
    } else if |texts| == 1 {
      assert (texts + [last])[1..] == [last];
    }
  }

  /** Line breaks that are left out before the first text are trimmed anyway. */
  lemma {:induction false} CollectedIsJoined(lines: seq<string>, ws: set<char>)
    requires '\n' in ws
    ensures exists skipped :: (forall c :: c in skipped ==> c in ws) && Joined(lines) == skipped + Collected(lines)
    decreases |lines|
  {
    if lines == [] {
      assert Joined(lines) == "" + Collected(lines);
    } else {
      var front, last := lines[..|lines| - 1], lines[|lines| - 1];
      CollectedIsJoined(front, ws);
      var skipped :| (forall c :: c in skipped ==> c in ws) && Joined(front) == skipped + Collected(front);
      JoinedAppend(front, last);
      assert lines == front + [last];
      var body := Collected(front);
      if front == [] {
        assert Joined(lines) == "" + Collected(lines);
      } else if body == "" {
        assert Joined(front) == skipped;
        assert Joined(lines) == (skipped + "\n") + Collected(lines);
      } else {
        Regroup(skipped, body, "\n");
        Regroup(skipped, body + "\n", last);
        assert Joined(lines) == skipped + Collected(lines);
      }
    }
  }

  lemma {:induction false} TrimSkips(ws: set<char>, skipped: string, s: string)
    requires forall c :: c in skipped ==> c in ws
    ensures Text.Trim(ws, skipped + s) == Text.Trim(ws, s)
  {
    if skipped == "" {
      assert skipped + s == s;
    } else {
      assert (skipped + s)[1..] == skipped[1..] + s;
      TrimSkips(ws, skipped[1..], s);
      assert Text.TrimStart(ws, skipped + s) == Text.TrimStart(ws, skipped[1..] + s);
    }
  }

  lemma CollectedTrims(lines: seq<string>)
    ensures Trim(Collected(lines)) == Trim(Joined(lines))
  {
    CollectedIsJoined(lines, SPACES);
    var skipped :| (forall c :: c in skipped ==> c in SPACES) && Joined(lines) == skipped + Collected(lines);
    TrimSkips(SPACES, skipped, Collected(lines));
  }

  lemma CollectedNext(lines: seq<string>, start: nat, i: nat)
    requires start <= i < |lines|
    ensures var body := Collected(lines[start..i]);
            Collected(lines[start..i + 1]) == body + (if body != "" then "\n" else "") + lines[i]
  {
    var more := lines[start..i + 1];
    assert more[..|more| - 1] == lines[start..i] && more[|more| - 1] == lines[i];
  }

  /** The inner loop: the trimmed body and the position after it. */
  method CollectBody(lines: seq<string>, start: nat) returns (body: string, i: nat)
    requires start <= |lines|
    ensures i == start + BodyLength(lines[start..]) && i <= |lines|
    ensures body == Trim(Joined(lines[start..i]))
  {
    body, i := "", start;
    while i < |lines|
      invariant start <= i <= |lines| && body == Collected(lines[start..i])
      invariant i + BodyLength(lines[i..]) == start + BodyLength(lines[start..])
    {
      assert lines[i..][0] == lines[i] && lines[i..][1..] == lines[i + 1..];
      if IsDashes(lines[i]) {
        break;
      }
      CollectedNext(lines, start, i);
      if body != "" {
        body := body + "\n";
      }
      body := body + lines[i];
      i := i + 1;
    }
    CollectedTrims(lines[start..i]);
    body := Trim(body);
  }

  predicate AllFull(texts: seq<string>) {
    forall text :: text in texts ==> text != ""
  }

  lemma {:induction false} JoinedFull(texts: seq<string>)
    requires AllFull(texts)
    ensures Joined(texts) == "" <==> texts == []
  {
    if texts != [] {
      assert texts[0] in texts;
    }
  }

  /** `preferred` or `fallback`: a text goes behind what is there, on a line of its own. */
  method PushText(all: string, text: string, ghost texts: seq<string>) returns (grown: string)
    requires AllFull(texts) && all == Joined(texts)
    ensures grown == Joined(texts + [text])
  {
    JoinedFull(texts);
    JoinedAppend(texts, text);
    grown := all;
    if grown != "" {
      grown := grown + "\n";
    }
    grown := grown + text;
  }

  lemma {:induction false} BodiesAppend(found: seq<Section>, s: Section, k: Kind, kind: string -> Kind)
    ensures Bodies(found + [s], k, kind) == Bodies(found, k, kind) + (if kind(s.tag) == k then [s.body] else [])
  {
    if found != [] {
      assert (found + [s])[1..] == found[1..] + [s];
      BodiesAppend(found[1..], s, k, kind);
    } else {
      assert (found + [s])[1..] == [];
    }
  }

  predicate FullSections(found: seq<Section>) {
    forall s :: s in found ==> s.body != ""
  }

  lemma {:induction false} BodiesFull(found: seq<Section>, k: Kind, kind: string -> Kind)
    requires FullSections(found)
    ensures AllFull(Bodies(found, k, kind))
  {
    if found != [] {
      assert found[0] in found;
      assert FullSections(found[1..]);
      BodiesFull(found[1..], k, kind);
    }
  }

  /** One section is sorted into the two accumulators. */
  method Sort(tag: string, body: string, preferred: string, fallback: string, kind: string -> Kind,
      ghost found: seq<Section>)
    returns (newPreferred: string, newFallback: string)
    requires FullSections(found) && body != ""
    requires preferred == Joined(Bodies(found, Message, kind)) && fallback == Joined(Bodies(found, Other, kind))
    ensures newPreferred == Joined(Bodies(found + [Section(tag, body)], Message, kind))
    ensures newFallback == Joined(Bodies(found + [Section(tag, body)], Other, kind))
  {
    newPreferred, newFallback := preferred, fallback;
    ghost var s := Section(tag, body);
    BodiesAppend(found, s, Message, kind);
    BodiesAppend(found, s, Other, kind);
    BodiesFull(found, Message, kind);
    BodiesFull(found, Other, kind);
    var k := kind(tag);
    assert Bodies(found, Message, kind) + [] == Bodies(found, Message, kind);
    assert Bodies(found, Other, kind) + [] == Bodies(found, Other, kind);
    if k == Message {
      newPreferred := PushText(preferred, body, Bodies(found, Message, kind));
    } else if k != Suppressed {
      newFallback := PushText(fallback, body, Bodies(found, Other, kind));
    }
  }

  /** A section starts at the first line. */
  predicate Starts(lines: seq<string>) {
    |lines| >= 3 && IsDashes(lines[0]) && IsDashes(lines[2]) && ParseTag(Trim(lines[1])).Some?
  }

  lemma SectionsHere(here: seq<string>)
    requires Starts(here)
    ensures var n := BodyLength(here[3..]);
            Sections(here) == NonEmpty(ParseTag(Trim(here[1])).value, Trim(Joined(here[3..3 + n])))
            + Sections(here[3 + n..])
  {
  }

  lemma SectionsFrom(lines: seq<string>, i: nat, end: nat)
    requires i + 3 <= end <= |lines| && Starts(lines[i..]) && end == i + 3 + BodyLength(lines[i + 3..])
    ensures Sections(lines[i..]) ==
            NonEmpty(ParseTag(Trim(lines[i + 1])).value, Trim(Joined(lines[i + 3..end]))) + Sections(lines[end..])
  {
    SectionsHere(lines[i..]);
    Slices(lines, i, end);
  }

  lemma Slices(lines: seq<string>, i: nat, end: nat)
    requires i + 3 <= end <= |lines|
    ensures var here := lines[i..];
            here[1] == lines[i + 1] && here[3..] == lines[i + 3..]
            && here[3..end - i] == lines[i + 3..end] && here[end - i..] == lines[end..]
  {
  }

  /** No section starts here. */
  lemma LineSkipped(lines: seq<string>, i: nat)
    requires i < |lines|
    requires IsDashes(lines[i]) ==>
               i + 2 < |lines| && (!IsDashes(lines[i + 2]) || ParseTag(Trim(lines[i + 1])).None?)
    ensures Sections(lines[i..]) == [] + Sections(lines[i + 1..])
  {
    var here := lines[i..];
    assert here[0] == lines[i] && here[1..] == lines[i + 1..];
    if IsDashes(lines[i]) {
      assert here[1] == lines[i + 1] && here[2] == lines[i + 2];
    }
  }

  /** Too few lines are left for a section. */
  lemma NoSectionLeft(lines: seq<string>, i: nat)
    requires i < |lines| <= i + 2 && IsDashes(lines[i])
    ensures Sections(lines[i..]) == [] + Sections(lines[|lines|..])
  {
    assert lines[i..][0] == lines[i] && lines[|lines|..] == [];
  }

  lemma StartsHere(lines: seq<string>, i: nat)
    requires i + 2 < |lines| && IsDashes(lines[i]) && IsDashes(lines[i + 2]) && ParseTag(Trim(lines[i + 1])).Some?
    ensures Starts(lines[i..])
  {
    var here := lines[i..];
    assert here[0] == lines[i] && here[1] == lines[i + 1] && here[2] == lines[i + 2];
  }

  /** The body of the outer loop: a section with a body, if one starts here, and where to go on. */
  method ReadSection(lines: seq<string>, i: nat) returns (read: seq<Section>, next: nat)
    requires i < |lines|
    ensures i < next <= |lines| && |read| <= 1 && FullSections(read)
    ensures Sections(lines[i..]) == read + Sections(lines[next..])
  {
    read, next := [], i + 1;
    if !IsDashes(lines[i]) {
      LineSkipped(lines, i);
      return;
    }
    if i + 2 >= |lines| {
      NoSectionLeft(lines, i);
      return [], |lines|;
    }
    var tag := ParseTag(Trim(lines[i + 1]));
    if !IsDashes(lines[i + 2]) || tag.None? {
      LineSkipped(lines, i);
      return;
    }
    StartsHere(lines, i);
    var body;
    body, next := CollectBody(lines, i + 3);
    SectionsFrom(lines, i, next);
    read := if body == "" then [] else [Section(tag.value, body)];
  }

  lemma FoundGrows(found: seq<Section>, read: seq<Section>, rest: seq<Section>)
    requires FullSections(found) && FullSections(read)
    ensures FullSections(found + read) && found + (read + rest) == (found + read) + rest
  {
  }

  /** `extract_section_bodies`, given the lines of the message and the kinds of the tags. */
  method ExtractSectionBodies(lines: seq<string>, kind: string -> Kind) returns (text: Option<string>)
    ensures text == Chosen(Sections(lines), kind)
  {
    var preferred, fallback, i: nat := "", "", 0;
    ghost var found: seq<Section> := [];
    assert lines[0..] == lines && found + Sections(lines) == Sections(lines);
    while i < |lines|
      invariant i <= |lines| && Sections(lines) == found + Sections(lines[i..]) && FullSections(found)
      invariant preferred == Joined(Bodies(found, Message, kind)) && fallback == Joined(Bodies(found, Other, kind))
    {
      var read, next := ReadSection(lines, i);
      FoundGrows(found, read, Sections(lines[next..]));
      if read != [] {
        assert read == [read[0]] && read[0] in read;
        preferred, fallback := Sort(read[0].tag, read[0].body, preferred, fallback, kind, found);
      } else {
        assert found + read == found;
      }
      found := found + read;
      i := next;
    }
    assert lines[i..] == [] && found + [] == found;
    text := Choose(preferred, fallback, kind, found);
  }

  /** What follows the loop. */
  method Choose(preferred: string, fallback: string, kind: string -> Kind, ghost found: seq<Section>)
      returns (text: Option<string>)
    requires FullSections(found)
    requires preferred == Joined(Bodies(found, Message, kind)) && fallback == Joined(Bodies(found, Other, kind))
    ensures text == Chosen(found, kind)
  {
    BodiesFull(found, Message, kind);
    BodiesFull(found, Other, kind);
    JoinedFull(Bodies(found, Message, kind));
    JoinedFull(Bodies(found, Other, kind));
    if preferred != "" {
      return Some(preferred);
    } else if fallback != "" {
      return Some(fallback);
    } else {
      return None;
    }
  }

  /** The sections of one kind, in order. */
  function Only(sections: seq<Section>, k: Kind, kind: string -> Kind): seq<Section> {
    if sections == [] then []
    else if kind(sections[0].tag) == k then [sections[0]] + Only(sections[1..], k, kind)
    else Only(sections[1..], k, kind)
  }

  lemma {:induction false} BodiesOfOnly(sections: seq<Section>, k: Kind, j: Kind, kind: string -> Kind)
    ensures Bodies(Only(sections, k, kind), j, kind) == if j == k then Bodies(sections, k, kind) else []
    ensures Only(sections, k, kind) == [] <==> Bodies(sections, k, kind) == []
  {
    if sections != [] {
      BodiesOfOnly(sections[1..], k, j, kind);
    }
  }

  /** Only message sections matter if there is one, else only the other ones; suppressed ones never do. */
  lemma OneKindDecides(sections: seq<Section>, kind: string -> Kind)
    ensures var messages, others := Only(sections, Message, kind), Only(sections, Other, kind);
            && (messages != [] ==> Chosen(sections, kind) == Chosen(messages, kind))
            && (messages == [] ==> Chosen(sections, kind) == Chosen(others, kind))
            && (Chosen(sections, kind) == None <==> messages == [] && others == [])
  {
    BodiesOfOnly(sections, Message, Message, kind);
    BodiesOfOnly(sections, Message, Other, kind);
    BodiesOfOnly(sections, Other, Message, kind);
    BodiesOfOnly(sections, Other, Other, kind);
  }

  /** The bodies of the sections whose tags are in `tags`, or are not, in order. */
  function Tagged(sections: seq<Section>, tags: set<string>, within: bool): seq<string> {
    if sections == [] then []
    else (if (sections[0].tag in tags) == within then [sections[0].body] else []) + Tagged(sections[1..], tags, within)
  }

  lemma {:induction false} BodiesAreTagged(sections: seq<Section>, k: Kind, kind: string -> Kind, tags: set<string>,
      within: bool)
    requires forall tag :: kind(tag) == k <==> (tag in tags) == within
    ensures Bodies(sections, k, kind) == Tagged(sections, tags, within)
  {
    if sections != [] {
      BodiesAreTagged(sections[1..], k, kind, tags, within);
    }
  }

  const MESSAGE_TAGS: set<string> := {"user_message", "ai___message"}
  const SUPPRESSED_TAGS: set<string> :=
    {"tool_calling", "tool___result", "ai_reasoning", "error______", "plan________", "ask_user____"}

  /**
   What is shown of a chat message: all that the user and the assistant say; without that, everything
   but tool calls and results, reasoning, errors, plans and questions; else nothing.
   */
  lemma TagsDecide(sections: seq<Section>)
    ensures var said := Tagged(sections, MESSAGE_TAGS, true);
            var rest := Tagged(sections, MESSAGE_TAGS + SUPPRESSED_TAGS, false);
            Chosen(sections, KindOf) ==
              if said != [] then Some(Joined(said)) else if rest != [] then Some(Joined(rest)) else None
  {
    BodiesAreTagged(sections, Message, KindOf, MESSAGE_TAGS, true);
    BodiesAreTagged(sections, Other, KindOf, MESSAGE_TAGS + SUPPRESSED_TAGS, false);
  }

  // ---- printing and parsing ---------------------------------------------------------------------------

  /** A section as it is printed: its tag between lines of dashes, then the lines of its body. */
  datatype Draft = Draft(tag: string, body: seq<string>)

  function Heading(tag: string): seq<string> {
    [DASHES, "|[" + tag + "]|", DASHES]
  }

  function Print(drafts: seq<Draft>): seq<string> {
    if drafts == [] then [] else Heading(drafts[0].tag) + (drafts[0].body + Print(drafts[1..]))
  }

  /** A tag is not empty, and no line of a body is a line of dashes. */
  predicate Printable(drafts: seq<Draft>) {
    forall d :: d in drafts ==> d.tag != "" && forall line :: line in d.body ==> !IsDashes(line)
  }

  /** What the drafts say: the trimmed bodies that are not empty. */
  function Meaning(drafts: seq<Draft>): seq<Section> {
    if drafts == [] then [] else NonEmpty(drafts[0].tag, Trim(Joined(drafts[0].body))) + Meaning(drafts[1..])
  }

  lemma HeadingParses(tag: string)
    requires tag != ""
    ensures IsDashes(DASHES) && ParseTag(Trim("|[" + tag + "]|")) == Some(tag)
  {
    Text.PlainTrim(SPACES, DASHES);
    var line := "|[" + tag + "]|";
    Text.PlainTrim(SPACES, line);
    assert line[2..] == tag + "]|";
  }

  lemma {:induction false} BodyEnds(body: seq<string>, rest: seq<string>)
    requires forall line :: line in body ==> !IsDashes(line)
    requires rest != [] ==> IsDashes(rest[0])
    ensures BodyLength(body + rest) == |body|
  {
    if body == [] {
      assert body + rest == rest;
    } else {
      assert (body + rest)[1..] == body[1..] + rest && body[0] in body;
      BodyEnds(body[1..], rest);
    }
  }

  /** A heading and a body in front of the next heading are read as one section. */
  lemma SectionReads(head: seq<string>, tag: string, body: seq<string>, rest: seq<string>)
    requires |head| == 3 && IsDashes(head[0]) && IsDashes(head[2]) && ParseTag(Trim(head[1])) == Some(tag)
    requires forall line :: line in body ==> !IsDashes(line)
    requires rest != [] ==> IsDashes(rest[0])
    ensures Sections(head + (body + rest)) == NonEmpty(tag, Trim(Joined(body))) + Sections(rest)
  {
    BodyEnds(body, rest);
    ThreeParts(head, body, rest);
    SectionsHere(head + (body + rest));
  }

  lemma ThreeParts(head: seq<string>, body: seq<string>, rest: seq<string>)
    requires |head| == 3
    ensures var lines := head + (body + rest);
            && |lines| >= 3 + |body| && lines[0] == head[0] && lines[1] == head[1] && lines[2] == head[2]
            && lines[3..] == body + rest && lines[3..3 + |body|] == body && lines[3 + |body|..] == rest
  {
  }

  /** The lines of a heading, spelled out. */
  lemma HeadingLines(tag: string)
    ensures Heading(tag) == ["----------------", "|[" + tag + "]|", "----------------"]
  {
  }

  lemma {:induction false} PrintedReads(drafts: seq<Draft>)
    requires Printable(drafts)
    ensures Sections(Print(drafts)) == Meaning(drafts)
    ensures Print(drafts) != [] ==> IsDashes(Print(drafts)[0])
  {
    if drafts != [] {
      assert drafts[0] in drafts && Printable(drafts[1..]);
      PrintedReads(drafts[1..]);
      HeadingParses(drafts[0].tag);
      SectionReads(Heading(drafts[0].tag), drafts[0].tag, drafts[0].body, Print(drafts[1..]));
    }
  }

  /** Lines of a text, as Rust's `lines` gives them: a carriage return before a line break belongs to it. */
  function Lines(raw: string): seq<string> {
    if raw == "" then []
    else
      var n := BreakAt(raw);
      if n < |raw| then [WithoutReturn(raw[..n])] + Lines(raw[n + 1..]) else [raw]
  }

  function BreakAt(s: string): (n: nat)
    ensures n <= |s| && (n < |s| ==> s[n] == '\n') && forall i | 0 <= i < n :: s[i] != '\n'
  {
    if s == "" || s[0] == '\n' then 0 else 1 + BreakAt(s[1..])
  }

  function WithoutReturn(line: string): string {
    if line != "" && line[|line| - 1] == '\r' then line[..|line| - 1] else line
  }

  /** Each line with a line break after it. */
  function Unlines(lines: seq<string>): string {
    if lines == [] then "" else lines[0] + ("\n" + Unlines(lines[1..]))
  }

  /** The whole of `extract_section_bodies`. */
  method ExtractMessage(raw: string) returns (text: Option<string>)
    ensures text == Chosen(Sections(Lines(raw)), KindOf)
  {
    text := ExtractSectionBodies(Lines(raw), KindOf);
  }

  predicate IsLine(line: string) {
    '\n' !in line && (line != "" ==> line[|line| - 1] != '\r')
  }

  lemma BreakUnique(s: string, n: nat)
    requires n < |s| && s[n] == '\n' && forall i | 0 <= i < n :: s[i] != '\n'
    ensures BreakAt(s) == n
  {
  }

  lemma FirstLine(line: string, rest: string)
    requires '\n' !in line
    ensures Lines(line + ("\n" + rest)) == [WithoutReturn(line)] + Lines(rest)
  {
    var raw := line + ("\n" + rest);
    BreakUnique(raw, |line|);
    assert raw[..|line|] == line && raw[|line| + 1..] == rest;
  }

  lemma PlainLine(line: string, rest: string)
    requires IsLine(line)
    ensures Lines(line + ("\n" + rest)) == [line] + Lines(rest)
  {
    FirstLine(line, rest);
  }

  lemma {:induction false} LinesBack(lines: seq<string>)
    requires forall line :: line in lines ==> IsLine(line)
    ensures Lines(Unlines(lines)) == lines
  {
    if lines != [] {
      var line := lines[0];
      assert line in lines;
      LinesBack(lines[1..]);
      PlainLine(line, Unlines(lines[1..]));
      assert lines == [line] + lines[1..];
    }
  }

  /** Each line with a carriage return and a line break after it. */
  function UnlinesReturned(lines: seq<string>): string {
    if lines == [] then "" else (lines[0] + "\r") + ("\n" + UnlinesReturned(lines[1..]))
  }

  /** Lines that end in a carriage return and a line break are read without either. */
  lemma {:induction false} ReturnedLinesBack(lines: seq<string>)
    requires forall line :: line in lines ==> '\n' !in line
    ensures Lines(UnlinesReturned(lines)) == lines
  {
    if lines != [] {
      var line := lines[0];
      assert line in lines;
      ReturnedLinesBack(lines[1..]);
      FirstLine(line + "\r", UnlinesReturned(lines[1..]));
      assert lines == [line] + lines[1..];
    }
  }

  /**
   Printing any list of tagged sections and extracting gives the bodies of the message sections, or
   else of those that are not suppressed, or else nothing.
   */
  lemma PrintedIsExtracted(drafts: seq<Draft>, kind: string -> Kind)
    requires Printable(drafts) && forall line :: line in Print(drafts) ==> IsLine(line)
    ensures Chosen(Sections(Lines(Unlines(Print(drafts)))), kind) == Chosen(Meaning(drafts), kind)
  {
    PrintedReads(drafts);
    LinesBack(Print(drafts));
  }
}
