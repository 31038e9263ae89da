/** The split tree of a workspace: panes with tabs at the leaves, splits inside. */
module WorkspaceTree {
  import opened Wrappers

  /** The number that `nextId` puts behind its prefix; all prefixes share one counter. */
  type Id = nat

  datatype Tab = Tab(id: Id, panel: string, title: string)

  /** A JavaScript number as far as ratios need it. */
  datatype Num = Finite(r: real) | Infinite(negative: bool) | NotANumber

  datatype Tree =
    | Pane(id: Id, tabs: seq<Tab>, active: Option<Id>)
    | Split(id: Id, vertical: bool, ratio: Num, first: Tree, second: Tree)

  function Labels(panel: string): string {
    if panel == "sql" then "SQL 查询"
    else if panel == "logs" then "日志窗口"
    else if panel == "docker" then "Docker"
    else if panel == "knowledge" then "知识库"
    else "Terminal"
  }

  /** `createTab`, given the next id. */
  function NewTab(id: Id, panel: string, title: string): Tab {
    Tab(id, panel, if title == "" then Labels(panel) else title)
  }

  /** `ensureActiveTab` */
  function WithActive(tabs: seq<Tab>, active: Option<Id>): Option<Id> {
    if active.None? && tabs != [] then Some(tabs[0].id) else active
  }

  function FindTab(tabs: seq<Tab>, id: Option<Id>): Option<Tab> {
    if tabs == [] then None
    else if Some(tabs[0].id) == id then Some(tabs[0])
    else FindTab(tabs[1..], id)
  }

  function FindPane(t: Tree, id: Option<Id>): (found: Option<Tree>)
    ensures found.Some? ==> found.value.Pane? && Some(found.value.id) == id
  {
    match t
    case Pane(paneId, _, _) => if Some(paneId) == id then Some(t) else None
    case Split(_, _, _, first, second) =>
      var left := FindPane(first, id);
      if left.Some? then left else FindPane(second, id)
  }

  /** Change the pane that `FindPane` finds. */
  function SetPane(t: Tree, id: Id, tabs: seq<Tab>, active: Option<Id>): Tree {
    match t
    case Pane(paneId, _, _) => if paneId == id then Pane(paneId, tabs, active) else t
    case Split(_, _, _, first, second) =>
      if FindPane(first, Some(id)).Some? then t.(first := SetPane(first, id, tabs, active))
      else t.(second := SetPane(second, id, tabs, active))
  }

  function FindSplit(t: Tree, id: Id): (found: Option<Tree>)
    ensures found.Some? ==> found.value.Split? && found.value.id == id
  {
    if t.Pane? then None
    else if t.id == id then Some(t)
    else
      var left := FindSplit(t.first, id);
      if left.Some? then left else FindSplit(t.second, id)
  }

  function SetRatio(t: Tree, id: Id, ratio: Num): Tree {
    if t.Pane? then t
    else if t.id == id then t.(ratio := ratio)
    else if FindSplit(t.first, id).Some? then t.(first := SetRatio(t.first, id, ratio))
    else t.(second := SetRatio(t.second, id, ratio))
  }

  /** What splitting brings: the new tree if anything was rebuilt, the last id used, the new pane. */
  datatype Splitting = Splitting(tree: Option<Tree>, uid: nat, made: Option<Id>)

  function SplitTabTitle(active: Option<Tab>): string {
    (if active.Some? then active.value.title else "新面板") + " · 分屏"
  }

  function SplitLeaf(pane: Tree, vertical: bool, uid: nat): Tree
    requires pane.Pane?
  {
    var active := FindTab(pane.tabs, pane.active);
    var tab := NewTab(uid + 1, if active.Some? then active.value.panel else "terminal", SplitTabTitle(active));
    Split(uid + 4, vertical, Finite(0.55), Pane(uid + 3, pane.tabs, WithActive(pane.tabs, pane.active)),
      Pane(uid + 2, [tab], Some(uid + 1)))
  }

  /** `replaceNode`: every split on the way is built anew, even if no pane matches below it. */
  function SplitTree(t: Tree, target: Id, vertical: bool, uid: nat): Splitting {
    if t.Pane? then
      if t.id == target then Splitting(Some(SplitLeaf(t, vertical, uid)), uid + 4, Some(uid + 2))
        else Splitting(None, uid, None)
    else
      var left := SplitTree(t.first, target, vertical, uid);
      var right := SplitTree(t.second, target, vertical, left.uid);
      Splitting(Some(Split(right.uid + 1, t.vertical, t.ratio,
                           if left.tree.Some? then left.tree.value else t.first,
                           if right.tree.Some? then right.tree.value else t.second)),
                right.uid + 1, if right.made.Some? then right.made else left.made)
  }

  // ---- what a tree holds -------------------------------------------------------------------

  /** The panes from left to right. */
  function Panes(t: Tree): (panes: seq<Tree>)
    ensures panes != [] && forall p :: p in panes ==> p.Pane?
  {
    if t.Pane? then [t] else Panes(t.first) + Panes(t.second)
  }

  function Tabs(t: Tree): seq<Tab> {
    if t.Pane? then t.tabs else Tabs(t.first) + Tabs(t.second)
  }

  function TabIds(tabs: seq<Tab>): set<Id> {
    set tab | tab in tabs :: tab.id
  }

  function Ids(t: Tree): set<Id> {
    if t.Pane? then {t.id} + TabIds(t.tabs) else {t.id} + Ids(t.first) + Ids(t.second)
  }

  predicate DistinctTabs(tabs: seq<Tab>) {
    forall i, j | 0 <= i < j < |tabs| :: tabs[i].id != tabs[j].id
  }

  /** Every id occurs once. */
  predicate Unique(t: Tree) {
    if t.Pane? then DistinctTabs(t.tabs) && t.id !in TabIds(t.tabs)
    else
      && Unique(t.first) && Unique(t.second) && Ids(t.first) !! Ids(t.second)
      && t.id !in Ids(t.first) && t.id !in Ids(t.second)
  }

  /** No pane is empty and its active tab is one of its tabs. */
  predicate PanesOk(t: Tree) {
    if t.Pane? then t.tabs != [] && t.active.Some? && t.active.value in TabIds(t.tabs)
    else PanesOk(t.first) && PanesOk(t.second)
  }

  predicate InRange(ratio: Num) {
    ratio.Finite? && 0.15 <= ratio.r <= 0.85
  }

  predicate RatiosOk(t: Tree) {
    t.Split? ==> InRange(t.ratio) && RatiosOk(t.first) && RatiosOk(t.second)
  }

  predicate HasPane(t: Tree, id: Id) {
    FindPane(t, Some(id)).Some?
  }

  lemma {:induction false} FoundPanes(t: Tree, id: Id)
    ensures HasPane(t, id) <==> exists p :: p in Panes(t) && p.id == id
    ensures HasPane(t, id) ==> FindPane(t, Some(id)).value in Panes(t) && id in Ids(t)
  {
    if t.Split? {
      FoundPanes(t.first, id);
      FoundPanes(t.second, id);
    }
  }

  lemma {:induction false} FoundPaneOk(t: Tree, id: Id)
    requires HasPane(t, id)
    ensures var p := FindPane(t, Some(id)).value;
            && (PanesOk(t) ==> PanesOk(p))
            && (Unique(t) ==> Unique(p))
            && Ids(p) <= Ids(t)
  {
    if t.Split? {
      FoundPaneOk(if HasPane(t.first, id) then t.first else t.second, id);
    }
  }

  // ---- changing one pane ---------------------------------------------------------------------

  lemma {:induction false} SetPaneIds(t: Tree, id: Id, tabs: seq<Tab>, active: Option<Id>, extra: set<Id>)
    requires HasPane(t, id) && Unique(t) && DistinctTabs(tabs)
    requires TabIds(tabs) <= TabIds(FindPane(t, Some(id)).value.tabs) + extra && extra !! Ids(t)
    ensures Unique(SetPane(t, id, tabs, active)) && Ids(SetPane(t, id, tabs, active)) <= Ids(t) + extra
  {
    if t.Split? {
      if HasPane(t.first, id) {
        SetPaneIds(t.first, id, tabs, active, extra);
      } else {
        SetPaneIds(t.second, id, tabs, active, extra);
      }
    }
  }

  lemma {:induction false} SetPaneKeeps(t: Tree, id: Id, tabs: seq<Tab>, active: Option<Id>)
    requires HasPane(t, id)
    ensures var u := SetPane(t, id, tabs, active);
            && (PanesOk(t) && tabs != [] && active.Some? && active.value in TabIds(tabs) ==> PanesOk(u))
            && (RatiosOk(t) ==> RatiosOk(u))
  {
    if t.Split? {
      if HasPane(t.first, id) {
        SetPaneKeeps(t.first, id, tabs, active);
      } else {
        SetPaneKeeps(t.second, id, tabs, active);
      }
    }
  }

  lemma {:induction false} SetPaneFinds(t: Tree, id: Id, tabs: seq<Tab>, active: Option<Id>, other: Id)
    requires HasPane(t, id)
    ensures HasPane(SetPane(t, id, tabs, active), other) <==> HasPane(t, other)
  {
    if t.Split? {
      var u := SetPane(t, id, tabs, active);
      if HasPane(t.first, id) {
        SetPaneFinds(t.first, id, tabs, active, other);
        assert u.second == t.second;
      } else {
        SetPaneFinds(t.second, id, tabs, active, other);
        assert u.first == t.first;
      }
    }
  }

  /** Only the pane that is found changes; the others stay, and in order. */
  lemma {:induction false} SetPanePanes(t: Tree, id: Id, tabs: seq<Tab>, active: Option<Id>)
      returns (before: seq<Tree>, after: seq<Tree>)
    requires HasPane(t, id)
    ensures Panes(t) == before + [FindPane(t, Some(id)).value] + after
    ensures Panes(SetPane(t, id, tabs, active)) == before + [Pane(id, tabs, active)] + after
  {
    before, after := [], [];
    if t.Split? {
      if HasPane(t.first, id) {
        before, after := SetPanePanes(t.first, id, tabs, active);
        after := after + Panes(t.second);
      } else {
        before, after := SetPanePanes(t.second, id, tabs, active);
        before := Panes(t.first) + before;
      }
    }
  }

  // ---- dragging a gutter ---------------------------------------------------------------------

  /** Division of JavaScript numbers. */
  function Quotient(x: real, y: real): Num {
    if y != 0.0 then Finite(x / y)
    else if x == 0.0 then NotANumber
    else Infinite(x < 0.0)
  }

  /** `Math.min(0.85, Math.max(0.15, ratio))` */
  function Clamp(ratio: Num): Num {
    match ratio
    case NotANumber => NotANumber
    case Infinite(negative) => Finite(if negative then 0.15 else 0.85)
    case Finite(r) => Finite(if r < 0.15 then 0.15 else if r > 0.85 then 0.85 else r)
  }

  /** A dragged ratio is in range, except when the pointer is at the edge of a container without extent. */
  lemma DraggedRatio(offset: real, extent: real)
    ensures InRange(Clamp(Quotient(offset, extent))) <==> !(offset == 0.0 && extent == 0.0)
  {
  }

  lemma {:induction false} SetRatioKeeps(t: Tree, id: Id, ratio: Num)
    ensures var u := SetRatio(t, id, ratio);
            && Panes(u) == Panes(t) && Ids(u) == Ids(t) && (Unique(t) ==> Unique(u)) && (PanesOk(t) ==> PanesOk(u))
            && (RatiosOk(t) ==> (RatiosOk(u) <==> FindSplit(t, id).None? || InRange(ratio)))
            && (forall pane: Option<Id> :: FindPane(u, pane) == FindPane(t, pane))
  {
    if t.Split? && t.id != id {
      SetRatioKeeps(t.first, id, ratio);
      SetRatioKeeps(t.second, id, ratio);
    }
  }

  /** In a container with an extent, a dragged ratio follows the pointer from 15 to 85 percent and stops there. */
  lemma DragFollowsPointer(offset: real, extent: real)
    requires extent > 0.0
    ensures var ratio := Clamp(Quotient(offset, extent));
            && ratio.Finite?
            && (if offset < 0.15 * extent then ratio.r == 0.15
                else if offset > 0.85 * extent then ratio.r == 0.85
                else ratio.r * extent == offset)
  {
    assert offset / extent * extent == offset;
  }

  /** Only the ratio of the split that is found changes. */
  lemma {:induction false} SetRatioSets(t: Tree, id: Id, ratio: Num, other: Id)
    ensures FindSplit(t, id).Some? ==>
              FindSplit(SetRatio(t, id, ratio), id) == Some(FindSplit(t, id).value.(ratio := ratio))
    ensures FindSplit(t, id).None? ==> SetRatio(t, id, ratio) == t
    ensures FindSplit(SetRatio(t, id, ratio), other).Some? <==> FindSplit(t, other).Some?
    ensures other != id && FindSplit(t, other).Some? ==>
              var found, now := FindSplit(t, other).value, FindSplit(SetRatio(t, id, ratio), other).value;
              now.ratio == found.ratio && now.vertical == found.vertical
  {
    if t.Split? && t.id != id {
      SetRatioSets(t.first, id, ratio, other);
      SetRatioSets(t.second, id, ratio, other);
    }
  }

  // ---- splitting a pane ------------------------------------------------------------------------

  function Replaced(t: Tree, target: Id, vertical: bool, uid: nat): Tree {
    var s := SplitTree(t, target, vertical, uid);
    if s.tree.Some? then s.tree.value else t
  }

  /** All ids are at most `uid`. */
  predicate Below(ids: set<Id>, uid: nat) {
    forall id | id in ids :: id <= uid
  }

  lemma {:induction false} SplitGrows(t: Tree, target: Id, vertical: bool, uid: nat)
    ensures SplitTree(t, target, vertical, uid).uid >= uid
    ensures SplitTree(t, target, vertical, uid).made.Some? <==> HasPane(t, target)
  {
    if t.Split? {
      SplitGrows(t.first, target, vertical, uid);
      SplitGrows(t.second, target, vertical, SplitTree(t.first, target, vertical, uid).uid);
    }
  }

  /** The ids of a tree after splitting are old ones or new ones above `uid`, each once. */
  lemma {:induction false} SplitIds(t: Tree, target: Id, vertical: bool, uid: nat)
    requires Unique(t) && Below(Ids(t), uid)
    ensures var s := SplitTree(t, target, vertical, uid);
            var u := Replaced(t, target, vertical, uid);
            && Unique(u)
            && forall id | id in Ids(u) :: id in Ids(t) || uid < id <= s.uid
  {
    SplitGrows(t, target, vertical, uid);
    if t.Split? {
      var middle := SplitTree(t.first, target, vertical, uid).uid;
      SplitGrows(t.first, target, vertical, uid);
      SplitGrows(t.second, target, vertical, middle);
      SplitIds(t.first, target, vertical, uid);
      SplitIds(t.second, target, vertical, middle);
    }
  }

  lemma {:induction false} SplitKeeps(t: Tree, target: Id, vertical: bool, uid: nat)
    ensures var u := Replaced(t, target, vertical, uid);
            && (PanesOk(t) ==> PanesOk(u))
            && (RatiosOk(t) ==> RatiosOk(u))
  {
    if t.Split? {
      SplitKeeps(t.first, target, vertical, uid);
      SplitKeeps(t.second, target, vertical, SplitTree(t.first, target, vertical, uid).uid);
    } else if PanesOk(t) && t.id == target {
      var tab := SplitLeaf(t, vertical, uid).second.tabs[0];
      assert tab in [tab] && tab.id == uid + 1;
    }
  }

  /** Splitting a pane that is not in the tree leaves the panes as they are. */
  lemma {:induction false} SplitMisses(t: Tree, target: Id, vertical: bool, uid: nat)
    requires !HasPane(t, target)
    ensures Panes(Replaced(t, target, vertical, uid)) == Panes(t)
    ensures SplitTree(t, target, vertical, uid).made == None
  {
    if t.Split? {
      SplitMisses(t.first, target, vertical, uid);
      SplitMisses(t.second, target, vertical, SplitTree(t.first, target, vertical, uid).uid);
    }
  }

  /** The tab of a new pane: of the type of the tab that was shown, and called after it. */
  predicate TabLike(tab: Tab, shown: Option<Tab>) {
    && tab.panel == (if shown.Some? then shown.value.panel else "terminal")
    && tab.title == (if shown.Some? then shown.value.title else "新面板") + " · 分屏"
  }

  /** The copy of `pane` and the pane that is split off it. */
  predicate SplitOff(pane: Tree, copy: Tree, made: Tree)
    requires pane.Pane? && copy.Pane? && made.Pane?
  {
    && copy.tabs == pane.tabs
    && copy.active == (if pane.active.None? && pane.tabs != [] then Some(pane.tabs[0].id) else pane.active)
    && |made.tabs| == 1 && made.active == Some(made.tabs[0].id)
    && TabLike(made.tabs[0], FindTab(pane.tabs, pane.active))
  }

  lemma MissingInOne(t: Tree, target: Id)
    requires t.Split? && Unique(t)
    ensures !(HasPane(t.first, target) && HasPane(t.second, target))
  {
    FoundPanes(t.first, target);
    FoundPanes(t.second, target);
  }

  /**
   Splitting a pane replaces it, in the order of the panes, by a copy and a new pane with one tab;
   all other panes stay. The new pane is the one to be focused.
   */
  lemma {:induction false} SplitReplacesOnePane(t: Tree, target: Id, vertical: bool, uid: nat)
    returns (before: seq<Tree>, pane: Tree, copy: Tree, made: Tree, after: seq<Tree>)
    requires Unique(t) && HasPane(t, target)
    ensures pane.Pane? && copy.Pane? && made.Pane?
    ensures pane.id == target && SplitOff(pane, copy, made)
    ensures copy.id > uid && made.id > uid && made.tabs[0].id > uid
    ensures Panes(t) == before + [pane] + after
    ensures Panes(Replaced(t, target, vertical, uid)) == before + [copy, made] + after
    ensures SplitTree(t, target, vertical, uid).made == Some(made.id)
  {
    if t.Pane? {
      before, pane, after := [], t, [];
      copy, made := SplitLeaf(t, vertical, uid).first, SplitLeaf(t, vertical, uid).second;
      LeafSplit(t, vertical, uid);
    } else {
      MissingInOne(t, target);
      var middle := SplitTree(t.first, target, vertical, uid).uid;
      SplitGrows(t.first, target, vertical, uid);
      if HasPane(t.first, target) {
        before, pane, copy, made, after := SplitReplacesOnePane(t.first, target, vertical, uid);
        SplitMisses(t.second, target, vertical, middle);
        MoreAfter(before, [pane], after, Panes(t.second));
        MoreAfter(before, [copy, made], after, Panes(t.second));
        after := after + Panes(t.second);
      } else {
        before, pane, copy, made, after := SplitReplacesOnePane(t.second, target, vertical, middle);
        SplitMisses(t.first, target, vertical, uid);
        MoreBefore(Panes(t.first), before, [pane], after);
        MoreBefore(Panes(t.first), before, [copy, made], after);
        before := Panes(t.first) + before;
      }
    }
  }

  lemma LeafSplit(pane: Tree, vertical: bool, uid: nat)
    requires pane.Pane?
    ensures var leaf := SplitLeaf(pane, vertical, uid);
            && SplitOff(pane, leaf.first, leaf.second)
            && Panes(pane) == [] + [pane] + [] && Panes(leaf) == [] + [leaf.first, leaf.second] + []
  {
  }

  /**
   `u` is `t` with each pane `target` split in the given direction, in the middle or nearly so, the old
   tabs first; every other split keeps its direction and its ratio.
   */
  predicate SplitFrom(t: Tree, u: Tree, target: Id, vertical: bool) {
    if t.Split? then
      && u.Split? && u.vertical == t.vertical && u.ratio == t.ratio
      && SplitFrom(t.first, u.first, target, vertical) && SplitFrom(t.second, u.second, target, vertical)
    else if t.id == target then
      && u.Split? && u.vertical == vertical && u.ratio == Finite(0.55)
      && u.first.Pane? && u.first.tabs == t.tabs && u.second.Pane? && |u.second.tabs| == 1
    else u == t
  }

  lemma {:induction false} SplitKeepsDirections(t: Tree, target: Id, vertical: bool, uid: nat)
    ensures SplitFrom(t, Replaced(t, target, vertical, uid), target, vertical)
  {
    if t.Split? {
      SplitKeepsDirections(t.first, target, vertical, uid);
      SplitKeepsDirections(t.second, target, vertical, SplitTree(t.first, target, vertical, uid).uid);
    }
  }

  lemma MoreAfter(before: seq<Tree>, middle: seq<Tree>, after: seq<Tree>, more: seq<Tree>)
    ensures (before + middle + after) + more == before + middle + (after + more)
  {
  }

  lemma MoreBefore(more: seq<Tree>, before: seq<Tree>, middle: seq<Tree>, after: seq<Tree>)
    ensures more + (before + middle + after) == (more + before) + middle + after
  {
  }

  function TabsOf(panes: seq<Tree>): seq<Tab>
    requires forall p :: p in panes ==> p.Pane?
  {
    if panes == [] then [] else panes[0].tabs + TabsOf(panes[1..])
  }

  lemma {:induction false} TabsOfAppend(a: seq<Tree>, b: seq<Tree>)
    requires forall p :: p in a + b ==> p.Pane?
    ensures (forall p :: p in a ==> p.Pane?) && (forall p :: p in b ==> p.Pane?)
    ensures TabsOf(a + b) == TabsOf(a) + TabsOf(b)
  {
    forall p | p in a ensures p.Pane? { assert p in a + b; }
    forall p | p in b ensures p.Pane? { assert p in a + b; }
    if a == [] {
      assert a + b == b;
    } else {
      assert (a + b)[1..] == a[1..] + b;
      TabsOfAppend(a[1..], b);
    }
  }

  lemma {:induction false} TabsAreTabsOfPanes(t: Tree)
    ensures Tabs(t) == TabsOf(Panes(t))
  {
    if t.Split? {
      TabsAreTabsOfPanes(t.first);
      TabsAreTabsOfPanes(t.second);
      TabsOfAppend(Panes(t.first), Panes(t.second));
    }
  }

  /** Splitting keeps all tabs in their order and adds one, behind those of the pane that is split. */
  lemma SplitAddsOneTab(t: Tree, target: Id, vertical: bool, uid: nat)
      returns (front: seq<Tab>, tab: Tab, back: seq<Tab>)
    requires Unique(t) && HasPane(t, target)
    ensures Tabs(t) == front + back && Tabs(Replaced(t, target, vertical, uid)) == front + [tab] + back
    ensures tab.id > uid
  {
    var before, pane, copy, made, after := SplitReplacesOnePane(t, target, vertical, uid);
    var u := Replaced(t, target, vertical, uid);
    TabsAreTabsOfPanes(t);
    TabsAreTabsOfPanes(u);
    forall p | p in before || p in after ensures p.Pane? {
      assert p in Panes(t);
    }
    TabsOfAppend(before + [pane], after);
    TabsOfAppend(before, [pane]);
    TabsOfAppend(before + [copy, made], after);
    TabsOfAppend(before, [copy, made]);
    TabsOfPair(pane, copy, made);
    front, tab, back := TabsOf(before) + pane.tabs, made.tabs[0], TabsOf(after);
  }

  lemma TabsOfPair(pane: Tree, copy: Tree, made: Tree)
    requires pane.Pane? && copy.Pane? && made.Pane? && copy.tabs == pane.tabs && |made.tabs| == 1
    ensures TabsOf([pane]) == pane.tabs && TabsOf([copy, made]) == pane.tabs + [made.tabs[0]]
  {
    assert [pane][1..] == [] && [copy, made][1..] == [made] && [made][1..] == [];
  }
}
