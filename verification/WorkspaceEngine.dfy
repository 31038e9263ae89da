/** The workspaces of the engine and the operations on them, alone and in runs. */
module WorkspaceEngine {
  import opened Wrappers
  import opened WorkspaceTree

  datatype Workspace = Workspace(id: Id, name: string, root: Tree, focused: Option<Id>)

  /** `uid` is the counter of `nextId`, `drag` the split whose gutter is being dragged. */
  datatype Engine = Engine(workspaces: seq<Workspace>, activeId: Id, uid: nat, drag: Option<Id>)

  datatype Event =
    | Focus(pane: Id)
    | Activate(tab: Id)
    | Close(tab: Id)
    | SplitPane(target: Id, vertical: bool)
    | AddTab(panel: string)
    | Switch(workspace: Id)
    | NewWorkspace(name: string)
    | StartDrag(split: Id)
    | Move(offset: real, extent: real)
    | EndDrag
    | Nest

  function IndexOf(workspaces: seq<Workspace>, id: Id): (i: nat)
    ensures i <= |workspaces|
    ensures i < |workspaces| ==> workspaces[i].id == id
    ensures i == |workspaces| ==> forall w :: w in workspaces ==> w.id != id
  {
    if workspaces == [] then 0 else if workspaces[0].id == id then 0 else IndexOf(workspaces[1..], id) + 1
  }

  /** Position of the active workspace. */
  function Active(s: Engine): nat {
    IndexOf(s.workspaces, s.activeId)
  }

  predicate HasActive(s: Engine) {
    Active(s) < |s.workspaces|
  }

  /** The pane whose tabs are shown in the tab bar. */
  function ShownPane(w: Workspace): Option<Tree> {
    var focused := FindPane(w.root, w.focused);
    if focused.Some? then focused else if w.root.Pane? then Some(w.root) else None
  }

  function ShownTabs(w: Workspace): seq<Tab> {
    var pane := ShownPane(w);
    if pane.Some? && pane.value.Pane? then pane.value.tabs else []
  }

  /** What the user can do: only panes, tabs and workspaces that are shown can be clicked. */
  predicate Possible(s: Engine, e: Event) {
    HasActive(s) &&
    var w := s.workspaces[Active(s)];
    match e
    case Focus(pane) => HasPane(w.root, pane)
    case Activate(tab) => tab in TabIds(ShownTabs(w))
    case Close(tab) => tab in TabIds(ShownTabs(w))
    case Switch(id) => IndexOf(s.workspaces, id) < |s.workspaces|
    case _ => true
  }

  // ---- the operations --------------------------------------------------------------------------

  function WithoutTab(tabs: seq<Tab>, id: Id): seq<Tab> {
    if tabs == [] then []
    else if tabs[0].id == id then WithoutTab(tabs[1..], id)
    else [tabs[0]] + WithoutTab(tabs[1..], id)
  }

  function ActivateIn(w: Workspace, tab: Id): Workspace {
    var pane := FindPane(w.root, w.focused);
    if pane.None? then w else w.(root := SetPane(w.root, pane.value.id, pane.value.tabs, Some(tab)))
  }

  function CloseIn(w: Workspace, tab: Id): Workspace {
    var pane := FindPane(w.root, w.focused);
    if pane.None? || |pane.value.tabs| <= 1 then w
    else
      var tabs := WithoutTab(pane.value.tabs, tab);
      var active := if pane.value.active == Some(tab) && tabs != [] then Some(tabs[0].id) else pane.value.active;
      w.(root := SetPane(w.root, pane.value.id, tabs, active))
  }

  function AddIn(w: Workspace, tab: Tab): Workspace {
    var pane := ShownPane(w);
    if pane.Some? && pane.value.Pane? then
      w.(root := SetPane(w.root, pane.value.id, pane.value.tabs + [tab], Some(tab.id)))
    else w
  }

  function SplitIn(w: Workspace, target: Id, vertical: bool, uid: nat): Workspace {
    var s := SplitTree(w.root, target, vertical, uid);
    w.(root := Replaced(w.root, target, vertical, uid), focused := if s.made.Some? then s.made else w.focused)
  }

  /** The workspace of `defaultWorkspace`. */
  function DefaultWorkspace(name: string, uid: nat): Workspace {
    var tabs := [NewTab(uid + 1, "terminal", "local ~"), NewTab(uid + 2, "sql", "prod-db"),
      NewTab(uid + 3, "logs", "api-gateway")];
    Workspace(uid + 5, name, Pane(uid + 4, tabs, Some(uid + 1)), Some(uid + 4))
  }

  /** The panes of the preset `nested`. */
  function NestedLeft(uid: nat): Tree {
    Pane(uid + 3, [NewTab(uid + 1, "terminal", "ssh prod-web-01"), NewTab(uid + 2, "logs", "nginx")], Some(uid + 1))
  }

  function NestedTop(uid: nat): Tree {
    Pane(uid + 5, [NewTab(uid + 4, "sql", "prod-db")], Some(uid + 4))
  }

  function NestedBottom(uid: nat): Tree {
    Pane(uid + 8, [NewTab(uid + 6, "docker", "compose"), NewTab(uid + 7, "knowledge", "Runbook")], Some(uid + 6))
  }

  function Nested(left: Tree, top: Tree, bottom: Tree, uid: nat): Tree {
    Split(uid + 10, false, Finite(0.52), left, Split(uid + 9, true, Finite(0.45), top, bottom))
  }

  function NestedTree(uid: nat): Tree {
    Nested(NestedLeft(uid), NestedTop(uid), NestedBottom(uid), uid)
  }

  function DraggedAll(workspaces: seq<Workspace>, split: Id, ratio: Num): seq<Workspace> {
    seq(|workspaces|, i requires 0 <= i < |workspaces| =>
      workspaces[i].(root := SetRatio(workspaces[i].root, split, ratio)))
  }

  function WithWorkspace(s: Engine, w: Workspace, uid: nat): Engine {
    s.(workspaces := s.workspaces + [w], activeId := w.id, uid := uid)
  }

  function Rebuilt(s: Engine, root: Tree, focused: Id, uid: nat): Engine
    requires HasActive(s)
  {
    var w := s.workspaces[Active(s)];
    s.(workspaces := s.workspaces[Active(s) := w.(root := root, focused := Some(focused))], uid := uid)
  }

  function Apply(s: Engine, e: Event): Engine
    requires HasActive(s)
  {
    var i := Active(s);
    var w := s.workspaces[i];
    match e
    case Focus(pane) => s.(workspaces := s.workspaces[i := w.(focused := Some(pane))])
    case Activate(tab) => s.(workspaces := s.workspaces[i := ActivateIn(w, tab)])
    case Close(tab) => s.(workspaces := s.workspaces[i := CloseIn(w, tab)])
    case SplitPane(target, vertical) =>
      s.(workspaces := s.workspaces[i := SplitIn(w, target, vertical, s.uid)],
         uid := SplitTree(w.root, target, vertical, s.uid).uid)
    case AddTab(panel) =>
      if ShownPane(w).None? then s
      else s.(workspaces := s.workspaces[i := AddIn(w, NewTab(s.uid + 1, panel, ""))], uid := s.uid + 1)
    case Switch(id) => s.(activeId := id)
    case NewWorkspace(name) => WithWorkspace(s, DefaultWorkspace(name, s.uid), s.uid + 5)
    case StartDrag(split) => if FindSplit(w.root, split).Some? then s.(drag := Some(split)) else s
    case Move(offset, extent) =>
      if s.drag.None? then s
      else s.(workspaces := DraggedAll(s.workspaces, s.drag.value, Clamp(Quotient(offset, extent))))
    case EndDrag => s.(drag := None)
    case Nest => Rebuilt(s, NestedTree(s.uid), s.uid + 3, s.uid + 10)
  }

  // ---- what every operation keeps ---------------------------------------------------------------

  predicate WorkspaceOk(w: Workspace, uid: nat) {
    && Unique(w.root) && PanesOk(w.root) && Below(Ids(w.root), uid) && w.id <= uid
    && w.focused.Some? && HasPane(w.root, w.focused.value)
  }

  predicate Apart(v: Workspace, w: Workspace) {
    v.id != w.id && Ids(v.root) !! Ids(w.root)
  }

  /**
   Ids are unique over all workspaces, no pane is empty, each active tab is in its pane, and each
   focused pane is in its tree.
   */
  predicate Inv(s: Engine) {
    && HasActive(s)
    && (forall i | 0 <= i < |s.workspaces| :: WorkspaceOk(s.workspaces[i], s.uid))
    && (forall i, j | 0 <= i < j < |s.workspaces| :: Apart(s.workspaces[i], s.workspaces[j]))
  }

  /** One workspace is exchanged for one whose new ids are above the counter. */
  lemma ExchangeOne(s: Engine, i: nat, w: Workspace, uid: nat)
    requires Inv(s) && i < |s.workspaces| && s.uid <= uid
    requires WorkspaceOk(w, uid) && w.id == s.workspaces[i].id
    requires forall id | id in Ids(w.root) :: id in Ids(s.workspaces[i].root) || id > s.uid
    ensures Inv(s.(workspaces := s.workspaces[i := w], uid := uid))
  {
    var t := s.(workspaces := s.workspaces[i := w], uid := uid);
    forall j, k | 0 <= j < k < |t.workspaces|
      ensures Apart(t.workspaces[j], t.workspaces[k])
    {
      assert Apart(s.workspaces[j], s.workspaces[k]);
      assert WorkspaceOk(s.workspaces[j], s.uid) && WorkspaceOk(s.workspaces[k], s.uid);
    }
    forall j | 0 <= j < |t.workspaces|
      ensures WorkspaceOk(t.workspaces[j], uid)
    {
      assert WorkspaceOk(s.workspaces[j], s.uid);
    }
    IndexSame(s.workspaces, i, w, s.activeId);
  }

  lemma {:induction false} IndexSame(workspaces: seq<Workspace>, i: nat, w: Workspace, id: Id)
    requires i < |workspaces| && w.id == workspaces[i].id
    ensures IndexOf(workspaces[i := w], id) == IndexOf(workspaces, id)
  {
    var changed := workspaces[i := w];
    if workspaces[0].id != id {
      if i == 0 {
        assert changed[1..] == workspaces[1..];
      } else {
        assert changed[1..] == workspaces[1..][i - 1 := w];
        IndexSame(workspaces[1..], i - 1, w, id);
      }
    }
  }

  /** A pane of `w` gets other tabs: its own ones and at most a new one. */
  lemma RetabbedOk(w: Workspace, pane: Tree, tabs: seq<Tab>, active: Option<Id>, extra: set<Id>, uid: nat, newUid: nat)
    requires WorkspaceOk(w, uid) && FindPane(w.root, w.focused) == Some(pane) && uid <= newUid
    requires DistinctTabs(tabs) && tabs != [] && active.Some? && active.value in TabIds(tabs)
    requires TabIds(tabs) <= TabIds(pane.tabs) + extra && forall id | id in extra :: uid < id <= newUid
    ensures var v := w.(root := SetPane(w.root, pane.id, tabs, active));
            WorkspaceOk(v, newUid) && forall id | id in Ids(v.root) :: id in Ids(w.root) || id > uid
  {
    assert extra !! Ids(w.root);
    SetPaneIds(w.root, pane.id, tabs, active, extra);
    SetPaneKeeps(w.root, pane.id, tabs, active);
    SetPaneFinds(w.root, pane.id, tabs, active, pane.id);
  }

  lemma {:induction false} ClosedTabs(tabs: seq<Tab>, id: Id)
    requires DistinctTabs(tabs)
    ensures var rest := WithoutTab(tabs, id);
            && DistinctTabs(rest) && TabIds(rest) == TabIds(tabs) - {id}
            && |rest| == |tabs| - (if id in TabIds(tabs) then 1 else 0)
            && forall tab :: tab in rest <==> tab in tabs && tab.id != id
  {
    if tabs != [] {
      ClosedTabs(tabs[1..], id);
      assert tabs == [tabs[0]] + tabs[1..];
      assert tabs[0].id !in TabIds(tabs[1..]);
    }
  }

  /** The other tabs stay in their order. */
  lemma {:induction false} ClosedTabCut(tabs: seq<Tab>, id: Id) returns (k: nat)
    requires DistinctTabs(tabs) && id in TabIds(tabs)
    ensures k < |tabs| && tabs[k].id == id && WithoutTab(tabs, id) == tabs[..k] + tabs[k + 1..]
  {
    if tabs[0].id == id {
      k := 0;
      NoTabGone(tabs[1..], id);
    } else {
      k := ClosedTabCut(tabs[1..], id);
      k := k + 1;
      assert tabs[..k] == [tabs[0]] + tabs[1..][..k - 1] && tabs[1..][k..] == tabs[k + 1..];
    }
  }

  lemma {:induction false} NoTabGone(tabs: seq<Tab>, id: Id)
    requires forall tab :: tab in tabs ==> tab.id != id
    ensures WithoutTab(tabs, id) == tabs
  {
    if tabs != [] {
      assert tabs[0] in tabs && tabs == [tabs[0]] + tabs[1..];
      NoTabGone(tabs[1..], id);
    }
  }

  /** The tab bar shows the tabs of the focused pane. */
  lemma ShownIsFocused(w: Workspace, uid: nat)
    requires WorkspaceOk(w, uid)
    ensures ShownPane(w) == FindPane(w.root, w.focused) && ShownPane(w).Some? && ShownPane(w).value.Pane?
    ensures ShownTabs(w) == ShownPane(w).value.tabs
    ensures Unique(ShownPane(w).value) && PanesOk(ShownPane(w).value) && Ids(ShownPane(w).value) <= Ids(w.root)
  {
    FoundPaneOk(w.root, w.focused.value);
  }

  lemma ActivateOk(s: Engine, tab: Id)
    requires Inv(s) && Possible(s, Activate(tab))
    ensures Inv(Apply(s, Activate(tab)))
  {
    var w := s.workspaces[Active(s)];
    ShownIsFocused(w, s.uid);
    var pane := FindPane(w.root, w.focused).value;
    RetabbedOk(w, pane, pane.tabs, Some(tab), {}, s.uid, s.uid);
    ExchangeOne(s, Active(s), ActivateIn(w, tab), s.uid);
  }

  lemma CloseOk(s: Engine, tab: Id)
    requires Inv(s) && Possible(s, Close(tab))
    ensures Inv(Apply(s, Close(tab)))
  {
    var w := s.workspaces[Active(s)];
    ShownIsFocused(w, s.uid);
    var pane := FindPane(w.root, w.focused).value;
    if |pane.tabs| > 1 {
      ClosedTabs(pane.tabs, tab);
      var tabs := WithoutTab(pane.tabs, tab);
      var active := if pane.active == Some(tab) && tabs != [] then Some(tabs[0].id) else pane.active;
      RetabbedOk(w, pane, tabs, active, {}, s.uid, s.uid);
    }
    ExchangeOne(s, Active(s), CloseIn(w, tab), s.uid);
  }

  lemma MoreTabs(tabs: seq<Tab>, tab: Tab, uid: nat)
    requires DistinctTabs(tabs) && Below(TabIds(tabs), uid) && tab.id > uid
    ensures DistinctTabs(tabs + [tab]) && TabIds(tabs + [tab]) == TabIds(tabs) + {tab.id}
  {
  }

  lemma AddOk(s: Engine, panel: string)
    requires Inv(s)
    ensures Inv(Apply(s, AddTab(panel)))
  {
    var w := s.workspaces[Active(s)];
    ShownIsFocused(w, s.uid);
    var pane, tab := FindPane(w.root, w.focused).value, NewTab(s.uid + 1, panel, "");
    MoreTabs(pane.tabs, tab, s.uid);
    RetabbedOk(w, pane, pane.tabs + [tab], Some(tab.id), {s.uid + 1}, s.uid, s.uid + 1);
    ExchangeOne(s, Active(s), AddIn(w, tab), s.uid + 1);
  }

  lemma SplitOk(s: Engine, target: Id, vertical: bool)
    requires Inv(s)
    ensures Inv(Apply(s, SplitPane(target, vertical)))
  {
    var w := s.workspaces[Active(s)];
    var uid := SplitTree(w.root, target, vertical, s.uid).uid;
    SplitIds(w.root, target, vertical, s.uid);
    SplitGrows(w.root, target, vertical, s.uid);
    SplitKeeps(w.root, target, vertical, s.uid);
    SplitFocus(w, target, vertical, s.uid);
    ExchangeOne(s, Active(s), SplitIn(w, target, vertical, s.uid), uid);
  }

  /** After a split the focused pane is in the new tree. */
  lemma SplitFocus(w: Workspace, target: Id, vertical: bool, uid: nat)
    requires WorkspaceOk(w, uid)
    ensures var v := SplitIn(w, target, vertical, uid);
            v.focused.Some? && HasPane(v.root, v.focused.value)
  {
    var v := SplitIn(w, target, vertical, uid);
    if HasPane(w.root, target) {
      var before, pane, copy, made, after := SplitReplacesOnePane(w.root, target, vertical, uid);
      assert made in Panes(v.root);
      FoundPanes(v.root, made.id);
    } else {
      SplitMisses(w.root, target, vertical, uid);
      FoundPanes(w.root, w.focused.value);
      FoundPanes(v.root, w.focused.value);
    }
  }

  lemma DefaultOk(name: string, uid: nat)
    ensures WorkspaceOk(DefaultWorkspace(name, uid), uid + 5)
    ensures forall id | id in Ids(DefaultWorkspace(name, uid).root) :: id > uid
  {
  }

  lemma NewApplied(s: Engine, name: string)
    requires HasActive(s)
    ensures Apply(s, NewWorkspace(name)) == WithWorkspace(s, DefaultWorkspace(name, s.uid), s.uid + 5)
  {
  }

  lemma NewOk(s: Engine, name: string)
    requires Inv(s)
    ensures Inv(WithWorkspace(s, DefaultWorkspace(name, s.uid), s.uid + 5))
  {
    DefaultOk(name, s.uid);
    OneMore(s, DefaultWorkspace(name, s.uid), s.uid + 5);
  }

  /** A workspace with new ids is added. */
  lemma OneMore(s: Engine, w: Workspace, uid: nat)
    requires Inv(s) && WorkspaceOk(w, uid) && w.id > s.uid && forall id | id in Ids(w.root) :: id > s.uid
    ensures Inv(WithWorkspace(s, w, uid))
  {
  }

  lemma NestApplied(s: Engine)
    requires HasActive(s)
    ensures Apply(s, Nest) == Rebuilt(s, NestedTree(s.uid), s.uid + 3, s.uid + 10)
  {
  }

  lemma NestOk(s: Engine)
    requires Inv(s)
    ensures Inv(Rebuilt(s, NestedTree(s.uid), s.uid + 3, s.uid + 10))
  {
    NestedOk(s.uid);
    NewRoot(s, NestedTree(s.uid), s.uid + 3, s.uid + 10);
  }

  /** A tree of new ids only, in which `focused` is a pane. */
  predicate Fresh(root: Tree, focused: Id, from: nat, to: nat) {
    && Unique(root) && PanesOk(root) && HasPane(root, focused)
    && from <= to && forall id | id in Ids(root) :: from < id <= to
  }

  /** The active workspace gets a tree of its own with new ids. */
  lemma NewRoot(s: Engine, root: Tree, focused: Id, uid: nat)
    requires Inv(s) && Fresh(root, focused, s.uid, uid)
    ensures Inv(Rebuilt(s, root, focused, uid))
  {
    var w := s.workspaces[Active(s)];
    assert WorkspaceOk(w, s.uid);
    ExchangeOne(s, Active(s), w.(root := root, focused := Some(focused)), uid);
  }

  /** A fresh pane with one or two tabs, the first one active. */
  lemma SmallPaneOk(pane: Tree, from: nat, to: nat)
    requires pane.Pane? && 1 <= |pane.tabs| <= 2 && pane.active == Some(pane.tabs[0].id)
    requires from < pane.tabs[0].id < pane.id <= to
    requires |pane.tabs| == 2 ==> pane.tabs[0].id < pane.tabs[1].id < pane.id
    ensures Unique(pane) && PanesOk(pane) && HasPane(pane, pane.id) && forall id | id in Ids(pane) :: from < id <= to
  {
  }

  lemma NestedOk(uid: nat)
    ensures var t := NestedTree(uid);
            RatiosOk(t) && Fresh(t, uid + 3, uid, uid + 10)
  {
    SmallPaneOk(NestedLeft(uid), uid, uid + 3);
    SmallPaneOk(NestedTop(uid), uid + 3, uid + 5);
    SmallPaneOk(NestedBottom(uid), uid + 5, uid + 8);
    NestedPanesOk(NestedLeft(uid), NestedTop(uid), NestedBottom(uid), uid);
  }

  lemma NestedPanesOk(left: Tree, top: Tree, bottom: Tree, uid: nat)
    requires left.Pane? && top.Pane? && bottom.Pane? && left.id == uid + 3
    requires Unique(left) && PanesOk(left) && forall id | id in Ids(left) :: uid < id <= uid + 3
    requires Unique(top) && PanesOk(top) && forall id | id in Ids(top) :: uid + 3 < id <= uid + 5
    requires Unique(bottom) && PanesOk(bottom) && forall id | id in Ids(bottom) :: uid + 5 < id <= uid + 8
    ensures var t := Nested(left, top, bottom, uid);
            RatiosOk(t) && Fresh(t, uid + 3, uid, uid + 10)
  {
    assert HasPane(left, uid + 3);
  }

  lemma {:induction false} IndexOfMap(v: seq<Workspace>, w: seq<Workspace>, id: Id)
    requires |v| == |w| && forall i | 0 <= i < |v| :: v[i].id == w[i].id
    ensures IndexOf(v, id) == IndexOf(w, id)
  {
    if v != [] && v[0].id != id {
      IndexOfMap(v[1..], w[1..], id);
    }
  }

  lemma MoveOk(s: Engine, offset: real, extent: real)
    requires Inv(s)
    ensures Inv(Apply(s, Move(offset, extent)))
  {
    if s.drag.Some? {
      var t, ratio := Apply(s, Move(offset, extent)), Clamp(Quotient(offset, extent));
      forall i | 0 <= i < |s.workspaces|
        ensures WorkspaceOk(t.workspaces[i], t.uid) && Ids(t.workspaces[i].root) == Ids(s.workspaces[i].root)
      {
        assert WorkspaceOk(s.workspaces[i], s.uid);
        SetRatioKeeps(s.workspaces[i].root, s.drag.value, ratio);
      }
      IndexOfMap(s.workspaces, t.workspaces, s.activeId);
      forall i, j | 0 <= i < j < |t.workspaces|
        ensures Apart(t.workspaces[i], t.workspaces[j])
      {
        assert Apart(s.workspaces[i], s.workspaces[j]);
      }
    }
  }

  lemma FocusOk(s: Engine, pane: Id)
    requires Inv(s) && Possible(s, Focus(pane))
    ensures Inv(Apply(s, Focus(pane)))
  {
    var w := s.workspaces[Active(s)];
    assert WorkspaceOk(w, s.uid);
    ExchangeOne(s, Active(s), w.(focused := Some(pane)), s.uid);
  }

  lemma InvStep(s: Engine, e: Event)
    requires Inv(s) && Possible(s, e)
    ensures Inv(Apply(s, e))
  {
    match e
    case Focus(pane) => FocusOk(s, pane);
    case Activate(tab) => ActivateOk(s, tab);
    case Close(tab) => CloseOk(s, tab);
    case SplitPane(target, vertical) => SplitOk(s, target, vertical);
    case AddTab(panel) => AddOk(s, panel);
    case NewWorkspace(name) => {
      NewOk(s, name);
      NewApplied(s, name);
    }
    case Move(offset, extent) => MoveOk(s, offset, extent);
    case Nest => {
      NestOk(s);
      NestApplied(s);
    }
    case _ =>
  }

  // ---- what single operations do --------------------------------------------------------------------

  /** The panes of `t` and `u` are the same, in order, but for one. */
  predicate OnePaneDiffers(t: Tree, u: Tree, before: seq<Tree>, was: Tree, now: Tree, after: seq<Tree>) {
    Panes(t) == before + [was] + after && Panes(u) == before + [now] + after
  }

  /** No workspace but the active one changes. */
  lemma OthersStay(s: Engine, e: Event, i: nat)
    requires Inv(s) && Possible(s, e) && !e.Move? && i < |s.workspaces| && i != Active(s)
    ensures i < |Apply(s, e).workspaces| && Apply(s, e).workspaces[i] == s.workspaces[i]
  {
  }

  /**
   Closing a tab takes exactly this tab from the focused pane, unless it is the last one there; if it
   was the active one, the first tab that is left becomes active. Nothing else changes.
   */
  lemma CloseRemovesOneTab(s: Engine, tab: Id) returns (before: seq<Tree>, pane: Tree, changed: Tree, after: seq<Tree>)
    requires Inv(s) && Possible(s, Close(tab))
    ensures var w, v := s.workspaces[Active(s)], Apply(s, Close(tab)).workspaces[Active(s)];
            && pane.Pane? && changed.Pane? && w.focused == Some(pane.id) && v.focused == w.focused
              && changed.id == pane.id
            && OnePaneDiffers(w.root, v.root, before, pane, changed, after)
            && (|pane.tabs| == 1 ==> changed == pane)
            && (|pane.tabs| > 1 ==>
                  && (exists k :: 0 <= k < |pane.tabs| && pane.tabs[k].id == tab
                        && changed.tabs == pane.tabs[..k] + pane.tabs[k + 1..])
                  && changed.active == if pane.active == Some(tab) then Some(changed.tabs[0].id) else pane.active)
  {
    var w := s.workspaces[Active(s)];
    ShownIsFocused(w, s.uid);
    pane := FindPane(w.root, w.focused).value;
    ClosedTabs(pane.tabs, tab);
    var k := ClosedTabCut(pane.tabs, tab);
    var tabs := if |pane.tabs| > 1 then WithoutTab(pane.tabs, tab) else pane.tabs;
    var active := if |pane.tabs| > 1 && pane.active == Some(tab) then Some(tabs[0].id) else pane.active;
    changed := Pane(pane.id, tabs, active);
    before, after := SetPanePanes(w.root, pane.id, tabs, active);
  }

  /** Adding a tab puts it last in the focused pane and makes it active. */
  lemma AddAppendsOneTab(s: Engine, panel: string)
      returns (before: seq<Tree>, pane: Tree, changed: Tree, after: seq<Tree>)
    requires Inv(s)
    ensures var w, v := s.workspaces[Active(s)], Apply(s, AddTab(panel)).workspaces[Active(s)];
            && pane.Pane? && changed.Pane? && w.focused == Some(pane.id) && v.focused == w.focused
              && changed.id == pane.id
            && OnePaneDiffers(w.root, v.root, before, pane, changed, after)
            && |changed.tabs| == |pane.tabs| + 1 && pane.tabs <= changed.tabs
            && changed.tabs[|pane.tabs|].panel == panel && changed.active == Some(changed.tabs[|pane.tabs|].id)
            && (panel == "sql" ==> changed.tabs[|pane.tabs|].title == "SQL 查询")
            && (panel == "logs" ==> changed.tabs[|pane.tabs|].title == "日志窗口")
            && (panel == "docker" ==> changed.tabs[|pane.tabs|].title == "Docker")
            && (panel == "knowledge" ==> changed.tabs[|pane.tabs|].title == "知识库")
            && (panel !in {"sql", "logs", "docker", "knowledge"} ==> changed.tabs[|pane.tabs|].title == "Terminal")
  {
    var w := s.workspaces[Active(s)];
    ShownIsFocused(w, s.uid);
    pane := FindPane(w.root, w.focused).value;
    var tab := NewTab(s.uid + 1, panel, "");
    changed := Pane(pane.id, pane.tabs + [tab], Some(tab.id));
    before, after := SetPanePanes(w.root, pane.id, pane.tabs + [tab], Some(tab.id));
  }

  /** Activating a tab changes nothing but the active tab of the focused pane. */
  lemma ActivateSelects(s: Engine, tab: Id) returns (before: seq<Tree>, pane: Tree, after: seq<Tree>)
    requires Inv(s) && Possible(s, Activate(tab))
    ensures var w, v := s.workspaces[Active(s)], Apply(s, Activate(tab)).workspaces[Active(s)];
            && pane.Pane? && w.focused == Some(pane.id) && v.focused == w.focused
            && OnePaneDiffers(w.root, v.root, before, pane, Pane(pane.id, pane.tabs, Some(tab)), after)
  {
    var w := s.workspaces[Active(s)];
    ShownIsFocused(w, s.uid);
    pane := FindPane(w.root, w.focused).value;
    before, after := SetPanePanes(w.root, pane.id, pane.tabs, Some(tab));
  }

  /** Splitting a pane of the active workspace focuses the pane that is new. */
  lemma SplitFocusesNewPane(s: Engine, target: Id, vertical: bool)
      returns (before: seq<Tree>, pane: Tree, copy: Tree, made: Tree, after: seq<Tree>)
    requires Inv(s) && HasPane(s.workspaces[Active(s)].root, target)
    ensures pane.Pane? && copy.Pane? && made.Pane? && pane.id == target && SplitOff(pane, copy, made)
    ensures var w, v := s.workspaces[Active(s)], Apply(s, SplitPane(target, vertical)).workspaces[Active(s)];
            && Panes(w.root) == before + [pane] + after && Panes(v.root) == before + [copy, made] + after
            && SplitFrom(w.root, v.root, target, vertical) && v.focused == Some(made.id)
  {
    var w := s.workspaces[Active(s)];
    before, pane, copy, made, after := SplitReplacesOnePane(w.root, target, vertical, s.uid);
    SplitKeepsDirections(w.root, target, vertical, s.uid);
  }

  /** A pane that is clicked is the one whose tabs are shown. */
  lemma FocusShowsPane(s: Engine, pane: Id)
    requires Inv(s) && Possible(s, Focus(pane))
    ensures var w, v := s.workspaces[Active(s)], Apply(s, Focus(pane)).workspaces[Active(s)];
            v.root == w.root && ShownPane(v) == FindPane(w.root, Some(pane)) && ShownPane(v).Some?
  {
  }

  /** Switching makes the workspace with the id the active one and changes no workspace. */
  lemma SwitchActivates(s: Engine, id: Id)
    requires Inv(s) && Possible(s, Switch(id))
    ensures var t := Apply(s, Switch(id));
            t.workspaces == s.workspaces && HasActive(t) && t.workspaces[Active(t)].id == id
  {
  }

  lemma {:induction false} LastIndex(workspaces: seq<Workspace>, w: Workspace)
    requires forall v :: v in workspaces ==> v.id != w.id
    ensures IndexOf(workspaces + [w], w.id) == |workspaces|
  {
    if workspaces != [] {
      assert (workspaces + [w])[1..] == workspaces[1..] + [w] && workspaces[0] in workspaces;
      LastIndex(workspaces[1..], w);
    }
  }

  /** A new workspace comes last, is the active one, and has one pane with three tabs, the first one active. */
  lemma NewWorkspaceShows(s: Engine, name: string)
    requires Inv(s)
    ensures var t := Apply(s, NewWorkspace(name));
            && |t.workspaces| == |s.workspaces| + 1 && t.workspaces[..|s.workspaces|] == s.workspaces
            && Active(t) == |s.workspaces|
            && var w := t.workspaces[|s.workspaces|];
            && w.name == name && w.root.Pane? && w.focused == Some(w.root.id)
            && |w.root.tabs| == 3 && w.root.active == Some(w.root.tabs[0].id)
            && w.root.tabs[0].panel == "terminal" && w.root.tabs[1].panel == "sql" && w.root.tabs[2].panel == "logs"
  {
    NewApplied(s, name);
    forall v | v in s.workspaces
      ensures v.id != s.uid + 5
    {
      var i :| 0 <= i < |s.workspaces| && s.workspaces[i] == v;
      assert WorkspaceOk(s.workspaces[i], s.uid);
    }
    LastIndex(s.workspaces, DefaultWorkspace(name, s.uid));
  }

  /** The preset: a pane on the left, which is focused, and two panes one above the other on the right. */
  lemma NestShows(s: Engine)
    requires Inv(s)
    ensures var root := Apply(s, Nest).workspaces[Active(s)].root;
            && root.Split? && !root.vertical && root.ratio == Finite(0.52)
            && root.second.Split? && root.second.vertical && root.second.ratio == Finite(0.45)
            && root.first.Pane? && root.second.first.Pane? && root.second.second.Pane?
            && Apply(s, Nest).workspaces[Active(s)].focused == Some(root.first.id)
            && |root.first.tabs| == 2 && root.first.tabs[0].panel == "terminal" && root.first.tabs[1].panel == "logs"
            && |root.second.first.tabs| == 1 && root.second.first.tabs[0].panel == "sql"
            && |root.second.second.tabs| == 2 && root.second.second.tabs[0].panel == "docker"
            && root.second.second.tabs[1].panel == "knowledge"
  {
    NestApplied(s);
  }

  /**
   A move of a drag gives the ratio of the pointer to the split whose gutter was taken, in whatever
   workspace it is; no other split changes, and without a drag nothing does.
   */
  lemma MoveSetsRatio(s: Engine, offset: real, extent: real, i: nat, other: Id)
    requires Inv(s) && i < |s.workspaces|
    ensures |Apply(s, Move(offset, extent)).workspaces| == |s.workspaces|
    ensures var w, v := s.workspaces[i], Apply(s, Move(offset, extent)).workspaces[i];
            && v.focused == w.focused && Panes(v.root) == Panes(w.root)
            && (s.drag.None? ==> v == w)
            && (s.drag.Some? && FindSplit(w.root, s.drag.value).Some? ==>
                  && FindSplit(v.root, s.drag.value).Some?
                  && FindSplit(v.root, s.drag.value).value.ratio == Clamp(Quotient(offset, extent)))
            && (s.drag != Some(other) && FindSplit(w.root, other).Some? ==>
                  && FindSplit(v.root, other).Some?
                  && FindSplit(v.root, other).value.ratio == FindSplit(w.root, other).value.ratio)
  {
    if s.drag.Some? {
      SetRatioSets(s.workspaces[i].root, s.drag.value, Clamp(Quotient(offset, extent)), other);
      SetRatioKeeps(s.workspaces[i].root, s.drag.value, Clamp(Quotient(offset, extent)));
    }
  }

  /** A drag begins at a gutter of the active workspace and goes on until it ends. */
  lemma DragBeginsAndEnds(s: Engine, split: Id, offset: real, extent: real)
    requires Inv(s) && FindSplit(s.workspaces[Active(s)].root, split).Some?
    ensures Apply(s, StartDrag(split)).drag == Some(split) && Apply(s, EndDrag).drag == None
    ensures Apply(s, StartDrag(split)).workspaces == Apply(s, EndDrag).workspaces == s.workspaces
    ensures Apply(s, Move(offset, extent)).drag == s.drag
  {
  }

  // ---- runs --------------------------------------------------------------------------------------

  /** The state after `events`, or `None` if one of them could not happen. */
  function Run(s: Engine, events: seq<Event>): Option<Engine>
    decreases |events|
  {
    if events == [] then Some(s)
    else if Possible(s, events[0]) then Run(Apply(s, events[0]), events[1..])
    else None
  }

  /** Every run keeps unique ids, panes that are not empty, active tabs in their panes, and focus in the tree. */
  lemma {:induction false} InvRun(s: Engine, events: seq<Event>)
    requires Inv(s) && Run(s, events).Some?
    ensures Inv(Run(s, events).value)
    decreases |events|
  {
    if events != [] {
      InvStep(s, events[0]);
      InvRun(Apply(s, events[0]), events[1..]);
    }
  }

  predicate AllInRange(s: Engine) {
    forall i | 0 <= i < |s.workspaces| :: RatiosOk(s.workspaces[i].root)
  }

  /** The gutter of a split that still exists is moved in a container without extent, at its very edge. */
  predicate Degenerate(s: Engine, e: Event) {
    e.Move? && e.offset == 0.0 && e.extent == 0.0 && s.drag.Some?
    && exists w :: w in s.workspaces && FindSplit(w.root, s.drag.value).Some?
  }

  lemma MoveRange(s: Engine, offset: real, extent: real)
    requires Inv(s) && AllInRange(s)
    ensures AllInRange(Apply(s, Move(offset, extent))) <==> !Degenerate(s, Move(offset, extent))
  {
    if s.drag.Some? {
      var ratio := Clamp(Quotient(offset, extent));
      DraggedRatio(offset, extent);
      var t := Apply(s, Move(offset, extent));
      forall i | 0 <= i < |s.workspaces|
        ensures RatiosOk(t.workspaces[i].root) <==>
                  FindSplit(s.workspaces[i].root, s.drag.value).None? || InRange(ratio)
      {
        SetRatioKeeps(s.workspaces[i].root, s.drag.value, ratio);
      }
    }
  }

  lemma OneInRange(s: Engine, w: Workspace)
    requires HasActive(s) && AllInRange(s) && RatiosOk(w.root)
    ensures forall t: Engine :: t.workspaces == s.workspaces[Active(s) := w] ==> AllInRange(t)
  {
  }

  lemma RootInRange(s: Engine, root: Tree, focused: Id, uid: nat)
    requires HasActive(s) && AllInRange(s) && RatiosOk(root)
    ensures AllInRange(Rebuilt(s, root, focused, uid))
  {
  }

  lemma TabRange(s: Engine, e: Event)
    requires Inv(s) && AllInRange(s) && (e.Activate? || e.Close? || e.AddTab?)
    ensures AllInRange(Apply(s, e))
  {
    var w := s.workspaces[Active(s)];
    ShownIsFocused(w, s.uid);
    var pane := FindPane(w.root, w.focused).value;
    match e
    case Activate(tab) => {
      SetPaneKeeps(w.root, pane.id, pane.tabs, Some(tab));
      OneInRange(s, ActivateIn(w, tab));
    }
    case Close(tab) => {
      var tabs := WithoutTab(pane.tabs, tab);
      SetPaneKeeps(w.root, pane.id, tabs,
        if pane.active == Some(tab) && tabs != [] then Some(tabs[0].id) else pane.active);
      OneInRange(s, CloseIn(w, tab));
    }
    case AddTab(panel) => {
      var tab := NewTab(s.uid + 1, panel, "");
      SetPaneKeeps(w.root, pane.id, pane.tabs + [tab], Some(tab.id));
      OneInRange(s, AddIn(w, tab));
    }
  }

  /** Ratios stay between 0.15 and 0.85, except in a degenerate drag, where they never do. */
  lemma RangeStep(s: Engine, e: Event)
    requires Inv(s) && AllInRange(s) && Possible(s, e)
    ensures AllInRange(Apply(s, e)) <==> !Degenerate(s, e)
  {
    var w := s.workspaces[Active(s)];
    match e
    case Move(offset, extent) => MoveRange(s, offset, extent);
    case Focus(p) => OneInRange(s, w.(focused := Some(p)));
    case SplitPane(target, vertical) => {
      SplitKeeps(w.root, target, vertical, s.uid);
      OneInRange(s, SplitIn(w, target, vertical, s.uid));
    }
    case Nest => {
      NestedOk(s.uid);
      RootInRange(s, NestedTree(s.uid), s.uid + 3, s.uid + 10);
    }
    case _ => if e.Activate? || e.Close? || e.AddTab? { TabRange(s, e); }
  }

  predicate NeverDegenerate(s: Engine, events: seq<Event>)
    decreases |events|
  {
    events == []
    || (Possible(s, events[0]) && !Degenerate(s, events[0]) && NeverDegenerate(Apply(s, events[0]), events[1..]))
  }

  /** All ratios are in range now and after each of the events. */
  predicate StaysInRange(s: Engine, events: seq<Event>)
    decreases |events|
  {
    AllInRange(s)
    && (events == [] || (Possible(s, events[0]) && StaysInRange(Apply(s, events[0]), events[1..])))
  }

  /** A run of possible events keeps all ratios in range throughout exactly when none of them is degenerate. */
  lemma {:induction false} RangeRun(s: Engine, events: seq<Event>)
    requires Inv(s) && AllInRange(s) && Run(s, events).Some?
    ensures StaysInRange(s, events) <==> NeverDegenerate(s, events)
    decreases |events|
  {
    if events != [] {
      InvStep(s, events[0]);
      RangeStep(s, events[0]);
      if !Degenerate(s, events[0]) {
        RangeRun(Apply(s, events[0]), events[1..]);
      }
    }
  }

  /** The events of splitting a pane and dragging the gutter `split` at the edge of an empty container. */
  function EdgeDrag(pane: Id, vertical: bool, split: Id): seq<Event> {
    [SplitPane(pane, vertical), StartDrag(split), Move(0.0, 0.0)]
  }

  lemma RunThree(s: Engine, a: Event, b: Event, c: Event)
    requires Possible(s, a) && Possible(Apply(s, a), b) && Possible(Apply(Apply(s, a), b), c)
    ensures Run(s, [a, b, c]) == Some(Apply(Apply(Apply(s, a), b), c))
  {
    var t, u := Apply(s, a), Apply(Apply(s, a), b);
    assert [a, b, c][1..] == [b, c] && [b, c][1..] == [c] && [c][1..] == [];
    assert Run(u, [c]) == Run(Apply(u, c), []);
    assert Run(t, [b, c]) == Run(u, [c]);
  }

  /** Where the active root is a split, its gutter can be dragged, and a degenerate drag takes it out of range. */
  lemma RootDragBreaksRange(s: Engine, split: Id)
    requires Inv(s) && AllInRange(s) && s.workspaces[Active(s)].root.Split? && s.workspaces[Active(s)].root.id == split
    ensures Inv(Apply(s, StartDrag(split)))
    ensures !AllInRange(Apply(Apply(s, StartDrag(split)), Move(0.0, 0.0)))
  {
    InvStep(s, StartDrag(split));
    RangeStep(s, StartDrag(split));
    var dragging := Apply(s, StartDrag(split));
    assert s.workspaces[Active(s)] in dragging.workspaces;
    RangeStep(dragging, Move(0.0, 0.0));
  }

  /** In every state that satisfies the invariant three events can make a ratio that is no number. */
  lemma RatioCanBeNoNumber(s: Engine, vertical: bool) returns (pane: Id, split: Id)
    requires Inv(s) && AllInRange(s)
    ensures Run(s, EdgeDrag(pane, vertical, split)).Some?
    ensures !AllInRange(Run(s, EdgeDrag(pane, vertical, split)).value)
  {
    pane := s.workspaces[Active(s)].focused.value;
    var a := SplitPane(pane, vertical);
    InvStep(s, a);
    RangeStep(s, a);
    var t := Apply(s, a);
    SplitMakesSplit(s, pane, vertical);
    split := t.workspaces[Active(t)].root.id;
    RootDragBreaksRange(t, split);
    RunThree(s, a, StartDrag(split), Move(0.0, 0.0));
  }

  lemma SplitMakesSplit(s: Engine, pane: Id, vertical: bool)
    requires Inv(s) && s.workspaces[Active(s)].focused == Some(pane)
    ensures var t := Apply(s, SplitPane(pane, vertical)); HasActive(t) && t.workspaces[Active(t)].root.Split?
  {
    var w := s.workspaces[Active(s)];
    assert WorkspaceOk(w, s.uid);
    IndexSame(s.workspaces, Active(s), SplitIn(w, pane, vertical, s.uid), s.activeId);
  }

  /** The state of a new engine. */
  function Defaults(): Engine {
    Engine([DefaultWorkspace("故障排查", 0), DefaultWorkspace("日常开发", 5)], 5, 10, None)
  }

  lemma DefaultsOk()
    ensures Inv(Defaults()) && AllInRange(Defaults())
  {
    DefaultOk("故障排查", 0);
    DefaultOk("日常开发", 5);
  }

  /** So a new engine is three events away from a ratio that is no number. */
  lemma NewEngineLosesARatio() returns (pane: Id, split: Id)
    ensures Run(Defaults(), EdgeDrag(pane, false, split)).Some?
    ensures !AllInRange(Run(Defaults(), EdgeDrag(pane, false, split)).value)
  {
    DefaultsOk();
    pane, split := RatioCanBeNoNumber(Defaults(), false);
  }

  // ---- a whole drag ----------------------------------------------------------------------------------

  lemma {:induction false} LastRatioStays(t: Tree, id: Id, first: Num, second: Num)
    ensures SetRatio(SetRatio(t, id, first), id, second) == SetRatio(t, id, second)
    ensures FindSplit(SetRatio(t, id, first), id).Some? <==> FindSplit(t, id).Some?
  {
    if t.Split? && t.id != id {
      LastRatioStays(t.first, id, first, second);
      LastRatioStays(t.second, id, first, second);
    }
  }

  lemma DraggedTwice(workspaces: seq<Workspace>, id: Id, first: Num, second: Num)
    ensures DraggedAll(DraggedAll(workspaces, id, first), id, second) == DraggedAll(workspaces, id, second)
  {
    forall i | 0 <= i < |workspaces|
      ensures SetRatio(SetRatio(workspaces[i].root, id, first), id, second) == SetRatio(workspaces[i].root, id, second)
    {
      LastRatioStays(workspaces[i].root, id, first, second);
    }
  }

  lemma IndexDragged(workspaces: seq<Workspace>, id: Id, split: Id, ratio: Num)
    ensures IndexOf(DraggedAll(workspaces, split, ratio), id) == IndexOf(workspaces, id)
  {
    IndexOfMap(DraggedAll(workspaces, split, ratio), workspaces, id);
  }

  // ---- the engine object ---------------------------------------------------------------------------

  class Controller {
    var workspaces: seq<Workspace>
    var activeId: Id
    var uid: nat
    var drag: Option<Id>

    ghost function View(): Engine
      reads this
    {
      Engine(workspaces, activeId, uid, drag)
    }

    constructor ()
      ensures View() == Defaults() && Inv(View()) && AllInRange(View())
    {
      workspaces := [DefaultWorkspace("故障排查", 0), DefaultWorkspace("日常开发", 5)];
      activeId, uid, drag := 5, 10, None;
      new;
      DefaultsOk();
    }

    method NextId() returns (id: Id)
      modifies this`uid
      ensures uid == old(uid) + 1 == id
    {
      uid := uid + 1;
      id := uid;
    }

    /** Position of the active workspace. */
    method FindActive() returns (i: nat)
      requires HasActive(View())
      ensures i == Active(View())
    {
      i := 0;
      while workspaces[i].id != activeId
        invariant i < |workspaces| && Active(View()) == i + IndexOf(workspaces[i..], activeId)
        decreases |workspaces| - i
      {
        assert workspaces[i..][1..] == workspaces[i + 1..];
        i := i + 1;
      }
    }

    method FocusPane(pane: Id)
      requires HasActive(View())
      modifies this`workspaces
      ensures View() == Apply(old(View()), Focus(pane))
    {
      var i := FindActive();
      workspaces := workspaces[i := workspaces[i].(focused := Some(pane))];
    }

    method ActivateTab(tab: Id)
      requires HasActive(View())
      modifies this`workspaces
      ensures View() == Apply(old(View()), Activate(tab))
    {
      var i := FindActive();
      var w := workspaces[i];
      var pane := FindPane(w.root, w.focused);
      if pane.Some? {
        workspaces := workspaces[i := w.(root := SetPane(w.root, pane.value.id, pane.value.tabs, Some(tab)))];
      }
    }

    method CloseTab(tab: Id)
      requires HasActive(View())
      modifies this`workspaces
      ensures View() == Apply(old(View()), Close(tab))
    {
      var i := FindActive();
      var w := workspaces[i];
      var pane := FindPane(w.root, w.focused);
      if pane.None? || |pane.value.tabs| <= 1 {
        assert workspaces[i := w] == workspaces;
        return;
      }
      var shown, tabs := pane.value.tabs, [];
      for k := 0 to |shown|
        invariant WithoutTab(shown, tab) == tabs + WithoutTab(shown[k..], tab)
      {
        assert shown[k..][0] == shown[k] && shown[k..][1..] == shown[k + 1..];
        if shown[k].id != tab {
          tabs := tabs + [shown[k]];
        }
      }
      assert shown[|shown|..] == [] && tabs == WithoutTab(shown, tab);
      var active := pane.value.active;
      if active == Some(tab) && tabs != [] {
        active := Some(tabs[0].id);
      }
      workspaces := workspaces[i := w.(root := SetPane(w.root, pane.value.id, tabs, active))];
    }

    /** `replaceNode`, with the id of the pane that was split off. */
    method ReplaceNode(node: Tree, target: Id, vertical: bool) returns (replaced: Option<Tree>, made: Option<Id>)
      modifies this`uid
      ensures Splitting(replaced, uid, made) == SplitTree(node, target, vertical, old(uid))
      decreases node
    {
      if node.Pane? && node.id == target {
        var shown := FindTab(node.tabs, node.active);
        var tabId := NextId();
        var tab := NewTab(tabId, if shown.Some? then shown.value.panel else "terminal", SplitTabTitle(shown));
        var paneId := NextId();
        var cloneId := NextId();
        var clone := Pane(cloneId, node.tabs, WithActive(node.tabs, node.active));
        var splitId := NextId();
        return Some(Split(splitId, vertical, Finite(0.55), clone, Pane(paneId, [tab], Some(tabId)))), Some(paneId);
      }
      if node.Split? {
        var first, madeFirst := ReplaceNode(node.first, target, vertical);
        var second, madeSecond := ReplaceNode(node.second, target, vertical);
        var splitId := NextId();
        return Some(Split(splitId, node.vertical, node.ratio, if first.Some? then first.value else node.first,
                          if second.Some? then second.value else node.second)),
               if madeSecond.Some? then madeSecond else madeFirst;
      }
      return None, None;
    }

    method SplitActive(target: Id, vertical: bool)
      requires HasActive(View())
      modifies this`workspaces, this`uid
      ensures View() == Apply(old(View()), SplitPane(target, vertical))
    {
      var i := FindActive();
      var w := workspaces[i];
      var replaced, made := ReplaceNode(w.root, target, vertical);
      var focused := if made.Some? then made else w.focused;
      workspaces := workspaces[i := w.(root := if replaced.Some? then replaced.value else w.root, focused := focused)];
    }

    method AddNewTab(panel: string)
      requires HasActive(View())
      modifies this`workspaces, this`uid
      ensures View() == Apply(old(View()), AddTab(panel))
    {
      var i := FindActive();
      var w := workspaces[i];
      var pane := FindPane(w.root, w.focused);
      if pane.None? && w.root.Pane? {
        pane := Some(w.root);
      }
      if pane.None? {
        return;
      }
      var id := NextId();
      var tabs := pane.value.tabs + [NewTab(id, panel, "")];
      workspaces := workspaces[i := w.(root := SetPane(w.root, pane.value.id, tabs, Some(id)))];
    }

    method SwitchTo(id: Id)
      requires HasActive(View())
      modifies this`activeId
      ensures View() == Apply(old(View()), Switch(id))
    {
      activeId := id;
    }

    method AddWorkspace(name: string)
      requires HasActive(View())
      modifies this`workspaces, this`uid, this`activeId
      ensures View() == Apply(old(View()), NewWorkspace(name))
    {
      var terminal := NextId();
      var sql := NextId();
      var logs := NextId();
      var tabs := [NewTab(terminal, "terminal", "local ~"), NewTab(sql, "sql", "prod-db"),
        NewTab(logs, "logs", "api-gateway")];
      var paneId := NextId();
      var id := NextId();
      workspaces := workspaces + [Workspace(id, name, Pane(paneId, tabs, Some(terminal)), Some(paneId))];
      activeId := id;
    }

    method BeginDrag(split: Id)
      requires HasActive(View())
      modifies this`drag
      ensures View() == Apply(old(View()), StartDrag(split))
    {
      var i := FindActive();
      var found := FindSplit(workspaces[i].root, split);
      if found.Some? {
        drag := Some(split);
      }
    }

    /** The `mousemove` listener: the split keeps its identity even if its workspace is no longer active. */
    method Drag(offset: real, extent: real)
      requires HasActive(View())
      modifies this`workspaces
      ensures View() == Apply(old(View()), Move(offset, extent))
    {
      if drag.None? {
        return;
      }
      var ratio := Clamp(Quotient(offset, extent));
      var all := workspaces;
      for i := 0 to |all|
        invariant |workspaces| == |all|
        invariant forall j | 0 <= j < i :: workspaces[j] == all[j].(root := SetRatio(all[j].root, drag.value, ratio))
        invariant forall j | i <= j < |all| :: workspaces[j] == all[j]
      {
        workspaces := workspaces[i := all[i].(root := SetRatio(all[i].root, drag.value, ratio))];
      }
      assert workspaces == DraggedAll(all, drag.value, ratio);
    }

    method StopDrag()
      requires HasActive(View())
      modifies this`drag
      ensures View() == Apply(old(View()), EndDrag)
    {
      drag := None;
    }

    /**
     A whole drag, from the press on a gutter to the release: if the split is in the active workspace
     its ratio is what the last move made it, whatever the moves before; nothing else changes.
     */
    method DragGutter(split: Id, moves: seq<(real, real)>)
      requires HasActive(View()) && drag.None?
      modifies this`workspaces, this`drag
      ensures HasActive(View()) && drag.None?
      ensures var found := FindSplit(old(workspaces)[Active(old(View()))].root, split).Some?;
              workspaces == if !found || moves == [] then old(workspaces)
                            else var last := moves[|moves| - 1];
                                 DraggedAll(old(workspaces), split, Clamp(Quotient(last.0, last.1)))
    {
      BeginDrag(split);
      ghost var start := workspaces;
      for i := 0 to |moves|
        invariant HasActive(View())
        invariant drag == if FindSplit(start[Active(old(View()))].root, split).Some? then Some(split) else None
        invariant workspaces == if drag.None? || i == 0 then start
                                else DraggedAll(start, split, Clamp(Quotient(moves[i - 1].0, moves[i - 1].1)))
      {
        IndexDragged(workspaces, activeId, split, Clamp(Quotient(moves[i].0, moves[i].1)));
        if i > 0 {
          DraggedTwice(start, split, Clamp(Quotient(moves[i - 1].0, moves[i - 1].1)),
            Clamp(Quotient(moves[i].0, moves[i].1)));
        }
        Drag(moves[i].0, moves[i].1);
      }
      StopDrag();
    }
  }
}
