/** Object keys of a pushed snapshot: how they are built and taken apart. */
module ObjectKeys {
  import opened Wrappers
  import Text

  predicate OccursAt(s: string, pat: string, i: nat) {
    i + |pat| <= |s| && s[i..i + |pat|] == pat
  }

  ghost predicate Contains(s: string, pat: string) {
    exists i: nat :: OccursAt(s, pat, i)
  }

  /** `rfind`, restricted to occurrences that start below `limit`. */
  function RFindBelow(s: string, pat: string, limit: nat): (r: Option<nat>)
    ensures r.Some? ==> r.value < limit && OccursAt(s, pat, r.value)
                        && forall i | r.value < i < limit :: !OccursAt(s, pat, i)
    ensures r.None? ==> forall i | 0 <= i < limit :: !OccursAt(s, pat, i)
  {
    if limit == 0 then None
    else if OccursAt(s, pat, limit - 1) then Some(limit - 1)
    else RFindBelow(s, pat, limit - 1)
  }

  function RFind(s: string, pat: string): (r: Option<nat>)
    requires pat != ""
    ensures r.None? <==> !Contains(s, pat)
    ensures r.Some? ==> OccursAt(s, pat, r.value) && forall i: nat | r.value < i :: !OccursAt(s, pat, i)
  {
    RFindBelow(s, pat, |s|)
  }

  function StripSuffix(s: string, suffix: string): (r: Option<string>)
    ensures r.Some? <==> exists x :: s == x + suffix
    ensures r.Some? ==> s == r.value + suffix
  {
    if |suffix| <= |s| && s[|s| - |suffix|..] == suffix then
      assert s == s[..|s| - |suffix|] + suffix;
      Some(s[..|s| - |suffix|])
    else None
  }

  function StripPrefix(s: string, prefix: string): (r: Option<string>)
    ensures r.Some? <==> exists x :: s == prefix + x
    ensures r.Some? ==> s == prefix + r.value
  {
    if |prefix| <= |s| && s[..|prefix|] == prefix then
      assert s == prefix + s[|prefix|..];
      Some(s[|prefix|..])
    else None
  }

  /** `rsplit_once`: the text before and after the last occurrence. */
  function RSplitOnce(s: string, pat: string): (r: Option<(string, string)>)
    requires pat != ""
    ensures r.None? <==> !Contains(s, pat)
    ensures r.Some? ==> s == r.value.0 + pat + r.value.1
  {
    var at := RFind(s, pat);
    if at.None? then None
    else
      assert s == s[..at.value] + pat + s[at.value + |pat|..];
      Some((s[..at.value], s[at.value + |pat|..]))
  }

  /** `trim_matches('/')`. */
  function TrimSlashes(s: string): string {
    Text.Trim({'/'}, s)
  }

  // ---- the keys of one snapshot -----------------------------------------------------------

  const MODULE_IDS: seq<string> := [
    "terminal", "database", "docker", "files", "server", "knowledge", "protocol", "tasks", "assistant", "aiModels"]

  /** Paths relative to the snapshot directory, in upload order: modules first, the overview last. */
  function RelativePath(i: nat): string
    requires i <= |MODULE_IDS|
  {
    if i < |MODULE_IDS| then "modules/" + MODULE_IDS[i] + ".json" else "overview.json"
  }

  function Key(dir: string, i: nat): string
    requires i <= |MODULE_IDS|
  {
    dir + "/" + RelativePath(i)
  }

  function ExtractModuleId(key: string): Option<string> {
    var pos := RFind(key, "/modules/");
    if pos.None? then None else StripSuffix(key[pos.value + 9..], ".json")
  }

  /** `…/snapshots/{run}` to `…/latest`. */
  function LatestPrefix(snapshotDir: string): Option<string> {
    var split := RSplitOnce(TrimSlashes(snapshotDir), "/snapshots/");
    if split.None? || split.value.0 == "" then None else Some(split.value.0 + "/latest")
  }

  predicate NoSlash(s: string) {
    forall i | 0 <= i < |s| :: s[i] != '/'
  }

  /** A path splits at its last slash in only one way. */
  lemma LastSegment(x: string, y: string, s: string, t: string)
    requires NoSlash(s) && NoSlash(t)
    requires x + "/" + s == y + "/" + t
    ensures x == y && s == t
  {
    var p := x + "/" + s;
    assert p[|x|] == '/' && p[|y|] == '/' by { assert (y + "/" + t)[|y|] == '/'; }
    assert forall k | |x| < k < |p| :: p[k] == s[k - |x| - 1];
    assert forall k | |y| < k < |p| :: p[k] == (y + "/" + t)[k] == t[k - |y| - 1];
    assert x == p[..|x|] && y == p[..|y|];
    assert s == p[|x| + 1..] && t == p[|y| + 1..];
  }

  function FileName(i: nat): (r: string)
    requires i <= |MODULE_IDS|
    ensures NoSlash(r)
  {
    if i < |MODULE_IDS| then MODULE_IDS[i] + ".json" else "overview.json"
  }

  function Folder(dir: string, i: nat): string {
    if i < |MODULE_IDS| then dir + "/modules" else dir
  }

  lemma KeyShape(dir: string, i: nat)
    requires i <= |MODULE_IDS|
    ensures Key(dir, i) == Folder(dir, i) + "/" + FileName(i)
  {
    if i < |MODULE_IDS| {
      var id := MODULE_IDS[i];
      assert dir + "/" + ("modules/" + id + ".json") == (dir + "/modules") + "/" + (id + ".json");
    }
  }

  lemma ModuleIdsDistinct(i: nat, j: nat)
    requires i < |MODULE_IDS| && j < |MODULE_IDS| && MODULE_IDS[i] == MODULE_IDS[j]
    ensures i == j
  {
  }

  lemma FileNamesDistinct(i: nat, j: nat)
    requires i <= |MODULE_IDS| && j <= |MODULE_IDS| && FileName(i) == FileName(j)
    ensures i == j
  {
    assert "overview.json"[0] == 'o';
    assert i < |MODULE_IDS| ==> FileName(i)[0] == "tddfskptaa"[i];
    assert j < |MODULE_IDS| ==> FileName(j)[0] == "tddfskptaa"[j];
    if i < |MODULE_IDS| && j < |MODULE_IDS| {
      assert MODULE_IDS[i] == FileName(i)[..|FileName(i)| - 5];
      assert MODULE_IDS[j] == FileName(j)[..|FileName(j)| - 5];
      ModuleIdsDistinct(i, j);
    }
  }

  /** Keys collide only for the same file of the same directory. */
  lemma KeysInjective(d: string, e: string, i: nat, j: nat)
    requires i <= |MODULE_IDS| && j <= |MODULE_IDS| && Key(d, i) == Key(e, j)
    ensures d == e && i == j
  {
    KeyShape(d, i);
    KeyShape(e, j);
    LastSegment(Folder(d, i), Folder(e, j), FileName(i), FileName(j));
    FileNamesDistinct(i, j);
    if i < |MODULE_IDS| {
      assert d == Folder(d, i)[..|Folder(d, i)| - 8] && e == Folder(e, j)[..|Folder(e, j)| - 8];
    }
  }

  // ---- the directory of one push ------------------------------------------------------------

  /** `wanted` is the trimmed, non-empty override if one was given. */
  function ResolveSnapshotDir(wanted: Option<string>, grantedPrefix: Option<string>, defaultDir: string): string {
    match wanted
    case Some(raw) =>
      var trimmed := TrimSlashes(raw);
      if StripSuffix(trimmed, ".json").Some? then
        var split := RSplitOnce(trimmed, "/");
        if split.Some? then split.value.0 else trimmed
      else trimmed
    case None =>
      var prefix := TrimSlashes(if grantedPrefix.Some? then grantedPrefix.value else "");
      if prefix == "" then defaultDir
      else
        var split := RSplitOnce(defaultDir, "/snapshots/");
        prefix + "/snapshots/" + (if split.Some? then split.value.1 else defaultDir)
  }

  /** Where a marker that ends in a slash was last written, the text is split. */
  lemma SplitAtMarker(home: string, marker: string, leaf: string)
    requires NoSlash(leaf) && marker != "" && marker[|marker| - 1] == '/'
    ensures RSplitOnce(home + marker + leaf, marker) == Some((home, leaf))
  {
    var dir, m := home + marker + leaf, |marker|;
    assert forall k | |home| + m <= k < |dir| :: dir[k] == leaf[k - |home| - m];
    assert OccursAt(dir, marker, |home|);
    forall j: nat | OccursAt(dir, marker, j)
      ensures j <= |home|
    {
      assert dir[j + m - 1] == dir[j..j + m][m - 1] == '/';
    }
    assert dir[..|home|] == home && dir[|home| + m..] == leaf;
  }

  /** The text between slashes, if there is any. */
  ghost predicate Inner(raw: string, core: string) {
    exists before, after ::
      Text.AllIn({'/'}, before) && Text.AllIn({'/'}, after) && raw == before + core + after
  }

  lemma TrimmedIs(raw: string, core: string)
    requires Inner(raw, core) && Text.IsTrimmed({'/'}, core)
    ensures TrimSlashes(raw) == core
  {
    var before, after :| Text.AllIn({'/'}, before) && Text.AllIn({'/'}, after) && raw == before + core + after;
    Text.TrimIs({'/'}, before, core, after);
  }

  /** An override wins over every granted prefix. It is the directory, slashes around it aside. */
  lemma OverrideDir(raw: string, dir: string, granted: Option<string>, defaultDir: string)
    requires Inner(raw, dir) && Text.IsTrimmed({'/'}, dir)
    requires NoSlash(dir) || !(exists stem :: dir == stem + ".json")
    ensures ResolveSnapshotDir(Some(raw), granted, defaultDir) == dir
  {
    TrimmedIs(raw, dir);
    if NoSlash(dir) {
      assert RSplitOnce(dir, "/").None?;
    }
  }

  /** An override that names a `.json` file in a directory stands for that directory. */
  lemma OverrideFile(raw: string, dir: string, stem: string, granted: Option<string>, defaultDir: string)
    requires NoSlash(stem) && dir != "" && dir[0] != '/' && Inner(raw, dir + "/" + (stem + ".json"))
    ensures ResolveSnapshotDir(Some(raw), granted, defaultDir) == dir
  {
    var name := stem + ".json";
    var path := dir + "/" + name;
    assert path[0] == dir[0] && path[|path| - 1] == name[|name| - 1] == 'n';
    TrimmedIs(raw, path);
    assert path == (dir + "/" + stem) + ".json";
    SplitAtMarker(dir, "/", name);
  }

  /**
   Without an override, a push goes to `/snapshots/` and its own leaf under the granted prefix, slashes
   around it aside, or under the user's home if no prefix is granted; the latest files go beside it.
   */
  lemma GeneratedDir(granted: Option<string>, home: string, leaf: string) returns (parent: string)
    requires NoSlash(leaf) && leaf != "" && home != "" && home[0] != '/'
    ensures parent != ""
    ensures granted.None? ==> parent == home
    ensures granted.Some? && Text.AllIn({'/'}, granted.value) ==> parent == home
    ensures granted.Some? ==> forall core | Inner(granted.value, core) && Text.IsTrimmed({'/'}, core) && core != "" ::
              parent == core
    ensures ResolveSnapshotDir(None, granted, home + "/snapshots/" + leaf) == parent + "/snapshots/" + leaf
    ensures TrimSlashes(parent + "/snapshots/" + leaf) == parent + "/snapshots/" + leaf
    ensures LatestPrefix(parent + "/snapshots/" + leaf) == Some(parent + "/latest")
  {
    SplitAtMarker(home, "/snapshots/", leaf);
    var prefix := TrimSlashes(if granted.Some? then granted.value else "");
    parent := if prefix == "" then home else prefix;
    if granted.Some? {
      if Text.AllIn({'/'}, granted.value) {
        Text.AllTrimmed({'/'}, granted.value);
      }
      forall core | Inner(granted.value, core) && Text.IsTrimmed({'/'}, core) && core != ""
        ensures parent == core
      {
        TrimmedIs(granted.value, core);
      }
    }
    TrimmedDir(parent, leaf);
    SplitAtMarker(parent, "/snapshots/", leaf);
  }

  lemma TrimmedDir(parent: string, leaf: string)
    requires NoSlash(leaf) && leaf != "" && parent != "" && parent[0] != '/'
    ensures TrimSlashes(parent + "/snapshots/" + leaf) == parent + "/snapshots/" + leaf
  {
    var dir := parent + "/snapshots/" + leaf;
    assert dir[0] == parent[0] && dir[|dir| - 1] == leaf[|leaf| - 1];
  }

  /** A latest prefix ends in `latest`, which no leaf does. */
  lemma LatestIsNoLeaf(anyDir: string, folder: string, leaf: string)
    requires NoSlash(leaf) && leaf != "latest"
    ensures LatestPrefix(anyDir) != Some(folder + "/" + leaf)
  {
    var split := RSplitOnce(TrimSlashes(anyDir), "/snapshots/");
    if split.Some? && split.value.0 + "/latest" == folder + "/" + leaf {
      assert split.value.0 + "/latest" == split.value.0 + "/" + "latest";
      LastSegment(split.value.0, folder, "latest", leaf);
    }
  }

  /** Such directories are distinct for distinct leaves, and none of them is a `latest/` prefix. */
  lemma GeneratedDirsAreSeparate(p: string, leaf: string, q: string, other: string, anyDir: string)
    requires NoSlash(leaf) && NoSlash(other) && leaf != other && leaf != "latest"
    ensures p + "/snapshots/" + leaf != q + "/snapshots/" + other
    ensures LatestPrefix(anyDir) != Some(p + "/snapshots/" + leaf)
  {
    var stem := "/snapshots";
    assert p + "/snapshots/" + leaf == (p + stem) + "/" + leaf;
    assert q + "/snapshots/" + other == (q + stem) + "/" + other;
    if (p + stem) + "/" + leaf == (q + stem) + "/" + other {
      LastSegment(p + stem, q + stem, leaf, other);
    }
    LatestIsNoLeaf(anyDir, p + stem, leaf);
  }
}
