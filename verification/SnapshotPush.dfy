/**
 Publication of a snapshot: assembling the files, sealing the module files, and the
 order of the uploads. Pushes of several devices and processes interleave at single
 uploads and may stop anywhere.
 */
module SnapshotPush {
  import opened Wrappers
  import opened ObjectKeys

  type Item = string

  datatype Section = Section(items: seq<Item>, error: Option<string>)

  datatype Entry = Entry(count: nat, objectKey: string, error: Option<string>, encrypted: bool)

  /** `modules` holds the ten entries in the order of MODULE_IDS. */
  datatype Overview = Overview(generatedAt: string, deviceId: string, bindId: Option<string>, modules: seq<Entry>)

  datatype Body =
    | ModuleFile(moduleId: string, generatedAt: string, deviceId: string, items: seq<Item>, error: Option<string>)
    | OverviewFile(overview: Overview)
    | Sealed(envelope: seq<int>)

  datatype Upload = Upload(key: string, body: Body)

  datatype Origin = Origin(generatedAt: string, deviceId: string, bindId: Option<string>)

  type Encryptor = (string, Body) -> Result<Body, string>

  // ---- the bundle ---------------------------------------------------------------------------

  function ModuleUpload(o: Origin, dir: string, sections: seq<Section>, i: nat): Upload
    requires |sections| == |MODULE_IDS| && i < |MODULE_IDS|
  {
    Upload(Key(dir, i), ModuleFile(MODULE_IDS[i], o.generatedAt, o.deviceId, sections[i].items, sections[i].error))
  }

  function ModuleEntry(dir: string, sections: seq<Section>, i: nat): Entry
    requires |sections| == |MODULE_IDS| && i < |MODULE_IDS|
  {
    Entry(|sections[i].items| % 0x1_0000_0000, Key(dir, i), sections[i].error, false)
  }

  function OverviewOf(o: Origin, dir: string, sections: seq<Section>): Overview
    requires |sections| == |MODULE_IDS|
  {
    Overview(o.generatedAt, o.deviceId, o.bindId, seq(|MODULE_IDS|, i requires 0 <= i < |MODULE_IDS| =>
      ModuleEntry(dir, sections, i)))
  }

  function Bundle(o: Origin, dir: string, sections: seq<Section>): (files: seq<Upload>)
    requires |sections| == |MODULE_IDS|
    ensures |files| == |MODULE_IDS| + 1
    ensures forall i | 0 <= i < |files| :: files[i].key == Key(dir, i)
  {
    seq(|MODULE_IDS|, i requires 0 <= i < |MODULE_IDS| => ModuleUpload(o, dir, sections, i))
    + [Upload(Key(dir, |MODULE_IDS|), OverviewFile(OverviewOf(o, dir, sections)))]
  }

  /** `build_snapshot_bundle`: one pass over the modules fills the files and the overview together. */
  method BuildSnapshotBundle(o: Origin, snapshotDir: string, sections: seq<Section>) returns (files: seq<Upload>)
    requires |sections| == |MODULE_IDS|
    ensures files == Bundle(o, TrimSlashes(snapshotDir), sections)
    ensures |files| == 11 && FilesHold(files, o, TrimSlashes(snapshotDir), sections)
  {
    var dir := TrimSlashes(snapshotDir);
    files := [];
    var entries := [];
    for i := 0 to |MODULE_IDS|
      invariant |files| == i && |entries| == i
      invariant forall j | 0 <= j < i :: files[j] == ModuleUpload(o, dir, sections, j)
      invariant forall j | 0 <= j < i :: entries[j] == ModuleEntry(dir, sections, j)
    {
      var key := dir + "/" + ("modules/" + MODULE_IDS[i] + ".json");
      files := files + [Upload(key, ModuleFile(MODULE_IDS[i], o.generatedAt, o.deviceId, sections[i].items,
        sections[i].error))];
      entries := entries + [Entry(|sections[i].items| % 0x1_0000_0000, key, sections[i].error, false)];
    }
    BundleAssembled(o, dir, sections, files, entries);
    files := files + [Upload(dir + "/" + "overview.json",
      OverviewFile(Overview(o.generatedAt, o.deviceId, o.bindId, entries)))];
    BundleContents(o, dir, sections);
  }

  /**
   Ten module files, each with the items and the error of its own section, and an overview
   that counts them in 32 bits, points at their keys and repeats their errors.
   */
  ghost predicate FilesHold(files: seq<Upload>, o: Origin, dir: string, sections: seq<Section>)
    requires |files| == 11 && |sections| == 10
  {
    && (forall i | 0 <= i < 10 ::
          && files[i].key == dir + "/modules/" + MODULE_IDS[i] + ".json"
          && files[i].body.ModuleFile?
          && files[i].body.moduleId == MODULE_IDS[i]
          && files[i].body.generatedAt == o.generatedAt && files[i].body.deviceId == o.deviceId
          && files[i].body.items == sections[i].items && files[i].body.error == sections[i].error)
    && files[10].key == dir + "/overview.json"
    && files[10].body.OverviewFile?
    && var overview := files[10].body.overview;
    && overview.generatedAt == o.generatedAt && overview.deviceId == o.deviceId && overview.bindId == o.bindId
    && |overview.modules| == 10
    && (forall i | 0 <= i < 10 ::
          && overview.modules[i].count == |sections[i].items| % 4294967296
          && overview.modules[i].objectKey == files[i].key
          && overview.modules[i].error == sections[i].error
          && !overview.modules[i].encrypted)
  }

  lemma BundleContents(o: Origin, dir: string, sections: seq<Section>)
    requires |sections| == |MODULE_IDS|
    ensures FilesHold(Bundle(o, dir, sections), o, dir, sections)
  {
    forall i | 0 <= i < 10
      ensures Key(dir, i) == dir + "/modules/" + MODULE_IDS[i] + ".json"
    {
      PathShape(dir, MODULE_IDS[i]);
    }
  }

  // ---- reading a snapshot -------------------------------------------------------------------

  type Decryptor = (string, Body) -> Option<Body>

  /** The object with a key. */
  function Fetch(files: seq<Upload>, key: string): Option<Body> {
    if files == [] then None
    else if files[0].key == key then Some(files[0].body)
    else Fetch(files[1..], key)
  }

  /** Who published the snapshot, as its overview says. */
  function ReadOrigin(files: seq<Upload>): Option<Origin> {
    if files == [] || !files[|files| - 1].body.OverviewFile? then None
    else
      var overview := files[|files| - 1].body.overview;
      Some(Origin(overview.generatedAt, overview.deviceId, overview.bindId))
  }

  /** A module as a device reads it: the object its entry points at, opened if it is marked encrypted. */
  function ReadModule(files: seq<Upload>, dec: Decryptor, i: nat): Option<Section>
    requires i < |MODULE_IDS|
  {
    if files == [] || !files[|files| - 1].body.OverviewFile? then None
    else if i >= |files[|files| - 1].body.overview.modules| then None
    else
      var entry := files[|files| - 1].body.overview.modules[i];
      match Fetch(files, entry.objectKey)
      case None => None
      case Some(stored) =>
        var body := if entry.encrypted then dec(MODULE_IDS[i], stored) else Some(stored);
        if body.Some? && body.value.ModuleFile? && body.value.moduleId == MODULE_IDS[i]
        then Some(Section(body.value.items, body.value.error))
        else None
  }

  lemma {:induction false} FetchFirst(files: seq<Upload>, i: nat)
    requires i < |files| && forall j | 0 <= j < i :: files[j].key != files[i].key
    ensures Fetch(files, files[i].key) == Some(files[i].body)
  {
    if i > 0 {
      assert files[1..][i - 1] == files[i];
      FetchFirst(files[1..], i - 1);
    }
  }

  lemma FetchFromBundle(files: seq<Upload>, dir: string, i: nat)
    requires |files| == 11 && i < 11 && forall j | 0 <= j < 11 :: files[j].key == Key(dir, j)
    ensures Fetch(files, Key(dir, i)) == Some(files[i].body)
  {
    forall j: nat | j < i
      ensures files[j].key != files[i].key
    {
      if Key(dir, j) == Key(dir, i) {
        KeysInjective(dir, dir, j, i);
      }
    }
    FetchFirst(files, i);
  }

  /** Every module is read back from a plain snapshot, and so is its origin. */
  lemma BundleReadsBack(o: Origin, dir: string, sections: seq<Section>, dec: Decryptor)
    requires |sections| == |MODULE_IDS|
    ensures var files := Bundle(o, dir, sections);
            && ReadOrigin(files) == Some(o)
            && forall i | 0 <= i < |MODULE_IDS| :: ReadModule(files, dec, i) == Some(sections[i])
  {
    var files := Bundle(o, dir, sections);
    BundleContents(o, dir, sections);
    forall i | 0 <= i < |MODULE_IDS|
      ensures ReadModule(files, dec, i) == Some(sections[i])
    {
      FetchFromBundle(files, dir, i);
    }
  }

  lemma BundleAssembled(o: Origin, dir: string, sections: seq<Section>, files: seq<Upload>, entries: seq<Entry>)
    requires |sections| == |files| == |entries| == |MODULE_IDS|
    requires forall j | 0 <= j < |MODULE_IDS| :: files[j] == ModuleUpload(o, dir, sections, j)
    requires forall j | 0 <= j < |MODULE_IDS| :: entries[j] == ModuleEntry(dir, sections, j)
    ensures var overview := OverviewFile(Overview(o.generatedAt, o.deviceId, o.bindId, entries));
            files + [Upload(dir + "/" + "overview.json", overview)] == Bundle(o, dir, sections)
  {
    assert entries == OverviewOf(o, dir, sections).modules;
  }

  // ---- encryption ---------------------------------------------------------------------------

  /** The module a file is sealed for, if it is sealed at all. */
  function SealTarget(key: string): Option<string> {
    var id := ExtractModuleId(key);
    if id == Some("assistant") then None else id
  }

  function Targets(files: seq<Upload>): (r: seq<Option<string>>)
    ensures |r| == |files| && forall i | 0 <= i < |r| :: r[i] == SealTarget(files[i].key)
  {
    seq(|files|, i requires 0 <= i < |files| => SealTarget(files[i].key))
  }

  function SealFile(f: Upload, target: Option<string>, enc: Encryptor): Result<Upload, string> {
    if target.None? then Ok(f)
    else match enc(target.value, f.body)
      case Ok(body) => Ok(Upload(f.key, body))
      case Err(e) => Err(e)
  }

  function SealAll(files: seq<Upload>, targets: seq<Option<string>>, enc: Encryptor): (r: Result<seq<Upload>, string>)
    requires |targets| == |files|
    ensures r.Ok? ==> |r.value| == |files| && forall i | 0 <= i < |files| ::
              SealFile(files[i], targets[i], enc) == Ok(r.value[i])
    ensures r.Err? ==> exists i | 0 <= i < |files| :: SealFile(files[i], targets[i], enc).Err?
  {
    if files == [] then Ok([])
    else
      var n := |files| - 1;
      var front := SealAll(files[..n], targets[..n], enc);
      var last := SealFile(files[n], targets[n], enc);
      if front.Err? then front
      else if last.Err? then Err(last.error)
      else Ok(front.value + [last.value])
  }

  function SealedIds(targets: seq<Option<string>>): seq<string> {
    if targets == [] then []
    else
      var last := targets[|targets| - 1];
      SealedIds(targets[..|targets| - 1]) + (if last.Some? then [last.value] else [])
  }

  /** `section_mut(id)` followed by the assignment; unknown ids are ignored. */
  function MarkOne(modules: seq<Entry>, id: string): (r: seq<Entry>)
    requires |modules| == |MODULE_IDS|
    ensures |r| == |modules|
    ensures forall i | 0 <= i < |r| ::
              r[i] == if MODULE_IDS[i] == id then modules[i].(encrypted := true) else modules[i]
  {
    seq(|modules|, i requires 0 <= i < |modules| =>
      if MODULE_IDS[i] == id then modules[i].(encrypted := true) else modules[i])
  }

  function MarkAll(modules: seq<Entry>, ids: seq<string>): (r: seq<Entry>)
    requires |modules| == |MODULE_IDS|
    ensures |r| == |modules|
    ensures forall i | 0 <= i < |r| ::
              r[i] == if MODULE_IDS[i] in ids then modules[i].(encrypted := true) else modules[i]
  {
    if ids == [] then modules
    else
      assert ids == ids[..|ids| - 1] + [ids[|ids| - 1]];
      MarkOne(MarkAll(modules, ids[..|ids| - 1]), ids[|ids| - 1])
  }

  function MarkOverview(f: Upload, ids: seq<string>): Result<Upload, string> {
    if f.body.OverviewFile? && |f.body.overview.modules| == |MODULE_IDS| then
      Ok(f.(body := OverviewFile(f.body.overview.(modules := MarkAll(f.body.overview.modules, ids)))))
    else Err("not an overview")
  }

  function SealAndMark(files: seq<Upload>, targets: seq<Option<string>>, enc: Encryptor): Result<seq<Upload>, string>
    requires |targets| == |files|
  {
    var sealed := SealAll(files, targets, enc);
    if sealed.Err? || SealedIds(targets) == [] || files == [] then sealed
    else
      match MarkOverview(sealed.value[|files| - 1], SealedIds(targets))
      case Ok(f) => Ok(sealed.value[|files| - 1 := f])
      case Err(e) => Err(e)
  }

  function Encrypted(files: seq<Upload>, enc: Encryptor): Result<seq<Upload>, string> {
    SealAndMark(files, Targets(files), enc)
  }

  method ModuleToSeal(key: string) returns (id: Option<string>)
    ensures id == SealTarget(key)
  {
    id := ExtractModuleId(key);
    if id.Some? && id.value == "assistant" {
      id := None;
    }
  }

  /** The first loop of `apply_module_encryption`: seal file by file, collecting the sealed ids. */
  method SealFiles(files: seq<Upload>, enc: Encryptor) returns (r: Result<seq<Upload>, string>, ids: seq<string>)
    ensures r == SealAll(files, Targets(files), enc)
    ensures r.Ok? ==> ids == SealedIds(Targets(files))
  {
    ghost var targets := Targets(files);
    var out: seq<Upload> := [];
    ids := [];
    for i := 0 to |files|
      invariant |out| == i
      invariant SealAll(files[..i], targets[..i], enc) == Ok(out)
      invariant ids == SealedIds(targets[..i])
    {
      assert files[..i + 1][..i] == files[..i] && targets[..i + 1][..i] == targets[..i];
      var file := files[i];
      var target := ModuleToSeal(file.key);
      if target.Some? {
        var body := enc(target.value, file.body);
        if body.Err? {
          SealFails(files, targets, enc, i);
          return Err(body.error), ids;
        }
        file := Upload(file.key, body.value);
        ids := ids + [target.value];
      }
      out := out + [file];
    }
    assert files[..|files|] == files && targets[..|files|] == targets;
    r := Ok(out);
  }

  /** `apply_module_encryption`: seals the module files, then marks the sealed modules in the last file. */
  method ApplyModuleEncryption(files: seq<Upload>, enc: Encryptor) returns (r: Result<seq<Upload>, string>)
    ensures r == Encrypted(files, enc)
  {
    var ids;
    r, ids := SealFiles(files, enc);
    if r.Err? || ids == [] || files == [] {
      return;
    }
    var out, n := r.value, |files| - 1;
    match out[n].body {
      case OverviewFile(overview) =>
        if |overview.modules| != |MODULE_IDS| {
          return Err("not an overview");
        }
        var modules := MarkEntries(overview.modules, ids);
        r := Ok(out[n := out[n].(body := OverviewFile(overview.(modules := modules)))]);
      case _ =>
        r := Err("not an overview");
    }
  }

  method MarkEntries(entries: seq<Entry>, ids: seq<string>) returns (modules: seq<Entry>)
    requires |entries| == |MODULE_IDS|
    ensures modules == MarkAll(entries, ids)
  {
    modules := entries;
    for k := 0 to |ids|
      invariant |modules| == |MODULE_IDS|
      invariant modules == MarkAll(entries, ids[..k])
    {
      assert ids[..k + 1][..k] == ids[..k];
      modules := MarkOne(modules, ids[k]);
    }
    assert ids[..|ids|] == ids;
  }

  lemma {:induction false} SealFails(files: seq<Upload>, targets: seq<Option<string>>, enc: Encryptor, i: nat)
    requires |targets| == |files| && i < |files|
    requires SealAll(files[..i], targets[..i], enc).Ok? && SealFile(files[i], targets[i], enc).Err?
    ensures SealAll(files, targets, enc) == Err(SealFile(files[i], targets[i], enc).error)
    decreases |files|
  {
    var n := |files| - 1;
    if i == n {
      assert files[..n] == files[..i] && targets[..n] == targets[..i];
    } else {
      assert files[..n][..i] == files[..i] && targets[..n][..i] == targets[..i];
      SealFails(files[..n], targets[..n], enc, i);
    }
  }

  lemma LastMarker(key: string, limit: nat)
    requires forall k | limit <= k < |key| :: key[k] != '/'
    ensures forall j: nat | OccursAt(key, "/modules/", j) :: j + 8 < limit
  {
    forall j: nat | OccursAt(key, "/modules/", j)
      ensures j + 8 < limit
    {
      assert key[j + 8] == key[j..j + 9][8] == '/';
    }
  }

  lemma ExtractFromPath(dir: string, id: string)
    requires NoSlash(id)
    ensures ExtractModuleId(dir + "/modules/" + id + ".json") == Some(id)
  {
    var marker, suffix := "/modules/", ".json";
    var key, tail := dir + marker + id + suffix, id + suffix;
    assert key == dir + marker + tail;
    assert forall k | |dir| + 9 <= k < |key| :: key[k] == tail[k - |dir| - 9];
    LastMarker(key, |dir| + 9);
    assert OccursAt(key, marker, |dir|);
    assert key[|dir| + 9..] == tail;
    var r := StripSuffix(tail, suffix);
    assert r.value == tail[..|id|] == id;
  }

  lemma PathShape(dir: string, id: string)
    ensures dir + "/" + ("modules/" + id + ".json") == dir + "/modules/" + id + ".json"
  {
  }

  lemma ExtractFromModuleKey(dir: string, i: nat)
    requires i < |MODULE_IDS|
    ensures ExtractModuleId(Key(dir, i)) == Some(MODULE_IDS[i])
  {
    var id := MODULE_IDS[i];
    PathShape(dir, id);
    ExtractFromPath(dir, id);
  }

  lemma OverviewStem(rest: string)
    requires |rest| >= 13 && rest[|rest| - 13..] == "overview.json"
    ensures StripSuffix(rest, ".json").Some? && StripSuffix(rest, ".json") != Some("assistant")
  {
    var stem := rest[..|rest| - 5];
    assert rest[|rest| - 13..][8..] == rest[|rest| - 5..] == ".json";
    assert rest == stem + ".json";
    assert stem[|stem| - 1] == rest[|rest| - 13..][7] == 'w';
    assert StripSuffix(rest, ".json").value == rest[..|rest| - 5];
    assert "assistant"[|"assistant"| - 1] == 't';
  }

  /** Nothing that starts with the marker of the module files is shorter than the file name behind it. */
  lemma NameBehindMarker(dir: string, name: string, at: nat)
    requires NoSlash(name) && OccursAt(dir + "/" + name, "/modules/", at)
    ensures var rest := (dir + "/" + name)[at + 9..];
            |rest| >= |name| && rest[|rest| - |name|..] == name
  {
    var key := dir + "/" + name;
    assert forall k | |dir| < k < |key| :: key[k] == name[k - |dir| - 1];
    LastMarker(key, |dir| + 1);
    assert key[|key| - |name|..] == name;
  }

  /** The overview itself is taken for a module file exactly when its key contains the marker. */
  lemma ExtractFromOverviewKey(dir: string)
    ensures var key := Key(dir, |MODULE_IDS|);
            (SealTarget(key).Some? <==> Contains(key, "/modules/"))
  {
    var key := Key(dir, |MODULE_IDS|);
    var pos := RFind(key, "/modules/");
    if pos.Some? {
      NameBehindMarker(dir, FileName(|MODULE_IDS|), pos.value);
      OverviewStem(key[pos.value + 9..]);
    }
  }

  lemma {:induction false} SealedIdsMember(targets: seq<Option<string>>, id: string)
    ensures id in SealedIds(targets) <==> Some(id) in targets
  {
    if targets != [] {
      var front := targets[..|targets| - 1];
      SealedIdsMember(front, id);
      assert targets == front + [targets[|targets| - 1]];
    }
  }

  lemma SealAllOk(files: seq<Upload>, targets: seq<Option<string>>, enc: Encryptor)
    requires |targets| == |files|
    ensures SealAll(files, targets, enc).Ok? <==> forall i | 0 <= i < |files| :: SealFile(files[i], targets[i], enc).Ok?
  {
  }

  lemma AssistantIndex(i: nat)
    requires i < |MODULE_IDS|
    ensures MODULE_IDS[i] == "assistant" <==> i == 8
  {
  }

  /** The files that get sealed: every module file but the assistant's, and not the overview. */
  predicate StandardTargets(targets: seq<Option<string>>) {
    && |targets| == |MODULE_IDS| + 1
    && targets[|MODULE_IDS|] == None
    && forall i | 0 <= i < |MODULE_IDS| :: targets[i] == if i == 8 then None else Some(MODULE_IDS[i])
  }

  lemma StandardSealedIds(targets: seq<Option<string>>, i: nat)
    requires StandardTargets(targets) && i < |MODULE_IDS|
    ensures MODULE_IDS[i] in SealedIds(targets) <==> i != 8
  {
    SealedIdsMember(targets, MODULE_IDS[i]);
    if i == 8 && Some(MODULE_IDS[i]) in targets {
      var j :| 0 <= j < |targets| && targets[j] == Some(MODULE_IDS[i]);
      ModuleIdsDistinct(i, j);
    } else if i != 8 {
      assert targets[i] == Some(MODULE_IDS[i]);
    }
  }

  /** What sealing and marking do to any bundle with the standard targets. */
  lemma StandardEncryption(files: seq<Upload>, targets: seq<Option<string>>, enc: Encryptor)
    requires |files| == |MODULE_IDS| + 1 && StandardTargets(targets)
    requires files[|MODULE_IDS|].body.OverviewFile? && |files[|MODULE_IDS|].body.overview.modules| == |MODULE_IDS|
    ensures var r := SealAndMark(files, targets, enc);
            var overview := files[|MODULE_IDS|].body.overview;
            && (r.Ok? <==> forall i | 0 <= i < |MODULE_IDS| && i != 8 :: enc(MODULE_IDS[i], files[i].body).Ok?)
            && (r.Ok? ==>
                  && |r.value| == |files|
                  && (forall i | 0 <= i < |files| :: r.value[i].key == files[i].key)
                  && r.value[8] == files[8]
                  && (forall i | 0 <= i < |MODULE_IDS| && i != 8 ::
                        enc(MODULE_IDS[i], files[i].body) == Ok(r.value[i].body))
                  && r.value[|MODULE_IDS|].body.OverviewFile?
                  && r.value[|MODULE_IDS|].body.overview ==
                     overview.(modules := r.value[|MODULE_IDS|].body.overview.modules)
                  && |r.value[|MODULE_IDS|].body.overview.modules| == |MODULE_IDS|
                  && forall i | 0 <= i < |MODULE_IDS| ::
                       r.value[|MODULE_IDS|].body.overview.modules[i] ==
                       if i == 8 then overview.modules[i] else overview.modules[i].(encrypted := true))
  {
    var ids := SealedIds(targets);
    forall i | 0 <= i < |MODULE_IDS|
      ensures MODULE_IDS[i] in ids <==> i != 8
    {
      StandardSealedIds(targets, i);
    }
    assert MODULE_IDS[0] in ids;
    SealAllOk(files, targets, enc);
    var sealed := SealAll(files, targets, enc);
    assert forall i | 0 <= i < |MODULE_IDS| && i != 8 ::
        SealFile(files[i], targets[i], enc).Ok? <==> enc(MODULE_IDS[i], files[i].body).Ok?;
    if sealed.Ok? {
      assert SealFile(files[|MODULE_IDS|], targets[|MODULE_IDS|], enc) == Ok(sealed.value[|MODULE_IDS|]);
    }
  }

  lemma BundleTargets(o: Origin, dir: string, sections: seq<Section>)
    requires |sections| == |MODULE_IDS|
    ensures StandardTargets(Targets(Bundle(o, dir, sections))) <==> !Contains(Key(dir, |MODULE_IDS|), "/modules/")
    ensures forall i | 0 <= i < |MODULE_IDS| ::
              Targets(Bundle(o, dir, sections))[i] == if i == 8 then None else Some(MODULE_IDS[i])
  {
    var files := Bundle(o, dir, sections);
    ExtractFromOverviewKey(dir);
    forall i | 0 <= i < |MODULE_IDS|
      ensures SealTarget(files[i].key) == if i == 8 then None else Some(MODULE_IDS[i])
    {
      AssistantIndex(i);
      ExtractFromModuleKey(dir, i);
    }
  }

  /**
   With an overview key free of the marker, encryption seals every module file but the
   assistant's (the ninth), and the overview marks an entry encrypted exactly when its file was
   sealed. It fails exactly when some file cannot be sealed.
   */
  lemma EncryptionMarksSealedModules(o: Origin, dir: string, sections: seq<Section>, enc: Encryptor)
    requires |sections| == |MODULE_IDS| && !Contains(Key(dir, |MODULE_IDS|), "/modules/")
    ensures var plain := Bundle(o, dir, sections);
            var r := Encrypted(plain, enc);
            && (r.Ok? <==> forall i | 0 <= i < |MODULE_IDS| && i != 8 :: enc(MODULE_IDS[i], plain[i].body).Ok?)
            && (r.Ok? ==>
                  && |r.value| == |plain|
                  && (forall i | 0 <= i < |plain| :: r.value[i].key == plain[i].key)
                  && r.value[8] == plain[8]
                  && (forall i | 0 <= i < |MODULE_IDS| && i != 8 ::
                        enc(MODULE_IDS[i], plain[i].body) == Ok(r.value[i].body))
                  && r.value[|MODULE_IDS|].body.OverviewFile?
                  && var entries := r.value[|MODULE_IDS|].body.overview.modules;
                  && |entries| == |MODULE_IDS|
                  && forall i | 0 <= i < |MODULE_IDS| ::
                       entries[i] == ModuleEntry(dir, sections, i).(encrypted := i != 8))
  {
    var plain := Bundle(o, dir, sections);
    BundleTargets(o, dir, sections);
    StandardEncryption(plain, Targets(plain), enc);
    assert plain[|MODULE_IDS|].body.overview == OverviewOf(o, dir, sections);
  }

  /** A device that opens what was sealed reads every module and the origin back from a sealed snapshot. */
  lemma SealedReadsBack(o: Origin, dir: string, sections: seq<Section>, enc: Encryptor, dec: Decryptor)
    requires |sections| == |MODULE_IDS| && !Contains(Key(dir, |MODULE_IDS|), "/modules/")
    requires forall id, body | enc(id, body).Ok? :: dec(id, enc(id, body).value) == Some(body)
    requires Encrypted(Bundle(o, dir, sections), enc).Ok?
    ensures var files := Encrypted(Bundle(o, dir, sections), enc).value;
            && ReadOrigin(files) == Some(o)
            && forall i | 0 <= i < |MODULE_IDS| :: ReadModule(files, dec, i) == Some(sections[i])
  {
    var plain := Bundle(o, dir, sections);
    var files := Encrypted(plain, enc).value;
    BundleContents(o, dir, sections);
    BundleTargets(o, dir, sections);
    StandardEncryption(plain, Targets(plain), enc);
    forall i | 0 <= i < |MODULE_IDS|
      ensures ReadModule(files, dec, i) == Some(sections[i])
    {
      FetchFromBundle(files, dir, i);
    }
  }

  /** Sealing the last file as well leaves nothing to mark unless the sealed bytes read as an overview. */
  lemma SealedOverview(files: seq<Upload>, targets: seq<Option<string>>, enc: Encryptor)
    requires |files| == |targets| > 0 && targets[|files| - 1].Some?
    ensures var last := SealFile(files[|files| - 1], targets[|files| - 1], enc);
            SealAndMark(files, targets, enc).Ok? <==>
              && (forall i | 0 <= i < |files| :: SealFile(files[i], targets[i], enc).Ok?)
              && last.value.body.OverviewFile? && |last.value.body.overview.modules| == |MODULE_IDS|
  {
  }

  /**
   When the overview key does contain the marker, the overview is sealed too, and the push goes on
   exactly if every file is sealed and the sealed overview still reads as an overview.
   */
  lemma MarkedDirectorySealsOverview(o: Origin, dir: string, sections: seq<Section>, enc: Encryptor)
    requires |sections| == |MODULE_IDS| && Contains(Key(dir, |MODULE_IDS|), "/modules/")
    ensures SealTarget(Key(dir, |MODULE_IDS|)).Some?
    ensures var plain := Bundle(o, dir, sections);
            var sealed := enc(SealTarget(Key(dir, |MODULE_IDS|)).value, plain[|MODULE_IDS|].body);
            Encrypted(plain, enc).Ok? <==>
              && (forall i | 0 <= i < |MODULE_IDS| && i != 8 :: enc(MODULE_IDS[i], plain[i].body).Ok?)
              && sealed.Ok? && sealed.value.OverviewFile? && |sealed.value.overview.modules| == |MODULE_IDS|
  {
    ExtractFromOverviewKey(dir);
    var files := Bundle(o, dir, sections);
    var targets := Targets(files);
    BundleTargets(o, dir, sections);
    SealedOverview(files, targets, enc);
    forall i | 0 <= i < |MODULE_IDS|
      ensures SealFile(files[i], targets[i], enc).Ok? <==> i == 8 || enc(MODULE_IDS[i], files[i].body).Ok?
    {
    }
  }
}
