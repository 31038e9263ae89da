/**
 The upload protocol: every run uploads its versioned files with the overview last, then
 repeats them under the shared `latest/` prefix, then notifies. Any number of runs interleave
 at single uploads; a run that is never scheduled again has crashed there.
 */
module PublishProtocol {
  import opened Wrappers
  import opened ObjectKeys
  import opened SnapshotPush

  const N: nat := |MODULE_IDS|

  /** The uploads of one run: `latest` is empty when its directory has no `latest/` prefix. */
  datatype Run = Run(dir: string, prefix: Option<string>, versioned: seq<Upload>, latest: seq<Upload>)

  function Script(run: Run): seq<Upload> {
    run.versioned + run.latest
  }

  /** The relative path under the snapshot directory, moved below the `latest/` prefix. */
  function LatestKey(key: string, dir: string, prefix: string): Option<string> {
    var rel := StripPrefix(key, dir + "/");
    if rel.Some? then Some(prefix + "/" + rel.value) else None
  }

  function LatestUploads(files: seq<Upload>, dir: string, prefix: string): seq<Upload> {
    if files == [] then []
    else
      var f := files[|files| - 1];
      var key := LatestKey(f.key, dir, prefix);
      LatestUploads(files[..|files| - 1], dir, prefix) + (if key.Some? then [Upload(key.value, f.body)] else [])
  }

  /** What `push_snapshot` uploads for the assembled `files`. */
  function Plan(snapshotDir: string, files: seq<Upload>): Run {
    PlanFor(files, TrimSlashes(snapshotDir), LatestPrefix(snapshotDir))
  }

  function PlanFor(files: seq<Upload>, dir: string, prefix: Option<string>): Run {
    Run(dir, prefix, files, if prefix.None? then [] else LatestUploads(files, dir, prefix.value))
  }

  /**
   The versioned files carry the keys of the run's directory, the `latest/` files those of its
   prefix with the same bodies, and the overview names the versioned module files.
   */
  predicate WellFormed(run: Run) {
    && |run.versioned| == N + 1
    && (forall i | 0 <= i <= N :: run.versioned[i].key == Key(run.dir, i))
    && run.prefix != Some(run.dir)
    && (run.prefix.None? ==> run.latest == [])
    && (run.prefix.Some? ==>
          && |run.latest| == N + 1
          && forall i | 0 <= i <= N :: run.latest[i] == Upload(Key(run.prefix.value, i), run.versioned[i].body))
    && run.versioned[N].body.OverviewFile?
    && |run.versioned[N].body.overview.modules| == N
    && (forall i | 0 <= i < N :: run.versioned[N].body.overview.modules[i].objectKey == run.versioned[i].key)
  }

  lemma LatestKeyOf(dir: string, prefix: string, i: nat)
    requires i <= N
    ensures LatestKey(Key(dir, i), dir, prefix) == Some(Key(prefix, i))
  {
  }

  lemma {:induction false} LatestUploadsOf(files: seq<Upload>, keys: seq<string>, dir: string, prefix: string)
    requires |keys| == |files| && forall i | 0 <= i < |files| :: LatestKey(files[i].key, dir, prefix) == Some(keys[i])
    ensures |LatestUploads(files, dir, prefix)| == |files|
    ensures forall i | 0 <= i < |files| :: LatestUploads(files, dir, prefix)[i] == Upload(keys[i], files[i].body)
  {
    if files != [] {
      LatestUploadsOf(files[..|files| - 1], keys[..|files| - 1], dir, prefix);
    }
  }

  lemma LatestUploadsOfBundle(files: seq<Upload>, dir: string, prefix: string)
    requires |files| == N + 1 && forall i | 0 <= i < |files| :: files[i].key == Key(dir, i)
    ensures |LatestUploads(files, dir, prefix)| == |files|
    ensures forall i | 0 <= i < |files| :: LatestUploads(files, dir, prefix)[i] == Upload(Key(prefix, i), files[i].body)
  {
    var keys := seq(|files|, i requires 0 <= i < |files| => Key(prefix, i));
    forall i | 0 <= i < |files|
      ensures LatestKey(files[i].key, dir, prefix) == Some(keys[i])
    {
      LatestKeyOf(dir, prefix, i);
    }
    LatestUploadsOf(files, keys, dir, prefix);
  }

  /** A snapshot directory is never its own `latest/` prefix. */
  lemma LatestIsElsewhere(snapshotDir: string)
    ensures LatestPrefix(snapshotDir) != Some(TrimSlashes(snapshotDir))
  {
  }

  /** Planning the uploads of an assembled and, if asked for, sealed bundle gives a well-formed run. */
  lemma PlannedRunsAreWellFormed(o: Origin, snapshotDir: string, sections: seq<Section>, enc: Option<Encryptor>,
      files: seq<Upload>)
    requires |sections| == |MODULE_IDS|
    requires enc.Some? ==> !Contains(Key(TrimSlashes(snapshotDir), N), "/modules/")
    requires var plain := Bundle(o, TrimSlashes(snapshotDir), sections);
             if enc.None? then files == plain else Encrypted(plain, enc.value) == Ok(files)
    ensures WellFormed(Plan(snapshotDir, files))
  {
    var dir := TrimSlashes(snapshotDir);
    var plain := Bundle(o, dir, sections);
    assert plain[N].body.overview == OverviewOf(o, dir, sections);
    if enc.Some? {
      EncryptionMarksSealedModules(o, dir, sections, enc.value);
    }
    forall i | 0 <= i < |files|
      ensures files[i].key == Key(dir, i)
    {
      assert files[i].key == plain[i].key;
    }
    LatestIsElsewhere(snapshotDir);
    if LatestPrefix(snapshotDir).Some? {
      LatestUploadsOfBundle(files, dir, LatestPrefix(snapshotDir).value);
    }
  }

  // ---- interleaved runs ------------------------------------------------------------------

  /** A stored object remembers which run wrote it. */
  datatype Object = Object(run: nat, body: Body)

  datatype Store = Store(objects: map<string, Object>, done: seq<nat>, notified: set<nat>)

  function Empty(runs: seq<Run>): Store {
    Store(map[], seq(|runs|, _ => 0), {})
  }

  /** Run `r` performs its next upload, or its notification once all uploads are done. */
  function Step(runs: seq<Run>, s: Store, r: nat): Store
    requires |s.done| == |runs| && r < |runs|
  {
    var script := Script(runs[r]);
    if s.done[r] < |script| then
      var put := script[s.done[r]];
      s.(objects := s.objects[put.key := Object(r, put.body)], done := s.done[r := s.done[r] + 1])
    else s.(notified := s.notified + {r})
  }

  predicate Schedule(runs: seq<Run>, schedule: seq<nat>) {
    forall k | 0 <= k < |schedule| :: schedule[k] < |runs|
  }

  function Execute(runs: seq<Run>, schedule: seq<nat>): (s: Store)
    requires Schedule(runs, schedule)
    ensures |s.done| == |runs|
  {
    if schedule == [] then Empty(runs)
    else Step(runs, Execute(runs, schedule[..|schedule| - 1]), schedule[|schedule| - 1])
  }

  predicate IsOverviewKey(key: string) {
    StripSuffix(key, "/overview.json").Some?
  }

  predicate Sized(runs: seq<Run>) {
    forall r | 0 <= r < |runs| :: |runs[r].versioned| == N + 1
                                  && runs[r].versioned[N].body.OverviewFile?
                                  && |runs[r].versioned[N].body.overview.modules| == N
  }

  /** The overview object `o` names only objects that are present with the bodies of its own run. */
  predicate Complete(runs: seq<Run>, s: Store, o: Object)
    requires Sized(runs)
  {
    && o.run < |runs|
    && o.body == runs[o.run].versioned[N].body
    && forall i | 0 <= i < N ::
         o.body.overview.modules[i].objectKey in s.objects
         && s.objects[o.body.overview.modules[i].objectKey] == Object(o.run, runs[o.run].versioned[i].body)
  }

  predicate Consistent(runs: seq<Run>, s: Store)
    requires Sized(runs)
  {
    forall key | key in s.objects && IsOverviewKey(key) :: Complete(runs, s, s.objects[key])
  }

  /** The same without regard to who wrote: the named objects are present with the bodies of the run. */
  predicate Readable(runs: seq<Run>, s: Store, o: Object)
    requires Sized(runs)
  {
    && o.run < |runs|
    && o.body == runs[o.run].versioned[N].body
    && forall i | 0 <= i < N ::
         o.body.overview.modules[i].objectKey in s.objects
         && s.objects[o.body.overview.modules[i].objectKey].body == runs[o.run].versioned[i].body
  }

  predicate AllReadable(runs: seq<Run>, s: Store)
    requires Sized(runs)
  {
    forall key | key in s.objects && IsOverviewKey(key) :: Readable(runs, s, s.objects[key])
  }

  predicate Runs(runs: seq<Run>)
    ensures Runs(runs) ==> Sized(runs)
  {
    forall r | 0 <= r < |runs| :: WellFormed(runs[r])
  }

  /** No run's directory is shared with, or is the `latest/` prefix of, another run. */
  predicate Separate(runs: seq<Run>) {
    forall r, q | 0 <= r < |runs| && 0 <= q < |runs| && r != q ::
      runs[r].dir != runs[q].dir && runs[q].prefix != Some(runs[r].dir)
  }

  /** Run `q` writes below the directory of run `r`. */
  predicate Collides(runs: seq<Run>, r: nat, q: nat) {
    r < |runs| && q < |runs| && r != q && (runs[r].dir == runs[q].dir || runs[q].prefix == Some(runs[r].dir))
  }

  /** Runs that collide have the same module files. */
  ghost predicate Compatible(runs: seq<Run>)
    requires Sized(runs)
  {
    forall r: nat, q: nat, i | Collides(runs, r, q) && 0 <= i < N ::
      runs[q].versioned[i].body == runs[r].versioned[i].body
  }

  // ---- keys of uploads -------------------------------------------------------------------

  lemma ModuleKeyIsNoOverview(dir: string, i: nat)
    requires i < N
    ensures !IsOverviewKey(Key(dir, i))
  {
    var suffix := "/overview.json";
    var r := StripSuffix(Key(dir, i), suffix);
    if r.Some? {
      OverviewKeyShape(r.value);
      KeysInjective(dir, r.value, i, N);
    }
  }

  lemma OverviewKeyShape(dir: string)
    ensures Key(dir, N) == dir + "/overview.json"
    ensures IsOverviewKey(Key(dir, N))
  {
  }

  /** An upload to a versioned key of run `r` is the upload of that file by run `r` itself. */
  predicate PrivateKeys(runs: seq<Run>)
    requires Sized(runs)
  {
    forall r, i, q, k ::
      (0 <= r < |runs| && 0 <= i <= N && 0 <= q < |runs| && 0 <= k < |Script(runs[q])|
       && Script(runs[q])[k].key == runs[r].versioned[i].key) ==> q == r && k == i
  }

  /** An upload to an overview key carries the overview, and all versioned modules precede it. */
  predicate OverviewsLast(runs: seq<Run>)
    requires Sized(runs)
  {
    forall q, k | 0 <= q < |runs| && 0 <= k < |Script(runs[q])| && IsOverviewKey(Script(runs[q])[k].key) ::
      k >= N && Script(runs[q])[k].body == runs[q].versioned[N].body
  }

  lemma SeparateRunsHavePrivateKeys(runs: seq<Run>)
    requires Runs(runs) && Separate(runs)
    ensures PrivateKeys(runs)
  {
    forall r, i, q, k | 0 <= r < |runs| && 0 <= i <= N && 0 <= q < |runs| && 0 <= k < |Script(runs[q])|
                        && Script(runs[q])[k].key == runs[r].versioned[i].key
      ensures q == r && k == i
    {
      assert WellFormed(runs[q]) && WellFormed(runs[r]);
      if k <= N {
        KeysInjective(runs[q].dir, runs[r].dir, k, i);
      } else {
        assert Script(runs[q])[k] == runs[q].latest[k - N - 1];
        KeysInjective(runs[q].prefix.value, runs[r].dir, k - N - 1, i);
      }
    }
  }

  lemma RunsHaveOverviewsLast(runs: seq<Run>)
    requires Runs(runs)
    ensures OverviewsLast(runs)
  {
    forall q, k | 0 <= q < |runs| && 0 <= k < |Script(runs[q])| && IsOverviewKey(Script(runs[q])[k].key)
      ensures k >= N && Script(runs[q])[k].body == runs[q].versioned[N].body
    {
      assert WellFormed(runs[q]);
      if k < N {
        ModuleKeyIsNoOverview(runs[q].dir, k);
      } else if k > N {
        assert Script(runs[q])[k] == runs[q].latest[k - N - 1];
        if k - N - 1 < N {
          ModuleKeyIsNoOverview(runs[q].prefix.value, k - N - 1);
        }
      }
    }
  }

  // ---- consistency at every moment -----------------------------------------------------------

  predicate Inv(runs: seq<Run>, s: Store)
    requires Sized(runs)
  {
    && |s.done| == |runs|
    && (forall r | 0 <= r < |runs| :: s.done[r] <= |Script(runs[r])|)
    && (forall r, i | 0 <= r < |runs| && 0 <= i <= N && i < s.done[r] ::
          runs[r].versioned[i].key in s.objects
          && s.objects[runs[r].versioned[i].key] == Object(r, runs[r].versioned[i].body))
    && (forall key | key in s.objects && IsOverviewKey(key) ::
          var o := s.objects[key];
          o.run < |runs| && s.done[o.run] > N && o.body == runs[o.run].versioned[N].body)
    && (forall r | r in s.notified :: r < |runs| && s.done[r] == |Script(runs[r])|)
  }

  lemma InvStep(runs: seq<Run>, s: Store, q: nat)
    requires Sized(runs) && PrivateKeys(runs) && OverviewsLast(runs) && Inv(runs, s) && q < |runs|
    ensures Inv(runs, Step(runs, s, q))
  {
    var script := Script(runs[q]);
    var t := Step(runs, s, q);
    if s.done[q] < |script| {
      var k := s.done[q];
      forall r, i | 0 <= r < |runs| && 0 <= i <= N && i < t.done[r]
        ensures runs[r].versioned[i].key in t.objects
        ensures t.objects[runs[r].versioned[i].key] == Object(r, runs[r].versioned[i].body)
      {
        assert script[k].key == runs[r].versioned[i].key ==> q == r && k == i;
        assert r == q && i == k ==> script[k] == runs[q].versioned[k];
      }
    }
  }

  lemma {:induction false} InvHolds(runs: seq<Run>, schedule: seq<nat>)
    requires Sized(runs) && PrivateKeys(runs) && OverviewsLast(runs) && Schedule(runs, schedule)
    ensures Inv(runs, Execute(runs, schedule))
  {
    if schedule != [] {
      InvHolds(runs, schedule[..|schedule| - 1]);
      InvStep(runs, Execute(runs, schedule[..|schedule| - 1]), schedule[|schedule| - 1]);
    }
  }

  /** The overview entries of every run name the keys of its versioned files. */
  lemma InvIsConsistent(runs: seq<Run>, s: Store)
    requires Sized(runs) && Inv(runs, s)
    requires forall r, i | 0 <= r < |runs| && 0 <= i < N ::
               runs[r].versioned[N].body.overview.modules[i].objectKey == runs[r].versioned[i].key
    ensures Consistent(runs, s)
  {
  }

  /**
   At every moment of every interleaving of separate runs, every overview in the store, versioned
   or under `latest/`, names only module objects already present with the bodies of its own run.
   */
  lemma PublishedSnapshotsAreComplete(runs: seq<Run>, schedule: seq<nat>)
    requires Runs(runs) && Separate(runs) && Schedule(runs, schedule)
    ensures Consistent(runs, Execute(runs, schedule))
  {
    SeparateRunsHavePrivateKeys(runs);
    RunsHaveOverviewsLast(runs);
    InvHolds(runs, schedule);
    forall r, i | 0 <= r < |runs| && 0 <= i < N
      ensures runs[r].versioned[N].body.overview.modules[i].objectKey == runs[r].versioned[i].key
    {
      assert WellFormed(runs[r]);
    }
    InvIsConsistent(runs, Execute(runs, schedule));
  }

  /** A notification is sent only after all uploads of its run, and its overview is in place. */
  lemma NotifiedRunsAreUploaded(runs: seq<Run>, schedule: seq<nat>, r: nat)
    requires Runs(runs) && Separate(runs) && Schedule(runs, schedule)
    requires r in Execute(runs, schedule).notified
    ensures r < |runs| && Execute(runs, schedule).done[r] == |Script(runs[r])|
    ensures runs[r].versioned[N].key in Execute(runs, schedule).objects
    ensures Execute(runs, schedule).objects[runs[r].versioned[N].key] == Object(r, runs[r].versioned[N].body)
  {
    SeparateRunsHavePrivateKeys(runs);
    RunsHaveOverviewsLast(runs);
    InvHolds(runs, schedule);
  }

  // ---- without separation ----------------------------------------------------------------

  /** `n` steps of run `a` followed by `m` steps of run `b`. */
  function Burst(a: nat, n: nat, b: nat, m: nat): seq<nat> {
    if m > 0 then Burst(a, n, b, m - 1) + [b]
    else if n > 0 then Burst(a, n - 1, b, 0) + [a]
    else []
  }

  predicate Holds(s: Store, put: Upload, r: nat) {
    put.key in s.objects && s.objects[put.key] == Object(r, put.body)
  }

  /** One upload more of a run that still has some. */
  lemma OneMoreUpload(runs: seq<Run>, schedule: seq<nat>, r: nat)
    requires Schedule(runs, schedule) && r < |runs| && Execute(runs, schedule).done[r] < |Script(runs[r])|
    ensures Schedule(runs, schedule + [r])
    ensures var s, t := Execute(runs, schedule), Execute(runs, schedule + [r]);
            var put := Script(runs[r])[s.done[r]];
            && t.done == s.done[r := s.done[r] + 1]
            && t.objects == s.objects[put.key := Object(r, put.body)]
  {
  }

  /** The two runs stand where the burst left them, and the last upload is in place. */
  predicate BurstEnds(runs: seq<Run>, a: nat, n: nat, b: nat, m: nat, schedule: seq<nat>)
    requires a < |runs| && b < |runs| && n <= |Script(runs[a])| && m <= |Script(runs[b])|
  {
    && Schedule(runs, schedule)
    && Execute(runs, schedule).done[a] == n && Execute(runs, schedule).done[b] == m
    && (m > 0 ==> Holds(Execute(runs, schedule), Script(runs[b])[m - 1], b))
    && (m == 0 && n > 0 ==> Holds(Execute(runs, schedule), Script(runs[a])[n - 1], a))
  }

  lemma BurstGrows(runs: seq<Run>, a: nat, n: nat, b: nat, m: nat, schedule: seq<nat>)
    requires a < |runs| && b < |runs| && a != b && n <= |Script(runs[a])| && m <= |Script(runs[b])|
    requires BurstEnds(runs, a, n, b, m, schedule)
    ensures m < |Script(runs[b])| ==> BurstEnds(runs, a, n, b, m + 1, schedule + [b])
    ensures m == 0 && n < |Script(runs[a])| ==> BurstEnds(runs, a, n + 1, b, 0, schedule + [a])
  {
  }

  lemma {:induction false} BurstDone(runs: seq<Run>, a: nat, n: nat, b: nat, m: nat)
    requires a < |runs| && b < |runs| && a != b
    requires n <= |Script(runs[a])| && m <= |Script(runs[b])|
    ensures BurstEnds(runs, a, n, b, m, Burst(a, n, b, m))
    decreases n + m
  {
    if m > 0 {
      BurstDone(runs, a, n, b, m - 1);
      BurstGrows(runs, a, n, b, m - 1, Burst(a, n, b, m - 1));
    } else if n > 0 {
      BurstDone(runs, a, n - 1, b, 0);
      BurstGrows(runs, a, n - 1, b, 0, Burst(a, n - 1, b, 0));
    } else {
      assert Execute(runs, []) == Empty(runs);
    }
  }

  /** The last file of run `a` survives uploads of run `b` to other keys. */
  lemma {:induction false} BurstKeeps(runs: seq<Run>, a: nat, n: nat, b: nat, m: nat)
    requires a < |runs| && b < |runs| && a != b
    requires 0 < n <= |Script(runs[a])| && m <= |Script(runs[b])|
    requires forall k | 0 <= k < m :: Script(runs[b])[k].key != Script(runs[a])[n - 1].key
    ensures Schedule(runs, Burst(a, n, b, m))
    ensures Holds(Execute(runs, Burst(a, n, b, m)), Script(runs[a])[n - 1], a)
    decreases m
  {
    if m == 0 {
      BurstDone(runs, a, n, b, 0);
    } else {
      var shorter := Burst(a, n, b, m - 1);
      BurstKeeps(runs, a, n, b, m - 1);
      BurstDone(runs, a, n, b, m - 1);
      OneMoreUpload(runs, shorter, b);
      assert Burst(a, n, b, m) == shorter + [b];
    }
  }

  /** Run `b` overwrites module `i` of the finished run `a` while the overview of `a` stays. */
  lemma OverwrittenModule(runs: seq<Run>, a: nat, b: nat, m: nat, i: nat)
    requires Sized(runs) && a < |runs| && b < |runs| && a != b && i < N
    requires runs[a].versioned[N].body.overview.modules[i].objectKey == runs[a].versioned[i].key
    requires IsOverviewKey(runs[a].versioned[N].key)
    requires m < |Script(runs[b])| && Script(runs[b])[m].key == runs[a].versioned[i].key
    requires forall k | 0 <= k <= m :: Script(runs[b])[k].key != runs[a].versioned[N].key
    ensures Schedule(runs, Burst(a, N + 1, b, m + 1))
    ensures !Consistent(runs, Execute(runs, Burst(a, N + 1, b, m + 1)))
    ensures Script(runs[b])[m].body != runs[a].versioned[i].body ==>
              !AllReadable(runs, Execute(runs, Burst(a, N + 1, b, m + 1)))
  {
    var overview := runs[a].versioned[N];
    assert Script(runs[a])[N] == overview;
    BurstKeeps(runs, a, N + 1, b, m + 1);
    BurstDone(runs, a, N + 1, b, m + 1);
    var s := Execute(runs, Burst(a, N + 1, b, m + 1));
    assert s.objects[overview.body.overview.modules[i].objectKey] == Object(b, Script(runs[b])[m].body);
    assert !Complete(runs, s, s.objects[overview.key]);
  }

  /** Where the scripts of two colliding runs meet. */
  lemma CollidingKeys(a: Run, b: Run, m: nat, i: nat)
    requires WellFormed(a) && WellFormed(b) && i < N
    requires (a.dir == b.dir && m == i) || (a.dir != b.dir && b.prefix == Some(a.dir) && m == N + 1 + i)
    ensures m < |Script(b)| && Script(b)[m] == Upload(a.versioned[i].key, b.versioned[i].body)
    ensures forall k | 0 <= k <= m :: Script(b)[k].key != a.versioned[N].key
  {
    assert m > N ==> Script(b)[m] == b.latest[i];
    forall k | 0 <= k <= m
      ensures Script(b)[k].key != a.versioned[N].key
    {
      var dir, j := if k <= N then b.dir else a.dir, if k <= N then k else k - N - 1;
      assert k > N ==> Script(b)[k] == b.latest[j];
      if Key(dir, j) == Key(a.dir, N) {
        KeysInjective(dir, a.dir, j, N);
      }
    }
  }

  /** If the modules numbered `i` of colliding runs differ, some reader is misled; any collision shows in the tags. */
  lemma CollisionBreaksConsistency(runs: seq<Run>, a: nat, b: nat, i: nat)
    requires Runs(runs) && Collides(runs, a, b) && i < N
    ensures exists schedule :: Schedule(runs, schedule) && !Consistent(runs, Execute(runs, schedule))
    ensures runs[b].versioned[i].body != runs[a].versioned[i].body ==>
              exists schedule :: Schedule(runs, schedule) && !AllReadable(runs, Execute(runs, schedule))
  {
    assert WellFormed(runs[a]) && WellFormed(runs[b]);
    var m := if runs[a].dir == runs[b].dir then i else N + 1 + i;
    CollidingKeys(runs[a], runs[b], m, i);
    OverviewKeyShape(runs[a].dir);
    OverwrittenModule(runs, a, b, m, i);
  }

  /** Separation is exactly what consistency under every interleaving needs. */
  lemma ConsistentExactlyWhenSeparate(runs: seq<Run>)
    requires Runs(runs)
    ensures (forall schedule | Schedule(runs, schedule) :: Consistent(runs, Execute(runs, schedule)))
              <==> Separate(runs)
  {
    if Separate(runs) {
      forall schedule | Schedule(runs, schedule)
        ensures Consistent(runs, Execute(runs, schedule))
      {
        PublishedSnapshotsAreComplete(runs, schedule);
      }
    } else {
      var r, q :| 0 <= r < |runs| && 0 <= q < |runs| && r != q
                  && (runs[r].dir == runs[q].dir || runs[q].prefix == Some(runs[r].dir));
      CollisionBreaksConsistency(runs, r, q, 0);
    }
  }

  // ---- what a reader sees ------------------------------------------------------------------------

  /** An upload to a versioned module key of run `r` carries the body that run `r` has there. */
  predicate SharedBodies(runs: seq<Run>)
    requires Sized(runs)
  {
    forall r, i, q, k ::
      (0 <= r < |runs| && 0 <= i < N && 0 <= q < |runs| && 0 <= k < |Script(runs[q])|
       && Script(runs[q])[k].key == runs[r].versioned[i].key) ==>
        Script(runs[q])[k].body == runs[r].versioned[i].body
  }

  lemma CompatibleRunsShareBodies(runs: seq<Run>)
    requires Runs(runs) && Compatible(runs)
    ensures SharedBodies(runs)
  {
    forall r, i, q, k | 0 <= r < |runs| && 0 <= i < N && 0 <= q < |runs| && 0 <= k < |Script(runs[q])|
                        && Script(runs[q])[k].key == runs[r].versioned[i].key
      ensures Script(runs[q])[k].body == runs[r].versioned[i].body
    {
      assert WellFormed(runs[q]) && WellFormed(runs[r]);
      SameKeySameModule(runs[r], i, runs[q], k);
      assert r != q ==> Collides(runs, r, q);
    }
  }

  /** A versioned module key of one run is written by another one only as the same module of a shared directory. */
  lemma SameKeySameModule(a: Run, i: nat, b: Run, k: nat)
    requires WellFormed(a) && WellFormed(b) && i < N && k < |Script(b)| && Script(b)[k].key == a.versioned[i].key
    ensures a.dir == b.dir || b.prefix == Some(a.dir)
    ensures Script(b)[k].body == b.versioned[i].body
  {
    if k <= N {
      KeysInjective(b.dir, a.dir, k, i);
    } else {
      assert Script(b)[k] == b.latest[k - N - 1];
      KeysInjective(b.prefix.value, a.dir, k - N - 1, i);
    }
  }

  predicate BodyInv(runs: seq<Run>, s: Store)
    requires Sized(runs)
  {
    && |s.done| == |runs|
    && (forall r | 0 <= r < |runs| :: s.done[r] <= |Script(runs[r])|)
    && (forall r, i | 0 <= r < |runs| && 0 <= i < N && i < s.done[r] ::
          runs[r].versioned[i].key in s.objects
          && s.objects[runs[r].versioned[i].key].body == runs[r].versioned[i].body)
    && (forall key | key in s.objects && IsOverviewKey(key) ::
          var o := s.objects[key];
          o.run < |runs| && s.done[o.run] > N && o.body == runs[o.run].versioned[N].body)
  }

  lemma BodyInvStep(runs: seq<Run>, s: Store, q: nat)
    requires Sized(runs) && SharedBodies(runs) && OverviewsLast(runs) && BodyInv(runs, s) && q < |runs|
    ensures BodyInv(runs, Step(runs, s, q))
  {
    var script := Script(runs[q]);
    var t := Step(runs, s, q);
    if s.done[q] < |script| {
      var k := s.done[q];
      forall r, i | 0 <= r < |runs| && 0 <= i < N && i < t.done[r]
        ensures runs[r].versioned[i].key in t.objects
        ensures t.objects[runs[r].versioned[i].key].body == runs[r].versioned[i].body
      {
        assert script[k].key == runs[r].versioned[i].key ==> script[k].body == runs[r].versioned[i].body;
        assert r == q && i == k ==> script[k] == runs[q].versioned[k];
      }
    }
  }

  lemma {:induction false} BodyInvHolds(runs: seq<Run>, schedule: seq<nat>)
    requires Sized(runs) && SharedBodies(runs) && OverviewsLast(runs) && Schedule(runs, schedule)
    ensures BodyInv(runs, Execute(runs, schedule))
  {
    if schedule != [] {
      BodyInvHolds(runs, schedule[..|schedule| - 1]);
      BodyInvStep(runs, Execute(runs, schedule[..|schedule| - 1]), schedule[|schedule| - 1]);
    }
  }

  lemma BodyInvIsReadable(runs: seq<Run>, s: Store)
    requires Sized(runs) && BodyInv(runs, s)
    requires forall r, i | 0 <= r < |runs| && 0 <= i < N ::
               runs[r].versioned[N].body.overview.modules[i].objectKey == runs[r].versioned[i].key
    ensures AllReadable(runs, s)
  {
  }

  lemma CompatibleRunsAreReadable(runs: seq<Run>, schedule: seq<nat>)
    requires Runs(runs) && Compatible(runs) && Schedule(runs, schedule)
    ensures AllReadable(runs, Execute(runs, schedule))
  {
    CompatibleRunsShareBodies(runs);
    RunsHaveOverviewsLast(runs);
    BodyInvHolds(runs, schedule);
    forall r, i | 0 <= r < |runs| && 0 <= i < N
      ensures runs[r].versioned[N].body.overview.modules[i].objectKey == runs[r].versioned[i].key
    {
      assert WellFormed(runs[r]);
    }
    BodyInvIsReadable(runs, Execute(runs, schedule));
  }

  /**
   In every interleaving each overview leads its readers to the bodies of its own run, whoever wrote
   them, exactly when runs that collide have the same module files.
   */
  lemma ReadableExactlyWhenCompatible(runs: seq<Run>)
    requires Runs(runs)
    ensures (forall schedule | Schedule(runs, schedule) :: AllReadable(runs, Execute(runs, schedule)))
              <==> Compatible(runs)
  {
    if Compatible(runs) {
      forall schedule | Schedule(runs, schedule)
        ensures AllReadable(runs, Execute(runs, schedule))
      {
        CompatibleRunsAreReadable(runs, schedule);
      }
    } else {
      var r: nat, q: nat, i :| Collides(runs, r, q) && 0 <= i < N
                               && runs[q].versioned[i].body != runs[r].versioned[i].body;
      CollisionBreaksConsistency(runs, r, q, i);
    }
  }

  // ---- runs into generated directories --------------------------------------------------------------

  /** The run goes, without an override, to a directory named after the leaf of its own push. */
  predicate IsGenerated(run: Run, granted: Option<string>, home: string, leaf: string) {
    var dir := ResolveSnapshotDir(None, granted, home + "/snapshots/" + leaf);
    && NoSlash(leaf) && leaf != "" && leaf != "latest" && home != "" && home[0] != '/'
    && run.dir == TrimSlashes(dir) && run.prefix == LatestPrefix(dir)
  }

  lemma GeneratedRunsDoNotCollide(a: Run, b: Run, granted: Option<string>, home: string, leaf: string,
      otherGranted: Option<string>, otherHome: string, other: string)
    requires IsGenerated(a, granted, home, leaf) && IsGenerated(b, otherGranted, otherHome, other) && leaf != other
    ensures a.dir != b.dir && b.prefix != Some(a.dir)
  {
    var p := GeneratedDir(granted, home, leaf);
    var q := GeneratedDir(otherGranted, otherHome, other);
    GeneratedDirsAreSeparate(p, leaf, q, other,
      ResolveSnapshotDir(None, otherGranted, otherHome + "/snapshots/" + other));
  }

  /** Pushes into generated directories with leaves of their own are complete at every moment. */
  lemma GeneratedRunsAreComplete(runs: seq<Run>, granted: seq<Option<string>>, homes: seq<string>, leaves: seq<string>,
      schedule: seq<nat>)
    requires Runs(runs) && |granted| == |homes| == |leaves| == |runs| && Schedule(runs, schedule)
    requires forall r | 0 <= r < |runs| :: IsGenerated(runs[r], granted[r], homes[r], leaves[r])
    requires forall r, q | 0 <= r < |runs| && 0 <= q < |runs| && r != q :: leaves[r] != leaves[q]
    ensures Separate(runs) && Consistent(runs, Execute(runs, schedule))
  {
    forall r, q | 0 <= r < |runs| && 0 <= q < |runs| && r != q
      ensures runs[r].dir != runs[q].dir && runs[q].prefix != Some(runs[r].dir)
    {
      GeneratedRunsDoNotCollide(runs[r], runs[q], granted[r], homes[r], leaves[r], granted[q], homes[q], leaves[q]);
    }
    PublishedSnapshotsAreComplete(runs, schedule);
  }

  // ---- one push, as the program runs it ----------------------------------------------------

  /** The bucket as one push sees it: the uploads that arrived, and when the transport gives up. */
  class Bucket {
    var puts: seq<Upload>
    var announced: seq<seq<string>>
    var patience: nat

    constructor (patience: nat)
      ensures puts == [] && announced == [] && this.patience == patience
    {
      puts, announced := [], [];
      this.patience := patience;
    }

    method Put(u: Upload) returns (ok: bool)
      modifies this
      ensures ok <==> old(patience) > 0
      ensures if ok then puts == old(puts) + [u] && patience == old(patience) - 1
              else puts == old(puts) && patience == old(patience)
      ensures announced == old(announced)
    {
      ok := patience > 0;
      if ok {
        puts := puts + [u];
        patience := patience - 1;
      }
    }
  }

  function Min(a: nat, b: nat): nat {
    if a < b then a else b
  }

  /** The first upload loop: the files under their own keys. */
  method PutVersioned(files: seq<Upload>, bucket: Bucket) returns (ok: bool)
    modifies bucket
    ensures bucket.puts == old(bucket.puts) + files[..Min(old(bucket.patience), |files|)]
    ensures bucket.patience == old(bucket.patience) - Min(old(bucket.patience), |files|)
    ensures ok <==> old(bucket.patience) >= |files|
    ensures bucket.announced == old(bucket.announced)
  {
    for i := 0 to |files|
      invariant bucket.puts == old(bucket.puts) + files[..i]
      invariant bucket.patience == old(bucket.patience) - i && bucket.announced == old(bucket.announced)
    {
      assert files[..i] + [files[i]] == files[..i + 1];
      ok := bucket.Put(files[i]);
      if !ok {
        return;
      }
    }
    ok := true;
  }

  /** The second upload loop: the same bodies under the `latest/` prefix. */
  method PutLatest(files: seq<Upload>, dir: string, prefix: string, bucket: Bucket) returns (ok: bool)
    modifies bucket
    ensures var latest := LatestUploads(files, dir, prefix);
            && bucket.puts == old(bucket.puts) + latest[..Min(old(bucket.patience), |latest|)]
            && bucket.patience == old(bucket.patience) - Min(old(bucket.patience), |latest|)
            && (ok <==> old(bucket.patience) >= |latest|)
    ensures bucket.announced == old(bucket.announced)
  {
    ghost var latest := LatestUploads(files, dir, prefix);
    for i := 0 to |files|
      invariant LatestUploads(files[..i], dir, prefix) <= latest
      invariant bucket.puts == old(bucket.puts) + LatestUploads(files[..i], dir, prefix)
      invariant bucket.patience == old(bucket.patience) - |LatestUploads(files[..i], dir, prefix)|
      invariant bucket.announced == old(bucket.announced)
    {
      assert files[..i + 1][..i] == files[..i];
      LatestUploadsGrow(files, i + 1, dir, prefix);
      var key := LatestKey(files[i].key, dir, prefix);
      if key.Some? {
        ok := bucket.Put(Upload(key.value, files[i].body));
        if !ok {
          return;
        }
      }
    }
    assert files[..|files|] == files;
    ok := true;
  }

  method UploadAndNotify(files: seq<Upload>, dir: string, prefix: Option<string>, bucket: Bucket) returns (ok: bool)
    modifies bucket
    ensures var script := Script(PlanFor(files, dir, prefix));
            && bucket.puts == old(bucket.puts) + script[..Min(old(bucket.patience), |script|)]
            && (ok <==> old(bucket.patience) >= |script|)
    ensures bucket.announced == old(bucket.announced) +
            if ok then [seq(|files|, i requires 0 <= i < |files| => files[i].key)] else []
  {
    ok := PutVersioned(files, bucket);
    if !ok {
      return;
    }
    if prefix.Some? {
      ok := PutLatest(files, dir, prefix.value, bucket);
      if !ok {
        return;
      }
    }
    var keys := [];
    for i := 0 to |files|
      invariant keys == seq(i, j requires 0 <= j < i => files[j].key)
    {
      keys := keys + [files[i].key];
    }
    bucket.announced := bucket.announced + [keys];
  }

  /**
   The upload part of `push_snapshot`: whatever upload fails, what has arrived is a prefix of the
   script, and the notification, naming the versioned keys, follows only a complete one.
   */
  method PushSnapshot(snapshotDir: string, files: seq<Upload>, bucket: Bucket) returns (ok: bool)
    modifies bucket
    ensures var script := Script(Plan(snapshotDir, files));
            && bucket.puts == old(bucket.puts) + script[..Min(old(bucket.patience), |script|)]
            && (ok <==> old(bucket.patience) >= |script|)
    ensures bucket.announced == old(bucket.announced) +
            if ok then [seq(|files|, i requires 0 <= i < |files| => files[i].key)] else []
  {
    ok := UploadAndNotify(files, TrimSlashes(snapshotDir), LatestPrefix(snapshotDir), bucket);
  }

  lemma {:induction false} LatestUploadsGrow(files: seq<Upload>, n: nat, dir: string, prefix: string)
    requires n <= |files|
    ensures LatestUploads(files[..n], dir, prefix) <= LatestUploads(files, dir, prefix)
    decreases |files|
  {
    if n < |files| {
      assert files[..|files| - 1][..n] == files[..n];
      LatestUploadsGrow(files[..|files| - 1], n, dir, prefix);
    } else {
      assert files[..n] == files;
    }
  }
}
