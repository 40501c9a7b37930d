/**
 Reuse equals recompilation: over any sequence of edits, deletions, settings changes and
 compilations, an artifact the cache serves is what compiling the current import closure
 of its source would give.
 */
module CacheSoundness {
  import opened Reachability
  import opened CacheModel

  // ---------- What a cache entry stands for ----------

  /** The imports recorded in a snapshot, followed only to files that have an entry. */
  function LiveGraph(t: Toolchain, files: Files, c: Disk): Graph<Path> {
    map x | x in c :: set b | b in t.imports(x, c[x]) && b in c && b in files
  }

  /** The entry of `x` still describes the snapshot, and no import the snapshot lacks has an entry. */
  ghost predicate Matches(t: Toolchain, files: Files, c: Disk, x: Path) {
    && x in c && x in files && files[x].contentHash == t.hash(c[x])
    && forall b :: b in t.imports(x, c[x]) ==> b in c || b !in files
  }

  /** `c` is what compiling `f` read; whatever can be reached through entries is unchanged since. */
  ghost predicate SnapshotHolds(t: Toolchain, files: Files, f: Path, c: Disk) {
    && f in c
    && (forall x :: x in c ==> Reaches(ImportGraph(t, c), f, x))
    && (forall x :: Reaches(LiveGraph(t, files, c), f, x) ==> Matches(t, files, c, x))
  }

  /** The entry's artifacts are exactly the compiler's, for every version and profile it has any for. */
  ghost predicate ArtifactsHold(t: Toolchain, profiles: map<Profile, Settings>, f: Path, e: CacheEntry, c: Disk) {
    && (forall k :: k in e.artifacts ==>
          && k.profile in profiles
          && k.name in t.compile(f, c, k.version, profiles[k.profile])
          && e.artifacts[k].artifact == t.compile(f, c, k.version, profiles[k.profile])[k.name])
    && (forall k, n :: k in e.artifacts && n in t.compile(f, c, k.version, profiles[k.profile]) ==>
          ArtifactKey(n, k.version, k.profile) in e.artifacts)
    && (e.seenByCompiler && e.artifacts == map[] ==> exists v, s :: t.compile(f, c, v, s) == map[])
  }

  ghost predicate CacheHolds(t: Toolchain, files: Files, profiles: map<Profile, Settings>, snaps: map<Path, Disk>) {
    forall f :: f in files ==>
      && f in snaps
      && SnapshotHolds(t, files, f, snaps[f])
      && ArtifactsHold(t, profiles, f, files[f], snaps[f])
  }

  /** After dirty removal: everything an entry imports, directly or not, is cached and unchanged. */
  ghost predicate AllClean(t: Toolchain, files: Files, disk: Disk) {
    forall f, x :: f in files && Reaches(ImportGraph(t, disk), f, x) ==> Clean(t, files, disk, x)
  }

  // ---------- Removing entries ----------

  /** Removing entries keeps every snapshot. */
  lemma FewerEntries(t: Toolchain, files: Files, fewer: Files, f: Path, c: Disk)
    requires SnapshotHolds(t, files, f, c) && f in fewer
    requires forall x :: x in fewer ==> x in files && fewer[x].contentHash == files[x].contentHash
    ensures SnapshotHolds(t, fewer, f, c)
  {
    var g, h := LiveGraph(t, files, c), LiveGraph(t, fewer, c);
    forall x | Reaches(h, f, x) ensures Matches(t, fewer, c, x) {
      ReachesItself(g, f);
      forall y, z | Reaches(g, f, y) && y in fewer && Edge(h, y, z) ensures Reaches(g, f, z) && z in fewer {
        ReachesOnward(g, f, y, z);
      }
      AlongPaths(h, f, x, y => Reaches(g, f, y) && y in fewer);
      assert Matches(t, files, c, x);
    }
  }

  lemma ProfilesKeepArtifacts(t: Toolchain, cached: map<Profile, Settings>, project: map<Profile, Settings>,
                              f: Path, e: CacheEntry, c: Disk)
    requires ArtifactsHold(t, cached, f, e, c)
    requires e.artifacts == map[] || WithoutProfiles(e.artifacts, DirtyProfiles(t, cached, project)) != map[]
    ensures ArtifactsHold(t, UpdatedProfiles(t, cached, project), f,
                          e.(artifacts := WithoutProfiles(e.artifacts, DirtyProfiles(t, cached, project))), c)
  {
    var kept := WithoutProfiles(e.artifacts, DirtyProfiles(t, cached, project));
    var profiles := UpdatedProfiles(t, cached, project);
    forall k | k in kept ensures k.profile in profiles && profiles[k.profile] == cached[k.profile] {}
    forall k, n | k in kept && n in t.compile(f, c, k.version, profiles[k.profile])
      ensures ArtifactKey(n, k.version, k.profile) in kept
    {
      assert ArtifactKey(n, k.version, k.profile) in e.artifacts;
    }
  }

  lemma UpdateProfilesHolds(t: Toolchain, c: CompilerCache, project: map<Profile, Settings>, snaps: map<Path, Disk>)
    requires CacheHolds(t, c.files, c.profiles, snaps)
    ensures var d := UpdateProfiles(t, c, project); CacheHolds(t, d.files, d.profiles, snaps)
  {
    var d := UpdateProfiles(t, c, project);
    forall f | f in d.files
      ensures f in snaps && SnapshotHolds(t, d.files, f, snaps[f]) &&
              ArtifactsHold(t, d.profiles, f, d.files[f], snaps[f])
    {
      FewerEntries(t, c.files, d.files, f, snaps[f]);
      ProfilesKeepArtifacts(t, c.profiles, project, f, c.files[f], snaps[f]);
    }
  }

  lemma SurvivorsHold(t: Toolchain, files: Files, profiles: map<Profile, Settings>, disk: Disk, snaps: map<Path, Disk>)
    requires CacheHolds(t, files, profiles, snaps)
    ensures CacheHolds(t, Survivors(t, files, disk), profiles, snaps)
    ensures AllClean(t, Survivors(t, files, disk), disk)
  {
    var s := Survivors(t, files, disk);
    forall f | f in s
      ensures f in snaps && SnapshotHolds(t, s, f, snaps[f]) && ArtifactsHold(t, profiles, f, s[f], snaps[f])
    {
      FewerEntries(t, files, s, f, snaps[f]);
    }
    var g := ImportGraph(t, disk);
    forall f, x | f in s && Reaches(g, f, x) ensures Clean(t, s, disk, x) {
      assert Clean(t, files, disk, x);
      forall y | Reaches(g, x, y) ensures Clean(t, files, disk, y) { ReachesThrough(g, f, x, y); }
      assert Survives(t, files, disk, x);
    }
  }

  // ---------- The snapshot is the current import closure ----------

  /** What the current disk and the snapshot agree on. */
  ghost predicate Agree(t: Toolchain, disk: Disk, f: Path, c: Disk, x: Path) {
    x in c && x in disk && disk[x] == c[x] && Reaches(ImportGraph(t, disk), f, x)
  }

  lemma AgreeAtRoot(t: Toolchain, files: Files, disk: Disk, f: Path, c: Disk)
    requires Trustworthy(t) && AllClean(t, files, disk) && f in files && SnapshotHolds(t, files, f, c)
    ensures Agree(t, disk, f, c, f) && Reaches(LiveGraph(t, files, c), f, f)
  {
    ReachesItself(LiveGraph(t, files, c), f);
    ReachesItself(ImportGraph(t, disk), f);
    assert Matches(t, files, c, f) && Clean(t, files, disk, f);
  }

  /** From a file on which both agree, an import that is on disk is in the snapshot, unchanged. */
  lemma AgreeOnImport(t: Toolchain, files: Files, disk: Disk, f: Path, c: Disk, x: Path, b: Path)
    requires Trustworthy(t) && AllClean(t, files, disk) && f in files && SnapshotHolds(t, files, f, c)
    requires Agree(t, disk, f, c, x) && Reaches(LiveGraph(t, files, c), f, x)
    requires b in t.imports(x, c[x]) && b in disk
    ensures Agree(t, disk, f, c, b) && Reaches(LiveGraph(t, files, c), f, b)
  {
    ReachesOnward(ImportGraph(t, disk), f, x, b);
    assert Clean(t, files, disk, b);
    assert Matches(t, files, c, x);
    ReachesOnward(LiveGraph(t, files, c), f, x, b);
    assert Matches(t, files, c, b);
  }

  /** No file of the snapshot that the current closure still imports was deleted. */
  ghost predicate NothingDeleted(t: Toolchain, disk: Disk, f: Path, c: Disk) {
    forall x, b :: x in ImportClosure(t, disk, f) && b in t.imports(x, disk[x]) && b in c ==> b in disk
  }

  /**
   In a clean cache, a source was compiled from exactly what is on disk now, unless a file it
   imports was deleted since.
   */
  lemma SnapshotIsCurrent(t: Toolchain, files: Files, disk: Disk, f: Path, c: Disk)
    requires Trustworthy(t) && AllClean(t, files, disk) && f in files && SnapshotHolds(t, files, f, c)
    ensures c == ImportClosure(t, disk, f) <==> NothingDeleted(t, disk, f, c)
  {
    if NothingDeleted(t, disk, f, c) {
      var g, live := ImportGraph(t, disk), LiveGraph(t, files, c);
      AgreeAtRoot(t, files, disk, f, c);
      var both := x => Agree(t, disk, f, c, x) && Reaches(live, f, x);
      forall x, b | both(x) && Edge(g, x, b) ensures both(b) { AgreeOnImport(t, files, disk, f, c, x, b); }
      forall x, b | both(x) && Edge(ImportGraph(t, c), x, b) ensures both(b) {
        assert x in ImportClosure(t, disk, f);
        AgreeOnImport(t, files, disk, f, c, x, b);
      }
      forall x | x in ImportClosure(t, disk, f) ensures both(x) { AlongPaths(g, f, x, both); }
      forall x | x in c ensures both(x) { AlongPaths(ImportGraph(t, c), f, x, both); }
    }
  }

  // ---------- Adding entries ----------

  /** New entries do not disturb the snapshots of the entries that survived. */
  lemma OldSnapshotsHold(t: Toolchain, files: Files, disk: Disk, sources: set<Path>, f: Path, c: Disk)
    requires Trustworthy(t) && AllClean(t, files, disk) && f in files && SnapshotHolds(t, files, f, c)
    requires sources <= disk.Keys && files.Keys <= disk.Keys
    ensures SnapshotHolds(t, WithEntries(t, files, disk, sources), f, c)
  {
    var more := WithEntries(t, files, disk, sources);
    var live, live' := LiveGraph(t, files, c), LiveGraph(t, more, c);
    AgreeAtRoot(t, files, disk, f, c);
    var both := x => Agree(t, disk, f, c, x) && Reaches(live, f, x);
    forall x, b | both(x) && Edge(live', x, b) ensures both(b) { AgreeOnImport(t, files, disk, f, c, x, b); }
    forall x | Reaches(live', f, x) ensures Matches(t, more, c, x) {
      AlongPaths(live', f, x, both);
      assert Matches(t, files, c, x);
      forall b | b in t.imports(x, c[x]) && b !in c ensures b !in more {
        if b in disk { AgreeOnImport(t, files, disk, f, c, x, b); }
      }
    }
  }

  lemma ClosureIsReached(t: Toolchain, disk: Disk, f: Path, x: Path)
    requires x in ImportClosure(t, disk, f)
    ensures Reaches(ImportGraph(t, ImportClosure(t, disk, f)), f, x)
  {
    var g, c := ImportGraph(t, disk), ImportClosure(t, disk, f);
    var h := ImportGraph(t, c);
    ReachesItself(h, f);
    var both := y => Reaches(g, f, y) && Reaches(h, f, y);
    ReachesItself(g, f);
    forall y, b | both(y) && Edge(g, y, b) ensures both(b) {
      ReachesOnward(g, f, y, b);
      ReachesOnward(h, f, y, b);
    }
    AlongPaths(g, f, x, both);
  }

  /** When every entry has the hash of what is on disk, the current closure is a valid snapshot. */
  lemma NewSnapshotHolds(t: Toolchain, files: Files, disk: Disk, f: Path)
    requires f in files && forall x :: x in files ==> x in disk && files[x].contentHash == t.hash(disk[x])
    ensures SnapshotHolds(t, files, f, ImportClosure(t, disk, f))
  {
    var g, c := ImportGraph(t, disk), ImportClosure(t, disk, f);
    ReachesItself(g, f);
    forall x | x in c ensures Reaches(ImportGraph(t, c), f, x) { ClosureIsReached(t, disk, f, x); }
    forall x | Reaches(LiveGraph(t, files, c), f, x) ensures Matches(t, files, c, x) {
      StaysInside(LiveGraph(t, files, c), c.Keys * files.Keys, f, x);
      forall b | b in t.imports(x, c[x]) && b in disk ensures b in c { ReachesOnward(g, f, x, b); }
    }
  }

  /** Snapshots of the new entries are the current closures. */
  ghost function MoreSnaps(t: Toolchain, files: Files, disk: Disk, sources: set<Path>, snaps: map<Path, Disk>)
    : map<Path, Disk>
  {
    snaps + (map f | f in sources && f !in files :: ImportClosure(t, disk, f))
  }

  lemma EntriesMatchDisk(t: Toolchain, files: Files, disk: Disk)
    requires AllClean(t, files, disk)
    ensures forall x :: x in files ==> x in disk && files[x].contentHash == t.hash(disk[x])
  {
    forall x | x in files ensures x in disk && files[x].contentHash == t.hash(disk[x]) {
      ReachesItself(ImportGraph(t, disk), x);
      assert Clean(t, files, disk, x);
    }
  }

  lemma NewEntriesAreClean(t: Toolchain, files: Files, disk: Disk, sources: set<Path>)
    requires AllClean(t, files, disk) && ScopeClosed(t, disk, sources)
    ensures AllClean(t, WithEntries(t, files, disk, sources), disk)
  {
    var more, g := WithEntries(t, files, disk, sources), ImportGraph(t, disk);
    EntriesMatchDisk(t, files, disk);
    forall f, x | f in more && Reaches(g, f, x) ensures Clean(t, more, disk, x) {
      if f in files {
        assert Clean(t, files, disk, x);
      } else {
        StaysInside(g, sources, f, x);
      }
    }
  }

  lemma NewEntriesHold(t: Toolchain, files: Files, profiles: map<Profile, Settings>, disk: Disk, sources: set<Path>,
                       snaps: map<Path, Disk>)
    requires Trustworthy(t) && AllClean(t, files, disk) && ScopeClosed(t, disk, sources)
    requires CacheHolds(t, files, profiles, snaps)
    ensures var more := WithEntries(t, files, disk, sources);
            && CacheHolds(t, more, profiles, MoreSnaps(t, files, disk, sources, snaps))
            && AllClean(t, more, disk)
  {
    var more := WithEntries(t, files, disk, sources);
    var snaps' := MoreSnaps(t, files, disk, sources, snaps);
    EntriesMatchDisk(t, files, disk);
    NewEntriesAreClean(t, files, disk, sources);
    forall f | f in more
      ensures f in snaps' && SnapshotHolds(t, more, f, snaps'[f]) && ArtifactsHold(t, profiles, f, more[f], snaps'[f])
    {
      if f in files {
        OldSnapshotsHold(t, files, disk, sources, f, snaps[f]);
      } else {
        NewSnapshotHolds(t, more, disk, f);
      }
    }
  }

  // ---------- Recording what was compiled ----------

  /** A source was compiled from the current disk with the project's settings. */
  ghost predicate Faithful(t: Toolchain, disk: Disk, project: map<Profile, Settings>, c: Compiled) {
    && c.profile in project
    && c.output == t.compile(c.file, ImportClosure(t, disk, c.file), c.version, project[c.profile])
  }

  /** The cached settings of each project profile give the outputs the project's would. */
  ghost predicate Interchangeable(t: Toolchain, cached: map<Profile, Settings>, project: map<Profile, Settings>) {
    forall p :: p in project ==>
      p in cached && forall f, c, v :: t.compile(f, c, v, project[p]) == t.compile(f, c, v, cached[p])
  }

  lemma UpdatedProfilesInterchange(t: Toolchain, cached: map<Profile, Settings>, project: map<Profile, Settings>)
    requires Trustworthy(t)
    ensures Interchangeable(t, UpdatedProfiles(t, cached, project), project)
  {
  }

  lemma MergedArtifactsHold(t: Toolchain, profiles: map<Profile, Settings>, e: CacheEntry, snap: Disk, c: Compiled)
    requires ArtifactsHold(t, profiles, c.file, e, snap)
    requires c.profile in profiles && c.output == t.compile(c.file, snap, c.version, profiles[c.profile])
    ensures ArtifactsHold(t, profiles, c.file, e.(artifacts := e.artifacts + KeysOf(c), seenByCompiler := true), snap)
  {
    var merged := e.artifacts + KeysOf(c);
    forall k, n | k in merged && n in t.compile(c.file, snap, k.version, profiles[k.profile])
      ensures ArtifactKey(n, k.version, k.profile) in merged
    {
      if k !in KeysOf(c) { assert ArtifactKey(n, k.version, k.profile) in e.artifacts; }
    }
    forall n | n in c.output ensures ArtifactKey(n, c.version, c.profile) in merged {}
    assert merged == map[] ==> c.output == map[];
  }

  /** The snapshot of `f`, if it has an entry, is its current import closure. */
  ghost predicate Current(t: Toolchain, files: Files, disk: Disk, snaps: map<Path, Disk>, f: Path) {
    f in files ==> f in snaps && snaps[f] == ImportClosure(t, disk, f)
  }

  lemma RecordHolds(t: Toolchain, files: Files, profiles: map<Profile, Settings>, disk: Disk,
                    project: map<Profile, Settings>, snaps: map<Path, Disk>, c: Compiled)
    requires CacheHolds(t, files, profiles, snaps) && Current(t, files, disk, snaps, c.file)
    requires Interchangeable(t, profiles, project) && Faithful(t, disk, project, c)
    ensures CacheHolds(t, Record(files, c), profiles, snaps)
  {
    if c.file in files {
      var more := Record(files, c);
      forall f | f in more
        ensures f in snaps && SnapshotHolds(t, more, f, snaps[f]) && ArtifactsHold(t, profiles, f, more[f], snaps[f])
      {
        FewerEntries(t, files, more, f, snaps[f]);
        if f == c.file {
          assert c.output == t.compile(f, snaps[f], c.version, profiles[c.profile]);
          MergedArtifactsHold(t, profiles, files[f], snaps[f], c);
        }
      }
    }
  }

  lemma {:induction false} RecordAllHolds(t: Toolchain, files: Files, profiles: map<Profile, Settings>, disk: Disk,
                                          project: map<Profile, Settings>, snaps: map<Path, Disk>, cs: seq<Compiled>)
    requires CacheHolds(t, files, profiles, snaps) && Interchangeable(t, profiles, project)
    requires forall i :: 0 <= i < |cs| ==>
               Faithful(t, disk, project, cs[i]) && Current(t, files, disk, snaps, cs[i].file)
    ensures CacheHolds(t, RecordAll(files, cs), profiles, snaps)
    decreases |cs|
  {
    if cs != [] {
      RecordHolds(t, files, profiles, disk, project, snaps, cs[0]);
      RecordAllHolds(t, Record(files, cs[0]), profiles, disk, project, snaps, cs[1..]);
    }
  }
}
