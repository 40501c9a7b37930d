/**
 Whole project compilations over the incremental cache, and any sequence of them with
 arbitrary edits in between.
 */
module CacheRuns {
  import opened Reachability
  import opened CacheModel
  import opened CacheSoundness

  /** One project compilation: what it finds, and what it compiled. */
  datatype Build = Build(
    disk: Disk,                             // the readable files
    profiles: map<Profile, Settings>,       // the project's settings profiles
    groups: seq<Group>,                     // the sources in scope per version and profile
    imports: map<Path, set<Path>>,          // what each source imports, directly or not
    invalidated: bool,                      // no usable cache file
    graphResolves: bool,                    // whether the cached sources parse
    readable: set<(Path, ArtifactKey)>,     // cached artifacts that could be read back
    extraFilesMissing: bool,
    compiled: seq<Compiled>,
    buildInfos: set<BuildId>,
    saved: bool)                            // no error: the cache is written to disk

  function InScope(groups: seq<Group>): set<Path> {
    set g, f | g in groups && f in g.sources :: f
  }

  predicate Unresolved(t: Toolchain, b: Build)
    requires InScope(b.groups) <= b.disk.Keys
  {
    exists f :: f in InScope(b.groups) && !(t.imports(f, b.disk[f]) <= b.disk.Keys)
  }

  /** The cache the compilation starts from; unresolved imports in scope invalidate it. */
  function Start(t: Toolchain, b: Build, c: CompilerCache): CompilerCache
    requires InScope(b.groups) <= b.disk.Keys
  {
    if b.invalidated || Unresolved(t, b) then EmptyCache else c
  }

  /** After `remove_dirty_sources`. */
  ghost function Prepared(t: Toolchain, b: Build, c: CompilerCache): CompilerCache
    requires InScope(b.groups) <= b.disk.Keys
  {
    var d := UpdateProfiles(t, Start(t, b, c), b.profiles);
    d.(files := if b.graphResolves then Survivors(t, d.files, b.disk) else map[])
  }

  /** After every group was filtered. */
  ghost function Filtered(t: Toolchain, b: Build, c: CompilerCache): CompilerCache
    requires InScope(b.groups) <= b.disk.Keys
  {
    var d := Prepared(t, b, c);
    d.(files := WithEntries(t, d.files, b.disk, InScope(b.groups)))
  }

  ghost function Consumed(t: Toolchain, b: Build, c: CompilerCache): CompilerCache
    requires InScope(b.groups) <= b.disk.Keys
  {
    var d := Filtered(t, b, c);
    d.(files := RecordAll(d.files, b.compiled), builds := d.builds + b.buildInfos)
  }

  /** The cache file after the compilation. */
  ghost function After(t: Toolchain, b: Build, c: CompilerCache): CompilerCache
    requires InScope(b.groups) <= b.disk.Keys
  {
    var d := Consumed(t, b, c);
    if b.saved then d.(builds := ReferencedBuilds(d.files, d.builds)) else c
  }

  /** What the filter answers for a group. */
  ghost function Answer(t: Toolchain, b: Build, c: CompilerCache, g: Group): map<Path, SourceCompilationKind>
    requires InScope(b.groups) <= b.disk.Keys
  {
    Kinds(g.sources, CompleteSources(Filtered(t, b, c).files, b.readable, b.extraFilesMissing, g), b.imports)
  }

  /** The filter marks `f` for complete compilation. */
  ghost predicate IsComplete(t: Toolchain, b: Build, c: CompilerCache, g: Group, f: Path)
    requires InScope(b.groups) <= b.disk.Keys
  {
    f in Answer(t, b, c, g) && Answer(t, b, c, g)[f] == Complete
  }

  /** Marked are exactly the sources that miss artifacts. */
  lemma CompleteIsMissing(t: Toolchain, b: Build, c: CompilerCache, g: Group, f: Path)
    requires InScope(b.groups) <= b.disk.Keys
    ensures IsComplete(t, b, c, g, f) <==>
            && f in g.sources
            && IsMissing(Filtered(t, b, c).files, b.readable, b.extraFilesMissing, f, g.version, g.profile)
  {
    hide Filtered, IsMissing;
  }

  /** `w` is one of the sources marked for complete compilation. */
  ghost predicate Requested(t: Toolchain, b: Build, c: CompilerCache, w: Compiled)
    requires InScope(b.groups) <= b.disk.Keys
  {
    exists g :: g in b.groups && g.version == w.version && g.profile == w.profile && IsComplete(t, b, c, g, w.file)
  }

  /** The compiler is run on requested sources of the current disk; scopes are closed under imports. */
  ghost predicate Possible(t: Toolchain, b: Build, c: CompilerCache) {
    && (forall g :: g in b.groups ==> g.profile in b.profiles && ScopeClosed(t, b.disk, g.sources))
    && InScope(b.groups) <= b.disk.Keys
    && (forall i :: 0 <= i < |b.compiled| ==>
          && Requested(t, b, c, b.compiled[i])
          && Faithful(t, b.disk, b.profiles, b.compiled[i])
          && b.compiled[i].buildId in b.buildInfos)
  }

  // ---------- Soundness of one compilation ----------

  ghost predicate Sound(t: Toolchain, c: CompilerCache) {
    exists snaps :: CacheHolds(t, c.files, c.profiles, snaps)
  }

  lemma PreparedHolds(t: Toolchain, b: Build, c: CompilerCache) returns (snaps: map<Path, Disk>)
    requires Trustworthy(t) && Possible(t, b, c) && Sound(t, c)
    ensures var d := Prepared(t, b, c);
            && CacheHolds(t, d.files, d.profiles, snaps) && AllClean(t, d.files, b.disk)
            && Interchangeable(t, d.profiles, b.profiles)
            && (Unresolved(t, b) ==> d.files == map[])
  {
    var s := Start(t, b, c);
    snaps :| CacheHolds(t, c.files, c.profiles, snaps);
    assert CacheHolds(t, s.files, s.profiles, snaps);
    UpdateProfilesHolds(t, s, b.profiles, snaps);
    UpdatedProfilesInterchange(t, s.profiles, b.profiles);
    var d := UpdateProfiles(t, s, b.profiles);
    SurvivorsHold(t, d.files, d.profiles, b.disk, snaps);
  }

  /** In a resolved scope every import closure stays in scope. */
  lemma ScopeResolves(t: Toolchain, b: Build, c: CompilerCache, f: Path)
    requires Possible(t, b, c) && f in InScope(b.groups) && !Unresolved(t, b)
    ensures Resolved(t, b.disk, f)
  {
    var scope := InScope(b.groups);
    forall x, i | x in ImportClosure(t, b.disk, f) && i in t.imports(x, b.disk[x]) ensures i in b.disk {
      forall y, z | y in scope && Edge(ImportGraph(t, b.disk), y, z) ensures z in scope {
        var g :| g in b.groups && y in g.sources;
        assert z in g.sources;
      }
      StaysInside(ImportGraph(t, b.disk), scope, f, x);
    }
  }

  lemma ScopeIsClosed(t: Toolchain, b: Build, c: CompilerCache)
    requires Possible(t, b, c)
    ensures ScopeClosed(t, b.disk, InScope(b.groups))
  {
    forall f, i | f in InScope(b.groups) && i in t.imports(f, b.disk[f]) && i in b.disk ensures i in InScope(b.groups) {
      var g :| g in b.groups && f in g.sources;
      assert i in g.sources;
    }
  }

  lemma FilteredHolds(t: Toolchain, b: Build, c: CompilerCache) returns (snaps: map<Path, Disk>)
    requires Trustworthy(t) && Possible(t, b, c) && Sound(t, c)
    ensures var d := Filtered(t, b, c);
            && CacheHolds(t, d.files, d.profiles, snaps) && AllClean(t, d.files, b.disk)
            && Interchangeable(t, d.profiles, b.profiles)
            && forall f :: f in InScope(b.groups) ==> f in d.files && Current(t, d.files, b.disk, snaps, f)
  {
    var old' := PreparedHolds(t, b, c);
    var p := Prepared(t, b, c);
    var scope := InScope(b.groups);
    ScopeIsClosed(t, b, c);
    NewEntriesHold(t, p.files, p.profiles, b.disk, scope, old');
    snaps := MoreSnaps(t, p.files, b.disk, scope, old');
    var d := Filtered(t, b, c);
    forall f | f in scope ensures f in d.files && Current(t, d.files, b.disk, snaps, f) {
      if f in p.files {
        ScopeResolves(t, b, c, f);
        SnapshotIsCurrent(t, p.files, b.disk, f, old'[f]);
        assert NothingDeleted(t, b.disk, f, old'[f]);
      }
    }
  }

  lemma CompilationKeepsSound(t: Toolchain, b: Build, c: CompilerCache)
    requires Trustworthy(t) && Possible(t, b, c) && Sound(t, c)
    ensures Sound(t, Consumed(t, b, c)) && Sound(t, After(t, b, c))
  {
    var snaps := FilteredHolds(t, b, c);
    var d := Filtered(t, b, c);
    forall i | 0 <= i < |b.compiled| ensures Current(t, d.files, b.disk, snaps, b.compiled[i].file) {
      assert Requested(t, b, c, b.compiled[i]);
    }
    RecordAllHolds(t, d.files, d.profiles, b.disk, b.profiles, snaps, b.compiled);
    assert CacheHolds(t, Consumed(t, b, c).files, d.profiles, snaps);
  }

  // ---------- Builds ----------

  /** Every build an entry refers to is listed. */
  ghost predicate Covers(files: Files, builds: set<BuildId>) {
    forall f, k :: f in files && k in files[f].artifacts ==> files[f].artifacts[k].buildId in builds
  }

  ghost predicate BuildsCover(c: CompilerCache) {
    Covers(c.files, c.builds)
  }

  lemma RecordCovered(files: Files, builds: set<BuildId>, c: Compiled)
    requires Covers(files, builds) && c.buildId in builds
    ensures Covers(Record(files, c), builds)
  {
    var more := Record(files, c);
    forall f, k | f in more && k in more[f].artifacts ensures more[f].artifacts[k].buildId in builds {
      if f == c.file && k in KeysOf(c) {
        assert more[f].artifacts[k] == KeysOf(c)[k];
      } else {
        assert f in files && k in files[f].artifacts && more[f].artifacts[k] == files[f].artifacts[k];
      }
    }
  }

  lemma {:induction false} RecordAllCovered(files: Files, builds: set<BuildId>, cs: seq<Compiled>)
    requires Covers(files, builds) && forall i :: 0 <= i < |cs| ==> cs[i].buildId in builds
    ensures Covers(RecordAll(files, cs), builds)
    decreases |cs|
  {
    if cs != [] {
      RecordCovered(files, builds, cs[0]);
      RecordAllCovered(Record(files, cs[0]), builds, cs[1..]);
    }
  }

  lemma CompilationKeepsBuildsCovered(t: Toolchain, b: Build, c: CompilerCache)
    requires Possible(t, b, c) && BuildsCover(c)
    ensures BuildsCover(Consumed(t, b, c)) && BuildsCover(After(t, b, c))
    ensures b.saved ==> forall id :: id in After(t, b, c).builds <==> References(After(t, b, c).files, id)
  {
    var s, p, d := Start(t, b, c), Prepared(t, b, c), Filtered(t, b, c);
    assert Covers(s.files, s.builds);
    forall f, k | f in p.files && k in p.files[f].artifacts ensures p.files[f].artifacts[k].buildId in s.builds {
      assert f in s.files && k in s.files[f].artifacts && p.files[f].artifacts[k] == s.files[f].artifacts[k];
    }
    assert Covers(d.files, d.builds + b.buildInfos);
    RecordAllCovered(d.files, d.builds + b.buildInfos, b.compiled);
    var done := Consumed(t, b, c);
    forall f, k | f in done.files && k in done.files[f].artifacts
      ensures References(done.files, done.files[f].artifacts[k].buildId)
    {
    }
  }

  // ---------- Any sequence of compilations ----------

  ghost predicate IsHistory(t: Toolchain, c: CompilerCache, bs: seq<Build>)
    decreases |bs|
  {
    bs == [] || (Possible(t, bs[0], c) && IsHistory(t, After(t, bs[0], c), bs[1..]))
  }

  ghost function CacheAfter(t: Toolchain, c: CompilerCache, bs: seq<Build>): CompilerCache
    requires IsHistory(t, c, bs)
    decreases |bs|
  {
    if bs == [] then c else CacheAfter(t, After(t, bs[0], c), bs[1..])
  }

  lemma {:induction false} HistoryKeepsSound(t: Toolchain, c: CompilerCache, bs: seq<Build>)
    requires Trustworthy(t) && IsHistory(t, c, bs) && Sound(t, c)
    ensures Sound(t, CacheAfter(t, c, bs))
    decreases |bs|
  {
    if bs == [] { return; }
    assert InScope(bs[0].groups) <= bs[0].disk.Keys;
    hide Possible, After, Sound;
    CompilationKeepsSound(t, bs[0], c);
    HistoryKeepsSound(t, After(t, bs[0], c), bs[1..]);
  }

  /** The cache holds, for `f`, exactly what compiling it from `closure` gives. */
  ghost predicate HasOutputOf(t: Toolchain, b: Build, files: Files, f: Path, v: Version, p: Profile, closure: Disk)
    requires p in b.profiles
  {
    var output := t.compile(f, closure, v, b.profiles[p]);
    f in files && forall n ::
      && (n in output <==> ArtifactKey(n, v, p) in files[f].artifacts)
      && (n in output ==> files[f].artifacts[ArtifactKey(n, v, p)].artifact == output[n])
  }

  /** The cache holds, for `f`, exactly what compiling the current import closure gives. */
  ghost predicate HasOutput(t: Toolchain, b: Build, files: Files, f: Path, v: Version, p: Profile)
    requires p in b.profiles
  {
    HasOutputOf(t, b, files, f, v, p, ImportClosure(t, b.disk, f))
  }

  /** `f` was seen to produce nothing from its current import closure. */
  ghost predicate SeenEmpty(t: Toolchain, b: Build, files: Files, f: Path) {
    && f in files && files[f].seenByCompiler && files[f].artifacts == map[]
    && exists v, s :: t.compile(f, ImportClosure(t, b.disk, f), v, s) == map[]
  }

  lemma EntryHasOutput(t: Toolchain, b: Build, files: Files, profiles: map<Profile, Settings>, snaps: map<Path, Disk>,
                       f: Path, k: ArtifactKey)
    requires CacheHolds(t, files, profiles, snaps) && f in files && k in files[f].artifacts
    requires k.profile in b.profiles && Interchangeable(t, profiles, b.profiles)
    ensures HasOutputOf(t, b, files, f, k.version, k.profile, snaps[f])
  {
    var closure := snaps[f];
    var output := t.compile(f, closure, k.version, b.profiles[k.profile]);
    assert output == t.compile(f, closure, k.version, profiles[k.profile]);
    forall n ensures n in output <==> ArtifactKey(n, k.version, k.profile) in files[f].artifacts {}
  }

  /**
   Incremental builds are sound. After any sequence of compilations and edits, a source in
   scope that the next compilation does not mark for compilation either has exactly the
   artifacts that compiling its current import closure would give, all of them readable,
   or was seen to produce none from that very closure.
   */
  lemma ReuseEqualsRecompilation(t: Toolchain, bs: seq<Build>, b: Build, g: Group, f: Path)
    requires Trustworthy(t) && IsHistory(t, EmptyCache, bs)
    requires Possible(t, b, CacheAfter(t, EmptyCache, bs)) && g in b.groups && f in g.sources
    requires !IsComplete(t, b, CacheAfter(t, EmptyCache, bs), g, f)
    ensures var files := Filtered(t, b, CacheAfter(t, EmptyCache, bs)).files;
            || SeenEmpty(t, b, files, f)
            || (&& HasOutput(t, b, files, f, g.version, g.profile) && !b.extraFilesMissing
                && forall k :: k in files[f].artifacts && k.version == g.version ==> (f, k) in b.readable)
  {
    var c := CacheAfter(t, EmptyCache, bs);
    EmptyIsSound(t);
    HistoryKeepsSound(t, EmptyCache, bs);
    var snaps := FilteredHolds(t, b, c);
    var d := Filtered(t, b, c);
    assert f in InScope(b.groups);
    CompleteIsMissing(t, b, c, g, f);
    if !(d.files[f].seenByCompiler && d.files[f].artifacts == map[]) {
      var k :| k in d.files[f].artifacts && k.version == g.version && k.profile == g.profile;
      EntryHasOutput(t, b, d.files, d.profiles, snaps, f, k);
    }
  }

  /** Whether a source produces artifacts is a matter of its contents alone. */
  ghost predicate ContentDecidesEmptiness(t: Toolchain) {
    forall f, c, v, s, v', s' :: t.compile(f, c, v, s) == map[] ==> t.compile(f, c, v', s') == map[]
  }

  /**
   Where no version or profile turns a source without artifacts into one with some, every
   source that is not compiled has, without exception, exactly the recompilation's output.
   */
  lemma ReuseIsRecompilation(t: Toolchain, bs: seq<Build>, b: Build, g: Group, f: Path)
    requires Trustworthy(t) && IsHistory(t, EmptyCache, bs) && ContentDecidesEmptiness(t)
    requires Possible(t, b, CacheAfter(t, EmptyCache, bs)) && g in b.groups && f in g.sources
    requires !IsComplete(t, b, CacheAfter(t, EmptyCache, bs), g, f)
    ensures HasOutput(t, b, Filtered(t, b, CacheAfter(t, EmptyCache, bs)).files, f, g.version, g.profile)
  {
    ReuseEqualsRecompilation(t, bs, b, g, f);
    var files := Filtered(t, b, CacheAfter(t, EmptyCache, bs)).files;
    if SeenEmpty(t, b, files, f) {
      var closure := ImportClosure(t, b.disk, f);
      var v, s :| t.compile(f, closure, v, s) == map[];
      assert t.compile(f, closure, g.version, b.profiles[g.profile]) == map[];
    }
  }

  /**
   Every artifact still held after dirty removal is what its source compiles to from some
   snapshot of its import closure; and that is the current closure if and only if no file
   of the snapshot that the closure still imports was deleted.
   */
  lemma SurvivingArtifacts(t: Toolchain, bs: seq<Build>, b: Build, f: Path, k: ArtifactKey) returns (snapshot: Disk)
    requires Trustworthy(t) && IsHistory(t, EmptyCache, bs)
    requires Possible(t, b, CacheAfter(t, EmptyCache, bs))
    requires var files := Prepared(t, b, CacheAfter(t, EmptyCache, bs)).files;
             f in files && k in files[f].artifacts && k.profile in b.profiles
    ensures var files := Prepared(t, b, CacheAfter(t, EmptyCache, bs)).files;
            && SnapshotHolds(t, files, f, snapshot)
            && HasOutputOf(t, b, files, f, k.version, k.profile, snapshot)
    ensures snapshot == ImportClosure(t, b.disk, f) <==> NothingDeleted(t, b.disk, f, snapshot)
  {
    var c := CacheAfter(t, EmptyCache, bs);
    EmptyIsSound(t);
    HistoryKeepsSound(t, EmptyCache, bs);
    var snaps := PreparedHolds(t, b, c);
    var d := Prepared(t, b, c);
    snapshot := snaps[f];
    SnapshotIsCurrent(t, d.files, b.disk, f, snapshot);
    EntryHasOutput(t, b, d.files, d.profiles, snaps, f, k);
  }

  /** So where the imports resolve it is what its source would compile to now. */
  lemma SurvivingArtifactsAreCurrent(t: Toolchain, bs: seq<Build>, b: Build, f: Path, k: ArtifactKey)
    requires Trustworthy(t) && IsHistory(t, EmptyCache, bs)
    requires Possible(t, b, CacheAfter(t, EmptyCache, bs)) && Resolved(t, b.disk, f)
    requires var files := Prepared(t, b, CacheAfter(t, EmptyCache, bs)).files;
             f in files && k in files[f].artifacts && k.profile in b.profiles
    ensures HasOutput(t, b, Prepared(t, b, CacheAfter(t, EmptyCache, bs)).files, f, k.version, k.profile)
  {
    var snapshot := SurvivingArtifacts(t, bs, b, f, k);
    hide Prepared, IsHistory, CacheAfter, Possible;
    assert NothingDeleted(t, b.disk, f, snapshot);
  }

  lemma EmptyIsSound(t: Toolchain)
    ensures Sound(t, EmptyCache) && BuildsCover(EmptyCache)
  {
    assert CacheHolds(t, EmptyCache.files, EmptyCache.profiles, map[]);
  }

  lemma {:induction false} HistoryKeepsBuildsCovered(t: Toolchain, c: CompilerCache, bs: seq<Build>)
    requires IsHistory(t, c, bs) && BuildsCover(c)
    ensures BuildsCover(CacheAfter(t, c, bs))
    decreases |bs|
  {
    if bs == [] { return; }
    assert InScope(bs[0].groups) <= bs[0].disk.Keys;
    hide Possible, After, BuildsCover;
    CompilationKeepsBuildsCovered(t, bs[0], c);
    HistoryKeepsBuildsCovered(t, After(t, bs[0], c), bs[1..]);
  }

  /**
   Build references are collected exactly: no sequence of compilations loses a build some
   entry refers to, and after a compilation that is saved only those are listed.
   */
  lemma BuildsAreExactlyReferenced(t: Toolchain, bs: seq<Build>, b: Build)
    requires IsHistory(t, EmptyCache, bs) && Possible(t, b, CacheAfter(t, EmptyCache, bs))
    ensures BuildsCover(CacheAfter(t, EmptyCache, bs))
    ensures b.saved ==> var d := After(t, b, CacheAfter(t, EmptyCache, bs));
            forall id :: id in d.builds <==>
              exists f, k :: f in d.files && k in d.files[f].artifacts && d.files[f].artifacts[k].buildId == id
  {
    EmptyIsSound(t);
    HistoryKeepsBuildsCovered(t, EmptyCache, bs);
    CompilationKeepsBuildsCovered(t, b, CacheAfter(t, EmptyCache, bs));
    hide IsHistory, CacheAfter, Possible, After;
  }
}
