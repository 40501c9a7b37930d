/**
 What a project compilation hands on: the artifacts just written and the cached ones that
 are kept beside them. With one settings profile nothing is lost, and unless the profile's
 settings changed the outcome is exactly that of compiling everything anew.
 */
module CacheOutput {
  import opened Reachability
  import opened CacheModel
  import opened CacheSoundness
  import opened CacheRuns

  /** The artifacts read back when the cache is opened. */
  function ReadBack(t: Toolchain, b: Build, c: CompilerCache): map<(Path, ArtifactKey), Artifact>
    requires InScope(b.groups) <= b.disk.Keys
  {
    var files := Start(t, b, c).files;
    map a | a in b.readable && a.0 in files && a.1 in files[a.0].artifacts :: files[a.0].artifacts[a.1].artifact
  }

  function Scope(groups: seq<Group>): set<(Path, Version)> {
    set g, f | g in groups && f in g.sources :: (f, g.version)
  }

  ghost function DirtyFiles(t: Toolchain, b: Build, c: CompilerCache): set<Path>
    requires InScope(b.groups) <= b.disk.Keys
  {
    var files := UpdateProfiles(t, Start(t, b, c), b.profiles).files;
    if b.graphResolves then DirtySources(t, files, b.disk) else files.Keys
  }

  ghost function Kept(t: Toolchain, b: Build, c: CompilerCache): map<(Path, ArtifactKey), Artifact>
    requires InScope(b.groups) <= b.disk.Keys
  {
    Returned(ReadBack(t, b, c), Scope(b.groups), DirtyFiles(t, b, c), b.compiled)
  }

  function Written(compiled: seq<Compiled>): map<(Path, ArtifactKey), Artifact>
    decreases |compiled|
  {
    if compiled == [] then map[]
    else
      var w := compiled[|compiled| - 1];
      Written(compiled[..|compiled| - 1]) + map n | n in w.output ::
        (w.file, ArtifactKey(n, w.version, w.profile)) := w.output[n]
  }

  /** Everything handed on. */
  ghost function Output(t: Toolchain, b: Build, c: CompilerCache): map<(Path, ArtifactKey), Artifact>
    requires InScope(b.groups) <= b.disk.Keys
  {
    Kept(t, b, c) + Written(b.compiled)
  }

  /** Everything marked for complete compilation was compiled. */
  ghost predicate Successful(t: Toolchain, b: Build, c: CompilerCache)
    requires InScope(b.groups) <= b.disk.Keys
  {
    forall g :: g in b.groups ==> forall f :: f in Missing(t, b, c, g) ==>
      exists i :: 0 <= i < |b.compiled| && IsFor(b.compiled[i], f, g.version, g.profile)
  }

  predicate IsFor(w: Compiled, f: Path, v: Version, p: Profile) {
    w.file == f && w.version == v && w.profile == p
  }

  ghost function Missing(t: Toolchain, b: Build, c: CompilerCache, g: Group): set<Path>
    requires InScope(b.groups) <= b.disk.Keys
  {
    set f | f in g.sources && IsComplete(t, b, c, g, f)
  }

  predicate OneProfile(b: Build, p: Profile) {
    forall g :: g in b.groups ==> g.profile == p
  }

  lemma {:induction false} WrittenAreOutputs(compiled: seq<Compiled>, a: (Path, ArtifactKey))
    ensures a in Written(compiled) <==>
            exists i ::
              && 0 <= i < |compiled| && IsFor(compiled[i], a.0, a.1.version, a.1.profile)
              && a.1.name in compiled[i].output
    ensures a in Written(compiled) ==>
              exists i ::
                && 0 <= i < |compiled| && IsFor(compiled[i], a.0, a.1.version, a.1.profile)
                && a.1.name in compiled[i].output
                && Written(compiled)[a] == compiled[i].output[a.1.name]
    decreases |compiled|
  {
    if compiled != [] {
      var init, w := compiled[..|compiled| - 1], compiled[|compiled| - 1];
      WrittenAreOutputs(init, a);
      assert forall i :: 0 <= i < |init| ==> init[i] == compiled[i];
    }
  }

  /** What compiling `f` anew for a group would give. */
  ghost function Recompiled(t: Toolchain, b: Build, g: Group, f: Path): map<Name, Artifact>
    requires g.profile in b.profiles
  {
    t.compile(f, ImportClosure(t, b.disk, f), g.version, b.profiles[g.profile])
  }

  function At(f: Path, g: Group, n: Name): (Path, ArtifactKey) {
    (f, ArtifactKey(n, g.version, g.profile))
  }

  /** What is written for a source is exactly the recompilation's output. */
  lemma WrittenIsRecompiled(t: Toolchain, b: Build, c: CompilerCache, g: Group, f: Path, n: Name)
    requires Possible(t, b, c) && g in b.groups
    ensures At(f, g, n) in Written(b.compiled) ==>
              n in Recompiled(t, b, g, f) && Written(b.compiled)[At(f, g, n)] == Recompiled(t, b, g, f)[n]
    ensures Successful(t, b, c) && f in Missing(t, b, c, g) && n in Recompiled(t, b, g, f) ==>
            At(f, g, n) in Written(b.compiled)
  {
    WrittenAreOutputs(b.compiled, At(f, g, n));
    assert forall i :: 0 <= i < |b.compiled| ==> Faithful(t, b.disk, b.profiles, b.compiled[i]);
    hide Filtered, ImportClosure, Missing, CompleteSources, Requested, ScopeClosed, Written;
    if Successful(t, b, c) && f in Missing(t, b, c, g) && n in Recompiled(t, b, g, f) {
      var i :| 0 <= i < |b.compiled| && IsFor(b.compiled[i], f, g.version, g.profile);
      assert b.compiled[i].output == Recompiled(t, b, g, f);
    }
  }

  /** Some group of the same version compiles `f`, be it under another profile. */
  ghost predicate Rewritten(t: Toolchain, b: Build, c: CompilerCache, g: Group, f: Path)
    requires InScope(b.groups) <= b.disk.Keys
  {
    exists h :: h in b.groups && h.version == g.version && f in Missing(t, b, c, h)
  }

  /** What is compiled for a group was missing in it. */
  lemma CompiledWasMissing(t: Toolchain, b: Build, c: CompilerCache, i: nat) returns (h: Group)
    requires Possible(t, b, c) && i < |b.compiled|
    ensures h in b.groups && h.version == b.compiled[i].version && h.profile == b.compiled[i].profile
    ensures b.compiled[i].file in Missing(t, b, c, h)
    ensures Faithful(t, b.disk, b.profiles, b.compiled[i])
  {
    hide Filtered, ScopeClosed, CompleteSources;
    assert Requested(t, b, c, b.compiled[i]);
    h :| h in b.groups && h.version == b.compiled[i].version && h.profile == b.compiled[i].profile &&
      IsComplete(t, b, c, h, b.compiled[i].file);
  }

  /** Whether a source is missing is a matter of version and profile. */
  lemma MissingAlike(t: Toolchain, b: Build, c: CompilerCache, g: Group, h: Group, f: Path)
    requires InScope(b.groups) <= b.disk.Keys && h.version == g.version && h.profile == g.profile
    requires f in g.sources && f in Missing(t, b, c, h)
    ensures f in Missing(t, b, c, g)
  {
    hide Filtered, IsMissing;
  }

  lemma NothingWritten(t: Toolchain, b: Build, c: CompilerCache, g: Group, f: Path, n: Name)
    requires Possible(t, b, c) && !Rewritten(t, b, c, g, f)
    ensures !IsWritten(b.compiled, f, n, g.version)
  {
    assert InScope(b.groups) <= b.disk.Keys;
    hide Possible, Missing, Faithful;
    if IsWritten(b.compiled, f, n, g.version) {
      var i :| 0 <= i < |b.compiled| && b.compiled[i].file == f && b.compiled[i].version == g.version &&
          n in b.compiled[i].output;
      var h := CompiledWasMissing(t, b, c, i);
    }
  }

  /** With one profile, a source that is not compiled for its group is not compiled for another of its version. */
  lemma OneProfileRewritesNothing(t: Toolchain, b: Build, c: CompilerCache, p: Profile, g: Group, f: Path)
    requires InScope(b.groups) <= b.disk.Keys && OneProfile(b, p) && g in b.groups && f in g.sources
    ensures f in Missing(t, b, c, g) <==> Rewritten(t, b, c, g, f)
  {
    hide Missing;
    if Rewritten(t, b, c, g, f) {
      var h :| h in b.groups && h.version == g.version && f in Missing(t, b, c, h);
      MissingAlike(t, b, c, g, h, f);
    }
  }

  /** An entry with artifacts came through dirty removal, so its file is not dirty. */
  lemma EntrySurvived(t: Toolchain, b: Build, c: CompilerCache, f: Path, k: ArtifactKey)
    requires InScope(b.groups) <= b.disk.Keys
    requires f in Filtered(t, b, c).files && k in Filtered(t, b, c).files[f].artifacts
    ensures f !in DirtyFiles(t, b, c)
    ensures var start := Start(t, b, c).files;
            f in start && k in start[f].artifacts && start[f].artifacts[k] == Filtered(t, b, c).files[f].artifacts[k]
  {
    hide Survives, ReachedFrom;
    assert f in Prepared(t, b, c).files;
  }

  /** A readable artifact of a source that no group of its version compiles is handed on. */
  lemma ReusedIsKept(t: Toolchain, b: Build, c: CompilerCache, g: Group, f: Path, k: ArtifactKey)
    requires Possible(t, b, c) && g in b.groups && f in g.sources && !Rewritten(t, b, c, g, f)
    requires f in Filtered(t, b, c).files && k in Filtered(t, b, c).files[f].artifacts
    requires k.version == g.version && (f, k) in b.readable
    ensures (f, k) in Kept(t, b, c) && Kept(t, b, c)[(f, k)] == Filtered(t, b, c).files[f].artifacts[k].artifact
  {
    NothingWritten(t, b, c, g, f, k.name);
    EntrySurvived(t, b, c, f, k);
    hide Filtered, Start, DirtyFiles, Requested, Faithful, ScopeClosed, Rewritten;
    assert (f, g.version) in Scope(b.groups);
  }

  /** Without a cache that can be used everything in scope is compiled, and nothing cached is handed on. */
  lemma AfreshCompilesAll(t: Toolchain, b: Build, c: CompilerCache, g: Group, f: Path, a: (Path, ArtifactKey))
    requires InScope(b.groups) <= b.disk.Keys && (b.invalidated || Unresolved(t, b))
    requires g in b.groups && f in g.sources
    ensures IsComplete(t, b, c, g, f) && a !in Kept(t, b, c)
  {
    assert Start(t, b, c) == EmptyCache;
    assert f in InScope(b.groups);
    assert a !in Kept(t, b, c) by { hide Prepared, DirtyFiles, IsComplete; }
    hide ReadBack, Kept;
    NothingPrepared(t, b, c);
    CompleteIsMissing(t, b, c, g, f);
    hide Start, Unresolved, InScope, Prepared, IsComplete, DirtyFiles;
  }

  lemma NothingPrepared(t: Toolchain, b: Build, c: CompilerCache)
    requires InScope(b.groups) <= b.disk.Keys && Start(t, b, c).files == map[]
    ensures Prepared(t, b, c).files == map[]
  {
    hide Start, Survives, DirtyProfiles;
  }

  /** Nothing is handed on that is out of scope, and nothing cached that is dirty or was not read back. */
  lemma OutputIsInScope(t: Toolchain, b: Build, c: CompilerCache, a: (Path, ArtifactKey))
    requires Possible(t, b, c) && a in Output(t, b, c)
    ensures exists g :: g in b.groups && a.0 in g.sources && g.version == a.1.version
    ensures a !in Written(b.compiled) ==>
              && a in ReadBack(t, b, c) && Output(t, b, c)[a] == ReadBack(t, b, c)[a]
              && a.0 !in DirtyFiles(t, b, c)
  {
    if a in Written(b.compiled) {
      WrittenAreOutputs(b.compiled, a);
      var i :| 0 <= i < |b.compiled| && IsFor(b.compiled[i], a.0, a.1.version, a.1.profile);
      var h := CompiledWasMissing(t, b, c, i);
      assert h in b.groups && a.0 in h.sources && h.version == a.1.version by { hide Possible, IsComplete; }
    } else {
      hide Possible, ReadBack, DirtyFiles;
      assert (a.0, a.1.version) in Scope(b.groups);
    }
  }

  /** A successful compilation after any sequence of compilations and edits. */
  ghost predicate Reached(t: Toolchain, bs: seq<Build>, b: Build) {
    && Trustworthy(t) && ContentDecidesEmptiness(t) && IsHistory(t, EmptyCache, bs)
    && Possible(t, b, CacheAfter(t, EmptyCache, bs)) && Successful(t, b, CacheAfter(t, EmptyCache, bs))
  }

  /**
   Nothing is lost. After any sequence of compilations and edits, what a successful
   compilation hands on holds for a source in scope everything that compiling it anew would
   give, if the source is compiled for its group or for no group of its version.
   */
  lemma NothingIsLost(t: Toolchain, bs: seq<Build>, b: Build, g: Group, f: Path, n: Name)
    requires Reached(t, bs, b) && g in b.groups && f in g.sources && n in Recompiled(t, b, g, f)
    requires var c := CacheAfter(t, EmptyCache, bs); f in Missing(t, b, c, g) || !Rewritten(t, b, c, g, f)
    ensures var output := Output(t, b, CacheAfter(t, EmptyCache, bs));
            At(f, g, n) in output && output[At(f, g, n)] == Recompiled(t, b, g, f)[n]
  {
    var c := CacheAfter(t, EmptyCache, bs);
    assert InScope(b.groups) <= b.disk.Keys && g.profile in b.profiles;
    assert Trustworthy(t) && ContentDecidesEmptiness(t) && IsHistory(t, EmptyCache, bs);
    assert Possible(t, b, c) && Successful(t, b, c);
    hide *;
    if f in Missing(t, b, c, g) {
      WrittenIsRecompiled(t, b, c, g, f, n);
      WrittenIsHandedOn(t, b, c, At(f, g, n));
    } else {
      MissingIs(t, b, c, g, f);
      ReuseIsRecompilation(t, bs, b, g, f);
      ReuseEqualsRecompilation(t, bs, b, g, f);
      HeldIsHandedOn(t, b, c, g, f, n);
    }
  }

  lemma MissingIs(t: Toolchain, b: Build, c: CompilerCache, g: Group, f: Path)
    requires InScope(b.groups) <= b.disk.Keys && f in g.sources
    ensures f in Missing(t, b, c, g) <==> IsComplete(t, b, c, g, f)
  {
    hide IsComplete;
  }

  lemma WrittenIsHandedOn(t: Toolchain, b: Build, c: CompilerCache, a: (Path, ArtifactKey))
    requires InScope(b.groups) <= b.disk.Keys && a in Written(b.compiled)
    ensures a in Output(t, b, c) && Output(t, b, c)[a] == Written(b.compiled)[a]
  {
    hide Kept, Written;
  }

  /** What is held for a source that no group of its version compiles is handed on. */
  lemma HeldIsHandedOn(t: Toolchain, b: Build, c: CompilerCache, g: Group, f: Path, n: Name)
    requires Possible(t, b, c) && g in b.groups && f in g.sources && n in Recompiled(t, b, g, f)
    requires var files := Filtered(t, b, c).files;
             && HasOutput(t, b, files, f, g.version, g.profile)
             && (|| SeenEmpty(t, b, files, f)
                 || forall k :: k in files[f].artifacts && k.version == g.version ==> (f, k) in b.readable)
    requires f !in Missing(t, b, c, g) && !Rewritten(t, b, c, g, f)
    ensures At(f, g, n) in Output(t, b, c) && Output(t, b, c)[At(f, g, n)] == Recompiled(t, b, g, f)[n]
  {
    hide Written, Kept, IsComplete, Rewritten, Possible, Filtered, ImportClosure;
    ReusedIsKept(t, b, c, g, f, ArtifactKey(n, g.version, g.profile));
    WrittenIsRecompiled(t, b, c, g, f, n);
  }

  /** Which contracts a source yields is a matter of its contents alone. */
  ghost predicate ContentDecidesNames(t: Toolchain) {
    forall f, c, v, s, v', s' :: t.compile(f, c, v, s).Keys == t.compile(f, c, v', s').Keys
  }

  lemma RewrittenIsWritten(t: Toolchain, b: Build, c: CompilerCache, g: Group, f: Path, n: Name)
    requires Possible(t, b, c) && Successful(t, b, c) && ContentDecidesNames(t) && g in b.groups
    requires n in Recompiled(t, b, g, f) && Rewritten(t, b, c, g, f)
    ensures IsWritten(b.compiled, f, n, g.version)
  {
    hide Missing, Requested, ScopeClosed, ImportClosure;
    var h :| h in b.groups && h.version == g.version && f in Missing(t, b, c, h);
    var i :| 0 <= i < |b.compiled| && IsFor(b.compiled[i], f, h.version, h.profile);
    assert Faithful(t, b.disk, b.profiles, b.compiled[i]);
  }

  /** An artifact of a source that only other profiles compile is dropped, since the retain ignores the profile. */
  lemma RewrittenIsLost(t: Toolchain, b: Build, c: CompilerCache, g: Group, f: Path, n: Name)
    requires Possible(t, b, c) && Successful(t, b, c) && ContentDecidesNames(t) && g in b.groups && f in g.sources
    requires n in Recompiled(t, b, g, f) && f !in Missing(t, b, c, g) && Rewritten(t, b, c, g, f)
    ensures At(f, g, n) !in Output(t, b, c)
  {
    assert InScope(b.groups) <= b.disk.Keys && g.profile in b.profiles;
    hide Possible, Successful, ContentDecidesNames, Missing, Faithful, DirtyFiles, ReadBack, Recompiled, Rewritten;
    RewrittenIsWritten(t, b, c, g, f, n);
    if At(f, g, n) in Written(b.compiled) {
      WrittenAreOutputs(b.compiled, At(f, g, n));
      var j :| 0 <= j < |b.compiled| && IsFor(b.compiled[j], f, g.version, g.profile) && n in b.compiled[j].output;
      var w := CompiledWasMissing(t, b, c, j);
      MissingAlike(t, b, c, g, w, f);
    }
  }

  /**
   With any number of profiles an artifact is handed on exactly if its source is compiled
   for its own group, or for no group of its version.
   */
  lemma LostExactlyWhenRewritten(t: Toolchain, bs: seq<Build>, b: Build, g: Group, f: Path, n: Name)
    requires Reached(t, bs, b) && ContentDecidesNames(t) && g in b.groups && f in g.sources &&
             n in Recompiled(t, b, g, f)
    ensures var c := CacheAfter(t, EmptyCache, bs);
            At(f, g, n) in Output(t, b, c) <==> f in Missing(t, b, c, g) || !Rewritten(t, b, c, g, f)
  {
    var c := CacheAfter(t, EmptyCache, bs);
    assert InScope(b.groups) <= b.disk.Keys;
    hide IsHistory, CacheAfter, Possible, Successful, Missing, Rewritten, Output, Recompiled, Trustworthy;
    if f in Missing(t, b, c, g) || !Rewritten(t, b, c, g, f) { NothingIsLost(t, bs, b, g, f, n); }
    else { RewrittenIsLost(t, b, c, g, f, n); }
  }

  /** A cached artifact handed on under settings that can still be used is one its source has now. */
  lemma KeptIsCurrent(t: Toolchain, bs: seq<Build>, b: Build, g: Group, f: Path, n: Name)
    requires Trustworthy(t) && IsHistory(t, EmptyCache, bs)
    requires Possible(t, b, CacheAfter(t, EmptyCache, bs)) && g in b.groups && f in g.sources
    requires g.profile !in DirtyProfiles(t, Start(t, b, CacheAfter(t, EmptyCache, bs)).profiles, b.profiles)
    requires At(f, g, n) in Kept(t, b, CacheAfter(t, EmptyCache, bs))
    ensures n in Recompiled(t, b, g, f)
  {
    var c, k := CacheAfter(t, EmptyCache, bs), ArtifactKey(n, g.version, g.profile);
    KeptSurvives(t, b, c, f, k);
    assert f in InScope(b.groups);
    ScopeResolves(t, b, c, f);
    SurvivingArtifactsAreCurrent(t, bs, b, f, k);
    hide Prepared, Start, IsHistory, CacheAfter, Possible, Kept;
  }

  lemma KeptSurvives(t: Toolchain, b: Build, c: CompilerCache, f: Path, k: ArtifactKey)
    requires InScope(b.groups) <= b.disk.Keys && (f, k) in Kept(t, b, c)
    requires k.profile !in DirtyProfiles(t, Start(t, b, c).profiles, b.profiles)
    ensures f in Prepared(t, b, c).files && k in Prepared(t, b, c).files[f].artifacts && !Unresolved(t, b)
  {
    hide Survives, ReachedFrom, DirtyProfiles, Unresolved;
    var start := Start(t, b, c);
    var dirty := DirtyProfiles(t, start.profiles, b.profiles);
    assert f in start.files && k in start.files[f].artifacts;
    assert k in PrunedEntry(start.files[f], dirty).artifacts;
    assert f in PrunedFiles(start.files, dirty);
  }

  /** Whatever was read back for a file not found dirty was compiled under settings that can still be used. */
  ghost predicate SettingsLast(t: Toolchain, b: Build, c: CompilerCache, g: Group, f: Path)
    requires InScope(b.groups) <= b.disk.Keys
  {
    forall n :: At(f, g, n) in ReadBack(t, b, c) && f !in DirtyFiles(t, b, c) ==>
      g.profile !in DirtyProfiles(t, Start(t, b, c).profiles, b.profiles)
  }

  /**
   The incremental compilation hands on exactly what a clean one would, name by name and
   artifact by artifact, for a source whose settings last and that is compiled for its
   group or for no group of its version.
   */
  lemma OutputIsCleanBuilds(t: Toolchain, bs: seq<Build>, b: Build, g: Group, f: Path, n: Name)
    requires Reached(t, bs, b) && g in b.groups && f in g.sources
    requires var c := CacheAfter(t, EmptyCache, bs);
             SettingsLast(t, b, c, g, f) && (f in Missing(t, b, c, g) || !Rewritten(t, b, c, g, f))
    ensures var output := Output(t, b, CacheAfter(t, EmptyCache, bs));
            && (At(f, g, n) in output <==> n in Recompiled(t, b, g, f))
            && (n in Recompiled(t, b, g, f) ==> output[At(f, g, n)] == Recompiled(t, b, g, f)[n])
  {
    var c := CacheAfter(t, EmptyCache, bs);
    if n in Recompiled(t, b, g, f) {
      NothingIsLost(t, bs, b, g, f, n);
    } else if At(f, g, n) in Output(t, b, c) {
      WrittenIsRecompiled(t, b, c, g, f, n);
      assert At(f, g, n) in ReadBack(t, b, c) && f !in DirtyFiles(t, b, c);
      hide ReadBack, DirtyFiles, Start, DirtyProfiles, Missing, Rewritten, IsHistory, CacheAfter, Possible;
      KeptIsCurrent(t, bs, b, g, f, n);
    }
  }

  /** With one profile, only names the source has now are written for a version. */
  lemma OnlyCurrentNamesWritten(t: Toolchain, b: Build, c: CompilerCache, p: Profile, g: Group, f: Path, n: Name)
    requires Possible(t, b, c) && OneProfile(b, p) && g in b.groups && IsWritten(b.compiled, f, n, g.version)
    ensures n in Recompiled(t, b, g, f)
  {
    var i :| 0 <= i < |b.compiled| && b.compiled[i].file == f && b.compiled[i].version == g.version &&
        n in b.compiled[i].output;
    hide Filtered, ScopeClosed, ImportClosure;
    assert Requested(t, b, c, b.compiled[i]) && Faithful(t, b.disk, b.profiles, b.compiled[i]);
  }

  /** Nothing was read back, for a file not found dirty, that the file does not produce any more. */
  ghost predicate NoLeftovers(t: Toolchain, b: Build, c: CompilerCache, g: Group, f: Path)
    requires InScope(b.groups) <= b.disk.Keys && g.profile in b.profiles
  {
    forall n :: At(f, g, n) in ReadBack(t, b, c) && f !in DirtyFiles(t, b, c) ==> n in Recompiled(t, b, g, f)
  }

  ghost predicate HandsOnExactly(t: Toolchain, b: Build, c: CompilerCache, g: Group, f: Path)
    requires InScope(b.groups) <= b.disk.Keys && g.profile in b.profiles
  {
    forall n :: At(f, g, n) in Output(t, b, c) <==> n in Recompiled(t, b, g, f)
  }

  /** Of names the source does not have, exactly the leftovers are handed on. */
  lemma OnlyLeftoversAreStale(t: Toolchain, b: Build, c: CompilerCache, g: Group, f: Path, n: Name)
    requires Possible(t, b, c) && g in b.groups && f in g.sources && n !in Recompiled(t, b, g, f)
    requires !IsWritten(b.compiled, f, n, g.version)
    ensures At(f, g, n) in Output(t, b, c) <==> At(f, g, n) in ReadBack(t, b, c) && f !in DirtyFiles(t, b, c)
  {
    assert (f, g.version) in Scope(b.groups);
    WrittenIsRecompiled(t, b, c, g, f, n);
    hide Written, ReadBack, DirtyFiles, Possible, Recompiled, Scope;
  }

  /**
   Whatever became of the settings, with one profile the outcome for a source is exact if and only
   if it has no leftovers.
   */
  lemma ExactlyWithoutLeftovers(t: Toolchain, bs: seq<Build>, b: Build, p: Profile, g: Group, f: Path)
    requires Reached(t, bs, b) && OneProfile(b, p) && g in b.groups && f in g.sources
    ensures var c := CacheAfter(t, EmptyCache, bs);
            HandsOnExactly(t, b, c, g, f) <==> NoLeftovers(t, b, c, g, f)
  {
    var c := CacheAfter(t, EmptyCache, bs);
    OneProfileRewritesNothing(t, b, c, p, g, f);
    hide Output, ReadBack, DirtyFiles, Possible, Successful, IsHistory, CacheAfter, Trustworthy, Recompiled, Missing,
         Rewritten;
    forall n ensures n in Recompiled(t, b, g, f) ==> At(f, g, n) in Output(t, b, c) {
      if n in Recompiled(t, b, g, f) { NothingIsLost(t, bs, b, g, f, n); }
    }
    forall n | n !in Recompiled(t, b, g, f)
      ensures At(f, g, n) in Output(t, b, c) <==> At(f, g, n) in ReadBack(t, b, c) && f !in DirtyFiles(t, b, c)
    {
      if IsWritten(b.compiled, f, n, g.version) { OnlyCurrentNamesWritten(t, b, c, p, g, f, n); }
      else { OnlyLeftoversAreStale(t, b, c, g, f, n); }
    }
  }

  /** With one profile it is exact as long as the settings last, which can be seen before compiling. */
  lemma ExactWhileSettingsLast(t: Toolchain, bs: seq<Build>, b: Build, p: Profile, g: Group, f: Path)
    requires Reached(t, bs, b) && OneProfile(b, p) && g in b.groups && f in g.sources
    requires SettingsLast(t, b, CacheAfter(t, EmptyCache, bs), g, f)
    ensures HandsOnExactly(t, b, CacheAfter(t, EmptyCache, bs), g, f)
  {
    var c := CacheAfter(t, EmptyCache, bs);
    OneProfileRewritesNothing(t, b, c, p, g, f);
    hide Output, SettingsLast, Reached, IsHistory, CacheAfter, Missing, Rewritten, Recompiled;
    forall n ensures At(f, g, n) in Output(t, b, c) <==> n in Recompiled(t, b, g, f) {
      OutputIsCleanBuilds(t, bs, b, g, f, n);
    }
  }

  /** Names that the source has and names that it does not have, one by one. */
  lemma NamesHandedOn(t: Toolchain, bs: seq<Build>, b: Build, g: Group, f: Path, n: Name)
    requires Reached(t, bs, b) && ContentDecidesNames(t) && g in b.groups && f in g.sources
    ensures var c := CacheAfter(t, EmptyCache, bs);
            At(f, g, n) in Output(t, b, c) <==>
            if n in Recompiled(t, b, g, f) then f in Missing(t, b, c, g) || !Rewritten(t, b, c, g, f)
            else At(f, g, n) in ReadBack(t, b, c) && f !in DirtyFiles(t, b, c)
  {
    var c := CacheAfter(t, EmptyCache, bs);
    assert Possible(t, b, c) && InScope(b.groups) <= b.disk.Keys && g.profile in b.profiles;
    hide *;
    if n in Recompiled(t, b, g, f) {
      LostExactlyWhenRewritten(t, bs, b, g, f, n);
    } else if IsWritten(b.compiled, f, n, g.version) {
      WrittenNamesAreCurrent(t, b, c, g, f, n);
    } else {
      OnlyLeftoversAreStale(t, b, c, g, f, n);
    }
  }

  /** With any number of profiles, where contents alone decide the names of contracts. */
  lemma ExactlyWithSeveralProfiles(t: Toolchain, bs: seq<Build>, b: Build, g: Group, f: Path)
    requires Reached(t, bs, b) && ContentDecidesNames(t) && g in b.groups && f in g.sources
    ensures var c := CacheAfter(t, EmptyCache, bs);
            HandsOnExactly(t, b, c, g, f) <==>
            NoLeftovers(t, b, c, g, f)
            && (f in Missing(t, b, c, g) || !Rewritten(t, b, c, g, f) || Recompiled(t, b, g, f) == map[])
  {
    var c := CacheAfter(t, EmptyCache, bs);
    assert InScope(b.groups) <= b.disk.Keys && g.profile in b.profiles;
    assert Recompiled(t, b, g, f) != map[] ==> exists n :: n in Recompiled(t, b, g, f);
    hide Output, ReadBack, DirtyFiles, Reached, CacheAfter, IsHistory, Recompiled, Missing, Rewritten,
         ContentDecidesNames, At;
    forall n
      ensures At(f, g, n) in Output(t, b, c) <==>
              if n in Recompiled(t, b, g, f) then f in Missing(t, b, c, g) || !Rewritten(t, b, c, g, f)
              else At(f, g, n) in ReadBack(t, b, c) && f !in DirtyFiles(t, b, c)
    {
      NamesHandedOn(t, bs, b, g, f, n);
    }
  }

  lemma WrittenNamesAreCurrent(t: Toolchain, b: Build, c: CompilerCache, g: Group, f: Path, n: Name)
    requires Possible(t, b, c) && ContentDecidesNames(t) && g in b.groups && IsWritten(b.compiled, f, n, g.version)
    ensures n in Recompiled(t, b, g, f)
  {
    var i :| 0 <= i < |b.compiled| && b.compiled[i].file == f && b.compiled[i].version == g.version &&
        n in b.compiled[i].output;
    var h := CompiledWasMissing(t, b, c, i);
    hide Filtered, ScopeClosed, ImportClosure, Requested, Missing;
    var closure := ImportClosure(t, b.disk, f);
    assert t.compile(f, closure, g.version, b.profiles[g.profile]).Keys == b.compiled[i].output.Keys;
  }
}
