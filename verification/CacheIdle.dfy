/**
 Compiling again when nothing changed. Everything an unchanged project needs is in the
 cache that its last compilation left, so nothing is compiled, but for sources that
 compile to nothing in one group and to something in another.
 */
module CacheIdle {
  import opened Reachability
  import opened CacheModel
  import opened CacheSoundness
  import opened CacheRuns
  import opened CacheOutput

  // ---------- What taking in compiled sources leaves ----------

  /** `w` holds an artifact for `f` under `k`. */
  predicate Writes(w: Compiled, f: Path, k: ArtifactKey) {
    w.file == f && w.version == k.version && w.profile == k.profile && k.name in w.output
  }

  lemma RecordMeans(files: Files, w: Compiled, f: Path)
    requires f in files
    ensures var e, d := files[f], Record(files, w);
            && d.Keys == files.Keys && d[f].contentHash == e.contentHash
            && (d[f].seenByCompiler <==> e.seenByCompiler || w.file == f)
            && (forall k :: k in d[f].artifacts <==> k in e.artifacts || Writes(w, f, k))
            && (forall k :: k in d[f].artifacts ==>
                  d[f].artifacts[k] == if Writes(w, f, k) then CachedArtifact(w.output[k.name], w.buildId)
                                       else e.artifacts[k])
  {
    forall k ensures w.file == f ==> (k in KeysOf(w) <==> Writes(w, f, k)) {
      if Writes(w, f, k) { assert ArtifactKey(k.name, w.version, w.profile) in KeysOf(w); }
    }
  }

  /** No entry comes, goes or changes its hash, and none loses an artifact. */
  lemma {:induction false} RecordAllKeeps(files: Files, ws: seq<Compiled>, f: Path)
    requires f in files
    ensures var e, d := files[f], RecordAll(files, ws);
            && d.Keys == files.Keys && d[f].contentHash == e.contentHash
            && (e.seenByCompiler ==> d[f].seenByCompiler) && e.artifacts.Keys <= d[f].artifacts.Keys
    decreases |ws|
  {
    if ws != [] {
      RecordMeans(files, ws[0], f);
      RecordAllKeeps(Record(files, ws[0]), ws[1..], f);
    }
  }

  /** What was compiled is seen, and its artifacts are there; the last one written counts. */
  lemma {:induction false} RecordAllTakesIn(files: Files, ws: seq<Compiled>, f: Path, i: nat)
    requires f in files && i < |ws| && ws[i].file == f
    ensures var d := RecordAll(files, ws);
            && f in d && d[f].seenByCompiler
            && (forall k :: Writes(ws[i], f, k) ==> k in d[f].artifacts)
            && (forall k :: Writes(ws[i], f, k) && NotAgain(ws[i + 1..], f, k) ==>
                  d[f].artifacts[k] == CachedArtifact(ws[i].output[k.name], ws[i].buildId))
    decreases |ws|
  {
    var now, rest := Record(files, ws[0]), ws[1..];
    RecordMeans(files, ws[0], f);
    hide Record, Writes;
    assert RecordAll(files, ws) == RecordAll(now, rest);
    if i > 0 {
      assert ws[i + 1..] == rest[i..];
      RecordAllTakesIn(now, rest, f, i - 1);
    } else {
      RecordAllKeeps(now, rest, f);
      forall k | k in now[f].artifacts && NotAgain(rest, f, k)
        ensures k in RecordAll(now, rest)[f].artifacts && RecordAll(now, rest)[f].artifacts[k] == now[f].artifacts[k]
      {
        RecordAllLeaves(now, rest, f, k);
      }
    }
  }

  predicate NotAgain(ws: seq<Compiled>, f: Path, k: ArtifactKey) {
    forall j :: 0 <= j < |ws| ==> !Writes(ws[j], f, k)
  }

  /** An artifact that is not written anew stays as it is, and none comes from elsewhere. */
  lemma {:induction false} RecordAllLeaves(files: Files, ws: seq<Compiled>, f: Path, k: ArtifactKey)
    requires f in files && NotAgain(ws, f, k)
    ensures var e, d := files[f], RecordAll(files, ws);
            && f in d && (k in d[f].artifacts <==> k in e.artifacts)
            && (k in e.artifacts ==> d[f].artifacts[k] == e.artifacts[k])
    decreases |ws|
  {
    if ws != [] {
      RecordMeans(files, ws[0], f);
      assert NotAgain(ws[1..], f, k) by {
        hide Writes;
        assert forall j :: 0 <= j < |ws| - 1 ==> ws[1..][j] == ws[j + 1];
      }
      assert !Writes(ws[0], f, k);
      hide Record, Writes, NotAgain;
      RecordAllLeaves(Record(files, ws[0]), ws[1..], f, k);
    }
  }

  /** An entry that nothing was compiled for is unchanged. */
  lemma {:induction false} UncompiledIsUnchanged(files: Files, ws: seq<Compiled>, f: Path)
    requires f in files && forall i :: 0 <= i < |ws| ==> ws[i].file != f
    ensures f in RecordAll(files, ws) && RecordAll(files, ws)[f] == files[f]
    decreases |ws|
  {
    if ws != [] { UncompiledIsUnchanged(Record(files, ws[0]), ws[1..], f); }
  }

  // ---------- The next compilation ----------

  /**
   The same project compiled again: everything in the cache can be read back, no extra file
   is missing, and the settings in use are ones that can be used again.
   */
  ghost predicate Unchanged(t: Toolchain, b: Build, again: Build, c: CompilerCache) {
    && again.disk == b.disk && again.profiles == b.profiles && again.groups == b.groups && again.imports == b.imports
    && !again.invalidated && again.graphResolves && !again.extraFilesMissing
    && (forall s :: t.canUseCached(s, s))
    && (forall f, k :: f in c.files && k in c.files[f].artifacts ==> (f, k) in again.readable)
  }

  lemma ProfilesStay(t: Toolchain, cached: map<Profile, Settings>, project: map<Profile, Settings>)
    requires forall s :: t.canUseCached(s, s)
    ensures var profiles := UpdatedProfiles(t, cached, project);
            DirtyProfiles(t, profiles, project) == {} && UpdatedProfiles(t, profiles, project) == profiles
  {
    var profiles := UpdatedProfiles(t, cached, project);
    forall p | p in profiles ensures p in project && t.canUseCached(project[p], profiles[p]) {
      if p in cached - DirtyProfiles(t, cached, project) { assert p !in DirtyProfiles(t, cached, project); }
    }
    assert DirtyProfiles(t, profiles, project) == {};
  }

  lemma NothingPruned(files: Files)
    ensures PrunedFiles(files, {}) == files
  {
    forall f | f in files ensures IsKept(files[f], {}) && PrunedEntry(files[f], {}) == files[f] {
      assert WithoutProfiles(files[f].artifacts, {}) == files[f].artifacts;
    }
  }

  lemma CleanSurvive(t: Toolchain, files: Files, disk: Disk)
    requires AllClean(t, files, disk)
    ensures Survivors(t, files, disk) == files
  {
    forall f | f in files ensures Survives(t, files, disk, f) {
      ReachesItself(ImportGraph(t, disk), f);
      assert Clean(t, files, disk, f);
    }
  }

  lemma RecordedStayClean(t: Toolchain, files: Files, ws: seq<Compiled>, disk: Disk)
    requires AllClean(t, files, disk)
    ensures RecordAll(files, ws).Keys == files.Keys && AllClean(t, RecordAll(files, ws), disk)
  {
    var d := RecordAll(files, ws);
    forall f ensures f in d <==> f in files { RecordedFiles(files, ws, f); }
    forall f, x | f in d && Reaches(ImportGraph(t, disk), f, x) ensures Clean(t, d, disk, x) {
      assert Clean(t, files, disk, x);
      RecordAllKeeps(files, ws, x);
    }
  }

  lemma {:induction false} RecordedFiles(files: Files, ws: seq<Compiled>, f: Path)
    ensures f in RecordAll(files, ws) <==> f in files
    decreases |ws|
  {
    if ws != [] { RecordedFiles(Record(files, ws[0]), ws[1..], f); }
  }

  /** Nothing is dropped from what the last compilation left. */
  lemma NothingDropped(t: Toolchain, b: Build, again: Build, c: CompilerCache)
    requires Trustworthy(t) && Possible(t, b, c) && Sound(t, c) && b.saved && !Unresolved(t, b)
    requires Unchanged(t, b, again, After(t, b, c))
    ensures InScope(again.groups) <= again.disk.Keys
    ensures Filtered(t, again, After(t, b, c)) == After(t, b, c)
  {
    var d, old' := After(t, b, c), Filtered(t, b, c);
    var _ := FilteredHolds(t, b, c);
    assert d.files == RecordAll(old'.files, b.compiled);
    assert d.profiles == UpdatedProfiles(t, Start(t, b, c).profiles, b.profiles);
    RecordedStayClean(t, old'.files, b.compiled, b.disk);
    assert InScope(b.groups) <= d.files.Keys;
    assert Start(t, again, d) == d;
    hide After, Filtered, RecordAll, Possible, Unresolved, Sound, InScope, Start, AllClean;
    ProfilesStay(t, Start(t, b, c).profiles, b.profiles);
    NothingPruned(d.files);
    hide UpdatedProfiles, DirtyProfiles, PrunedFiles;
    assert UpdateProfiles(t, d, again.profiles) == d;
    CleanSurvive(t, d.files, b.disk);
    assert Prepared(t, again, d) == d by { hide Survivors; }
    FilteredIsPrepared(t, again, d);
  }

  lemma FilteredIsPrepared(t: Toolchain, b: Build, c: CompilerCache)
    requires InScope(b.groups) <= b.disk.Keys && InScope(b.groups) <= Prepared(t, b, c).files.Keys
    ensures Filtered(t, b, c) == Prepared(t, b, c)
  {
    hide Prepared, InScope;
    assert WithEntries(t, Prepared(t, b, c).files, b.disk, InScope(b.groups)) == Prepared(t, b, c).files;
  }

  /** A source that a group compiled is recorded with everything it compiled to. */
  lemma CompiledIsRecorded(t: Toolchain, b: Build, c: CompilerCache, g: Group, f: Path)
    requires Possible(t, b, c) && Successful(t, b, c) && g in b.groups && f in g.sources
    requires IsComplete(t, b, c, g, f) && f in Filtered(t, b, c).files
    ensures var d := RecordAll(Filtered(t, b, c).files, b.compiled);
            && f in d && d[f].seenByCompiler
            && (forall n :: n in Recompiled(t, b, g, f) ==> ArtifactKey(n, g.version, g.profile) in d[f].artifacts)
  {
    hide IsComplete, Filtered, ImportClosure, ScopeClosed, Requested, RecordAll;
    assert f in Missing(t, b, c, g);
    var i :| 0 <= i < |b.compiled| && IsFor(b.compiled[i], f, g.version, g.profile);
    assert Faithful(t, b.disk, b.profiles, b.compiled[i]);
    RecordAllTakesIn(Filtered(t, b, c).files, b.compiled, f, i);
    forall n | n in Recompiled(t, b, g, f)
      ensures ArtifactKey(n, g.version, g.profile) in RecordAll(Filtered(t, b, c).files, b.compiled)[f].artifacts
    {
      assert Writes(b.compiled[i], f, ArtifactKey(n, g.version, g.profile));
    }
  }

  /** An entry seen to be empty is left as it is. */
  lemma SeenEmptyIsLeft(t: Toolchain, b: Build, c: CompilerCache, f: Path)
    requires Possible(t, b, c) && f in Filtered(t, b, c).files
    requires Filtered(t, b, c).files[f].seenByCompiler && Filtered(t, b, c).files[f].artifacts == map[]
    ensures var d := RecordAll(Filtered(t, b, c).files, b.compiled); f in d && d[f] == Filtered(t, b, c).files[f]
  {
    forall i | 0 <= i < |b.compiled| ensures b.compiled[i].file != f {
      assert Requested(t, b, c, b.compiled[i]);
      var g :| g in b.groups && g.version == b.compiled[i].version && g.profile == b.compiled[i].profile &&
          IsComplete(t, b, c, g, b.compiled[i].file);
      CompleteIsMissing(t, b, c, g, b.compiled[i].file);
    }
    hide Filtered, Possible, RecordAll;
    UncompiledIsUnchanged(Filtered(t, b, c).files, b.compiled, f);
  }

  lemma ContainsMore(e: CacheEntry, d: CacheEntry, v: Version, p: Profile)
    requires Contains(e, v, p) && e.artifacts.Keys <= d.artifacts.Keys
    ensures Contains(d, v, p) && d.artifacts != map[]
  {
    var k :| k in e.artifacts && k.version == v && k.profile == p;
    assert k in d.artifacts;
  }

  /** What is in the cache after a compilation for a source that compiles to something in one of its groups. */
  lemma LeftForSource(t: Toolchain, b: Build, c: CompilerCache, g: Group, f: Path)
    requires Possible(t, b, c) && Successful(t, b, c) && g in b.groups && f in g.sources
    ensures var d := RecordAll(Filtered(t, b, c).files, b.compiled);
            && f in d && (d[f].seenByCompiler || d[f].artifacts != map[])
            && (d[f].artifacts != map[] && Recompiled(t, b, g, f) != map[] ==> Contains(d[f], g.version, g.profile))
  {
    var files := Filtered(t, b, c).files;
    var d := RecordAll(files, b.compiled);
    assert f in InScope(b.groups) && f in files;
    CompleteIsMissing(t, b, c, g, f);
    RecordAllKeeps(files, b.compiled, f);
    hide Filtered, RecordAll, Possible, Successful, IsComplete;
    if IsComplete(t, b, c, g, f) {
      CompiledIsRecorded(t, b, c, g, f);
      if Recompiled(t, b, g, f) != map[] {
        var n :| n in Recompiled(t, b, g, f);
        assert ArtifactKey(n, g.version, g.profile) in d[f].artifacts;
      }
    } else if files[f].seenByCompiler && files[f].artifacts == map[] {
      SeenEmptyIsLeft(t, b, c, f);
    } else {
      ContainsMore(files[f], d[f], g.version, g.profile);
    }
  }

  /** What a compilation records is sound, and current for the sources in scope. */
  lemma RecordedHolds(t: Toolchain, b: Build, c: CompilerCache) returns (snaps: map<Path, Disk>)
    requires Trustworthy(t) && Possible(t, b, c) && Sound(t, c)
    ensures var e := Filtered(t, b, c);
            && CacheHolds(t, RecordAll(e.files, b.compiled), e.profiles, snaps)
            && Interchangeable(t, e.profiles, b.profiles)
            && (forall f :: f in InScope(b.groups) ==> f in snaps && snaps[f] == ImportClosure(t, b.disk, f))
  {
    snaps := FilteredHolds(t, b, c);
    var e := Filtered(t, b, c);
    forall i | 0 <= i < |b.compiled|
      ensures Current(t, e.files, b.disk, snaps, b.compiled[i].file) && Faithful(t, b.disk, b.profiles, b.compiled[i])
    {
      assert Requested(t, b, c, b.compiled[i]);
    }
    hide Filtered, RecordAll, Possible, Sound, CacheHolds, Interchangeable, Faithful;
    RecordAllHolds(t, e.files, e.profiles, b.disk, b.profiles, snaps, b.compiled);
  }

  lemma HeldName(t: Toolchain, files: Files, profiles: map<Profile, Settings>, project: map<Profile, Settings>,
                 snaps: map<Path, Disk>, f: Path, k: ArtifactKey)
    requires CacheHolds(t, files, profiles, snaps) && Interchangeable(t, profiles, project)
    requires f in files && k in files[f].artifacts
    ensures f in snaps && k.profile in profiles
    ensures k.name in t.compile(f, snaps[f], k.version, profiles[k.profile])
    ensures k.profile in project ==> k.name in t.compile(f, snaps[f], k.version, project[k.profile])
  {
    hide SnapshotHolds;
  }

  /** A name that is held for a source in scope is one that the source has now. */
  lemma HeldIsProduced(t: Toolchain, b: Build, c: CompilerCache, f: Path, k: ArtifactKey)
    requires Trustworthy(t) && Possible(t, b, c) && Sound(t, c) && f in InScope(b.groups)
    requires var d := RecordAll(Filtered(t, b, c).files, b.compiled); f in d && k in d[f].artifacts
    ensures exists s :: k.name in t.compile(f, ImportClosure(t, b.disk, f), k.version, s)
    ensures k.profile in b.profiles ==>
              k.name in t.compile(f, ImportClosure(t, b.disk, f), k.version, b.profiles[k.profile])
  {
    assert InScope(b.groups) <= b.disk.Keys;
    hide *;
    var snaps := RecordedHolds(t, b, c);
    HeldName(t, RecordAll(Filtered(t, b, c).files, b.compiled), Filtered(t, b, c).profiles, b.profiles, snaps, f, k);
  }

  /**
   A project that is compiled again unchanged, after any history and a successful
   compilation that was saved, compiles a source for a group again if and only if the source
   compiles to nothing there and has artifacts of another version or profile.
   */
  lemma CompiledAgainExactly(t: Toolchain, bs: seq<Build>, b: Build, again: Build, g: Group, f: Path)
    requires Trustworthy(t) && IsHistory(t, EmptyCache, bs) && b.saved
    requires var c := CacheAfter(t, EmptyCache, bs);
             && Possible(t, b, c) && Successful(t, b, c) && !Unresolved(t, b)
             && Unchanged(t, b, again, After(t, b, c)) && g in b.groups && f in g.sources
    ensures var d := After(t, b, CacheAfter(t, EmptyCache, bs));
            && InScope(again.groups) <= again.disk.Keys && f in d.files
            && (IsComplete(t, again, d, g, f) <==> d.files[f].artifacts != map[] && Recompiled(t, b, g, f) == map[])
  {
    var c := CacheAfter(t, EmptyCache, bs);
    var d := After(t, b, c);
    EmptyIsSound(t);
    HistoryKeepsSound(t, EmptyCache, bs);
    NothingDropped(t, b, again, c);
    LeftForSource(t, b, c, g, f);
    CompleteIsMissing(t, again, d, g, f);
    assert d.files == RecordAll(Filtered(t, b, c).files, b.compiled);
    hide After, Filtered, RecordAll, Possible, Sound, IsHistory, CacheAfter, IsComplete, Successful, Recompiled;
    if Contains(d.files[f], g.version, g.profile) {
      var k :| k in d.files[f].artifacts && k.version == g.version && k.profile == g.profile;
      HeldForGroup(t, b, c, g, f, k);
    }
  }

  lemma HeldForGroup(t: Toolchain, b: Build, c: CompilerCache, g: Group, f: Path, k: ArtifactKey)
    requires Trustworthy(t) && Possible(t, b, c) && Sound(t, c) && g in b.groups && f in g.sources
    requires var d := RecordAll(Filtered(t, b, c).files, b.compiled); f in d && k in d[f].artifacts
    requires k.version == g.version && k.profile == g.profile
    ensures Recompiled(t, b, g, f) != map[]
  {
    hide Filtered, RecordAll, Sound, ImportClosure;
    assert f in InScope(b.groups) && g.profile in b.profiles;
    HeldIsProduced(t, b, c, f, k);
    assert k.name in Recompiled(t, b, g, f);
  }

  /** Where contents decide, whoever holds anything compiles to something in every group. */
  lemma HeldMeansSomething(t: Toolchain, b: Build, c: CompilerCache, g: Group, f: Path)
    requires Trustworthy(t) && ContentDecidesEmptiness(t) && Possible(t, b, c) && Sound(t, c)
    requires g in b.groups && f in g.sources
    requires var d := RecordAll(Filtered(t, b, c).files, b.compiled); f in d && d[f].artifacts != map[]
    ensures Recompiled(t, b, g, f) != map[]
  {
    hide Filtered, RecordAll, Sound, ImportClosure;
    assert f in InScope(b.groups) && g.profile in b.profiles;
    var k :| k in RecordAll(Filtered(t, b, c).files, b.compiled)[f].artifacts;
    HeldIsProduced(t, b, c, f, k);
    var s :| k.name in t.compile(f, ImportClosure(t, b.disk, f), k.version, s);
    assert t.compile(f, ImportClosure(t, b.disk, f), k.version, s) != map[];
  }

  /** Where contents alone decide whether a source compiles to something, nothing at all is compiled. */
  lemma UnchangedCompilesNothing(t: Toolchain, bs: seq<Build>, b: Build, again: Build, g: Group)
    requires Trustworthy(t) && ContentDecidesEmptiness(t) && IsHistory(t, EmptyCache, bs) && b.saved
    requires var c := CacheAfter(t, EmptyCache, bs);
             && Possible(t, b, c) && Successful(t, b, c) && !Unresolved(t, b)
             && Unchanged(t, b, again, After(t, b, c)) && g in b.groups
    ensures InScope(again.groups) <= again.disk.Keys
    ensures Answer(t, again, After(t, b, CacheAfter(t, EmptyCache, bs)), g) == map[]
  {
    var c := CacheAfter(t, EmptyCache, bs);
    var d := After(t, b, c);
    EmptyIsSound(t);
    HistoryKeepsSound(t, EmptyCache, bs);
    NothingDropped(t, b, again, c);
    assert d.files == RecordAll(Filtered(t, b, c).files, b.compiled);
    hide After, Filtered, RecordAll, Possible, Sound, IsHistory, CacheAfter, IsComplete, Successful, Recompiled;
    hide Unchanged, ContentDecidesEmptiness, Trustworthy, Answer;
    forall f | f in g.sources ensures !IsComplete(t, again, d, g, f) {
      CompiledAgainExactly(t, bs, b, again, g, f);
      if d.files[f].artifacts != map[] { HeldMeansSomething(t, b, c, g, f); }
    }
    NobodyCompleteNobodyElse(t, again, d, g);
  }

  lemma NobodyCompleteNobodyElse(t: Toolchain, b: Build, c: CompilerCache, g: Group)
    requires InScope(b.groups) <= b.disk.Keys && forall f :: f in g.sources ==> !IsComplete(t, b, c, g, f)
    ensures Answer(t, b, c, g) == map[]
  {
    hide Filtered;
    forall f ensures f !in CompleteSources(Filtered(t, b, c).files, b.readable, b.extraFilesMissing, g) {
      CompleteIsMissing(t, b, c, g, f);
    }
    hide IsMissing, CompleteSources;
    assert forall f :: f !in Answer(t, b, c, g);
  }
}
