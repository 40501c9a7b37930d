/**
 One whole compilation over the cache as an object: dirty removal, the filter over every
 group, and what is taken in and handed on at the end. It is the step that the histories
 of CacheRuns are made of.
 */
module CacheBuild {
  import opened CacheModel
  import opened CacheInner
  import opened CacheRuns
  import opened CacheOutput

  lemma ScopeOfMore(groups: seq<Group>, i: nat)
    requires i < |groups|
    ensures InScope(groups[..i + 1]) == InScope(groups[..i]) + groups[i].sources
    ensures Scope(groups[..i + 1]) == Scope(groups[..i]) + InScopeAt(groups[i].sources, groups[i].version)
    ensures groups[i].sources <= InScope(groups)
  {
    var more, fewer := groups[..i + 1], groups[..i];
    assert more == fewer + [groups[i]] && groups[i] in groups;
    assert forall g :: g in more <==> g in fewer || g == groups[i];
  }

  /** Entries for some sources and then for others are entries for all of them. */
  lemma EntriesInTurn(t: Toolchain, files: Files, disk: Disk, a: set<Path>, b: set<Path>)
    requires a <= disk.Keys && b <= disk.Keys
    ensures WithEntries(t, WithEntries(t, files, disk, a), disk, b) == WithEntries(t, files, disk, a + b)
    ensures WithEntries(t, files, disk, {}) == files
  {
    hide NewEntry;
  }

  /** What is missing can be judged on the artifacts read back, and before entries are created. */
  lemma MissingFromReadBack(t: Toolchain, b: Build, c: CompilerCache, sources: set<Path>, g: Group)
    requires InScope(b.groups) <= b.disk.Keys && sources <= b.disk.Keys
    ensures CompleteSources(WithEntries(t, Prepared(t, b, c).files, b.disk, sources), ReadBack(t, b, c).Keys,
                            b.extraFilesMissing, g)
            == CompleteSources(Filtered(t, b, c).files, b.readable, b.extraFilesMissing, g)
  {
    var p := Prepared(t, b, c).files;
    FilterOrderIrrelevant(t, p, b.disk, sources, ReadBack(t, b, c).Keys, b.extraFilesMissing, g);
    FilterOrderIrrelevant(t, p, b.disk, InScope(b.groups), b.readable, b.extraFilesMissing, g);
    assert forall f, k :: f in p && k in p[f].artifacts ==>
           ((f, k) in b.readable <==> (f, k) in ReadBack(t, b, c).Keys) by {
      PreparedComesFromStart(t, b, c);
      hide Prepared, Start;
    }
    hide Prepared, Start, ReadBack, Contains;
    assert forall f :: IsMissing(p, ReadBack(t, b, c).Keys, b.extraFilesMissing, f, g.version, g.profile) <==>
      IsMissing(p, b.readable, b.extraFilesMissing, f, g.version, g.profile);
  }

  lemma PreparedComesFromStart(t: Toolchain, b: Build, c: CompilerCache)
    requires InScope(b.groups) <= b.disk.Keys
    ensures var p, s := Prepared(t, b, c).files, Start(t, b, c).files;
            forall f, k :: f in p && k in p[f].artifacts ==> f in s && k in s[f].artifacts
  {
    hide Survives, DirtyProfiles, Unresolved;
  }

  /** How one group is compiled: the answer of the filter, judged on what was missing. */
  ghost predicate IsFiltered(t: Toolchain, b: Build, c: CompilerCache, g: Group,
                             kinds: map<Path, SourceCompilationKind>)
    requires InScope(b.groups) <= b.disk.Keys
  {
    && g.sources <= b.imports.Keys
    && Judges(kinds, Filtered(t, b, c).files, b.readable, b.extraFilesMissing, g, b.imports)
    && kinds == Answer(t, b, c, g)
  }

  /** How the first groups are compiled. */
  ghost predicate AreFiltered(t: Toolchain, b: Build, c: CompilerCache, kinds: seq<map<Path, SourceCompilationKind>>)
    requires InScope(b.groups) <= b.disk.Keys
  {
    |kinds| <= |b.groups| && forall i :: 0 <= i < |kinds| ==> IsFiltered(t, b, c, b.groups[i], kinds[i])
  }

  lemma OneMoreFiltered(t: Toolchain, b: Build, c: CompilerCache, kinds: seq<map<Path, SourceCompilationKind>>,
                        more: map<Path, SourceCompilationKind>)
    requires InScope(b.groups) <= b.disk.Keys && AreFiltered(t, b, c, kinds) && |kinds| < |b.groups|
    requires IsFiltered(t, b, c, b.groups[|kinds|], more)
    ensures AreFiltered(t, b, c, kinds + [more])
  {
    hide IsFiltered;
  }

  lemma NoneFiltered(t: Toolchain, b: Build, c: CompilerCache)
    requires InScope(b.groups) <= b.disk.Keys
    ensures AreFiltered(t, b, c, [])
  {
  }

  /** Judged on the entries and artifacts at hand when its turn comes, a group gets the answer of the compilation. */
  lemma JudgedIsFiltered(t: Toolchain, b: Build, c: CompilerCache, sources: set<Path>, g: Group,
                         kinds: map<Path, SourceCompilationKind>)
    requires InScope(b.groups) <= b.disk.Keys && sources <= b.disk.Keys && g.sources <= b.imports.Keys
    requires Judges(kinds, WithEntries(t, Prepared(t, b, c).files, b.disk, sources), ReadBack(t, b, c).Keys,
                    b.extraFilesMissing, g, b.imports)
    ensures IsFiltered(t, b, c, g, kinds)
  {
    hide Judges, Kinds, CompleteSources, Filtered, Prepared, ReadBack, WithEntries;
    MissingFromReadBack(t, b, c, sources, g);
    JudgedIsKinds(kinds, WithEntries(t, Prepared(t, b, c).files, b.disk, sources), ReadBack(t, b, c).Keys,
                  b.extraFilesMissing, g, b.imports);
    KindsAreJudged(Filtered(t, b, c).files, b.readable, b.extraFilesMissing, g, b.imports);
  }

  lemma AfterIs(t: Toolchain, b: Build, c: CompilerCache, files: Files)
    requires InScope(b.groups) <= b.disk.Keys && files == RecordAll(Filtered(t, b, c).files, b.compiled)
    ensures var start := Start(t, b, c);
            After(t, b, c) ==
            if b.saved then
              CompilerCache(files, ReferencedBuilds(files, start.builds + b.buildInfos),
                            UpdatedProfiles(t, start.profiles, b.profiles))
            else c
  {
    hide RecordAll, ReferencedBuilds, UpdatedProfiles, Survivors, Start, PrunedFiles, DirtyProfiles, WithEntries;
  }

  lemma PreparedIs(t: Toolchain, b: Build, c: CompilerCache)
    requires InScope(b.groups) <= b.disk.Keys
    ensures var start := Start(t, b, c);
            var pruned := PrunedFiles(start.files, DirtyProfiles(t, start.profiles, b.profiles));
            && Prepared(t, b, c).files == (if b.graphResolves then Survivors(t, pruned, b.disk) else map[])
            && DirtyFiles(t, b, c) == (if b.graphResolves then DirtySources(t, pruned, b.disk) else pruned.Keys)
            && Filtered(t, b, c).files == WithEntries(t, Prepared(t, b, c).files, b.disk, InScope(b.groups))
            && Kept(t, b, c) == Returned(ReadBack(t, b, c), Scope(b.groups), DirtyFiles(t, b, c), b.compiled)
  {
    hide PrunedFiles, DirtyProfiles, Survivors, DirtySources, WithEntries, Start, ReadBack, Returned, Scope, InScope,
         UpdatedProfiles;
  }

  /** The compilation from opening the cache to closing it; what the compiler gave is part of `b`. */
  method Compile(t: Toolchain, b: Build, c: CompilerCache)
    returns (after: CompilerCache, handedOn: map<(Path, ArtifactKey), Artifact>,
             kinds: seq<map<Path, SourceCompilationKind>>)
    requires InScope(b.groups) <= b.disk.Keys && InScope(b.groups) <= b.imports.Keys
    ensures after == After(t, b, c)
    ensures handedOn == Kept(t, b, c)
    ensures |kinds| == |b.groups| && AreFiltered(t, b, c, kinds)
  {
    hide *;
    PreparedIs(t, b, c);
    var inner := new ArtifactsCacheInner(Start(t, b, c), ReadBack(t, b, c));
    inner.RemoveDirtySources(t, b.disk, b.profiles, b.graphResolves);
    kinds := FilterAll(inner, t, b, c);
    inner.Consume(b.compiled, b.buildInfos, b.saved);
    AfterIs(t, b, c, inner.files);
    handedOn := inner.cachedArtifacts;
    after := if b.saved then CompilerCache(inner.files, inner.builds, inner.profiles) else c;
  }

  /** The state of the cache object after the first `i` groups were filtered. */
  ghost predicate FilteredUpTo(inner: ArtifactsCacheInner, t: Toolchain, b: Build, c: CompilerCache, i: nat)
    reads inner
    requires InScope(b.groups) <= b.disk.Keys
  {
    && i <= |b.groups| && InScope(b.groups[..i]) <= b.disk.Keys
    && inner.files == WithEntries(t, Prepared(t, b, c).files, b.disk, InScope(b.groups[..i]))
    && inner.sourcesInScope == Scope(b.groups[..i])
    && inner.cachedArtifacts == ReadBack(t, b, c)
  }

  lemma FilteredUpToNone(inner: ArtifactsCacheInner, t: Toolchain, b: Build, c: CompilerCache)
    requires InScope(b.groups) <= b.disk.Keys
    requires inner.files == Prepared(t, b, c).files && inner.cachedArtifacts == ReadBack(t, b, c) &&
             inner.sourcesInScope == {}
    ensures FilteredUpTo(inner, t, b, c, 0)
  {
    assert b.groups[..0] == [] && InScope([]) == {} && Scope([]) == {};
    EntriesInTurn(t, Prepared(t, b, c).files, b.disk, {}, {});
    hide Prepared, ReadBack, WithEntries, InScope, Scope;
  }

  lemma FilteredUpToAll(inner: ArtifactsCacheInner, t: Toolchain, b: Build, c: CompilerCache)
    requires InScope(b.groups) <= b.disk.Keys && FilteredUpTo(inner, t, b, c, |b.groups|)
    ensures inner.files == Filtered(t, b, c).files && inner.sourcesInScope == Scope(b.groups)
  {
    PreparedIs(t, b, c);
    assert b.groups[..|b.groups|] == b.groups;
    hide Prepared, ReadBack, WithEntries, InScope, Scope, Filtered;
  }

  method FilterOne(inner: ArtifactsCacheInner, t: Toolchain, b: Build, ghost c: CompilerCache, i: nat)
    returns (kinds: map<Path, SourceCompilationKind>)
    requires InScope(b.groups) <= b.disk.Keys && InScope(b.groups) <= b.imports.Keys
    requires i < |b.groups| && FilteredUpTo(inner, t, b, c, i)
    modifies inner`files, inner`sourcesInScope
    ensures FilteredUpTo(inner, t, b, c, i + 1) && IsFiltered(t, b, c, b.groups[i], kinds)
  {
    var g := b.groups[i];
    ghost var p := Prepared(t, b, c).files;
    hide Prepared, ReadBack, WithEntries, InScope, Scope, InScopeAt, Judges, IsFiltered;
    ScopeOfMore(b.groups, i);
    EntriesInTurn(t, p, b.disk, InScope(b.groups[..i]), g.sources);
    kinds := inner.Filter(t, b.disk, g, b.extraFilesMissing, b.imports);
    JudgedIsFiltered(t, b, c, InScope(b.groups[..i]), g, kinds);
  }

  /** Filters every group in turn. */
  method FilterAll(inner: ArtifactsCacheInner, t: Toolchain, b: Build, ghost c: CompilerCache)
    returns (kinds: seq<map<Path, SourceCompilationKind>>)
    requires InScope(b.groups) <= b.disk.Keys && InScope(b.groups) <= b.imports.Keys
    requires inner.files == Prepared(t, b, c).files && inner.cachedArtifacts == ReadBack(t, b, c) &&
             inner.sourcesInScope == {}
    modifies inner`files, inner`sourcesInScope
    ensures inner.files == Filtered(t, b, c).files && inner.sourcesInScope == Scope(b.groups)
    ensures |kinds| == |b.groups| && AreFiltered(t, b, c, kinds)
  {
    hide *;
    kinds := [];
    NoneFiltered(t, b, c);
    FilteredUpToNone(inner, t, b, c);
    for i := 0 to |b.groups|
      invariant FilteredUpTo(inner, t, b, c, i)
      invariant |kinds| == i && AreFiltered(t, b, c, kinds)
    {
      var more := FilterOne(inner, t, b, c, i);
      OneMoreFiltered(t, b, c, kinds, more);
      kinds := kinds + [more];
    }
    FilteredUpToAll(inner, t, b, c);
  }
}
