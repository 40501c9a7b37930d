/**
 The incremental compile cache as the object it is in the source: the searches and loops
 that mark dirty files, select what to compile and collect builds, each proved to compute
 what CacheModel defines.
 */
module CacheInner {
  import opened Reachability
  import opened CacheModel

  function Successors(g: Graph<Path>, x: Path): set<Path> {
    if x in g then g[x] else {}
  }

  /** `importers` turns the import edges between `nodes` around. */
  predicate ImportersOf(g: Graph<Path>, nodes: set<Path>, importers: Graph<Path>) {
    && importers.Keys == nodes
    && (forall b :: b in nodes ==> importers[b] <= nodes)
    && (forall a, b :: a in nodes && b in nodes ==> (a in importers[b] <==> Edge(g, a, b)))
  }

  /** The resolver's worklist: takes in the roots and, transitively, what they import. */
  method ResolveNodes(g: Graph<Path>, roots: set<Path>) returns (nodes: set<Path>)
    requires NoDanglingEdges(g) && roots <= g.Keys
    ensures nodes <= g.Keys && forall x :: x in nodes <==> ReachedFrom(g, roots, x)
  {
    nodes := roots;
    var unresolved := roots;
    ghost var done := {};
    hide ReachedFrom, Reaches, NoDanglingEdges;
    RootsAreReached(g, roots);
    while unresolved != {}
      invariant roots <= nodes <= g.Keys && nodes == unresolved + done && unresolved !! done
      invariant forall x :: x in nodes ==> ReachedFrom(g, roots, x)
      invariant forall x :: x in done ==> g[x] <= nodes
      decreases g.Keys - done
    {
      var x :| x in unresolved;
      ImportsAreReached(g, roots, x);
      WorklistStep(nodes, unresolved, done, x, g[x]);
      done := done + {x};
      unresolved := unresolved - {x} + (g[x] - nodes);
      nodes := nodes + g[x];
    }
    forall x, y | x in nodes && Edge(g, x, y) ensures y in nodes { assert y in g[x]; }
    ClosedHoldsAllReached(g, roots, nodes);
  }

  lemma WorklistStep(nodes: set<Path>, unresolved: set<Path>, done: set<Path>, x: Path, found: set<Path>)
    requires nodes == unresolved + done && unresolved !! done && x in unresolved
    ensures var left := unresolved - {x} + (found - nodes);
            nodes + found == left + (done + {x}) && left !! (done + {x})
  {
  }

  lemma ImportsAreReached(g: Graph<Path>, roots: set<Path>, x: Path)
    requires NoDanglingEdges(g) && x in g && ReachedFrom(g, roots, x)
    ensures g[x] <= g.Keys && forall y :: y in g[x] ==> ReachedFrom(g, roots, y)
  {
    forall y | y in g[x] ensures y in g && ReachedFrom(g, roots, y) {
      assert Edge(g, x, y);
      ReachesItself(g, x);
      ReachesOnward(g, x, x, y);
      ReachedOnward(g, roots, x, y);
    }
  }

  method ResolveSources(t: Toolchain, disk: Disk, roots: set<Path>) returns (nodes: set<Path>, importers: Graph<Path>)
    requires roots <= disk.Keys
    ensures nodes <= disk.Keys && forall x :: x in nodes <==> ReachedFrom(ImportGraph(t, disk), roots, x)
    ensures ImportersOf(ImportGraph(t, disk), nodes, importers)
  {
    nodes := ResolveNodes(ImportGraph(t, disk), roots);
    importers := map b | b in nodes :: set a | a in nodes && b in t.imports(a, disk[a]);
  }

  /** Files a search has marked since `before`: reached from `file`, and searched themselves. */
  ghost predicate MarkedFrom(g: Graph<Path>, file: Path, before: set<Path>, after: set<Path>) {
    && before <= after
    && forall x :: x in after - before ==> Reaches(g, file, x)
  }

  /** Everything newly marked has its successors marked. */
  ghost predicate Searched(g: Graph<Path>, before: set<Path>, after: set<Path>) {
    forall x :: x in after - before ==> Successors(g, x) <= after
  }

  class ArtifactsCacheInner {
    var files: Files
    var builds: set<BuildId>
    var profiles: map<Profile, Settings>
    var dirtySources: set<Path>
    /** The artifacts that could be read back, with their contents. */
    var cachedArtifacts: map<(Path, ArtifactKey), Artifact>
    var sourcesInScope: set<(Path, Version)>

    constructor (cache: CompilerCache, cachedArtifacts: map<(Path, ArtifactKey), Artifact>)
      ensures files == cache.files && builds == cache.builds && profiles == cache.profiles
      ensures this.cachedArtifacts == cachedArtifacts && dirtySources == {} && sourcesInScope == {}
    {
      files, builds, profiles := cache.files, cache.builds, cache.profiles;
      this.cachedArtifacts, dirtySources, sourcesInScope := cachedArtifacts, {}, {};
    }

    /** Depth-first search over importers that stops at files already marked. */
    method PopulateDirtyFiles(file: Path, importers: Graph<Path>)
      requires NoDanglingEdges(importers)
      modifies this`dirtySources
      ensures MarkedFrom(importers, file, old(dirtySources), dirtySources)
      ensures Searched(importers, old(dirtySources), dirtySources)
      ensures Successors(importers, file) <= dirtySources
      decreases importers.Keys - dirtySources
    {
      ghost var before := dirtySources;
      var todo := Successors(importers, file);
      ReachesItself(importers, file);
      while todo != {}
        invariant todo <= Successors(importers, file)
        invariant MarkedFrom(importers, file, before, dirtySources)
        invariant Searched(importers, before, dirtySources)
        invariant Successors(importers, file) - todo <= dirtySources
        decreases todo
      {
        var next :| next in todo;
        todo := todo - {next};
        if next !in dirtySources {
          ghost var now := dirtySources;
          assert Edge(importers, file, next);
          ReachesOnward(importers, file, file, next);
          dirtySources := dirtySources + {next};
          PopulateDirtyFiles(next, importers);
          forall x | x in dirtySources - before ensures Reaches(importers, file, x) {
            if x !in now && x != next { ReachesFirst(importers, file, next, x); }
          }
        }
      }
    }

    /**
     Dirty propagation is exactly the least closure: despite the early stop, what is marked
     in the end is the files marked at first plus those that import one of them, directly
     or not.
     */
    method PropagateDirty(importers: Graph<Path>)
      requires NoDanglingEdges(importers)
      modifies this`dirtySources
      ensures forall x :: x in dirtySources <==> ReachedFrom(importers, old(dirtySources), x)
    {
      ghost var before := dirtySources;
      var todo := dirtySources;
      hide ReachedFrom, Reaches;
      RootsAreReached(importers, before);
      while todo != {}
        invariant todo <= before <= dirtySources
        invariant forall x :: x in dirtySources ==> ReachedFrom(importers, before, x)
        invariant forall x :: x in dirtySources - todo ==> Successors(importers, x) <= dirtySources
        decreases todo
      {
        var file :| file in todo;
        ghost var now := dirtySources;
        todo := todo - {file};
        PopulateDirtyFiles(file, importers);
        forall x | x in dirtySources ensures ReachedFrom(importers, before, x) {
          if x !in now { ReachedOnward(importers, before, file, x); }
        }
      }
      forall x, y | x in dirtySources && Edge(importers, x, y) ensures y in dirtySources {
        assert y in Successors(importers, x);
      }
      ClosedHoldsAllReached(importers, before, dirtySources);
    }

    /** Removes the dirty profiles and adds the project's profiles that are not cached. */
    method ReplaceProfiles(dirtyProfiles: set<Profile>, project: map<Profile, Settings>)
      requires dirtyProfiles <= profiles.Keys
      modifies this`profiles
      ensures profiles == project + (old(profiles) - dirtyProfiles)
    {
      ghost var cached := profiles;
      var todo := dirtyProfiles;
      while todo != {}
        invariant todo <= dirtyProfiles && profiles == cached - (dirtyProfiles - todo)
      {
        var p :| p in todo;
        profiles := profiles - {p};
        todo := todo - {p};
      }
      ghost var kept := profiles;
      todo := project.Keys;
      while todo != {}
        invariant todo <= project.Keys
        invariant profiles == (project - todo) + kept
      {
        var p :| p in todo;
        if p !in profiles { profiles := profiles[p := project[p]]; }
        todo := todo - {p};
      }
      assert project - {} == project;
    }

    /** Drops what was cached under settings that no longer fit, and adopts the project's new profiles. */
    method UpdateProfiles(t: Toolchain, project: map<Profile, Settings>)
      modifies this`files, this`profiles
      ensures files == PrunedFiles(old(files), DirtyProfiles(t, old(profiles), project))
      ensures profiles == UpdatedProfiles(t, old(profiles), project)
    {
      var dirtyProfiles := set p | p in profiles && !(p in project && t.canUseCached(project[p], profiles[p]));
      assert dirtyProfiles == DirtyProfiles(t, profiles, project);
      ReplaceProfiles(dirtyProfiles, project);
      RetainFiles(dirtyProfiles);
    }

    method RetainFiles(dirtyProfiles: set<Profile>)
      modifies this`files
      ensures files == PrunedFiles(old(files), dirtyProfiles)
    {
      var all, kept := files, map[];
      var todo := files.Keys;
      while todo != {}
        invariant todo <= all.Keys
        invariant forall f :: f in kept <==> f in all.Keys - todo && IsKept(all[f], dirtyProfiles)
        invariant forall f :: f in kept ==> kept[f] == PrunedEntry(all[f], dirtyProfiles)
        decreases todo
      {
        var f :| f in todo;
        todo := todo - {f};
        if IsKept(all[f], dirtyProfiles) { kept := kept[f := PrunedEntry(all[f], dirtyProfiles)]; }
      }
      files := kept;
    }

    method RemoveAll(gone: set<Path>)
      modifies this`files
      ensures files == old(files) - gone
    {
      var todo := gone;
      while todo != {}
        invariant todo <= gone && files == old(files) - (gone - todo)
      {
        var f :| f in todo;
        files := files - {f};
        todo := todo - {f};
      }
      assert gone - {} == gone;
    }

    /**
     Removes every file that changed, was never cached, cannot be read, or imports such a
     file: exactly the entries all of whose import closure is cached and unchanged survive.
     */
    method RemoveDirtySources(t: Toolchain, disk: Disk, project: map<Profile, Settings>, graphResolves: bool)
      requires dirtySources == {}
      modifies this`files, this`profiles, this`dirtySources
      ensures profiles == UpdatedProfiles(t, old(profiles), project)
      ensures var pruned := PrunedFiles(old(files), DirtyProfiles(t, old(profiles), project));
              dirtySources == if graphResolves then DirtySources(t, pruned, disk) else pruned.Keys
      ensures files == if graphResolves
                       then Survivors(t, PrunedFiles(old(files), DirtyProfiles(t, old(profiles), project)), disk)
                       else map[]
    {
      UpdateProfiles(t, project);
      dirtySources := files.Keys - disk.Keys;
      if graphResolves {
        MarkDirty(t, disk);
      } else {
        dirtySources := dirtySources + files.Keys;
      }
      RemoveAll(dirtySources);
    }

    /** Marks the changed files and whatever imports them. */
    method MarkDirty(t: Toolchain, disk: Disk)
      requires dirtySources == files.Keys - disk.Keys
      modifies this`dirtySources
      ensures dirtySources == DirtySources(t, files, disk)
    {
      var nodes, importers := ResolveSources(t, disk, files.Keys * disk.Keys);
      var changed := set x | x in nodes && !Clean(t, files, disk, x);
      dirtySources := dirtySources + changed;
      ghost var marked := dirtySources;
      PropagateDirty(importers);
      forall f ensures f in dirtySources <==> f in DirtySources(t, files, disk) {
        if f in files { DirtyExactly(t, files, disk, nodes, importers, marked, f); }
        else { UncachedDirtyExactly(t, files, disk, nodes, importers, marked, f); }
      }
    }

    /** The sources that miss artifacts; every source gets an entry. */
    method SelectComplete(t: Toolchain, disk: Disk, group: Group, extraFilesMissing: bool) returns (complete: set<Path>)
      requires group.sources <= disk.Keys
      modifies this`files, this`sourcesInScope
      ensures files == WithEntries(t, old(files), disk, group.sources)
      ensures sourcesInScope == old(sourcesInScope) + InScopeAt(group.sources, group.version)
      ensures complete == CompleteSources(old(files), cachedArtifacts.Keys, extraFilesMissing, group) <= group.sources
    {
      complete := {};
      var readable := cachedArtifacts.Keys;
      ghost var before := files;
      var todo := group.sources;
      while todo != {}
        invariant todo <= group.sources
        invariant files == WithEntries(t, before, disk, group.sources - todo)
        invariant sourcesInScope == old(sourcesInScope) + InScopeAt(group.sources - todo, group.version)
        invariant forall f :: f in complete <==>
                    f in group.sources - todo &&
                    IsMissing(before, readable, extraFilesMissing, f, group.version, group.profile)
        decreases todo
      {
        hide InScopeAt, IsMissing, WithEntries, NewEntry;
        var file :| file in todo;
        EntriesGrow(t, before, disk, group.sources, todo, file);
        ScopeGrows(group.sources, todo, file, group.version);
        todo := todo - {file};
        sourcesInScope := sourcesInScope + {(file, group.version)};
        VerdictUnchanged(before, files, readable, extraFilesMissing, file, group);
        if IsMissing(files, readable, extraFilesMissing, file, group.version, group.profile) {
          complete := complete + {file};
        }
        if file !in files {
          files := files[file := NewEntry(t, disk[file])];
        }
      }
      assert group.sources - {} == group.sources;
    }

    /**
     Selects what to compile: sources missing artifacts completely, and the sources those
     import so that they can be compiled at all.
     */
    method Filter(t: Toolchain, disk: Disk, group: Group, extraFilesMissing: bool, imports: map<Path, set<Path>>)
      returns (kinds: map<Path, SourceCompilationKind>)
      requires group.sources <= disk.Keys && group.sources <= imports.Keys
      modifies this`files, this`sourcesInScope
      ensures files == WithEntries(t, old(files), disk, group.sources)
      ensures sourcesInScope == old(sourcesInScope) + InScopeAt(group.sources, group.version)
      ensures Judges(kinds, old(files), cachedArtifacts.Keys, extraFilesMissing, group, imports)
    {
      hide *;
      ghost var before := files;
      var compileComplete := SelectComplete(t, disk, group, extraFilesMissing);
      var compileOptimized := CollectImported(group.sources, compileComplete, imports);
      kinds := map f | f in group.sources && (f in compileComplete || f in compileOptimized) ::
        if f in compileComplete then Complete else Optimized;
      CollectedIsKinds(kinds, group.sources, compileComplete, compileOptimized, imports);
      KindsAreJudged(before, cachedArtifacts.Keys, extraFilesMissing, group, imports);
    }

    /** Removes the builds no artifact refers to. */
    method RemoveOutdatedBuilds()
      modifies this`builds
      ensures builds == ReferencedBuilds(files, old(builds))
    {
      var outdated := {};
      var todo := builds;
      while todo != {}
        invariant todo <= builds == old(builds)
        invariant outdated == set b | b in builds - todo && !References(files, b)
        decreases todo
      {
        var buildId :| buildId in todo;
        todo := todo - {buildId};
        if !References(files, buildId) { outdated := outdated + {buildId}; }
      }
      builds := builds - outdated;
    }

    /** Drops the cached artifacts that are out of scope, dirty, or written anew. */
    method RetainArtifacts(written: seq<Compiled>)
      modifies this`cachedArtifacts
      ensures cachedArtifacts == Returned(old(cachedArtifacts), sourcesInScope, dirtySources, written)
      ensures forall a :: a in cachedArtifacts <==>
                && a in old(cachedArtifacts)
                && (a.0, a.1.version) in sourcesInScope
                && a.0 !in dirtySources
                && !exists i :: 0 <= i < |written| && written[i].file == a.0 && written[i].version == a.1.version
                                && a.1.name in written[i].output
      ensures forall a :: a in cachedArtifacts ==> cachedArtifacts[a] == old(cachedArtifacts)[a]
    {
      ghost var all := cachedArtifacts;
      var todo := cachedArtifacts.Keys;
      while todo != {}
        invariant todo <= all.Keys
        invariant forall a :: a in cachedArtifacts <==>
                  a in all && (a in todo || IsReturned(a, sourcesInScope, dirtySources, written))
        invariant forall a :: a in cachedArtifacts ==> cachedArtifacts[a] == all[a]
        decreases todo
      {
        var a :| a in todo;
        todo := todo - {a};
        var (file, key) := a;
        if (file, key.version) !in sourcesInScope || file in dirtySources ||
           IsWritten(written, file, key.name, key.version) {
          cachedArtifacts := cachedArtifacts - {a};
        }
      }
    }

    /**
     Takes in what was compiled: artifacts and seen marks, then the builds. Left in
     `cachedArtifacts` is what is handed on beside the artifacts written.
     */
    method Consume(written: seq<Compiled>, writtenBuildInfos: set<BuildId>, writeToDisk: bool)
      modifies this`files, this`builds, this`cachedArtifacts
      ensures cachedArtifacts == Returned(old(cachedArtifacts), sourcesInScope, dirtySources, written)
      ensures files == RecordAll(old(files), written)
      ensures builds == if writeToDisk then ReferencedBuilds(files, old(builds) + writtenBuildInfos)
                        else old(builds) + writtenBuildInfos
    {
      RetainArtifacts(written);
      ghost var goal := RecordAll(files, written);
      for i := 0 to |written|
        invariant RecordAll(files, written[i..]) == goal && builds == old(builds)
        invariant cachedArtifacts == Returned(old(cachedArtifacts), sourcesInScope, dirtySources, written)
      {
        assert written[i..][0] == written[i] && written[i..][1..] == written[i + 1..];
        files := Record(files, written[i]);
      }
      builds := builds + writtenBuildInfos;
      if writeToDisk { RemoveOutdatedBuilds(); }
    }
  }

  /**
   What the filter answers for a group: complete compilation for exactly the sources that
   miss artifacts, optimized for those that do not but that one compiled completely imports,
   and nothing for the rest.
   */
  ghost predicate Judges(kinds: map<Path, SourceCompilationKind>, files: Files, readable: set<(Path, ArtifactKey)>,
                         extraFilesMissing: bool, g: Group, imports: map<Path, set<Path>>)
    requires g.sources <= imports.Keys
  {
    && (forall f :: f in kinds ==> f in g.sources)
    && (forall f :: f in g.sources ==>
          (f in kinds && kinds[f] == Complete <==>
           IsMissing(files, readable, extraFilesMissing, f, g.version, g.profile)))
    && (forall f :: f in g.sources ==>
          (f in kinds && kinds[f] == Optimized <==>
           && !IsMissing(files, readable, extraFilesMissing, f, g.version, g.profile)
           && exists c :: c in g.sources && c in kinds && kinds[c] == Complete && f in imports[c]))
  }

  /** What the files compiled completely import besides each other. */
  method CollectImported(sources: set<Path>, complete: set<Path>, imports: map<Path, set<Path>>)
    returns (optimized: set<Path>)
    requires complete <= sources <= imports.Keys
    ensures forall i :: i in optimized <==> i !in complete && IsImported(complete, imports, i)
  {
    optimized := {};
    var todo := complete;
    while todo != {}
      invariant todo <= complete
      invariant forall i :: i in optimized <==> i !in complete && IsImported(complete - todo, imports, i)
      decreases todo
    {
      var source :| source in todo;
      ghost var done := complete - todo;
      todo := todo - {source};
      optimized := optimized + (imports[source] - complete);
      assert complete - todo == done + {source};
      forall i
        ensures IsImported(done + {source}, imports, i) <==> IsImported(done, imports, i) || i in imports[source]
      {
        ImportedByOneMore(done, imports, source, i);
      }
      hide IsImported;
    }
    assert complete - {} == complete;
  }

  lemma ImportedByOneMore(importing: set<Path>, imports: map<Path, set<Path>>, c: Path, i: Path)
    requires c in imports
    ensures IsImported(importing + {c}, imports, i) <==> IsImported(importing, imports, i) || i in imports[c]
  {
    if i in imports[c] { assert c in importing + {c}; }
  }

  lemma CollectedIsKinds(kinds: map<Path, SourceCompilationKind>, sources: set<Path>, complete: set<Path>,
                         optimized: set<Path>, imports: map<Path, set<Path>>)
    requires forall i :: i in optimized <==> i !in complete && IsImported(complete, imports, i)
    requires forall f :: f in kinds <==> f in sources && (f in complete || f in optimized)
    requires forall f :: f in kinds ==> kinds[f] == if f in complete then Complete else Optimized
    ensures kinds == Kinds(sources, complete, imports)
  {
    hide IsImported;
  }

  lemma KindsAreJudged(files: Files, readable: set<(Path, ArtifactKey)>, extraFilesMissing: bool, g: Group,
                       imports: map<Path, set<Path>>)
    requires g.sources <= imports.Keys
    ensures Judges(Kinds(g.sources, CompleteSources(files, readable, extraFilesMissing, g), imports),
                   files, readable, extraFilesMissing, g, imports)
  {
    hide IsMissing;
    var complete := CompleteSources(files, readable, extraFilesMissing, g);
    var kinds := Kinds(g.sources, complete, imports);
    assert forall f :: f in complete <==> f in g.sources && f in kinds && kinds[f] == Complete;
    forall f | f in g.sources && f !in complete
      ensures IsImported(complete, imports, f) <==>
              exists c :: c in g.sources && c in kinds && kinds[c] == Complete && f in imports[c]
    {
      if IsImported(complete, imports, f) {
        var c :| c in complete && c in imports && f in imports[c];
        assert c in g.sources && c in kinds && kinds[c] == Complete;
      }
    }
  }

  /** There is only one answer like that. */
  lemma JudgedIsKinds(kinds: map<Path, SourceCompilationKind>, files: Files, readable: set<(Path, ArtifactKey)>,
                      extraFilesMissing: bool, g: Group, imports: map<Path, set<Path>>)
    requires g.sources <= imports.Keys && Judges(kinds, files, readable, extraFilesMissing, g, imports)
    ensures kinds == Kinds(g.sources, CompleteSources(files, readable, extraFilesMissing, g), imports)
  {
    hide IsMissing;
    var complete := CompleteSources(files, readable, extraFilesMissing, g);
    assert forall f :: f in complete <==> f in g.sources && f in kinds && kinds[f] == Complete;
    forall f | f in g.sources && f !in complete
      ensures f in kinds && kinds[f] == Optimized <==> IsImported(complete, imports, f)
    {
      if IsImported(complete, imports, f) {
        var c :| c in complete && c in imports && f in imports[c];
        assert c in g.sources && c in kinds && kinds[c] == Complete;
      }
    }
  }

  lemma ScopeGrows(sources: set<Path>, todo: set<Path>, file: Path, v: Version)
    requires file in todo && todo <= sources
    ensures InScopeAt(sources - (todo - {file}), v) == InScopeAt(sources - todo, v) + {(file, v)}
    ensures InScopeAt(sources - sources, v) == {}
  {
    assert sources - (todo - {file}) == sources - todo + {file};
  }

  lemma EntriesGrow(t: Toolchain, files: Files, disk: Disk, sources: set<Path>, todo: set<Path>, file: Path)
    requires sources <= disk.Keys && file in todo && todo <= sources
    ensures var now := WithEntries(t, files, disk, sources - todo);
            && (file in now <==> file in files) && (file in files ==> now[file] == files[file])
            && WithEntries(t, files, disk, sources - (todo - {file})) ==
               if file in files then now else now[file := NewEntry(t, disk[file])]
    ensures WithEntries(t, files, disk, sources - sources) == files
  {
    hide NewEntry;
    assert sources - (todo - {file}) == sources - todo + {file} && sources - sources == {};
  }

  lemma VerdictUnchanged(before: Files, files: Files, readable: set<(Path, ArtifactKey)>, extraFilesMissing: bool,
                         f: Path, g: Group)
    requires (f in files <==> f in before) && (f in before ==> files[f] == before[f])
    ensures IsMissing(files, readable, extraFilesMissing, f, g.version, g.profile) <==>
            IsMissing(before, readable, extraFilesMissing, f, g.version, g.profile)
  {
  }

  /** Creating entries changes nobody's verdict, so the order in which groups are filtered does not matter. */
  lemma FilterOrderIrrelevant(t: Toolchain, files: Files, disk: Disk, sources: set<Path>,
                              readable: set<(Path, ArtifactKey)>, extraFilesMissing: bool, g: Group)
    requires sources <= disk.Keys
    ensures CompleteSources(WithEntries(t, files, disk, sources), readable, extraFilesMissing, g) ==
            CompleteSources(files, readable, extraFilesMissing, g)
  {
    var more := WithEntries(t, files, disk, sources);
    forall f ensures IsMissing(more, readable, extraFilesMissing, f, g.version, g.profile) <==>
                     IsMissing(files, readable, extraFilesMissing, f, g.version, g.profile)
    {
      if f in files { assert more[f] == files[f]; }
    }
  }

  /** The compiler is given the whole import closure of everything it compiles completely. */
  lemma FilterKeepsClosures(t: Toolchain, disk: Disk, kinds: map<Path, SourceCompilationKind>, files: Files,
                            readable: set<(Path, ArtifactKey)>, extraFilesMissing: bool, g: Group,
                            imports: map<Path, set<Path>>, f: Path)
    requires ScopeClosed(t, disk, g.sources) && g.sources <= imports.Keys
    requires forall c, x :: c in g.sources && x != c ==> (x in imports[c] <==> Reaches(ImportGraph(t, disk), c, x))
    requires Judges(kinds, files, readable, extraFilesMissing, g, imports) && f in kinds && kinds[f] == Complete
    ensures ImportClosure(t, disk, f).Keys <= kinds.Keys
  {
    hide IsMissing;
    forall x | x in ImportClosure(t, disk, f) ensures x in kinds {
      StaysInside(ImportGraph(t, disk), g.sources, f, x);
      if x != f { assert x in imports[f]; }
    }
  }

  /** A file is reached over importers from a marked file exactly when its closure is not clean. */
  lemma DirtyExactly(t: Toolchain, files: Files, disk: Disk, nodes: set<Path>, importers: Graph<Path>,
                     marked: set<Path>, f: Path)
    requires forall x :: x in nodes <==> ReachedFrom(ImportGraph(t, disk), files.Keys * disk.Keys, x)
    requires ImportersOf(ImportGraph(t, disk), nodes, importers) && nodes <= disk.Keys
    requires marked == (files.Keys - disk.Keys) + set x | x in nodes && !Clean(t, files, disk, x)
    requires f in files
    ensures ReachedFrom(importers, marked, f) <==> !Survives(t, files, disk, f)
  {
    var g := ImportGraph(t, disk);
    if f !in disk {
      ReachesItself(importers, f);
    } else {
      RootsAreReached(g, files.Keys * disk.Keys);
      if ReachedFrom(importers, marked, f) {
        var d :| d in marked && Reaches(importers, d, f);
        ImportersLeadBack(g, nodes, importers, d, f);
        assert d in nodes by { if d !in nodes { NowhereFrom(importers, d, f); } }
        assert !Clean(t, files, disk, d);
      }
      if !Survives(t, files, disk, f) {
        var x :| Reaches(g, f, x) && !Clean(t, files, disk, x);
        ReachedOnward(g, files.Keys * disk.Keys, f, x);
        ImportsLeadBack(g, nodes, importers, files.Keys * disk.Keys, f, x);
      }
    }
  }

  /** A file without an entry is marked exactly when some readable cached file imports it. */
  lemma UncachedDirtyExactly(t: Toolchain, files: Files, disk: Disk, nodes: set<Path>, importers: Graph<Path>,
                             marked: set<Path>, f: Path)
    requires forall x :: x in nodes <==> ReachedFrom(ImportGraph(t, disk), files.Keys * disk.Keys, x)
    requires ImportersOf(ImportGraph(t, disk), nodes, importers) && nodes <= disk.Keys
    requires marked == (files.Keys - disk.Keys) + set x | x in nodes && !Clean(t, files, disk, x)
    requires f !in files
    ensures ReachedFrom(importers, marked, f) <==> ReachedFrom(ImportGraph(t, disk), files.Keys * disk.Keys, f)
  {
    if f in nodes {
      ReachesItself(importers, f);
      assert f in marked;
    } else if ReachedFrom(importers, marked, f) {
      var d :| d in marked && Reaches(importers, d, f);
      if d in nodes { StaysInside(importers, nodes, d, f); }
      else { NowhereFrom(importers, d, f); }
    }
  }

  lemma NowhereFrom(g: Graph<Path>, a: Path, b: Path)
    requires a !in g && Reaches(g, a, b)
    ensures a == b
  {
    StaysInside(g, {a}, a, b);
  }

  lemma ImportersLeadBack(g: Graph<Path>, nodes: set<Path>, importers: Graph<Path>, d: Path, f: Path)
    requires ImportersOf(g, nodes, importers) && Reaches(importers, d, f)
    ensures Reaches(g, f, d)
  {
    var leads := x => Reaches(g, x, d);
    ReachesItself(g, d);
    forall x, y | leads(x) && Edge(importers, x, y) ensures leads(y) { ReachesFirst(g, y, x, d); }
    AlongPaths(importers, d, f, leads);
  }

  lemma ImportsLeadBack(g: Graph<Path>, nodes: set<Path>, importers: Graph<Path>, roots: set<Path>, f: Path, x: Path)
    requires ImportersOf(g, nodes, importers) && Reaches(g, f, x) && f in nodes
    requires forall y :: y in nodes <==> ReachedFrom(g, roots, y)
    ensures Reaches(importers, x, f)
  {
    var leads := y => y in nodes && Reaches(importers, y, f);
    ReachesItself(importers, f);
    forall y, z | leads(y) && Edge(g, y, z) ensures leads(z) {
      ReachesItself(g, y);
      ReachesOnward(g, y, y, z);
      ReachedOnward(g, roots, y, z);
      ReachesFirst(importers, z, y, f);
    }
    AlongPaths(g, f, x, leads);
  }
}
