/**
 Concrete histories in which reuse is not recompilation: an artifact that no source
 produces any more is handed on, one that a source does produce is not, an entry outlives
 a file that its source imports, and a source is compiled again though nothing changed.
 */
module CacheExamples {
  import opened Reachability
  import opened CacheModel
  import opened CacheSoundness
  import opened CacheRuns
  import opened CacheOutput
  import opened CacheIdle

  const FILE: Path := 1
  const OLD_NAME: Name := 5
  const NEW_NAME: Name := 6

  function Imports(x: Path, c: Content): set<Path> { {} }
  function Same(c: Content): Hash { c }
  function Equal(s: Settings, u: Settings): bool { s == u }

  /** The file's contract is called one thing for contents 10 and another for any other contents. */
  function Contracts(f: Path, d: Disk, v: Version, s: Settings): map<Name, Artifact> {
    if f in d && d[f] == 10 then map[OLD_NAME := 100] else map[NEW_NAME := 200]
  }

  const TOOLS := Toolchain(Imports, Same, Contracts, Equal)

  /** One file, one group, one profile; the file's contents and the settings vary. */
  function OneFile(content: Content, settings: Settings, readable: set<(Path, ArtifactKey)>,
                   output: map<Name, Artifact>, id: BuildId): Build {
    Build(map[FILE := content], map[0 := settings], [Group(0, 0, {FILE})], map[FILE := {}], false, true, readable,
          false, [Compiled(FILE, 0, 0, output, id)], {id}, true)
  }

  const OLD_KEY := ArtifactKey(OLD_NAME, 0, 0)
  const FIRST := OneFile(10, 0, {}, map[OLD_NAME := 100], 1)
  /** The contract was renamed and the settings changed in between. */
  const SECOND := OneFile(11, 1, {(FILE, OLD_KEY)}, map[NEW_NAME := 200], 2)

  lemma ClosureOfOne(b: Build)
    requires b.disk.Keys == {FILE}
    ensures ImportClosure(TOOLS, b.disk, FILE) == b.disk
  {
    ReachesItself(ImportGraph(TOOLS, b.disk), FILE);
  }

  lemma OneScope(content: Content, settings: Settings, readable: set<(Path, ArtifactKey)>, output: map<Name, Artifact>,
                 id: BuildId)
    ensures var b := OneFile(content, settings, readable, output, id);
            InScope(b.groups) == {FILE} && Scope(b.groups) == {(FILE, 0)} && !Unresolved(TOOLS, b)
  {
    var b := OneFile(content, settings, readable, output, id);
    var g := Group(0, 0, {FILE});
    assert b.groups == [g] && g in b.groups && FILE in g.sources;
    assert forall h :: h in b.groups <==> h == g;
  }

  /** A compilation over a cache that is empty once the profiles were updated. */
  lemma Afresh(content: Content, settings: Settings, readable: set<(Path, ArtifactKey)>, id: BuildId, c: CompilerCache)
    requires UpdateProfiles(TOOLS, c, map[0 := settings]).files == map[]
    ensures var b := OneFile(content, settings, readable, Contracts(FILE, map[FILE := content], 0, settings), id);
            && Possible(TOOLS, b, c) && Successful(TOOLS, b, c)
            && Filtered(TOOLS, b, c).files == map[FILE := NewEntry(TOOLS, content)]
            && DirtyFiles(TOOLS, b, c) == {}
  {
    var output := Contracts(FILE, map[FILE := content], 0, settings);
    var b := OneFile(content, settings, readable, output, id);
    OneScope(content, settings, readable, output, id);
    assert Start(TOOLS, b, c) == c && Prepared(TOOLS, b, c).files == map[];
    assert Filtered(TOOLS, b, c).files == map[FILE := NewEntry(TOOLS, content)];
    AfreshPossible(content, settings, readable, id, c);
  }

  lemma AfreshPossible(content: Content, settings: Settings, readable: set<(Path, ArtifactKey)>, id: BuildId,
                       c: CompilerCache)
    requires var b := OneFile(content, settings, readable, Contracts(FILE, map[FILE := content], 0, settings), id);
             && InScope(b.groups) == {FILE} && !Unresolved(TOOLS, b)
             && Filtered(TOOLS, b, c).files == map[FILE := NewEntry(TOOLS, content)]
    ensures var b := OneFile(content, settings, readable, Contracts(FILE, map[FILE := content], 0, settings), id);
            Possible(TOOLS, b, c) && Successful(TOOLS, b, c)
  {
    var b := OneFile(content, settings, readable, Contracts(FILE, map[FILE := content], 0, settings), id);
    hide Filtered, Unresolved, InScope, IsComplete, NewEntry;
    var g, w := b.groups[0], b.compiled[0];
    assert forall h :: h in b.groups <==> h == g;
    NewIsMissing(TOOLS, content, readable, g.version, g.profile);
    CompleteIsMissing(TOOLS, b, c, g, FILE);
    assert Requested(TOOLS, b, c, w);
    ClosureOfOne(b);
    hide Requested, ImportClosure, IsMissing;
    assert Faithful(TOOLS, b.disk, b.profiles, w);
    assert IsFor(w, FILE, 0, 0);
  }

  /** A file that is new in the cache misses its artifacts. */
  lemma NewIsMissing(t: Toolchain, content: Content, readable: set<(Path, ArtifactKey)>, v: Version, p: Profile)
    ensures IsMissing(map[FILE := NewEntry(t, content)], readable, false, FILE, v, p)
  {
  }

  lemma ToolsAreTrustworthy()
    ensures Trustworthy(TOOLS) && ContentDecidesEmptiness(TOOLS)
  {
  }

  /** After the first compilation the only entry holds the old artifact. */
  lemma FirstCache()
    ensures Possible(TOOLS, FIRST, EmptyCache) && InScope(FIRST.groups) <= FIRST.disk.Keys
    ensures var c := After(TOOLS, FIRST, EmptyCache);
            && c.files == map[FILE := CacheEntry(10, map[OLD_KEY := CachedArtifact(100, 1)], true)] &&
              c.profiles == map[0 := 0]
  {
    Afresh(10, 0, {}, 1, EmptyCache);
    OneScope(10, 0, {}, FIRST.compiled[0].output, 1);
    FirstRecord();
    hide Possible, Successful, Filtered, DirtyFiles;
  }

  lemma FirstRecord()
    requires InScope(FIRST.groups) == {FILE} && !Unresolved(TOOLS, FIRST)
    requires Filtered(TOOLS, FIRST, EmptyCache).files == map[FILE := NewEntry(TOOLS, 10)]
    ensures var c := After(TOOLS, FIRST, EmptyCache);
            && c.files == map[FILE := CacheEntry(10, map[OLD_KEY := CachedArtifact(100, 1)], true)]
            && c.profiles == map[0 := 0]
  {
    var w, files := FIRST.compiled[0], map[FILE := NewEntry(TOOLS, 10)];
    assert FIRST.compiled[1..] == [] && RecordAll(Record(files, w), []) == Record(files, w);
    assert KeysOf(w) == map[OLD_KEY := CachedArtifact(100, 1)] by { assert OLD_KEY in KeysOf(w); }
    assert Start(TOOLS, FIRST, EmptyCache) == EmptyCache;
    assert NewEntry(TOOLS, 10) == CacheEntry(10, map[], false) by { assert Same(10) == 10; }
    hide Unresolved, InScope, KeysOf;
    var c := After(TOOLS, FIRST, EmptyCache);
    assert c.files == Record(files, w);
    assert c.files.Keys == {FILE} && c.files[FILE].artifacts == map[] + KeysOf(w);
    assert c.files[FILE] == CacheEntry(10, map[OLD_KEY := CachedArtifact(100, 1)], true);
  }

  lemma HistoryOfFirst()
    requires Possible(TOOLS, FIRST, EmptyCache)
    ensures IsHistory(TOOLS, EmptyCache, [FIRST])
    ensures CacheAfter(TOOLS, EmptyCache, [FIRST]) == After(TOOLS, FIRST, EmptyCache)
  {
    var c := After(TOOLS, FIRST, EmptyCache);
    hide Possible, After;
    assert [FIRST][1..] == [] && IsHistory(TOOLS, c, []) && CacheAfter(TOOLS, c, []) == c;
  }

  lemma OldEntryIsDropped(c: CompilerCache)
    requires c.files.Keys == {FILE} && c.files[FILE].artifacts == map[OLD_KEY := CachedArtifact(100, 1)]
    requires c.profiles == map[0 := 0]
    ensures UpdateProfiles(TOOLS, c, map[0 := 1]).files == map[]
  {
    var dirty := DirtyProfiles(TOOLS, c.profiles, map[0 := 1]);
    assert !TOOLS.canUseCached(1, 0) by { assert !Equal(1, 0); }
    assert 0 in dirty;
    assert OLD_KEY in c.files[FILE].artifacts;
    assert WithoutProfiles(c.files[FILE].artifacts, dirty) == map[];
    assert !IsKept(c.files[FILE], dirty);
  }

  /** The file is not found dirty and its old contract is not written, so the old artifact is kept. */
  lemma OldArtifactIsKept(c: CompilerCache)
    requires FILE in c.files && c.files[FILE].artifacts == map[OLD_KEY := CachedArtifact(100, 1)]
    requires InScope(SECOND.groups) <= SECOND.disk.Keys && Start(TOOLS, SECOND, c) == c &&
             DirtyFiles(TOOLS, SECOND, c) == {}
    requires Scope(SECOND.groups) == {(FILE, 0)}
    ensures (FILE, OLD_KEY) in Output(TOOLS, SECOND, c)
  {
    assert (FILE, OLD_KEY) in ReadBack(TOOLS, SECOND, c);
    assert !IsWritten(SECOND.compiled, FILE, OLD_NAME, 0);
  }

  /**
   The second compilation hands on the old contract's artifact, though compiling the file
   anew gives the new contract only: updating the profiles dropped the entry before its
   file could be found dirty.
   */
  lemma StaleArtifactIsHandedOn()
    ensures Trustworthy(TOOLS) && ContentDecidesEmptiness(TOOLS) && IsHistory(TOOLS, EmptyCache, [FIRST])
    ensures var c := CacheAfter(TOOLS, EmptyCache, [FIRST]);
            && Possible(TOOLS, SECOND, c) && Successful(TOOLS, SECOND, c) && OneProfile(SECOND, 0)
            && (FILE, OLD_KEY) in Output(TOOLS, SECOND, c)
            && OLD_NAME !in Recompiled(TOOLS, SECOND, Group(0, 0, {FILE}), FILE)
  {
    hide *;
    ToolsAreTrustworthy();
    FirstCache();
    HistoryOfFirst();
    var c := After(TOOLS, FIRST, EmptyCache);
    SecondStep(c);
  }

  lemma SecondStep(c: CompilerCache)
    requires c.files == map[FILE := CacheEntry(10, map[OLD_KEY := CachedArtifact(100, 1)], true)] &&
             c.profiles == map[0 := 0]
    ensures Possible(TOOLS, SECOND, c) && Successful(TOOLS, SECOND, c) && OneProfile(SECOND, 0)
    ensures (FILE, OLD_KEY) in Output(TOOLS, SECOND, c)
    ensures OLD_NAME !in Recompiled(TOOLS, SECOND, Group(0, 0, {FILE}), FILE)
  {
    OldEntryIsDropped(c);
    Afresh(11, 1, SECOND.readable, 2, c);
    OneScope(11, 1, SECOND.readable, SECOND.compiled[0].output, 2);
    ClosureOfOne(SECOND);
    hide Possible, Successful, Filtered, DirtyFiles, Output, Unresolved, InScope, Scope, ImportClosure;
    OldArtifactIsKept(c);
  }

  // ---------- Several profiles ----------

  const OLD_GROUP := Group(0, 0, {FILE})
  const NEW_GROUP := Group(0, 1, {FILE})

  /** A second profile with the same settings is added; nothing else changed, so only it is compiled. */
  const THIRD := Build(map[FILE := 10], map[0 := 0, 1 := 0], [OLD_GROUP, NEW_GROUP], map[FILE := {}], false, true,
                       {(FILE, OLD_KEY)}, false, [Compiled(FILE, 0, 1, map[OLD_NAME := 100], 3)], {3}, true)

  lemma ThirdScope()
    ensures InScope(THIRD.groups) == {FILE} && !Unresolved(TOOLS, THIRD)
  {
    assert THIRD.groups[0] == OLD_GROUP && THIRD.groups[1] == NEW_GROUP;
    assert OLD_GROUP in THIRD.groups && FILE in OLD_GROUP.sources;
    assert forall h :: h in THIRD.groups <==> h == OLD_GROUP || h == NEW_GROUP;
  }

  lemma ThirdKeepsEntry(c: CompilerCache)
    requires c.files == map[FILE := CacheEntry(10, map[OLD_KEY := CachedArtifact(100, 1)], true)] &&
             c.profiles == map[0 := 0]
    ensures InScope(THIRD.groups) <= THIRD.disk.Keys && Filtered(TOOLS, THIRD, c).files == c.files
  {
    ThirdScope();
    hide Unresolved, InScope;
    assert Start(TOOLS, THIRD, c) == c;
    assert TOOLS.canUseCached(0, 0) by { assert Equal(0, 0); }
    assert DirtyProfiles(TOOLS, c.profiles, THIRD.profiles) == {};
    assert WithoutProfiles(c.files[FILE].artifacts, {}) == c.files[FILE].artifacts;
    assert OLD_KEY in c.files[FILE].artifacts;
    assert UpdateProfiles(TOOLS, c, THIRD.profiles).files == c.files;
    OnlyItself(THIRD.disk);
    assert Clean(TOOLS, c.files, THIRD.disk, FILE) by { assert Same(10) == 10; }
    assert Survives(TOOLS, c.files, THIRD.disk, FILE);
    assert Survivors(TOOLS, c.files, THIRD.disk) == c.files;
  }

  lemma OnlyItself(disk: Disk)
    ensures forall x :: Reaches(ImportGraph(TOOLS, disk), FILE, x) ==> x == FILE
  {
    forall x | Reaches(ImportGraph(TOOLS, disk), FILE, x) ensures x == FILE {
      StaysInside(ImportGraph(TOOLS, disk), {FILE}, FILE, x);
    }
  }

  lemma ThirdVerdicts(c: CompilerCache)
    requires c.files == map[FILE := CacheEntry(10, map[OLD_KEY := CachedArtifact(100, 1)], true)]
    requires InScope(THIRD.groups) <= THIRD.disk.Keys && Filtered(TOOLS, THIRD, c).files == c.files
    ensures FILE !in Missing(TOOLS, THIRD, c, OLD_GROUP) && FILE in Missing(TOOLS, THIRD, c, NEW_GROUP)
    ensures Possible(TOOLS, THIRD, c) && Successful(TOOLS, THIRD, c)
  {
    hide Filtered;
    assert OLD_KEY in c.files[FILE].artifacts;
    assert Contains(c.files[FILE], 0, 0) && !Contains(c.files[FILE], 0, 1);
    assert THIRD.groups[1] == NEW_GROUP && forall h :: h in THIRD.groups <==> h == OLD_GROUP || h == NEW_GROUP;
    CompleteIsMissing(TOOLS, THIRD, c, OLD_GROUP, FILE);
    CompleteIsMissing(TOOLS, THIRD, c, NEW_GROUP, FILE);
    var w := THIRD.compiled[0];
    assert Requested(TOOLS, THIRD, c, w);
    ClosureOfOne(THIRD);
    assert Faithful(TOOLS, THIRD.disk, THIRD.profiles, w);
    assert IsFor(w, FILE, 0, 1);
  }

  /**
   The artifact of the old profile is neither written nor kept, though it is up to date:
   what was written under the new profile has the same file, name and version.
   */
  lemma ArtifactIsLost()
    ensures Reached(TOOLS, [FIRST], THIRD) && OLD_GROUP in THIRD.groups
    ensures var c := CacheAfter(TOOLS, EmptyCache, [FIRST]);
            && OLD_NAME in Recompiled(TOOLS, THIRD, OLD_GROUP, FILE)
            && (FILE, OLD_KEY) !in Output(TOOLS, THIRD, c)
  {
    ToolsAreTrustworthy();
    FirstCache();
    HistoryOfFirst();
    var c := After(TOOLS, FIRST, EmptyCache);
    ThirdKeepsEntry(c);
    hide After, Filtered, Possible, Successful, Output, IsHistory, CacheAfter, Trustworthy, ContentDecidesEmptiness;
    hide Missing, Recompiled;
    ThirdVerdicts(c);
    ThirdOutput();
    RewrittenIsLost(TOOLS, THIRD, c, OLD_GROUP, FILE, OLD_NAME);
  }

  lemma ThirdOutput()
    ensures ContentDecidesNames(TOOLS) && OLD_GROUP in THIRD.groups && NEW_GROUP in THIRD.groups
    ensures OLD_NAME in Recompiled(TOOLS, THIRD, OLD_GROUP, FILE)
  {
    assert THIRD.groups[0] == OLD_GROUP && THIRD.groups[1] == NEW_GROUP;
    ClosureOfOne(THIRD);
  }

  // ---------- A deleted import ----------

  const LIBRARY: Path := 2

  function ImportsLibrary(x: Path, c: Content): set<Path> {
    if x == FILE then {LIBRARY} else {}
  }

  /** What the file compiles to depends on whether the library is there. */
  function UsesLibrary(f: Path, d: Disk, v: Version, s: Settings): map<Name, Artifact> {
    if f != FILE then map[] else if LIBRARY in d then map[OLD_NAME := 100] else map[OLD_NAME := 200]
  }

  const LINKED := Toolchain(ImportsLibrary, Same, UsesLibrary, Equal)

  const BOTH := Build(map[FILE := 10, LIBRARY := 20], map[0 := 0], [Group(0, 0, {FILE, LIBRARY})],
                      map[FILE := {LIBRARY}, LIBRARY := {}], false, true, {}, false,
                      [Compiled(FILE, 0, 0, map[OLD_NAME := 100], 1)], {1}, true)

  /** The library was deleted; nothing is in scope of this compilation. */
  const GONE := Build(map[FILE := 10], map[0 := 0], [], map[], false, true, {}, false, [], {}, true)

  const BOTH_CACHED: Files := map[FILE := CacheEntry(10, map[OLD_KEY := CachedArtifact(100, 1)], true),
                                  LIBRARY := CacheEntry(20, map[], false)]

  lemma LinkedIsTrustworthy()
    ensures Trustworthy(LINKED)
  {
  }

  lemma BothScope()
    ensures InScope(BOTH.groups) == {FILE, LIBRARY} && !Unresolved(LINKED, BOTH)
    ensures ScopeClosed(LINKED, BOTH.disk, BOTH.groups[0].sources)
  {
    var g := BOTH.groups[0];
    assert g in BOTH.groups && FILE in g.sources && LIBRARY in g.sources;
    assert forall h :: h in BOTH.groups <==> h == g;
  }

  lemma BothClosure()
    ensures LIBRARY in ImportClosure(LINKED, BOTH.disk, FILE)
  {
    var g := ImportGraph(LINKED, BOTH.disk);
    assert Edge(g, FILE, LIBRARY);
    ReachesItself(g, FILE);
    ReachesOnward(g, FILE, FILE, LIBRARY);
  }

  lemma BothFiltered()
    ensures InScope(BOTH.groups) <= BOTH.disk.Keys
    ensures Filtered(LINKED, BOTH, EmptyCache).files ==
            map[FILE := CacheEntry(10, map[], false), LIBRARY := CacheEntry(20, map[], false)]
    ensures Filtered(LINKED, BOTH, EmptyCache).profiles == map[0 := 0]
  {
    BothScope();
    hide Unresolved, InScope;
    assert Start(LINKED, BOTH, EmptyCache) == EmptyCache;
    assert Prepared(LINKED, BOTH, EmptyCache).files.Keys == {};
    assert Same(10) == 10 && Same(20) == 20;
    assert NewEntry(LINKED, 10) == CacheEntry(10, map[], false) && NewEntry(LINKED, 20) == CacheEntry(20, map[], false);
  }

  lemma BothPossible()
    ensures Possible(LINKED, BOTH, EmptyCache)
  {
    BothScope();
    BothFiltered();
    BothClosure();
    hide Filtered, InScope, Unresolved, ImportClosure;
    var g, w := BOTH.groups[0], BOTH.compiled[0];
    CompleteIsMissing(LINKED, BOTH, EmptyCache, g, FILE);
    assert Requested(LINKED, BOTH, EmptyCache, w);
    assert Faithful(LINKED, BOTH.disk, BOTH.profiles, w);
  }

  lemma BothRecorded()
    ensures InScope(BOTH.groups) <= BOTH.disk.Keys
    ensures After(LINKED, BOTH, EmptyCache).files == BOTH_CACHED &&
            After(LINKED, BOTH, EmptyCache).profiles == map[0 := 0]
  {
    BothFiltered();
    hide Filtered, InScope;
    var w, files := BOTH.compiled[0], Filtered(LINKED, BOTH, EmptyCache).files;
    assert BOTH.compiled[1..] == [] && RecordAll(Record(files, w), []) == Record(files, w);
    assert KeysOf(w) == map[OLD_KEY := CachedArtifact(100, 1)] by { assert OLD_KEY in KeysOf(w); }
    hide KeysOf;
    assert Record(files, w)[FILE] == CacheEntry(10, map[OLD_KEY := CachedArtifact(100, 1)], true);
  }

  lemma GoneKeepsEntry(c: CompilerCache)
    requires c.files == BOTH_CACHED && c.profiles == map[0 := 0]
    ensures Possible(LINKED, GONE, c)
    ensures FILE in Prepared(LINKED, GONE, c).files && Prepared(LINKED, GONE, c).files[FILE] == BOTH_CACHED[FILE]
  {
    assert Start(LINKED, GONE, c) == c;
    assert LINKED.canUseCached(0, 0) by { assert Equal(0, 0); }
    assert DirtyProfiles(LINKED, c.profiles, GONE.profiles) == {};
    assert OLD_KEY in c.files[FILE].artifacts;
    var pruned := UpdateProfiles(LINKED, c, GONE.profiles).files;
    assert pruned[FILE] == c.files[FILE] by {
      assert WithoutProfiles(c.files[FILE].artifacts, {}) == c.files[FILE].artifacts;
    }
    GoneIsClean(pruned);
  }

  lemma GoneIsClean(files: Files)
    requires FILE in files && files[FILE].contentHash == 10
    ensures Survives(LINKED, files, GONE.disk, FILE)
  {
    var g := ImportGraph(LINKED, GONE.disk);
    forall x | Reaches(g, FILE, x) ensures x == FILE { StaysInside(g, {FILE}, FILE, x); }
    assert Same(10) == 10;
  }

  /**
   Deleting a library leaves the entry of a file that imports it, since a file that is not
   there has no importers; the artifact is that of the closure with the library.
   */
  lemma DeletedImportLeavesEntry()
    ensures Trustworthy(LINKED) && IsHistory(LINKED, EmptyCache, [BOTH])
    ensures var c := CacheAfter(LINKED, EmptyCache, [BOTH]);
            && Possible(LINKED, GONE, c)
            && FILE in Prepared(LINKED, GONE, c).files && OLD_KEY in Prepared(LINKED, GONE, c).files[FILE].artifacts
            && !HasOutput(LINKED, GONE, Prepared(LINKED, GONE, c).files, FILE, 0, 0)
  {
    hide *;
    LinkedIsTrustworthy();
    BothPossible();
    BothRecorded();
    HistoryOfBoth();
    var c := After(LINKED, BOTH, EmptyCache);
    GoneKeepsEntry(c);
    GoneIsNotRecompiled(Prepared(LINKED, GONE, c).files);
  }

  lemma HistoryOfBoth()
    requires Possible(LINKED, BOTH, EmptyCache)
    ensures IsHistory(LINKED, EmptyCache, [BOTH])
    ensures CacheAfter(LINKED, EmptyCache, [BOTH]) == After(LINKED, BOTH, EmptyCache)
  {
    var c := After(LINKED, BOTH, EmptyCache);
    hide Possible, After;
    assert [BOTH][1..] == [] && IsHistory(LINKED, c, []) && CacheAfter(LINKED, c, []) == c;
  }

  lemma GoneIsNotRecompiled(files: Files)
    requires FILE in files && files[FILE] == BOTH_CACHED[FILE]
    ensures OLD_KEY in files[FILE].artifacts && !HasOutput(LINKED, GONE, files, FILE, 0, 0)
  {
    assert files[FILE].artifacts[OLD_KEY].artifact == 100;
    assert LINKED.compile(FILE, ImportClosure(LINKED, GONE.disk, FILE), 0, 0) ==
           map[OLD_NAME := 200] by { hide Reaches; }
    hide ImportClosure;
  }

  // ---------- Compiled again and again ----------

  /** The compiler of version 0 finds a contract in the file, no later one does. */
  function OldVersionOnly(f: Path, d: Disk, v: Version, s: Settings): map<Name, Artifact> {
    if v == 0 then map[OLD_NAME := 100] else map[]
  }

  const VERSIONED := Toolchain(Imports, Same, OldVersionOnly, Equal)
  const OLD_VERSION := Group(0, 0, {FILE})
  const NEW_VERSION := Group(1, 0, {FILE})

  const TWICE := Build(map[FILE := 10], map[0 := 0], [OLD_VERSION, NEW_VERSION], map[FILE := {}], false, true, {},
                       false, [Compiled(FILE, 0, 0, map[OLD_NAME := 100], 1), Compiled(FILE, 1, 0, map[], 1)], {1},
                       true)

  /** The same project, with the artifact read back. */
  const TWICE_AGAIN := TWICE.(readable := {(FILE, OLD_KEY)}, compiled := [])

  lemma TwiceScope()
    ensures InScope(TWICE.groups) == {FILE} && !Unresolved(VERSIONED, TWICE)
    ensures forall h :: h in TWICE.groups <==> h == OLD_VERSION || h == NEW_VERSION
  {
    assert TWICE.groups[0] == OLD_VERSION && TWICE.groups[1] == NEW_VERSION;
    assert OLD_VERSION in TWICE.groups && FILE in OLD_VERSION.sources;
    assert forall h :: h in TWICE.groups <==> h == OLD_VERSION || h == NEW_VERSION;
  }

  lemma TwiceFiltered()
    requires InScope(TWICE.groups) == {FILE} && !Unresolved(VERSIONED, TWICE)
    ensures Filtered(VERSIONED, TWICE, EmptyCache).files == map[FILE := NewEntry(VERSIONED, 10)]
  {
    assert Start(VERSIONED, TWICE, EmptyCache) == EmptyCache;
    assert Prepared(VERSIONED, TWICE, EmptyCache).files == map[] by { hide Survives, DirtyProfiles; }
    hide Prepared, NewEntry;
  }

  lemma TwicePossible()
    ensures Possible(VERSIONED, TWICE, EmptyCache) && Successful(VERSIONED, TWICE, EmptyCache)
  {
    hide Filtered, Unresolved, InScope, IsComplete, NewEntry, IsMissing;
    TwiceScope();
    TwiceFiltered();
    NewIsMissing(VERSIONED, 10, {}, 0, 0);
    NewIsMissing(VERSIONED, 10, {}, 1, 0);
    CompleteIsMissing(VERSIONED, TWICE, EmptyCache, OLD_VERSION, FILE);
    CompleteIsMissing(VERSIONED, TWICE, EmptyCache, NEW_VERSION, FILE);
    var old', new' := TWICE.compiled[0], TWICE.compiled[1];
    assert Requested(VERSIONED, TWICE, EmptyCache, old') && Requested(VERSIONED, TWICE, EmptyCache, new');
    hide Requested;
    assert Faithful(VERSIONED, TWICE.disk, TWICE.profiles, old') by { hide ImportClosure; }
    assert Faithful(VERSIONED, TWICE.disk, TWICE.profiles, new') by { hide ImportClosure; }
    assert IsFor(old', FILE, 0, 0) && IsFor(new', FILE, 1, 0);
  }

  /** The only artifact left is the one that the old version found. */
  lemma TwiceRecorded(files: Files)
    requires files == map[FILE := NewEntry(VERSIONED, 10)]
    ensures var d := RecordAll(files, TWICE.compiled);
            && d.Keys == {FILE} && forall k :: k in d[FILE].artifacts <==> k == OLD_KEY
  {
    hide RecordAll;
    assert Writes(TWICE.compiled[0], FILE, OLD_KEY);
    RecordAllKeeps(files, TWICE.compiled, FILE);
    RecordAllTakesIn(files, TWICE.compiled, FILE, 0);
    forall k | k != OLD_KEY ensures k !in RecordAll(files, TWICE.compiled)[FILE].artifacts {
      assert !Writes(TWICE.compiled[0], FILE, k) && !Writes(TWICE.compiled[1], FILE, k);
      RecordAllLeaves(files, TWICE.compiled, FILE, k);
    }
  }

  lemma TwiceUnchanged()
    requires InScope(TWICE.groups) <= TWICE.disk.Keys
    requires var files := After(VERSIONED, TWICE, EmptyCache).files;
             forall f, k :: f in files && k in files[f].artifacts ==> f == FILE && k == OLD_KEY
    ensures Unchanged(VERSIONED, TWICE, TWICE_AGAIN, After(VERSIONED, TWICE, EmptyCache))
    ensures Trustworthy(VERSIONED) && IsHistory(VERSIONED, EmptyCache, [])
    ensures CacheAfter(VERSIONED, EmptyCache, []) == EmptyCache
  {
    hide After, Possible;
    forall s ensures VERSIONED.canUseCached(s, s) { assert Equal(s, s); }
  }

  lemma NewVersionFindsNothing()
    ensures Recompiled(VERSIONED, TWICE, NEW_VERSION, FILE) == map[]
  {
    hide ImportClosure;
  }

  /** Nothing changed and everything can be read back, and still the file is compiled for the new version. */
  lemma CompiledAgainAndAgain()
    ensures Trustworthy(VERSIONED) && Possible(VERSIONED, TWICE, EmptyCache) && Successful(VERSIONED, TWICE, EmptyCache)
    ensures var c := After(VERSIONED, TWICE, EmptyCache);
            && Unchanged(VERSIONED, TWICE, TWICE_AGAIN, c)
            && InScope(TWICE_AGAIN.groups) <= TWICE_AGAIN.disk.Keys
            && IsComplete(VERSIONED, TWICE_AGAIN, c, NEW_VERSION, FILE)
  {
    TwiceScope();
    assert TWICE.saved && TWICE.disk.Keys == {FILE};
    assert FILE in NEW_VERSION.sources;
    TwiceFiltered();
    TwicePossible();
    assert After(VERSIONED, TWICE, EmptyCache).files ==
           RecordAll(Filtered(VERSIONED, TWICE, EmptyCache).files, TWICE.compiled);
    hide *;
    var d := After(VERSIONED, TWICE, EmptyCache);
    TwiceRecorded(Filtered(VERSIONED, TWICE, EmptyCache).files);
    TwiceUnchanged();
    NewVersionFindsNothing();
    assert OLD_KEY in d.files[FILE].artifacts;
    CompiledAgainExactly(VERSIONED, [], TWICE, TWICE_AGAIN, NEW_VERSION, FILE);
  }
}
