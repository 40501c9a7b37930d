/**
 The incremental compile cache (crates/compilers/crates/compilers/src/cache.rs): its
 entries, and what one project compilation does to them as functions on values.

 The nested artifact maps (name, version, profile) never hold an empty inner map, so they
 are one map keyed by the triple.
 */
module CacheModel {
  import opened Reachability

  type Path = nat
  type Content = nat
  type Hash = nat
  type Version = nat
  type Profile = nat
  type Settings = nat
  type Name = nat
  type Artifact = nat
  type BuildId = nat
  /** The readable files and what is in them. */
  type Disk = map<Path, Content>

  /**
   What the cache relies on and does not know: how imports resolve, the content hash, the
   compiler as a function of a file's import closure, and when settings are interchangeable.
   */
  datatype Toolchain = Toolchain(
    imports: (Path, Content) -> set<Path>,
    hash: Content -> Hash,
    compile: (Path, Disk, Version, Settings) -> map<Name, Artifact>,
    canUseCached: (Settings, Settings) -> bool)

  /** Distinct contents have distinct hashes, and interchangeable settings give equal outputs. */
  ghost predicate Trustworthy(t: Toolchain) {
    && (forall c, d :: t.hash(c) == t.hash(d) ==> c == d)
    && (forall s, u :: t.canUseCached(s, u) ==> forall f, c, v :: t.compile(f, c, v, s) == t.compile(f, c, v, u))
  }

  datatype ArtifactKey = ArtifactKey(name: Name, version: Version, profile: Profile)
  datatype CachedArtifact = CachedArtifact(artifact: Artifact, buildId: BuildId)
  datatype CacheEntry = CacheEntry(contentHash: Hash, artifacts: map<ArtifactKey, CachedArtifact>, seenByCompiler: bool)
  type Files = map<Path, CacheEntry>
  datatype CompilerCache = CompilerCache(files: Files, builds: set<BuildId>, profiles: map<Profile, Settings>)

  const EmptyCache := CompilerCache(map[], {}, map[])

  // ---------- Import graphs ----------

  /** The files on disk with their imports that are on disk too. */
  function ImportGraph(t: Toolchain, disk: Disk): Graph<Path> {
    map x | x in disk :: set b | b in t.imports(x, disk[x]) && b in disk
  }

  /** The contents a compilation of `f` reads. */
  ghost function ImportClosure(t: Toolchain, disk: Disk, f: Path): Disk {
    map x | x in disk && Reaches(ImportGraph(t, disk), f, x) :: disk[x]
  }

  /** Every import in the closure of `f` is on disk. */
  ghost predicate Resolved(t: Toolchain, disk: Disk, f: Path) {
    forall x, b :: x in ImportClosure(t, disk, f) && b in t.imports(x, disk[x]) ==> b in disk
  }

  /** Sources in scope are on disk, with the imports of theirs that are. */
  predicate ScopeClosed(t: Toolchain, disk: Disk, sources: set<Path>) {
    && sources <= disk.Keys
    && forall f :: f in sources ==> forall b :: b in t.imports(f, disk[f]) && b in disk ==> b in sources
  }

  // ---------- Profiles ----------

  function DirtyProfiles(t: Toolchain, cached: map<Profile, Settings>, project: map<Profile, Settings>): set<Profile> {
    set p | p in cached && !(p in project && t.canUseCached(project[p], cached[p]))
  }

  /** Cached settings that can be used stay; the project's other profiles are added. */
  function UpdatedProfiles(t: Toolchain, cached: map<Profile, Settings>, project: map<Profile, Settings>)
    : map<Profile, Settings>
  {
    project + (cached - DirtyProfiles(t, cached, project))
  }

  function WithoutProfiles(artifacts: map<ArtifactKey, CachedArtifact>, dirty: set<Profile>)
    : map<ArtifactKey, CachedArtifact>
  {
    map k | k in artifacts && k.profile !in dirty :: artifacts[k]
  }

  function PrunedEntry(e: CacheEntry, dirty: set<Profile>): CacheEntry {
    e.(artifacts := WithoutProfiles(e.artifacts, dirty))
  }

  /** Entries that had artifacts and lost all of them go; entries that never had any stay. */
  predicate IsKept(e: CacheEntry, dirty: set<Profile>) {
    e.artifacts == map[] || PrunedEntry(e, dirty).artifacts != map[]
  }

  function PrunedFiles(files: Files, dirty: set<Profile>): Files {
    map f | f in files && IsKept(files[f], dirty) :: PrunedEntry(files[f], dirty)
  }

  function UpdateProfiles(t: Toolchain, c: CompilerCache, project: map<Profile, Settings>): CompilerCache {
    c.(files := PrunedFiles(c.files, DirtyProfiles(t, c.profiles, project)),
       profiles := UpdatedProfiles(t, c.profiles, project))
  }

  /** Cached settings of `p` that the project cannot use: the profile is gone, or set differently. */
  predicate IsOutdated(t: Toolchain, cached: map<Profile, Settings>, project: map<Profile, Settings>, p: Profile) {
    p in cached && (p !in project || !t.canUseCached(project[p], cached[p]))
  }

  /**
   What updating the profiles means: artifacts go with the profiles whose settings cannot be
   used, entries go that lose all they had, and everything else stays as it was.
   */
  lemma PruningMeans(t: Toolchain, c: CompilerCache, project: map<Profile, Settings>, f: Path)
    ensures var d := UpdateProfiles(t, c, project);
            && (forall p :: p in d.profiles <==>
                  p in project || (p in c.profiles && !IsOutdated(t, c.profiles, project, p)))
            && (forall p :: p in d.profiles ==>
                  d.profiles[p] == if p in c.profiles && !IsOutdated(t, c.profiles, project, p) then c.profiles[p]
                                   else project[p])
            && (f in d.files <==>
                && f in c.files
                && (|| c.files[f].artifacts == map[]
                    || exists k :: k in c.files[f].artifacts && !IsOutdated(t, c.profiles, project, k.profile)))
            && (f in d.files ==>
                && d.files[f].contentHash == c.files[f].contentHash
                && d.files[f].seenByCompiler == c.files[f].seenByCompiler
                && (forall k :: k in d.files[f].artifacts <==>
                      k in c.files[f].artifacts && !IsOutdated(t, c.profiles, project, k.profile))
                && (forall k :: k in d.files[f].artifacts ==> d.files[f].artifacts[k] == c.files[f].artifacts[k]))
            && d.builds == c.builds
  {
    var dirty := DirtyProfiles(t, c.profiles, project);
    assert forall p :: p in dirty <==> IsOutdated(t, c.profiles, project, p);
    hide DirtyProfiles, IsOutdated;
    if f in c.files {
      var kept := PrunedEntry(c.files[f], dirty).artifacts;
      assert forall k :: k in kept <==> k in c.files[f].artifacts && k.profile !in dirty;
      assert kept != map[] <==> exists k :: k in kept;
    }
  }

  // ---------- Dirty sources ----------

  /** Cached with the hash of what is on disk. */
  predicate Clean(t: Toolchain, files: Files, disk: Disk, x: Path) {
    x in files && x in disk && files[x].contentHash == t.hash(disk[x])
  }

  /** A readable entry all of whose import closure is clean. */
  ghost predicate Survives(t: Toolchain, files: Files, disk: Disk, f: Path) {
    f in files && f in disk && forall x :: Reaches(ImportGraph(t, disk), f, x) ==> Clean(t, files, disk, x)
  }

  /**
   Everything marked dirty: entries that do not survive, and files without an entry that
   some readable cached file imports, directly or not.
   */
  ghost predicate IsDirtySource(t: Toolchain, files: Files, disk: Disk, f: Path) {
    if f in files then !Survives(t, files, disk, f)
    else f in disk && ReachedFrom(ImportGraph(t, disk), files.Keys * disk.Keys, f)
  }

  ghost function DirtySources(t: Toolchain, files: Files, disk: Disk): set<Path> {
    set f | f in files.Keys + disk.Keys && IsDirtySource(t, files, disk, f)
  }

  ghost function Survivors(t: Toolchain, files: Files, disk: Disk): Files {
    map f | f in files && Survives(t, files, disk, f) :: files[f]
  }

  // ---------- What to compile ----------

  /** Sources in scope of one compiler version and settings profile. */
  datatype Group = Group(version: Version, profile: Profile, sources: set<Path>)

  predicate Contains(e: CacheEntry, v: Version, p: Profile) {
    exists k :: k in e.artifacts && k.version == v && k.profile == p
  }

  /** `readable` are the cached artifacts whose files (and build infos) could be read back. */
  predicate IsMissing(files: Files, readable: set<(Path, ArtifactKey)>, extraFilesMissing: bool, f: Path, v: Version,
                      p: Profile) {
    if f !in files then true
    else if files[f].seenByCompiler && files[f].artifacts == map[] then false
    else
      || !Contains(files[f], v, p)
      || (exists k :: k in files[f].artifacts && k.version == v && (f, k) !in readable)
      || extraFilesMissing
  }

  function CompleteSources(files: Files, readable: set<(Path, ArtifactKey)>, extraFilesMissing: bool, g: Group)
    : set<Path>
  {
    set f | f in g.sources && IsMissing(files, readable, extraFilesMissing, f, g.version, g.profile)
  }

  datatype SourceCompilationKind = Complete | Optimized

  /** Some file of `importing` imports `i`, directly or not. */
  predicate IsImported(importing: set<Path>, imports: map<Path, set<Path>>, i: Path) {
    exists c :: c in importing && c in imports && i in imports[c]
  }

  /** How each source is compiled; the others are left out. */
  function Kinds(sources: set<Path>, complete: set<Path>, imports: map<Path, set<Path>>)
    : map<Path, SourceCompilationKind>
  {
    map f | f in sources && (f in complete || IsImported(complete, imports, f)) ::
      if f in complete then Complete else Optimized
  }

  function InScopeAt(sources: set<Path>, v: Version): set<(Path, Version)> {
    set f | f in sources :: (f, v)
  }

  function NewEntry(t: Toolchain, c: Content): CacheEntry {
    CacheEntry(t.hash(c), map[], false)
  }

  /** Every source in scope has an entry. */
  function WithEntries(t: Toolchain, files: Files, disk: Disk, sources: set<Path>): Files
    requires sources <= disk.Keys
  {
    files + (map f | f in sources && f !in files :: NewEntry(t, disk[f]))
  }

  // ---------- After compiling ----------

  /** One compiled source: all its artifacts for one version and profile. */
  datatype Compiled = Compiled(file: Path, version: Version, profile: Profile, output: map<Name, Artifact>,
                               buildId: BuildId)

  function KeysOf(c: Compiled): map<ArtifactKey, CachedArtifact> {
    map n | n in c.output :: ArtifactKey(n, c.version, c.profile) := CachedArtifact(c.output[n], c.buildId)
  }

  /** Marks the source as seen and merges its artifacts, if it is cached. */
  function Record(files: Files, c: Compiled): Files {
    if c.file in files then
      files[c.file := files[c.file].(artifacts := files[c.file].artifacts + KeysOf(c), seenByCompiler := true)]
    else files
  }

  function RecordAll(files: Files, cs: seq<Compiled>): Files
    decreases |cs|
  {
    if cs == [] then files else RecordAll(Record(files, cs[0]), cs[1..])
  }

  /** An artifact of that file, name and version was written, whatever its profile. */
  predicate IsWritten(written: seq<Compiled>, f: Path, n: Name, v: Version) {
    exists i :: 0 <= i < |written| && written[i].file == f && written[i].version == v && n in written[i].output
  }

  predicate IsReturned(a: (Path, ArtifactKey), scope: set<(Path, Version)>, dirty: set<Path>, written: seq<Compiled>) {
    (a.0, a.1.version) in scope && a.0 !in dirty && !IsWritten(written, a.0, a.1.name, a.1.version)
  }

  /** The cached artifacts handed on beside those written. */
  function Returned(cached: map<(Path, ArtifactKey), Artifact>, scope: set<(Path, Version)>, dirty: set<Path>,
                    written: seq<Compiled>): map<(Path, ArtifactKey), Artifact> {
    map a | a in cached && IsReturned(a, scope, dirty, written) :: cached[a]
  }

  predicate References(files: Files, b: BuildId) {
    exists f, k :: f in files && k in files[f].artifacts && files[f].artifacts[k].buildId == b
  }

  function ReferencedBuilds(files: Files, builds: set<BuildId>): set<BuildId> {
    set b | b in builds && References(files, b)
  }
}
