# Models and proofs for Foundry's stateful cores

Foundry's command line tools rest on a few pieces of code whose correctness is not local to
one function: a request handler that shares provider fetches among many clients, a compile
cache that decides what need not be compiled again, a delta-compressed file format, in-place
text rewriting, a request queue shared by a terminal and a browser, and library linking.
This project models those pieces in Dafny and proves what they are relied on for, over every
input, every run and every interleaving.

`dafny verify dfyconfig.toml` checks everything.

## What is modelled

* **Fork backend** (`ForkProtocol`, `ForkInvariant`, `ForkAnswers`, `ForkProvider`,
  `ForkCache`, `ForkPass`, `ForkHandler`). The handler behind `SharedBackend` as a state machine over values: requests
  in the channel and in the queue, the cache maps, the vector of fetches in progress and the
  listener lists. Steps are a client submitting a request, the handler receiving or handling
  one, and one fetch being polled with whatever result. `ForkProvider` says what a provider
  answers, `ForkPass` what one pass over the fetches does, and `ForkHandler` is the handler as the
  object it is, with its three cache maps, three listener maps, vector and queue, its reverse
  swap-remove loop and its `poll` loop, each method shown to be steps of the machine.
* **Compile cache** (`Reachability`, `CacheModel`, `CacheSoundness`, `CacheRuns`,
  `CacheOutput`, `CacheIdle`, `CacheExamples`, `CacheInner`, `CacheBuild`). The compiler is an unknown
  function of a file's import closure, the version and the settings; files, imports, profiles
  and scopes change arbitrarily between compilations. `CacheInner` holds the cache's searches
  and loops as methods; `CacheBuild` runs them from opening the cache to closing it and shows
  that this is the compilation the theorems on histories speak of.
* **Source maps** (`Decimal`, `SourceMap`, `SourceMapRoundTrip`, `SourceMapTheorems`,
  `SourceMapParser`). Lexer, parser and both printers of the "Source Mappings" format, with
  32-bit fields and the packed jump-and-depth word. `SourceMapParser` has the lexer and parser
  as objects that advance through their input.
* **Flattening and rewriting** (`FlattenOrder`, `SourceRewrite`). The depth-first closure and
  the order by dependency count; the splice with a running offset; making a path relative.
* **Browser wallet** (`WalletProtocol`, `WalletQueue`). Callers, browser handlers and
  disconnects interleave at lock sections, each one atomic step. `WalletQueue` has the queue
  and the shared state as objects, each lock section shown to be a step.
* **Linking, commits, units** (`Hex`, `BytecodeLink`, `LinkAll`, `Bytecode`, `MemDbCommit`,
  `Units`). Placeholder search and overwriting with the bookkeeping of link references;
  committing state changes to the in-memory database; decimal amounts.
* `Common`, `Chain` and `Decimal` hold what several of these share.

## What turned out to be false

* An account update that is handled while a fetch for the account is in flight is
  overwritten when the fetch completes. A run from a new handler gets there
  (`ForkCache.UpdateDuringFetchIsNotSettled`), and `ForkCache.SettledExactlyWithoutFlight`
  says when a cached value stays: if and only if no fetch for its key is in flight.
* When `poll` returns `Pending` the channel need not be empty: what clients send while the
  fetches are polled stays in it. `ForkHandler.BackendHandler.Poll` says that nothing else
  does, and that everybody else is answered or attached to a fetch.
* A compilation can hand on an artifact that no source produces any more: when the settings
  of a profile change, entries that only had artifacts of that profile are dropped before
  their files are looked at, so a file that changed too is not found dirty and its old
  artifacts are kept (`CacheExamples.StaleArtifactIsHandedOn`). `CacheOutput.OutputIsCleanBuilds`
  and `CacheOutput.ExactWhileSettingsLast` give the guard, which can be evaluated before
  anything is compiled: if an artifact was read back for a file that is not dirty, its
  profile's cached settings can still be used. `CacheOutput.ExactlyWithoutLeftovers` is the
  if-and-only-if that also covers settings that cannot be used but change nothing.
* With several profiles a compilation can fail to hand on an artifact that is up to date:
  the retain in `consume` drops it when another profile writes the same file, name and
  version (`CacheExamples.ArtifactIsLost`). `CacheOutput.LostExactlyWhenRewritten` gives the
  condition: the source is compiled for another group of its version and not for its own.
* A file that imports a deleted one keeps its entry if it is out of scope and the resolver
  does not fail, and its artifact is that of the closure with the deleted file
  (`CacheExamples.DeletedImportLeavesEntry`). `CacheRuns.SurvivingArtifacts` says that this is
  the only way for a kept artifact not to be that of the current closure.
* A project compiled again unchanged can compile a source again, however often: one that
  compiles to nothing in one group and to something under another version or profile
  (`CacheExamples.CompiledAgainAndAgain`). `CacheIdle.CompiledAgainExactly` says that these
  are the only ones, and `CacheIdle.UnchangedCompilesNothing` that there are none where a
  source's contents alone decide whether it compiles to something.
* Parsing what the compressed source map printer prints gives back the same builders exactly
  under the conditions of `SourceMapTheorems.CompressedRoundTrip`; a depth beside an index of
  -1, a number over 32 bits, or a single empty builder is not kept.
* The rebased path does not lead back to the path if the path is a proper prefix of the base
  (`SourceRewrite.RebaseInvertsJoin`, an if-and-only-if).
* The comment in `link` that the ranges found do not overlap is not always true: the two
  placeholder forms can share underscores (`BytecodeLink.FormsCanOverlap`).
  `BytecodeLink.AddressEverywhereIff` shows that this is the only way in which a placeholder
  does not end as the address.
* A disconnected wallet does not mean empty queues (`WalletProtocol.RequestAfterDrain`): a
  caller can add its request after the drain. An empty queue of a disconnected wallet stays
  empty until the next connection if and only if no caller is between its connection check
  and its request (`WalletProtocol.EmptyQueueStaysEmptyIff`).
* `parse_units` is exact truncation if and only if the amount and the scale fit their types
  and, for an unsigned amount of which no digit is kept, the number parser takes the empty
  text; products that do not fit wrap around silently
  (`Units.ParsesExactly`, `Units.ParsesModulo`).

## Model

| member | source | states |
|---|---|---|
| `ForkInvariant.ReachableStates` | crates/fork-db/src/backend.rs:496-675 | in every state a handler can reach, each sender ever submitted is in exactly one place (channel, queue, one listener list, one own fetch, answered), nobody else is held, nobody is answered twice, and a key has a non-empty listener list if and only if exactly one fetch for it is pending |
| `ForkInvariant.StepKeepsInvariant` | crates/fork-db/src/backend.rs:227-285 | every step (submit, receive, handle any request, poll any fetch ready or not) keeps conservation of senders and coalescing |
| `ForkInvariant.NobodyForgotten` | crates/fork-db/src/backend.rs:669-673 | with the queue empty every sender was answered, is attached to a fetch in progress, or is still in the channel |
| `ForkInvariant.OnRequestKeepsPlaces` | crates/fork-db/src/backend.rs:227-285 | handling the head of the queue moves its sender to exactly one new place and no other sender anywhere |
| `ForkInvariant.PollKeepsPlaces` | crates/fork-db/src/backend.rs:519-667 | polling one fetch, ready or not, keeps every sender in exactly one place although swap-remove permutes the vector |
| `ForkInvariant.PollKeepsCoalesced` | crates/fork-db/src/backend.rs:519-667 | polling one fetch keeps "listeners if and only if exactly one pending fetch" for every key |
| `ForkInvariant.OnRequestKeepsCoalesced` | crates/fork-db/src/backend.rs:288-490 | a request joins the fetch in flight for its key or starts the only one |
| `ForkAnswers.RequestOnCache` | crates/fork-db/src/backend.rs:227-285 | what handling a request does to the cached value of any key: nothing unless it is an update that covers the key; an update of an address replaces its whole slot map |
| `ForkAnswers.CompletionOnCache` | crates/fork-db/src/backend.rs:521-631 | a completed fetch changes the cached value of its own key only, and only if it succeeded |
| `ForkAnswers.RunKeepsWellAsked` | crates/fork-db/src/backend.rs:496-675 | over every run each listener waits for the key it asked for, so each sender is answered in kind; which value, block or error that is, is in the rows of ForkProvider and ForkCache |
| `ForkProvider.BlockAnswers` | crates/fork-db/src/backend.rs:632-645 | in every run, updates and re-pins included, a sender that asked for a full block is told the block if and only if the provider has it, and that it was not found if and only if the provider has none, unless its fetch failed; then it is told the cause |
| `ForkProvider.TransactionAnswers` | crates/fork-db/src/backend.rs:646-658 | in every run a sender that asked for a transaction is told the provider's own, or the cause of the failure |
| `ForkProvider.AnyAnswers` | crates/fork-db/src/backend.rs:659-663 | in every run a sender that brought its own future is told its result |
| `ForkProvider.KeyedReplyAnswers` | crates/fork-db/src/backend.rs:522-631 | a reply for an account, slot or block hash is told to every listener of the key in order: the account with the hash of its code or the empty hash for no code, the word, the hash or the empty hash for a missing block; or the error with its cause |
| `ForkProvider.OwnReplyAnswers` | crates/fork-db/src/backend.rs:632-663 | a reply to a fetch that carries its sender is told to that sender alone: the block, that it was not found, the transaction, or the error with its cause |
| `ForkCache.EveryAnswerIsTheProviders` | crates/fork-db/src/backend.rs:227-262 | from a cache that agrees with a provider, in every run without update or re-pin requests, every sender that asked for an account, slot or block hash is told the direct provider lookup of what it asked, whether from cache, coalesced or fetched, or the cause with which a fetch for it at the pinned block failed |
| `ForkCache.RunKeepsAgreement` | crates/fork-db/src/backend.rs:519-631 | such runs keep cache and answers in agreement with the provider at the pinned block |
| `ForkCache.UpdateStaysVisible` | crates/fork-db/src/backend.rs:229-245 | once a value is cached with no fetch for its key in flight, every later answer for that key is that value until the next update of the key |
| `ForkCache.SettledExactlyWithoutFlight` | crates/fork-db/src/backend.rs:266-280 | a cached value stays whatever happens short of another update if and only if no fetch for its key is in flight; an update during a fetch is overwritten |
| `ForkCache.UpdateDuringFetchIsNotSettled` | crates/fork-db/src/backend.rs:266-280 | a run from a new handler that ends with an updated account in the cache and a fetch for it in flight, so that the update is not settled |
| `ForkCache.FetchedAtMostOnce` | crates/fork-db/src/backend.rs:522-566 | in any run with the handler as sole cache writer each account and each block number has at most one successful provider fetch; so has a slot that no storage update drops |
| `ForkCache.RepinGovernsLaterFetches` | crates/fork-db/src/backend.rs:263-265 | after a re-pin, until the next one, whatever is pending was pending already or reads the newly pinned block |
| `ForkPass.PassPollsEachOnce` | crates/fork-db/src/backend.rs:519-520 | the reverse swap-remove loop polls everything pending at its start exactly once, in reverse order, although removals and pushes permute the vector |
| `ForkPass.PassLeavesUnfinished` | crates/fork-db/src/backend.rs:664-667 | as a multiset a pass leaves exactly the fetches that were not ready |
| `ForkPass.PassOnPending` | crates/fork-db/src/backend.rs:519-667 | the handler's own vector goes through exactly that pass |
| `ForkPass.PassIsRun` | crates/fork-db/src/backend.rs:519-667 | a whole pass is a run of poll steps |
| `ForkPass.PassIsComplete` | crates/fork-db/src/backend.rs:519-667 | a pass leaves exactly the fetches whose poll was not ready; every other one is recorded as completed, its listeners are gone and answered, or the sender it carries is; and nobody else is told anything |
| `ForkPass.LogOfPass` | crates/fork-db/src/backend.rs:519-520 | as a run, a pass polls each fetch of the vector once, the last one first, with the poll meant for it |
| `ForkHandler.PassCommutesWithArrival` | crates/fork-db/src/backend.rs:519-667 | a request that arrives before or in the middle of a pass over the fetches might as well arrive after it, so late arrivals of a turn cover every moment of the pass |
| `ForkHandler.BackendHandler.RequestAccount` | crates/fork-db/src/backend.rs:411-421 | attaches the listener to the account's fetch, starting one only if there is none |
| `ForkHandler.BackendHandler.RequestAccountStorage` | crates/fork-db/src/backend.rs:288-310 | attaches the listener to the slot's fetch at the pinned block, starting one only if there is none |
| `ForkHandler.BackendHandler.RequestHash` | crates/fork-db/src/backend.rs:456-490 | attaches the listener to the block number's fetch, starting one only if there is none |
| `ForkHandler.BackendHandler.OnRequest` | crates/fork-db/src/backend.rs:227-285 | all ten kinds of request act as the protocol step on maps, listener lists, vector and pinned block |
| `ForkHandler.BackendHandler.FinishAccount` | crates/fork-db/src/backend.rs:522-566 | a ready account fetch updates the cache on success only and answers and removes exactly its listeners |
| `ForkHandler.BackendHandler.FinishStorage` | crates/fork-db/src/backend.rs:567-600 | the same for a slot |
| `ForkHandler.BackendHandler.FinishBlockHash` | crates/fork-db/src/backend.rs:601-631 | the same for a block hash; a missing block counts as the empty hash |
| `ForkHandler.BackendHandler.PollAtIndex` | crates/fork-db/src/backend.rs:520-666 | one iteration of the loop, in place on the vector, is one poll step |
| `ForkHandler.BackendHandler.PollPending` | crates/fork-db/src/backend.rs:519-667 | the in-place reverse loop never indexes out of bounds and is the whole pass: everything pending is polled, what is ready is finished, and what is not ready is left |
| `ForkHandler.BackendHandler.DrainQueue` | crates/fork-db/src/backend.rs:500-502 | handles the queue to its end, as a run |
| `ForkHandler.BackendHandler.ReceiveAll` | crates/fork-db/src/backend.rs:505-516 | moves the channel to the queue in order, as a run |
| `ForkHandler.BackendHandler.TakeIn` | crates/fork-db/src/backend.rs:499-516 | the queue is handled to its end and then holds what was in the channel and what arrived meanwhile, in order; this is a run |
| `ForkHandler.BackendHandler.PollTurn` | crates/fork-db/src/backend.rs:498-667 | one turn of the outer loop is a run that loses no fetch on the way to its pass and, unless the channel is closed, polls every fetch there then is exactly once, with what that means for senders, completions and what is left; it leaves in the queue exactly what was in the channel and what arrived before the pass, and in the channel exactly what arrived during it |
| `ForkHandler.BackendHandler.Poll` | crates/fork-db/src/backend.rs:496-675 | one call of poll is a chain of such turns, each but the last leaving something queued, and keeps the invariant; it reports Pending if and only if the last turn did not find the channel closed, and then the queue is empty, left are exactly the fetches that the last pass polled not ready, and every sender is answered, attached to a fetch or still in the channel; a closed channel ends it at once, whatever is queued |
| `ForkHandler.InsertAll` | crates/fork-db/src/backend.rs:266-280 | the update loops end with every given pair stored, over what was there, in whatever order |
| `CacheInner.ResolveNodes` | crates/compilers/crates/compilers/src/resolver/mod.rs:376-505 | the resolver's worklist takes in exactly what the roots reach over imports |
| `CacheInner.ResolveSources` | crates/compilers/crates/compilers/src/resolver/mod.rs:376-505 | the importer relation of the graph is the import relation between its nodes turned around |
| `CacheInner.ArtifactsCacheInner.PopulateDirtyFiles` | crates/compilers/crates/compilers/src/cache.rs:835-848 | the recursive search over importers that stops at marked files marks only what the file reaches, and closes everything it marks; it terminates because unmarked files shrink |
| `CacheInner.ArtifactsCacheInner.PropagateDirty` | crates/compilers/crates/compilers/src/cache.rs:911-916 | despite the early stop the final dirty set is exactly the initially dirty files plus those that import one of them, directly or not |
| `CacheInner.DirtyExactly` | crates/compilers/crates/compilers/src/cache.rs:850-916 | a cached file is marked if and only if something in its import closure changed, is unreadable or is not cached |
| `CacheInner.UncachedDirtyExactly` | crates/compilers/crates/compilers/src/cache.rs:868-879 | a file without an entry is marked if and only if a readable cached file imports it |
| `CacheInner.ArtifactsCacheInner.MarkDirty` | crates/compilers/crates/compilers/src/cache.rs:865-916 | the marked set, for a graph that resolves |
| `CacheInner.ArtifactsCacheInner.RemoveDirtySources` | crates/compilers/crates/compilers/src/cache.rs:834-927 | exactly the entries whose whole import closure is cached and unchanged survive; all are purged if the graph does not resolve |
| `CacheInner.ArtifactsCacheInner.UpdateProfiles` | crates/compilers/crates/compilers/src/cache.rs:930-967 | profiles whose settings cannot be used go with their artifacts; entries that thereby lose all artifacts go, entries that had none stay; missing profiles are added |
| `CacheModel.PruningMeans` | crates/compilers/crates/compilers/src/cache.rs:930-967 | profile by profile, entry by entry and artifact by artifact, what goes and what stays when profiles are updated |
| `CacheInner.ArtifactsCacheInner.RetainFiles` | crates/compilers/crates/compilers/src/cache.rs:953-966 | the retain over entries and nested artifact maps |
| `CacheInner.ArtifactsCacheInner.SelectComplete` | crates/compilers/crates/compilers/src/cache.rs:753-765 | the sources marked Complete are exactly those with missing artifacts judged on the entries before, every source gets an entry, and the scope is recorded |
| `CacheInner.ArtifactsCacheInner.Filter` | crates/compilers/crates/compilers/src/cache.rs:748-787 | a source is Complete if and only if it misses artifacts on the entries before, Optimized if and only if it does not and a Complete one imports it, and left out otherwise; every source gets an entry and is in scope |
| `CacheInner.JudgedIsKinds` | crates/compilers/crates/compilers/src/cache.rs:777-786 | there is only one answer with those properties |
| `CacheInner.FilterOrderIrrelevant` | crates/compilers/crates/compilers/src/cache.rs:748-787 | entries created for other groups change no verdict, so the order of groups does not matter |
| `CacheInner.FilterKeepsClosures` | crates/compilers/crates/compilers/src/cache.rs:767-775 | the compiler is given the whole import closure of everything that the filter answers Complete |
| `CacheInner.ArtifactsCacheInner.RemoveOutdatedBuilds` | crates/compilers/crates/compilers/src/cache.rs:163-182 | exactly the builds some artifact refers to are left |
| `CacheInner.ArtifactsCacheInner.RetainArtifacts` | crates/compilers/crates/compilers/src/cache.rs:1239-1260 | kept of the cached artifacts, with their contents, are exactly those whose file is in scope at their version and not dirty, and for which no artifact of the file, name and version was written |
| `CacheInner.ArtifactsCacheInner.Consume` | crates/compilers/crates/compilers/src/cache.rs:1210-1289 | entries take in what was written, builds the written build infos, and the cached artifacts handed on are the kept ones |
| `CacheBuild.Compile` | crates/compilers/crates/compilers/src/cache.rs:1047-1289 | the object opened, filtered group by group and consumed ends as the cache after the compilation in the histories; it hands on exactly the kept artifacts, and every group gets the answer of the filter judged on what it misses, which is the one that the histories compile by |
| `CacheSoundness.UpdateProfilesHolds` | crates/compilers/crates/compilers/src/cache.rs:930-967 | pruning profiles keeps every remaining entry equal to a compilation of its snapshot |
| `CacheSoundness.SurvivorsHold` | crates/compilers/crates/compilers/src/cache.rs:834-927 | after dirty removal everything an entry imports is cached and unchanged on disk |
| `CacheSoundness.SnapshotIsCurrent` | crates/compilers/crates/compilers/src/cache.rs:834-927 | the closure a surviving entry was compiled from is its import closure on the current disk if and only if no file of it that the current closure still imports was deleted |
| `CacheSoundness.RecordAllHolds` | crates/compilers/crates/compilers/src/cache.rs:529-550 | merging written artifacts keeps every entry equal to a compilation of its closure |
| `CacheRuns.CompilationKeepsSound` | crates/compilers/crates/compilers/src/cache.rs:834-927 | one whole compilation, written to disk or not, keeps the cache sound |
| `CacheRuns.HistoryKeepsSound` | crates/compilers/crates/compilers/src/cache.rs:1210-1289 | so does any sequence of compilations with any edits, deletions and settings changes in between |
| `CacheRuns.CompleteIsMissing` | crates/compilers/crates/compilers/src/cache.rs:790-831 | the answer that histories compile by is Complete for exactly the sources that miss artifacts |
| `CacheRuns.ReuseEqualsRecompilation` | crates/compilers/crates/compilers/src/cache.rs:748-831 | after any history a source in scope that the filter does not answer Complete has exactly the artifacts that compiling its current import closure would give, all readable and with their extra files, or was seen to produce none from that closure |
| `CacheRuns.ReuseIsRecompilation` | crates/compilers/crates/compilers/src/cache.rs:796-831 | where contents alone decide whether a source has contracts, the second case is no exception |
| `CacheRuns.SurvivingArtifacts` | crates/compilers/crates/compilers/src/cache.rs:834-927 | after any history every artifact still held after dirty removal equals what compiling a snapshot of the import closure of its file gives; the snapshot is the current closure if and only if nothing it still imports was deleted |
| `CacheRuns.SurvivingArtifactsAreCurrent` | crates/compilers/crates/compilers/src/cache.rs:834-927 | so where every import in the closure of the file is on disk, the artifact equals what compiling the current closure gives |
| `CacheRuns.BuildsAreExactlyReferenced` | crates/compilers/crates/compilers/src/cache.rs:1262-1286 | whatever the toolchain, no sequence of compilations loses a build some entry refers to, and after each write to disk exactly the referenced builds are listed |
| `CacheOutput.NothingIsLost` | crates/compilers/crates/compilers/src/cache.rs:1210-1289 | after any history, written and kept artifacts together hold everything that compiling a source in scope anew would give, if the source is compiled for its group or for no group of its version |
| `CacheOutput.LostExactlyWhenRewritten` | crates/compilers/crates/compilers/src/cache.rs:1239-1260 | with any number of profiles an artifact of a source in scope is handed on if and only if the source is compiled for its own group or for no group of its version; names are decided by contents |
| `CacheOutput.OutputIsCleanBuilds` | crates/compilers/crates/compilers/src/cache.rs:1210-1289 | under the same condition, if the settings of whatever was read back for the source can still be used or the source is dirty, what is handed on is exactly the output of a clean build, name by name |
| `CacheOutput.ExactWhileSettingsLast` | crates/compilers/crates/compilers/src/cache.rs:930-967 | with one profile the outcome for a source is exact if whatever was read back for it is of a profile whose cached settings can still be used, or it is dirty; this is known before compiling |
| `CacheOutput.ExactlyWithoutLeftovers` | crates/compilers/crates/compilers/src/cache.rs:1239-1260 | with one profile, whatever became of its settings, a source's outcome is exact if and only if no artifact was read back, for a file not found dirty, that the file does not produce any more |
| `CacheOutput.ExactlyWithSeveralProfiles` | crates/compilers/crates/compilers/src/cache.rs:1239-1260 | with any number of profiles it is exact if and only if there is no such artifact and the source is compiled for its group, for no group of its version, or has nothing to give |
| `CacheOutput.ReusedIsKept` | crates/compilers/crates/compilers/src/cache.rs:1239-1260 | a readable artifact of a source that no group of its version compiles passes the retain |
| `CacheOutput.OutputIsInScope` | crates/compilers/crates/compilers/src/cache.rs:1239-1260 | everything handed on is of a source in scope at its version; what was not just written was read back, with the same contents, for a file that is not dirty |
| `CacheOutput.AfreshCompilesAll` | crates/compilers/crates/compilers/src/cache.rs:1047-1110 | without a cache that can be used, or with an unresolved import in scope, every source is compiled and nothing cached is handed on |
| `CacheIdle.CompiledAgainExactly` | crates/compilers/crates/compilers/src/cache.rs:748-831 | after any history and a successful compilation that was saved, the same project compiled again, with everything readable, compiles a source for a group if and only if the source compiles to nothing there and has artifacts of another version or profile |
| `CacheIdle.UnchangedCompilesNothing` | crates/compilers/crates/compilers/src/cache.rs:748-831 | where contents decide whether a source compiles to something, an unchanged project compiles nothing at all |
| `CacheIdle.RecordAllTakesIn` | crates/compilers/crates/compilers/src/cache.rs:529-550 | what was compiled is marked seen and its artifacts are in its entry, the last one written under a name, version and profile |
| `CacheIdle.RecordAllLeaves` | crates/compilers/crates/compilers/src/cache.rs:529-550 | an artifact that is not written anew stays as it is and none comes from elsewhere |
| `CacheExamples.StaleArtifactIsHandedOn` | crates/compilers/crates/compilers/src/cache.rs:930-967 | a concrete pair of compilations (settings changed, contract renamed) after which the artifact of the old contract is handed on |
| `CacheExamples.ArtifactIsLost` | crates/compilers/crates/compilers/src/cache.rs:1239-1260 | a concrete pair of compilations (a second profile compiles the same file) after which the up-to-date artifact of the first profile is not handed on |
| `CacheExamples.DeletedImportLeavesEntry` | crates/compilers/crates/compilers/src/cache.rs:834-927 | a concrete pair of compilations (a library was deleted) after which an entry holds an artifact that the current closure does not give |
| `CacheExamples.CompiledAgainAndAgain` | crates/compilers/crates/compilers/src/cache.rs:748-831 | a concrete project that is compiled again though nothing changed and everything can be read back |
| `SourceMap.OrIsSum` | crates/compilers/crates/artifacts/solc/src/sourcemap.rs:282-284 | the packed word of the model is the bitwise one, and unpacks to the jump and depth packed |
| `SourceMap.Pack` | crates/compilers/crates/artifacts/solc/src/sourcemap.rs:31-38 | a packed word unpacks to its legal jump and its depth |
| `SourceMap.Finish` | crates/compilers/crates/artifacts/solc/src/sourcemap.rs:379-397 | finishing an element keeps the packed word legal, so unpacking never meets a fourth jump |
| `SourceMapParser.Lexer.Number` | crates/compilers/crates/artifacts/solc/src/sourcemap.rs:131-145 | advances over exactly the digits that follow |
| `SourceMapParser.Lexer.Next` | crates/compilers/crates/artifacts/solc/src/sourcemap.rs:151-169 | the token at the current position, or the character that fits none |
| `SourceMapParser.Parser.ReadTokens` | crates/compilers/crates/artifacts/solc/src/sourcemap.rs:478-514 | the token loop reads one segment or fails where and as it must |
| `SourceMapParser.Parser.Advance` | crates/compilers/crates/artifacts/solc/src/sourcemap.rs:459-527 | each call yields the next element of the whole parse, its error, or nothing at the end |
| `SourceMapParser.Parse` | crates/compilers/crates/artifacts/solc/src/sourcemap.rs:567-572 | collecting the elements is the whole parse; the first error ends it |
| `SourceMapTheorems.ParseIsAFold` | crates/compilers/crates/artifacts/solc/src/sourcemap.rs:459-527 | parsing is reading the builders and folding `finish` over them |
| `SourceMapTheorems.ErrorsPointAtText` | crates/compilers/crates/artifacts/solc/src/sourcemap.rs:459-527 | an error with a position names a place inside the input at which there stands what it complains about: the character that fits no token, a colon too many, a jump letter, or a number; only the overflows of finishing an element have none |
| `SourceMapTheorems.ElementCount` | crates/compilers/crates/artifacts/solc/src/sourcemap.rs:567-572 | a successful parse has no element for the empty input and else one more than there are semicolons |
| `SourceMapTheorems.DeltaDecoding` | crates/compilers/crates/artifacts/solc/src/sourcemap.rs:379-397 | every field of element i is its most recent explicit value at or before i, else the default, and the packed word is one of three jumps with a depth below 2^30 |
| `SourceMapTheorems.CompressedRoundTrip` | crates/compilers/crates/artifacts/solc/src/sourcemap.rs:310-376 | parsing what a list of builders prints gives the same builders if and only if every number fits 32 bits, no depth other than 0 stands beside an index of -1, and the list is not a single empty builder |
| `SourceMapTheorems.CompressionKeepsMeaning` | crates/compilers/crates/artifacts/solc/src/sourcemap.rs:310-376 | such lists decode after printing to the same elements or the same error |
| `SourceMapTheorems.FullRoundTrip` | crates/compilers/crates/artifacts/solc/src/sourcemap.rs:287-299 | parsing the joined full form of any list of elements gives the list back if and only if every index is at least -1, and fails otherwise |
| `SourceMapTheorems.PlainElement` | crates/compilers/crates/artifacts/solc/src/sourcemap.rs:282-299 | an element as text, number by number, parses to its fields, with i, o and - as 0, 1 and 2 above the 30 bits of the depth |
| `SourceMapTheorems.PrintedFields` | crates/compilers/crates/artifacts/solc/src/sourcemap.rs:310-376 | a builder is printed as its five field texts with colons between, less exactly the colons that would end the text |
| `SourceMapTheorems.LargeIndexWraps` | crates/compilers/crates/artifacts/solc/src/sourcemap.rs:379-397 | an index above the range of an i32 is stored as the negative number it equals modulo 2^32 |
| `SourceMapRoundTrip.ReadPrinted` | crates/compilers/crates/artifacts/solc/src/sourcemap.rs:310-376 | reading one printed builder succeeds if and only if its numbers fit, and gives it back with a depth beside -1 turned to 0 |
| `SourceMapRoundTrip.ParsePrinted` | crates/compilers/crates/artifacts/solc/src/sourcemap.rs:464-476 | the printing of a number parses to it if and only if it fits 32 bits |
| `SourceMapTheorems.PrintsNothing` | crates/compilers/crates/artifacts/solc/src/sourcemap.rs:310-319 | only no builders, or a single empty one, print as nothing |
| `FlattenOrder.CollectDeps` | crates/compilers/crates/compilers/src/flatten.rs:788-812 | the search adds only reachable files with everything they import, does not enter a file twice, and fails only if it reaches a file without parent, outside the graph or with an unresolved import |
| `FlattenOrder.CollectAllDeps` | crates/compilers/crates/compilers/src/flatten.rs:829-830 | from scratch it finds exactly the files reachable from the target, and fails if and only if one of them is broken |
| `FlattenOrder.Insert` | crates/compilers/crates/compilers/src/flatten.rs:843-860 | inserting keeps the order of the comparison and the elements |
| `FlattenOrder.LeTotal` | crates/compilers/crates/compilers/src/flatten.rs:843-860 | the comparison by count, file name and path is total and tells different paths apart |
| `FlattenOrder.LeTransitive` | crates/compilers/crates/compilers/src/flatten.rs:843-860 | the comparison is transitive |
| `FlattenOrder.CollectOrderedDeps` | crates/compilers/crates/compilers/src/flatten.rs:824-868 | lists each file reachable from the target exactly once, sorted by count, the target last; fails if and only if a reachable file is broken |
| `FlattenOrder.EarlierIsSmaller` | crates/compilers/crates/compilers/src/flatten.rs:843-860 | of two files before the target the earlier one has fewer dependencies, or as many and not the larger file name, or the same name too and a path that is a prefix or smaller in the first component that differs |
| `FlattenOrder.OrderIsTopological` | crates/compilers/crates/compilers/src/flatten.rs:814-823 | of two files other than the target, one that reaches the other and is not reached back comes later |
| `FlattenOrder.ImportsComeFirst` | crates/compilers/crates/compilers/src/flatten.rs:814-823 | without import cycles every file follows everything it imports, the target included |
| `FlattenOrder.OrderIsUnique` | crates/compilers/crates/compilers/src/flatten.rs:814-823 | the order is determined by the graph, however hash sets iterate |
| `SourceRewrite.ReplaceSourceContent` | crates/compilers/crates/compilers/src/lib.rs:932-945 | for sorted, non-overlapping, in-bounds updates the running-offset rewrite interleaves the untouched gaps of the original with the replacements, and every shifted range stays in bounds |
| `SourceRewrite.SpliceIsRightToLeft` | crates/compilers/crates/compilers/src/lib.rs:932-945 | the result equals applying the updates one by one from the last to the first with no offset |
| `SourceRewrite.SplicedAt` | crates/compilers/crates/compilers/src/lib.rs:932-945 | in the rewritten text every replacement stands at the start of its range, shifted by what the updates before it added or took away, and before it the text of the source up to the update before |
| `SourceRewrite.SplicedTail` | crates/compilers/crates/compilers/src/lib.rs:932-945 | after the last replacement stands the rest of the source, to the end of the text |
| `SourceRewrite.ReplaceShifted` | crates/compilers/crates/compilers/src/lib.rs:938-942 | one replacement at the shifted range leaves the rest of the text shifted by the new offset |
| `SourceRewrite.RebasePath` | crates/compilers/crates/compilers/src/lib.rs:889-916 | the loop drops the common prefix, goes up once for each component of the base left, and appends the rest; nothing for a path that ends inside the base |
| `SourceRewrite.RebaseInvertsJoin` | crates/compilers/crates/compilers/src/lib.rs:889-916 | for a base of normal components and a path of the same kind, base joined with the rebased path normalises to the path if and only if the path is not a proper prefix of the base |
| `SourceRewrite.RebaseIsInjective` | crates/compilers/crates/compilers/src/lib.rs:889-916 | paths with different meaning are not rebased to the same path |
| `WalletProtocol.StoredResponsesAreProper` | crates/wallets/src/wallet_browser/handlers.rs:101-139 | under every interleaving a stored response sits under its own id with exactly one of payload and error, and was posted for that id in the run, or says that the wallet disconnected and a disconnect drained the id |
| `WalletProtocol.CallersGetTheirOwnAnswer` | crates/wallets/src/wallet_browser/server.rs:151-173 | no caller meets the "missing both" branch; a payload or a reason was posted by the browser for that very id in the run, a transaction hash is not zero; and "Wallet disconnected" is told only if the browser posted it or a disconnect drained the id |
| `WalletProtocol.TakenIsTold` | crates/wallets/src/wallet_browser/server.rs:152-164 | a caller that finds a response is told its payload if it has one, else its error, and the response is gone |
| `WalletProtocol.ProperIsAccepted` | crates/wallets/src/wallet_browser/handlers.rs:105-134 | a body is refused if and only if it has both or none of payload and error, or a zero transaction hash |
| `WalletProtocol.QueueIsOpenAdditions` | crates/wallets/src/wallet_browser/queue.rs:36-60 | the queue is the order of addition restricted to ids not answered, drained or given up, each once |
| `WalletProtocol.ServedIdIsAwaited` | crates/wallets/src/wallet_browser/handlers.rs:90-97 | what the browser is served belongs to a caller without an outcome |
| `WalletProtocol.FinishedIsNeverServedAgain` | crates/wallets/src/wallet_browser/server.rs:151-173 | the id of a caller with any outcome is never served again |
| `WalletProtocol.DrainedIdIsAnswered` | crates/wallets/src/wallet_browser/state.rs:112-153 | an id drained by a disconnect keeps some response, whatever happens next, until its caller has an outcome |
| `WalletProtocol.EveryQueueIsDrained` | crates/wallets/src/wallet_browser/state.rs:112-153 | a run that leaves no disconnect half done has drained each of the three queues exactly once for every disconnect |
| `WalletProtocol.RequestAfterDrain` | crates/wallets/src/wallet_browser/server.rs:141-147 | a concrete interleaving that leaves a request queued while the wallet is disconnected |
| `WalletProtocol.EmptyQueueStaysEmptyIff` | crates/wallets/src/wallet_browser/server.rs:141-147 | for a disconnected wallet and an empty queue: in every run without a new connection the queue stays empty, if and only if no caller is between its connection check and its request |
| `WalletProtocol.StepKeeps` | crates/wallets/src/wallet_browser/state.rs:102-186 | every lock section of every participant keeps all of this |
| `WalletProtocol.RemoveIsClosing` | crates/wallets/src/wallet_browser/queue.rs:51-60 | removing the first request with an id is closing that id in the order of addition |
| `WalletProtocol.DrainIsClosing` | crates/wallets/src/wallet_browser/queue.rs:72-80 | draining closes every open id |
| `WalletQueue.RequestQueue.HasRequest` | crates/wallets/src/wallet_browser/queue.rs:38-43 | true if and only if a pending request has the id |
| `WalletQueue.RequestQueue.ReadRequest` | crates/wallets/src/wallet_browser/queue.rs:46-48 | the front of the queue, which stays |
| `WalletQueue.RequestQueue.RemoveRequest` | crates/wallets/src/wallet_browser/queue.rs:51-60 | removes and returns one request with the id, the first, or changes nothing if there is none |
| `WalletQueue.RequestQueue.GetResponse` | crates/wallets/src/wallet_browser/queue.rs:68-70 | takes the response out |
| `WalletQueue.RequestQueue.DrainRequestIds` | crates/wallets/src/wallet_browser/queue.rs:74-80 | all ids in queue order, leaving the queue empty |
| `WalletQueue.FailAll` | crates/wallets/src/wallet_browser/state.rs:113-125 | every drained id, and no other, gets the disconnect response |
| `WalletQueue.BrowserWalletState.CheckConnection` | crates/wallets/src/wallet_browser/server.rs:141-143 | the caller's check is one step of the protocol |
| `WalletQueue.BrowserWalletState.AddRequest` | crates/wallets/src/wallet_browser/state.rs:156-158 | adding a request is one step, at the back of the queue |
| `WalletQueue.BrowserWalletState.ReadNextRequest` | crates/wallets/src/wallet_browser/state.rs:166-168 | serves the oldest open request |
| `WalletQueue.BrowserWalletState.PollResponse` | crates/wallets/src/wallet_browser/server.rs:152-164 | one poll of the caller is one step; it returns nothing if no response is stored, and else the payload, or the error, of the stored one, which is the outcome the caller then has |
| `WalletQueue.BrowserWalletState.RemoveRequest` | crates/wallets/src/wallet_browser/state.rs:171-173 | giving up is one step |
| `WalletQueue.BrowserWalletState.CheckResponse` | crates/wallets/src/wallet_browser/handlers.rs:105-134 | a posted body is let through if and only if its request is pending, exactly one of payload and error is given and a transaction hash is not zero; which refusal it meets otherwise; and that passing stores nothing yet |
| `WalletQueue.BrowserWalletState.AddResponse` | crates/wallets/src/wallet_browser/state.rs:176-181 | storing the response and removing the request are one step |
| `WalletQueue.BrowserWalletState.WriteConnection` | crates/wallets/src/wallet_browser/state.rs:102-108 | writing the connection is one step; clearing it starts a drain |
| `WalletQueue.BrowserWalletState.FailPending` | crates/wallets/src/wallet_browser/state.rs:112-153 | failing one queue is one drain step |
| `BytecodeLink.NoPlaceholderLeft` | crates/compilers/crates/artifacts/solc/src/bytecode.rs:379-413 | after linking no occurrence of either placeholder form of the library is left anywhere |
| `BytecodeLink.LinkReplacesHash` | crates/compilers/crates/artifacts/solc/src/bytecode.rs:388-389 | between hex text, two underscores, a dollar, the 34 digits, a dollar and two underscores become the address |
| `BytecodeLink.LinkReplacesName` | crates/compilers/crates/artifacts/solc/src/bytecode.rs:391-394 | so do two underscores, the first 36 characters of file, colon and name filled up with underscores, and two underscores |
| `BytecodeLink.NoPlaceholderTextLeft` | crates/compilers/crates/artifacts/solc/src/bytecode.rs:379-413 | whatever the text was, neither of these spellings is left in it |
| `BytecodeLink.LinkIsLocal` | crates/compilers/crates/artifacts/solc/src/bytecode.rs:407-412 | characters outside the found places stay, those inside become hex digits |
| `BytecodeLink.AddressEverywhereIff` | crates/compilers/crates/artifacts/solc/src/bytecode.rs:406-412 | every found place ends as the address, for every address, if and only if no two found places overlap in part |
| `BytecodeLink.FormsCanOverlap` | crates/compilers/crates/artifacts/solc/src/bytecode.rs:406-407 | hash form and name form of one library can overlap |
| `BytecodeLink.FindAllComplete` | crates/compilers/crates/artifacts/solc/src/bytecode.rs:382-386 | every occurrence is found or begins inside one found before it |
| `BytecodeLink.FindAllSound` | crates/compilers/crates/artifacts/solc/src/bytecode.rs:382-386 | everything found is an occurrence |
| `LinkAll.LinkEachFillsIn` | crates/compilers/crates/artifacts/solc/src/bytecode.rs:176-188 | with an address for every reference and placeholders that do not overlap in otherwise hex text of even length, `link_all` ends decoded, to the text with every placeholder its address and nothing else changed |
| `LinkAll.LinkingDecodes` | crates/compilers/crates/artifacts/solc/src/bytecode.rs:156-173 | linking the only referenced library, whose hash placeholder stands between hex text, ends decoded to the bytes before it, the address and the bytes after it |
| `LinkAll.OrderIrrelevant` | crates/compilers/crates/artifacts/solc/src/bytecode.rs:176-188 | the order in which the addresses are given does not matter |
| `LinkAll.PlacesSurvive` | crates/compilers/crates/artifacts/solc/src/bytecode.rs:379-413 | linking one library leaves the placeholders of others that it does not overlap where they were |
| `LinkAll.DecodedAddress` | crates/compilers/crates/artifacts/solc/src/bytecode.rs:287-294 | at an even place the decoded bytes are the address |
| `Hex.DecodeInvertsEncode` | crates/compilers/crates/artifacts/solc/src/bytecode.rs:402-404 | decoding printed bytes gives the bytes |
| `Hex.EncodedDigits` | crates/compilers/crates/artifacts/solc/src/bytecode.rs:402-404 | a byte is printed as two lower-case digits, the more significant one first |
| `Hex.DecodesPairs` | crates/compilers/crates/artifacts/solc/src/bytecode.rs:287-294 | text decodes if and only if it is pairs of hex digits, with or without 0x before them |
| `Bytecode.LinkInPlace` | crates/compilers/crates/artifacts/solc/src/bytecode.rs:379-413 | overwriting in place at all found places is linking |
| `Bytecode.Bytecode.Resolve` | crates/compilers/crates/artifacts/solc/src/bytecode.rs:287-294 | decodes the text if it is hex, and returns the bytes if there are any |
| `Bytecode.Bytecode.Link` | crates/compilers/crates/artifacts/solc/src/bytecode.rs:156-173 | crosses the library off, links its placeholders only if it is referenced, decodes when no reference is left; returns true if and only if the object is now decoded |
| `Bytecode.Bytecode.LinkAll` | crates/compilers/crates/artifacts/solc/src/bytecode.rs:176-188 | links one after another up to the first call that ends decoded |
| `MemDbCommit.ViewAfterCommit` | crates/fork-db/src/cache.rs:299-337 | after a commit a slot reads as zero for deleted accounts, the written value where written, zero elsewhere in created accounts, and as before otherwise |
| `MemDbCommit.CommitKeepsCanonical` | crates/fork-db/src/cache.rs:325-334 | a commit to storage without zero values and empty slot maps leaves it so |
| `MemDbCommit.CanonicalViewsDetermine` | crates/fork-db/src/cache.rs:325-334 | such storage maps that read the same are the same |
| `MemDbCommit.DisjointCommitsCommute` | crates/fork-db/src/cache.rs:299-337 | commits to different accounts commute, on accounts and on storage, whatever is stored |
| `MemDbCommit.CommitIsIdempotent` | crates/fork-db/src/cache.rs:299-337 | a commit made again changes neither accounts nor storage |
| `MemDbCommit.CommittedAccount` | crates/fork-db/src/cache.rs:303-319 | deleted accounts are gone and others untouched; a stored one carries the hash of its code, else the hash it came with, with the empty hash for zero |
| `MemDbCommit.WriteSlots` | crates/fork-db/src/cache.rs:321-331 | writing, or removing for zero, slot by slot in any order gives the same map |
| `MemDbCommit.MemDb.CommitOne` | crates/fork-db/src/cache.rs:303-335 | one account, in place on both maps |
| `MemDbCommit.MemDb.DoCommit` | crates/fork-db/src/cache.rs:299-337 | the loop over changes in any order is the whole commit |
| `Units.ParsesExactly` | crates/block-explorers/src/utils.rs:169-224 | an amount with sign, digits, underscores and at most one point parses to its value times ten to the exponent truncated toward zero if and only if that and the scale fit their types and, if there is no sign and no digit is kept, the number parser takes the empty text |
| `Units.ParsesModulo` | crates/block-explorers/src/utils.rs:202-222 | an amount with a digit and no more decimals than the exponent, whatever its size: too many digits and too large a power of ten are refused, and a product that does not fit is taken modulo 2^256 |
| `Units.UnderscoresDoNotCount` | crates/block-explorers/src/utils.rs:175 | an underscore anywhere in an amount changes nothing |
| `Units.ScaledDown` | crates/block-explorers/src/utils.rs:184-186 | cutting surplus decimals off the text truncates the number |
| `Units.ScaledUp` | crates/block-explorers/src/utils.rs:204-222 | with too few decimals the digits are multiplied by the power of ten that is missing |
| `Units.Takes` | crates/block-explorers/src/utils.rs:173-182 | sign, point and digits are told apart as written |
| `Units.GweiFormsAgree` | crates/block-explorers/src/gas.rs:36-53 | a gas price given as any u64 and as its decimal printing is the same price, in wei |

## Left out

- Provider calls, channels, scheduling and locks: a fetch is a step with an oracle result; the race between ways of fetching an account is one oracle call; keccak256 is a digest that comes with the code.
- ForkHandler.BackendHandler.Poll: what clients send is given turn by turn, before and during each pass over the fetches, and is finite.
- The shared `db` handle of the fork backend: the handler is its only writer between steps.
- `SharedBackend`'s own methods and flushing to disk.
- Cache file formats, modification dates, hashing of contents (an injective function here) and reading artifacts from disk (a set of those that could be read).
- The preprocessed branch of dirty detection with interface hashes and mocks.
- The nested artifact maps by name, version and profile are one map keyed by the triple.
- CacheInner.ResolveSources: parse errors of cached sources are a flag of the compilation, and a file's imports are a given function of path and contents.
- CacheOutput.LostExactlyWhenRewritten: takes the names of a source's contracts as decided by its contents, whatever the version and settings.
- CacheBuild.Compile: the compiler's results are part of the compilation given to it.
- CacheRuns.ReuseEqualsRecompilation: takes the sources of each group as closed under imports that are on disk.
- Sparse output selection, deduplication by version and the compiler jobs between `filter` and `consume`.
- FlattenOrder.CollectDeps: returns the set of files it updates in place in the source.
- FlattenOrder.Insert: the library's sort is modelled as insertion, which a total order makes the same.
- FlattenOrder: paths are sequences of components numbered in byte order; import resolution is given.
- SourceRewrite.ReplaceSourceContent: works on characters, so UTF-8 boundaries are not modelled, and the loop over the map of sources in `apply_updates` is left out.
- SourceRewrite.RebasePath: the conversion of backslashes on Windows.
- Widths of `usize` and of text positions; 32-bit and 64-bit numbers are modelled in source maps, 256-bit ones in units.
- SourceMapParser: input is text of one-byte characters.
- The checks of a signed key authorization after its response was taken; session tokens, the HTTP server and timeouts (a caller may give up at any moment).
- WalletQueue.BrowserWalletState.CheckConnection: which caller checks is part of the model only.
- Hash placeholders are given with the library; names are text of one-byte characters; offsets in link references are not used by the code either.
- `strip_bytecode_placeholders` and `replace_placeholders_and_decode`, which are regular expressions.
- MemDbCommit: whether an account is empty, selfdestructed or created is a flag of the change; block hashes and `clear` are left out.
- Units: the number parsers of the big-integer library are parameters, relied on for plain digits only, and for nothing on the empty text but that it reads as zero if it is read; products that overflow are taken to wrap, as in a release build.
- AST-driven renaming in the flattener, `config.rs`, JSON, HTTP clients, signers, command lines, enum name tables and error formatting.
