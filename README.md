# ChilliSource core, modelled in Dafny

This project models five parts of the ChilliSource engine and proves what
they promise.

- **The content-update engine** (`ContentManagementSystem`). It checks a
  server manifest against the local manifest and the read-only bundle. From
  that it builds a download list and a remove list. It then downloads the
  packages one at a time into `Temp/<id>.packzip`, checking each archive's
  checksum, and installs them: extract, delete Temp and the orphaned package
  directories, save the manifest last.
  - `paths.dfy`: the string helpers at the top of the file.
  - `cms_spec.dfy`: the data model, plus the functions that say what one
    check, one download callback and one install do.
  - `cms_lemmas.dfy`: the properties of those functions.
  - `cms_system.dfy`: the `ContentManagementSystem` class. It holds the
    engine's fields, and its methods run the source's loops; each method is
    proved against the functions.
- **`Event<T>`** (`events.dfy`): a listener list with deferred removal.
  Closing a connection during a notification round only flags it. The
  flagged entries are removed when the round ends, and listeners added
  during a round are not called in it.
- **`CResourceManagerDispenser`** (`resources.dfy`): the registry of
  resource managers.
  - Lookups return the first match.
  - Providers are handed to each manager by kind.
  - Caches are freed in full passes until a pass releases nothing.
- **`LayoutDesc`** (`layout_desc.dfy`): a layout description read from JSON.
  It has a case-insensitive cell-order parser and a strict list of allowed
  keys for each layout type.
- **`GenericMatrix4`** (`matrix4.dfy`): a row-major 4x4 matrix over exact
  reals.
  - The static constructors and free operators are functions.
  - The class keeps the 16-element array, and each in-place operator is
    proved to give what its free counterpart gives.

Shared pieces:
- `wrappers.dfy`: `Option` and `Result`.
- `u32.dfy`: 32-bit unsigned arithmetic, written out: `AddU32` wraps at 2^32.

The engine's foreign calls are parameters. The MD5 digest, Base64, XML
parsing and printing, and the zip reader are the function-typed fields of
`Codecs`. The file system is a `Store`, a map from path to bytes plus a set
of directories. The local data store is its set of keys. A delegate call is
the `Some(report)` an operation returns. A request to the downloader is an
entry appended to `requestedUrls`.

Where the code and its documentation disagree, the model follows the code:
- A server manifest with no root element fails the check (`CheckFailed`, or
  `CheckFailedBlocking` when the cache was purged). It does not report
  "not available".
- `m_runningToDownloadTotal` is never reset between checks:
  `ClearDownloadData` leaves it alone.
- A check without a local manifest looks up the key "" in the local data
  store to decide whether the cache was purged, as the code does, not the
  key InstallUpdates records (see Findings).

## Model

| member | source | states |
|---|---|---|
| U32Arith.AddU32IsMod | Source/ChilliSource/Networking/ContentDownload/ContentManagementSystem.cpp:458 | u32 `+=` is addition modulo 2^32 |
| Paths.FindFirstOf | Source/ChilliSource/Networking/ContentDownload/ContentManagementSystem.cpp:40 | `find_first_of(c, from)` finds the first index at or after `from` holding `c`, or reports that none does |
| Paths.FindLastOf | Source/ChilliSource/Networking/ContentDownload/ContentManagementSystem.cpp:63 | `find_last_of(c)` finds the last index holding `c`, or reports that none does |
| Paths.ContainsDirectoryPath | Source/ChilliSource/Networking/ContentDownload/ContentManagementSystem.cpp:38-41 | true exactly when the path holds a '/' |
| Paths.IsFile | Source/ChilliSource/Networking/ContentDownload/ContentManagementSystem.cpp:49-52 | true exactly when the path holds a '.' |
| Paths.GetPathExcludingFileName | Source/ChilliSource/Networking/ContentDownload/ContentManagementSystem.cpp:61-70 | the directory part is a prefix of the path (exact value: SplitAtLastSlash, NoSlashDependsOnWidth) |
| Paths.GetFileNameExcludingPath | Source/ChilliSource/Networking/ContentDownload/ContentManagementSystem.cpp:79-91 | the file name is a suffix of the path |
| Paths.GetRootFolderExcludingPath | Source/ChilliSource/Networking/ContentDownload/ContentManagementSystem.cpp:99-108 | the root folder is a prefix of the path |
| Paths.LastSlash | Source/ChilliSource/Networking/ContentDownload/ContentManagementSystem.cpp:63 | the index of the last '/' of a path holding one |
| Paths.SplitAtLastSlash | Source/ChilliSource/Networking/ContentDownload/ContentManagementSystem.cpp:61-91 | for a path with a '/' shorter than 2^32 characters, at either size_t width: the directory part is the text before the last '/'; the file name is the text after it, or the whole path when that is empty; for a path not ending in '/', directory + "/" + name gives back the path |
| Paths.NoSlashDependsOnWidth | Source/ChilliSource/Networking/ContentDownload/ContentManagementSystem.cpp:61-108 | for a path without a '/' shorter than 2^32 - 1 characters, the u32 offset equals npos only for a 32-bit size_t; with a 64-bit size_t the directory part and the root folder are the whole path, not "" |
| Paths.RootFolderIsPrefix | Source/ChilliSource/Networking/ContentDownload/ContentManagementSystem.cpp:99-108 | for a path shorter than 2^32 characters, the root folder is the text before the first '/' found from index 1 on |
| ContentSpec.ChopTrailingChars | Source/ChilliSource/Networking/ContentDownload/ContentManagementSystem.cpp:158-164 | the result is a prefix of the input, everything dropped is the chopped character, and the result does not end in it |
| ContentSpec.CalculateChecksum | Source/ChilliSource/Networking/ContentDownload/ContentManagementSystem.cpp:158-164 | Base64 of the MD5 digest with every trailing '=' removed; the result never ends in '=' |
| ContentSpec.BundleCheckFrom | Source/ChilliSource/Networking/ContentDownload/ContentManagementSystem.cpp:513-551 | appends at most one package to the list, keeps what was there, and only deletes files from the DLC location without changing any other |
| ContentSpec.LocalCheckFrom | Source/ChilliSource/Networking/ContentDownload/ContentManagementSystem.cpp:442-470 | appends at most one package to the list, keeps what was there, and touches no file |
| ContentSpec.NoLocalFrom | Source/ChilliSource/Networking/ContentDownload/ContentManagementSystem.cpp:379-391 | appends at most one entry per remaining server package, keeps what was there, and only deletes files |
| ContentSpec.DiffFrom | Source/ChilliSource/Networking/ContentDownload/ContentManagementSystem.cpp:416-484 | appends at most one entry per remaining server package, keeps what was there, only deletes files, and only erases IDs from the local map |
| ContentSpec.CheckAgainst | Source/ChilliSource/Networking/ContentDownload/ContentManagementSystem.cpp:346-510 | a check keeps the download list it started from as a prefix, never creates or changes a file, and never clears the purge flag |
| ContentSpec.AppendToArchive | Source/ChilliSource/Networking/ContentDownload/ContentManagementSystem.cpp:554-575 | the package archive holds its previous bytes (none if absent) followed by the new ones; every other file and the directories are unchanged |
| ContentSpec.OnChunk | Source/ChilliSource/Networking/ContentDownload/ContentManagementSystem.cpp:302-343 | the current package stays or moves to the next one, which then is requested and nothing is reported; a failed download reports failure and a flushed chunk reports nothing |
| ContentSpec.WriteEntriesFrom | Source/ChilliSource/Networking/ContentDownload/ContentManagementSystem.cpp:597-633 | writing the archive entries removes no file and no directory |
| ContentSpec.Extract | Source/ChilliSource/Networking/ContentDownload/ContentManagementSystem.cpp:579-636 | an archive that is not there changes nothing; extraction removes no file outside the package's own directory |
| ContentSpec.DeleteAllFrom | Source/ChilliSource/Networking/ContentDownload/ContentManagementSystem.cpp:247-254 | the DeleteDirectory loop over the remove list: only removes files and directories, and each removed package's directory is gone |
| ContentSpec.InstallStore | Source/ChilliSource/Networking/ContentDownload/ContentManagementSystem.cpp:229-276 | after an install the manifest file exists and neither Temp nor the directory of any removed package does |
| ContentSpec.DelegatePresence | Source/ChilliSource/Networking/ContentDownload/ContentManagementSystem.cpp:279-299 | whether the update-check delegate is set when each callback of a run arrives: one answer per callback |
| ContentLemmas.SumSizesAppend | Source/ChilliSource/Networking/ContentDownload/ContentManagementSystem.cpp:458 | the declared sizes of two lists add up |
| ContentLemmas.DetailsOf | Source/ChilliSource/Networking/ContentDownload/ContentManagementSystem.cpp:460-465 | the PackageDetails of each package, in order |
| ContentLemmas.LocalCheckDecision | Source/ChilliSource/Networking/ContentDownload/ContentManagementSystem.cpp:436-470 | the checksum-match path puts the package on the list exactly when some file (at Location, or ID/Name when Location is empty) is missing or corrupt in the DLC location; otherwise nothing changes |
| ContentLemmas.FirstBundleMiss | Source/ChilliSource/Networking/ContentDownload/ContentManagementSystem.cpp:516-550 | the first file of a package that the bundle lacks or holds corrupt; every file before it is in the bundle |
| ContentLemmas.BundleCheckDecision | Source/ChilliSource/Networking/ContentDownload/ContentManagementSystem.cpp:513-551 | the bundle check deletes from the DLC location every file before the first bundle miss, and appends the package exactly when there is a miss |
| ContentLemmas.BundleCheckAppendsIffMissing | Source/ChilliSource/Networking/ContentDownload/ContentManagementSystem.cpp:513-551 | the bundle check appends the package exactly when some file (always at ID/Name) is missing or corrupt in the bundle, and appends it at most once |
| ContentLemmas.LocalCheckAppendsAtMostOne | Source/ChilliSource/Networking/ContentDownload/ContentManagementSystem.cpp:442-470 | the checksum-match path appends the package at most once, adds its size only then, and deletes no file |
| ContentLemmas.PrependTotal | Source/ChilliSource/Networking/ContentDownload/ContentManagementSystem.cpp:458 | the u32 running total after one appended package and then others is the start plus all their sizes, modulo 2^32 |
| ContentLemmas.AddedInOrderPrependOne | Source/ChilliSource/Networking/ContentDownload/ContentManagementSystem.cpp:417-484 | one appended package followed by in-order additions is again an in-order addition |
| ContentLemmas.AddedInOrderPrepend | Source/ChilliSource/Networking/ContentDownload/ContentManagementSystem.cpp:417-484 | a step that appends at most one package, followed by in-order additions, is again an in-order addition |
| ContentLemmas.AddedInOrderNothing | Source/ChilliSource/Networking/ContentDownload/ContentManagementSystem.cpp:417-484 | adding nothing is an in-order addition |
| ContentLemmas.DiffAddsEachPackageAtMostOnce | Source/ChilliSource/Networking/ContentDownload/ContentManagementSystem.cpp:416-484 | with a local manifest, the list grows by a subsequence of the server packages in manifest order (each at most once), and the running total grows by exactly their sizes modulo 2^32 |
| ContentLemmas.NoLocalAddsEachPackageAtMostOnce | Source/ChilliSource/Networking/ContentDownload/ContentManagementSystem.cpp:379-391 | without a local manifest, the same holds for the bundle-only loop |
| ContentLemmas.LocalChecksumsKeys | Source/ChilliSource/Networking/ContentDownload/ContentManagementSystem.cpp:395-413 | the local ID-to-checksum map has exactly the local package IDs as keys |
| ContentLemmas.DiffConsumesServerIds | Source/ChilliSource/Networking/ContentDownload/ContentManagementSystem.cpp:424-474 | the server loop erases from the map exactly the IDs of the server packages |
| ContentLemmas.RemovalsAreOrphans | Source/ChilliSource/Networking/ContentDownload/ContentManagementSystem.cpp:395-490 | the IDs left to remove are exactly the local package IDs that no server package has |
| ContentLemmas.CheckReportsWork | Source/ChilliSource/Networking/ContentDownload/ContentManagementSystem.cpp:346-510 | the check fails exactly when the manifest has no root (blocking exactly when the cache was purged), and then builds nothing; a manifest with DLC disabled reports "not available" and leaves both lists empty; it reports an update exactly when DLC is enabled and either list is non-empty; the report is blocking exactly when the cache counts as purged; the cache counts as purged exactly when it already was, or DLC is enabled, there is no local manifest and the data store holds the probed key |
| ContentLemmas.CheckBuildsListInOrder | Source/ChilliSource/Networking/ContentDownload/ContentManagementSystem.cpp:379-490 | a parsed manifest adds its packages to the list in order, at most once each, with their sizes added to the total; with a local manifest, the remove list is the local IDs missing from the server |
| ContentLemmas.PurgeBlocksAfterInstall | Source/ChilliSource/Networking/ContentDownload/ContentManagementSystem.cpp:145-148 | with the key InstallUpdates records as the probe (the corrected check): once content was cached, a check without a local manifest marks the cache purged and never reports a plain "available" |
| ContentLemmas.AsWrittenMissesPurge | Source/ChilliSource/Networking/ContentDownload/ContentManagementSystem.cpp:145 | the check as written probes the key "": with a data store holding only the key InstallUpdates records, no local manifest and an update to download, it leaves the cache unpurged and reports a plain "available", where probing the recorded key reports a blocking update |
| ContentLemmas.SumPrefixIsSumSizes | Source/ChilliSource/Networking/ContentDownload/ContentManagementSystem.cpp:311 | the sizes of the first n packages, added one by one, equal their sum |
| ContentLemmas.DownloadedAfterIsSum | Source/ChilliSource/Networking/ContentDownload/ContentManagementSystem.cpp:311 | the u32 downloaded total after n packages is the start plus their sizes, modulo 2^32 |
| ContentLemmas.RequestNext | Source/ChilliSource/Networking/ContentDownload/ContentManagementSystem.cpp:222-226 | requesting the next package extends the requested URLs by exactly that package's URL |
| ContentLemmas.FlushOnlyAppends | Source/ChilliSource/Networking/ContentDownload/ContentManagementSystem.cpp:337-341 | a flushed chunk only appends its bytes to the package's archive: no checksum check, no report |
| ContentLemmas.FailureClearsTemp | Source/ChilliSource/Networking/ContentDownload/ContentManagementSystem.cpp:306-336 | a reported failure (a failed download, or a final chunk whose checksum does not match) leaves no file under Temp |
| ContentLemmas.AdvancesOnlyWhenVerified | Source/ChilliSource/Networking/ContentDownload/ContentManagementSystem.cpp:306-325 | the current package changes only on a final chunk whose archive checksum matches, and then by exactly 1 |
| ContentLemmas.CallbackKeepsSession | Source/ChilliSource/Networking/ContentDownload/ContentManagementSystem.cpp:302-343 | while no result is reported, the packages up to the current one have been requested, in order, and the sizes of those before it counted |
| ContentLemmas.SuccessCountsEveryPackage | Source/ChilliSource/Networking/ContentDownload/ContentManagementSystem.cpp:309-317 | success is reported only after the last package: every URL was requested once, in order, and every size counted |
| ContentLemmas.WriteEntriesFiles | Source/ChilliSource/Networking/ContentDownload/ContentManagementSystem.cpp:600-632 | the extraction loop writes exactly the entries whose name holds a '.' |
| ContentLemmas.LastEntryWins | Source/ChilliSource/Networking/ContentDownload/ContentManagementSystem.cpp:623-626 | each file entry's data is what its path holds, unless a later entry has the same name |
| ContentLemmas.UnnamedKept | Source/ChilliSource/Networking/ContentDownload/ContentManagementSystem.cpp:600-632 | files no entry names are kept as they were |
| ContentLemmas.NothingElseWritten | Source/ChilliSource/Networking/ContentDownload/ContentManagementSystem.cpp:600-632 | the loop writes no path other than the file entries' names |
| ContentLemmas.ExtractInstallsPackage | Source/ChilliSource/Networking/ContentDownload/ContentManagementSystem.cpp:579-636 | extraction installs every file entry and otherwise only keeps files outside the package's old directory |
| ContentLemmas.DeleteAllRemoves | Source/ChilliSource/Networking/ContentDownload/ContentManagementSystem.cpp:682-685 | after the removed packages' directories are deleted, no file lies under any of them |
| ContentLemmas.InstallCommitsManifestLast | Source/ChilliSource/Networking/ContentDownload/ContentManagementSystem.cpp:229-264 | after the install the manifest file holds the server manifest, and no other file lies under Temp or under a removed package's directory |
| ContentLemmas.AsWrittenLosesDelegateAfterFlush | Source/ChilliSource/Networking/ContentDownload/ContentManagementSystem.cpp:297-298 | as written, a flushed manifest chunk followed by the final one finds the delegate cleared when the final chunk arrives |
| ContentLemmas.DelegateKeptUntilFinalChunk | Source/ChilliSource/Networking/ContentDownload/ContentManagementSystem.cpp:279-299 | with the corrected rule, the delegate is set for every callback of a run of flushed chunks ended by a final one |
| ContentSystem.ContentManagementSystem.constructor | Source/ChilliSource/Networking/ContentDownload/ContentManagementSystem.cpp:119-123 | no manifest, empty lists, zero totals, cache not purged |
| ContentSystem.ContentManagementSystem.DoesFileExist | Source/ChilliSource/Networking/ContentDownload/ContentManagementSystem.cpp:657-679 | true exactly when the file is in the bundle (at the DLC prefix) or in the DLC location, as asked, and its checksum matches |
| ContentSystem.ContentManagementSystem.GetRunningTotalToDownload | Source/ChilliSource/Networking/ContentDownload/ContentManagementSystem.cpp:639-642 | the running total of the download list |
| ContentSystem.ContentManagementSystem.GetRunningTotalDownloaded | Source/ChilliSource/Networking/ContentDownload/ContentManagementSystem.cpp:645-648 | the verified total plus the bytes in flight, modulo 2^32 |
| ContentSystem.ContentManagementSystem.ClearDownloadData | Source/ChilliSource/Networking/ContentDownload/ContentManagementSystem.cpp:167-173 | drops the server manifest and both lists; everything else is unchanged |
| ContentSystem.ContentManagementSystem.CheckForUpdates | Source/ChilliSource/Networking/ContentDownload/ContentManagementSystem.cpp:176-200 | clears the download data; if the request did not start, reports a failed check at once (blocking when purged); otherwise installs the delegate |
| ContentSystem.ContentManagementSystem.OnContentManifestDownloadComplete | Source/ChilliSource/Networking/ContentDownload/ContentManagementSystem.cpp:279-299 | flushed chunks accumulate; a failure reports a failed check; the final chunk gives exactly what CheckAgainst gives on all the chunks; the delegate is kept only across flushed chunks |
| ContentSystem.ContentManagementSystem.LoadLocalManifest | Source/ChilliSource/Networking/ContentDownload/ContentManagementSystem.cpp:138-149 | reads the manifest file; marks the cache purged when there is none and the data store holds the key "", the key the source probes |
| ContentSystem.ContentManagementSystem.BuildDownloadList | Source/ChilliSource/Networking/ContentDownload/ContentManagementSystem.cpp:346-510 | the report, manifest, download list, total and purge flag are those of CheckAgainst with the source's probe key ""; the remove list holds each ID to remove exactly once |
| ContentSystem.ContentManagementSystem.AddAllIfNotInBundle | Source/ChilliSource/Networking/ContentDownload/ContentManagementSystem.cpp:379-391 | the bundle-only loop over the server packages |
| ContentSystem.ContentManagementSystem.BuildLocalChecksums | Source/ChilliSource/Networking/ContentDownload/ContentManagementSystem.cpp:395-413 | the local ID-to-checksum map, keeping the first checksum seen for an ID |
| ContentSystem.ContentManagementSystem.CompareWithLocal | Source/ChilliSource/Networking/ContentDownload/ContentManagementSystem.cpp:416-486 | the server loop against the local map: the plan and the unconsumed local IDs are those of DiffFrom, and the remove list holds those IDs |
| ContentSystem.ContentManagementSystem.QueueRemovals | Source/ChilliSource/Networking/ContentDownload/ContentManagementSystem.cpp:487-490 | the remove list holds exactly the given IDs, each once; nothing else changes |
| ContentSystem.ContentManagementSystem.AddToDownloadListIfNotInBundle | Source/ChilliSource/Networking/ContentDownload/ContentManagementSystem.cpp:513-551 | the state after the loop is BundleCheckFrom of the state before |
| ContentSystem.ContentManagementSystem.AddToDownloadListIfCorrupt | Source/ChilliSource/Networking/ContentDownload/ContentManagementSystem.cpp:442-470 | the state after the loop is LocalCheckFrom of the state before |
| ContentSystem.ContentManagementSystem.DownloadUpdates | Source/ChilliSource/Networking/ContentDownload/ContentManagementSystem.cpp:203-219 | an empty list reports success at once; otherwise creates Temp, requests the first package and starts a download session |
| ContentSystem.ContentManagementSystem.DownloadNextPackage | Source/ChilliSource/Networking/ContentDownload/ContentManagementSystem.cpp:222-226 | advances the current package by 1 and requests it |
| ContentSystem.ContentManagementSystem.SavePackageToFile | Source/ChilliSource/Networking/ContentDownload/ContentManagementSystem.cpp:554-575 | appends the bytes to `Temp/<id>.packzip`; a final chunk succeeds exactly when the archive's checksum matches |
| ContentSystem.ContentManagementSystem.DeleteDirectory | Source/ChilliSource/Networking/ContentDownload/ContentManagementSystem.cpp:682-685 | removes the directory and everything under it |
| ContentSystem.ContentManagementSystem.OnContentDownloadComplete | Source/ChilliSource/Networking/ContentDownload/ContentManagementSystem.cpp:302-343 | the new state is that of OnChunk, including the fall-through from a checksum mismatch into the failure case; a failure is reported only when the delegate is set |
| ContentSystem.ContentManagementSystem.ExtractFilesFromPackage | Source/ChilliSource/Networking/ContentDownload/ContentManagementSystem.cpp:579-636 | nothing when the archive cannot be opened; otherwise deletes the package directory and writes every entry |
| ContentSystem.ContentManagementSystem.InstallUpdates | Source/ChilliSource/Networking/ContentDownload/ContentManagementSystem.cpp:229-276 | with work to do: extracts, deletes Temp and the removed directories, saves the manifest last, clears the purge flag, records the cached key, reports success; with none: reports failure and touches no file; both lists and the manifest are cleared either way |
| Events.FindFrom | Source/ChilliSource/Core/Event/Event.h:87-90 | the first entry from `i` on holding the connection, or that none does |
| Events.OpenOnly | Source/ChilliSource/Core/Event/Event.h:139-152 | the open entries of a list, taken from it |
| Events.TrueIndices | Source/ChilliSource/Core/Event/Event.h:119-125 | the indices whose flag is set, in increasing order, each exactly once |
| Events.OpenOnlyKeepsOpen | Source/ChilliSource/Core/Event/Event.h:139-152 | every open entry is kept, and the list is unchanged exactly when every entry is open |
| Events.Event.constructor | Source/ChilliSource/Core/Event/Event.h:164 | an empty list, not notifying |
| Events.Event.OpenConnection | Source/ChilliSource/Core/Event/Event.h:64-76 | appends one open entry holding the fresh connection that is returned; earlier entries are unchanged |
| Events.Event.CloseConnection | Source/ChilliSource/Core/Event/Event.h:85-104 | outside a round, removes exactly the first entry for the connection and keeps the rest in order; during a round, only flags it closed; an unknown connection changes nothing |
| Events.Event.RemoveClosedConnections | Source/ChilliSource/Core/Event/Event.h:139-152 | the list becomes exactly its open entries, in order |
| Events.CloseFlag | Source/ChilliSource/Core/Event/Event.h:92-99 | closing during a round flags exactly the first entry holding the connection and keeps every delegate, connection and other flag |
| Events.Event.React | Source/ChilliSource/Core/Event/Event.h:123 | what a delegate called during a round does: the list becomes Apply of its reactions (appends for the listeners it opens, each with a new connection, and closed flags for the connections it closes); earlier entries keep their delegate and connection, and flags only go from open to closed |
| Events.Event.Visit | Source/ChilliSource/Core/Event/Event.h:119-125 | one step of the round: entry i is open when reached exactly when `open`, its delegate is then called and the list changes by Apply of its reactions; a closed entry changes nothing |
| Events.Event.VisitAll | Source/ChilliSource/Core/Event/Event.h:119-125 | the loop over the first n entries: the trace of every step, from the list on entry to the list at the end, and every entry still open at the end was called |
| Events.Event.NotifyConnections | Source/ChilliSource/Core/Event/Event.h:112-130 | with the trace of the round (the list as each entry is reached): entry j is called exactly when it is open in the list at the moment it is reached, in index order, only entries below the count taken on entry; each call changes the list by Apply of the delegate's reactions and a skipped entry changes nothing; afterwards not notifying, and the list is the open entries of the final list, in order |
| Resources.ReleaseAllUnused | Source/ChilliSource/Core/Resource/ResourceManagerDispenser.cpp:136 | one release call returns 0 exactly when the manager has nothing left to release, and changes only that |
| Resources.FirstMatch | Source/ChilliSource/Core/Resource/ResourceManagerDispenser.cpp:69-81 | the first manager from `i` on that matches, or that none does |
| Resources.Useful | Source/ChilliSource/Core/Resource/ResourceManagerDispenser.cpp:177-185 | the providers kept are taken from the input and can create the kind |
| Resources.Pass | Source/ChilliSource/Core/Resource/ResourceManagerDispenser.cpp:133-137 | one pass releases every manager once, in order |
| Resources.PassShrinks | Source/ChilliSource/Core/Resource/ResourceManagerDispenser.cpp:131-139 | a pass with something left to release shrinks what is left; with nothing left it releases 0 |
| Resources.Free | Source/ChilliSource/Core/Resource/ResourceManagerDispenser.cpp:131-139 | passes repeat until one releases 0; the list keeps its length |
| Resources.PassAccounts | Source/ChilliSource/Core/Resource/ResourceManagerDispenser.cpp:130-137 | the u32 count of a pass is what it released modulo 2^32; what is left shrinks by what it released; it releases nothing exactly when nothing is left |
| Resources.FreeDrainsCaches | Source/ChilliSource/Core/Resource/ResourceManagerDispenser.cpp:127-143 | unless a pass count wraps to 0, freeing the caches leaves every manager with nothing to release and otherwise unchanged |
| Resources.PendingZero | Source/ChilliSource/Core/Resource/ResourceManagerDispenser.cpp:139 | nothing left overall means nothing left for any manager |
| Resources.WrappedPassStops | Source/ChilliSource/Core/Resource/ResourceManagerDispenser.cpp:130-139 | two managers releasing 2^31 each give a u32 pass count of 0, which ends the loop although resources were released |
| Resources.RegisterKeepsLookups | Source/ChilliSource/Core/Resource/ResourceManagerDispenser.cpp:57-81 | registering a manager changes no lookup that found one; it can only answer a lookup that found none |
| Resources.UsefulAppend | Source/ChilliSource/Core/Resource/ResourceManagerDispenser.cpp:179-185 | the filter keeps input order: it distributes over concatenation |
| Resources.UsefulKeepsCapable | Source/ChilliSource/Core/Resource/ResourceManagerDispenser.cpp:179-185 | no provider that can create the kind is dropped |
| Resources.ResourceManagerDispenser.constructor | Source/ChilliSource/Core/Resource/ResourceManagerDispenser.cpp:29-33 | no managers, owned by the given application |
| Resources.ResourceManagerDispenser.RegisterResourceManager | Source/ChilliSource/Core/Resource/ResourceManagerDispenser.cpp:57-61 | appends the manager, its owner set to the application |
| Resources.ResourceManagerDispenser.GetResourceManagerWithInterface | Source/ChilliSource/Core/Resource/ResourceManagerDispenser.cpp:69-81 | the first manager that is the interface, or none when no manager is |
| Resources.ResourceManagerDispenser.GetResourceManagerForType | Source/ChilliSource/Core/Resource/ResourceManagerDispenser.cpp:89-101 | the first manager of the resource type, or none |
| Resources.ResourceManagerDispenser.GetResourceManagerForExtension | Source/ChilliSource/Core/Resource/ResourceManagerDispenser.cpp:109-121 | the first manager of the extension, or none |
| Resources.ResourceManagerDispenser.FreeResourceCaches | Source/ChilliSource/Core/Resource/ResourceManagerDispenser.cpp:127-143 | the managers become Free of the managers before; the cache is invalidated exactly once |
| Resources.ResourceManagerDispenser.ReleasePass | Source/ChilliSource/Core/Resource/ResourceManagerDispenser.cpp:133-137 | one pass of the loop, with its u32 count |
| Resources.ResourceManagerDispenser.SetResourceProviders | Source/ChilliSource/Core/Resource/ResourceManagerDispenser.cpp:171-188 | each manager gets exactly the providers of its kind, in input order; nothing else changes |
| LayoutDescs.LowerChar | Source/ChilliSource/UI/Layout/LayoutDesc.cpp:63 | ASCII upper-case letters become lower case; every other character is kept |
| LayoutDescs.Lower | Source/ChilliSource/UI/Layout/LayoutDesc.cpp:63 | lower-cases each character in place |
| LayoutDescs.ParseCellOrder | Source/ChilliSource/UI/Layout/LayoutDesc.cpp:57-76 | "colmajor" and "rowmajor" in any letter case, and a fault for anything else, each as an if-and-only-if |
| LayoutDescs.ParseCellOrderIgnoresCase | Source/ChilliSource/UI/Layout/LayoutDesc.cpp:62-72 | strings equal up to letter case parse alike |
| LayoutDescs.ParseCellOrderMixedCase | Source/ChilliSource/UI/Layout/LayoutDesc.cpp:62-71 | "RowMajor" parses as row-major |
| LayoutDescs.ParseCellOrderRejectsOthers | Source/ChilliSource/UI/Layout/LayoutDesc.cpp:74-75 | "row-major" is fatal |
| LayoutDescs.Assign | Source/ChilliSource/UI/Layout/LayoutDesc.cpp:198-237 | a recognised property fails exactly when it is CellOrder with a value that does not parse, with that fault; otherwise the layout type is kept |
| LayoutDescs.InitFrom | Source/ChilliSource/UI/Layout/LayoutDesc.cpp:181-288 | an accepted description keeps the layout type; a rejected one names a non-string value, an unknown property or a bad cell order, never a type fault |
| LayoutDescs.AssignOnlyItsField | Source/ChilliSource/UI/Layout/LayoutDesc.cpp:198-237 | each recognised key sets its own field to the parse of its value and no other field; "Type" sets nothing; an unparsable cell order is fatal |
| LayoutDescs.InitAcceptsExactly | Source/ChilliSource/UI/Layout/LayoutDesc.cpp:191-242 | a description is accepted exactly when every member has a string value, a key of its layout, and a cell order that parses |
| LayoutDescs.InitRejectsFirstBadMember | Source/ChilliSource/UI/Layout/LayoutDesc.cpp:191-242 | the first rejected member names the fault: a non-string value, an unknown key, or a bad cell order |
| LayoutDescs.InitSetsLastValues | Source/ChilliSource/UI/Layout/LayoutDesc.cpp:191-242 | after an accepted description each field holds the parse of its last property, or its initial value, and the type is untouched |
| LayoutDescs.Get | Source/ChilliSource/UI/Layout/LayoutDesc.cpp:83 | a member with the key is found exactly when one exists |
| LayoutDescs.Describe | Source/ChilliSource/UI/Layout/LayoutDesc.cpp:81-100 | a description without "Type" is an assertion failure (MissingType); an accepted one has a known layout type |
| LayoutDescs.DescribeDispatch | Source/ChilliSource/UI/Layout/LayoutDesc.cpp:81-100 | no "Type" is an assertion failure; an accepted description has a known type, keeps it, and has every member accepted by the grid rules for a grid and by the list rules otherwise |
| LayoutDescs.WrongLayoutPropertyIsFatal | Source/ChilliSource/UI/Layout/LayoutDesc.cpp:181-288 | a grid description with NumCells, or a list description with NumRows or CellOrder, is rejected |
| LayoutDescs.KeySetsDiffer | Source/ChilliSource/UI/Layout/LayoutDesc.cpp:181-288 | NumCells is not a grid key; NumRows and CellOrder are not list keys |
| LayoutDescs.LayoutDesc.WithFields | Source/ChilliSource/UI/Layout/LayoutDesc.cpp:81 | the fields start at their initial values |
| LayoutDescs.LayoutDesc.InitAsGrid | Source/ChilliSource/UI/Layout/LayoutDesc.cpp:181-243 | the fields, or the fault, are those of InitFrom under the grid rules |
| LayoutDescs.LayoutDesc.GridMember | Source/ChilliSource/UI/Layout/LayoutDesc.cpp:198-237 | one member of a grid description: a key outside the grid keys is fatal; otherwise the fields, or the fault, are those of Assign |
| LayoutDescs.LayoutDesc.InitAsList | Source/ChilliSource/UI/Layout/LayoutDesc.cpp:246-288 | the fields, or the fault, are those of InitFrom under the list rules |
| LayoutDescs.LayoutDesc.ListMember | Source/ChilliSource/UI/Layout/LayoutDesc.cpp:259-286 | one member of a list description: a key outside the list keys is fatal; otherwise the fields, or the fault, are those of Assign |
| LayoutDescs.FromJson | Source/ChilliSource/UI/Layout/LayoutDesc.cpp:81-100 | a fresh description with the fields Describe gives, or its fault |
| Matrices.Transpose | Source/ChilliSource/Core/Math/Matrix4.h:721-728 | entry (r, c) of the result is entry (c, r) of the input |
| Matrices.Mul | Source/ChilliSource/Core/Math/Matrix4.h:1033-1058 | the row-by-column product; stated through IdentityNeutral, TranslationsCompose, OnesProduct and the in-place MulAssign |
| Matrices.Determinant | Source/ChilliSource/Core/Math/Matrix4.h:775-783 | the determinant of the matrix: equal to the cofactor expansion along the first row (DeterminantIsLaplace) and unchanged by transposition (DeterminantOfTranspose); a zero first or last row gives 0 |
| Matrices.Add | Source/ChilliSource/Core/Math/Matrix4.h:1021-1024 | entry-wise sum |
| Matrices.Sub | Source/ChilliSource/Core/Math/Matrix4.h:1027-1030 | entry-wise difference |
| Matrices.Scale | Source/ChilliSource/Core/Math/Matrix4.h:1061-1070 | every entry times the scalar |
| Matrices.Div | Source/ChilliSource/Core/Math/Matrix4.h:1073-1076 | every entry divided by the scalar |
| Matrices.Inverse | Source/ChilliSource/Core/Math/Matrix4.h:731-737 | a matrix whose determinant is 0 is returned unchanged |
| Matrices.CreateScale | Source/ChilliSource/Core/Math/Matrix4.h:629-636 | the scale on the diagonal, m[15] = 1, 0 elsewhere |
| Matrices.CreateTranslation | Source/ChilliSource/Core/Math/Matrix4.h:619-626 | the first three rows are those of the identity; the last row is the translation followed by 1 |
| Matrices.GetTranslation | Source/ChilliSource/Core/Math/Matrix4.h:866-869 | the first three entries of the last row |
| Matrices.SelfMulFrom | Source/ChilliSource/Core/Math/Matrix4.h:973-998 | the aliased `a *= a` writes entries in index order and leaves the entries not yet written alone |
| Matrices.IdentityEntries | Source/ChilliSource/Core/Math/Matrix4.h:516 | k_identity has 1 on the diagonal and 0 elsewhere |
| Matrices.TransposeInvolution | Source/ChilliSource/Core/Math/Matrix4.h:721-728 | transposing twice gives back the matrix |
| Matrices.SameEntries | Source/ChilliSource/Core/Math/Matrix4.h:1079-1087 | two matrices with equal entries are equal |
| Matrices.IdentityNeutral | Source/ChilliSource/Core/Math/Matrix4.h:1033-1058 | the identity is neutral on both sides of the product |
| Matrices.SubUndoesAdd | Source/ChilliSource/Core/Math/Matrix4.h:1021-1030 | subtracting what was added gives back the matrix |
| Matrices.DivUndoesScale | Source/ChilliSource/Core/Math/Matrix4.h:1061-1076 | dividing by a nonzero scalar undoes scaling by it |
| Matrices.TranslationRoundTrip | Source/ChilliSource/Core/Math/Matrix4.h:619-626 | GetTranslation reads back what CreateTranslation stored |
| Matrices.TranslationsCompose | Source/ChilliSource/Core/Math/Matrix4.h:619-626 | the product of two translations translates by the sum of their vectors |
| Matrices.IdentityDeterminant | Source/ChilliSource/Core/Math/Matrix4.h:775-783 | the identity has determinant 1 and is its own inverse |
| Matrices.ScaleDeterminant | Source/ChilliSource/Core/Math/Matrix4.h:775-783 | the determinant of a scale matrix is the product of its factors |
| Matrices.DeterminantIsLaplace | Source/ChilliSource/Core/Math/Matrix4.h:775-783 | for every matrix, the source's 24-term determinant equals the independent cofactor expansion along the first row (`Laplace`, built from 3x3 minors `Det3`) |
| Matrices.DeterminantOfTranspose | Source/ChilliSource/Core/Math/Matrix4.h:775-783 | for every matrix, the determinant of its transpose is its determinant |
| Matrices.ScaleInverse | Source/ChilliSource/Core/Math/Matrix4.h:731-757 | a scale matrix with no zero factor inverts to the scale by the reciprocals |
| Matrices.SingularInverseIsInput | Source/ChilliSource/Core/Math/Matrix4.h:731-737 | the all-ones matrix is singular and Inverse returns it unchanged |
| Matrices.SelfMulKeeps | Source/ChilliSource/Core/Math/Matrix4.h:973-998 | entries the aliased product has written are not written again |
| Matrices.OnesFirstRow | Source/ChilliSource/Core/Math/Matrix4.h:975-980 | for the all-ones matrix the aliased product's first row is all fours |
| Matrices.OnesProduct | Source/ChilliSource/Core/Math/Matrix4.h:1033-1058 | entry (1, 0) of the all-ones matrix squared is 4 |
| Matrices.SelfProductAsWrittenDiffers | Source/ChilliSource/Core/Math/Matrix4.h:973-998 | as written, `a *= a` on the all-ones matrix gives 7 at entry (1, 0), where the product has 4 |
| Matrices.Matrix4.constructor | Source/ChilliSource/Core/Math/Matrix4.h:760-763 | the default constructor gives the identity |
| Matrices.Matrix4.Of | Source/ChilliSource/Core/Math/Matrix4.h:766-772 | the constructor from 16 values stores them in row-major order |
| Matrices.Matrix4.At | Source/ChilliSource/Core/Math/Matrix4.h:939-950 | `operator()(r, c)` is m[c + r * 4], for r and c below 4 |
| Matrices.Matrix4.Identity | Source/ChilliSource/Core/Math/Matrix4.h:786-792 | sets the identity in place |
| Matrices.Matrix4.TransposeInPlace | Source/ChilliSource/Core/Math/Matrix4.h:795-803 | gives what the static Transpose gives |
| Matrices.Matrix4.InverseInPlace | Source/ChilliSource/Core/Math/Matrix4.h:806-809 | gives what the static Inverse gives |
| Matrices.Matrix4.AddAssign | Source/ChilliSource/Core/Math/Matrix4.h:953-960 | gives what the free `+` gives on the operands before the call, also when `b` is this matrix |
| Matrices.Matrix4.SubAssign | Source/ChilliSource/Core/Math/Matrix4.h:963-970 | gives what the free `-` gives, also when `b` is this matrix |
| Matrices.Matrix4.ScaleAssign | Source/ChilliSource/Core/Math/Matrix4.h:1001-1008 | gives what the free scalar `*` gives |
| Matrices.Matrix4.DivAssign | Source/ChilliSource/Core/Math/Matrix4.h:1011-1018 | gives what the free `/` gives |
| Matrices.Matrix4.MulAssignAsWritten | Source/ChilliSource/Core/Math/Matrix4.h:973-998 | as written: the product when `b` is another matrix; the aliased SelfMulFrom when `b` is this matrix |
| Matrices.Matrix4.MulAssign | Source/ChilliSource/Core/Math/Matrix4.h:973-998 | with both operands copied first: the product of the operands before the call, also when `b` is this matrix |
| Matrices.Matrix4.Translate | Source/ChilliSource/Core/Math/Matrix4.h:812-815 | through the as-written `*=` on a new operand: the matrix times CreateTranslation(t) |
| Matrices.Matrix4.ScaleBy | Source/ChilliSource/Core/Math/Matrix4.h:818-821 | through the as-written `*=` on a new operand: the matrix times CreateScale(s) |
| Matrices.Equals | Source/ChilliSource/Core/Math/Matrix4.h:1079-1087 | true exactly when all 16 entries are equal |
| Matrices.NotEquals | Source/ChilliSource/Core/Math/Matrix4.h:1090-1093 | the negation of `==` |

## Left out

- The MD5 digest, Base64 encoding, TinyXML parsing and saving, and the minizip reader are foreign libraries. They are parameters (`Codecs`), not modelled.
- The real file system, the `LocalDataStore` and the `IContentDownloader` transport are I/O. They are a `Store` value, a set of keys, and an appended list of requested URLs.
- The asynchronous callbacks are explicit method calls. A delegate call is the report a method returns.
- Whether the downloader started the manifest request is a parameter of `CheckForUpdates`.
- `GetRunningTotalDownloaded` takes the downloader's in-flight byte count as a parameter.
- The iteration order of `std::unordered_map` is unspecified. The remove list is stated as a set, with each ID exactly once.
- `ExtractFilesFromPackage` truncates entry names to a 256-byte buffer. It also prefixes paths with "/" and relies on the file system to create directories. Names are used as given, and a created directory is recorded as a set element.
- `ContentSystem.ContentManagementSystem.OnContentManifestDownloadComplete`: this is the corrected delegate rule; the source clears the delegate after every callback. The as-written rule is `ContentSpec.KeepsCheckDelegateAsWritten` (see Findings).
- `Events.Event.NotifyConnections` requires that no round is running. A notification started from inside a delegate is not modelled. Neither is the `Connection` object's pointer back to its event, nor the destructor that closes it.
- The delegates' own effects beyond opening and closing connections on the same event are not modelled.
- `Resources.ResourceManagerDispenser.FreeResourceCaches`: managers are held by value. Pointer identity and registering the same manager twice are not modelled. `ReleaseAllUnused` is a list of the counts its successive calls return.
- `Resources.FreeDrainsCaches`: each manager's `ReleaseAllUnused` is a list of nonzero counts followed by an implicit 0 (`Released` is 1 to 2^32-1). A manager that returns 0 in one pass and releases more in a later pass, after another manager freed references it depended on, cannot be expressed. Such a manager would make the source loop again, while the model counts it as drained.
- `Matrices.Mul`: it has no `ensures` of its own, to keep the solver's cost low. Its properties are `Matrices.IdentityNeutral`, `Matrices.TranslationsCompose`, `Matrices.OnesProduct` and the in-place `Matrices.Matrix4.MulAssign`.
- `Resources.FreeDrainsCaches` needs the total still to release to be below 2^32. A pass whose u32 count wraps to 0 ends the loop early (`Resources.WrappedPassStops`).
- The resource group manager is reduced to a count of `InvalidateCache` calls. The singleton accessors and the destructor are not modelled.
- `ParseLayoutType`, `Core::ParseVector4`, `ParseU32` and `ParseF32` are foreign. They are fields of `Parsers`.
- The JSON object is its members in jsoncpp's iteration order. `asString` on a non-string "Type" is modelled as a non-string-property fault.
- The default field values from `LayoutDesc.h` are not shown, so they are a parameter. A fatal log or a failed assertion is a `Fault` that ends construction.
- The matrix element type is exact reals. f32 rounding, NaN and infinities are not modelled, and `Matrices.Div` requires a nonzero divisor.
- The projections, rotations, `CreateTransform`, `CreateLookAt` and `Decompose` are not modelled. They depend on trigonometry, square roots and quaternions.
- The unrolled 16-statement operators are loops over the entries, in the source's order.
- `Matrices.Inverse` is not proved to invert a nonsingular matrix in general. Only the identity and scale matrices are proved. The general statement, like the transpose of a product, is too large for the solver as stated here.

## Findings

| source | as written | input that shows it | evidently intended | confidence | as-written member | corrected member |
|---|---|---|---|---|---|---|
| Source/ChilliSource/Networking/ContentDownload/ContentManagementSystem.cpp:297-298 | the update-check delegate is cleared after every manifest callback, flushed chunks included | a manifest delivered as one flushed chunk and then the final chunk: the final chunk calls an empty delegate | keep the delegate until the final chunk or a failure | not executed | ContentLemmas.AsWrittenLosesDelegateAfterFlush | ContentLemmas.DelegateKeptUntilFinalChunk |
| Source/ChilliSource/Core/Math/Matrix4.h:973-998 | `operator*=` copies only `*this`; when `in_b` is `*this`, later entries read entries already overwritten | `a *= a` with `a` all ones: entry (1, 0) becomes 7 instead of 4 | the product of the operands before the call | not executed | Matrices.SelfProductAsWrittenDiffers | Matrices.Matrix4.MulAssign |
| Source/ChilliSource/Networking/ContentDownload/ContentManagementSystem.cpp:145-148 | the purge check looks up the key ""; the class follows this | a store holding only the key InstallUpdates sets (`_CMSCachedDLC`), with the manifest file deleted and an update to fetch: no purge is detected and the update is reported as plain "available" | look up the key InstallUpdates stores | not executed | ContentLemmas.AsWrittenMissesPurge | ContentLemmas.PurgeBlocksAfterInstall |
