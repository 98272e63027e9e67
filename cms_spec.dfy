/**
 * The content-update engine of ContentManagementSystem.cpp: data model and the
 * functions that specify what one check, one download callback and one install
 * do to the engine's state. The class in cms_system.dfy runs the source's
 * loops and is proved against these functions; the lemmas below state what
 * the source promises about them.
 */
module ContentSpec {
  import opened Wrappers
  import Paths
  import opened U32Arith

  type Bytes = seq<bv8>

  /** File name of the manifest in the DLC storage location. */
  const MANIFEST_FILE: string := "ContentManifest.moman"
  /** Directory the package archives are downloaded into. */
  const TEMP_DIR: string := "Temp"
  /** The key the install step stores to record that content was cached. */
  const HAS_CACHED_KEY: string := "_CMSCachedDLC"
  /** The key the source's purge check looks up (the empty string, not HAS_CACHED_KEY). */
  const PURGE_PROBE_KEY: string := ""

  /** A File element of a manifest; absent attributes read as "". */
  datatype FileEntry = FileEntry(name: string, location: string, checksum: string)

  /** A Package element of a manifest; absent attributes read as "" and 0. */
  datatype PackageEntry = PackageEntry(
    id: string, checksum: string, url: string, size: U32, minVersion: string, files: seq<FileEntry>)

  /** A manifest document that has a root element. */
  datatype Manifest = Manifest(dlcEnabled: bool, packages: seq<PackageEntry>)

  /** An entry of the download list (m_packageDetails). */
  datatype PackageDetails = PackageDetails(id: string, url: string, checksum: string, size: U32)

  /** One entry of a package archive, as the unzip library yields it. */
  datatype ZipEntry = ZipEntry(name: string, data: Bytes)

  /**
   * The foreign libraries the engine calls: the MD5 digest, Base64 encoding,
   * XML parsing (None when the document has no root element) and saving, and
   * the zip reader (None when the archive cannot be opened).
   */
  datatype Codecs = Codecs(
    md5: Bytes -> Bytes,
    base64: Bytes -> string,
    parseManifest: Bytes -> Option<Manifest>,
    printManifest: Manifest -> Bytes,
    unzip: Bytes -> Option<seq<ZipEntry>>)

  /**
   * What the engine reads but never changes: the libraries, the read-only
   * bundle (paths of the package storage location), the bundle's DLC folder
   * prefix and the width of size_t.
   */
  datatype Env = Env(codecs: Codecs, bundle: map<string, Bytes>, bundleDlcPath: string, width: Paths.Width)

  /** The DLC storage location: files by path, and the directories created. */
  datatype Store = Store(files: map<string, Bytes>, dirs: set<string>)

  /** IContentDownloader::Result. */
  datatype DownloaderResult = Downloaded | DownloadFailed | Flushed

  /** ContentManagementSystem::Result. */
  datatype Result = Succeeded | Failed

  /** ContentManagementSystem::CheckForUpdatesResult. */
  datatype CheckResult = Available | AvailableBlocking | NotAvailable | CheckFailed | CheckFailedBlocking

  // ---------------------------------------------------------------------
  // Checksums and file checks
  // ---------------------------------------------------------------------

  /** StringUtils::ChopTrailingChars: drops every trailing occurrence of `c`. */
  function ChopTrailingChars(s: string, c: char): (r: string)
    ensures |r| <= |s| && r == s[..|r|]
    ensures forall i :: |r| <= i < |s| ==> s[i] == c
    ensures |r| > 0 ==> r[|r| - 1] != c
  {
    if |s| > 0 && s[|s| - 1] == c then ChopTrailingChars(s[..|s| - 1], c) else s
  }

  /**
   * CalculateChecksum over the bytes of a file: Base64 of the MD5 digest with
   * the trailing '=' padding removed. The result never ends in '='.
   */
  function CalculateChecksum(codecs: Codecs, content: Bytes): (r: string)
    ensures var encoded := codecs.base64(codecs.md5(content));
      |r| <= |encoded| && r == encoded[..|r|] && forall i :: |r| <= i < |encoded| ==> encoded[i] == '='
    ensures |r| > 0 ==> r[|r| - 1] != '='
  {
    ChopTrailingChars(codecs.base64(codecs.md5(content)), '=')
  }

  /** DoesFileExist(path, checksum, true): the file is in the bundle and its checksum matches. */
  predicate InBundle(env: Env, path: string, checksum: string)
  {
    var full := env.bundleDlcPath + path;
    full in env.bundle && CalculateChecksum(env.codecs, env.bundle[full]) == checksum
  }

  /** DoesFileExist(path, checksum, false): the file is in the DLC location and its checksum matches. */
  predicate InStore(env: Env, files: map<string, Bytes>, path: string, checksum: string)
  {
    path in files && CalculateChecksum(env.codecs, files[path]) == checksum
  }

  /** The path the bundle check uses: always ID/Name. */
  function BundlePath(p: PackageEntry, f: FileEntry): string
  {
    p.id + "/" + f.name
  }

  /** The path the local check uses: Location, or ID/Name when Location is empty. */
  function LocalPath(p: PackageEntry, f: FileEntry): string
  {
    if f.location == "" then p.id + "/" + f.name else f.location
  }

  // ---------------------------------------------------------------------
  // Building the download list
  // ---------------------------------------------------------------------

  /** The part of the engine's state a check changes. */
  datatype Plan = Plan(details: seq<PackageDetails>, files: map<string, Bytes>, total: U32)

  function Details(p: PackageEntry): PackageDetails
  {
    PackageDetails(p.id, p.url, p.checksum, p.size)
  }

  /** `after` holds some of the files of `before`, with their contents unchanged. */
  predicate Shrinks(before: map<string, Bytes>, after: map<string, Bytes>)
  {
    after.Keys <= before.Keys && forall f :: f in after ==> after[f] == before[f]
  }

  /** Push a package on the download list and add its declared size to the running total. */
  function Append(plan: Plan, p: PackageEntry): Plan
  {
    plan.(details := plan.details + [Details(p)], total := AddU32(plan.total, p.size))
  }

  /**
   * AddToDownloadListIfNotInBundle from file `k` on: the first file missing or
   * corrupt in the bundle puts the package on the list; each file found in the
   * bundle before it is deleted from the DLC location.
   */
  function BundleCheckFrom(env: Env, p: PackageEntry, k: nat, plan: Plan): (r: Plan)
    requires k <= |p.files|
    ensures |plan.details| <= |r.details| <= |plan.details| + 1 && r.details[..|plan.details|] == plan.details
    ensures Shrinks(plan.files, r.files)
    decreases |p.files| - k
  {
    if k == |p.files| then plan
    else if !InBundle(env, BundlePath(p, p.files[k]), p.files[k].checksum) then Append(plan, p)
    else BundleCheckFrom(env, p, k + 1, plan.(files := plan.files - {BundlePath(p, p.files[k])}))
  }

  /**
   * The loop over the files of a package whose checksum matches the local
   * manifest, from file `k` on: the first file missing or corrupt in the DLC
   * location puts the package on the list and ends the loop.
   */
  function LocalCheckFrom(env: Env, p: PackageEntry, k: nat, plan: Plan): (r: Plan)
    requires k <= |p.files|
    ensures |plan.details| <= |r.details| <= |plan.details| + 1 && r.details[..|plan.details|] == plan.details
    ensures r.files == plan.files
    decreases |p.files| - k
  {
    if k == |p.files| then plan
    else if !InStore(env, plan.files, LocalPath(p, p.files[k]), p.files[k].checksum) then Append(plan, p)
    else LocalCheckFrom(env, p, k + 1, plan)
  }

  /** The loop over the server packages when there is no local manifest, from package `i` on. */
  function NoLocalFrom(env: Env, pkgs: seq<PackageEntry>, i: nat, plan: Plan): (r: Plan)
    requires i <= |pkgs|
    ensures |plan.details| <= |r.details| <= |plan.details| + (|pkgs| - i)
    ensures r.details[..|plan.details|] == plan.details
    ensures Shrinks(plan.files, r.files)
    decreases |pkgs| - i
  {
    if i == |pkgs| then plan else NoLocalFrom(env, pkgs, i + 1, BundleCheckFrom(env, pkgs[i], 0, plan))
  }

  /** The state of the loop over the server packages: the plan and the unconsumed local IDs. */
  datatype DiffState = DiffState(plan: Plan, local: map<string, string>)

  /** One iteration of the loop over the server packages when there is a local manifest. */
  function ServerStep(env: Env, p: PackageEntry, st: DiffState): DiffState
  {
    if p.id in st.local then
      var plan := if st.local[p.id] != p.checksum then BundleCheckFrom(env, p, 0, st.plan)
                  else LocalCheckFrom(env, p, 0, st.plan);
      DiffState(plan, st.local - {p.id})
    else
      DiffState(BundleCheckFrom(env, p, 0, st.plan), st.local)
  }

  /** The loop over the server packages when there is a local manifest, from package `i` on. */
  function DiffFrom(env: Env, pkgs: seq<PackageEntry>, i: nat, st: DiffState): (r: DiffState)
    requires i <= |pkgs|
    ensures |st.plan.details| <= |r.plan.details| <= |st.plan.details| + (|pkgs| - i)
    ensures r.plan.details[..|st.plan.details|] == st.plan.details
    ensures Shrinks(st.plan.files, r.plan.files) && r.local.Keys <= st.local.Keys
    decreases |pkgs| - i
  {
    if i == |pkgs| then st else DiffFrom(env, pkgs, i + 1, ServerStep(env, pkgs[i], st))
  }

  /**
   * The map from local package ID to checksum, from local package `i` on;
   * unordered_map::insert keeps the first checksum seen for an ID.
   */
  function LocalChecksumsFrom(pkgs: seq<PackageEntry>, i: nat, m: map<string, string>): map<string, string>
    requires i <= |pkgs|
    decreases |pkgs| - i
  {
    if i == |pkgs| then m
    else LocalChecksumsFrom(pkgs, i + 1, if pkgs[i].id in m then m else m[pkgs[i].id := pkgs[i].checksum])
  }

  function Ids(pkgs: seq<PackageEntry>): set<string>
  {
    set p | p in pkgs :: p.id
  }

  /** The local manifest, as LoadLocalManifest reads it: None when the file is absent or has no root. */
  function LocalManifest(env: Env, files: map<string, Bytes>): Option<Manifest>
  {
    if MANIFEST_FILE in files then env.codecs.parseManifest(files[MANIFEST_FILE]) else None
  }

  /** The result reported at the end of a check that got as far as comparing manifests. */
  function CheckOutcome(requiresUpdating: bool, purged: bool): CheckResult
  {
    if requiresUpdating && purged then AvailableBlocking
    else if requiresUpdating then Available
    else NotAvailable
  }

  /** The result reported when the manifest cannot be fetched or parsed. */
  function CheckFailure(purged: bool): CheckResult
  {
    if purged then CheckFailedBlocking else CheckFailed
  }

  /**
   * Whether a check that finds no local manifest concludes that the cache was
   * purged: the local data store holds the key `probe`. The source
   * (ContentManagementSystem.cpp:145) probes PURGE_PROBE_KEY, while the key
   * InstallUpdates records is HAS_CACHED_KEY.
   */
  predicate PurgeDetected(probe: string, ldsKeys: set<string>)
  {
    probe in ldsKeys
  }

  /** What one BuildDownloadList does: the parsed manifest, the plan, the IDs to remove, the purge flag and the report. */
  datatype CheckEffect = CheckEffect(
    manifest: Option<Manifest>, plan: Plan, removeIds: set<string>, purged: bool, report: CheckResult)

  /**
   * BuildDownloadList on the accumulated manifest text `data`, from a plan
   * with an empty download list: a manifest with no root fails the check; a
   * manifest with DLC disabled reports nothing to do; otherwise the server
   * packages are compared with the local manifest if there is one, and with
   * the bundle alone if not. `probe` is the data-store key whose presence,
   * with no local manifest, marks the cache purged.
   */
  function CheckAgainst(env: Env, data: Bytes, plan: Plan, purged: bool, probe: string, ldsKeys: set<string>)
    : (r: CheckEffect)
    ensures |plan.details| <= |r.plan.details| && r.plan.details[..|plan.details|] == plan.details
    ensures Shrinks(plan.files, r.plan.files)
    ensures purged ==> r.purged
  {
    var parsed := env.codecs.parseManifest(data);
    match parsed
    case None => CheckEffect(None, plan, {}, purged, CheckFailure(purged))
    case Some(m) =>
      if !m.dlcEnabled then CheckEffect(parsed, plan, {}, purged, NotAvailable)
      else
        match LocalManifest(env, plan.files)
        case None =>
          var purged' := purged || PurgeDetected(probe, ldsKeys);
          var plan' := NoLocalFrom(env, m.packages, 0, plan);
          CheckEffect(parsed, plan', {}, purged', CheckOutcome(plan'.details != [], purged'))
        case Some(local) =>
          var st := DiffFrom(env, m.packages, 0, DiffState(plan, LocalChecksumsFrom(local.packages, 0, map[])));
          CheckEffect(parsed, st.plan, st.local.Keys, purged,
                      CheckOutcome(st.plan.details != [] || st.local.Keys != {}, purged))
  }

  // ---------------------------------------------------------------------
  // Files and directories
  // ---------------------------------------------------------------------

  /** Whether `path` lies inside directory `dir`. */
  predicate Under(path: string, dir: string)
  {
    |path| > |dir| && path[..|dir|] == dir && path[|dir|] == '/'
  }

  /** FileSystem::DeleteDirectory: removes the directory and everything inside it. */
  function DeleteDirectory(st: Store, dir: string): Store
  {
    Store(map k | k in st.files && !Under(k, dir) :: st.files[k],
          set d | d in st.dirs && d != dir && !Under(d, dir))
  }

  /** Where a package's archive is downloaded to. */
  function TempArchive(id: string): string
  {
    TEMP_DIR + "/" + id + ".packzip"
  }

  /** SavePackageToFile's write: appends the bytes to the package's archive, creating it if absent. */
  function AppendToArchive(st: Store, id: string, data: Bytes): (r: Store)
    ensures var path := TempArchive(id);
      && path in r.files
      && r.files[path] == (if path in st.files then st.files[path] else []) + data
    ensures forall f :: f != TempArchive(id) ==> (f in r.files <==> f in st.files)
    ensures forall f :: f in st.files && f != TempArchive(id) ==> r.files[f] == st.files[f]
    ensures r.dirs == st.dirs
  {
    var path := TempArchive(id);
    st.(files := st.files[path := (if path in st.files then st.files[path] else []) + data])
  }

  // ---------------------------------------------------------------------
  // Downloading
  // ---------------------------------------------------------------------

  /** The part of the engine's state a package download callback changes. */
  datatype Transfer = Transfer(store: Store, current: nat, downloaded: U32, requested: seq<string>)

  /**
   * OnContentDownloadComplete. A final chunk whose checksum does not match
   * falls through into the failure case, which deletes Temp.
   */
  function OnChunk(env: Env, details: seq<PackageDetails>, t: Transfer, result: DownloaderResult, data: Bytes)
    : (r: (Transfer, Option<Result>))
    requires t.current < |details|
    ensures r.0.current == t.current || (r.0.current == t.current + 1 < |details| && r.1.None?)
    ensures r.0.requested == if r.0.current == t.current then t.requested else t.requested + [details[r.0.current].url]
    ensures result == DownloadFailed ==> r.1 == Some(Failed)
    ensures result == Flushed ==> r.1.None?
  {
    var d := details[t.current];
    match result
    case Flushed => (t.(store := AppendToArchive(t.store, d.id, data)), None)
    case DownloadFailed => (t.(store := DeleteDirectory(t.store, TEMP_DIR)), Some(Failed))
    case Downloaded =>
      var st := AppendToArchive(t.store, d.id, data);
      if CalculateChecksum(env.codecs, st.files[TempArchive(d.id)]) != d.checksum then
        (t.(store := DeleteDirectory(st, TEMP_DIR)), Some(Failed))
      else if t.current >= |details| - 1 then
        (t.(store := st, downloaded := AddU32(t.downloaded, d.size)), Some(Succeeded))
      else
        (t.(store := st, downloaded := AddU32(t.downloaded, d.size), current := t.current + 1,
            requested := t.requested + [details[t.current + 1].url]), None)
  }

  function SumSizes(ds: seq<PackageDetails>): nat
  {
    if ds == [] then 0 else SumSizes(ds[..|ds| - 1]) + ds[|ds| - 1].size
  }

  /** The u32 downloaded total after counting the first `n` packages. */
  function DownloadedAfter(downloaded0: U32, ds: seq<PackageDetails>, n: nat): U32
    requires n <= |ds|
  {
    if n == 0 then downloaded0 else AddU32(DownloadedAfter(downloaded0, ds, n - 1), ds[n - 1].size)
  }

  /** The declared sizes of the first `n` packages, added up. */
  function SumPrefix(ds: seq<PackageDetails>, n: nat): nat
    requires n <= |ds|
  {
    if n == 0 then 0 else SumPrefix(ds, n - 1) + ds[n - 1].size
  }

  function Urls(ds: seq<PackageDetails>): seq<string>
  {
    seq(|ds|, i requires 0 <= i < |ds| => ds[i].url)
  }

  /**
   * What holds while package `current` is downloading, for a session that
   * started with `requested0` requests and `downloaded0` bytes downloaded:
   * exactly the packages up to `current` have been requested, in order, and
   * exactly the sizes of those before it have been counted.
   */
  ghost predicate Downloading(details: seq<PackageDetails>, t: Transfer, requested0: seq<string>, downloaded0: U32)
  {
    && t.current < |details|
    && t.requested == requested0 + Urls(details)[..t.current + 1]
    && t.downloaded == DownloadedAfter(downloaded0, details, t.current)
  }

  // ---------------------------------------------------------------------
  // Installing
  // ---------------------------------------------------------------------

  /** The loop over the archive entries in ExtractFilesFromPackage, from entry `k` on. */
  function WriteEntriesFrom(env: Env, entries: seq<ZipEntry>, k: nat, st: Store): (r: Store)
    requires k <= |entries|
    ensures st.files.Keys <= r.files.Keys && st.dirs <= r.dirs
    decreases |entries| - k
  {
    if k == |entries| then st
    else
      var e := entries[k];
      var withDir := if Paths.ContainsDirectoryPath(e.name)
                     then st.(dirs := st.dirs + {Paths.GetPathExcludingFileName(env.width, e.name)}) else st;
      var written := if Paths.IsFile(e.name) then withDir.(files := withDir.files[e.name := e.data]) else withDir;
      WriteEntriesFrom(env, entries, k + 1, written)
  }

  /**
   * ExtractFilesFromPackage: nothing happens when the archive cannot be opened;
   * otherwise the package's directory is deleted and the entries are written.
   */
  function Extract(env: Env, d: PackageDetails, st: Store): (r: Store)
    ensures TempArchive(d.id) !in st.files ==> r == st
    ensures forall f :: f in st.files && !Under(f, d.id) ==> f in r.files
  {
    var archive := TempArchive(d.id);
    if archive !in st.files then st
    else
      match env.codecs.unzip(st.files[archive])
      case None => st
      case Some(entries) => WriteEntriesFrom(env, entries, 0, DeleteDirectory(st, d.id))
  }

  function ExtractAllFrom(env: Env, ds: seq<PackageDetails>, i: nat, st: Store): Store
    requires i <= |ds|
    decreases |ds| - i
  {
    if i == |ds| then st else ExtractAllFrom(env, ds, i + 1, Extract(env, ds[i], st))
  }

  function DeleteAllFrom(ids: seq<string>, i: nat, st: Store): (r: Store)
    requires i <= |ids|
    ensures r.files.Keys <= st.files.Keys && r.dirs <= st.dirs
    ensures forall j :: i <= j < |ids| ==> ids[j] !in r.dirs
    decreases |ids| - i
  {
    if i == |ids| then st else DeleteAllFrom(ids, i + 1, DeleteDirectory(st, ids[i]))
  }

  /**
   * The file-system effect of a successful InstallUpdates, step by step:
   * extract every package, delete Temp, delete every removed package's
   * directory, and save the server manifest last.
   */
  function InstallStore(env: Env, ds: seq<PackageDetails>, removeIds: seq<string>, m: Manifest, st: Store)
    : (r: Store)
    ensures MANIFEST_FILE in r.files
    ensures TEMP_DIR !in r.dirs && forall j :: 0 <= j < |removeIds| ==> removeIds[j] !in r.dirs
  {
    var extracted := ExtractAllFrom(env, ds, 0, st);
    var cleaned := DeleteAllFrom(removeIds, 0, DeleteDirectory(extracted, TEMP_DIR));
    cleaned.(files := cleaned.files[MANIFEST_FILE := env.codecs.printManifest(m)])
  }

  // ---------------------------------------------------------------------
  // The update-check delegate
  // ---------------------------------------------------------------------

  /**
   * Whether the update-check delegate stays installed after a manifest
   * callback. The source (ContentManagementSystem.cpp:297-298) clears it after
   * every callback, flushed chunks included; this model keeps it across
   * flushed chunks, as the rest of the engine needs (see the lemmas below).
   */
  function KeepsCheckDelegate(result: DownloaderResult): bool
  {
    result == Flushed
  }

  /** The source's rule: the delegate is cleared after every manifest callback. */
  function KeepsCheckDelegateAsWritten(result: DownloaderResult): bool
  {
    false
  }

  /**
   * For a run of manifest callbacks, whether the delegate is installed when
   * each one arrives, starting from an installed delegate and following the
   * rule `keeps` after each callback.
   */
  function DelegatePresence(keeps: DownloaderResult -> bool, installed: bool, results: seq<DownloaderResult>)
    : (r: seq<bool>)
    ensures |r| == |results|
  {
    if results == [] then []
    else [installed] + DelegatePresence(keeps, installed && keeps(results[0]), results[1..])
  }
}
