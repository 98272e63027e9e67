/**
 * The ContentManagementSystem object: the state of one engine and the
 * operations that change it, each proved against the functions of ContentSpec.
 *
 * The downloader, the delegates and the local data store are outside the
 * model: a delegate call is the value an operation returns (Some(report) when
 * the delegate would be called), a request to the downloader is an entry in
 * `requestedUrls`, and whether a manifest request started is a parameter.
 */
module ContentSystem {
  import opened Wrappers
  import opened ContentSpec
  import opened U32Arith

  /** The elements of `s`, as a set. */
  function Elements(s: seq<string>): set<string>
  {
    set x | x in s
  }

  predicate Distinct(s: seq<string>)
  {
    forall i, j :: 0 <= i < j < |s| ==> s[i] != s[j]
  }

  class ContentManagementSystem {
    const env: Env
    /** The DLC storage location. */
    var store: Store
    /** The keys of the local data store. */
    var ldsKeys: set<string>
    /** m_serverManifest: None when absent or without a root element. */
    var serverManifest: Option<Manifest>
    var serverManifestData: Bytes
    var packageDetails: seq<PackageDetails>
    var removePackageIds: seq<string>
    var currentPackageDownload: nat
    var runningToDownloadTotal: U32
    var runningDownloadedTotal: U32
    var dlcCachePurged: bool
    /** Whether m_onUpdateCheckCompleteDelegate is set. */
    var checkDelegateSet: bool
    /** Whether m_onDownloadCompleteDelegate is set. */
    var downloadDelegateSet: bool
    /** The package URLs requested from the downloader, in order. */
    var requestedUrls: seq<string>

    /**
     * A pending update check has not built a list yet, and a non-empty list
     * always comes with the server manifest it was built from.
     */
    ghost predicate Valid()
      reads this
    {
      && (checkDelegateSet ==> packageDetails == [] && removePackageIds == [])
      && (packageDetails != [] || removePackageIds != [] ==> serverManifest.Some?)
    }

    /** The part of the state a check builds. */
    function PlanOf(): Plan
      reads this
    {
      Plan(packageDetails, store.files, runningToDownloadTotal)
    }

    /** The part of the state a package download changes. */
    function TransferOf(): Transfer
      reads this
    {
      Transfer(store, currentPackageDownload, runningDownloadedTotal, requestedUrls)
    }

    /** Everything outside PlanOf and the check's own results. */
    function CheckFrame(): (Bytes, nat, U32, bool, bool, seq<string>, set<string>, set<string>)
      reads this
    {
      (serverManifestData, currentPackageDownload, runningDownloadedTotal, checkDelegateSet, downloadDelegateSet,
       requestedUrls, ldsKeys, store.dirs)
    }

    /** Everything outside TransferOf. */
    function DownloadFrame(): (Option<Manifest>, Bytes, seq<PackageDetails>, seq<string>, U32, bool, bool, bool, set<string>)
      reads this
    {
      (serverManifest, serverManifestData, packageDetails, removePackageIds, runningToDownloadTotal, dlcCachePurged,
       checkDelegateSet, downloadDelegateSet, ldsKeys)
    }

    constructor(env: Env, store: Store, ldsKeys: set<string>)
      ensures this.env == env && this.store == store && this.ldsKeys == ldsKeys
      ensures serverManifest == None && serverManifestData == []
      ensures packageDetails == [] && removePackageIds == [] && currentPackageDownload == 0
      ensures runningToDownloadTotal == 0 && runningDownloadedTotal == 0 && !dlcCachePurged
      ensures !checkDelegateSet && !downloadDelegateSet && requestedUrls == []
      ensures Valid()
    {
      this.env := env;
      this.store := store;
      this.ldsKeys := ldsKeys;
      serverManifest := None;
      serverManifestData := [];
      packageDetails := [];
      removePackageIds := [];
      currentPackageDownload := 0;
      runningToDownloadTotal := 0;
      runningDownloadedTotal := 0;
      dlcCachePurged := false;
      checkDelegateSet := false;
      downloadDelegateSet := false;
      requestedUrls := [];
    }

    /** DoesFileExist: the file is present in the bundle or the DLC location and its checksum matches. */
    function DoesFileExist(path: string, checksum: string, checkOnlyBundle: bool): (r: bool)
      reads this
      ensures checkOnlyBundle ==>
        (r <==> var full := env.bundleDlcPath + path;
                full in env.bundle && CalculateChecksum(env.codecs, env.bundle[full]) == checksum)
      ensures !checkOnlyBundle ==>
        (r <==> path in store.files && CalculateChecksum(env.codecs, store.files[path]) == checksum)
    {
      if checkOnlyBundle then InBundle(env, path, checksum) else InStore(env, store.files, path, checksum)
    }

    /** GetRunningTotalToDownload. */
    function GetRunningTotalToDownload(): (r: U32)
      reads this
      ensures r == PlanOf().total
    {
      runningToDownloadTotal
    }

    /** GetRunningTotalDownloaded: the verified total plus the bytes of the download in flight, on u32. */
    function GetRunningTotalDownloaded(inFlight: U32): (r: U32)
      reads this
      ensures r == (runningDownloadedTotal + inFlight) % U32_MODULUS
    {
      AddU32(runningDownloadedTotal, inFlight)
    }

    /** ClearDownloadData: drops the server manifest and both lists; the running totals are kept. */
    method ClearDownloadData()
      modifies this
      ensures serverManifest == None && packageDetails == [] && removePackageIds == []
      ensures store == old(store) && runningToDownloadTotal == old(runningToDownloadTotal)
      ensures dlcCachePurged == old(dlcCachePurged) && CheckFrame() == old(CheckFrame())
    {
      serverManifest := None;
      removePackageIds := [];
      packageDetails := [];
    }

    /**
     * CheckForUpdates. `started` is whether the downloader started the
     * manifest request; if not, the delegate is told at once that the check
     * failed, and the stored delegate is left as it was.
     */
    method CheckForUpdates(started: bool) returns (report: Option<CheckResult>)
      requires Valid()
      modifies this
      ensures Valid()
      ensures serverManifest == None && packageDetails == [] && removePackageIds == []
      ensures report == if started then None else Some(CheckFailure(dlcCachePurged))
      ensures checkDelegateSet == (started || old(checkDelegateSet))
      ensures store == old(store) && runningToDownloadTotal == old(runningToDownloadTotal)
      ensures dlcCachePurged == old(dlcCachePurged) && serverManifestData == old(serverManifestData)
      ensures currentPackageDownload == old(currentPackageDownload)
      ensures runningDownloadedTotal == old(runningDownloadedTotal) && downloadDelegateSet == old(downloadDelegateSet)
      ensures requestedUrls == old(requestedUrls) && ldsKeys == old(ldsKeys)
    {
      ClearDownloadData();
      if started {
        checkDelegateSet := true;
        report := None;
      } else {
        report := Some(CheckFailure(dlcCachePurged));
      }
    }

    /**
     * OnContentManifestDownloadComplete. Flushed chunks accumulate; the final
     * chunk builds the download list from all of them; a failure reports the
     * check failed. The delegate is kept across flushed chunks (the source
     * clears it after every callback: see KeepsCheckDelegate).
     */
    method OnContentManifestDownloadComplete(result: DownloaderResult, chunk: Bytes) returns (report: Option<CheckResult>)
      requires Valid()
      requires result != Flushed ==> checkDelegateSet
      modifies this
      ensures Valid()
      ensures checkDelegateSet == (old(checkDelegateSet) && KeepsCheckDelegate(result))
      ensures result == Flushed ==>
        && report == None && serverManifestData == old(serverManifestData) + chunk
        && serverManifest == old(serverManifest) && PlanOf() == old(PlanOf())
        && removePackageIds == old(removePackageIds) && dlcCachePurged == old(dlcCachePurged)
      ensures result == DownloadFailed ==>
        && report == Some(CheckFailure(dlcCachePurged)) && serverManifestData == []
        && serverManifest == old(serverManifest) && PlanOf() == old(PlanOf())
        && removePackageIds == old(removePackageIds) && dlcCachePurged == old(dlcCachePurged)
      ensures result == Downloaded ==>
        var e := CheckAgainst(env, old(serverManifestData) + chunk, old(PlanOf()), old(dlcCachePurged), PURGE_PROBE_KEY, ldsKeys);
        && report == Some(e.report) && serverManifestData == []
        && serverManifest == e.manifest && PlanOf() == e.plan
        && Elements(removePackageIds) == e.removeIds && Distinct(removePackageIds) && dlcCachePurged == e.purged
      ensures currentPackageDownload == old(currentPackageDownload) && runningDownloadedTotal == old(runningDownloadedTotal)
      ensures downloadDelegateSet == old(downloadDelegateSet) && requestedUrls == old(requestedUrls)
      ensures ldsKeys == old(ldsKeys) && store.dirs == old(store.dirs)
    {
      match result {
        case Downloaded =>
          serverManifestData := serverManifestData + chunk;
          var r := BuildDownloadList(serverManifestData);
          report := Some(r);
          serverManifestData := [];
        case DownloadFailed =>
          serverManifestData := [];
          report := Some(CheckFailure(dlcCachePurged));
        case Flushed =>
          serverManifestData := serverManifestData + chunk;
          report := None;
      }
      checkDelegateSet := checkDelegateSet && KeepsCheckDelegate(result);
    }

    /**
     * LoadLocalManifest: reads the manifest file of the DLC location, and
     * marks the cache purged when there is none but content was cached before.
     */
    method LoadLocalManifest() returns (local: Option<Manifest>)
      modifies this
      ensures local == LocalManifest(env, store.files)
      ensures dlcCachePurged == (old(dlcCachePurged) || (local.None? && PurgeDetected(PURGE_PROBE_KEY, ldsKeys)))
      ensures PlanOf() == old(PlanOf()) && CheckFrame() == old(CheckFrame())
      ensures serverManifest == old(serverManifest) && removePackageIds == old(removePackageIds)
    {
      local := LocalManifest(env, store.files);
      if local.None? && PurgeDetected(PURGE_PROBE_KEY, ldsKeys) {
        dlcCachePurged := true;
      }
    }

    /**
     * BuildDownloadList: parses the server manifest and compares it with the
     * local manifest and the bundle, building the download and remove lists,
     * and returns the report for the update-check delegate.
     */
    method BuildDownloadList(data: Bytes) returns (report: CheckResult)
      requires Valid() && checkDelegateSet
      modifies this
      ensures var e := CheckAgainst(env, data, old(PlanOf()), old(dlcCachePurged), PURGE_PROBE_KEY, ldsKeys);
        && report == e.report && serverManifest == e.manifest && PlanOf() == e.plan
        && Elements(removePackageIds) == e.removeIds && Distinct(removePackageIds) && dlcCachePurged == e.purged
      ensures CheckFrame() == old(CheckFrame())
      ensures packageDetails != [] || removePackageIds != [] ==> serverManifest.Some?
    {
      serverManifest := env.codecs.parseManifest(data);
      if serverManifest.None? {
        report := CheckFailure(dlcCachePurged);
        return;
      }
      var m := serverManifest.value;
      if !m.dlcEnabled {
        report := NotAvailable;
        return;
      }
      var local := LoadLocalManifest();
      if local.None? {
        AddAllIfNotInBundle(m.packages);
        assert removePackageIds == [];
      } else {
        var checksums := BuildLocalChecksums(local.value.packages);
        CompareWithLocal(m.packages, checksums);
        assert removePackageIds != [] <==> Elements(removePackageIds) != {} by {
          if removePackageIds != [] {
            assert removePackageIds[0] in Elements(removePackageIds);
          }
        }
      }
      report := CheckOutcome(removePackageIds != [] || packageDetails != [], dlcCachePurged);
    }

    /** The loop of BuildDownloadList over the server packages when there is no local manifest. */
    method AddAllIfNotInBundle(pkgs: seq<PackageEntry>)
      modifies this
      ensures PlanOf() == NoLocalFrom(env, pkgs, 0, old(PlanOf()))
      ensures CheckFrame() == old(CheckFrame()) && serverManifest == old(serverManifest)
      ensures removePackageIds == old(removePackageIds) && dlcCachePurged == old(dlcCachePurged)
    {
      var i := 0;
      while i < |pkgs|
        invariant i <= |pkgs|
        invariant NoLocalFrom(env, pkgs, i, PlanOf()) == NoLocalFrom(env, pkgs, 0, old(PlanOf()))
        invariant CheckFrame() == old(CheckFrame()) && serverManifest == old(serverManifest)
        invariant removePackageIds == old(removePackageIds) && dlcCachePurged == old(dlcCachePurged)
      {
        AddToDownloadListIfNotInBundle(pkgs[i]);
        i := i + 1;
      }
    }

    /** The loop of BuildDownloadList over the local packages: the first checksum seen for an ID is kept. */
    method BuildLocalChecksums(local: seq<PackageEntry>) returns (checksums: map<string, string>)
      ensures checksums == LocalChecksumsFrom(local, 0, map[])
    {
      checksums := map[];
      var i := 0;
      while i < |local|
        invariant i <= |local|
        invariant LocalChecksumsFrom(local, i, checksums) == LocalChecksumsFrom(local, 0, map[])
      {
        if local[i].id !in checksums {
          checksums := checksums[local[i].id := local[i].checksum];
        }
        i := i + 1;
      }
    }

    /**
     * The loop of BuildDownloadList over the server packages when there is a
     * local manifest, then the loop that queues every local ID no server
     * package consumed for removal, in the map's iteration order.
     */
    method CompareWithLocal(pkgs: seq<PackageEntry>, checksums: map<string, string>)
      requires removePackageIds == []
      modifies this
      ensures var st := DiffFrom(env, pkgs, 0, DiffState(old(PlanOf()), checksums));
        PlanOf() == st.plan && Elements(removePackageIds) == st.local.Keys && Distinct(removePackageIds)
      ensures CheckFrame() == old(CheckFrame()) && serverManifest == old(serverManifest)
      ensures dlcCachePurged == old(dlcCachePurged)
    {
      var local := checksums;
      var i := 0;
      while i < |pkgs|
        invariant i <= |pkgs|
        invariant DiffFrom(env, pkgs, i, DiffState(PlanOf(), local)) == DiffFrom(env, pkgs, 0, DiffState(old(PlanOf()), checksums))
        invariant CheckFrame() == old(CheckFrame()) && serverManifest == old(serverManifest)
        invariant removePackageIds == [] && dlcCachePurged == old(dlcCachePurged)
      {
        var p := pkgs[i];
        if p.id in local {
          if local[p.id] != p.checksum {
            AddToDownloadListIfNotInBundle(p);
          } else {
            AddToDownloadListIfCorrupt(p);
          }
          local := local - {p.id};
        } else {
          AddToDownloadListIfNotInBundle(p);
        }
        i := i + 1;
      }
      QueueRemovals(local.Keys);
    }

    /** The loop of BuildDownloadList that queues every local package the server no longer lists for removal. */
    method QueueRemovals(ids: set<string>)
      requires removePackageIds == []
      modifies this
      ensures Elements(removePackageIds) == ids && Distinct(removePackageIds)
      ensures PlanOf() == old(PlanOf()) && CheckFrame() == old(CheckFrame())
      ensures serverManifest == old(serverManifest) && dlcCachePurged == old(dlcCachePurged)
    {
      var remaining := ids;
      while remaining != {}
        invariant Elements(removePackageIds) + remaining == ids
        invariant Elements(removePackageIds) !! remaining
        invariant Distinct(removePackageIds)
        invariant PlanOf() == old(PlanOf()) && CheckFrame() == old(CheckFrame())
        invariant serverManifest == old(serverManifest) && dlcCachePurged == old(dlcCachePurged)
        decreases remaining
      {
        var id :| id in remaining;
        removePackageIds := removePackageIds + [id];
        remaining := remaining - {id};
      }
    }

    /**
     * AddToDownloadListIfNotInBundle: the first file of the package missing or
     * corrupt in the bundle puts the package on the list; each file found in
     * the bundle before it is deleted from the DLC location.
     */
    method AddToDownloadListIfNotInBundle(p: PackageEntry)
      modifies this
      ensures PlanOf() == BundleCheckFrom(env, p, 0, old(PlanOf()))
      ensures CheckFrame() == old(CheckFrame()) && serverManifest == old(serverManifest)
      ensures removePackageIds == old(removePackageIds) && dlcCachePurged == old(dlcCachePurged)
    {
      var k := 0;
      while k < |p.files|
        invariant k <= |p.files|
        invariant BundleCheckFrom(env, p, k, PlanOf()) == BundleCheckFrom(env, p, 0, old(PlanOf()))
        invariant CheckFrame() == old(CheckFrame()) && serverManifest == old(serverManifest)
        invariant removePackageIds == old(removePackageIds) && dlcCachePurged == old(dlcCachePurged)
      {
        var f := p.files[k];
        if !DoesFileExist(BundlePath(p, f), f.checksum, true) {
          runningToDownloadTotal := AddU32(runningToDownloadTotal, p.size);
          packageDetails := packageDetails + [Details(p)];
          return;
        }
        store := store.(files := store.files - {BundlePath(p, f)});
        k := k + 1;
      }
    }

    /**
     * The loop of BuildDownloadList over the files of a package whose checksum
     * matches the local manifest: the first file missing or corrupt in the DLC
     * location puts the package on the list.
     */
    method AddToDownloadListIfCorrupt(p: PackageEntry)
      modifies this
      ensures PlanOf() == LocalCheckFrom(env, p, 0, old(PlanOf()))
      ensures CheckFrame() == old(CheckFrame()) && serverManifest == old(serverManifest)
      ensures removePackageIds == old(removePackageIds) && dlcCachePurged == old(dlcCachePurged)
    {
      var k := 0;
      while k < |p.files|
        invariant k <= |p.files|
        invariant LocalCheckFrom(env, p, k, PlanOf()) == LocalCheckFrom(env, p, 0, old(PlanOf()))
        invariant CheckFrame() == old(CheckFrame()) && serverManifest == old(serverManifest)
        invariant removePackageIds == old(removePackageIds) && dlcCachePurged == old(dlcCachePurged)
      {
        var f := p.files[k];
        if !DoesFileExist(LocalPath(p, f), f.checksum, false) {
          runningToDownloadTotal := AddU32(runningToDownloadTotal, p.size);
          packageDetails := packageDetails + [Details(p)];
          return;
        }
        k := k + 1;
      }
    }

    /**
     * DownloadUpdates: with an empty list the delegate is told at once that
     * the download succeeded; otherwise Temp is created and the first package
     * requested.
     */
    method DownloadUpdates() returns (report: Option<ContentSpec.Result>)
      modifies this
      ensures downloadDelegateSet && currentPackageDownload == 0
      ensures packageDetails == [] ==> report == Some(Succeeded) && TransferOf() == old(TransferOf()).(current := 0)
      ensures packageDetails != [] ==>
        && report == None
        && store == old(store).(dirs := old(store).dirs + {TEMP_DIR})
        && requestedUrls == old(requestedUrls) + [packageDetails[0].url]
        && Downloading(packageDetails, TransferOf(), old(requestedUrls), runningDownloadedTotal)
      ensures runningDownloadedTotal == old(runningDownloadedTotal)
      ensures serverManifest == old(serverManifest) && serverManifestData == old(serverManifestData)
      ensures packageDetails == old(packageDetails) && removePackageIds == old(removePackageIds)
      ensures runningToDownloadTotal == old(runningToDownloadTotal) && dlcCachePurged == old(dlcCachePurged)
      ensures checkDelegateSet == old(checkDelegateSet) && ldsKeys == old(ldsKeys)
    {
      downloadDelegateSet := true;
      currentPackageDownload := 0;
      if packageDetails != [] {
        store := store.(dirs := store.dirs + {TEMP_DIR});
        requestedUrls := requestedUrls + [packageDetails[currentPackageDownload].url];
        report := None;
      } else {
        report := Some(Succeeded);
      }
    }

    /** DownloadNextPackage: moves to the next package and requests it. */
    method DownloadNextPackage()
      requires currentPackageDownload + 1 < |packageDetails|
      modifies this
      ensures TransferOf() == old(TransferOf()).(current := old(currentPackageDownload) + 1,
                                                 requested := old(requestedUrls) + [old(packageDetails)[old(currentPackageDownload) + 1].url])
      ensures DownloadFrame() == old(DownloadFrame())
    {
      currentPackageDownload := currentPackageDownload + 1;
      requestedUrls := requestedUrls + [packageDetails[currentPackageDownload].url];
    }

    /**
     * SavePackageToFile: appends the chunk to the package's archive in Temp
     * and, once the package is fully downloaded, checks the archive's checksum.
     */
    method SavePackageToFile(d: PackageDetails, data: Bytes, fullyDownloaded: bool) returns (ok: bool)
      modifies this
      ensures store == AppendToArchive(old(store), d.id, data)
      ensures ok == (!fullyDownloaded || CalculateChecksum(env.codecs, store.files[TempArchive(d.id)]) == d.checksum)
      ensures currentPackageDownload == old(currentPackageDownload) && runningDownloadedTotal == old(runningDownloadedTotal)
      ensures requestedUrls == old(requestedUrls) && DownloadFrame() == old(DownloadFrame())
    {
      store := AppendToArchive(store, d.id, data);
      ok := true;
      if fullyDownloaded {
        var checksum := CalculateChecksum(env.codecs, store.files[TempArchive(d.id)]);
        if checksum != d.checksum {
          ok := false;
        }
      }
    }

    /** DeleteDirectory on the DLC location. */
    method DeleteDirectory(dir: string)
      modifies this
      ensures store == ContentSpec.DeleteDirectory(old(store), dir)
      ensures currentPackageDownload == old(currentPackageDownload) && runningDownloadedTotal == old(runningDownloadedTotal)
      ensures requestedUrls == old(requestedUrls) && DownloadFrame() == old(DownloadFrame())
    {
      store := ContentSpec.DeleteDirectory(store, dir);
    }

    /**
     * OnContentDownloadComplete. A final chunk whose checksum does not match
     * falls through into the failure case; the failure is reported only if
     * the download delegate is set, while a success is reported unguarded.
     */
    method OnContentDownloadComplete(result: DownloaderResult, data: Bytes) returns (report: Option<ContentSpec.Result>)
      requires currentPackageDownload < |packageDetails|
      requires downloadDelegateSet || OnChunk(env, packageDetails, TransferOf(), result, data).1 != Some(Succeeded)
      modifies this
      ensures var (t, r) := OnChunk(env, old(packageDetails), old(TransferOf()), result, data);
        TransferOf() == t && report == (if r == Some(Failed) && !downloadDelegateSet then None else r)
      ensures DownloadFrame() == old(DownloadFrame())
    {
      var d := packageDetails[currentPackageDownload];
      var failed := false;
      report := None;
      match result {
        case Downloaded =>
          var ok := SavePackageToFile(d, data, true);
          if ok {
            runningDownloadedTotal := AddU32(runningDownloadedTotal, d.size);
            if currentPackageDownload >= |packageDetails| - 1 {
              report := Some(Succeeded);
            } else {
              DownloadNextPackage();
            }
          } else {
            failed := true;
          }
        case DownloadFailed =>
          failed := true;
        case Flushed =>
          var _ := SavePackageToFile(d, data, false);
      }
      if failed {
        DeleteDirectory(TEMP_DIR);
        if downloadDelegateSet {
          report := Some(Failed);
        }
      }
    }

    /**
     * ExtractFilesFromPackage: nothing happens when the archive cannot be
     * opened; otherwise the package's directory is deleted and every entry is
     * written, creating its directory first.
     */
    method ExtractFilesFromPackage(d: PackageDetails)
      modifies this
      ensures store == Extract(env, d, old(store))
      ensures currentPackageDownload == old(currentPackageDownload) && runningDownloadedTotal == old(runningDownloadedTotal)
      ensures requestedUrls == old(requestedUrls) && DownloadFrame() == old(DownloadFrame())
    {
      var archive := TempArchive(d.id);
      if archive !in store.files {
        return;
      }
      var unzipped := env.codecs.unzip(store.files[archive]);
      if unzipped.None? {
        return;
      }
      var entries := unzipped.value;
      DeleteDirectory(d.id);
      ghost var start := store;
      var k := 0;
      while k < |entries|
        invariant k <= |entries|
        invariant WriteEntriesFrom(env, entries, k, store) == WriteEntriesFrom(env, entries, 0, start)
        invariant currentPackageDownload == old(currentPackageDownload) && runningDownloadedTotal == old(runningDownloadedTotal)
        invariant requestedUrls == old(requestedUrls) && DownloadFrame() == old(DownloadFrame())
      {
        var e := entries[k];
        if Paths.ContainsDirectoryPath(e.name) {
          store := store.(dirs := store.dirs + {Paths.GetPathExcludingFileName(env.width, e.name)});
        }
        if Paths.IsFile(e.name) {
          store := store.(files := store.files[e.name := e.data]);
        }
        k := k + 1;
      }
    }

    /**
     * InstallUpdates: with something to install or remove, extracts every
     * package, deletes Temp and every removed package's directory, saves the
     * server manifest, and records that content is cached; otherwise reports
     * failure. Either way the download data is cleared.
     */
    method InstallUpdates() returns (report: ContentSpec.Result)
      requires Valid()
      modifies this
      ensures Valid()
      ensures var work := old(packageDetails) != [] || old(removePackageIds) != [];
        && report == (if work then Succeeded else Failed)
        && (work ==>
              && store == InstallStore(env, old(packageDetails), old(removePackageIds), old(serverManifest).value, old(store))
              && !dlcCachePurged && ldsKeys == old(ldsKeys) + {HAS_CACHED_KEY})
        && (!work ==> store == old(store) && dlcCachePurged == old(dlcCachePurged) && ldsKeys == old(ldsKeys))
      ensures serverManifest == None && packageDetails == [] && removePackageIds == []
      ensures runningToDownloadTotal == old(runningToDownloadTotal) && serverManifestData == old(serverManifestData)
      ensures currentPackageDownload == old(currentPackageDownload) && runningDownloadedTotal == old(runningDownloadedTotal)
      ensures checkDelegateSet == old(checkDelegateSet) && downloadDelegateSet == old(downloadDelegateSet)
      ensures requestedUrls == old(requestedUrls)
    {
      if packageDetails != [] || removePackageIds != [] {
        var manifest := serverManifest.value;
        var details := packageDetails;
        var i := 0;
        while i < |details|
          invariant i <= |details|
          invariant ExtractAllFrom(env, details, i, store) == ExtractAllFrom(env, details, 0, old(store))
          invariant packageDetails == details && removePackageIds == old(removePackageIds)
          invariant serverManifest == Some(manifest) && ldsKeys == old(ldsKeys)
          invariant currentPackageDownload == old(currentPackageDownload) && runningDownloadedTotal == old(runningDownloadedTotal)
          invariant requestedUrls == old(requestedUrls) && DownloadFrame() == old(DownloadFrame())
        {
          ExtractFilesFromPackage(details[i]);
          i := i + 1;
        }
        DeleteDirectory(TEMP_DIR);
        packageDetails := [];
        var ids := removePackageIds;
        ghost var cleaned := store;
        var j := 0;
        while j < |ids|
          invariant j <= |ids|
          invariant DeleteAllFrom(ids, j, store) == DeleteAllFrom(ids, 0, cleaned)
          invariant packageDetails == [] && removePackageIds == ids
          invariant serverManifest == Some(manifest) && ldsKeys == old(ldsKeys)
          invariant dlcCachePurged == old(dlcCachePurged) && runningToDownloadTotal == old(runningToDownloadTotal)
          invariant serverManifestData == old(serverManifestData) && checkDelegateSet == old(checkDelegateSet)
          invariant downloadDelegateSet == old(downloadDelegateSet)
          invariant currentPackageDownload == old(currentPackageDownload) && runningDownloadedTotal == old(runningDownloadedTotal)
          invariant requestedUrls == old(requestedUrls)
        {
          DeleteDirectory(ids[j]);
          j := j + 1;
        }
        store := store.(files := store.files[MANIFEST_FILE := env.codecs.printManifest(manifest)]);
        dlcCachePurged := false;
        ldsKeys := ldsKeys + {HAS_CACHED_KEY};
        report := Succeeded;
      } else {
        report := Failed;
      }
      ClearDownloadData();
    }
  }
}
