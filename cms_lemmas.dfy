/** What the source promises about the content-update engine, proved about the functions of ContentSpec. */
module ContentLemmas {
  import opened Wrappers
  import opened ContentSpec
  import opened U32Arith

  // ---------------------------------------------------------------------
  // Arithmetic and sequence helpers
  // ---------------------------------------------------------------------

  lemma {:induction false} SumSizesAppend(a: seq<PackageDetails>, b: seq<PackageDetails>)
    ensures SumSizes(a + b) == SumSizes(a) + SumSizes(b)
    decreases |b|
  {
    if b != [] {
      assert (a + b)[..|a + b| - 1] == a + b[..|b| - 1];
      assert (a + b)[|a + b| - 1] == b[|b| - 1];
      SumSizesAppend(a, b[..|b| - 1]);
    } else {
      assert a + b == a;
    }
  }

  /** `a` is `b` with some entries left out, the rest in their order. */
  predicate IsSubsequence<T(==)>(a: seq<T>, b: seq<T>)
    decreases |b|
  {
    a == [] || (b != [] && ((a[0] == b[0] && IsSubsequence(a[1..], b[1..])) || IsSubsequence(a, b[1..])))
  }

  function DetailsOf(pkgs: seq<PackageEntry>): (r: seq<PackageDetails>)
    ensures |r| == |pkgs| && forall i :: 0 <= i < |pkgs| ==> r[i] == Details(pkgs[i])
  {
    seq(|pkgs|, i requires 0 <= i < |pkgs| => Details(pkgs[i]))
  }

  /** A check step leaves the list and the total alone, or appends the package and adds its size. */
  predicate AppendsAtMostOne(before: Plan, after: Plan, p: PackageEntry)
  {
    || (after.details == before.details && after.total == before.total)
    || (after.details == before.details + [Details(p)] && after.total == AddU32(before.total, p.size))
  }

  /** Everything the run added to the list, and the running total it leaves. */
  predicate AddedInOrder(before: Plan, after: Plan, pkgs: seq<PackageEntry>)
  {
    && |before.details| <= |after.details|
    && after.details[..|before.details|] == before.details
    && IsSubsequence(after.details[|before.details|..], DetailsOf(pkgs))
    && after.total == (before.total + SumSizes(after.details[|before.details|..])) % U32_MODULUS
  }

  // ---------------------------------------------------------------------
  // The two ways a package gets on the download list
  // ---------------------------------------------------------------------

  /**
   * A package whose checksum matches the local manifest is put on the list
   * exactly when one of its files is missing or corrupt in the DLC location,
   * and the check deletes nothing.
   */
  lemma {:induction false} LocalCheckDecision(env: Env, p: PackageEntry, k: nat, plan: Plan)
    requires k <= |p.files|
    ensures LocalCheckFrom(env, p, k, plan)
         == if exists j :: k <= j < |p.files| && !InStore(env, plan.files, LocalPath(p, p.files[j]), p.files[j].checksum)
            then Append(plan, p) else plan
    decreases |p.files| - k
  {
    if k < |p.files| {
      LocalCheckDecision(env, p, k + 1, plan);
      if !InStore(env, plan.files, LocalPath(p, p.files[k]), p.files[k].checksum) {
        assert exists j :: k <= j < |p.files| && !InStore(env, plan.files, LocalPath(p, p.files[j]), p.files[j].checksum);
      }
    }
  }

  /** The first file from `k` on that is missing or corrupt in the bundle, or the number of files. */
  function FirstBundleMiss(env: Env, p: PackageEntry, k: nat): (m: nat)
    requires k <= |p.files|
    ensures k <= m <= |p.files|
    ensures forall j :: k <= j < m ==> InBundle(env, BundlePath(p, p.files[j]), p.files[j].checksum)
    ensures m < |p.files| ==> !InBundle(env, BundlePath(p, p.files[m]), p.files[m].checksum)
    decreases |p.files| - k
  {
    if k == |p.files| || !InBundle(env, BundlePath(p, p.files[k]), p.files[k].checksum) then k
    else FirstBundleMiss(env, p, k + 1)
  }

  function BundlePaths(p: PackageEntry, k: nat, m: nat): set<string>
    requires k <= m <= |p.files|
  {
    set j | k <= j < m :: BundlePath(p, p.files[j])
  }

  /**
   * A package that is new or whose checksum differs is put on the list exactly
   * when one of its files is missing or corrupt in the bundle; the DLC copies
   * of the files found in the bundle before the first such file are deleted.
   */
  lemma {:induction false} BundleCheckDecision(env: Env, p: PackageEntry, k: nat, plan: Plan)
    requires k <= |p.files|
    ensures var m := FirstBundleMiss(env, p, k);
            var pruned := plan.(files := plan.files - BundlePaths(p, k, m));
            BundleCheckFrom(env, p, k, plan) == if m < |p.files| then Append(pruned, p) else pruned
    decreases |p.files| - k
  {
    var m := FirstBundleMiss(env, p, k);
    if k == |p.files| || !InBundle(env, BundlePath(p, p.files[k]), p.files[k].checksum) {
      assert BundlePaths(p, k, m) == {};
    } else {
      var next := plan.(files := plan.files - {BundlePath(p, p.files[k])});
      BundleCheckDecision(env, p, k + 1, next);
      assert BundlePaths(p, k, m) == {BundlePath(p, p.files[k])} + BundlePaths(p, k + 1, m);
      assert next.files - BundlePaths(p, k + 1, m) == plan.files - BundlePaths(p, k, m);
    }
  }

  /** The bundle check puts the package on the list when some file is missing or corrupt in the bundle, and only then. */
  lemma BundleCheckAppendsIffMissing(env: Env, p: PackageEntry, plan: Plan)
    ensures var r := BundleCheckFrom(env, p, 0, plan);
      (exists j :: 0 <= j < |p.files| && !InBundle(env, BundlePath(p, p.files[j]), p.files[j].checksum))
      <==> r.details == plan.details + [Details(p)]
    ensures AppendsAtMostOne(plan, BundleCheckFrom(env, p, 0, plan), p)
  {
    BundleCheckDecision(env, p, 0, plan);
    var m := FirstBundleMiss(env, p, 0);
    if m == |p.files| {
      assert |plan.details + [Details(p)]| != |plan.details|;
    }
  }

  lemma LocalCheckAppendsAtMostOne(env: Env, p: PackageEntry, plan: Plan)
    ensures AppendsAtMostOne(plan, LocalCheckFrom(env, p, 0, plan), p)
    ensures LocalCheckFrom(env, p, 0, plan).files == plan.files
  {
    LocalCheckDecision(env, p, 0, plan);
  }

  // ---------------------------------------------------------------------
  // The whole download list
  // ---------------------------------------------------------------------

  /** The running total after a package that went on the list, then the rest. */
  lemma PrependTotal(total0: U32, d: PackageDetails, tail: seq<PackageDetails>, total: int)
    requires total == (AddU32(total0, d.size) + SumSizes(tail)) % U32_MODULUS
    ensures total == (total0 + SumSizes([d] + tail)) % U32_MODULUS
  {
    SumSizesAppend([d], tail);
    assert SumSizes([d]) == d.size by {
      assert [d][..0] == [];
    }
    ModAddLeft(total0 + d.size, SumSizes(tail));
  }

  lemma AddedInOrderPrependOne(before: Plan, mid: Plan, after: Plan, p: PackageEntry, rest: seq<PackageEntry>)
    requires mid.details == before.details + [Details(p)] && mid.total == AddU32(before.total, p.size)
    requires AddedInOrder(mid, after, rest)
    ensures AddedInOrder(before, after, [p] + rest)
  {
    var n := |before.details|;
    var added := after.details[n..];
    var tail := after.details[n + 1..];
    assert added == [Details(p)] + tail;
    assert added[1..] == tail;
    assert DetailsOf([p] + rest)[1..] == DetailsOf(rest);
    assert IsSubsequence(added, DetailsOf([p] + rest));
    PrependTotal(before.total, Details(p), tail, after.total);
  }

  lemma {:induction false} AddedInOrderPrepend(before: Plan, mid: Plan, after: Plan, p: PackageEntry, rest: seq<PackageEntry>)
    requires AppendsAtMostOne(before, mid, p)
    requires AddedInOrder(mid, after, rest)
    ensures AddedInOrder(before, after, [p] + rest)
  {
    if mid.details == before.details && mid.total == before.total {
      var added := after.details[|before.details|..];
      assert DetailsOf([p] + rest)[1..] == DetailsOf(rest);
      assert IsSubsequence(added, DetailsOf([p] + rest)) by {
        if added != [] {
          assert IsSubsequence(added, DetailsOf([p] + rest)[1..]);
        }
      }
    } else {
      AddedInOrderPrependOne(before, mid, after, p, rest);
    }
  }

  lemma AddedInOrderNothing(plan: Plan, pkgs: seq<PackageEntry>)
    ensures AddedInOrder(plan, plan, pkgs)
  {
    assert plan.details[|plan.details|..] == [];
    assert plan.total % U32_MODULUS == plan.total;
  }

  /**
   * With a local manifest, every server package is put on the list at most
   * once and in manifest order, and the running total grows by exactly the
   * declared sizes of the packages put on the list (modulo 2^32).
   */
  lemma {:induction false} DiffAddsEachPackageAtMostOnce(env: Env, pkgs: seq<PackageEntry>, i: nat, st: DiffState)
    requires i <= |pkgs|
    ensures AddedInOrder(st.plan, DiffFrom(env, pkgs, i, st).plan, pkgs[i..])
    decreases |pkgs| - i
  {
    if i == |pkgs| {
      AddedInOrderNothing(st.plan, pkgs[i..]);
    } else {
      var p := pkgs[i];
      var next := ServerStep(env, p, st);
      if p.id in st.local && st.local[p.id] == p.checksum {
        LocalCheckAppendsAtMostOne(env, p, st.plan);
      } else {
        BundleCheckAppendsIffMissing(env, p, st.plan);
      }
      DiffAddsEachPackageAtMostOnce(env, pkgs, i + 1, next);
      assert pkgs[i..] == [p] + pkgs[i + 1..];
      AddedInOrderPrepend(st.plan, next.plan, DiffFrom(env, pkgs, i + 1, next).plan, p, pkgs[i + 1..]);
    }
  }

  /** The same without a local manifest, where every package goes through the bundle check. */
  lemma {:induction false} NoLocalAddsEachPackageAtMostOnce(env: Env, pkgs: seq<PackageEntry>, i: nat, plan: Plan)
    requires i <= |pkgs|
    ensures AddedInOrder(plan, NoLocalFrom(env, pkgs, i, plan), pkgs[i..])
    decreases |pkgs| - i
  {
    if i == |pkgs| {
      AddedInOrderNothing(plan, pkgs[i..]);
    } else {
      var next := BundleCheckFrom(env, pkgs[i], 0, plan);
      BundleCheckAppendsIffMissing(env, pkgs[i], plan);
      NoLocalAddsEachPackageAtMostOnce(env, pkgs, i + 1, next);
      assert pkgs[i..] == [pkgs[i]] + pkgs[i + 1..];
      AddedInOrderPrepend(plan, next, NoLocalFrom(env, pkgs, i + 1, next), pkgs[i], pkgs[i + 1..]);
    }
  }

  // ---------------------------------------------------------------------
  // The remove list
  // ---------------------------------------------------------------------

  lemma {:induction false} LocalChecksumsKeys(pkgs: seq<PackageEntry>, i: nat, m: map<string, string>)
    requires i <= |pkgs|
    ensures LocalChecksumsFrom(pkgs, i, m).Keys == m.Keys + Ids(pkgs[i..])
    decreases |pkgs| - i
  {
    if i < |pkgs| {
      var m' := if pkgs[i].id in m then m else m[pkgs[i].id := pkgs[i].checksum];
      LocalChecksumsKeys(pkgs, i + 1, m');
      assert pkgs[i..] == [pkgs[i]] + pkgs[i + 1..];
      assert Ids(pkgs[i..]) == {pkgs[i].id} + Ids(pkgs[i + 1..]);
    } else {
      assert Ids(pkgs[i..]) == {};
    }
  }

  lemma {:induction false} DiffConsumesServerIds(env: Env, pkgs: seq<PackageEntry>, i: nat, st: DiffState)
    requires i <= |pkgs|
    ensures DiffFrom(env, pkgs, i, st).local.Keys == st.local.Keys - Ids(pkgs[i..])
    decreases |pkgs| - i
  {
    if i < |pkgs| {
      DiffConsumesServerIds(env, pkgs, i + 1, ServerStep(env, pkgs[i], st));
      assert pkgs[i..] == [pkgs[i]] + pkgs[i + 1..];
      assert Ids(pkgs[i..]) == {pkgs[i].id} + Ids(pkgs[i + 1..]);
    } else {
      assert Ids(pkgs[i..]) == {};
    }
  }

  /**
   * With a local manifest, the IDs left to remove are exactly the local
   * package IDs that no server package has.
   */
  lemma RemovalsAreOrphans(env: Env, server: seq<PackageEntry>, local: seq<PackageEntry>, plan: Plan)
    ensures DiffFrom(env, server, 0, DiffState(plan, LocalChecksumsFrom(local, 0, map[]))).local.Keys
         == Ids(local) - Ids(server)
  {
    LocalChecksumsKeys(local, 0, map[]);
    assert local[0..] == local;
    assert server[0..] == server;
    DiffConsumesServerIds(env, server, 0, DiffState(plan, LocalChecksumsFrom(local, 0, map[])));
  }

  // ---------------------------------------------------------------------
  // A whole check
  // ---------------------------------------------------------------------

  /**
   * What an update check reports, starting from an empty download list: a
   * manifest without a root element fails the check, blocking exactly when
   * the cache was purged; a manifest with DLC disabled reports "not
   * available" and leaves both lists empty; an update is available exactly
   * when the manifest parsed, DLC is enabled and there is something to
   * download or remove; it is blocking exactly when the cache was purged as
   * well; and the cache counts as purged from this check on exactly when no
   * local manifest was found and the data store holds the probed key.
   */
  lemma CheckReportsWork(env: Env, data: Bytes, plan: Plan, purged: bool, probe: string, ldsKeys: set<string>)
    requires plan.details == []
    ensures var e := CheckAgainst(env, data, plan, purged, probe, ldsKeys);
      && ((e.report == CheckFailed || e.report == CheckFailedBlocking) <==> e.manifest.None?)
      && (e.manifest.None? ==> e.plan == plan && e.removeIds == {} && (e.report == CheckFailedBlocking <==> purged))
      && (e.manifest.Some? && !e.manifest.value.dlcEnabled ==>
            e.plan == plan && e.removeIds == {} && e.report == NotAvailable)
      && ((e.report == Available || e.report == AvailableBlocking) <==>
            e.manifest.Some? && e.manifest.value.dlcEnabled && (e.plan.details != [] || e.removeIds != {}))
      && (e.report == AvailableBlocking <==> (e.report == Available || e.report == AvailableBlocking) && e.purged)
      && (e.purged <==> purged || (e.manifest.Some? && e.manifest.value.dlcEnabled
                                   && LocalManifest(env, plan.files).None? && PurgeDetected(probe, ldsKeys)))
  {
  }

  /**
   * A check adds each server package to the download list at most once, in
   * manifest order, counting exactly their declared sizes into the running
   * total; with a local manifest, the IDs to remove are exactly the local
   * packages the server no longer lists.
   */
  lemma CheckBuildsListInOrder(env: Env, data: Bytes, plan: Plan, purged: bool, probe: string, ldsKeys: set<string>)
    ensures var e := CheckAgainst(env, data, plan, purged, probe, ldsKeys);
      e.manifest.Some? ==> AddedInOrder(plan, e.plan, e.manifest.value.packages)
    ensures var e := CheckAgainst(env, data, plan, purged, probe, ldsKeys);
      e.manifest.Some? && e.manifest.value.dlcEnabled && LocalManifest(env, plan.files).Some? ==>
        e.removeIds == Ids(LocalManifest(env, plan.files).value.packages) - Ids(e.manifest.value.packages)
  {
    var e := CheckAgainst(env, data, plan, purged, probe, ldsKeys);
    if e.manifest.Some? {
      var m := e.manifest.value;
      assert m.packages[0..] == m.packages;
      if !m.dlcEnabled {
        AddedInOrderNothing(plan, m.packages);
      } else if LocalManifest(env, plan.files).None? {
        NoLocalAddsEachPackageAtMostOnce(env, m.packages, 0, plan);
      } else {
        var local := LocalManifest(env, plan.files).value;
        DiffAddsEachPackageAtMostOnce(env, m.packages, 0, DiffState(plan, LocalChecksumsFrom(local.packages, 0, map[])));
        RemovalsAreOrphans(env, m.packages, local.packages, plan);
      }
    }
  }

  /**
   * With the key InstallUpdates records as the probe: once content was
   * cached, a check that finds the local manifest gone marks the cache
   * purged, so an available update is reported as blocking.
   */
  lemma PurgeBlocksAfterInstall(env: Env, data: Bytes, plan: Plan, ldsKeys: set<string>)
    requires PurgeDetected(HAS_CACHED_KEY, ldsKeys)
    requires LocalManifest(env, plan.files).None?
    ensures var e := CheckAgainst(env, data, plan, false, HAS_CACHED_KEY, ldsKeys);
      e.manifest.Some? && e.manifest.value.dlcEnabled ==> e.purged && e.report != Available
  {
  }

  /**
   * The source's check probes the empty key, which InstallUpdates never
   * stores: with a data store holding only the key an install records, the
   * local manifest gone and an update to download, the check as written
   * leaves the cache unpurged and reports a plain "available", where the
   * check probing the recorded key reports a blocking update.
   */
  lemma AsWrittenMissesPurge(env: Env, data: Bytes, plan: Plan)
    requires LocalManifest(env, plan.files).None?
    ensures var e := CheckAgainst(env, data, plan, false, PURGE_PROBE_KEY, {HAS_CACHED_KEY});
      e.manifest.Some? && e.manifest.value.dlcEnabled && e.plan.details != [] ==>
        !e.purged && e.report == Available
    ensures var e := CheckAgainst(env, data, plan, false, HAS_CACHED_KEY, {HAS_CACHED_KEY});
      e.manifest.Some? && e.manifest.value.dlcEnabled && e.plan.details != [] ==>
        e.purged && e.report == AvailableBlocking
  {
  }

  // ---------------------------------------------------------------------
  // Downloading
  // ---------------------------------------------------------------------

  lemma {:induction false} SumPrefixIsSumSizes(ds: seq<PackageDetails>, n: nat)
    requires n <= |ds|
    ensures SumPrefix(ds, n) == SumSizes(ds[..n])
  {
    if n > 0 {
      SumPrefixIsSumSizes(ds, n - 1);
      assert ds[..n][..n - 1] == ds[..n - 1];
    }
  }

  /** The downloaded total after `n` packages is the start plus their declared sizes, modulo 2^32. */
  lemma {:induction false} DownloadedAfterIsSum(downloaded0: U32, ds: seq<PackageDetails>, n: nat)
    requires n <= |ds|
    ensures DownloadedAfter(downloaded0, ds, n) == (downloaded0 + SumSizes(ds[..n])) % U32_MODULUS
  {
    SumPrefixIsSumSizes(ds, n);
    if n > 0 {
      DownloadedAfterIsSum(downloaded0, ds, n - 1);
      SumPrefixIsSumSizes(ds, n - 1);
      AddU32IsMod(DownloadedAfter(downloaded0, ds, n - 1), ds[n - 1].size);
      ModAddLeft(downloaded0 + SumPrefix(ds, n - 1), ds[n - 1].size);
    }
  }

  /** Requesting package `c + 1` extends the requests in order. */
  lemma RequestNext(details: seq<PackageDetails>, c: nat, requested0: seq<string>)
    requires c + 1 < |details|
    ensures requested0 + Urls(details)[..c + 1] + [details[c + 1].url] == requested0 + Urls(details)[..c + 2]
  {
    assert Urls(details)[..c + 2] == Urls(details)[..c + 1] + [details[c + 1].url];
  }

  /** A flushed chunk is appended to the archive, and nothing else happens: no checksum check, no report. */
  lemma FlushOnlyAppends(env: Env, details: seq<PackageDetails>, t: Transfer, data: Bytes)
    requires t.current < |details|
    ensures OnChunk(env, details, t, Flushed, data)
         == (t.(store := AppendToArchive(t.store, details[t.current].id, data)), None)
  {
  }

  /** A reported failure leaves nothing in Temp. */
  lemma FailureClearsTemp(env: Env, details: seq<PackageDetails>, t: Transfer, result: DownloaderResult, data: Bytes)
    requires t.current < |details|
    ensures OnChunk(env, details, t, result, data).1 == Some(Failed) ==>
      forall k :: k in OnChunk(env, details, t, result, data).0.store.files ==> !Under(k, TEMP_DIR)
  {
  }

  /**
   * The next package is requested only after the current one's checksum
   * matched, and the download index then moves by exactly one.
   */
  lemma AdvancesOnlyWhenVerified(env: Env, details: seq<PackageDetails>, t: Transfer, result: DownloaderResult, data: Bytes)
    requires t.current < |details|
    ensures var t' := OnChunk(env, details, t, result, data).0;
      t'.current != t.current ==>
        t'.current == t.current + 1 && result == Downloaded &&
        CalculateChecksum(env.codecs, t'.store.files[TempArchive(details[t.current].id)]) == details[t.current].checksum
  {
  }

  /**
   * A callback that reports nothing keeps the session invariant: exactly the
   * packages up to the current one have been requested, in order, and the
   * downloaded total counts exactly the declared sizes of those before it.
   */
  lemma CallbackKeepsSession(env: Env, details: seq<PackageDetails>, t: Transfer, result: DownloaderResult,
                             data: Bytes, requested0: seq<string>, downloaded0: U32)
    requires Downloading(details, t, requested0, downloaded0)
    ensures var (t', report) := OnChunk(env, details, t, result, data);
      report.None? ==> Downloading(details, t', requested0, downloaded0)
  {
    var c := t.current;
    if result == Downloaded && c + 1 < |details| {
      RequestNext(details, c, requested0);
    }
  }

  /**
   * A reported success comes from the last package, after every package was
   * requested once in order; the downloaded total then counts every declared
   * size (DownloadedAfterIsSum: modulo 2^32).
   */
  lemma SuccessCountsEveryPackage(env: Env, details: seq<PackageDetails>, t: Transfer, result: DownloaderResult,
                                  data: Bytes, requested0: seq<string>, downloaded0: U32)
    requires Downloading(details, t, requested0, downloaded0)
    ensures var (t', report) := OnChunk(env, details, t, result, data);
      report == Some(Succeeded) ==>
        && t.current == |details| - 1
        && t'.requested == requested0 + Urls(details)
        && t'.downloaded == DownloadedAfter(downloaded0, details, |details|)
  {
    assert Urls(details)[..|details|] == Urls(details);
  }

  // ---------------------------------------------------------------------
  // Installing
  // ---------------------------------------------------------------------

  /** The files an archive entry loop writes: the entries from `k` on that name a file, one after the other. */
  function WrittenFiles(entries: seq<ZipEntry>, k: nat, files: map<string, Bytes>): map<string, Bytes>
    requires k <= |entries|
    decreases |entries| - k
  {
    if k == |entries| then files
    else WrittenFiles(entries, k + 1, if Paths.IsFile(entries[k].name) then files[entries[k].name := entries[k].data] else files)
  }

  lemma {:induction false} WriteEntriesFiles(env: Env, entries: seq<ZipEntry>, k: nat, st: Store)
    requires k <= |entries|
    ensures WriteEntriesFrom(env, entries, k, st).files == WrittenFiles(entries, k, st.files)
    decreases |entries| - k
  {
    if k < |entries| {
      var e := entries[k];
      var withDir := if Paths.ContainsDirectoryPath(e.name)
                     then st.(dirs := st.dirs + {Paths.GetPathExcludingFileName(env.width, e.name)}) else st;
      var written := if Paths.IsFile(e.name) then withDir.(files := withDir.files[e.name := e.data]) else withDir;
      WriteEntriesFiles(env, entries, k + 1, written);
    }
  }

  /** The last file entry of each name wins. */
  lemma {:induction false} LastEntryWins(entries: seq<ZipEntry>, k: nat, files: map<string, Bytes>)
    requires k <= |entries|
    ensures forall j :: k <= j < |entries| && Paths.IsFile(entries[j].name) &&
                        (forall j' :: j < j' < |entries| ==> entries[j'].name != entries[j].name) ==>
              entries[j].name in WrittenFiles(entries, k, files) && WrittenFiles(entries, k, files)[entries[j].name] == entries[j].data
    decreases |entries| - k
  {
    if k < |entries| {
      var next := if Paths.IsFile(entries[k].name) then files[entries[k].name := entries[k].data] else files;
      LastEntryWins(entries, k + 1, next);
      UnnamedKept(entries, k + 1, next);
    }
  }

  /** A file no entry names is kept as it was. */
  lemma {:induction false} UnnamedKept(entries: seq<ZipEntry>, k: nat, files: map<string, Bytes>)
    requires k <= |entries|
    ensures forall name :: name in files && (forall j :: k <= j < |entries| ==> entries[j].name != name) ==>
              name in WrittenFiles(entries, k, files) && WrittenFiles(entries, k, files)[name] == files[name]
    decreases |entries| - k
  {
    if k < |entries| {
      var next := if Paths.IsFile(entries[k].name) then files[entries[k].name := entries[k].data] else files;
      UnnamedKept(entries, k + 1, next);
    }
  }

  /** Every file afterwards was there before or is named by a file entry. */
  lemma {:induction false} NothingElseWritten(entries: seq<ZipEntry>, k: nat, files: map<string, Bytes>)
    requires k <= |entries|
    ensures forall name :: name in WrittenFiles(entries, k, files) ==>
              name in files || exists j :: k <= j < |entries| && entries[j].name == name && Paths.IsFile(name)
    decreases |entries| - k
  {
    if k < |entries| {
      var next := if Paths.IsFile(entries[k].name) then files[entries[k].name := entries[k].data] else files;
      NothingElseWritten(entries, k + 1, next);
    }
  }

  /**
   * A package whose archive opens is installed: every file entry (the last of
   * its name) is in the DLC location with the entry's data, and every other
   * file was there before and is not in the package's directory.
   */
  lemma ExtractInstallsPackage(env: Env, d: PackageDetails, st: Store, entries: seq<ZipEntry>)
    requires TempArchive(d.id) in st.files
    requires env.codecs.unzip(st.files[TempArchive(d.id)]) == Some(entries)
    ensures var r := Extract(env, d, st);
      forall j :: 0 <= j < |entries| && Paths.IsFile(entries[j].name) &&
                  (forall j' :: j < j' < |entries| ==> entries[j'].name != entries[j].name) ==>
        entries[j].name in r.files && r.files[entries[j].name] == entries[j].data
    ensures var r := Extract(env, d, st);
      forall name :: name in r.files ==>
        (name in st.files && !Under(name, d.id)) || exists j :: 0 <= j < |entries| && entries[j].name == name && Paths.IsFile(name)
  {
    var cleared := DeleteDirectory(st, d.id);
    WriteEntriesFiles(env, entries, 0, cleared);
    LastEntryWins(entries, 0, cleared.files);
    NothingElseWritten(entries, 0, cleared.files);
  }

  lemma {:induction false} DeleteAllRemoves(ids: seq<string>, i: nat, st: Store)
    requires i <= |ids|
    ensures forall k :: k in DeleteAllFrom(ids, i, st).files ==>
              k in st.files && forall j :: i <= j < |ids| ==> !Under(k, ids[j])
    decreases |ids| - i
  {
    if i < |ids| {
      DeleteAllRemoves(ids, i + 1, DeleteDirectory(st, ids[i]));
    }
  }

  /**
   * After a successful install the saved manifest is the server's, nothing is
   * left in Temp, and nothing is left in the directory of a removed package:
   * the manifest is written after both deletions.
   */
  lemma InstallCommitsManifestLast(env: Env, ds: seq<PackageDetails>, removeIds: seq<string>, m: Manifest, st: Store)
    ensures var r := InstallStore(env, ds, removeIds, m, st);
      && r.files[MANIFEST_FILE] == env.codecs.printManifest(m)
      && forall k :: k in r.files && k != MANIFEST_FILE ==>
           !Under(k, TEMP_DIR) && forall j :: 0 <= j < |removeIds| ==> !Under(k, removeIds[j])
  {
    var extracted := ExtractAllFrom(env, ds, 0, st);
    DeleteAllRemoves(removeIds, 0, DeleteDirectory(extracted, TEMP_DIR));
  }

  // ---------------------------------------------------------------------
  // The update-check delegate
  // ---------------------------------------------------------------------

  /**
   * As the source clears the delegate after every manifest callback, a
   * manifest delivered as a flushed chunk and then a final chunk finds no
   * delegate installed when the final chunk arrives.
   */
  lemma AsWrittenLosesDelegateAfterFlush()
    ensures DelegatePresence(KeepsCheckDelegateAsWritten, true, [Flushed, Downloaded]) == [true, false]
  {
    assert [Flushed, Downloaded][1..] == [Downloaded];
  }

  /**
   * Keeping the delegate across flushed chunks, it is installed when every
   * callback of a manifest download arrives: any number of flushed chunks
   * followed by the final result.
   */
  lemma {:induction false} DelegateKeptUntilFinalChunk(results: seq<DownloaderResult>)
    requires forall i :: 0 <= i < |results| - 1 ==> results[i] == Flushed
    ensures forall i :: 0 <= i < |results| ==> DelegatePresence(KeepsCheckDelegate, true, results)[i]
  {
    if results != [] {
      DelegateKeptUntilFinalChunk(results[1..]);
      var r := DelegatePresence(KeepsCheckDelegate, true, results);
      var tail := DelegatePresence(KeepsCheckDelegate, true, results[1..]);
      if |results| > 1 {
        assert KeepsCheckDelegate(results[0]);
        assert r == [true] + tail;
      } else {
        assert r == [true];
      }
    }
  }
}
