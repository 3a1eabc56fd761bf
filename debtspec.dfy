/**
 * Reference definitions of what the debt engine computes, independent of the
 * loops that compute it, and the properties proved about them.
 */
module DebtSpec {
  import opened Wrappers
  import opened TagNames
  import opened Upstream

  /** A newer release as the engine records it: normalised name and date. */
  datatype Release = Release(name: string, date: Option<Timestamp>)

  /**
   * The list of newer releases; `NoHistory` is what the engine returns in its
   * place (the integer 0) when the provider has no data for the package.
   */
  datatype PackageUpdates = Newer(releases: seq<Release>) | NoHistory

  /** The four results of the per-package reconciler. */
  datatype PackageInfo = PackageInfo(latestVersion: string, latestDate: Option<Timestamp>,
                                     updates: nat, packageUpdates: PackageUpdates)

  /**
   * The record kept for a debt-bearing package; `packageUpdates` is present
   * only in verbose mode.
   */
  datatype Assessment = Assessment(name: string, currentVersion: string, latestVersion: string,
                                   latestDate: Option<Timestamp>, updates: nat,
                                   packageUpdates: Option<PackageUpdates>)

  /** The values stored in the summary dictionary. */
  datatype DebtValue =
    | SbomName(path: string)
    | PackageList(items: seq<Assessment>)
    | Count(n: nat)
    | RatioValue(r: real)

  function AsRelease(t: Tag): Release {
    Release(Normalise(t.name), t.publishedAt)
  }

  /** The tags as releases, in order. */
  function Releases(tags: seq<Tag>): (r: seq<Release>)
    ensures |r| == |tags|
  {
    if tags == [] then [] else Releases(tags[..|tags| - 1]) + [AsRelease(tags[|tags| - 1])]
  }

  /** Release i is tag i, normalised. */
  lemma {:induction false} ReleasesAt(tags: seq<Tag>, i: nat)
    requires i < |tags|
    ensures Releases(tags)[i] == AsRelease(tags[i])
  {
    if i < |tags| - 1 {
      ReleasesAt(tags[..|tags| - 1], i);
    }
  }

  /**
   * The position of the first tag whose normalised name equals the pinned
   * version (compared as given), or the number of tags when none does.
   */
  function FirstMatch(tags: seq<Tag>, version: string): (k: nat)
    ensures k <= |tags|
    ensures forall j :: 0 <= j < k ==> Normalise(tags[j].name) != version
    ensures k < |tags| ==> Normalise(tags[k].name) == version
  {
    if tags == [] then 0
    else if Normalise(tags[0].name) == version then 0
    else
      var k := FirstMatch(tags[1..], version);
      assert forall j :: 1 <= j <= k ==> tags[j] == tags[1..][j - 1];
      1 + k
  }

  /**
   * When the first tag is itself the pinned version, it still serves as the
   * first tag: the newer list is empty and the reconciliation compares the
   * provider's latest version against the pinned version.
   */
  lemma FirstTagWhenMatched<V>(version: string, md: Metadata, scheme: VersionScheme<V>)
    requires md.Found? && TagsOf(md) != [] && Normalise(TagsOf(md)[0].name) == version
    ensures Info(version, md, scheme).packageUpdates == Newer([])
    ensures Info(version, md, scheme).latestVersion == Reconcile(Some(version), md.latestVersion, scheme)
  {
    assert FirstMatch(TagsOf(md), version) == 0;
  }

  /** The characterisation of FirstMatch determines it. */
  lemma FirstMatchIs(tags: seq<Tag>, version: string, k: nat)
    requires k <= |tags|
    requires forall j :: 0 <= j < k ==> Normalise(tags[j].name) != version
    requires k < |tags| ==> Normalise(tags[k].name) == version
    ensures FirstMatch(tags, version) == k
  {
  }

  /** The tag list of a provider answer; an absent list is empty. */
  function TagsOf(md: Metadata): seq<Tag>
    requires md.Found?
  {
    md.tags.GetOr([])
  }

  /** The normalised name of the first (most recent) tag, if any. */
  function FirstTag(tags: seq<Tag>): (r: Option<string>)
    ensures r.Some? <==> tags != []
    ensures r.Some? ==> r.value == Normalise(tags[0].name)
  {
    if tags == [] then None else Some(Normalise(tags[0].name))
  }

  /**
   * The provider's latest version, replaced by the first tag only when the
   * first tag is strictly newer under the version scheme.
   */
  function Reconcile<V>(firstTag: Option<string>, latest: string, scheme: VersionScheme<V>): (r: string)
    ensures r == latest || (firstTag.Some? && r == firstTag.value)
  {
    if firstTag.Some? && firstTag.value != latest && StrictlyNewer(scheme, latest, firstTag.value)
    then firstTag.value
    else latest
  }

  /** What the reconciler returns for a package pinned at `version`. */
  function Info<V>(version: string, md: Metadata, scheme: VersionScheme<V>): (r: PackageInfo)
    ensures r.packageUpdates.NoHistory? <==> md.NoData?
  {
    match md
    case NoData => PackageInfo(version, None, 0, NoHistory)
    case Found(_, latest, time, noOfUpdates) =>
      var tags := TagsOf(md);
      PackageInfo(Reconcile(FirstTag(tags), latest, scheme), time, noOfUpdates(version),
                  Newer(Releases(tags[..FirstMatch(tags, version)])))
  }

  /** The record kept for a package whose update count exceeds the threshold. */
  function Assess(p: Purl, info: PackageInfo, verbose: bool): Assessment {
    Assessment(p.name, p.version, info.latestVersion, info.latestDate, info.updates,
               if verbose then Some(info.packageUpdates) else None)
  }

  /** The reconciler's result for the package of an SBOM entry. */
  function InfoOf<V>(p: Purl, provider: Provider, scheme: VersionScheme<V>): PackageInfo {
    Info(p.version, provider(p.purlType, p.name), scheme)
  }

  /** An entry has a package URL and more than `threshold` updates. */
  predicate IsDebt<V>(entry: Option<Purl>, provider: Provider, scheme: VersionScheme<V>, threshold: int) {
    entry.Some? && InfoOf(entry.value, provider, scheme).updates > threshold
  }

  /** The records one SBOM entry contributes: none, or its assessment. */
  function DebtOf<V>(entry: Option<Purl>, provider: Provider, scheme: VersionScheme<V>,
                     threshold: int, verbose: bool): seq<Assessment> {
    if IsDebt(entry, provider, scheme, threshold)
    then [Assess(entry.value, InfoOf(entry.value, provider, scheme), verbose)]
    else []
  }

  /** The records of all debt-bearing entries, in SBOM order. */
  function Assessed<V>(entries: seq<Option<Purl>>, provider: Provider, scheme: VersionScheme<V>,
                       threshold: int, verbose: bool): (r: seq<Assessment>)
    ensures |r| <= |entries|
  {
    if entries == [] then []
    else Assessed(entries[..|entries| - 1], provider, scheme, threshold, verbose)
         + DebtOf(entries[|entries| - 1], provider, scheme, threshold, verbose)
  }

  /** The debt ratio; the source divides without a guard. */
  function Ratio(debtCount: nat, packageCount: nat): (r: real)
    requires packageCount > 0
    ensures r * packageCount as real == debtCount as real
    ensures 0.0 <= r
    ensures debtCount <= packageCount ==> r <= 1.0
  {
    debtCount as real / packageCount as real
  }

  /** The summary dictionary after `calculate` writes it over `d`. */
  function Summary(d: map<string, DebtValue>, sbom: string, packages: seq<Assessment>,
                   packageCount: nat, debtCount: nat): (r: map<string, DebtValue>)
    ensures "ratio" in r <==> packageCount > 0 || "ratio" in d
  {
    var written := d["sbom" := SbomName(sbom)]["packages" := PackageList(packages)]
                    ["package_count" := Count(packageCount)]["debt_count" := Count(debtCount)];
    if packageCount == 0 then written
    else written["ratio" := RatioValue(Ratio(debtCount, packageCount))]
  }

  // ---- Properties of the tag walk and the reconciliation ----

  /**
   * The reconciled latest version is one of the two candidates; it is the
   * first tag exactly when that tag is strictly newer than the provider's
   * value, so a version the parser rejects keeps the provider's value.
   */
  lemma ReconcileChoice<V>(firstTag: Option<string>, latest: string, scheme: VersionScheme<V>)
    ensures var r := Reconcile(firstTag, latest, scheme);
            (r == latest || (firstTag.Some? && r == firstTag.value)) &&
            (r != latest ==> StrictlyNewer(scheme, latest, r)) &&
            (firstTag.Some? && StrictlyNewer(scheme, latest, firstTag.value) ==> r == firstTag.value) &&
            (firstTag.Some? && (scheme.parse(latest).None? || scheme.parse(firstTag.value).None?) ==> r == latest)
  {
  }

  /**
   * When tag k is the first whose normalised name equals the pinned version,
   * the newer list is exactly tags 0..k-1, normalised and in order; tag k is
   * not in it.
   */
  lemma MatchFound<V>(version: string, md: Metadata, scheme: VersionScheme<V>, k: nat)
    requires md.Found? && k < |TagsOf(md)|
    requires Normalise(TagsOf(md)[k].name) == version
    requires forall j :: 0 <= j < k ==> Normalise(TagsOf(md)[j].name) != version
    ensures Info(version, md, scheme).packageUpdates.Newer?
    ensures |Info(version, md, scheme).packageUpdates.releases| == k
    ensures forall j :: 0 <= j < k ==>
              Info(version, md, scheme).packageUpdates.releases[j] == AsRelease(TagsOf(md)[j])
  {
    var tags := TagsOf(md);
    assert FirstMatch(tags, version) == k;
    forall j | 0 <= j < k
      ensures Info(version, md, scheme).packageUpdates.releases[j] == AsRelease(tags[j])
    {
      ReleasesAt(tags[..k], j);
    }
  }

  /** When no tag normalises to the pinned version, every tag is newer. */
  lemma NoMatch<V>(version: string, md: Metadata, scheme: VersionScheme<V>)
    requires md.Found?
    requires forall j :: 0 <= j < |TagsOf(md)| ==> Normalise(TagsOf(md)[j].name) != version
    ensures Info(version, md, scheme).packageUpdates == Newer(Releases(TagsOf(md)))
  {
    var tags := TagsOf(md);
    assert FirstMatch(tags, version) == |tags|;
    assert tags[..|tags|] == tags;
  }

  /**
   * A pinned version with a `v` or an upper-case letter equals no normalised
   * name, so every tag counts as newer.
   */
  lemma UnmatchablePinnedVersion<V>(version: string, md: Metadata, scheme: VersionScheme<V>)
    requires md.Found?
    requires 'v' in version || !NoUpper(version)
    ensures Info(version, md, scheme).packageUpdates == Newer(Releases(TagsOf(md)))
  {
    var tags := TagsOf(md);
    forall j | 0 <= j < |tags| ensures Normalise(tags[j].name) != version {
      if Normalise(tags[j].name) == version {
        NormalFormsAreLowerWithoutV(tags[j].name, version);
      }
    }
    NoMatch(version, md, scheme);
  }

  /**
   * An empty provider answer means: latest version = the pinned version, no
   * date, no updates, and the integer 0 in place of the release list.
   */
  lemma NoProviderData<V>(version: string, scheme: VersionScheme<V>)
    ensures Info(version, NoData, scheme) == PackageInfo(version, None, 0, NoHistory)
  {
  }

  /**
   * With provider data, the update count and the latest date are the
   * provider's own, whatever the tag walk finds.
   */
  lemma UpdatesFromProvider<V>(version: string, md: Metadata, scheme: VersionScheme<V>)
    requires md.Found?
    ensures Info(version, md, scheme).updates == md.noOfUpdates(version)
    ensures Info(version, md, scheme).latestDate == md.latestReleaseTime
    ensures Info(version, md, scheme).packageUpdates.Newer?
  {
  }

  /**
   * Without a tag list (absent or empty) the newer list is empty and the
   * provider's latest version stands.
   */
  lemma NoTags<V>(version: string, md: Metadata, scheme: VersionScheme<V>)
    requires md.Found? && TagsOf(md) == []
    ensures Info(version, md, scheme).packageUpdates == Newer([])
    ensures Info(version, md, scheme).latestVersion == md.latestVersion
  {
  }

  /**
   * Under a strict order the reconciled latest version is never older than
   * the provider's, whenever both parse.
   */
  lemma ReconcileNeverDowngrades<V(!new)>(firstTag: Option<string>, latest: string, scheme: VersionScheme<V>)
    requires StrictOrder(scheme.less)
    requires scheme.parse(latest).Some? && scheme.parse(Reconcile(firstTag, latest, scheme)).Some?
    ensures !scheme.less(scheme.parse(Reconcile(firstTag, latest, scheme)).value, scheme.parse(latest).value)
  {
    var r := Reconcile(firstTag, latest, scheme);
    var a, b := scheme.parse(latest).value, scheme.parse(r).value;
    if r != latest {
      assert scheme.less(a, b);
    }
  }

  // ---- Properties of the accumulation ----

  /**
   * There are never more records than entries, and every record is over
   * the threshold and carries its release list exactly in verbose mode.
   */
  lemma {:induction false} AssessedBounds<V>(entries: seq<Option<Purl>>, provider: Provider,
                                             scheme: VersionScheme<V>, threshold: int, verbose: bool)
    ensures |Assessed(entries, provider, scheme, threshold, verbose)| <= |entries|
    ensures forall i :: 0 <= i < |Assessed(entries, provider, scheme, threshold, verbose)| ==>
              Assessed(entries, provider, scheme, threshold, verbose)[i].updates > threshold &&
              (Assessed(entries, provider, scheme, threshold, verbose)[i].packageUpdates.Some? <==> verbose)
    decreases |entries|
  {
    if entries != [] {
      AssessedBounds(entries[..|entries| - 1], provider, scheme, threshold, verbose);
    }
  }

  /**
   * The summary holds the four counters' keys, the ratio exactly when
   * there is at least one package, and leaves every other key alone.
   */
  lemma SummaryKeys(d: map<string, DebtValue>, sbom: string, packages: seq<Assessment>,
                    packageCount: nat, debtCount: nat)
    ensures var r := Summary(d, sbom, packages, packageCount, debtCount);
            r.Keys == d.Keys + {"sbom", "packages", "package_count", "debt_count"}
                      + (if packageCount > 0 then {"ratio"} else {}) &&
            r["sbom"] == SbomName(sbom) &&
            r["package_count"] == Count(packageCount) && r["debt_count"] == Count(debtCount) &&
            r["packages"] == PackageList(packages) &&
            (packageCount > 0 ==> r["ratio"] == RatioValue(debtCount as real / packageCount as real)) &&
            (forall k :: k in d && k !in {"sbom", "packages", "package_count", "debt_count", "ratio"} ==> r[k] == d[k])
  {
  }

  /** An entry contributes one record if it is debt-bearing, none otherwise. */
  lemma DebtOfCount<V>(entry: Option<Purl>, provider: Provider, scheme: VersionScheme<V>,
                       threshold: int, verbose: bool)
    ensures |DebtOf(entry, provider, scheme, threshold, verbose)|
            == if IsDebt(entry, provider, scheme, threshold) then 1 else 0
  {
  }

  /** Processing one more entry appends that entry's records. */
  lemma AssessedSnoc<V>(entries: seq<Option<Purl>>, n: nat, provider: Provider,
                        scheme: VersionScheme<V>, threshold: int, verbose: bool)
    requires n < |entries|
    ensures Assessed(entries[..n + 1], provider, scheme, threshold, verbose)
            == Assessed(entries[..n], provider, scheme, threshold, verbose)
               + DebtOf(entries[n], provider, scheme, threshold, verbose)
  {
    assert entries[..n + 1][..n] == entries[..n];
  }

  /** Processing two runs of entries gives the records of each, in order. */
  lemma {:induction false} AssessedAppend<V>(a: seq<Option<Purl>>, b: seq<Option<Purl>>, provider: Provider,
                                             scheme: VersionScheme<V>, threshold: int, verbose: bool)
    ensures Assessed(a + b, provider, scheme, threshold, verbose)
            == Assessed(a, provider, scheme, threshold, verbose) + Assessed(b, provider, scheme, threshold, verbose)
    decreases |b|
  {
    if b == [] {
      assert a + b == a;
    } else {
      assert (a + b)[..|a + b| - 1] == a + b[..|b| - 1];
      AssessedAppend(a, b[..|b| - 1], provider, scheme, threshold, verbose);
    }
  }

  /**
   * A debt-bearing entry i is recorded right after the records of the
   * entries before it, so records follow SBOM order.
   */
  lemma AssessedAt<V>(entries: seq<Option<Purl>>, i: nat, provider: Provider,
                      scheme: VersionScheme<V>, threshold: int, verbose: bool)
    requires i < |entries| && IsDebt(entries[i], provider, scheme, threshold)
    ensures var k := |Assessed(entries[..i], provider, scheme, threshold, verbose)|;
            k < |Assessed(entries, provider, scheme, threshold, verbose)| &&
            Assessed(entries, provider, scheme, threshold, verbose)[k]
              == Assess(entries[i].value, InfoOf(entries[i].value, provider, scheme), verbose)
  {
    var before, here, after := entries[..i], [entries[i]], entries[i + 1..];
    assert entries == before + here + after;
    AssessedAppend(before + here, after, provider, scheme, threshold, verbose);
    AssessedAppend(before, here, provider, scheme, threshold, verbose);
    assert Assessed(here, provider, scheme, threshold, verbose)
           == DebtOf(entries[i], provider, scheme, threshold, verbose) by {
      assert here[..0] == [];
    }
  }

  /** Every record comes from a debt-bearing entry of the SBOM. */
  lemma {:induction false} AssessedFromEntries<V>(entries: seq<Option<Purl>>, provider: Provider,
                                                  scheme: VersionScheme<V>, threshold: int, verbose: bool, k: nat)
    requires k < |Assessed(entries, provider, scheme, threshold, verbose)|
    ensures exists i :: 0 <= i < |entries| && IsDebt(entries[i], provider, scheme, threshold) &&
              Assessed(entries, provider, scheme, threshold, verbose)[k]
                == Assess(entries[i].value, InfoOf(entries[i].value, provider, scheme), verbose)
    decreases |entries|
  {
    var n := |entries| - 1;
    var front := Assessed(entries[..n], provider, scheme, threshold, verbose);
    if k < |front| {
      AssessedFromEntries(entries[..n], provider, scheme, threshold, verbose, k);
      var i :| 0 <= i < n && IsDebt(entries[..n][i], provider, scheme, threshold) &&
               front[k] == Assess(entries[..n][i].value, InfoOf(entries[..n][i].value, provider, scheme), verbose);
      assert entries[..n][i] == entries[i];
    } else {
      assert IsDebt(entries[n], provider, scheme, threshold);
    }
  }
}
