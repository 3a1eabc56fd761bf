/**
 * The debt engine (sbomdebt/debt.py): an object that accumulates package
 * counts and debt records over the entries of an SBOM, resolving each
 * package against the metadata provider.
 */
module Debt {
  import opened Wrappers
  import opened TagNames
  import opened Upstream
  import opened DebtSpec

  /** The recognised options; an absent option takes its default. */
  datatype Options = Options(updates: Option<int>, debug: Option<bool>, verbose: Option<bool>)

  /** How `Calculate` ended: normally, or in the unguarded division by zero. */
  datatype Outcome = Completed | ZeroDivision

  class SBOMdebt {
    const sbom: string
    const options: Options
    const output: string
    var packageCount: nat
    var packageCountDebt: nat
    var package: seq<Assessment>
    const updateCount: int
    const debug: bool
    const verbose: bool
    var debt: map<string, DebtValue>

    /**
     * One record per debt-bearing package, each over the threshold and
     * carrying its release list exactly in verbose mode; a ratio, once
     * written, lies in [0, 1].
     */
    ghost predicate Valid()
      reads this
    {
      |package| == packageCountDebt <= packageCount &&
      (forall i :: 0 <= i < |package| ==>
         package[i].updates > updateCount && (package[i].packageUpdates.Some? <==> verbose)) &&
      ("ratio" in debt ==>
         packageCount > 0 && debt["ratio"].RatioValue? && 0.0 <= debt["ratio"].r <= 1.0)
    }

    constructor (sbom: string, options: Options, output: string)
      ensures Valid()
      ensures this.sbom == sbom && this.options == options && this.output == output
      ensures packageCount == 0 && packageCountDebt == 0 && package == [] && debt == map[]
      ensures updateCount == options.updates.GetOr(2)
      ensures debug == options.debug.GetOr(false) && verbose == options.verbose.GetOr(false)
    {
      this.sbom := sbom;
      this.options := options;
      this.output := output;
      packageCount := 0;
      packageCountDebt := 0;
      package := [];
      updateCount := options.updates.GetOr(2);
      debug := options.debug.GetOr(false);
      verbose := options.verbose.GetOr(false);
      debt := map[];
    }

    /**
     * Reconciles one package: walks the tag list up to the pinned version,
     * and settles the latest version between the provider and the first tag.
     */
    method GetPackageInfo<V>(packageName: string, packageType: string, version: string,
                             provider: Provider, scheme: VersionScheme<V>)
      returns (latestVersion: string, latestDate: Option<Timestamp>, updates: nat,
               packageUpdates: PackageUpdates)
      ensures PackageInfo(latestVersion, latestDate, updates, packageUpdates)
              == Info(version, provider(packageType, packageName), scheme)
    {
      var packageInfo := provider(packageType, packageName);
      if packageInfo.Found? {
        var newer, firstTag := WalkTags(TagsOf(packageInfo), version);
        latestVersion := Reconcile(firstTag, packageInfo.latestVersion, scheme);
        latestDate := packageInfo.latestReleaseTime;
        updates := packageInfo.noOfUpdates(version);
        packageUpdates := Newer(newer);
      } else {
        latestVersion := version;
        latestDate := None;
        updates := 0;
        packageUpdates := NoHistory;
      }
    }

    /**
     * The walk over the provider's tags, most recent first: every tag before
     * the one matching the pinned version is a newer release, and the first
     * tag's normalised name is kept even when it is the match.
     */
    method WalkTags(tags: seq<Tag>, version: string) returns (newer: seq<Release>, firstTag: Option<string>)
      ensures newer == Releases(tags[..FirstMatch(tags, version)])
      ensures firstTag == FirstTag(tags)
    {
      newer := [];
      firstTag := None;
      var tagCount := 0;
      ghost var stop := |tags|;
      for i := 0 to |tags|
        invariant tagCount == i && newer == Releases(tags[..i])
        invariant forall j :: 0 <= j < i ==> Normalise(tags[j].name) != version
        invariant stop == |tags|
        invariant firstTag == (if i == 0 then None else Some(Normalise(tags[0].name)))
      {
        var name := Normalise(tags[i].name);
        if firstTag == None {
          firstTag := Some(name);
        }
        var date := tags[i].publishedAt;
        if version == name {
          FirstMatchIs(tags, version, i);
          stop := i;
          break;
        }
        tagCount := tagCount + 1;
        newer := newer + [Release(name, date)];
        assert tags[..i + 1][..i] == tags[..i];
      }
      if stop == |tags| {
        FirstMatchIs(tags, version, |tags|);
        assert tags[..stop] == tags;
      }
    }

    /**
     * Processes the SBOM's entries in order, then writes the summary. With
     * no packages at all the final division faults, after the first four
     * summary keys have been written. The counters are not reset, so a
     * second call continues from the first call's totals.
     */
    method Calculate<V>(packages: seq<Option<Purl>>, provider: Provider, scheme: VersionScheme<V>)
      returns (outcome: Outcome)
      requires Valid()
      modifies this
      ensures Valid()
      ensures packageCount == old(packageCount) + |packages|
      ensures package == old(package) + Assessed(packages, provider, scheme, updateCount, verbose)
      ensures packageCountDebt == |package|
      ensures debt == Summary(old(debt), sbom, package, packageCount, packageCountDebt)
      ensures outcome == (if packageCount == 0 then ZeroDivision else Completed)
    {
      for n := 0 to |packages|
        invariant Valid() && debt == old(debt)
        invariant packageCount == old(packageCount) + n
        invariant package == old(package) + Assessed(packages[..n], provider, scheme, updateCount, verbose)
      {
        AssessedSnoc(packages, n, provider, scheme, updateCount, verbose);
        Tally(packages[n], provider, scheme);
      }
      assert packages[..|packages|] == packages;
      outcome := Summarise();
    }

    /**
     * The tail of `Calculate`: writes the four summary keys and then the
     * ratio, whose division faults when no package was counted.
     */
    method Summarise() returns (outcome: Outcome)
      requires Valid()
      modifies this`debt
      ensures Valid()
      ensures debt == Summary(old(debt), sbom, package, packageCount, packageCountDebt)
      ensures outcome == (if packageCount == 0 then ZeroDivision else Completed)
    {
      debt := debt["sbom" := SbomName(sbom)];
      debt := debt["packages" := PackageList(package)];
      debt := debt["package_count" := Count(packageCount)];
      debt := debt["debt_count" := Count(packageCountDebt)];
      if packageCount == 0 {
        outcome := ZeroDivision;
      } else {
        debt := debt["ratio" := RatioValue(Ratio(packageCountDebt, packageCount))];
        outcome := Completed;
      }
    }

    /**
     * One step of the loop over the SBOM: the entry counts as a package,
     * and it adds a debt record when it has a package URL and more updates
     * than the threshold. A version mismatch without updates changes nothing.
     */
    method Tally<V>(purl: Option<Purl>, provider: Provider, scheme: VersionScheme<V>)
      requires Valid()
      modifies this`packageCount, this`packageCountDebt, this`package
      ensures Valid()
      ensures packageCount == old(packageCount) + 1
      ensures package == old(package) + DebtOf(purl, provider, scheme, updateCount, verbose)
    {
      packageCount := packageCount + 1;
      if purl.Some? {
        var purlInfo := purl.value;
        var latestVersion, latestDate, updates, packageUpdates :=
          GetPackageInfo(purlInfo.name, purlInfo.purlType, purlInfo.version, provider, scheme);
        if updates > updateCount {
          packageCountDebt := packageCountDebt + 1;
          var element := Assessment(purlInfo.name, purlInfo.version, latestVersion, latestDate, updates,
                                    if verbose then Some(packageUpdates) else None);
          package := package + [element];
        } else if updates == 0 && latestVersion != purlInfo.version {
          // A version mismatch without updates is only reported, never counted.
        }
      }
    }

    /** The summary dictionary; a ratio in it lies in [0, 1]. */
    function GetDebt(): (d: map<string, DebtValue>)
      reads this
      requires Valid()
      ensures d == debt
      ensures "ratio" in d ==> d["ratio"].RatioValue? && 0.0 <= d["ratio"].r <= 1.0
    {
      debt
    }
  }
}
