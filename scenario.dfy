/**
 * A worked example: three packages, where the provider reports three newer
 * releases for the first and the third and none for the second, with the
 * default threshold of 2.
 */
module DebtScenario {
  import opened Wrappers
  import opened Upstream
  import opened DebtSpec
  import opened Debt

  /** The provider reports `count` updates for the pinned version of `p`. */
  predicate Reports(provider: Provider, p: Purl, count: nat) {
    provider(p.purlType, p.name).Found? &&
    provider(p.purlType, p.name).noOfUpdates(p.version) == count
  }

  /** An entry is debt-bearing exactly when the provider's count exceeds the threshold. */
  lemma ReportedDebt<V>(provider: Provider, scheme: VersionScheme<V>, p: Purl, count: nat, threshold: int)
    requires Reports(provider, p, count)
    ensures IsDebt(Some(p), provider, scheme, threshold) <==> count > threshold
  {
    UpdatesFromProvider(p.version, provider(p.purlType, p.name), scheme);
  }

  /** Two of the three packages are debt-bearing. */
  lemma ThreePackages<V>(provider: Provider, scheme: VersionScheme<V>, a: Purl, b: Purl, c: Purl, verbose: bool)
    requires Reports(provider, a, 3) && Reports(provider, b, 0) && Reports(provider, c, 3)
    ensures |Assessed([Some(a), Some(b), Some(c)], provider, scheme, 2, verbose)| == 2
  {
    var es := [Some(a), Some(b), Some(c)];
    ReportedDebt(provider, scheme, a, 3, 2);
    ReportedDebt(provider, scheme, b, 0, 2);
    ReportedDebt(provider, scheme, c, 3, 2);
    AssessedSnoc(es, 0, provider, scheme, 2, verbose);
    AssessedSnoc(es, 1, provider, scheme, 2, verbose);
    AssessedSnoc(es, 2, provider, scheme, 2, verbose);
    DebtOfCount(es[0], provider, scheme, 2, verbose);
    DebtOfCount(es[1], provider, scheme, 2, verbose);
    DebtOfCount(es[2], provider, scheme, 2, verbose);
    assert es[..0] == [];
    assert es[..3] == es;
  }

  /**
   * One run over the three packages reports 3 packages, 2 in debt and the
   * ratio 2/3; a second run on the same object, whose counters are not
   * reset, reports 6 and 4.
   */
  method RunTwice<V>(provider: Provider, scheme: VersionScheme<V>, a: Purl, b: Purl, c: Purl)
    returns (first: (nat, nat, real), second: (nat, nat, real))
    requires Reports(provider, a, 3) && Reports(provider, b, 0) && Reports(provider, c, 3)
    ensures first == (3, 2, 2.0 / 3.0)
    ensures second == (6, 4, 4.0 / 6.0)
  {
    var engine := new SBOMdebt("sbom.json", Options(None, None, None), "");
    var entries := [Some(a), Some(b), Some(c)];
    ThreePackages(provider, scheme, a, b, c, false);
    var outcome := engine.Calculate(entries, provider, scheme);
    assert engine.packageCount == 3 && engine.packageCountDebt == 2;
    first := Snapshot(engine, map[]);
    var written := engine.debt;
    outcome := engine.Calculate(entries, provider, scheme);
    assert engine.packageCount == 6 && engine.packageCountDebt == 4;
    second := Snapshot(engine, written);
  }

  /** The counters and the ratio as read back from the summary dictionary. */
  method Snapshot(engine: SBOMdebt, before: map<string, DebtValue>) returns (s: (nat, nat, real))
    requires engine.Valid() && engine.packageCount > 0
    requires engine.debt == Summary(before, engine.sbom, engine.package,
                                    engine.packageCount, engine.packageCountDebt)
    ensures s == (engine.packageCount, engine.packageCountDebt,
                  engine.packageCountDebt as real / engine.packageCount as real)
  {
    var d := engine.GetDebt();
    SummaryKeys(before, engine.sbom, engine.package, engine.packageCount, engine.packageCountDebt);
    s := (d["package_count"].n, d["debt_count"].n, d["ratio"].r);
  }
}
