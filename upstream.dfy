/**
 * The collaborators the debt engine calls but does not implement: the
 * package-URL fields of an SBOM entry, the package-metadata provider and the
 * version parser with its ordering. Each is given to the engine as a value.
 */
module Upstream {
  import opened Wrappers

  type Timestamp = string

  /** One entry of the provider's tag list: its raw name and publication time. */
  datatype Tag = Tag(name: string, publishedAt: Option<Timestamp>)

  /**
   * What the provider answers for one package. `NoData` is an empty answer.
   * `Found` carries the tag list (`None` when the repository metadata has no
   * "tags" entry), the provider's latest version and latest release time, and
   * its count of updates newer than a given pinned version.
   */
  datatype Metadata =
    | NoData
    | Found(tags: Option<seq<Tag>>, latestVersion: string,
            latestReleaseTime: Option<Timestamp>, noOfUpdates: string -> nat)

  /** The metadata lookup, keyed by (package type, package name). */
  type Provider = (string, string) -> Metadata

  /**
   * The version parser (`None` where it rejects a string as invalid) and the
   * strict "older than" order on parsed versions.
   */
  datatype VersionScheme<!V> = VersionScheme(parse: string -> Option<V>, less: (V, V) -> bool)

  /** `b` parses, `a` parses, and `a` is strictly older than `b`. */
  predicate StrictlyNewer<V>(scheme: VersionScheme<V>, a: string, b: string) {
    scheme.parse(a).Some? && scheme.parse(b).Some? &&
    scheme.less(scheme.parse(a).value, scheme.parse(b).value)
  }

  /** `less` is irreflexive and transitive. */
  ghost predicate StrictOrder<V(!new)>(less: (V, V) -> bool) {
    (forall a :: !less(a, a)) &&
    (forall a, b, c :: less(a, b) && less(b, c) ==> less(a, c))
  }

  /** The (type, name, version) fields of a package URL. */
  datatype Purl = Purl(purlType: string, name: string, version: string)
}
