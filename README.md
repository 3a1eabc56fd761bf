# sbomdebt — a Dafny model of the debt engine

sbomdebt measures the "technical debt" of a software bill of materials (SBOM).
It counts every package the SBOM lists. For each package that has a package
URL, it asks a package-metadata provider how many releases are newer than the
pinned version. It keeps a record of every
package with more updates than a threshold (2 by default). It then writes a
summary holding the SBOM path, the records, the package count, the debt count
and the debt ratio.

This project models the engine class `SBOMdebt` of `sbomdebt/debt.py`:

- `TagNames` (`tagnames.dfy`) covers the normalisation of tag names:
  lower-case, delete `version-`, then delete every `v`.
- `Upstream` (`upstream.dfy`) holds the collaborators the engine calls but
  does not implement, each given to the engine as a value:
  - the package-URL fields of an SBOM entry;
  - the metadata provider, a function from (package type, package name) to
    its answer;
  - the version parser and its ordering.
- `DebtSpec` (`debtspec.dfy`) holds reference definitions of what the engine
  computes and the properties proved about them:
  - the position of the first matching tag;
  - the list of newer releases;
  - the reconciliation of the latest version;
  - the records of the debt-bearing packages;
  - the summary.
- `Debt` (`debt.dfy`) is the class itself. Its fields are the ones the source
  updates in place. `WalkTags` and `Calculate` keep the source's loops, and
  each is proved to compute the reference definitions.
- `DebtScenario` (`scenario.dfy`) is a worked example: three packages, two of
  them debt-bearing, run twice on one object.

The model follows `sbomdebt/debt.py` on these points:

- The pinned version and the provider's latest version are compared exactly as
  given. Only tag names are normalised (`sbomdebt/debt.py:40`, `:44`, `:56`).
- The update count is the provider's own count for the pinned version
  (`:69`). It is not the length of the list of newer releases.
- The ratio division is unguarded (`:133`). The divisor is the object's
  running package count, which starts at 0 (`:18`) and is never reset
  (`:87`). When it is still 0 at the end of a run, the source raises a
  division-by-zero error after the first four summary keys are written.
  `Calculate` returns `ZeroDivision` in that case, with exactly those keys
  written. An empty SBOM on a later run, after packages were counted, does not
  fault.
- With no provider data the release list is the integer 0 (`:75`). The model
  calls it `NoHistory`.

Three steps of the source are their own methods in the model:

- The loop over the tags in `get_package_info` is `WalkTags`.
- The body of the loop in `calculate` is `Tally`.
- The writing of the summary is `Summarise`.

`GetPackageInfo` calls `WalkTags`, and `Calculate` calls the other two, in
the source's order.

## Model

| member | source | states |
|---|---|---|
| TagNames.Lower | sbomdebt/debt.py:40 | an upper-case ASCII letter becomes its lower-case letter; any other character is unchanged |
| TagNames.LowerAll | sbomdebt/debt.py:40 | lower-casing the ASCII letters keeps the length; `LowerAllAt`, `LowerAllNoUpper` and `LowerAllFixed` state the rest |
| TagNames.DeleteAll | sbomdebt/debt.py:40 | `str.replace(p, "")` as one left-to-right pass never lengthens the string; `DeleteAllKeepsOnlyOwnChars`, `DeleteCharRemovesIt` and `DeleteAllAbsent` state the rest |
| TagNames.Normalise | sbomdebt/debt.py:40 | the tag-name normalisation; its properties are `NormaliseShape`, `NormaliseIdempotent`, `NormaliseFixed` and the prefix lemmas |
| TagNames.LowerAllAt | sbomdebt/debt.py:40 | lower-casing a string lowers each character in place, so the length is kept |
| TagNames.LowerAllNoUpper | sbomdebt/debt.py:40 | a lower-cased string has no upper-case letter |
| TagNames.DeleteAllKeepsOnlyOwnChars | sbomdebt/debt.py:40 | deleting a pattern never introduces a character |
| TagNames.DeleteCharRemovesIt | sbomdebt/debt.py:40 | after `replace(c, "")` no `c` is left |
| TagNames.DeleteAllAbsent | sbomdebt/debt.py:40 | deleting a pattern whose first letter does not occur changes nothing |
| TagNames.LowerAllFixed | sbomdebt/debt.py:40 | lower-casing a string with no upper-case letter changes nothing |
| TagNames.NormaliseShape | sbomdebt/debt.py:40 | a normalised name has no upper-case letter, no `v` and no `version-` |
| TagNames.NormaliseIdempotent | sbomdebt/debt.py:40 | normalising a normalised name returns it unchanged |
| TagNames.NormaliseFixed | sbomdebt/debt.py:40 | a lower-case name without `v` is its own normal form |
| TagNames.NormalFormsAreLowerWithoutV | sbomdebt/debt.py:40-44 | a pinned version equal to some tag's normal form is lower-case and has no `v` |
| TagNames.NormaliseVersionPrefix | sbomdebt/debt.py:40 | `version-` in front of a normal form is removed |
| TagNames.NormaliseLowerV | sbomdebt/debt.py:40 | a leading `v` in front of a normal form that does not start with `ersion-` is removed |
| TagNames.NormaliseUpperV | sbomdebt/debt.py:40 | a leading `V` is lowered and then removed, under the same condition |
| TagNames.NormaliseExamples | sbomdebt/debt.py:40 | `V1.2.0`, `version-1.2.0` and `v1.2.0` all normalise to `1.2.0` |
| DebtSpec.TagsOf | sbomdebt/debt.py:37-39 | an absent "tags" entry reads as the empty list; `NoTags` states the result |
| DebtSpec.AsRelease | sbomdebt/debt.py:40-49 | a tag's release is its normalised name with its date; `ReleasesAt` and `MatchFound` place it in the newer list |
| DebtSpec.Releases | sbomdebt/debt.py:39-49 | one release per tag; `ReleasesAt`, `MatchFound` and `NoMatch` state its contents |
| DebtSpec.ReleasesAt | sbomdebt/debt.py:39-49 | release i of the list is tag i's normalised name with tag i's date |
| DebtSpec.FirstMatch | sbomdebt/debt.py:39-47 | the walk stops at the first tag whose normal form equals the pinned version; no earlier tag matches; with no match it runs to the end |
| DebtSpec.FirstTagWhenMatched | sbomdebt/debt.py:36-47 | when tag 0 is itself the pinned version, it still becomes the first tag: the newer list is empty and the reconciliation compares the provider's latest version with the pinned version |
| DebtSpec.Ratio | sbomdebt/debt.py:133 | ratio × package count = debt count; the ratio is non-negative and at most 1 when debt count ≤ package count |
| DebtSpec.Reconcile | sbomdebt/debt.py:55-66 | the latest version is the provider's or the first tag's; `ReconcileChoice` and `ReconcileNeverDowngrades` say which |
| DebtSpec.Info | sbomdebt/debt.py:26-76 | the release list is absent (the integer 0) exactly when the provider has no data; `MatchFound`, `NoMatch`, `FirstTagWhenMatched`, `NoProviderData`, `UpdatesFromProvider` and `NoTags` state the rest |
| DebtSpec.ReconcileChoice | sbomdebt/debt.py:55-66 | the latest version is the provider's or the first tag's; it is the first tag exactly when that tag is strictly newer; a version the parser rejects keeps the provider's |
| DebtSpec.ReconcileNeverDowngrades | sbomdebt/debt.py:55-66 | under a strict order, the reconciled latest version is never older than the provider's |
| DebtSpec.MatchFound | sbomdebt/debt.py:39-49 | when tag k is the first match, the release list is tags 0..k-1 in order, normalised; the match itself is excluded |
| DebtSpec.NoMatch | sbomdebt/debt.py:39-49 | with no matching tag, every tag is in the release list |
| DebtSpec.UnmatchablePinnedVersion | sbomdebt/debt.py:40-44 | a pinned version containing `v` or an upper-case letter never matches, so every tag counts as newer |
| DebtSpec.NoProviderData | sbomdebt/debt.py:70-76 | with an empty provider answer: latest version = pinned version, no date, 0 updates, and 0 in place of the release list |
| DebtSpec.UpdatesFromProvider | sbomdebt/debt.py:68-69 | with provider data, the update count and the latest date are the provider's, and a release list is present |
| DebtSpec.NoTags | sbomdebt/debt.py:37-56 | with no tag list, the release list is empty and the provider's latest version stands |
| DebtSpec.Assessed | sbomdebt/debt.py:86-118 | never more records than entries; `AssessedBounds`, `AssessedAt` and `AssessedFromEntries` state which records and in what order |
| DebtSpec.IsDebt | sbomdebt/debt.py:91-103 | an entry is debt-bearing when it has a package URL and more updates than the threshold; `ReportedDebt` and `DebtOfCount` state it |
| DebtSpec.Assess | sbomdebt/debt.py:110-117 | a record's fields are the package's name, pinned version, latest version, date and update count, with the release list only in verbose mode; `AssessedBounds` and `AssessedAt` state it |
| DebtSpec.DebtOf | sbomdebt/debt.py:103-118 | one entry's records: its assessment when debt-bearing, otherwise none; `DebtOfCount` and `AssessedSnoc` state it |
| DebtSpec.AssessedBounds | sbomdebt/debt.py:86-118 | there are never more records than entries; every record is over the threshold and carries its release list exactly in verbose mode |
| DebtSpec.DebtOfCount | sbomdebt/debt.py:103-118 | an entry adds one record when it has a package URL and more updates than the threshold, and none otherwise |
| DebtSpec.AssessedSnoc | sbomdebt/debt.py:86-118 | one more entry appends that entry's records to the records so far |
| DebtSpec.AssessedAppend | sbomdebt/debt.py:86-118 | two runs of entries give the records of each, concatenated in order |
| DebtSpec.AssessedAt | sbomdebt/debt.py:103-118 | a debt-bearing entry i has its record right after the records of the entries before i, so the records follow SBOM order |
| DebtSpec.AssessedFromEntries | sbomdebt/debt.py:103-118 | every record is the assessment of some debt-bearing entry |
| DebtSpec.Summary | sbomdebt/debt.py:129-133 | a ratio is present after the write exactly when the package count is positive or one was there before; `SummaryKeys` states every key |
| DebtSpec.SummaryKeys | sbomdebt/debt.py:129-133 | the summary adds the keys sbom, packages, package_count and debt_count with their values; it adds ratio = debt/package count exactly when the package count is positive; every other key is left alone |
| Debt.SBOMdebt.constructor | sbomdebt/debt.py:14-24 | counters zero, no records, empty summary; threshold, debug and verbose take their defaults 2, false and false |
| Debt.SBOMdebt.GetPackageInfo | sbomdebt/debt.py:26-76 | the tag walk and the reconciliation return exactly the reference result for the pinned version and the provider's answer |
| Debt.SBOMdebt.WalkTags | sbomdebt/debt.py:35-49 | the newer list is the releases of the tags before the first match (all tags when none matches), and the first tag is tag 0's normal form even when tag 0 is the match |
| Debt.SBOMdebt.Tally | sbomdebt/debt.py:86-127 | one more package is counted, and the entry's records are appended; the record invariant is kept |
| Debt.SBOMdebt.Summarise | sbomdebt/debt.py:128-133 | the summary is written over the old one; with zero packages the outcome is the division fault and no ratio is written |
| Debt.SBOMdebt.Calculate | sbomdebt/debt.py:78-133 | the package count grows by the number of entries; the records grow by the reference records in SBOM order; the debt count equals the number of records; the summary is written; the fault happens exactly when the total package count is 0 |
| Debt.SBOMdebt.GetDebt | sbomdebt/debt.py:135-136 | returns the summary dictionary; any ratio in it lies in [0, 1] |
| DebtScenario.ReportedDebt | sbomdebt/debt.py:99-104 | a package is debt-bearing exactly when the provider's update count exceeds the threshold |
| DebtScenario.ThreePackages | sbomdebt/debt.py:86-118 | with counts 3, 0 and 3 and threshold 2, two records are kept |
| DebtScenario.Snapshot | sbomdebt/debt.py:129-133 | package_count, debt_count and ratio read back from the summary are the counters and their quotient |
| DebtScenario.RunTwice | sbomdebt/debt.py:86-104 | a first run reports 3, 2 and 2/3; a second run on the same object reports 6, 4 and 4/6, because the counters are never reset |

## Left out

- The constructor's default arguments (`options={}`, `output=""`, `sbomdebt/debt.py:14`) are not modelled; callers always pass both.
- Reading and parsing the SBOM file is not modelled. `Calculate` takes the entries' package URLs, in order, as a sequence; `None` stands for an entry without one.
- Parsing a package URL string into its fields is not modelled. The model takes the fields directly.
- The metadata provider (its network access and caching) is not modelled. It is a parameter: a function from (type, name) to the answer.
- The PEP 440 version parser and ordering are not modelled. They are a parameter, with rejection of a string as `None`.
- Debug and verbose printing is left out, and so is the source's output-file argument beyond storing it.
- The ratio is an exact `real`, not a binary floating-point number.
- `TagNames.Lower` covers ASCII letters only. The source lowers Unicode text.
- `TagNames.LowerAll` keeps the length because it lowers ASCII letters only. Python's `str.lower()` can make a tag name longer: `'İ'` (U+0130) becomes two code points.
- A package URL without a version is not modelled. The pinned version is always a string.
- Malformed provider answers are not modelled. The source aborts `calculate` on each of these, and the model has no such answer:
  - an answer without "repo_metadata" (`sbomdebt/debt.py:38`);
  - a "tags" entry that is not a list (`:39`);
  - a tag without a "name", or whose name is not a string (`:40`);
  - a tag without "published_at" (`:43`).

  `Tag` always carries both a name and a date.
- A provider answer without a latest version is not modelled: the latest version is always a string.
- Exceptions raised by the collaborators are not modelled.
- `Debt.SBOMdebt.GetDebt` returns the summary by value. The source's `get_debt` (`sbomdebt/debt.py:135-136`) hands out the engine's own dictionary. Later `calculate()` calls keep writing into that dictionary, so a kept result shows their counters and ratio. A caller's own writes to it also reach the engine. The model captures neither.
- The summary's "packages" entry is the same list object as the engine's record list. The model copies the value. Between a second run's loop and its summary, the source would show new records through the old summary; the model does not.
- The version-mismatch diagnostic (`sbomdebt/debt.py:119-125`) only prints. The model keeps its branch, which changes no state.
