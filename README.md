# Test-cluster helpers of pepr-store-demo, modelled in Dafny

The pepr-store-demo repository tests its Pepr capabilities against a live
Kubernetes cluster. It uses a small set of helpers to do this. This project
models those helpers and proves properties of the model:

- **Run identity** (`TestRunCfg`, capabilities/helpers/TestRunCfg.ts). From
  the path of a `<name>.test.ts` file, the constructor derives:
  - the capability name, the test's directory and the project root;
  - the cluster lock path and the capability module path;
  - the run's namespace `<dir>-<name>-<unique>` and its ownership label key
    `<name>/test-transient`;
  - the fixture list. Fixtures are the files beside the test named
    `<name>.….test.<digits>.yaml`. They are sorted numerically by index, and
    each is paired with its rendered `.json` path.

  `manifest(index)` looks up a rendered path by index. The older
  `synthesizeManifests` of that file is modelled too.
- **Manifest synthesis and deploy** (`PeprModule`,
  capabilities/helpers/module.ts). For each fixture, `synthesizeManifests`:
  - takes the client-side dry-run render, unwraps a `List`, and deletes
    kubectl's own annotations;
  - drops an annotations value that is left without keys, and merges the
    ownership label into the labels;
  - re-wraps the result as a `List` and writes it to the fixture's `.json`
    path.

  `deploy` picks the module manifest out of the build directory.
- **Cluster sweep** (`Cluster`, capabilities/helpers/cluster.ts). `clean`:
  - lists the namespaces and selects those that carry the run's ownership
    label, plus `pepr-system`;
  - deletes each selected namespace;
  - polls each one until a `Get` is answered with 404.
- **Polling and time units** (`Helpers`, capabilities/helpers/helpers.ts, with
  the copies in capabilities/pepr-store-demo/helpers.ts and
  capabilities/test.helpers.ts). `untilTrue`/`waitFor` call a predicate until
  it answers true, sleeping one second after each false answer; `secs` and
  `mins` convert to milliseconds.

Supporting modules:

- `Results`: the Option and Result types.
- `Text`: the JavaScript string operations used (`startsWith`, `endsWith`,
  `indexOf`, `replace` with a string pattern, `\d`, `parseInt`).
- `Paths`: Node's POSIX `basename` and `dirname`.
- `FixtureNames`: the four regular expressions applied to file names.
- `KeyedSort`: the stable sort by index.
- `Resources`: parsed JSON and the effect log of the write loop.

The model has its own state and inputs in place of I/O:

- The file-system listing, the result of `nearestAncestor`, the dry-run
  output and the API server's replies are parameters.
- Each effect (dry run, write, list, delete, get, sleep) is recorded in an
  ordered log.
- The cluster is a class: its namespace list, the names being terminated,
  and the calls made to it.

The model keeps these behaviours of the code as they are written:

- `nsGone` swallows every error other than a 404, so polling continues;
  such an error does not abort the wait.
- `clean` selects by the exact ownership label key, and the label's value
  must be truthy. It does not match by label-key prefix.
- `clean` sweeps only Namespaces, not every kind.
- The newer `synthesizeManifests` keeps the `namespace: default` that the
  dry run adds. Only the older one replaces it with the run's namespace.

## Model

| member | source | states |
|---|---|---|
| Helpers.Secs | capabilities/helpers/helpers.ts:9 | `secs(n)` is a whole number of thousands of milliseconds, and dividing by 1000 gives `n` back |
| Helpers.Mins | capabilities/helpers/helpers.ts:10 | `mins(n)` is a whole number of minutes in milliseconds, and dividing by 60000 gives `n` back |
| Helpers.MinsAreSixtySecs | capabilities/helpers/helpers.ts:9-10 | `mins(n) == secs(60 * n)` for every n |
| Helpers.SleepMs | capabilities/helpers/helpers.ts:2 | the delay `sleep(seconds)` hands to `setTimeout`: `seconds * 1000` |
| Helpers.SleepWaitsSecs | capabilities/helpers/helpers.ts:1-3 | `sleep(s)` passes `setTimeout` exactly `secs(s)` milliseconds |
| Helpers.UnitExamples | capabilities/helpers/helpers.ts:9-10 | the unit values the helpers' example table expects: 1s, 30s, 300s, 1m, 2m, 5m |
| Helpers.FirstDecisive | capabilities/helpers/helpers.ts:5-7 | the call the loop stops at: an answer that is not false, with every earlier answer false |
| Helpers.Polled | capabilities/helpers/helpers.ts:5-7 | a run alternates call and one-second sleep, has `2k+1` steps for `k` false answers, and propagates exactly the rejection of the deciding call |
| Helpers.PolledIgnoresLaterAnswers | capabilities/helpers/helpers.ts:5-7 | answers after the deciding one are never consulted |
| Helpers.SleepsOncePerFalse | capabilities/helpers/helpers.ts:5-7 | the loop sleeps exactly once per false answer |
| Helpers.PolledEndsWithAsk | capabilities/helpers/helpers.ts:5-7 | the run ends with a call, never with a sleep |
| Helpers.UntilTrue | capabilities/helpers/helpers.ts:5-7 | the `while (true)` loop produces exactly the run `Polled` specifies |
| StoreDemoHelpers.UntilTrue | capabilities/pepr-store-demo/helpers.ts:5-7 | the demo capability's copy of `untilTrue` produces the same run |
| TestHelpers.WaitFor | capabilities/test.helpers.ts:5-7 | `waitFor` produces the same run as `untilTrue` |
| Text.IndexOfFrom | capabilities/helpers/TestRunCfg.ts:23-27 | the occurrence `replace` acts on: `pat` occurs there and nowhere earlier, or nowhere at all |
| Text.ReplaceFirst | capabilities/helpers/TestRunCfg.ts:23-27 | `replace` with a string pattern: the first occurrence of the pattern is replaced, and the string is returned unchanged when there is none |
| Text.DecimalValue | capabilities/helpers/TestRunCfg.ts:35-36 | `parseInt` of a run of decimal digits: the positional base-10 value, last digit least significant |
| Text.LeadingZeroIgnored | capabilities/helpers/TestRunCfg.ts:35-36 | `parseInt` ignores a leading zero, so index `09` equals index `9` |
| Paths.Basename | capabilities/helpers/TestRunCfg.ts:23 | POSIX `path.basename`: trailing slashes are dropped, then everything after the last slash is kept |
| Paths.Dirname | capabilities/helpers/TestRunCfg.ts:24-25 | POSIX `path.dirname`: `.` for an empty or slash-free path, `/` for a root entry, otherwise everything before the last slash, trailing slashes dropped first |
| Paths.SplitJoined | capabilities/helpers/TestRunCfg.ts:23-25 | `dirname` and `basename` of `dir/file` give back `dir` and `file` |
| FixtureNames.MatchesName | capabilities/helpers/TestRunCfg.ts:32 | `^<name>\..*` as built from the name: each character of the name matches literally except `.`, which matches any character other than a line terminator, and one more non-line-terminator character follows |
| FixtureNames.IndexedYaml | capabilities/helpers/TestRunCfg.ts:33 | `\.test\.\d+\.yaml$`: the name ends with `.yaml`, and the digit run before it is non-empty and preceded by `.test.` |
| FixtureNames.PlainNameMatches | capabilities/helpers/TestRunCfg.ts:32 | for a name without `.`, the name filter is "starts with the name, followed by one character that is not a line terminator" |
| FixtureNames.FixtureNameMatches | capabilities/helpers/TestRunCfg.ts:32 | every `<name>.<rest>` passes the name filter |
| FixtureNames.IndexedYamlIff | capabilities/helpers/TestRunCfg.ts:33 | the index filter holds iff `.test.`, then digits, then a final `.yaml` occur at some position |
| FixtureNames.FirstKeyMatch | capabilities/helpers/TestRunCfg.ts:35-36 | the leftmost match of `test\.(\d+)\.yaml`, with no match before it |
| FixtureNames.SuffixKeyMatch | capabilities/helpers/TestRunCfg.ts:33-36 | in every name the filter keeps, the suffix is a match of the sort pattern, so the sort's `match(...)[1]` never throws |
| FixtureNames.SortKey | capabilities/helpers/TestRunCfg.ts:35-36 | the comparator's key: `parseInt` of the digits of the leftmost `test.<digits>.yaml` in the name |
| FixtureNames.SortKeyIsSuffixIndex | capabilities/helpers/TestRunCfg.ts:35-36 | when `.yaml` occurs only as the ending, the sort key is the index the name ends with |
| FixtureNames.FirstLookupMatch | capabilities/helpers/TestRunCfg.ts:51 | the leftmost occurrence of `\.(\d+)\.yaml.json` at or after a position, with none before it; the unanchored match starts on its line |
| FixtureNames.LastLookupMatch | capabilities/helpers/TestRunCfg.ts:51 | the last occurrence before a bound, with none between it and the bound: what the greedy `.*` leaves to the group |
| FixtureNames.LineEnd | capabilities/helpers/TestRunCfg.ts:51 | the end of the line a position is on: the next line terminator or the end of the string, with no line terminator before it; `.*` cannot reach past it |
| FixtureNames.LookupMatch | capabilities/helpers/TestRunCfg.ts:51 | where `match` succeeds, the group's start is an occurrence of the pattern: the last one on the line of the first one |
| FixtureNames.LookupKey | capabilities/helpers/TestRunCfg.ts:51-52 | `parseInt(f.match(/.*\.(\d+)\.yaml.json/)[1])`, or none where `match` returns null |
| FixtureNames.LookupKeyNoneIff | capabilities/helpers/TestRunCfg.ts:51 | `match` returns null exactly when the pattern occurs nowhere in the path |
| FixtureNames.LookupKeyOnLine | capabilities/helpers/TestRunCfg.ts:51-52 | the key is read from the last occurrence on the line of the first occurrence, and from no occurrence on a later line |
| FixtureNames.LookupKeyStopsAtLineEnd | capabilities/helpers/TestRunCfg.ts:51-52 | `a.1.yaml.json` newline `b.2.yaml.json` is looked up by 1, not 2: `.*` does not cross the newline |
| FixtureNames.LookupKeyBeforeYamlJson | capabilities/helpers/TestRunCfg.ts:51-52 | a path without line terminators that ends in `.<digits>.yaml.json` is looked up by those digits |
| FixtureNames.LookupKeyOfJsonPath | capabilities/helpers/TestRunCfg.ts:41-52 | when the directory and the fixture name hold no line terminator, a fixture's rendered path is looked up by the index that ends the fixture's name |
| KeyedSort.SortByKey | capabilities/helpers/TestRunCfg.ts:34-40 | the result is sorted by key, is a permutation of the input, and for each key keeps the input order |
| KeyedSort.InsertKeepsKeyOrder | capabilities/helpers/TestRunCfg.ts:37-39 | a comparator result of 0 keeps an inserted file behind the files with an equal key |
| KeyedSort.StableSortUnique | capabilities/helpers/TestRunCfg.ts:34-40 | two sequences sorted by key, with the same files per key in the same order, are equal, so any stable sort returns `SortByKey`'s result |
| KeyedSort.IndexOrderExample | capabilities/helpers/TestRunCfg.ts:34-40 | listing order 0, 8675309, 09, 8, 1009 sorts to 0, 8, 09, 1009, 8675309 |
| TestRunCfg.CapabilityName | capabilities/helpers/TestRunCfg.ts:23 | the name: the file's basename with its first `.test.ts` removed |
| TestRunCfg.ModulePathAsWritten | capabilities/helpers/TestRunCfg.ts:27 | `module` as the constructor computes it: the first `.test` anywhere in the path becomes `.pepr` |
| TestRunCfg.ModulePath | capabilities/helpers/TestRunCfg.ts:27 | the corrected module path of the finding below: only a `.test.ts` ending becomes `.pepr.ts` |
| TestRunCfg.Entries | capabilities/helpers/TestRunCfg.ts:41-44 | one `[here/f, here/f.json]` pair per fixture, in order |
| TestRunCfg.NewRunCfg | capabilities/helpers/TestRunCfg.ts:21-45 | the constructor: every field as the source derives it, with `unique`, the `nearestAncestor` result and the directory listing as parameters |
| TestRunCfg.Kept | capabilities/helpers/TestRunCfg.ts:31-33 | the listed files that pass both filters, each as often as it was listed, and nothing else |
| TestRunCfg.Fixtures | capabilities/helpers/TestRunCfg.ts:31-40 | every fixture passes both filters |
| TestRunCfg.NameFromTestFile | capabilities/helpers/TestRunCfg.ts:23 | removing the first `.test.ts` from `<name>.test.ts` gives back the name |
| TestRunCfg.RunIdentity | capabilities/helpers/TestRunCfg.ts:21-30 | for `<here>/<name>.test.ts`, these fields are exactly what the constructor derives: name, here, root, lock, unique, namespace and label key; the module path is `<here>/<name>.pepr.ts` when `.test` occurs nowhere in `<here>/<name>` |
| TestRunCfg.ModulePathOfTestFile | capabilities/helpers/TestRunCfg.ts:27 | as written, the module of `<here>/<name>.test.ts` is `<here>/<name>.pepr.ts` when `.test` occurs nowhere in `<here>/<name>` |
| TestRunCfg.CorrectedModulePathOfTestFile | capabilities/helpers/TestRunCfg.ts:27 | the corrected module of every `<here>/<name>.test.ts` is `<here>/<name>.pepr.ts` |
| TestRunCfg.ModuleBesideTest | capabilities/helpers/TestRunCfg.ts:27 | the corrected module path lies in the test's directory and is named `<name>.pepr.ts` |
| TestRunCfg.ModulePathAsWrittenRenamesDirectory | capabilities/helpers/TestRunCfg.ts:27 | as written, `/src/e2e.tests/cap.test.ts` gets module `/src/e2e.peprs/cap.test.ts`, in another directory |
| TestRunCfg.FixturesDiscovered | capabilities/helpers/TestRunCfg.ts:31-40 | fixtures are listed files passing both filters; they are a permutation of the filtered listing, ascending by sort key, and in listing order within one key |
| TestRunCfg.FixturesAreSorted | capabilities/helpers/TestRunCfg.ts:34-40 | the fixture list, keyed again, is the stable sort of the filtered listing |
| TestRunCfg.ManifestsOfFixtures | capabilities/helpers/TestRunCfg.ts:41-44 | one entry per fixture, in order: `here/f` and `here/f.json` |
| TestRunCfg.Lookup | capabilities/helpers/TestRunCfg.ts:47-56 | `manifest(index)` throws iff some path has no match (the error names such a path); otherwise it returns the first path whose key is `index`, or undefined when there is none |
| TestRunCfg.Keys | capabilities/helpers/TestRunCfg.ts:51-52 | the key each path parses to, position by position |
| TestRunCfg.FilterFirst | capabilities/helpers/TestRunCfg.ts:48-55 | over given keys: an error iff some key is missing (naming such a path); otherwise the first path whose key is `index`, or none |
| TestRunCfg.ManifestFor | capabilities/helpers/TestRunCfg.ts:47-56 | `manifest(index)` looks up the `.json` halves of the configuration's entries |
| TestRunCfg.FilterByKeys | capabilities/helpers/TestRunCfg.ts:48-55 | when every key is present, the filter succeeds, and finds a path iff some key equals `index`; it finds the first such path |
| TestRunCfg.LookupByKeys | capabilities/helpers/TestRunCfg.ts:47-56 | when every path has a key, the lookup succeeds, and finds a path iff some key equals `index`; it finds the first such path |
| TestRunCfg.ManifestFound | capabilities/helpers/TestRunCfg.ts:47-56 | on the constructor's entries, for a directory and fixture names without line terminators, `manifest(index)` never throws, and returns the first fixture's `.json` path whose index is `index`, iff there is one |
| TestRunCfg.LegacyStripped | capabilities/helpers/TestRunCfg.ts:73-77 | the older first pass: a non-object or missing metadata throws; an object metadata loses `annotations` and `namespace`; other metadata is left as it is |
| TestRunCfg.LegacyLabelled | capabilities/helpers/TestRunCfg.ts:80-84 | the older second pass: an object metadata gets the run's namespace and the owner label merged into its labels; an array metadata is unchanged; other metadata throws |
| TestRunCfg.LegacySynthesized | capabilities/helpers/TestRunCfg.ts:69-87 | one fixture's render, normalised, stripped, labelled and wrapped as a List, or the first error |
| TestRunCfg.LegacySynthesizeManifests | capabilities/helpers/TestRunCfg.ts:59-92 | for each entry in order, one dry run then one write of the rewritten List; the run stops after the dry run of the first entry that throws, and reports that error |
| TestRunCfg.LegacyObjectSynthesized | capabilities/helpers/TestRunCfg.ts:73-84 | both older passes succeed iff the metadata is an object or array; an object metadata loses annotations, gets the run namespace and gains the owner label over its old labels; everything else is unchanged |
| Resources.Spread | capabilities/helpers/module.ts:91 | what `{...v}` copies: an object's fields, a string's characters or an array's items under their index keys, nothing from other values |
| Resources.WithOwnerLabel | capabilities/helpers/module.ts:91 | metadata whose labels are the spread of the old labels with `labelKey` set to `unique` |
| Resources.Normalize | capabilities/helpers/module.ts:68-69 | `raw.kind === "List" ? raw.items : [raw]`: a List's items, a null render's TypeError, a List without an items array failing the later `map`, any other value as a one-item list |
| Resources.ListOf | capabilities/helpers/module.ts:96 | the wrapping `{kind: "List", apiVersion: "v1", items}` |
| Resources.Each | capabilities/helpers/module.ts:72-93 | `map` with a throwing callback succeeds iff every item does, preserving order; otherwise the first item's error escapes |
| Resources.FirstFailure | capabilities/helpers/module.ts:59-100 | the first fixture whose synthesis throws: all earlier ones succeed |
| Resources.LogsRunFails | capabilities/helpers/module.ts:59-100 | a run that reaches a throwing fixture ends after its dry run, with its error |
| Resources.LogsRunCompletes | capabilities/helpers/module.ts:59-100 | a run whose fixtures all synthesize logs a dry run and a write for each |
| PeprModule.Stripped | capabilities/helpers/module.ts:72-87 | the first pass over one object: its TypeErrors for a non-object, missing metadata or missing annotations, else the metadata with the non-kubectl annotations kept and an emptied annotations value deleted |
| PeprModule.Labelled | capabilities/helpers/module.ts:90-93 | the second pass over one object: object metadata gains the owner label over its old labels, array metadata is unchanged, other metadata throws |
| PeprModule.Synthesized | capabilities/helpers/module.ts:68-96 | one fixture's render, normalised, stripped, labelled and wrapped as a List, or the first error |
| PeprModule.StripKubectlAnnotations | capabilities/helpers/module.ts:75-79 | the annotation loop keeps exactly the annotations not prefixed `kubectl.kubernetes.io/`, with their values |
| PeprModule.StripResource | capabilities/helpers/module.ts:72-87 | the first pass over one object, with its loop, computes `Stripped`, including its TypeErrors |
| PeprModule.StrippedOkIff | capabilities/helpers/module.ts:72-87 | the first pass succeeds iff the object has object metadata with a non-null annotations value |
| PeprModule.StrippedMetadataKeeps | capabilities/helpers/module.ts:72-87 | only `annotations` changes: it keeps exactly its non-kubectl entries and is removed when none is left |
| PeprModule.StripAll | capabilities/helpers/module.ts:72-87 | the first `map` over all objects, in order, stopping at the first throw |
| PeprModule.LabelAll | capabilities/helpers/module.ts:90-93 | the second `map` over all objects, in order, stopping at the first throw |
| PeprModule.ObjectSynthesized | capabilities/helpers/module.ts:72-93 | both passes succeed on an object iff it has that shape; the output keeps every field and metadata key except annotations and labels; the labels are the old ones plus `labelKey: unique` |
| PeprModule.SynthesizedList | capabilities/helpers/module.ts:68-96 | synthesis succeeds iff the render normalises and every object is strippable; it writes a List of one output per object, in order |
| PeprModule.ListRenderUnwrapped | capabilities/helpers/module.ts:69 | a `List` render contributes its items |
| PeprModule.SingleRenderWrapped | capabilities/helpers/module.ts:69 | any other object becomes a one-item list |
| PeprModule.SingleConfigMapExample | capabilities/helpers/module.ts:68-96 | a ConfigMap with a last-applied annotation and a plain one keeps only the plain one, keeps `namespace: default`, and gains the owner label |
| PeprModule.SynthesizeOne | capabilities/helpers/module.ts:62-96 | one fixture's render becomes the synthesized List, or the error that escapes |
| PeprModule.SynthesizeManifests | capabilities/helpers/module.ts:58-102 | for each fixture in order, one dry run then one write of its List; the run stops after the dry run of the first fixture that throws, and reports that error |
| PeprModule.FirstModuleYaml | capabilities/helpers/module.ts:49 | the first build file matching `pepr-module.*\.yaml`, or none when no file matches |
| PeprModule.ShortIsNotModuleYaml | capabilities/helpers/module.ts:49 | a name shorter than `pepr-module.yaml` never matches |
| PeprModule.ModuleManifestMatches | capabilities/helpers/module.ts:49 | `pepr-module-0000.yaml` matches |
| PeprModule.DeployTarget | capabilities/helpers/module.ts:49-50 | the path `deploy` applies: the build directory joined with the first module manifest, or with `undefined` when there is none |
| PeprModule.DeployExample | capabilities/helpers/module.ts:47-51 | `deploy` applies `<buildDir>/pepr-module-0000.yaml` and skips unrelated files |
| Cluster.Owned | capabilities/helpers/cluster.ts:11-14 | a namespace with labels is swept iff its ownership label is a non-empty string or its name is `pepr-system`; one without labels is never owned (the filter throws on it, see `Cluster.Selection`) |
| Cluster.NsGone | capabilities/helpers/cluster.ts:20-24 | `nsGone` answers true exactly for a 404 reply |
| Cluster.Selection | capabilities/helpers/cluster.ts:10-15 | the filter succeeds iff every namespace has labels; otherwise it fails with the first unlabelled one |
| Cluster.SelectionIsFilter | capabilities/helpers/cluster.ts:10-15 | the selection holds exactly the owned namespaces (truthy label or `pepr-system`), each as often as listed |
| Cluster.FirstGone | capabilities/helpers/cluster.ts:20-24 | the first reply that is a 404; every earlier reply, including other errors, counts as not gone |
| Cluster.PollIsUntilTrue | capabilities/helpers/cluster.ts:20-27 | the wait on one namespace is `untilTrue` over the answers `nsGone` gives, each call a `Get` of the name |
| Cluster.DeletesOwnedOnce | capabilities/helpers/cluster.ts:10-18 | with unique names, every owned namespace is deleted exactly once and no other is deleted |
| Cluster.SweepLeavesNoOwned | capabilities/helpers/cluster.ts:8-28 | after the sweep no owned namespace remains |
| Cluster.SweepKeepsUnowned | capabilities/helpers/cluster.ts:8-28 | with unique names, the sweep keeps exactly the unowned namespaces, in order |
| Cluster.NothingOwnedNothingCalled | capabilities/helpers/cluster.ts:8-28 | with nothing owned, the sweep deletes and polls nothing |
| Cluster.ApiServer.List | capabilities/helpers/cluster.ts:9 | returns the namespaces and records the list call |
| Cluster.ApiServer.Delete | capabilities/helpers/cluster.ts:17 | the namespace starts terminating and the call is recorded |
| Cluster.ApiServer.Get | capabilities/helpers/cluster.ts:22-23 | a 404 removes the namespace and ends its termination; any other reply changes nothing |
| Cluster.ApiServer.Sleep | capabilities/helpers/helpers.ts:1-3 | records a 1000 ms pause and changes nothing else |
| Cluster.ApiServer.PollUntilGone | capabilities/helpers/cluster.ts:26 | polls with one-second sleeps until the first 404; the namespace is then gone |
| Cluster.ApiServer.DeleteAll | capabilities/helpers/cluster.ts:16-18 | one delete per selected namespace, in order; all of them are terminating |
| Cluster.ApiServer.AwaitGone | capabilities/helpers/cluster.ts:26-27 | waits on every selected namespace; all of them are gone and none is terminating |
| Cluster.ApiServer.Clean | capabilities/helpers/cluster.ts:8-28 | a TypeError in the filter stops after the list; otherwise the sweep lists, deletes the selection and polls each selected namespace, leaving exactly the unselected namespaces |
| Cluster.PeprSystemExample | capabilities/helpers/cluster.ts:8-28 | `pepr-system` without the ownership label is deleted and polled until gone |

## Left out

- `build` (capabilities/helpers/module.ts:8-45) is not part of this model: it
  only moves, edits and copies files and runs `npx pepr build`.
- `ready` (capabilities/helpers/module.ts:54-56) is not part of this model: it
  only runs `kubectl rollout status`.
- `deploy` runs `kubectl apply`; the model covers only the path it applies
  (`PeprModule.DeployTarget`).
- Commands and I/O are inputs or entries in an effect log:
  - `exec` of `kubectl`, `fs.readdirSync`, `pfs.readdir` and `pfs.writeFile`;
  - the Kubernetes client calls.

  Output text is not modelled:
  - `JSON.stringify` formatting;
  - JSON key order;
  - `JSON.parse` of malformed text, which is one `RenderFailed` error.
- `nearestAncestor` is not part of this model: capabilities/helpers/helpers.ts
  does not define it. The directory it returns is an input of
  `TestRunCfg.NewRunCfg`.
- The default `unique` (the current time in milliseconds) depends on the
  clock, so `unique` is always a parameter.
- Concurrency is modelled as sequential, in list order:
  - `nses.forEach(async …)` and `Promise.all` in `clean`;
  - the unawaited deletes.

  The interleaving of polls of different namespaces is not modelled.
- FixtureNames.LookupKeyBeforeYamlJson requires the path to hold no line
  terminator. `.*` stops at a line terminator, so an occurrence on an earlier
  line can supply the key instead (`FixtureNames.LookupKeyStopsAtLineEnd`).
- FixtureNames.LookupKeyOfJsonPath requires the directory and the fixture
  name to hold no line terminator, for the same reason.
- TestRunCfg.ManifestFound requires the directory and every fixture name to
  hold no line terminator, for the same reason. On such names
  `manifest(index)` can read an index from an earlier line.
- TestRunCfg.RunIdentity states the module path only when `.test` occurs
  nowhere in `<here>/<name>`. Otherwise the constructor renames an earlier
  `.test`, as the finding below shows.
- TestRunCfg.ModulePathOfTestFile requires that `.test` occurs nowhere in
  `<here>/<name>`, for the same reason.
- Cluster.ApiServer.Delete: a rejected `Delete` is not modelled. The source
  does not await the delete, so a rejection would be an unhandled promise
  rejection outside `clean`.
- Only Namespaces are swept, as in the code. Other kinds and CRD discovery
  are not part of the source's `clean`.
- The loops of `untilTrue`, `waitFor` and the polls in `clean` have no bound.
  The model requires the poll to end: `Settles` (some answer is not false)
  or `EventuallyGone` (some reply is a 404). A poll that never ends is not
  modelled.
- Numbers are mathematical integers:
  - floating-point `number`, `setTimeout` limits and the precision of large
    `parseInt` results are not modelled;
  - `secs`/`mins` take integers.
- The Kubernetes objects are mutated in place by `delete` and assignment.
  The model treats them as immutable JSON values. A render in which two
  list items alias one object is not modelled.
- Only `.` is read as a regular-expression metacharacter when the
  capability name is built into `^<name>\..*`. Other metacharacters in a
  name are taken literally.
- Object spread of a string counts positions in UTF-16 code units. The model
  counts Dafny characters, so astral characters are not modelled.
- FixtureNames.SortKeyIsSuffixIndex requires that `.yaml` occurs only at the
  end of the name. Without that, the source's first match of
  `test\.(\d+)\.yaml` can be an earlier one. `SortKey` models that case as
  written.
- capabilities/helpers/module.ts calls `trc.manifests()`, `trc.labelKey()` and
  `trc.module()` as methods. In capabilities/helpers/TestRunCfg.ts they are
  fields. `PeprModule.SynthesizeManifests` takes the values those accessors
  would return.
- The `sleep` functions of all three helper files are one function,
  `Helpers.SleepMs`, because they are the same.

## Findings

| source | as written | input that shows it | evidently intended | confidence | as-written member | corrected member |
|---|---|---|---|---|---|---|
| capabilities/helpers/TestRunCfg.ts:27 | `me.replace('.test', '.pepr')` replaces the first `.test` anywhere in the path, including in a directory name | `/src/e2e.tests/cap.test.ts` gives `/src/e2e.peprs/cap.test.ts`, in a directory that does not exist | `<here>/<name>.pepr.ts`, beside the test file | not executed | TestRunCfg.ModulePathAsWrittenRenamesDirectory | TestRunCfg.ModuleBesideTest |
