/**
 * `TestRunCfg` of capabilities/helpers/TestRunCfg.ts: the identity of one
 * test run derived from the test file's path, the capability's fixture
 * files found beside it in index order, the lookup of a fixture's rendered
 * `.json` path by index, and the older `synthesizeManifests`.
 *
 * The constructor reads the file system twice; both readings are inputs
 * here: `ancestor` is what `nearestAncestor("package.json", here)` returns
 * and `listing` is what `fs.readdirSync(here)` returns.
 */
module TestRunCfg {
  import opened Results
  import opened Text
  import opened Paths
  import opened Resources
  import opened FixtureNames
  import opened KeyedSort

  /** The fields of a constructed `TestRunCfg`; none is reassigned afterwards. */
  datatype RunCfg = RunCfg(
    me: string,
    name: string,
    here: string,
    root: string,
    lock: string,
    modulePath: string,
    unique: string,
    namespace: string,
    labelKey: string,
    manifests: seq<Manifest>)

  const TestSuffix := ".test.ts"
  const PeprSuffix := ".pepr.ts"

  /** `path.basename(me).replace('.test.ts', '')`. */
  function CapabilityName(me: string): string {
    ReplaceFirst(Basename(me), TestSuffix, "")
  }

  /** `me.replace('.test', '.pepr')`, as the constructor computes `module`. */
  function ModulePathAsWritten(me: string): string {
    ReplaceFirst(me, ".test", ".pepr")
  }

  /**
   * The capability module beside the test file: the `.test.ts` ending becomes
   * `.pepr.ts`, and nothing in the directory part changes.
   */
  function ModulePath(me: string): string {
    if EndsWith(me, TestSuffix) then me[..|me| - |TestSuffix|] + PeprSuffix else ModulePathAsWritten(me)
  }

  /** Both filters of the constructor's listing pipeline. */
  predicate IsFixture(f: string, name: string) {
    MatchesName(f, name) && IndexedYaml(f)
  }

  /** The listing with both filters applied, in listing order. */
  function Kept(listing: seq<string>, name: string): (r: seq<string>)
    ensures forall f :: f in r ==> IsFixture(f, name)
    ensures forall f :: multiset(r)[f] == if IsFixture(f, name) then multiset(listing)[f] else 0
  {
    if listing == [] then []
    else
      var init, last := listing[..|listing| - 1], listing[|listing| - 1];
      assert listing == init + [last];
      var r := Kept(init, name);
      if IsFixture(last, name) then r + [last] else r
  }

  /** Each fixture with the key the comparator reads from it. */
  function KeyedOf(files: seq<string>): (r: seq<Keyed>)
    requires forall f :: f in files ==> IndexedYaml(f)
    ensures |r| == |files| && forall i :: 0 <= i < |files| ==> r[i] == Keyed(SortKey(files[i]), files[i])
  {
    seq(|files|, i requires 0 <= i < |files| => Keyed(SortKey(files[i]), files[i]))
  }

  function Files(ks: seq<Keyed>): (r: seq<string>)
    ensures |r| == |ks| && forall i :: 0 <= i < |ks| ==> r[i] == ks[i].file
  {
    seq(|ks|, i requires 0 <= i < |ks| => ks[i].file)
  }

  /** The `filter`, `filter`, `sort` part of the pipeline. */
  function Fixtures(listing: seq<string>, name: string): (fs: seq<string>)
    ensures forall f :: f in fs ==> IsFixture(f, name)
  {
    var kept := Kept(listing, name);
    var sorted := SortByKey(KeyedOf(kept));
    forall i | 0 <= i < |sorted| ensures IsFixture(sorted[i].file, name) {
      assert sorted[i] in multiset(KeyedOf(kept));
    }
    Files(sorted)
  }

  /** The `map` part: `[here/f, here/f.json]`. */
  function Entry(here: string, f: string): Manifest {
    Manifest(here + "/" + f, here + "/" + f + ".json")
  }

  function Entries(here: string, fs: seq<string>): (r: seq<Manifest>)
    ensures |r| == |fs| && forall i :: 0 <= i < |fs| ==> r[i] == Entry(here, fs[i])
  {
    seq(|fs|, i requires 0 <= i < |fs| => Entry(here, fs[i]))
  }

  /** The constructor, with `unique` given (the default reads the clock). */
  function NewRunCfg(me: string, unique: string, ancestor: string, listing: seq<string>): RunCfg {
    var name := CapabilityName(me);
    var here := Dirname(me);
    var root := Dirname(ancestor);
    RunCfg(
      me := me,
      name := name,
      here := here,
      root := root,
      lock := root + "/cluster.lock",
      modulePath := ModulePathAsWritten(me),
      unique := unique,
      namespace := Basename(here) + "-" + name + "-" + unique,
      labelKey := name + "/test-transient",
      manifests := Entries(here, Fixtures(listing, name)))
  }

  // ---------------------------------------------------------------------
  // Run identity

  /** `.test.ts` does not overlap itself, so no occurrence straddles the end of the name. */
  lemma NoStraddle(name: string, i: nat)
    requires i < |name| < i + |TestSuffix|
    ensures !OccursAt(name + TestSuffix, TestSuffix, i)
  {
    var s := name + TestSuffix;
    var d := |name| - i;
    var m := if d == 5 then 2 else 0;
    assert s[|name| + m] == TestSuffix[m];
    assert TestSuffix[d + m] != TestSuffix[m];
    assert s[i..i + |TestSuffix|][d + m] == s[i + d + m];
  }

  /** Stripping the first `.test.ts` from `<name>.test.ts` gives back the name. */
  lemma NameFromTestFile(name: string)
    requires IndexOf(name, TestSuffix) == None
    ensures ReplaceFirst(name + TestSuffix, TestSuffix, "") == name
  {
    var s := name + TestSuffix;
    forall j | 0 <= j < |name| ensures !OccursAt(s, TestSuffix, j) {
      if j + |TestSuffix| <= |name| {
        assert s[j..j + |TestSuffix|] == name[j..j + |TestSuffix|];
        assert !OccursAt(name, TestSuffix, j);
      } else {
        NoStraddle(name, j);
      }
    }
    assert s[|name|..|name| + |TestSuffix|] == TestSuffix;
    IndexOfIs(s, TestSuffix, |name|);
    assert s[..|name|] == name;
  }

  lemma NoSlashJoined(a: string, b: string)
    requires !HasSlash(a) && !HasSlash(b)
    ensures !HasSlash(a + b)
  {
    forall i | 0 <= i < |a + b| ensures (a + b)[i] != '/' {
      if i >= |a| {
        assert (a + b)[i] == b[i - |a|];
      }
    }
  }

  /**
   * For a test file `<here>/<name>.test.ts` and a project root holding
   * `package.json`, every identity field is what the source derives: the
   * name, its directory, the root and lock, the namespace of directory, name
   * and run, and the label key; the module is beside the test whenever no
   * `.test` occurs earlier in the path.
   */
  lemma RunIdentity(here: string, name: string, root: string, unique: string, listing: seq<string>)
    requires here != [] && here[|here| - 1] != '/'
    requires !HasSlash(name) && IndexOf(name, TestSuffix) == None
    requires root != [] && root[|root| - 1] != '/'
    ensures var cfg := NewRunCfg(here + "/" + name + TestSuffix, unique, root + "/" + "package.json", listing);
      && cfg.name == name
      && cfg.here == here
      && cfg.root == root
      && cfg.lock == root + "/cluster.lock"
      && (IndexOf(here + "/" + name, ".test") == None ==> cfg.modulePath == here + "/" + name + PeprSuffix)
      && cfg.unique == unique
      && cfg.namespace == Basename(here) + "-" + name + "-" + unique
      && cfg.labelKey == name + "/test-transient"
  {
    var file := name + TestSuffix;
    var me := here + "/" + file;
    assert me == here + "/" + name + TestSuffix;
    assert !HasSlash(TestSuffix);
    NoSlashJoined(name, TestSuffix);
    SplitJoined(here, file);
    assert Basename(me) == file;
    NameFromTestFile(name);
    assert CapabilityName(me) == name;
    assert !HasSlash("package.json");
    SplitJoined(root, "package.json");
    if IndexOf(here + "/" + name, ".test") == None {
      ModulePathOfTestFile(here, name);
    }
  }

  /**
   * As written, the module path of `<here>/<name>.test.ts` is
   * `<here>/<name>.pepr.ts` when `.test` occurs nowhere before the suffix.
   */
  lemma ModulePathOfTestFile(here: string, name: string)
    requires IndexOf(here + "/" + name, ".test") == None
    ensures ModulePathAsWritten(here + "/" + name + TestSuffix) == here + "/" + name + PeprSuffix
  {
    var p := here + "/" + name;
    var me := p + TestSuffix;
    assert me == here + "/" + name + TestSuffix;
    forall j | 0 <= j < |p| ensures !OccursAt(me, ".test", j) {
      if j + 5 <= |p| {
        assert me[j..j + 5] == p[j..j + 5];
        assert !OccursAt(p, ".test", j);
      } else {
        var d := |p| - j;
        assert me[j..j + 5][d] == me[|p|] == '.';
        assert ".test"[d] != '.';
      }
    }
    assert me[|p|..|p| + 5] == ".test";
    IndexOfIs(me, ".test", |p|);
    assert me[..|p|] == p && me[|p| + 5..] == ".ts";
  }

  /** The corrected module path of `<here>/<name>.test.ts` is `<here>/<name>.pepr.ts`. */
  lemma CorrectedModulePathOfTestFile(here: string, name: string)
    ensures ModulePath(here + "/" + name + TestSuffix) == here + "/" + name + PeprSuffix
  {
    var me := here + "/" + name + TestSuffix;
    assert me[|me| - |TestSuffix|..] == TestSuffix;
    assert me[..|me| - |TestSuffix|] == here + "/" + name;
  }

  /**
   * The module sits in the test's directory and is named after the
   * capability: its directory is `here` and its file name `<name>.pepr.ts`.
   */
  lemma ModuleBesideTest(here: string, name: string)
    requires here != [] && here[|here| - 1] != '/'
    requires !HasSlash(name)
    ensures Dirname(ModulePath(here + "/" + name + TestSuffix)) == here
    ensures Basename(ModulePath(here + "/" + name + TestSuffix)) == name + PeprSuffix
  {
    CorrectedModulePathOfTestFile(here, name);
    assert !HasSlash(PeprSuffix);
    NoSlashJoined(name, PeprSuffix);
    assert here + "/" + name + PeprSuffix == here + "/" + (name + PeprSuffix);
    SplitJoined(here, name + PeprSuffix);
  }

  /**
   * As written, `module` replaces the first `.test` anywhere in the path, so a
   * test under a directory named `e2e.tests` gets a module path in a directory
   * that does not exist, while the corrected path stays beside the test.
   */
  lemma ModulePathAsWrittenRenamesDirectory()
    ensures ModulePathAsWritten(E2eTest) == "/src/e2e.peprs/cap.test.ts"
    ensures Dirname(ModulePathAsWritten(E2eTest)) == "/src/e2e.peprs"
    ensures Dirname(E2eTest) == "/src/e2e.tests"
    ensures Dirname(ModulePath(E2eTest)) == "/src/e2e.tests"
  {
    E2eTestAsWritten();
    DirOfRenamed();
    E2eTestCorrected();
  }

  /** A test under a directory whose name contains `.test`. */
  const E2eTest := "/src/e2e.tests/cap.test.ts"

  lemma E2eTestFirstTest()
    ensures IndexOf(E2eTest, ".test") == Some(8)
  {
    var me := E2eTest;
    assert OccursAt(me, ".test", 8) by { assert me[8..13] == ".test"; }
    forall j | 0 <= j < 8 ensures !OccursAt(me, ".test", j) {
      assert me[j..j + 5][0] == me[j];
    }
    IndexOfIs(me, ".test", 8);
  }

  lemma E2eTestAsWritten()
    ensures ModulePathAsWritten(E2eTest) == "/src/e2e.peprs/cap.test.ts"
  {
    E2eTestFirstTest();
    E2eTestPieces();
    RenamedPieces();
  }

  lemma E2eTestPieces()
    ensures E2eTest[..8] == "/src/e2e" && E2eTest[13..] == "s/cap.test.ts"
  {
  }

  lemma RenamedPieces()
    ensures "/src/e2e" + ".pepr" + "s/cap.test.ts" == "/src/e2e.peprs/cap.test.ts"
  {
  }

  lemma DirOfRenamed()
    ensures Dirname("/src/e2e.peprs/cap.test.ts") == "/src/e2e.peprs"
  {
    var dir, file := "/src/e2e.peprs", "cap.test.ts";
    assert !HasSlash(file);
    SplitJoined(dir, file);
    RenamedSpelling();
  }

  lemma RenamedSpelling()
    ensures "/src/e2e.peprs" + "/" + "cap.test.ts" == "/src/e2e.peprs/cap.test.ts"
  {
  }

  lemma E2eTestCorrected()
    ensures Dirname(E2eTest) == "/src/e2e.tests"
    ensures Dirname(ModulePath(E2eTest)) == "/src/e2e.tests"
  {
    assert "/src/e2e.tests" + "/" + "cap" + TestSuffix == E2eTest;
    assert "/src/e2e.tests" + "/" + ("cap" + TestSuffix) == E2eTest;
    assert !HasSlash("cap") && !HasSlash("cap.test.ts");
    SplitJoined("/src/e2e.tests", "cap" + TestSuffix);
    ModuleBesideTest("/src/e2e.tests", "cap");
  }

  // ---------------------------------------------------------------------
  // Fixture discovery

  /**
   * The fixtures are the listed files that pass both filters, ordered by the
   * comparator's key, and for each key in listing order (the sort is stable);
   * each is paired with its path beside the test and that path plus `.json`.
   */
  lemma FixturesDiscovered(listing: seq<string>, name: string)
    ensures var kept := Kept(listing, name);
      var fs := Fixtures(listing, name);
      && (forall f :: f in fs ==> f in listing && MatchesName(f, name) && IndexedYaml(f))
      && multiset(KeyedOf(fs)) == multiset(KeyedOf(kept))
      && (forall i, j :: 0 <= i < j < |fs| ==> SortKey(fs[i]) <= SortKey(fs[j]))
      && (forall k :: WithKey(KeyedOf(fs), k) == WithKey(KeyedOf(kept), k))
  {
    var kept := Kept(listing, name);
    var fs := Fixtures(listing, name);
    FixturesAreSorted(listing, name);
    forall f | f in fs ensures f in listing {
      assert multiset(kept)[f] > 0;
    }
  }

  /** The fixture list, keyed again, is the sorted keyed list it was read from. */
  lemma FixturesAreSorted(listing: seq<string>, name: string)
    ensures var kept := Kept(listing, name);
      && (forall f :: f in Fixtures(listing, name) ==> f in kept)
      && KeyedOf(Fixtures(listing, name)) == SortByKey(KeyedOf(kept))
  {
    var kept := Kept(listing, name);
    assert forall f :: f in kept ==> IndexedYaml(f);
    KeyedFrom(kept);
    var sorted := SortByKey(KeyedOf(kept));
    SortKeepsKeyedFrom(KeyedOf(kept), kept);
    FilesKeyedFrom(sorted, kept);
    assert Fixtures(listing, name) == Files(sorted);
  }

  /** Every entry of `ks` is a file of `files` keyed by its own sort key. */
  ghost predicate KeyedFromFiles(ks: seq<Keyed>, files: seq<string>) {
    forall x :: x in ks ==> x.file in files && IndexedYaml(x.file) && x == Keyed(SortKey(x.file), x.file)
  }

  lemma KeyedFrom(files: seq<string>)
    requires forall f :: f in files ==> IndexedYaml(f)
    ensures KeyedFromFiles(KeyedOf(files), files)
  {
    forall x | x in KeyedOf(files) ensures x.file in files && x == Keyed(SortKey(x.file), x.file) {
      var j :| 0 <= j < |files| && KeyedOf(files)[j] == x;
    }
  }

  lemma SortKeepsKeyedFrom(ks: seq<Keyed>, files: seq<string>)
    requires KeyedFromFiles(ks, files)
    ensures KeyedFromFiles(SortByKey(ks), files)
  {
    forall x | x in SortByKey(ks) ensures x in ks {
      assert x in multiset(SortByKey(ks));
    }
  }

  /** Keying the file names of correctly keyed entries gives the entries back. */
  lemma FilesKeyedFrom(ks: seq<Keyed>, files: seq<string>)
    requires KeyedFromFiles(ks, files)
    ensures forall f :: f in Files(ks) ==> f in files && IndexedYaml(f)
    ensures KeyedOf(Files(ks)) == ks
  {
    forall f | f in Files(ks) ensures f in files && IndexedYaml(f) {
      var i :| 0 <= i < |ks| && Files(ks)[i] == f;
      assert ks[i] in ks;
    }
    forall i | 0 <= i < |ks| ensures KeyedOf(Files(ks))[i] == ks[i] {
      assert ks[i] in ks;
    }
  }

  /** The constructor pairs each discovered fixture with its path beside the test and that path plus `.json`. */
  lemma ManifestsOfFixtures(me: string, unique: string, ancestor: string, listing: seq<string>)
    ensures var cfg := NewRunCfg(me, unique, ancestor, listing);
      var fs := Fixtures(listing, cfg.name);
      && |cfg.manifests| == |fs|
      && forall i :: 0 <= i < |fs| ==>
           cfg.manifests[i].yaml == cfg.here + "/" + fs[i] &&
           cfg.manifests[i].json == cfg.manifests[i].yaml + ".json"
  {
  }

  // ---------------------------------------------------------------------
  // `manifest(index)`

  /**
   * `jsons.filter(f => parseInt(f.match(...)[1]) === index)[0]`: the first path
   * whose key is `index`, or None. The filter visits every path, so a path the
   * pattern does not match throws even after a hit.
   */
  function Lookup(jsons: seq<string>, index: int): (r: Result<Option<string>, string>)
    ensures r.Err? <==> exists i :: 0 <= i < |jsons| && LookupKey(jsons[i]).None?
    ensures r.Err? ==> exists i :: 0 <= i < |jsons| && jsons[i] == r.error && LookupKey(jsons[i]).None?
    ensures r.Ok? && r.value.Some? ==>
      exists i :: 0 <= i < |jsons| && jsons[i] == r.value.value && LookupKey(jsons[i]) == Some(index) &&
                  forall j :: 0 <= j < i ==> LookupKey(jsons[j]) != Some(index)
    ensures r == Ok(None) ==> forall i :: 0 <= i < |jsons| ==> LookupKey(jsons[i]) != Some(index)
  {
    FilterFirst(jsons, Keys(jsons), index)
  }

  /** What `parseInt(f.match(...)[1])` reads from each path, where the pattern matches. */
  function Keys(jsons: seq<string>): (r: seq<Option<nat>>)
    ensures |r| == |jsons| && forall i :: 0 <= i < |jsons| ==> r[i] == LookupKey(jsons[i])
  {
    seq(|jsons|, i requires 0 <= i < |jsons| => LookupKey(jsons[i]))
  }

  /** The filter of `manifest(index)`, over the keys the paths parse to. */
  function FilterFirst(jsons: seq<string>, keys: seq<Option<nat>>, index: int): (r: Result<Option<string>, string>)
    requires |keys| == |jsons|
    ensures r.Err? <==> exists i :: 0 <= i < |jsons| && keys[i].None?
    ensures r.Err? ==> exists i :: 0 <= i < |jsons| && jsons[i] == r.error && keys[i].None?
    ensures r.Ok? && r.value.Some? ==>
      exists i :: 0 <= i < |jsons| && jsons[i] == r.value.value && keys[i] == Some(index) &&
                  forall j :: 0 <= j < i ==> keys[j] != Some(index)
    ensures r == Ok(None) ==> forall i :: 0 <= i < |jsons| ==> keys[i] != Some(index)
  {
    if jsons == [] then Ok(None)
    else
      assert forall i :: 1 <= i < |jsons| ==> jsons[1..][i - 1] == jsons[i] && keys[1..][i - 1] == keys[i];
      match keys[0]
      case None => Err(jsons[0])
      case Some(k) =>
        match FilterFirst(jsons[1..], keys[1..], index)
        case Err(p) => Err(p)
        case Ok(rest) => Ok(if k == index then Some(jsons[0]) else rest)
  }

  function JsonPaths(ms: seq<Manifest>): (r: seq<string>)
    ensures |r| == |ms| && forall i :: 0 <= i < |ms| ==> r[i] == ms[i].json
  {
    seq(|ms|, i requires 0 <= i < |ms| => ms[i].json)
  }

  /** `manifest(index)`. */
  function ManifestFor(cfg: RunCfg, index: int): Result<Option<string>, string> {
    Lookup(JsonPaths(cfg.manifests), index)
  }

  /**
   * On the entries of discovered fixtures `manifest(index)` never throws, and
   * finds the `.json` path of the first fixture, in list order, whose name
   * ends with `.test.<digits>.yaml` for digits that parse to `index`.
   */
  lemma ManifestFound(here: string, fs: seq<string>, index: int)
    requires SingleLine(here) && forall f :: f in fs ==> IndexedYaml(f) && SingleLine(f)
    ensures var r := Lookup(JsonPaths(Entries(here, fs)), index);
      && r.Ok?
      && (r.value.Some? <==> exists i :: 0 <= i < |fs| && SuffixIndex(fs[i]) == index)
      && (r.value.Some? ==>
            exists i :: 0 <= i < |fs| && r.value.value == here + "/" + fs[i] + ".json" &&
                        SuffixIndex(fs[i]) == index &&
                        forall j :: 0 <= j < i ==> SuffixIndex(fs[j]) != index)
  {
    var jsons := JsonPaths(Entries(here, fs));
    var keys := seq(|fs|, i requires 0 <= i < |fs| => SuffixIndex(fs[i]));
    forall i | 0 <= i < |fs| ensures jsons[i] == here + "/" + fs[i] + ".json" && LookupKey(jsons[i]) == Some(keys[i]) {
      LookupKeyOfJsonPath(here, fs[i]);
    }
    LookupByKeys(jsons, keys, index);
  }

  /** Where every path has a key, `manifest(index)` finds the first path whose key is `index`. */
  lemma LookupByKeys(jsons: seq<string>, keys: seq<nat>, index: int)
    requires |keys| == |jsons| && forall i :: 0 <= i < |jsons| ==> LookupKey(jsons[i]) == Some(keys[i])
    ensures var r := Lookup(jsons, index);
      && r.Ok?
      && (r.value.Some? <==> exists i :: 0 <= i < |keys| && keys[i] == index)
      && (r.value.Some? ==>
            exists i :: 0 <= i < |keys| && r.value.value == jsons[i] && keys[i] == index &&
                        forall j :: 0 <= j < i ==> keys[j] != index)
  {
    FilterByKeys(jsons, Keys(jsons), keys, index);
  }

  lemma FilterByKeys(jsons: seq<string>, ks: seq<Option<nat>>, keys: seq<nat>, index: int)
    requires |ks| == |keys| == |jsons| && forall i :: 0 <= i < |jsons| ==> ks[i] == Some(keys[i])
    ensures var r := FilterFirst(jsons, ks, index);
      && r.Ok?
      && (r.value.Some? <==> exists i :: 0 <= i < |keys| && keys[i] == index)
      && (r.value.Some? ==>
            exists i :: 0 <= i < |keys| && r.value.value == jsons[i] && keys[i] == index &&
                        forall j :: 0 <= j < i ==> keys[j] != index)
  {
    var r := FilterFirst(jsons, ks, index);
    if r.Ok? && r.value.Some? {
      var i :| 0 <= i < |jsons| && jsons[i] == r.value.value && ks[i] == Some(index) &&
               forall j :: 0 <= j < i ==> ks[j] != Some(index);
      assert keys[i] == index;
    }
  }

  // ---------------------------------------------------------------------
  // The older `synthesizeManifests`

  /** The first pass: delete `annotations` and `namespace` from an object's metadata. */
  function LegacyStripped(res: Json): Result<Json, SynthError> {
    if !res.JObj? then Err(NotAnObject)
    else if "metadata" !in res.fields || res.fields["metadata"].JNull? then Err(MetadataMissing)
    else
      match res.fields["metadata"]
      case JObj(md) => Ok(JObj(res.fields["metadata" := JObj(md - {"annotations", "namespace"})]))
      case _ => Ok(res)
  }

  /**
   * The second pass: set the run's namespace and merge the ownership label.
   * Assigning to a property of a string, number or boolean throws in strict
   * mode; an array takes the properties and `JSON.stringify` drops them.
   */
  function LegacyLabelled(res: Json, namespace: string, labelKey: string, unique: string): Result<Json, SynthError> {
    if !res.JObj? then Err(NotAnObject)
    else if "metadata" !in res.fields || res.fields["metadata"].JNull? then Err(MetadataMissing)
    else
      match res.fields["metadata"]
      case JObj(md) =>
        Ok(JObj(res.fields["metadata" := JObj(WithOwnerLabel(md["namespace" := JStr(namespace)], labelKey, unique))]))
      case JArr(_) => Ok(res)
      case _ => Err(MetadataNotObject)
  }

  function LegacyLabelledBy(cfg: RunCfg): Json -> Result<Json, SynthError> {
    res => LegacyLabelled(res, cfg.namespace, cfg.labelKey, cfg.unique)
  }

  function LegacySynthesized(raw: Json, cfg: RunCfg): Result<Json, SynthError> {
    match Normalize(raw)
    case Err(e) => Err(e)
    case Ok(items) =>
      match Each(items, LegacyStripped)
      case Err(e) => Err(e)
      case Ok(stripped) =>
        match Each(stripped, LegacyLabelledBy(cfg))
        case Err(e) => Err(e)
        case Ok(labelled) => Ok(ListOf(labelled))
  }

  function LegacySynth(cfg: RunCfg): Json -> Result<Json, SynthError> {
    raw => LegacySynthesized(raw, cfg)
  }

  /**
   * The older `synthesizeManifests(trc)`: for each fixture in order, one dry
   * run and, unless something throws, one write of the rewritten `List` to
   * the fixture's `.json` path.
   */
  method LegacySynthesizeManifests(cfg: RunCfg, renders: seq<Option<Json>>)
    returns (log: seq<Effect>, failure: Option<SynthError>)
    requires |renders| == |cfg.manifests|
    ensures LogsRun(cfg.manifests, renders, LegacySynth(cfg), log, failure)
  {
    ghost var synth := LegacySynth(cfg);
    log, failure := [], None;
    for i := 0 to |cfg.manifests|
      invariant LogsPrefix(cfg.manifests, renders, synth, log, i)
    {
      var doc := if renders[i].None? then Err(RenderFailed) else LegacySynthesized(renders[i].value, cfg);
      if doc.Err? {
        LogsRunFails(cfg.manifests, renders, synth, log, i);
        log, failure := log + [DryRun(cfg.manifests[i].yaml)], Some(doc.error);
        return;
      }
      LogsPrefixStep(cfg.manifests, renders, synth, log, i);
      log := log + [DryRun(cfg.manifests[i].yaml)] + [Write(cfg.manifests[i].json, doc.value)];
    }
    LogsRunCompletes(cfg.manifests, renders, synth, log);
  }

  /** The shape both passes accept: an object whose metadata is an object or an array. */
  predicate LegacyShape(res: Json) {
    res.JObj? && "metadata" in res.fields && (res.fields["metadata"].JObj? || res.fields["metadata"].JArr?)
  }

  /**
   * Both passes over one object succeed exactly on the accepted shape. An
   * object metadata loses every annotation, gets the run's namespace in
   * place of its own and gains the ownership label over its old labels; every
   * other metadata key and every other field is untouched. An array metadata
   * leaves the object as it was.
   */
  lemma LegacyObjectSynthesized(res: Json, namespace: string, labelKey: string, unique: string)
    ensures var r := if LegacyStripped(res).Ok? then LegacyLabelled(LegacyStripped(res).value, namespace, labelKey, unique)
                     else LegacyStripped(res);
      && (r.Ok? <==> LegacyShape(res))
      && (LegacyShape(res) && res.fields["metadata"].JArr? ==> r == Ok(res))
      && (LegacyShape(res) && res.fields["metadata"].JObj? ==>
            var md := res.fields["metadata"].fields;
            && r.value.JObj? && r.value.fields.Keys == res.fields.Keys
            && (forall k :: k in res.fields && k != "metadata" ==> r.value.fields[k] == res.fields[k])
            && r.value.fields["metadata"].JObj?
            && var md' := r.value.fields["metadata"].fields;
            && "annotations" !in md'
            && "namespace" in md' && md'["namespace"] == JStr(namespace)
            && "labels" in md' && md'["labels"] == JObj(LabelsBefore(md)[labelKey := JStr(unique)])
            && (forall k :: k !in {"annotations", "namespace", "labels"} ==> (k in md' <==> k in md))
            && (forall k :: k in md && k !in {"annotations", "namespace", "labels"} ==> md'[k] == md[k]))
  {
    if LegacyShape(res) && res.fields["metadata"].JObj? {
      var md := res.fields["metadata"].fields;
      var md1 := md - {"annotations", "namespace"};
      assert LabelsBefore(md1["namespace" := JStr(namespace)]) == LabelsBefore(md);
    }
  }
}
