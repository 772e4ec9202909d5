/**
 * The capability-module helpers of capabilities/helpers/module.ts that do not
 * shell out: `synthesizeManifests`, which turns each fixture's dry-run render
 * into a `List` of run-owned objects and writes it next to the fixture, and
 * the choice of build artefact in `deploy`.
 */
module PeprModule {
  import opened Results
  import opened Text
  import opened Resources

  const KubectlPrefix := "kubectl.kubernetes.io/"

  /** An annotation that kubectl adds (last-applied-configuration and friends). */
  predicate IsKubectlKey(k: string) {
    StartsWith(k, KubectlPrefix)
  }

  /** The annotations left once every kubectl annotation is gone. */
  function KubectlStripped(annotations: map<string, Json>): map<string, Json> {
    map k | k in annotations && !IsKubectlKey(k) :: annotations[k]
  }

  /**
   * The `for (const anno in annotations)` loop: it deletes every key that
   * starts with the kubectl prefix, one key at a time, and keeps the rest.
   */
  method StripKubectlAnnotations(annotations: map<string, Json>) returns (kept: map<string, Json>)
    ensures forall k :: k in kept <==> k in annotations && !IsKubectlKey(k)
    ensures forall k :: k in kept ==> kept[k] == annotations[k]
  {
    kept := annotations;
    var pending := annotations.Keys;
    while pending != {}
      invariant pending <= annotations.Keys
      invariant forall k :: k in kept <==> k in annotations && (k in pending || !IsKubectlKey(k))
      invariant forall k :: k in kept ==> kept[k] == annotations[k]
      decreases |pending|
    {
      var anno :| anno in pending;
      if IsKubectlKey(anno) {
        kept := kept - {anno};
      }
      pending := pending - {anno};
    }
  }

  /** `Object.keys(v).length !== 0` for a value that is neither null nor an object. */
  predicate HasOwnKeys(v: Json) {
    match v
    case JStr(s) => s != []
    case JArr(xs) => xs != []
    case _ => false
  }

  /**
   * The first `map` pass over one object: strip the kubectl annotations, then
   * delete the annotations value when nothing is left in it. Reading
   * `metadata` of a non-object, or `Object.keys` of a missing or null
   * annotations value, throws.
   */
  function Stripped(res: Json): Result<Json, SynthError> {
    if !res.JObj? then Err(NotAnObject)
    else if "metadata" !in res.fields || res.fields["metadata"].JNull? then Err(MetadataMissing)
    else if !res.fields["metadata"].JObj? then Err(AnnotationsMissing)
    else
      var md := res.fields["metadata"].fields;
      if "annotations" !in md || md["annotations"].JNull? then Err(AnnotationsMissing)
      else Ok(JObj(res.fields["metadata" := JObj(StrippedMetadata(md))]))
  }

  /** The metadata the first pass leaves: kubectl annotations gone, and the annotations value with them when it has no keys left. */
  function StrippedMetadata(md: map<string, Json>): map<string, Json>
    requires "annotations" in md
  {
    match md["annotations"]
    case JObj(annotations) =>
      var kept := KubectlStripped(annotations);
      if kept == map[] then md - {"annotations"} else md["annotations" := JObj(kept)]
    case other =>
      if HasOwnKeys(other) then md else md - {"annotations"}
  }

  /** The first pass over one object, with its annotation loop run as the source runs it. */
  method StripResource(res: Json) returns (r: Result<Json, SynthError>)
    ensures r == Stripped(res)
  {
    if !res.JObj? {
      return Err(NotAnObject);
    }
    var f := res.fields;
    if "metadata" !in f || f["metadata"].JNull? {
      return Err(MetadataMissing);
    }
    if !f["metadata"].JObj? {
      return Err(AnnotationsMissing);
    }
    var md := f["metadata"].fields;
    if "annotations" !in md || md["annotations"].JNull? {
      return Err(AnnotationsMissing);
    }
    var annotations := md["annotations"];
    if annotations.JObj? {
      var kept := StripKubectlAnnotations(annotations.fields);
      assert kept == KubectlStripped(annotations.fields);
      if |kept| == 0 {
        md := md - {"annotations"};
      } else {
        md := md["annotations" := JObj(kept)];
      }
      r := Ok(JObj(f["metadata" := JObj(md)]));
    } else if HasOwnKeys(annotations) {
      r := Ok(JObj(f["metadata" := JObj(md)]));
    } else {
      r := Ok(JObj(f["metadata" := JObj(md - {"annotations"})]));
    }
  }

  /**
   * The second `map` pass over one object: merge the ownership label into its
   * labels. An array metadata takes the new property silently (and
   * `JSON.stringify` drops it); any other non-object throws.
   */
  function Labelled(res: Json, labelKey: string, unique: string): Result<Json, SynthError> {
    if !res.JObj? then Err(NotAnObject)
    else if "metadata" !in res.fields || res.fields["metadata"].JNull? then Err(MetadataMissing)
    else
      match res.fields["metadata"]
      case JObj(md) => Ok(JObj(res.fields["metadata" := JObj(WithOwnerLabel(md, labelKey, unique))]))
      case JArr(_) => Ok(res)
      case _ => Err(MetadataNotObject)
  }

  function LabelledBy(labelKey: string, unique: string): Json -> Result<Json, SynthError> {
    res => Labelled(res, labelKey, unique)
  }

  /** What one fixture's render becomes: normalised, stripped, labelled and re-wrapped. */
  function Synthesized(raw: Json, labelKey: string, unique: string): Result<Json, SynthError> {
    match Normalize(raw)
    case Err(e) => Err(e)
    case Ok(items) =>
      match Each(items, Stripped)
      case Err(e) => Err(e)
      case Ok(stripped) =>
        match Each(stripped, LabelledBy(labelKey, unique))
        case Err(e) => Err(e)
        case Ok(labelled) => Ok(ListOf(labelled))
  }

  function Synth(labelKey: string, unique: string): Json -> Result<Json, SynthError> {
    raw => Synthesized(raw, labelKey, unique)
  }

  /**
   * `synthesizeManifests`: for each fixture in list order, one dry run and,
   * unless something throws, one write of the synthesized `List` to the
   * fixture's `.json` path. `renders[i]` is what the dry run of
   * `entries[i].yaml` prints, parsed (None when it fails).
   */
  method SynthesizeManifests(entries: seq<Manifest>, renders: seq<Option<Json>>, labelKey: string, unique: string)
    returns (log: seq<Effect>, failure: Option<SynthError>)
    requires |renders| == |entries|
    ensures LogsRun(entries, renders, Synth(labelKey, unique), log, failure)
  {
    ghost var synth := Synth(labelKey, unique);
    log, failure := [], None;
    var i := 0;
    while i < |entries|
      invariant 0 <= i <= |entries|
      invariant LogsPrefix(entries, renders, synth, log, i)
    {
      var doc := SynthesizeOne(renders[i], labelKey, unique);
      if doc.Err? {
        LogsRunFails(entries, renders, synth, log, i);
        log, failure := log + [DryRun(entries[i].yaml)], Some(doc.error);
        return;
      }
      LogsPrefixStep(entries, renders, synth, log, i);
      log := log + [DryRun(entries[i].yaml)] + [Write(entries[i].json, doc.value)];
      i := i + 1;
    }
    LogsRunCompletes(entries, renders, synth, log);
  }

  /** The body of the write loop for one fixture, up to the write. */
  method SynthesizeOne(render: Option<Json>, labelKey: string, unique: string) returns (r: Result<Json, SynthError>)
    ensures r == EntryOutcome(render, Synth(labelKey, unique))
  {
    if render.None? {
      return Err(RenderFailed);
    }
    var normalized := Normalize(render.value);
    if normalized.Err? {
      return Err(normalized.error);
    }
    var stripped := StripAll(normalized.value);
    if stripped.Err? {
      return Err(stripped.error);
    }
    var labelled := LabelAll(stripped.value, labelKey, unique);
    if labelled.Err? {
      return Err(labelled.error);
    }
    r := Ok(ListOf(labelled.value));
  }

  /** The first `map` pass: strip every object in order; the first throw ends it. */
  method StripAll(items: seq<Json>) returns (r: Result<seq<Json>, SynthError>)
    ensures r == Each(items, Stripped)
  {
    var stripped: seq<Json> := [];
    var j := 0;
    while j < |items|
      invariant 0 <= j <= |items| && |stripped| == j
      invariant forall m :: 0 <= m < j ==> Stripped(items[m]) == Ok(stripped[m])
    {
      var s := StripResource(items[j]);
      if s.Err? {
        EachStopsAtFirstError(items, Stripped, j);
        return Err(s.error);
      }
      stripped := stripped + [s.value];
      j := j + 1;
    }
    EachSucceeds(items, Stripped, stripped);
    r := Ok(stripped);
  }

  /** The second `map` pass: label every object in order; the first throw ends it. */
  method LabelAll(stripped: seq<Json>, labelKey: string, unique: string) returns (r: Result<seq<Json>, SynthError>)
    ensures r == Each(stripped, LabelledBy(labelKey, unique))
  {
    var labelled: seq<Json> := [];
    var j := 0;
    while j < |stripped|
      invariant 0 <= j <= |stripped| && |labelled| == j
      invariant forall m :: 0 <= m < j ==> LabelledBy(labelKey, unique)(stripped[m]) == Ok(labelled[m])
    {
      var l := Labelled(stripped[j], labelKey, unique);
      if l.Err? {
        EachStopsAtFirstError(stripped, LabelledBy(labelKey, unique), j);
        return Err(l.error);
      }
      labelled := labelled + [l.value];
      j := j + 1;
    }
    EachSucceeds(stripped, LabelledBy(labelKey, unique), labelled);
    r := Ok(labelled);
  }

  /** The shape the first pass accepts: an object whose metadata is an object with non-null annotations. */
  predicate Strippable(res: Json) {
    && res.JObj? && "metadata" in res.fields && res.fields["metadata"].JObj?
    && var md := res.fields["metadata"].fields;
       "annotations" in md && !md["annotations"].JNull?
  }

  /**
   * How one synthesized object relates to the rendered one: every field but
   * `metadata` untouched; in `metadata`, every key but `annotations` and
   * `labels` untouched (so `namespace: default` stays); `labels` is the old
   * labels with `labelKey` set to `unique`; and an object of annotations
   * keeps exactly its non-kubectl entries, disappearing when none is left.
   */
  ghost predicate SynthesizedFrom(res: Json, out: Json, labelKey: string, unique: string)
    requires Strippable(res)
  {
    var f := res.fields;
    var md := f["metadata"].fields;
    && out.JObj? && out.fields.Keys == f.Keys
    && (forall k :: k in f && k != "metadata" ==> out.fields[k] == f[k])
    && out.fields["metadata"].JObj?
    && var md' := out.fields["metadata"].fields;
    && (forall k :: k != "annotations" && k != "labels" ==> (k in md' <==> k in md))
    && (forall k :: k in md && k != "annotations" && k != "labels" ==> md'[k] == md[k])
    && "labels" in md' && md'["labels"].JObj?
    && var labels := md'["labels"].fields;
    && labelKey in labels && labels[labelKey] == JStr(unique)
    && (forall k :: k != labelKey ==> (k in labels <==> k in LabelsBefore(md)))
    && (forall k :: k in labels && k != labelKey ==> labels[k] == LabelsBefore(md)[k])
    && (md["annotations"].JObj? ==>
          var annotations := md["annotations"].fields;
          && ("annotations" in md' <==> exists k :: k in annotations && !IsKubectlKey(k))
          && ("annotations" in md' ==>
                && md'["annotations"].JObj?
                && (forall k :: k in md'["annotations"].fields <==> k in annotations && !IsKubectlKey(k))
                && (forall k :: k in md'["annotations"].fields ==> md'["annotations"].fields[k] == annotations[k])))
  }

  /** Both passes over one object: they succeed exactly on the accepted shape, with the relation above. */
  lemma ObjectSynthesized(res: Json, labelKey: string, unique: string)
    ensures Stripped(res).Ok? <==> Strippable(res)
    ensures Strippable(res) ==>
      Labelled(Stripped(res).value, labelKey, unique).Ok? &&
      SynthesizedFrom(res, Labelled(Stripped(res).value, labelKey, unique).value, labelKey, unique)
  {
    if Strippable(res) {
      var f := res.fields;
      var md := f["metadata"].fields;
      var md1 := StrippedMetadata(md);
      StrippedMetadataKeeps(md);
      assert Stripped(res) == Ok(JObj(f["metadata" := JObj(md1)]));
      var md' := WithOwnerLabel(md1, labelKey, unique);
      assert f["metadata" := JObj(md1)]["metadata" := JObj(md')] == f["metadata" := JObj(md')];
      assert Labelled(Stripped(res).value, labelKey, unique) == Ok(JObj(f["metadata" := JObj(md')]));
      assert "labels" != "annotations";
      assert "labels" in md1 <==> "labels" in md;
      assert LabelsBefore(md1) == LabelsBefore(md);
    }
  }

  /**
   * The first pass touches only `annotations`: every other metadata key
   * stays, and an object of annotations keeps exactly its non-kubectl
   * entries, disappearing when none is left.
   */
  lemma StrippedMetadataKeeps(md: map<string, Json>)
    requires "annotations" in md
    ensures forall k :: k != "annotations" ==> (k in StrippedMetadata(md) <==> k in md)
    ensures forall k :: k in md && k != "annotations" ==> StrippedMetadata(md)[k] == md[k]
    ensures md["annotations"].JObj? ==>
      var annotations := md["annotations"].fields;
      var md1 := StrippedMetadata(md);
      && ("annotations" in md1 <==> exists k :: k in annotations && !IsKubectlKey(k))
      && ("annotations" in md1 ==>
            && md1["annotations"].JObj?
            && (forall k :: k in md1["annotations"].fields <==> k in annotations && !IsKubectlKey(k))
            && (forall k :: k in md1["annotations"].fields ==> md1["annotations"].fields[k] == annotations[k]))
  {
    if md["annotations"].JObj? {
      var annotations := md["annotations"].fields;
      var kept := KubectlStripped(annotations);
      if kept == map[] {
        assert forall k :: k in annotations ==> IsKubectlKey(k) by {
          assert forall k :: k in annotations && !IsKubectlKey(k) ==> k in kept;
        }
      } else {
        var k0 :| k0 in kept;
        assert k0 in annotations && !IsKubectlKey(k0);
      }
    }
  }

  /**
   * What a successful synthesis writes: a `List` of exactly the objects the
   * render held (its items when it was a `List`, else the render itself), in
   * order, each related to its original as SynthesizedFrom states. It
   * succeeds exactly when the render normalises and every object has the
   * accepted shape.
   */
  lemma SynthesizedList(raw: Json, labelKey: string, unique: string)
    ensures Synthesized(raw, labelKey, unique).Ok? <==>
      Normalize(raw).Ok? && forall i :: 0 <= i < |Normalize(raw).value| ==> Strippable(Normalize(raw).value[i])
    ensures Synthesized(raw, labelKey, unique).Ok? ==>
      var items := Normalize(raw).value;
      exists out: seq<Json> ::
        && Synthesized(raw, labelKey, unique) == Ok(ListOf(out))
        && |out| == |items|
        && forall i :: 0 <= i < |items| ==> SynthesizedFrom(items[i], out[i], labelKey, unique)
  {
    if Normalize(raw).Ok? {
      var items := Normalize(raw).value;
      forall i | 0 <= i < |items| ensures Stripped(items[i]).Ok? <==> Strippable(items[i]) {
        StrippedOkIff(items[i]);
      }
      if (forall i :: 0 <= i < |items| ==> Strippable(items[i])) {
        var stripped := Each(items, Stripped).value;
        var labelling := LabelledBy(labelKey, unique);
        forall i | 0 <= i < |stripped| ensures labelling(stripped[i]).Ok? {
          ObjectSynthesized(items[i], labelKey, unique);
        }
        var out := Each(stripped, labelling).value;
        forall i | 0 <= i < |items| ensures SynthesizedFrom(items[i], out[i], labelKey, unique) {
          ObjectSynthesized(items[i], labelKey, unique);
          assert out[i] == labelling(stripped[i]).value;
        }
        assert Synthesized(raw, labelKey, unique) == Ok(ListOf(out));
      }
    }
  }

  /** The first pass succeeds exactly on the accepted shape. */
  lemma StrippedOkIff(res: Json)
    ensures Stripped(res).Ok? <==> Strippable(res)
  {
  }

  /** A `List` render contributes its items in order; its own metadata is not carried over. */
  lemma ListRenderUnwrapped(items: seq<Json>, listMetadata: Json)
    ensures Normalize(JObj(map["kind" := ListKind, "apiVersion" := JStr("v1"),
                               "metadata" := listMetadata, "items" := JArr(items)])) == Ok(items)
  {
  }

  /** Any object whose kind is not `List` becomes a one-item list. */
  lemma SingleRenderWrapped(fields: map<string, Json>)
    requires "kind" !in fields || fields["kind"] != ListKind
    ensures Normalize(JObj(fields)) == Ok([JObj(fields)])
  {
  }

  /** `/pepr-module.*\.yaml/.test(f)`: `pepr-module`, then `.yaml` after no line terminator. */
  predicate IsModuleYaml(f: string) {
    exists i, j :: 0 <= i && i + |"pepr-module"| <= j <= |f| && OccursAt(f, "pepr-module", i) && OccursAt(f, ".yaml", j) &&
      forall m :: i + |"pepr-module"| <= m < j ==> !IsLineTerminator(f[m])
  }

  /** `files.filter(f => /pepr-module.*\.yaml/.test(f))[0]`. */
  function FirstModuleYaml(files: seq<string>): (r: Option<string>)
    ensures r.Some? ==> exists i :: 0 <= i < |files| && files[i] == r.value && IsModuleYaml(files[i]) &&
                                    forall j :: 0 <= j < i ==> !IsModuleYaml(files[j])
    ensures r.None? ==> forall i :: 0 <= i < |files| ==> !IsModuleYaml(files[i])
  {
    if files == [] then None
    else if IsModuleYaml(files[0]) then Some(files[0])
    else
      var r := FirstModuleYaml(files[1..]);
      assert forall i :: 1 <= i < |files| ==> files[1..][i - 1] == files[i];
      r
  }

  /**
   * The path `deploy` applies: the build directory joined with the first
   * module manifest, or with the text `undefined` when there is none.
   */
  function DeployTarget(buildDir: string, files: seq<string>): string {
    match FirstModuleYaml(files)
    case Some(f) => buildDir + "/" + f
    case None => buildDir + "/undefined"
  }

  /** A render with a last-applied annotation and a plain one keeps only the plain one and gains the label. */
  lemma SingleConfigMapExample()
    ensures
      var annotations := map["kubectl.kubernetes.io/last-applied-configuration" := JStr("{}"),
                             "test" := JStr("annotation")];
      var md := map["annotations" := JObj(annotations), "name" := JStr("cm-alpha"), "namespace" := JStr("default")];
      var raw := JObj(map["apiVersion" := JStr("v1"), "kind" := JStr("ConfigMap"), "metadata" := JObj(md)]);
      var md' := map["annotations" := JObj(map["test" := JStr("annotation")]), "name" := JStr("cm-alpha"),
                     "namespace" := JStr("default"), "labels" := JObj(map["lk" := JStr("uq")])];
      Synthesized(raw, "lk", "uq") ==
        Ok(ListOf([JObj(map["apiVersion" := JStr("v1"), "kind" := JStr("ConfigMap"), "metadata" := JObj(md')])]))
  {
    var annotations := map["kubectl.kubernetes.io/last-applied-configuration" := JStr("{}"),
                           "test" := JStr("annotation")];
    var kept := map["test" := JStr("annotation")];
    LastAppliedStripped();
    var md := map["annotations" := JObj(annotations), "name" := JStr("cm-alpha"), "namespace" := JStr("default")];
    var fields := map["apiVersion" := JStr("v1"), "kind" := JStr("ConfigMap"), "metadata" := JObj(md)];
    assert JStr("ConfigMap") != ListKind by { assert "ConfigMap"[0] != "List"[0]; }
    assert Normalize(JObj(fields)) == Ok([JObj(fields)]);
    assert "test" in kept;
    StrippedKeeping(fields, md, annotations);
    var md1 := md["annotations" := JObj(kept)];
    var s1 := fields["metadata" := JObj(md1)];
    LabelledFresh(s1, md1, "lk", "uq");
    var md' := md1["labels" := JObj(map["lk" := JStr("uq")])];
    SynthesizedSingle(JObj(fields), "lk", "uq", JObj(s1), JObj(s1["metadata" := JObj(md')]));
    MetadataRewritten(JObj(annotations), JObj(kept), JStr("cm-alpha"), JStr("default"), JObj(map["lk" := JStr("uq")]));
    ObjectRewritten(JStr("v1"), JStr("ConfigMap"), JObj(md), JObj(md1), JObj(md'));
  }

  lemma MetadataRewritten(before: Json, after: Json, name: Json, namespace: Json, labels: Json)
    ensures map["annotations" := before, "name" := name, "namespace" := namespace]["annotations" := after]["labels" := labels]
         == map["annotations" := after, "name" := name, "namespace" := namespace, "labels" := labels]
  {
  }

  lemma ObjectRewritten(apiVersion: Json, kind: Json, md: Json, md1: Json, md2: Json)
    ensures map["apiVersion" := apiVersion, "kind" := kind, "metadata" := md]["metadata" := md1]["metadata" := md2]
         == map["apiVersion" := apiVersion, "kind" := kind, "metadata" := md2]
  {
  }

  /** An object whose annotations keep a non-kubectl entry keeps just those entries. */
  lemma StrippedKeeping(fields: map<string, Json>, md: map<string, Json>, annotations: map<string, Json>)
    requires "metadata" in fields && fields["metadata"] == JObj(md)
    requires "annotations" in md && md["annotations"] == JObj(annotations)
    requires KubectlStripped(annotations) != map[]
    ensures Stripped(JObj(fields)) == Ok(JObj(fields["metadata" := JObj(md["annotations" := JObj(KubectlStripped(annotations))])]))
  {
  }

  /** An object without labels gains a labels object holding just the ownership label. */
  lemma LabelledFresh(fields: map<string, Json>, md: map<string, Json>, labelKey: string, unique: string)
    requires "metadata" in fields && fields["metadata"] == JObj(md) && "labels" !in md
    ensures Labelled(JObj(fields), labelKey, unique) ==
            Ok(JObj(fields["metadata" := JObj(md["labels" := JObj(map[labelKey := JStr(unique)])])]))
  {
  }

  /** The last-applied annotation is kubectl's, `test` is not. */
  lemma LastAppliedStripped()
    ensures KubectlStripped(map["kubectl.kubernetes.io/last-applied-configuration" := JStr("{}"),
                                "test" := JStr("annotation")]) == map["test" := JStr("annotation")]
  {
    assert IsKubectlKey("kubectl.kubernetes.io/last-applied-configuration");
    assert !IsKubectlKey("test");
  }

  /** A render that is one object synthesizes to the list of that object, stripped and labelled. */
  lemma SynthesizedSingle(raw: Json, labelKey: string, unique: string, stripped: Json, labelled: Json)
    requires Normalize(raw) == Ok([raw])
    requires Stripped(raw) == Ok(stripped) && Labelled(stripped, labelKey, unique) == Ok(labelled)
    ensures Synthesized(raw, labelKey, unique) == Ok(ListOf([labelled]))
  {
    EachSucceeds([raw], Stripped, [stripped]);
    EachSucceeds([stripped], LabelledBy(labelKey, unique), [labelled]);
  }

  /** A name shorter than `pepr-module.yaml` cannot match. */
  lemma ShortIsNotModuleYaml(f: string)
    requires |f| < |"pepr-module.yaml"|
    ensures !IsModuleYaml(f)
  {
  }

  /** `deploy` skips unrelated names and applies the module manifest inside the build directory. */
  lemma DeployExample()
    ensures DeployTarget("fake/build/dir", ["irrelevant", "whatever", "pepr-module-0000.yaml"])
            == "fake/build/dir" + "/" + "pepr-module-0000.yaml"
  {
    ModuleManifestMatches();
    ShortIsNotModuleYaml("irrelevant");
    ShortIsNotModuleYaml("whatever");
    var files := ["irrelevant", "whatever", "pepr-module-0000.yaml"];
    assert files[1..] == ["whatever", "pepr-module-0000.yaml"] && files[1..][1..] == ["pepr-module-0000.yaml"];
    assert FirstModuleYaml(files) == Some("pepr-module-0000.yaml");
  }

  /** The manifest name `pepr build` writes matches the pattern `deploy` looks for. */
  lemma ModuleManifestMatches()
    ensures IsModuleYaml("pepr-module-0000.yaml")
  {
    var mod := "pepr-module-0000.yaml";
    assert mod[0..11] == "pepr-module" && mod[16..21] == ".yaml";
    assert OccursAt(mod, "pepr-module", 0) && OccursAt(mod, ".yaml", 16);
    assert forall m :: 11 <= m < 16 ==> !IsLineTerminator(mod[m]);
  }
}
