/**
 * Kubernetes objects as the fixture synthesizer sees them: the parsed output
 * of `kubectl apply --dry-run=client --output json`, the unwrapping of a
 * `List`, the ownership-label merge, the `List` re-wrapping, and the
 * sequential write loop's effect log. Shared by both synthesizer variants
 * (capabilities/helpers/module.ts and the older one in
 * capabilities/helpers/TestRunCfg.ts).
 */
module Resources {
  import opened Results

  /** A parsed JSON value; an object is a map, since key order only matters for the text. */
  datatype Json =
    | JNull
    | JBool(b: bool)
    | JNum(n: int)
    | JStr(s: string)
    | JArr(items: seq<Json>)
    | JObj(fields: map<string, Json>)

  /** The exceptions a synthesis run can raise; all but RenderFailed are TypeErrors in the source. */
  datatype SynthError =
    | RenderFailed        // the dry-run command or JSON.parse rejected
    | NullRender          // `raw.kind` on a parsed `null`
    | ItemsNotArray       // a `List` whose `items` has no `map` method
    | NotAnObject         // `res.metadata` read on something without that property
    | MetadataMissing     // `res.metadata` is undefined or null
    | MetadataNotObject   // metadata cannot carry the properties read or written
    | AnnotationsMissing  // `Object.keys` of an undefined or null annotations value

  /** What one pass of the write loop does to the outside world, in order. */
  datatype Effect =
    | DryRun(yaml: string)           // `kubectl apply -f <yaml> --dry-run=client --output json`
    | Write(path: string, doc: Json) // `writeFile(<path>, JSON.stringify(doc, null, 2), "utf8")`

  /** A fixture and the path its rendered form is written to. */
  datatype Manifest = Manifest(yaml: string, json: string)

  const ListKind := JStr("List")

  /** The decimal spelling of an index, as JavaScript names array and string positions. */
  function IndexKey(i: nat): (k: string)
    ensures |k| >= 1 && (i >= 10 <==> |k| >= 2)
  {
    if i < 10 then [('0' as int + i) as char]
    else IndexKey(i / 10) + [('0' as int + i % 10) as char]
  }

  lemma {:induction false} IndexKeyInjective(i: nat, j: nat)
    requires IndexKey(i) == IndexKey(j)
    ensures i == j
  {
    if i >= 10 && j >= 10 {
      var ki, kj := IndexKey(i), IndexKey(j);
      assert ki[|ki| - 1] == kj[|kj| - 1];
      assert ki[..|ki| - 1] == IndexKey(i / 10);
      assert kj[..|kj| - 1] == IndexKey(j / 10);
      IndexKeyInjective(i / 10, j / 10);
    } else if i < 10 && j < 10 {
      assert IndexKey(i)[0] == IndexKey(j)[0];
    }
  }

  /** The own enumerable properties that object spread `{...v}` copies out of `v`. */
  function Spread(v: Json): map<string, Json> {
    forall i: nat, j: nat | IndexKey(i) == IndexKey(j) ensures i == j {
      IndexKeyInjective(i, j);
    }
    match v
    case JObj(m) => m
    case JStr(s) => map i: nat | i < |s| :: IndexKey(i) := JStr([s[i]])
    case JArr(xs) => map i: nat | i < |xs| :: IndexKey(i) := xs[i]
    case _ => map[]
  }

  /**
   * `metadata.labels = {...metadata.labels, [key]: value}`: the labels the
   * object had, with `key` set to `value`.
   */
  function WithOwnerLabel(md: map<string, Json>, key: string, value: string): map<string, Json> {
    md["labels" := JObj(LabelsBefore(md)[key := JStr(value)])]
  }

  /** The labels an object carries before the merge, as object spread reads them. */
  function LabelsBefore(md: map<string, Json>): map<string, Json> {
    if "labels" in md then Spread(md["labels"]) else map[]
  }

  /** `raw.kind === "List" ? raw.items : [raw]`, followed by the `.map` that needs an array. */
  function Normalize(raw: Json): Result<seq<Json>, SynthError> {
    match raw
    case JNull => Err(NullRender)
    case JObj(f) =>
      if "kind" in f && f["kind"] == ListKind then
        if "items" in f && f["items"].JArr? then Ok(f["items"].items) else Err(ItemsNotArray)
      else Ok([raw])
    case _ => Ok([raw])
  }

  /** `{kind: "List", apiVersion: "v1", items}`. */
  function ListOf(items: seq<Json>): Json {
    JObj(map["kind" := ListKind, "apiVersion" := JStr("v1"), "items" := JArr(items)])
  }

  /** `xs.map(f)` where `f` may throw: the first exception, in item order, escapes. */
  function Each(xs: seq<Json>, f: Json -> Result<Json, SynthError>): (r: Result<seq<Json>, SynthError>)
    ensures r.Ok? <==> forall i :: 0 <= i < |xs| ==> f(xs[i]).Ok?
    ensures r.Ok? ==> |r.value| == |xs| && forall i :: 0 <= i < |xs| ==> r.value[i] == f(xs[i]).value
    ensures r.Err? ==> exists i :: 0 <= i < |xs| && f(xs[i]) == Err(r.error) &&
                                  forall j :: 0 <= j < i ==> f(xs[j]).Ok?
  {
    if xs == [] then Ok([])
    else
      match f(xs[0])
      case Err(e) => Err(e)
      case Ok(y) =>
        match Each(xs[1..], f)
        case Err(e) =>
          assert forall i :: 1 <= i < |xs| ==> xs[1..][i - 1] == xs[i];
          Err(e)
        case Ok(ys) => Ok([y] + ys)
  }

  lemma EachSucceeds(xs: seq<Json>, f: Json -> Result<Json, SynthError>, ys: seq<Json>)
    requires |ys| == |xs| && forall i :: 0 <= i < |xs| ==> f(xs[i]) == Ok(ys[i])
    ensures Each(xs, f) == Ok(ys)
  {
    assert Each(xs, f).value == ys;
  }

  lemma EachStopsAtFirstError(xs: seq<Json>, f: Json -> Result<Json, SynthError>, k: nat)
    requires k < |xs| && f(xs[k]).Err? && forall i :: 0 <= i < k ==> f(xs[i]).Ok?
    ensures Each(xs, f) == Err(f(xs[k]).error)
  {
  }

  /** What one fixture turns into: its render (None when the dry run failed) through `synth`. */
  function EntryOutcome(render: Option<Json>, synth: Json -> Result<Json, SynthError>): Result<Json, SynthError> {
    match render
    case None => Err(RenderFailed)
    case Some(raw) => synth(raw)
  }

  /** The position of the first fixture whose synthesis throws, or the number of fixtures. */
  function FirstFailure(renders: seq<Option<Json>>, synth: Json -> Result<Json, SynthError>): (k: nat)
    ensures k <= |renders|
    ensures forall i :: 0 <= i < k ==> EntryOutcome(renders[i], synth).Ok?
    ensures k < |renders| ==> EntryOutcome(renders[k], synth).Err?
  {
    if renders == [] then 0
    else if EntryOutcome(renders[0], synth).Err? then 0
    else
      var k := FirstFailure(renders[1..], synth);
      assert forall i :: 1 <= i < |renders| ==> renders[1..][i - 1] == renders[i];
      1 + k
  }

  /**
   * The effects of the write loop as the source orders them: for each fixture
   * a dry run and then its write, stopping after the dry run of the first
   * fixture that throws.
   */
  predicate LogsRun(entries: seq<Manifest>, renders: seq<Option<Json>>,
                    synth: Json -> Result<Json, SynthError>,
                    log: seq<Effect>, failure: Option<SynthError>)
    requires |renders| == |entries|
  {
    var k := FirstFailure(renders, synth);
    && (failure.None? <==> k == |entries|)
    && |log| == 2 * k + (if k < |entries| then 1 else 0)
    && (forall i :: 0 <= i < k ==>
          log[2 * i] == DryRun(entries[i].yaml) &&
          log[2 * i + 1] == Write(entries[i].json, EntryOutcome(renders[i], synth).value))
    && (k < |entries| ==>
          log[2 * k] == DryRun(entries[k].yaml) &&
          failure == Some(EntryOutcome(renders[k], synth).error))
  }

  /** The log after `i` fixtures that all synthesized: a dry run and a write for each. */
  predicate LogsPrefix(entries: seq<Manifest>, renders: seq<Option<Json>>,
                       synth: Json -> Result<Json, SynthError>, log: seq<Effect>, i: nat)
    requires i <= |renders| == |entries|
  {
    && |log| == 2 * i
    && forall m :: 0 <= m < i ==>
         EntryOutcome(renders[m], synth).Ok? &&
         log[2 * m] == DryRun(entries[m].yaml) &&
         log[2 * m + 1] == Write(entries[m].json, EntryOutcome(renders[m], synth).value)
  }

  lemma LogsPrefixStep(entries: seq<Manifest>, renders: seq<Option<Json>>,
                       synth: Json -> Result<Json, SynthError>, log: seq<Effect>, i: nat)
    requires i < |renders| == |entries| && LogsPrefix(entries, renders, synth, log, i)
    requires EntryOutcome(renders[i], synth).Ok?
    ensures LogsPrefix(entries, renders, synth,
                       log + [DryRun(entries[i].yaml)] + [Write(entries[i].json, EntryOutcome(renders[i], synth).value)], i + 1)
  {
  }

  /** A run that stops at the fixture `i` whose synthesis throws, after its dry run. */
  lemma LogsRunFails(entries: seq<Manifest>, renders: seq<Option<Json>>,
                     synth: Json -> Result<Json, SynthError>, log: seq<Effect>, i: nat)
    requires i < |renders| == |entries| && LogsPrefix(entries, renders, synth, log, i)
    requires EntryOutcome(renders[i], synth).Err?
    ensures LogsRun(entries, renders, synth, log + [DryRun(entries[i].yaml)], Some(EntryOutcome(renders[i], synth).error))
  {
    FirstFailureIs(renders, synth, i);
  }

  /** A run in which every fixture synthesized. */
  lemma LogsRunCompletes(entries: seq<Manifest>, renders: seq<Option<Json>>,
                         synth: Json -> Result<Json, SynthError>, log: seq<Effect>)
    requires |renders| == |entries| && LogsPrefix(entries, renders, synth, log, |entries|)
    ensures LogsRun(entries, renders, synth, log, None)
  {
    FirstFailureIs(renders, synth, |entries|);
  }

  lemma FirstFailureIs(renders: seq<Option<Json>>, synth: Json -> Result<Json, SynthError>, k: nat)
    requires k <= |renders| && forall m :: 0 <= m < k ==> EntryOutcome(renders[m], synth).Ok?
    requires k < |renders| ==> EntryOutcome(renders[k], synth).Err?
    ensures FirstFailure(renders, synth) == k
  {
  }
}
