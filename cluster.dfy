/**
 * The namespace sweep `clean` of capabilities/helpers/cluster.ts: list the
 * cluster's namespaces, select the ones this test run owns (those whose
 * ownership label is set to a non-empty value) together with `pepr-system`,
 * delete each selected one, and then poll each one until a `Get` of it is
 * rejected with status 404.
 *
 * The cluster is a class over its namespace list; the replies the API server
 * gives to the polling `Get`s are a script per selected namespace.
 */
module Cluster {
  import opened Results
  import Helpers

  /** A namespace as `clean` reads it: its name and its labels, which may be absent. */
  datatype Namespace = Namespace(name: string, labels: Option<map<string, string>>)

  const PeprSystem := "pepr-system"

  /** Reading `labels[labelKey]` of a namespace without labels is a TypeError. */
  datatype CleanError = LabelsMissing(name: string)

  /** A truthy ownership label (a non-empty string), or the name `pepr-system`. */
  predicate Owned(ns: Namespace, labelKey: string) {
    && ns.labels.Some?
    && ((labelKey in ns.labels.value && ns.labels.value[labelKey] != "") || ns.name == PeprSystem)
  }

  /**
   * `nsList.items.filter(...)`: the owned namespaces in listing order, or the
   * TypeError of the first namespace without labels; the left operand of `||`
   * is read first, so `pepr-system` needs labels too.
   */
  function Selection(nss: seq<Namespace>, labelKey: string): (r: Result<seq<Namespace>, CleanError>)
    ensures r.Ok? <==> forall i :: 0 <= i < |nss| ==> nss[i].labels.Some?
    ensures r.Err? ==> exists i :: 0 <= i < |nss| && nss[i].labels.None? && r.error == LabelsMissing(nss[i].name) &&
                                   forall j :: 0 <= j < i ==> nss[j].labels.Some?
  {
    if nss == [] then Ok([])
    else if nss[0].labels.None? then Err(LabelsMissing(nss[0].name))
    else
      var head, tail := nss[0], nss[1..];
      assert forall i :: 1 <= i < |nss| ==> tail[i - 1] == nss[i];
      match Selection(tail, labelKey)
      case Err(e) => Err(e)
      case Ok(rest) => Ok(if Owned(head, labelKey) then [head] + rest else rest)
  }

  /** A selection holds exactly the owned namespaces, each as often as the listing does. */
  lemma {:induction false} SelectionIsFilter(nss: seq<Namespace>, labelKey: string)
    requires Selection(nss, labelKey).Ok?
    ensures var sel := Selection(nss, labelKey).value;
            forall ns :: ns in sel <==> ns in nss && Owned(ns, labelKey)
    ensures var sel := Selection(nss, labelKey).value;
            forall ns :: multiset(sel)[ns] == if Owned(ns, labelKey) then multiset(nss)[ns] else 0
  {
    if nss != [] {
      var head, tail := nss[0], nss[1..];
      assert nss == [head] + tail;
      SelectionIsFilter(tail, labelKey);
    }
  }

  /** Kubernetes keeps namespace names unique. */
  predicate DistinctNames(nss: seq<Namespace>) {
    forall i, j :: 0 <= i < j < |nss| ==> nss[i].name != nss[j].name
  }

  function NameSet(nss: seq<Namespace>): set<string> {
    set ns | ns in nss :: ns.name
  }

  /** The namespaces whose name is not in `gone`, in order. */
  function Without(nss: seq<Namespace>, gone: set<string>): (r: seq<Namespace>)
    ensures forall ns :: ns in r <==> ns in nss && ns.name !in gone
  {
    if nss == [] then []
    else (if nss[0].name in gone then [] else [nss[0]]) + Without(nss[1..], gone)
  }

  lemma {:induction false} WithoutMore(nss: seq<Namespace>, gone: set<string>, name: string)
    ensures Without(Without(nss, gone), {name}) == Without(nss, gone + {name})
  {
    if nss != [] {
      WithoutMore(nss[1..], gone, name);
      var w := Without(nss, gone);
      if nss[0].name !in gone {
        assert w[0] == nss[0] && w[1..] == Without(nss[1..], gone);
      } else {
        assert w == Without(nss[1..], gone);
      }
    }
  }

  /** A reply to `Get(name)`: the namespace, or a rejection with an HTTP status. */
  datatype Reply = Found | Failed(status: int)

  /** `nsGone`: only a rejection with status 404 means gone; the catch swallows every other error. */
  predicate NsGone(reply: Reply) {
    reply.Failed? && reply.status == 404
  }

  /** What the sweep asks of the API server, in order. */
  datatype Call = ListAll | DeleteCall(name: string) | GetCall(name: string) | Pause(ms: int)

  /** Some poll of the namespace is answered with a 404. */
  predicate EventuallyGone(script: seq<Reply>) {
    exists j :: 0 <= j < |script| && NsGone(script[j])
  }

  /** The answers `nsGone` gives the poll loop, one per reply. */
  function GoneAnswers(script: seq<Reply>): (r: seq<Helpers.Answer>)
    ensures |r| == |script|
    ensures forall j :: 0 <= j < |script| ==> r[j] == if NsGone(script[j]) then Helpers.Yes else Helpers.No
  {
    seq(|script|, j requires 0 <= j < |script| => if NsGone(script[j]) then Helpers.Yes else Helpers.No)
  }

  /** The number of replies before the first 404. */
  function FirstGone(script: seq<Reply>): (k: nat)
    requires EventuallyGone(script)
    ensures k < |script| && NsGone(script[k])
    ensures forall j :: 0 <= j < k ==> !NsGone(script[j])
  {
    var answers := GoneAnswers(script);
    assert Helpers.Settles(answers) by {
      var j :| 0 <= j < |script| && NsGone(script[j]);
      assert answers[j] != Helpers.No;
    }
    Helpers.FirstDecisive(answers)
  }

  /** `k` polls that found the namespace, each followed by `sleep(1)`. */
  function Waited(name: string, k: nat): (r: seq<Call>)
    ensures |r| == 2 * k
  {
    if k == 0 then [] else Waited(name, k - 1) + [GetCall(name), Pause(Helpers.SleepMs(1))]
  }

  /** `untilTrue(() => nsGone(ns))`: `k` unsuccessful polls, then the one that sees the 404. */
  function PollLog(name: string, k: nat): seq<Call> {
    Waited(name, k) + [GetCall(name)]
  }

  lemma {:induction false} WaitedShape(name: string, k: nat)
    ensures forall i :: 0 <= i < 2 * k ==> Waited(name, k)[i] == if i % 2 == 0 then GetCall(name) else Pause(1000)
  {
    if k > 0 {
      WaitedShape(name, k - 1);
    }
  }

  /** A step of `untilTrue`'s log as the sweep performs it for namespace `name`. */
  function AsCall(name: string, step: Helpers.Step): Call {
    match step
    case Ask => GetCall(name)
    case Pause(ms) => Pause(ms)
  }

  /**
   * The sweep's wait on one namespace is `untilTrue` run on the answers
   * `nsGone` gives: the same polls and sleeps, each poll a `Get` of the name.
   */
  lemma PollIsUntilTrue(name: string, script: seq<Reply>)
    requires EventuallyGone(script)
    ensures Helpers.Settles(GoneAnswers(script))
    ensures Helpers.FirstDecisive(GoneAnswers(script)) == FirstGone(script)
    ensures var log := Helpers.Polled(GoneAnswers(script)).log;
            PollLog(name, FirstGone(script)) == seq(|log|, i requires 0 <= i < |log| => AsCall(name, log[i]))
  {
    var k := FirstGone(script);
    assert GoneAnswers(script)[k] != Helpers.No;
    WaitedShape(name, k);
  }

  /** One `Delete` per selected namespace, in selection order. */
  function Deletes(sel: seq<Namespace>): (r: seq<Call>)
    ensures |r| == |sel|
  {
    seq(|sel|, i requires 0 <= i < |sel| => DeleteCall(sel[i].name))
  }

  /** Every selected namespace is eventually seen gone. */
  predicate AllGone(scripts: seq<seq<Reply>>) {
    forall i :: 0 <= i < |scripts| ==> EventuallyGone(scripts[i])
  }

  /** The waits on the first `n` selected namespaces, one after the other. */
  function Polls(sel: seq<Namespace>, scripts: seq<seq<Reply>>, n: nat): seq<Call>
    requires n <= |sel| == |scripts| && AllGone(scripts)
  {
    if n == 0 then []
    else Polls(sel, scripts, n - 1) + PollLog(sel[n - 1].name, FirstGone(scripts[n - 1]))
  }

  /**
   * With unique names, every owned namespace receives exactly one `Delete`
   * and every other name none.
   */
  lemma {:induction false} DeletesOwnedOnce(nss: seq<Namespace>, labelKey: string, name: string)
    requires Selection(nss, labelKey).Ok? && DistinctNames(nss)
    ensures multiset(Deletes(Selection(nss, labelKey).value))[DeleteCall(name)] ==
            if OwnsName(nss, labelKey, name) then 1 else 0
  {
    if nss != [] {
      var head, tail := nss[0], nss[1..];
      var rest := Selection(tail, labelKey).value;
      DeletesOwnedOnce(tail, labelKey, name);
      DeletesCons(head, rest);
      OwnsNameCons(nss, labelKey, name);
      if head.name == name {
        TailLacksName(nss);
      }
    }
  }

  /** Some namespace named `name` is owned. */
  predicate OwnsName(nss: seq<Namespace>, labelKey: string, name: string) {
    exists ns :: ns in nss && ns.name == name && Owned(ns, labelKey)
  }

  lemma OwnsNameCons(nss: seq<Namespace>, labelKey: string, name: string)
    requires nss != []
    ensures OwnsName(nss, labelKey, name) <==>
            (nss[0].name == name && Owned(nss[0], labelKey)) || OwnsName(nss[1..], labelKey, name)
  {
    assert nss == [nss[0]] + nss[1..];
  }

  lemma TailLacksName(nss: seq<Namespace>)
    requires nss != [] && DistinctNames(nss)
    ensures forall ns :: ns in nss[1..] ==> ns.name != nss[0].name
  {
    forall ns | ns in nss[1..] ensures ns.name != nss[0].name {
      var j :| 0 <= j < |nss[1..]| && nss[1..][j] == ns;
      assert nss[j + 1] == ns;
    }
  }

  lemma DeletesCons(x: Namespace, rest: seq<Namespace>)
    ensures Deletes([x] + rest) == [DeleteCall(x.name)] + Deletes(rest)
  {
  }

  /** After the sweep no owned namespace is left. */
  lemma SweepLeavesNoOwned(nss: seq<Namespace>, labelKey: string)
    requires Selection(nss, labelKey).Ok?
    ensures forall ns :: ns in Without(nss, NameSet(Selection(nss, labelKey).value)) ==> !Owned(ns, labelKey)
  {
    SelectionIsFilter(nss, labelKey);
  }

  /** With unique names, the sweep keeps exactly the namespaces it does not own, in order. */
  lemma SweepKeepsUnowned(nss: seq<Namespace>, labelKey: string)
    requires Selection(nss, labelKey).Ok? && DistinctNames(nss)
    ensures Without(nss, NameSet(Selection(nss, labelKey).value)) == Unowned(nss, labelKey)
  {
    SelectionIsFilter(nss, labelKey);
    UnownedIsWithout(nss, labelKey, NameSet(Selection(nss, labelKey).value));
  }

  /** The namespaces the filter drops, in order. */
  function Unowned(nss: seq<Namespace>, labelKey: string): (r: seq<Namespace>)
    ensures forall ns :: ns in r <==> ns in nss && !Owned(ns, labelKey)
  {
    if nss == [] then []
    else (if Owned(nss[0], labelKey) then [] else [nss[0]]) + Unowned(nss[1..], labelKey)
  }

  lemma {:induction false} UnownedIsWithout(nss: seq<Namespace>, labelKey: string, gone: set<string>)
    requires forall ns :: ns in nss && Owned(ns, labelKey) ==> ns.name in gone
    requires forall ns :: ns in nss && !Owned(ns, labelKey) ==> ns.name !in gone
    ensures Without(nss, gone) == Unowned(nss, labelKey)
  {
    if nss != [] {
      UnownedIsWithout(nss[1..], labelKey, gone);
    }
  }

  /** An empty selection: the sweep makes no call after the list. */
  lemma NothingOwnedNothingCalled(nss: seq<Namespace>, labelKey: string)
    requires forall i :: 0 <= i < |nss| ==> nss[i].labels.Some? && !Owned(nss[i], labelKey)
    ensures Selection(nss, labelKey) == Ok([])
    ensures var sel := Selection(nss, labelKey).value;
            Deletes(sel) + Polls(sel, [], |sel|) == []
  {
  }

  lemma {:induction false} WithoutNothing(nss: seq<Namespace>)
    ensures Without(nss, {}) == nss
  {
    if nss != [] {
      WithoutNothing(nss[1..]);
      assert nss == [nss[0]] + nss[1..];
    }
  }

  /** The calls and names of one more selected namespace. */
  lemma PrefixStep(sel: seq<Namespace>, i: nat)
    requires i < |sel|
    ensures Deletes(sel[..i + 1]) == Deletes(sel[..i]) + [DeleteCall(sel[i].name)]
    ensures NameSet(sel[..i + 1]) == NameSet(sel[..i]) + {sel[i].name}
  {
    assert sel[..i + 1] == sel[..i] + [sel[i]];
  }

  lemma PollsSnoc(c: seq<Call>, sel: seq<Namespace>, scripts: seq<seq<Reply>>, i: nat)
    requires i < |sel| == |scripts| && AllGone(scripts)
    ensures c + Polls(sel, scripts, i + 1) == c + Polls(sel, scripts, i) + PollLog(sel[i].name, FirstGone(scripts[i]))
  {
  }

  /** The cluster as the sweep observes it, with the calls made to it. */
  class ApiServer {
    var namespaces: seq<Namespace>
    /** Names a `Delete` was issued for and that have not been seen gone yet. */
    var terminating: set<string>
    var calls: seq<Call>

    constructor(nss: seq<Namespace>)
      ensures namespaces == nss && terminating == {} && calls == []
    {
      namespaces := nss;
      terminating := {};
      calls := [];
    }

    /** `K8s(kind.Namespace).Get()`. */
    method List() returns (nss: seq<Namespace>)
      modifies this
      ensures nss == namespaces == old(namespaces)
      ensures terminating == old(terminating) && calls == old(calls) + [ListAll]
    {
      nss := namespaces;
      calls := calls + [ListAll];
    }

    /** `K8s(kind.Namespace).Delete(ns)`: the namespace starts terminating. */
    method Delete(name: string)
      modifies this
      ensures namespaces == old(namespaces)
      ensures terminating == old(terminating) + {name} && calls == old(calls) + [DeleteCall(name)]
    {
      terminating := terminating + {name};
      calls := calls + [DeleteCall(name)];
    }

    /** `K8s(kind.Namespace).Get(name)`, answered by `reply`; a 404 shows the namespace is gone. */
    method Get(name: string, reply: Reply) returns (r: Reply)
      modifies this
      ensures r == reply && calls == old(calls) + [GetCall(name)]
      ensures NsGone(reply) ==> namespaces == Without(old(namespaces), {name}) && terminating == old(terminating) - {name}
      ensures !NsGone(reply) ==> namespaces == old(namespaces) && terminating == old(terminating)
    {
      r := reply;
      calls := calls + [GetCall(name)];
      if NsGone(reply) {
        namespaces := Without(namespaces, {name});
        terminating := terminating - {name};
      }
    }

    /** `sleep(1)` between two polls. */
    method Sleep()
      modifies this
      ensures namespaces == old(namespaces) && terminating == old(terminating)
      ensures calls == old(calls) + [Pause(Helpers.SleepMs(1))]
    {
      calls := calls + [Pause(Helpers.SleepMs(1))];
    }

    /** `untilTrue(() => nsGone(ns))`: poll `name` until a reply is a 404. */
    method PollUntilGone(name: string, script: seq<Reply>)
      requires EventuallyGone(script)
      modifies this
      ensures calls == old(calls) + PollLog(name, FirstGone(script))
      ensures namespaces == Without(old(namespaces), {name})
      ensures terminating == old(terminating) - {name}
    {
      var j := 0;
      while true
        invariant j <= FirstGone(script)
        invariant calls == old(calls) + Waited(name, j)
        invariant namespaces == old(namespaces) && terminating == old(terminating)
        decreases FirstGone(script) - j
      {
        var reply := Get(name, script[j]);
        if NsGone(reply) {
          break;
        }
        Sleep();
        j := j + 1;
      }
    }

    /** `nses.forEach(async ns => await K8s(kind.Namespace).Delete(ns))`, one after the other. */
    method DeleteAll(sel: seq<Namespace>)
      modifies this
      ensures calls == old(calls) + Deletes(sel)
      ensures namespaces == old(namespaces) && terminating == old(terminating) + NameSet(sel)
    {
      for i := 0 to |sel|
        invariant calls == old(calls) + Deletes(sel[..i])
        invariant namespaces == old(namespaces) && terminating == old(terminating) + NameSet(sel[..i])
      {
        Delete(sel[i].name);
        PrefixStep(sel, i);
      }
      assert sel[..|sel|] == sel;
    }

    /** `await Promise.all(nses.map(ns => untilTrue(() => nsGone(ns))))`, one wait after the other. */
    method AwaitGone(sel: seq<Namespace>, scripts: seq<seq<Reply>>)
      requires |scripts| == |sel| && AllGone(scripts)
      modifies this
      ensures calls == old(calls) + Polls(sel, scripts, |sel|)
      ensures namespaces == Without(old(namespaces), NameSet(sel))
      ensures terminating == old(terminating) - NameSet(sel)
    {
      ghost var nss0, t0, calls0 := namespaces, terminating, calls;
      ghost var gone: set<string> := {};
      WithoutNothing(nss0);
      for i := 0 to |sel|
        invariant gone == NameSet(sel[..i])
        invariant calls == calls0 + Polls(sel, scripts, i)
        invariant namespaces == Without(nss0, gone)
        invariant terminating == t0 - gone
      {
        var name := sel[i].name;
        PollUntilGone(name, scripts[i]);
        PollsSnoc(calls0, sel, scripts, i);
        WithoutMore(nss0, gone, name);
        PrefixStep(sel, i);
        gone := gone + {name};
      }
      assert sel[..|sel|] == sel;
    }

    /**
     * `clean(trc)`: select, delete every selected namespace, then wait for
     * each one to be gone. A TypeError in the filter stops the sweep right
     * after the list.
     */
    method Clean(labelKey: string, scripts: seq<seq<Reply>>) returns (failure: Option<CleanError>)
      requires Selection(namespaces, labelKey).Ok? ==>
                 |scripts| == |Selection(namespaces, labelKey).value| && AllGone(scripts)
      modifies this
      ensures var sel := Selection(old(namespaces), labelKey);
              && (failure.Some? <==> sel.Err?)
              && (sel.Err? ==> failure == Some(sel.error) && namespaces == old(namespaces) &&
                               terminating == old(terminating) && calls == old(calls) + [ListAll])
              && (sel.Ok? ==> calls == old(calls) + [ListAll] + Deletes(sel.value) + Polls(sel.value, scripts, |scripts|) &&
                              namespaces == Without(old(namespaces), NameSet(sel.value)) &&
                              terminating == old(terminating) - NameSet(sel.value))
    {
      var nss := List();
      var selection := Selection(nss, labelKey);
      if selection.Err? {
        return Some(selection.error);
      }
      var sel := selection.value;
      DeleteAll(sel);
      AwaitGone(sel, scripts);
      failure := None;
    }
  }

  /** The sweep of the source's example: `pepr-system` without the ownership label is deleted and polled twice. */
  method PeprSystemExample() returns (calls: seq<Call>)
    ensures calls == [ListAll, DeleteCall(PeprSystem), GetCall(PeprSystem), Pause(1000), GetCall(PeprSystem)]
  {
    var api := new ApiServer([Namespace(PeprSystem, Some(map["notTrcLabelKey" := "whatever"]))]);
    var sel := Selection(api.namespaces, "lk");
    SelectionIsFilter(api.namespaces, "lk");
    assert sel.value == api.namespaces;
    var script := [Found, Failed(404)];
    assert FirstGone(script) == 1 by {
      assert NsGone(script[1]) && !NsGone(script[0]);
    }
    var failure := api.Clean("lk", [script]);
    calls := api.calls;
  }
}
