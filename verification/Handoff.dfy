/** From the controller to the router: the URLs in the handed-over graph are the ones that get called. */
module Handoff {
  import opened Graph
  import opened Payload
  import opened Semantics
  import opened RunInvariants
  import opened Manifests
  import opened Controller
  import opened Urls

  predicate LastService(os: seq<Object>, k: nat) {
    k < |os| && os[k].id.kind == SERVICE && forall l :: k < l < |os| ==> os[l].id.kind != SERVICE
  }

  /** The URL is that of the last Service in the list, with the step's endpoint behind it. */
  ghost predicate IsLastServiceUrl(s: Step, os: seq<Object>, url: string) {
    exists k: nat :: LastService(os, k) && url == GetServiceUrl(os[k]) + Endpoint(s)
  }

  lemma {:induction false} UrlIsLastService(s: Step, os: seq<Object>, k: nat)
    requires LastService(os, k)
    ensures UrlAfter(s, os) == GetServiceUrl(os[k]) + Endpoint(s)
  {
    if k < |os| - 1 {
      UrlIsLastService(s, os[..|os| - 1], k);
    }
  }

  /** Every internal step has a Service, and its URL with the endpoint is not empty. */
  ghost predicate UrlsKnown(files: Files, spec: Spec) {
    forall n, i :: n in spec.nodes && 0 <= i < |spec.nodes[n].steps| && Internal(spec.nodes[n].steps[i]) ==>
      var s := spec.nodes[n].steps[i];
      && s.name in files
      && (exists k: nat :: LastService(StepObjects(files, spec, s), k))
      && UrlAfter(s, StepObjects(files, spec, s)) != ""
  }

  /** Where a leaf step of the spec is meant to be called. */
  ghost predicate CalledRight(files: Files, spec: Spec, s: Step, url: string) {
    if s.externalService != "" then url == s.externalService
    else s.name in files && IsLastServiceUrl(s, StepObjects(files, spec, s), url)
  }

  ghost predicate CalledRightAt(files: Files, spec: Spec, n: string, i: nat, url: string) {
    n in spec.nodes && i < |spec.nodes[n].steps| && spec.nodes[n].steps[i].Leaf() &&
    CalledRight(files, spec, spec.nodes[n].steps[i], url)
  }

  lemma LeafUrl(files: Files, spec: Spec, n: string, i: nat)
    requires UrlsKnown(files, spec)
    requires IsLeafAt(HandedGraph(files, spec), n, i)
    ensures CalledRightAt(files, spec, n, i, ServiceUrl(HandedGraph(files, spec), HandedGraph(files, spec).nodes[n].steps[i]))
  {
    var g := HandedGraph(files, spec);
    var steps := spec.nodes[n].steps;
    HandedAt(files, spec, steps, i);
    var s := steps[i];
    assert g.nodes[n].steps[i] == HandedStep(files, spec, s);
    if s.Leaf() && s.externalService == "" {
      var k: nat :| LastService(StepObjects(files, spec, s), k);
      UrlIsLastService(s, StepObjects(files, spec, s), k);
    }
  }

  /** The step at this place of the spec, as it was handed over, is the one that made the call. */
  predicate MadeBy(files: Files, spec: Spec, n: string, i: nat, sent: Sent) {
    IsLeafAt(HandedGraph(files, spec), n, i) && sent.leaf == LeafOf(HandedGraph(files, spec).nodes[n].steps[i])
  }

  /**
    After a successful pass with known URLs, every call of every run of the router on the graph it was
    handed was made by executing some leaf step of the spec, and goes where that step is meant to be
    called: to its external service, or to the URL of its last Service with its endpoint behind it. The
    URL made up from the step name is never used.
   */
  lemma CallsGoWhereTheControllerSays(files: Files, spec: Spec, w: World, init: Bytes, root: string, sent: Sent)
    requires UrlsKnown(files, spec)
    requires Acyclic(HandedGraph(files, spec))
    requires root in spec.nodes
    requires sent in Flatten(Route(Ctx(w, HandedGraph(files, spec), init), root, init, []).calls)
    ensures exists n, i: nat :: MadeBy(files, spec, n, i, sent)
    ensures forall n, i: nat :: MadeBy(files, spec, n, i, sent) ==> CalledRightAt(files, spec, n, i, sent.call.url)
  {
    var c := Ctx(w, HandedGraph(files, spec), init);
    RequestOk(c, root);
    var m, j: nat :| SentBy(c.g, m, j, sent);
    assert MadeBy(files, spec, m, j, sent);
    forall n, i: nat | MadeBy(files, spec, n, i, sent)
      ensures CalledRightAt(files, spec, n, i, sent.call.url)
    {
      LeafUrl(files, spec, n, i);
      SameLeafSameUrl(c.g, c.g.nodes[n].steps[i], c.g.nodes[m].steps[j]);
    }
  }

  lemma SameLeafSameUrl(g: Graph, s: Step, t: Step)
    requires LeafOf(s) == LeafOf(t)
    ensures ServiceUrl(g, s) == ServiceUrl(g, t)
  {
    assert LeafOf(s).name == s.name && LeafOf(s).serviceUrl == s.serviceUrl;
    assert LeafOf(t).name == t.name && LeafOf(t).serviceUrl == t.serviceUrl;
  }

  /** What is handed over is the spec, its URLs apart. */
  lemma HandedIsSpec(files: Files, spec: Spec, n: string, i: nat)
    ensures HandedGraph(files, spec).nodes.Keys == spec.nodes.Keys && HandedGraph(files, spec).namespace == ""
    ensures n in spec.nodes ==>
      && HandedGraph(files, spec).nodes[n].kind == spec.nodes[n].kind
      && |HandedGraph(files, spec).nodes[n].steps| == |spec.nodes[n].steps|
      && (i < |spec.nodes[n].steps| ==>
           var s, s' := spec.nodes[n].steps[i], HandedGraph(files, spec).nodes[n].steps[i];
           s' == s.(serviceUrl := s'.serviceUrl) && (s.nodeName != "" ==> s' == s))
  {
    if n in spec.nodes && i < |spec.nodes[n].steps| {
      HandedAt(files, spec, spec.nodes[n].steps, i);
    }
  }

  /** The name and namespace that a step's Service gets. */
  function ServiceNameOf(s: Step, o: Object): string {
    if s.serviceName != "" then s.serviceName else o.id.name
  }

  function NamespaceOf(spec: Spec, s: Step, o: Object): string {
    if s.namespace != "" then s.namespace else if spec.namespace != "" then spec.namespace else o.id.namespace
  }

  function EndpointOf(s: Step): string {
    if "endpoint" in s.config then s.config["endpoint"] else ""
  }

  /**
    Put together: a call made by a deployed step, whose manifest's last Service has a cluster address, goes
    to the service name and namespace of the step (or of the manifest, where the step has none), to the
    first port of that Service, with the endpoint of the step behind it.
   */
  lemma CallReachesService(files: Files, spec: Spec, w: World, init: Bytes, root: string, sent: Sent, n: string, i: nat, k: nat)
    requires UrlsKnown(files, spec) && Acyclic(HandedGraph(files, spec)) && root in spec.nodes
    requires sent in Flatten(Route(Ctx(w, HandedGraph(files, spec), init), root, init, []).calls)
    requires MadeBy(files, spec, n, i, sent)
    requires
      var s := spec.nodes[n].steps[i];
      && Internal(s) && s.name in files && LastService(files[s.name], k)
      && var o := files[s.name][k];
      && o.service.ClusterIP? && o.service.ports != []
      && Host(ServiceNameOf(s, o)) && Host(NamespaceOf(spec, s, o))
    ensures
      var s := spec.nodes[n].steps[i];
      var o := files[s.name][k];
      exists base: string :: NamesHostAndPort(base, ServiceNameOf(s, o), NamespaceOf(spec, s, o), o.service.ports[0]) &&
                             sent.call.url == base + EndpointOf(s)
  {
    var s := spec.nodes[n].steps[i];
    var o, os := files[s.name][k], StepObjects(files, spec, s);
    CallsGoWhereTheControllerSays(files, spec, w, init, root, sent);
    assert CalledRightAt(files, spec, n, i, sent.call.url);
    var j: nat :| LastService(os, j) && sent.call.url == GetServiceUrl(os[j]) + Endpoint(s);
    OneLastService(files, spec, s, j, k);
    RenderedMeans(spec.namespace, s, o);
    assert os[k] == Rendered(spec.namespace, s, o);
    ClusterUrlReadsBack(os[k]);
  }

  lemma OneLastService(files: Files, spec: Spec, s: Step, j: nat, k: nat)
    requires s.name in files && LastService(StepObjects(files, spec, s), j) && LastService(files[s.name], k)
    ensures j == k
  {
    var os := StepObjects(files, spec, s);
    forall i | 0 <= i < |os|
      ensures os[i].id.kind == files[s.name][i].id.kind
    {
      RenderedMeans(spec.namespace, s, files[s.name][i]);
    }
  }

  /** The router's objects, and the access URL that a successful pass leaves: its Service, on port 8080. */
  lemma AccessUrlReadsBack(spec: Spec, before: string)
    ensures
      var name := if spec.routerService != "" then spec.routerService else "router-service";
      var namespace := if spec.routerNamespace != "" then spec.routerNamespace else spec.namespace;
      Ids(RouterObjects(spec)) ==
        {Resource("Deployment", "apps/v1", name + "-deployment", namespace), Resource("Service", "v1", name, namespace)}
    ensures "" in spec.nodes && spec.nodes[""].steps != [] ==> AccessUrl(spec, before) == before
    ensures
      var name := if spec.routerService != "" then spec.routerService else "router-service";
      var namespace := if spec.routerNamespace != "" then spec.routerNamespace else spec.namespace;
      !("" in spec.nodes && spec.nodes[""].steps != []) && Host(name) && Host(namespace) ==>
        NamesHostAndPort(AccessUrl(spec, before), name, namespace, 8080)
  {
    var router := RouterObjects(spec)[1];
    var all := RouterObjects(spec);
    assert all[0] in all && all[1] in all;
    if Host(router.id.name) && Host(router.id.namespace) {
      ClusterUrlReadsBack(router);
    }
  }
}
