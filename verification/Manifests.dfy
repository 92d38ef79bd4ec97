/**
  The Kubernetes objects a GMConnector calls for, and the annotation keys they are recorded under.
  Manifest files are given as lists of typed objects.
 */
module Manifests {
  import opened Graph
  import opened Text

  const SERVICE := "Service"
  const DEPLOYMENT := "Deployment"
  const DEPLOYMENT_SUFFIX := "-deployment"
  const DEFAULT_ROUTER := "router-service"
  const ENDPOINT := "endpoint"

  // ----- identities and their keys -----

  /** What identifies an object in the cluster. */
  datatype Resource = Resource(kind: string, apiVersion: string, name: string, namespace: string)

  predicate ColonFree(r: Resource) {
    ':' !in r.kind && ':' !in r.apiVersion && ':' !in r.name && ':' !in r.namespace
  }

  function KeyOf(r: Resource): string {
    r.kind + ":" + r.apiVersion + ":" + r.name + ":" + r.namespace
  }

  /** The four fields read back from a key; None where indexing the split would panic. */
  function ParseKey(key: string): Option<Resource> {
    var parts := Split(key, ':');
    if |parts| < 4 then None else Some(Resource(parts[0], parts[1], parts[2], parts[3]))
  }

  lemma KeyIsJoin(r: Resource)
    ensures KeyOf(r) == Join([r.kind, r.apiVersion, r.name, r.namespace], ':')
  {
    var all := [r.kind, r.apiVersion, r.name, r.namespace];
    assert all[1..] == [r.apiVersion, r.name, r.namespace];
    assert all[1..][1..] == [r.name, r.namespace];
    assert all[1..][1..][1..] == [r.namespace];
    assert Join(all[1..][1..], ':') == r.name + [':'] + r.namespace;
    assert Join(all[1..], ':') == r.apiVersion + [':'] + (r.name + [':'] + r.namespace);
    assert Join(all, ':') == r.kind + [':'] + (r.apiVersion + [':'] + (r.name + [':'] + r.namespace));
    assert ":" == [':'];
  }

  /** A recorded key gives the identity back, whatever the lengths of its fields. */
  lemma KeyRoundTrip(r: Resource)
    requires ColonFree(r)
    ensures ParseKey(KeyOf(r)) == Some(r)
    ensures Split(KeyOf(r), ':') == [r.kind, r.apiVersion, r.name, r.namespace]
  {
    var all := [r.kind, r.apiVersion, r.name, r.namespace];
    KeyIsJoin(r);
    SplitJoin(all, ':');
  }

  /** So keys and identities of colon-free objects correspond one to one. */
  lemma KeyInjective(a: Resource, b: Resource)
    requires ColonFree(a) && ColonFree(b)
    ensures KeyOf(a) == KeyOf(b) <==> a == b
  {
    KeyRoundTrip(a);
    KeyRoundTrip(b);
  }

  // ----- objects -----

  datatype ServiceSpec =
    | ClusterIP(ports: seq<nat>)
    | NodePort(nodePorts: seq<nat>)
    | LoadBalancer(ports: seq<nat>, ingress: seq<string>)
    | ExternalName(host: string)
    | OtherType

  /** An object of a manifest; `service` matters for Services only. */
  datatype Object = Object(id: Resource, service: ServiceSpec)

  function GetServiceUrl(o: Object): string {
    match o.service
    case ClusterIP(ports) =>
      if ports == [] then "" else "http://" + o.id.name + "." + o.id.namespace + ".svc.cluster.local:" + Itoa(ports[0])
    case NodePort(nodePorts) =>
      if nodePorts == [] then "" else "<node-ip>:" + Itoa(nodePorts[0])
    case LoadBalancer(ports, ingress) =>
      if ports == [] || ingress == [] then "" else ingress[0] + ":" + Itoa(ports[0])
    case ExternalName(host) => host
    case OtherType => ""
  }

  /** The namespace and names of a step put into a manifest object. */
  function Rendered(graphNs: string, s: Step, o: Object): Object {
    var ns := if s.namespace != "" then s.namespace else graphNs;
    var o' := if ns != "" then o.(id := o.id.(namespace := ns)) else o;
    if s.serviceName == "" then o'
    else if o.id.kind == SERVICE then o'.(id := o'.id.(name := s.serviceName))
    else if o.id.kind == DEPLOYMENT then o'.(id := o'.id.(name := s.serviceName + DEPLOYMENT_SUFFIX))
    else o'
  }

  function RenderAll(graphNs: string, s: Step, os: seq<Object>): (r: seq<Object>)
    ensures |r| == |os|
    ensures forall k :: 0 <= k < |os| ==> r[k] == Rendered(graphNs, s, os[k])
  {
    seq(|os|, k requires 0 <= k < |os| => Rendered(graphNs, s, os[k]))
  }

  /** Name and namespace of a rendered object; everything else is as in the manifest. */
  lemma RenderedMeans(graphNs: string, s: Step, o: Object)
    ensures
      var r := Rendered(graphNs, s, o);
      && r.service == o.service && r.id.kind == o.id.kind && r.id.apiVersion == o.id.apiVersion
      && r.id.namespace == (if s.namespace != "" then s.namespace else if graphNs != "" then graphNs else o.id.namespace)
      && (s.serviceName == "" || (o.id.kind != "Service" && o.id.kind != "Deployment") ==> r.id.name == o.id.name)
      && (s.serviceName != "" && o.id.kind == "Service" ==> r.id.name == s.serviceName)
      && (s.serviceName != "" && o.id.kind == "Deployment" ==> r.id.name == s.serviceName + "-deployment")
  {
  }

  // ----- the custom resource -----

  /** The spec of a GMConnector, with the namespace of the resource itself. */
  datatype Spec = Spec(namespace: string, nodes: map<string, Router>, routerNamespace: string, routerService: string)

  /** The manifest files, by dictionary key. A step whose name is no key has no manifest. */
  type Files = map<string, seq<Object>>

  predicate Internal(s: Step) {
    s.Leaf() && s.externalService == ""
  }

  function StepObjects(files: Files, spec: Spec, s: Step): seq<Object>
    requires s.name in files
  {
    RenderAll(spec.namespace, s, files[s.name])
  }

  function RouterName(spec: Spec): string {
    if spec.routerService != "" then spec.routerService else DEFAULT_ROUTER
  }

  function RouterNamespace(spec: Spec): string {
    if spec.routerNamespace != "" then spec.routerNamespace else spec.namespace
  }

  /** The router manifest: a Deployment, and a ClusterIP Service on port 8080. */
  function RouterObjects(spec: Spec): seq<Object> {
    var name, ns := RouterName(spec), RouterNamespace(spec);
    [Object(Resource(DEPLOYMENT, "apps/v1", name + DEPLOYMENT_SUFFIX, ns), OtherType),
     Object(Resource(SERVICE, "v1", name, ns), ClusterIP([8080]))]
  }

  function Ids(os: seq<Object>): set<Resource> {
    set o | o in os :: o.id
  }

  /** The resources of one step: none for nested and external steps. */
  function StepIds(files: Files, spec: Spec, s: Step): set<Resource> {
    if Internal(s) && s.name in files then Ids(StepObjects(files, spec, s)) else {}
  }

  /** The resources of the first i steps of a node. */
  function NodeIds(files: Files, spec: Spec, n: string, i: nat): set<Resource>
    requires n in spec.nodes && i <= |spec.nodes[n].steps|
  {
    if i == 0 then {} else NodeIds(files, spec, n, i - 1) + StepIds(files, spec, spec.nodes[n].steps[i - 1])
  }

  function NodesIds(files: Files, spec: Spec, ns: set<string>): set<Resource>
    requires ns <= spec.nodes.Keys
  {
    set n, r | n in ns && r in NodeIds(files, spec, n, |spec.nodes[n].steps|) :: r
  }

  /** The resources the spec and its router call for. */
  function Wanted(files: Files, spec: Spec): set<Resource> {
    NodesIds(files, spec, spec.nodes.Keys) + Ids(RouterObjects(spec))
  }

  lemma OneMoreNode(files: Files, spec: Spec, ns: set<string>, n: string)
    requires ns <= spec.nodes.Keys && n in spec.nodes
    ensures NodesIds(files, spec, ns + {n}) == NodesIds(files, spec, ns) + NodeIds(files, spec, n, |spec.nodes[n].steps|)
  {
    forall r | r in NodesIds(files, spec, ns + {n})
      ensures r in NodesIds(files, spec, ns) + NodeIds(files, spec, n, |spec.nodes[n].steps|)
    {
      var m :| m in ns + {n} && r in NodeIds(files, spec, m, |spec.nodes[m].steps|);
    }
  }

  // ----- what the router is handed -----

  function Endpoint(s: Step): string {
    if ENDPOINT in s.config then s.config[ENDPOINT] else ""
  }

  /** The URL a step is left with after its objects were recorded in order: that of its last Service. */
  function UrlAfter(s: Step, os: seq<Object>): string {
    if os == [] then s.serviceUrl
    else if os[|os| - 1].id.kind == SERVICE then GetServiceUrl(os[|os| - 1]) + Endpoint(s)
    else UrlAfter(s, os[..|os| - 1])
  }

  function HandedStep(files: Files, spec: Spec, s: Step): Step {
    if !s.Leaf() then s
    else if s.externalService != "" then s.(serviceUrl := s.externalService)
    else if s.name in files then s.(serviceUrl := UrlAfter(s, StepObjects(files, spec, s)))
    else s
  }

  function HandedSteps(files: Files, spec: Spec, steps: seq<Step>): (r: seq<Step>)
    ensures |r| == |steps|
  {
    if steps == [] then []
    else HandedSteps(files, spec, steps[..|steps| - 1]) + [HandedStep(files, spec, steps[|steps| - 1])]
  }

  lemma {:induction false} HandedAt(files: Files, spec: Spec, steps: seq<Step>, k: nat)
    requires k < |steps|
    ensures HandedSteps(files, spec, steps)[k] == HandedStep(files, spec, steps[k])
  {
    if k < |steps| - 1 {
      HandedAt(files, spec, steps[..|steps| - 1], k);
    }
  }

  // ----- what can be rendered -----

  /** Configuration keys whose value names a downstream service, to be replaced by its URL. */
  const DOWNSTREAM_KEYS := {
    "TEI_EMBEDDING_ENDPOINT", "TEI_RERANKING_ENDPOINT", "TGI_LLM_ENDPOINT", "REDIS_URL", "ASR_ENDPOINT", "TTS_ENDPOINT",
    "TEI_ENDPOINT"}

  /** The first downstream step of the node with this service name. */
  function FindDownstream(node: seq<Step>, name: string): (r: Option<Step>)
    ensures r.Some? <==> exists k: nat :: IsFirstDownstream(node, name, k)
    ensures forall k: nat :: IsFirstDownstream(node, name, k) ==> r == Some(node[k])
  {
    FirstDownstreamMoves(node, name);
    if node == [] then None
    else if node[0].serviceName == name && node[0].downstream then assert IsFirstDownstream(node, name, 0); Some(node[0])
    else FindDownstream(node[1..], name)
  }

  predicate IsFirstDownstream(node: seq<Step>, name: string, k: nat) {
    && k < |node| && node[k].downstream && node[k].serviceName == name
    && forall j :: 0 <= j < k ==> !(node[j].downstream && node[j].serviceName == name)
  }

  lemma FirstDownstreamMoves(node: seq<Step>, name: string)
    ensures node != [] && !(node[0].downstream && node[0].serviceName == name) ==>
      (forall k: nat :: IsFirstDownstream(node, name, k) ==> k > 0 && IsFirstDownstream(node[1..], name, k - 1)) &&
      (forall k: nat :: IsFirstDownstream(node[1..], name, k) ==> IsFirstDownstream(node, name, k + 1))
  {
  }

  predicate HasPort(o: Object) {
    o.id.kind == SERVICE &&
    match o.service
    case ClusterIP(ports) => ports != []
    case NodePort(nodePorts) => nodePorts != []
    case LoadBalancer(ports, _) => ports != []
    case _ => false
  }

  /** There is a step for the name, with a manifest that has a Service with a port. */
  predicate Resolves(files: Files, node: seq<Step>, name: string) {
    var ds := FindDownstream(node, name);
    ds.Some? && ds.value.name in files && exists k :: 0 <= k < |files[ds.value.name]| && HasPort(files[ds.value.name][k])
  }

  predicate EndpointsFound(files: Files, node: seq<Step>, s: Step) {
    forall key :: key in s.config && key in DOWNSTREAM_KEYS ==> Resolves(files, node, s.config[key])
  }

  /** The step has a manifest, and what the environment of its Deployment, if any, refers to is found. */
  predicate Renderable(files: Files, node: seq<Step>, s: Step) {
    s.name in files && (HasDeployment(files[s.name]) ==> EndpointsFound(files, node, s))
  }

  predicate HasDeployment(os: seq<Object>) {
    exists k :: 0 <= k < |os| && os[k].id.kind == DEPLOYMENT
  }

  predicate AllRenderable(files: Files, node: seq<Step>, steps: seq<Step>) {
    forall i {:trigger Renderable(files, node, steps[i])} :: 0 <= i < |steps| && Internal(steps[i]) ==> Renderable(files, node, steps[i])
  }

  /** The graph in the router's command line: the spec only, so its namespace is empty. */
  function HandedGraph(files: Files, spec: Spec): Graph {
    Graph("", map n | n in spec.nodes :: spec.nodes[n].(steps := HandedSteps(files, spec, spec.nodes[n].steps)))
  }

  function ExternalIn(steps: seq<Step>): nat {
    if steps == [] then 0
    else ExternalIn(steps[..|steps| - 1]) + if steps[|steps| - 1].Leaf() && steps[|steps| - 1].externalService != "" then 1 else 0
  }
}
