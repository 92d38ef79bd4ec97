/** Names across components: why the webhook insists on distinct service names. */
module Naming {
  import opened Graph
  import opened Manifests
  import opened ConnectorStatus
  import opened Controller
  import opened Webhook

  /** The leaf steps the controller deploys. */
  function InternalPositions(spec: Spec): set<Position> {
    set p | p in Positions(spec.nodes) && Internal(StepAt(spec.nodes, p))
  }

  /** Every deployed step has a service name, and not the router's. */
  predicate OwnNames(spec: Spec) {
    forall p :: p in InternalPositions(spec) ==>
      StepAt(spec.nodes, p).serviceName != "" && StepAt(spec.nodes, p).serviceName != RouterName(spec)
  }

  /** Object k is the only one of its kind. */
  predicate Only(os: seq<Object>, kind: string, k: nat) {
    k < |os| && os[k].id.kind == kind && forall j :: 0 <= j < |os| && j != k ==> os[j].id.kind != kind
  }

  /** Every deployed step has a manifest with exactly one Deployment. */
  ghost predicate OneDeploymentEach(files: Files, spec: Spec) {
    forall p :: p in InternalPositions(spec) ==>
      StepAt(spec.nodes, p).name in files && exists k: nat :: Only(files[StepAt(spec.nodes, p).name], DEPLOYMENT, k)
  }

  predicate Workload(r: Resource) {
    r.kind == SERVICE || r.kind == DEPLOYMENT
  }

  /** The name a workload gets from a service name. */
  function NameFor(kind: string, service: string): string {
    if kind == SERVICE then service else service + DEPLOYMENT_SUFFIX
  }

  lemma NameForInjective(kind: string, a: string, b: string)
    ensures NameFor(kind, a) == NameFor(kind, b) <==> a == b
  {
    if kind != SERVICE && NameFor(kind, a) == NameFor(kind, b) {
      assert a == NameFor(kind, a)[..|NameFor(kind, a)| - |DEPLOYMENT_SUFFIX|];
      assert b == NameFor(kind, b)[..|NameFor(kind, b)| - |DEPLOYMENT_SUFFIX|];
    }
  }

  lemma WorkloadName(files: Files, spec: Spec, s: Step, r: Resource)
    requires s.serviceName != "" && r in StepIds(files, spec, s) && Workload(r)
    ensures r.name == NameFor(r.kind, s.serviceName)
  {
    var o :| o in StepObjects(files, spec, s) && o.id == r;
    var k :| 0 <= k < |StepObjects(files, spec, s)| && StepObjects(files, spec, s)[k] == o;
    assert o == Rendered(spec.namespace, s, files[s.name][k]);
  }

  /** Services and Deployments of different steps, and of the router, never share a key. */
  lemma WorkloadsNeverCollide(files: Files, spec: Spec, p: Position, q: Position, a: Resource, b: Resource)
    requires DistinctServices(spec.nodes, Positions(spec.nodes)) && OwnNames(spec)
    requires p in InternalPositions(spec) && a in StepIds(files, spec, StepAt(spec.nodes, p)) && Workload(a)
    requires || (q in InternalPositions(spec) && q != p && b in StepIds(files, spec, StepAt(spec.nodes, q)) && Workload(b))
             || b in Ids(RouterObjects(spec))
    requires ColonFree(a) && ColonFree(b)
    ensures KeyOf(a) != KeyOf(b)
  {
    var s := StepAt(spec.nodes, p);
    WorkloadName(files, spec, s, a);
    KeyInjective(a, b);
    if b in Ids(RouterObjects(spec)) {
      assert b.name == NameFor(b.kind, RouterName(spec));
      NameForInjective(a.kind, s.serviceName, RouterName(spec));
    } else {
      var t := StepAt(spec.nodes, q);
      WorkloadName(files, spec, t, b);
      NameForInjective(a.kind, s.serviceName, t.serviceName);
      assert p in Named(spec.nodes, Positions(spec.nodes)) && q in Named(spec.nodes, Positions(spec.nodes));
    }
  }

  // ----- counting -----

  lemma {:induction false} InjectiveMapSize<K, V>(m: map<K, V>)
    requires forall a, b :: a in m && b in m && m[a] == m[b] ==> a == b
    ensures |m.Values| == |m|
    decreases |m|
  {
    if m != map[] {
      var k :| k in m;
      var rest := m - {k};
      assert m.Keys == rest.Keys + {k};
      assert |rest| == |m| - 1;
      InjectiveMapSize(rest);
      forall v
        ensures v in m.Values <==> v in rest.Values + {m[k]}
      {
        if v in rest.Values {
          var q :| q in rest && rest[q] == v;
          assert q in m && m[q] == v;
        }
      }
      assert m.Values == rest.Values + {m[k]};
    }
  }

  function Deployments(rs: set<Resource>): set<Resource> {
    set r | r in rs && r.kind == DEPLOYMENT
  }

  /** As many Deployment keys as Deployments. */
  lemma DeploymentKeyCount(a: Annotations, rs: set<Resource>)
    requires Records(a, rs)
    ensures |DeploymentKeys(a.Keys)| == |Deployments(rs)|
  {
    var m := map r | r in Deployments(rs) :: KeyOf(r);
    forall x, y | x in m && y in m && m[x] == m[y]
      ensures x == y
    {
      assert ColonFree(x) && ColonFree(y);
      KeyInjective(x, y);
    }
    InjectiveMapSize(m);
    assert m.Keys == Deployments(rs);
    forall k
      ensures k in m.Values <==> k in DeploymentKeys(a.Keys)
    {
      KeyOfDeployment(a, rs, k);
      if k in m.Values {
        var r :| r in m && m[r] == k;
      }
    }
    assert m.Values == DeploymentKeys(a.Keys);
  }

  lemma KeyOfDeployment(a: Annotations, rs: set<Resource>, k: string)
    requires Records(a, rs)
    ensures k in DeploymentKeys(a.Keys) <==> exists r :: r in Deployments(rs) && KeyOf(r) == k
  {
    if k in a.Keys {
      assert IsKey(k);
      var r := ParseKey(k).value;
      assert KeyOf(r) == k;
      KeyRoundTrip(r);
    }
    if exists r :: r in Deployments(rs) && KeyOf(r) == k {
      var r :| r in Deployments(rs) && KeyOf(r) == k;
      assert ColonFree(r);
      KeyRoundTrip(r);
    }
  }

  ghost function DeploymentOf(files: Files, spec: Spec, s: Step): Resource
    requires s.name in files && exists k: nat :: Only(files[s.name], DEPLOYMENT, k)
  {
    var k: nat :| Only(files[s.name], DEPLOYMENT, k);
    StepObjects(files, spec, s)[k].id
  }

  /** The one Deployment among the objects of a step. */
  lemma DeploymentOfStep(files: Files, spec: Spec, s: Step)
    requires Internal(s) && s.name in files && exists k: nat :: Only(files[s.name], DEPLOYMENT, k)
    ensures Deployments(StepIds(files, spec, s)) == {DeploymentOf(files, spec, s)}
  {
    var d := DeploymentOf(files, spec, s);
    var objs := StepObjects(files, spec, s);
    var k: nat :| Only(files[s.name], DEPLOYMENT, k) && objs[k].id == d;
    assert objs[k] in objs;
    forall r | r in Deployments(StepIds(files, spec, s))
      ensures r == d
    {
      var o :| o in objs && o.id == r;
      var j :| 0 <= j < |objs| && objs[j] == o;
      assert files[s.name][j].id.kind == DEPLOYMENT;
    }
  }

  lemma {:induction false} InNodeIds(files: Files, spec: Spec, n: string, i: nat, r: Resource)
    requires n in spec.nodes && i <= |spec.nodes[n].steps|
    ensures r in NodeIds(files, spec, n, i) <==>
            exists k :: 0 <= k < i && r in StepIds(files, spec, spec.nodes[n].steps[k])
  {
    if i > 0 {
      InNodeIds(files, spec, n, i - 1, r);
    }
  }

  /** A wanted resource belongs to the router or to some deployed step. */
  lemma WantedFrom(files: Files, spec: Spec, r: Resource)
    ensures r in Wanted(files, spec) <==>
      || r in Ids(RouterObjects(spec))
      || exists p :: p in InternalPositions(spec) && r in StepIds(files, spec, StepAt(spec.nodes, p))
  {
    if r in NodesIds(files, spec, spec.nodes.Keys) {
      var n :| n in spec.nodes && r in NodeIds(files, spec, n, |spec.nodes[n].steps|);
      InNodeIds(files, spec, n, |spec.nodes[n].steps|, r);
      var i :| 0 <= i < |spec.nodes[n].steps| && r in StepIds(files, spec, spec.nodes[n].steps[i]);
      var p := Position(n, i);
      assert p in InternalPositions(spec) && r in StepIds(files, spec, StepAt(spec.nodes, p));
    }
    if p :| p in InternalPositions(spec) && r in StepIds(files, spec, StepAt(spec.nodes, p)) {
      InNodeIds(files, spec, p.node, |spec.nodes[p.node].steps|, r);
    }
  }

  lemma RouterDeployment(spec: Spec)
    ensures Deployments(Ids(RouterObjects(spec))) == {RouterObjects(spec)[0].id}
  {
    assert RouterObjects(spec)[0] in RouterObjects(spec);
  }

  ghost function DeploymentMap(files: Files, spec: Spec): map<Position, Resource>
    requires OneDeploymentEach(files, spec)
  {
    map p | p in InternalPositions(spec) :: DeploymentOf(files, spec, StepAt(spec.nodes, p))
  }

  lemma DeploymentMapInjective(files: Files, spec: Spec, p: Position, q: Position)
    requires OneDeploymentEach(files, spec) && DistinctServices(spec.nodes, Positions(spec.nodes)) && OwnNames(spec)
    requires p in InternalPositions(spec) && q in InternalPositions(spec)
    requires DeploymentMap(files, spec)[p] == DeploymentMap(files, spec)[q]
    ensures p == q
  {
    var s, t := StepAt(spec.nodes, p), StepAt(spec.nodes, q);
    DeploymentOfStep(files, spec, s);
    DeploymentOfStep(files, spec, t);
    var d := DeploymentMap(files, spec)[p];
    assert d in Deployments(StepIds(files, spec, s)) && d in Deployments(StepIds(files, spec, t));
    WorkloadName(files, spec, s, d);
    WorkloadName(files, spec, t, d);
    NameForInjective(DEPLOYMENT, s.serviceName, t.serviceName);
    assert p in Named(spec.nodes, Positions(spec.nodes)) && q in Named(spec.nodes, Positions(spec.nodes));
  }

  /** A deployed step's Deployment is wanted, and is a value of the map. */
  lemma StepDeploymentWanted(files: Files, spec: Spec, p: Position, r: Resource)
    requires OneDeploymentEach(files, spec) && p in InternalPositions(spec)
    ensures r == DeploymentMap(files, spec)[p] <==> r.kind == DEPLOYMENT && r in StepIds(files, spec, StepAt(spec.nodes, p))
  {
    var s := StepAt(spec.nodes, p);
    DeploymentOfStep(files, spec, s);
    assert r in Deployments(StepIds(files, spec, s)) <==> r in StepIds(files, spec, s) && r.kind == DEPLOYMENT;
  }

  lemma WantedDeployment(files: Files, spec: Spec, r: Resource)
    requires OneDeploymentEach(files, spec)
    ensures r in Deployments(Wanted(files, spec)) <==>
            r in DeploymentMap(files, spec).Values || r == RouterObjects(spec)[0].id
  {
    var m := DeploymentMap(files, spec);
    RouterDeployment(spec);
    WantedFrom(files, spec, r);
    assert r in Deployments(Ids(RouterObjects(spec))) <==> r in Ids(RouterObjects(spec)) && r.kind == DEPLOYMENT;
    if r in m.Values {
      var p :| p in m && m[p] == r;
      StepDeploymentWanted(files, spec, p, r);
    } else if r.kind == DEPLOYMENT {
      forall p | p in InternalPositions(spec)
        ensures r !in StepIds(files, spec, StepAt(spec.nodes, p))
      {
        assert p in m;
        StepDeploymentWanted(files, spec, p, r);
      }
    }
  }

  lemma RouterApart(files: Files, spec: Spec)
    requires OneDeploymentEach(files, spec) && OwnNames(spec)
    ensures RouterObjects(spec)[0].id !in DeploymentMap(files, spec).Values
  {
    var m, router := DeploymentMap(files, spec), RouterObjects(spec)[0].id;
    if router in m.Values {
      var p :| p in m && m[p] == router;
      var s := StepAt(spec.nodes, p);
      StepDeploymentWanted(files, spec, p, router);
      WorkloadName(files, spec, s, router);
      NameForInjective(DEPLOYMENT, s.serviceName, RouterName(spec));
      assert false;
    }
  }

  lemma DeploymentMapSize(files: Files, spec: Spec)
    requires DistinctServices(spec.nodes, Positions(spec.nodes)) && OwnNames(spec) && OneDeploymentEach(files, spec)
    ensures |DeploymentMap(files, spec).Values| == |InternalPositions(spec)|
  {
    var m := DeploymentMap(files, spec);
    forall p, q | p in m && q in m && m[p] == m[q]
      ensures p == q
    {
      DeploymentMapInjective(files, spec, p, q);
    }
    InjectiveMapSize(m);
    assert m.Keys == InternalPositions(spec);
  }

  lemma WantedDeployments(files: Files, spec: Spec)
    requires OneDeploymentEach(files, spec)
    ensures Deployments(Wanted(files, spec)) == DeploymentMap(files, spec).Values + {RouterObjects(spec)[0].id}
  {
    forall r
      ensures r in Deployments(Wanted(files, spec)) <==> r in DeploymentMap(files, spec).Values + {RouterObjects(spec)[0].id}
    {
      WantedDeployment(files, spec, r);
    }
  }

  /** The total in the status string of a successful pass: one per deployed step, and the router. */
  lemma TotalCountsSteps(files: Files, spec: Spec, a: Annotations)
    requires DistinctServices(spec.nodes, Positions(spec.nodes)) && OwnNames(spec) && OneDeploymentEach(files, spec)
    requires Records(a, Wanted(files, spec))
    ensures |DeploymentKeys(a.Keys)| == |InternalPositions(spec)| + 1
  {
    DeploymentMapSize(files, spec);
    DeploymentKeyCount(a, Wanted(files, spec));
    WantedDeployments(files, spec);
    RouterApart(files, spec);
  }

  /** The steps that are served from outside. */
  function ExternalPositions(nodes: map<string, Router>, ns: set<string>): set<Position> {
    set p | p in Positions(nodes) && p.node in ns && StepAt(nodes, p).nodeName == "" && StepAt(nodes, p).externalService != ""
  }

  predicate ServedOutside(s: Step) {
    s.nodeName == "" && s.externalService != ""
  }

  function ExternalUpTo(steps: seq<Step>, n: string): (r: set<Position>)
    ensures forall p :: p in r ==> p.node == n && p.idx < |steps|
  {
    if steps == [] then {}
    else ExternalUpTo(steps[..|steps| - 1], n) + if ServedOutside(steps[|steps| - 1]) then {Position(n, |steps| - 1)} else {}
  }

  lemma {:induction false} ExternalInNode(steps: seq<Step>, n: string)
    ensures ExternalIn(steps) == |ExternalUpTo(steps, n)|
  {
    if steps != [] {
      ExternalInNode(steps[..|steps| - 1], n);
      assert Position(n, |steps| - 1) !in ExternalUpTo(steps[..|steps| - 1], n);
    }
  }

  lemma {:induction false} InExternalUpTo(steps: seq<Step>, n: string, i: nat)
    requires i < |steps|
    ensures Position(n, i) in ExternalUpTo(steps, n) <==> ServedOutside(steps[i])
  {
    if i < |steps| - 1 {
      InExternalUpTo(steps[..|steps| - 1], n, i);
    } else {
      assert Position(n, i) !in ExternalUpTo(steps[..|steps| - 1], n);
    }
  }

  lemma OneNodeMoreExternal(nodes: map<string, Router>, ns: set<string>, n: string)
    requires ns <= nodes.Keys && n in ns
    ensures ExternalPositions(nodes, ns) == ExternalPositions(nodes, ns - {n}) + ExternalUpTo(nodes[n].steps, n)
    ensures ExternalPositions(nodes, ns - {n}) !! ExternalUpTo(nodes[n].steps, n)
  {
    forall p
      ensures p in ExternalPositions(nodes, ns) <==> p in ExternalPositions(nodes, ns - {n}) || p in ExternalUpTo(nodes[n].steps, n)
    {
      if p.node == n && p.idx < |nodes[n].steps| {
        InExternalUpTo(nodes[n].steps, n, p.idx);
        assert p == Position(n, p.idx) && p in Positions(nodes);
      }
    }
  }

  /** The external count of the status string: one per step that is served from outside. */
  lemma {:induction false} ExternalCountsSteps(nodes: map<string, Router>, ns: set<string>)
    requires ns <= nodes.Keys
    ensures SumExternal(nodes, ns) == |ExternalPositions(nodes, ns)|
    decreases ns
  {
    if ns == {} {
      assert ExternalPositions(nodes, ns) == {};
    } else {
      var n :| n in ns;
      SumExternalWithout(nodes, ns, n);
      ExternalCountsSteps(nodes, ns - {n});
      ExternalInNode(nodes[n].steps, n);
      OneNodeMoreExternal(nodes, ns, n);
    }
  }

  // ----- what the webhook admits and the controller can render -----

  /** The names the controller has manifest files for. */
  const MANIFEST_NAMES := {
    "TeiEmbedding", "TeiEmbeddingGaudi", "Embedding", "VectorDB", "Retriever", "Reranking", "TeiReranking",
    "Tgi", "TgiGaudi", "TgiNvidia", "Llm", "DocSum", "router", "WebRetriever", "Asr", "Tts", "SpeechT5",
    "SpeechT5Gaudi", "Whisper", "WhisperGaudi", "DataPrep", "UI"}

  /** The two lists differ in one name only. */
  lemma AllowedNames(name: string)
    ensures name in STEP_NAMES <==> name == "Router" || (name in MANIFEST_NAMES && name != "router")
  {
    assert "Router"[0] != "router"[0];
    assert STEP_NAMES[12] == "Router";
  }

  lemma AllowedHasManifest(name: string)
    requires name in STEP_NAMES
    ensures name in MANIFEST_NAMES <==> name != "Router"
  {
    AllowedNames(name);
  }

  /** The step that this configuration value names is there, and its manifest has a Service with a port. */
  ghost predicate Serves(files: Files, node: seq<Step>, name: string) {
    exists k: nat :: IsFirstDownstream(node, name, k) && node[k].name in files && OffersPort(files[node[k].name])
  }

  predicate OffersPort(os: seq<Object>) {
    exists k :: 0 <= k < |os| && ServesPort(os[k])
  }

  predicate ServesPort(o: Object) {
    o.id.kind == "Service" &&
    ( || (o.service.ClusterIP? && |o.service.ports| > 0)
      || (o.service.NodePort? && |o.service.nodePorts| > 0)
      || (o.service.LoadBalancer? && |o.service.ports| > 0))
  }

  predicate NamesDownstream(key: string) {
    || key == "TEI_EMBEDDING_ENDPOINT" || key == "TEI_RERANKING_ENDPOINT" || key == "TGI_LLM_ENDPOINT" || key == "REDIS_URL"
    || key == "ASR_ENDPOINT" || key == "TTS_ENDPOINT" || key == "TEI_ENDPOINT"
  }

  /** Where a Deployment's environment is to hold the URL of a downstream service, that service is there. */
  ghost predicate EnvironmentKnown(files: Files, spec: Spec, p: Position)
    requires p in Positions(spec.nodes)
  {
    var s := StepAt(spec.nodes, p);
    s.name in files && (exists k :: 0 <= k < |files[s.name]| && files[s.name][k].id.kind == "Deployment") ==>
      forall key :: key in s.config && NamesDownstream(key) ==> Serves(files, spec.nodes[p.node].steps, s.config[key])
  }

  lemma ResolvesMeans(files: Files, node: seq<Step>, name: string)
    ensures Resolves(files, node, name) <==> Serves(files, node, name)
  {
    var ds := FindDownstream(node, name);
    if k: nat :| IsFirstDownstream(node, name, k) {
      assert ds == Some(node[k]);
      if node[k].name in files {
        PortsMean(files[node[k].name]);
      }
    }
  }

  lemma PortsMean(os: seq<Object>)
    ensures OffersPort(os) <==> exists k :: 0 <= k < |os| && HasPort(os[k])
  {
    forall k | 0 <= k < |os|
      ensures HasPort(os[k]) <==> ServesPort(os[k])
    {
    }
  }

  lemma InternalAt(spec: Spec, n: string, i: nat)
    requires n in spec.nodes && i < |spec.nodes[n].steps| && Internal(spec.nodes[n].steps[i])
    ensures Position(n, i) in InternalPositions(spec)
  {
  }

  lemma AdmittedStep(files: Files, spec: Spec, p: Position)
    requires files.Keys == MANIFEST_NAMES && NamesValid(spec.nodes) && p in InternalPositions(spec)
    ensures Renderable(files, spec.nodes[p.node].steps, StepAt(spec.nodes, p)) <==>
            StepAt(spec.nodes, p).name != "Router" && EnvironmentKnown(files, spec, p)
  {
    var s := StepAt(spec.nodes, p);
    AllowedHasManifest(s.name);
    forall key | key in s.config
      ensures Resolves(files, spec.nodes[p.node].steps, s.config[key]) <==> Serves(files, spec.nodes[p.node].steps, s.config[key])
    {
      ResolvesMeans(files, spec.nodes[p.node].steps, s.config[key]);
    }
  }

  /**
    What the webhook admits is all there for the controller just if no deployed step is named "Router"
    (the webhook knows that name, the controller's dictionary has "router") and every downstream service
    that a Deployment's environment names is found. A pass on any other spec fails, since success implies
    Servable; on such a one it succeeds as soon as the API server grants everything.
   */
  lemma AdmittedIsServableExactly(files: Files, spec: Spec)
    requires files.Keys == MANIFEST_NAMES
    requires NamesValid(spec.nodes)
    ensures Servable(files, spec, spec.nodes.Keys) <==>
            forall p :: p in InternalPositions(spec) ==> StepAt(spec.nodes, p).name != "Router" && EnvironmentKnown(files, spec, p)
  {
    if Servable(files, spec, spec.nodes.Keys) {
      forall p | p in InternalPositions(spec)
        ensures StepAt(spec.nodes, p).name != "Router" && EnvironmentKnown(files, spec, p)
      {
        assert AllRenderable(files, spec.nodes[p.node].steps, spec.nodes[p.node].steps);
        AdmittedStep(files, spec, p);
      }
    }
    if forall p :: p in InternalPositions(spec) ==> StepAt(spec.nodes, p).name != "Router" && EnvironmentKnown(files, spec, p) {
      forall n, i | n in spec.nodes && 0 <= i < |spec.nodes[n].steps| && Internal(spec.nodes[n].steps[i])
        ensures Renderable(files, spec.nodes[n].steps, spec.nodes[n].steps[i])
      {
        InternalAt(spec, n, i);
        AdmittedStep(files, spec, Position(n, i));
      }
    }
  }
}
