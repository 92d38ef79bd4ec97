/**
  The GMConnector controller: one reconcile pass over a cluster and a custom resource. What the API
  server answers is an input: any apply may fail, any delete may fail, the final status update may fail.
 */
module Controller {
  import opened Graph
  import opened Manifests
  import opened ConnectorStatus

  /** The answers of the API server: to the n-th apply, to deletes, and to the status update. */
  datatype Script = Script(apply: (nat, Resource) -> bool, delete: Resource -> bool, persist: bool)

  /** Whenever it is applied, it is accepted. */
  ghost predicate Goes(script: Script, r: Resource) {
    ColonFree(r) && forall n: nat :: script.apply(n, r)
  }

  ghost predicate AllGo(script: Script, rs: set<Resource>) {
    forall r {:trigger Goes(script, r)} :: r in rs ==> Goes(script, r)
  }

  /** The persisted world: the resources this GMConnector owns, and the GMConnector itself. */
  class ApiServer {
    var cluster: set<Resource>
    var spec: Spec
    var annotations: Annotations
    var status: string
    var accessUrl: string
    var script: Script
    var attempts: nat

    constructor (s: Spec, answers: Script)
      ensures cluster == {} && spec == s && annotations == map[] && status == "" && accessUrl == "" && script == answers
    {
      cluster, spec, annotations, status, accessUrl := {}, s, map[], "", "";
      script, attempts := answers, 0;
    }

    /** Create or update. Names with a colon are none that the API server accepts. */
    method Apply(r: Resource) returns (ok: bool)
      modifies `cluster, `attempts
      ensures ok <==> ColonFree(r) && script.apply(old(attempts), r)
      ensures cluster == if ok then old(cluster) + {r} else old(cluster)
      ensures attempts == old(attempts) + 1
      ensures Goes(script, r) ==> ok
    {
      ok := ColonFree(r) && script.apply(attempts, r);
      attempts := attempts + 1;
      if ok {
        cluster := cluster + {r};
      }
    }

    /** Deletes what a key names, which may be absent already; a failure is logged and forgotten. */
    method DeleteRecordedResource(key: string) returns (gone: bool)
      requires IsKey(key)
      modifies `cluster
      ensures gone <==> script.delete(ParseKey(key).value) || ParseKey(key).value !in old(cluster)
      ensures cluster == if gone then old(cluster) - {ParseKey(key).value} else old(cluster)
    {
      var r := ParseKey(key).value;
      gone := script.delete(r) || r !in cluster;
      if gone {
        cluster := cluster - {r};
      }
    }
  }

  // ----- recording -----

  /** The annotations hold exactly the keys of these resources. */
  ghost predicate Records(a: Annotations, rs: set<Resource>) {
    && (forall r {:trigger KeyOf(r)} :: r in rs ==> ColonFree(r) && KeyOf(r) in a)
    && (forall k {:trigger IsKey(k)} :: k in a ==> IsKey(k) && ParseKey(k).value in rs)
  }

  /** The keys are keys, and read back as the resources. */
  lemma RecordsAreWellKeyed(a: Annotations, rs: set<Resource>)
    requires Records(a, rs)
    ensures WellKeyed(a.Keys) && Recorded(a.Keys) == rs
  {
    forall r
      ensures r in Recorded(a.Keys) <==> r in rs
    {
      if r in rs {
        assert KeyOf(r) in a;
        RecordedExactly(a.Keys, r);
      }
    }
  }

  lemma RecordOne(a: Annotations, rs: set<Resource>, r: Resource, value: string)
    requires Records(a, rs) && ColonFree(r)
    ensures Records(a[KeyOf(r) := value], rs + {r})
  {
    KeyRoundTrip(r);
    assert IsKey(KeyOf(r));
    forall q | q in rs + {r}
      ensures ColonFree(q) && KeyOf(q) in a[KeyOf(r) := value]
    {
      assert q in rs ==> KeyOf(q) in a;
    }
  }

  /** Records one object of a step; a Service also gives the step its URL. */
  method RecordResource(a: Annotations, s: Step, o: Object) returns (annotations: Annotations, s': Step)
    ensures o.id.kind == SERVICE ==>
      var url := GetServiceUrl(o) + Endpoint(s);
      annotations == a[KeyOf(o.id) := url] && s' == s.(serviceUrl := url)
    ensures o.id.kind != SERVICE ==> annotations == a[KeyOf(o.id) := "provisioned"] && s' == s
  {
    annotations, s' := a[KeyOf(o.id) := "provisioned"], s;
    if o.id.kind == SERVICE {
      var url := GetServiceUrl(o) + Endpoint(s);
      s' := s.(serviceUrl := url);
      annotations := annotations[KeyOf(o.id) := url];
    }
  }

  // ----- one step -----

  lemma IdsAppend(os: seq<Object>, i: nat)
    requires i < |os|
    ensures Ids(os[..i + 1]) == Ids(os[..i]) + {os[i].id}
  {
    assert os[..i + 1] == os[..i] + [os[i]];
  }

  /** The object is accepted at this attempt, and what its environment refers to is found. */
  predicate Appliable(script: Script, attempt: nat, files: Files, node: seq<Step>, s: Step, o: Object) {
    (o.id.kind == DEPLOYMENT ==> EndpointsFound(files, node, s)) && ColonFree(o.id) && script.apply(attempt, o.id)
  }

  /** The first object that is not. */
  predicate StopsAt(script: Script, attempts: nat, files: Files, node: seq<Step>, s: Step, os: seq<Object>, i: nat) {
    && i < |os| && !Appliable(script, attempts + i, files, node, s, os[i])
    && forall j :: 0 <= j < i ==> Appliable(script, attempts + j, files, node, s, os[j])
  }

  /** Applies one object of a step; the environment of a Deployment has to be found first. */
  method ReconcileObject(api: ApiServer, files: Files, node: seq<Step>, s: Step, o: Object) returns (ok: bool)
    modifies api`cluster, api`attempts
    ensures api.cluster == if ok then old(api.cluster) + {o.id} else old(api.cluster)
    ensures ok <==> Appliable(api.script, old(api.attempts), files, node, s, o)
    ensures ok ==> api.attempts == old(api.attempts) + 1
  {
    ok := o.id.kind != DEPLOYMENT || EndpointsFound(files, node, s);
    if ok {
      ok := api.Apply(o.id);
    }
  }

  /** Applies the objects of a step one by one; stops at the first failure. */
  method ReconcileObjects(api: ApiServer, files: Files, node: seq<Step>, s: Step, os: seq<Object>) returns (ok: bool)
    modifies api`cluster, api`attempts
    ensures ok ==> AllAppliable(api.script, old(api.attempts), files, node, s, os) && api.cluster == old(api.cluster) + Ids(os)
    ensures !ok ==> exists i: nat :: StopsAt(api.script, old(api.attempts), files, node, s, os, i) &&
                                     api.cluster == old(api.cluster) + Ids(os[..i])
  {
    assert Ids(os[..0]) == {};
    for i := 0 to |os|
      invariant api.cluster == old(api.cluster) + Ids(os[..i])
      invariant api.attempts == old(api.attempts) + i
      invariant forall j :: 0 <= j < i ==> Appliable(api.script, old(api.attempts) + j, files, node, s, os[j])
    {
      IdsAppend(os, i);
      ok := ReconcileObject(api, files, node, s, os[i]);
      if !ok {
        assert StopsAt(api.script, old(api.attempts), files, node, s, os, i);
        return;
      }
    }
    assert os[..|os|] == os;
    return true;
  }

  predicate AllAppliable(script: Script, attempts: nat, files: Files, node: seq<Step>, s: Step, os: seq<Object>) {
    forall i :: 0 <= i < |os| ==> Appliable(script, attempts + i, files, node, s, os[i])
  }

  /** Rendering keeps the kinds. */
  lemma RenderedDeployment(files: Files, spec: Spec, s: Step)
    requires s.name in files
    ensures HasDeployment(StepObjects(files, spec, s)) <==> HasDeployment(files[s.name])
  {
    var os := StepObjects(files, spec, s);
    forall k | 0 <= k < |os|
      ensures os[k].id.kind == files[s.name][k].id.kind
    {
    }
  }

  lemma AppliedIsRenderable(script: Script, attempts: nat, files: Files, spec: Spec, node: seq<Step>, s: Step)
    requires s.name in files && AllAppliable(script, attempts, files, node, s, StepObjects(files, spec, s))
    ensures Renderable(files, node, s) && forall o :: o in StepObjects(files, spec, s) ==> ColonFree(o.id)
  {
    var os := StepObjects(files, spec, s);
    RenderedDeployment(files, spec, s);
    forall o | o in os
      ensures ColonFree(o.id)
    {
      var i :| 0 <= i < |os| && os[i] == o;
      assert Appliable(script, attempts + i, files, node, s, os[i]);
    }
    if k :| 0 <= k < |os| && os[k].id.kind == DEPLOYMENT {
      assert Appliable(script, attempts + k, files, node, s, os[k]);
    }
  }

  /** Nothing stops where all is found and accepted. */
  lemma GoingDoesNotStop(script: Script, attempts: nat, files: Files, spec: Spec, node: seq<Step>, s: Step, i: nat)
    requires s.name in files && StopsAt(script, attempts, files, node, s, StepObjects(files, spec, s), i)
    requires Internal(s)
    ensures !(Renderable(files, node, s) && AllGo(script, StepIds(files, spec, s)))
  {
    var os := StepObjects(files, spec, s);
    RenderedDeployment(files, spec, s);
    assert os[i] in os && os[i].id in StepIds(files, spec, s);
    assert os[i].id.kind == DEPLOYMENT ==> HasDeployment(os);
    assert Goes(script, os[i].id) ==> script.apply(attempts + i, os[i].id);
  }

  lemma PrefixIds(os: seq<Object>, i: nat)
    requires i <= |os|
    ensures Ids(os[..i]) <= Ids(os)
  {
  }

  /** Applies the objects of a step's manifest in order; stops at the first one that is refused or lacks an endpoint. */
  method ReconcileResource(api: ApiServer, files: Files, spec: Spec, node: seq<Step>, s: Step) returns (ok: bool, objs: seq<Object>)
    requires Internal(s)
    modifies api`cluster, api`attempts
    ensures old(api.cluster) <= api.cluster <= old(api.cluster) + StepIds(files, spec, s)
    ensures ok ==> Renderable(files, node, s) && objs == StepObjects(files, spec, s) && (forall o :: o in objs ==> ColonFree(o.id))
    ensures ok ==> api.cluster == old(api.cluster) + Ids(objs)
    ensures Renderable(files, node, s) && AllGo(api.script, StepIds(files, spec, s)) ==> ok
    ensures s.name !in files ==> !ok && api.cluster == old(api.cluster)
    ensures s.name in files && ok ==> AllAppliable(api.script, old(api.attempts), files, node, s, StepObjects(files, spec, s))
    ensures s.name in files && !ok ==>
      exists i: nat :: StopsAt(api.script, old(api.attempts), files, node, s, StepObjects(files, spec, s), i) &&
                       api.cluster == old(api.cluster) + Ids(StepObjects(files, spec, s)[..i])
  {
    objs := [];
    if s.name !in files {
      return false, objs;
    }
    var resources := StepObjects(files, spec, s);
    ok := ReconcileObjects(api, files, node, s, resources);
    if ok {
      AppliedIsRenderable(api.script, old(api.attempts), files, spec, node, s);
      return ok, resources;
    }
    ghost var i: nat :| StopsAt(api.script, old(api.attempts), files, node, s, resources, i) &&
                        api.cluster == old(api.cluster) + Ids(resources[..i]);
    GoingDoesNotStop(api.script, old(api.attempts), files, spec, node, s, i);
    PrefixIds(resources, i);
  }

  /** Records the objects of a step in order. */
  method RecordStep(a: Annotations, ghost rs: set<Resource>, s: Step, objs: seq<Object>) returns (annotations: Annotations, s': Step)
    requires Records(a, rs) && forall o :: o in objs ==> ColonFree(o.id)
    ensures Records(annotations, rs + Ids(objs))
    ensures s' == s.(serviceUrl := UrlAfter(s, objs))
  {
    annotations, s' := a, s;
    assert rs + Ids(objs[..0]) == rs;
    for i := 0 to |objs|
      invariant Records(annotations, rs + Ids(objs[..i]))
      invariant s' == s.(serviceUrl := UrlAfter(s, objs[..i]))
    {
      IdsAppend(objs, i);
      assert rs + Ids(objs[..i + 1]) == rs + Ids(objs[..i]) + {objs[i].id};
      assert objs[..i + 1][..i] == objs[..i];
      var url := GetServiceUrl(objs[i]) + Endpoint(s);
      RecordOne(annotations, rs + Ids(objs[..i]), objs[i].id, if objs[i].id.kind == SERVICE then url else "provisioned");
      annotations, s' := RecordResource(annotations, s', objs[i]);
    }
    assert objs[..|objs|] == objs;
  }

  method ReconcileStep(api: ApiServer, files: Files, spec: Spec, node: seq<Step>, a: Annotations, ghost rs: set<Resource>, s: Step)
    returns (ok: bool, annotations: Annotations, s': Step, external: nat)
    requires Records(a, rs)
    modifies api`cluster, api`attempts
    ensures old(api.cluster) <= api.cluster <= old(api.cluster) + StepIds(files, spec, s)
    ensures ok ==> Records(annotations, rs + StepIds(files, spec, s))
    ensures ok ==> api.cluster == old(api.cluster) + StepIds(files, spec, s) && s' == HandedStep(files, spec, s)
    ensures ok ==> external == if s.Leaf() && s.externalService != "" then 1 else 0
    ensures ok && Internal(s) ==> Renderable(files, node, s)
    ensures (Internal(s) ==> Renderable(files, node, s)) && AllGo(api.script, StepIds(files, spec, s)) ==> ok
  {
    ok, annotations, s', external := true, a, s, 0;
    if s.nodeName != "" {
      assert rs + StepIds(files, spec, s) == rs;
      return;
    }
    if s.externalService == "" {
      var objs;
      ok, objs := ReconcileResource(api, files, spec, node, s);
      if ok {
        annotations, s' := RecordStep(a, rs, s, objs);
      }
    } else {
      assert rs + StepIds(files, spec, s) == rs;
      s', external := s.(serviceUrl := s.externalService), 1;
    }
  }

  // ----- one node -----

  method ReconcileNode(api: ApiServer, files: Files, spec: Spec, a: Annotations, ghost rs: set<Resource>, n: string)
    returns (ok: bool, annotations: Annotations, steps': seq<Step>, external: nat)
    requires n in spec.nodes && Records(a, rs)
    modifies api`cluster, api`attempts
    ensures old(api.cluster) <= api.cluster <= old(api.cluster) + NodeIds(files, spec, n, |spec.nodes[n].steps|)
    ensures ok ==> api.cluster == old(api.cluster) + NodeIds(files, spec, n, |spec.nodes[n].steps|)
    ensures !ok ==> exists i :: 0 <= i < |spec.nodes[n].steps| && Between(api.cluster, old(api.cluster), files, spec, n, i)
    ensures ok ==> NodeBuilt(files, spec, n, |spec.nodes[n].steps|, rs, annotations, steps', external)
    ensures NodeGoes(api.script, files, spec, n) ==> ok
  {
    var steps := spec.nodes[n].steps;
    ok, annotations, steps', external := true, a, [], 0;
    NothingBuilt(files, spec, n, rs, a);
    for i := 0 to |steps|
      invariant ok
      invariant api.cluster == old(api.cluster) + NodeIds(files, spec, n, i)
      invariant NodeBuilt(files, spec, n, i, rs, annotations, steps', external)
    {
      NodeIdsGrow(files, spec, n, i);
      ok, annotations, steps', external := AddStep(api, files, spec, n, i, rs, annotations, steps', external);
      if !ok {
        StepOfNodeGoes(api.script, files, spec, n, i);
        assert Between(api.cluster, old(api.cluster), files, spec, n, i);
        return;
      }
    }
  }

  lemma NothingBuilt(files: Files, spec: Spec, n: string, rs: set<Resource>, a: Annotations)
    requires n in spec.nodes && Records(a, rs)
    ensures NodeBuilt(files, spec, n, 0, rs, a, [], 0)
  {
    assert rs + NodeIds(files, spec, n, 0) == rs;
  }

  lemma AllBuilt(files: Files, spec: Spec, n: string, rs: set<Resource>, a: Annotations, steps': seq<Step>, external: nat)
    requires n in spec.nodes && NodeBuilt(files, spec, n, |spec.nodes[n].steps|, rs, a, steps', external)
    ensures Records(a, rs + NodeIds(files, spec, n, |spec.nodes[n].steps|))
    ensures Handled(files, spec, spec.nodes[n].steps, spec.nodes[n].steps, steps', external)
  {
    assert spec.nodes[n].steps[..|spec.nodes[n].steps|] == spec.nodes[n].steps;
  }

  /** Nothing stands in the way of this step: it can be rendered, and its objects are accepted. */
  ghost predicate StepGoes(script: Script, files: Files, spec: Spec, n: string, i: nat)
    requires n in spec.nodes && i < |spec.nodes[n].steps|
  {
    var s := spec.nodes[n].steps[i];
    (Internal(s) ==> Renderable(files, spec.nodes[n].steps, s)) && AllGo(script, StepIds(files, spec, s))
  }

  ghost predicate NodeGoes(script: Script, files: Files, spec: Spec, n: string)
    requires n in spec.nodes
  {
    var steps := spec.nodes[n].steps;
    AllRenderable(files, steps, steps) && AllGo(script, NodeIds(files, spec, n, |steps|))
  }

  lemma StepOfNodeGoes(script: Script, files: Files, spec: Spec, n: string, i: nat)
    requires n in spec.nodes && i < |spec.nodes[n].steps|
    ensures NodeGoes(script, files, spec, n) ==> StepGoes(script, files, spec, n, i)
  {
    NodeIdsGrow(files, spec, n, i);
  }

  lemma NodeOfSpecGoes(script: Script, files: Files, spec: Spec, n: string)
    requires n in spec.nodes
    ensures Servable(files, spec, spec.nodes.Keys) && AllGo(script, NodesIds(files, spec, spec.nodes.Keys)) ==>
      NodeGoes(script, files, spec, n)
  {
    NodesMonotone(files, spec, {}, n);
  }

  /** All of the first i steps of the node is there, and nothing of those after the next. */
  ghost predicate Between(cluster: set<Resource>, before: set<Resource>, files: Files, spec: Spec, n: string, i: nat)
    requires n in spec.nodes && i < |spec.nodes[n].steps|
  {
    before + NodeIds(files, spec, n, i) <= cluster <= before + NodeIds(files, spec, n, i + 1)
  }

  ghost predicate NodeBuilt(files: Files, spec: Spec, n: string, i: nat, rs: set<Resource>, a: Annotations, steps': seq<Step>, external: nat)
    requires n in spec.nodes && i <= |spec.nodes[n].steps|
  {
    Records(a, rs + NodeIds(files, spec, n, i)) && Handled(files, spec, spec.nodes[n].steps, spec.nodes[n].steps[..i], steps', external)
  }

  /** The body of that loop. */
  method AddStep(api: ApiServer, files: Files, spec: Spec, n: string, i: nat, ghost rs: set<Resource>,
                 a: Annotations, before: seq<Step>, count: nat)
    returns (ok: bool, annotations: Annotations, steps': seq<Step>, external: nat)
    requires n in spec.nodes && i < |spec.nodes[n].steps|
    requires NodeBuilt(files, spec, n, i, rs, a, before, count)
    modifies api`cluster, api`attempts
    ensures old(api.cluster) <= api.cluster <= old(api.cluster) + StepIds(files, spec, spec.nodes[n].steps[i])
    ensures ok ==> api.cluster == old(api.cluster) + StepIds(files, spec, spec.nodes[n].steps[i])
    ensures ok ==> NodeBuilt(files, spec, n, i + 1, rs, annotations, steps', external)
    ensures StepGoes(api.script, files, spec, n, i) ==> ok
  {
    var steps := spec.nodes[n].steps;
    steps', external := before, count;
    var s', e;
    ok, annotations, s', e := ReconcileStep(api, files, spec, steps, a, rs + NodeIds(files, spec, n, i), steps[i]);
    if ok {
      assert rs + NodeIds(files, spec, n, i + 1) == rs + NodeIds(files, spec, n, i) + StepIds(files, spec, steps[i]);
      HandleOne(files, spec, steps, i, steps', external);
      steps' := steps' + [s'];
      external := external + e;
    }
  }

  /** What the loop over the steps has put together, apart from the annotations. */
  ghost predicate Handled(files: Files, spec: Spec, node: seq<Step>, steps: seq<Step>, steps': seq<Step>, external: nat) {
    steps' == HandedSteps(files, spec, steps) && external == ExternalIn(steps) && AllRenderable(files, node, steps)
  }

  lemma HandleOne(files: Files, spec: Spec, steps: seq<Step>, i: nat, steps': seq<Step>, external: nat)
    requires i < |steps| && Handled(files, spec, steps, steps[..i], steps', external)
    requires Internal(steps[i]) ==> Renderable(files, steps, steps[i])
    ensures
      Handled(files, spec, steps, steps[..i + 1], steps' + [HandedStep(files, spec, steps[i])],
              external + if steps[i].Leaf() && steps[i].externalService != "" then 1 else 0)
  {
    assert steps[..i + 1][..i] == steps[..i];
  }

  lemma {:induction false} NodeIdsGrow(files: Files, spec: Spec, n: string, i: nat)
    requires n in spec.nodes && i < |spec.nodes[n].steps|
    ensures NodeIds(files, spec, n, i) + StepIds(files, spec, spec.nodes[n].steps[i]) <=
            NodeIds(files, spec, n, |spec.nodes[n].steps|)
    decreases |spec.nodes[n].steps| - i
  {
    if i + 1 < |spec.nodes[n].steps| {
      NodeIdsGrow(files, spec, n, i + 1);
    }
  }

  // ----- all nodes -----

  ghost function SumExternal(nodes: map<string, Router>, ns: set<string>): nat
    requires ns <= nodes.Keys
  {
    if ns == {} then 0
    else
      var n :| n in ns;
      ExternalIn(nodes[n].steps) + SumExternal(nodes, ns - {n})
  }

  /** Whichever node is taken out, the rest adds up. */
  lemma {:induction false} SumExternalWithout(nodes: map<string, Router>, ns: set<string>, n: string)
    requires ns <= nodes.Keys && n in ns
    ensures SumExternal(nodes, ns) == ExternalIn(nodes[n].steps) + SumExternal(nodes, ns - {n})
    decreases ns
  {
    var m :| m in ns && SumExternal(nodes, ns) == ExternalIn(nodes[m].steps) + SumExternal(nodes, ns - {m});
    if m != n {
      SumExternalWithout(nodes, ns - {m}, n);
      SumExternalWithout(nodes, ns - {n}, m);
      assert ns - {m} - {n} == ns - {n} - {m};
    }
  }

  /** The graph in memory when the given nodes were seen to. */
  function PartlyHanded(files: Files, spec: Spec, done: set<string>): map<string, Router> {
    map n | n in spec.nodes ::
      if n in done then spec.nodes[n].(steps := HandedSteps(files, spec, spec.nodes[n].steps)) else spec.nodes[n]
  }

  /** Everything the steps of these nodes refer to is there. */
  predicate Servable(files: Files, spec: Spec, done: set<string>) {
    forall n :: n in done && n in spec.nodes ==> AllRenderable(files, spec.nodes[n].steps, spec.nodes[n].steps)
  }

  method ReconcileNodes(api: ApiServer, files: Files, spec: Spec)
    returns (ok: bool, annotations: Annotations, nodes: map<string, Router>, external: nat)
    modifies api`cluster, api`attempts
    ensures old(api.cluster) <= api.cluster <= old(api.cluster) + NodesIds(files, spec, spec.nodes.Keys)
    ensures ok ==> api.cluster == old(api.cluster) + NodesIds(files, spec, spec.nodes.Keys)
    ensures ok ==> Built(files, spec, spec.nodes.Keys, annotations, nodes, external)
    ensures Servable(files, spec, spec.nodes.Keys) && AllGo(api.script, NodesIds(files, spec, spec.nodes.Keys)) ==> ok
  {
    ok, annotations, nodes, external := true, map[], spec.nodes, 0;
    var todo := spec.nodes.Keys;
    ghost var done: set<string> := {};
    NoNodeBuilt(files, spec);
    while todo != {}
      invariant ok && todo <= spec.nodes.Keys && done == spec.nodes.Keys - todo
      invariant api.cluster == old(api.cluster) + NodesIds(files, spec, done)
      invariant Built(files, spec, done, annotations, nodes, external)
    {
      var n :| n in todo;
      todo := todo - {n};
      ok, annotations, nodes, external := AddNode(api, files, spec, annotations, nodes, external, old(api.cluster), done, n);
      if !ok {
        NodeOfSpecGoes(api.script, files, spec, n);
        return;
      }
      done := done + {n};
    }
    assert done == spec.nodes.Keys;
  }

  lemma NoNodeBuilt(files: Files, spec: Spec)
    ensures NodesIds(files, spec, {}) == {} && Built(files, spec, {}, map[], spec.nodes, 0)
  {
  }

  /** What the loop over the nodes has put together. */
  ghost predicate Built(files: Files, spec: Spec, done: set<string>, a: Annotations, nodes: map<string, Router>, external: nat)
    requires done <= spec.nodes.Keys
  {
    Records(a, NodesIds(files, spec, done)) && NodesHandled(files, spec, done, nodes, external)
  }

  /** The body of that loop. */
  method AddNode(api: ApiServer, files: Files, spec: Spec, a: Annotations, graph: map<string, Router>, count: nat,
                 ghost base: set<Resource>, ghost done: set<string>, n: string)
    returns (ok: bool, annotations: Annotations, nodes: map<string, Router>, external: nat)
    requires done <= spec.nodes.Keys && n in spec.nodes && n !in done
    requires Built(files, spec, done, a, graph, count)
    requires api.cluster == base + NodesIds(files, spec, done)
    modifies api`cluster, api`attempts
    ensures base <= api.cluster <= base + NodesIds(files, spec, spec.nodes.Keys)
    ensures ok ==> api.cluster == base + NodesIds(files, spec, done + {n})
    ensures ok ==> Built(files, spec, done + {n}, annotations, nodes, external)
    ensures NodeGoes(api.script, files, spec, n) ==> ok
  {
    nodes, external := graph, count;
    var steps, e;
    NodesMonotone(files, spec, done, n);
    ok, annotations, steps, e := ReconcileNode(api, files, spec, a, NodesIds(files, spec, done), n);
    if ok {
      AllBuilt(files, spec, n, NodesIds(files, spec, done), annotations, steps, e);
      OneMoreNode(files, spec, done, n);
      HandleNode(files, spec, done, nodes, external, n);
      nodes := nodes[n := nodes[n].(steps := steps)];
      external := external + e;
    }
  }

  ghost predicate NodesHandled(files: Files, spec: Spec, done: set<string>, nodes: map<string, Router>, external: nat)
    requires done <= spec.nodes.Keys
  {
    nodes == PartlyHanded(files, spec, done) && external == SumExternal(spec.nodes, done) && Servable(files, spec, done)
  }

  lemma HandleNode(files: Files, spec: Spec, done: set<string>, nodes: map<string, Router>, external: nat, n: string)
    requires done <= spec.nodes.Keys && n in spec.nodes && n !in done
    requires NodesHandled(files, spec, done, nodes, external)
    requires AllRenderable(files, spec.nodes[n].steps, spec.nodes[n].steps)
    ensures n in nodes
    ensures
      var steps := HandedSteps(files, spec, spec.nodes[n].steps);
      NodesHandled(files, spec, done + {n}, nodes[n := nodes[n].(steps := steps)], external + ExternalIn(spec.nodes[n].steps))
  {
    SumExternalWithout(spec.nodes, done + {n}, n);
    assert done + {n} - {n} == done;
  }

  lemma AllHanded(files: Files, spec: Spec)
    ensures PartlyHanded(files, spec, spec.nodes.Keys) == HandedGraph(files, spec).nodes
  {
  }

  lemma NodesMonotone(files: Files, spec: Spec, done: set<string>, n: string)
    requires done <= spec.nodes.Keys && n in spec.nodes
    ensures NodesIds(files, spec, done) + NodeIds(files, spec, n, |spec.nodes[n].steps|) <= NodesIds(files, spec, spec.nodes.Keys)
  {
  }

  // ----- the router -----

  /** The access URL after the router was recorded: a node named "" with steps takes the URL away. */
  function AccessUrl(spec: Spec, before: string): string {
    if "" in spec.nodes && spec.nodes[""].steps != [] then before else GetServiceUrl(RouterObjects(spec)[1])
  }

  method ReconcileRouterService(api: ApiServer, spec: Spec, a: Annotations, ghost rs: set<Resource>, accessUrl: string)
    returns (ok: bool, annotations: Annotations, url: string)
    requires Records(a, rs)
    modifies api`cluster, api`attempts
    ensures old(api.cluster) <= api.cluster <= old(api.cluster) + Ids(RouterObjects(spec))
    ensures ok ==> api.cluster == old(api.cluster) + Ids(RouterObjects(spec))
    ensures ok ==> Records(annotations, rs + Ids(RouterObjects(spec)))
    ensures ok ==> url == AccessUrl(spec, accessUrl)
    ensures AllGo(api.script, Ids(RouterObjects(spec))) ==> ok
  {
    var objs := RouterObjects(spec);
    ok, annotations, url := true, a, accessUrl;
    assert Ids(objs[..0]) == {} && rs + {} == rs;
    for i := 0 to |objs|
      invariant ok && api.cluster == old(api.cluster) + Ids(objs[..i])
      invariant Records(annotations, rs + Ids(objs[..i]))
      invariant i < 2 ==> url == accessUrl
      invariant i == 2 ==> url == AccessUrl(spec, accessUrl)
    {
      IdsAppend(objs, i);
      assert Ids(objs[..i]) <= Ids(objs) && objs[i].id in Ids(objs);
      ok := api.Apply(objs[i].id);
      if !ok {
        return;
      }
      assert rs + Ids(objs[..i + 1]) == rs + Ids(objs[..i]) + {objs[i].id};
      var value := "provisioned";
      if objs[i].id.kind == SERVICE {
        value := GetServiceUrl(objs[i]);
        if "" in spec.nodes && spec.nodes[""].steps != [] {
          value := value + Endpoint(spec.nodes[""].steps[0]);
        } else {
          url := value;
        }
      }
      RecordOne(annotations, rs + Ids(objs[..i]), objs[i].id, value);
      annotations := annotations[KeyOf(objs[i].id) := value];
    }
    assert objs[..|objs|] == objs;
  }

  // ----- what is no longer wanted -----

  lemma StaleKey(a: Annotations, wanted: set<Resource>, k: string)
    requires Records(a, wanted) && IsKey(k)
    ensures k in a <==> ParseKey(k).value in wanted
  {
    assert KeyOf(ParseKey(k).value) == k;
  }

  /** Deletes every recorded resource whose key is not among the new annotations. */
  method DeleteStale(api: ApiServer, before: Annotations, annotations: Annotations, ghost wanted: set<Resource>) returns (deleted: bool)
    requires WellKeyed(before.Keys) && Records(annotations, wanted)
    modifies api`cluster
    ensures api.cluster == old(api.cluster) - Deletable(api.script, Recorded(before.Keys) - wanted)
    ensures deleted <==> forall r :: r in Recorded(before.Keys) - wanted && r in old(api.cluster) ==> api.script.delete(r)
  {
    deleted := true;
    var todo := before.Keys;
    ghost var done: set<string> := {};
    while todo != {}
      invariant done == before.Keys - todo && todo <= before.Keys && WellKeyed(done)
      invariant api.cluster == old(api.cluster) - Deletable(api.script, Recorded(done) - wanted)
      invariant deleted <==> forall r :: r in Recorded(done) - wanted && r in old(api.cluster) ==> api.script.delete(r)
    {
      var k :| k in todo;
      todo := todo - {k};
      assert IsKey(k);
      StaleKey(annotations, wanted, k);
      RecordedOne(done, k);
      if k !in annotations {
        var gone := api.DeleteRecordedResource(k);
        deleted := deleted && gone;
      }
      done := done + {k};
    }
    assert done == before.Keys;
  }

  /** Those of the resources whose deletion the API server grants. */
  ghost function Deletable(script: Script, rs: set<Resource>): set<Resource> {
    set r | r in rs && script.delete(r)
  }

  lemma RecordedOne(keys: set<string>, k: string)
    requires WellKeyed(keys) && IsKey(k)
    ensures WellKeyed(keys + {k}) && Recorded(keys + {k}) == Recorded(keys) + {ParseKey(k).value}
  {
    forall r | r in Recorded(keys) + {ParseKey(k).value}
      ensures r in Recorded(keys + {k})
    {
      if r in Recorded(keys) {
        var q :| q in keys && IsKey(q) && ParseKey(q).value == r;
        assert q in keys + {k};
      } else {
        assert k in keys + {k};
      }
    }
  }

  // ----- the pass -----

  /** The constructive half of a pass: the steps of every node, then the router. */
  method ApplyWanted(api: ApiServer, files: Files, spec: Spec, accessUrl: string)
    returns (ok: bool, annotations: Annotations, handed: Graph, external: nat, url: string)
    modifies api`cluster, api`attempts
    ensures old(api.cluster) <= api.cluster <= old(api.cluster) + Wanted(files, spec)
    ensures ok ==> api.cluster == old(api.cluster) + Wanted(files, spec)
    ensures || api.cluster <= old(api.cluster) + NodesIds(files, spec, spec.nodes.Keys)
            || old(api.cluster) + NodesIds(files, spec, spec.nodes.Keys) <= api.cluster
    ensures ok ==> Records(annotations, Wanted(files, spec))
    ensures ok ==> handed == HandedGraph(files, spec)
    ensures ok ==> external == SumExternal(spec.nodes, spec.nodes.Keys)
    ensures ok ==> Servable(files, spec, spec.nodes.Keys)
    ensures ok ==> url == AccessUrl(spec, accessUrl)
    ensures Servable(files, spec, spec.nodes.Keys) && AllGo(api.script, Wanted(files, spec)) ==> ok
  {
    handed, url := Graph("", map[]), accessUrl;
    var nodes;
    ok, annotations, nodes, external := ReconcileNodes(api, files, spec);
    if !ok {
      return;
    }
    AllHanded(files, spec);
    handed := Graph("", nodes);
    ok, annotations, url := ReconcileRouterService(api, spec, annotations, NodesIds(files, spec, spec.nodes.Keys), accessUrl);
  }

  /**
    One reconcile pass. Failed or not, it creates nothing the spec does not want and deletes nothing it
    does want; what it deletes was recorded, and it deletes nothing before all that is wanted is there. A
    pass that succeeds leaves everything wanted in the cluster, recorded under exactly the keys of the
    wanted resources, with a sound status string; if no delete failed, everything recorded and no longer
    wanted is gone. A failed pass leaves the persisted status alone. A pass to which every apply is
    granted does all its work on the cluster, and then succeeds or fails with the status update.
   */
  method Reconcile(api: ApiServer, files: Files, probe: Prober) returns (ok: bool, deleted: bool, handed: Graph)
    requires WellKeyed(api.annotations.Keys)
    modifies api
    ensures api.spec == old(api.spec) && api.script == old(api.script) && WellKeyed(api.annotations.Keys)
    ensures !ok ==> api.annotations == old(api.annotations) && api.status == old(api.status) && api.accessUrl == old(api.accessUrl)
    ensures
      var wanted := Wanted(files, api.spec);
      && api.cluster <= old(api.cluster) + wanted
      && old(api.cluster) - (Recorded(old(api.annotations).Keys) - wanted) <= api.cluster
      && (old(api.cluster) <= api.cluster || wanted <= api.cluster)
    ensures ok ==>
      var wanted := Wanted(files, api.spec);
      && wanted <= api.cluster
      && Recorded(api.annotations.Keys) == wanted && Records(api.annotations, wanted)
      && (deleted ==> api.cluster == old(api.cluster) + wanted - (Recorded(old(api.annotations).Keys) - wanted))
      && handed == HandedGraph(files, api.spec)
      && Servable(files, api.spec, api.spec.nodes.Keys)
      && api.annotations != map[]
      && StatusOk(api.annotations, api.status, SumExternal(api.spec.nodes, api.spec.nodes.Keys))
      && api.accessUrl == AccessUrl(api.spec, old(api.accessUrl))
    ensures Servable(files, api.spec, api.spec.nodes.Keys) && AllGo(api.script, Wanted(files, api.spec)) ==>
      var wanted := Wanted(files, api.spec);
      var stale := Recorded(old(api.annotations).Keys) - wanted;
      && ok == api.script.persist
      && api.cluster == old(api.cluster) + wanted - Deletable(api.script, stale)
      && (deleted <==> forall r :: r in stale && r in old(api.cluster) ==> api.script.delete(r))
  {
    var spec := api.spec;
    ghost var wanted := Wanted(files, spec);
    deleted := false;
    var annotations, external, url;
    ok, annotations, handed, external, url := ApplyWanted(api, files, spec, api.accessUrl);
    if !ok {
      return;
    }
    deleted := DeleteStale(api, api.annotations, annotations, wanted);
    RouterIsRecorded(files, spec, annotations);
    ok := PersistStatus(api, annotations, wanted, external, url, probe);
  }

  /** The end of a pass: collect the status and write it back, which may fail. */
  method PersistStatus(api: ApiServer, annotations: Annotations, ghost wanted: set<Resource>, external: nat, url: string, probe: Prober)
    returns (ok: bool)
    requires annotations != map[] && Records(annotations, wanted)
    modifies api`annotations, api`status, api`accessUrl
    ensures ok == api.script.persist
    ensures !ok ==> api.annotations == old(api.annotations) && api.status == old(api.status) && api.accessUrl == old(api.accessUrl)
    ensures ok ==> WellKeyed(api.annotations.Keys) && Recorded(api.annotations.Keys) == wanted && Records(api.annotations, wanted)
    ensures ok ==> api.annotations != map[] && StatusOk(api.annotations, api.status, external) && api.accessUrl == url
  {
    RecordsAreWellKeyed(annotations, wanted);
    CollectionOnFreshStatus(annotations, external, probe);
    var c := CollectResourceStatus(annotations, Format(0, external, 0), probe);
    ok := api.script.persist;
    if ok {
      api.annotations, api.status, api.accessUrl := c.annotations, c.status, url;
    }
  }

  lemma RouterIsRecorded(files: Files, spec: Spec, annotations: Annotations)
    requires Records(annotations, Wanted(files, spec))
    ensures annotations != map[]
  {
    var r := RouterObjects(spec)[0].id;
    assert RouterObjects(spec)[0] in RouterObjects(spec);
    assert KeyOf(r) in annotations;
  }

  lemma CollectionOnFreshStatus(a: Annotations, external: nat, probe: Prober)
    requires a != map[] && WellKeyed(a.Keys)
    ensures
      var c := Collection(a, Format(0, external, 0), probe);
      c.Updated? && c.annotations.Keys == a.Keys && c.annotations != map[] && StatusOk(c.annotations, c.status, external)
  {
    FormatParses(0, external, 0);
    WellKeyedIsIndexable(a.Keys);
    SubsetSize(ReadyKeys(a.Keys, probe), DeploymentKeys(a.Keys));
    var k :| k in a;
    assert k in Reported(a, probe);
  }

  /**
    A deployment changed: collect again on the persisted status, and write it back, which may fail. A
    sound status stays sound, with the same external count and the same keys, and collecting cannot fail.
   */
  method HandleStatusUpdate(api: ApiServer, probe: Prober) returns (c: Collected)
    modifies api
    ensures c == Collection(old(api.annotations), old(api.status), probe)
    ensures api.cluster == old(api.cluster) && api.spec == old(api.spec) && api.accessUrl == old(api.accessUrl)
    ensures api.annotations.Keys == old(api.annotations.Keys) && api.script == old(api.script)
    ensures (api.annotations, api.status) ==
            if c.Updated? && api.script.persist then (c.annotations, c.status) else (old(api.annotations), old(api.status))
    ensures forall external: nat :: WellKeyed(old(api.annotations).Keys) && StatusOk(old(api.annotations), old(api.status), external) ==>
      StatusOk(api.annotations, api.status, external) && (old(api.annotations) != map[] ==> c.Updated?)
  {
    forall external: nat | api.annotations != map[] && WellKeyed(api.annotations.Keys) && StatusOk(api.annotations, api.status, external)
      ensures Collection(api.annotations, api.status, probe).Updated?
      ensures var u := Collection(api.annotations, api.status, probe); StatusOk(u.annotations, u.status, external)
    {
      CollectionKeepsStatus(api.annotations, api.status, external, probe);
    }
    c := CollectResourceStatus(api.annotations, api.status, probe);
    if c.Updated? && api.script.persist {
      api.annotations, api.status := c.annotations, c.status;
    }
  }
}
