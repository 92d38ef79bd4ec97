/** The status of a GMConnector: the annotations that record its resources and the ready/external/total string. */
module ConnectorStatus {
  import opened Graph
  import opened Manifests
  import opened Text

  type Annotations = map<string, string>

  function Format(ready: nat, external: int, total: nat): string {
    Itoa(ready) + "/" + FormatInt(external) + "/" + Itoa(total)
  }

  /** A status string splits into its three counts, and each reads back. */
  lemma FormatParses(ready: nat, external: int, total: nat)
    ensures Split(Format(ready, external, total), '/') == [Itoa(ready), FormatInt(external), Itoa(total)]
    ensures Atoi(Itoa(ready)) == Some(ready) && ParseInt(FormatInt(external)) == Some(external) && Atoi(Itoa(total)) == Some(total)
  {
    AtoiItoa(ready);
    AtoiItoa(total);
    ParseFormatInt(external);
    FormatIntHasNoSlash(external);
    var parts := [Itoa(ready), FormatInt(external), Itoa(total)];
    assert parts[1..] == [FormatInt(external), Itoa(total)];
    assert parts[1..][1..] == [Itoa(total)];
    assert Join(parts[1..], '/') == FormatInt(external) + ['/'] + Itoa(total);
    assert Join(parts, '/') == Itoa(ready) + ['/'] + (FormatInt(external) + ['/'] + Itoa(total));
    assert Format(ready, external, total) == Join(parts, '/') by { assert "/" == ['/']; }
    SplitJoin(parts, '/');
  }

  /** The key of a colon-free resource, as the controller writes them. */
  predicate IsKey(k: string) {
    var r := ParseKey(k);
    r.Some? && ColonFree(r.value) && KeyOf(r.value) == k
  }

  predicate WellKeyed(keys: set<string>) {
    forall k {:trigger IsKey(k)} :: k in keys ==> IsKey(k)
  }

  function Recorded(keys: set<string>): set<Resource> {
    set k | k in keys && IsKey(k) :: ParseKey(k).value
  }

  lemma RecordedExactly(keys: set<string>, r: Resource)
    requires WellKeyed(keys) && ColonFree(r)
    ensures r in Recorded(keys) <==> KeyOf(r) in keys
  {
    KeyRoundTrip(r);
    if r in Recorded(keys) {
      var k :| k in keys && IsKey(k) && ParseKey(k).value == r;
    }
    assert KeyOf(r) in keys ==> IsKey(KeyOf(r));
  }

  // ----- collecting the status -----

  /** Splitting the key gives the fields the collection looks at. */
  predicate Indexable(k: string) {
    ParseKey(k).Some?
  }

  predicate AllIndexable(keys: set<string>) {
    forall k {:trigger Indexable(k)} :: k in keys ==> Indexable(k)
  }

  lemma WellKeyedIsIndexable(keys: set<string>)
    requires WellKeyed(keys)
    ensures AllIndexable(keys)
  {
    forall k | k in keys
      ensures Indexable(k)
    {
      assert IsKey(k);
    }
  }

  /** What the cluster says about a deployment. */
  datatype Probe = Missing | Found(available: int, desired: int, report: string)

  type Prober = (string, string) -> Probe

  datatype Collected = Updated(annotations: Annotations, status: string) | NoAnnotations | BadCount | Panicked

  predicate IsDeployment(key: string) {
    Split(key, ':')[0] == DEPLOYMENT
  }

  function ProbeKey(probe: Prober, key: string): Probe {
    match ParseKey(key)
    case None => Missing
    case Some(r) => probe(r.namespace, r.name)
  }

  function DeploymentKeys(keys: set<string>): set<string> {
    set k | k in keys && IsDeployment(k)
  }

  predicate IsReady(probe: Prober, key: string) {
    IsDeployment(key) && var p := ProbeKey(probe, key); p.Found? && p.available == p.desired
  }

  function ReadyKeys(keys: set<string>, probe: Prober): set<string> {
    set k | k in keys && IsReady(probe, k)
  }

  /** The value a key is left with. */
  function ReportOf(probe: Prober, key: string, value: string): string {
    if IsDeployment(key) && ProbeKey(probe, key).Found? then ProbeKey(probe, key).report else value
  }

  function Reported(a: Annotations, probe: Prober): (r: Annotations)
    ensures r.Keys == a.Keys
  {
    map k | k in a :: ReportOf(probe, k, a[k])
  }

  /** The effect of one collection; the order in which the annotations come up does not show. */
  function Collection(a: Annotations, status: string, probe: Prober): Collected {
    if a == map[] then NoAnnotations
    else
      var parts := Split(status, '/');
      if !AllIndexable(a.Keys) || |parts| < 2 then Panicked
      else
        match ParseInt(parts[1])
        case None => BadCount
        case Some(external) =>
          Updated(Reported(a, probe), Format(|ReadyKeys(a.Keys, probe)|, external, |DeploymentKeys(a.Keys)|))
  }

  /** Counts deployments, and ready ones, key by key in any order, overwriting values in place. */
  method CollectResourceStatus(a: Annotations, status: string, probe: Prober) returns (c: Collected)
    ensures c == Collection(a, status, probe)
  {
    if a == map[] {
      return NoAnnotations;
    }
    var ok, totalCnt, readyCnt, annotations := CountDeployments(a, probe);
    if !ok {
      return Panicked;
    }
    var fields := Split(status, '/');
    if |fields| < 2 {
      return Panicked;
    }
    var external := ParseInt(fields[1]);
    if external.None? {
      return BadCount;
    }
    return Updated(annotations, Format(readyCnt, external.value, totalCnt));
  }

  /** Its loop over the annotations. */
  method CountDeployments(a: Annotations, probe: Prober) returns (ok: bool, totalCnt: nat, readyCnt: nat, annotations: Annotations)
    ensures ok <==> AllIndexable(a.Keys)
    ensures ok ==> totalCnt == |DeploymentKeys(a.Keys)| && readyCnt == |ReadyKeys(a.Keys, probe)|
    ensures ok ==> annotations == Reported(a, probe)
  {
    ok, totalCnt, readyCnt, annotations := true, 0, 0, a;
    var todo := a.Keys;
    ghost var done: set<string> := {};
    CountNone(a, probe);
    while todo != {}
      invariant done == a.Keys - todo && todo <= a.Keys
      invariant ok && AllIndexable(done)
      invariant Halfway(a, done, probe, totalCnt, readyCnt, annotations)
    {
      var resName :| resName in todo;
      todo := todo - {resName};
      if !Indexable(resName) {
        ok := false;
        return;
      }
      totalCnt, readyCnt, annotations := CollectOne(a, done, resName, probe, totalCnt, readyCnt, annotations);
      done := done + {resName};
    }
    assert done == a.Keys;
    assert ReportedOn(a, a.Keys, probe) == Reported(a, probe);
  }

  /** The body of that loop: what one key adds to the two counts, and its new value. */
  method CollectOne(a: Annotations, ghost done: set<string>, resName: string, probe: Prober, total: nat, ready: nat, values: Annotations)
    returns (totalCnt: nat, readyCnt: nat, annotations: Annotations)
    requires done <= a.Keys && resName in a && resName !in done && Indexable(resName)
    requires Halfway(a, done, probe, total, ready, values)
    ensures Halfway(a, done + {resName}, probe, totalCnt, readyCnt, annotations)
  {
    CountOne(done, resName, probe, total, ready);
    ReportOne(a, done, resName, probe);
    totalCnt, readyCnt, annotations := total, ready, values;
    var parts := Split(resName, ':');
    var kind, name, ns := parts[0], parts[2], parts[3];
    if kind == DEPLOYMENT {
      totalCnt := total + 1;
      match probe(ns, name) {
        case Missing =>
        case Found(available, desired, report) =>
          annotations := annotations[resName := report];
          if available == desired {
            readyCnt := ready + 1;
          }
      }
    }
  }

  ghost predicate Counted(keys: set<string>, probe: Prober, total: nat, ready: nat) {
    total == |DeploymentKeys(keys)| && ready == |ReadyKeys(keys, probe)|
  }

  /** The annotations after the given keys were seen to. */
  ghost function ReportedOn(a: Annotations, done: set<string>, probe: Prober): (r: Annotations)
    ensures r.Keys == a.Keys
  {
    map k | k in a :: if k in done then ReportOf(probe, k, a[k]) else a[k]
  }

  ghost predicate Halfway(a: Annotations, done: set<string>, probe: Prober, total: nat, ready: nat, values: Annotations) {
    Counted(done, probe, total, ready) && values == ReportedOn(a, done, probe)
  }

  lemma CountNone(a: Annotations, probe: Prober)
    ensures Halfway(a, {}, probe, 0, 0, a)
  {
    assert DeploymentKeys({}) == {} && ReadyKeys({}, probe) == {};
    assert ReportedOn(a, {}, probe) == a;
  }

  lemma CountOne(done: set<string>, k: string, probe: Prober, total: nat, ready: nat)
    requires k !in done && Counted(done, probe, total, ready)
    ensures Counted(done + {k}, probe, total + if IsDeployment(k) then 1 else 0, ready + if IsReady(probe, k) then 1 else 0)
  {
    assert DeploymentKeys(done + {k}) == if IsDeployment(k) then DeploymentKeys(done) + {k} else DeploymentKeys(done);
    assert ReadyKeys(done + {k}, probe) == if IsReady(probe, k) then ReadyKeys(done, probe) + {k} else ReadyKeys(done, probe);
  }

  lemma ReportOne(a: Annotations, done: set<string>, k: string, probe: Prober)
    requires k in a && k !in done
    ensures ReportedOn(a, done + {k}, probe) == ReportedOn(a, done, probe)[k := ReportOf(probe, k, a[k])]
    ensures ReportedOn(a, done, probe)[k := a[k]] == ReportedOn(a, done, probe)
  {
  }

  ghost predicate FourFields(k: string) {
    |Split(k, ':')| >= 4
  }

  lemma IndexableMeans(keys: set<string>)
    ensures AllIndexable(keys) <==> forall k :: k in keys ==> FourFields(k)
  {
    if AllIndexable(keys) {
      forall k | k in keys
        ensures FourFields(k)
      {
        assert Indexable(k);
      }
    }
    if forall k :: k in keys ==> FourFields(k) {
      forall k | k in keys
        ensures Indexable(k)
      {
        assert FourFields(k);
      }
    }
  }

  /** The four ways a collection can end. */
  lemma CollectionOutcome(a: Annotations, status: string, probe: Prober)
    ensures
      var c := Collection(a, status, probe);
      var parts := Split(status, '/');
      var panics := |parts| < 2 || exists k :: k in a.Keys && !FourFields(k);
      && (c.NoAnnotations? <==> a == map[])
      && (c.Panicked? <==> a != map[] && panics)
      && (c.BadCount? <==> a != map[] && !panics && ParseInt(parts[1]).None?)
  {
    IndexableMeans(a.Keys);
  }

  /** The recorded Deployments, and those all of whose desired replicas are available. */
  function RecordedDeployments(keys: set<string>): set<Resource> {
    set r | r in Recorded(keys) && r.kind == "Deployment"
  }

  predicate Available(probe: Prober, r: Resource) {
    var p := probe(r.namespace, r.name);
    p.Found? && p.available == p.desired
  }

  function AvailableDeployments(keys: set<string>, probe: Prober): set<Resource> {
    set r | r in RecordedDeployments(keys) && Available(probe, r)
  }

  lemma KeyReads(key: string)
    requires IsKey(key)
    ensures IsDeployment(key) <==> ParseKey(key).value.kind == "Deployment"
    ensures forall probe :: IsReady(probe, key) <==> IsDeployment(key) && Available(probe, ParseKey(key).value)
  {
    KeyRoundTrip(ParseKey(key).value);
  }

  /** Keys of records and records correspond one to one. */
  lemma {:induction false} SameSize(keys: set<string>, rs: set<Resource>)
    requires WellKeyed(keys)
    requires forall r {:trigger r in rs} :: r in rs <==> ColonFree(r) && KeyOf(r) in keys
    ensures |keys| == |rs|
    decreases keys
  {
    if keys == {} {
      assert forall r :: r !in rs;
      assert rs == {};
    } else {
      var k :| k in keys;
      assert IsKey(k);
      var r := ParseKey(k).value;
      assert r in rs;
      forall q
        ensures q in rs - {r} <==> ColonFree(q) && KeyOf(q) in keys - {k}
      {
        if q != r && ColonFree(q) {
          KeyInjective(q, r);
        }
      }
      SameSize(keys - {k}, rs - {r});
    }
  }

  lemma CountsMean(keys: set<string>, probe: Prober)
    requires WellKeyed(keys)
    ensures |DeploymentKeys(keys)| == |RecordedDeployments(keys)|
    ensures |ReadyKeys(keys, probe)| == |AvailableDeployments(keys, probe)|
  {
    forall r
      ensures r in RecordedDeployments(keys) <==> ColonFree(r) && KeyOf(r) in DeploymentKeys(keys)
      ensures r in AvailableDeployments(keys, probe) <==> ColonFree(r) && KeyOf(r) in ReadyKeys(keys, probe)
    {
      ReadsBack(keys, probe, r);
    }
    SameSize(DeploymentKeys(keys), RecordedDeployments(keys));
    SameSize(ReadyKeys(keys, probe), AvailableDeployments(keys, probe));
  }

  lemma ReadsBack(keys: set<string>, probe: Prober, r: Resource)
    requires WellKeyed(keys)
    ensures r in RecordedDeployments(keys) <==> ColonFree(r) && KeyOf(r) in DeploymentKeys(keys)
    ensures r in AvailableDeployments(keys, probe) <==> ColonFree(r) && KeyOf(r) in ReadyKeys(keys, probe)
  {
    if r in Recorded(keys) {
      var k :| k in keys && IsKey(k) && ParseKey(k).value == r;
    }
    if ColonFree(r) {
      RecordedExactly(keys, r);
      KeyRoundTrip(r);
      assert IsKey(KeyOf(r));
      KeyReads(KeyOf(r));
    }
  }

  /**
    A collection in the cluster's terms: the first count is that of the recorded Deployments with as many
    replicas available as desired, the last that of all recorded Deployments, and what is left under the
    key of a Deployment that was found is its report.
   */
  lemma CollectionMeans(a: Annotations, status: string, probe: Prober)
    requires WellKeyed(a.Keys) && Collection(a, status, probe).Updated?
    ensures
      var c := Collection(a, status, probe);
      && |Split(c.status, '/')| == 3 && |Split(status, '/')| >= 2
      && Split(c.status, '/')[0] == Itoa(|AvailableDeployments(a.Keys, probe)|)
      && Split(c.status, '/')[2] == Itoa(|RecordedDeployments(a.Keys)|)
      && ParseInt(Split(c.status, '/')[1]) == ParseInt(Split(status, '/')[1])
      && c.annotations.Keys == a.Keys
    ensures
      forall r {:trigger KeyOf(r)} :: ColonFree(r) && KeyOf(r) in a ==>
        Collection(a, status, probe).annotations[KeyOf(r)] ==
          if r.kind == "Deployment" && probe(r.namespace, r.name).Found? then probe(r.namespace, r.name).report else a[KeyOf(r)]
  {
    var external := ParseInt(Split(status, '/')[1]).value;
    CountsMean(a.Keys, probe);
    FormatParses(|ReadyKeys(a.Keys, probe)|, external, |DeploymentKeys(a.Keys)|);
    forall r {:trigger KeyOf(r)} | ColonFree(r) && KeyOf(r) in a
      ensures ReportOf(probe, KeyOf(r), a[KeyOf(r)]) ==
          if r.kind == "Deployment" && probe(r.namespace, r.name).Found? then probe(r.namespace, r.name).report else a[KeyOf(r)]
    {
      KeyRoundTrip(r);
    }
  }

  // ----- the status string of every persisted state -----

  /** With anything recorded, the string is ready/external/total: ready at most total, total the Deployments. */
  ghost predicate StatusOk(a: Annotations, status: string, external: nat) {
    a != map[] ==>
      exists ready: nat :: ready <= |DeploymentKeys(a.Keys)| && status == Format(ready, external, |DeploymentKeys(a.Keys)|)
  }

  lemma {:induction false} SubsetSize(a: set<string>, b: set<string>)
    requires a <= b
    ensures |a| <= |b|
  {
    assert b == a + (b - a);
  }

  /** Collecting on a sound status never fails and keeps the keys and the external count. */
  lemma CollectionKeepsStatus(a: Annotations, status: string, external: nat, probe: Prober)
    requires a != map[] && WellKeyed(a.Keys) && StatusOk(a, status, external)
    ensures
      var c := Collection(a, status, probe);
      c.Updated? && c.annotations.Keys == a.Keys && c.annotations != map[] && StatusOk(c.annotations, c.status, external)
  {
    var ready: nat :| ready <= |DeploymentKeys(a.Keys)| && status == Format(ready, external, |DeploymentKeys(a.Keys)|);
    FormatParses(ready, external, |DeploymentKeys(a.Keys)|);
    WellKeyedIsIndexable(a.Keys);
    SubsetSize(ReadyKeys(a.Keys, probe), DeploymentKeys(a.Keys));
    var k :| k in a;
    assert k in Reported(a, probe);
  }

  /** Any number of deployment-triggered updates after a reconcile. */
  function Updates(a: Annotations, status: string, probes: seq<Prober>): Collected {
    if probes == [] then Updated(a, status)
    else
      match Updates(a, status, probes[..|probes| - 1])
      case Updated(a', status') => Collection(a', status', probes[|probes| - 1])
      case failed => failed
  }

  lemma {:induction false} UpdatesKeepStatus(a: Annotations, status: string, external: nat, probes: seq<Prober>)
    requires a != map[] && WellKeyed(a.Keys) && StatusOk(a, status, external)
    ensures
      var c := Updates(a, status, probes);
      c.Updated? && c.annotations.Keys == a.Keys && StatusOk(c.annotations, c.status, external)
  {
    if probes != [] {
      UpdatesKeepStatus(a, status, external, probes[..|probes| - 1]);
      var c := Updates(a, status, probes[..|probes| - 1]);
      var k :| k in a;
      assert k in c.annotations;
      CollectionKeepsStatus(c.annotations, c.status, external, probes[|probes| - 1]);
    }
  }
}
