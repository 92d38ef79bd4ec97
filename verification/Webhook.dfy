/** The admission webhook: which GMConnector specs reach the controller and the router. */
module Webhook {
  import opened Graph

  const STEP_NAMES := [
    "TeiEmbedding", "TeiEmbeddingGaudi", "Embedding", "VectorDB", "Retriever", "Reranking", "TeiReranking",
    "Tgi", "TgiGaudi", "TgiNvidia", "Llm", "DocSum", "Router", "WebRetriever", "Asr", "Tts", "SpeechT5",
    "SpeechT5Gaudi", "Whisper", "WhisperGaudi", "DataPrep", "UI"]

  const ROOT := "root"

  datatype Position = Position(node: string, idx: nat)

  datatype Violation =
    | BadStepName(at: Position)
    | UndefinedNode(at: Position)
    | DuplicateService(at: Position)
    | NoRoot

  // ----- what the webhook is for -----

  predicate At(nodes: map<string, Router>, p: Position) {
    p.node in nodes && p.idx < |nodes[p.node].steps|
  }

  function StepAt(nodes: map<string, Router>, p: Position): Step
    requires At(nodes, p)
  {
    nodes[p.node].steps[p.idx]
  }

  /** The positions of all steps. */
  function Positions(nodes: map<string, Router>): set<Position> {
    set n, i | n in nodes && 0 <= i < |nodes[n].steps| :: Position(n, i)
  }

  /** Those of the given positions that carry a service name. */
  function Named(nodes: map<string, Router>, ps: set<Position>): set<Position>
    requires forall p :: p in ps ==> At(nodes, p)
  {
    set p | p in ps && StepAt(nodes, p).serviceName != ""
  }

  /** The distinct service names at the given positions. */
  function ServiceNames(nodes: map<string, Router>, ps: set<Position>): set<string>
    requires forall p :: p in ps ==> At(nodes, p)
  {
    set p | p in Named(nodes, ps) :: StepAt(nodes, p).serviceName
  }

  /** No two steps of the whole graph share a service name. */
  ghost predicate DistinctServices(nodes: map<string, Router>, ps: set<Position>)
    requires forall p :: p in ps ==> At(nodes, p)
  {
    forall p, q :: p in Named(nodes, ps) && q in Named(nodes, ps) && p != q ==>
      StepAt(nodes, p).serviceName != StepAt(nodes, q).serviceName
  }

  predicate StepNameAllowed(s: Step) {
    s.name in STEP_NAMES
  }

  predicate ReferenceDefined(nodes: map<string, Router>, s: Step) {
    s.Leaf() || s.nodeName in nodes
  }

  ghost predicate NamesValid(nodes: map<string, Router>) {
    && (forall p :: p in Positions(nodes) ==>
         StepNameAllowed(StepAt(nodes, p)) && ReferenceDefined(nodes, StepAt(nodes, p)))
    && DistinctServices(nodes, Positions(nodes))
  }

  ghost predicate Accepted(nodes: map<string, Router>) {
    NamesValid(nodes) && ROOT in nodes
  }

  /** No name is checked but these, no reference left out, and steps without a service name share none. */
  lemma NamesValidMeans(nodes: map<string, Router>)
    ensures NamesValid(nodes) <==>
      && (forall n, i :: n in nodes && 0 <= i < |nodes[n].steps| ==>
           && nodes[n].steps[i].name in STEP_NAMES
           && (nodes[n].steps[i].nodeName == "" || nodes[n].steps[i].nodeName in nodes))
      && (forall n, i, m, j :: n in nodes && 0 <= i < |nodes[n].steps| && m in nodes && 0 <= j < |nodes[m].steps| ==>
           nodes[n].steps[i].serviceName == nodes[m].steps[j].serviceName != "" ==> n == m && i == j)
  {
    forall n, i | n in nodes && 0 <= i < |nodes[n].steps|
      ensures Position(n, i) in Positions(nodes) && StepAt(nodes, Position(n, i)) == nodes[n].steps[i]
      ensures nodes[n].steps[i].serviceName != "" <==> Position(n, i) in Named(nodes, Positions(nodes))
    {
    }
    if NamesValid(nodes) {
      forall n, i, m, j | n in nodes && 0 <= i < |nodes[n].steps| && m in nodes && 0 <= j < |nodes[m].steps| &&
                          nodes[n].steps[i].serviceName == nodes[m].steps[j].serviceName != ""
        ensures n == m && i == j
      {
        assert Position(n, i) == Position(m, j);
      }
    }
  }

  function Duplicates(errs: seq<Violation>): nat {
    if errs == [] then 0
    else Duplicates(errs[..|errs| - 1]) + if errs[|errs| - 1].DuplicateService? then 1 else 0
  }

  // ----- the audit of a set of positions, in whatever order they came up -----

  ghost predicate StepsAudited(nodes: map<string, Router>, done: set<Position>, errs: seq<Violation>) {
    && (forall p :: p in done ==> At(nodes, p))
    && (forall p :: BadStepName(p) in errs <==> p in done && !StepNameAllowed(StepAt(nodes, p)))
    && (forall p :: UndefinedNode(p) in errs <==> p in done && !ReferenceDefined(nodes, StepAt(nodes, p)))
    && NoRoot !in errs
  }

  ghost predicate ServicesAudited(nodes: map<string, Router>, done: set<Position>, serviceNames: seq<string>, errs: seq<Violation>)
    requires forall p :: p in done ==> At(nodes, p)
  {
    && (forall x :: x != "" ==> (x in serviceNames <==> x in ServiceNames(nodes, done)))
    && Duplicates(errs) + |ServiceNames(nodes, done)| == |Named(nodes, done)|
  }

  ghost predicate Audited(nodes: map<string, Router>, done: set<Position>, serviceNames: seq<string>, errs: seq<Violation>) {
    StepsAudited(nodes, done, errs) && ServicesAudited(nodes, done, serviceNames, errs)
  }

  /** What one step adds to the error list. */
  function Findings(nodes: map<string, Router>, p: Position, serviceNames: seq<string>): seq<Violation>
    requires At(nodes, p)
  {
    var s := StepAt(nodes, p);
    (if StepNameAllowed(s) then [] else [BadStepName(p)]) +
    (if ReferenceDefined(nodes, s) then [] else [UndefinedNode(p)]) +
    (if s.serviceName != "" && s.serviceName in serviceNames then [DuplicateService(p)] else [])
  }

  lemma {:induction false} DuplicatesAppend(a: seq<Violation>, b: seq<Violation>)
    ensures Duplicates(a + b) == Duplicates(a) + Duplicates(b)
  {
    if b == [] {
      assert a + b == a;
    } else {
      DuplicatesAppend(a, b[..|b| - 1]);
      assert (a + b)[..|a + b| - 1] == a + b[..|b| - 1];
    }
  }

  lemma FindingsDuplicates(nodes: map<string, Router>, p: Position, serviceNames: seq<string>)
    requires At(nodes, p)
    ensures
      var s := StepAt(nodes, p);
      Duplicates(Findings(nodes, p, serviceNames)) == if s.serviceName != "" && s.serviceName in serviceNames then 1 else 0
  {
    var s := StepAt(nodes, p);
    var a := if StepNameAllowed(s) then [] else [BadStepName(p)];
    var b := if ReferenceDefined(nodes, s) then [] else [UndefinedNode(p)];
    var d := if s.serviceName != "" && s.serviceName in serviceNames then [DuplicateService(p)] else [];
    DuplicatesAppend(a + b, d);
    DuplicatesAppend(a, b);
  }

  /** One more named step: its name is either new, or makes two positions share a name. */
  lemma OneMoreName(nodes: map<string, Router>, done: set<Position>, p: Position)
    requires forall q :: q in done ==> At(nodes, q)
    requires At(nodes, p) && p !in done
    ensures
      var x := StepAt(nodes, p).serviceName;
      var all := done + {p};
      && (x == "" ==>
           && Named(nodes, all) == Named(nodes, done)
           && ServiceNames(nodes, all) == ServiceNames(nodes, done))
      && (x != "" ==>
           && Named(nodes, all) == Named(nodes, done) + {p}
           && ServiceNames(nodes, all) == ServiceNames(nodes, done) + {x})
  {
    var x := StepAt(nodes, p).serviceName;
    var all := done + {p};
    if x == "" {
      assert Named(nodes, all) == Named(nodes, done);
    } else {
      assert Named(nodes, all) == Named(nodes, done) + {p};
      assert x in ServiceNames(nodes, all) by {
        assert p in Named(nodes, all);
      }
      forall y | y in ServiceNames(nodes, done)
        ensures y in ServiceNames(nodes, all)
      {
        var q :| q in Named(nodes, done) && StepAt(nodes, q).serviceName == y;
        assert q in Named(nodes, all);
      }
    }
  }

  lemma StaysDistinct(nodes: map<string, Router>, done: set<Position>, p: Position)
    requires forall q :: q in done ==> At(nodes, q)
    requires At(nodes, p) && p !in done
    ensures DistinctServices(nodes, done + {p}) <==>
            DistinctServices(nodes, done) && StepAt(nodes, p).serviceName !in ServiceNames(nodes, done)
  {
    var x := StepAt(nodes, p).serviceName;
    OneMoreName(nodes, done, p);
    if x in ServiceNames(nodes, done) {
      var q :| q in Named(nodes, done) && StepAt(nodes, q).serviceName == x;
      assert p in Named(nodes, done + {p}) && q in Named(nodes, done + {p});
    }
    if DistinctServices(nodes, done) && x !in ServiceNames(nodes, done) {
      forall a, b | a in Named(nodes, done + {p}) && b in Named(nodes, done + {p}) && a != b
        ensures StepAt(nodes, a).serviceName != StepAt(nodes, b).serviceName
      {
        if a == p {
          assert b in Named(nodes, done);
        } else if b == p {
          assert a in Named(nodes, done);
        }
      }
    }
  }

  lemma OneMoreSize(nodes: map<string, Router>, done: set<Position>, p: Position)
    requires forall q :: q in done ==> At(nodes, q)
    requires At(nodes, p) && p !in done
    ensures
      var x := StepAt(nodes, p).serviceName;
      && |Named(nodes, done + {p})| == |Named(nodes, done)| + (if x == "" then 0 else 1)
      && |ServiceNames(nodes, done + {p})| == |ServiceNames(nodes, done)| + (if x == "" || x in ServiceNames(nodes, done) then 0 else 1)
      && (x == "" ==> x !in ServiceNames(nodes, done))
  {
    OneMoreName(nodes, done, p);
  }

  /** As many names as named steps: counting is enough to tell that no name is shared. */
  lemma {:induction false} AsManyNames(nodes: map<string, Router>, ps: set<Position>)
    requires forall p :: p in ps ==> At(nodes, p)
    ensures |ServiceNames(nodes, ps)| <= |Named(nodes, ps)|
    ensures |ServiceNames(nodes, ps)| == |Named(nodes, ps)| <==> DistinctServices(nodes, ps)
    decreases ps
  {
    if ps != {} {
      var p :| p in ps;
      var rest := ps - {p};
      assert rest + {p} == ps;
      AsManyNames(nodes, rest);
      StaysDistinct(nodes, rest, p);
      OneMoreSize(nodes, rest, p);
    }
  }

  function NamesAfter(s: Step, serviceNames: seq<string>): seq<string> {
    if s.serviceName != "" && s.serviceName in serviceNames then serviceNames else serviceNames + [s.serviceName]
  }

  lemma AuditServices(nodes: map<string, Router>, done: set<Position>, serviceNames: seq<string>, errs: seq<Violation>, p: Position)
    requires forall q :: q in done ==> At(nodes, q)
    requires ServicesAudited(nodes, done, serviceNames, errs)
    requires At(nodes, p) && p !in done
    ensures ServicesAudited(nodes, done + {p}, NamesAfter(StepAt(nodes, p), serviceNames), errs + Findings(nodes, p, serviceNames))
  {
    var found := Findings(nodes, p, serviceNames);
    OneMoreName(nodes, done, p);
    OneMoreSize(nodes, done, p);
    DuplicatesAppend(errs, found);
    FindingsDuplicates(nodes, p, serviceNames);
  }

  lemma AuditStep(nodes: map<string, Router>, done: set<Position>, errs: seq<Violation>, p: Position, serviceNames: seq<string>)
    requires StepsAudited(nodes, done, errs)
    requires At(nodes, p) && p !in done
    ensures StepsAudited(nodes, done + {p}, errs + Findings(nodes, p, serviceNames))
  {
    var found := Findings(nodes, p, serviceNames);
    assert forall e :: e in errs + found <==> e in errs || e in found;
  }

  lemma AuditOne(nodes: map<string, Router>, done: set<Position>, serviceNames: seq<string>, errs: seq<Violation>, p: Position)
    requires Audited(nodes, done, serviceNames, errs)
    requires At(nodes, p) && p !in done
    ensures Audited(nodes, done + {p}, NamesAfter(StepAt(nodes, p), serviceNames), errs + Findings(nodes, p, serviceNames))
  {
    AuditStep(nodes, done, errs, p, serviceNames);
    AuditServices(nodes, done, serviceNames, errs, p);
  }

  /** The first i steps of a node. */
  function Prefix(n: string, i: nat): (r: set<Position>)
    ensures forall p :: p in r <==> p.node == n && p.idx < i
  {
    if i == 0 then {} else Prefix(n, i - 1) + {Position(n, i - 1)}
  }

  lemma AuditVerdict(nodes: map<string, Router>, done: set<Position>, serviceNames: seq<string>, errs: seq<Violation>)
    requires Audited(nodes, done, serviceNames, errs)
    requires forall p :: p in done <==> At(nodes, p)
    ensures done == Positions(nodes)
    ensures errs == [] <==> NamesValid(nodes)
  {
    forall p
      ensures p in done <==> p in Positions(nodes)
    {
      assert p == Position(p.node, p.idx);
    }
    NoDuplicates(errs);
    AsManyNames(nodes, done);
    if errs != [] {
      assert errs[0] in errs;
    }
  }

  lemma {:induction false} NoDuplicates(errs: seq<Violation>)
    ensures Duplicates(errs) == 0 <==> forall e :: e in errs ==> !e.DuplicateService?
  {
    if errs != [] {
      NoDuplicates(errs[..|errs| - 1]);
      assert errs[|errs| - 1] in errs;
      assert forall e :: e in errs <==> e in errs[..|errs| - 1] || e == errs[|errs| - 1];
    }
  }

  // ----- the code -----

  /** The keys of a map, each once, in an order nobody chooses. */
  method GetKeys(m: map<string, Router>) returns (keys: seq<string>)
    ensures forall k :: k in keys <==> k in m
    ensures forall i, j :: 0 <= i < j < |keys| ==> keys[i] != keys[j]
  {
    keys := [];
    var todo := m.Keys;
    while todo != {}
      invariant todo <= m.Keys
      invariant forall k :: k in keys <==> k in m && k !in todo
      invariant forall i, j :: 0 <= i < j < |keys| ==> keys[i] != keys[j]
    {
      var k :| k in todo;
      keys := keys + [k];
      todo := todo - {k};
    }
  }

  /**
    The order in which the nodes come up is arbitrary and shows neither in the verdict nor in the
    number of duplicate-name errors: named steps minus distinct names.
   */
  method ValidateNames(nodes: map<string, Router>) returns (errs: seq<Violation>)
    ensures errs == [] <==> NamesValid(nodes)
    ensures forall p :: BadStepName(p) in errs <==> p in Positions(nodes) && !StepNameAllowed(StepAt(nodes, p))
    ensures forall p :: UndefinedNode(p) in errs <==> p in Positions(nodes) && !ReferenceDefined(nodes, StepAt(nodes, p))
    ensures Duplicates(errs) == |Named(nodes, Positions(nodes))| - |ServiceNames(nodes, Positions(nodes))|
    ensures NoRoot !in errs
  {
    var nodeNames := GetKeys(nodes);
    var serviceNames: seq<string> := [];
    errs := [];
    var todo := nodes.Keys;
    ghost var done: set<Position> := {};
    assert Audited(nodes, done, serviceNames, errs);
    while todo != {}
      invariant todo <= nodes.Keys
      invariant Audited(nodes, done, serviceNames, errs)
      invariant forall p :: p in done <==> At(nodes, p) && p.node !in todo
    {
      var name :| name in todo;
      todo := todo - {name};
      serviceNames, errs, done := ValidateNode(nodes, nodeNames, name, serviceNames, errs, done);
    }
    AuditVerdict(nodes, done, serviceNames, errs);
  }

  /** The loop over the steps of one node. */
  method ValidateNode(nodes: map<string, Router>, nodeNames: seq<string>, name: string, names: seq<string>,
                      errors: seq<Violation>, ghost before: set<Position>)
    returns (serviceNames: seq<string>, errs: seq<Violation>, ghost done: set<Position>)
    requires name in nodes && (forall k :: k in nodeNames <==> k in nodes)
    requires Audited(nodes, before, names, errors)
    requires forall p :: p in before ==> p.node != name
    ensures Audited(nodes, done, serviceNames, errs)
    ensures done == before + Prefix(name, |nodes[name].steps|)
  {
    serviceNames, errs, done := names, errors, before;
    var steps := nodes[name].steps;
    assert before + Prefix(name, 0) == before;
    for idx := 0 to |steps|
      invariant Audited(nodes, done, serviceNames, errs)
      invariant done == before + Prefix(name, idx)
    {
      var p := Position(name, idx);
      AuditOne(nodes, done, serviceNames, errs, p);
      done := done + {p};
      serviceNames, errs := ValidateStep(nodes, nodeNames, p, serviceNames, errs);
      assert done == before + Prefix(name, idx + 1);
    }
  }

  /** The body of that loop. */
  method ValidateStep(nodes: map<string, Router>, nodeNames: seq<string>, p: Position, names: seq<string>, errors: seq<Violation>)
    returns (serviceNames: seq<string>, errs: seq<Violation>)
    requires At(nodes, p)
    requires forall k :: k in nodeNames <==> k in nodes
    ensures errs == errors + Findings(nodes, p, names)
    ensures serviceNames == NamesAfter(StepAt(nodes, p), names)
  {
    serviceNames, errs := names, errors;
    var step := StepAt(nodes, p);
    if step.name == "" || step.name !in STEP_NAMES {
      errs := errs + [BadStepName(p)];
    }
    if step.nodeName != "" && step.nodeName !in nodeNames {
      errs := errs + [UndefinedNode(p)];
    }
    if step.serviceName != "" && step.serviceName in serviceNames {
      errs := errs + [DuplicateService(p)];
    } else {
      serviceNames := serviceNames + [step.serviceName];
    }
  }

  method CheckFields(nodes: map<string, Router>) returns (errs: seq<Violation>)
    ensures errs == [] <==> Accepted(nodes)
    ensures NoRoot in errs <==> ROOT !in nodes
  {
    errs := ValidateNames(nodes);
    if ROOT !in nodes {
      errs := errs + [NoRoot];
    }
  }
}
