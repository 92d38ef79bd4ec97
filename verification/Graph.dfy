/** The GMConnector custom resource: nodes of routed steps, as the webhook, the controller and the router see it. */
module Graph {

  datatype Option<+T> = None | Some(value: T)

  datatype Dependency = Unset | Soft | Hard

  /** Unknown covers every router type string outside the three declared ones, the empty one included. */
  datatype RouterType = Sequence | Ensemble | Switch | Unknown(name: string)

  datatype Step = Step(
    name: string,
    nodeName: string,
    serviceName: string,
    namespace: string,
    config: map<string, string>,
    downstream: bool,
    externalService: string,
    data: string,
    condition: string,
    dependency: Dependency,
    serviceUrl: string)
  {
    /** A step that names no node is served by a service call. */
    predicate Leaf() {
      nodeName == ""
    }
  }

  datatype Router = Router(kind: RouterType, steps: seq<Step>)

  datatype Graph = Graph(namespace: string, nodes: map<string, Router>)
  {
    /** Indexing a Go map with a missing key gives the zero router. */
    function Node(n: string): Router {
      if n in nodes then nodes[n] else Router(Unknown(""), [])
    }
  }

  /** Downstream steps of Sequence and Switch nodes are never executed. */
  predicate Executed(kind: RouterType, s: Step) {
    !s.downstream || !(kind.Sequence? || kind.Switch?)
  }

  /** The node references the router can follow descend in `rank`. */
  ghost predicate Ranked(g: Graph, rank: string -> nat) {
    forall n, i {:trigger rank(g.nodes[n].steps[i].nodeName)} ::
      n in g.nodes && 0 <= i < |g.nodes[n].steps| && !g.nodes[n].steps[i].Leaf() &&
      Executed(g.nodes[n].kind, g.nodes[n].steps[i]) ==>
        rank(g.nodes[n].steps[i].nodeName) < rank(n)
  }

  /** No cycle of references that the router follows. */
  ghost predicate Acyclic(g: Graph) {
    exists rank: string -> nat :: Ranked(g, rank)
  }

  ghost function RankOf(g: Graph): (rank: string -> nat)
    requires Acyclic(g)
    ensures Ranked(g, rank)
  {
    var rank: string -> nat :| Ranked(g, rank);
    rank
  }

  /** Height of a node above the leaf steps; a termination measure. */
  ghost function Height(g: Graph, n: string): nat
    requires Acyclic(g)
  {
    RankOf(g)(n) + 1
  }

  ghost function StepHeight(g: Graph, s: Step): nat
    requires Acyclic(g)
  {
    if s.Leaf() then 0 else Height(g, s.nodeName)
  }

  lemma StepsDescend(g: Graph, n: string, i: nat)
    requires Acyclic(g)
    requires i < |g.Node(n).steps| && Executed(g.Node(n).kind, g.Node(n).steps[i])
    ensures StepHeight(g, g.Node(n).steps[i]) < Height(g, n)
  {
  }
}
