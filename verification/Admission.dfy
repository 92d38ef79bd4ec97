/** What admission by the webhook guarantees to the router, and what it does not. */
module Admission {
  import opened Graph
  import opened Payload
  import opened Semantics
  import opened RunInvariants
  import opened Webhook
  import opened Depth
  import opened Downstream
  import opened Cycles

  lemma AcceptedIsWellTyped(g: Graph)
    requires Accepted(g.nodes) && DeclaredTypes(g)
    ensures WellTyped(g)
  {
    forall n, i | n in g.nodes && 0 <= i < |g.nodes[n].steps| && !g.nodes[n].steps[i].Leaf()
      ensures g.nodes[n].steps[i].nodeName in g.nodes
    {
      assert Position(n, i) in Positions(g.nodes);
    }
  }

  /**
    On an accepted graph without reference cycles every request ends, never for want of a node or a
    router type, neither at the root nor in any node on the way, whatever input it is handed there, after
    as many calls as there are leaves at most, whatever the services and the scheduler do.
   */
  lemma AcceptedRequestEnds(g: Graph, w: World, init: Bytes, n: string, input: Bytes, past: Trace)
    requires Accepted(g.nodes) && DeclaredTypes(g) && Acyclic(g)
    requires n in g.nodes
    ensures "root" in g.nodes
    ensures !LostRoute(Route(Ctx(w, g, init), n, input, past).out)
    ensures |Flatten(Route(Ctx(w, g, init), n, input, past).calls)| <= Leaves(g, n)
  {
    AcceptedIsWellTyped(g);
    RouteOk(Ctx(w, g, init), n, input, past);
  }

  /**
    The webhook does not look for cycles. Every request ends just if none can be reached from the root:
    fewer references can be followed from there than there are nodes.
   */
  lemma AcceptedEndsExactly(g: Graph)
    requires Accepted(g.nodes) && DeclaredTypes(g) && AllBegin(g)
    ensures "root" in g.nodes
    ensures (forall w: World, init :: Ends(Ctx(w, g, init), "root", init, [])) <==> Descends(g, "root", |g.nodes| - 1)
  {
    AcceptedIsWellTyped(g);
    RequestsEndExactly(g, ROOT);
  }

  function SelfReference(): Graph {
    var s := Step("Llm", ROOT, "", "", map[], false, "", "", "", Hard, "");
    Graph("default", map[ROOT := Router(Sequence, [s])])
  }

  /**
    A root that routes to itself passes the webhook, and then the router, whatever the depth of nesting
    it is allowed, has no answer to any request it can decode.
   */
  lemma AcceptedGraphNeverAnswers(w: World, init: Bytes, input: Bytes, past: Trace, depth: nat)
    ensures Accepted(SelfReference().nodes) && DeclaredTypes(SelfReference()) && !Acyclic(SelfReference())
    ensures Within(Ctx(w, SelfReference(), init), ROOT, input, past, depth).None? <==> DecodeObject(init).Some?
  {
    var g := SelfReference();
    var c := Ctx(w, g, init);
    assert STEP_NAMES[10] == "Llm";
    if Acyclic(g) {
      StepsDescend(g, ROOT, 0);
      assert false;
    }
    assert FirstLive(g.Node(ROOT).steps, 0);
    assert Trap(g, {ROOT}) by {
      assert StuckAt(g, {ROOT}, ROOT, 0);
    }
    if DecodeObject(init).Some? {
      TrapNeverAnswers(c, {ROOT}, ROOT, input, past, depth);
    }
  }
}
