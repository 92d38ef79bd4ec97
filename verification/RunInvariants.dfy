/**
  What holds of every run on every graph without reference cycles, whatever the services reply and
  however the goroutines are scheduled: which services are called, how often, with which bodies, and
  which failures cannot happen.
 */
module RunInvariants {
  import opened Graph
  import opened Payload
  import opened Semantics

  // ----- the calls of a trace -----

  function Flatten(t: Trace): seq<Sent>
    decreases t
  {
    if t == [] then [] else FlattenEvent(t[0]) + Flatten(t[1..])
  }

  function FlattenEvent(e: Event): seq<Sent>
    decreases e
  {
    match e
    case Called(sent) => [sent]
    case Branch(_) => []
    case Joined(lanes) => FlattenLanes(lanes)
  }

  function FlattenLanes(lanes: seq<Lane>): seq<Sent>
    decreases lanes
  {
    if lanes == [] then [] else Flatten(lanes[0].events) + FlattenLanes(lanes[1..])
  }

  lemma {:induction false} FlattenConcat(a: Trace, b: Trace)
    ensures Flatten(a + b) == Flatten(a) + Flatten(b)
  {
    if a == [] {
      assert a + b == b;
    } else {
      FlattenConcat(a[1..], b);
      assert (a + b)[1..] == a[1..] + b;
    }
  }

  // ----- the leaves of the unfolded graph -----

  /** Leaf steps under a node when every reference is unfolded, downstream steps of chains left out. */
  ghost function Leaves(g: Graph, n: string): nat
    requires Acyclic(g)
    decreases Height(g, n), 2
  {
    LeavesFrom(g, n, 0)
  }

  ghost function LeavesFrom(g: Graph, n: string, i: nat): nat
    requires Acyclic(g)
    requires i <= |g.Node(n).steps|
    decreases Height(g, n), 1, |g.Node(n).steps| - i
  {
    var Router(kind, steps) := g.Node(n);
    if i == |steps| then 0
    else
      (if !Executed(kind, steps[i]) then 0 else StepsDescend(g, n, i); StepLeaves(g, steps[i])) + LeavesFrom(g, n, i + 1)
  }

  ghost function StepLeaves(g: Graph, s: Step): nat
    requires Acyclic(g)
    decreases StepHeight(g, s), 4
  {
    if s.Leaf() then 1 else Leaves(g, s.nodeName)
  }

  // ----- the claims -----

  /** The initial request carries an object under "parameters". */
  predicate HasParameters(c: Ctx) {
    var data := DecodeObject(c.init);
    data.Some? && PARAMETERS in data.value && data.value[PARAMETERS].Object?
  }

  function ParametersOf(c: Ctx): map<string, Json>
    requires HasParameters(c)
  {
    DecodeObject(c.init).value[PARAMETERS].fields
  }

  /** Every parameter key carries its initial value; `null` is an object with no keys to carry. */
  predicate Carries(b: Bytes, parameters: map<string, Json>) {
    match b.json
    case Some(Object(fields)) => forall k :: k in parameters ==> k in fields && fields[k] == parameters[k]
    case Some(Null) => parameters == map[]
    case _ => false
  }

  predicate AllowedBody(c: Ctx, b: Bytes) {
    HasParameters(c) ==> b == c.init || b == EMPTY || Carries(b, ParametersOf(c))
  }

  predicate IsLeafAt(g: Graph, n: string, i: nat) {
    n in g.nodes && i < |g.nodes[n].steps| && g.nodes[n].steps[i].Leaf()
  }

  /** The call was made by executing leaf step i of node n: it goes to that step's URL. */
  predicate SentBy(g: Graph, n: string, i: nat, sent: Sent) {
    && IsLeafAt(g, n, i)
    && sent.leaf == LeafOf(g.nodes[n].steps[i])
    && sent.call.url == ServiceUrl(g, g.nodes[n].steps[i])
  }

  /** A call goes to the URL of the step executed; it has an allowed body if `input` is one. */
  ghost predicate CallOk(c: Ctx, input: Bytes, sent: Sent) {
    && (exists n, i: nat :: SentBy(c.g, n, i, sent))
    && (AllowedBody(c, input) ==> AllowedBody(c, sent.call.body))
  }

  /** The router types the custom resource definition admits. */
  predicate DeclaredTypes(g: Graph) {
    forall n :: n in g.nodes ==> !g.nodes[n].kind.Unknown?
  }

  /** Router types are the declared ones and every referenced node exists. */
  predicate WellTyped(g: Graph) {
    && DeclaredTypes(g)
    && forall n, i :: n in g.nodes && 0 <= i < |g.nodes[n].steps| && !g.nodes[n].steps[i].Leaf() ==>
         g.nodes[n].steps[i].nodeName in g.nodes
  }

  /** The failed or crashed run goes back to a node of an undeclared type. */
  predicate LostRoute(out: Outcome) {
    || (out.Fault? && out.err.InvalidRoute?)
    || (out.Crash? && out.panic.NilBodyClosed? && out.panic.err.InvalidRoute?)
  }

  /** A nil body never comes with a success status, and no run gets lost in an undeclared node. */
  ghost predicate OutcomeOk(c: Ctx, out: Outcome) {
    && (out.Answer? && out.body.None? ==> out.status == 0 || out.status == 500)
    && (WellTyped(c.g) ==> !LostRoute(out))
  }

  ghost predicate RunOk(c: Ctx, input: Bytes, run: Run, budget: nat) {
    && (forall sent :: sent in Flatten(run.calls) ==> CallOk(c, input, sent))
    && |Flatten(run.calls)| <= budget
    && OutcomeOk(c, run.out)
  }

  // ----- the proof, following the interpreter -----

  lemma MergeAllowed(c: Ctx, reply: Bytes, initData: map<string, Json>)
    requires DecodeObject(c.init) == Some(initData)
    requires Merge(c.w, reply, initData).Request?
    ensures AllowedBody(c, Merge(c.w, reply, initData).body)
  {
  }

  lemma PrepareOk(c: Ctx, kind: RouterType, s: Step, first: bool, cur: Cursor, initData: map<string, Json>, input: Bytes)
    requires DecodeObject(c.init) == Some(initData)
    requires cur.body.None? ==> cur.status == 0 || cur.status == 500
    ensures
      match Prepare(c, kind, s, first, cur, initData, input)
      case Stop(out) => OutcomeOk(c, out) && (out.Fault? ==> out.status == 500)
      case Ready(request, _) => AllowedBody(c, input) ==> AllowedBody(c, request)
  {
    if s.data == RESPONSE && !first && !(cur.body.Some? && cur.body.value.broken) {
      var bytes := if cur.body.Some? then cur.body.value.data else cur.bytes;
      if Merge(c.w, bytes, initData).Request? {
        MergeAllowed(c, bytes, initData);
      }
    }
  }

  /** One run after the other. */
  lemma RunsConcat(c: Ctx, request: Bytes, input: Bytes, first: Run, budget: nat, rest: Run, more: nat)
    requires RunOk(c, request, first, budget) && RunOk(c, input, rest, more)
    requires AllowedBody(c, input) ==> AllowedBody(c, request)
    ensures RunOk(c, input, Run(first.calls + rest.calls, rest.out), budget + more)
  {
    FlattenConcat(first.calls, rest.calls);
  }

  lemma {:induction false} ChainOk(c: Ctx, n: string, initData: map<string, Json>, i: nat, cur: Cursor, input: Bytes, past: Trace)
    requires Acyclic(c.g) && n in c.g.nodes && !c.g.Node(n).kind.Ensemble?
    requires i <= |c.g.Node(n).steps|
    requires DecodeObject(c.init) == Some(initData)
    requires cur.body.None? ==> cur.status == 0 || cur.status == 500
    ensures
      var run := ChainFrom(c, n, initData, i, cur, input, past);
      RunOk(c, input, run, LeavesFrom(c.g, n, i)) && (run.out.Fault? ==> run.out.status == 500)
    decreases Height(c.g, n), 1, |c.g.Node(n).steps| - i
  {
    var Router(kind, steps) := c.g.Node(n);
    if i == |steps| {
    } else if Skipped(c, kind, steps[i]) {
      ChainOk(c, n, initData, i + 1, cur, input, past);
    } else {
      PrepareOk(c, kind, steps[i], i == 0, cur, initData, input);
      match Prepare(c, kind, steps[i], i == 0, cur, initData, input)
      case Stop(_) =>
      case Ready(request, bytes) =>
        StepsDescend(c.g, n, i);
        ExecuteOk(c, n, i, request, past);
        var sub := Execute(c, steps[i], request, past);
        match Judge(kind, steps[i], sub.out)
        case Halt(_) =>
        case Continue(body, status) =>
          var next := Cursor(body, status, bytes);
          ChainOk(c, n, initData, i + 1, next, input, past + sub.calls);
          RunsConcat(c, request, input, sub, StepLeaves(c.g, steps[i]),
                     ChainFrom(c, n, initData, i + 1, next, input, past + sub.calls), LeavesFrom(c.g, n, i + 1));
    }
  }

  lemma {:induction false} WorkersOk(c: Ctx, n: string, i: nat, input: Bytes, past: Trace)
    requires Acyclic(c.g) && n in c.g.nodes && c.g.Node(n).kind.Ensemble?
    requires i <= |c.g.Node(n).steps|
    ensures
      var runs := Workers(c, n, i, input, past);
      && (forall sent :: sent in FlattenLanes(Lanes(runs)) ==> CallOk(c, input, sent))
      && |FlattenLanes(Lanes(runs))| <= LeavesFrom(c.g, n, i)
      && forall k :: 0 <= k < |runs| ==> OutcomeOk(c, runs[k].out)
    decreases Height(c.g, n), 1, |c.g.Node(n).steps| - i
  {
    var steps := c.g.Node(n).steps;
    if i < |steps| {
      StepsDescend(c.g, n, i);
      ExecuteOk(c, n, i, input, past + [Branch(i)]);
      WorkersOk(c, n, i + 1, input, past);
      var runs := Workers(c, n, i, input, past);
      var rest := Workers(c, n, i + 1, input, past);
      assert runs[1..] == rest;
      assert Lanes(runs)[1..] == Lanes(rest);
    }
  }

  lemma {:induction false} ExecuteOk(c: Ctx, n: string, i: nat, request: Bytes, past: Trace)
    requires Acyclic(c.g) && n in c.g.nodes && i < |c.g.nodes[n].steps|
    ensures RunOk(c, request, Execute(c, c.g.nodes[n].steps[i], request, past), StepLeaves(c.g, c.g.nodes[n].steps[i]))
    decreases StepHeight(c.g, c.g.nodes[n].steps[i]), 4
  {
    var s := c.g.nodes[n].steps[i];
    if s.Leaf() {
      var run := Execute(c, s, request, past);
      assert run.calls[1..] == [];
      assert SentBy(c.g, n, i, run.calls[0].sent);
    } else {
      RouteOk(c, s.nodeName, request, past);
    }
  }

  lemma {:induction false} EnsembleOk(c: Ctx, n: string, input: Bytes, past: Trace)
    requires Acyclic(c.g) && n in c.g.nodes && c.g.Node(n).kind.Ensemble?
    ensures RunOk(c, input, EnsembleNode(c, n, input, past), LeavesFrom(c.g, n, 0))
    ensures EnsembleNode(c, n, input, past).out.Fault? ==> EnsembleNode(c, n, input, past).out.status == 500
    decreases Height(c.g, n), 2
  {
    WorkersOk(c, n, 0, input, past);
    var runs := Workers(c, n, 0, input, past);
    var run := EnsembleNode(c, n, input, past);
    assert run.calls == [Joined(Lanes(runs))];
    assert run.calls[1..] == [];
    assert Flatten(run.calls) == FlattenLanes(Lanes(runs));
    AnswerOk(c, c.g.Node(n).steps, runs, c.w.scheduler(past, Messages(runs)));
  }

  lemma AnswerOk(c: Ctx, steps: seq<Step>, runs: seq<Run>, choice: nat)
    requires |steps| == |runs|
    requires forall k :: 0 <= k < |runs| ==> OutcomeOk(c, runs[k].out)
    ensures
      var out := EnsembleAnswer(c.w, steps, Messages(runs), choice);
      OutcomeOk(c, out) && (out.Fault? ==> out.status == 500)
  {
    var msgs := Messages(runs);
    forall k | 0 <= k < |runs|
      ensures msgs[k].Panicked? && WellTyped(c.g) ==> !LostRoute(Crash(msgs[k].panic))
    {
      assert OutcomeOk(c, runs[k].out);
    }
    assert forall k :: 0 <= k < |msgs| && msgs[k].Undecodable? ==> msgs[k].err.DecodeFailure?;
  }

  /** Every run from every node of the graph. */
  lemma {:induction false} RouteOk(c: Ctx, n: string, input: Bytes, past: Trace)
    requires Acyclic(c.g)
    requires WellTyped(c.g) ==> n in c.g.nodes
    ensures RunOk(c, input, Route(c, n, input, past), Leaves(c.g, n))
    ensures Route(c, n, input, past).out.Fault? ==> Route(c, n, input, past).out.status == 500
    decreases Height(c.g, n), 3
  {
    var kind := c.g.Node(n).kind;
    if kind.Ensemble? {
      EnsembleOk(c, n, input, past);
    } else if !kind.Unknown? {
      var initData := DecodeObject(c.init);
      if initData.Some? {
        ChainOk(c, n, initData.value, 0, START, input, past);
      }
    }
  }

  /**
    The whole request, entering at a root with its own bytes: it ends; each call is made by executing a
    leaf step and goes to that step's URL; there are as many as there are leaves at most; with an object
    of parameters in the request every body sent, at any depth, is the request, empty, or carries each
    parameter with its initial value; a nil body has status 0 or 500 and a fault has status 500; and in a
    well-typed graph it never ends in "invalid route type", which holds of each inner node as well, since
    the root may be any node.
   */
  lemma RequestOk(c: Ctx, root: string)
    requires Acyclic(c.g)
    requires WellTyped(c.g) ==> root in c.g.nodes
    ensures
      var Run(calls, out) := Route(c, root, c.init, []);
      && (forall sent :: sent in Flatten(calls) ==>
           && (exists n, i: nat :: SentBy(c.g, n, i, sent))
           && (HasParameters(c) ==>
                sent.call.body == c.init || sent.call.body == EMPTY || Carries(sent.call.body, ParametersOf(c))))
      && |Flatten(calls)| <= Leaves(c.g, root)
      && (out.Fault? ==> out.status == 500)
      && (out.Answer? && out.body.None? ==> out.status == 0 || out.status == 500)
      && (WellTyped(c.g) ==> !LostRoute(out))
  {
    RouteOk(c, root, c.init, []);
    var run := Route(c, root, c.init, []);
    forall sent | sent in Flatten(run.calls)
      ensures CallOk(c, c.init, sent)
    {
    }
  }
}
