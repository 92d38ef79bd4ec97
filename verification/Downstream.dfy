/**
  Steps flagged as downstream services are skipped by Sequence and Switch nodes. Deleting them from
  every such node changes no run, except where the deletion moves a `$response` step to the front of
  its node: there, and only there, the step would be sent the node's input instead of an empty body.
  A conditional step of a Sequence is no exception to anything in that place: before any reply has been
  read its condition cannot even be looked up, and the node fails whatever the step would be sent.
 */
module Downstream {
  import opened Graph
  import opened Payload
  import opened Semantics
  import opened RunInvariants

  function Live(steps: seq<Step>): (r: seq<Step>)
    ensures |r| <= |steps|
  {
    if steps == [] then []
    else if steps[|steps| - 1].downstream then Live(steps[..|steps| - 1])
    else Live(steps[..|steps| - 1]) + [steps[|steps| - 1]]
  }

  function PruneRouter(r: Router): Router {
    if r.kind.Sequence? || r.kind.Switch? then r.(steps := Live(r.steps)) else r
  }

  function Prune(g: Graph): Graph {
    g.(nodes := map n | n in g.nodes :: PruneRouter(g.nodes[n]))
  }

  /** Step i is the first one that is not downstream. */
  predicate FirstLive(steps: seq<Step>, i: nat) {
    i < |steps| && !steps[i].downstream && forall k :: 0 <= k < i ==> steps[k].downstream
  }

  /** Empty bytes are no valid JSON, as the query library has it. */
  predicate Lawful(w: World) {
    !w.valid(EMPTY)
  }

  /** A `$response` step behind downstream steps only, that its node can get to. */
  predicate LateResponse(r: Router, i: nat) {
    && (r.kind.Sequence? || r.kind.Switch?)
    && i > 0 && FirstLive(r.steps, i) && r.steps[i].data == RESPONSE
    && (r.kind.Sequence? ==> r.steps[i].condition == "")
  }

  ghost predicate NoLateResponse(g: Graph) {
    forall n, i: nat :: n in g.nodes ==> !LateResponse(g.nodes[n], i)
  }

  // ----- indices -----

  lemma {:induction false} LivePrefix(steps: seq<Step>, i: nat)
    requires i <= |steps|
    ensures Live(steps[..i]) <= Live(steps)
    decreases |steps|
  {
    if i < |steps| {
      LivePrefix(steps[..|steps| - 1], i);
      assert steps[..|steps| - 1][..i] == steps[..i];
    } else {
      assert steps[..i] == steps;
    }
  }

  /** How many of the first i steps are live. */
  function Place(steps: seq<Step>, i: nat): (r: nat)
    requires i <= |steps|
    ensures r <= i
  {
    if i == 0 then 0 else Place(steps, i - 1) + if steps[i - 1].downstream then 0 else 1
  }

  lemma {:induction false} PlaceIsLength(steps: seq<Step>, i: nat)
    requires i <= |steps|
    ensures Place(steps, i) == |Live(steps[..i])|
  {
    if i > 0 {
      PlaceIsLength(steps, i - 1);
      assert steps[..i][..i - 1] == steps[..i - 1];
    }
  }

  lemma PlaceInLive(steps: seq<Step>, i: nat)
    requires i <= |steps|
    ensures Place(steps, i) <= |Live(steps)|
    ensures i == |steps| ==> Place(steps, i) == |Live(steps)|
  {
    PlaceIsLength(steps, i);
    LivePrefix(steps, i);
    assert steps[..|steps|] == steps;
  }

  /** A live step keeps its place among the live steps. */
  lemma LiveAt(steps: seq<Step>, i: nat)
    requires i < |steps| && !steps[i].downstream
    ensures Place(steps, i) < |Live(steps)| && Live(steps)[Place(steps, i)] == steps[i]
  {
    PlaceIsLength(steps, i);
    PlaceIsLength(steps, i + 1);
    assert steps[..i + 1][..i] == steps[..i];
    LivePrefix(steps, i + 1);
  }

  lemma {:induction false} NoneLive(steps: seq<Step>, i: nat)
    requires i <= |steps|
    ensures Place(steps, i) == 0 <==> forall k :: 0 <= k < i ==> steps[k].downstream
  {
    if i > 0 {
      NoneLive(steps, i - 1);
    }
  }

  lemma PruneStaysAcyclic(g: Graph)
    requires Acyclic(g)
    ensures Acyclic(Prune(g))
  {
    var rank := RankOf(g);
    forall n, i | n in g.nodes && 0 <= i < |Prune(g).nodes[n].steps| && !Prune(g).nodes[n].steps[i].Leaf() &&
                  Executed(Prune(g).nodes[n].kind, Prune(g).nodes[n].steps[i])
      ensures rank(Prune(g).nodes[n].steps[i].nodeName) < rank(n)
    {
      LiveFrom(g.nodes[n].steps, i);
      var j :| 0 <= j < |g.nodes[n].steps| && g.nodes[n].steps[j] == Prune(g).nodes[n].steps[i];
      assert rank(g.nodes[n].steps[j].nodeName) < rank(n);
    }
    assert Ranked(Prune(g), rank);
  }

  lemma {:induction false} LiveFrom(steps: seq<Step>, j: nat)
    ensures j < |Live(steps)| ==> Live(steps)[j] in steps
  {
    if steps != [] {
      LiveFrom(steps[..|steps| - 1], j);
    }
  }

  // ----- the proof, by induction on the height of the node -----

  lemma {:induction false} ChainSame(c: Ctx, c': Ctx, n: string, d: map<string, Json>, i: nat, cur: Cursor, input: Bytes, past: Trace)
    requires Acyclic(c.g) && c' == c.(g := Prune(c.g)) && Acyclic(c'.g)
    requires NoLateResponse(c.g) && Lawful(c.w)
    requires c.g.Node(n).kind.Sequence? || c.g.Node(n).kind.Switch?
    requires i <= |c.g.Node(n).steps|
    requires Place(c.g.Node(n).steps, i) == 0 ==> cur == START
    ensures Place(c.g.Node(n).steps, i) <= |c'.g.Node(n).steps|
    ensures ChainFrom(c, n, d, i, cur, input, past) == ChainFrom(c', n, d, Place(c.g.Node(n).steps, i), cur, input, past)
    decreases Height(c.g, n), 1, |c.g.Node(n).steps| - i
  {
    var Router(kind, steps) := c.g.Node(n);
    PlaceInLive(steps, i);
    if i < |steps| {
      if steps[i].downstream {
        ChainSame(c, c', n, d, i + 1, cur, input, past);
      } else {
        LiveAt(steps, i);
        if Skipped(c, kind, steps[i]) {
          ChainSame(c, c', n, d, i + 1, cur, input, past);
        } else {
          LiveStepSame(c, c', n, d, i, cur, input, past);
        }
      }
    }
  }

  /** A live step is prepared alike at both places: only at the front of its node would its index matter. */
  lemma PrepareSame(c: Ctx, c': Ctx, n: string, d: map<string, Json>, i: nat, cur: Cursor, input: Bytes)
    requires c' == c.(g := Prune(c.g))
    requires NoLateResponse(c.g) && Lawful(c.w)
    requires c.g.Node(n).kind.Sequence? || c.g.Node(n).kind.Switch?
    requires i < |c.g.Node(n).steps| && !c.g.Node(n).steps[i].downstream
    requires Place(c.g.Node(n).steps, i) == 0 ==> cur == START
    ensures
      var Router(kind, steps) := c.g.Node(n);
      Prepare(c, kind, steps[i], i == 0, cur, d, input) == Prepare(c', kind, steps[i], Place(steps, i) == 0, cur, d, input)
  {
    NoneLive(c.g.Node(n).steps, i);
    assert !LateResponse(c.g.nodes[n], i);
  }

  lemma {:induction false} LiveStepSame(c: Ctx, c': Ctx, n: string, d: map<string, Json>, i: nat, cur: Cursor, input: Bytes, past: Trace)
    requires Acyclic(c.g) && c' == c.(g := Prune(c.g)) && Acyclic(c'.g)
    requires NoLateResponse(c.g) && Lawful(c.w)
    requires c.g.Node(n).kind.Sequence? || c.g.Node(n).kind.Switch?
    requires i < |c.g.Node(n).steps|
    requires !Skipped(c, c.g.Node(n).kind, c.g.Node(n).steps[i])
    requires Place(c.g.Node(n).steps, i) == 0 ==> cur == START
    ensures Place(c.g.Node(n).steps, i) <= |c'.g.Node(n).steps|
    ensures ChainFrom(c, n, d, i, cur, input, past) == ChainFrom(c', n, d, Place(c.g.Node(n).steps, i), cur, input, past)
    decreases Height(c.g, n), 1, |c.g.Node(n).steps| - i, 0
  {
    var Router(kind, steps) := c.g.Node(n);
    var j := Place(steps, i);
    LiveAt(steps, i);
    PrepareSame(c, c', n, d, i, cur, input);
    var ready := Prepare(c, kind, steps[i], i == 0, cur, d, input);
    assert c'.g.Node(n) == Router(kind, Live(steps)) && Live(steps)[j] == steps[i];
    var request := if ready.Ready? then ready.request else EMPTY;
    StepsDescend(c.g, n, i);
    ExecuteSame(c, c', steps[i], request, past);
    var sub := Execute(c, steps[i], request, past);
    var verdict := Judge(kind, steps[i], sub.out);
    if ready.Ready? && verdict.Continue? {
      ChainSame(c, c', n, d, i + 1, Cursor(verdict.body, verdict.status, ready.bytes), input, past + sub.calls);
    }
    ChainStepSame(c, c', n, n, d, i, j, cur, cur, input, input, past, ready, sub, verdict);
  }

  lemma {:induction false} WorkersSame(c: Ctx, c': Ctx, n: string, i: nat, input: Bytes, past: Trace)
    requires Acyclic(c.g) && c' == c.(g := Prune(c.g)) && Acyclic(c'.g)
    requires NoLateResponse(c.g) && Lawful(c.w)
    requires c.g.Node(n).kind.Ensemble?
    requires i <= |c.g.Node(n).steps|
    ensures Workers(c, n, i, input, past) == Workers(c', n, i, input, past)
    decreases Height(c.g, n), 1, |c.g.Node(n).steps| - i
  {
    var steps := c.g.Node(n).steps;
    if i < |steps| {
      StepsDescend(c.g, n, i);
      ExecuteSame(c, c', steps[i], input, past + [Branch(i)]);
      WorkersSame(c, c', n, i + 1, input, past);
    }
  }

  lemma {:induction false} ExecuteSame(c: Ctx, c': Ctx, s: Step, request: Bytes, past: Trace)
    requires Acyclic(c.g) && c' == c.(g := Prune(c.g)) && Acyclic(c'.g)
    requires NoLateResponse(c.g) && Lawful(c.w)
    ensures Execute(c, s, request, past) == Execute(c', s, request, past)
    decreases StepHeight(c.g, s), 4
  {
    if !s.Leaf() {
      RouteSame(c, c', s.nodeName, request, past);
    }
  }

  lemma {:induction false} RouteSame(c: Ctx, c': Ctx, n: string, input: Bytes, past: Trace)
    requires Acyclic(c.g) && c' == c.(g := Prune(c.g)) && Acyclic(c'.g)
    requires NoLateResponse(c.g) && Lawful(c.w)
    ensures Route(c, n, input, past) == Route(c', n, input, past)
    decreases Height(c.g, n), 3
  {
    match c.g.Node(n).kind
    case Unknown(_) =>
    case Ensemble => WorkersSame(c, c', n, 0, input, past);
    case _ =>
      var d := DecodeObject(c.init);
      if d.Some? {
        ChainSame(c, c', n, d.value, 0, START, input, past);
      }
  }

  // ----- the condition cannot be dropped -----

  /** Services that always answer 200, in a world where every condition on a request holds. */
  function Probe(): World {
    World((past, call) => Replied(InMemory(EMPTY), 200), (past, msgs) => 0, j => "", b => b != EMPTY,
          (b, path) => Some(""), s => s)
  }

  const PROBE_REQUEST := Bytes("{}", Some(Object(map[])))

  /** The first live step of a node, if it passes the node's input on and can be reached. */
  predicate PassesOn(r: Router, i: nat) {
    && FirstLive(r.steps, i)
    && (i == 0 || r.steps[i].data != RESPONSE)
    && (r.kind.Sequence? ==> r.steps[i].condition == "")
  }

  /**
    The step's request is the body of the first call that executing it makes: a leaf step, or one that
    names a node whose first step does the same with the node's input.
   */
  ghost predicate Delivers(g: Graph, s: Step)
    requires Acyclic(g)
    decreases StepHeight(g, s), 1
  {
    s.Leaf() || DeliversNode(g, s.nodeName)
  }

  ghost predicate DeliversNode(g: Graph, n: string)
    requires Acyclic(g)
    decreases Height(g, n), 0
  {
    var Router(kind, steps) := g.Node(n);
    if kind.Ensemble? then |steps| > 0 && (StepsDescend(g, n, 0); Delivers(g, steps[0]))
    else (kind.Sequence? || kind.Switch?) &&
         exists i: nat :: PassesOn(g.Node(n), i) && (StepsDescend(g, n, i); Delivers(g, steps[i]))
  }

  ghost predicate StartsWith(run: Run, body: Bytes) {
    Flatten(run.calls) != [] && Flatten(run.calls)[0].call.body == body
  }

  lemma StartsWithPrefix(run: Run, more: Trace, out: Outcome, body: Bytes)
    requires StartsWith(run, body)
    ensures StartsWith(Run(run.calls + more, out), body)
  {
    FlattenConcat(run.calls, more);
  }

  /** Up to its first live step a chain does nothing. */
  lemma {:induction false} SkipToFirst(c: Ctx, n: string, d: map<string, Json>, j: nat, i: nat, input: Bytes, past: Trace)
    requires Acyclic(c.g) && FirstLive(c.g.Node(n).steps, i) && j <= i
    ensures ChainFrom(c, n, d, j, START, input, past) == ChainFrom(c, n, d, i, START, input, past)
    decreases i - j
  {
    if j < i {
      SkipToFirst(c, n, d, j + 1, i, input, past);
    }
  }

  /** The first live step of a chain is executed in the probe world, and its calls come first. */
  lemma {:induction false} FirstCalls(g: Graph, n: string, i: nat, request: Bytes, input: Bytes, past: Trace)
    requires Acyclic(g)
    requires g.Node(n).kind.Sequence? || g.Node(n).kind.Switch?
    requires FirstLive(g.Node(n).steps, i) && (g.Node(n).kind.Sequence? ==> g.Node(n).steps[i].condition == "")
    requires request == if i > 0 && g.Node(n).steps[i].data == RESPONSE then EMPTY else input
    requires StartsWith(Execute(Ctx(Probe(), g, PROBE_REQUEST), g.Node(n).steps[i], request, past), request)
    ensures StartsWith(Route(Ctx(Probe(), g, PROBE_REQUEST), n, input, past), request)
  {
    var c := Ctx(Probe(), g, PROBE_REQUEST);
    var Router(kind, steps) := g.Node(n);
    assert Route(c, n, input, past) == ChainFrom(c, n, map[], 0, START, input, past);
    SkipToFirst(c, n, map[], 0, i, input, past);
    assert PicksRoute(c.w, c.init, steps[i].condition) by {
      assert c.w.query(c.init, steps[i].condition).Some?;
    }
    assert Prepare(c, kind, steps[i], i == 0, START, map[], input) == Ready(request, EMPTY);
    ChainStep(c, n, map[], i, START, input, past);
    var sub := Execute(c, steps[i], request, past);
    var verdict := Judge(kind, steps[i], sub.out);
    if verdict.Continue? {
      var rest := ChainFrom(c, n, map[], i + 1, Cursor(verdict.body, verdict.status, EMPTY), input, past + sub.calls);
      StartsWithPrefix(sub, rest.calls, rest.out, request);
    }
  }

  lemma {:induction false} StepDelivers(g: Graph, s: Step, request: Bytes, past: Trace)
    requires Acyclic(g) && Delivers(g, s)
    ensures StartsWith(Execute(Ctx(Probe(), g, PROBE_REQUEST), s, request, past), request)
    decreases StepHeight(g, s), 1
  {
    if s.Leaf() {
      var run := Execute(Ctx(Probe(), g, PROBE_REQUEST), s, request, past);
      assert run.calls[1..] == [];
    } else {
      NodeDelivers(g, s.nodeName, request, past);
    }
  }

  lemma {:induction false} NodeDelivers(g: Graph, n: string, input: Bytes, past: Trace)
    requires Acyclic(g) && DeliversNode(g, n)
    ensures StartsWith(Route(Ctx(Probe(), g, PROBE_REQUEST), n, input, past), input)
    decreases Height(g, n), 0
  {
    var c := Ctx(Probe(), g, PROBE_REQUEST);
    var Router(kind, steps) := g.Node(n);
    if kind.Ensemble? {
      StepsDescend(g, n, 0);
      StepDelivers(g, steps[0], input, past + [Branch(0)]);
      var runs := Workers(c, n, 0, input, past);
      var run := Route(c, n, input, past);
      assert run == EnsembleNode(c, n, input, past);
      assert run.calls == [Joined(Lanes(runs))] && run.calls[1..] == [];
      assert Flatten(run.calls) == FlattenLanes(Lanes(runs));
      assert runs[0] == Execute(c, steps[0], input, past + [Branch(0)]);
    } else {
      var i: nat :| PassesOn(g.Node(n), i) && (StepsDescend(g, n, i); Delivers(g, steps[i]));
      StepsDescend(g, n, i);
      StepDelivers(g, steps[i], input, past);
      FirstCalls(g, n, i, input, input, past);
    }
  }

  /** A step that delivers its request does so in the pruned graph as well. */
  lemma {:induction false} PruneDelivers(g: Graph, s: Step)
    requires Acyclic(g) && Acyclic(Prune(g)) && Delivers(g, s)
    ensures Delivers(Prune(g), s)
    decreases StepHeight(g, s)
  {
    if !s.Leaf() {
      var n := s.nodeName;
      var Router(kind, steps) := g.Node(n);
      if kind.Ensemble? {
        StepsDescend(g, n, 0);
        PruneDelivers(g, steps[0]);
      } else {
        var i: nat :| PassesOn(g.Node(n), i) && (StepsDescend(g, n, i); Delivers(g, steps[i]));
        StepsDescend(g, n, i);
        PruneDelivers(g, steps[i]);
        FirstLivePlace(g, n, i);
        assert PassesOn(Prune(g).Node(n), 0);
        StepsDescend(Prune(g), n, 0);
      }
    }
  }

  /** The first live step comes to the front. */
  lemma FirstLivePlace(g: Graph, n: string, i: nat)
    requires n in g.nodes && (g.nodes[n].kind.Sequence? || g.nodes[n].kind.Switch?) && FirstLive(g.nodes[n].steps, i)
    ensures FirstLive(Prune(g).nodes[n].steps, 0) && Prune(g).nodes[n].steps[0] == g.nodes[n].steps[i]
  {
    LiveAt(g.nodes[n].steps, i);
    NoneLive(g.nodes[n].steps, i);
  }

  /** There the first call is sent an empty body before the deletion and the node's input after it. */
  lemma LateResponseMatters(g: Graph, n: string, i: nat, input: Bytes)
    requires Acyclic(g) && n in g.nodes
    requires LateResponse(g.nodes[n], i) && Delivers(g, g.nodes[n].steps[i])
    requires input != EMPTY
    ensures Acyclic(Prune(g)) && Lawful(Probe())
    ensures StartsWith(Route(Ctx(Probe(), g, PROBE_REQUEST), n, input, []), EMPTY)
    ensures StartsWith(Route(Ctx(Probe(), Prune(g), PROBE_REQUEST), n, input, []), input)
  {
    PruneStaysAcyclic(g);
    var s := g.nodes[n].steps[i];
    FirstLivePlace(g, n, i);
    PruneDelivers(g, s);
    StepDelivers(g, s, EMPTY, []);
    FirstCalls(g, n, i, EMPTY, input, []);
    StepDelivers(Prune(g), s, input, []);
    FirstCalls(Prune(g), n, 0, input, input, []);
  }

  /** Pruning preserves every run for all services and schedules. */
  lemma PrunePreservesRuns(g: Graph, w: World, init: Bytes, n: string, input: Bytes, past: Trace)
    requires Acyclic(g) && NoLateResponse(g) && Lawful(w)
    ensures Acyclic(Prune(g))
    ensures Route(Ctx(w, Prune(g), init), n, input, past) == Route(Ctx(w, g, init), n, input, past)
  {
    PruneStaysAcyclic(g);
    RouteSame(Ctx(w, g, init), Ctx(w, Prune(g), init), n, input, past);
  }

  ghost predicate SameRuns(g: Graph, g': Graph)
    requires Acyclic(g) && Acyclic(g')
  {
    forall w: World, init, n, input, past :: Lawful(w) ==>
      Route(Ctx(w, g, init), n, input, past) == Route(Ctx(w, g', init), n, input, past)
  }

  /** Every chain has a step to begin with, and a Sequence begins unconditionally. */
  ghost predicate AllBegin(g: Graph) {
    forall n :: n in g.nodes && !g.nodes[n].kind.Ensemble? ==> exists i: nat :: Begins(g.nodes[n], i)
  }

  /** Nothing bars the way to a step. */
  ghost predicate Lively(g: Graph) {
    WellTyped(g) && AllBegin(g)
  }

  predicate Begins(r: Router, i: nat) {
    FirstLive(r.steps, i) && (r.kind.Sequence? ==> r.steps[i].condition == "")
  }

  /** Some late `$response` step hands its request to a call. */
  ghost predicate LateAndDelivered(g: Graph)
    requires Acyclic(g)
  {
    exists n, i: nat :: n in g.nodes && LateResponse(g.nodes[n], i) && Delivers(g, g.nodes[n].steps[i])
  }

  /** A node delivers its input, unless there is a late step on the way that delivers its request instead. */
  lemma {:induction false} DeliversOrLate(g: Graph, n: string)
    requires Acyclic(g) && Lively(g) && n in g.nodes
    requires forall m :: m in g.nodes && g.nodes[m].kind.Ensemble? ==> g.nodes[m].steps != []
    ensures DeliversNode(g, n) || LateAndDelivered(g)
    decreases Height(g, n)
  {
    var r := g.nodes[n];
    var i: nat := 0;
    if !r.kind.Ensemble? {
      i :| Begins(r, i);
    }
    StepsDescend(g, n, i);
    if !r.steps[i].Leaf() {
      DeliversOrLate(g, r.steps[i].nodeName);
    }
    if Delivers(g, r.steps[i]) && !r.kind.Ensemble? && !LateResponse(r, i) {
      assert PassesOn(g.Node(n), i);
    }
  }

  /**
    The condition is exact, in graphs where nothing bars the way to a step and no ensemble is empty: the
    deletion preserves all runs just if no `$response` step comes to the front of its node.
   */
  lemma PruneExact(g: Graph)
    requires Acyclic(g) && Lively(g)
    requires forall m :: m in g.nodes && g.nodes[m].kind.Ensemble? ==> g.nodes[m].steps != []
    ensures Acyclic(Prune(g))
    ensures SameRuns(g, Prune(g)) <==> NoLateResponse(g)
  {
    if n, i: nat :| n in g.nodes && LateResponse(g.nodes[n], i) {
      if !g.nodes[n].steps[i].Leaf() {
        DeliversOrLate(g, g.nodes[n].steps[i].nodeName);
      }
      assert LateAndDelivered(g);
    }
    PruneExactWhereDelivered(g);
  }

  /** It is exact in any graph in which a late step, if there is one, delivers its request. */
  lemma PruneExactWhereDelivered(g: Graph)
    requires Acyclic(g)
    requires !NoLateResponse(g) ==> LateAndDelivered(g)
    ensures Acyclic(Prune(g))
    ensures SameRuns(g, Prune(g)) <==> NoLateResponse(g)
  {
    PruneStaysAcyclic(g);
    if NoLateResponse(g) {
      forall w: World, init, n, input, past | Lawful(w)
        ensures Route(Ctx(w, g, init), n, input, past) == Route(Ctx(w, Prune(g), init), n, input, past)
      {
        PrunePreservesRuns(g, w, init, n, input, past);
      }
    } else {
      var n, i: nat :| n in g.nodes && LateResponse(g.nodes[n], i) && Delivers(g, g.nodes[n].steps[i]);
      LateResponseMatters(g, n, i, PROBE_REQUEST);
      assert Route(Ctx(Probe(), g, PROBE_REQUEST), n, PROBE_REQUEST, []) !=
             Route(Ctx(Probe(), Prune(g), PROBE_REQUEST), n, PROBE_REQUEST, []);
    }
  }
}
