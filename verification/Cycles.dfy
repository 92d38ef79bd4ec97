/**
  When does every request end? On graphs in which nothing bars the way to a step, just if the references
  the router follows have no cycle.
 */
module Cycles {
  import opened Graph
  import opened Payload
  import opened Semantics
  import opened RunInvariants
  import opened Downstream
  import opened Depth

  /** Every service answers 200 with an object, and every condition holds. */
  function Benign(): World {
    World((past, call) => Replied(InMemory(PROBE_REQUEST), 200), (past, msgs) => 0, j => "", b => b != EMPTY,
          (b, path) => Some(""), s => s)
  }

  /** A readable object with status 200. */
  predicate Good(out: Outcome) {
    && out.Answer? && out.status == 200 && out.body.Some?
    && !out.body.value.broken && out.body.value.data.json.Some? && out.body.value.data.json.value.Object?
  }

  /** Following references from n, at most `depth` are met one after the other. */
  predicate Descends(g: Graph, n: string, depth: nat)
    decreases depth, 1
  {
    forall i :: 0 <= i < |g.Node(n).steps| ==> StepDescends(g, g.Node(n), i, depth)
  }

  predicate StepDescends(g: Graph, r: Router, i: nat, depth: nat)
    requires i < |r.steps|
    decreases depth, 0
  {
    r.steps[i].Leaf() || !Executed(r.kind, r.steps[i]) || (depth > 0 && Descends(g, r.steps[i].nodeName, depth - 1))
  }

  // ----- in the benign world an answer shows how far the references go -----

  function Calm(g: Graph): Ctx {
    Ctx(Benign(), g, PROBE_REQUEST)
  }

  /** Step i of a chain that begins at `first` finds the cursor like this. */
  predicate OnTheWay(i: nat, first: nat, cur: Cursor) {
    if i <= first then cur == START else Good(Answer(cur.body, cur.status))
  }

  lemma NothingBars(g: Graph, r: Router, i: nat, first: nat, cur: Cursor, input: Bytes)
    requires Begins(r, first) && i < |r.steps| && OnTheWay(i, first, cur)
    requires !r.steps[i].downstream && (r.kind.Sequence? || r.kind.Switch?)
    ensures !Skipped(Calm(g), r.kind, r.steps[i])
    ensures Prepare(Calm(g), r.kind, r.steps[i], i == 0, cur, map[], input).Ready?
  {
    var c, s := Calm(g), r.steps[i];
    assert PicksRoute(c.w, c.init, s.condition) by {
      assert c.w.query(c.init, s.condition).Some?;
    }
    assert i >= first;
    var bytes := if cur.body.Some? then cur.body.value.data else cur.bytes;
    if i > first {
      assert c.w.valid(bytes) && c.w.query(bytes, s.condition).Some?;
    }
  }

  lemma {:induction false} CalmChain(g: Graph, n: string, i: nat, first: nat, cur: Cursor, input: Bytes, past: Trace, depth: nat)
    requires Lively(g) && n in g.nodes && i <= |g.nodes[n].steps|
    requires g.nodes[n].kind.Sequence? || g.nodes[n].kind.Switch?
    requires Begins(g.nodes[n], first) && OnTheWay(i, first, cur)
    requires ChainWithin(Calm(g), n, map[], i, cur, input, past, depth).Some?
    ensures Good(ChainWithin(Calm(g), n, map[], i, cur, input, past, depth).value.out)
    ensures forall k :: i <= k < |g.nodes[n].steps| ==> StepDescends(g, g.nodes[n], k, depth)
    decreases depth, 2, |g.nodes[n].steps| - i
  {
    var r, c := g.nodes[n], Calm(g);
    if i < |r.steps| {
      if r.steps[i].downstream {
        CalmChain(g, n, i + 1, first, cur, input, past, depth);
      } else {
        NothingBars(g, r, i, first, cur, input);
        var ready := Prepare(c, r.kind, r.steps[i], i == 0, cur, map[], input);
        CalmStep(g, n, i, ready.request, past, depth);
        var sub := StepWithin(c, r.steps[i], ready.request, past, depth).value;
        CalmChain(g, n, i + 1, first, Cursor(sub.out.body, sub.out.status, ready.bytes), input, past + sub.calls, depth);
      }
    }
  }

  lemma {:induction false} CalmWorkers(g: Graph, n: string, i: nat, input: Bytes, past: Trace, depth: nat)
    requires Lively(g) && n in g.nodes && i <= |g.nodes[n].steps| && g.nodes[n].kind.Ensemble?
    requires WorkersWithin(Calm(g), n, i, input, past, depth).Some?
    ensures forall run :: run in WorkersWithin(Calm(g), n, i, input, past, depth).value ==> Good(run.out)
    ensures forall k :: i <= k < |g.nodes[n].steps| ==> StepDescends(g, g.nodes[n], k, depth)
    decreases depth, 2, |g.nodes[n].steps| - i
  {
    if i < |g.nodes[n].steps| {
      CalmStep(g, n, i, input, past + [Branch(i)], depth);
      CalmWorkers(g, n, i + 1, input, past, depth);
    }
  }

  lemma {:induction false} CalmStep(g: Graph, n: string, i: nat, request: Bytes, past: Trace, depth: nat)
    requires Lively(g) && n in g.nodes && i < |g.nodes[n].steps|
    requires StepWithin(Calm(g), g.nodes[n].steps[i], request, past, depth).Some?
    ensures Good(StepWithin(Calm(g), g.nodes[n].steps[i], request, past, depth).value.out)
    ensures StepDescends(g, g.nodes[n], i, depth)
    decreases depth, 1
  {
    if !g.nodes[n].steps[i].Leaf() {
      CalmNode(g, g.nodes[n].steps[i].nodeName, request, past, depth - 1);
    }
  }

  lemma AllGood(g: Graph, steps: seq<Step>, runs: seq<Run>, choice: nat)
    requires |steps| == |runs| && forall run :: run in runs ==> Good(run.out)
    ensures Good(EnsembleAnswer(Benign(), steps, Messages(runs), choice))
  {
    var msgs := Messages(runs);
    forall k | 0 <= k < |msgs|
      ensures msgs[k].Output? && msgs[k].code == 200
    {
      assert runs[k] in runs;
    }
    assert FirstStop(steps, msgs, 0) == |steps|;
  }

  /** An answer at some depth is a good one, and the references go no deeper. */
  lemma {:induction false} CalmNode(g: Graph, n: string, input: Bytes, past: Trace, depth: nat)
    requires Lively(g) && n in g.nodes
    requires Within(Calm(g), n, input, past, depth).Some?
    ensures Good(Within(Calm(g), n, input, past, depth).value.out)
    ensures Descends(g, n, depth)
    decreases depth, 3
  {
    var r := g.nodes[n];
    if r.kind.Ensemble? {
      var runs := WorkersWithin(Calm(g), n, 0, input, past, depth).value;
      CalmWorkers(g, n, 0, input, past, depth);
      AllGood(g, r.steps, runs, Benign().scheduler(past, Messages(runs)));
    } else {
      var first: nat :| Begins(r, first);
      assert DecodeObject(PROBE_REQUEST) == Some(map[]);
      CalmChain(g, n, 0, first, START, input, past, depth);
    }
  }

  // ----- where the references end there is an answer, in every world -----

  lemma {:induction false} ChainAnswers(c: Ctx, n: string, d: map<string, Json>, i: nat, cur: Cursor, input: Bytes, past: Trace, depth: nat)
    requires Descends(c.g, n, depth) && i <= |c.g.Node(n).steps|
    requires c.g.Node(n).kind.Sequence? || c.g.Node(n).kind.Switch?
    ensures ChainWithin(c, n, d, i, cur, input, past, depth).Some?
    decreases depth, 2, |c.g.Node(n).steps| - i
  {
    var Router(kind, steps) := c.g.Node(n);
    if i < |steps| {
      if Skipped(c, kind, steps[i]) {
        ChainAnswers(c, n, d, i + 1, cur, input, past, depth);
      } else {
        var ready := Prepare(c, kind, steps[i], i == 0, cur, d, input);
        if ready.Ready? {
          StepAnswers(c, n, i, ready.request, past, depth);
          var sub := StepWithin(c, steps[i], ready.request, past, depth).value;
          var verdict := Judge(kind, steps[i], sub.out);
          if verdict.Continue? {
            ChainAnswers(c, n, d, i + 1, Cursor(verdict.body, verdict.status, ready.bytes), input, past + sub.calls, depth);
          }
        }
      }
    }
  }

  lemma {:induction false} WorkersAnswer(c: Ctx, n: string, i: nat, input: Bytes, past: Trace, depth: nat)
    requires Descends(c.g, n, depth) && i <= |c.g.Node(n).steps| && c.g.Node(n).kind.Ensemble?
    ensures WorkersWithin(c, n, i, input, past, depth).Some?
    decreases depth, 2, |c.g.Node(n).steps| - i
  {
    if i < |c.g.Node(n).steps| {
      StepAnswers(c, n, i, input, past + [Branch(i)], depth);
      WorkersAnswer(c, n, i + 1, input, past, depth);
    }
  }

  lemma {:induction false} StepAnswers(c: Ctx, n: string, i: nat, request: Bytes, past: Trace, depth: nat)
    requires Descends(c.g, n, depth) && i < |c.g.Node(n).steps|
    requires Executed(c.g.Node(n).kind, c.g.Node(n).steps[i])
    ensures StepWithin(c, c.g.Node(n).steps[i], request, past, depth).Some?
    decreases depth, 1
  {
    assert StepDescends(c.g, c.g.Node(n), i, depth);
    if !c.g.Node(n).steps[i].Leaf() {
      NodeAnswers(c, c.g.Node(n).steps[i].nodeName, request, past, depth - 1);
    }
  }

  /** A depth that the references do not exceed is enough for the run, on any graph. */
  lemma {:induction false} NodeAnswers(c: Ctx, n: string, input: Bytes, past: Trace, depth: nat)
    requires Descends(c.g, n, depth)
    ensures Within(c, n, input, past, depth).Some?
    decreases depth, 3
  {
    match c.g.Node(n).kind
    case Unknown(_) =>
    case Ensemble => WorkersAnswer(c, n, 0, input, past, depth);
    case _ =>
      var d := DecodeObject(c.init);
      if d.Some? {
        ChainAnswers(c, n, d.value, 0, START, input, past, depth);
      }
  }

  // ----- from depths to a rank -----

  ghost predicate IsLeast(g: Graph, n: string, depth: nat) {
    Descends(g, n, depth) && forall d: nat :: Descends(g, n, d) ==> depth <= d
  }

  lemma LeastExists(g: Graph, n: string, depth: nat)
    requires Descends(g, n, depth)
    ensures exists d: nat :: IsLeast(g, n, d)
  {
    if d: nat :| d < depth && Descends(g, n, d) {
      LeastExists(g, n, d);
    } else {
      assert IsLeast(g, n, depth);
    }
  }

  ghost function Rank(g: Graph, n: string): nat {
    if exists d: nat :: IsLeast(g, n, d) then (var d: nat :| IsLeast(g, n, d); d) else 0
  }

  ghost predicate Bounded(g: Graph, n: string) {
    exists depth: nat :: Descends(g, n, depth)
  }

  lemma DescendsIsAcyclic(g: Graph)
    requires WellTyped(g)
    requires forall n :: n in g.nodes ==> Bounded(g, n)
    ensures Acyclic(g)
  {
    var rank: string -> nat := n => Rank(g, n);
    forall n, i | n in g.nodes && 0 <= i < |g.nodes[n].steps| && !g.nodes[n].steps[i].Leaf() &&
                  Executed(g.nodes[n].kind, g.nodes[n].steps[i])
      ensures rank(g.nodes[n].steps[i].nodeName) < rank(n)
    {
      assert Bounded(g, n) && g.Node(n) == g.nodes[n];
      var depth: nat :| Descends(g, n, depth);
      LeastExists(g, n, depth);
      assert IsLeast(g, n, rank(n)) && StepDescends(g, g.nodes[n], i, rank(n));
      var m := g.nodes[n].steps[i].nodeName;
      LeastExists(g, m, rank(n) - 1);
      assert IsLeast(g, m, rank(m));
    }
    assert Ranked(g, rank);
  }

  // ----- no path without repetition is longer than there are nodes -----

  lemma {:induction false} DescendsStays(g: Graph, n: string, depth: nat, more: nat)
    requires Descends(g, n, depth) && depth <= more
    ensures Descends(g, n, more)
    decreases depth
  {
    forall i | 0 <= i < |g.Node(n).steps|
      ensures StepDescends(g, g.Node(n), i, more)
    {
      assert StepDescends(g, g.Node(n), i, depth);
      if !g.Node(n).steps[i].Leaf() && Executed(g.Node(n).kind, g.Node(n).steps[i]) {
        DescendsStays(g, g.Node(n).steps[i].nodeName, depth - 1, more - 1);
      }
    }
  }

  /** A node of least depth d > 0 leads to one of least depth d - 1. */
  lemma NextLeast(g: Graph, n: string, depth: nat) returns (m: string)
    requires WellTyped(g) && n in g.nodes && IsLeast(g, n, depth) && depth > 0
    ensures m in g.nodes && IsLeast(g, m, depth - 1)
  {
    assert !Descends(g, n, depth - 1);
    var i :| 0 <= i < |g.Node(n).steps| && !StepDescends(g, g.Node(n), i, depth - 1);
    assert StepDescends(g, g.Node(n), i, depth);
    m := g.Node(n).steps[i].nodeName;
    forall d: nat | Descends(g, m, d)
      ensures depth - 1 <= d
    {
      if d < depth - 1 {
        DescendsStays(g, m, d, depth - 2);
        assert false;
      }
    }
  }

  lemma OneLeast(g: Graph, n: string, depth: nat)
    requires IsLeast(g, n, depth)
    ensures forall d: nat :: IsLeast(g, n, d) ==> d == depth
  {
  }

  /** Along such a path no node comes twice. */
  lemma {:induction false} LeastPath(g: Graph, n: string, depth: nat) returns (path: set<string>)
    requires WellTyped(g) && n in g.nodes && IsLeast(g, n, depth)
    ensures path <= g.nodes.Keys && |path| == depth + 1
    ensures forall m :: m in path ==> exists d: nat :: d <= depth && IsLeast(g, m, d)
    decreases depth
  {
    if depth == 0 {
      path := {n};
    } else {
      var m := NextLeast(g, n, depth);
      var rest := LeastPath(g, m, depth - 1);
      assert n !in rest by {
        OneLeast(g, n, depth);
      }
      path := rest + {n};
    }
  }

  lemma {:induction false} Pigeons(a: set<string>, b: set<string>)
    requires a <= b
    ensures |a| <= |b|
  {
    if x :| x in a {
      Pigeons(a - {x}, b - {x});
    }
  }

  /** Whether references end can be found out by following as many of them as there are nodes. */
  lemma BoundedExactly(g: Graph, n: string)
    requires WellTyped(g) && n in g.nodes
    ensures Bounded(g, n) <==> Descends(g, n, |g.nodes| - 1)
  {
    if Bounded(g, n) {
      var depth: nat :| Descends(g, n, depth);
      LeastExists(g, n, depth);
      var least: nat :| IsLeast(g, n, least);
      var path := LeastPath(g, n, least);
      Pigeons(path, g.nodes.Keys);
      assert |g.nodes.Keys| == |g.nodes|;
      DescendsStays(g, n, least, |g.nodes| - 1);
    }
  }

  // ----- when runs end -----

  ghost predicate Ends(c: Ctx, n: string, input: Bytes, past: Trace) {
    exists depth: nat :: Within(c, n, input, past, depth).Some?
  }

  /**
    Where nothing bars the way to a step, every run ends, from every node, on every request and with any
    services and schedules, just if the references the router follows have no cycle.
   */
  lemma EndsExactly(g: Graph)
    requires Lively(g)
    ensures (forall w: World, init, n, input, past :: n in g.nodes ==> Ends(Ctx(w, g, init), n, input, past)) <==> Acyclic(g)
  {
    if Acyclic(g) {
      forall w: World, init, n, input, past | n in g.nodes
        ensures Ends(Ctx(w, g, init), n, input, past)
      {
        WithinAgrees(Ctx(w, g, init), n, input, past, Height(g, n));
      }
    } else {
      if forall n :: n in g.nodes ==> Ends(Calm(g), n, EMPTY, []) {
        forall n | n in g.nodes
          ensures Bounded(g, n)
        {
          assert Ends(Calm(g), n, EMPTY, []);
          var depth: nat :| Within(Calm(g), n, EMPTY, [], depth).Some?;
          CalmNode(g, n, EMPTY, [], depth);
        }
        DescendsIsAcyclic(g);
      }
      assert Calm(g) == Ctx(Benign(), g, PROBE_REQUEST);
    }
  }

  /**
    Requests that enter at one node: all of them end, with any services and schedules, just if fewer
    references can be followed from there than there are nodes. Cycles out of its reach do not matter.
   */
  lemma RequestsEndExactly(g: Graph, n: string)
    requires Lively(g) && n in g.nodes
    ensures (forall w: World, init :: Ends(Ctx(w, g, init), n, init, [])) <==> Descends(g, n, |g.nodes| - 1)
  {
    if Descends(g, n, |g.nodes| - 1) {
      forall w: World, init
        ensures Ends(Ctx(w, g, init), n, init, [])
      {
        NodeAnswers(Ctx(w, g, init), n, init, [], |g.nodes| - 1);
      }
    } else if forall w: World, init :: Ends(Ctx(w, g, init), n, init, []) {
      assert Ends(Ctx(Benign(), g, PROBE_REQUEST), n, PROBE_REQUEST, []);
      var depth: nat :| Within(Calm(g), n, PROBE_REQUEST, [], depth).Some?;
      CalmNode(g, n, PROBE_REQUEST, [], depth);
      BoundedExactly(g, n);
    }
  }
}
