/**
  The router on graphs with reference cycles: runs whose nodes nest to a given depth at most. Where a
  run exists at some depth it is the same at every greater one, and on graphs whose followed references
  descend it is the run of Semantics. A cycle through the first steps of nodes has none at any depth.
  An ensemble counts as unanswered here while any of its workers is.
 */
module Depth {
  import opened Graph
  import opened Payload
  import opened Semantics
  import opened Downstream

  /** None: the run nests deeper than `depth`. */
  function Within(c: Ctx, n: string, input: Bytes, past: Trace, depth: nat): Option<Run>
    decreases depth, 3
  {
    match c.g.Node(n).kind
    case Unknown(kind) => Some(Run([], Fault(500, InvalidRoute(kind))))
    case Ensemble =>
      var runs := WorkersWithin(c, n, 0, input, past, depth);
      if runs.None? then None
      else
        var msgs := Messages(runs.value);
        Some(Run([Joined(Lanes(runs.value))],
                 EnsembleAnswer(c.w, c.g.Node(n).steps, msgs, c.w.scheduler(past, msgs))))
    case _ =>
      match DecodeObject(c.init)
      case None => Some(Run([], Fault(500, DecodeFailure(c.init.text))))
      case Some(initData) => ChainWithin(c, n, initData, 0, START, input, past, depth)
  }

  function ChainWithin(c: Ctx, n: string, d: map<string, Json>, i: nat, cur: Cursor, input: Bytes, past: Trace, depth: nat): Option<Run>
    requires i <= |c.g.Node(n).steps|
    decreases depth, 2, |c.g.Node(n).steps| - i
  {
    var Router(kind, steps) := c.g.Node(n);
    if i == |steps| then
      Some(Run([], Answer(cur.body, cur.status)))
    else if Skipped(c, kind, steps[i]) then
      ChainWithin(c, n, d, i + 1, cur, input, past, depth)
    else
      match Prepare(c, kind, steps[i], i == 0, cur, d, input)
      case Stop(out) => Some(Run([], out))
      case Ready(request, bytes) =>
        var sub := StepWithin(c, steps[i], request, past, depth);
        if sub.None? then None
        else
          match Judge(kind, steps[i], sub.value.out)
          case Halt(out) => Some(Run(sub.value.calls, out))
          case Continue(body, status) =>
            var rest := ChainWithin(c, n, d, i + 1, Cursor(body, status, bytes), input, past + sub.value.calls, depth);
            if rest.None? then None else Some(Run(sub.value.calls + rest.value.calls, rest.value.out))
  }

  function WorkersWithin(c: Ctx, n: string, i: nat, input: Bytes, past: Trace, depth: nat): (runs: Option<seq<Run>>)
    requires i <= |c.g.Node(n).steps|
    ensures runs.Some? ==> |runs.value| == |c.g.Node(n).steps| - i
    decreases depth, 2, |c.g.Node(n).steps| - i
  {
    var steps := c.g.Node(n).steps;
    if i == |steps| then Some([])
    else
      var run := StepWithin(c, steps[i], input, past + [Branch(i)], depth);
      var rest := WorkersWithin(c, n, i + 1, input, past, depth);
      if run.None? || rest.None? then None else Some([run.value] + rest.value)
  }

  function StepWithin(c: Ctx, s: Step, request: Bytes, past: Trace, depth: nat): Option<Run>
    decreases depth, 1
  {
    if s.Leaf() then Some(CallService(c, s, request, past))
    else if depth == 0 then None
    else Within(c, s.nodeName, request, past, depth - 1)
  }

  // ----- agreement with the semantics of acyclic graphs -----

  lemma {:induction false} ChainAgrees(c: Ctx, n: string, d: map<string, Json>, i: nat, cur: Cursor, input: Bytes, past: Trace, depth: nat)
    requires Acyclic(c.g) && depth + 1 >= Height(c.g, n)
    requires i <= |c.g.Node(n).steps|
    ensures ChainWithin(c, n, d, i, cur, input, past, depth) == Some(ChainFrom(c, n, d, i, cur, input, past))
    decreases depth, 2, |c.g.Node(n).steps| - i
  {
    var Router(kind, steps) := c.g.Node(n);
    if i < |steps| {
      if Skipped(c, kind, steps[i]) {
        ChainAgrees(c, n, d, i + 1, cur, input, past, depth);
      } else {
        var ready := Prepare(c, kind, steps[i], i == 0, cur, d, input);
        if ready.Ready? {
          StepsDescend(c.g, n, i);
          StepAgrees(c, steps[i], ready.request, past, depth);
          ChainStep(c, n, d, i, cur, input, past);
          var sub := Execute(c, steps[i], ready.request, past);
          var verdict := Judge(kind, steps[i], sub.out);
          if verdict.Continue? {
            ChainAgrees(c, n, d, i + 1, Cursor(verdict.body, verdict.status, ready.bytes), input, past + sub.calls, depth);
          }
        }
      }
    }
  }

  lemma {:induction false} WorkersAgree(c: Ctx, n: string, i: nat, input: Bytes, past: Trace, depth: nat)
    requires Acyclic(c.g) && depth + 1 >= Height(c.g, n) && c.g.Node(n).kind.Ensemble?
    requires i <= |c.g.Node(n).steps|
    ensures WorkersWithin(c, n, i, input, past, depth) == Some(Workers(c, n, i, input, past))
    decreases depth, 2, |c.g.Node(n).steps| - i
  {
    var steps := c.g.Node(n).steps;
    if i < |steps| {
      StepsDescend(c.g, n, i);
      StepAgrees(c, steps[i], input, past + [Branch(i)], depth);
      WorkersAgree(c, n, i + 1, input, past, depth);
    }
  }

  lemma {:induction false} StepAgrees(c: Ctx, s: Step, request: Bytes, past: Trace, depth: nat)
    requires Acyclic(c.g) && depth >= StepHeight(c.g, s)
    ensures StepWithin(c, s, request, past, depth) == Some(Execute(c, s, request, past))
    decreases depth, 1
  {
    if !s.Leaf() {
      WithinAgrees(c, s.nodeName, request, past, depth - 1);
    }
  }

  /** On a graph whose followed references descend, a depth of the node's height is enough for its run. */
  lemma {:induction false} WithinAgrees(c: Ctx, n: string, input: Bytes, past: Trace, depth: nat)
    requires Acyclic(c.g) && depth + 1 >= Height(c.g, n)
    ensures Within(c, n, input, past, depth) == Some(Route(c, n, input, past))
    decreases depth, 3
  {
    match c.g.Node(n).kind
    case Unknown(_) =>
    case Ensemble =>
      WorkersAgree(c, n, 0, input, past, depth);
      assert Route(c, n, input, past) == EnsembleNode(c, n, input, past);
    case _ =>
      var d := DecodeObject(c.init);
      if d.Some? {
        ChainAgrees(c, n, d.value, 0, START, input, past, depth);
      }
  }

  // ----- a run, once there, stays -----

  lemma {:induction false} ChainStays(c: Ctx, n: string, d: map<string, Json>, i: nat, cur: Cursor, input: Bytes, past: Trace, depth: nat)
    requires i <= |c.g.Node(n).steps|
    requires ChainWithin(c, n, d, i, cur, input, past, depth).Some?
    ensures ChainWithin(c, n, d, i, cur, input, past, depth + 1) == ChainWithin(c, n, d, i, cur, input, past, depth)
    decreases depth, 2, |c.g.Node(n).steps| - i
  {
    var Router(kind, steps) := c.g.Node(n);
    if i < |steps| {
      if Skipped(c, kind, steps[i]) {
        ChainStays(c, n, d, i + 1, cur, input, past, depth);
      } else {
        var ready := Prepare(c, kind, steps[i], i == 0, cur, d, input);
        if ready.Ready? {
          StepStays(c, steps[i], ready.request, past, depth);
          var sub := StepWithin(c, steps[i], ready.request, past, depth).value;
          var verdict := Judge(kind, steps[i], sub.out);
          if verdict.Continue? {
            ChainStays(c, n, d, i + 1, Cursor(verdict.body, verdict.status, ready.bytes), input, past + sub.calls, depth);
          }
        }
      }
    }
  }

  lemma {:induction false} WorkersStay(c: Ctx, n: string, i: nat, input: Bytes, past: Trace, depth: nat)
    requires i <= |c.g.Node(n).steps|
    requires WorkersWithin(c, n, i, input, past, depth).Some?
    ensures WorkersWithin(c, n, i, input, past, depth + 1) == WorkersWithin(c, n, i, input, past, depth)
    decreases depth, 2, |c.g.Node(n).steps| - i
  {
    var steps := c.g.Node(n).steps;
    if i < |steps| {
      StepStays(c, steps[i], input, past + [Branch(i)], depth);
      WorkersStay(c, n, i + 1, input, past, depth);
    }
  }

  lemma {:induction false} StepStays(c: Ctx, s: Step, request: Bytes, past: Trace, depth: nat)
    requires StepWithin(c, s, request, past, depth).Some?
    ensures StepWithin(c, s, request, past, depth + 1) == StepWithin(c, s, request, past, depth)
    decreases depth, 1
  {
    if !s.Leaf() {
      WithinStays(c, s.nodeName, request, past, depth - 1);
    }
  }

  /** On any graph, cyclic or not: the run at one depth is the run at the next. */
  lemma {:induction false} WithinStays(c: Ctx, n: string, input: Bytes, past: Trace, depth: nat)
    requires Within(c, n, input, past, depth).Some?
    ensures Within(c, n, input, past, depth + 1) == Within(c, n, input, past, depth)
    decreases depth, 3
  {
    match c.g.Node(n).kind
    case Unknown(_) =>
    case Ensemble => WorkersStay(c, n, 0, input, past, depth);
    case _ =>
      var d := DecodeObject(c.init);
      if d.Some? {
        ChainStays(c, n, d.value, 0, START, input, past, depth);
      }
  }

  // ----- no run -----

  /** Node n begins, unconditionally, with a step that leads back into the set. */
  predicate StuckAt(g: Graph, nodes: set<string>, n: string, i: nat) {
    && (g.Node(n).kind.Sequence? || g.Node(n).kind.Switch?)
    && FirstLive(g.Node(n).steps, i)
    && g.Node(n).steps[i].condition == ""
    && !g.Node(n).steps[i].Leaf() && g.Node(n).steps[i].nodeName in nodes
  }

  ghost predicate Trap(g: Graph, nodes: set<string>) {
    forall n :: n in nodes ==> exists i: nat :: StuckAt(g, nodes, n, i)
  }

  /** Up to its first live step a chain does nothing. */
  lemma {:induction false} SkipWithin(c: Ctx, n: string, d: map<string, Json>, j: nat, i: nat, input: Bytes, past: Trace, depth: nat)
    requires c.g.Node(n).kind.Sequence? || c.g.Node(n).kind.Switch?
    requires FirstLive(c.g.Node(n).steps, i) && j <= i
    ensures ChainWithin(c, n, d, j, START, input, past, depth) == ChainWithin(c, n, d, i, START, input, past, depth)
    decreases i - j
  {
    if j < i {
      SkipWithin(c, n, d, j + 1, i, input, past, depth);
    }
  }

  /** An unconditional first step is executed; what has no run there has none in the chain. */
  lemma NoFirstRun(c: Ctx, n: string, d: map<string, Json>, i: nat, input: Bytes, past: Trace, depth: nat)
    requires c.g.Node(n).kind.Sequence? || c.g.Node(n).kind.Switch?
    requires FirstLive(c.g.Node(n).steps, i) && c.g.Node(n).steps[i].condition == ""
    requires forall request :: StepWithin(c, c.g.Node(n).steps[i], request, past, depth).None?
    ensures ChainWithin(c, n, d, i, START, input, past, depth).None?
  {
    var Router(kind, steps) := c.g.Node(n);
    assert Prepare(c, kind, steps[i], i == 0, START, d, input).Ready?;
  }

  /** Nodes that begin by leading into each other: the router has no answer at any depth. */
  lemma {:induction false} TrapNeverAnswers(c: Ctx, nodes: set<string>, n: string, input: Bytes, past: Trace, depth: nat)
    requires Trap(c.g, nodes) && n in nodes
    requires DecodeObject(c.init).Some?
    ensures Within(c, n, input, past, depth).None?
    decreases depth, 3
  {
    var i: nat :| StuckAt(c.g, nodes, n, i);
    var s, d := c.g.Node(n).steps[i], DecodeObject(c.init).value;
    forall request
      ensures StepWithin(c, s, request, past, depth).None?
    {
      if depth > 0 {
        TrapNeverAnswers(c, nodes, s.nodeName, request, past, depth - 1);
      }
    }
    SkipWithin(c, n, d, 0, i, input, past, depth);
    NoFirstRun(c, n, d, i, input, past, depth);
  }
}
