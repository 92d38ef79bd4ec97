/**
  Inlining a nested Sequence into the Sequence that refers to it. The first inner step takes over the
  Data and the Condition of the referring step; nothing else changes. Under Spliceable the calls, the
  body, the status and the error of every run from every node of the graph stay the same.
 */
module Splice {
  import opened Graph
  import opened Payload
  import opened Semantics
  import opened RunInvariants

  /** The step `at` of node `parent` of a graph. */
  datatype Site = Site(g: Graph, parent: string, at: nat)
  {
    function Referrer(): Step
      requires parent in g.nodes && at < |g.nodes[parent].steps|
    {
      g.nodes[parent].steps[at]
    }

    function Inner(): seq<Step>
      requires parent in g.nodes && at < |g.nodes[parent].steps|
    {
      g.Node(Referrer().nodeName).steps
    }

    /** The referring step hands the parent's own input to the nested node. */
    predicate ForwardsInput()
      requires parent in g.nodes && at < |g.nodes[parent].steps|
    {
      at == 0 || Referrer().data != RESPONSE
    }

    predicate Spliceable() {
      && parent in g.nodes && at < |g.nodes[parent].steps|
      && g.nodes[parent].kind.Sequence?
      && !Referrer().Leaf() && !Referrer().downstream && Referrer().dependency.Hard?
      && Referrer().nodeName in g.nodes
      && g.nodes[Referrer().nodeName].kind.Sequence?
      && |Inner()| > 0
      && Inner()[0].condition == ""
      && (forall k :: 0 <= k < |Inner()| ==> !Inner()[k].downstream && Inner()[k].dependency.Hard?)
      && (forall k :: 1 <= k < |Inner()| ==> Inner()[k].data == RESPONSE || ForwardsInput())
    }

    function NewSteps(): (steps: seq<Step>)
      requires Spliceable()
      ensures |steps| == |g.nodes[parent].steps| + |Inner()| - 1
    {
      var first := Inner()[0].(data := Referrer().data, condition := Referrer().condition);
      g.nodes[parent].steps[..at] + [first] + Inner()[1..] + g.nodes[parent].steps[at + 1..]
    }

    function After(): Graph
      requires Spliceable()
    {
      g.(nodes := g.nodes[parent := Router(Sequence, NewSteps())])
    }
  }

  /** Where each step of the spliced node comes from. */
  lemma StepsOfSplice(s: Site, k: nat)
    requires s.Spliceable()
    requires k < |s.NewSteps()|
    ensures k < s.at ==> s.NewSteps()[k] == s.g.nodes[s.parent].steps[k]
    ensures k == s.at ==>
      s.NewSteps()[k] == s.Inner()[0].(data := s.Referrer().data, condition := s.Referrer().condition)
    ensures s.at < k < s.at + |s.Inner()| ==> s.NewSteps()[k] == s.Inner()[k - s.at]
    ensures s.at + |s.Inner()| <= k ==> s.NewSteps()[k] == s.g.nodes[s.parent].steps[k - |s.Inner()| + 1]
  {
  }

  lemma SpliceStaysAcyclic(s: Site)
    requires Acyclic(s.g) && s.Spliceable()
    ensures Acyclic(s.After())
  {
    var rank := RankOf(s.g);
    var g' := s.After();
    forall n, i | n in g'.nodes && 0 <= i < |g'.nodes[n].steps| && !g'.nodes[n].steps[i].Leaf() &&
                  Executed(g'.nodes[n].kind, g'.nodes[n].steps[i])
      ensures rank(g'.nodes[n].steps[i].nodeName) < rank(n)
    {
      if n == s.parent {
        StepsOfSplice(s, i);
        StepsDescend(s.g, s.parent, s.at);
        if s.at <= i < s.at + |s.Inner()| {
          StepsDescend(s.g, s.Referrer().nodeName, i - s.at);
        }
      }
    }
    assert Ranked(g', rank);
  }

  /** Loop states that no later step can tell apart: the bytes read last count only while no body is waiting. */
  predicate Alike(a: Cursor, b: Cursor) {
    a.body == b.body && a.status == b.status && (a.body.None? ==> a.bytes == b.bytes)
  }

  lemma PrepareAlike(c: Ctx, c': Ctx, s: Step, first: bool, a: Cursor, b: Cursor, d: map<string, Json>, input: Bytes, input': Bytes)
    requires c'.w == c.w && c'.init == c.init
    requires Alike(a, b)
    requires input == input' || (s.data == RESPONSE && !first)
    ensures Prepare(c, Sequence, s, first, a, d, input) == Prepare(c', Sequence, s, first, b, d, input')
  {
  }

  /** A step of a Sequence that went on after a Hard dependency left a body to read. */
  lemma SuccessHasBody(c: Ctx, n: string, i: nat, request: Bytes, past: Trace)
    requires Acyclic(c.g) && n in c.g.nodes && i < |c.g.nodes[n].steps|
    ensures
      var out := Execute(c, c.g.nodes[n].steps[i], request, past).out;
      out.Answer? && IsSuccessful(out.status) ==> out.body.Some?
  {
    ExecuteOk(c, n, i, request, past);
  }

  // ----- the proof, by induction on the height of the node -----

  /** The rest of the parent after its nested node gave `run`. */
  ghost function Finish(c: Ctx, s: Site, d: map<string, Json>, bytes: Bytes, input: Bytes, past: Trace, run: Run): Run
    requires c.g == s.g && Acyclic(s.g) && s.Spliceable()
  {
    match Judge(Sequence, s.Referrer(), run.out)
    case Halt(out) => Run(run.calls, out)
    case Continue(body, status) =>
      var rest := ChainFrom(c, s.parent, d, s.at + 1, Cursor(body, status, bytes), input, past + run.calls);
      Run(run.calls + rest.calls, rest.out)
  }

  /** Steps of the parent behind the splice: only their indices moved. */
  lemma {:induction false} TailSame(c: Ctx, c': Ctx, s: Site, d: map<string, Json>, i: nat, a: Cursor, b: Cursor, input: Bytes, past: Trace)
    requires c.g == s.g && Acyclic(s.g) && s.Spliceable()
    requires c' == c.(g := s.After()) && Acyclic(c'.g)
    requires s.at < i <= |s.g.nodes[s.parent].steps|
    requires Alike(a, b)
    ensures ChainFrom(c, s.parent, d, i, a, input, past) == ChainFrom(c', s.parent, d, i + |s.Inner()| - 1, b, input, past)
    decreases Height(s.g, s.parent), 1, |s.g.nodes[s.parent].steps| - i
  {
    var steps, j := s.g.nodes[s.parent].steps, i + |s.Inner()| - 1;
    if i < |steps| {
      StepsOfSplice(s, j);
      if steps[i].downstream {
        TailSame(c, c', s, d, i + 1, a, b, input, past);
      } else {
        PrepareAlike(c, c', steps[i], false, a, b, d, input, input);
        var ready := Prepare(c, Sequence, steps[i], false, a, d, input);
        if ready.Ready? {
          StepsDescend(s.g, s.parent, i);
          ExecuteSame(c, c', s, steps[i], ready.request, past);
          var sub := Execute(c, steps[i], ready.request, past);
          var verdict := Judge(Sequence, steps[i], sub.out);
          if verdict.Continue? {
            var next := Cursor(verdict.body, verdict.status, ready.bytes);
            TailSame(c, c', s, d, i + 1, next, next, input, past + sub.calls);
          }
        }
      }
    }
  }

  /** The inner steps after the first: run inside the nested node, and run in the parent itself. */
  lemma {:induction false} MiddleSame(c: Ctx, c': Ctx, s: Site, d: map<string, Json>, k: nat, a: Cursor, b: Cursor,
                     request: Bytes, input: Bytes, bytes: Bytes, past: Trace)
    requires c.g == s.g && Acyclic(s.g) && s.Spliceable()
    requires c' == c.(g := s.After()) && Acyclic(c'.g)
    requires 1 <= k <= |s.Inner()|
    requires s.ForwardsInput() ==> request == input
    requires Alike(a, b) && a.body.Some? && IsSuccessful(a.status)
    ensures ChainFrom(c', s.parent, d, s.at + k, b, input, past) ==
            Finish(c, s, d, bytes, input, past, ChainFrom(c, s.Referrer().nodeName, d, k, a, request, past))
    decreases Height(s.g, s.parent), 2, |s.Inner()| - k, 1
  {
    var m, inner := s.Referrer().nodeName, s.Inner();
    if k == |inner| {
      MiddleEnds(c, c', s, d, a, b, request, input, bytes, past);
    } else {
      StepsOfSplice(s, s.at + k);
      PrepareAlike(c, c', inner[k], false, a, b, d, request, input);
      var ready := Prepare(c, Sequence, inner[k], false, a, d, request);
      var next := if ready.Ready? then ready.request else EMPTY;
      InnerStepSame(c, c', s, k, next, past);
      var sub := Execute(c, inner[k], next, past);
      var verdict := Judge(Sequence, inner[k], sub.out);
      if ready.Ready? && verdict.Continue? {
        var cur := Cursor(verdict.body, verdict.status, ready.bytes);
        MiddleSame(c, c', s, d, k + 1, cur, cur, request, input, bytes, past + sub.calls);
      }
      MiddleStep(c, c', s, d, k, a, b, request, input, bytes, past, ready, sub, verdict);
    }
  }

  /** After the last inner step the nested node answers, and the parent goes on behind the splice. */
  lemma {:induction false} MiddleEnds(c: Ctx, c': Ctx, s: Site, d: map<string, Json>, a: Cursor, b: Cursor,
                     request: Bytes, input: Bytes, bytes: Bytes, past: Trace)
    requires c.g == s.g && Acyclic(s.g) && s.Spliceable()
    requires c' == c.(g := s.After()) && Acyclic(c'.g)
    requires Alike(a, b) && a.body.Some? && IsSuccessful(a.status)
    ensures ChainFrom(c', s.parent, d, s.at + |s.Inner()|, b, input, past) ==
            Finish(c, s, d, bytes, input, past, ChainFrom(c, s.Referrer().nodeName, d, |s.Inner()|, a, request, past))
    decreases Height(s.g, s.parent), 2, 0, 0
  {
    TailSame(c, c', s, d, s.at + 1, Cursor(a.body, a.status, bytes), b, input, past);
    assert past + [] == past;
  }

  /** An inner step does the same before and after, and a success leaves a body. */
  lemma {:induction false} InnerStepSame(c: Ctx, c': Ctx, s: Site, k: nat, request: Bytes, past: Trace)
    requires c.g == s.g && Acyclic(s.g) && s.Spliceable()
    requires c' == c.(g := s.After()) && Acyclic(c'.g)
    requires k < |s.Inner()|
    ensures Execute(c, s.Inner()[k], request, past) == Execute(c', s.Inner()[k], request, past)
    ensures
      var out := Execute(c, s.Inner()[k], request, past).out;
      out.Answer? && IsSuccessful(out.status) ==> out.body.Some?
    decreases Height(s.g, s.parent), 0
  {
    var m := s.Referrer().nodeName;
    StepsDescend(s.g, s.parent, s.at);
    StepsDescend(s.g, m, k);
    ExecuteSame(c, c', s, s.Inner()[k], request, past);
    SuccessHasBody(c, m, k, request, past);
  }

  /** One inner step, on both sides, with what comes after it given. */
  lemma MiddleStep(c: Ctx, c': Ctx, s: Site, d: map<string, Json>, k: nat, a: Cursor, b: Cursor,
                   request: Bytes, input: Bytes, bytes: Bytes, past: Trace, ready: Prepared, sub: Run, verdict: Verdict)
    requires c.g == s.g && Acyclic(s.g) && s.Spliceable()
    requires c' == c.(g := s.After()) && Acyclic(c'.g)
    requires 1 <= k < |s.Inner()| && s.NewSteps()[s.at + k] == s.Inner()[k]
    requires Prepare(c, Sequence, s.Inner()[k], false, a, d, request) == ready == Prepare(c', Sequence, s.Inner()[k], false, b, d, input)
    requires ready.Ready? ==>
      && Execute(c, s.Inner()[k], ready.request, past) == sub == Execute(c', s.Inner()[k], ready.request, past)
      && Judge(Sequence, s.Inner()[k], sub.out) == verdict
    requires ready.Ready? && verdict.Continue? ==>
      var cur := Cursor(verdict.body, verdict.status, ready.bytes);
      ChainFrom(c', s.parent, d, s.at + k + 1, cur, input, past + sub.calls) ==
      Finish(c, s, d, bytes, input, past + sub.calls, ChainFrom(c, s.Referrer().nodeName, d, k + 1, cur, request, past + sub.calls))
    ensures ChainFrom(c', s.parent, d, s.at + k, b, input, past) ==
            Finish(c, s, d, bytes, input, past, ChainFrom(c, s.Referrer().nodeName, d, k, a, request, past))
  {
    var m := s.Referrer().nodeName;
    if ready.Ready? {
      ChainStep(c, m, d, k, a, request, past);
      ChainStep(c', s.parent, d, s.at + k, b, input, past);
      if verdict.Continue? {
        var cur := Cursor(verdict.body, verdict.status, ready.bytes);
        FinishPrepend(c, s, d, bytes, input, past, sub.calls, ChainFrom(c, m, d, k + 1, cur, request, past + sub.calls));
      }
    }
  }

  lemma FinishPrepend(c: Ctx, s: Site, d: map<string, Json>, bytes: Bytes, input: Bytes, past: Trace, calls: Trace, run: Run)
    requires c.g == s.g && Acyclic(s.g) && s.Spliceable()
    ensures
      var rest := Finish(c, s, d, bytes, input, past + calls, run);
      Finish(c, s, d, bytes, input, past, Run(calls + run.calls, run.out)) == Run(calls + rest.calls, rest.out)
  {
    var verdict := Judge(Sequence, s.Referrer(), run.out);
    if verdict.Continue? {
      var cur := Cursor(verdict.body, verdict.status, bytes);
      assert past + (calls + run.calls) == past + calls + run.calls;
      var rest := ChainFrom(c, s.parent, d, s.at + 1, cur, input, past + calls + run.calls);
      assert calls + run.calls + rest.calls == calls + (run.calls + rest.calls);
    }
  }

  /** The splice itself: the referring step on one side, the first inner step on the other. */
  lemma {:induction false} SiteSame(c: Ctx, c': Ctx, s: Site, d: map<string, Json>, cur: Cursor, input: Bytes, past: Trace)
    requires c.g == s.g && Acyclic(s.g) && s.Spliceable()
    requires c' == c.(g := s.After()) && Acyclic(c'.g)
    requires DecodeObject(c.init) == Some(d)
    ensures ChainFrom(c, s.parent, d, s.at, cur, input, past) == ChainFrom(c', s.parent, d, s.at, cur, input, past)
    decreases Height(s.g, s.parent), 3
  {
    var p, m, inner := s.Referrer(), s.Referrer().nodeName, s.Inner();
    StepsOfSplice(s, s.at);
    var ready := Prepare(c, Sequence, p, s.at == 0, cur, d, input);
    assert ready == Prepare(c', Sequence, s.NewSteps()[s.at], s.at == 0, cur, d, input);
    if ready.Ready? {
      assert ChainFrom(c, s.parent, d, s.at, cur, input, past) ==
             Finish(c, s, d, ready.bytes, input, past, Route(c, m, ready.request, past));
      assert Route(c, m, ready.request, past) == ChainFrom(c, m, d, 0, START, ready.request, past);
      assert Prepare(c, Sequence, inner[0], true, START, d, ready.request) == Ready(ready.request, EMPTY);
      FirstInnerSame(c, c', s, d, cur, ready.request, ready.bytes, input, past);
    }
  }

  lemma {:induction false} FirstInnerSame(c: Ctx, c': Ctx, s: Site, d: map<string, Json>, cur: Cursor, request: Bytes, bytes: Bytes,
                       input: Bytes, past: Trace)
    requires c.g == s.g && Acyclic(s.g) && s.Spliceable()
    requires c' == c.(g := s.After()) && Acyclic(c'.g)
    requires Prepare(c', Sequence, s.NewSteps()[s.at], s.at == 0, cur, d, input) == Ready(request, bytes)
    ensures ChainFrom(c', s.parent, d, s.at, cur, input, past) ==
            Finish(c, s, d, bytes, input, past, ChainFrom(c, s.Referrer().nodeName, d, 0, START, request, past))
    decreases Height(s.g, s.parent), 2, |s.Inner()|, 0
  {
    var m, inner := s.Referrer().nodeName, s.Inner();
    StepsOfSplice(s, s.at);
    InnerStepSame(c, c', s, 0, request, past);
    var sub := Execute(c, inner[0], request, past);
    assert sub == Execute(c', s.NewSteps()[s.at], request, past);
    assert Prepare(c, Sequence, inner[0], true, START, d, request) == Ready(request, EMPTY);
    var verdict := Judge(Sequence, inner[0], sub.out);
    ChainStep(c, m, d, 0, START, request, past);
    ChainStep(c', s.parent, d, s.at, cur, input, past);
    if verdict.Continue? {
      var a, b := Cursor(verdict.body, verdict.status, EMPTY), Cursor(verdict.body, verdict.status, bytes);
      MiddleSame(c, c', s, d, 1, a, b, request, input, bytes, past + sub.calls);
      FinishPrepend(c, s, d, bytes, input, past, sub.calls, ChainFrom(c, m, d, 1, a, request, past + sub.calls));
    }
  }

  /** A chain in front of the splice, or in a node the splice did not touch. */
  lemma {:induction false} ChainSame(c: Ctx, c': Ctx, s: Site, n: string, d: map<string, Json>, i: nat, cur: Cursor, input: Bytes, past: Trace)
    requires c.g == s.g && Acyclic(s.g) && s.Spliceable()
    requires c' == c.(g := s.After()) && Acyclic(c'.g)
    requires DecodeObject(c.init) == Some(d)
    requires n == s.parent ==> i <= s.at
    requires i <= |s.g.Node(n).steps|
    ensures ChainFrom(c, n, d, i, cur, input, past) == ChainFrom(c', n, d, i, cur, input, past)
    decreases Height(s.g, n), 4, |s.g.Node(n).steps| - i
  {
    var Router(kind, steps) := s.g.Node(n);
    if n == s.parent && i == s.at {
      SiteSame(c, c', s, d, cur, input, past);
    } else if i < |steps| {
      if n == s.parent { StepsOfSplice(s, i); }
      if Skipped(c, kind, steps[i]) {
        ChainSame(c, c', s, n, d, i + 1, cur, input, past);
      } else {
        var ready := Prepare(c, kind, steps[i], i == 0, cur, d, input);
        assert ready == Prepare(c', kind, steps[i], i == 0, cur, d, input);
        if ready.Ready? {
          StepsDescend(s.g, n, i);
          ExecuteSame(c, c', s, steps[i], ready.request, past);
          var sub := Execute(c, steps[i], ready.request, past);
          var verdict := Judge(kind, steps[i], sub.out);
          if verdict.Continue? {
            ChainSame(c, c', s, n, d, i + 1, Cursor(verdict.body, verdict.status, ready.bytes), input, past + sub.calls);
          }
        }
      }
    }
  }

  lemma {:induction false} WorkersSame(c: Ctx, c': Ctx, s: Site, n: string, i: nat, input: Bytes, past: Trace)
    requires c.g == s.g && Acyclic(s.g) && s.Spliceable()
    requires c' == c.(g := s.After()) && Acyclic(c'.g)
    requires n != s.parent && s.g.Node(n).kind.Ensemble?
    requires i <= |s.g.Node(n).steps|
    ensures Workers(c, n, i, input, past) == Workers(c', n, i, input, past)
    decreases Height(s.g, n), 4, |s.g.Node(n).steps| - i
  {
    var steps := s.g.Node(n).steps;
    if i < |steps| {
      StepsDescend(s.g, n, i);
      ExecuteSame(c, c', s, steps[i], input, past + [Branch(i)]);
      WorkersSame(c, c', s, n, i + 1, input, past);
    }
  }

  lemma {:induction false} ExecuteSame(c: Ctx, c': Ctx, s: Site, step: Step, request: Bytes, past: Trace)
    requires c.g == s.g && Acyclic(s.g) && s.Spliceable()
    requires c' == c.(g := s.After()) && Acyclic(c'.g)
    ensures Execute(c, step, request, past) == Execute(c', step, request, past)
    decreases StepHeight(s.g, step), 6
  {
    if !step.Leaf() {
      RouteSame(c, c', s, step.nodeName, request, past);
    }
  }

  lemma {:induction false} RouteSame(c: Ctx, c': Ctx, s: Site, n: string, input: Bytes, past: Trace)
    requires c.g == s.g && Acyclic(s.g) && s.Spliceable()
    requires c' == c.(g := s.After()) && Acyclic(c'.g)
    ensures Route(c, n, input, past) == Route(c', n, input, past)
    decreases Height(s.g, n), 5
  {
    match c.g.Node(n).kind
    case Unknown(_) =>
    case Ensemble => WorkersSame(c, c', s, n, 0, input, past);
    case _ =>
      var d := DecodeObject(c.init);
      if d.Some? {
        ChainSame(c, c', s, n, d.value, 0, START, input, past);
      }
  }

  /** Splicing preserves every run, from every node, on every input, for all services and schedules. */
  lemma SplicePreservesRuns(s: Site, w: World, init: Bytes, n: string, input: Bytes, past: Trace)
    requires Acyclic(s.g) && s.Spliceable()
    ensures Acyclic(s.After())
    ensures Route(Ctx(w, s.After(), init), n, input, past) == Route(Ctx(w, s.g, init), n, input, past)
  {
    SpliceStaysAcyclic(s);
    RouteSame(Ctx(w, s.g, init), Ctx(w, s.After(), init), s, n, input, past);
  }
}
