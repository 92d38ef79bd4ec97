/**
  Why services given as a function of a call's causal past are services of every behaviour: a run asks
  that function at pairwise distinct pasts, and depends on nothing but its answers there. So whatever a
  stateful service may answer to the calls of a run, some function gives just these answers.
 */
module Oracle {
  import opened Graph
  import opened Payload
  import opened Semantics

  datatype Question = Question(past: Trace, call: Call)

  /** What the services are asked in the events t after the given past. */
  function Asked(past: Trace, t: Trace): seq<Question>
    decreases t
  {
    if t == [] then [] else AskedBy(past, t[0]) + Asked(past + [t[0]], t[1..])
  }

  function AskedBy(past: Trace, e: Event): seq<Question>
    decreases e
  {
    match e
    case Called(sent) => [Question(past, sent.call)]
    case Branch(_) => []
    case Joined(lanes) => AskedIn(past, lanes, 0)
  }

  /** The same of lanes k, k+1, ... of a fan-out. */
  function AskedIn(past: Trace, lanes: seq<Lane>, k: nat): seq<Question>
    decreases lanes
  {
    if lanes == [] then [] else Asked(past + [Branch(k)], lanes[0].events) + AskedIn(past, lanes[1..], k + 1)
  }

  lemma {:induction false} AskedConcat(past: Trace, a: Trace, b: Trace)
    ensures Asked(past, a + b) == Asked(past, a) + Asked(past + a, b)
    decreases a
  {
    if a == [] {
      assert a + b == b && past + a == past;
    } else {
      assert (a + b)[1..] == a[1..] + b && past + [a[0]] + a[1..] == past + a;
      AskedConcat(past + [a[0]], a[1..], b);
    }
  }

  lemma AskedOne(past: Trace, e: Event)
    ensures Asked(past, [e]) == AskedBy(past, e)
  {
    assert [e][1..] == [];
  }

  // ----- distinct pasts -----

  ghost predicate Distinct(qs: seq<Question>) {
    forall i, j :: 0 <= i < j < |qs| ==> qs[i].past != qs[j].past
  }

  predicate Extends(past: Trace, q: Question) {
    |past| <= |q.past| && q.past[..|past|] == past
  }

  /** The question comes from lane k, or a later one, of a fan-out after the given past. */
  predicate FromLane(past: Trace, k: nat, q: Question) {
    Extends(past, q) && |past| < |q.past| && q.past[|past|].Branch? && q.past[|past|].worker >= k
  }

  lemma {:induction false} AskedExtends(past: Trace, t: Trace)
    ensures forall q :: q in Asked(past, t) ==> Extends(past, q)
    decreases t, 0
  {
    if t != [] {
      ByExtends(past, t[0]);
      AskedExtends(past + [t[0]], t[1..]);
      forall q | q in Asked(past + [t[0]], t[1..])
        ensures Extends(past, q)
      {
        assert q.past[..|past|] == q.past[..|past| + 1][..|past|];
      }
    }
  }

  lemma {:induction false} ByExtends(past: Trace, e: Event)
    ensures forall q :: q in AskedBy(past, e) ==> if e.Called? then q.past == past else FromLane(past, 0, q)
    decreases e
  {
    if e.Joined? {
      InExtends(past, e.lanes, 0);
    }
  }

  lemma {:induction false} InExtends(past: Trace, lanes: seq<Lane>, k: nat)
    ensures forall q :: q in AskedIn(past, lanes, k) ==> FromLane(past, k, q)
    decreases lanes
  {
    if lanes != [] {
      OneLane(past, lanes[0].events, k);
      InExtends(past, lanes[1..], k + 1);
    }
  }

  lemma {:induction false} OneLane(past: Trace, events: Trace, k: nat)
    ensures forall q :: q in Asked(past + [Branch(k)], events) ==> FromLane(past, k, q) && q.past[|past|] == Branch(k)
    decreases events, 1
  {
    AskedExtends(past + [Branch(k)], events);
    forall q | q in Asked(past + [Branch(k)], events)
      ensures FromLane(past, k, q) && q.past[|past|] == Branch(k)
    {
      assert q.past[..|past|] == q.past[..|past| + 1][..|past|];
      assert q.past[|past|] == q.past[..|past| + 1][|past|];
    }
  }

  lemma DistinctConcat(a: seq<Question>, b: seq<Question>)
    requires Distinct(a) && Distinct(b)
    requires forall p, q :: p in a && q in b ==> p.past != q.past
    ensures Distinct(a + b)
  {
    forall i, j | 0 <= i < j < |a + b|
      ensures (a + b)[i].past != (a + b)[j].past
    {
      if i < |a| <= j {
        assert (a + b)[i] in a && (a + b)[j] in b;
      }
    }
  }

  /** No two calls of a trace have the same past. */
  lemma {:induction false} AskedDistinct(past: Trace, t: Trace)
    ensures Distinct(Asked(past, t))
    decreases t
  {
    if t != [] {
      var e := t[0];
      ByDistinct(past, e);
      AskedDistinct(past + [e], t[1..]);
      ByExtends(past, e);
      AskedExtends(past + [e], t[1..]);
      forall p, q | p in AskedBy(past, e) && q in Asked(past + [e], t[1..])
        ensures p.past != q.past
      {
        assert q.past[..|past| + 1][|past|] == e;
      }
      DistinctConcat(AskedBy(past, e), Asked(past + [e], t[1..]));
    }
  }

  lemma {:induction false} ByDistinct(past: Trace, e: Event)
    ensures Distinct(AskedBy(past, e))
    decreases e
  {
    if e.Joined? {
      InDistinct(past, e.lanes, 0);
    }
  }

  lemma {:induction false} InDistinct(past: Trace, lanes: seq<Lane>, k: nat)
    ensures Distinct(AskedIn(past, lanes, k))
    decreases lanes
  {
    if lanes != [] {
      AskedDistinct(past + [Branch(k)], lanes[0].events);
      InDistinct(past, lanes[1..], k + 1);
      OneLane(past, lanes[0].events, k);
      InExtends(past, lanes[1..], k + 1);
      DistinctConcat(Asked(past + [Branch(k)], lanes[0].events), AskedIn(past, lanes[1..], k + 1));
    }
  }

  /** The answer to the question at this past. */
  function AnswerAt(qs: seq<Question>, answers: seq<Reply>, past: Trace): Reply
    requires |qs| == |answers|
  {
    if qs == [] then NoReply(500)
    else if qs[0].past == past then answers[0]
    else AnswerAt(qs[1..], answers[1..], past)
  }

  lemma {:induction false} AnswerFound(qs: seq<Question>, answers: seq<Reply>, i: nat)
    requires |qs| == |answers| && Distinct(qs) && i < |qs|
    ensures AnswerAt(qs, answers, qs[i].past) == answers[i]
  {
    if i > 0 {
      assert qs[0].past != qs[i].past;
      assert qs[1..][i - 1] == qs[i];
      AnswerFound(qs[1..], answers[1..], i - 1);
    }
  }

  ghost predicate Gives(service: (Trace, Call) -> Reply, qs: seq<Question>, answers: seq<Reply>)
    requires |qs| == |answers|
  {
    forall i :: 0 <= i < |qs| ==> service(qs[i].past, qs[i].call) == answers[i]
  }

  /** Any answers whatever to the calls of a trace are those of some function of the past. */
  lemma AnyAnswers(past: Trace, t: Trace, answers: seq<Reply>)
    requires |answers| == |Asked(past, t)|
    ensures exists service :: Gives(service, Asked(past, t), answers)
  {
    var qs := Asked(past, t);
    var service: (Trace, Call) -> Reply := (p, call) => AnswerAt(qs, answers, p);
    AskedDistinct(past, t);
    forall i | 0 <= i < |answers|
      ensures service(qs[i].past, qs[i].call) == answers[i]
    {
      AnswerFound(qs, answers, i);
    }
    assert Gives(service, qs, answers);
  }

  // ----- only the answers matter -----

  /** Both services answer these questions alike. */
  ghost predicate Agree(w: World, w': World, qs: seq<Question>) {
    forall q :: q in qs ==> w.service(q.past, q.call) == w'.service(q.past, q.call)
  }

  /** The contexts differ in their services at most. */
  ghost predicate Similar(c: Ctx, c': Ctx) {
    c' == c.(w := c.w.(service := c'.w.service))
  }

  lemma {:induction false} ChainDepends(c: Ctx, c': Ctx, n: string, d: map<string, Json>, i: nat, cur: Cursor, input: Bytes, past: Trace)
    requires Acyclic(c.g) && Similar(c, c') && i <= |c.g.Node(n).steps|
    requires Agree(c.w, c'.w, Asked(past, ChainFrom(c, n, d, i, cur, input, past).calls))
    ensures ChainFrom(c', n, d, i, cur, input, past) == ChainFrom(c, n, d, i, cur, input, past)
    decreases Height(c.g, n), 1, |c.g.Node(n).steps| - i
  {
    var Router(kind, steps) := c.g.Node(n);
    if i < |steps| {
      if Skipped(c, kind, steps[i]) {
        ChainDepends(c, c', n, d, i + 1, cur, input, past);
      } else {
        var ready := Prepare(c, kind, steps[i], i == 0, cur, d, input);
        assert ready == Prepare(c', kind, steps[i], i == 0, cur, d, input);
        if ready.Ready? {
          StepsDescend(c.g, n, i);
          ChainStep(c, n, d, i, cur, input, past);
          var sub := Execute(c, steps[i], ready.request, past);
          var verdict := Judge(kind, steps[i], sub.out);
          if verdict.Continue? {
            var next := Cursor(verdict.body, verdict.status, ready.bytes);
            var rest := ChainFrom(c, n, d, i + 1, next, input, past + sub.calls);
            AskedConcat(past, sub.calls, rest.calls);
            AgreeSplit(c.w, c'.w, Asked(past, sub.calls), Asked(past + sub.calls, rest.calls));
            ChainDepends(c, c', n, d, i + 1, next, input, past + sub.calls);
          }
          StepDepends(c, c', steps[i], ready.request, past);
          ChainStep(c', n, d, i, cur, input, past);
        }
      }
    }
  }

  lemma AgreeSplit(w: World, w': World, a: seq<Question>, b: seq<Question>)
    requires Agree(w, w', a + b)
    ensures Agree(w, w', a) && Agree(w, w', b)
  {
  }

  lemma {:induction false} WorkersDepend(c: Ctx, c': Ctx, n: string, i: nat, input: Bytes, past: Trace)
    requires Acyclic(c.g) && Similar(c, c') && i <= |c.g.Node(n).steps| && c.g.Node(n).kind.Ensemble?
    requires Agree(c.w, c'.w, AskedIn(past, Lanes(Workers(c, n, i, input, past)), i))
    ensures Workers(c', n, i, input, past) == Workers(c, n, i, input, past)
    decreases Height(c.g, n), 1, |c.g.Node(n).steps| - i
  {
    var steps := c.g.Node(n).steps;
    if i < |steps| {
      StepsDescend(c.g, n, i);
      var runs, rest := Workers(c, n, i, input, past), Workers(c, n, i + 1, input, past);
      assert runs[1..] == rest && Lanes(runs)[1..] == Lanes(rest);
      AgreeSplit(c.w, c'.w, Asked(past + [Branch(i)], runs[0].calls), AskedIn(past, Lanes(rest), i + 1));
      StepDepends(c, c', steps[i], input, past + [Branch(i)]);
      WorkersDepend(c, c', n, i + 1, input, past);
    }
  }

  lemma {:induction false} StepDepends(c: Ctx, c': Ctx, s: Step, request: Bytes, past: Trace)
    requires Acyclic(c.g) && Similar(c, c')
    requires Agree(c.w, c'.w, Asked(past, Execute(c, s, request, past).calls))
    ensures Execute(c', s, request, past) == Execute(c, s, request, past)
    decreases StepHeight(c.g, s), 4
  {
    if s.Leaf() {
      var run := Execute(c, s, request, past);
      AskedOne(past, run.calls[0]);
      assert Question(past, Call(ServiceUrl(c.g, s), request)) in Asked(past, run.calls);
    } else {
      RunDependsOnAnswers(c, c', s.nodeName, request, past);
    }
  }

  /** Services that answer the questions of a run alike give the same run. */
  lemma {:induction false} RunDependsOnAnswers(c: Ctx, c': Ctx, n: string, input: Bytes, past: Trace)
    requires Acyclic(c.g) && Similar(c, c')
    requires Agree(c.w, c'.w, Asked(past, Route(c, n, input, past).calls))
    ensures Route(c', n, input, past) == Route(c, n, input, past)
    decreases Height(c.g, n), 3
  {
    match c.g.Node(n).kind
    case Unknown(_) =>
    case Ensemble =>
      var runs := Workers(c, n, 0, input, past);
      var run := Route(c, n, input, past);
      assert run == EnsembleNode(c, n, input, past);
      AskedOne(past, Joined(Lanes(runs)));
      WorkersDepend(c, c', n, 0, input, past);
    case _ =>
      var d := DecodeObject(c.init);
      if d.Some? {
        assert Route(c, n, input, past) == ChainFrom(c, n, d.value, 0, START, input, past);
        ChainDepends(c, c', n, d.value, 0, START, input, past);
      }
  }
}
