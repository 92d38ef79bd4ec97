/**
  Which steps a Switch node executes: all the matching ones, in list order, not just one as the type's
  documentation says. With conditions that exclude each other it does behave as documented.
 */
module SwitchRoutes {
  import opened Graph
  import opened Payload
  import opened Semantics
  import opened RunInvariants

  /** The step is in the running, judged by the initial request alone. */
  predicate Matches(c: Ctx, s: Step) {
    !s.downstream && (s.condition == "" || PicksRoute(c.w, c.init, s.condition))
  }

  /** The indices of the matching steps from i on, in list order. */
  function Matching(c: Ctx, steps: seq<Step>, i: nat): (r: seq<nat>)
    requires i <= |steps|
    ensures forall k :: 0 <= k < |r| ==> r[k] < |steps|
    decreases |steps| - i
  {
    if i == |steps| then []
    else if Matches(c, steps[i]) then [i] + Matching(c, steps, i + 1)
    else Matching(c, steps, i + 1)
  }

  lemma {:induction false} MatchingExact(c: Ctx, steps: seq<Step>, i: nat)
    requires i <= |steps|
    ensures forall k :: 0 <= k < |Matching(c, steps, i)| ==> i <= Matching(c, steps, i)[k] && Matches(c, steps[Matching(c, steps, i)[k]])
    ensures forall k, l :: 0 <= k < l < |Matching(c, steps, i)| ==> Matching(c, steps, i)[k] < Matching(c, steps, i)[l]
    ensures forall k :: i <= k < |steps| && Matches(c, steps[k]) ==> k in Matching(c, steps, i)
    decreases |steps| - i
  {
    if i < |steps| {
      MatchingExact(c, steps, i + 1);
    }
  }

  lemma TwoMatch(c: Ctx, steps: seq<Step>)
    requires |Matching(c, steps, 0)| > 1
    ensures exists k, l :: 0 <= k < l < |steps| && Matches(c, steps[k]) && Matches(c, steps[l])
  {
    MatchingExact(c, steps, 0);
    var k, l := Matching(c, steps, 0)[0], Matching(c, steps, 0)[1];
    assert 0 <= k < l < |steps| && Matches(c, steps[k]) && Matches(c, steps[l]);
  }

  /** The answer of a step as the node passes it on: a transport error becomes status 500. */
  function PassOn(out: Outcome): Outcome {
    if out.Fault? then Fault(500, out.err) else out
  }

  /** Executes the listed steps one after the other until one fails; the last reply is the answer. */
  function ExecuteAll(c: Ctx, n: string, initData: map<string, Json>, picked: seq<nat>, cur: Cursor, input: Bytes, past: Trace): Run
    requires Acyclic(c.g)
    requires forall k :: 0 <= k < |picked| ==> picked[k] < |c.g.Node(n).steps|
    decreases |picked|
  {
    if picked == [] then Run([], Answer(cur.body, cur.status))
    else
      var s := c.g.Node(n).steps[picked[0]];
      match Prepare(c, Switch, s, picked[0] == 0, cur, initData, input)
      case Stop(out) => Run([], out)
      case Ready(request, bytes) =>
        var sub := Execute(c, s, request, past);
        if !sub.out.Answer? then Run(sub.calls, PassOn(sub.out))
        else
          var next := Cursor(sub.out.body, sub.out.status, bytes);
          var rest := ExecuteAll(c, n, initData, picked[1..], next, input, past + sub.calls);
          Run(sub.calls + rest.calls, rest.out)
  }

  /** One executed step of the list, unfolded. */
  lemma ExecuteAllStep(c: Ctx, n: string, initData: map<string, Json>, i: nat, picked: seq<nat>, cur: Cursor, input: Bytes, past: Trace)
    requires Acyclic(c.g)
    requires i < |c.g.Node(n).steps|
    requires forall k :: 0 <= k < |picked| ==> picked[k] < |c.g.Node(n).steps|
    requires Prepare(c, Switch, c.g.Node(n).steps[i], i == 0, cur, initData, input).Ready?
    ensures
      var s := c.g.Node(n).steps[i];
      var ready := Prepare(c, Switch, s, i == 0, cur, initData, input);
      var sub := Execute(c, s, ready.request, past);
      ExecuteAll(c, n, initData, [i] + picked, cur, input, past) ==
      match Judge(Switch, s, sub.out)
      case Halt(out) => Run(sub.calls, out)
      case Continue(body, status) =>
        var rest := ExecuteAll(c, n, initData, picked, Cursor(body, status, ready.bytes), input, past + sub.calls);
        Run(sub.calls + rest.calls, rest.out)
  {
    assert ([i] + picked)[1..] == picked;
  }

  lemma {:induction false} ChainExecutesMatching(c: Ctx, n: string, initData: map<string, Json>, i: nat, cur: Cursor, input: Bytes, past: Trace)
    requires Acyclic(c.g)
    requires c.g.Node(n).kind.Switch?
    requires i <= |c.g.Node(n).steps|
    ensures ChainFrom(c, n, initData, i, cur, input, past) ==
            ExecuteAll(c, n, initData, Matching(c, c.g.Node(n).steps, i), cur, input, past)
    decreases |c.g.Node(n).steps| - i
  {
    var steps := c.g.Node(n).steps;
    if i < |steps| {
      if Skipped(c, Switch, steps[i]) {
        ChainExecutesMatching(c, n, initData, i + 1, cur, input, past);
      } else {
        var picked := Matching(c, steps, i + 1);
        assert Matching(c, steps, i) == [i] + picked;
        var ready := Prepare(c, Switch, steps[i], i == 0, cur, initData, input);
        if ready.Ready? {
          ChainStep(c, n, initData, i, cur, input, past);
          ExecuteAllStep(c, n, initData, i, picked, cur, input, past);
          var sub := Execute(c, steps[i], ready.request, past);
          var verdict := Judge(Switch, steps[i], sub.out);
          if verdict.Continue? {
            ChainExecutesMatching(c, n, initData, i + 1, Cursor(verdict.body, verdict.status, ready.bytes), input, past + sub.calls);
          }
        }
      }
    }
  }

  /** A Switch node executes exactly the steps that match the initial request. */
  lemma SwitchExecutesMatching(c: Ctx, n: string, input: Bytes, past: Trace)
    requires Acyclic(c.g)
    requires c.g.Node(n).kind.Switch?
    requires DecodeObject(c.init).Some?
    ensures Route(c, n, input, past) ==
            ExecuteAll(c, n, DecodeObject(c.init).value, Matching(c, c.g.Node(n).steps, 0), START, input, past)
  {
    ChainExecutesMatching(c, n, DecodeObject(c.init).value, 0, START, input, past);
  }

  /**
    No two conditions hold of the same request: the node runs the one matching step, or nothing, and
    then answers with a nil body and status 0. A `$response` step that is not first in the list is sent
    an empty body, since no reply precedes it.
   */
  lemma ExclusiveSwitchRunsOne(c: Ctx, n: string, input: Bytes, past: Trace, j: nat)
    requires Acyclic(c.g)
    requires c.g.Node(n).kind.Switch?
    requires DecodeObject(c.init).Some?
    requires forall k, l :: 0 <= k < l < |c.g.Node(n).steps| ==>
               !(Matches(c, c.g.Node(n).steps[k]) && Matches(c, c.g.Node(n).steps[l]))
    ensures
      var steps := c.g.Node(n).steps;
      && ((forall k :: 0 <= k < |steps| ==> !Matches(c, steps[k])) ==>
           Route(c, n, input, past) == Run([], Answer(None, 0)))
      && (j < |steps| && Matches(c, steps[j]) ==>
           var request := if steps[j].data == RESPONSE && j > 0 then EMPTY else input;
           var sub := Execute(c, steps[j], request, past);
           Route(c, n, input, past) == Run(sub.calls, PassOn(sub.out)))
  {
    var steps := c.g.Node(n).steps;
    var picked := Matching(c, steps, 0);
    SwitchExecutesMatching(c, n, input, past);
    MatchingExact(c, steps, 0);
    if j < |steps| && Matches(c, steps[j]) {
      if |picked| > 1 {
        TwoMatch(c, steps);
        assert false;
      }
      assert picked == [j];
      var d := DecodeObject(c.init).value;
      var request := if steps[j].data == RESPONSE && j > 0 then EMPTY else input;
      assert Prepare(c, Switch, steps[j], j == 0, START, d, input) == Ready(request, EMPTY);
      var sub := Execute(c, steps[j], request, past);
      assert sub.calls + [] == sub.calls;
    } else if picked != [] {
      assert Matches(c, steps[picked[0]]);
    }
  }

  // ----- how many services one request to a Switch node calls -----

  type Service = (Trace, Call) -> Reply

  function With(c: Ctx, service: Service): Ctx {
    c.(w := c.w.(service := service))
  }

  function CallsOf(c: Ctx, n: string, input: Bytes, past: Trace): seq<Sent>
    requires Acyclic(c.g)
  {
    Flatten(Route(c, n, input, past).calls)
  }

  /** Services have no part in which steps match. */
  lemma {:induction false} MatchingWith(c: Ctx, service: Service, steps: seq<Step>, i: nat)
    requires i <= |steps|
    ensures Matching(With(c, service), steps, i) == Matching(c, steps, i)
    decreases |steps| - i
  {
    if i < |steps| {
      MatchingWith(c, service, steps, i + 1);
    }
  }

  lemma {:induction false} AtMostPicked(c: Ctx, n: string, d: map<string, Json>, picked: seq<nat>, cur: Cursor, input: Bytes, past: Trace)
    requires Acyclic(c.g)
    requires forall k :: 0 <= k < |picked| ==> picked[k] < |c.g.Node(n).steps| && c.g.Node(n).steps[picked[k]].Leaf()
    ensures |Flatten(ExecuteAll(c, n, d, picked, cur, input, past).calls)| <= |picked|
    decreases |picked|
  {
    if picked != [] {
      var s := c.g.Node(n).steps[picked[0]];
      var ready := Prepare(c, Switch, s, picked[0] == 0, cur, d, input);
      if ready.Ready? {
        var sub := Execute(c, s, ready.request, past);
        assert sub.calls[1..] == [] && |Flatten(sub.calls)| == 1;
        if sub.out.Answer? {
          var next := Cursor(sub.out.body, sub.out.status, ready.bytes);
          AtMostPicked(c, n, d, picked[1..], next, input, past + sub.calls);
          FlattenConcat(sub.calls, ExecuteAll(c, n, d, picked[1..], next, input, past + sub.calls).calls);
        }
      }
    }
  }

  /** Every call is answered with 200 and a body that does not parse. */
  function Mute(): Service {
    (past, call) => Replied(InMemory(EMPTY), 200)
  }

  function AfterMute(): Cursor {
    Cursor(Some(InMemory(EMPTY)), 200, EMPTY)
  }

  function MuteSent(c: Ctx, n: string, i: nat, input: Bytes): Sent
    requires i < |c.g.Node(n).steps|
  {
    var s := c.g.Node(n).steps[i];
    Sent(LeafOf(s), Call(ServiceUrl(c.g, s), if s.data == RESPONSE && i != 0 then EMPTY else input))
  }

  /** After such an answer, or none, the next matching step is called all the same. */
  lemma CalledAnyway(c: Ctx, n: string, d: map<string, Json>, picked: seq<nat>, cur: Cursor, input: Bytes, past: Trace)
    requires Acyclic(c.g) && picked != [] && c.w.service == Mute()
    requires forall k :: 0 <= k < |picked| ==> picked[k] < |c.g.Node(n).steps|
    requires c.g.Node(n).steps[picked[0]].Leaf()
    requires cur == START || cur == AfterMute()
    ensures
      var sent := MuteSent(c, n, picked[0], input);
      var rest := ExecuteAll(c, n, d, picked[1..], AfterMute(), input, past + [Called(sent)]);
      ExecuteAll(c, n, d, picked, cur, input, past) == Run([Called(sent)] + rest.calls, rest.out)
  {
    var s := c.g.Node(n).steps[picked[0]];
    assert Prepare(c, Switch, s, picked[0] == 0, cur, d, input) ==
           Ready(if s.data == RESPONSE && picked[0] != 0 then EMPTY else input, EMPTY);
  }

  lemma {:induction false} MuteCallsAll(c: Ctx, n: string, d: map<string, Json>, picked: seq<nat>, cur: Cursor, input: Bytes, past: Trace)
    requires Acyclic(c.g) && c.w.service == Mute()
    requires forall k :: 0 <= k < |picked| ==> picked[k] < |c.g.Node(n).steps| && c.g.Node(n).steps[picked[k]].Leaf()
    requires cur == START || cur == AfterMute()
    ensures |Flatten(ExecuteAll(c, n, d, picked, cur, input, past).calls)| == |picked|
    decreases |picked|
  {
    if picked != [] {
      var sent := MuteSent(c, n, picked[0], input);
      CalledAnyway(c, n, d, picked, cur, input, past);
      MuteCallsAll(c, n, d, picked[1..], AfterMute(), input, past + [Called(sent)]);
      FlattenConcat([Called(sent)], ExecuteAll(c, n, d, picked[1..], AfterMute(), input, past + [Called(sent)]).calls);
      assert [Called(sent)][1..] == [] && Flatten([Called(sent)]) == [sent];
    }
  }

  /**
    The bound on the calls of a Switch node whose matching steps are leaf steps, whatever the services
    answer, is the number of matching steps. So it does not route to one of the steps, as documented: it
    calls at most one service just if at most one step matches.
   */
  lemma SwitchCallsExactly(c: Ctx, n: string, input: Bytes, past: Trace, bound: nat)
    requires Acyclic(c.g) && c.g.Node(n).kind.Switch? && DecodeObject(c.init).Some?
    requires forall k :: 0 <= k < |c.g.Node(n).steps| && Matches(c, c.g.Node(n).steps[k]) ==> c.g.Node(n).steps[k].Leaf()
    ensures (forall service: Service :: |CallsOf(With(c, service), n, input, past)| <= bound) <==>
            |Matching(c, c.g.Node(n).steps, 0)| <= bound
  {
    var steps, d := c.g.Node(n).steps, DecodeObject(c.init).value;
    var picked := Matching(c, steps, 0);
    MatchingExact(c, steps, 0);
    forall service: Service
      ensures CallsOf(With(c, service), n, input, past) ==
              Flatten(ExecuteAll(With(c, service), n, d, picked, START, input, past).calls)
      ensures |CallsOf(With(c, service), n, input, past)| <= |picked|
    {
      MatchingWith(c, service, steps, 0);
      SwitchExecutesMatching(With(c, service), n, input, past);
      AtMostPicked(With(c, service), n, d, picked, START, input, past);
    }
    MuteCallsAll(With(c, Mute()), n, d, picked, START, input, past);
    assert |CallsOf(With(c, Mute()), n, input, past)| == |picked|;
  }
}
