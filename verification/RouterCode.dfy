/**
  The router's handlers in the source's own form, as mutually recursive methods whose loops update the
  reply, the status and the merged map. Each is proved to compute the run that Semantics assigns to it.
  A method returns, with its answer, the calls it made; a goroutine scheduler is a field of the world.
 */
module RouterCode {
  import opened Graph
  import opened Payload
  import opened Semantics

  /** Writes the caller's parameters over the decoded reply, one key at a time, in any order. */
  method MergeRequests(w: World, respReq: Bytes, initReqData: map<string, Json>) returns (m: Merged)
    ensures m == Merge(w, respReq, initReqData)
  {
    if PARAMETERS !in initReqData {
      return Request(respReq);
    }
    if DecodeObject(respReq).None? {
      return Request(EMPTY);
    }
    var respReqData := respReq.json.value;
    var parameters := initReqData[PARAMETERS];
    if !parameters.Object? {
      return Panics(ParametersNotObject);
    }
    var todo := parameters.fields.Keys;
    while todo != {}
      invariant todo <= parameters.fields.Keys
      invariant respReqData.Null? ==> respReq.json == Some(Null) && todo == parameters.fields.Keys
      invariant respReqData.Object? ==> respReq.json.value.Object?
      invariant respReqData.Object? || respReqData.Null?
      invariant respReqData.Object? ==>
        respReqData.fields == respReq.json.value.fields + (parameters.fields - todo)
    {
      var key :| key in todo;
      if respReqData.Null? {
        return Panics(NilMapWrite);
      }
      respReqData := Object(respReqData.fields[key := parameters.fields[key]]);
      todo := todo - {key};
    }
    assert respReqData.Object? ==> parameters.fields - {} == parameters.fields;
    return Request(Encode(w.marshal, respReqData));
  }

  method ExecuteStep(c: Ctx, s: Step, request: Bytes, past: Trace) returns (r: Run)
    requires Acyclic(c.g)
    ensures r == Execute(c, s, request, past)
    decreases StepHeight(c.g, s), 4
  {
    if s.nodeName != "" {
      r := RouteStep(c, s.nodeName, request, past);
      return;
    }
    var call := Call(ServiceUrl(c.g, s), request);
    match c.w.service(past, call) {
      case Replied(body, status) => r := Run([Called(Sent(LeafOf(s), call))], Answer(Some(body), status));
      case NoReply(status) => r := Run([Called(Sent(LeafOf(s), call))], Fault(status, Unreachable(call.url)));
    }
  }

  method HandleSequencePipeline(c: Ctx, n: string, input: Bytes, past: Trace) returns (r: Run)
    requires Acyclic(c.g)
    requires c.g.Node(n).kind.Sequence?
    ensures r == ChainNode(c, n, input, past)
    decreases Height(c.g, n), 2
  {
    var decoded := DecodeObject(c.init);
    if decoded.None? {
      return Run([], Fault(500, DecodeFailure(c.init.text)));
    }
    var initReqData := decoded.value;
    var steps := c.g.Node(n).steps;
    var responseBody: Option<Stream>, statusCode, responseBytes := None, 0, EMPTY;
    var calls: Trace := [];
    assert past + calls == past;
    for i := 0 to |steps|
      invariant ChainNode(c, n, input, past) ==
                Resume(c, n, initReqData, i, Cursor(responseBody, statusCode, responseBytes), input, past, calls)
    {
      ghost var cur := Cursor(responseBody, statusCode, responseBytes);
      if steps[i].downstream {
        continue;
      }
      if responseBody.Some? {
        if responseBody.value.broken {
          return Run(calls, Fault(500, ReadFailure));
        }
        responseBytes := responseBody.value.data;
      }
      var request := input;
      if steps[i].data == RESPONSE && i > 0 {
        var merged := MergeRequests(c.w, responseBytes, initReqData);
        if merged.Panics? {
          return Run(calls, Crash(merged.panic));
        }
        request := merged.body;
      }
      if steps[i].condition != "" {
        if !c.w.valid(responseBytes) {
          return Run(calls, Fault(500, InvalidResponse));
        }
        if c.w.query(responseBytes, steps[i].condition).None? {
          return Run(calls, Answer(if responseBody.Some? then Some(responseBody.value.Drained()) else None, 500));
        }
      }
      assert Prepare(c, Sequence, steps[i], i == 0, cur, initReqData, input) == Ready(request, responseBytes);
      StepsDescend(c.g, n, i);
      var sub := ExecuteStep(c, steps[i], request, past + calls);
      ResumeStep(c, n, initReqData, i, cur, input, past, calls);
      calls := calls + sub.calls;
      match sub.out {
        case Crash(_) => return Run(calls, sub.out);
        case Fault(_, err) => return Run(calls, Fault(500, err));
        case Answer(body, status) =>
          responseBody, statusCode := body, status;
      }
      if steps[i].dependency.Hard? && !IsSuccessful(statusCode) {
        return Run(calls, Answer(responseBody, statusCode));
      }
    }
    return Run(calls, Answer(responseBody, statusCode));
  }

  method HandleSwitchPipeline(c: Ctx, n: string, input: Bytes, past: Trace) returns (r: Run)
    requires Acyclic(c.g)
    requires c.g.Node(n).kind.Switch?
    ensures r == ChainNode(c, n, input, past)
    decreases Height(c.g, n), 2
  {
    var decoded := DecodeObject(c.init);
    if decoded.None? {
      return Run([], Fault(500, DecodeFailure(c.init.text)));
    }
    var initReqData := decoded.value;
    var routes := c.g.Node(n).steps;
    var responseBody: Option<Stream>, statusCode, responseBytes := None, 0, EMPTY;
    var calls: Trace := [];
    assert past + calls == past;
    for i := 0 to |routes|
      invariant ChainNode(c, n, input, past) ==
                Resume(c, n, initReqData, i, Cursor(responseBody, statusCode, responseBytes), input, past, calls)
    {
      ghost var cur := Cursor(responseBody, statusCode, responseBytes);
      if routes[i].downstream {
        continue;
      }
      if routes[i].condition != "" {
        if !PicksRoute(c.w, c.init, routes[i].condition) {
          continue;
        }
      }
      if responseBody.Some? {
        if responseBody.value.broken {
          return Run(calls, Fault(500, ReadFailure));
        }
        responseBytes := responseBody.value.data;
      }
      var request := input;
      if routes[i].data == RESPONSE && i > 0 {
        var merged := MergeRequests(c.w, responseBytes, initReqData);
        if merged.Panics? {
          return Run(calls, Crash(merged.panic));
        }
        request := merged.body;
      }
      assert Prepare(c, Switch, routes[i], i == 0, cur, initReqData, input) == Ready(request, responseBytes);
      StepsDescend(c.g, n, i);
      var sub := ExecuteStep(c, routes[i], request, past + calls);
      ResumeStep(c, n, initReqData, i, cur, input, past, calls);
      calls := calls + sub.calls;
      match sub.out {
        case Crash(_) => return Run(calls, sub.out);
        case Fault(_, err) => return Run(calls, Fault(500, err));
        case Answer(body, status) =>
          responseBody, statusCode := body, status;
      }
    }
    return Run(calls, Answer(responseBody, statusCode));
  }

  /** A chain that has made `calls` and goes on at step i. */
  ghost function Resume(c: Ctx, n: string, d: map<string, Json>, i: nat, cur: Cursor, input: Bytes, past: Trace, calls: Trace): Run
    requires Acyclic(c.g)
    requires i <= |c.g.Node(n).steps|
  {
    var rest := ChainFrom(c, n, d, i, cur, input, past + calls);
    Run(calls + rest.calls, rest.out)
  }

  /** One executed step of a chain, with the calls made so far put in front. */
  lemma ResumeStep(c: Ctx, n: string, d: map<string, Json>, i: nat, cur: Cursor, input: Bytes, past: Trace, calls: Trace)
    requires Acyclic(c.g)
    requires i < |c.g.Node(n).steps|
    requires !Skipped(c, c.g.Node(n).kind, c.g.Node(n).steps[i])
    requires Prepare(c, c.g.Node(n).kind, c.g.Node(n).steps[i], i == 0, cur, d, input).Ready?
    ensures
      var Router(kind, steps) := c.g.Node(n);
      var ready := Prepare(c, kind, steps[i], i == 0, cur, d, input);
      var sub := Execute(c, steps[i], ready.request, past + calls);
      Resume(c, n, d, i, cur, input, past, calls) ==
      match Judge(kind, steps[i], sub.out)
      case Halt(out) => Run(calls + sub.calls, out)
      case Continue(body, status) =>
        Resume(c, n, d, i + 1, Cursor(body, status, ready.bytes), input, past, calls + sub.calls)
  {
    var Router(kind, steps) := c.g.Node(n);
    var ready := Prepare(c, kind, steps[i], i == 0, cur, d, input);
    var sub := Execute(c, steps[i], ready.request, past + calls);
    var verdict := Judge(kind, steps[i], sub.out);
    if verdict.Continue? {
      var rest := ChainFrom(c, n, d, i + 1, Cursor(verdict.body, verdict.status, ready.bytes), input, past + calls + sub.calls);
      assert past + (calls + sub.calls) == past + calls + sub.calls;
      assert calls + sub.calls + rest.calls == calls + (sub.calls + rest.calls);
    }
  }

  method HandleEnsemblePipeline(c: Ctx, n: string, input: Bytes, past: Trace) returns (r: Run)
    requires Acyclic(c.g)
    requires c.g.Node(n).kind.Ensemble?
    ensures r == EnsembleNode(c, n, input, past)
    decreases Height(c.g, n), 2
  {
    var steps := c.g.Node(n).steps;
    var runs: seq<Run>, msgs: seq<Message> := [], [];
    for i := 0 to |steps|
      invariant |runs| == i && msgs == Messages(runs)
      invariant runs + Workers(c, n, i, input, past) == Workers(c, n, 0, input, past)
    {
      StepsDescend(c.g, n, i);
      var run, msg := EnsembleWorker(c, steps[i], input, past + [Branch(i)]);
      assert runs + ([run] + Workers(c, n, i + 1, input, past)) == runs + [run] + Workers(c, n, i + 1, input, past);
      runs, msgs := runs + [run], msgs + [msg];
    }
    assert runs == Workers(c, n, 0, input, past);
    var out := Collect(c.w, steps, msgs, c.w.scheduler(past, msgs));
    return Run([Joined(Lanes(runs))], out);
  }

  /** The body of a worker goroutine, up to its send. */
  method EnsembleWorker(c: Ctx, s: Step, input: Bytes, past: Trace) returns (run: Run, msg: Message)
    requires Acyclic(c.g)
    ensures run == Execute(c, s, input, past)
    ensures msg == MessageOf(run.out)
    decreases StepHeight(c.g, s), 5
  {
    run := ExecuteStep(c, s, input, past);
    if run.out.Crash? {
      return run, Panicked(run.out.panic);
    }
    if run.out.Fault? {
      return run, Panicked(NilBodyClosed(run.out.err));
    }
    var responseBody := run.out.body;
    if responseBody.None? {
      return run, Panicked(NilBodyRead);
    }
    var output := responseBody.value.data;
    if DecodeObject(output).Some? {
      return run, Output(output.json.value, run.out.status);
    }
    return run, Undecodable(DecodeFailure(output.text));
  }

  /** The collector's loop, under a schedule that lets one failing worker in first, if it names one. */
  method Collect(w: World, steps: seq<Step>, msgs: seq<Message>, choice: nat) returns (out: Outcome)
    requires |steps| == |msgs|
    ensures out == EnsembleAnswer(w, steps, msgs, choice)
  {
    var response: map<string, Json> := map[];
    for i := 0 to |steps|
      invariant FirstStop(steps, msgs, 0) == FirstStop(steps, msgs, i)
      invariant forall k :: 0 <= k < i ==> msgs[k].Output?
      invariant response == Combined(steps, msgs, i)
      invariant i > 0 ==> choice >= |msgs| || msgs[choice].Output?
    {
      var next := if choice < |msgs| && !msgs[choice].Output? then choice else i;
      match msgs[next] {
        case Panicked(panic) => return Crash(panic);
        case Undecodable(err) => return Fault(500, err);
        case Output(reply, code) =>
          if !IsSuccessful(code) && steps[i].dependency.Hard? {
            return Answer(Some(InMemory(Encode(w.marshal, reply))), code);
          }
          response := response[Key(steps, i) := reply];
      }
    }
    return Answer(Some(InMemory(Encode(w.marshal, Object(response)))), 200);
  }

  method RouteStep(c: Ctx, n: string, input: Bytes, past: Trace) returns (r: Run)
    requires Acyclic(c.g)
    ensures r == Route(c, n, input, past)
    decreases Height(c.g, n), 3
  {
    var currentNode := c.g.Node(n);
    if currentNode.kind == Switch {
      r := HandleSwitchPipeline(c, n, input, past);
      return;
    }
    if currentNode.kind == Ensemble {
      r := HandleEnsemblePipeline(c, n, input, past);
      return;
    }
    if currentNode.kind == Sequence {
      r := HandleSequencePipeline(c, n, input, past);
      return;
    }
    return Run([], Fault(500, InvalidRoute(currentNode.kind.name)));
  }
}
