/**
  What one request through the router does: the calls it makes to services and the answer it gives.
  Services are an arbitrary oracle. A call's causal past (the calls made before it on its own line of
  control, with a marker for each goroutine entered and a record of each fan-out joined) is different
  for every call of a run, so quantifying over oracles covers every behaviour of the services, racing
  and stateful ones included; module Oracle proves both halves of that.
 */
module Semantics {
  import opened Graph
  import opened Payload
  import opened Text

  const PARAMETERS := "parameters"
  const RESPONSE := "$response"

  datatype Call = Call(url: string, body: Bytes)

  /** A call, and the step that was executed by making it. */
  datatype Sent = Sent(leaf: Step, call: Call)

  /** What tells a leaf step from others, apart from how it is fed: its Data and Condition are left out. */
  function LeafOf(s: Step): Step {
    s.(data := "", condition := "")
  }

  datatype Event =
    | Called(sent: Sent)
    | Branch(worker: nat)
    | Joined(lanes: seq<Lane>)

  /** The events of one goroutine of a fan-out. */
  datatype Lane = Lane(events: seq<Event>)

  type Trace = seq<Event>

  datatype Error =
    | DecodeFailure(text: string)
    | ReadFailure
    | InvalidResponse
    | InvalidRoute(kind: string)
    | Unreachable(url: string)

  /** The run-time panics the router code can run into; each one ends the process. */
  datatype Panic =
    | ParametersNotObject
    | NilMapWrite
    | NilBodyRead
    | NilBodyClosed(err: Error)

  datatype Outcome =
    | Answer(body: Option<Stream>, status: int)
    | Fault(status: int, err: Error)
    | Crash(panic: Panic)

  datatype Reply = Replied(body: Stream, code: int) | NoReply(code: int)

  datatype Run = Run(calls: Trace, out: Outcome)

  /** What an ensemble goroutine has for the collector. */
  datatype Message =
    | Output(reply: Json, code: int)
    | Undecodable(err: Error)
    | Panicked(panic: Panic)

  /** Everything the router does not decide itself: services, goroutine scheduling, the JSON and string libraries. */
  datatype World = World(
    service: (Trace, Call) -> Reply,
    scheduler: (Trace, seq<Message>) -> nat,
    marshal: Json -> string,
    valid: Bytes -> bool,
    query: (Bytes, string) -> Option<string>,
    trim: string -> string)

  /** The parts of a run that never change while it goes on. */
  datatype Ctx = Ctx(w: World, g: Graph, init: Bytes)

  /** The 2xx class of status codes. */
  predicate IsSuccessful(status: int): (r: bool)
    ensures r <==> status / 100 == 2
  {
    200 <= status <= 299
  }

  /** The condition of a Switch step, looked up in the initial request. */
  predicate PicksRoute(w: World, init: Bytes, condition: string) {
    w.valid(init) &&
    ( || w.query(init, condition).Some?
      || ( && '.' !in condition
           && '#' !in condition
           && match FindEquals(condition, 0)
              case None => false
              case Some(k) =>
                var hit := w.query(init, w.trim(condition[..k]));
                (if hit.Some? then hit.value else "") == w.trim(condition[k + 2..])))
  }

  function ServiceUrl(g: Graph, s: Step): string {
    if s.serviceUrl == "" then "http://" + s.name + "." + g.namespace + ".svc.cluster.local" else s.serviceUrl
  }

  datatype Merged = Request(body: Bytes) | Panics(panic: Panic)

  /** The request built from a reply: the caller's parameters override the reply's own fields. */
  function Merge(w: World, reply: Bytes, initData: map<string, Json>): Merged {
    if PARAMETERS !in initData then
      Request(reply)
    else
      match reply.json
      case Some(Object(fields)) =>
        if !initData[PARAMETERS].Object? then Panics(ParametersNotObject)
        else Request(Encode(w.marshal, Object(fields + initData[PARAMETERS].fields)))
      case Some(Null) =>
        if !initData[PARAMETERS].Object? then Panics(ParametersNotObject)
        else if initData[PARAMETERS].fields != map[] then Panics(NilMapWrite)
        else Request(Encode(w.marshal, Null))
      case _ =>
        Request(EMPTY)
  }

  // ---------------------------------------------------------------------------------------------
  // Chains: the step loops of Sequence and Switch nodes
  // ---------------------------------------------------------------------------------------------

  /** The loop state: the reply not yet read, its status, and the last reply that was read. */
  datatype Cursor = Cursor(body: Option<Stream>, status: int, bytes: Bytes)

  const START := Cursor(None, 0, EMPTY)

  predicate Skipped(c: Ctx, kind: RouterType, s: Step) {
    s.downstream || (kind.Switch? && s.condition != "" && !PicksRoute(c.w, c.init, s.condition))
  }

  /** Either the request for a step and the reply it was derived from, or the end of the chain. */
  datatype Prepared = Ready(request: Bytes, bytes: Bytes) | Stop(out: Outcome)

  function Prepare(c: Ctx, kind: RouterType, s: Step, first: bool, cur: Cursor, initData: map<string, Json>, input: Bytes): Prepared
  {
    if cur.body.Some? && cur.body.value.broken then
      Stop(Fault(500, ReadFailure))
    else
      var bytes := if cur.body.Some? then cur.body.value.data else cur.bytes;
      var request := if s.data == RESPONSE && !first then Merge(c.w, bytes, initData) else Request(input);
      if request.Panics? then
        Stop(Crash(request.panic))
      else if kind.Sequence? && s.condition != "" && !c.w.valid(bytes) then
        Stop(Fault(500, InvalidResponse))
      else if kind.Sequence? && s.condition != "" && c.w.query(bytes, s.condition).None? then
        Stop(Answer(if cur.body.Some? then Some(cur.body.value.Drained()) else None, 500))
      else
        Ready(request.body, bytes)
  }

  datatype Verdict = Continue(body: Option<Stream>, status: int) | Halt(out: Outcome)

  function Judge(kind: RouterType, s: Step, out: Outcome): Verdict {
    match out
    case Fault(_, err) => Halt(Fault(500, err))
    case Crash(_) => Halt(out)
    case Answer(body, status) =>
      if kind.Sequence? && s.dependency.Hard? && !IsSuccessful(status) then Halt(out) else Continue(body, status)
  }

  function ChainFrom(c: Ctx, n: string, initData: map<string, Json>, i: nat, cur: Cursor, input: Bytes, past: Trace): Run
    requires Acyclic(c.g)
    requires i <= |c.g.Node(n).steps|
    decreases Height(c.g, n), 1, |c.g.Node(n).steps| - i
  {
    var Router(kind, steps) := c.g.Node(n);
    if i == |steps| then
      Run([], Answer(cur.body, cur.status))
    else if Skipped(c, kind, steps[i]) then
      ChainFrom(c, n, initData, i + 1, cur, input, past)
    else
      match Prepare(c, kind, steps[i], i == 0, cur, initData, input)
      case Stop(out) => Run([], out)
      case Ready(request, bytes) =>
        StepsDescend(c.g, n, i);
        var sub := Execute(c, steps[i], request, past);
        match Judge(kind, steps[i], sub.out)
        case Halt(out) => Run(sub.calls, out)
        case Continue(body, status) =>
          var rest := ChainFrom(c, n, initData, i + 1, Cursor(body, status, bytes), input, past + sub.calls);
          Run(sub.calls + rest.calls, rest.out)
  }

  /** One executed step of a chain, unfolded. */
  lemma ChainStep(c: Ctx, n: string, initData: map<string, Json>, i: nat, cur: Cursor, input: Bytes, past: Trace)
    requires Acyclic(c.g)
    requires i < |c.g.Node(n).steps|
    requires !Skipped(c, c.g.Node(n).kind, c.g.Node(n).steps[i])
    requires Prepare(c, c.g.Node(n).kind, c.g.Node(n).steps[i], i == 0, cur, initData, input).Ready?
    ensures
      var Router(kind, steps) := c.g.Node(n);
      var ready := Prepare(c, kind, steps[i], i == 0, cur, initData, input);
      var sub := Execute(c, steps[i], ready.request, past);
      ChainFrom(c, n, initData, i, cur, input, past) ==
      match Judge(kind, steps[i], sub.out)
      case Halt(out) => Run(sub.calls, out)
      case Continue(body, status) =>
        var rest := ChainFrom(c, n, initData, i + 1, Cursor(body, status, ready.bytes), input, past + sub.calls);
        Run(sub.calls + rest.calls, rest.out)
  {
  }

  /** Two chains whose next steps are prepared, executed and judged alike, and that go on alike. */
  lemma ChainStepSame(c: Ctx, c': Ctx, n: string, n': string, d: map<string, Json>, i: nat, i': nat,
                      cur: Cursor, cur': Cursor, input: Bytes, input': Bytes, past: Trace, ready: Prepared, sub: Run, verdict: Verdict)
    requires Acyclic(c.g) && Acyclic(c'.g)
    requires i < |c.g.Node(n).steps| && i' < |c'.g.Node(n').steps|
    requires
      var Router(kind, steps) := c.g.Node(n);
      && !Skipped(c, kind, steps[i])
      && Prepare(c, kind, steps[i], i == 0, cur, d, input) == ready
      && (ready.Ready? ==> Execute(c, steps[i], ready.request, past) == sub && Judge(kind, steps[i], sub.out) == verdict)
    requires
      var Router(kind, steps) := c'.g.Node(n');
      && !Skipped(c', kind, steps[i'])
      && Prepare(c', kind, steps[i'], i' == 0, cur', d, input') == ready
      && (ready.Ready? ==> Execute(c', steps[i'], ready.request, past) == sub && Judge(kind, steps[i'], sub.out) == verdict)
    requires ready.Ready? && verdict.Continue? ==>
      var next := Cursor(verdict.body, verdict.status, ready.bytes);
      ChainFrom(c, n, d, i + 1, next, input, past + sub.calls) == ChainFrom(c', n', d, i' + 1, next, input', past + sub.calls)
    ensures ChainFrom(c, n, d, i, cur, input, past) == ChainFrom(c', n', d, i', cur', input', past)
  {
    if ready.Ready? {
      ChainStep(c, n, d, i, cur, input, past);
      ChainStep(c', n', d, i', cur', input', past);
    }
  }

  function ChainNode(c: Ctx, n: string, input: Bytes, past: Trace): Run
    requires Acyclic(c.g)
    decreases Height(c.g, n), 2
  {
    match DecodeObject(c.init)
    case None => Run([], Fault(500, DecodeFailure(c.init.text)))
    case Some(initData) => ChainFrom(c, n, initData, 0, START, input, past)
  }

  // ---------------------------------------------------------------------------------------------
  // Ensembles
  // ---------------------------------------------------------------------------------------------

  /** What a worker does with the result of its step: a nil body panics, read or closed. */
  function MessageOf(out: Outcome): Message {
    match out
    case Crash(panic) => Panicked(panic)
    case Fault(_, err) => Panicked(NilBodyClosed(err))
    case Answer(None, _) => Panicked(NilBodyRead)
    case Answer(Some(body), status) =>
      match body.data.json
      case Some(Object(_)) => Output(body.data.json.value, status)
      case Some(Null) => Output(Null, status)
      case _ => Undecodable(DecodeFailure(body.data.text))
  }

  function Key(steps: seq<Step>, i: nat): string
    requires i < |steps|
  {
    if steps[i].name == "" then Itoa(i) else steps[i].name
  }

  /** Does the collector go past step i when it has this message? */
  predicate Passes(s: Step, m: Message) {
    m.Output? && !(s.dependency.Hard? && !IsSuccessful(m.code))
  }

  /** The first index from i on that the collector does not go past. */
  function FirstStop(steps: seq<Step>, msgs: seq<Message>, i: nat): (r: nat)
    requires i <= |steps| == |msgs|
    ensures i <= r <= |steps|
    ensures forall k :: i <= k < r ==> Passes(steps[k], msgs[k])
    ensures r < |steps| ==> !Passes(steps[r], msgs[r])
    decreases |steps| - i
  {
    if i == |steps| || !Passes(steps[i], msgs[i]) then i else FirstStop(steps, msgs, i + 1)
  }

  /** The map of replies of the first i steps; a later step overwrites an earlier one of the same key. */
  function Combined(steps: seq<Step>, msgs: seq<Message>, i: nat): map<string, Json>
    requires i <= |steps| == |msgs|
    requires forall k :: 0 <= k < i ==> msgs[k].Output?
  {
    if i == 0 then map[] else Combined(steps, msgs, i - 1)[Key(steps, i - 1) := msgs[i - 1].reply]
  }

  /** The answer of a collector that looks at the steps from left to right and nothing else. */
  function LeftToRight(w: World, steps: seq<Step>, msgs: seq<Message>): Outcome
    requires |steps| == |msgs|
  {
    var stop := FirstStop(steps, msgs, 0);
    if stop == |steps| then
      Answer(Some(InMemory(Encode(w.marshal, Object(Combined(steps, msgs, |steps|))))), 200)
    else
      match msgs[stop]
      case Output(reply, code) => Answer(Some(InMemory(Encode(w.marshal, reply))), code)
      case Undecodable(err) => Fault(500, err)
      case Panicked(panic) => Crash(panic)
  }

  /**
    The answer under a schedule: `choice` is the worker whose error or panic is the first one to be
    felt; a choice that names no such worker leaves the left-to-right answer.
   */
  function EnsembleAnswer(w: World, steps: seq<Step>, msgs: seq<Message>, choice: nat): Outcome
    requires |steps| == |msgs|
  {
    if choice < |msgs| && msgs[choice].Undecodable? then Fault(500, msgs[choice].err)
    else if choice < |msgs| && msgs[choice].Panicked? then Crash(msgs[choice].panic)
    else LeftToRight(w, steps, msgs)
  }

  /** The runs of workers i, i+1, ... of an ensemble node. */
  function Workers(c: Ctx, n: string, i: nat, input: Bytes, past: Trace): (runs: seq<Run>)
    requires Acyclic(c.g) && c.g.Node(n).kind.Ensemble?
    requires i <= |c.g.Node(n).steps|
    ensures |runs| == |c.g.Node(n).steps| - i
    decreases Height(c.g, n), 1, |c.g.Node(n).steps| - i
  {
    var steps := c.g.Node(n).steps;
    if i == |steps| then []
    else
      StepsDescend(c.g, n, i);
      [Execute(c, steps[i], input, past + [Branch(i)])] + Workers(c, n, i + 1, input, past)
  }

  function Messages(runs: seq<Run>): (msgs: seq<Message>)
    ensures |msgs| == |runs|
  {
    seq(|runs|, k requires 0 <= k < |runs| => MessageOf(runs[k].out))
  }

  function Lanes(runs: seq<Run>): (lanes: seq<Lane>)
    ensures |lanes| == |runs|
  {
    seq(|runs|, k requires 0 <= k < |runs| => Lane(runs[k].calls))
  }

  function EnsembleNode(c: Ctx, n: string, input: Bytes, past: Trace): Run
    requires Acyclic(c.g) && c.g.Node(n).kind.Ensemble?
    decreases Height(c.g, n), 2
  {
    var runs := Workers(c, n, 0, input, past);
    var msgs := Messages(runs);
    Run([Joined(Lanes(runs))], EnsembleAnswer(c.w, c.g.Node(n).steps, msgs, c.w.scheduler(past, msgs)))
  }

  // ---------------------------------------------------------------------------------------------
  // Dispatch
  // ---------------------------------------------------------------------------------------------

  function CallService(c: Ctx, s: Step, request: Bytes, past: Trace): Run {
    var call := Call(ServiceUrl(c.g, s), request);
    match c.w.service(past, call)
    case Replied(body, status) => Run([Called(Sent(LeafOf(s), call))], Answer(Some(body), status))
    case NoReply(status) => Run([Called(Sent(LeafOf(s), call))], Fault(status, Unreachable(call.url)))
  }

  function Execute(c: Ctx, s: Step, request: Bytes, past: Trace): Run
    requires Acyclic(c.g)
    decreases StepHeight(c.g, s), 4
  {
    if !s.Leaf() then Route(c, s.nodeName, request, past) else CallService(c, s, request, past)
  }

  function Route(c: Ctx, n: string, input: Bytes, past: Trace): Run
    requires Acyclic(c.g)
    decreases Height(c.g, n), 3
  {
    match c.g.Node(n).kind
    case Switch => ChainNode(c, n, input, past)
    case Sequence => ChainNode(c, n, input, past)
    case Ensemble => EnsembleNode(c, n, input, past)
    case Unknown(kind) => Run([], Fault(500, InvalidRoute(kind)))
  }
}
