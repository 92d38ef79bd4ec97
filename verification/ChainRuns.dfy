/**
  What the step loops of Sequence and Switch nodes do, step by step: which steps are executed, with which
  requests, when the loop ends early, and what it answers then.
 */
module ChainRuns {
  import opened Graph
  import opened Payload
  import opened Semantics
  import opened RunInvariants
  import opened SwitchRoutes

  // ----- the steps that take part -----

  predicate TakesPart(c: Ctx, kind: RouterType, s: Step) {
    !s.downstream && (kind.Switch? ==> Matches(c, s))
  }

  /** The indices of the steps that take part, from i on, in list order. */
  function Parts(c: Ctx, kind: RouterType, steps: seq<Step>, i: nat): (r: seq<nat>)
    requires i <= |steps|
    ensures forall k :: 0 <= k < |r| ==> r[k] < |steps|
    decreases |steps| - i
  {
    if i == |steps| then []
    else (if TakesPart(c, kind, steps[i]) then [i] else []) + Parts(c, kind, steps, i + 1)
  }

  lemma {:induction false} PartsExact(c: Ctx, kind: RouterType, steps: seq<Step>, i: nat)
    requires i <= |steps|
    ensures forall k :: 0 <= k < |Parts(c, kind, steps, i)| ==>
              i <= Parts(c, kind, steps, i)[k] && TakesPart(c, kind, steps[Parts(c, kind, steps, i)[k]])
    ensures forall k, l :: 0 <= k < l < |Parts(c, kind, steps, i)| ==> Parts(c, kind, steps, i)[k] < Parts(c, kind, steps, i)[l]
    ensures forall k :: i <= k < |steps| && TakesPart(c, kind, steps[k]) ==> k in Parts(c, kind, steps, i)
    decreases |steps| - i
  {
    if i < |steps| {
      PartsExact(c, kind, steps, i + 1);
    }
  }

  // ----- a history of executed steps -----

  function CallsOf(runs: seq<Run>): Trace {
    if runs == [] then [] else CallsOf(runs[..|runs| - 1]) + runs[|runs| - 1].calls
  }

  /** The reply that is there to be read. */
  function Waiting(runs: seq<Run>): Option<Stream> {
    if runs == [] || !runs[|runs| - 1].out.Answer? then None else runs[|runs| - 1].out.body
  }

  /** The contents of the last reply that there was. */
  function LastReply(runs: seq<Run>): Bytes {
    if runs == [] then EMPTY
    else if Waiting(runs).Some? then Waiting(runs).value.data
    else LastReply(runs[..|runs| - 1])
  }

  /** An error ends a chain; so does, in a Sequence, a Hard step that fails, and no other. */
  predicate GoesOn(kind: RouterType, s: Step, out: Outcome) {
    out.Answer? && (kind == Sequence && s.dependency == Hard ==> 200 <= out.status <= 299)
  }

  /** What a step is sent: the node's input, or what was replied before, under the caller's parameters. */
  function Fed(c: Ctx, s: Step, at: nat, d: map<string, Json>, input: Bytes, runs: seq<Run>): Merged {
    if s.data == "$response" && at != 0 then Merge(c.w, LastReply(runs), d) else Request(input)
  }

  /** Reasons not to execute a step, and the answer of the node then. */
  predicate Refused(c: Ctx, kind: RouterType, s: Step, at: nat, d: map<string, Json>, input: Bytes, runs: seq<Run>, out: Outcome) {
    var unreadable := Waiting(runs).Some? && Waiting(runs).value.broken;
    var request := Fed(c, s, at, d, input, runs);
    var asked := kind == Sequence && s.condition != "";
    || (unreadable && out == Fault(500, ReadFailure))
    || (!unreadable && request.Panics? && out == Crash(request.panic))
    || (!unreadable && request.Request? && asked && !c.w.valid(LastReply(runs)) && out == Fault(500, InvalidResponse))
    || (!unreadable && request.Request? && asked && c.w.valid(LastReply(runs)) && c.w.query(LastReply(runs), s.condition).None? &&
        out == Answer(Emptied(Waiting(runs)), 500))
  }

  /** A reply that has been read and closed. */
  function Emptied(body: Option<Stream>): Option<Stream> {
    match body
    case None => None
    case Some(stream) => Some(Stream(EMPTY, stream.network, stream.network))
  }

  /** No reason: the reply could be read and merged, and a condition of a Sequence step holds of it. */
  predicate Admitted(c: Ctx, kind: RouterType, s: Step, at: nat, d: map<string, Json>, input: Bytes, runs: seq<Run>) {
    && (Waiting(runs).Some? ==> !Waiting(runs).value.broken)
    && Fed(c, s, at, d, input, runs).Request?
    && (kind == Sequence && s.condition != "" ==> c.w.valid(LastReply(runs)) && c.w.query(LastReply(runs), s.condition).Some?)
  }

  /** Step by step: the chain went on, nothing stood in the next step's way, and it was executed with its request. */
  ghost predicate History(c: Ctx, n: string, parts: seq<nat>, d: map<string, Json>, input: Bytes, past: Trace, runs: seq<Run>)
    requires Acyclic(c.g) && forall j :: 0 <= j < |parts| ==> parts[j] < |c.g.Node(n).steps|
  {
    var steps := c.g.Node(n).steps;
    && |runs| <= |parts|
    && (runs != [] ==>
         var j := |runs| - 1;
         && History(c, n, parts, d, input, past, runs[..j])
         && Unfinished(c, n, parts, runs[..j])
         && Executes(c, c.g.Node(n).kind, steps[parts[j]], parts[j], d, input, past, runs[..j], runs[j]))
  }

  ghost predicate Executes(c: Ctx, kind: RouterType, s: Step, at: nat, d: map<string, Json>, input: Bytes, past: Trace,
                           before: seq<Run>, run: Run)
    requires Acyclic(c.g)
  {
    && Admitted(c, kind, s, at, d, input, before)
    && run == Execute(c, s, Fed(c, s, at, d, input, before).body, past + CallsOf(before))
  }

  /** The last step executed, if there is one, lets the chain go on. */
  predicate Unfinished(c: Ctx, n: string, parts: seq<nat>, runs: seq<Run>)
    requires |runs| <= |parts| && forall j :: 0 <= j < |parts| ==> parts[j] < |c.g.Node(n).steps|
  {
    runs != [] ==> GoesOn(c.g.Node(n).kind, c.g.Node(n).steps[parts[|runs| - 1]], runs[|runs| - 1].out)
  }

  /** Why the chain is over, and with what answer. */
  ghost predicate Over(c: Ctx, n: string, parts: seq<nat>, d: map<string, Json>, input: Bytes, runs: seq<Run>, out: Outcome)
    requires |runs| <= |parts| && forall j :: 0 <= j < |parts| ==> parts[j] < |c.g.Node(n).steps|
  {
    var Router(kind, steps) := c.g.Node(n);
    var k := |runs|;
    if !Unfinished(c, n, parts, runs) then
      out == if runs[k - 1].out.Fault? then Fault(500, runs[k - 1].out.err) else runs[k - 1].out
    else if k == |parts| then
      out == if k == 0 then Answer(None, 0) else runs[k - 1].out
    else
      Refused(c, kind, steps[parts[k]], parts[k], d, input, runs, out)
  }

  // ----- the proof, along the loop -----

  lemma PrepareMeans(c: Ctx, kind: RouterType, s: Step, at: nat, cur: Cursor, d: map<string, Json>, input: Bytes, runs: seq<Run>)
    requires kind == Sequence || kind == Switch
    requires cur.body == Waiting(runs) && (cur.body.None? ==> cur.bytes == LastReply(runs))
    ensures
      var ready := Prepare(c, kind, s, at == 0, cur, d, input);
      && (ready.Stop? ==> Refused(c, kind, s, at, d, input, runs, ready.out))
      && (ready.Ready? ==>
           && Admitted(c, kind, s, at, d, input, runs) && Fed(c, s, at, d, input, runs) == Request(ready.request)
           && ready.bytes == LastReply(runs))
  {
  }

  lemma JudgeMeans(kind: RouterType, s: Step, out: Outcome)
    requires kind == Sequence || kind == Switch
    ensures
      var verdict := Judge(kind, s, out);
      && (verdict.Continue? ==> GoesOn(kind, s, out) && out == Answer(verdict.body, verdict.status))
      && (verdict.Halt? ==> !GoesOn(kind, s, out) && verdict.out == if out.Fault? then Fault(500, out.err) else out)
  {
  }

  lemma OneMore(c: Ctx, n: string, parts: seq<nat>, d: map<string, Json>, input: Bytes, past: Trace, runs: seq<Run>, run: Run)
    requires Acyclic(c.g) && forall j :: 0 <= j < |parts| ==> parts[j] < |c.g.Node(n).steps|
    requires History(c, n, parts, d, input, past, runs) && |runs| < |parts| && Unfinished(c, n, parts, runs)
    requires Executes(c, c.g.Node(n).kind, c.g.Node(n).steps[parts[|runs|]], parts[|runs|], d, input, past, runs, run)
    ensures History(c, n, parts, d, input, past, runs + [run])
    ensures CallsOf(runs + [run]) == CallsOf(runs) + run.calls
    ensures run.out.Answer? ==>
      Waiting(runs + [run]) == run.out.body && (run.out.body.None? ==> LastReply(runs + [run]) == LastReply(runs))
  {
    assert (runs + [run])[..|runs|] == runs;
  }

  /** The loop is at step i, with this cursor, after the steps done. */
  ghost predicate Reached(c: Ctx, n: string, parts: seq<nat>, d: map<string, Json>, i: nat, cur: Cursor, input: Bytes, past: Trace,
                          done: seq<Run>)
    requires Acyclic(c.g) && forall j :: 0 <= j < |parts| ==> parts[j] < |c.g.Node(n).steps|
  {
    && History(c, n, parts, d, input, past, done) && Unfinished(c, n, parts, done)
    && i <= |c.g.Node(n).steps| && parts[|done|..] == Parts(c, c.g.Node(n).kind, c.g.Node(n).steps, i)
    && cur.body == Waiting(done) && (cur.body.None? ==> cur.bytes == LastReply(done))
    && cur.status == if done == [] then 0 else done[|done| - 1].out.status
  }

  /** The steps done, and those of `rest`, are the history of the whole chain. */
  ghost predicate Explains(c: Ctx, n: string, parts: seq<nat>, d: map<string, Json>, input: Bytes, past: Trace,
                           done: seq<Run>, runs: seq<Run>, rest: Run)
    requires Acyclic(c.g) && forall j :: 0 <= j < |parts| ==> parts[j] < |c.g.Node(n).steps|
  {
    && History(c, n, parts, d, input, past, runs)
    && Over(c, n, parts, d, input, runs, rest.out)
    && CallsOf(runs) == CallsOf(done) + rest.calls
  }

  lemma ExplainsStep(c: Ctx, n: string, parts: seq<nat>, d: map<string, Json>, input: Bytes, past: Trace,
                     done: seq<Run>, sub: Run, runs: seq<Run>, rest: Run)
    requires Acyclic(c.g) && forall j :: 0 <= j < |parts| ==> parts[j] < |c.g.Node(n).steps|
    requires Explains(c, n, parts, d, input, past, done + [sub], runs, rest) && CallsOf(done + [sub]) == CallsOf(done) + sub.calls
    ensures Explains(c, n, parts, d, input, past, done, runs, Run(sub.calls + rest.calls, rest.out))
  {
  }

  lemma ReachedEnd(c: Ctx, n: string, parts: seq<nat>, d: map<string, Json>, cur: Cursor, input: Bytes, past: Trace, done: seq<Run>)
    requires Acyclic(c.g) && forall j :: 0 <= j < |parts| ==> parts[j] < |c.g.Node(n).steps|
    requires Reached(c, n, parts, d, |c.g.Node(n).steps|, cur, input, past, done)
    ensures Explains(c, n, parts, d, input, past, done, done, Run([], Answer(cur.body, cur.status)))
  {
  }

  lemma ReachedPart(c: Ctx, n: string, parts: seq<nat>, d: map<string, Json>, i: nat, cur: Cursor, input: Bytes, past: Trace, done: seq<Run>)
    requires Acyclic(c.g) && forall j :: 0 <= j < |parts| ==> parts[j] < |c.g.Node(n).steps|
    requires Reached(c, n, parts, d, i, cur, input, past, done) && i < |c.g.Node(n).steps|
    ensures !TakesPart(c, c.g.Node(n).kind, c.g.Node(n).steps[i]) ==> Reached(c, n, parts, d, i + 1, cur, input, past, done)
    ensures TakesPart(c, c.g.Node(n).kind, c.g.Node(n).steps[i]) ==>
      |done| < |parts| && parts[|done|] == i && parts[|done| + 1..] == Parts(c, c.g.Node(n).kind, c.g.Node(n).steps, i + 1)
  {
    assert parts[|done|..] != [] ==> parts[|done|..][0] == parts[|done|] && parts[|done|..][1..] == parts[|done| + 1..];
  }

  lemma ReachedRefusal(c: Ctx, n: string, parts: seq<nat>, d: map<string, Json>, i: nat, cur: Cursor, input: Bytes, past: Trace, done: seq<Run>)
    requires Acyclic(c.g) && forall j :: 0 <= j < |parts| ==> parts[j] < |c.g.Node(n).steps|
    requires Reached(c, n, parts, d, i, cur, input, past, done) && |done| < |parts| && parts[|done|] == i
    requires c.g.Node(n).kind == Sequence || c.g.Node(n).kind == Switch
    ensures
      var ready := Prepare(c, c.g.Node(n).kind, c.g.Node(n).steps[i], i == 0, cur, d, input);
      ready.Stop? ==> Explains(c, n, parts, d, input, past, done, done, Run([], ready.out))
  {
    PrepareMeans(c, c.g.Node(n).kind, c.g.Node(n).steps[i], i, cur, d, input, done);
  }

  lemma ReachedNext(c: Ctx, n: string, parts: seq<nat>, d: map<string, Json>, i: nat, cur: Cursor, input: Bytes, past: Trace,
                    done: seq<Run>, sub: Run)
    requires Acyclic(c.g) && forall j :: 0 <= j < |parts| ==> parts[j] < |c.g.Node(n).steps|
    requires Reached(c, n, parts, d, i, cur, input, past, done) && |done| < |parts| && parts[|done|] == i
    requires parts[|done| + 1..] == Parts(c, c.g.Node(n).kind, c.g.Node(n).steps, i + 1)
    requires c.g.Node(n).kind == Sequence || c.g.Node(n).kind == Switch
    requires
      var ready := Prepare(c, c.g.Node(n).kind, c.g.Node(n).steps[i], i == 0, cur, d, input);
      ready.Ready? && sub == Execute(c, c.g.Node(n).steps[i], ready.request, past + CallsOf(done))
    ensures CallsOf(done + [sub]) == CallsOf(done) + sub.calls
    ensures
      var ready := Prepare(c, c.g.Node(n).kind, c.g.Node(n).steps[i], i == 0, cur, d, input);
      var verdict := Judge(c.g.Node(n).kind, c.g.Node(n).steps[i], sub.out);
      && (verdict.Halt? ==> Explains(c, n, parts, d, input, past, done, done + [sub], Run(sub.calls, verdict.out)))
      && (verdict.Continue? ==>
           Reached(c, n, parts, d, i + 1, Cursor(verdict.body, verdict.status, ready.bytes), input, past, done + [sub]))
  {
    PrepareMeans(c, c.g.Node(n).kind, c.g.Node(n).steps[i], i, cur, d, input, done);
    JudgeMeans(c.g.Node(n).kind, c.g.Node(n).steps[i], sub.out);
    OneMore(c, n, parts, d, input, past, done, sub);
  }

  lemma {:induction false} HistoryFrom(c: Ctx, n: string, parts: seq<nat>, d: map<string, Json>, i: nat, cur: Cursor,
                      input: Bytes, past: Trace, done: seq<Run>) returns (runs: seq<Run>)
    requires Acyclic(c.g) && (c.g.Node(n).kind == Sequence || c.g.Node(n).kind == Switch)
    requires forall j :: 0 <= j < |parts| ==> parts[j] < |c.g.Node(n).steps|
    requires Reached(c, n, parts, d, i, cur, input, past, done)
    ensures Explains(c, n, parts, d, input, past, done, runs, ChainFrom(c, n, d, i, cur, input, past + CallsOf(done)))
    decreases |c.g.Node(n).steps| - i
  {
    var Router(kind, steps) := c.g.Node(n);
    runs := done;
    if i == |steps| {
      ReachedEnd(c, n, parts, d, cur, input, past, done);
      return;
    }
    ReachedPart(c, n, parts, d, i, cur, input, past, done);
    if Skipped(c, kind, steps[i]) {
      runs := HistoryFrom(c, n, parts, d, i + 1, cur, input, past, done);
      return;
    }
    ReachedRefusal(c, n, parts, d, i, cur, input, past, done);
    var ready := Prepare(c, kind, steps[i], i == 0, cur, d, input);
    if ready.Ready? {
      ChainStep(c, n, d, i, cur, input, past + CallsOf(done));
      var sub := Execute(c, steps[i], ready.request, past + CallsOf(done));
      ReachedNext(c, n, parts, d, i, cur, input, past, done, sub);
      runs := done + [sub];
      var verdict := Judge(kind, steps[i], sub.out);
      if verdict.Continue? {
        assert past + CallsOf(runs) == past + CallsOf(done) + sub.calls;
        var next := Cursor(verdict.body, verdict.status, ready.bytes);
        var rest := ChainFrom(c, n, d, i + 1, next, input, past + CallsOf(runs));
        runs := HistoryFrom(c, n, parts, d, i + 1, next, input, past, runs);
        ExplainsStep(c, n, parts, d, input, past, done, sub, runs, rest);
      }
    }
  }

  /**
    The run of a Sequence or Switch node, for all services: there is a history of executed steps, it is
    over for one of the reasons there are, and its calls and that answer are the node's.
   */
  lemma ChainHistory(c: Ctx, n: string, input: Bytes, past: Trace) returns (runs: seq<Run>)
    requires Acyclic(c.g) && (c.g.Node(n).kind == Sequence || c.g.Node(n).kind == Switch)
    requires DecodeObject(c.init).Some?
    ensures
      var Router(kind, steps) := c.g.Node(n);
      var parts := Parts(c, kind, steps, 0);
      var d := DecodeObject(c.init).value;
      && History(c, n, parts, d, input, past, runs)
      && Over(c, n, parts, d, input, runs, Route(c, n, input, past).out)
      && Route(c, n, input, past).calls == CallsOf(runs)
  {
    var Router(kind, steps) := c.g.Node(n);
    var d := DecodeObject(c.init).value;
    assert past + CallsOf([]) == past;
    assert Route(c, n, input, past) == ChainFrom(c, n, d, 0, START, input, past);
    runs := HistoryFrom(c, n, Parts(c, kind, steps, 0), d, 0, START, input, past, []);
  }

  /** The j-th step of a history, on its own. */
  lemma {:induction false} HistoryAt(c: Ctx, n: string, parts: seq<nat>, d: map<string, Json>, input: Bytes, past: Trace,
                      runs: seq<Run>, j: nat)
    requires Acyclic(c.g) && forall j :: 0 <= j < |parts| ==> parts[j] < |c.g.Node(n).steps|
    requires History(c, n, parts, d, input, past, runs) && j < |runs|
    ensures History(c, n, parts, d, input, past, runs[..j]) && Unfinished(c, n, parts, runs[..j])
    ensures Executes(c, c.g.Node(n).kind, c.g.Node(n).steps[parts[j]], parts[j], d, input, past, runs[..j], runs[j])
  {
    var last := |runs| - 1;
    if j < last {
      HistoryAt(c, n, parts, d, input, past, runs[..last], j);
      assert runs[..last][..j] == runs[..j];
    }
  }

  /** Requests that do not parse, and nodes of an undeclared type, are answered without any call. */
  lemma NodeErrors(c: Ctx, n: string, input: Bytes, past: Trace)
    requires Acyclic(c.g)
    ensures (c.g.Node(n).kind == Sequence || c.g.Node(n).kind == Switch) &&
            (c.init.json.None? || !(c.init.json.value.Object? || c.init.json.value.Null?)) ==>
            Route(c, n, input, past) == Run([], Fault(500, DecodeFailure(c.init.text)))
    ensures c.g.Node(n).kind.Unknown? ==> Route(c, n, input, past) == Run([], Fault(500, InvalidRoute(c.g.Node(n).kind.name)))
    ensures n !in c.g.nodes ==> Route(c, n, input, past) == Run([], Fault(500, InvalidRoute("")))
  {
  }

  // ----- leaf steps -----

  /** Executing a leaf step is one call, with the request, to its service; its reply is handed on as it is. */
  lemma LeafRun(c: Ctx, s: Step, request: Bytes, past: Trace)
    requires Acyclic(c.g) && s.Leaf()
    ensures
      var call := Call(ServiceUrl(c.g, s), request);
      var run := Execute(c, s, request, past);
      && run.calls == [Called(Sent(LeafOf(s), call))]
      && (c.w.service(past, call).Replied? ==> run.out == Answer(Some(c.w.service(past, call).body), c.w.service(past, call).code))
      && (c.w.service(past, call).NoReply? ==> run.out == Fault(c.w.service(past, call).code, Unreachable(call.url)))
  {
  }

  /** All steps that take part are leaf steps without a condition, fed with the input of the node. */
  ghost predicate Plain(c: Ctx, n: string) {
    var Router(kind, steps) := c.g.Node(n);
    forall i :: 0 <= i < |steps| && TakesPart(c, kind, steps[i]) ==>
      steps[i].Leaf() && steps[i].condition == "" && (steps[i].data == "$response" ==> i == 0)
  }

  ghost predicate Readable(w: World) {
    forall past, call :: w.service(past, call).Replied? ==> !w.service(past, call).body.broken
  }

  function PlainCall(c: Ctx, s: Step, input: Bytes): Event {
    Called(Sent(LeafOf(s), Call(ServiceUrl(c.g, s), input)))
  }

  /** One call with the node's input to each of the first k steps that take part. */
  function PlainCalls(c: Ctx, n: string, parts: seq<nat>, input: Bytes, k: nat): Trace
    requires k <= |parts| && forall j :: 0 <= j < |parts| ==> parts[j] < |c.g.Node(n).steps|
  {
    if k == 0 then [] else PlainCalls(c, n, parts, input, k - 1) + [PlainCall(c, c.g.Node(n).steps[parts[k - 1]], input)]
  }

  /** The service was reached, and if the step is a Hard dependency it succeeded. */
  predicate Passed(s: Step, reply: Reply) {
    reply.Replied? && (s.dependency == Hard ==> 200 <= reply.code <= 299)
  }

  function ReplyTo(c: Ctx, n: string, parts: seq<nat>, input: Bytes, past: Trace, j: nat): Reply
    requires j < |parts| && forall j :: 0 <= j < |parts| ==> parts[j] < |c.g.Node(n).steps|
  {
    c.w.service(past + PlainCalls(c, n, parts, input, j), Call(ServiceUrl(c.g, c.g.Node(n).steps[parts[j]]), input))
  }

  /** The j-th run of a plain history is its step's call. */
  lemma {:induction false} PlainHistory(c: Ctx, n: string, parts: seq<nat>, d: map<string, Json>, input: Bytes, past: Trace, runs: seq<Run>)
    requires Acyclic(c.g) && c.g.Node(n).kind == Sequence && Plain(c, n)
    requires parts == Parts(c, Sequence, c.g.Node(n).steps, 0)
    requires History(c, n, parts, d, input, past, runs)
    ensures CallsOf(runs) == PlainCalls(c, n, parts, input, |runs|)
    ensures runs != [] ==>
      var reply := ReplyTo(c, n, parts, input, past, |runs| - 1);
      var s := c.g.Node(n).steps[parts[|runs| - 1]];
      && (reply.Replied? ==> runs[|runs| - 1].out == Answer(Some(reply.body), reply.code))
      && (reply.NoReply? ==> runs[|runs| - 1].out.Fault? && runs[|runs| - 1].out.err == Unreachable(ServiceUrl(c.g, s)))
  {
    if runs != [] {
      var j := |runs| - 1;
      PlainHistory(c, n, parts, d, input, past, runs[..j]);
      PartsExact(c, Sequence, c.g.Node(n).steps, 0);
      var s := c.g.Node(n).steps[parts[j]];
      assert TakesPart(c, Sequence, s);
      LeafRun(c, s, input, past + CallsOf(runs[..j]));
    }
  }

  lemma NoRefusal(c: Ctx, n: string, parts: seq<nat>, d: map<string, Json>, input: Bytes, past: Trace, runs: seq<Run>, out: Outcome)
    requires Acyclic(c.g) && c.g.Node(n).kind == Sequence && Plain(c, n) && Readable(c.w)
    requires parts == Parts(c, Sequence, c.g.Node(n).steps, 0)
    requires History(c, n, parts, d, input, past, runs) && |runs| < |parts|
    ensures !Refused(c, Sequence, c.g.Node(n).steps[parts[|runs|]], parts[|runs|], d, input, runs, out)
  {
    PartsExact(c, Sequence, c.g.Node(n).steps, 0);
    assert TakesPart(c, Sequence, c.g.Node(n).steps[parts[|runs|]]);
    PlainHistory(c, n, parts, d, input, past, runs);
  }

  /** Did the j-th of the steps that take part pass? */
  predicate PassedAt(c: Ctx, n: string, parts: seq<nat>, input: Bytes, past: Trace, j: nat)
    requires j < |parts| && forall j :: 0 <= j < |parts| ==> parts[j] < |c.g.Node(n).steps|
  {
    Passed(c.g.Node(n).steps[parts[j]], ReplyTo(c, n, parts, input, past, j))
  }

  lemma PlainGoesOn(c: Ctx, n: string, parts: seq<nat>, d: map<string, Json>, input: Bytes, past: Trace, runs: seq<Run>)
    requires Acyclic(c.g) && c.g.Node(n).kind == Sequence && Plain(c, n)
    requires parts == Parts(c, Sequence, c.g.Node(n).steps, 0)
    requires History(c, n, parts, d, input, past, runs)
    ensures Unfinished(c, n, parts, runs) <==> runs == [] || PassedAt(c, n, parts, input, past, |runs| - 1)
  {
    PlainHistory(c, n, parts, d, input, past, runs);
  }

  lemma PlainEnd(c: Ctx, n: string, parts: seq<nat>, d: map<string, Json>, input: Bytes, past: Trace, runs: seq<Run>, out: Outcome)
    requires Acyclic(c.g) && c.g.Node(n).kind == Sequence && Plain(c, n) && Readable(c.w)
    requires parts == Parts(c, Sequence, c.g.Node(n).steps, 0)
    requires History(c, n, parts, d, input, past, runs) && Over(c, n, parts, d, input, runs, out)
    ensures |runs| < |parts| ==> !Unfinished(c, n, parts, runs)
    ensures out == PlainAnswer(c, n, parts, input, past, |runs|)
  {
    PlainHistory(c, n, parts, d, input, past, runs);
    if |runs| < |parts| {
      NoRefusal(c, n, parts, d, input, past, runs, out);
    }
  }

  /** The reply of the k-th call as the node's answer; without any call, nothing and status 0. */
  function PlainAnswer(c: Ctx, n: string, parts: seq<nat>, input: Bytes, past: Trace, k: nat): Outcome
    requires k <= |parts| && forall j :: 0 <= j < |parts| ==> parts[j] < |c.g.Node(n).steps|
  {
    if k == 0 then Answer(None, 0)
    else
      match ReplyTo(c, n, parts, input, past, k - 1)
      case Replied(body, code) => Answer(Some(body), code)
      case NoReply(_) => Fault(500, Unreachable(ServiceUrl(c.g, c.g.Node(n).steps[parts[k - 1]])))
  }

  /**
    A Sequence of plain steps, for all services: it calls the steps that are not downstream, in order and
    with the input of the node, up to and including the first one that cannot be reached, or that is Hard
    and fails; its answer is the last one's. No other reply ends it.
   */
  lemma SequenceCalls(c: Ctx, n: string, input: Bytes, past: Trace) returns (k: nat)
    requires Acyclic(c.g) && c.g.Node(n).kind == Sequence && Plain(c, n) && Readable(c.w)
    requires DecodeObject(c.init).Some?
    ensures
      var parts := Parts(c, Sequence, c.g.Node(n).steps, 0);
      && k <= |parts|
      && Route(c, n, input, past) == Run(PlainCalls(c, n, parts, input, k), PlainAnswer(c, n, parts, input, past, k))
      && (forall j :: 0 <= j < k - 1 ==> PassedAt(c, n, parts, input, past, j))
      && (k < |parts| ==> k > 0 && !PassedAt(c, n, parts, input, past, k - 1))
  {
    var d := DecodeObject(c.init).value;
    var parts := Parts(c, Sequence, c.g.Node(n).steps, 0);
    var runs := ChainHistory(c, n, input, past);
    k := |runs|;
    PlainHistory(c, n, parts, d, input, past, runs);
    PlainEnd(c, n, parts, d, input, past, runs, Route(c, n, input, past).out);
    PlainGoesOn(c, n, parts, d, input, past, runs);
    forall j: nat | j < k - 1
      ensures PassedAt(c, n, parts, input, past, j)
    {
      HistoryAt(c, n, parts, d, input, past, runs, j + 1);
      PlainGoesOn(c, n, parts, d, input, past, runs[..j + 1]);
    }
  }

  ghost predicate AlwaysReplies(w: World) {
    forall past, call :: w.service(past, call).Replied?
  }

  /** Steps that are not Hard never end such a Sequence, whatever status they reply with. */
  lemma SoftStepsNeverStop(c: Ctx, n: string, input: Bytes, past: Trace)
    requires Acyclic(c.g) && c.g.Node(n).kind == Sequence && Plain(c, n) && Readable(c.w)
    requires DecodeObject(c.init).Some?
    requires forall i :: 0 <= i < |c.g.Node(n).steps| ==> c.g.Node(n).steps[i].dependency != Hard
    requires AlwaysReplies(c.w)
    ensures
      var parts := Parts(c, Sequence, c.g.Node(n).steps, 0);
      Route(c, n, input, past) == Run(PlainCalls(c, n, parts, input, |parts|), PlainAnswer(c, n, parts, input, past, |parts|))
  {
    var k := SequenceCalls(c, n, input, past);
  }

  // ----- $response steps -----

  /** The bytes hold an object: the reply's fields, with the caller's over them. */
  ghost predicate Overlaid(b: Bytes, reply: map<string, Json>, parameters: map<string, Json>) {
    && b.json.Some? && b.json.value.Object?
    && (forall k :: k in b.json.value.fields <==> k in reply || k in parameters)
    && (forall k :: k in b.json.value.fields ==>
         b.json.value.fields[k] == if k in parameters then parameters[k] else reply[k])
  }

  /** Merging, case by case, field by field. */
  lemma MergeMeans(w: World, reply: Bytes, d: map<string, Json>)
    ensures "parameters" !in d ==> Merge(w, reply, d) == Request(reply)
    ensures "parameters" in d && DecodeObject(reply).None? ==> Merge(w, reply, d) == Request(EMPTY)
    ensures "parameters" in d && DecodeObject(reply).Some? && !d["parameters"].Object? ==> Merge(w, reply, d) == Panics(ParametersNotObject)
    ensures "parameters" in d && d["parameters"].Object? && reply.json == Some(Null) ==>
      Merge(w, reply, d) == if d["parameters"].fields == map[] then Request(Bytes(w.marshal(Null), Some(Null))) else Panics(NilMapWrite)
    ensures "parameters" in d && d["parameters"].Object? && reply.json.Some? && reply.json.value.Object? ==>
      var merged := Merge(w, reply, d);
      && merged.Request? && Overlaid(merged.body, reply.json.value.fields, d["parameters"].fields)
      && merged.body.text == w.marshal(merged.body.json.value)
  {
  }

  /**
    Chaining: a leaf step with Data `$response` that is not first in its node, after a reply that is an
    object, is sent the fields of that reply, overridden by the caller's parameters, if there are any.
   */
  lemma ChainingKeepsReply(c: Ctx, n: string, input: Bytes, past: Trace) returns (runs: seq<Run>)
    requires Acyclic(c.g) && (c.g.Node(n).kind == Sequence || c.g.Node(n).kind == Switch)
    requires DecodeObject(c.init).Some?
    ensures
      var parts := Parts(c, c.g.Node(n).kind, c.g.Node(n).steps, 0);
      && |runs| <= |parts| && Route(c, n, input, past).calls == CallsOf(runs)
      && forall j :: 0 <= j < |runs| && c.g.Node(n).steps[parts[j]].Leaf() &&
                     c.g.Node(n).steps[parts[j]].data == "$response" && parts[j] > 0 ==>
           SendsReply(DecodeObject(c.init).value, LastReply(runs[..j]), runs[j].calls)
  {
    var Router(kind, steps) := c.g.Node(n);
    var parts, d := Parts(c, kind, steps, 0), DecodeObject(c.init).value;
    runs := ChainHistory(c, n, input, past);
    forall j | 0 <= j < |runs| && steps[parts[j]].Leaf() && steps[parts[j]].data == "$response" && parts[j] > 0
      ensures SendsReply(d, LastReply(runs[..j]), runs[j].calls)
    {
      HistoryAt(c, n, parts, d, input, past, runs, j);
      MergeMeans(c.w, LastReply(runs[..j]), d);
      LeafRun(c, steps[parts[j]], Fed(c, steps[parts[j]], parts[j], d, input, runs[..j]).body, past + CallsOf(runs[..j]));
    }
  }

  ghost predicate SendsReply(d: map<string, Json>, reply: Bytes, calls: Trace) {
    && |calls| == 1 && calls[0].Called?
    && ("parameters" !in d ==> calls[0].sent.call.body == reply)
    && ("parameters" in d && d["parameters"].Object? && reply.json.Some? && reply.json.value.Object? ==>
         Overlaid(calls[0].sent.call.body, reply.json.value.fields, d["parameters"].fields))
  }
}
