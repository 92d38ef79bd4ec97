/**
  What an Ensemble node answers, in terms of what its steps do: of each step's own calls, reply and
  status, for all services and every interleaving.
 */
module EnsembleNodes {
  import opened Graph
  import opened Payload
  import opened Text
  import opened Semantics
  import E = EnsembleMachine

  /** The run of step i, begun by its own goroutine. */
  function StepRun(c: Ctx, n: string, i: nat, input: Bytes, past: Trace): Run
    requires Acyclic(c.g) && i < |c.g.Node(n).steps|
  {
    Execute(c, c.g.Node(n).steps[i], input, past + [Branch(i)])
  }

  lemma {:induction false} WorkersAre(c: Ctx, n: string, i: nat, k: nat, input: Bytes, past: Trace)
    requires Acyclic(c.g) && c.g.Node(n).kind.Ensemble? && i <= k < |c.g.Node(n).steps|
    ensures Workers(c, n, i, input, past)[k - i] == StepRun(c, n, k, input, past)
    decreases k - i
  {
    if i < k {
      WorkersAre(c, n, i + 1, k, input, past);
    }
  }

  // ----- what a step left, looked at by the ensemble -----

  /** The reply is an object, or null. */
  predicate Usable(out: Outcome) {
    && out.Answer? && out.body.Some?
    && out.body.value.data.json.Some?
    && (out.body.value.data.json.value.Object? || out.body.value.data.json.value.Null?)
  }

  function ReplyOf(out: Outcome): Json
    requires Usable(out)
  {
    out.body.value.data.json.value
  }

  /** A Hard dependency whose reply is there but no success. */
  predicate Failed(s: Step, out: Outcome) {
    s.dependency == Hard && out.Answer? && !(200 <= out.status <= 299)
  }

  predicate Fine(s: Step, out: Outcome) {
    Usable(out) && !Failed(s, out)
  }

  /** A reply that is no object: the decoding error is the node's. */
  predicate Garbled(out: Outcome, err: Error) {
    out.Answer? && out.body.Some? && !Usable(out) && err == DecodeFailure(out.body.value.data.text)
  }

  /** No reply to read: the goroutine panics, and the process with it. */
  predicate Kills(out: Outcome, panic: Panic) {
    || out == Crash(panic)
    || (out.Fault? && panic == NilBodyClosed(out.err))
    || (out.Answer? && out.body.None? && panic == NilBodyRead)
  }

  /** The message sent is the outcome of the step. */
  lemma MessageMeans(s: Step, out: Outcome)
    ensures Usable(out) <==> MessageOf(out).Output?
    ensures Usable(out) ==> MessageOf(out) == Output(ReplyOf(out), out.status)
    ensures Fine(s, out) <==> Passes(s, MessageOf(out))
    ensures forall err :: Garbled(out, err) <==> MessageOf(out) == Undecodable(err)
    ensures forall panic :: Kills(out, panic) <==> MessageOf(out) == Panicked(panic)
  {
  }

  lemma MessagesMean(c: Ctx, n: string, input: Bytes, past: Trace)
    requires Acyclic(c.g) && c.g.Node(n).kind.Ensemble?
    ensures
      var msgs := Messages(Workers(c, n, 0, input, past));
      && |msgs| == |c.g.Node(n).steps|
      && forall i :: 0 <= i < |msgs| ==> msgs[i] == MessageOf(StepRun(c, n, i, input, past).out)
  {
    forall i | 0 <= i < |c.g.Node(n).steps|
      ensures Workers(c, n, 0, input, past)[i] == StepRun(c, n, i, input, past)
    {
      WorkersAre(c, n, 0, i, input, past);
    }
  }

  // ----- the answer -----

  /** Step h failed, and all steps before it are fine. */
  ghost predicate FirstFailed(c: Ctx, n: string, input: Bytes, past: Trace, h: nat)
    requires Acyclic(c.g)
  {
    var steps := c.g.Node(n).steps;
    && h < |steps|
    && Usable(StepRun(c, n, h, input, past).out) && Failed(steps[h], StepRun(c, n, h, input, past).out)
    && forall k :: 0 <= k < h ==> Fine(steps[k], StepRun(c, n, k, input, past).out)
  }

  ghost predicate AllFine(c: Ctx, n: string, input: Bytes, past: Trace)
    requires Acyclic(c.g)
  {
    forall k :: 0 <= k < |c.g.Node(n).steps| ==> Fine(c.g.Node(n).steps[k], StepRun(c, n, k, input, past).out)
  }

  /** The name of a step in the answer: its own, or its index in decimal. */
  predicate IsLabel(s: Step, i: nat, key: string) {
    if s.name != "" then key == s.name else key == Itoa(i)
  }

  /** No later step has the same label. */
  ghost predicate LastLabel(steps: seq<Step>, i: nat, key: string)
    requires i < |steps|
  {
    IsLabel(steps[i], i, key) && forall l: nat :: i < l < |steps| ==> !IsLabel(steps[l], l, key)
  }

  /** Each field is the reply of the last step with that label. */
  ghost predicate AllReplies(c: Ctx, n: string, input: Bytes, past: Trace, fields: map<string, Json>)
    requires Acyclic(c.g) && AllFine(c, n, input, past)
  {
    var steps := c.g.Node(n).steps;
    && (forall key :: key in fields <==> exists i: nat :: i < |steps| && IsLabel(steps[i], i, key))
    && (forall key, i: nat :: i < |steps| && LastLabel(steps, i, key) ==>
         key in fields && fields[key] == ReplyOf(StepRun(c, n, i, input, past).out))
  }

  /** Everything an ensemble can answer, and what it means for the steps. */
  ghost predicate Explained(c: Ctx, n: string, input: Bytes, past: Trace, out: Outcome)
    requires Acyclic(c.g)
  {
    var steps := c.g.Node(n).steps;
    match out
    case Fault(status, err) =>
      status == 500 && exists i: nat :: i < |steps| && Garbled(StepRun(c, n, i, input, past).out, err)
    case Crash(panic) =>
      exists i: nat :: i < |steps| && Kills(StepRun(c, n, i, input, past).out, panic)
    case Answer(body, status) =>
      && body.Some? && !body.value.broken
      && body.value.data.json.Some? && body.value.data.text == c.w.marshal(body.value.data.json.value)
      && if 200 <= status <= 299 then
           && status == 200 && AllFine(c, n, input, past)
           && body.value.data.json.value.Object?
           && AllReplies(c, n, input, past, body.value.data.json.value.fields)
         else
           exists h: nat ::
             && FirstFailed(c, n, input, past, h)
             && status == StepRun(c, n, h, input, past).out.status
             && body.value.data.json == Some(ReplyOf(StepRun(c, n, h, input, past).out))
  }

  lemma CombinedReplies(c: Ctx, n: string, input: Bytes, past: Trace)
    requires Acyclic(c.g) && c.g.Node(n).kind.Ensemble? && AllFine(c, n, input, past)
    ensures
      var steps, msgs := c.g.Node(n).steps, Messages(Workers(c, n, 0, input, past));
      (forall k :: 0 <= k < |msgs| ==> msgs[k].Output?) && AllReplies(c, n, input, past, Combined(steps, msgs, |steps|))
  {
    var steps, msgs := c.g.Node(n).steps, Messages(Workers(c, n, 0, input, past));
    MessagesMean(c, n, input, past);
    forall i: nat | i < |steps|
      ensures msgs[i] == Output(ReplyOf(StepRun(c, n, i, input, past).out), StepRun(c, n, i, input, past).out.status)
    {
      MessageMeans(steps[i], StepRun(c, n, i, input, past).out);
    }
    forall i: nat, key | i < |steps|
      ensures IsLabel(steps[i], i, key) <==> Key(steps, i) == key
    {
    }
    forall key
      ensures key in Combined(steps, msgs, |steps|) <==> exists i: nat :: i < |steps| && IsLabel(steps[i], i, key)
      ensures forall i: nat :: i < |steps| && LastLabel(steps, i, key) ==>
                key in Combined(steps, msgs, |steps|) && Combined(steps, msgs, |steps|)[key] == ReplyOf(StepRun(c, n, i, input, past).out)
    {
      E.CombinedLookup(steps, msgs, |steps|, key);
    }
  }

  /** Under every choice of the scheduler. */
  lemma ChoiceExplained(c: Ctx, n: string, input: Bytes, past: Trace, choice: nat)
    requires Acyclic(c.g) && c.g.Node(n).kind.Ensemble?
    ensures Explained(c, n, input, past, EnsembleAnswer(c.w, c.g.Node(n).steps, Messages(Workers(c, n, 0, input, past)), choice))
  {
    var steps, msgs := c.g.Node(n).steps, Messages(Workers(c, n, 0, input, past));
    MessagesMean(c, n, input, past);
    forall i: nat | i < |steps|
      ensures Fine(steps[i], StepRun(c, n, i, input, past).out) <==> Passes(steps[i], msgs[i])
      ensures msgs[i].Output? ==> msgs[i] == Output(ReplyOf(StepRun(c, n, i, input, past).out), StepRun(c, n, i, input, past).out.status)
      ensures msgs[i].Undecodable? ==> Garbled(StepRun(c, n, i, input, past).out, msgs[i].err)
      ensures msgs[i].Panicked? ==> Kills(StepRun(c, n, i, input, past).out, msgs[i].panic)
    {
      MessageMeans(steps[i], StepRun(c, n, i, input, past).out);
    }
    if !(choice < |msgs| && !msgs[choice].Output?) {
      var stop := FirstStop(steps, msgs, 0);
      if stop == |steps| {
        CombinedReplies(c, n, input, past);
      } else if msgs[stop].Output? {
        assert FirstFailed(c, n, input, past, stop);
      }
    }
  }

  /** The run of an Ensemble node: every step is run with the node's input, and the answer is explained by theirs. */
  lemma EnsembleExplained(c: Ctx, n: string, input: Bytes, past: Trace)
    requires Acyclic(c.g) && c.g.Node(n).kind.Ensemble?
    ensures
      var run := Route(c, n, input, past);
      && |run.calls| == 1 && run.calls[0].Joined? && |run.calls[0].lanes| == |c.g.Node(n).steps|
      && (forall i :: 0 <= i < |c.g.Node(n).steps| ==> run.calls[0].lanes[i].events == StepRun(c, n, i, input, past).calls)
      && Explained(c, n, input, past, run.out)
  {
    var msgs := Messages(Workers(c, n, 0, input, past));
    assert Route(c, n, input, past) == EnsembleNode(c, n, input, past);
    forall i | 0 <= i < |c.g.Node(n).steps|
      ensures Workers(c, n, 0, input, past)[i] == StepRun(c, n, i, input, past)
    {
      WorkersAre(c, n, 0, i, input, past);
    }
    ChoiceExplained(c, n, input, past, c.w.scheduler(past, msgs));
  }

  /** With usable replies from all steps there is no choice: the first Hard failure, or everything with status 200. */
  lemma EnsembleDecided(c: Ctx, n: string, input: Bytes, past: Trace)
    requires Acyclic(c.g) && c.g.Node(n).kind.Ensemble?
    requires forall k :: 0 <= k < |c.g.Node(n).steps| ==> Usable(StepRun(c, n, k, input, past).out)
    ensures
      var out := Route(c, n, input, past).out;
      && out.Answer? && out.body.Some?
      && (out.status == 200 <==> AllFine(c, n, input, past))
      && (forall h: nat :: FirstFailed(c, n, input, past, h) ==>
           out.status == StepRun(c, n, h, input, past).out.status &&
           out.body.value.data.json == Some(ReplyOf(StepRun(c, n, h, input, past).out)))
  {
    EnsembleExplained(c, n, input, past);
    var out := Route(c, n, input, past).out;
    forall h: nat | FirstFailed(c, n, input, past, h)
      ensures !AllFine(c, n, input, past)
    {
      assert !Fine(c.g.Node(n).steps[h], StepRun(c, n, h, input, past).out);
    }
    forall g: nat, h: nat | FirstFailed(c, n, input, past, g) && FirstFailed(c, n, input, past, h)
      ensures g == h
    {
    }
  }

  // ----- every interleaving of the goroutines -----

  /** The goroutines of a node, with the messages their own steps give them. */
  function JobOf(c: Ctx, n: string, input: Bytes, past: Trace): (job: E.Job)
    requires Acyclic(c.g) && c.g.Node(n).kind.Ensemble?
    ensures job.Valid()
  {
    E.Job(c.w, c.g.Node(n).steps, Messages(Workers(c, n, 0, input, past)))
  }

  /** What any interleaving answers, or dies of, is explained by what the steps did. */
  lemma InterleavingsExplained(c: Ctx, n: string, input: Bytes, past: Trace, schedule: seq<E.Action>)
    requires Acyclic(c.g) && c.g.Node(n).kind.Ensemble?
    requires E.Exec(JobOf(c, n, input, past), E.Init(JobOf(c, n, input, past)), schedule).Some?
    ensures
      var s := E.Exec(JobOf(c, n, input, past), E.Init(JobOf(c, n, input, past)), schedule).value;
      && (s.collector.Returned? ==> Explained(c, n, input, past, s.collector.out))
      && (s.panic.Some? ==> Explained(c, n, input, past, Crash(s.panic.value)))
  {
    var job := JobOf(c, n, input, past);
    E.AnswersAreChoices(job, schedule);
    var s := E.Exec(job, E.Init(job), schedule).value;
    if s.collector.Returned? {
      var choice :| s.collector.out == EnsembleAnswer(job.w, job.steps, job.msgs, choice);
      ChoiceExplained(c, n, input, past, choice);
    }
    if s.panic.Some? {
      var choice :| Crash(s.panic.value) == EnsembleAnswer(job.w, job.steps, job.msgs, choice);
      ChoiceExplained(c, n, input, past, choice);
    }
  }
}
