/**
  The fan-out and fan-in of an Ensemble node as a state machine: one goroutine per step that ends in a
  blocking send on its own channel or on the shared error channel, and a collector that receives from
  left to right. A schedule is a list of actions; every interleaving is one.
 */
module EnsembleMachine {
  import opened Graph
  import opened Payload
  import opened Semantics

  /** What the goroutines compute; fixed before any of them is scheduled. */
  datatype Job = Job(w: World, steps: seq<Step>, msgs: seq<Message>)
  {
    predicate Valid() {
      |steps| == |msgs|
    }
  }

  /** A worker runs its step, is blocked in its send, or was received from and ended. */
  datatype Phase = Running | Sending | Delivered

  /** `taken` replies have been received, and perhaps the error of one worker. */
  datatype Collector =
    | At(i: nat, response: map<string, Json>)
    | Returned(out: Outcome, taken: nat, error: Option<nat>)

  datatype State = State(workers: seq<Phase>, collector: Collector, panic: Option<Panic>)

  datatype Action = Finish(k: nat) | Receive | ReceiveError(k: nat) | Conclude

  function Init(job: Job): State {
    State(seq(|job.steps|, _ => Running), At(0, map[]), None)
  }

  /** None: the action is not enabled. A panic in any goroutine ends the process. */
  function Step(job: Job, s: State, a: Action): Option<State>
    requires job.Valid() && |s.workers| == |job.steps|
  {
    if s.panic.Some? then None
    else
      match a
      case Finish(k) =>
        if k >= |s.workers| || !s.workers[k].Running? then None
        else if job.msgs[k].Panicked? then Some(s.(panic := Some(job.msgs[k].panic)))
        else Some(s.(workers := s.workers[k := Sending]))
      case Receive =>
        if !s.collector.At? || s.collector.i >= |s.workers| then None
        else
          var i := s.collector.i;
          if !s.workers[i].Sending? || !job.msgs[i].Output? then None
          else
            var Output(reply, code) := job.msgs[i];
            Some(State(s.workers[i := Delivered],
                       if !IsSuccessful(code) && job.steps[i].dependency.Hard?
                       then Returned(Answer(Some(InMemory(Encode(job.w.marshal, reply))), code), i + 1, None)
                       else At(i + 1, s.collector.response[Key(job.steps, i) := reply]),
                       None))
      case ReceiveError(k) =>
        if !s.collector.At? || s.collector.i >= |s.workers| then None
        else if k >= |s.workers| || !s.workers[k].Sending? || !job.msgs[k].Undecodable? then None
        else Some(State(s.workers[k := Delivered], Returned(Fault(500, job.msgs[k].err), s.collector.i, Some(k)), None))
      case Conclude =>
        if !s.collector.At? || s.collector.i < |s.workers| then None
        else
          var body := Encode(job.w.marshal, Object(s.collector.response));
          Some(s.(collector := Returned(Answer(Some(InMemory(body)), 200), s.collector.i, None)))
  }

  lemma StepKeepsWorkers(job: Job, s: State, a: Action)
    requires job.Valid() && |s.workers| == |job.steps|
    ensures Step(job, s, a).Some? ==> |Step(job, s, a).value.workers| == |job.steps|
  {
  }

  /** The state a schedule leads to, if each of its actions is enabled when its turn comes. */
  function Exec(job: Job, s: State, schedule: seq<Action>): (r: Option<State>)
    requires job.Valid() && |s.workers| == |job.steps|
    ensures r.Some? ==> |r.value.workers| == |job.steps|
    decreases schedule
  {
    if schedule == [] then Some(s)
    else
      StepKeepsWorkers(job, s, schedule[0]);
      match Step(job, s, schedule[0])
      case None => None
      case Some(next) => Exec(job, next, schedule[1..])
  }

  lemma {:induction false} ExecConcat(job: Job, s: State, a: seq<Action>, b: seq<Action>)
    requires job.Valid() && |s.workers| == |job.steps|
    requires Exec(job, s, a).Some?
    ensures Exec(job, s, a + b) == Exec(job, Exec(job, s, a).value, b)
    decreases a
  {
    if a == [] {
      assert a + b == b;
    } else {
      StepKeepsWorkers(job, s, a[0]);
      ExecConcat(job, Step(job, s, a[0]).value, a[1..], b);
      assert (a + b)[1..] == a[1..] + b;
    }
  }

  // ----- the invariant -----

  /** The replies before i have been received, none of them stops the collector, and no others have. */
  ghost predicate CollectedTo(job: Job, s: State, i: nat)
    requires job.Valid() && |s.workers| == |job.steps|
  {
    && i <= |job.steps|
    && (forall k :: 0 <= k < i ==> Passes(job.steps[k], job.msgs[k]))
    && (forall k :: 0 <= k < |job.steps| ==> (s.workers[k].Delivered? <==> k < i))
  }

  ghost predicate ReturnedRight(job: Job, s: State)
    requires job.Valid() && |s.workers| == |job.steps| && s.collector.Returned?
  {
    var Returned(out, taken, error) := s.collector;
    && taken <= |job.steps|
    && (forall k :: 0 <= k < |job.steps| ==> (s.workers[k].Delivered? <==> k < taken || error == Some(k)))
    && (error.Some? ==>
         && taken <= error.value < |job.msgs|
         && job.msgs[error.value].Undecodable?
         && out == Fault(500, job.msgs[error.value].err))
    && (error.None? ==>
         && out == LeftToRight(job.w, job.steps, job.msgs)
         && (forall k :: 0 <= k < taken ==> job.msgs[k].Output?)
         && var stop := FirstStop(job.steps, job.msgs, 0);
            taken == if stop < |job.steps| then stop + 1 else stop)
  }

  ghost predicate Inv(job: Job, s: State) {
    && job.Valid() && |s.workers| == |job.steps|
    && (forall k :: 0 <= k < |job.steps| && !s.workers[k].Running? ==> !job.msgs[k].Panicked?)
    && (s.panic.Some? ==> exists k :: 0 <= k < |job.msgs| && job.msgs[k] == Panicked(s.panic.value))
    && match s.collector
       case At(i, response) => CollectedTo(job, s, i) && response == Combined(job.steps, job.msgs, i)
       case Returned(_, _, _) => ReturnedRight(job, s)
  }

  /** The collector stops at the first message it does not go past. */
  lemma StopHere(job: Job, i: nat)
    requires job.Valid() && i <= |job.steps|
    requires forall k :: 0 <= k < i ==> Passes(job.steps[k], job.msgs[k])
    requires i < |job.steps| ==> !Passes(job.steps[i], job.msgs[i])
    ensures FirstStop(job.steps, job.msgs, 0) == i
  {
  }

  lemma ReceiveInv(job: Job, s: State)
    requires Inv(job, s) && Step(job, s, Receive).Some?
    ensures Inv(job, Step(job, s, Receive).value)
  {
    var i := s.collector.i;
    if Passes(job.steps[i], job.msgs[i]) {
    } else {
      StopHere(job, i);
    }
  }

  lemma StepInv(job: Job, s: State, a: Action)
    requires Inv(job, s) && Step(job, s, a).Some?
    ensures Inv(job, Step(job, s, a).value)
  {
    match a
    case Finish(k) =>
    case Receive => ReceiveInv(job, s);
    case ReceiveError(k) =>
    case Conclude => StopHere(job, s.collector.i);
  }

  lemma {:induction false} ExecInv(job: Job, s: State, schedule: seq<Action>)
    requires Inv(job, s) && Exec(job, s, schedule).Some?
    ensures Inv(job, Exec(job, s, schedule).value)
    decreases schedule
  {
    if schedule != [] {
      StepInv(job, s, schedule[0]);
      ExecInv(job, Step(job, s, schedule[0]).value, schedule[1..]);
    }
  }

  lemma ScheduleInv(job: Job, schedule: seq<Action>)
    requires job.Valid() && Exec(job, Init(job), schedule).Some?
    ensures Inv(job, Exec(job, Init(job), schedule).value)
  {
    ExecInv(job, Init(job), schedule);
  }

  // ----- every interleaving gives an answer of the semantics -----

  /** Whatever the interleaving, the node's answer, or the panic that ends it, is one `EnsembleAnswer`. */
  lemma AnswersAreChoices(job: Job, schedule: seq<Action>)
    requires job.Valid() && Exec(job, Init(job), schedule).Some?
    ensures
      var s := Exec(job, Init(job), schedule).value;
      && (s.collector.Returned? ==>
           exists choice :: s.collector.out == EnsembleAnswer(job.w, job.steps, job.msgs, choice))
      && (s.panic.Some? ==>
           exists choice :: Crash(s.panic.value) == EnsembleAnswer(job.w, job.steps, job.msgs, choice))
  {
    ScheduleInv(job, schedule);
    var s := Exec(job, Init(job), schedule).value;
    if s.collector.Returned? {
      var choice: nat := if s.collector.error.Some? then s.collector.error.value else |job.msgs|;
      assert s.collector.out == EnsembleAnswer(job.w, job.steps, job.msgs, choice);
    }
    if s.panic.Some? {
      var k :| 0 <= k < |job.msgs| && job.msgs[k] == Panicked(s.panic.value);
      assert Crash(s.panic.value) == EnsembleAnswer(job.w, job.steps, job.msgs, k);
    }
  }

  /** With a decodable reply from every worker there is one answer, the left-to-right one. */
  lemma ScheduleIndependent(job: Job, schedule: seq<Action>)
    requires job.Valid() && forall k :: 0 <= k < |job.msgs| ==> job.msgs[k].Output?
    requires Exec(job, Init(job), schedule).Some?
    ensures
      var s := Exec(job, Init(job), schedule).value;
      s.panic.None? && (s.collector.Returned? ==> s.collector.out == LeftToRight(job.w, job.steps, job.msgs))
  {
    ScheduleInv(job, schedule);
  }

  /** The left-to-right answer in full: the lowest Hard step that failed, or the map of all replies. */
  lemma LeftToRightAnswer(job: Job, h: nat)
    requires job.Valid() && forall k :: 0 <= k < |job.msgs| ==> job.msgs[k].Output?
    ensures h < |job.steps| && job.steps[h].dependency.Hard? && !IsSuccessful(job.msgs[h].code) &&
            (forall k :: 0 <= k < h ==> job.steps[k].dependency.Hard? ==> IsSuccessful(job.msgs[k].code)) ==>
            LeftToRight(job.w, job.steps, job.msgs) ==
            Answer(Some(InMemory(Encode(job.w.marshal, job.msgs[h].reply))), job.msgs[h].code)
    ensures (forall k :: 0 <= k < |job.steps| ==> job.steps[k].dependency.Hard? ==> IsSuccessful(job.msgs[k].code)) ==>
            LeftToRight(job.w, job.steps, job.msgs) ==
            Answer(Some(InMemory(Encode(job.w.marshal, Object(Combined(job.steps, job.msgs, |job.steps|))))), 200)
  {
    var stop := FirstStop(job.steps, job.msgs, 0);
    assert stop < |job.steps| ==> !Passes(job.steps[stop], job.msgs[stop]);
    assert forall k :: 0 <= k < stop ==> Passes(job.steps[k], job.msgs[k]);
  }

  /** The reply under a key is that of the last step with the key; keys are those of the steps. */
  lemma {:induction false} CombinedLookup(steps: seq<Step>, msgs: seq<Message>, n: nat, key: string)
    requires n <= |steps| == |msgs|
    requires forall k :: 0 <= k < n ==> msgs[k].Output?
    ensures key in Combined(steps, msgs, n) <==> exists k: nat :: k < n && Key(steps, k) == key
    ensures forall k: nat :: k < n && Key(steps, k) == key && (forall l: nat :: k < l < n ==> Key(steps, l) != key) ==>
              Combined(steps, msgs, n)[key] == msgs[k].reply
  {
    if n > 0 {
      CombinedLookup(steps, msgs, n - 1, key);
      if Key(steps, n - 1) == key {
        assert n - 1 < n;
      }
    }
  }

  /** Status 200 is only reported with every reply in hand and every Hard step a success. */
  lemma NoFalseSuccess(job: Job, schedule: seq<Action>)
    requires job.Valid() && Exec(job, Init(job), schedule).Some?
    ensures
      var s := Exec(job, Init(job), schedule).value;
      s.collector.Returned? && s.collector.out.Answer? && s.collector.out.status == 200 ==>
        forall k :: 0 <= k < |job.steps| ==>
          s.workers[k].Delivered? && job.msgs[k].Output? &&
          (job.steps[k].dependency.Hard? ==> IsSuccessful(job.msgs[k].code))
  {
    ScheduleInv(job, schedule);
    var stop := FirstStop(job.steps, job.msgs, 0);
    assert forall k :: 0 <= k < stop ==> Passes(job.steps[k], job.msgs[k]);
  }

  // ----- progress -----

  ghost predicate Stuck(job: Job, s: State)
    requires job.Valid() && |s.workers| == |job.steps|
  {
    forall a :: Step(job, s, a).None?
  }

  function Below(n: nat): (r: set<nat>)
    ensures |r| == n
    ensures forall k: nat :: k in r <==> k < n
  {
    if n == 0 then {} else Below(n - 1) + {n - 1}
  }

  function StillRunning(s: State): set<nat> {
    set k | k in Below(|s.workers|) && s.workers[k].Running?
  }

  function Remaining(job: Job, s: State): int {
    if s.panic.Some? then 0
    else |StillRunning(s)| + 1 + (if s.collector.At? then |job.steps| + 1 - s.collector.i else 0)
  }

  lemma ReceivingRunsOn(job: Job, s: State, a: Action)
    requires job.Valid() && |s.workers| == |job.steps|
    requires !a.Finish? && Step(job, s, a).Some?
    ensures StillRunning(Step(job, s, a).value) == StillRunning(s)
  {
  }

  lemma StepRemaining(job: Job, s: State, a: Action)
    requires Inv(job, s) && Step(job, s, a).Some?
    ensures 0 <= Remaining(job, Step(job, s, a).value) < Remaining(job, s)
  {
    var t := Step(job, s, a).value;
    StepInv(job, s, a);
    if a.Finish? {
      assert t.panic.None? ==> StillRunning(t) == StillRunning(s) - {a.k};
    } else {
      ReceivingRunsOn(job, s, a);
    }
  }

  lemma {:induction false} ExecRemaining(job: Job, s: State, schedule: seq<Action>)
    requires Inv(job, s) && Exec(job, s, schedule).Some?
    ensures |schedule| + Remaining(job, Exec(job, s, schedule).value) <= Remaining(job, s)
    decreases schedule
  {
    if schedule != [] {
      StepInv(job, s, schedule[0]);
      StepRemaining(job, s, schedule[0]);
      ExecRemaining(job, Step(job, s, schedule[0]).value, schedule[1..]);
    }
  }

  /** What a collector that has not returned is waiting for can happen. */
  function Mover(job: Job, s: State): Action
    requires job.Valid() && |s.workers| == |job.steps| && s.collector.At?
  {
    var i := s.collector.i;
    if i >= |job.steps| then Conclude
    else if s.workers[i].Running? then Finish(i)
    else if job.msgs[i].Output? then Receive
    else ReceiveError(i)
  }

  lemma Progress(job: Job, s: State)
    requires Inv(job, s) && s.panic.None? && s.collector.At?
    ensures Step(job, s, Mover(job, s)).Some?
  {
    var i := s.collector.i;
    assert i < |job.steps| ==> !s.workers[i].Delivered?;
  }

  lemma StuckIsDone(job: Job, s: State)
    requires Inv(job, s) && s.panic.None? && Stuck(job, s)
    ensures s.collector.Returned?
    ensures forall k :: 0 <= k < |job.steps| ==> !s.workers[k].Running?
  {
    if s.collector.At? {
      Progress(job, s);
      assert false;
    }
    forall k: nat | k < |job.steps|
      ensures !s.workers[k].Running?
    {
      assert Step(job, s, Finish(k)).None?;
    }
  }

  /**
    Every interleaving is finite, and where nothing can move any more the collector has returned (or a
    panic ended the process): it is never left waiting. The goroutines then left blocked for good in
    their sends are exactly those whose message was not received: all but the first `taken` and the one
    whose error was returned.
   */
  lemma CollectorAlwaysReturns(job: Job, schedule: seq<Action>)
    requires job.Valid() && Exec(job, Init(job), schedule).Some?
    ensures |schedule| <= 2 * |job.steps| + 2
    ensures
      var s := Exec(job, Init(job), schedule).value;
      Stuck(job, s) && s.panic.None? ==>
        && s.collector.Returned?
        && forall k :: 0 <= k < |job.steps| ==>
             (s.workers[k].Sending? <==> !(k < s.collector.taken || s.collector.error == Some(k)))
  {
    ScheduleInv(job, schedule);
    ExecRemaining(job, Init(job), schedule);
    assert StillRunning(Init(job)) == Below(|job.steps|);
    var s := Exec(job, Init(job), schedule).value;
    if s.panic.None? && Stuck(job, s) {
      StuckIsDone(job, s);
    }
  }

  // ----- every answer of the semantics is reached -----

  /** The schedule that runs and receives one worker after the other. */
  function InOrder(i: nat): seq<Action> {
    if i == 0 then [] else InOrder(i - 1) + [Finish(i - 1), Receive]
  }

  lemma TwoSteps(job: Job, s: State, a: Action, b: Action)
    requires job.Valid() && |s.workers| == |job.steps|
    requires Step(job, s, a).Some? && |Step(job, s, a).value.workers| == |job.steps|
    ensures Exec(job, s, [a, b]) == Step(job, Step(job, s, a).value, b)
  {
    var t := Step(job, s, a).value;
    assert [a, b][1..] == [b];
    StepKeepsWorkers(job, t, b);
    assert Exec(job, t, [b]) == Step(job, t, b);
  }

  lemma {:induction false} InOrderCollects(job: Job, i: nat)
    requires job.Valid() && i <= |job.steps|
    requires forall k :: 0 <= k < i ==> Passes(job.steps[k], job.msgs[k])
    ensures
      var s := Exec(job, Init(job), InOrder(i));
      s.Some? && s.value.collector.At? && s.value.collector.i == i && s.value.panic.None? &&
      forall k :: i <= k < |job.steps| ==> s.value.workers[k].Running?
  {
    if i > 0 {
      InOrderCollects(job, i - 1);
      var s := Exec(job, Init(job), InOrder(i - 1)).value;
      ExecConcat(job, Init(job), InOrder(i - 1), [Finish(i - 1), Receive]);
      TwoSteps(job, s, Finish(i - 1), Receive);
    }
  }

  /** A schedule for each answer the semantics allows. */
  function Witness(job: Job, choice: nat): seq<Action>
    requires job.Valid()
  {
    var stop := FirstStop(job.steps, job.msgs, 0);
    var k := if choice < |job.msgs| && !job.msgs[choice].Output? then choice else stop;
    if k < |job.msgs| && job.msgs[k].Panicked? then [Finish(k)]
    else if k < |job.msgs| && job.msgs[k].Undecodable? then [Finish(k), ReceiveError(k)]
    else if stop < |job.msgs| then InOrder(stop) + [Finish(stop), Receive]
    else InOrder(stop) + [Conclude]
  }

  /** No answer of the semantics is spurious: for each choice some interleaving gives it. */
  lemma ChoicesAreAnswers(job: Job, choice: nat)
    requires job.Valid()
    ensures
      var s := Exec(job, Init(job), Witness(job, choice));
      var out := EnsembleAnswer(job.w, job.steps, job.msgs, choice);
      && s.Some?
      && (out.Crash? ==> s.value.panic == Some(out.panic))
      && (!out.Crash? ==> s.value.collector.Returned? && s.value.collector.out == out)
  {
    var stop := FirstStop(job.steps, job.msgs, 0);
    var k := if choice < |job.msgs| && !job.msgs[choice].Output? then choice else stop;
    var s := Init(job);
    if k < |job.msgs| && job.msgs[k].Panicked? {
      assert Exec(job, s, [Finish(k)]) == Step(job, s, Finish(k));
    } else if k < |job.msgs| && job.msgs[k].Undecodable? {
      TwoSteps(job, s, Finish(k), ReceiveError(k));
    } else {
      InOrderCollects(job, stop);
      var t := Exec(job, s, InOrder(stop)).value;
      if stop < |job.msgs| {
        ExecConcat(job, s, InOrder(stop), [Finish(stop), Receive]);
        TwoSteps(job, t, Finish(stop), Receive);
      } else {
        ExecConcat(job, s, InOrder(stop), [Conclude]);
        assert Exec(job, t, [Conclude]) == Step(job, t, Conclude);
      }
      ScheduleInv(job, Witness(job, choice));
    }
  }
}
