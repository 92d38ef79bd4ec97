/**
  The semaphore around service calls, with any number of requests and ensembles nested to any depth.
  A goroutine is a stack of activations: handlers, ensembles waiting for the goroutines they started,
  and on top perhaps a service call that waits for a permit or holds one.
 */
module Permits {
  import opened Graph

  const MAX_GOROUTINES := 1024

  datatype Frame =
    | Handler
    | Join(children: set<nat>)
    | Wanting
    | Holding

  /** Goroutines in the order they were started; an empty stack is one that has nothing left to do but send. */
  datatype State = State(free: nat, stacks: seq<seq<Frame>>)

  datatype Action =
    | Request                       // an incoming request starts a goroutine
    | Enter(k: nat)                 // a handler routes to a nested node
    | Fork(k: nat, workers: nat)    // a handler starts the workers of an ensemble
    | CallService(k: nat)           // a handler comes to a leaf step
    | Acquire(k: nat)
    | Release(k: nat)               // the call is over, well or badly
    | Return(k: nat)                // a handler is done
    | Collect(k: nat)               // an ensemble has what it needs

  function Top(s: State, k: nat): Option<Frame> {
    if k < |s.stacks| && s.stacks[k] != [] then Some(s.stacks[k][|s.stacks[k]| - 1]) else None
  }

  function Pop(st: seq<Frame>): seq<Frame>
    requires st != []
  {
    st[..|st| - 1]
  }

  function Fresh(n: nat, workers: nat): set<nat> {
    if workers == 0 then {} else Fresh(n, workers - 1) + {n + workers - 1}
  }

  function Started(workers: nat): seq<seq<Frame>> {
    if workers == 0 then [] else Started(workers - 1) + [[Handler]]
  }

  /** An ensemble may be left once all its workers are through, or early, after the message of one. */
  predicate MayCollect(s: State, children: set<nat>) {
    || (forall c :: c in children ==> c < |s.stacks| && s.stacks[c] == [])
    || (exists c :: c in children && c < |s.stacks| && s.stacks[c] == [])
  }

  function Next(s: State, a: Action): Option<State> {
    match a
    case Request => Some(s.(stacks := s.stacks + [[Handler]]))
    case Enter(k) =>
      if Top(s, k) != Some(Handler) then None else Some(s.(stacks := s.stacks[k := s.stacks[k] + [Handler]]))
    case CallService(k) =>
      if Top(s, k) != Some(Handler) then None else Some(s.(stacks := s.stacks[k := s.stacks[k] + [Wanting]]))
    case Fork(k, workers) =>
      if Top(s, k) != Some(Handler) then None
      else Some(s.(stacks := s.stacks[k := s.stacks[k] + [Join(Fresh(|s.stacks|, workers))]] + Started(workers)))
    case Acquire(k) =>
      if Top(s, k) != Some(Wanting) || s.free == 0 then None
      else Some(State(s.free - 1, s.stacks[k := Pop(s.stacks[k]) + [Holding]]))
    case Release(k) =>
      if Top(s, k) != Some(Holding) then None else Some(State(s.free + 1, s.stacks[k := Pop(s.stacks[k])]))
    case Return(k) =>
      if Top(s, k) != Some(Handler) then None else Some(s.(stacks := s.stacks[k := Pop(s.stacks[k])]))
    case Collect(k) =>
      var top := Top(s, k);
      if top.None? || !top.value.Join? || !MayCollect(s, top.value.children) then None
      else Some(s.(stacks := s.stacks[k := Pop(s.stacks[k])]))
  }

  // ----- the invariant -----

  function HeldBy(st: seq<Frame>): nat {
    if st == [] then 0 else HeldBy(Pop(st)) + if st[|st| - 1].Holding? then 1 else 0
  }

  function Held(stacks: seq<seq<Frame>>): nat {
    if stacks == [] then 0 else Held(stacks[..|stacks| - 1]) + HeldBy(stacks[|stacks| - 1])
  }

  /** Service calls are on top only; an ensemble waits for goroutines started after its own. */
  predicate WellFormed(stacks: seq<seq<Frame>>) {
    forall k, i :: 0 <= k < |stacks| && 0 <= i < |stacks[k]| ==>
      && ((stacks[k][i].Wanting? || stacks[k][i].Holding?) ==> i == |stacks[k]| - 1)
      && (stacks[k][i].Join? ==> forall c :: c in stacks[k][i].children ==> k < c < |stacks|)
  }

  ghost predicate Inv(s: State) {
    s.free + Held(s.stacks) == MAX_GOROUTINES && WellFormed(s.stacks)
  }

  lemma {:induction false} HeldUpdate(stacks: seq<seq<Frame>>, k: nat, st: seq<Frame>)
    requires k < |stacks|
    ensures Held(stacks[k := st]) == Held(stacks) - HeldBy(stacks[k]) + HeldBy(st)
  {
    var last := |stacks| - 1;
    if k == last {
      assert stacks[k := st][..last] == stacks[..last];
    } else {
      HeldUpdate(stacks[..last], k, st);
      assert stacks[k := st][..last] == stacks[..last][k := st];
    }
  }

  lemma HeldPush(st: seq<Frame>, f: Frame)
    ensures HeldBy(st + [f]) == HeldBy(st) + if f.Holding? then 1 else 0
  {
    assert Pop(st + [f]) == st;
  }

  lemma {:induction false} HeldStarted(stacks: seq<seq<Frame>>, workers: nat)
    ensures Held(stacks + Started(workers)) == Held(stacks)
    ensures forall k :: 0 <= k < |Started(workers)| ==> Started(workers)[k] == [Handler]
    ensures |Started(workers)| == workers
  {
    if workers == 0 {
      assert stacks + Started(workers) == stacks;
    } else {
      HeldStarted(stacks, workers - 1);
      var all := stacks + Started(workers);
      assert all[..|all| - 1] == stacks + Started(workers - 1);
      HeldPush([], Handler);
      assert [] + [Handler] == [Handler];
    }
  }

  lemma {:induction false} FreshRange(n: nat, workers: nat)
    ensures forall c :: c in Fresh(n, workers) ==> n <= c < n + workers
  {
    if workers > 0 {
      FreshRange(n, workers - 1);
    }
  }

  lemma HeldInv(s: State, a: Action)
    requires s.free + Held(s.stacks) == MAX_GOROUTINES && Next(s, a).Some?
    ensures Next(s, a).value.free + Held(Next(s, a).value.stacks) == MAX_GOROUTINES
  {
    match a
    case Request =>
      assert Started(1) == [[Handler]];
      HeldStarted(s.stacks, 1);
    case Fork(k, workers) =>
      var join := Join(Fresh(|s.stacks|, workers));
      HeldPush(s.stacks[k], join);
      HeldUpdate(s.stacks, k, s.stacks[k] + [join]);
      HeldStarted(s.stacks[k := s.stacks[k] + [join]], workers);
    case _ =>
      var st := s.stacks[a.k];
      HeldPush(st, Handler);
      HeldPush(st, Wanting);
      HeldPush(Pop(st), Holding);
      HeldUpdate(s.stacks, a.k, Next(s, a).value.stacks[a.k]);
  }

  lemma FormInv(s: State, a: Action)
    requires WellFormed(s.stacks) && Next(s, a).Some?
    ensures WellFormed(Next(s, a).value.stacks)
  {
    match a
    case Fork(k, workers) =>
      FreshRange(|s.stacks|, workers);
      HeldStarted(s.stacks, workers);
    case _ =>
  }

  function Exec(s: State, schedule: seq<Action>): Option<State>
    decreases schedule
  {
    if schedule == [] then Some(s)
    else
      match Next(s, schedule[0])
      case None => None
      case Some(t) => Exec(t, schedule[1..])
  }

  lemma {:induction false} ExecInv(s: State, schedule: seq<Action>)
    requires Inv(s) && Exec(s, schedule).Some?
    ensures Inv(Exec(s, schedule).value)
    decreases schedule
  {
    if schedule != [] {
      HeldInv(s, schedule[0]);
      FormInv(s, schedule[0]);
      ExecInv(Next(s, schedule[0]).value, schedule[1..]);
    }
  }

  /** Held plus free permits is always 1024, and only a service call on top of its stack holds one. */
  lemma PermitsConserved(schedule: seq<Action>)
    requires Exec(State(MAX_GOROUTINES, []), schedule).Some?
    ensures
      var s := Exec(State(MAX_GOROUTINES, []), schedule).value;
      && s.free + Held(s.stacks) == 1024
      && forall k, i :: 0 <= k < |s.stacks| && 0 <= i < |s.stacks[k]| && (s.stacks[k][i].Holding? || s.stacks[k][i].Wanting?) ==>
           i == |s.stacks[k]| - 1
  {
    ExecInv(State(MAX_GOROUTINES, []), schedule);
  }

  // ----- no deadlock -----

  /** Going on with what was begun: no new request, node, ensemble or call. */
  predicate Finishing(a: Action) {
    a.Return? || a.Collect? || a.Acquire? || a.Release?
  }

  /**
    The code can do it. Next lets an ensemble go on after any one of its workers, which is more than the
    code can; once all are through nothing keeps it.
   */
  predicate Sure(s: State, a: Action) {
    a.Collect? ==>
      var top := Top(s, a.k);
      top.Some? && top.value.Join? && forall c :: c in top.value.children ==> c < |s.stacks| && s.stacks[c] == []
  }

  predicate Busy(s: State, k: nat) {
    k < |s.stacks| && s.stacks[k] != []
  }

  lemma {:induction false} SomeoneHolds(stacks: seq<seq<Frame>>) returns (k: nat)
    requires Held(stacks) > 0
    ensures k < |stacks| && HeldBy(stacks[k]) > 0
  {
    if HeldBy(stacks[|stacks| - 1]) > 0 {
      k := |stacks| - 1;
    } else {
      k := SomeoneHolds(stacks[..|stacks| - 1]);
    }
  }

  lemma {:induction false} HolderInside(st: seq<Frame>) returns (i: nat)
    requires HeldBy(st) > 0
    ensures i < |st| && st[i].Holding?
  {
    if st[|st| - 1].Holding? {
      i := |st| - 1;
    } else {
      i := HolderInside(Pop(st));
    }
  }

  /** The step the youngest busy goroutine, or a holder it waits for, can take. */
  lemma CanMove(s: State, k: nat) returns (a: Action)
    requires Inv(s) && Busy(s, k) && forall c :: k < c < |s.stacks| ==> !Busy(s, c)
    ensures Finishing(a) && Next(s, a).Some? && Sure(s, a)
  {
    match Top(s, k).value
    case Handler => a := Return(k);
    case Holding => a := Release(k);
    case Join(children) =>
      var i := |s.stacks[k]| - 1;
      assert s.stacks[k][i] == Join(children);
      forall c | c in children
        ensures c < |s.stacks| && s.stacks[c] == []
      {
        assert k < c < |s.stacks|;
        assert !Busy(s, c);
      }
      a := Collect(k);
    case Wanting =>
      if s.free > 0 {
        a := Acquire(k);
      } else {
        var h := SomeoneHolds(s.stacks);
        var i := HolderInside(s.stacks[h]);
        assert i == |s.stacks[h]| - 1;
        a := Release(h);
      }
  }

  lemma {:induction false} YoungestBusy(s: State, k: nat) returns (y: nat)
    requires Busy(s, k)
    ensures Busy(s, y) && forall c :: y < c < |s.stacks| ==> !Busy(s, c)
    decreases |s.stacks| - k
  {
    if c: nat :| k < c < |s.stacks| && Busy(s, c) {
      y := YoungestBusy(s, c);
    } else {
      y := k;
    }
  }

  /** Waiting for permits cannot deadlock: while any goroutine has work left, some goroutine can get on with its own. */
  lemma NoPermitDeadlock(schedule: seq<Action>, k: nat)
    requires Exec(State(MAX_GOROUTINES, []), schedule).Some?
    requires Busy(Exec(State(MAX_GOROUTINES, []), schedule).value, k)
    ensures
      var s := Exec(State(MAX_GOROUTINES, []), schedule).value;
      exists a: Action :: Finishing(a) && Next(s, a).Some? && Sure(s, a)
  {
    var s := Exec(State(MAX_GOROUTINES, []), schedule).value;
    ExecInv(State(MAX_GOROUTINES, []), schedule);
    var y := YoungestBusy(s, k);
    var a := CanMove(s, y);
    assert Finishing(a) && Sure(s, a);
  }

  // ----- every waiter gets its permit -----

  function LeftOn(st: seq<Frame>): nat {
    if st == [] then 0 else LeftOn(Pop(st)) + if st[|st| - 1].Wanting? then 2 else 1
  }

  /** The actions left before all goroutines are through: two for a call that waits, one for any other frame. */
  function Left(stacks: seq<seq<Frame>>): nat {
    if stacks == [] then 0 else Left(stacks[..|stacks| - 1]) + LeftOn(stacks[|stacks| - 1])
  }

  lemma {:induction false} LeftUpdate(stacks: seq<seq<Frame>>, k: nat, st: seq<Frame>)
    requires k < |stacks|
    ensures Left(stacks[k := st]) == Left(stacks) - LeftOn(stacks[k]) + LeftOn(st)
  {
    var last := |stacks| - 1;
    if k == last {
      assert stacks[k := st][..last] == stacks[..last];
    } else {
      LeftUpdate(stacks[..last], k, st);
      assert stacks[k := st][..last] == stacks[..last][k := st];
    }
  }

  lemma FinishingCounts(s: State, a: Action)
    requires Finishing(a) && Next(s, a).Some?
    ensures Left(Next(s, a).value.stacks) + 1 == Left(s.stacks)
  {
    var st := Next(s, a).value.stacks[a.k];
    LeftUpdate(s.stacks, a.k, st);
    if a.Acquire? {
      assert Pop(st) == Pop(s.stacks[a.k]);
    }
  }

  lemma {:induction false} BusyHasLeft(stacks: seq<seq<Frame>>, k: nat)
    requires k < |stacks| && stacks[k] != []
    ensures Left(stacks) > 0
  {
    if k < |stacks| - 1 {
      BusyHasLeft(stacks[..|stacks| - 1], k);
    }
  }

  lemma {:induction false} LeftHasBusy(s: State, n: nat) returns (k: nat)
    requires n <= |s.stacks| && Left(s.stacks[..n]) > 0
    ensures Busy(s, k)
  {
    assert s.stacks[..n][..n - 1] == s.stacks[..n - 1];
    if s.stacks[n - 1] != [] {
      k := n - 1;
    } else {
      k := LeftHasBusy(s, n - 1);
    }
  }

  lemma {:induction false} FinishingBounded(s: State, schedule: seq<Action>)
    requires Exec(s, schedule).Some? && forall a :: a in schedule ==> Finishing(a)
    ensures |schedule| + Left(Exec(s, schedule).value.stacks) == Left(s.stacks)
    decreases schedule
  {
    if schedule != [] {
      assert schedule[0] in schedule;
      FinishingCounts(s, schedule[0]);
      FinishingBounded(Next(s, schedule[0]).value, schedule[1..]);
    }
  }

  /**
    From every reachable state, however the goroutines are scheduled: if they only go on with what they
    have begun, they do so exactly Left times, always with a step open to the code before that, and then
    all stacks are empty and all permits back. So every call that waits does get its permit.
   */
  lemma EveryWaiterIsServed(before: seq<Action>, schedule: seq<Action>)
    requires Exec(State(MAX_GOROUTINES, []), before).Some?
    requires Exec(Exec(State(MAX_GOROUTINES, []), before).value, schedule).Some?
    requires forall a :: a in schedule ==> Finishing(a)
    ensures
      var s := Exec(State(MAX_GOROUTINES, []), before).value;
      var t := Exec(s, schedule).value;
      && |schedule| <= Left(s.stacks)
      && (|schedule| < Left(s.stacks) <==> exists a :: Finishing(a) && Next(t, a).Some? && Sure(t, a))
      && (|schedule| == Left(s.stacks) <==> forall k :: 0 <= k < |t.stacks| ==> t.stacks[k] == [])
      && (|schedule| == Left(s.stacks) ==> t.free == MAX_GOROUTINES)
  {
    var s := Exec(State(MAX_GOROUTINES, []), before).value;
    var t := Exec(s, schedule).value;
    ExecInv(State(MAX_GOROUTINES, []), before);
    ExecInv(s, schedule);
    FinishingBounded(s, schedule);
    if k :| 0 <= k < |t.stacks| && t.stacks[k] != [] {
      BusyHasLeft(t.stacks, k);
      var y := YoungestBusy(t, k);
      var a := CanMove(t, y);
      assert Finishing(a) && Sure(t, a);
    } else {
      assert t.stacks[..|t.stacks|] == t.stacks;
      if Left(t.stacks) > 0 {
        var k := LeftHasBusy(t, |t.stacks|);
        assert false;
      }
      NothingHeld(t.stacks);
      if a :| Finishing(a) && Next(t, a).Some? {
        FinishingCounts(t, a);
      }
    }
  }

  lemma {:induction false} NothingHeld(stacks: seq<seq<Frame>>)
    requires forall k :: 0 <= k < |stacks| ==> stacks[k] == []
    ensures Held(stacks) == 0
  {
    if stacks != [] {
      NothingHeld(stacks[..|stacks| - 1]);
    }
  }
}
