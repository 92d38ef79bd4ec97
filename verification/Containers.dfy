/**
  The container collector: an event loop and one housekeeping goroutine per added container share two
  maps without a lock. Every interleaving is a list of actions; the two deletes at the end of a
  housekeeper are separate actions, an event of the loop is one.
 */
module Containers {
  import opened Graph

  datatype Phase =
    | Waiting     // for the timer
    | Deleting    // the cgroup path was found missing
    | Purging     // the cache entry is deleted, the record not yet
    | Updating    // reading counters
    | Written     // the cache entry is written, the timer not yet reset
    | Ended

  datatype Keeper = Keeper(id: string, phase: Phase)

  /** The keys of the two maps, and all goroutines ever started. */
  datatype State = State(cache: set<string>, infos: set<string>, keepers: seq<Keeper>)

  /** What os.Stat says of the recorded cgroup path. */
  datatype Stat = Exists | NotExist | OtherError

  datatype Action =
    | Add(id: string)
    | Remove(id: string)
    | Tick(k: nat, stat: Stat)
    | PurgeCache(k: nat)
    | PurgeInfo(k: nat)
    | Write(k: nat)
    | GiveUp(k: nat)
    | Reset(k: nat)

  predicate At(s: State, k: nat, phase: Phase) {
    k < |s.keepers| && s.keepers[k].phase == phase
  }

  function Put(s: State, k: nat, phase: Phase): State
    requires k < |s.keepers|
  {
    s.(keepers := s.keepers[k := s.keepers[k].(phase := phase)])
  }

  /** None: not enabled. A container without a record has the empty path, which does not exist. */
  function Next(s: State, a: Action): Option<State> {
    match a
    case Add(id) => Some(s.(infos := s.infos + {id}, keepers := s.keepers + [Keeper(id, Waiting)]))
    case Remove(id) => Some(s.(cache := s.cache - {id}, infos := s.infos - {id}))
    case Tick(k, stat) =>
      if !At(s, k, Waiting) then None
      else if s.keepers[k].id !in s.infos || stat.NotExist? then Some(Put(s, k, Deleting))
      else if stat.OtherError? then Some(Put(s, k, Ended))
      else Some(Put(s, k, Updating))
    case PurgeCache(k) =>
      if !At(s, k, Deleting) then None
      else Some(Put(s, k, Purging).(cache := s.cache - {s.keepers[k].id}))
    case PurgeInfo(k) =>
      if !At(s, k, Purging) then None
      else Some(Put(s, k, Ended).(infos := s.infos - {s.keepers[k].id}))
    case Write(k) =>
      if !At(s, k, Updating) then None
      else Some(Put(s, k, Written).(cache := s.cache + {s.keepers[k].id}))
    case GiveUp(k) =>
      if !At(s, k, Updating) then None else Some(Put(s, k, Ended))
    case Reset(k) =>
      if !At(s, k, Written) then None else Some(Put(s, k, Waiting))
  }

  // ----- the code -----

  /** One container's event: 0 delete, 1 add, 2 add and watch. */
  datatype Info = Info(operation: int, namespace: string)

  class ContainerCollector<Stats> {
    var statsCache: map<string, Stats>
    var containerInfos: map<string, Info>
    var keepers: seq<Keeper>
    const whiteList: seq<string>

    ghost function View(): State
      reads this
    {
      State(statsCache.Keys, containerInfos.Keys, keepers)
    }

    constructor (ns: seq<string>)
      ensures View() == State({}, {}, []) && whiteList == ns
    {
      statsCache, containerInfos, keepers, whiteList := map[], map[], [], ns;
    }

    /** Whitelisted namespaces and unknown operations change nothing. */
    method ProcessContainer(id: string, info: Info)
      modifies this
      ensures info.namespace in whiteList || info.operation !in {0, 1, 2} ==> View() == old(View())
      ensures info.namespace !in whiteList && info.operation == 0 ==> Some(View()) == Next(old(View()), Remove(id))
      ensures info.namespace !in whiteList && info.operation in {1, 2} ==>
        Some(View()) == Next(old(View()), Add(id)) && containerInfos[id] == info
      ensures forall k :: k in statsCache ==> k in old(statsCache) && statsCache[k] == old(statsCache)[k]
    {
      if |whiteList| > 0 && info.namespace in whiteList {
        return;
      }
      if info.operation == 0 {
        statsCache := statsCache - {id};
        containerInfos := containerInfos - {id};
      }
      if info.operation == 1 || info.operation == 2 {
        containerInfos := containerInfos[id := info];
        assert containerInfos.Keys == old(containerInfos).Keys + {id};
        keepers := keepers + [Keeper(id, Waiting)];
      }
    }

    method HousekeepingTick(k: nat, stat: Stat)
      requires At(View(), k, Waiting)
      modifies this
      ensures Some(View()) == Next(old(View()), Tick(k, stat))
    {
      var id := keepers[k].id;
      var found := if id in containerInfos then stat else NotExist;
      var phase := match found case NotExist => Deleting case OtherError => Ended case Exists => Updating;
      keepers := keepers[k := Keeper(id, phase)];
    }

    method DeleteCache(k: nat)
      requires At(View(), k, Deleting)
      modifies this
      ensures Some(View()) == Next(old(View()), PurgeCache(k))
    {
      var id := keepers[k].id;
      statsCache := statsCache - {id};
      keepers := keepers[k := Keeper(id, Purging)];
    }

    method DeleteInfo(k: nat)
      requires At(View(), k, Purging)
      modifies this
      ensures Some(View()) == Next(old(View()), PurgeInfo(k)) && statsCache == old(statsCache)
    {
      var id := keepers[k].id;
      containerInfos := containerInfos - {id};
      keepers := keepers[k := Keeper(id, Ended)];
    }

    /** The end of an update: the counters could be read and compared, or the goroutine gives up. */
    method UpdateStats(k: nat, reading: Option<Stats>)
      requires At(View(), k, Updating)
      modifies this
      ensures reading.None? ==> Some(View()) == Next(old(View()), GiveUp(k)) && statsCache == old(statsCache)
      ensures reading.Some? ==>
        Some(View()) == Next(old(View()), Write(k)) && statsCache == old(statsCache)[old(keepers)[k].id := reading.value]
    {
      var id := keepers[k].id;
      if reading.None? {
        keepers := keepers[k := Keeper(id, Ended)];
        return;
      }
      statsCache := statsCache[id := reading.value];
      assert statsCache.Keys == old(statsCache).Keys + {id};
      keepers := keepers[k := Keeper(id, Written)];
    }
  }

  // ----- runs -----

  const Start := State({}, {}, [])

  function Exec(s: State, schedule: seq<Action>): Option<State>
    decreases schedule
  {
    if schedule == [] then Some(s)
    else
      match Next(s, schedule[0])
      case None => None
      case Some(t) => Exec(t, schedule[1..])
  }

  lemma {:induction false} ExecAppend(s: State, first: seq<Action>, later: seq<Action>)
    requires Exec(s, first).Some?
    ensures Exec(s, first + later) == Exec(Exec(s, first).value, later)
    decreases first
  {
    if first == [] {
      assert first + later == later;
    } else {
      assert (first + later)[1..] == first[1..] + later;
      ExecAppend(Next(s, first[0]).value, first[1..], later);
    }
  }

  // ----- no entry without a record or a housekeeper to clear it -----

  predicate Live(h: Keeper, id: string) {
    h.id == id && !h.phase.Ended?
  }

  ghost predicate NoneLive(s: State, id: string) {
    forall k :: 0 <= k < |s.keepers| ==> !Live(s.keepers[k], id)
  }

  /** This goroutine has not passed its next chance to clear the entry. */
  predicate WillSee(h: Keeper, id: string) {
    h.id == id && (h.phase.Waiting? || h.phase.Deleting? || h.phase.Written?)
  }

  ghost predicate Covered(s: State, id: string) {
    id in s.infos || exists k :: 0 <= k < |s.keepers| && WillSee(s.keepers[k], id)
  }

  /** At most one goroutine per container, no entry between its two deletes, and every entry covered. */
  ghost predicate SoloInv(s: State, id: string) {
    && (forall j, k :: 0 <= j < |s.keepers| && 0 <= k < |s.keepers| && Live(s.keepers[j], id) && Live(s.keepers[k], id) ==> j == k)
    && (forall k :: 0 <= k < |s.keepers| && Live(s.keepers[k], id) && s.keepers[k].phase.Purging? ==> id !in s.cache)
    && (id in s.cache ==> Covered(s, id))
  }

  /** The container is only added once the goroutines of its earlier lives have ended. */
  ghost predicate Solo(s: State, schedule: seq<Action>, id: string)
    decreases schedule
  {
    schedule == [] ||
    (&& (schedule[0] == Add(id) ==> NoneLive(s, id))
     && (Next(s, schedule[0]).Some? ==> Solo(Next(s, schedule[0]).value, schedule[1..], id)))
  }

  lemma StepSolo(s: State, a: Action, id: string)
    requires SoloInv(s, id) && Next(s, a).Some? && (a == Add(id) ==> NoneLive(s, id))
    ensures SoloInv(Next(s, a).value, id)
  {
    var t := Next(s, a).value;
    forall k | 0 <= k < |t.keepers| && Live(t.keepers[k], id)
      ensures k < |s.keepers| ==> Live(s.keepers[k], id)
    {
    }
    if id in t.cache {
      if id !in s.cache {
        assert WillSee(t.keepers[a.k], id);
      } else if id !in s.infos {
        var k :| 0 <= k < |s.keepers| && WillSee(s.keepers[k], id);
        assert Live(s.keepers[k], id) && WillSee(t.keepers[k], id);
      }
    }
  }

  lemma {:induction false} ExecSolo(s: State, schedule: seq<Action>, id: string)
    requires SoloInv(s, id) && Exec(s, schedule).Some? && Solo(s, schedule, id)
    ensures SoloInv(Exec(s, schedule).value, id)
    decreases schedule
  {
    if schedule != [] {
      StepSolo(s, schedule[0], id);
      ExecSolo(Next(s, schedule[0]).value, schedule[1..], id);
    }
  }

  /** In every such interleaving a cached container is recorded, or has a housekeeper that will look again. */
  lemma NoUncoveredEntry(schedule: seq<Action>, id: string)
    requires Exec(Start, schedule).Some? && Solo(Start, schedule, id)
    ensures SoloInv(Exec(Start, schedule).value, id)
    ensures id in Exec(Start, schedule).value.cache ==> Covered(Exec(Start, schedule).value, id)
  {
    ExecSolo(Start, schedule, id);
  }

  // ----- in other interleavings an entry can leak -----

  ghost predicate Leaked(s: State, id: string) {
    id in s.cache && id !in s.infos && NoneLive(s, id)
  }

  /** A leak is for good: only events about the same container can end it. */
  lemma {:induction false} LeakStays(s: State, schedule: seq<Action>, id: string)
    requires Leaked(s, id) && Exec(s, schedule).Some? && Add(id) !in schedule && Remove(id) !in schedule
    ensures Leaked(Exec(s, schedule).value, id)
    decreases schedule
  {
    if schedule != [] {
      var a, t := schedule[0], Next(s, schedule[0]).value;
      if !a.Add? && !a.Remove? {
        assert !Live(s.keepers[a.k], id);
      }
      LeakStays(t, schedule[1..], id);
    }
  }

  lemma AddedBetweenDeletes(c: string)
    ensures
      var s := Exec(Start, [Add(c), Tick(0, NotExist), PurgeCache(0), Add(c), Tick(1, Exists)]);
      s.Some? && s.value.cache == {} && s.value.infos == {c} && s.value.keepers == [Keeper(c, Purging), Keeper(c, Updating)]
  {
    FiveSteps(Start, [Add(c), Tick(0, NotExist), PurgeCache(0), Add(c), Tick(1, Exists)]);
  }

  /** A container added again between the two deletes of its first housekeeper leaves its entry behind. */
  lemma EntryLeaks(c: string)
    ensures
      var s := Exec(Start, [Add(c), Tick(0, NotExist), PurgeCache(0), Add(c), Tick(1, Exists)] +
                           [Write(1), Reset(1), Tick(1, Exists), GiveUp(1), PurgeInfo(0)]);
      s.Some? && s.value.cache == {c} && s.value.infos == {} && s.value.keepers == [Keeper(c, Ended), Keeper(c, Ended)]
  {
    var first := [Add(c), Tick(0, NotExist), PurgeCache(0), Add(c), Tick(1, Exists)];
    var later := [Write(1), Reset(1), Tick(1, Exists), GiveUp(1), PurgeInfo(0)];
    AddedBetweenDeletes(c);
    FiveSteps(Exec(Start, first).value, later);
    ExecAppend(Start, first, later);
  }

  function Then(s: Option<State>, a: Action): Option<State> {
    if s.None? then None else Next(s.value, a)
  }

  lemma OneStep(s: State, p: seq<Action>)
    requires p != []
    ensures Exec(s, p) == if Next(s, p[0]).None? then None else Exec(Next(s, p[0]).value, p[1..])
  {
  }

  lemma FiveSteps(s: State, p: seq<Action>)
    requires |p| == 5
    ensures Exec(s, p) == Then(Then(Then(Then(Next(s, p[0]), p[1]), p[2]), p[3]), p[4])
  {
    var s1 := Next(s, p[0]);
    var s2 := Then(s1, p[1]);
    var s3 := Then(s2, p[2]);
    var s4 := Then(s3, p[3]);
    OneStep(s, p);
    if s1.Some? {
      OneStep(s1.value, p[1..]);
      assert p[1..][1..] == p[2..];
    }
    if s2.Some? {
      OneStep(s2.value, p[2..]);
      assert p[2..][1..] == p[3..];
    }
    if s3.Some? {
      OneStep(s3.value, p[3..]);
      assert p[3..][1..] == p[4..];
    }
    if s4.Some? {
      OneStep(s4.value, p[4..]);
    }
  }

  /** Any live goroutine of a recorded container can be brought to stand between its two deletes. */
  lemma {:induction false} Drive(s: State, k: nat, id: string) returns (schedule: seq<Action>)
    requires k < |s.keepers| && Live(s.keepers[k], id)
    ensures Add(id) !in schedule
    ensures
      Exec(s, schedule).Some? &&
      var t := Exec(s, schedule).value;
      t.infos == s.infos && t.keepers == s.keepers[k := Keeper(id, Purging)]
    decreases Weight(s.keepers[k], id)
  {
    if s.keepers[k].phase.Purging? {
      return [];
    }
    var a := match s.keepers[k].phase
      case Updating => Write(k) case Written => Reset(k) case Waiting => Tick(k, NotExist) case _ => PurgeCache(k);
    var rest := Drive(Next(s, a).value, k, id);
    schedule := [a] + rest;
    assert schedule[1..] == rest;
  }

  /** From there, with a second goroutine beside it, the entry leaks. */
  lemma LeakFrom(s: State, k: nat, n: nat, id: string)
    requires k < |s.keepers| && n < |s.keepers| && k != n && id in s.infos
    requires s.keepers[k] == Keeper(id, Purging) && s.keepers[n] == Keeper(id, Waiting)
    requires forall j :: 0 <= j < |s.keepers| && j != k && j != n ==> !Live(s.keepers[j], id)
    ensures
      var t := Exec(s, [Tick(n, Exists), Write(n), Reset(n), Tick(n, OtherError), PurgeInfo(k)]);
      t.Some? && Leaked(t.value, id)
  {
    FiveSteps(s, [Tick(n, Exists), Write(n), Reset(n), Tick(n, OtherError), PurgeInfo(k)]);
  }

  /**
    The condition is exact. From every state such an interleaving reaches, adding the container can lead
    to a leak, without adding it once more, just if a goroutine of an earlier life of it is still alive.
   */
  lemma AddIsSafeExactly(s: State, id: string)
    requires SoloInv(s, id)
    ensures (exists schedule :: Add(id) !in schedule && Exec(Next(s, Add(id)).value, schedule).Some?
                                && Leaked(Exec(Next(s, Add(id)).value, schedule).value, id))
            <==> !NoneLive(s, id)
  {
    var t := Next(s, Add(id)).value;
    if NoneLive(s, id) {
      StepSolo(s, Add(id), id);
      forall schedule | Add(id) !in schedule && Exec(t, schedule).Some?
        ensures !Leaked(Exec(t, schedule).value, id)
      {
        NoAddIsSolo(t, schedule, id);
        ExecSolo(t, schedule, id);
      }
    } else {
      var k :| 0 <= k < |s.keepers| && Live(s.keepers[k], id);
      var n := |s.keepers|;
      var first := Drive(t, k, id);
      var later := [Tick(n, Exists), Write(n), Reset(n), Tick(n, OtherError), PurgeInfo(k)];
      LeakFrom(Exec(t, first).value, k, n, id);
      ExecAppend(t, first, later);
      assert Add(id) !in first + later;
    }
  }

  lemma {:induction false} NoAddIsSolo(s: State, schedule: seq<Action>, id: string)
    requires Add(id) !in schedule
    ensures Solo(s, schedule, id)
    decreases schedule
  {
    if schedule != [] && Next(s, schedule[0]).Some? {
      NoAddIsSolo(Next(s, schedule[0]).value, schedule[1..], id);
    }
  }

  // ----- a removed container's entry does not stay -----

  function Weight(h: Keeper, id: string): nat {
    if h.id != id then 0
    else
      match h.phase
      case Updating => 5
      case Written => 4
      case Waiting => 3
      case Deleting => 2
      case Purging => 1
      case Ended => 0
  }

  /** How many more actions the goroutines of a container can take once it is no longer recorded. */
  function Potential(keepers: seq<Keeper>, id: string): nat {
    if keepers == [] then 0 else Potential(keepers[..|keepers| - 1], id) + Weight(keepers[|keepers| - 1], id)
  }

  lemma {:induction false} PotentialUpdate(keepers: seq<Keeper>, id: string, k: nat, h: Keeper)
    requires k < |keepers|
    ensures Potential(keepers[k := h], id) == Potential(keepers, id) - Weight(keepers[k], id) + Weight(h, id)
  {
    var last := |keepers| - 1;
    if k == last {
      assert keepers[k := h][..last] == keepers[..last];
    } else {
      PotentialUpdate(keepers[..last], id, k, h);
      assert keepers[k := h][..last] == keepers[..last][k := h];
    }
  }

  predicate ByKeeperOf(s: State, a: Action, id: string) {
    !a.Add? && !a.Remove? && a.k < |s.keepers| && s.keepers[a.k].id == id
  }

  function TimesMoved(s: State, schedule: seq<Action>, id: string): nat
    decreases schedule
  {
    if schedule == [] then 0
    else
      (if ByKeeperOf(s, schedule[0], id) then 1 else 0) +
      match Next(s, schedule[0])
      case None => 0
      case Some(t) => TimesMoved(t, schedule[1..], id)
  }

  /** With the container not recorded, each move of one of its goroutines brings the end nearer. */
  lemma StepPotential(s: State, a: Action, id: string)
    requires id !in s.infos && a != Add(id) && Next(s, a).Some?
    ensures
      var t := Next(s, a).value;
      && id !in t.infos
      && Potential(t.keepers, id) + (if ByKeeperOf(s, a, id) then 1 else 0) <= Potential(s.keepers, id)
  {
    var t := Next(s, a).value;
    match a
    case Add(other) =>
      assert t.keepers[..|t.keepers| - 1] == s.keepers;
    case Remove(_) =>
    case _ =>
      PotentialUpdate(s.keepers, id, a.k, t.keepers[a.k]);
  }

  lemma {:induction false} ExecPotential(s: State, schedule: seq<Action>, id: string)
    requires id !in s.infos && Add(id) !in schedule && Exec(s, schedule).Some?
    ensures
      var t := Exec(s, schedule).value;
      id !in t.infos && Potential(t.keepers, id) + TimesMoved(s, schedule, id) <= Potential(s.keepers, id)
    decreases schedule
  {
    if schedule != [] {
      StepPotential(s, schedule[0], id);
      ExecPotential(Next(s, schedule[0]).value, schedule[1..], id);
    }
  }

  lemma {:induction false} LivePotential(keepers: seq<Keeper>, id: string, k: nat)
    requires k < |keepers|
    ensures Weight(keepers[k], id) <= Potential(keepers, id)
  {
    if k < |keepers| - 1 {
      LivePotential(keepers[..|keepers| - 1], id, k);
    }
  }

  /** With the container not recorded, a goroutine loses sight of the entry only by deleting it. */
  lemma {:induction false} ExecCovered(s: State, schedule: seq<Action>, id: string)
    requires id !in s.infos && Add(id) !in schedule && Exec(s, schedule).Some?
    requires id in s.cache ==> Covered(s, id)
    ensures id in Exec(s, schedule).value.cache ==> Covered(Exec(s, schedule).value, id)
    decreases schedule
  {
    if schedule != [] {
      var t := Next(s, schedule[0]).value;
      if id in t.cache {
        if id in s.cache {
          var k :| 0 <= k < |s.keepers| && WillSee(s.keepers[k], id);
          assert WillSee(t.keepers[k], id);
        } else {
          assert WillSee(t.keepers[schedule[0].k], id);
        }
      }
      ExecCovered(t, schedule[1..], id);
    }
  }

  /**
    A late write cannot leak for good. Once a covered container is no longer recorded, in any interleaving
    that does not add it again: its goroutines move at most Potential times, some move is open to them
    until then, and after that its cache entry is gone.
   */
  lemma LateWritesAreCleared(s: State, schedule: seq<Action>, id: string)
    requires id !in s.infos && (id in s.cache ==> Covered(s, id))
    requires Add(id) !in schedule && Exec(s, schedule).Some?
    ensures TimesMoved(s, schedule, id) <= Potential(s.keepers, id)
    ensures Potential(Exec(s, schedule).value.keepers, id) == 0 ==> id !in Exec(s, schedule).value.cache
    ensures Potential(Exec(s, schedule).value.keepers, id) > 0 ==>
      exists a :: ByKeeperOf(Exec(s, schedule).value, a, id) && Next(Exec(s, schedule).value, a).Some?
  {
    ExecPotential(s, schedule, id);
    ExecCovered(s, schedule, id);
    var t := Exec(s, schedule).value;
    if id in t.cache {
      var k :| 0 <= k < |t.keepers| && WillSee(t.keepers[k], id);
      LivePotential(t.keepers, id, k);
    }
    if Potential(t.keepers, id) > 0 {
      var k := SomeoneLive(t.keepers, id);
      var a := match t.keepers[k].phase
        case Updating => GiveUp(k) case Written => Reset(k) case Waiting => Tick(k, NotExist)
        case Deleting => PurgeCache(k) case _ => PurgeInfo(k);
      assert ByKeeperOf(t, a, id) && Next(t, a).Some?;
    }
  }

  /**
    A removed container is forgotten at once, and for good unless it is added again: whatever its
    goroutines still write, once they are through neither map has it.
   */
  lemma RemovedIsForgotten(s: State, schedule: seq<Action>, id: string)
    requires Add(id) !in schedule && Exec(Next(s, Remove(id)).value, schedule).Some?
    ensures id !in Next(s, Remove(id)).value.cache && id !in Next(s, Remove(id)).value.infos
    ensures
      var t := Exec(Next(s, Remove(id)).value, schedule).value;
      && id !in t.infos && (NoneLive(t, id) ==> id !in t.cache)
  {
    var r := Next(s, Remove(id)).value;
    ExecCovered(r, schedule, id);
    ExecPotential(r, schedule, id);
  }

  lemma {:induction false} SomeoneLive(keepers: seq<Keeper>, id: string) returns (k: nat)
    requires Potential(keepers, id) > 0
    ensures k < |keepers| && Weight(keepers[k], id) > 0
  {
    if Weight(keepers[|keepers| - 1], id) > 0 {
      k := |keepers| - 1;
    } else {
      k := SomeoneLive(keepers[..|keepers| - 1], id);
    }
  }
}
